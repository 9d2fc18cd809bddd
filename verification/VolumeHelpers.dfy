/** The helper containers that give file access to volumes: one per volume, kept and cached by the
    volume's name. */
module VolumeHelpers {
  import opened Text
  import Collections

  const HELPER_PREFIX := "easydeploy-volhelper-"
  const VOLUME_MOUNT := "/mnt"

  // --------------------------------------------------------------- helper names

  predicate IsPlain(c: char) {
    'a' <= c <= 'z' || 'A' <= c <= 'Z' || '0' <= c <= '9' || c == '-' || c == '_' || c == '.'
  }

  /** The characters that stay, spelled out. */
  predicate Stays(c: char) { c in LOWER || c in UPPER || c in "0123456789" || c in "-_." }

  lemma PlainMeans(c: char)
    ensures IsPlain(c) <==> Stays(c)
  {
    LowerLetter(c);
    UpperLetter(c);
    DigitCharacter(c);
  }

  function Plain(c: char): char { if IsPlain(c) then c else '-' }

  function Sanitized(s: string): (r: string)
    ensures |r| == |s| && forall i :: 0 <= i < |s| ==> r[i] == Plain(s[i])
  {
    if s == [] then [] else Sanitized(s[..|s| - 1]) + [Plain(s[|s| - 1])]
  }

  ghost predicate AllStay(s: string) { forall i :: 0 <= i < |s| ==> Stays(s[i]) }

  predicate Becomes(c: char, d: char) { d == if Stays(c) then c else '-' }

  /** Each character that may not stay becomes a hyphen. */
  ghost predicate IsSanitized(s: string, out: string) {
    |out| == |s| && forall i :: 0 <= i < |s| ==> Becomes(s[i], out[i])
  }

  lemma SanitizedMeans(s: string)
    ensures IsSanitized(s, Sanitized(s))
  {
    forall i | 0 <= i < |s| ensures Becomes(s[i], Sanitized(s)[i]) { PlainMeans(s[i]); }
  }

  method SanitizeName(s: string) returns (out: string)
    ensures out == Sanitized(s)
    ensures IsSanitized(s, out)
  {
    SanitizedMeans(s);
    out := "";
    for i := 0 to |s|
      invariant out == Sanitized(s[..i])
    {
      assert s[..i + 1][..i] == s[..i];
      if IsPlain(s[i]) { out := out + [s[i]]; } else { out := out + "-"; }
    }
    assert s[..|s|] == s;
  }

  predicate AllPlain(s: string) { forall i :: 0 <= i < |s| ==> IsPlain(s[i]) }

  /** Sanitizing changes exactly the names that hold a character Docker refuses. */
  lemma SanitizedIsIdentity(s: string)
    ensures Sanitized(s) == s <==> AllPlain(s)
    ensures Sanitized(Sanitized(s)) == Sanitized(s)
  {
    if Sanitized(s) == s {
      forall i | 0 <= i < |s| ensures IsPlain(s[i]) { assert Sanitized(s)[i] == Plain(s[i]); }
    }
  }

  /** The volume names that Docker accepts. For the empty name it makes a volume without a name, which
      the mount then tells as "". */
  predicate LegalVolume(s: string) { s == "" || (AllPlain(s) && s[0] !in {'-', '_', '.'}) }

  function HelperName(volume: string): string { HELPER_PREFIX + Sanitized(volume) }

  predicate IsHelperName(name: string) { HELPER_PREFIX <= name }

  lemma HelperNameTellsVolume(v: string, w: string)
    ensures HelperName(v) == HelperName(w) <==> Sanitized(v) == Sanitized(w)
    ensures HelperName(v)[|HELPER_PREFIX|..] == Sanitized(v) && IsHelperName(HelperName(v))
  {
    assert HelperName(w)[|HELPER_PREFIX|..] == Sanitized(w);
  }

  // ------------------------------------------------------------------- the host

  datatype Mount = Mount(volume: string, target: string)
  datatype Box = Box(name: string, mounts: seq<Mount>, running: bool, helper: bool)

  /** A helper-named container mounts the volume its name tells, and nothing else. */
  predicate MountsItsVolume(b: Box) {
    IsHelperName(b.name) ==> b.mounts == [Mount(b.name[|HELPER_PREFIX|..], VOLUME_MOUNT)]
  }

  predicate SameName(boxes: map<nat, Box>, i: nat, j: nat) {
    i in boxes && j in boxes && boxes[i].name == boxes[j].name ==> i == j
  }

  predicate BoxSane(boxes: map<nat, Box>, nextId: nat, i: nat) {
    i in boxes ==> i < nextId && MountsItsVolume(boxes[i])
  }

  /** A cached id, if its container still exists, is the helper of that volume; and a helper that
      exists under a plain name is the cached one. */
  predicate CacheSane(boxes: map<nat, Box>, nextId: nat, cache: map<string, nat>, v: string) {
    v in cache ==> cache[v] < nextId && (cache[v] in boxes ==> boxes[cache[v]].name == HelperName(v))
  }

  predicate CacheFresh(boxes: map<nat, Box>, cache: map<string, nat>, v: string, i: nat) {
    v in cache && Sanitized(v) == v && i in boxes && boxes[i].name == HelperName(v) ==> cache[v] == i
  }

  ghost predicate Coherent(boxes: map<nat, Box>, nextId: nat, cache: map<string, nat>) {
    && (forall i, j :: SameName(boxes, i, j))
    && (forall i :: BoxSane(boxes, nextId, i))
    && (forall v :: CacheSane(boxes, nextId, cache, v))
    && forall v, i :: CacheFresh(boxes, cache, v, i)
  }

  /** Containers only went away or were stopped, and cache entries only went away. */
  predicate Subdued(before: map<nat, Box>, after: map<nat, Box>, i: nat) {
    i in after ==> i in before && after[i] == before[i].(running := after[i].running)
  }

  lemma SubduedCoherent(before: map<nat, Box>, nextId: nat, cache: map<string, nat>,
                        after: map<nat, Box>, cache': map<string, nat>)
    requires Coherent(before, nextId, cache)
    requires forall i :: Subdued(before, after, i)
    requires forall v :: v in cache' ==> v in cache && cache'[v] == cache[v]
    ensures Coherent(after, nextId, cache')
  {
    forall i, j ensures SameName(after, i, j) {
      assert SameName(before, i, j) && Subdued(before, after, i) && Subdued(before, after, j);
    }
    forall i ensures BoxSane(after, nextId, i) { assert BoxSane(before, nextId, i) && Subdued(before, after, i); }
    forall v ensures CacheSane(after, nextId, cache', v) {
      assert CacheSane(before, nextId, cache, v);
      if v in cache' { assert Subdued(before, after, cache'[v]); }
    }
    forall v, i
      ensures CacheFresh(after, cache', v, i)
    {
      assert CacheFresh(before, cache, v, i) && Subdued(before, after, i);
    }
  }

  /** Caching a helper that was found by name. */
  lemma HelperFound(boxes: map<nat, Box>, nextId: nat, cache: map<string, nat>, v: string, id: nat)
    requires Coherent(boxes, nextId, cache) && id in boxes && boxes[id].name == HelperName(v)
    ensures Coherent(boxes, nextId, cache[v := id])
  {
    var cache' := cache[v := id];
    assert BoxSane(boxes, nextId, id);
    forall w ensures CacheSane(boxes, nextId, cache', w) { assert CacheSane(boxes, nextId, cache, w); }
    forall w, i ensures CacheFresh(boxes, cache', w, i) {
      assert CacheFresh(boxes, cache, w, i) && SameName(boxes, id, i);
    }
  }

  /** A new container under a free name leaves the cache right, unless it is the helper of a volume
      that has an entry. */
  lemma BoxCreated(before: map<nat, Box>, nextId: nat, cache: map<string, nat>, b: Box)
    requires Coherent(before, nextId, cache) && MountsItsVolume(b)
    requires forall i :: i in before ==> before[i].name != b.name
    requires forall w :: w in cache && Sanitized(w) == w ==> HelperName(w) != b.name
    ensures Coherent(before[nextId := b], nextId + 1, cache)
  {
    var after, next := before[nextId := b], nextId + 1;
    forall i, j ensures SameName(after, i, j) {
      assert SameName(before, i, j) && BoxSane(before, nextId, i) && BoxSane(before, nextId, j);
    }
    forall i ensures BoxSane(after, next, i) { assert BoxSane(before, nextId, i); }
    forall w ensures CacheSane(after, next, cache, w) { assert CacheSane(before, nextId, cache, w); }
    forall w, i ensures CacheFresh(after, cache, w, i) { assert CacheFresh(before, cache, w, i); }
  }

  function NewHelper(v: string): Box { Box(HelperName(v), [Mount(v, VOLUME_MOUNT)], false, true) }

  lemma HelperCreated(before: map<nat, Box>, nextId: nat, cache: map<string, nat>, v: string)
    requires Coherent(before, nextId, cache) && v !in cache && Sanitized(v) == v
    requires forall i :: i in before ==> before[i].name != HelperName(v)
    ensures var after := before[nextId := NewHelper(v)];
            Coherent(after, nextId + 1, cache) && Coherent(after, nextId + 1, cache[v := nextId])
  {
    HelperNameTellsVolume(v, v);
    forall w | w in cache && Sanitized(w) == w ensures HelperName(w) != HelperName(v) { HelperNameTellsVolume(v, w); }
    BoxCreated(before, nextId, cache, NewHelper(v));
    HelperFound(before[nextId := NewHelper(v)], nextId + 1, cache, v, nextId);
  }

  class Client {
    var boxes: map<nat, Box>
    var nextId: nat
    var volHelpers: map<string, nat>
    ghost var faults: nat

    ghost predicate Valid() reads this { Coherent(boxes, nextId, volHelpers) }

    constructor ()
      ensures Valid() && boxes == map[] && volHelpers == map[]
    {
      boxes, nextId, volHelpers, faults := map[], 0, map[], 0;
      new;
      forall i, j ensures SameName(boxes, i, j) { }
      forall i ensures BoxSane(boxes, nextId, i) { }
      forall v ensures CacheSane(boxes, nextId, volHelpers, v) { }
      forall v, i ensures CacheFresh(boxes, volHelpers, v, i) { }
    }

    // -- Docker

    method Inspect(id: nat) returns (r: Option<Box>)
      modifies this`faults
      ensures r.Some? ==> id in boxes && boxes[id] == r.value && faults == old(faults)
      ensures r.None? ==> faults == old(faults) + 1 || (faults == old(faults) && id !in boxes)
    {
      if id in boxes {
        if * {
          faults := faults + 1;
          return None;
        }
        return Some(boxes[id]);
      }
      r := None;
    }

    method InspectByName(name: string) returns (r: Option<nat>)
      modifies this`faults
      ensures r.Some? ==> r.value in boxes && boxes[r.value].name == name && faults == old(faults)
      ensures r.None? ==>
        faults == old(faults) + 1 || (faults == old(faults) && forall i :: i in boxes ==> boxes[i].name != name)
    {
      if i :| i in boxes && boxes[i].name == name {
        if * {
          faults := faults + 1;
          return None;
        }
        return Some(i);
      }
      r := None;
    }

    method Remove(id: nat)
      requires Valid()
      modifies this`boxes, this`faults
      ensures Valid() && (faults == old(faults) || faults == old(faults) + 1)
      ensures boxes == if faults == old(faults) then old(boxes) - {id} else old(boxes)
    {
      if * {
        faults := faults + 1;
        return;
      }
      forall i ensures Subdued(boxes, boxes - {id}, i) { }
      SubduedCoherent(boxes, nextId, volHelpers, boxes - {id}, volHelpers);
      boxes := boxes - {id};
    }

    /** Creates a helper, stopped. The name must be free and the volume's name legal. */
    method Create(volume: string, cname: string) returns (r: Option<nat>)
      requires Valid() && volume !in volHelpers && cname == HelperName(volume)
      modifies this`boxes, this`nextId, this`faults
      ensures Valid() && (faults == old(faults) || faults == old(faults) + 1)
      ensures r.Some? ==>
        && r.value == old(nextId) && nextId == old(nextId) + 1 && faults == old(faults) && LegalVolume(volume)
        && boxes == old(boxes)[r.value := NewHelper(volume)]
        && r.value !in old(boxes)
        && Coherent(boxes, nextId, volHelpers[volume := r.value])
      ensures r.None? ==>
        && boxes == old(boxes) && nextId == old(nextId)
        && (faults > old(faults) || !LegalVolume(volume) || exists i :: i in boxes && boxes[i].name == cname)
    {
      if !LegalVolume(volume) || exists i :: i in boxes && boxes[i].name == cname { return None; }
      if * {
        faults := faults + 1;
        return None;
      }
      SanitizedIsIdentity(volume);
      HelperCreated(boxes, nextId, volHelpers, volume);
      assert BoxSane(boxes, nextId, nextId);
      boxes := boxes[nextId := Box(cname, [Mount(volume, VOLUME_MOUNT)], false, true)];
      nextId := nextId + 1;
      r := Some(nextId - 1);
    }

    // -- what happens without the client

    /** Somebody removes containers; their ids are not used again. */
    method RemovedOutside(gone: set<nat>)
      requires Valid()
      modifies this`boxes
      ensures Valid() && boxes == old(boxes) - gone
    {
      forall i ensures Subdued(boxes, boxes - gone, i) { }
      SubduedCoherent(boxes, nextId, volHelpers, boxes - gone, volHelpers);
      boxes := boxes - gone;
    }

    /** Somebody stops a container. */
    method StoppedOutside(id: nat)
      requires Valid() && id in boxes
      modifies this`boxes
      ensures Valid() && boxes == old(boxes)[id := old(boxes)[id].(running := false)]
    {
      var after := boxes[id := boxes[id].(running := false)];
      forall i ensures Subdued(boxes, after, i) { }
      SubduedCoherent(boxes, nextId, volHelpers, after, volHelpers);
      boxes := after;
    }

    /** Somebody deploys a container that is no helper. */
    method Elsewhere(b: Box)
      requires Valid() && !IsHelperName(b.name)
      modifies this`boxes, this`nextId
      ensures Valid()
      ensures boxes == if exists i :: i in old(boxes) && old(boxes)[i].name == b.name then old(boxes)
                       else old(boxes)[old(nextId) := b]
    {
      if exists i :: i in boxes && boxes[i].name == b.name { return; }
      forall w ensures HelperName(w) != b.name { HelperNameTellsVolume(w, w); }
      BoxCreated(boxes, nextId, volHelpers, b);
      boxes, nextId := boxes[nextId := b], nextId + 1;
    }

    method Start(id: nat) returns (ok: bool)
      requires Valid() && id in boxes
      modifies this`boxes, this`faults
      ensures Valid()
      ensures ok ==> faults == old(faults) && boxes == old(boxes)[id := old(boxes)[id].(running := true)]
      ensures !ok ==> faults == old(faults) + 1 && boxes == old(boxes)
    {
      if * {
        faults := faults + 1;
        return false;
      }
      var after := boxes[id := boxes[id].(running := true)];
      forall i ensures Subdued(boxes, after, i) { }
      SubduedCoherent(boxes, nextId, volHelpers, after, volHelpers);
      boxes := after;
      ok := true;
    }

    // -- the helper cache

    ghost predicate Serves(volume: string, id: nat) reads this {
      && id in boxes && boxes[id].running && boxes[id].name == HELPER_PREFIX + Sanitized(volume)
      && boxes[id].mounts == [Mount(Sanitized(volume), VOLUME_MOUNT)]
    }

    /** Only the volume's own dead helper went away, and at most its new helper came into being. */
    predicate OnlyHelperChanged(before: map<nat, Box>, volume: string, i: nat) reads this {
      && (i in before && before[i].name != HelperName(volume) ==> i in boxes && boxes[i] == before[i])
      && (i in boxes && i !in before ==> boxes[i].name == HelperName(volume))
    }

    method DropEntry(name: string)
      requires Valid()
      modifies this`volHelpers
      ensures Valid() && volHelpers == old(volHelpers) - {name}
    {
      forall i ensures Subdued(boxes, boxes, i) { }
      SubduedCoherent(boxes, nextId, volHelpers, boxes, volHelpers - {name});
      volHelpers := volHelpers - {name};
    }

    lemma HelperMounts(volume: string, id: nat)
      requires Valid() && id in boxes && boxes[id].name == HelperName(volume)
      ensures boxes[id].mounts == [Mount(Sanitized(volume), VOLUME_MOUNT)]
    {
      HelperNameTellsVolume(volume, volume);
      assert BoxSane(boxes, nextId, id);
    }

    /** The cached helper runs. */
    static predicate Serving(cache: map<string, nat>, boxes: map<nat, Box>, volume: string) {
      volume in cache && cache[volume] in boxes && boxes[cache[volume]].running
    }

    /** The cached helper, if it still runs; otherwise its entry is dropped. */
    method FromCache(name: string) returns (r: Option<nat>)
      requires Valid()
      modifies this`volHelpers, this`faults
      ensures Valid() && old(faults) <= faults
      ensures r.Some? ==> Serves(name, r.value) && name in volHelpers && volHelpers[name] == r.value
      ensures r.None? ==> name !in volHelpers
      ensures Serving(old(volHelpers), boxes, name) && faults == old(faults) ==>
        r.Some? && volHelpers == old(volHelpers)
    {
      if name !in volHelpers { return None; }
      var id := volHelpers[name];
      assert CacheSane(boxes, nextId, volHelpers, name);
      var info := Inspect(id);
      if info.Some? && info.value.running {
        HelperMounts(name, id);
        return Some(id);
      }
      DropEntry(name);
      r := None;
    }

    /** A new helper. */
    method Launch(name: string) returns (r: Option<nat>)
      requires Valid() && name !in volHelpers
      modifies this
      ensures Valid() && old(faults) <= faults
      ensures r.Some? ==> Serves(name, r.value) && name in volHelpers && volHelpers[name] == r.value
      ensures r.None? ==>
        || faults > old(faults) || !LegalVolume(name)
        || exists i :: i in old(boxes) && old(boxes)[i].name == HelperName(name)
      ensures forall i :: OnlyHelperChanged(old(boxes), name, i)
    {
      var created := Create(name, HelperName(name));
      if created.None? { return None; }
      var started := Start(created.value);
      if !started { return None; }
      HelperMounts(name, created.value);
      HelperFound(boxes, nextId, volHelpers, name, created.value);
      volHelpers := volHelpers[name := created.value];
      r := created;
    }

    /** Returns a running helper of the volume: the cached one, one found by its name, or a new one.
        It mounts exactly the volume that was asked for if the name is one that Docker accepts. */
    method VolumeHelper(name: string) returns (r: Option<nat>)
      requires Valid()
      modifies this
      ensures Valid() && old(faults) <= faults
      ensures r.Some? ==> Serves(name, r.value) && name in volHelpers && volHelpers[name] == r.value
      ensures r.Some? ==>
        && (boxes[r.value].mounts == [Mount(name, "/mnt")] <==> AllStay(name))
        && (boxes[r.value].mounts == [Mount(name, "/mnt")] ==> boxes[r.value].name == "easydeploy-volhelper-" + name)
      ensures r.None? ==> faults > old(faults) || !LegalVolume(name)
      ensures Serving(old(volHelpers), old(boxes), name) && faults == old(faults) ==>
        r == Some(old(volHelpers)[name]) && boxes == old(boxes) && volHelpers == old(volHelpers)
      ensures forall i :: OnlyHelperChanged(old(boxes), name, i)
    {
      SanitizedIsIdentity(name);
      PlainName(name);
      r := FromCache(name);
      if r.Some? { return; }
      r := InspectByName(HelperName(name));
      if r.Some? {
        if boxes[r.value].running {
          HelperMounts(name, r.value);
          HelperFound(boxes, nextId, volHelpers, name, r.value);
          volHelpers := volHelpers[name := r.value];
          return;
        }
        NameIsTaken(r.value);
        Remove(r.value);
      }
      ghost var left := boxes;
      r := Launch(name);
      forall i ensures OnlyHelperChanged(old(boxes), name, i) { assert OnlyHelperChanged(left, name, i); }
    }

    lemma PlainName(name: string)
      ensures AllPlain(name) <==> AllStay(name)
    {
      forall i | 0 <= i < |name| ensures IsPlain(name[i]) <==> Stays(name[i]) { PlainMeans(name[i]); }
    }

    lemma NameIsTaken(id: nat)
      requires Valid() && id in boxes
      ensures forall i :: i in boxes && boxes[i].name == boxes[id].name ==> i == id
    {
      forall i | i in boxes && boxes[i].name == boxes[id].name ensures i == id { assert SameName(boxes, i, id); }
    }

    lemma CachedIsOnly(name: string)
      requires Valid() && name in volHelpers
      ensures volHelpers[name] in boxes ==> boxes[volHelpers[name]].name == HelperName(name)
      ensures AllPlain(name) ==> forall i :: i in boxes && boxes[i].name == HelperName(name) ==> i == volHelpers[name]
    {
      assert CacheSane(boxes, nextId, volHelpers, name);
      SanitizedIsIdentity(name);
      forall i | AllPlain(name) && i in boxes && boxes[i].name == HelperName(name) ensures i == volHelpers[name] {
        assert CacheFresh(boxes, volHelpers, name, i);
      }
    }

    /** Removes a volume's helper: the cached one, else the one of that name. */
    method ReleaseHelper(name: string)
      requires Valid()
      modifies this
      ensures Valid() && old(faults) <= faults && name !in volHelpers
      ensures AllPlain(name) && faults == old(faults) ==> forall i :: i in boxes ==> boxes[i].name != HelperName(name)
      ensures forall i :: OnlyHelperChanged(old(boxes), name, i) && (i in boxes ==> i in old(boxes))
    {
      if name in volHelpers {
        var id := volHelpers[name];
        CachedIsOnly(name);
        DropEntry(name);
        Remove(id);
      } else {
        if id :| id in boxes && boxes[id].name == HelperName(name) {
          NameIsTaken(id);
          Remove(id);
        }
      }
    }

    /** Removes every helper. */
    method CleanupVolumeHelpers()
      requires Valid()
      modifies this`boxes, this`faults
      ensures Valid() && old(faults) <= faults
      ensures forall i :: i in boxes ==> i in old(boxes) && boxes[i] == old(boxes)[i]
      ensures forall i :: i in old(boxes) && !old(boxes)[i].helper ==> i in boxes
      ensures faults == old(faults) ==> forall i :: i in boxes ==> !boxes[i].helper
    {
      if * {
        faults := faults + 1;
        return;
      }
      var todo := set i | i in boxes && boxes[i].helper;
      while todo != {}
        invariant Valid() && old(faults) <= faults
        invariant forall i :: i in boxes ==> i in old(boxes) && boxes[i] == old(boxes)[i]
        invariant forall i :: i in old(boxes) && !old(boxes)[i].helper ==> i in boxes
        invariant forall i :: i in todo ==> i in old(boxes) && old(boxes)[i].helper
        invariant faults == old(faults) ==> forall i :: i in boxes && boxes[i].helper ==> i in todo
        decreases todo
      {
        var i := Collections.Pick(todo);
        Remove(i);
        todo := todo - {i};
      }
    }
  }
}
