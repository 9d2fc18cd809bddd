/** The API's volume handlers: the storage quota that requests are checked against before they write
    the ledger, and what their interleavings can add up to. */
module VolumeLedger {
  import opened Text
  import opened Collections
  import opened ServiceApi
  import opened VolumeOwners
  import opened VolumeSpecs

  // ---------------------------------------------------------------- the handlers

  function DiskQuotaOn(u: User, grants: map<(int, int), Grant>, env: int): Option<int> {
    if env == 0 then Some(u.diskQuotaMB)
    else if (u.id, env) in grants then Some(grants[(u.id, env)].diskQuotaMB)
    else None
  }

  /** The member may store that much: on the local host by the member's own quota, elsewhere by the grant. */
  ghost predicate MemberStores(u: User, grants: map<(int, int), Grant>, specs: Rows, env: int, sizeMB: int,
                               exclude: string)
  {
    sizeMB > 0
    && if env == 0 then u.diskQuotaMB > 0 && DiskUsage(specs, env, u.name, exclude) + sizeMB <= u.diskQuotaMB
       else
         && (u.id, env) in grants && grants[(u.id, env)].diskQuotaMB > 0
         && DiskUsage(specs, env, u.name, exclude) + sizeMB <= grants[(u.id, env)].diskQuotaMB
  }

  /** What is booked: the volume's row names the caller, or nobody if that is an administrator. */
  predicate Booked(before: Rows, after: Rows, k: Key, p: Principal, sizeMB: int) {
    after == before[k := Row(if p.admin then "" else p.name, sizeMB)]
  }

  /** A volume that is new carries a member's own label, and the one asked for if an administrator made
      it; one that exists keeps its label. */
  predicate LabelSet(before: map<Key, string>, after: map<Key, string>, k: Key, p: Principal, requested: string) {
    after == if k in before then before
             else before[k := if p.admin || p.name == "" then requested else p.name]
  }

  /** If the rows made sense before, the member is within quota afterwards. */
  ghost predicate StaysWithin(before: Rows, after: Rows, env: int, owner: string, quota: Option<int>) {
    AllNamed(before) && SaneRows(before, env, owner) ==> quota.Some? && DiskUsage(after, env, owner, "") <= quota.value
  }

  lemma CheckedStaysWithin(specs: Rows, env: int, name: string, owner: string, quota: int, sizeMB: int, exclude: string)
    requires name != "" && (exclude == "" || exclude == name)
    requires PassesCheck(specs, env, owner, quota, sizeMB, exclude)
    ensures StaysWithin(specs, specs[Key(env, name) := Row(owner, sizeMB)], env, owner, Some(quota))
  {
    if AllNamed(specs) && SaneRows(specs, env, owner) { CheckedWrite(specs, env, name, owner, quota, sizeMB, exclude); }
  }

  class VolumeServer {
    const ledger: Ledger
    const server: Server
    /** The volumes that Docker has, with their owner labels; "" is none. */
    var owners: map<Key, string>
    ghost var dockerFaults: nat

    constructor (ledger: Ledger, server: Server)
      ensures this.ledger == ledger && this.server == server && owners == map[]
    {
      this.ledger, this.server, owners := ledger, server, map[];
    }

    ghost function Now(): Books reads this`owners, ledger`specs { Books(ledger.specs, owners) }

    /** "" for administrators: they are neither limited nor named in the ledger. */
    function OwnerScope(p: Principal): string { if p.admin then "" else p.name }

    /** The caller may give a volume this size. */
    ghost predicate MayStore(p: Principal, specs: Rows, env: int, sizeMB: int, exclude: string) reads server {
      || OwnerScope(p) == ""
      || (p.userId in server.users
          && var u := server.users[p.userId];
             var q := DiskQuotaOn(u, server.grants, env);
             q.Some? && PassesCheck(specs, env, u.name, q.value, sizeMB, exclude))
    }

    /** Administrators bypass the quota, whether or not they still have a row. */
    method EnforceVolumeQuota(p: Principal, env: int, sizeMB: int, exclude: string) returns (v: Verdict)
      modifies ledger`faults
      ensures old(ledger.faults) <= ledger.faults
      ensures p.admin ==> v == Allowed(p.name)
      ensures v.Allowed? ==> (p.admin || p.userId in server.users) && ledger.faults == old(ledger.faults)
      ensures v == Refused(Failure) ==> p.userId !in server.users || ledger.faults > old(ledger.faults)
      ensures !p.admin && p.userId in server.users ==>
        var u := server.users[p.userId];
        var q := DiskQuotaOn(u, server.grants, env);
        && (v.Allowed? ==>
              v.owner == u.name && q.Some? && PassesCheck(ledger.specs, env, u.name, q.value, sizeMB, exclude))
        && (v.Refused? && v.reason != Failure ==>
              q.None? || !PassesCheck(ledger.specs, env, u.name, q.value, sizeMB, exclude))
        && (v == Refused(NoAccess) ==> q.None?)
        && (v == Refused(NoQuota) ==> q.Some? && q.value <= 0)
        && (v == Refused(NoLimits) ==> sizeMB <= 0)
      ensures ledger.faults == old(ledger.faults) && (p.admin || p.userId in server.users) ==>
        (v.Allowed? <==>
           p.admin || MemberStores(server.users[p.userId], server.grants, ledger.specs, env, sizeMB, exclude))
    {
      if p.admin { return Allowed(p.name); }
      if p.userId !in server.users { return Refused(Failure); }
      var user := server.users[p.userId];
      var answered := ledger.Query();
      if !answered { return Refused(Failure); }
      var quota := user.diskQuotaMB;
      if env != 0 {
        answered := ledger.Query();
        if !answered { return Refused(Failure); }
        if (user.id, env) !in server.grants { return Refused(NoAccess); }
        quota := server.grants[(user.id, env)].diskQuotaMB;
      }
      if quota <= 0 { return Refused(NoQuota); }
      if sizeMB <= 0 { return Refused(NoLimits); }
      var ok, used := ledger.OwnerDiskUsageMB(env, user.name, exclude);
      if !ok { return Refused(Failure); }
      if used + sizeMB > quota { return Refused(Exceeded); }
      v := Allowed(user.name);
    }

    /** VolumeCreate: an empty name is replaced by a generated one, and a volume that exists is
        returned as it is. */
    method CreateVolume(env: int, name: string, ownerLabel: string) returns (ok: bool, volume: string)
      modifies this`dockerFaults, this`owners
      ensures dockerFaults == old(dockerFaults) + if ok then 0 else 1
      ensures !ok ==> owners == old(owners)
      ensures ok ==> volume != "" && (name != "" ==> volume == name)
      ensures ok ==>
        owners == if Key(env, volume) in old(owners) then old(owners) else old(owners)[Key(env, volume) := ownerLabel]
    {
      if * {
        dockerFaults := dockerFaults + 1;
        return false, "";
      }
      volume := name;
      if name == "" {
        var hash: string := *;
        volume := "volume-" + hash;
      }
      if Key(env, volume) !in owners { owners := owners[Key(env, volume) := ownerLabel]; }
      ok := true;
    }

    /** Members get at the volumes that carry their label. */
    predicate MayTouch(p: Principal, env: int, name: string) reads this`owners {
      p.admin || (Key(env, name) in owners && owners[Key(env, name)] == p.name)
    }

    /** The guard of the routes that name a volume. */
    method RequireVolumeOwner(p: Principal, env: int, name: string) returns (ok: bool)
      modifies this`dockerFaults
      ensures old(dockerFaults) <= dockerFaults
      ensures ok ==> MayTouch(p, env, name)
      ensures !ok ==> dockerFaults > old(dockerFaults) || !MayTouch(p, env, name)
      ensures dockerFaults == old(dockerFaults) ==>
        (ok <==> p.admin || (Key(env, name) in owners && owners[Key(env, name)] == p.name))
    {
      if p.admin { return true; }
      if * {
        dockerFaults := dockerFaults + 1;
        return false;
      }
      ok := Key(env, name) in owners && owners[Key(env, name)] == p.name;
    }

    /** Members own what they create; administrators may label it as they like. */
    function LabelOf(p: Principal, requested: string): string
    {
      if OwnerScope(p) != "" then OwnerScope(p) else requested
    }

    method HandleCreateVolume(p: Principal, env: int, name: string, requested: string, sizeMB: int)
      returns (ok: bool, ghost volume: string)
      modifies this`dockerFaults, this`owners, ledger
      ensures !ok ==> || ledger.faults > old(ledger.faults) || dockerFaults > old(dockerFaults)
                      || !MayStore(p, old(ledger.specs), env, sizeMB, "")
      ensures Now() == old(Now())
              || (volume != "" && (name != "" ==> volume == name)
                  && Now() == Apply(old(Now()),
                                    Create(Key(env, volume), OwnerScope(p), LabelOf(p, requested), sizeMB, ok)))
      ensures ok ==>
        Now() == Apply(old(Now()), Create(Key(env, volume), OwnerScope(p), LabelOf(p, requested), sizeMB, true))
      ensures ok ==>
        && volume != "" && (name != "" ==> volume == name)
        && Booked(old(ledger.specs), ledger.specs, Key(env, volume), p, sizeMB)
        && LabelSet(old(owners), owners, Key(env, volume), p, requested)
      ensures OwnerScope(p) != "" && ledger.specs != old(ledger.specs) ==>
        && p.userId in server.users
        && var u := server.users[p.userId];
           (u.name == p.name ==>
              StaysWithin(old(ledger.specs), ledger.specs, env, u.name, DiskQuotaOn(u, server.grants, env)))
    {
      volume := "";
      var owner := OwnerScope(p);
      if owner != "" {
        var v := EnforceVolumeQuota(p, env, sizeMB, "");
        if v.Refused? { return false, ""; }
      }
      var created, vol := CreateVolume(env, name, LabelOf(p, requested));
      if !created { return false, ""; }
      volume := vol;
      if owner != "" && server.users[p.userId].name == p.name {
        ghost var quota := DiskQuotaOn(server.users[p.userId], server.grants, env).value;
        CheckedStaysWithin(ledger.specs, env, vol, owner, quota, sizeMB, "");
      }
      ok := ledger.SetVolumeSize(env, vol, owner, sizeMB);
    }

    method HandleResizeVolume(p: Principal, env: int, name: string, sizeMB: int) returns (ok: bool)
      modifies this`dockerFaults, ledger
      ensures !ok ==>
        || ledger.faults > old(ledger.faults) || dockerFaults > old(dockerFaults)
        || !MayStore(p, old(ledger.specs), env, sizeMB, name) || !old(MayTouch(p, env, name))
      ensures ok ==> MayTouch(p, env, name) && Enabled(old(Now()), Resize(Key(env, name), OwnerScope(p), sizeMB))
      ensures Now() == if ok then Apply(old(Now()), Resize(Key(env, name), OwnerScope(p), sizeMB)) else old(Now())
      ensures owners == old(owners)
      ensures if ok then Booked(old(ledger.specs), ledger.specs, Key(env, name), p, sizeMB)
              else ledger.specs == old(ledger.specs)
      ensures ok && OwnerScope(p) != "" && name != "" ==>
        && p.userId in server.users
        && var u := server.users[p.userId];
           (u.name == p.name ==>
              StaysWithin(old(ledger.specs), ledger.specs, env, u.name, DiskQuotaOn(u, server.grants, env)))
    {
      ok := RequireVolumeOwner(p, env, name);
      if !ok { return; }
      var owner := OwnerScope(p);
      if owner != "" {
        var v := EnforceVolumeQuota(p, env, sizeMB, name);
        if v.Refused? { return false; }
      }
      if owner != "" && name != "" && server.users[p.userId].name == p.name {
        ghost var quota := DiskQuotaOn(server.users[p.userId], server.grants, env).value;
        CheckedStaysWithin(ledger.specs, env, name, owner, quota, sizeMB, name);
      }
      ok := ledger.SetVolumeSize(env, name, owner, sizeMB);
    }

    /** The budget is freed once Docker removed the volume; failing to is ignored. */
    method HandleRemoveVolume(p: Principal, env: int, name: string) returns (ok: bool)
      modifies this`dockerFaults, this`owners, ledger
      ensures ok ==> old(MayTouch(p, env, name)) && Enabled(old(Now()), Remove(Key(env, name), true))
      ensures !ok ==> dockerFaults > old(dockerFaults) || Key(env, name) !in old(owners) || !old(MayTouch(p, env, name))
      ensures Now() == if ok then Apply(old(Now()), Remove(Key(env, name), ledger.faults == old(ledger.faults)))
                       else old(Now())
      ensures owners == if ok then old(owners) - {Key(env, name)} else old(owners)
      ensures ledger.specs == if ok && ledger.faults == old(ledger.faults) then old(ledger.specs) - {Key(env, name)}
                              else old(ledger.specs)
    {
      ok := RequireVolumeOwner(p, env, name);
      if !ok { return; }
      if Key(env, name) !in owners { return false; }
      if * {
        dockerFaults := dockerFaults + 1;
        return false;
      }
      owners := owners - {Key(env, name)};
      var _ := ledger.DeleteVolumeSize(env, name);
      ok := true;
    }
  }

  // ------------------------------------------------------------------ interleaving

  /** A request of the member that passed its check and has not written yet. */
  datatype Pending = Pending(name: string, sizeMB: int)

  /** The table, and the member's requests that are under way on one environment. */
  datatype State = State(specs: Rows, pending: map<nat, Pending>)

  /** The environment, the member, the quota, and how many of the member's requests may be under way
      there at once. */
  datatype Setting = Setting(env: int, owner: string, quota: nat, k: nat)

  datatype Action =
    | CheckCreate(name: string, sizeMB: int)
    | CheckResize(name: string, sizeMB: int)
    | Write
    | Abandon
    | OtherWrite(key: Key, row: Row)  // an administrator, another member, or another environment
    | Delete(key: Key)

  ghost predicate Check(c: Setting, s: State, t: nat, name: string, sizeMB: int, exclude: string, s': State) {
    && t !in s.pending && |s.pending| < c.k && name != ""
    && PassesCheck(s.specs, c.env, c.owner, c.quota, sizeMB, exclude)
    && s' == s.(pending := s.pending[t := Pending(name, sizeMB)])
  }

  ghost predicate Next(c: Setting, s: State, t: nat, a: Action, s': State) {
    match a
    case CheckCreate(name, sizeMB) => Check(c, s, t, name, sizeMB, "", s')
    case CheckResize(name, sizeMB) => Check(c, s, t, name, sizeMB, name, s')
    case Write =>
      && t in s.pending
      && s' == State(s.specs[Key(c.env, s.pending[t].name) := Row(c.owner, s.pending[t].sizeMB)], s.pending - {t})
    case Abandon => t in s.pending && s' == s.(pending := s.pending - {t})
    case OtherWrite(key, row) =>
      key.name != "" && (row.owner != c.owner || key.env != c.env) && s' == s.(specs := s.specs[key := row])
    case Delete(key) => s' == s.(specs := s.specs - {key})
  }

  // -- the potential: a bound per volume that covers what is written and what may still be written

  /** The bound of a volume. */
  function Bound(b: map<Key, int>, k: Key): int { if k in b then b[k] else 0 }

  predicate RowCovered(c: Setting, s: State, b: map<Key, int>, k: Key) {
    && 0 <= Bound(b, k)
    && (k in s.specs && k.env == c.env && s.specs[k].owner == c.owner ==> s.specs[k].sizeMB <= Bound(b, k))
  }

  predicate PendingCovered(c: Setting, pending: map<nat, Pending>, b: map<Key, int>, t: nat) {
    t in pending ==> pending[t].sizeMB <= Bound(b, Key(c.env, pending[t].name))
  }

  ghost predicate Covers(c: Setting, s: State, b: map<Key, int>) {
    (forall k :: RowCovered(c, s, b, k)) && forall t :: PendingCovered(c, s.pending, b, t)
  }

  ghost predicate Affordable(c: Setting, s: State) { exists b :: Covers(c, s, b) && Total(b) <= Quotas(c.k, c.quota) }

  predicate PendingSane(c: Setting, s: State, t: nat) {
    t in s.pending ==> s.pending[t].name != "" && 0 < s.pending[t].sizeMB <= c.quota
  }

  ghost predicate Inv(c: Setting, s: State) {
    && AllNamed(s.specs) && SaneRows(s.specs, c.env, c.owner)
    && |s.pending| <= c.k
    && (forall t :: PendingSane(c, s, t))
    && Affordable(c, s)
  }

  predicate Raised(base: map<Key, int>, b: map<Key, int>, k: Key) { Bound(base, k) <= Bound(b, k) }

  predicate UpTo(pending: map<nat, Pending>, quota: int, t: nat) { t in pending ==> 0 <= pending[t].sizeMB <= quota }

  lemma RaiseBound(base: map<Key, int>, k: Key, more: nat) returns (b: map<Key, int>)
    ensures Total(b) == Total(base) + more
    ensures forall j :: Bound(b, j) == Bound(base, j) + if j == k then more else 0
  {
    b := base[k := Bound(base, k) + more];
    TotalUpdate(base, k, Bound(base, k) + more);
  }

  /** n quotas, one by one. */
  ghost function Quotas(n: nat, quota: nat): nat { if n == 0 then 0 else Quotas(n - 1, quota) + quota }

  lemma {:induction false} QuotasAre(n: nat, quota: nat)
    ensures Quotas(n, quota) == n * quota
  {
    if n > 0 {
      QuotasAre(n - 1, quota);
      OneMoreTimes(n - 1, quota);
    }
  }

  lemma {:induction false} QuotasGrow(m: nat, n: nat, quota: nat)
    requires m <= n
    ensures Quotas(m, quota) <= Quotas(n, quota)
    decreases n
  {
    if m < n { QuotasGrow(m, n - 1, quota); }
  }

  /** Each request under way adds its size to the bound of its volume. */
  lemma {:induction false} CoverPending(c: Setting, pending: map<nat, Pending>, base: map<Key, int>, quota: nat)
    returns (b: map<Key, int>)
    requires forall t :: UpTo(pending, quota, t)
    requires forall k :: 0 <= Bound(base, k)
    ensures forall k :: Raised(base, b, k)
    ensures forall t :: PendingCovered(c, pending, b, t)
    ensures Total(b) <= Total(base) + Quotas(|pending|, quota)
    decreases |pending|
  {
    if pending == map[] {
      b := base;
    } else {
      assert pending.Keys != {};
      var t :| t in pending.Keys;
      var rest, p := pending - {t}, pending[t];
      var key := Key(c.env, p.name);
      assert UpTo(pending, quota, t);
      forall u ensures UpTo(rest, quota, u) { assert UpTo(pending, quota, u); }
      var inner := CoverPending(c, rest, base, quota);
      b := RaiseBound(inner, key, p.sizeMB);
      assert |rest| == |pending| - 1;
      CoverStep(c, pending, t, base, inner, b);
    }
  }

  lemma CoverStep(c: Setting, pending: map<nat, Pending>, t: nat, base: map<Key, int>, inner: map<Key, int>,
                  b: map<Key, int>)
    requires t in pending && pending[t].sizeMB >= 0 && forall k :: 0 <= Bound(base, k)
    requires forall k :: Raised(base, inner, k)
    requires forall u :: PendingCovered(c, pending - {t}, inner, u)
    requires var key := Key(c.env, pending[t].name);
             forall j :: Bound(b, j) == Bound(inner, j) + if j == key then pending[t].sizeMB else 0
    ensures forall k :: Raised(base, b, k)
    ensures forall u :: PendingCovered(c, pending, b, u)
  {
    forall k ensures Raised(base, b, k) { assert Raised(base, inner, k); }
    forall u ensures PendingCovered(c, pending, b, u) {
      assert PendingCovered(c, pending - {t}, inner, u) && Raised(base, inner, Key(c.env, pending[t].name));
    }
  }

  /** The written sizes as a bound. */
  lemma {:induction false} WrittenBound(specs: Rows, s: set<Key>) returns (b: map<Key, int>)
    requires s <= specs.Keys
    ensures b.Keys == s && (forall k :: k in s ==> b[k] == specs[k].sizeMB)
    ensures Total(b) == Sum(s, SizeIn(specs))
  {
    if s == {} {
      b := map[];
    } else {
      var k :| k in s;
      var rest := WrittenBound(specs, s - {k});
      b := rest[k := specs[k].sizeMB];
      TotalUpdate(rest, k, specs[k].sizeMB);
      SumRemove(s, SizeIn(specs), k);
    }
  }

  /** A request that asks for more than its volume's bound resets the potential: what the check
      counted, one quota for each other request under way, and the request itself. */
  lemma CheckAffordable(c: Setting, s: State, t: nat, name: string, sizeMB: int, exclude: string, s': State)
    requires Inv(c, s) && Check(c, s, t, name, sizeMB, exclude, s') && (exclude == "" || exclude == name)
    ensures Affordable(c, s')
  {
    var b :| Covers(c, s, b) && Total(b) <= Quotas(c.k, c.quota);
    if sizeMB <= Bound(b, Key(c.env, name)) {
      forall u ensures PendingCovered(c, s'.pending, b, u) { assert PendingCovered(c, s.pending, b, u); }
      forall k ensures RowCovered(c, s', b, k) { assert RowCovered(c, s, b, k); }
      assert Covers(c, s', b);
    } else {
      FreshCover(c, s, t, name, sizeMB, exclude, s', b);
    }
  }

  /** What the check counted, and the other requests under way. */
  lemma OthersBound(c: Setting, s: State, name: string) returns (base: map<Key, int>, mid: map<Key, int>)
    requires Inv(c, s)
    ensures base.Keys == OwnedVolumes(s.specs, c.env, c.owner, name) && forall k :: k in base ==>
      base[k] == s.specs[k].sizeMB
    ensures forall k :: Raised(base, mid, k)
    ensures forall u :: PendingCovered(c, OtherPending(s.pending, name), mid, u)
    ensures Total(mid) <= DiskUsage(s.specs, c.env, c.owner, name) + Quotas(|s.pending|, c.quota)
  {
    var others := OtherPending(s.pending, name);
    base := WrittenBound(s.specs, OwnedVolumes(s.specs, c.env, c.owner, name));
    forall u ensures UpTo(others, c.quota, u) { assert PendingSane(c, s, u); }
    forall k ensures 0 <= Bound(base, k) { assert SaneRowAt(s.specs, c.env, c.owner, k); }
    mid := CoverPending(c, others, base, c.quota);
    SubsetSize(others.Keys, s.pending.Keys);
    QuotasGrow(|others|, |s.pending|, c.quota);
  }

  lemma FreshCover(c: Setting, s: State, t: nat, name: string, sizeMB: int, exclude: string, s': State,
                   was: map<Key, int>)
    requires Inv(c, s) && Check(c, s, t, name, sizeMB, exclude, s') && (exclude == "" || exclude == name)
    requires Covers(c, s, was) && Bound(was, Key(c.env, name)) < sizeMB
    ensures Affordable(c, s')
  {
    var base, mid := OthersBound(c, s, name);
    var key := Key(c.env, name);
    var b := mid[key := sizeMB];
    UsageWithout(s.specs, c.env, name, c.owner);
    assert 0 <= Bound(mid, key) by { assert Raised(base, mid, key) && SaneRowAt(s.specs, c.env, c.owner, key); }
    SetBound(mid, key, sizeMB);
    FreshTotal(c, |s.pending|, DiskUsage(s.specs, c.env, c.owner, name), sizeMB, Total(mid), Total(b));
    FreshCovers(c, s, t, name, sizeMB, exclude, s', was, base, mid);
    assert Covers(c, s', b) && Total(b) <= Quotas(c.k, c.quota);
  }

  lemma FreshTotal(c: Setting, others: nat, written: int, size: int, mid: int, total: int)
    requires others < c.k && written + size <= c.quota
    requires mid <= written + Quotas(others, c.quota) && total <= mid + size
    ensures total <= Quotas(c.k, c.quota)
  {
    QuotasGrow(others + 1, c.k, c.quota);
  }

  lemma SetBound(b: map<Key, int>, k: Key, v: int)
    requires 0 <= Bound(b, k)
    ensures Total(b[k := v]) <= Total(b) + v
  {
    TotalUpdate(b, k, v);
  }

  lemma FreshCovers(c: Setting, s: State, t: nat, name: string, sizeMB: int, exclude: string, s': State,
                    was: map<Key, int>, base: map<Key, int>, mid: map<Key, int>)
    requires Check(c, s, t, name, sizeMB, exclude, s') && Covers(c, s, was) && Bound(was, Key(c.env, name)) < sizeMB
    requires base.Keys == OwnedVolumes(s.specs, c.env, c.owner, name) && forall k :: k in base ==>
      base[k] == s.specs[k].sizeMB
    requires forall k :: Raised(base, mid, k)
    requires forall u :: PendingCovered(c, OtherPending(s.pending, name), mid, u)
    requires SaneRows(s.specs, c.env, c.owner)
    ensures Covers(c, s', mid[Key(c.env, name) := sizeMB])
  {
    var b := mid[Key(c.env, name) := sizeMB];
    forall k ensures RowCovered(c, s', b, k) {
      assert RowCovered(c, s, was, k) && Raised(base, mid, k) && SaneRowAt(s.specs, c.env, c.owner, k);
    }
    forall u ensures PendingCovered(c, s'.pending, b, u) {
      assert PendingCovered(c, OtherPending(s.pending, name), mid, u) && PendingCovered(c, s.pending, was, u);
    }
  }

  ghost function OtherPending(pending: map<nat, Pending>, name: string): map<nat, Pending> {
    pending - set t | t in pending && pending[t].name == name
  }

  /** What a check lets through is a named volume of at most the quota. */
  lemma PendingStaysSane(c: Setting, s: State, t: nat, a: Action, s': State, u: nat)
    requires Inv(c, s) && Next(c, s, t, a, s')
    ensures PendingSane(c, s', u)
  {
    assert PendingSane(c, s, u);
    match a
    case CheckCreate(_, _) => UsageWithout(s.specs, c.env, "", c.owner);
    case CheckResize(name, _) => UsageWithout(s.specs, c.env, name, c.owner);
    case _ =>
  }

  lemma RowsStaySane(c: Setting, s: State, t: nat, a: Action, s': State)
    requires Inv(c, s) && Next(c, s, t, a, s')
    ensures AllNamed(s'.specs) && SaneRows(s'.specs, c.env, c.owner)
  {
    assert PendingSane(c, s, t);
    forall k ensures NamedAt(s'.specs, k) && SaneRowAt(s'.specs, c.env, c.owner, k) {
      assert NamedAt(s.specs, k) && SaneRowAt(s.specs, c.env, c.owner, k);
    }
  }

  lemma PendingStaysFew(c: Setting, s: State, t: nat, a: Action, s': State)
    requires |s.pending| <= c.k && Next(c, s, t, a, s')
    ensures |s'.pending| <= c.k
  {
    match a
    case Write => SubsetSize(s'.pending.Keys, s.pending.Keys);
    case Abandon => SubsetSize(s'.pending.Keys, s.pending.Keys);
    case _ =>
  }

  /** Every step keeps the invariant. */
  lemma InvKept(c: Setting, s: State, t: nat, a: Action, s': State)
    requires Inv(c, s) && Next(c, s, t, a, s')
    ensures Inv(c, s')
  {
    forall u ensures PendingSane(c, s', u) { PendingStaysSane(c, s, t, a, s', u); }
    RowsStaySane(c, s, t, a, s');
    PendingStaysFew(c, s, t, a, s');
    StepAffordable(c, s, t, a, s');
  }

  lemma StepAffordable(c: Setting, s: State, t: nat, a: Action, s': State)
    requires Inv(c, s) && Next(c, s, t, a, s')
    ensures Affordable(c, s')
  {
    match a
    case CheckCreate(name, sizeMB) => CheckAffordable(c, s, t, name, sizeMB, "", s');
    case CheckResize(name, sizeMB) => CheckAffordable(c, s, t, name, sizeMB, name, s');
    case _ => OtherStepAffordable(c, s, t, a, s');
  }

  lemma OtherStepAffordable(c: Setting, s: State, t: nat, a: Action, s': State)
    requires Inv(c, s) && Next(c, s, t, a, s') && !a.CheckCreate? && !a.CheckResize?
    ensures Affordable(c, s')
  {
    var b :| Covers(c, s, b) && Total(b) <= Quotas(c.k, c.quota);
    assert PendingCovered(c, s.pending, b, t) && PendingSane(c, s, t);
    forall k ensures RowCovered(c, s', b, k) { assert RowCovered(c, s, b, k); }
    forall u ensures PendingCovered(c, s'.pending, b, u) { assert PendingCovered(c, s.pending, b, u); }
    assert Covers(c, s', b);
  }

  // -- whole runs

  datatype Step = Step(request: nat, action: Action)

  ghost predicate StepAt(c: Setting, states: seq<State>, steps: seq<Step>, i: nat)
    requires |states| == |steps| + 1 && i < |steps|
  {
    Next(c, states[i], steps[i].request, steps[i].action, states[i + 1])
  }

  /** It starts with nothing under way and the member within quota. */
  ghost predicate Init(c: Setting, s: State) {
    && s.pending == map[] && AllNamed(s.specs) && SaneRows(s.specs, c.env, c.owner)
    && DiskUsage(s.specs, c.env, c.owner, "") <= c.quota
  }

  ghost predicate Run(c: Setting, states: seq<State>, steps: seq<Step>) {
    && |states| == |steps| + 1 && Init(c, states[0])
    && forall i :: 0 <= i < |steps| ==> StepAt(c, states, steps, i)
  }

  lemma InitInv(c: Setting, s: State)
    requires Init(c, s) && 1 <= c.k
    ensures Inv(c, s)
  {
    var b := WrittenBound(s.specs, OwnedVolumes(s.specs, c.env, c.owner, ""));
    forall k ensures RowCovered(c, s, b, k) {
      assert SaneRowAt(s.specs, c.env, c.owner, k) && NamedAt(s.specs, k);
    }
    forall t ensures PendingCovered(c, s.pending, b, t) && PendingSane(c, s, t) { }
    QuotasGrow(1, c.k, c.quota);
    assert Covers(c, s, b) && Total(b) <= Quotas(c.k, c.quota);
  }

  lemma {:induction false} RunKeepsInv(c: Setting, states: seq<State>, steps: seq<Step>, i: nat)
    requires 1 <= c.k && Run(c, states, steps) && i < |states|
    ensures Inv(c, states[i])
    decreases i
  {
    if i == 0 {
      InitInv(c, states[0]);
    } else {
      RunKeepsInv(c, states, steps, i - 1);
      assert StepAt(c, states, steps, i - 1);
      InvKept(c, states[i - 1], steps[i - 1].request, steps[i - 1].action, states[i]);
    }
  }

  /** With at most k of a member's requests between their check and their write, the member's
      ledger total never exceeds k quotas, over any interleaving of creating, resizing and deleting
      volumes with the writes of others. One request at a time never exceeds the quota. */
  lemma LedgerBounded(c: Setting, states: seq<State>, steps: seq<Step>, i: nat)
    requires 1 <= c.k && Run(c, states, steps) && i < |states|
    ensures DiskUsage(states[i].specs, c.env, c.owner, "") <= c.k * c.quota
    ensures c.k == 1 ==> DiskUsage(states[i].specs, c.env, c.owner, "") <= c.quota
  {
    RunKeepsInv(c, states, steps, i);
    var s := states[i];
    var b :| Covers(c, s, b) && Total(b) <= Quotas(c.k, c.quota);
    CoveredUsage(c, s, b);
    QuotasAre(c.k, c.quota);
  }

  lemma CoveredUsage(c: Setting, s: State, b: map<Key, int>)
    requires Covers(c, s, b)
    ensures DiskUsage(s.specs, c.env, c.owner, "") <= Total(b)
  {
    var volumes, f := OwnedVolumes(s.specs, c.env, c.owner, ""), SizeIn(s.specs);
    forall k ensures BelowAt(volumes, f, b.Keys, ValueIn(b), k) { assert RowCovered(c, s, b, k); }
    SumMonotone(volumes, f, b.Keys, ValueIn(b));
  }

  // -- the bound is reached

  function VolumeName(t: nat): string { "v" + Itoa(t) }

  lemma VolumeNames(t: nat, u: nat)
    ensures VolumeName(t) == VolumeName(u) <==> t == u
    ensures VolumeName(t) != ""
  {
    assert VolumeName(t)[1..] == Itoa(t) && VolumeName(u)[1..] == Itoa(u);
    if Itoa(t) == Itoa(u) { ItoaInjective(t, u); }
  }

  /** Requests lo..hi-1 are under way, each for a volume of its own that takes the whole quota. */
  function Waiting(c: Setting, lo: nat, hi: nat): map<nat, Pending>
    decreases hi
  {
    if hi <= lo then map[] else Waiting(c, lo, hi - 1)[hi - 1 := Pending(VolumeName(hi - 1), c.quota)]
  }

  lemma {:induction false} WaitingMembers(c: Setting, lo: nat, hi: nat)
    ensures forall t :: t in Waiting(c, lo, hi) <==> lo <= t < hi
    ensures forall t :: lo <= t < hi ==> Waiting(c, lo, hi)[t] == Pending(VolumeName(t), c.quota)
    ensures lo <= hi ==> |Waiting(c, lo, hi)| == hi - lo
    decreases hi
  {
    if lo < hi { WaitingMembers(c, lo, hi - 1); }
  }

  /** Volumes 0..j-1 are written. */
  function Written(c: Setting, j: nat): Rows {
    if j == 0 then map[] else Written(c, j - 1)[Key(c.env, VolumeName(j - 1)) := Row(c.owner, c.quota)]
  }

  lemma {:induction false} WrittenNames(c: Setting, j: nat, t: nat)
    ensures Key(c.env, VolumeName(t)) in Written(c, j) ==> t < j
    ensures AllNamed(Written(c, j))
    decreases j
  {
    if j > 0 {
      WrittenNames(c, j - 1, t);
      VolumeNames(t, j - 1);
      VolumeNames(j - 1, j - 1);
      forall k ensures NamedAt(Written(c, j), k) { assert NamedAt(Written(c, j - 1), k); }
    }
  }

  lemma {:induction false} WrittenUsage(c: Setting, j: nat)
    ensures DiskUsage(Written(c, j), c.env, c.owner, "") == j * c.quota
  {
    if j > 0 {
      var specs, name := Written(c, j - 1), VolumeName(j - 1);
      WrittenUsage(c, j - 1);
      WrittenNames(c, j - 1, j - 1);
      VolumeNames(j - 1, j - 1);
      UsageOfWrite(specs, c.env, name, c.owner, c.quota);
      forall k
        ensures k in OwnedVolumes(specs, c.env, c.owner, name) <==> k in OwnedVolumes(specs, c.env, c.owner, "")
      {
        assert NamedAt(specs, k);
      }
      assert OwnedVolumes(specs, c.env, c.owner, name) == OwnedVolumes(specs, c.env, c.owner, "");
      OneMoreTimes(j - 1, c.quota);
    }
  }

  function WorstState(c: Setting, i: nat): State
    requires 1 <= c.k
  {
    if i <= c.k then State(map[], Waiting(c, 0, i)) else State(Written(c, i - c.k), Waiting(c, i - c.k, c.k))
  }

  function WorstStep(c: Setting, i: nat): Step
    requires 1 <= c.k
  {
    if i < c.k then Step(i, CheckCreate(VolumeName(i), c.quota)) else Step(i - c.k, Write)
  }

  lemma WorstCheck(c: Setting, i: nat)
    requires 1 <= c.k && 1 <= c.quota && i < c.k
    ensures Next(c, WorstState(c, i), i, WorstStep(c, i).action, WorstState(c, i + 1))
  {
    WaitingMembers(c, 0, i);
    VolumeNames(i, i);
    WrittenUsage(c, 0);
    assert Waiting(c, 0, i + 1) == Waiting(c, 0, i)[i := Pending(VolumeName(i), c.quota)];
  }

  lemma WaitingAt(c: Setting, lo: nat, hi: nat, t: nat)
    ensures t in Waiting(c, lo, hi) <==> lo <= t < hi
    ensures lo <= t < hi ==> Waiting(c, lo, hi)[t] == Pending(VolumeName(t), c.quota)
  {
    WaitingMembers(c, lo, hi);
  }

  lemma SameMap<K(!new), V>(a: map<K, V>, b: map<K, V>)
    requires forall k :: (k in a <==> k in b) && (k in a ==> a[k] == b[k])
    ensures a == b
  {
  }

  lemma WaitingShrinks(c: Setting, t: nat, k: nat)
    requires t < k
    ensures t in Waiting(c, t, k) && Waiting(c, t, k)[t] == Pending(VolumeName(t), c.quota)
    ensures Waiting(c, t + 1, k) == Waiting(c, t, k) - {t}
  {
    var after, all := Waiting(c, t + 1, k), Waiting(c, t, k);
    WaitingAt(c, t, k, t);
    forall u ensures (u in after <==> u in all - {t}) && (u in after ==> after[u] == (all - {t})[u]) {
      WaitingAt(c, t, k, u);
      WaitingAt(c, t + 1, k, u);
    }
    SameMap(after, all - {t});
  }

  lemma WorstWrite(c: Setting, t: nat)
    requires 1 <= c.k && t < c.k
    ensures Next(c, WorstState(c, c.k + t), t, Write, WorstState(c, c.k + t + 1))
  {
    WaitingShrinks(c, t, c.k);
    var specs := Written(c, t);
    assert WorstState(c, c.k + t) == State(specs, Waiting(c, t, c.k));
    assert WorstState(c, c.k + t + 1)
        == State(specs[Key(c.env, VolumeName(t)) := Row(c.owner, c.quota)], Waiting(c, t + 1, c.k));
  }

  lemma WorstNext(c: Setting, i: nat)
    requires 1 <= c.k && 1 <= c.quota && i < 2 * c.k
    ensures Next(c, WorstState(c, i), WorstStep(c, i).request, WorstStep(c, i).action, WorstState(c, i + 1))
  {
    if i < c.k { WorstCheck(c, i); } else { WorstWrite(c, i - c.k); }
  }

  /** No smaller bound holds: k requests that are all checked before any of them writes take the
      whole quota k times. */
  lemma BoundIsReached(c: Setting) returns (states: seq<State>, steps: seq<Step>)
    requires 1 <= c.k && 1 <= c.quota
    ensures Run(c, states, steps)
    ensures DiskUsage(states[|states| - 1].specs, c.env, c.owner, "") == c.k * c.quota
  {
    states := seq(2 * c.k + 1, i requires 0 <= i => WorstState(c, i));
    steps := seq(2 * c.k, i requires 0 <= i => WorstStep(c, i));
    forall i | 0 <= i < |steps| ensures StepAt(c, states, steps, i) { WorstNext(c, i); }
    WrittenUsage(c, c.k);
  }
}
