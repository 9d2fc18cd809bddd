/** The Docker hosts: one container map over all environments. A call may fail; the ghost fields
    record every state the containers went through, the calls that replace containers, and the
    failures that were not the caller's doing. */
module Docker {
  import opened Text
  import opened Specs
  import Collections

  const LABEL_MANAGED := "easydeploy.managed"
  const LABEL_SUBDOMAIN := "easydeploy.subdomain"
  const LABEL_OWNER := "easydeploy.owner"
  const LABEL_SERVICE := "easydeploy.service"
  const LABEL_REPLICA := "easydeploy.replica"

  /** A container name is unique on its host. */
  datatype Loc = Loc(env: int, name: string)

  datatype DeploySpec = DeploySpec(
    name: string, image: string, env: seq<string>, subdomain: string, containerPort: int, network: string,
    owner: string, nanoCPUs: int, memoryBytes: int, extraLabels: map<string, string>, advanced: AdvancedSpec)

  datatype Container = Container(id: nat, spec: DeploySpec, labels: map<string, string>, running: bool)

  type Containers = map<Loc, Container>

  datatype Summary = Summary(name: string, id: nat, labels: map<string, string>, running: bool)

  function LabelsOf(spec: DeploySpec): map<string, string> {
    map[LABEL_MANAGED := "true"]
    + (if spec.subdomain != "" then map[LABEL_SUBDOMAIN := spec.subdomain] else map[])
    + (if spec.owner != "" then map[LABEL_OWNER := spec.owner] else map[])
    + spec.extraLabels
    + spec.advanced.labels
  }

  /** The label that a container made from the spec has under a key, if any: the options' own labels come
      first, then those of the service manager, then subdomain, owner and the mark of a managed one. */
  function LabelUnder(spec: DeploySpec, key: string): Option<string> {
    if key in spec.advanced.labels then Some(spec.advanced.labels[key])
    else if key in spec.extraLabels then Some(spec.extraLabels[key])
    else if key == "easydeploy.owner" then if spec.owner != "" then Some(spec.owner) else None
    else if key == "easydeploy.subdomain" then if spec.subdomain != "" then Some(spec.subdomain) else None
    else if key == "easydeploy.managed" then Some("true")
    else None
  }

  lemma LabelsMean(spec: DeploySpec, key: string)
    ensures if key in LabelsOf(spec) then LabelUnder(spec, key) == Some(LabelsOf(spec)[key])
            else LabelUnder(spec, key) == None
  {
    assert "easydeploy.managed"[11] == 'm' && "easydeploy.subdomain"[11] == 's' && "easydeploy.owner"[11] == 'o';
  }

  function Created(id: nat, spec: DeploySpec, running: bool): Container {
    Container(id, spec, LabelsOf(spec), running)
  }

  predicate HasLabel(c: Container, key: string, value: string) { key in c.labels && c.labels[key] == value }

  function SummaryOf(name: string, c: Container): Summary { Summary(name, c.id, c.labels, c.running) }

  ghost predicate UniqueIds(cs: Containers, nextId: nat) {
    && (forall l :: l in cs ==> cs[l].id < nextId)
    && forall l, k :: IdsApart(cs, l, k)
  }

  predicate IdsApart(cs: Containers, l: Loc, k: Loc) { l in cs && k in cs && cs[l].id == cs[k].id ==> l == k }

  /** Every container has the id it had before, or a fresh one. */
  lemma IdsStayUnique(before: Containers, nextId: nat, after: Containers, newcomer: Loc)
    requires UniqueIds(before, nextId)
    requires forall l :: l in after ==>
      (l in before && after[l].id == before[l].id) || (l == newcomer && after[l].id == nextId)
    ensures UniqueIds(after, nextId + 1)
    ensures (forall l :: l in after ==> l in before && after[l].id == before[l].id) ==> UniqueIds(after, nextId)
  {
    forall l, k ensures IdsApart(after, l, k) {
      assert IdsApart(before, l, k);
    }
  }

  ghost predicate HasId(cs: Containers, env: int, id: nat, l: Loc) { l in cs && l.env == env && cs[l].id == id }

  /** The containers without the one that has this id on this host. */
  ghost function WithoutId(cs: Containers, env: int, id: nat): Containers {
    cs - set l | l in cs && HasId(cs, env, id, l)
  }

  /** The containers once the one with this id is running, or not running. */
  ghost predicate Switched(cs: Containers, after: Containers, env: int, id: nat, running: bool) {
    forall l :: SwitchedAt(cs, after, env, id, running, l)
  }

  ghost predicate SwitchedAt(cs: Containers, after: Containers, env: int, id: nat, running: bool, l: Loc) {
    && (l in after <==> l in cs)
    && (l in cs ==> after[l] == if HasId(cs, env, id, l) then cs[l].(running := running) else cs[l])
  }

  /** Removing by id removes one container. */
  lemma OnlyOneGoes(cs: Containers, stopped: Containers, nextId: nat, l: Loc)
    requires UniqueIds(cs, nextId) && l in cs && Switched(cs, stopped, l.env, cs[l].id, false)
    ensures WithoutId(stopped, l.env, cs[l].id) == cs - {l}
  {
    var after := WithoutId(stopped, l.env, cs[l].id);
    forall k ensures (k in after <==> k in cs - {l}) && (k in after ==> after[k] == cs[k]) {
      assert IdsApart(cs, k, l) && SwitchedAt(cs, stopped, l.env, cs[l].id, false, k);
    }
  }

  /** A container with another id is as it was. */
  predicate Spared(before: Containers, after: Containers, env: int, id: nat, l: Loc) {
    l in before && !(l.env == env && before[l].id == id) ==> l in after && after[l] == before[l]
  }

  lemma StopSpares(cs: Containers, stopped: Containers, env: int, id: nat)
    requires Switched(cs, stopped, env, id, false) || stopped == cs
    ensures forall l :: HasId(stopped, env, id, l) <==> HasId(cs, env, id, l)
    ensures forall l :: l in WithoutId(stopped, env, id) ==> l in cs && !HasId(cs, env, id, l)
    ensures forall l :: Spared(cs, stopped, env, id, l)
    ensures forall l :: Spared(cs, WithoutId(stopped, env, id), env, id, l)
  {
    forall l
      ensures HasId(stopped, env, id, l) <==> HasId(cs, env, id, l)
      ensures Spared(cs, stopped, env, id, l) && Spared(cs, WithoutId(stopped, env, id), env, id, l)
      ensures l in WithoutId(stopped, env, id) ==> l in cs && !HasId(cs, env, id, l)
    {
      if stopped != cs { assert SwitchedAt(cs, stopped, env, id, false, l); }
    }
  }

  /** The container was there before, running or not, or was made from this spec. */
  predicate KeptOrMade(before: Containers, after: Containers, spec: DeploySpec, l: Loc) {
    l in after ==>
      || (l in before && after[l].spec == before[l].spec && after[l].labels == before[l].labels)
      || (after[l].spec == spec.(name := l.name) && after[l].labels == LabelsOf(after[l].spec))
  }

  lemma StoppedOrLeft(cs: Containers, stopped: Containers, left: Containers, env: int, id: nat, spec: DeploySpec)
    requires Switched(cs, stopped, env, id, false) || stopped == cs
    requires left == stopped || left == WithoutId(stopped, env, id)
    ensures forall l :: KeptOrMade(cs, left, spec, l)
  {
    forall l ensures KeptOrMade(cs, left, spec, l) {
      if stopped != cs { assert SwitchedAt(cs, stopped, env, id, false, l); }
    }
  }

  lemma MadeSpares(cs: Containers, left: Containers, after: Containers, env: int, id: nat, newSpec: DeploySpec,
                   spec: DeploySpec)
    requires forall l :: Spared(cs, left, env, id, l) && KeptOrMade(cs, left, newSpec, l)
    requires spec == newSpec.(name := spec.name)
    requires after == left
          || exists c :: Loc(env, spec.name) !in left && after == left[Loc(env, spec.name) := c]
                         && c.spec == spec && c.labels == LabelsOf(spec)
    ensures forall l :: Spared(cs, after, env, id, l) && KeptOrMade(cs, after, newSpec, l)
  {
    forall l ensures Spared(cs, after, env, id, l) && KeptOrMade(cs, after, newSpec, l) {
      assert Spared(cs, left, env, id, l) && KeptOrMade(cs, left, newSpec, l);
    }
  }

  predicate Selected(cs: Containers, env: int, key: string, value: string, all: bool, l: Loc)
    requires l in cs
  {
    l.env == env && HasLabel(cs[l], key, value) && (all || cs[l].running)
  }

  predicate IsListed(cs: Containers, seen: set<Loc>, env: int, key: string, value: string, all: bool, s: Summary)
    requires seen <= cs.Keys
  {
    var l := Loc(env, s.name);
    l in seen && s == SummaryOf(s.name, cs[l]) && Selected(cs, env, key, value, all, l)
  }

  /** The list has exactly one summary of each selected container among those seen. */
  ghost predicate IsListing(cs: Containers, seen: set<Loc>, env: int, key: string, value: string, all: bool,
                            list: seq<Summary>)
    requires seen <= cs.Keys
  {
    && (forall s :: s in list ==> IsListed(cs, seen, env, key, value, all, s))
    && (forall l :: l in seen && Selected(cs, env, key, value, all, l) ==> SummaryOf(l.name, cs[l]) in list)
    && forall i, j :: 0 <= i < j < |list| ==> list[i].name != list[j].name
  }

  // -- reading a listing, one container at a time

  /** The first k listed containers. */
  ghost predicate SeenFirst(env: int, list: seq<Summary>, k: nat, seen: set<Loc>)
    requires k <= |list|
  {
    && (forall l :: l in seen ==> SeenAt(env, list, k, l))
    && forall j :: 0 <= j < k ==> Loc(env, list[j].name) in seen
  }

  ghost predicate SeenAt(env: int, list: seq<Summary>, k: nat, l: Loc)
    requires k <= |list|
  {
    exists j :: 0 <= j < k && l == Loc(env, list[j].name)
  }

  lemma SeeOne(cs: Containers, env: int, key: string, value: string, all: bool, list: seq<Summary>, k: nat,
               seen: set<Loc>)
    requires IsListing(cs, cs.Keys, env, key, value, all, list)
    requires k < |list| && SeenFirst(env, list, k, seen)
    ensures var l := Loc(env, list[k].name);
            && l in cs && l !in seen && list[k] == SummaryOf(l.name, cs[l]) && Selected(cs, env, key, value, all, l)
            && SeenFirst(env, list, k + 1, seen + {l})
  {
    var l := Loc(env, list[k].name);
    assert IsListed(cs, cs.Keys, env, key, value, all, list[k]);
    assert forall j :: 0 <= j < k ==> list[j].name != list[k].name;
    assert !SeenAt(env, list, k, l);
    var next := k + 1;
    forall m | m in seen + {l} ensures SeenAt(env, list, next, m) {
      if m != l { assert SeenAt(env, list, k, m); }
    }
  }

  lemma SeenEverything(cs: Containers, env: int, key: string, value: string, all: bool, list: seq<Summary>,
                       seen: set<Loc>, l: Loc)
    requires IsListing(cs, cs.Keys, env, key, value, all, list) && SeenFirst(env, list, |list|, seen)
    ensures l in seen <==> l in cs && Selected(cs, env, key, value, all, l)
  {
    if l in seen {
      assert SeenAt(env, list, |list|, l);
      var j :| 0 <= j < |list| && l == Loc(env, list[j].name);
      assert IsListed(cs, cs.Keys, env, key, value, all, list[j]);
    }
    if l in cs && Selected(cs, env, key, value, all, l) {
      var j :| 0 <= j < |list| && list[j] == SummaryOf(l.name, cs[l]);
    }
  }

  /** What the containers' statistics say during an interval, by container id; a container that yields
      no sample is missing. */
  type Samples = map<nat, real>

  class Hosts {
    var containers: Containers
    var nextId: nat
    ghost var history: seq<Containers>
    ghost var changes: nat
    ghost var faults: nat

    ghost predicate Valid() reads this`containers, this`nextId { UniqueIds(containers, nextId) }

    /** Force-removes a container by name; an absent one is an error that changes nothing. */
    method RemoveByName(env: int, name: string)
      requires Valid()
      modifies this
      ensures Valid() && changes == old(changes) + 1 && nextId == old(nextId)
      ensures history == old(history) + [containers]
      ensures containers == if faults == old(faults) then old(containers) - {Loc(env, name)} else old(containers)
      ensures faults == old(faults) || faults == old(faults) + 1
    {
      changes := changes + 1;
      if * {
        faults := faults + 1;
      } else {
        IdsStayUnique(containers, nextId, containers - {Loc(env, name)}, Loc(env, name));
        containers := containers - {Loc(env, name)};
      }
      history := history + [containers];
    }

    method RemoveById(env: int, id: nat) returns (ok: bool)
      requires Valid()
      modifies this
      ensures Valid() && changes == old(changes) + 1 && nextId == old(nextId)
      ensures ok <==> faults == old(faults) && exists l :: HasId(old(containers), env, id, l)
      ensures history == old(history) + [containers]
      ensures containers == if faults == old(faults) then WithoutId(old(containers), env, id) else old(containers)
      ensures faults == old(faults) || faults == old(faults) + 1
    {
      changes := changes + 1;
      ok := false;
      if * {
        faults := faults + 1;
      } else if l :| l in containers && l.env == env && containers[l].id == id {
        forall k ensures HasId(containers, env, id, k) <==> k == l { assert IdsApart(containers, k, l); }
        assert WithoutId(containers, env, id) == containers - {l};
        IdsStayUnique(containers, nextId, containers - {l}, l);
        containers := containers - {l};
        ok := true;
      } else {
        assert WithoutId(containers, env, id) == containers;
      }
      history := history + [containers];
    }

    method Start(env: int, id: nat)
      requires Valid()
      modifies this
      ensures Valid() && changes == old(changes) && nextId == old(nextId)
      ensures history == old(history) + [containers]
      ensures if faults == old(faults) then Switched(old(containers), containers, env, id, true)
              else faults == old(faults) + 1 && containers == old(containers)
    {
      if * {
        faults := faults + 1;
      } else {
        Switch(env, id, true);
      }
      history := history + [containers];
    }

    method Switch(env: int, id: nat, running: bool)
      requires Valid()
      modifies this`containers
      ensures Valid() && Switched(old(containers), containers, env, id, running)
    {
      if l :| l in containers && l.env == env && containers[l].id == id {
        var after := containers[l := containers[l].(running := running)];
        IdsStayUnique(containers, nextId, after, l);
        forall k ensures SwitchedAt(containers, after, env, id, running, k) { assert IdsApart(containers, k, l); }
        containers := after;
      } else {
        forall k ensures SwitchedAt(containers, containers, env, id, running, k) { }
      }
    }

    method Stop(env: int, id: nat)
      requires Valid()
      modifies this
      ensures Valid() && changes == old(changes) && nextId == old(nextId)
      ensures history == old(history) + [containers]
      ensures if faults == old(faults) then Switched(old(containers), containers, env, id, false)
              else faults == old(faults) + 1 && containers == old(containers)
    {
      if * {
        faults := faults + 1;
      } else {
        Switch(env, id, false);
      }
      history := history + [containers];
    }

    /** Replaces the container with this id by a new one. Once the old container is removed a failed
        deployment leaves neither. */
    method EditContainer(env: int, id: nat, newSpec: DeploySpec) returns (ok: bool, ghost was: Loc)
      requires Valid()
      modifies this
      ensures Valid() && old(faults) <= faults
      ensures ok && faults == old(faults) ==>
        && was in old(containers) && was.env == env && old(containers)[was].id == id
        && var spec := if newSpec.name == "" then newSpec.(name := was.name) else newSpec;
           var l := Loc(env, spec.name);
           l !in old(containers) - {was}
           && containers == (old(containers) - {was})[l := Created(old(nextId), spec, true)]
      ensures !ok && faults == old(faults) ==>
        || (forall l :: !HasId(old(containers), env, id, l))
        || (Loc(env, newSpec.name) in old(containers) && !HasId(old(containers), env, id, Loc(env, newSpec.name)))
      ensures forall l :: Spared(old(containers), containers, env, id, l)
      ensures forall l :: KeptOrMade(old(containers), containers, newSpec, l)
    {
      ghost var cs := containers;
      var info := Inspect(env, id);
      if info.None? { return false, Loc(env, ""); }
      was := Loc(env, info.value.0);
      var spec := newSpec;
      if spec.name == "" { spec := spec.(name := info.value.0); }
      Stop(env, id);
      ghost var stopped := containers;
      StopSpares(cs, stopped, env, id);
      ok := RemoveById(env, id);
      ghost var left := containers;
      StoppedOrLeft(cs, stopped, left, env, id, newSpec);
      if !ok { return; }
      if faults == old(faults) { OnlyOneGoes(cs, stopped, nextId, was); }
      ok := Deploy(env, spec);
      MadeSpares(cs, left, containers, env, id, newSpec, spec);
    }

    /** Creates and starts a container. It can fail before the container exists, because the name is
        taken, or after it was created but not started. */
    method Deploy(env: int, spec: DeploySpec) returns (ok: bool)
      requires Valid()
      modifies this
      ensures Valid() && changes == old(changes) + 1 && old(nextId) <= nextId
      ensures history == old(history) + [containers]
      ensures var l := Loc(env, spec.name);
              if ok then faults == old(faults) && l !in old(containers)
                         && containers == old(containers)[l := Created(old(nextId), spec, true)]
              else || (containers == old(containers) && (faults == old(faults) ==> l in old(containers)))
                   || (l !in old(containers) && containers == old(containers)[l := Created(old(nextId), spec, false)]
                       && faults == old(faults) + 1)
      ensures faults == old(faults) || faults == old(faults) + 1
    {
      var l := Loc(env, spec.name);
      changes := changes + 1;
      if l in containers {
        ok := false;
      } else if * {
        faults := faults + 1;
        ok := false;
      } else {
        ok := *;
        IdsStayUnique(containers, nextId, containers[l := Created(nextId, spec, ok)], l);
        containers := containers[l := Created(nextId, spec, ok)];
        nextId := nextId + 1;
        if !ok { faults := faults + 1; }
      }
      history := history + [containers];
    }

    /** Inspects a container by id. */
    method Inspect(env: int, id: nat) returns (r: Option<(string, Container)>)
      requires Valid()
      modifies this`faults
      ensures Valid() && (faults == old(faults) || faults == old(faults) + 1)
      ensures r.Some? ==>
        var l := Loc(env, r.value.0);
        faults == old(faults) && l in containers && containers[l] == r.value.1 && r.value.1.id == id
      ensures r.None? && faults == old(faults) ==>
        forall l :: l in containers && l.env == env ==> containers[l].id != id
    {
      if * {
        faults := faults + 1;
        return None;
      }
      if l :| l in containers && l.env == env && containers[l].id == id {
        r := Some((l.name, containers[l]));
      } else {
        r := None;
      }
    }

    /** One sample of a container's CPU percentage. */
    method CPUPercent(cpu: Samples, env: int, id: nat) returns (ok: bool, p: real)
      ensures ok <==> id in cpu
      ensures ok ==> p == cpu[id]
    {
      if id !in cpu { return false, 0.0; }
      return true, cpu[id];
    }

    /** ContainerList with a label filter; without all, only running containers. */
    method ListByLabel(env: int, key: string, value: string, all: bool) returns (ok: bool, list: seq<Summary>)
      modifies this`faults
      ensures if ok then faults == old(faults) else faults == old(faults) + 1
      ensures ok ==> IsListing(containers, containers.Keys, env, key, value, all, list)
    {
      if * {
        faults := faults + 1;
        return false, [];
      }
      list := [];
      var todo := containers.Keys;
      while todo != {}
        invariant todo <= containers.Keys && faults == old(faults)
        invariant IsListing(containers, containers.Keys - todo, env, key, value, all, list)
        decreases todo
      {
        var l := Collections.Pick(todo);
        if Selected(containers, env, key, value, all, l) {
          assert forall i :: 0 <= i < |list| ==> list[i] in list;
          list := list + [SummaryOf(l.name, containers[l])];
        }
        todo := todo - {l};
      }
      assert containers.Keys - todo == containers.Keys;
      ok := true;
    }
  }
}
