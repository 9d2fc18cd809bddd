/** Replica sets as values: what reconciling and rolling out do to the containers of a host. */
module Replicas {
  import opened Text
  import opened Specs
  import opened Docker
  import HostPorts

  const NANO_PER_MILLI := 1_000_000
  const BYTES_PER_MB := 0x10_0000

  /** The spec of replica i. Its fixed host ports are shifted by i. */
  function ReplicaSpec(svc: Service, i: int64): DeploySpec
    requires 0 <= i
  {
    DeploySpec(
      ReplicaName(svc.name, i), svc.image, svc.env, svc.subdomain, svc.containerPort, svc.network, svc.owner,
      svc.cpuMilli * NANO_PER_MILLI, svc.memMB * BYTES_PER_MB,
      map[LABEL_SERVICE := svc.name, LABEL_REPLICA := Itoa(i)],
      svc.advanced.(ports := HostPorts.Offset(svc.advanced.ports, i)))
  }

  /** A fixed host port has moved up by i; the rest of the mapping is the stored one. */
  predicate PortMoved(stored: PortMap, p: PortMap, i: int64) {
    && p.hostIP == stored.hostIP && p.containerPort == stored.containerPort && p.proto == stored.proto
    && (i == 0 ==> p == stored)
    && match HostPorts.PortNumber(stored)
       case Some(n) => HostPorts.PortNumber(p) == Some(Add64(n, i))
       case None => p == stored
  }

  predicate PortMovedAt(stored: seq<PortMap>, ports: seq<PortMap>, i: int64, j: nat)
    requires j < |stored| && |ports| == |stored|
  {
    PortMoved(stored[j], ports[j], i)
  }

  /** The spec asks for what the row says, field by field, and for replica i's own name, label and ports. */
  ghost predicate AsksFor(spec: DeploySpec, svc: Service, i: int64) {
    && spec.name == svc.name + "-" + Itoa(i)
    && spec.image == svc.image && spec.env == svc.env
    && spec.subdomain == svc.subdomain && spec.containerPort == svc.containerPort
    && spec.network == svc.network && spec.owner == svc.owner
    && spec.nanoCPUs == svc.cpuMilli * 1_000_000 && spec.memoryBytes == svc.memMB * 1_048_576
    && spec.extraLabels == map["easydeploy.service" := svc.name, "easydeploy.replica" := Itoa(i)]
    && spec.advanced.labels == svc.advanced.labels && spec.advanced.other == svc.advanced.other
    && |spec.advanced.ports| == |svc.advanced.ports|
    && forall j :: 0 <= j < |spec.advanced.ports| ==> PortMovedAt(svc.advanced.ports, spec.advanced.ports, i, j)
  }

  lemma ReplicaSpecAsks(svc: Service, i: int64)
    requires 0 <= i
    ensures AsksFor(ReplicaSpec(svc, i), svc, i)
  {
    var spec := ReplicaSpec(svc, i);
    forall j | 0 <= j < |spec.advanced.ports| ensures PortMovedAt(svc.advanced.ports, spec.advanced.ports, i, j) {
      HostPorts.OffsetNumber(svc.advanced.ports, i, j);
    }
  }

  /** Makes the spec of replica i from the row. */
  method MakeReplicaSpec(svc: Service, i: int64) returns (spec: DeploySpec)
    requires 0 <= i
    ensures spec == ReplicaSpec(svc, i) && AsksFor(spec, svc, i)
  {
    ReplicaSpecAsks(svc, i);
    var ports := HostPorts.OffsetHostPorts(svc.advanced.ports, i);
    spec := DeploySpec(
      ReplicaName(svc.name, i), svc.image, svc.env, svc.subdomain, svc.containerPort, svc.network, svc.owner,
      svc.cpuMilli * NANO_PER_MILLI, svc.memMB * BYTES_PER_MB,
      map[LABEL_SERVICE := svc.name, LABEL_REPLICA := Itoa(i)],
      svc.advanced.(ports := ports));
  }

  function Count(svc: Service): int64 { if svc.replicas > 0 then svc.replicas else 0 }

  function At(svc: Service, i: nat): Loc { Loc(svc.endpointID, ReplicaName(svc.name, i)) }

  /** l is where one of the replicas 0..n-1 lives. */
  predicate IsPlace(svc: Service, n: nat, l: Loc) { exists i: nat :: i < n && l == At(svc, i) }

  lemma PlaceOfIndex(svc: Service, n: nat, i: nat)
    ensures IsPlace(svc, n, At(svc, i)) <==> i < n
  {
    if IsPlace(svc, n, At(svc, i)) {
      var j := PlaceIndex(svc, n, At(svc, i));
      DistinctPlaces(svc, i, j);
    }
  }

  lemma PlaceIndex(svc: Service, n: nat, l: Loc) returns (i: nat)
    requires IsPlace(svc, n, l)
    ensures i < n && l == At(svc, i)
  {
    i :| i < n && l == At(svc, i);
  }

  lemma DistinctPlaces(svc: Service, i: nat, j: nat)
    ensures At(svc, i) == At(svc, j) <==> i == j
  {
    if At(svc, i) == At(svc, j) { ReplicaNameInjective(svc.name, i, svc.name, j); }
  }

  lemma NotAPlaceOf(other: Service, i: nat, svc: Service, n: nat)
    requires other.name != svc.name
    ensures !IsPlace(svc, n, At(other, i))
  {
    if IsPlace(svc, n, At(other, i)) {
      var j := PlaceIndex(svc, n, At(other, i));
      ReplicaNameInjective(other.name, i, svc.name, j);
    }
  }

  predicate IsReplica(c: Container, name: string) { HasLabel(c, LABEL_SERVICE, name) }

  /** The replica index that a container's label tells, as reconcile reads it. */
  function IndexOf(labels: map<string, string>): Option<int64> {
    Atoi(if LABEL_REPLICA in labels then labels[LABEL_REPLICA] else "")
  }

  /** l is a container of the service. */
  predicate Owned(cs: Containers, svc: Service, l: Loc) {
    l in cs && l.env == svc.endpointID && IsReplica(cs[l], svc.name)
  }

  /** The service has no container at all. */
  ghost predicate NoneThere(cs: Containers, svc: Service) { forall l :: !Owned(cs, svc, l) }

  predicate Labelled(cs: Containers, svc: Service, l: Loc) {
    Owned(cs, svc, l) ==>
      IndexOf(cs[l].labels).Some? && IndexOf(cs[l].labels).value >= 0 && l == At(svc, IndexOf(cs[l].labels).value)
  }

  predicate Named(cs: Containers, svc: Service, i: nat) {
    At(svc, i) in cs ==> Owned(cs, svc, At(svc, i)) && IndexOf(cs[At(svc, i)].labels) == Some(i)
  }

  /** The service's labels and the replica names tell the same containers apart. */
  ghost predicate Corresponds(cs: Containers, svc: Service) {
    (forall l :: Labelled(cs, svc, l)) && forall i: nat :: Named(cs, svc, i)
  }

  /** The stored options do not set the labels that the service manager reads. */
  ghost predicate LabelsFree(svc: Service) {
    LABEL_SERVICE !in svc.advanced.labels && LABEL_REPLICA !in svc.advanced.labels
  }

  /** A container deployed for replica i now, and running. */
  ghost predicate IsNew(c: Container, svc: Service, i: int64)
    requires 0 <= i
  {
    c == Created(c.id, ReplicaSpec(svc, i), true)
  }

  lemma NewCorresponds(svc: Service, i: int64, c: Container)
    requires 0 <= i && LabelsFree(svc) && c.labels == LabelsOf(ReplicaSpec(svc, i))
    ensures IsReplica(c, svc.name) && IndexOf(c.labels) == Some(i)
    ensures forall name :: IsReplica(c, name) ==> name == svc.name
  {
    ItoaRoundTrip(i);
  }

  predicate OwnedIffPlaced(cs: Containers, svc: Service, n: nat, l: Loc) { Owned(cs, svc, l) <==> IsPlace(svc, n, l) }

  /** Exactly replicas 0..n-1 exist. */
  ghost predicate Complete(cs: Containers, svc: Service) {
    forall l :: OwnedIffPlaced(cs, svc, Count(svc), l)
  }

  lemma CompleteHas(cs: Containers, svc: Service, j: int64)
    requires Complete(cs, svc) && 0 <= j < Count(svc)
    ensures Owned(cs, svc, At(svc, j))
  {
    PlaceOfIndex(svc, Count(svc), j);
    assert OwnedIffPlaced(cs, svc, Count(svc), At(svc, j));
  }

  // ------------------------------------------------------ what the containers run

  /** The same container, perhaps started since. */
  predicate Same(c: Container, d: Container) { d == c.(running := d.running) && (c.running ==> d.running) }

  /** l holds replica i, made to the row's letter. */
  ghost predicate RunsRow(cs: Containers, svc: Service, i: int64, l: Loc) {
    && l in cs && l.env == svc.endpointID && l.name == svc.name + "-" + Itoa(i)
    && AsksFor(cs[l].spec, svc, i) && cs[l].labels == LabelsOf(cs[l].spec)
  }

  /** A container was there before, or is one of the row's replicas, made to its letter. */
  ghost predicate KeptOrRow(before: Containers, after: Containers, svc: Service, l: Loc) {
    l in after && !(l in before && Same(before[l], after[l])) ==>
      exists i: int64 :: 0 <= i < svc.replicas && RunsRow(after, svc, i, l)
  }

  /** Whatever was deployed was deployed to the row's letter. */
  ghost predicate NewRunRow(before: Containers, after: Containers, svc: Service) {
    forall l :: KeptOrRow(before, after, svc, l)
  }

  /** Replica i runs, made to the row's letter. */
  ghost predicate UpAsRow(cs: Containers, svc: Service, i: int64) {
    var l := Loc(svc.endpointID, svc.name + "-" + Itoa(i));
    RunsRow(cs, svc, i, l) && cs[l].running
  }

  ghost predicate AllRunRow(cs: Containers, svc: Service) {
    forall i: int64 :: 0 <= i < svc.replicas ==> UpAsRow(cs, svc, i)
  }

  lemma MadeRunsRow(cs: Containers, svc: Service, i: int64, l: Loc)
    requires 0 <= i && l in cs && l == At(svc, i) && cs[l] == Created(cs[l].id, ReplicaSpec(svc, i), cs[l].running)
    ensures RunsRow(cs, svc, i, l)
  {
    ReplicaSpecAsks(svc, i);
  }

  lemma PassesRunRow(before: Containers, started: Containers, grown: Containers, after: Containers, svc: Service,
                     gone: set<nat>)
    requires OnlyStarted(before, started, svc) && GrownPartly(started, grown, svc, Count(svc))
    requires TrimmedPartly(grown, after, svc.endpointID, gone)
    ensures NewRunRow(before, after, svc)
  {
    forall l ensures KeptOrRow(before, after, svc, l) {
      assert StartedAt(before, started, svc, l) && GrownAt(started, grown, svc, Count(svc), l);
      assert PartlyTrimmedAt(grown, after, svc.endpointID, gone, l);
      if l in after && l !in started {
        var i: int64 :| 0 <= i < Count(svc) && l == At(svc, i)
          && after[l] == Created(after[l].id, ReplicaSpec(svc, i), after[l].running);
        MadeRunsRow(after, svc, i, l);
      }
    }
  }

  /** So whatever reconciling deployed, however it ended, was deployed to the row's letter. */
  lemma NothingLostRunsRow(before: Containers, after: Containers, svc: Service)
    requires NothingLost(before, after, svc)
    ensures NewRunRow(before, after, svc)
  {
    forall l ensures KeptOrRow(before, after, svc, l) {
      assert NotLost(before, after, svc, l);
      if l in after && l !in before {
        var i: int64 :| 0 <= i < Count(svc) && l == At(svc, i)
          && after[l] == Created(after[l].id, ReplicaSpec(svc, i), after[l].running);
        MadeRunsRow(after, svc, i, l);
      }
    }
  }

  lemma GrownRunsRow(before: Containers, after: Containers, svc: Service)
    requires GrownPartly(before, after, svc, Count(svc))
    ensures NewRunRow(before, after, svc)
  {
    forall l ensures KeptOrRow(before, after, svc, l) {
      assert GrownAt(before, after, svc, Count(svc), l);
      if l in after && l !in before {
        var i: int64 :| 0 <= i < Count(svc) && l == At(svc, i)
          && after[l] == Created(after[l].id, ReplicaSpec(svc, i), after[l].running);
        MadeRunsRow(after, svc, i, l);
      }
    }
  }

  lemma StageRunsRow(before: Containers, now: Containers, svc: Service, i: int64)
    requires Stage(before, now, svc, i)
    ensures NewRunRow(before, now, svc)
    ensures forall j: int64 :: 0 <= j < i ==> UpAsRow(now, svc, j)
  {
    forall l ensures KeptOrRow(before, now, svc, l) {
      assert Apart(before, now, svc, l);
      if IsPlace(svc, Count(svc), l) && l in now && !Unchanged(before, now, l) {
        var j := PlaceIndex(svc, Count(svc), l);
        assert RolledAt(before, now, svc, i, j);
        MadeRunsRow(now, svc, j, l);
      }
    }
    forall j: int64 | 0 <= j < i ensures UpAsRow(now, svc, j) {
      assert RolledAt(before, now, svc, i, j);
      MadeRunsRow(now, svc, j, At(svc, j));
    }
  }

  lemma RolledOverRunsRow(before: Containers, after: Containers, svc: Service)
    requires RolledOver(before, after, svc)
    ensures AllRunRow(after, svc)
    ensures forall l :: Owned(after, svc, l) ==> exists i: int64 :: 0 <= i < svc.replicas && RunsRow(after, svc, i, l)
  {
    forall j: int64 | 0 <= j < svc.replicas ensures UpAsRow(after, svc, j) {
      assert NewAt(after, svc, j);
      MadeRunsRow(after, svc, j, At(svc, j));
    }
    forall l | Owned(after, svc, l) ensures exists i: int64 :: 0 <= i < svc.replicas && RunsRow(after, svc, i, l) {
      assert OwnedIffPlaced(after, svc, Count(svc), l);
      var j := PlaceIndex(svc, Count(svc), l);
      assert UpAsRow(after, svc, j);
    }
  }

  // --------------------------------------------------------------- reconciling

  predicate Unchanged(before: Containers, now: Containers, l: Loc) {
    (l in now <==> l in before) && (l in now ==> now[l] == before[l])
  }

  predicate RunsAt(cs: Containers, l: Loc) { l in cs && cs[l].running }

  /** c was deployed, started or not, as one of the replicas 0..n-1. */
  ghost predicate IsMade(c: Container, svc: Service, n: nat, l: Loc) {
    exists i: int64 :: 0 <= i < n && l == At(svc, i) && c == Created(c.id, ReplicaSpec(svc, i), c.running)
  }

  lemma MadeIsPlaced(c: Container, svc: Service, n: nat, l: Loc)
    requires IsMade(c, svc, n, l)
    ensures IsPlace(svc, n, l)
  {
    var i: int64 :| 0 <= i < n && l == At(svc, i) && c == Created(c.id, ReplicaSpec(svc, i), c.running);
    PlaceOfIndex(svc, n, i);
  }

  lemma MadeEarlier(c: Container, svc: Service, k: nat, n: nat, l: Loc)
    requires k <= n && IsMade(c, svc, k, l)
    ensures IsMade(c, svc, n, l)
  {
  }

  ghost predicate NotLost(before: Containers, after: Containers, svc: Service, l: Loc) {
    && (l in before && !Owned(before, svc, l) ==> Unchanged(before, after, l))
    && (l in after && l !in before ==> IsMade(after[l], svc, Count(svc), l))
    && (l in before && IsPlace(svc, Count(svc), l) ==> l in after)
    && (l in before && l in after ==> Same(before[l], after[l]))
  }

  /** Whatever goes wrong: nothing else is touched, and no desired replica is lost or replaced. */
  ghost predicate NothingLost(before: Containers, after: Containers, svc: Service) {
    forall l :: NotLost(before, after, svc, l)
  }

  /** Deploying one missing replica loses nothing. */
  lemma DeployLosesNothing(before: Containers, after: Containers, svc: Service, i: int64, c: Container)
    requires 0 <= i < Count(svc) && At(svc, i) !in before && after == before[At(svc, i) := c]
    requires c == Created(c.id, ReplicaSpec(svc, i), c.running)
    ensures NothingLost(before, after, svc)
  {
    forall l ensures NotLost(before, after, svc, l) { }
  }

  /** Replica i runs, and if it was missing it is a new container. */
  ghost predicate Placed(before: Containers, after: Containers, svc: Service, i: int64)
    requires 0 <= i
  {
    && RunsAt(after, At(svc, i))
    && (At(svc, i) !in before ==> IsNew(after[At(svc, i)], svc, i))
  }

  ghost predicate AllPlaced(before: Containers, after: Containers, svc: Service) {
    forall i: int64 :: 0 <= i < Count(svc) ==> Placed(before, after, svc, i)
  }

  /** The missing replicas were deployed, the existing ones are running and otherwise as they were,
      and the superfluous ones are gone. */
  ghost predicate Reconciled(before: Containers, after: Containers, svc: Service) {
    NothingLost(before, after, svc) && Complete(after, svc) && AllPlaced(before, after, svc)
  }

  // -- first pass: the survey starts what is stopped

  predicate StartedAt(before: Containers, after: Containers, svc: Service, l: Loc) {
    && (l in after <==> l in before)
    && (l in before ==> Same(before[l], after[l]))
    && (!Owned(before, svc, l) ==> Unchanged(before, after, l))
  }

  /** Only containers of the service were started; nothing else changed. */
  ghost predicate OnlyStarted(before: Containers, after: Containers, svc: Service) {
    forall l :: StartedAt(before, after, svc, l)
  }

  predicate UpAt(before: Containers, after: Containers, svc: Service, l: Loc)
  {
    Owned(before, svc, l) ==> RunsAt(after, l)
  }

  ghost predicate AllUp(before: Containers, after: Containers, svc: Service) {
    forall l :: UpAt(before, after, svc, l)
  }

  /** The indices read so far, with the ids found there. */
  ghost predicate Surveyed(svc: Service, list: seq<Summary>, byIndex: map<int, nat>) {
    && (forall s :: s in list && IndexOf(s.labels).Some? ==> IndexOf(s.labels).value in byIndex)
    && forall i :: i in byIndex ==> ReadFrom(list, i, byIndex[i])
  }

  ghost predicate ReadFrom(list: seq<Summary>, i: int, id: nat) {
    exists s :: s in list && IndexOf(s.labels).Some? && IndexOf(s.labels).value == i && s.id == id
  }

  ghost predicate IndexedAt(cs: Containers, svc: Service, i: int, id: nat) {
    0 <= i && At(svc, i) in cs && cs[At(svc, i)].id == id
  }

  predicate FoundAt(cs: Containers, svc: Service, byIndex: map<int, nat>, i: nat) { At(svc, i) in cs ==> i in byIndex }

  /** byIndex tells exactly which replicas exist, and their ids. */
  ghost predicate Indexed(cs: Containers, svc: Service, byIndex: map<int, nat>) {
    && (forall i :: i in byIndex ==> IndexedAt(cs, svc, i, byIndex[i]))
    && forall i: nat :: FoundAt(cs, svc, byIndex, i)
  }

  lemma SurveyIndexes(before: Containers, svc: Service, list: seq<Summary>, byIndex: map<int, nat>)
    requires Corresponds(before, svc) && Surveyed(svc, list, byIndex)
    requires IsListing(before, before.Keys, svc.endpointID, LABEL_SERVICE, svc.name, true, list)
    ensures Indexed(before, svc, byIndex)
  {
    forall i | i in byIndex ensures IndexedAt(before, svc, i, byIndex[i]) {
      assert ReadFrom(list, i, byIndex[i]);
      var s :| s in list && IndexOf(s.labels).Some? && IndexOf(s.labels).value == i && s.id == byIndex[i];
      assert Labelled(before, svc, Loc(svc.endpointID, s.name));
    }
    forall i: nat ensures FoundAt(before, svc, byIndex, i) {
      var l := At(svc, i);
      assert Named(before, svc, i);
      if l in before {
        assert Selected(before, svc.endpointID, LABEL_SERVICE, svc.name, true, l);
        assert SummaryOf(l.name, before[l]) in list;
      }
    }
  }

  lemma OnlyStartedIndexed(before: Containers, after: Containers, svc: Service, byIndex: map<int, nat>)
    requires OnlyStarted(before, after, svc) && Indexed(before, svc, byIndex)
    ensures Indexed(after, svc, byIndex)
  {
    forall i | i in byIndex ensures IndexedAt(after, svc, i, byIndex[i]) {
      assert IndexedAt(before, svc, i, byIndex[i]);
      assert StartedAt(before, after, svc, At(svc, i));
    }
    forall i: nat ensures FoundAt(after, svc, byIndex, i) {
      assert FoundAt(before, svc, byIndex, i) && StartedAt(before, after, svc, At(svc, i));
    }
  }

  lemma SurveyStep(svc: Service, list: seq<Summary>, k: nat, byIndex: map<int, nat>)
    requires k < |list| && Surveyed(svc, list[..k], byIndex)
    ensures var i := IndexOf(list[k].labels);
            Surveyed(svc, list[..k + 1], if i.Some? then byIndex[i.value := list[k].id] else byIndex)
  {
    var s, next := list[k], list[..k + 1];
    var i := IndexOf(s.labels);
    var byIndex' := if i.Some? then byIndex[i.value := s.id] else byIndex;
    assert next == list[..k] + [s];
    assert s in next;
    forall j | j in byIndex' ensures ReadFrom(next, j, byIndex'[j]) {
      if !(i.Some? && j == i.value) {
        assert ReadFrom(list[..k], j, byIndex[j]);
        var t :| t in list[..k] && IndexOf(t.labels).Some? && IndexOf(t.labels).value == j && t.id == byIndex[j];
        assert t in next;
      }
    }
  }

  /** Starting a listed container starts only that one. */
  lemma StartStep(before: Containers, now: Containers, after: Containers, svc: Service, s: Summary, nextId: nat)
    requires OnlyStarted(before, now, svc) && UniqueIds(before, nextId)
    requires IsListed(before, before.Keys, svc.endpointID, LABEL_SERVICE, svc.name, true, s)
    requires Switched(now, after, svc.endpointID, s.id, true)
    ensures OnlyStarted(before, after, svc)
    ensures RunsAt(after, Loc(svc.endpointID, s.name))
    ensures forall k :: RunsAt(now, k) ==> RunsAt(after, k)
  {
    var l := Loc(svc.endpointID, s.name);
    assert StartedAt(before, now, svc, l) && SwitchedAt(now, after, svc.endpointID, s.id, true, l);
    forall k ensures StartedAt(before, after, svc, k) && (RunsAt(now, k) ==> RunsAt(after, k)) {
      assert StartedAt(before, now, svc, k) && IdsApart(before, l, k);
      assert SwitchedAt(now, after, svc.endpointID, s.id, true, k);
    }
  }

  // -- second pass: missing replicas are deployed, in order

  /** At l nothing was lost, and something new is one of the replicas 0..k-1. */
  ghost predicate GrownAt(before: Containers, after: Containers, svc: Service, k: nat, l: Loc) {
    (l in before ==> Unchanged(before, after, l)) && (l in after && l !in before ==> IsMade(after[l], svc, k, l))
  }

  ghost predicate FilledAt(before: Containers, after: Containers, svc: Service, i: int64)
    requires 0 <= i
  {
    At(svc, i) in after && (At(svc, i) !in before ==> IsNew(after[At(svc, i)], svc, i))
  }

  /** Nothing is lost, and what is new is one of the replicas 0..k-1. */
  ghost predicate GrownPartly(before: Containers, after: Containers, svc: Service, k: nat) {
    forall l :: GrownAt(before, after, svc, k, l)
  }

  /** Replicas 0..k-1 exist; nothing else changed. */
  ghost predicate Grown(before: Containers, after: Containers, svc: Service, k: int64)
    requires 0 <= k
  {
    GrownPartly(before, after, svc, k) && forall i: int64 :: 0 <= i < k ==> FilledAt(before, after, svc, i)
  }

  lemma GrowsOn(before: Containers, now: Containers, svc: Service, k: nat, n: nat, id: nat, running: bool)
    requires k < n && k < INT64_LIMIT && GrownPartly(before, now, svc, k)
    ensures GrownPartly(before, now, svc, n)
    ensures At(svc, k) !in now ==>
      GrownPartly(before, now[At(svc, k) := Created(id, ReplicaSpec(svc, k), running)], svc, n)
  {
    forall l ensures GrownAt(before, now, svc, n, l) {
      assert GrownAt(before, now, svc, k, l);
      if l in now && l !in before { MadeEarlier(now[l], svc, k, n, l); }
    }
    var after := now[At(svc, k) := Created(id, ReplicaSpec(svc, k), running)];
    if At(svc, k) !in now {
      forall l ensures GrownAt(before, after, svc, n, l) {
        assert GrownAt(before, now, svc, k, l);
        if l in now && l !in before { MadeEarlier(now[l], svc, k, n, l); }
      }
    }
  }

  lemma GrowStep(before: Containers, now: Containers, after: Containers, svc: Service, k: int64, id: nat)
    requires 0 <= k < INT64_LIMIT - 1 && Grown(before, now, svc, k)
    requires if At(svc, k) in before then after == now
             else At(svc, k) !in now && after == now[At(svc, k) := Created(id, ReplicaSpec(svc, k), true)]
    ensures Grown(before, after, svc, k + 1)
  {
    GrowsOn(before, now, svc, k, k + 1, id, true);
    assert GrownAt(before, now, svc, k, At(svc, k));
    forall i: int64 | 0 <= i < k + 1 ensures FilledAt(before, after, svc, i) {
      DistinctPlaces(svc, i, k);
      assert i < k ==> FilledAt(before, now, svc, i);
    }
  }

  // -- third pass: the containers of the leftover indices are removed

  predicate TrimmedAt(before: Containers, after: Containers, env: int, gone: set<nat>, l: Loc) {
    if l in before && l.env == env && before[l].id in gone then l !in after else Unchanged(before, after, l)
  }

  /** The containers whose ids are listed are gone; the rest is as it was. */
  ghost predicate Trimmed(before: Containers, after: Containers, env: int, gone: set<nat>) {
    forall l :: TrimmedAt(before, after, env, gone, l)
  }

  predicate PartlyTrimmedAt(before: Containers, after: Containers, env: int, gone: set<nat>, l: Loc) {
    Unchanged(before, after, l) || (l in before && l.env == env && before[l].id in gone && l !in after)
  }

  /** Nothing but containers whose ids are listed is gone. */
  ghost predicate TrimmedPartly(before: Containers, after: Containers, env: int, gone: set<nat>) {
    forall l :: PartlyTrimmedAt(before, after, env, gone, l)
  }

  lemma TrimStep(before: Containers, now: Containers, env: int, gone: set<nat>, id: nat)
    ensures Trimmed(before, now, env, gone) ==> Trimmed(before, WithoutId(now, env, id), env, gone + {id})
    ensures TrimmedPartly(before, now, env, gone) && id in gone ==>
      TrimmedPartly(before, WithoutId(now, env, id), env, gone)
  {
    var after := WithoutId(now, env, id);
    if Trimmed(before, now, env, gone) {
      forall l ensures TrimmedAt(before, after, env, gone + {id}, l) {
        assert TrimmedAt(before, now, env, gone, l);
      }
    }
    if TrimmedPartly(before, now, env, gone) && id in gone {
      forall l ensures PartlyTrimmedAt(before, after, env, gone, l) {
        assert PartlyTrimmedAt(before, now, env, gone, l);
      }
    }
  }

  lemma TrimmedIsPartly(before: Containers, after: Containers, env: int, gone: set<nat>)
    requires Trimmed(before, after, env, gone)
    ensures TrimmedPartly(before, after, env, gone)
  {
    forall l ensures PartlyTrimmedAt(before, after, env, gone, l) {
      assert TrimmedAt(before, after, env, gone, l);
    }
  }

  // -- the three passes together

  /** The ids of the indices that the second pass left over. */
  ghost function Leftover(byIndex: map<int, nat>, n: nat): set<nat> { set i | i in byIndex && i >= n :: byIndex[i] }

  lemma LeftoverIndex(byIndex: map<int, nat>, n: nat, id: nat) returns (i: int)
    requires id in Leftover(byIndex, n)
    ensures i in byIndex && i >= n && byIndex[i] == id
  {
    i :| i in byIndex && i >= n && byIndex[i] == id;
  }

  /** A container is trimmed exactly when it is a replica beyond the count. */
  lemma WhoIsTrimmed(before: Containers, started: Containers, grown: Containers, svc: Service, byIndex: map<int, nat>,
                     nextId: nat, l: Loc)
    requires Corresponds(before, svc) && UniqueIds(grown, nextId) && l in grown
    requires OnlyStarted(before, started, svc) && Indexed(started, svc, byIndex)
    requires GrownPartly(started, grown, svc, Count(svc))
    ensures l.env == svc.endpointID && grown[l].id in Leftover(byIndex, Count(svc))
       <==> Owned(before, svc, l) && !IsPlace(svc, Count(svc), l)
  {
    var n := Count(svc);
    assert StartedAt(before, started, svc, l) && GrownAt(started, grown, svc, n, l) && Labelled(before, svc, l);
    if l !in started { MadeIsPlaced(grown[l], svc, n, l); }
    if l.env == svc.endpointID && grown[l].id in Leftover(byIndex, n) {
      var i := LeftoverIndex(byIndex, n, grown[l].id);
      assert IndexedAt(started, svc, i, byIndex[i]);
      assert GrownAt(started, grown, svc, n, At(svc, i)) && StartedAt(before, started, svc, At(svc, i));
      assert IdsApart(grown, l, At(svc, i)) && Named(before, svc, i);
      PlaceOfIndex(svc, n, i);
    }
    if Owned(before, svc, l) && !IsPlace(svc, n, l) {
      var i := IndexOf(before[l].labels).value;
      PlaceOfIndex(svc, n, i);
      assert FoundAt(started, svc, byIndex, i);
      assert i in byIndex && IndexedAt(started, svc, i, byIndex[i]);
    }
  }

  /** However far the three passes came, no desired replica was lost. */
  lemma PassesLoseNothing(
    before: Containers, started: Containers, grown: Containers, after: Containers, svc: Service,
    byIndex: map<int, nat>, nextId: nat)
    requires Corresponds(before, svc) && UniqueIds(grown, nextId)
    requires OnlyStarted(before, started, svc) && Indexed(started, svc, byIndex)
    requires GrownPartly(started, grown, svc, Count(svc))
    requires TrimmedPartly(grown, after, svc.endpointID, Leftover(byIndex, Count(svc)))
    ensures NothingLost(before, after, svc)
  {
    forall l ensures NotLost(before, after, svc, l) {
      assert StartedAt(before, started, svc, l) && GrownAt(started, grown, svc, Count(svc), l);
      assert PartlyTrimmedAt(grown, after, svc.endpointID, Leftover(byIndex, Count(svc)), l);
      if l in grown { WhoIsTrimmed(before, started, grown, svc, byIndex, nextId, l); }
    }
  }

  lemma PassesReconcile(
    before: Containers, started: Containers, grown: Containers, after: Containers, svc: Service,
    byIndex: map<int, nat>, nextId: nat)
    requires Corresponds(before, svc) && LabelsFree(svc) && UniqueIds(grown, nextId)
    requires OnlyStarted(before, started, svc) && AllUp(before, started, svc) && Indexed(started, svc, byIndex)
    requires Grown(started, grown, svc, Count(svc))
    requires Trimmed(grown, after, svc.endpointID, Leftover(byIndex, Count(svc)))
    ensures Reconciled(before, after, svc)
  {
    TrimmedIsPartly(grown, after, svc.endpointID, Leftover(byIndex, Count(svc)));
    PassesLoseNothing(before, started, grown, after, svc, byIndex, nextId);
    forall l ensures OwnedIffPlaced(after, svc, Count(svc), l) {
      if l in grown { WhoIsTrimmed(before, started, grown, svc, byIndex, nextId, l); }
      WhoSurvives(before, started, grown, after, svc, Leftover(byIndex, Count(svc)), l);
    }
    forall i: int64 | 0 <= i < Count(svc) ensures Placed(before, after, svc, i) {
      var l := At(svc, i);
      PlaceOfIndex(svc, Count(svc), i);
      assert FilledAt(started, grown, svc, i);
      WhoIsTrimmed(before, started, grown, svc, byIndex, nextId, l);
      assert TrimmedAt(grown, after, svc.endpointID, Leftover(byIndex, Count(svc)), l);
      assert StartedAt(before, started, svc, l) && GrownAt(started, grown, svc, Count(svc), l);
      assert UpAt(before, started, svc, l) && Named(before, svc, i);
    }
  }

  lemma WhoSurvives(
    before: Containers, started: Containers, grown: Containers, after: Containers, svc: Service, gone: set<nat>, l: Loc)
    requires Corresponds(before, svc) && LabelsFree(svc)
    requires OnlyStarted(before, started, svc) && Grown(started, grown, svc, Count(svc))
    requires Trimmed(grown, after, svc.endpointID, gone)
    requires l in grown ==>
      (l.env == svc.endpointID && grown[l].id in gone <==> Owned(before, svc, l) && !IsPlace(svc, Count(svc), l))
    ensures OwnedIffPlaced(after, svc, Count(svc), l)
  {
    var n := Count(svc);
    assert StartedAt(before, started, svc, l) && GrownAt(started, grown, svc, n, l);
    assert TrimmedAt(grown, after, svc.endpointID, gone, l);
    if IsPlace(svc, n, l) {
      var i := PlaceIndex(svc, n, l);
      assert FilledAt(started, grown, svc, i) && Named(before, svc, i);
      if l !in before { NewCorresponds(svc, i, grown[l]); }
    }
  }

  // --------------------------------------------------------------- rolling out

  /** Where index j stands while index i is being replaced. */
  ghost predicate RolledAt(before: Containers, now: Containers, svc: Service, i: int64, j: int64)
    requires 0 <= j
  {
    var l := At(svc, j);
    && (j < i ==> l in now && IsNew(now[l], svc, j))
    && (i < j ==> Unchanged(before, now, l))
    && (i == j && l in now ==>
          Unchanged(before, now, l) || now[l] == Created(now[l].id, ReplicaSpec(svc, j), now[l].running))
  }

  predicate Apart(before: Containers, now: Containers, svc: Service, l: Loc) {
    !IsPlace(svc, Count(svc), l) ==> Unchanged(before, now, l)
  }

  /** Index i of a rollout is being replaced: lower indices carry the new spec, higher ones and all
      other containers are as they were, and at i itself the container is absent, old or new. */
  ghost predicate Stage(before: Containers, now: Containers, svc: Service, i: int64) {
    && 0 <= i <= Count(svc)
    && (forall l :: Apart(before, now, svc, l))
    && forall j: int64 :: 0 <= j < Count(svc) ==> RolledAt(before, now, svc, i, j)
  }

  /** At most one of the desired replicas is absent while a complete set is rolled over. */
  lemma AtMostOneAbsent(before: Containers, now: Containers, svc: Service, i: int64, j: int64, k: int64)
    requires Stage(before, now, svc, i) && Complete(before, svc)
    requires 0 <= j < Count(svc) && 0 <= k < Count(svc) && At(svc, j) !in now && At(svc, k) !in now
    ensures j == k == i
  {
    CompleteHas(before, svc, j);
    CompleteHas(before, svc, k);
    assert RolledAt(before, now, svc, i, j) && RolledAt(before, now, svc, i, k);
  }

  lemma StageStarts(before: Containers, svc: Service)
    ensures Stage(before, before, svc, 0)
  {
    forall l ensures Apart(before, before, svc, l) { }
    forall j: int64 | 0 <= j < Count(svc) ensures RolledAt(before, before, svc, 0, j) { }
  }

  /** Removing index i, or failing to, keeps the rollout at i. */
  lemma RollRemove(before: Containers, now: Containers, after: Containers, svc: Service, i: int64)
    requires 0 <= i < Count(svc) && Stage(before, now, svc, i)
    requires after == now || after == now - {At(svc, i)}
    ensures Stage(before, after, svc, i)
  {
    PlaceOfIndex(svc, Count(svc), i);
    forall l ensures Apart(before, after, svc, l) { assert Apart(before, now, svc, l); }
    forall j: int64 | 0 <= j < Count(svc) ensures RolledAt(before, after, svc, i, j) {
      assert RolledAt(before, now, svc, i, j);
      DistinctPlaces(svc, i, j);
    }
  }

  /** Deploying index i moves the rollout on, or leaves it at i. */
  lemma RollDeploy(before: Containers, now: Containers, after: Containers, svc: Service, i: int64, id: nat,
                   running: bool)
    requires 0 <= i < Count(svc) && Stage(before, now, svc, i)
    requires after == now[At(svc, i) := Created(id, ReplicaSpec(svc, i), running)]
    ensures Stage(before, after, svc, i)
    ensures running ==> Stage(before, after, svc, i + 1)
  {
    PlaceOfIndex(svc, Count(svc), i);
    forall l ensures Apart(before, after, svc, l) { assert Apart(before, now, svc, l); }
    forall j: int64 | 0 <= j < Count(svc) ensures RolledAt(before, after, svc, i, j) {
      assert RolledAt(before, now, svc, i, j);
      DistinctPlaces(svc, i, j);
    }
    if running {
      RollAdvances(before, after, svc, i, i + 1);
    }
  }

  lemma RollAdvances(before: Containers, after: Containers, svc: Service, i: int64, k: int64)
    requires 0 <= i < Count(svc) && k == i + 1 && Stage(before, after, svc, i)
    requires NewAt(after, svc, i)
    ensures Stage(before, after, svc, k)
  {
    forall j: int64 | 0 <= j < Count(svc) ensures RolledAt(before, after, svc, k, j) {
      assert RolledAt(before, after, svc, i, j);
    }
  }

  lemma StageNamed(before: Containers, now: Containers, svc: Service, i: int64, j: nat)
    requires Corresponds(before, svc) && LabelsFree(svc) && Stage(before, now, svc, i)
    ensures Named(now, svc, j)
  {
    var l := At(svc, j);
    PlaceOfIndex(svc, Count(svc), j);
    assert Apart(before, now, svc, l) && Named(before, svc, j);
    if j < Count(svc) { assert RolledAt(before, now, svc, i, j); }
    if l in now && !Unchanged(before, now, l) { NewCorresponds(svc, j, now[l]); }
  }

  /** A rollout in progress looks like a replica set: labels and names still correspond. */
  lemma StageCorresponds(before: Containers, now: Containers, svc: Service, i: int64)
    requires Corresponds(before, svc) && LabelsFree(svc) && Stage(before, now, svc, i)
    ensures Corresponds(now, svc)
  {
    forall j: nat ensures Named(now, svc, j) { StageNamed(before, now, svc, i, j); }
    forall l ensures Labelled(now, svc, l) {
      assert Apart(before, now, svc, l) && Labelled(before, svc, l);
      if IsPlace(svc, Count(svc), l) {
        var j := PlaceIndex(svc, Count(svc), l);
        StageNamed(before, now, svc, i, j);
      }
    }
  }

  predicate RolledOther(before: Containers, after: Containers, svc: Service, l: Loc) {
    !IsPlace(svc, Count(svc), l) ==> if Owned(before, svc, l) then l !in after else Unchanged(before, after, l)
  }

  /** What a finished rollout leaves: new replicas 0..n-1 and nothing else of the service. */
  ghost predicate RolledOver(before: Containers, after: Containers, svc: Service) {
    && (forall l :: RolledOther(before, after, svc, l))
    && Complete(after, svc)
    && forall j: int64 :: 0 <= j < Count(svc) ==> NewAt(after, svc, j)
  }

  ghost predicate NewAt(cs: Containers, svc: Service, j: int64)
    requires 0 <= j
  {
    At(svc, j) in cs && IsNew(cs[At(svc, j)], svc, j)
  }

  /** While superfluous replicas are removed all desired ones are there and new, and nothing but
      superfluous replicas is missing. */
  ghost predicate Trimming(before: Containers, now: Containers, svc: Service) {
    && (forall j: int64 :: 0 <= j < Count(svc) ==> NewAt(now, svc, j))
    && forall l :: OnlyTrimmed(before, now, svc, l)
  }

  predicate OnlyTrimmed(before: Containers, now: Containers, svc: Service, l: Loc) {
    IsPlace(svc, Count(svc), l) || Unchanged(before, now, l) || (Owned(before, svc, l) && l !in now)
  }

  predicate IsSuperfluous(cs: Containers, svc: Service, l: Loc) {
    Owned(cs, svc, l) && IndexOf(cs[l].labels).Some? && IndexOf(cs[l].labels).value >= svc.replicas
  }

  /** The ids of the service's containers whose index label is beyond the count. */
  ghost function Superfluous(cs: Containers, svc: Service): set<nat>
  {
    set l | l in cs && IsSuperfluous(cs, svc, l) :: cs[l].id
  }

  lemma WhoIsSuperfluous(before: Containers, rolled: Containers, svc: Service, nextId: nat, l: Loc)
    requires Corresponds(before, svc) && LabelsFree(svc) && UniqueIds(rolled, nextId)
    requires Stage(before, rolled, svc, Count(svc)) && l in rolled
    ensures rolled[l].id in Superfluous(rolled, svc) <==> Owned(rolled, svc, l) && !IsPlace(svc, Count(svc), l)
    ensures !IsPlace(svc, Count(svc), l) ==> Unchanged(before, rolled, l)
  {
    StageCorresponds(before, rolled, svc, Count(svc));
    assert Apart(before, rolled, svc, l) && Labelled(rolled, svc, l);
    if Owned(rolled, svc, l) {
      PlaceOfIndex(svc, Count(svc), IndexOf(rolled[l].labels).value);
      if !IsPlace(svc, Count(svc), l) { assert IsSuperfluous(rolled, svc, l); }
    }
    if rolled[l].id in Superfluous(rolled, svc) {
      var k :| k in rolled && IsSuperfluous(rolled, svc, k) && rolled[k].id == rolled[l].id;
      assert IdsApart(rolled, k, l);
    }
  }

  lemma RolledKeepsNew(before: Containers, rolled: Containers, now: Containers, svc: Service, nextId: nat, j: int64)
    requires Corresponds(before, svc) && LabelsFree(svc) && UniqueIds(rolled, nextId)
    requires Stage(before, rolled, svc, Count(svc))
    requires TrimmedPartly(rolled, now, svc.endpointID, Superfluous(rolled, svc))
    requires 0 <= j < Count(svc)
    ensures NewAt(now, svc, j)
  {
    var l := At(svc, j);
    PlaceOfIndex(svc, Count(svc), j);
    assert RolledAt(before, rolled, svc, Count(svc), j);
    WhoIsSuperfluous(before, rolled, svc, nextId, l);
    assert PartlyTrimmedAt(rolled, now, svc.endpointID, Superfluous(rolled, svc), l);
  }

  lemma RolledThenTrimming(before: Containers, rolled: Containers, now: Containers, svc: Service, nextId: nat)
    requires Corresponds(before, svc) && LabelsFree(svc) && UniqueIds(rolled, nextId)
    requires Stage(before, rolled, svc, Count(svc))
    requires TrimmedPartly(rolled, now, svc.endpointID, Superfluous(rolled, svc))
    ensures Trimming(before, now, svc)
  {
    forall j: int64 | 0 <= j < Count(svc) ensures NewAt(now, svc, j) {
      RolledKeepsNew(before, rolled, now, svc, nextId, j);
    }
    forall l ensures OnlyTrimmed(before, now, svc, l) {
      assert PartlyTrimmedAt(rolled, now, svc.endpointID, Superfluous(rolled, svc), l) && Apart(before, rolled, svc, l);
      if l in rolled { WhoIsSuperfluous(before, rolled, svc, nextId, l); }
    }
  }

  lemma RolledThenTrimmed(before: Containers, rolled: Containers, after: Containers, svc: Service, nextId: nat)
    requires Corresponds(before, svc) && LabelsFree(svc) && UniqueIds(rolled, nextId)
    requires Stage(before, rolled, svc, Count(svc))
    requires Trimmed(rolled, after, svc.endpointID, Superfluous(rolled, svc))
    ensures RolledOver(before, after, svc)
  {
    TrimmedIsPartly(rolled, after, svc.endpointID, Superfluous(rolled, svc));
    forall j: int64 | 0 <= j < Count(svc) ensures NewAt(after, svc, j) {
      RolledKeepsNew(before, rolled, after, svc, nextId, j);
    }
    forall l ensures OwnedIffPlaced(after, svc, Count(svc), l) && RolledOther(before, after, svc, l) {
      assert TrimmedAt(rolled, after, svc.endpointID, Superfluous(rolled, svc), l) && Apart(before, rolled, svc, l);
      if l in rolled { WhoIsSuperfluous(before, rolled, svc, nextId, l); }
      if IsPlace(svc, Count(svc), l) {
        var j := PlaceIndex(svc, Count(svc), l);
        assert NewAt(after, svc, j) && Named(before, svc, j);
        NewCorresponds(svc, j, after[l]);
      }
    }
  }

  // ----------------------------------------------------- services side by side

  predicate UntouchedAt(before: Containers, after: Containers, svc: Service, l: Loc) {
    Owned(before, svc, l) || Owned(after, svc, l) ==> Unchanged(before, after, l)
  }

  /** The service's containers are what they were. */
  ghost predicate Untouched(before: Containers, after: Containers, svc: Service) {
    forall l :: UntouchedAt(before, after, svc, l)
  }

  /** What reconciling a service guarantees about its own containers, whatever happens to others. */
  ghost predicate Restored(before: Containers, after: Containers, svc: Service) {
    && Complete(after, svc) && AllPlaced(before, after, svc)
    && forall i: int64 :: 0 <= i < Count(svc) ==> KeptAt(before, after, svc, i)
  }

  predicate KeptAt(before: Containers, after: Containers, svc: Service, i: nat) {
    At(svc, i) in before ==> At(svc, i) in after && Same(before[At(svc, i)], after[At(svc, i)])
  }

  /** Reconciling one service leaves the containers of another alone. */
  lemma ReconcileSparesOthers(before: Containers, after: Containers, svc: Service, other: Service)
    requires NothingLost(before, after, svc) && LabelsFree(svc) && other.name != svc.name
    ensures Untouched(before, after, other)
    ensures Corresponds(before, other) ==> Corresponds(after, other)
  {
    forall l ensures UntouchedAt(before, after, other, l) {
      assert NotLost(before, after, svc, l);
      if l in after && l !in before {
        MadeIsPlaced(after[l], svc, Count(svc), l);
        var i := PlaceIndex(svc, Count(svc), l);
        MadeIsLabelled(after[l], svc, l, i);
      }
    }
    if Corresponds(before, other) {
      forall l ensures Labelled(after, other, l) {
        assert Labelled(before, other, l) && UntouchedAt(before, after, other, l);
      }
      forall i: nat ensures Named(after, other, i) {
        var l := At(other, i);
        assert Named(before, other, i) && UntouchedAt(before, after, other, l) && NotLost(before, after, svc, l);
        NotAPlaceOf(other, i, svc, Count(svc));
        if l in after && l !in before { MadeIsPlaced(after[l], svc, Count(svc), l); }
      }
    }
  }

  /** However a reconciliation ended, labels and names still correspond. */
  lemma NothingLostCorresponds(before: Containers, after: Containers, svc: Service)
    requires Corresponds(before, svc) && LabelsFree(svc) && NothingLost(before, after, svc)
    ensures Corresponds(after, svc)
  {
    forall i: nat ensures Named(after, svc, i) {
      var l := At(svc, i);
      assert Named(before, svc, i) && NotLost(before, after, svc, l);
      if l in after && l !in before { MadeIsLabelled(after[l], svc, l, i); }
    }
    forall l ensures Labelled(after, svc, l) {
      assert Labelled(before, svc, l) && NotLost(before, after, svc, l);
      if l in after && l !in before {
        MadeIsPlaced(after[l], svc, Count(svc), l);
        var i := PlaceIndex(svc, Count(svc), l);
        MadeIsLabelled(after[l], svc, l, i);
      }
    }
  }

  lemma MadeIsLabelled(c: Container, svc: Service, l: Loc, i: nat)
    requires LabelsFree(svc) && IsMade(c, svc, Count(svc), l) && l == At(svc, i)
    ensures IsReplica(c, svc.name) && IndexOf(c.labels) == Some(i)
  {
    var j: int64 :| 0 <= j < Count(svc) && l == At(svc, j) && c == Created(c.id, ReplicaSpec(svc, j), c.running);
    DistinctPlaces(svc, i, j);
    NewCorresponds(svc, j, c);
  }

  lemma UntouchedTransitive(before: Containers, mid: Containers, after: Containers, svc: Service)
    requires Untouched(before, mid, svc) && Untouched(mid, after, svc)
    ensures Untouched(before, after, svc)
  {
    forall l ensures UntouchedAt(before, after, svc, l) {
      assert UntouchedAt(before, mid, svc, l) && UntouchedAt(mid, after, svc, l);
    }
  }

  lemma UntouchedThenReconciled(before: Containers, mid: Containers, after: Containers, svc: Service)
    requires Corresponds(before, svc) && Corresponds(mid, svc)
    requires Untouched(before, mid, svc) && Reconciled(mid, after, svc)
    ensures Restored(before, after, svc)
  {
    forall i: int64 | 0 <= i < Count(svc) ensures Placed(before, after, svc, i) && KeptAt(before, after, svc, i) {
      var l := At(svc, i);
      assert Named(before, svc, i) && Named(mid, svc, i) && UntouchedAt(before, mid, svc, l);
      assert Placed(mid, after, svc, i) && NotLost(mid, after, svc, l);
    }
  }

  lemma RestoredThenUntouched(before: Containers, mid: Containers, after: Containers, svc: Service)
    requires Restored(before, mid, svc) && Untouched(mid, after, svc)
    ensures Restored(before, after, svc)
  {
    forall l ensures OwnedIffPlaced(after, svc, Count(svc), l) {
      assert OwnedIffPlaced(mid, svc, Count(svc), l) && UntouchedAt(mid, after, svc, l);
    }
    forall i: int64 | 0 <= i < Count(svc) ensures Placed(before, after, svc, i) && KeptAt(before, after, svc, i) {
      CompleteHas(mid, svc, i);
      assert UntouchedAt(mid, after, svc, At(svc, i));
      assert Placed(before, mid, svc, i) && KeptAt(before, mid, svc, i);
    }
  }

  /** A rollout spares the containers of other services. */
  lemma StageSparesOthers(before: Containers, now: Containers, svc: Service, i: int64, other: Service)
    requires Corresponds(before, svc) && LabelsFree(svc) && Stage(before, now, svc, i) && other.name != svc.name
    ensures Corresponds(before, other) ==> Corresponds(now, other)
  {
    if Corresponds(before, other) {
      forall l ensures Labelled(now, other, l) {
        assert Labelled(before, other, l) && Apart(before, now, svc, l);
        if IsPlace(svc, Count(svc), l) { PlaceStaysOwn(before, now, svc, i, l); }
      }
      forall j: nat ensures Named(now, other, j) {
        assert Named(before, other, j) && Apart(before, now, svc, At(other, j));
        NotAPlaceOf(other, j, svc, Count(svc));
      }
    }
  }

  lemma PlaceStaysOwn(before: Containers, now: Containers, svc: Service, i: int64, l: Loc)
    requires Corresponds(before, svc) && LabelsFree(svc) && Stage(before, now, svc, i) && IsPlace(svc, Count(svc), l)
    ensures l in now ==> IsReplica(now[l], svc.name)
  {
    var j := PlaceIndex(svc, Count(svc), l);
    StageNamed(before, now, svc, i, j);
  }

  /** Where replica j stands after a rollout that stopped at index i and a later sync: it runs; below
      i it is the new container, above i the old one, and at i a new one if there was none. */
  ghost predicate RepairedAt(before: Containers, stopped: Containers, after: Containers, svc: Service, i: int64,
                             j: int64)
    requires 0 <= j
  {
    var l := At(svc, j);
    && RunsAt(after, l)
    && (j < i ==> IsNew(after[l], svc, j) && l in stopped && after[l] == stopped[l])
    && (j > i ==> l in before && Same(before[l], after[l]))
    && (j == i && l !in stopped ==> IsNew(after[l], svc, j))
  }

  ghost predicate Repaired(before: Containers, stopped: Containers, after: Containers, svc: Service, i: int64) {
    && 0 <= i <= Count(svc) && Complete(after, svc)
    && forall j: int64 :: 0 <= j < Count(svc) ==> RepairedAt(before, stopped, after, svc, i, j)
  }

  /** A rollout that stopped is repaired by a later sync. */
  lemma FailedRolloutRepaired(before: Containers, stopped: Containers, after: Containers, svc: Service, row: Service,
                              i: int64)
    requires Complete(before, svc) && Stage(before, stopped, svc, i) && Restored(stopped, after, row)
    requires row == svc.(lastImage := row.lastImage) || (stopped == before && row == svc.(image := row.image))
    ensures Repaired(before, stopped, after, svc, if stopped == before then 0 else i)
  {
    var k := if stopped == before then 0 else i;
    forall l ensures OwnedIffPlaced(after, svc, Count(svc), l) {
      assert OwnedIffPlaced(after, row, Count(row), l);
      if IsPlace(svc, Count(svc), l) {
        var j := PlaceIndex(svc, Count(svc), l);
        PlaceOfIndex(row, Count(row), j);
      }
      if IsPlace(row, Count(row), l) {
        var j := PlaceIndex(row, Count(row), l);
        PlaceOfIndex(svc, Count(svc), j);
      }
    }
    forall j: int64 | 0 <= j < Count(svc) ensures RepairedAt(before, stopped, after, svc, k, j) {
      assert At(row, j) == At(svc, j) && ReplicaSpec(row, j).name == ReplicaSpec(svc, j).name;
      assert Placed(stopped, after, row, j) && KeptAt(stopped, after, row, j) && RolledAt(before, stopped, svc, i, j);
      CompleteHas(before, svc, j);
    }
  }
}
