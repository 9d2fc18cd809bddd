/** Operations that overlap. Scaling, by hand or by the autoscaler, does not take the lock that updating
    and redeploying take, so their Docker calls interleave in any order, among themselves and with
    the calls for other services. */
module Overlap {
  import opened Text
  import opened Specs
  import opened Docker
  import opened Replicas
  import opened Quota
  import Passes
  import Services

  /** A replica of the service, at any count up to m, is created, started or not. */
  ghost predicate Deploys(before: Containers, after: Containers, svc: Service, m: nat, s: Service, i: int64,
                          c: Container) {
    && Version(s, svc, m) && 0 <= i < Count(s) && At(s, i) !in before
    && c == Created(c.id, ReplicaSpec(s, i), c.running) && after == before[At(s, i) := c]
  }

  ghost predicate Removes(before: Containers, after: Containers, svc: Service, l: Loc) {
    Owned(before, svc, l) && after == before - {l}
  }

  ghost predicate Starts(before: Containers, after: Containers, svc: Service, l: Loc) {
    Owned(before, svc, l) && after == before[l := before[l].(running := true)]
  }

  /** One call that changes the service's containers, whichever operation makes it. */
  ghost predicate Call(before: Containers, after: Containers, svc: Service, m: nat) {
    || after == before
    || (exists s, i: int64, c :: Deploys(before, after, svc, m, s, i, c))
    || (exists l :: Removes(before, after, svc, l))
    || (exists l :: Starts(before, after, svc, l))
  }

  /** Somebody else's doing: the service's containers are what they were, nobody took one of its names,
      and the owner got nothing there beside it. */
  ghost predicate Aside(before: Containers, after: Containers, svc: Service, owner: string) {
    Beside(before, after, svc, owner) && forall i: nat :: NameLeft(before, after, svc, i)
  }

  predicate NameLeft(before: Containers, after: Containers, svc: Service, i: nat) {
    At(svc, i) in after ==> At(svc, i) in before
  }

  ghost predicate MoveAt(states: seq<Containers>, svc: Service, owner: string, m: nat, k: nat)
    requires k + 1 < |states|
  {
    Call(states[k], states[k + 1], svc, m) || Aside(states[k], states[k + 1], svc, owner)
  }

  ghost predicate Moves(states: seq<Containers>, svc: Service, owner: string, m: nat) {
    forall k :: 0 <= k < |states| - 1 ==> MoveAt(states, svc, owner, m, k)
  }

  // ------------------------------------------------- what the operations can call

  /** One Docker call of an operation on the service. The ids come from a listing, however old. */
  datatype Request =
    | Deploy(row: Service, index: int64)
    | RemoveName(row: Service, index: int64)
    | RemoveId(env: int, id: nat)
    | Start(env: int, id: nat)

  /** Ids that were read from the service's containers: where they still exist they are the service's. */
  ghost predicate OwnIds(cs: Containers, svc: Service, ids: set<nat>) { forall l :: OwnIdAt(cs, svc, ids, l) }

  predicate OwnIdAt(cs: Containers, svc: Service, ids: set<nat>, l: Loc) {
    l in cs && l.env == svc.endpointID && cs[l].id in ids ==> Owned(cs, svc, l)
  }

  ghost predicate Sensible(r: Request, svc: Service, m: nat, ids: set<nat>) {
    match r
    case Deploy(row, i) => Version(row, svc, m) && 0 <= i < Count(row)
    case RemoveName(row, i) => row.name == svc.name && row.endpointID == svc.endpointID && 0 <= i
    case RemoveId(env, id) => env == svc.endpointID && id in ids
    case Start(env, id) => env == svc.endpointID && id in ids
  }

  /** What a call did, as Docker's contracts have it. */
  ghost predicate Performed(before: Containers, id: nat, r: Request, after: Containers, id': nat, ok: bool, fault: bool)
    requires (r.Deploy? || r.RemoveName?) ==> r.index >= 0
  {
    && id <= id' && UniqueIds(after, id')
    && match r
       case Deploy(row, i) => Passes.Deployed(before, after, row, i, id, ok, fault)
       case RemoveName(row, i) => after == if fault then before else before - {At(row, i)}
       case RemoveId(env, gone) => after == if fault then before else WithoutId(before, env, gone)
       case Start(env, stopped) => if fault then after == before else Switched(before, after, env, stopped, true)
  }

  method Perform(hosts: Hosts, r: Request) returns (ok: bool)
    requires hosts.Valid() && ((r.Deploy? || r.RemoveName?) ==> r.index >= 0)
    modifies hosts
    ensures hosts.Valid() && (hosts.faults == old(hosts.faults) || hosts.faults == old(hosts.faults) + 1)
    ensures Performed(old(hosts.containers), old(hosts.nextId), r, hosts.containers, hosts.nextId, ok,
                      hosts.faults > old(hosts.faults))
  {
    ok := true;
    match r
    case Deploy(row, i) => ok := Passes.DeployReplica(hosts, row, i);
    case RemoveName(row, i) => hosts.RemoveByName(row.endpointID, ReplicaName(row.name, i));
    case RemoveId(env, id) => ok := hosts.RemoveById(env, id);
    case Start(env, id) => hosts.Start(env, id);
  }

  /** Whatever the operations on a service call, with indices and ids however stale, is a call on that
      service, and leaves the ids its own. */
  lemma PerformedIsCall(before: Containers, id: nat, r: Request, after: Containers, id': nat, ok: bool, fault: bool,
                        svc: Service, m: nat, ids: set<nat>)
    requires Services.Clean(before, svc) && UniqueIds(before, id) && OwnIds(before, svc, ids)
    requires Sensible(r, svc, m, ids)
    requires Performed(before, id, r, after, id', ok, fault)
    ensures Call(before, after, svc, m) && OwnIds(after, svc, ids)
  {
    if after != before {
      match r
      case Deploy(row, i) =>
        assert Deploys(before, after, svc, m, row, i, after[At(row, i)]);
      case RemoveName(row, i) =>
        assert At(row, i) == At(svc, i) && Named(before, svc, i);
        assert Removes(before, after, svc, At(svc, i));
      case RemoveId(env, gone) => RemovalIsCall(before, id, after, gone, svc, m, ids);
      case Start(env, stopped) => StartIsCall(before, id, after, stopped, svc, m, ids);
    }
    CallKeepsIds(before, after, svc, m, ids);
  }

  lemma RemovalIsCall(before: Containers, id: nat, after: Containers, gone: nat, svc: Service, m: nat, ids: set<nat>)
    requires UniqueIds(before, id) && OwnIds(before, svc, ids) && gone in ids
    requires after == WithoutId(before, svc.endpointID, gone)
    ensures Call(before, after, svc, m)
  {
    if l :| HasId(before, svc.endpointID, gone, l) {
      forall k ensures HasId(before, svc.endpointID, gone, k) <==> k == l { assert IdsApart(before, k, l); }
      assert OwnIdAt(before, svc, ids, l);
      assert Removes(before, after, svc, l);
    } else {
      assert after == before;
    }
  }

  lemma StartIsCall(before: Containers, id: nat, after: Containers, stopped: nat, svc: Service, m: nat, ids: set<nat>)
    requires UniqueIds(before, id) && OwnIds(before, svc, ids) && stopped in ids
    requires Switched(before, after, svc.endpointID, stopped, true)
    ensures Call(before, after, svc, m)
  {
    if l :| HasId(before, svc.endpointID, stopped, l) {
      assert OwnIdAt(before, svc, ids, l);
      var on := before[l := before[l].(running := true)];
      forall k ensures (k in after <==> k in on) && (k in after ==> after[k] == on[k]) {
        assert IdsApart(before, k, l) && SwitchedAt(before, after, svc.endpointID, stopped, true, k);
      }
      assert Starts(before, after, svc, l);
    } else {
      forall k ensures (k in after <==> k in before) && (k in after ==> after[k] == before[k]) {
        assert SwitchedAt(before, after, svc.endpointID, stopped, true, k);
      }
      assert after == before;
    }
  }

  lemma CallKeepsIds(before: Containers, after: Containers, svc: Service, m: nat, ids: set<nat>)
    requires OwnIds(before, svc, ids) && Call(before, after, svc, m)
    ensures OwnIds(after, svc, ids)
  {
    if s, i: int64, c :| Deploys(before, after, svc, m, s, i, c) { NewCorresponds(s, i, c); }
    forall l ensures OwnIdAt(after, svc, ids, l) { assert OwnIdAt(before, svc, ids, l); }
  }

  /** What a listing of the service tells is its own, and stays so whatever others do, since their new
      containers have new ids. */
  lemma ListedIdsAreOwn(cs: Containers, svc: Service, nextId: nat)
    requires UniqueIds(cs, nextId)
    ensures OwnIds(cs, svc, Passes.OwnedIds(cs, svc))
  {
    forall l ensures OwnIdAt(cs, svc, Passes.OwnedIds(cs, svc), l) {
      if l in cs && cs[l].id in Passes.OwnedIds(cs, svc) {
        var k :| k in cs && Owned(cs, svc, k) && cs[k].id == cs[l].id;
        assert IdsApart(cs, l, k);
      }
    }
  }

  predicate IdKept(before: Containers, after: Containers, nextId: nat, l: Loc) {
    l in after ==> after[l].id >= nextId || (l in before && before[l].id == after[l].id)
  }

  lemma OthersKeepIds(before: Containers, after: Containers, svc: Service, owner: string, nextId: nat, ids: set<nat>)
    requires Aside(before, after, svc, owner) && OwnIds(before, svc, ids) && forall id :: id in ids ==> id < nextId
    requires forall l :: IdKept(before, after, nextId, l)
    ensures OwnIds(after, svc, ids)
  {
    forall l ensures OwnIdAt(after, svc, ids, l) {
      assert OwnIdAt(before, svc, ids, l) && IdKept(before, after, nextId, l) && UntouchedAt(before, after, svc, l);
    }
  }

  // ------------------------------------------------------------- what a call keeps

  lemma DeployKeepsClean(before: Containers, after: Containers, svc: Service, m: nat, s: Service, i: int64,
                         c: Container)
    requires Services.Clean(before, svc) && Deploys(before, after, svc, m, s, i, c)
    ensures Services.Clean(after, svc)
  {
    NewCorresponds(s, i, c);
    assert At(s, i) == At(svc, i);
    forall l ensures Labelled(after, svc, l) { assert Labelled(before, svc, l); }
    forall j: nat ensures Named(after, svc, j) {
      assert Named(before, svc, j);
      DistinctPlaces(svc, i, j);
    }
  }

  lemma CallKeepsClean(before: Containers, after: Containers, svc: Service, m: nat)
    requires Services.Clean(before, svc) && Call(before, after, svc, m)
    ensures Services.Clean(after, svc)
  {
    if s, i: int64, c :| Deploys(before, after, svc, m, s, i, c) {
      DeployKeepsClean(before, after, svc, m, s, i, c);
    } else {
      forall l ensures Labelled(after, svc, l) { assert Labelled(before, svc, l); }
      forall j: nat ensures Named(after, svc, j) { assert Named(before, svc, j); }
    }
  }

  /** Every call is a step of the service's life, as the reservation sees it. */
  lemma CallIsLifeStep(before: Containers, after: Containers, svc: Service, owner: string, m: nat)
    requires svc.name != "" && LabelsFree(svc) && Call(before, after, svc, m)
    ensures LifeStep(before, after, svc, owner, m)
  {
    if s, i: int64, c :| Deploys(before, after, svc, m, s, i, c) {
      DeployLosesNothing(before, after, s, i, c);
    } else if l :| Removes(before, after, svc, l) {
      RemovalIsElsewhere(before, after, svc, owner, l);
    } else {
      var s := svc.(replicas := 0);
      assert Version(s, svc, m);
      forall k ensures NotLost(before, after, s, k) { }
      assert NothingLost(before, after, s);
    }
  }

  lemma RemovalIsElsewhere(before: Containers, after: Containers, svc: Service, owner: string, l: Loc)
    requires svc.name != "" && Removes(before, after, svc, l)
    ensures Elsewhere(before, after, svc, owner)
  {
    forall k ensures RestKeptAt(before, after, svc, k) { }
    forall r ensures RestNoHeavier(before, after, svc, owner, r) { RestWeighsTheSame(before, after, svc, owner, r); }
  }

  // ------------------------------------------------------------ any interleaving

  /** A call for another service is somebody else's doing, if what it deploys does not count for the
      owner there. */
  lemma NeighboursAreAside(before: Containers, after: Containers, other: Service, k: nat, svc: Service, owner: string)
    requires other.name != svc.name && Call(before, after, other, k)
    requires forall s, i: int64, c :: Deploys(before, after, other, k, s, i, c) ==> Neighbour(s, svc, owner)
    ensures Aside(before, after, svc, owner)
  {
    if s, i: int64, c :| Deploys(before, after, other, k, s, i, c) {
      DeployLosesNothing(before, after, s, i, c);
      NeighbourIsBeside(before, after, s, svc, owner);
      forall j: nat ensures NameLeft(before, after, svc, j) {
        if At(svc, j) == At(s, i) { ReplicaNameInjective(svc.name, j, s.name, i); }
      }
    } else {
      forall l ensures UntouchedAt(before, after, svc, l) && NotAddedAt(before, after, svc, owner, l) { }
      forall j: nat ensures NameLeft(before, after, svc, j) { }
    }
  }

  lemma AsideKeepsClean(before: Containers, after: Containers, svc: Service, owner: string)
    requires Services.Clean(before, svc) && Aside(before, after, svc, owner)
    ensures Services.Clean(after, svc)
  {
    forall l ensures Labelled(after, svc, l) {
      assert Labelled(before, svc, l) && UntouchedAt(before, after, svc, l);
    }
    forall j: nat ensures Named(after, svc, j) {
      assert Named(before, svc, j) && UntouchedAt(before, after, svc, At(svc, j)) && NameLeft(before, after, svc, j);
    }
  }

  /** However the calls of overlapping operations interleave, on this service and on others, labels and
      names correspond. */
  lemma {:induction false} OverlapStaysClean(states: seq<Containers>, svc: Service, owner: string, m: nat, k: nat)
    requires k < |states| && Services.Clean(states[0], svc) && Moves(states, svc, owner, m)
    ensures Services.Clean(states[k], svc)
    decreases k
  {
    if k > 0 {
      OverlapStaysClean(states, svc, owner, m, k - 1);
      assert MoveAt(states, svc, owner, m, k - 1);
      if Call(states[k - 1], states[k], svc, m) {
        CallKeepsClean(states[k - 1], states[k], svc, m);
      } else {
        AsideKeepsClean(states[k - 1], states[k], svc, owner);
      }
    }
  }

  /** So a reconciliation that runs alone after any of it ends with exactly the desired replicas. */
  method ReconcileAfterwards(hosts: Hosts, svc: Service, ghost states: seq<Containers>, ghost owner: string,
                             ghost m: nat)
    returns (ok: bool)
    requires hosts.Valid() && states != [] && states[|states| - 1] == hosts.containers
    requires Services.Clean(states[0], svc) && Moves(states, svc, owner, m)
    modifies hosts
    ensures hosts.faults == old(hosts.faults) ==> ok && Reconciled(old(hosts.containers), hosts.containers, svc)
  {
    OverlapStaysClean(states, svc, owner, m, |states| - 1);
    ok := Services.Converge(hosts, svc);
  }

  lemma {:induction false} OverlapIsSane(states: seq<Containers>, svc: Service, owner: string, m: nat, k: nat)
    requires svc.name != "" && svc.cpuMilli >= 0 && svc.memMB >= 0 && LabelsFree(svc)
    requires k < |states| && SaneFor(states[0], svc.endpointID, owner) && Moves(states, svc, owner, m)
    ensures SaneFor(states[k], svc.endpointID, owner)
    decreases k
  {
    if k > 0 {
      OverlapIsSane(states, svc, owner, m, k - 1);
      assert MoveAt(states, svc, owner, m, k - 1);
      if Call(states[k - 1], states[k], svc, m) {
        CallKeepsSane(states[k - 1], states[k], svc, m, owner);
      } else {
        BesideIsElsewhere(states[k - 1], states[k], svc, owner);
      }
    }
  }

  lemma CallKeepsSane(before: Containers, after: Containers, svc: Service, m: nat, owner: string)
    requires svc.cpuMilli >= 0 && svc.memMB >= 0
    requires SaneFor(before, svc.endpointID, owner) && Call(before, after, svc, m)
    ensures SaneFor(after, svc.endpointID, owner)
  {
    if s, i: int64, c :| Deploys(before, after, svc, m, s, i, c) {
      DeployLosesNothing(before, after, s, i, c);
      ReconcileKeepsSane(before, after, svc, s, m, owner);
    } else {
      forall l ensures SaneForAt(after, svc.endpointID, owner, l) {
        assert SaneForAt(before, svc.endpointID, owner, l);
        if l in after && Counted(after, svc.endpointID, owner, "", l) {
          forall r ensures Limit(after[l], r) >= 0 { assert Limit(before[l], r) >= 0; }
        }
      }
    }
  }

  /** And a service that passed the quota check for m replicas keeps its owner within quota in every
      state of every interleaving of operations on it that work with counts up to m, and of operations
      on other services that add nothing of the owner's there. */
  lemma OverlapStaysWithin(states: seq<Containers>, svc: Service, owner: string, exclude: string, quota: int, m: nat,
                           r: Resource, k: nat)
    requires svc.name != "" && (exclude == "" || exclude == svc.name) && LabelsFree(svc)
    requires svc.cpuMilli >= 0 && svc.memMB >= 0
    requires k < |states| && Moves(states, svc, owner, m) && Fits(states[0], svc, m) && SaneLimits(states[0])
    requires RoomFor(Usage(states[0], svc.endpointID, owner, exclude, r), quota, m, PerReplica(svc, r), r)
    ensures WithinQuota(Usage(states[k], svc.endpointID, owner, "", r), quota,
                        WholeLimits(states[0], svc.endpointID, owner), r)
  {
    forall l ensures SaneForAt(states[0], svc.endpointID, owner, l) { assert SaneAt(states[0], l); }
    forall i | 0 <= i < |states| - 1 ensures LifeStepAt(states, svc, owner, m, i) {
      assert MoveAt(states, svc, owner, m, i);
      if Call(states[i], states[i + 1], svc, m) {
        CallIsLifeStep(states[i], states[i + 1], svc, owner, m);
      } else {
        OverlapIsSane(states, svc, owner, m, i);
        BesideIsElsewhere(states[i], states[i + 1], svc, owner);
      }
    }
    ReservationSuffices(states, svc, owner, exclude, quota, m, r, k);
  }
}
