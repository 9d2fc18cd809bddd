/** The loops of the service manager over one Docker host: the three passes of reconciling, and the
    rolling replacement. */
module Passes {
  import opened Text
  import opened Specs
  import opened Docker
  import opened Replicas
  import Collections

  // ------------------------------------------------------------ first pass: survey

  predicate UpIfReplica(cs: Containers, env: int, s: Summary) {
    IndexOf(s.labels).Some? ==> RunsAt(cs, Loc(env, s.name))
  }

  /** How far the survey has come; quiet tells that no call has failed. */
  ghost predicate Surveying(before: Containers, now: Containers, svc: Service, list: seq<Summary>, k: nat,
                            byIndex: map<int, nat>, quiet: bool)
    requires k <= |list|
  {
    && OnlyStarted(before, now, svc)
    && Surveyed(svc, list[..k], byIndex)
    && (quiet ==> forall j :: 0 <= j < k ==> UpIfReplica(now, svc.endpointID, list[j]))
  }

  /** One listed container: quiet stays if nothing had to be started or starting it succeeded. */
  lemma SurveyOne(before: Containers, now: Containers, after: Containers, svc: Service, list: seq<Summary>, k: nat,
                  byIndex: map<int, nat>, quiet: bool, quiet': bool, nextId: nat)
    requires k < |list| && Surveying(before, now, svc, list, k, byIndex, quiet) && UniqueIds(before, nextId)
    requires IsListed(before, before.Keys, svc.endpointID, LABEL_SERVICE, svc.name, true, list[k])
    requires after == now || Switched(now, after, svc.endpointID, list[k].id, true)
    requires quiet' ==> quiet && (Switched(now, after, svc.endpointID, list[k].id, true)
                                  || list[k].running || IndexOf(list[k].labels).None?)
    ensures var i := IndexOf(list[k].labels);
            Surveying(before, after, svc, list, k + 1, if i.Some? then byIndex[i.value := list[k].id] else byIndex,
                      quiet')
  {
    SurveyStep(svc, list, k, byIndex);
    if Switched(now, after, svc.endpointID, list[k].id, true) { StartStep(before, now, after, svc, list[k], nextId); }
    if quiet' {
      forall j | 0 <= j < k + 1 ensures UpIfReplica(after, svc.endpointID, list[j]) {
        if j < k {
          assert UpIfReplica(now, svc.endpointID, list[j]);
        } else {
          assert StartedAt(before, now, svc, Loc(svc.endpointID, list[k].name));
        }
      }
    }
  }

  lemma SurveyEnds(before: Containers, now: Containers, svc: Service, list: seq<Summary>, byIndex: map<int, nat>,
                   quiet: bool)
    requires IsListing(before, before.Keys, svc.endpointID, LABEL_SERVICE, svc.name, true, list)
    requires Surveying(before, now, svc, list, |list|, byIndex, quiet)
    ensures Corresponds(before, svc) ==> Indexed(now, svc, byIndex)
    ensures Corresponds(before, svc) && quiet ==> AllUp(before, now, svc)
  {
    assert list[..|list|] == list;
    if Corresponds(before, svc) {
      SurveyIndexes(before, svc, list, byIndex);
      OnlyStartedIndexed(before, now, svc, byIndex);
      if quiet {
        forall l ensures UpAt(before, now, svc, l) {
          if Owned(before, svc, l) {
            assert Labelled(before, svc, l) && Selected(before, svc.endpointID, LABEL_SERVICE, svc.name, true, l);
            var s := SummaryOf(l.name, before[l]);
            assert s in list;
            var j :| 0 <= j < |list| && list[j] == s;
            assert UpIfReplica(now, svc.endpointID, list[j]);
          }
        }
      }
    }
  }

  lemma NoneListed(cs: Containers, svc: Service, list: seq<Summary>)
    requires IsListing(cs, cs.Keys, svc.endpointID, LABEL_SERVICE, svc.name, true, list)
    ensures NoneThere(cs, svc) ==> list == []
  {
    if NoneThere(cs, svc) && list != [] {
      assert IsListed(cs, cs.Keys, svc.endpointID, LABEL_SERVICE, svc.name, true, list[0]);
      assert Owned(cs, svc, Loc(svc.endpointID, list[0].name));
    }
  }

  /** Reads which replicas exist and starts the stopped ones. */
  method Survey(hosts: Hosts, svc: Service) returns (ok: bool, byIndex: map<int, nat>)
    requires hosts.Valid()
    modifies hosts
    ensures hosts.Valid() && hosts.changes == old(hosts.changes) && old(hosts.faults) <= hosts.faults
    ensures !ok ==> hosts.faults > old(hosts.faults) && hosts.containers == old(hosts.containers)
    ensures ok ==> OnlyStarted(old(hosts.containers), hosts.containers, svc)
    ensures ok && Corresponds(old(hosts.containers), svc) ==> Indexed(hosts.containers, svc, byIndex)
    ensures ok && Corresponds(old(hosts.containers), svc) && hosts.faults == old(hosts.faults) ==>
      AllUp(old(hosts.containers), hosts.containers, svc)
    ensures ok && NoneThere(old(hosts.containers), svc) ==> byIndex == map[] && hosts.faults == old(hosts.faults)
  {
    ghost var before, nextId := hosts.containers, hosts.nextId;
    var existing;
    byIndex := map[];
    ok, existing := hosts.ListByLabel(svc.endpointID, LABEL_SERVICE, svc.name, true);
    if !ok { return; }
    NoneListed(before, svc, existing);
    for k := 0 to |existing|
      invariant hosts.Valid() && hosts.changes == old(hosts.changes) && old(hosts.faults) <= hosts.faults
      invariant Surveying(before, hosts.containers, svc, existing, k, byIndex, hosts.faults == old(hosts.faults))
      invariant k == 0 ==> byIndex == map[] && hosts.faults == old(hosts.faults)
    {
      var c := existing[k];
      ghost var now, found, quiet := hosts.containers, byIndex, hosts.faults == old(hosts.faults);
      var idx := IndexOf(c.labels);
      if idx.Some? {
        byIndex := byIndex[idx.value := c.id];
        if !c.running { hosts.Start(svc.endpointID, c.id); }
      }
      SurveyOne(before, now, hosts.containers, svc, existing, k, found, quiet, hosts.faults == old(hosts.faults),
                nextId);
    }
    SurveyEnds(before, hosts.containers, svc, existing, byIndex, hosts.faults == old(hosts.faults));
  }

  // -------------------------------------------------------------- second pass: grow

  ghost predicate AllFound(svc: Service, found: map<int, nat>) { forall i :: 0 <= i < Count(svc) ==> i in found }

  /** The indices that the second pass has not taken. */
  function Remaining(found: map<int, nat>, n: int): map<int, nat> {
    found - set i | i in found && 0 <= i < n
  }

  /** Indices below i are dealt with. */
  ghost predicate Growing(before: Containers, now: Containers, svc: Service, found: map<int, nat>, i: int64)
    requires 0 <= i
  {
    && GrownPartly(before, now, svc, i)
    && (Indexed(before, svc, found) ==> Grown(before, now, svc, i))
  }

  lemma GrowStarts(before: Containers, svc: Service, found: map<int, nat>)
    ensures Growing(before, before, svc, found, 0) && Remaining(found, 0) == found
  {
    forall l ensures GrownAt(before, before, svc, 0, l) { }
  }

  lemma GrowSkips(before: Containers, now: Containers, svc: Service, found: map<int, nat>, i: int64)
    requires 0 <= i < Count(svc) && i in found && Growing(before, now, svc, found, i)
    ensures Growing(before, now, svc, found, i + 1)
  {
    GrowsOn(before, now, svc, i, i + 1, 0, true);
    if Indexed(before, svc, found) {
      assert IndexedAt(before, svc, i, found[i]);
      GrowStep(before, now, now, svc, i, 0);
    }
  }

  /** What one call to deploy replica i can do. */
  ghost predicate Deployed(before: Containers, after: Containers, svc: Service, i: int64, id: nat, ok: bool,
                           fault: bool)
    requires 0 <= i
  {
    if ok then !fault && At(svc, i) !in before && after == before[At(svc, i) := Created(id, ReplicaSpec(svc, i), true)]
    else || (after == before && (fault || At(svc, i) in before))
         || (fault && At(svc, i) !in before && after == before[At(svc, i) := Created(id, ReplicaSpec(svc, i), false)])
  }

  method DeployReplica(hosts: Hosts, svc: Service, i: int64) returns (ok: bool)
    requires hosts.Valid() && 0 <= i
    modifies hosts
    ensures hosts.Valid() && hosts.changes == old(hosts.changes) + 1 && old(hosts.nextId) <= hosts.nextId
    ensures hosts.history == old(hosts.history) + [hosts.containers]
    ensures hosts.faults == old(hosts.faults) || hosts.faults == old(hosts.faults) + 1
    ensures Deployed(old(hosts.containers), hosts.containers, svc, i, old(hosts.nextId), ok,
                     hosts.faults != old(hosts.faults))
  {
    var spec := MakeReplicaSpec(svc, i);
    ok := hosts.Deploy(svc.endpointID, spec);
  }

  lemma GrowDeploys(before: Containers, now: Containers, after: Containers, svc: Service, found: map<int, nat>,
                    i: int64, id: nat, ok: bool, fault: bool)
    requires 0 <= i < Count(svc) && i !in found && Growing(before, now, svc, found, i)
    requires Deployed(now, after, svc, i, id, ok, fault)
    ensures GrownPartly(before, after, svc, Count(svc))
    ensures ok ==> Growing(before, after, svc, found, i + 1)
    ensures !ok && Indexed(before, svc, found) ==> fault
  {
    GrowsOn(before, now, svc, i, Count(svc), id, ok);
    GrowsOn(before, now, svc, i, i + 1, id, ok);
    if Indexed(before, svc, found) {
      assert FoundAt(before, svc, found, i) && GrownAt(before, now, svc, i, At(svc, i));
      PlaceOfIndex(svc, i, i);
      if ok { GrowStep(before, now, after, svc, i, id); }
    }
  }

  lemma RemainingStep(found: map<int, nat>, n: nat)
    ensures n in Remaining(found, n) <==> n in found
    ensures Remaining(found, n + 1) == Remaining(found, n) - {n}
    ensures n !in found ==> Remaining(found, n + 1) == Remaining(found, n)
  {
  }

  lemma GrownIsPartly(before: Containers, now: Containers, svc: Service, i: nat)
    requires i <= Count(svc) && GrownPartly(before, now, svc, i)
    ensures GrownPartly(before, now, svc, Count(svc))
  {
    if i < Count(svc) { GrowsOn(before, now, svc, i, Count(svc), 0, true); }
  }

  /** Deploys the missing replicas in order and leaves the superfluous indices. */
  method Grow(hosts: Hosts, svc: Service, found: map<int, nat>) returns (ok: bool, byIndex: map<int, nat>)
    requires hosts.Valid()
    modifies hosts
    ensures hosts.Valid() && old(hosts.faults) <= hosts.faults
    ensures GrownPartly(old(hosts.containers), hosts.containers, svc, Count(svc))
    ensures NewRunRow(old(hosts.containers), hosts.containers, svc)
    ensures ok ==> hosts.faults == old(hosts.faults) && byIndex == Remaining(found, Count(svc))
    ensures ok && Indexed(old(hosts.containers), svc, found) ==>
      Grown(old(hosts.containers), hosts.containers, svc, Count(svc))
    ensures !ok && Indexed(old(hosts.containers), svc, found) ==> hosts.faults > old(hosts.faults)
    ensures AllFound(svc, found) ==> ok && hosts.changes == old(hosts.changes)
  {
    ghost var before := hosts.containers;
    byIndex := found;
    var i: int64 := 0;
    GrowStarts(before, svc, found);
    while i < svc.replicas
      invariant 0 <= i <= Count(svc)
      invariant hosts.Valid() && hosts.faults == old(hosts.faults)
      invariant byIndex == Remaining(found, i)
      invariant Growing(before, hosts.containers, svc, found, i)
      invariant AllFound(svc, found) ==> hosts.changes == old(hosts.changes)
    {
      RemainingStep(found, i);
      if i in byIndex {
        GrowSkips(before, hosts.containers, svc, found, i);
        byIndex := byIndex - {i};
      } else {
        ghost var now, id := hosts.containers, hosts.nextId;
        ok := DeployReplica(hosts, svc, i);
        GrowDeploys(before, now, hosts.containers, svc, found, i, id, ok, hosts.faults != old(hosts.faults));
        if !ok {
          GrownRunsRow(before, hosts.containers, svc);
          return;
        }
      }
      i := i + 1;
    }
    GrownIsPartly(before, hosts.containers, svc, i);
    GrownRunsRow(before, hosts.containers, svc);
    ok := true;
  }

  // --------------------------------------------------------------- third pass: trim

  ghost function Ids(byIndex: map<int, nat>): set<nat> { set i | i in byIndex :: byIndex[i] }

  /** Removes what is left, in any order. */
  method Trim(hosts: Hosts, env: int, byIndex: map<int, nat>)
    requires hosts.Valid()
    modifies hosts
    ensures hosts.Valid() && old(hosts.faults) <= hosts.faults
    ensures TrimmedPartly(old(hosts.containers), hosts.containers, env, Ids(byIndex))
    ensures hosts.faults == old(hosts.faults) ==> Trimmed(old(hosts.containers), hosts.containers, env, Ids(byIndex))
    ensures byIndex == map[] ==> hosts.changes == old(hosts.changes) && hosts.faults == old(hosts.faults)
  {
    ghost var before := hosts.containers;
    ghost var gone: set<nat> := {};
    var todo := byIndex.Keys;
    NothingTrimmed(before, env, Ids(byIndex));
    while todo != {}
      invariant todo <= byIndex.Keys && hosts.Valid() && old(hosts.faults) <= hosts.faults
      invariant gone == set i | i in byIndex && i !in todo :: byIndex[i]
      invariant TrimmedPartly(before, hosts.containers, env, Ids(byIndex))
      invariant hosts.faults == old(hosts.faults) ==> Trimmed(before, hosts.containers, env, gone)
      invariant byIndex == map[] ==> hosts.changes == old(hosts.changes) && hosts.faults == old(hosts.faults)
      decreases todo
    {
      var i := Collections.Pick(todo);
      TrimStep(before, hosts.containers, env, gone, byIndex[i]);
      TrimStep(before, hosts.containers, env, Ids(byIndex), byIndex[i]);
      var _ := hosts.RemoveById(env, byIndex[i]);
      gone := gone + {byIndex[i]};
      todo := todo - {i};
    }
    assert gone == Ids(byIndex);
  }

  lemma NothingTrimmed(cs: Containers, env: int, gone: set<nat>)
    ensures Trimmed(cs, cs, env, {}) && TrimmedPartly(cs, cs, env, gone)
  {
    forall l ensures TrimmedAt(cs, cs, env, {}, l) { }
    forall l ensures PartlyTrimmedAt(cs, cs, env, gone, l) { }
  }

  // ------------------------------------------------------------------- rolling out

  /** A moment of a rollout. */
  ghost predicate InRollout(before: Containers, now: Containers, svc: Service) {
    exists i: int64 :: Stage(before, now, svc, i)
  }

  /** The rollout broke off at an index below the count. */
  ghost predicate StoppedEarly(before: Containers, now: Containers, svc: Service) {
    exists i: int64 :: i < Count(svc) && Stage(before, now, svc, i)
  }

  /** Every state that the containers went through since was a moment of the rollout. */
  ghost predicate RolloutSince(before: Containers, svc: Service, was: nat, history: seq<Containers>) {
    was <= |history| && forall k :: was <= k < |history| ==> InRollout(before, history[k], svc)
  }

  /** While a complete set is rolled over, no two replicas are ever absent at once. */
  lemma OneAbsentAtATime(before: Containers, svc: Service, was: nat, history: seq<Containers>, k: nat, i: int64,
                         j: int64)
    requires Complete(before, svc) && RolloutSince(before, svc, was, history) && was <= k < |history|
    requires 0 <= i < Count(svc) && 0 <= j < Count(svc) && At(svc, i) !in history[k] && At(svc, j) !in history[k]
    ensures i == j
  {
    assert InRollout(before, history[k], svc);
    var m: int64 :| Stage(before, history[k], svc, m);
    AtMostOneAbsent(before, history[k], svc, m, i, j);
  }

  lemma RollOne(before: Containers, now: Containers, after: Containers, svc: Service, i: int64, id: nat, ok: bool,
                fault: bool)
    requires 0 <= i < Count(svc) && Stage(before, now, svc, i)
    requires Deployed(now, after, svc, i, id, ok, fault)
    ensures Stage(before, after, svc, i) && InRollout(before, after, svc)
    ensures ok ==> Stage(before, after, svc, i + 1)
  {
    if after != now {
      RollDeploy(before, now, after, svc, i, id, ok);
    }
    if ok { RollDeploy(before, now, after, svc, i, id, true); }
  }

  /** Replaces every desired replica, one at a time. */
  method Roll(hosts: Hosts, svc: Service) returns (ok: bool)
    requires hosts.Valid()
    modifies hosts
    ensures hosts.Valid() && old(hosts.faults) <= hosts.faults
    ensures RolloutSince(old(hosts.containers), svc, |old(hosts.history)|, hosts.history)
    ensures old(hosts.history) <= hosts.history
    ensures ok ==> Stage(old(hosts.containers), hosts.containers, svc, Count(svc))
    ensures NewRunRow(old(hosts.containers), hosts.containers, svc)
    ensures ok ==> AllRunRow(hosts.containers, svc)
    ensures !ok ==> hosts.faults > old(hosts.faults) && StoppedEarly(old(hosts.containers), hosts.containers, svc)
  {
    ghost var before := hosts.containers;
    var i: int64 := 0;
    StageStarts(before, svc);
    while i < svc.replicas
      invariant 0 <= i <= Count(svc)
      invariant hosts.Valid() && old(hosts.faults) <= hosts.faults
      invariant Stage(before, hosts.containers, svc, i)
      invariant RolloutSince(before, svc, |old(hosts.history)|, hosts.history)
      invariant old(hosts.history) <= hosts.history
    {
      ghost var now := hosts.containers;
      hosts.RemoveByName(svc.endpointID, ReplicaName(svc.name, i));
      RollRemove(before, now, hosts.containers, svc, i);
      now := hosts.containers;
      ghost var id, faults := hosts.nextId, hosts.faults;
      ok := DeployReplica(hosts, svc, i);
      RollOne(before, now, hosts.containers, svc, i, id, ok, hosts.faults != faults);
      if !ok {
        StageRunsRow(before, hosts.containers, svc, i);
        return;
      }
      i := i + 1;
    }
    StageRunsRow(before, hosts.containers, svc, i);
    ok := true;
  }

  // ------------------------------------------------------------ removing listed ones

  /** Every state since lacks nothing but containers with these ids. */
  ghost predicate TrimmingSince(before: Containers, env: int, gone: set<nat>, was: nat, history: seq<Containers>) {
    was <= |history| && forall k :: was <= k < |history| ==> TrimmedPartly(before, history[k], env, gone)
  }

  /** The ids of the listed replicas beyond the count. */
  ghost function ListedSuperfluous(list: seq<Summary>, svc: Service): set<nat> {
    set s | s in list && IndexOf(s.labels).Some? && IndexOf(s.labels).value >= svc.replicas :: s.id
  }

  ghost function ListedIds(list: seq<Summary>): set<nat> { set s | s in list :: s.id }

  ghost function OwnedIds(cs: Containers, svc: Service): set<nat> { set l | l in cs && Owned(cs, svc, l) :: cs[l].id }

  lemma ListingIsComplete(cs: Containers, svc: Service, list: seq<Summary>)
    requires IsListing(cs, cs.Keys, svc.endpointID, LABEL_SERVICE, svc.name, true, list)
    ensures ListedIds(list) == OwnedIds(cs, svc)
    ensures ListedSuperfluous(list, svc) == Superfluous(cs, svc)
  {
    forall s | s in list
      ensures s.id in OwnedIds(cs, svc)
      ensures IndexOf(s.labels).Some? && IndexOf(s.labels).value >= svc.replicas ==> s.id in Superfluous(cs, svc)
    {
      var l := Loc(svc.endpointID, s.name);
      assert IsListed(cs, cs.Keys, svc.endpointID, LABEL_SERVICE, svc.name, true, s) && Owned(cs, svc, l);
      if IndexOf(s.labels).Some? && IndexOf(s.labels).value >= svc.replicas { assert IsSuperfluous(cs, svc, l); }
    }
    forall l | Owned(cs, svc, l) ensures SummaryOf(l.name, cs[l]) in list {
      assert Selected(cs, svc.endpointID, LABEL_SERVICE, svc.name, true, l);
    }
  }

  lemma SuperfluousStep(list: seq<Summary>, k: nat, svc: Service)
    requires k < |list|
    ensures var s := list[k];
            if IndexOf(s.labels).Some? && IndexOf(s.labels).value >= svc.replicas
            then ListedSuperfluous(list[..k + 1], svc) == ListedSuperfluous(list[..k], svc) + {s.id}
                 && s.id in ListedSuperfluous(list, svc)
            else ListedSuperfluous(list[..k + 1], svc) == ListedSuperfluous(list[..k], svc)
  {
    assert list[..k + 1] == list[..k] + [list[k]];
    assert list[k] in list;
  }

  /** Drops the replicas beyond the count; if they cannot be listed they stay. */
  method RemoveSuperfluous(hosts: Hosts, svc: Service)
    requires hosts.Valid()
    modifies hosts
    ensures hosts.Valid() && old(hosts.faults) <= hosts.faults
    ensures TrimmedPartly(old(hosts.containers), hosts.containers, svc.endpointID,
                          Superfluous(old(hosts.containers), svc))
    ensures TrimmingSince(old(hosts.containers), svc.endpointID, Superfluous(old(hosts.containers), svc),
                          |old(hosts.history)|, hosts.history)
    ensures hosts.faults == old(hosts.faults) ==>
      Trimmed(old(hosts.containers), hosts.containers, svc.endpointID, Superfluous(old(hosts.containers), svc))
    ensures old(hosts.history) <= hosts.history
  {
    ghost var before := hosts.containers;
    ghost var all := Superfluous(before, svc);
    var ok, existing := hosts.ListByLabel(svc.endpointID, LABEL_SERVICE, svc.name, true);
    NothingTrimmed(before, svc.endpointID, all);
    if !ok { return; }
    ListingIsComplete(before, svc, existing);
    ghost var gone: set<nat> := {};
    for k := 0 to |existing|
      invariant hosts.Valid() && old(hosts.faults) <= hosts.faults
      invariant gone == ListedSuperfluous(existing[..k], svc)
      invariant TrimmedPartly(before, hosts.containers, svc.endpointID, all)
      invariant TrimmingSince(before, svc.endpointID, all, |old(hosts.history)|, hosts.history)
      invariant hosts.faults == old(hosts.faults) ==> Trimmed(before, hosts.containers, svc.endpointID, gone)
      invariant old(hosts.history) <= hosts.history
    {
      var c := existing[k];
      var idx := IndexOf(c.labels);
      SuperfluousStep(existing, k, svc);
      if idx.Some? && idx.value >= svc.replicas {
        TrimStep(before, hosts.containers, svc.endpointID, gone, c.id);
        TrimStep(before, hosts.containers, svc.endpointID, all, c.id);
        var _ := hosts.RemoveById(svc.endpointID, c.id);
        gone := gone + {c.id};
      }
    }
    assert existing[..|existing|] == existing;
  }

  /** Removes every container of the service. */
  method RemoveAll(hosts: Hosts, svc: Service) returns (ok: bool)
    requires hosts.Valid()
    modifies hosts
    ensures hosts.Valid() && old(hosts.faults) <= hosts.faults
    ensures TrimmedPartly(old(hosts.containers), hosts.containers, svc.endpointID, OwnedIds(old(hosts.containers), svc))
    ensures ok && hosts.faults == old(hosts.faults) ==>
      Trimmed(old(hosts.containers), hosts.containers, svc.endpointID, OwnedIds(old(hosts.containers), svc))
    ensures !ok ==> hosts.faults > old(hosts.faults)
  {
    ghost var before := hosts.containers;
    ghost var all := OwnedIds(before, svc);
    var reps;
    ok, reps := hosts.ListByLabel(svc.endpointID, LABEL_SERVICE, svc.name, true);
    NothingTrimmed(before, svc.endpointID, all);
    if !ok { return; }
    ListingIsComplete(before, svc, reps);
    ghost var gone: set<nat> := {};
    for k := 0 to |reps|
      invariant hosts.Valid() && old(hosts.faults) <= hosts.faults
      invariant gone == ListedIds(reps[..k])
      invariant TrimmedPartly(before, hosts.containers, svc.endpointID, all)
      invariant hosts.faults == old(hosts.faults) ==> Trimmed(before, hosts.containers, svc.endpointID, gone)
    {
      var c := reps[k];
      assert reps[..k + 1] == reps[..k] + [c];
      assert c.id in ListedIds(reps);
      TrimStep(before, hosts.containers, svc.endpointID, gone, c.id);
      TrimStep(before, hosts.containers, svc.endpointID, all, c.id);
      var _ := hosts.RemoveById(svc.endpointID, c.id);
      gone := gone + {c.id};
    }
    assert reps[..|reps|] == reps;
  }

  predicate DeletedAt(before: Containers, after: Containers, svc: Service, l: Loc) {
    if Owned(before, svc, l) then l !in after else Unchanged(before, after, l)
  }

  predicate KeptOrDeletedAt(before: Containers, after: Containers, svc: Service, l: Loc) {
    Unchanged(before, after, l) || (Owned(before, svc, l) && l !in after)
  }

  /** The service's containers are gone and no others. */
  lemma OwnedTrimmed(before: Containers, after: Containers, svc: Service, nextId: nat)
    requires UniqueIds(before, nextId)
    ensures Trimmed(before, after, svc.endpointID, OwnedIds(before, svc)) ==>
      forall l :: DeletedAt(before, after, svc, l)
    ensures TrimmedPartly(before, after, svc.endpointID, OwnedIds(before, svc)) ==>
      forall l :: KeptOrDeletedAt(before, after, svc, l)
  {
    forall l | l in before && before[l].id in OwnedIds(before, svc) ensures Owned(before, svc, l) {
      var k :| k in before && Owned(before, svc, k) && before[k].id == before[l].id;
      assert IdsApart(before, l, k);
    }
    if Trimmed(before, after, svc.endpointID, OwnedIds(before, svc)) {
      forall l ensures DeletedAt(before, after, svc, l) {
        assert TrimmedAt(before, after, svc.endpointID, OwnedIds(before, svc), l);
      }
    }
    if TrimmedPartly(before, after, svc.endpointID, OwnedIds(before, svc)) {
      forall l ensures KeptOrDeletedAt(before, after, svc, l) {
        assert PartlyTrimmedAt(before, after, svc.endpointID, OwnedIds(before, svc), l);
      }
    }
  }
}
