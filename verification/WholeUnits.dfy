/** Hosts that only the program has populated: every limit on them is a whole number of quota units, so
    there the quota check does not round anything away. */
module WholeUnits {
  import opened Text
  import opened Specs
  import opened Docker
  import opened Replicas
  import opened Quota
  import opened ServiceApi
  import Passes
  import Services

  /** What is on the host was there before, or has whole limits. */
  ghost predicate NewOnesWhole(before: Containers, after: Containers) {
    forall l :: LimitsKeptOrWhole(before, after, l)
  }

  lemma ReplicaIsWhole(c: Container, svc: Service, i: int64)
    requires 0 <= i && c.spec == ReplicaSpec(svc, i)
    ensures forall r :: Whole(Limit(c, r), r)
  {
    MilliIsWhole(svc.cpuMilli, svc.memMB);
  }

  /** Creating, scaling and syncing a service, however far it comes. */
  lemma ReconcileMakesWhole(before: Containers, after: Containers, svc: Service)
    requires NothingLost(before, after, svc)
    ensures NewOnesWhole(before, after)
  {
    forall l ensures LimitsKeptOrWhole(before, after, l) {
      assert NotLost(before, after, svc, l);
      if l in after && l !in before {
        var i: int64 :| 0 <= i < Count(svc) && l == At(svc, i)
                     && after[l] == Created(after[l].id, ReplicaSpec(svc, i), after[l].running);
        ReplicaIsWhole(after[l], svc, i);
      }
    }
  }

  /** Redeploying a service. */
  lemma RolloutMakesWhole(before: Containers, after: Containers, svc: Service)
    requires Passes.InRollout(before, after, svc)
    ensures NewOnesWhole(before, after)
  {
    var i: int64 :| Stage(before, after, svc, i);
    forall l ensures LimitsKeptOrWhole(before, after, l) {
      assert Apart(before, after, svc, l);
      if IsPlace(svc, Count(svc), l) {
        var j := PlaceIndex(svc, Count(svc), l);
        assert RolledAt(before, after, svc, i, j);
        if l in after && !Unchanged(before, after, l) { ReplicaIsWhole(after[l], svc, j); }
      }
    }
  }

  /** Updating a service. */
  lemma UpdateMakesWhole(before: Containers, after: Containers, svc: Service)
    requires Services.InUpdate(before, after, svc)
    ensures NewOnesWhole(before, after)
  {
    if Passes.InRollout(before, after, svc) {
      RolloutMakesWhole(before, after, svc);
    } else {
      forall l ensures LimitsKeptOrWhole(before, after, l) {
        assert OnlyTrimmed(before, after, svc, l);
        if IsPlace(svc, Count(svc), l) {
          var j := PlaceIndex(svc, Count(svc), l);
          assert NewAt(after, svc, j);
          ReplicaIsWhole(after[l], svc, j);
        }
      }
    }
  }

  /** Deleting a service. */
  lemma DeletionMakesNothing(before: Containers, after: Containers, svc: Service)
    requires forall l :: Passes.KeptOrDeletedAt(before, after, svc, l)
    ensures NewOnesWhole(before, after)
  {
    forall l ensures LimitsKeptOrWhole(before, after, l) { assert Passes.KeptOrDeletedAt(before, after, svc, l); }
  }

  lemma WholeKept(before: Containers, after: Containers, env: int, owner: string)
    requires NewOnesWhole(before, after) && WholeLimits(before, env, owner)
    ensures WholeLimits(after, env, owner)
  {
    forall l ensures WholeAt(after, env, owner, l) {
      assert LimitsKeptOrWhole(before, after, l) && WholeAt(before, env, owner, l);
      if l in after && Counted(after, env, owner, "", l) && l in before && after[l].spec == before[l].spec
         && after[l].labels == before[l].labels
      {
        forall r ensures Whole(Limit(after[l], r), r) { assert Whole(Limit(before[l], r), r); }
      }
    }
  }

  /** What one operation does to the containers, as the contracts of the operations on services have it,
      or the handler that edits a container. */
  ghost predicate Operation(before: Containers, after: Containers) {
    || (exists svc :: NothingLost(before, after, svc))
    || (exists svc :: Services.InUpdate(before, after, svc))
    || (exists svc :: Deleted(before, after, svc))
    || NewOnesWhole(before, after)
  }

  ghost predicate Deleted(before: Containers, after: Containers, svc: Service) {
    forall l :: Passes.KeptOrDeletedAt(before, after, svc, l)
  }

  lemma OperationMakesWhole(before: Containers, after: Containers)
    requires Operation(before, after)
    ensures NewOnesWhole(before, after)
  {
    if svc :| NothingLost(before, after, svc) {
      ReconcileMakesWhole(before, after, svc);
    } else if svc :| Services.InUpdate(before, after, svc) {
      UpdateMakesWhole(before, after, svc);
    } else if svc :| Deleted(before, after, svc) {
      DeletionMakesNothing(before, after, svc);
    }
  }

  ghost predicate OperationAt(states: seq<Containers>, k: nat)
    requires k + 1 < |states|
  {
    Operation(states[k], states[k + 1])
  }

  /** Any operations on any services, from hosts without containers. */
  ghost predicate Populated(states: seq<Containers>) {
    && states != [] && states[0] == map[]
    && forall k :: 0 <= k < |states| - 1 ==> OperationAt(states, k)
  }

  lemma {:induction false} PopulatedIsWhole(states: seq<Containers>, k: nat, env: int, owner: string)
    requires Populated(states) && k < |states|
    ensures WholeLimits(states[k], env, owner)
    decreases k
  {
    if k == 0 {
      forall l ensures WholeAt(states[0], env, owner, l) { }
    } else {
      PopulatedIsWhole(states, k - 1, env, owner);
      assert OperationAt(states, k - 1);
      OperationMakesWhole(states[k - 1], states[k]);
      WholeKept(states[k - 1], states[k], env, owner);
    }
  }

  /** So on hosts that only the program has populated the check is exact: once the service has m
      replicas at its limits, the owner is within quota there if and only if the check passed. */
  lemma ExactWhenPopulated(states: seq<Containers>, after: Containers, svc: Service, owner: string, exclude: string,
                           quota: int, m: nat, r: Resource)
    requires Populated(states)
    requires var before := states[|states| - 1];
             && svc.name != "" && (exclude == svc.name || (exclude == "" && NoneThere(before, svc)))
             && SaneLimits(before) && RestKept(before, after, svc) && AtLimits(after, svc, owner, m)
    ensures var before := states[|states| - 1];
            Usage(after, svc.endpointID, owner, "", r) <= quota * Unit(r)
            <==> RoomFor(Usage(before, svc.endpointID, owner, exclude, r), quota, m, PerReplica(svc, r), r)
  {
    var before := states[|states| - 1];
    PopulatedIsWhole(states, |states| - 1, svc.endpointID, owner);
    UsageIsWhole(before, svc.endpointID, owner, exclude, r);
    WithinIffChecked(before, after, svc, owner, exclude, quota, m, r);
  }
}
