/** What the quota check reserves for an autoscaled service covers whatever the autoscaler does with it,
    while it works on all the other services as well. */
module Reservation {
  import opened Text
  import opened Specs
  import opened Docker
  import opened Replicas
  import opened Quota
  import opened Scaler
  import opened ServiceApi
  import Collections
  import Services
  import Store

  // -------------------------------------------------------------------- one turn

  /** A turn leaves labels and names of all services corresponding, whether or not it fails. */
  lemma TurnKeepsClean(now: Containers, after: Containers, services: map<string, Service>, o: Service, next: Service)
    requires Services.AllClean(now, services) && o.name in services && Recounted(o, services[o.name])
    requires Recounted(next, o) && TickedTo(now, after, next)
    ensures Services.AllClean(after, services)
  {
    var row := services[o.name];
    CleanIgnoresCount(now, row, o.replicas);
    forall n | n in services ensures services[n].name == n && Services.Clean(after, services[n]) {
      TurnSpares(now, after, o, next, services[n]);
      if n == o.name { CleanIgnoresCount(after, o, row.replicas); }
    }
  }

  /** The same row at another count. */
  predicate Recounted(a: Service, b: Service) { a == b.(replicas := a.replicas) }

  /** The autoscaler's choices are covered by the reservation. */
  lemma RescaledIsVersion(svc: Service, o: Service, avg: real, n: nat)
    requires LabelsFree(svc) && 0 <= svc.minReplicas <= svc.maxReplicas && Recounted(o, svc)
    ensures Version(Rescaled(o, avg, n), svc, svc.maxReplicas)
  {
  }

  /** What keeps the owner within quota once the check has passed: the service is within what was
      reserved for it, and the rest of the owner's containers there has not grown. */
  ghost predicate Holds(start: Containers, now: Containers, services: map<string, Service>, svc: Service, owner: string)
    requires svc.maxReplicas >= 0
  {
    && Services.AllClean(now, services) && Fits(now, svc, svc.maxReplicas) && SaneFor(now, svc.endpointID, owner)
    && forall r :: RestNoHeavier(start, now, svc, owner, r)
  }

  /** Whoever the autoscaler works on. */
  lemma TickHolds(start: Containers, now: Containers, after: Containers, services: map<string, Service>, svc: Service,
                  owner: string, o: Service, avg: real, n: nat)
    requires svc.name != "" && svc.name in services && Recounted(services[svc.name], svc)
    requires 0 <= svc.minReplicas <= svc.maxReplicas && svc.cpuMilli >= 0 && svc.memMB >= 0
    requires Holds(start, now, services, svc, owner)
    requires o.name in services && Recounted(o, services[o.name]) && o.autoscale
    requires o.name == svc.name || Neighbour(o, svc, owner)
    requires TickedTo(now, after, Rescaled(o, avg, n))
    ensures Holds(start, after, services, svc, owner)
  {
    var next, m := Rescaled(o, avg, n), svc.maxReplicas;
    TurnKeepsClean(now, after, services, o, next);
    CleanIgnoresCount(now, services[o.name], next.replicas);
    assert NothingLost(now, after, next);
    if o.name == svc.name {
      RescaledIsVersion(svc, o, avg, n);
      ReconcileFits(now, after, svc, next, m);
      ReconcileKeepsSane(now, after, svc, next, m, owner);
    } else {
      NeighbourIsBeside(now, after, next, svc, owner);
      BesideIsElsewhere(now, after, svc, owner);
      assert LifeStep(now, after, svc, owner, m);
      LifeStepFits(now, after, svc, owner, m, Cpu);
    }
    forall r ensures RestNoHeavier(start, after, svc, owner, r) {
      assert RestNoHeavier(start, now, svc, owner, r);
      if o.name == svc.name {
        RestWeighsTheSame(now, after, svc, owner, r);
      } else {
        assert RestNoHeavier(now, after, svc, owner, r);
      }
    }
  }

  // ------------------------------------------------------------------- whole runs

  /** No other autoscaled service can add to the owner's containers on the service's host. */
  ghost predicate AloneThere(services: map<string, Service>, svc: Service, owner: string) {
    forall n :: n in services && n != svc.name && services[n].autoscale ==> Neighbour(services[n], svc, owner)
  }

  /** What the theorem starts from: the member's service was created after a check that passed, and
      it is the only autoscaled one of the member there. */
  ghost predicate Admitted(before: Containers, rows: map<string, Service>, start: Containers, u: User,
                           q: Option<(int, int)>, svc: Service)
  {
    && 0 <= svc.minReplicas <= svc.maxReplicas && Count(svc) <= svc.maxReplicas
    && svc.name != "" && svc.cpuMilli >= 0 && svc.memMB >= 0
    && SaneLimits(before) && CreatedSafely(before, start, u, q, svc, svc.maxReplicas)
    && svc.name in rows && rows[svc.name] == svc && Services.AllClean(start, rows) && AloneThere(rows, svc, u.name)
  }

  /** What the handler says of a member's creation of an autoscaled service admits it, even if the
      creation broke off after storing the row. */
  lemma CreationAdmits(u: User, q: Option<(int, int)>, rows: map<string, Service>, rows': map<string, Service>,
                       before: Containers, after: Containers, req: Request, token: string, env: int, created: bool)
    requires Normal(req) && req.autoscale && req.name != "" && !u.admin
    requires var svc := RowOf(req, u.name, token, env);
             && svc.name !in rows && rows' == rows[svc.name := svc]
             && CreateOutcome(u, q, rows, rows', before, after, svc, ServiceApi.Reserved(req), {}, created)
             && Services.AllClean(before, rows) && Services.Clean(before, svc) && SaneLimits(before)
             && NoneThere(before, svc) && AloneThere(rows, svc, u.name)
    ensures Admitted(before, rows', after, u, q, RowOf(req, u.name, token, env))
  {
    var svc := RowOf(req, u.name, token, env);
    assert svc.name in rows' && CreatedSafely(before, after, u, q, svc, svc.maxReplicas);
    forall n | n in rows' ensures rows'[n].name == n && Services.Clean(after, rows'[n]) {
      if n == svc.name {
        NothingLostCorresponds(before, after, svc);
      } else {
        ReconcileSparesOthers(before, after, svc, rows[n]);
      }
    }
  }

  lemma AdmittedHolds(before: Containers, rows: map<string, Service>, start: Containers, u: User,
                      q: Option<(int, int)>, svc: Service)
    requires Admitted(before, rows, start, u, q, svc)
    ensures Holds(before, start, rows, svc, u.name)
  {
    var m := svc.maxReplicas;
    assert Services.Clean(start, rows[svc.name]) && Version(svc, svc, m);
    ReconcileFits(before, start, svc, svc, m);
    forall l ensures SaneForAt(before, svc.endpointID, u.name, l) { assert SaneAt(before, l); }
    ReconcileKeepsSane(before, start, svc, svc, m, u.name);
    forall r ensures RestNoHeavier(before, start, svc, u.name, r) { RestWeighsTheSame(before, start, svc, u.name, r); }
  }

  lemma HoldsIsWithin(before: Containers, rows: map<string, Service>, start: Containers, u: User,
                      q: Option<(int, int)>, svc: Service, now: Containers)
    requires Admitted(before, rows, start, u, q, svc) && Holds(before, now, rows, svc, u.name)
    ensures WithinBoth(now, svc.endpointID, u.name, q.value, WholeLimits(before, svc.endpointID, u.name))
  {
    var m, whole := svc.maxReplicas, WholeLimits(before, svc.endpointID, u.name);
    forall r ensures WithinQuota(Usage(now, svc.endpointID, u.name, "", r), QuotaFor(q.value, r), whole, r) {
      assert RoomFor(Usage(before, svc.endpointID, u.name, "", r), QuotaFor(q.value, r), m,
                     Each(svc.cpuMilli, svc.memMB, r), r);
      assert RestNoHeavier(before, now, svc, u.name, r);
      FittingIsWithin(before, now, svc, u.name, "", QuotaFor(q.value, r), m, r);
    }
  }

  /** Within one interval. */
  lemma {:induction false} TurnsHold(before: Containers, rows: map<string, Service>, start: Containers, u: User,
                                     q: Option<(int, int)>, svc: Service, was: map<string, Service>, cpu: Samples,
                                     log: seq<Moment>, j: nat)
    requires Admitted(before, rows, start, u, q, svc)
    requires SameRows(rows, was)
    requires IsLog(was, cpu, log) && Holds(before, log[0].cs, rows, svc, u.name) && j < |log|
    ensures Holds(before, log[j].cs, rows, svc, u.name)
    decreases j
  {
    if j > 0 {
      var i := j - 1;
      TurnsHold(before, rows, start, u, q, svc, was, cpu, log, i);
      var key := Ordered(was.Keys)[i];
      assert key in was && Store.InOrder(was)[i] == was[key] && SameButCount(rows, was, key);
      assert TurnDone(log[i], log[j], was[key], cpu) by { assert TurnDoneAt(was, cpu, log, i); }
      TurnHolds(before, rows, start, u, q, svc, was[key], cpu, log[i], log[j]);
    }
  }

  lemma TurnHolds(before: Containers, rows: map<string, Service>, start: Containers, u: User, q: Option<(int, int)>,
                  svc: Service, o: Service, cpu: Samples, now: Moment, next: Moment)
    requires Admitted(before, rows, start, u, q, svc) && Holds(before, now.cs, rows, svc, u.name)
    requires o.name in rows && Recounted(o, rows[o.name]) && TurnDone(now, next, o, cpu)
    ensures Holds(before, next.cs, rows, svc, u.name)
  {
    if next.cs != now.cs {
      TickHolds(before, now.cs, next.cs, rows, svc, u.name, o, AverageOf(now.cs, o, cpu), |Running(now.cs, o)|);
    }
  }

  ghost predicate SameRows(rows: map<string, Service>, was: map<string, Service>) {
    Keyed(was) && forall n :: SameButCount(rows, was, n)
  }

  predicate SameButCount(rows: map<string, Service>, was: map<string, Service>, n: string) {
    (n in was <==> n in rows) && (n in was ==> Recounted(was[n], rows[n]))
  }

  lemma {:induction false} IntervalsHold(before: Containers, u: User, q: Option<(int, int)>, svc: Service,
                                         rows: seq<map<string, Service>>, states: seq<Containers>,
                                         ticks: seq<Samples>, logs: seq<seq<Moment>>, k: nat)
    requires AllLogged(rows, states, ticks, logs) && k < |states|
    requires forall i :: 0 <= i < |rows| ==> SameRows(rows[0], rows[i])
    requires Admitted(before, rows[0], states[0], u, q, svc)
    ensures Holds(before, states[k], rows[0], svc, u.name)
    decreases k
  {
    if k == 0 {
      AdmittedHolds(before, rows[0], states[0], u, q, svc);
    } else {
      IntervalsHold(before, u, q, svc, rows, states, ticks, logs, k - 1);
      assert SameRows(rows[0], rows[k - 1]);
      assert LoggedAt(rows, states, ticks, logs, k - 1);
      IntervalHolds(before, rows[0], states[0], u, q, svc, rows[k - 1], ticks[k - 1], logs[k - 1], states[k - 1],
                    Moment(rows[k], states[k]));
    }
  }

  lemma IntervalHolds(before: Containers, rows: map<string, Service>, start: Containers, u: User,
                      q: Option<(int, int)>, svc: Service, was: map<string, Service>, cpu: Samples,
                      log: seq<Moment>, first: Containers, last: Moment)
    requires Admitted(before, rows, start, u, q, svc) && SameRows(rows, was)
    requires Logged(was, cpu, log, Moment(was, first), last) && Holds(before, first, rows, svc, u.name)
    ensures Holds(before, last.cs, rows, svc, u.name)
  {
    TurnsHold(before, rows, start, u, q, svc, was, cpu, log, |log| - 1);
  }

  lemma RowsAt(rows: seq<map<string, Service>>, states: seq<Containers>, ticks: seq<Samples>, quiet: bool, k: nat)
    requires Intervals(rows, states, ticks, quiet) && k < |rows| && Keyed(rows[0])
    ensures SameRows(rows[0], rows[k])
  {
    forall n ensures SameButCount(rows[0], rows[k], n) { SameRow(rows, states, ticks, quiet, n, k); }
    forall n | n in rows[k] ensures rows[k][n].name == n { assert SameButCount(rows[0], rows[k], n); }
  }

  /** The reservation of the maximum covers the autoscaler: once a member's creation has passed the
      check, the member stays within quota there after every turn of every interval, whatever the
      samples are, whichever calls fail, and whatever the autoscaler does meanwhile to the services of
      others and of other hosts. */
  lemma AutoscalingStaysWithin(before: Containers, u: User, q: Option<(int, int)>, svc: Service,
                               rows: seq<map<string, Service>>, states: seq<Containers>, ticks: seq<Samples>,
                               logs: seq<seq<Moment>>, quiet: bool, now: Moment, k: nat, j: nat)
    requires Ran(rows, states, ticks, logs, quiet, now) && Admitted(before, rows[0], states[0], u, q, svc)
    requires k < |ticks| && j < |logs[k]|
    ensures WithinBoth(logs[k][j].cs, svc.endpointID, u.name, q.value, WholeLimits(before, svc.endpointID, u.name))
  {
    forall i | 0 <= i < |rows| ensures SameRows(rows[0], rows[i]) { RowsAt(rows, states, ticks, quiet, i); }
    IntervalsHold(before, u, q, svc, rows, states, ticks, logs, k);
    assert LoggedAt(rows, states, ticks, logs, k);
    TurnsHold(before, rows[0], states[0], u, q, svc, rows[k], ticks[k], logs[k], j);
    HoldsIsWithin(before, rows[0], states[0], u, q, svc, logs[k][j].cs);
  }

  // -- why the service must be the only one of the member there

  lemma ReplicaAdds(cs: Containers, svc: Service, i: int64, id: nat, r: Resource)
    requires 0 <= i && At(svc, i) !in cs && OwnerFree(svc)
    ensures Usage(cs[At(svc, i) := Created(id, ReplicaSpec(svc, i), true)], svc.endpointID, svc.owner, "", r)
         == Usage(cs, svc.endpointID, svc.owner, "", r) + PerReplica(svc, r) * Unit(r)
  {
    NewAtLimits(svc, i, Created(id, ReplicaSpec(svc, i), true));
    UsageOfUpdate(cs, At(svc, i), Created(id, ReplicaSpec(svc, i), true), svc.endpointID, svc.owner, r);
  }

  /** What the owner has there after each of three deployments. */
  lemma ThreeWeigh(a: Service, b: Service, two: Service, alone: Containers, both: Containers, after: Containers,
                   r: Resource)
    requires OwnerFree(a) && OwnerFree(b) && OwnerFree(two)
    requires a.endpointID == b.endpointID == two.endpointID && a.owner == b.owner == two.owner
    requires alone == map[][At(a, 0) := Created(0, ReplicaSpec(a, 0), true)]
    requires At(b, 0) !in alone && both == alone[At(b, 0) := Created(1, ReplicaSpec(b, 0), true)]
    requires At(two, 1) !in both && after == both[At(two, 1) := Created(2, ReplicaSpec(two, 1), true)]
    ensures Usage(map[], a.endpointID, a.owner, "", r) == 0
    ensures Usage(alone, a.endpointID, a.owner, "", r) == PerReplica(a, r) * Unit(r)
    ensures Usage(after, a.endpointID, a.owner, "", r)
         == PerReplica(a, r) * Unit(r) + PerReplica(b, r) * Unit(r) + PerReplica(two, r) * Unit(r)
  {
    assert CountedIn(map[], {}, a.endpointID, a.owner, "") == {};
    ReplicaAdds(map[], a, 0, 0, r);
    ReplicaAdds(alone, b, 0, 1, r);
    ReplicaAdds(both, two, 1, 2, r);
  }

  /** With a quota for two there is room for two, and for one beside one, but three are too many. */
  lemma TwoFitThreeDoNot(x: int, r: Resource)
    requires x > 0
    ensures RoomFor(0, 2 * x, 2, x, r) && RoomFor(x * Unit(r), 2 * x, 1, x, r)
    ensures !WithinQuota(3 * (x * Unit(r)), 2 * x, false, r)
  {
    assert x * Unit(r) / Unit(r) == x;
    Collections.MulMonotone(2 * x + 1, 3 * x, Unit(r));
    assert 3 * (x * Unit(r)) == (3 * x) * Unit(r);
  }

  /** Two services of one member on one host, with the same limits, one replica each, and a may have two. */
  ghost predicate Alike(a: Service, b: Service) {
    && a.name != b.name && a.endpointID == b.endpointID && a.owner == b.owner && OwnerFree(a) && OwnerFree(b)
    && a.cpuMilli == b.cpuMilli && a.memMB == b.memMB && a.cpuMilli > 0 && a.memMB > 0
    && a.replicas == 1 && b.replicas == 1 && a.minReplicas == 1 && a.maxReplicas == 2
  }

  /** First a's replica, then b's, then a's second. */
  ghost predicate Unfold(a: Service, b: Service, alone: Containers, both: Containers, after: Containers) {
    && alone == map[][At(a, 0) := Created(0, ReplicaSpec(a, 0), true)]
    && At(b, 0) !in alone && both == alone[At(b, 0) := Created(1, ReplicaSpec(b, 0), true)]
    && At(a, 1) !in both
    && after == both[At(a, 1) := Created(2, ReplicaSpec(a.(replicas := 2), 1), true)]
  }

  lemma Unfolds(a: Service, b: Service) returns (alone: Containers, both: Containers, after: Containers)
    requires Alike(a, b)
    ensures Unfold(a, b, alone, both, after)
    ensures NothingLost(map[], alone, a) && NothingLost(alone, both, b) && NothingLost(both, after, a.(replicas := 2))
  {
    var empty: Containers := map[];
    alone := empty[At(a, 0) := Created(0, ReplicaSpec(a, 0), true)];
    both := alone[At(b, 0) := Created(1, ReplicaSpec(b, 0), true)];
    after := both[At(a, 1) := Created(2, ReplicaSpec(a.(replicas := 2), 1), true)];
    if At(b, 0) == At(a, 0) { ReplicaNameInjective(b.name, 0, a.name, 0); }
    if At(b, 0) == At(a, 1) { ReplicaNameInjective(b.name, 0, a.name, 1); }
    DistinctPlaces(a, 0, 1);
    DeployLosesNothing(empty, alone, a, 0, alone[At(a, 0)]);
    DeployLosesNothing(alone, both, b, 0, both[At(b, 0)]);
    DeployLosesNothing(both, after, a.(replicas := 2), 1, after[At(a, 1)]);
  }

  lemma BothPassThenOvershoot(a: Service, b: Service, alone: Containers, both: Containers, after: Containers)
    requires Alike(a, b) && Unfold(a, b, alone, both, after)
    ensures var env, owner, q := a.endpointID, a.owner, (2 * a.cpuMilli, 2 * a.memMB);
            && HasRoom(map[], env, owner, "", q, 2, a.cpuMilli, a.memMB)
            && HasRoom(alone, env, owner, "", q, 1, b.cpuMilli, b.memMB) && !WithinBoth(after, env, owner, q, false)
  {
    var q := (2 * a.cpuMilli, 2 * a.memMB);
    forall r
      ensures RoomFor(Usage(map[], a.endpointID, a.owner, "", r), QuotaFor(q, r), 2, Each(a.cpuMilli, a.memMB, r), r)
      ensures RoomFor(Usage(alone, a.endpointID, a.owner, "", r), QuotaFor(q, r), 1, Each(b.cpuMilli, b.memMB, r), r)
      ensures !WithinQuota(Usage(after, a.endpointID, a.owner, "", r), QuotaFor(q, r), false, r)
    {
      ThreeWeigh(a, b, a.(replicas := 2), alone, both, after, r);
      TwoFitThreeDoNot(PerReplica(a, r), r);
    }
    assert !WithinQuota(Usage(after, a.endpointID, a.owner, "", Cpu), QuotaFor(q, Cpu), false, Cpu);
  }

  /** The check counts the containers that live, not what is reserved for others. With a quota for two
      replicas, a passes the check for two, b passes it for one beside a's first, and then the
      autoscaler gives a its second. */
  lemma TwoReservationsOvershoot(a: Service, b: Service, avg: real)
    returns (alone: Containers, both: Containers, after: Containers)
    requires Alike(a, b) && avg > a.targetCpuPct as real > 0.0
    ensures var env, owner, q := a.endpointID, a.owner, (2 * a.cpuMilli, 2 * a.memMB);
            && HasRoom(map[], env, owner, "", q, 2, a.cpuMilli, a.memMB) && NothingLost(map[], alone, a)
            && HasRoom(alone, env, owner, "", q, 1, b.cpuMilli, b.memMB) && NothingLost(alone, both, b)
            && NothingLost(both, after, Rescaled(a, avg, 1)) && !WithinBoth(after, env, owner, q, false)
  {
    alone, both, after := Unfolds(a, b);
    BothPassThenOvershoot(a, b, alone, both, after);
    assert Rescaled(a, avg, 1) == a.(replicas := 2);
  }
}
