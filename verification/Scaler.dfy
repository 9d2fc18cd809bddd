/** The autoscaler's loop: it samples the running replicas and scales each service as the controller
    decides. */
module Scaler {
  import opened Text
  import opened Specs
  import opened Controller
  import opened Docker
  import opened Replicas
  import Collections
  import Services
  import Routing
  import Store

  // --------------------------------------------------------------- the control loop

  ghost function Running(cs: Containers, svc: Service): set<Loc> {
    set l | l in cs && Owned(cs, svc, l) && cs[l].running
  }

  lemma SameSize(places: seq<Loc>, s: set<Loc>)
    requires forall i, j :: 0 <= i < j < |places| ==> places[i] != places[j]
    requires forall l :: l in s <==> l in places
    ensures |s| == |places|
  {
    Collections.DistinctCount(places, |places|);
    assert places[..|places|] == places;
    assert Collections.Members(places) == s;
  }

  /** The listing of running containers is as long as the number of running replicas. */
  lemma ListingCounts(cs: Containers, svc: Service, list: seq<Summary>)
    requires IsListing(cs, cs.Keys, svc.endpointID, LABEL_SERVICE, svc.name, false, list)
    ensures |list| == |Running(cs, svc)|
  {
    var env := svc.endpointID;
    var places := seq(|list|, i requires 0 <= i < |list| => Loc(env, list[i].name));
    forall l ensures l in Running(cs, svc) <==> l in places {
      if l in places {
        var j :| 0 <= j < |list| && places[j] == l;
        assert IsListed(cs, cs.Keys, env, LABEL_SERVICE, svc.name, false, list[j]);
      }
      if l in Running(cs, svc) {
        assert Selected(cs, env, LABEL_SERVICE, svc.name, false, l);
        var j :| 0 <= j < |list| && list[j] == SummaryOf(l.name, cs[l]);
        assert places[j] == l;
      }
    }
    SameSize(places, Running(cs, svc));
  }

  lemma ReconciledCount(before: Containers, after: Containers, svc: Service)
    requires Reconciled(before, after, svc)
    ensures |Running(after, svc)| == Count(svc)
  {
    var n := Count(svc);
    var places := seq(n, i requires 0 <= i < n => At(svc, i));
    forall i, j | 0 <= i < j < n ensures places[i] != places[j] { DistinctPlaces(svc, i, j); }
    forall l ensures l in Running(after, svc) <==> l in places {
      assert OwnedIffPlaced(after, svc, n, l);
      if IsPlace(svc, n, l) {
        var i := PlaceIndex(svc, n, l);
        assert Placed(before, after, svc, i) && places[i] == l;
      }
    }
    SameSize(places, Running(after, svc));
  }

  lemma CleanIgnoresCount(cs: Containers, svc: Service, n: int64)
    requires Services.Clean(cs, svc)
    ensures Services.Clean(cs, svc.(replicas := n))
    ensures Running(cs, svc.(replicas := n)) == Running(cs, svc)
  {
    var s := svc.(replicas := n);
    forall l ensures Labelled(cs, s, l) { assert Labelled(cs, svc, l); }
    forall i: nat ensures Named(cs, s, i) { assert Named(cs, svc, i); }
  }

  /** The autoscaler moves a count only for autoscaled services, and only within their limits. */
  predicate MovedWithin(was: Service, now: Service) {
    && now == was.(replicas := now.replicas)
    && (now.replicas != was.replicas ==>
          was.autoscale
          && (0 <= was.minReplicas <= was.maxReplicas ==> was.minReplicas <= now.replicas <= was.maxReplicas))
  }

  /** The row that one interval leads to when n replicas use avg percent each. */
  function Rescaled(svc: Service, avg: real, n: nat): (next: Service)
    ensures svc.autoscale ==> MovedWithin(svc, next)
  {
    var d := Desired(avg, n, svc.minReplicas, svc.maxReplicas, svc.targetCpuPct);
    svc.(replicas := if d < 0 then 0 else d)
  }

  // -- the load that is measured

  /** A container that yields no sample counts as idle. */
  function SampleIn(cs: Containers, cpu: Samples): Loc -> real {
    (l: Loc) => if l in cs && cs[l].id in cpu then cpu[cs[l].id] else 0.0
  }

  /** What the running replicas use together. */
  ghost function LoadOf(cs: Containers, svc: Service, cpu: Samples): real {
    Collections.RealSum(Running(cs, svc), SampleIn(cs, cpu))
  }

  ghost function AverageOf(cs: Containers, svc: Service, cpu: Samples): real
    requires Running(cs, svc) != {}
  {
    LoadOf(cs, svc, cpu) / |Running(cs, svc)| as real
  }

  lemma ReadOne(cs: Containers, svc: Service, cpu: Samples, list: seq<Summary>, k: nat, seen: set<Loc>)
    returns (seen': set<Loc>)
    requires IsListing(cs, cs.Keys, svc.endpointID, LABEL_SERVICE, svc.name, false, list)
    requires k < |list| && SeenFirst(svc.endpointID, list, k, seen)
    ensures SeenFirst(svc.endpointID, list, k + 1, seen')
    ensures Collections.RealSum(seen', SampleIn(cs, cpu))
         == Collections.RealSum(seen, SampleIn(cs, cpu)) + if list[k].id in cpu then cpu[list[k].id] else 0.0
  {
    var l := Loc(svc.endpointID, list[k].name);
    SeeOne(cs, svc.endpointID, LABEL_SERVICE, svc.name, false, list, k, seen);
    seen' := seen + {l};
    Collections.RealSumAdd(seen, SampleIn(cs, cpu), l);
  }

  lemma ReadAll(cs: Containers, svc: Service, list: seq<Summary>, seen: set<Loc>)
    requires IsListing(cs, cs.Keys, svc.endpointID, LABEL_SERVICE, svc.name, false, list)
    requires SeenFirst(svc.endpointID, list, |list|, seen)
    ensures seen == Running(cs, svc)
  {
    forall l ensures l in seen <==> l in Running(cs, svc) {
      SeenEverything(cs, svc.endpointID, LABEL_SERVICE, svc.name, false, list, seen, l);
    }
  }

  /** The average CPU of the running replicas. */
  method Average(hosts: Hosts, svc: Service, cpu: Samples) returns (ok: bool, avg: real, current: nat)
    modifies hosts`faults
    ensures old(hosts.faults) <= hosts.faults
    ensures ok ==> current > 0 && current == |Running(hosts.containers, svc)| && hosts.faults == old(hosts.faults)
    ensures ok ==> avg == AverageOf(hosts.containers, svc, cpu)
    ensures !ok ==> hosts.faults > old(hosts.faults) || Running(hosts.containers, svc) == {}
  {
    var reps;
    avg, current := 0.0, 0;
    ok, reps := hosts.ListByLabel(svc.endpointID, LABEL_SERVICE, svc.name, false);
    if !ok { return; }
    ListingCounts(hosts.containers, svc, reps);
    if |reps| == 0 { return false, 0.0, 0; }
    var total := 0.0;
    ghost var seen: set<Loc> := {};
    for k := 0 to |reps|
      invariant hosts.faults == old(hosts.faults)
      invariant SeenFirst(svc.endpointID, reps, k, seen)
      invariant total == Collections.RealSum(seen, SampleIn(hosts.containers, cpu))
    {
      seen := ReadOne(hosts.containers, svc, cpu, reps, k, seen);
      var sampled, p := hosts.CPUPercent(cpu, svc.endpointID, reps[k].id);
      if sampled { total := total + p; }
    }
    ReadAll(hosts.containers, svc, reps, seen);
    avg := total / |reps| as real;
    current := |reps|;
    ok := true;
  }

  /** The row that an interval with these samples leads to. */
  ghost function NextRow(cs: Containers, svc: Service, cpu: Samples): (next: Service)
    ensures svc.autoscale ==> MovedWithin(svc, next)
  {
    if Running(cs, svc) == {} then svc else Rescaled(svc, AverageOf(cs, svc, cpu), |Running(cs, svc)|)
  }

  /** The containers after an interval: untouched, or reconciled towards the new count. */
  ghost predicate TickedTo(before: Containers, after: Containers, next: Service) {
    Corresponds(before, next) ==> NothingLost(before, after, next)
  }

  /** What a turn that succeeded makes of a service's containers: as many run as the controller wants
      at the average of the samples. */
  ghost predicate Taken(before: Containers, now: Containers, svc: Service, cpu: Samples) {
    if svc.autoscale && Running(before, svc) != {} then |Running(now, svc)| == Count(NextRow(before, svc, cpu))
    else Untouched(before, now, svc)
  }

  /** An autoscaled service that was running ends its turn within its limits: from outside at the nearer
      one, and from within with one more replica, one less or as many as before. */
  lemma TakenInLimits(before: Containers, now: Containers, svc: Service, cpu: Samples)
    requires Taken(before, now, svc, cpu) && svc.autoscale && Running(before, svc) != {}
    requires 0 <= svc.minReplicas <= svc.maxReplicas && 0 < svc.targetCpuPct
    ensures var n, m := |Running(before, svc)|, |Running(now, svc)|;
            var load, share := LoadOf(before, svc, cpu), svc.targetCpuPct as real * n as real;
            if n < svc.minReplicas then m == svc.minReplicas
            else if n > svc.maxReplicas then m == svc.maxReplicas
            else if load > share then m == if n < svc.maxReplicas then n + 1 else n
            else if load < share / 2.0 then m == if n > svc.minReplicas then n - 1 else n
            else m == n
  {
    var n, load, t := |Running(before, svc)|, LoadOf(before, svc, cpu), svc.targetCpuPct as real;
    Share(load, n, t);
    Share(load, n, t / 2.0);
    assert t / 2.0 * n as real == t * n as real / 2.0;
  }

  /** The load is what the samples of the running replicas add up to: a replica that is running besides
      adds its own, or nothing if it yields none. */
  lemma LoadAdds(cs: Containers, more: Containers, svc: Service, cpu: Samples, l: Loc)
    requires Running(more, svc) == Running(cs, svc) + {l} && l !in Running(cs, svc) && l in more
    requires forall k :: k in Running(cs, svc) ==> more[k].id == cs[k].id
    ensures LoadOf(more, svc, cpu) == LoadOf(cs, svc, cpu) + if more[l].id in cpu then cpu[more[l].id] else 0.0
    ensures Running(cs, svc) == {} ==> LoadOf(cs, svc, cpu) == 0.0
  {
    Collections.RealSumAdd(Running(cs, svc), SampleIn(more, cpu), l);
    Collections.RealSumSame(Running(cs, svc), SampleIn(cs, cpu), SampleIn(more, cpu));
  }

  lemma NothingTaken(cs: Containers, svc: Service, cpu: Samples)
    requires !svc.autoscale || Running(cs, svc) == {}
    ensures Taken(cs, cs, svc, cpu)
  {
    forall l ensures UntouchedAt(cs, cs, svc, l) { }
  }

  lemma ScalingTaken(before: Containers, after: Containers, svc: Service, cpu: Samples)
    requires svc.autoscale && Running(before, svc) != {} && Reconciled(before, after, NextRow(before, svc, cpu))
    ensures Taken(before, after, svc, cpu)
  {
    var next := NextRow(before, svc, cpu);
    ReconciledCount(before, after, next);
    assert Running(after, svc) == Running(after, next);
  }

  /** The rows and containers after a service's turn: untouched, or on the way to next. */
  ghost predicate TurnedTo(was: map<string, Service>, rows: map<string, Service>, before: Containers, now: Containers,
                           svc: Service, next: Service)
  {
    || (rows == was && now == before)
    || (rows == was[svc.name := next] && TickedTo(before, now, next))
  }

  /** The rows and the containers at one moment. */
  datatype Moment = Moment(rows: map<string, Service>, cs: Containers)

  /** What a turn does, whether or not a call fails: the row of an autoscaled service with running
      replicas goes to the count that the samples ask for, and its containers towards that count as
      far as the calls succeed; or nothing happens. */
  ghost predicate TurnDone(was: Moment, now: Moment, svc: Service, cpu: Samples) {
    if svc.autoscale && Running(was.cs, svc) != {}
    then TurnedTo(was.rows, now.rows, was.cs, now.cs, svc, NextRow(was.cs, svc, cpu))
    else now == was
  }

  /** The service can be reached and its labels and names correspond. */
  ghost predicate Ready(m: Services.Manager, svc: Service) reads m`clients, m.store`endpoints, m.hosts`containers {
    Services.Clean(m.hosts.containers, svc) && m.Connectable(svc.endpointID)
  }

  ghost function Now(m: Services.Manager): Moment reads m.store`services, m.hosts`containers {
    Moment(m.store.services, m.hosts.containers)
  }

  /** Scales a service to the count that the average of its running replicas asks for. */
  method Rescale(m: Services.Manager, svc: Service, ghost cpu: Samples, desired: int64)
    requires m.Valid() && svc.name in m.store.services && m.store.services[svc.name] == svc && svc.autoscale
    requires Running(m.hosts.containers, svc) != {}
    requires desired == Desired(AverageOf(m.hosts.containers, svc, cpu), |Running(m.hosts.containers, svc)|,
                                svc.minReplicas, svc.maxReplicas, svc.targetCpuPct)
    modifies m`clients, m.store`services, m.store`faults, m.hosts, m.registry.xds
    ensures m.Valid() && old(m.hosts.faults) <= m.hosts.faults
    ensures old(m.registry.Faults()) <= m.registry.Faults() && old(m.clients) <= m.clients
    ensures TurnedTo(old(m.store.services), m.store.services, old(m.hosts.containers), m.hosts.containers, svc,
                     NextRow(old(m.hosts.containers), svc, cpu))
    ensures old(Ready(m, svc)) && m.Faults() == old(m.Faults()) ==>
      Taken(old(m.hosts.containers), m.hosts.containers, svc, cpu)
  {
    ghost var before := m.hosts.containers;
    ghost var next := NextRow(before, svc, cpu);
    if Services.Clean(before, svc) { CleanIgnoresCount(before, svc, next.replicas); }
    var ok := m.Scale(svc.name, desired);
    if Reconciled(before, m.hosts.containers, next) { ScalingTaken(before, m.hosts.containers, svc, cpu); }
  }

  /** One service's turn; a failed scaling is only logged. */
  method ScaleService(m: Services.Manager, svc: Service, cpu: Samples)
    requires m.Valid() && svc.name in m.store.services && m.store.services[svc.name] == svc && svc.autoscale
    modifies m`clients, m.store`services, m.store`faults, m.hosts, m.registry.xds
    ensures m.Valid() && old(m.hosts.faults) <= m.hosts.faults
    ensures old(m.registry.Faults()) <= m.registry.Faults() && old(m.clients) <= m.clients
    ensures TurnDone(old(Now(m)), Now(m), svc, cpu)
    ensures old(Ready(m, svc)) && m.Faults() == old(m.Faults()) ==>
      Taken(old(m.hosts.containers), m.hosts.containers, svc, cpu)
  {
    ghost var before := m.hosts.containers;
    var ok := m.DockerFor(svc.endpointID);
    if !ok { return; }
    var avg, current;
    ok, avg, current := Average(m.hosts, svc, cpu);
    if !ok {
      if Running(before, svc) == {} { NothingTaken(before, svc, cpu); }
      return;
    }
    var desired := Desired(avg, current, svc.minReplicas, svc.maxReplicas, svc.targetCpuPct);
    if desired == current { return; }
    Rescale(m, svc, cpu, desired);
  }

  predicate RowMoved(was: map<string, Service>, now: map<string, Service>, n: string) {
    (n in now <==> n in was) && (n in was ==> MovedWithin(was[n], now[n]))
  }

  predicate StillStored(services: map<string, Service>, s: Service) { s.name in services && services[s.name] == s }

  /** The first k services have had their turn. */
  ghost predicate TurnsTaken(was: map<string, Service>, now: map<string, Service>, k: nat)
    requires k <= |Store.InOrder(was)|
  {
    && (forall n :: RowMoved(was, now, n))
    && forall j :: k <= j < |Store.InOrder(was)| ==> StillStored(now, Store.InOrder(was)[j])
  }

  lemma TakeTurn(was: map<string, Service>, now: map<string, Service>, after: map<string, Service>, k: nat,
                 svc: Service, next: Service)
    requires forall n :: n in was ==> was[n].name == n
    requires k < |Store.InOrder(was)| && svc == Store.InOrder(was)[k] && TurnsTaken(was, now, k)
    requires after == now || (after == now[svc.name := next] && MovedWithin(svc, next))
    ensures StillStored(now, svc) && TurnsTaken(was, after, k + 1)
  {
    var svcs, keys := Store.InOrder(was), Ordered(was.Keys);
    assert StillStored(now, svcs[k]) && keys[k] in was && was[keys[k]] == svc;
    forall n ensures RowMoved(was, after, n) { assert RowMoved(was, now, n); }
    forall j | k + 1 <= j < |svcs| ensures StillStored(after, svcs[j]) {
      assert StillStored(now, svcs[j]) && keys[j] in was && keys[j] != keys[k];
    }
  }

  // ------------------------------------------------- an interval over all services

  ghost predicate TurnAt(before: Containers, now: Containers, svc: Service, cpu: Samples, taken: bool) {
    && Services.Clean(before, svc) && Services.Clean(now, svc)
    && if taken then Taken(before, now, svc, cpu) else Untouched(before, now, svc)
  }

  ghost predicate Turned(before: Containers, now: Containers, services: map<string, Service>, cpu: Samples, k: nat) {
    forall j :: 0 <= j < |Store.InOrder(services)| ==> TurnAt(before, now, Store.InOrder(services)[j], cpu, j < k)
  }

  lemma TurnsStart(before: Containers, services: map<string, Service>, cpu: Samples)
    requires Services.AllClean(before, services)
    ensures Turned(before, before, services, cpu, 0)
  {
    forall j | 0 <= j < |Store.InOrder(services)|
      ensures TurnAt(before, before, Store.InOrder(services)[j], cpu, false)
    {
      assert Ordered(services.Keys)[j] in services;
      forall l ensures UntouchedAt(before, before, Store.InOrder(services)[j], l) { }
    }
  }

  lemma UntouchedRunning(before: Containers, now: Containers, svc: Service)
    requires Untouched(before, now, svc)
    ensures Running(now, svc) == Running(before, svc)
  {
    forall l ensures l in Running(now, svc) <==> l in Running(before, svc) { assert UntouchedAt(before, now, svc, l); }
  }

  lemma UntouchedNextRow(before: Containers, now: Containers, svc: Service, cpu: Samples)
    requires Untouched(before, now, svc)
    ensures Running(now, svc) == Running(before, svc) && NextRow(now, svc, cpu) == NextRow(before, svc, cpu)
  {
    UntouchedRunning(before, now, svc);
    forall l | l in Running(before, svc) ensures SampleIn(before, cpu)(l) == SampleIn(now, cpu)(l) {
      assert UntouchedAt(before, now, svc, l);
    }
    Collections.RealSumSame(Running(before, svc), SampleIn(before, cpu), SampleIn(now, cpu));
  }

  lemma TakenLater(before: Containers, mid: Containers, now: Containers, svc: Service, cpu: Samples)
    ensures Untouched(before, mid, svc) && Taken(mid, now, svc, cpu) ==> Taken(before, now, svc, cpu)
    ensures Taken(before, mid, svc, cpu) && Untouched(mid, now, svc) ==> Taken(before, now, svc, cpu)
  {
    if Untouched(before, mid, svc) && Taken(mid, now, svc, cpu) {
      UntouchedNextRow(before, mid, svc, cpu);
      if Untouched(mid, now, svc) { UntouchedTransitive(before, mid, now, svc); }
    }
    if Taken(before, mid, svc, cpu) && Untouched(mid, now, svc) {
      UntouchedRunning(mid, now, svc);
      if Untouched(before, mid, svc) { UntouchedTransitive(before, mid, now, svc); }
    }
  }

  /** A turn leaves the containers alone or reconciles them towards the service at another count. */
  lemma TurnSpares(now: Containers, after: Containers, svc: Service, next: Service, other: Service)
    requires Services.Clean(now, svc) && next == svc.(replicas := next.replicas) && Services.Clean(now, other)
    requires after == now || TickedTo(now, after, next)
    ensures Services.Clean(after, svc)
    ensures other.name != svc.name ==> Untouched(now, after, other) && Services.Clean(after, other)
  {
    if after == now {
      forall l ensures UntouchedAt(now, after, other, l) { }
    } else {
      CleanIgnoresCount(now, svc, next.replicas);
      NothingLostCorresponds(now, after, next);
      CleanIgnoresCount(after, next, svc.replicas);
      assert next.(replicas := svc.replicas) == svc;
      if other.name != svc.name { ReconcileSparesOthers(now, after, next, other); }
    }
  }

  lemma TurnOne(before: Containers, now: Containers, after: Containers, services: map<string, Service>, cpu: Samples,
                k: nat, next: Service)
    requires Services.AllClean(before, services) && k < |Store.InOrder(services)|
    requires Turned(before, now, services, cpu, k)
    requires var svc := Store.InOrder(services)[k];
             && next == svc.(replicas := next.replicas) && (after == now || TickedTo(now, after, next))
             && Taken(now, after, svc, cpu)
    ensures Turned(before, after, services, cpu, k + 1)
  {
    var svcs, keys := Store.InOrder(services), Ordered(services.Keys);
    var svc, done := svcs[k], k + 1;
    assert TurnAt(before, now, svcs[k], cpu, k < k);
    forall j | 0 <= j < |svcs| ensures TurnAt(before, after, svcs[j], cpu, j < done) {
      assert TurnAt(before, now, svcs[j], cpu, j < k);
      TurnSpares(now, after, svc, next, svcs[j]);
      if j != k { assert keys[j] in services && keys[k] in services && keys[j] != keys[k]; }
      TakenLater(before, now, after, svcs[j], cpu);
      if j > k { UntouchedTransitive(before, now, after, svcs[j]); }
    }
  }

  /** How far an interval has come; quiet tells that nothing has failed. */
  ghost predicate InInterval(was: map<string, Service>, before: Containers, rows: map<string, Service>, now: Containers,
                             cpu: Samples, k: nat, quiet: bool)
    requires k <= |Store.InOrder(was)|
  {
    TurnsTaken(was, rows, k) && (quiet ==> Turned(before, now, was, cpu, k))
  }

  lemma IntervalStarts(was: map<string, Service>, before: Containers, cpu: Samples, quiet: bool)
    requires forall n :: n in was ==> was[n].name == n
    requires quiet ==> Services.AllClean(before, was)
    ensures InInterval(was, before, was, before, cpu, 0, quiet)
  {
    if quiet { TurnsStart(before, was, cpu); }
    forall n ensures RowMoved(was, was, n) { }
    forall j | 0 <= j < |Store.InOrder(was)| ensures StillStored(was, Store.InOrder(was)[j]) {
      assert Ordered(was.Keys)[j] in was;
    }
  }

  /** The service whose turn it is has its row and its labels. */
  lemma TurnComes(was: map<string, Service>, before: Containers, rows: map<string, Service>, now: Containers,
                  cpu: Samples, k: nat, quiet: bool)
    requires forall n :: n in was ==> was[n].name == n
    requires k < |Store.InOrder(was)| && InInterval(was, before, rows, now, cpu, k, quiet)
    ensures StillStored(rows, Store.InOrder(was)[k])
    ensures quiet ==> Services.Clean(now, Store.InOrder(was)[k])
  {
    assert StillStored(rows, Store.InOrder(was)[k]);
    if quiet { assert TurnAt(before, now, Store.InOrder(was)[k], cpu, k < k); }
  }

  lemma TurnPasses(was: map<string, Service>, before: Containers, rows: map<string, Service>, now: Containers,
                   cpu: Samples, k: nat, quiet: bool, next: Service, rows': map<string, Service>, now': Containers,
                   quiet': bool)
    requires forall n :: n in was ==> was[n].name == n
    requires k < |Store.InOrder(was)| && InInterval(was, before, rows, now, cpu, k, quiet)
    requires quiet ==> Services.AllClean(before, was)
    requires var svc := Store.InOrder(was)[k];
             && TurnedTo(rows, rows', now, now', svc, next) && MovedWithin(svc, next)
             && (quiet' ==> quiet && Taken(now, now', svc, cpu))
    ensures InInterval(was, before, rows', now', cpu, k + 1, quiet')
  {
    TakeTurn(was, rows, rows', k, Store.InOrder(was)[k], next);
    if quiet' { TurnOne(before, now, now', was, cpu, k, next); }
  }

  /** The moment before the first turn and the one after each, of the services in their order. */
  ghost predicate IsLog(was: map<string, Service>, cpu: Samples, log: seq<Moment>) {
    && 1 <= |log| <= |Store.InOrder(was)| + 1
    && forall j :: 0 <= j < |log| - 1 ==> TurnDoneAt(was, cpu, log, j)
  }

  ghost predicate TurnDoneAt(was: map<string, Service>, cpu: Samples, log: seq<Moment>, j: nat)
    requires j + 1 < |log| <= |Store.InOrder(was)| + 1
  {
    TurnDone(log[j], log[j + 1], Store.InOrder(was)[j], cpu)
  }

  /** The log of the turns from one moment to another. */
  ghost predicate Logs(was: map<string, Service>, cpu: Samples, log: seq<Moment>, start: Moment, now: Moment) {
    IsLog(was, cpu, log) && log[0] == start && log[|log| - 1] == now
  }

  /** The services had their turns one after the other, or none had one because they could not be read. */
  ghost predicate Logged(was: map<string, Service>, cpu: Samples, log: seq<Moment>, start: Moment, now: Moment) {
    Logs(was, cpu, log, start, now) && (|log| == 1 || |log| == |Store.InOrder(was)| + 1)
  }

  lemma LogTurn(was: map<string, Service>, cpu: Samples, log: seq<Moment>, now: Moment, next: Moment)
    returns (log': seq<Moment>)
    requires 1 <= |log| <= |Store.InOrder(was)| && Logs(was, cpu, log, log[0], now)
    requires TurnDone(now, next, Store.InOrder(was)[|log| - 1], cpu)
    ensures |log'| == |log| + 1 && Logs(was, cpu, log', log[0], next)
  {
    log' := log + [next];
    forall j | 0 <= j < |log'| - 1 ensures TurnDoneAt(was, cpu, log', j) {
      if j < |log| - 1 { assert TurnDoneAt(was, cpu, log, j); }
    }
  }

  /** What an interval did: it moved nothing but the counts of autoscaled services, and those only to
      within their limits; and if nothing failed, every service had its turn. */
  ghost predicate IntervalOver(was: map<string, Service>, before: Containers, rows: map<string, Service>,
                               now: Containers, cpu: Samples, quiet: bool)
  {
    && (forall n :: RowMoved(was, rows, n))
    && (quiet ==> forall n :: n in was ==> HadTurn(before, now, was, cpu, n))
  }

  ghost predicate HadTurn(before: Containers, now: Containers, was: map<string, Service>, cpu: Samples, n: string)
    requires n in was
  {
    Taken(before, now, was[n], cpu) && Services.Clean(now, was[n])
  }

  lemma IntervalEnds(was: map<string, Service>, before: Containers, rows: map<string, Service>, now: Containers,
                     cpu: Samples, quiet: bool)
    requires InInterval(was, before, rows, now, cpu, |Store.InOrder(was)|, quiet)
    ensures IntervalOver(was, before, rows, now, cpu, quiet)
  {
    if quiet {
      forall n | n in was ensures HadTurn(before, now, was, cpu, n) {
        var k := Routing.PlaceOf(was, n);
        assert TurnAt(before, now, Store.InOrder(was)[k], cpu, k < |Store.InOrder(was)|);
      }
    }
  }

  ghost predicate Keyed(services: map<string, Service>) { forall n :: n in services ==> services[n].name == n }

  /** The k-th service's turn, if it is autoscaled. */
  method NextTurn(m: Services.Manager, svc: Service, cpu: Samples, ghost was: map<string, Service>,
                  ghost before: Containers, ghost k: nat, ghost quiet: bool, ghost log: seq<Moment>)
    returns (ghost log': seq<Moment>)
    requires m.Valid() && Keyed(was) && (quiet ==> Services.AllClean(before, was) && m.Connectable(svc.endpointID))
    requires |log| == k + 1 && Logs(was, cpu, log, log[0], Now(m))
    requires k < |Store.InOrder(was)| && svc == Store.InOrder(was)[k]
    requires InInterval(was, before, m.store.services, m.hosts.containers, cpu, k, quiet)
    modifies m`clients, m.store`services, m.store`faults, m.hosts, m.registry.xds
    ensures m.Valid() && old(m.hosts.faults) <= m.hosts.faults
    ensures old(m.registry.Faults()) <= m.registry.Faults() && old(m.clients) <= m.clients
    ensures InInterval(was, before, m.store.services, m.hosts.containers, cpu, k + 1,
                       quiet && m.Faults() == old(m.Faults()))
    ensures |log'| == k + 2 && Logs(was, cpu, log', log[0], Now(m))
  {
    ghost var rows, cs, now := m.store.services, m.hosts.containers, Now(m);
    TurnComes(was, before, rows, cs, cpu, k, quiet);
    if !svc.autoscale {
      NothingTaken(cs, svc, cpu);
      TurnPasses(was, before, rows, cs, cpu, k, quiet, svc, rows, cs, quiet);
      log' := LogTurn(was, cpu, log, now, now);
      return;
    }
    ScaleService(m, svc, cpu);
    TurnPasses(was, before, rows, cs, cpu, k, quiet, NextRow(cs, svc, cpu), m.store.services, m.hosts.containers,
               quiet && m.Faults() == old(m.Faults()));
    log' := LogTurn(was, cpu, log, now, Now(m));
  }

  /** The services' turns, in their order. */
  method Turns(m: Services.Manager, svcs: seq<Service>, cpu: Samples, ghost was: map<string, Service>,
               ghost before: Containers, ghost sound: bool)
    returns (ghost log: seq<Moment>)
    requires m.Valid() && svcs == Store.InOrder(was) && Keyed(was)
    requires sound ==> Services.AllClean(before, was) && m.AllConnectable(svcs)
    requires InInterval(was, before, m.store.services, m.hosts.containers, cpu, 0, sound)
    modifies m`clients, m.store`services, m.store`faults, m.hosts, m.registry.xds
    ensures m.Valid() && old(m.hosts.faults) <= m.hosts.faults
    ensures old(m.registry.Faults()) <= m.registry.Faults() && old(m.clients) <= m.clients
    ensures InInterval(was, before, m.store.services, m.hosts.containers, cpu, |svcs|,
                       sound && m.Faults() == old(m.Faults()))
    ensures Logs(was, cpu, log, old(Now(m)), Now(m)) && |log| == |svcs| + 1
  {
    log := [Now(m)];
    for k := 0 to |svcs|
      invariant m.Valid() && old(m.hosts.faults) <= m.hosts.faults
      invariant old(m.registry.Faults()) <= m.registry.Faults() && old(m.clients) <= m.clients
      invariant InInterval(was, before, m.store.services, m.hosts.containers, cpu, k,
                           sound && m.Faults() == old(m.Faults()))
      invariant |log| == k + 1 && Logs(was, cpu, log, old(Now(m)), Now(m))
    {
      log := NextTurn(m, svcs[k], cpu, was, before, k, sound && m.Faults() == old(m.Faults()), log);
    }
  }

  /** One interval. */
  method ScaleOnce(m: Services.Manager, cpu: Samples) returns (ghost log: seq<Moment>)
    requires m.Valid()
    modifies m`clients, m.store`services, m.store`faults, m.hosts, m.registry.xds
    ensures m.Valid() && old(m.hosts.faults) <= m.hosts.faults
    ensures old(m.registry.Faults()) <= m.registry.Faults() && old(m.clients) <= m.clients
    ensures IntervalOver(old(m.store.services), old(m.hosts.containers), m.store.services, m.hosts.containers, cpu,
                         old(Sound(m)) && m.Faults() == old(m.Faults()))
    ensures Logged(old(m.store.services), cpu, log, old(Now(m)), Now(m))
  {
    ghost var was, before, sound := m.store.services, m.hosts.containers, Sound(m);
    IntervalStarts(was, before, cpu, sound);
    log := [Now(m)];
    var ok, svcs := m.store.ListServices();
    if !ok { return; }
    log := Turns(m, svcs, cpu, was, before, sound);
    IntervalEnds(was, before, m.store.services, m.hosts.containers, cpu, sound && m.Faults() == old(m.Faults()));
  }

  /** Every service can be reached and its labels and names correspond. */
  ghost predicate Sound(m: Services.Manager)
    reads m`clients, m.store`services, m.store`endpoints, m.hosts`containers
  {
    Services.AllClean(m.hosts.containers, m.store.services) && m.AllConnectable(Store.InOrder(m.store.services))
  }

  // ------------------------------------------------------------ interval by interval

  /** The rows and containers before the first interval and after each one. */
  ghost predicate Intervals(rows: seq<map<string, Service>>, states: seq<Containers>, ticks: seq<Samples>, quiet: bool)
  {
    && |rows| == |states| == |ticks| + 1
    && forall k :: 0 <= k < |ticks| ==> IntervalAt(rows, states, ticks, quiet, k)
  }

  ghost predicate IntervalAt(rows: seq<map<string, Service>>, states: seq<Containers>, ticks: seq<Samples>, quiet: bool,
                             k: nat)
    requires |rows| == |states| == |ticks| + 1 && k < |ticks|
  {
    IntervalOver(rows[k], states[k], rows[k + 1], states[k + 1], ticks[k], quiet)
  }

  lemma MoreIntervals(rows: seq<map<string, Service>>, states: seq<Containers>, ticks: seq<Samples>, quiet: bool,
                      rows': map<string, Service>, now: Containers, cpu: Samples, quiet': bool)
    requires Intervals(rows, states, ticks, quiet) && (quiet' ==> quiet)
    requires IntervalOver(rows[|ticks|], states[|ticks|], rows', now, cpu, quiet')
    ensures Intervals(rows + [rows'], states + [now], ticks + [cpu], quiet')
  {
    var more, later, all := rows + [rows'], states + [now], ticks + [cpu];
    forall k | 0 <= k < |all| ensures IntervalAt(more, later, all, quiet', k) {
      if k < |ticks| { assert IntervalAt(rows, states, ticks, quiet, k); }
    }
  }

  /** The turns of every interval. */
  ghost predicate AllLogged(rows: seq<map<string, Service>>, states: seq<Containers>, ticks: seq<Samples>,
                            logs: seq<seq<Moment>>)
  {
    && |rows| == |states| == |ticks| + 1 && |logs| == |ticks|
    && forall k :: 0 <= k < |ticks| ==> LoggedAt(rows, states, ticks, logs, k)
  }

  ghost predicate LoggedAt(rows: seq<map<string, Service>>, states: seq<Containers>, ticks: seq<Samples>,
                           logs: seq<seq<Moment>>, k: nat)
    requires |rows| == |states| == |ticks| + 1 && |logs| == |ticks| && k < |ticks|
  {
    Logged(rows[k], ticks[k], logs[k], Moment(rows[k], states[k]), Moment(rows[k + 1], states[k + 1]))
  }

  lemma MoreLogs(rows: seq<map<string, Service>>, states: seq<Containers>, ticks: seq<Samples>,
                 logs: seq<seq<Moment>>, now: Moment, cpu: Samples, log: seq<Moment>)
    requires AllLogged(rows, states, ticks, logs)
    requires Logged(rows[|ticks|], cpu, log, Moment(rows[|ticks|], states[|ticks|]), now)
    ensures AllLogged(rows + [now.rows], states + [now.cs], ticks + [cpu], logs + [log])
  {
    var more, later, all, every := rows + [now.rows], states + [now.cs], ticks + [cpu], logs + [log];
    forall k | 0 <= k < |all| ensures LoggedAt(more, later, all, every, k) {
      if k < |ticks| { assert LoggedAt(rows, states, ticks, logs, k); }
    }
  }

  /** What made a first interval work makes the next one work. */
  lemma StaysClean(was: map<string, Service>, before: Containers, rows: map<string, Service>, now: Containers,
                   cpu: Samples)
    requires IntervalOver(was, before, rows, now, cpu, true) && forall n :: n in rows ==> rows[n].name == n
    ensures Services.AllClean(now, rows) && rows.Keys == was.Keys
    ensures forall n :: n in was ==> rows[n].endpointID == was[n].endpointID
  {
    forall n ensures (n in rows <==> n in was) && (n in rows ==> Services.Clean(now, rows[n])) {
      assert RowMoved(was, rows, n);
      if n in rows {
        assert HadTurn(before, now, was, cpu, n);
        CleanIgnoresCount(now, was[n], rows[n].replicas);
      }
    }
    forall n | n in was ensures rows[n].endpointID == was[n].endpointID { assert RowMoved(was, rows, n); }
  }

  lemma SoundStays(m: Services.Manager, was: map<string, Service>, before: Containers, cpu: Samples, clients: set<int>)
    requires m.Valid() && IntervalOver(was, before, m.store.services, m.hosts.containers, cpu, true)
    requires forall k :: 0 <= k < |Store.InOrder(was)| ==>
      Store.InOrder(was)[k].endpointID in clients + {0} + m.store.endpoints.Keys
    requires clients <= m.clients
    ensures Sound(m)
  {
    var rows := m.store.services;
    StaysClean(was, before, rows, m.hosts.containers, cpu);
    forall k | 0 <= k < |Store.InOrder(rows)| ensures m.Connectable(Store.InOrder(rows)[k].endpointID) {
      var n := Ordered(rows.Keys)[k];
      assert n in rows && Store.InOrder(rows)[k] == rows[n] && Store.InOrder(was)[k] == was[n];
    }
  }

  /** What the intervals so far did, up to now. */
  ghost predicate Ran(rows: seq<map<string, Service>>, states: seq<Containers>, ticks: seq<Samples>,
                      logs: seq<seq<Moment>>, quiet: bool, now: Moment)
  {
    && Intervals(rows, states, ticks, quiet) && AllLogged(rows, states, ticks, logs)
    && Moment(rows[|ticks|], states[|ticks|]) == now
  }

  /** One more interval; quiet tells that nothing has failed yet. */
  method NextInterval(m: Services.Manager, cpu: Samples, ghost rows: seq<map<string, Service>>,
                      ghost states: seq<Containers>, ghost ticks: seq<Samples>, ghost logs: seq<seq<Moment>>,
                      ghost quiet: bool)
    returns (ghost log: seq<Moment>)
    requires m.Valid() && Ran(rows, states, ticks, logs, quiet, Now(m)) && (quiet ==> Sound(m))
    modifies m`clients, m.store`services, m.store`faults, m.hosts, m.registry.xds
    ensures m.Valid() && old(m.hosts.faults) <= m.hosts.faults && old(m.registry.Faults()) <= m.registry.Faults()
    ensures var calm := quiet && m.Faults() == old(m.Faults());
            && Ran(rows + [m.store.services], states + [m.hosts.containers], ticks + [cpu], logs + [log], calm, Now(m))
            && (calm ==> Sound(m))
  {
    ghost var was, before, clients := m.store.services, m.hosts.containers, m.clients;
    log := ScaleOnce(m, cpu);
    ghost var calm := quiet && m.Faults() == old(m.Faults());
    MoreIntervals(rows, states, ticks, quiet, m.store.services, m.hosts.containers, cpu, calm);
    MoreLogs(rows, states, ticks, logs, Now(m), cpu, log);
    if calm { SoundStays(m, was, before, cpu, clients); }
  }

  /** The autoscaler's loop, for as many intervals as there are samples. */
  method RunAutoscaler(m: Services.Manager, ticks: seq<Samples>)
    returns (ghost rows: seq<map<string, Service>>, ghost states: seq<Containers>, ghost logs: seq<seq<Moment>>)
    requires m.Valid()
    modifies m`clients, m.store`services, m.store`faults, m.hosts, m.registry.xds
    ensures m.Valid() && Ran(rows, states, ticks, logs, old(Sound(m)) && m.Faults() == old(m.Faults()), Now(m))
    ensures rows[0] == old(m.store.services) && states[0] == old(m.hosts.containers)
  {
    rows, states, logs := [m.store.services], [m.hosts.containers], [];
    ghost var sound := Sound(m);
    for k := 0 to |ticks|
      invariant m.Valid() && old(m.hosts.faults) <= m.hosts.faults && old(m.registry.Faults()) <= m.registry.Faults()
      invariant Ran(rows, states, ticks[..k], logs, sound && m.Faults() == old(m.Faults()), Now(m))
      invariant rows[0] == old(m.store.services) && states[0] == old(m.hosts.containers)
      invariant sound && m.Faults() == old(m.Faults()) ==> Sound(m)
    {
      ghost var log := NextInterval(m, ticks[k], rows, states, ticks[..k], logs,
                                    sound && m.Faults() == old(m.Faults()));
      rows, states, logs := rows + [m.store.services], states + [m.hosts.containers], logs + [log];
      assert ticks[..k + 1] == ticks[..k] + [ticks[k]];
    }
    assert ticks[..|ticks|] == ticks;
  }

  // -------------------------------------------------------------- the closed loop

  /** The states of a service's containers after each interval, in which its running replicas always
      use the same load together, and its turn never fails. */
  ghost predicate Loop(states: seq<Containers>, samples: seq<Samples>, svc: Service, load: real) {
    |states| == |samples| + 1 && forall k :: 0 <= k < |samples| ==> LoopAt(states, samples, svc, load, k)
  }

  ghost predicate LoopAt(states: seq<Containers>, samples: seq<Samples>, svc: Service, load: real, k: nat)
    requires k < |samples| && |states| == |samples| + 1
  {
    LoadOf(states[k], svc, samples[k]) == load && Taken(states[k], states[k + 1], svc, samples[k])
  }

  /** Quiet intervals in which a service's load does not change are such a loop. */
  lemma IntervalsLoop(rows: seq<map<string, Service>>, states: seq<Containers>, ticks: seq<Samples>, n: string,
                      load: real)
    requires Intervals(rows, states, ticks, true) && n in rows[0] && rows[0][n].autoscale
    requires forall k :: 0 <= k < |ticks| ==> LoadOf(states[k], rows[0][n], ticks[k]) == load
    ensures Loop(states, ticks, rows[0][n], load)
  {
    forall k | 0 <= k < |ticks| ensures LoopAt(states, ticks, rows[0][n], load, k) {
      SameRow(rows, states, ticks, true, n, k);
      assert IntervalAt(rows, states, ticks, true, k);
      assert HadTurn(states[k], states[k + 1], rows[k], ticks[k], n);
      TakenIgnoresCount(states[k], states[k + 1], rows[0][n], rows[k][n], ticks[k]);
    }
  }

  /** Intervals change no row but for its count, and no row comes or goes. */
  lemma {:induction false} SameRow(rows: seq<map<string, Service>>, states: seq<Containers>, ticks: seq<Samples>,
                                   quiet: bool, n: string, k: nat)
    requires Intervals(rows, states, ticks, quiet) && k < |rows|
    ensures n in rows[k] <==> n in rows[0]
    ensures n in rows[k] ==> rows[k][n] == rows[0][n].(replicas := rows[k][n].replicas)
    decreases k
  {
    if k > 0 {
      SameRow(rows, states, ticks, quiet, n, k - 1);
      assert IntervalAt(rows, states, ticks, quiet, k - 1);
      assert RowMoved(rows[k - 1], rows[k], n);
    }
  }

  lemma TakenIgnoresCount(before: Containers, now: Containers, svc: Service, row: Service, cpu: Samples)
    requires row == svc.(replicas := row.replicas) && Taken(before, now, row, cpu)
    ensures Taken(before, now, svc, cpu)
  {
    assert Running(before, row) == Running(before, svc) && Running(now, row) == Running(now, svc);
    if !(svc.autoscale && Running(before, svc) != {}) {
      forall l ensures UntouchedAt(before, now, svc, l) { assert UntouchedAt(before, now, row, l); }
    }
  }

  predicate Limited(svc: Service) {
    svc.autoscale && 1 <= svc.minReplicas <= svc.maxReplicas && 0 < svc.targetCpuPct
  }

  ghost function Count0(states: seq<Containers>, svc: Service): nat
    requires states != []
  {
    |Running(states[0], svc)|
  }

  /** The running replicas follow the controller exactly. */
  lemma {:induction false} LoopFollows(states: seq<Containers>, samples: seq<Samples>, svc: Service, load: real, k: nat)
    requires Loop(states, samples, svc, load) && Limited(svc) && Count0(states, svc) >= 1 && k < |states|
    ensures |Running(states[k], svc)|
         == After(load, Count0(states, svc), svc.minReplicas, svc.maxReplicas, svc.targetCpuPct, k)
    decreases k
  {
    if k > 0 {
      LoopFollows(states, samples, svc, load, k - 1);
      assert LoopAt(states, samples, svc, load, k - 1);
    }
  }

  /** They come to rest within max - min intervals - one more from outside the limits - where the load
      per replica is in the band or a limit keeps it out, and stay there. */
  lemma LoopSettles(states: seq<Containers>, samples: seq<Samples>, svc: Service, load: real, k: nat)
    requires Loop(states, samples, svc, load) && Limited(svc) && Count0(states, svc) >= 1 && k < |states|
    requires k >= svc.maxReplicas - svc.minReplicas
             + (if svc.minReplicas <= Count0(states, svc) <= svc.maxReplicas then 0 else 1)
    ensures var n := |Running(states[k], svc)|;
            n >= 1 && AtRest(load, n, svc.minReplicas, svc.maxReplicas, svc.targetCpuPct)
    ensures k + 1 < |states| ==> |Running(states[k + 1], svc)| == |Running(states[k], svc)|
  {
    SettlesFromAnywhere(load, Count0(states, svc), svc.minReplicas, svc.maxReplicas, svc.targetCpuPct, k);
    LoopFollows(states, samples, svc, load, k);
    if k + 1 < |states| { LoopFollows(states, samples, svc, load, k + 1); }
  }

  /** Once replicas were added none is ever taken away, and the reverse. */
  lemma LoopNeverReverses(states: seq<Containers>, samples: seq<Samples>, svc: Service, load: real, i: nat, j: nat)
    requires Loop(states, samples, svc, load) && Limited(svc)
    requires svc.minReplicas <= Count0(states, svc) <= svc.maxReplicas && i < |samples| && j < |samples|
    ensures |Running(states[i + 1], svc)| <= |Running(states[i], svc)|
         || |Running(states[j + 1], svc)| >= |Running(states[j], svc)|
  {
    LoopFollows(states, samples, svc, load, i);
    LoopFollows(states, samples, svc, load, i + 1);
    LoopFollows(states, samples, svc, load, j);
    LoopFollows(states, samples, svc, load, j + 1);
    NeverReverses(load, Count0(states, svc), svc.minReplicas, svc.maxReplicas, svc.targetCpuPct, i, j);
  }
}
