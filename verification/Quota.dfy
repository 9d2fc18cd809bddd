/** A member's CPU and memory: what the containers on a host add up to. */
module Quota {
  import opened Text
  import opened Specs
  import opened Docker
  import opened Replicas
  import opened Collections

  datatype Resource = Cpu | Mem

  /** Quotas are in milli-CPU and megabytes, limits in nano-CPU and bytes. */
  function Unit(r: Resource): int { if r == Cpu then NANO_PER_MILLI else BYTES_PER_MB }

  function Limit(c: Container, r: Resource): int { if r == Cpu then c.spec.nanoCPUs else c.spec.memoryBytes }

  /** The limit of one replica. */
  function PerReplica(svc: Service, r: Resource): int { if r == Cpu then svc.cpuMilli else svc.memMB }

  /** Go's integer division: it truncates toward zero. */
  function Quot(a: int, b: int): int
    requires b > 0
  {
    if a < 0 then -((-a) / b) else a / b
  }

  /** What is cut off is less than one unit, and never turns the sign. */
  lemma QuotTruncates(a: int, b: int)
    requires b > 0
    ensures var q := Quot(a, b);
            if a >= 0 then q >= 0 && q * b <= a < q * b + b else q <= 0 && q * b - b < a <= q * b
  {
    var q := Quot(a, b);
    var n := if a < 0 then -a else a;
    assert n == (n / b) * b + n % b;
    if a < 0 { assert q * b == -((n / b) * b); }
  }

  // --------------------------------------------------------------------- usage

  /** The container is the owner's and not a replica of the excluded service. */
  predicate Counted(cs: Containers, env: int, owner: string, exclude: string, l: Loc)
    requires l in cs
  {
    l.env == env && HasLabel(cs[l], LABEL_OWNER, owner) && !(exclude != "" && HasLabel(cs[l], LABEL_SERVICE, exclude))
  }

  ghost function CountedIn(cs: Containers, seen: set<Loc>, env: int, owner: string, exclude: string): set<Loc> {
    set l | l in cs && l in seen && Counted(cs, env, owner, exclude, l)
  }

  function LimitsIn(cs: Containers, r: Resource): Loc -> int { (l: Loc) => if l in cs then Limit(cs[l], r) else 0 }

  /** What the owner's containers among those seen may use together. */
  ghost function UsageIn(cs: Containers, seen: set<Loc>, env: int, owner: string, exclude: string, r: Resource): int {
    Sum(CountedIn(cs, seen, env, owner, exclude), LimitsIn(cs, r))
  }

  /** What an owner's containers on a host may use together. */
  ghost function Usage(cs: Containers, env: int, owner: string, exclude: string, r: Resource): int {
    UsageIn(cs, cs.Keys, env, owner, exclude, r)
  }

  /** The same without some that were missed. */
  ghost function UsageBut(cs: Containers, missed: set<Loc>, env: int, owner: string, exclude: string, r: Resource): int
  {
    UsageIn(cs, cs.Keys - missed, env, owner, exclude, r)
  }

  lemma NoneMissed(cs: Containers, env: int, owner: string, exclude: string, r: Resource)
    ensures UsageBut(cs, {}, env, owner, exclude, r) == Usage(cs, env, owner, exclude, r)
  {
    assert cs.Keys - {} == cs.Keys;
  }

  lemma WeighOne(cs: Containers, seen: set<Loc>, env: int, owner: string, exclude: string, r: Resource, l: Loc)
    requires l in cs && l !in seen
    ensures UsageIn(cs, seen + {l}, env, owner, exclude, r)
         == UsageIn(cs, seen, env, owner, exclude, r)
            + if Counted(cs, env, owner, exclude, l) then Limit(cs[l], r) else 0
  {
    var s, s' := CountedIn(cs, seen, env, owner, exclude), CountedIn(cs, seen + {l}, env, owner, exclude);
    if Counted(cs, env, owner, exclude, l) {
      assert s' == s + {l};
      SumAdd(s, LimitsIn(cs, r), l);
    } else {
      assert s' == s;
    }
  }

  lemma AllWeighed(cs: Containers, seen: set<Loc>, missed: set<Loc>, env: int, owner: string, exclude: string,
                   r: Resource)
    requires forall l :: l in cs && Counted(cs, env, owner, exclude, l) ==> l in seen
    ensures UsageIn(cs, seen - missed, env, owner, exclude, r) == UsageBut(cs, missed, env, owner, exclude, r)
  {
    assert CountedIn(cs, seen - missed, env, owner, exclude) == CountedIn(cs, cs.Keys - missed, env, owner, exclude);
  }

  lemma SeenAll(cs: Containers, env: int, owner: string, exclude: string, list: seq<Summary>, seen: set<Loc>,
                missed: set<Loc>)
    requires IsListing(cs, cs.Keys, env, LABEL_OWNER, owner, true, list) && SeenFirst(env, list, |list|, seen)
    ensures forall r ::
      UsageIn(cs, seen - missed, env, owner, exclude, r) == UsageBut(cs, missed, env, owner, exclude, r)
  {
    forall l | l in cs && Counted(cs, env, owner, exclude, l) ensures l in seen {
      SeenEverything(cs, env, LABEL_OWNER, owner, true, list, seen, l);
    }
    forall r
      ensures UsageIn(cs, seen - missed, env, owner, exclude, r) == UsageBut(cs, missed, env, owner, exclude, r)
    {
      AllWeighed(cs, seen, missed, env, owner, exclude, r);
    }
  }

  /** The sums after k listed containers, some of which were missed. */
  ghost predicate Tallied(cs: Containers, env: int, owner: string, exclude: string, list: seq<Summary>, k: nat,
                          seen: set<Loc>, missed: set<Loc>, nanoCPUs: int, memBytes: int)
    requires k <= |list|
  {
    && SeenFirst(env, list, k, seen) && missed <= seen
    && nanoCPUs == UsageIn(cs, seen - missed, env, owner, exclude, Cpu)
    && memBytes == UsageIn(cs, seen - missed, env, owner, exclude, Mem)
  }

  lemma TallyStarts(cs: Containers, env: int, owner: string, exclude: string, list: seq<Summary>)
    ensures Tallied(cs, env, owner, exclude, list, 0, {}, {}, 0, 0)
  {
    assert CountedIn(cs, {} - {}, env, owner, exclude) == {};
  }

  /** What one listed container adds: its limits, unless it was missed or is a replica of the
      excluded service. */
  predicate Adds(cs: Containers, env: int, exclude: string, s: Summary, inspected: bool, nanoCPUs: int, memBytes: int) {
    var l := Loc(env, s.name);
    && l in cs
    && var skipped := !inspected || (exclude != "" && HasLabel(cs[l], LABEL_SERVICE, exclude));
       && nanoCPUs == (if skipped then 0 else cs[l].spec.nanoCPUs)
       && memBytes == if skipped then 0 else cs[l].spec.memoryBytes
  }

  lemma TallyMiss(cs: Containers, env: int, owner: string, exclude: string, list: seq<Summary>, k: nat, seen: set<Loc>,
                  missed: set<Loc>, nanoCPUs: int, memBytes: int)
    returns (seen': set<Loc>, missed': set<Loc>)
    requires IsListing(cs, cs.Keys, env, LABEL_OWNER, owner, true, list)
    requires k < |list| && Tallied(cs, env, owner, exclude, list, k, seen, missed, nanoCPUs, memBytes)
    ensures Tallied(cs, env, owner, exclude, list, k + 1, seen', missed', nanoCPUs, memBytes)
    ensures |missed'| == |missed| + 1
  {
    var l := Loc(env, list[k].name);
    SeeOne(cs, env, LABEL_OWNER, owner, true, list, k, seen);
    seen', missed' := seen + {l}, missed + {l};
    assert seen' - missed' == seen - missed;
  }

  lemma TallyRead(cs: Containers, env: int, owner: string, exclude: string, list: seq<Summary>, k: nat, seen: set<Loc>,
                  missed: set<Loc>, nanoCPUs: int, memBytes: int, nano: int, mem: int)
    returns (seen': set<Loc>)
    requires IsListing(cs, cs.Keys, env, LABEL_OWNER, owner, true, list)
    requires k < |list| && Tallied(cs, env, owner, exclude, list, k, seen, missed, nanoCPUs, memBytes)
    requires Adds(cs, env, exclude, list[k], true, nano, mem)
    ensures Tallied(cs, env, owner, exclude, list, k + 1, seen', missed, nanoCPUs + nano, memBytes + mem)
  {
    var l := Loc(env, list[k].name);
    SeeOne(cs, env, LABEL_OWNER, owner, true, list, k, seen);
    seen' := seen + {l};
    assert seen' - missed == (seen - missed) + {l};
    WeighOne(cs, seen - missed, env, owner, exclude, Cpu, l);
    WeighOne(cs, seen - missed, env, owner, exclude, Mem, l);
  }

  lemma TallyOne(cs: Containers, env: int, owner: string, exclude: string, list: seq<Summary>, k: nat, seen: set<Loc>,
                 missed: set<Loc>, nanoCPUs: int, memBytes: int, inspected: bool, nano: int, mem: int)
    returns (seen': set<Loc>, missed': set<Loc>)
    requires IsListing(cs, cs.Keys, env, LABEL_OWNER, owner, true, list)
    requires k < |list| && Tallied(cs, env, owner, exclude, list, k, seen, missed, nanoCPUs, memBytes)
    requires Adds(cs, env, exclude, list[k], inspected, nano, mem)
    ensures Tallied(cs, env, owner, exclude, list, k + 1, seen', missed', nanoCPUs + nano, memBytes + mem)
    ensures |missed'| == |missed| + if inspected then 0 else 1
  {
    if inspected {
      seen' := TallyRead(cs, env, owner, exclude, list, k, seen, missed, nanoCPUs, memBytes, nano, mem);
      missed' := missed;
    } else {
      seen', missed' := TallyMiss(cs, env, owner, exclude, list, k, seen, missed, nanoCPUs, memBytes);
    }
  }

  lemma TallyEnds(cs: Containers, env: int, owner: string, exclude: string, list: seq<Summary>, seen: set<Loc>,
                  missed: set<Loc>, nanoCPUs: int, memBytes: int)
    requires IsListing(cs, cs.Keys, env, LABEL_OWNER, owner, true, list)
    requires Tallied(cs, env, owner, exclude, list, |list|, seen, missed, nanoCPUs, memBytes)
    ensures nanoCPUs == UsageBut(cs, missed, env, owner, exclude, Cpu)
    ensures memBytes == UsageBut(cs, missed, env, owner, exclude, Mem)
  {
    SeenAll(cs, env, owner, exclude, list, seen, missed);
  }

  /** Looks one listed container up. */
  method InspectLimits(hosts: Hosts, env: int, ghost owner: string, s: Summary, exclude: string)
    returns (inspected: bool, nanoCPUs: int, memBytes: int)
    requires hosts.Valid() && IsListed(hosts.containers, hosts.containers.Keys, env, LABEL_OWNER, owner, true, s)
    modifies hosts`faults
    ensures hosts.Valid() && hosts.faults == old(hosts.faults) + if inspected then 0 else 1
    ensures Adds(hosts.containers, env, exclude, s, inspected, nanoCPUs, memBytes)
  {
    var info := hosts.Inspect(env, s.id);
    if info.None? { return false, 0, 0; }
    assert IdsApart(hosts.containers, Loc(env, s.name), Loc(env, info.value.0));
    var c := info.value.1;
    if exclude != "" && HasLabel(c, LABEL_SERVICE, exclude) { return true, 0, 0; }
    return true, c.spec.nanoCPUs, c.spec.memoryBytes;
  }

  /** Sums the limits of the owner's containers, except one service's replicas. A container that
      cannot be inspected is skipped, so every failed call hides at most one container. */
  method OwnerUsageExcludingService(hosts: Hosts, env: int, owner: string, exclude: string)
    returns (ok: bool, nanoCPUs: int, memBytes: int, ghost missed: set<Loc>)
    requires hosts.Valid()
    modifies hosts`faults
    ensures hosts.Valid() && |missed| <= hosts.faults - old(hosts.faults)
    ensures !ok ==> hosts.faults > old(hosts.faults)
    ensures ok ==>
      && nanoCPUs == UsageBut(hosts.containers, missed, env, owner, exclude, Cpu)
      && memBytes == UsageBut(hosts.containers, missed, env, owner, exclude, Mem)
    ensures hosts.faults == old(hosts.faults) ==> missed == {}
  {
    var list;
    missed := {};
    ghost var cs := hosts.containers;
    nanoCPUs, memBytes := 0, 0;
    ok, list := hosts.ListByLabel(env, LABEL_OWNER, owner, true);
    if !ok { return; }
    ghost var seen: set<Loc> := {};
    TallyStarts(cs, env, owner, exclude, list);
    for k := 0 to |list|
      invariant hosts.Valid() && |missed| <= hosts.faults - old(hosts.faults)
      invariant Tallied(cs, env, owner, exclude, list, k, seen, missed, nanoCPUs, memBytes)
    {
      assert list[k] in list;
      var inspected, nano, mem := InspectLimits(hosts, env, owner, list[k], exclude);
      seen, missed := TallyOne(cs, env, owner, exclude, list, k, seen, missed, nanoCPUs, memBytes, inspected,
                               nano, mem);
      nanoCPUs, memBytes := nanoCPUs + nano, memBytes + mem;
    }
    TallyEnds(cs, env, owner, exclude, list, seen, missed, nanoCPUs, memBytes);
  }

  // -------------------------------------------------------------- a service's share

  /** All of the service's containers are among replicas 0..m-1 and within its limits. */
  ghost predicate Fits(cs: Containers, svc: Service, m: nat) { forall l :: FitsAt(cs, svc, m, l) }

  ghost predicate FitsAt(cs: Containers, svc: Service, m: nat, l: Loc) {
    Owned(cs, svc, l) ==> IsPlace(svc, m, l) && forall r :: Limit(cs[l], r) <= PerReplica(svc, r) * Unit(r)
  }

  /** The owner's containers that are replicas of the service. */
  ghost function OwnCounted(cs: Containers, svc: Service, owner: string): set<Loc> {
    set l | l in cs && Counted(cs, svc.endpointID, owner, "", l) && Owned(cs, svc, l)
  }

  ghost function OwnUsage(cs: Containers, svc: Service, owner: string, r: Resource): int {
    Sum(OwnCounted(cs, svc, owner), LimitsIn(cs, r))
  }

  lemma UsageSplits(cs: Containers, svc: Service, owner: string, r: Resource)
    requires svc.name != ""
    ensures Usage(cs, svc.endpointID, owner, "", r)
         == Usage(cs, svc.endpointID, owner, svc.name, r) + OwnUsage(cs, svc, owner, r)
  {
    var all, own := CountedIn(cs, cs.Keys, svc.endpointID, owner, ""), OwnCounted(cs, svc, owner);
    SumSplit(all, own, LimitsIn(cs, r));
    assert all * own == own;
    assert all - own == CountedIn(cs, cs.Keys, svc.endpointID, owner, svc.name);
  }

  lemma OwnShareBounded(cs: Containers, svc: Service, owner: string, m: nat, r: Resource)
    requires Fits(cs, svc, m) && PerReplica(svc, r) >= 0
    ensures OwnUsage(cs, svc, owner, r) <= m * (PerReplica(svc, r) * Unit(r))
  {
    var own, each := OwnCounted(cs, svc, owner), PerReplica(svc, r) * Unit(r);
    forall l | l in own ensures LimitsIn(cs, r)(l) <= each { assert FitsAt(cs, svc, m, l); }
    SumAtMost(own, LimitsIn(cs, r), each);
    var places := seq(m, i requires 0 <= i < m => At(svc, i));
    forall i, j | 0 <= i < j < m ensures places[i] != places[j] { DistinctPlaces(svc, i, j); }
    DistinctCount(places, m);
    assert places[..m] == places;
    forall l | l in own ensures l in Members(places) {
      assert FitsAt(cs, svc, m, l);
      var i := PlaceIndex(svc, m, l);
      assert places[i] == l;
    }
    SubsetSize(own, Members(places));
    MulMonotone(|own|, m, each);
  }

  /** The service has exactly replicas 0..m-1 there, all of them the owner's and at its limits. */
  ghost predicate AtLimits(cs: Containers, svc: Service, owner: string, m: nat) {
    forall l :: AtLimitsAt(cs, svc, owner, m, l)
  }

  ghost predicate AtLimitsAt(cs: Containers, svc: Service, owner: string, m: nat, l: Loc) {
    && (Owned(cs, svc, l) <==> IsPlace(svc, m, l))
    && (Owned(cs, svc, l) ==>
          HasLabel(cs[l], LABEL_OWNER, owner) && forall r :: Limit(cs[l], r) == PerReplica(svc, r) * Unit(r))
  }

  lemma OwnShareExact(cs: Containers, svc: Service, owner: string, m: nat, r: Resource)
    requires AtLimits(cs, svc, owner, m)
    ensures OwnUsage(cs, svc, owner, r) == m * (PerReplica(svc, r) * Unit(r))
  {
    var own := OwnCounted(cs, svc, owner);
    var places := seq(m, i requires 0 <= i < m => At(svc, i));
    forall i, j | 0 <= i < j < m ensures places[i] != places[j] { DistinctPlaces(svc, i, j); }
    DistinctCount(places, m);
    assert places[..m] == places;
    forall l ensures l in own <==> l in Members(places) {
      assert AtLimitsAt(cs, svc, owner, m, l);
      if l in own {
        var i := PlaceIndex(svc, m, l);
        assert places[i] == l;
      }
      if l in Members(places) {
        var i :| 0 <= i < m && places[i] == l;
        PlaceOfIndex(svc, m, i);
      }
    }
    assert own == Members(places);
    forall l | l in own
      ensures LimitsIn(cs, r)(l) == PerReplica(svc, r) * Unit(r)
    {
      assert AtLimitsAt(cs, svc, owner, m, l);
    }
    SumConstant(own, LimitsIn(cs, r), PerReplica(svc, r) * Unit(r));
  }

  /** Whoever the replicas of the service are, the rest of the owner's containers weigh the same. */
  ghost predicate RestKept(before: Containers, after: Containers, svc: Service) {
    forall l :: RestKeptAt(before, after, svc, l)
  }

  predicate RestKeptAt(before: Containers, after: Containers, svc: Service, l: Loc) {
    Unchanged(before, after, l) || ((l in before ==> Owned(before, svc, l)) && (l in after ==> Owned(after, svc, l)))
  }

  lemma RestWeighsTheSame(before: Containers, after: Containers, svc: Service, owner: string, r: Resource)
    requires svc.name != "" && RestKept(before, after, svc)
    ensures Usage(after, svc.endpointID, owner, svc.name, r) == Usage(before, svc.endpointID, owner, svc.name, r)
  {
    var env := svc.endpointID;
    var w := CountedIn(before, before.Keys, env, owner, svc.name);
    var w' := CountedIn(after, after.Keys, env, owner, svc.name);
    forall l
      ensures (l in w <==> l in w') && (l in w ==> after[l] == before[l])
    {
      assert RestKeptAt(before, after, svc, l);
    }
    assert w == w';
    SumSame(w, LimitsIn(before, r), LimitsIn(after, r));
  }

  // ------------------------------------------- what the operations do to the share

  /** The same service at another count or image, with at most m replicas and the same limits. */
  ghost predicate Version(s: Service, svc: Service, m: nat) {
    && s.name == svc.name && s.endpointID == svc.endpointID && s.cpuMilli == svc.cpuMilli && s.memMB == svc.memMB
    && LabelsFree(s) && Count(s) <= m
  }

  lemma VersionFits(svc: Service, s: Service, m: nat, i: int64, c: Container, l: Loc)
    requires Version(s, svc, m) && 0 <= i < Count(s) && l == At(s, i)
    requires c == Created(c.id, ReplicaSpec(s, i), c.running)
    ensures IsPlace(svc, m, l) && IsReplica(c, svc.name) && forall r :: Limit(c, r) <= PerReplica(svc, r) * Unit(r)
  {
    assert l == At(svc, i);
    NewCorresponds(s, i, c);
  }

  /** Reconciling to any count up to m, however far it comes, keeps the service within m replicas. */
  lemma ReconcileFits(before: Containers, after: Containers, svc: Service, s: Service, m: nat)
    requires Version(s, svc, m) && NothingLost(before, after, s) && Fits(before, svc, m)
    ensures Fits(after, svc, m) && RestKept(before, after, svc)
  {
    forall l ensures FitsAt(after, svc, m, l) && RestKeptAt(before, after, svc, l) {
      assert NotLost(before, after, s, l) && FitsAt(before, svc, m, l);
      if l in after && l !in before {
        var i: int64 :| 0 <= i < Count(s) && l == At(s, i)
                     && after[l] == Created(after[l].id, ReplicaSpec(s, i), after[l].running);
        VersionFits(svc, s, m, i, after[l], l);
      }
    }
  }

  /** So does every moment of a rollout. */
  lemma RolloutFits(before: Containers, after: Containers, svc: Service, s: Service, m: nat, i: int64)
    requires Version(s, svc, m) && Corresponds(before, s) && Stage(before, after, s, i) && Fits(before, svc, m)
    ensures Fits(after, svc, m) && RestKept(before, after, svc)
  {
    forall l ensures FitsAt(after, svc, m, l) && RestKeptAt(before, after, svc, l) {
      assert Apart(before, after, s, l) && FitsAt(before, svc, m, l);
      if IsPlace(s, Count(s), l) {
        var j := PlaceIndex(s, Count(s), l);
        assert RolledAt(before, after, s, i, j) && Named(before, s, j);
        if l in after && !Unchanged(before, after, l) { VersionFits(svc, s, m, j, after[l], l); }
      }
    }
  }

  /** A finished rollout leaves exactly the desired replicas, at the new limits. */
  lemma RolledOverFits(before: Containers, after: Containers, svc: Service)
    requires RolledOver(before, after, svc) && Corresponds(before, svc)
    ensures Fits(after, svc, Count(svc)) && RestKept(before, after, svc)
  {
    forall l ensures FitsAt(after, svc, Count(svc), l) && RestKeptAt(before, after, svc, l) {
      assert RolledOther(before, after, svc, l) && OwnedIffPlaced(after, svc, Count(svc), l);
      if IsPlace(svc, Count(svc), l) {
        var i := PlaceIndex(svc, Count(svc), l);
        assert NewAt(after, svc, i) && Named(before, svc, i);
      }
    }
  }

  // ------------------------------------------------------------------ the check

  /** The check of enforceServiceQuota, for one resource: need replicas on top of the usage. */
  predicate RoomFor(used: int, quota: int, need: int, each: int, r: Resource) {
    Quot(used, Unit(r)) + need * each <= quota
  }

  /** In the resource's own units: within quota, if the usage is a whole number of quota units, and
      else by less than one unit over. */
  predicate WithinQuota(used: int, quota: int, whole: bool, r: Resource) {
    used < (quota + 1) * Unit(r) && (whole ==> used <= quota * Unit(r))
  }

  lemma RoomIsEnough(used: int, quota: int, need: nat, each: int, r: Resource, total: int)
    requires 0 <= used && RoomFor(used, quota, need, each, r) && total <= used + need * (each * Unit(r))
    ensures WithinQuota(total, quota, Whole(used, r), r)
  {
    var u, q := Unit(r), used / Unit(r);
    assert used == q * u + used % u;
    assert need * (each * u) == (need * each) * u;
    MulMonotone(q + need * each, quota, u);
    assert (q + need * each) * u == q * u + (need * each) * u;
    assert (quota + 1) * u == quota * u + u;
  }

  /** The rounding of the check is harmless: there is nothing to round, or a whole unit to spare. */
  predicate Snug(used: int, quota: int, need: int, each: int, r: Resource) {
    Whole(used, r) || used / Unit(r) + need * each < quota
  }

  /** Exactly: need replicas at their limits fit beside the usage, in the resource's own units, if and
      only if the check passes and its rounding is harmless. */
  lemma FitsIffSnug(used: int, quota: int, need: nat, each: int, r: Resource)
    requires 0 <= used
    ensures used + need * (each * Unit(r)) <= quota * Unit(r)
       <==> RoomFor(used, quota, need, each, r) && Snug(used, quota, need, each, r)
  {
    var u, q, n := Unit(r), used / Unit(r), need * each;
    assert used == q * u + used % u && 0 <= used % u < u;
    assert need * (each * u) == n * u;
    assert (q + n) * u == q * u + n * u;
    if q + n < quota {
      MulMonotone(q + n + 1, quota, u);
      assert (q + n + 1) * u == (q + n) * u + u;
    } else if q + n > quota {
      MulMonotone(quota + 1, q + n, u);
      assert (quota + 1) * u == quota * u + u;
    }
  }

  /** Limits on the host are not negative. */
  ghost predicate SaneLimits(cs: Containers) { forall l :: SaneAt(cs, l) }

  ghost predicate SaneAt(cs: Containers, l: Loc) { l in cs ==> forall r :: Limit(cs[l], r) >= 0 }

  predicate Whole(x: int, r: Resource) { x % Unit(r) == 0 }

  /** Every limit the owner has on the host is a whole number of quota units. */
  ghost predicate WholeLimits(cs: Containers, env: int, owner: string) { forall l :: WholeAt(cs, env, owner, l) }

  ghost predicate WholeAt(cs: Containers, env: int, owner: string, l: Loc) {
    l in cs && Counted(cs, env, owner, "", l) ==> forall r :: Whole(Limit(cs[l], r), r)
  }

  lemma UsageIsSane(cs: Containers, env: int, owner: string, exclude: string, r: Resource)
    requires SaneLimits(cs)
    ensures 0 <= Usage(cs, env, owner, exclude, r)
    ensures Usage(cs, env, owner, exclude, r) <= Usage(cs, env, owner, "", r)
  {
    var w, all := CountedIn(cs, cs.Keys, env, owner, exclude), CountedIn(cs, cs.Keys, env, owner, "");
    var f := LimitsIn(cs, r);
    forall l ensures BelowAt({}, f, w, f, l) && BelowAt(w, f, all, f, l) { assert SaneAt(cs, l); }
    SumMonotone({}, f, w, f);
    SumMonotone(w, f, all, f);
  }

  lemma {:induction false} SumWhole(s: set<Loc>, f: Loc -> int, r: Resource)
    requires forall l :: l in s ==> Whole(f(l), r)
    ensures Whole(Sum(s, f), r)
    decreases |s|
  {
    if s != {} {
      var l :| l in s;
      SumRemove(s, f, l);
      SumWhole(s - {l}, f, r);
      WholeSum(f(l), Sum(s - {l}, f), r);
    }
  }

  lemma WholeSum(a: int, b: int, r: Resource)
    requires Whole(a, r) && Whole(b, r)
    ensures Whole(a + b, r)
  {
    if r == Cpu { WholeMillis(a, b); } else { WholeMegabytes(a, b); }
  }

  lemma WholeMillis(a: int, b: int)
    requires a % NANO_PER_MILLI == 0 && b % NANO_PER_MILLI == 0
    ensures (a + b) % NANO_PER_MILLI == 0
  {
  }

  lemma WholeMegabytes(a: int, b: int)
    requires a % BYTES_PER_MB == 0 && b % BYTES_PER_MB == 0
    ensures (a + b) % BYTES_PER_MB == 0
  {
  }

  lemma UsageIsWhole(cs: Containers, env: int, owner: string, exclude: string, r: Resource)
    requires WholeLimits(cs, env, owner)
    ensures Whole(Usage(cs, env, owner, exclude, r), r)
  {
    var w := CountedIn(cs, cs.Keys, env, owner, exclude);
    forall l | l in w ensures Whole(LimitsIn(cs, r)(l), r) { assert WholeAt(cs, env, owner, l); }
    SumWhole(w, LimitsIn(cs, r), r);
  }

  /** The quota check is sound: with room for m replicas beside the containers counted before, the
      owner's total stays within quota once the service has at most m replicas there, whatever
      became of the ones it had. exclude is the service itself when it is edited. */
  lemma CheckedTotal(before: Containers, after: Containers, svc: Service, owner: string, exclude: string, quota: int,
                     m: nat, r: Resource)
    requires svc.name != "" && (exclude == "" || exclude == svc.name) && PerReplica(svc, r) >= 0
    requires SaneLimits(before) && RestKept(before, after, svc) && Fits(after, svc, m)
    requires RoomFor(Usage(before, svc.endpointID, owner, exclude, r), quota, m, PerReplica(svc, r), r)
    ensures WithinQuota(Usage(after, svc.endpointID, owner, "", r), quota,
                        WholeLimits(before, svc.endpointID, owner), r)
  {
    var env, used := svc.endpointID, Usage(before, svc.endpointID, owner, exclude, r);
    UsageIsSane(before, env, owner, exclude, r);
    UsageIsSane(before, env, owner, svc.name, r);
    RestWeighsTheSame(before, after, svc, owner, r);
    UsageSplits(after, svc, owner, r);
    OwnShareBounded(after, svc, owner, m, r);
    RoomIsEnough(used, quota, m, PerReplica(svc, r), r, Usage(after, env, owner, "", r));
    if WholeLimits(before, env, owner) { UsageIsWhole(before, env, owner, exclude, r); }
  }

  // ------------------------------------------------ when exactly the check is enough

  /** What the check weighs: the rest, if the service is left out or was not there. */
  lemma CheckedUsage(before: Containers, svc: Service, owner: string, exclude: string, r: Resource)
    requires svc.name != "" && (exclude == svc.name || (exclude == "" && NoneThere(before, svc)))
    ensures Usage(before, svc.endpointID, owner, exclude, r) == Usage(before, svc.endpointID, owner, svc.name, r)
  {
    if exclude == "" {
      UsageSplits(before, svc, owner, r);
      assert OwnCounted(before, svc, owner) == {};
    }
  }

  /** Exactly: once the service has m replicas at its limits, the owner's total on its host is within
      quota if and only if the check, made on that host, passes for m replicas and its rounding is
      harmless. */
  lemma WithinIffChecked(before: Containers, after: Containers, svc: Service, owner: string, exclude: string,
                         quota: int, m: nat, r: Resource)
    requires svc.name != "" && (exclude == svc.name || (exclude == "" && NoneThere(before, svc)))
    requires SaneLimits(before) && RestKept(before, after, svc) && AtLimits(after, svc, owner, m)
    ensures Usage(after, svc.endpointID, owner, "", r) <= quota * Unit(r)
       <==> RoomFor(Usage(before, svc.endpointID, owner, exclude, r), quota, m, PerReplica(svc, r), r)
            && Snug(Usage(before, svc.endpointID, owner, exclude, r), quota, m, PerReplica(svc, r), r)
  {
    CheckedUsage(before, svc, owner, exclude, r);
    RestWeighsTheSame(before, after, svc, owner, r);
    UsageSplits(after, svc, owner, r);
    OwnShareExact(after, svc, owner, m, r);
    UsageIsSane(before, svc.endpointID, owner, exclude, r);
    FitsIffSnug(Usage(before, svc.endpointID, owner, exclude, r), quota, m, PerReplica(svc, r), r);
  }

  /** The stored options leave the owner's label alone. */
  predicate OwnerFree(svc: Service) { svc.owner != "" && LABEL_OWNER !in svc.advanced.labels }

  lemma NewAtLimits(svc: Service, i: int64, c: Container)
    requires 0 <= i && OwnerFree(svc) && c == Created(c.id, ReplicaSpec(svc, i), c.running)
    ensures HasLabel(c, LABEL_OWNER, svc.owner) && forall r :: Limit(c, r) == PerReplica(svc, r) * Unit(r)
  {
  }

  /** An update ends with the new replicas at the new limits. */
  lemma RolledOverAtLimits(before: Containers, after: Containers, svc: Service)
    requires OwnerFree(svc) && RolledOver(before, after, svc)
    ensures AtLimits(after, svc, svc.owner, Count(svc))
  {
    forall l ensures AtLimitsAt(after, svc, svc.owner, Count(svc), l) {
      assert OwnedIffPlaced(after, svc, Count(svc), l);
      if IsPlace(svc, Count(svc), l) {
        var i := PlaceIndex(svc, Count(svc), l);
        assert NewAt(after, svc, i);
        NewAtLimits(svc, i, after[l]);
      }
    }
  }

  /** So does the creation of a service that had no container. */
  lemma CreatedAtLimits(before: Containers, after: Containers, svc: Service)
    requires OwnerFree(svc) && Corresponds(before, svc) && Reconciled(before, after, svc)
    requires NoneThere(before, svc)
    ensures AtLimits(after, svc, svc.owner, Count(svc))
  {
    forall l ensures AtLimitsAt(after, svc, svc.owner, Count(svc), l) {
      assert OwnedIffPlaced(after, svc, Count(svc), l);
      if IsPlace(svc, Count(svc), l) {
        var i := PlaceIndex(svc, Count(svc), l);
        assert Placed(before, after, svc, i) && Named(before, svc, i);
        NewAtLimits(svc, i, after[l]);
      }
    }
  }

  // -- where the check lets the owner over quota

  /** Service "s" of member "u" on the local host: one replica. */
  function Sample(cpuMilli: int): Service {
    Service("s", "u", "image", "", 0, "", [], cpuMilli, 1, 1, 1, 1, false, 70, "", "", "", "", "",
            AdvancedSpec([], map[], ""), 0)
  }

  function SampleSet(cpuMilli: int, id: nat): Containers {
    var svc := Sample(cpuMilli);
    map[At(svc, 0) := Created(id, ReplicaSpec(svc, 0), true)]
  }

  lemma SamplePlaces(cpuMilli: int, l: Loc)
    ensures IsPlace(Sample(cpuMilli), 1, l) <==> l == At(Sample(cpuMilli), 0)
  {
    PlaceOfIndex(Sample(cpuMilli), 1, 0);
  }

  /** A container with half a milli-CPU, and a service of one milli-CPU: the check passes for a quota
      of one milli-CPU, and the owner ends up half a milli-CPU over it. */
  lemma OvershootHappens() returns (before: Containers, after: Containers)
    ensures var svc := Sample(1);
            && Corresponds(before, svc) && Reconciled(before, after, svc) && SaneLimits(before)
            && RoomFor(Usage(before, 0, "u", "", Cpu), 1, 1, 1, Cpu)
            && Usage(after, 0, "u", "", Cpu) == 1 * Unit(Cpu) + 500_000
  {
    var svc, plain := Sample(1), AdvancedSpec([], map[], "");
    var spec := DeploySpec("x", "image", [], "", 0, "", "u", 500_000, 0, map[], plain);
    var x, c := Loc(0, "x"), Created(0, spec, true);
    before := map[][x := c];
    after := before[At(svc, 0) := Created(1, ReplicaSpec(svc, 0), true)];
    NoReplicaIsX(0);
    NewCorresponds(svc, 0, after[At(svc, 0)]);
    SampleReconciled(before, after, x, c);
    NewAtLimits(svc, 0, after[At(svc, 0)]);
    UsageOfUpdate(map[], x, c, 0, "u", Cpu);
    UsageOfUpdate(before, At(svc, 0), after[At(svc, 0)], 0, "u", Cpu);
    assert CountedIn(map[], {}, 0, "u", "") == {};
  }

  lemma NoReplicaIsX(i: nat)
    ensures ReplicaName("s", i) != "x"
  {
    assert ReplicaName("s", i)[0] == 's';
  }

  lemma SampleReconciled(before: Containers, after: Containers, x: Loc, c: Container)
    requires var svc := Sample(1);
             && before == map[x := c] && x.name == "x" && LABEL_SERVICE !in c.labels
             && c.spec.memoryBytes >= 0 && c.spec.nanoCPUs >= 0
             && after == before[At(svc, 0) := Created(1, ReplicaSpec(svc, 0), true)]
    ensures Corresponds(before, Sample(1)) && Reconciled(before, after, Sample(1)) && SaneLimits(before)
  {
    var svc := Sample(1);
    NoReplicaIsX(0);
    NewCorresponds(svc, 0, after[At(svc, 0)]);
    forall l ensures Labelled(before, svc, l) && SaneAt(before, l) { }
    forall i: nat ensures Named(before, svc, i) {
      NoReplicaIsX(i);
    }
    forall l ensures NotLost(before, after, svc, l) && OwnedIffPlaced(after, svc, Count(svc), l) { SamplePlaces(1, l); }
    assert Placed(before, after, svc, 0);
  }

  // ------------------------------------------------------------- the reservation

  /** Something else happened: the service got no new container, and the rest of the owner's
      containers weigh no more than before. */
  ghost predicate Elsewhere(before: Containers, after: Containers, svc: Service, owner: string) {
    && (forall l :: Owned(after, svc, l) ==> Unchanged(before, after, l))
    && forall r :: RestNoHeavier(before, after, svc, owner, r)
  }

  ghost predicate RestNoHeavier(before: Containers, after: Containers, svc: Service, owner: string, r: Resource) {
    Usage(after, svc.endpointID, owner, svc.name, r) <= Usage(before, svc.endpointID, owner, svc.name, r)
  }

  /** One step of the service's life: a reconciliation to some count up to m that may have failed
      anywhere, a moment of a rolling redeployment, or something else. */
  ghost predicate LifeStep(before: Containers, after: Containers, svc: Service, owner: string, m: nat) {
    || (exists s :: Version(s, svc, m) && NothingLost(before, after, s))
    || (exists s, i: int64 :: Version(s, svc, m) && Corresponds(before, s) && Stage(before, after, s, i))
    || Elsewhere(before, after, svc, owner)
  }

  lemma LifeStepFits(before: Containers, after: Containers, svc: Service, owner: string, m: nat, r: Resource)
    requires svc.name != "" && LifeStep(before, after, svc, owner, m) && Fits(before, svc, m)
    ensures Fits(after, svc, m) && RestNoHeavier(before, after, svc, owner, r)
  {
    if s :| Version(s, svc, m) && NothingLost(before, after, s) {
      ReconcileFits(before, after, svc, s, m);
      RestWeighsTheSame(before, after, svc, owner, r);
    } else if s, i: int64 :| Version(s, svc, m) && Corresponds(before, s) && Stage(before, after, s, i) {
      RolloutFits(before, after, svc, s, m, i);
      RestWeighsTheSame(before, after, svc, owner, r);
    } else {
      assert RestNoHeavier(before, after, svc, owner, r);
      forall l ensures FitsAt(after, svc, m, l) { assert FitsAt(before, svc, m, l); }
    }
  }

  // -- what the others do

  /** The owner's containers there have no negative limits. */
  ghost predicate SaneFor(cs: Containers, env: int, owner: string) { forall l :: SaneForAt(cs, env, owner, l) }

  ghost predicate SaneForAt(cs: Containers, env: int, owner: string, l: Loc) {
    l in cs && Counted(cs, env, owner, "", l) ==> forall r :: Limit(cs[l], r) >= 0
  }

  /** The owner got no container there beside the service's. */
  ghost predicate NoneAdded(before: Containers, after: Containers, svc: Service, owner: string) {
    forall l :: NotAddedAt(before, after, svc, owner, l)
  }

  predicate NotAddedAt(before: Containers, after: Containers, svc: Service, owner: string, l: Loc) {
    l in after && Counted(after, svc.endpointID, owner, svc.name, l) ==>
      l in before && Counted(before, svc.endpointID, owner, svc.name, l) && after[l].spec == before[l].spec
  }

  /** Something beside the service: its containers are what they were, and its owner got no others. */
  ghost predicate Beside(before: Containers, after: Containers, svc: Service, owner: string) {
    Untouched(before, after, svc) && NoneAdded(before, after, svc, owner)
  }

  lemma BesideIsElsewhere(before: Containers, after: Containers, svc: Service, owner: string)
    requires Beside(before, after, svc, owner) && SaneFor(before, svc.endpointID, owner)
    ensures Elsewhere(before, after, svc, owner) && SaneFor(after, svc.endpointID, owner)
  {
    var env := svc.endpointID;
    forall l ensures Owned(after, svc, l) ==> Unchanged(before, after, l) { assert UntouchedAt(before, after, svc, l); }
    forall r ensures RestNoHeavier(before, after, svc, owner, r) {
      NoneAddedWeighsNoMore(before, after, svc, owner, r);
    }
    forall l ensures SaneForAt(after, env, owner, l) {
      assert UntouchedAt(before, after, svc, l) && NotAddedAt(before, after, svc, owner, l);
      assert SaneForAt(before, env, owner, l);
      if l in after && Counted(after, env, owner, "", l) {
        assert l in before && after[l].spec == before[l].spec && Counted(before, env, owner, "", l);
        forall r ensures Limit(after[l], r) >= 0 { assert Limit(before[l], r) >= 0; }
      }
    }
  }

  lemma NoneAddedWeighsNoMore(before: Containers, after: Containers, svc: Service, owner: string, r: Resource)
    requires NoneAdded(before, after, svc, owner) && SaneFor(before, svc.endpointID, owner)
    ensures RestNoHeavier(before, after, svc, owner, r)
  {
    var env := svc.endpointID;
    var w := CountedIn(before, before.Keys, env, owner, svc.name);
    var w' := CountedIn(after, after.Keys, env, owner, svc.name);
    forall l ensures BelowAt(w', LimitsIn(after, r), w, LimitsIn(before, r), l) {
      assert NotAddedAt(before, after, svc, owner, l) && SaneForAt(before, env, owner, l);
    }
    SumMonotone(w', LimitsIn(after, r), w, LimitsIn(before, r));
  }

  /** Another service, whose new containers do not count for the owner there: it is on another host,
      or somebody else's. */
  predicate Neighbour(other: Service, svc: Service, owner: string) {
    && other.name != svc.name
    && (other.endpointID != svc.endpointID || (other.owner != owner && LABEL_OWNER !in other.advanced.labels))
  }

  /** Reconciling a neighbour, however far it comes, is beside the service. */
  lemma NeighbourIsBeside(before: Containers, after: Containers, other: Service, svc: Service, owner: string)
    requires Neighbour(other, svc, owner) && LabelsFree(other) && NothingLost(before, after, other)
    ensures Beside(before, after, svc, owner)
  {
    ReconcileSparesOthers(before, after, other, svc);
    forall l ensures NotAddedAt(before, after, svc, owner, l) {
      assert NotLost(before, after, other, l);
      if l in after && l !in before { MadeIsNotCounted(after, other, svc, owner, l); }
    }
  }

  lemma MadeIsNotCounted(cs: Containers, other: Service, svc: Service, owner: string, l: Loc)
    requires Neighbour(other, svc, owner) && l in cs && IsMade(cs[l], other, Count(other), l)
    ensures !Counted(cs, svc.endpointID, owner, svc.name, l)
  {
    var i: int64 :| 0 <= i < Count(other) && l == At(other, i)
                 && cs[l] == Created(cs[l].id, ReplicaSpec(other, i), cs[l].running);
    assert cs[l].labels == LabelsOf(ReplicaSpec(other, i));
  }

  lemma ReconcileKeepsSane(before: Containers, after: Containers, svc: Service, s: Service, m: nat, owner: string)
    requires Version(s, svc, m) && NothingLost(before, after, s) && svc.cpuMilli >= 0 && svc.memMB >= 0
    requires SaneFor(before, svc.endpointID, owner)
    ensures SaneFor(after, svc.endpointID, owner)
  {
    forall l ensures SaneForAt(after, svc.endpointID, owner, l) {
      assert NotLost(before, after, s, l) && SaneForAt(before, svc.endpointID, owner, l);
      if l in after && l !in before {
        var i: int64 :| 0 <= i < Count(s) && l == At(s, i)
                     && after[l] == Created(after[l].id, ReplicaSpec(s, i), after[l].running);
        assert after[l].spec.nanoCPUs >= 0 && after[l].spec.memoryBytes >= 0;
      } else if l in after && Counted(after, svc.endpointID, owner, "", l) {
        forall r ensures Limit(after[l], r) >= 0 { assert Limit(before[l], r) >= 0; }
      }
    }
  }

  ghost predicate LifeStepAt(states: seq<Containers>, svc: Service, owner: string, m: nat, k: nat)
    requires k + 1 < |states|
  {
    LifeStep(states[k], states[k + 1], svc, owner, m)
  }

  ghost predicate Life(states: seq<Containers>, svc: Service, owner: string, m: nat) {
    forall k :: 0 <= k < |states| - 1 ==> LifeStepAt(states, svc, owner, m, k)
  }

  lemma {:induction false} LifeFits(states: seq<Containers>, svc: Service, owner: string, m: nat, r: Resource, k: nat)
    requires svc.name != "" && k < |states| && Life(states, svc, owner, m) && Fits(states[0], svc, m)
    ensures Fits(states[k], svc, m) && RestNoHeavier(states[0], states[k], svc, owner, r)
    decreases k
  {
    if k > 0 {
      LifeFits(states, svc, owner, m, r, k - 1);
      assert LifeStepAt(states, svc, owner, m, k - 1);
      LifeStepFits(states[k - 1], states[k], svc, owner, m, r);
    }
  }

  /** As long as the service fits and the rest has not grown since the check, the owner is within quota. */
  lemma FittingIsWithin(before: Containers, now: Containers, svc: Service, owner: string, exclude: string, quota: int,
                        m: nat, r: Resource)
    requires svc.name != "" && (exclude == "" || exclude == svc.name) && PerReplica(svc, r) >= 0
    requires Fits(now, svc, m) && RestNoHeavier(before, now, svc, owner, r) && SaneLimits(before)
    requires RoomFor(Usage(before, svc.endpointID, owner, exclude, r), quota, m, PerReplica(svc, r), r)
    ensures WithinQuota(Usage(now, svc.endpointID, owner, "", r), quota, WholeLimits(before, svc.endpointID, owner), r)
  {
    var env, used := svc.endpointID, Usage(before, svc.endpointID, owner, exclude, r);
    UsageIsSane(before, env, owner, exclude, r);
    UsageIsSane(before, env, owner, svc.name, r);
    UsageSplits(now, svc, owner, r);
    OwnShareBounded(now, svc, owner, m, r);
    RoomIsEnough(used, quota, m, PerReplica(svc, r), r, Usage(now, env, owner, "", r));
    if WholeLimits(before, env, owner) { UsageIsWhole(before, env, owner, exclude, r); }
  }

  /** The reservation is sufficient: a service that passed the check for m replicas never takes its
      owner over quota, at any point of any run of reconciliations, rollouts and failures with at
      most m replicas, as long as the owner's other containers there do not grow. */
  lemma ReservationSuffices(states: seq<Containers>, svc: Service, owner: string, exclude: string, quota: int, m: nat,
                            r: Resource, k: nat)
    requires svc.name != "" && (exclude == "" || exclude == svc.name) && PerReplica(svc, r) >= 0
    requires k < |states| && Life(states, svc, owner, m) && Fits(states[0], svc, m) && SaneLimits(states[0])
    requires RoomFor(Usage(states[0], svc.endpointID, owner, exclude, r), quota, m, PerReplica(svc, r), r)
    ensures WithinQuota(Usage(states[k], svc.endpointID, owner, "", r), quota,
                        WholeLimits(states[0], svc.endpointID, owner), r)
  {
    LifeFits(states, svc, owner, m, r, k);
    FittingIsWithin(states[0], states[k], svc, owner, exclude, quota, m, r);
  }

  // ------------------------------------------------------------ single containers

  lemma UsageOfUpdate(cs: Containers, l: Loc, c: Container, env: int, owner: string, r: Resource)
    requires l !in cs
    ensures Usage(cs[l := c], env, owner, "", r)
         == Usage(cs, env, owner, "", r) + if l.env == env && HasLabel(c, LABEL_OWNER, owner) then Limit(c, r) else 0
  {
    var after, s := cs[l := c], CountedIn(cs, cs.Keys, env, owner, "");
    WeighOne(after, cs.Keys, env, owner, "", r, l);
    assert after.Keys == cs.Keys + {l};
    assert CountedIn(after, cs.Keys, env, owner, "") == s;
    SumSame(s, LimitsIn(cs, r), LimitsIn(after, r));
  }

  /** Replacing a counted container changes the owner's usage by the difference of the two. */
  lemma UsageOfReplacement(cs: Containers, was: Loc, l: Loc, c: Container, owner: string, r: Resource)
    requires was in cs && l !in cs - {was} && l.env == was.env && HasLabel(c, LABEL_OWNER, owner)
    requires HasLabel(cs[was], LABEL_OWNER, owner)
    ensures Usage((cs - {was})[l := c], was.env, owner, "", r)
         == Usage(cs, was.env, owner, "", r) - Limit(cs[was], r) + Limit(c, r)
  {
    UsageOfUpdate(cs - {was}, was, cs[was], was.env, owner, r);
    assert (cs - {was})[was := cs[was]] == cs;
    UsageOfUpdate(cs - {was}, l, c, was.env, owner, r);
  }
}
