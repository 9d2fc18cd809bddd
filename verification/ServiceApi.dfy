/** The API's handlers for services and containers: requests are normalised and checked against the
    member's quota before the service manager acts on them. */
module ServiceApi {
  import opened Text
  import opened Specs
  import opened Docker
  import opened Replicas
  import opened Quota
  import opened Services
  import Addresses
  import Registry
  import Routing
  import Slug
  import Store
  import Xds

  const EDGE_NETWORK := "easydeploy-edge"

  datatype Request = Request(
    name: string, image: string, subdomain: string, containerPort: int, network: string, env: seq<string>,
    cpuMilli: int, memMB: int, replicas: int64, minReplicas: int64, maxReplicas: int64, autoscale: bool,
    targetCpuPct: int, gitRepo: string, gitBranch: string, gitDockerfile: string, advanced: AdvancedSpec)

  datatype User = User(id: int, name: string, admin: bool, cpuQuotaMilli: int, memQuotaMB: int, diskQuotaMB: int)

  /** Who calls: what the token says, which outlives the user's row. */
  datatype Principal = Principal(userId: int, name: string, admin: bool)

  /** What a member was granted on a remote environment. */
  datatype Grant = Grant(cpuQuotaMilli: int, memQuotaMB: int, diskQuotaMB: int)

  datatype Reason = Failure | NoAccess | NoQuota | NoLimits | Exceeded
  datatype Verdict = Allowed(owner: string) | Refused(reason: Reason)

  // --------------------------------------------------------------- normalisation

  function ClampMin(v: int64, min: int64): int64 { if v < min then min else v }

  function Larger(a: int64, b: int64): int64 { if a > b then a else b }

  ghost predicate Normal(r: Request) {
    && 1 <= r.replicas <= r.maxReplicas && 1 <= r.minReplicas <= r.maxReplicas
    && 0 < r.targetCpuPct && r.gitBranch != "" && r.gitDockerfile != ""
  }

  predicate AtLeast(r: Request, request: Request) {
    request.replicas <= r.replicas && request.minReplicas <= r.minReplicas && request.maxReplicas <= r.maxReplicas
  }

  /** The request with its gaps filled. The counts are raised no further than they must be. */
  function Normalised(request: Request): (req: Request)
    ensures Normal(req) && (Normal(request) ==> req == request)
    ensures req.targetCpuPct == if request.targetCpuPct <= 0 then 70 else request.targetCpuPct
    ensures req.gitBranch == if request.gitBranch == "" then "main" else request.gitBranch
    ensures req.gitDockerfile == if request.gitDockerfile == "" then "Dockerfile" else request.gitDockerfile
    ensures req == request.(replicas := req.replicas, minReplicas := req.minReplicas, maxReplicas := req.maxReplicas,
                            targetCpuPct := req.targetCpuPct, gitBranch := req.gitBranch,
                            gitDockerfile := req.gitDockerfile)
    ensures AtLeast(req, request) && forall r :: Normal(r) && AtLeast(r, request) ==> AtLeast(r, req)
  {
    var replicas, low := Larger(request.replicas, 1), Larger(request.minReplicas, 1);
    request.(replicas := replicas, minReplicas := low,
      maxReplicas := Larger(request.maxReplicas, Larger(replicas, low)),
      targetCpuPct := if request.targetCpuPct <= 0 then 70 else request.targetCpuPct,
      gitBranch := if request.gitBranch == "" then "main" else request.gitBranch,
      gitDockerfile := if request.gitDockerfile == "" then "Dockerfile" else request.gitDockerfile)
  }

  /** The most replicas that the service may have. */
  function Reserved(req: Request): int64 { if req.autoscale then req.maxReplicas else req.replicas }

  /** Fills the gaps of a request and tells for how many replicas room is needed. */
  method Normalise(request: Request) returns (req: Request, effReplicas: int64)
    ensures req == Normalised(request) && effReplicas == Reserved(req)
    ensures effReplicas == if request.autoscale then req.maxReplicas else req.replicas
  {
    req := request;
    req := req.(replicas := ClampMin(req.replicas, 1));
    req := req.(minReplicas := ClampMin(req.minReplicas, 1));
    req := req.(maxReplicas := ClampMin(req.maxReplicas, req.replicas));
    if req.maxReplicas < req.minReplicas { req := req.(maxReplicas := req.minReplicas); }
    if req.targetCpuPct <= 0 { req := req.(targetCpuPct := 70); }
    if req.gitBranch == "" { req := req.(gitBranch := "main"); }
    if req.gitDockerfile == "" { req := req.(gitDockerfile := "Dockerfile"); }
    effReplicas := req.replicas;
    if req.autoscale && req.maxReplicas > effReplicas { effReplicas := req.maxReplicas; }
  }

  /** Each column that a request sets holds the request's own field. */
  predicate AsRequested(row: Service, req: Request) {
    && row.image == req.image && row.subdomain == req.subdomain && row.containerPort == req.containerPort
    && row.network == (if req.network == "" then "easydeploy-edge" else req.network)
    && row.env == req.env && row.cpuMilli == req.cpuMilli && row.memMB == req.memMB
    && row.replicas == req.replicas && row.minReplicas == req.minReplicas && row.maxReplicas == req.maxReplicas
    && row.autoscale == req.autoscale && row.targetCpuPct == req.targetCpuPct
    && row.gitRepo == req.gitRepo && row.gitBranch == req.gitBranch && row.gitDockerfile == req.gitDockerfile
    && row.advanced == req.advanced
  }

  predicate RowCreated(row: Service, req: Request, owner: string, token: string, env: int) {
    && AsRequested(row, req) && row.name == req.name && row.owner == owner && row.webhookToken == token
    && row.lastImage == "" && row.endpointID == env
  }

  /** An edit changes none of the columns that a request does not set. */
  predicate RowUpdated(row: Service, cur: Service, req: Request) {
    && AsRequested(row, req) && row.name == cur.name && row.owner == cur.owner && row.webhookToken == cur.webhookToken
    && row.lastImage == cur.lastImage && row.endpointID == cur.endpointID
  }

  /** The row that a request asks for. */
  function RowOf(req: Request, owner: string, token: string, env: int): (row: Service)
    ensures RowCreated(row, req, owner, token, env)
  {
    Service(req.name, owner, req.image, req.subdomain, req.containerPort,
            if req.network == "" then EDGE_NETWORK else req.network, req.env, req.cpuMilli, req.memMB,
            req.replicas, req.minReplicas, req.maxReplicas, req.autoscale, req.targetCpuPct,
            req.gitRepo, req.gitBranch, req.gitDockerfile, token, "", req.advanced, env)
  }

  // ---------------------------------------------------------------------- quotas

  /** A member's CPU and memory quota on a host, if the member may use it at all. */
  function QuotaOn(u: User, grants: map<(int, int), Grant>, env: int): Option<(int, int)> {
    if env == 0 then Some((u.cpuQuotaMilli, u.memQuotaMB))
    else if (u.id, env) in grants then Some((grants[(u.id, env)].cpuQuotaMilli, grants[(u.id, env)].memQuotaMB))
    else None
  }

  function QuotaFor(q: (int, int), r: Resource): int { if r == Cpu then q.0 else q.1 }

  function Each(cpuMilli: int, memMB: int, r: Resource): int { if r == Cpu then cpuMilli else memMB }

  /** There is room for that many replicas beside what the owner has on the host. */
  ghost predicate HasRoom(cs: Containers, env: int, owner: string, exclude: string, q: (int, int), replicas: int,
                          cpuMilli: int, memMB: int)
  {
    forall r :: RoomFor(Usage(cs, env, owner, exclude, r), QuotaFor(q, r), replicas, Each(cpuMilli, memMB, r), r)
  }

  /** The same beside those of the owner's containers that were not missed. */
  ghost predicate HasRoomBut(cs: Containers, missed: set<Loc>, env: int, owner: string, exclude: string, q: (int, int),
                             replicas: int, cpuMilli: int, memMB: int)
  {
    forall r :: RoomFor(UsageBut(cs, missed, env, owner, exclude, r), QuotaFor(q, r), replicas,
                        Each(cpuMilli, memMB, r), r)
  }

  lemma RoomWithNoneMissed(cs: Containers, env: int, owner: string, exclude: string, q: (int, int), replicas: int,
                           cpuMilli: int, memMB: int)
    ensures HasRoomBut(cs, {}, env, owner, exclude, q, replicas, cpuMilli, memMB)
       <==> HasRoom(cs, env, owner, exclude, q, replicas, cpuMilli, memMB)
  {
    forall r ensures UsageBut(cs, {}, env, owner, exclude, r) == Usage(cs, env, owner, exclude, r) {
      NoneMissed(cs, env, owner, exclude, r);
    }
    forall r | HasRoom(cs, env, owner, exclude, q, replicas, cpuMilli, memMB)
      ensures RoomFor(UsageBut(cs, {}, env, owner, exclude, r), QuotaFor(q, r), replicas, Each(cpuMilli, memMB, r), r)
    {
      assert RoomFor(Usage(cs, env, owner, exclude, r), QuotaFor(q, r), replicas, Each(cpuMilli, memMB, r), r);
    }
    forall r | HasRoomBut(cs, {}, env, owner, exclude, q, replicas, cpuMilli, memMB)
      ensures RoomFor(Usage(cs, env, owner, exclude, r), QuotaFor(q, r), replicas, Each(cpuMilli, memMB, r), r)
    {
      assert RoomFor(UsageBut(cs, {}, env, owner, exclude, r), QuotaFor(q, r), replicas, Each(cpuMilli, memMB, r), r);
    }
  }

  /** Administrators may do anything; members need a quota on the host, limits, and room. */
  ghost predicate Permitted(u: User, q: Option<(int, int)>, cs: Containers, missed: set<Loc>, env: int, exclude: string,
                            replicas: int, cpuMilli: int, memMB: int)
  {
    u.admin
    || (q.Some? && q.value.0 > 0 && q.value.1 > 0 && cpuMilli > 0 && memMB > 0
        && HasRoomBut(cs, missed, env, u.name, exclude, q.value, replicas, cpuMilli, memMB))
  }

  /** A member may have that many replicas at these limits on a host where the member's containers, but
      for the replicas about to be replaced, use so much: on the local host by the member's own quotas, on
      another by those of the grant for it. */
  predicate MemberFits(u: User, grants: map<(int, int), Grant>, env: int, usedNano: int, usedBytes: int,
                       replicas: int, cpuMilli: int, memMB: int)
  {
    && cpuMilli > 0 && memMB > 0
    && if env == 0 then
         && u.cpuQuotaMilli > 0 && Quot(usedNano, 1_000_000) + replicas * cpuMilli <= u.cpuQuotaMilli
         && u.memQuotaMB > 0 && Quot(usedBytes, 1_048_576) + replicas * memMB <= u.memQuotaMB
       else
         && (u.id, env) in grants
         && var g := grants[(u.id, env)];
            && g.cpuQuotaMilli > 0 && Quot(usedNano, 1_000_000) + replicas * cpuMilli <= g.cpuQuotaMilli
            && g.memQuotaMB > 0 && Quot(usedBytes, 1_048_576) + replicas * memMB <= g.memQuotaMB
  }

  /** What permission means for a member: each resource is held against its own quota. */
  lemma MemberPermitted(u: User, grants: map<(int, int), Grant>, cs: Containers, missed: set<Loc>, env: int,
                        exclude: string, replicas: int, cpuMilli: int, memMB: int)
    ensures Permitted(u, QuotaOn(u, grants, env), cs, missed, env, exclude, replicas, cpuMilli, memMB)
       <==> u.admin || MemberFits(u, grants, env, UsageBut(cs, missed, env, u.name, exclude, Cpu),
                                  UsageBut(cs, missed, env, u.name, exclude, Mem), replicas, cpuMilli, memMB)
  {
    var nano, bytes := UsageBut(cs, missed, env, u.name, exclude, Cpu), UsageBut(cs, missed, env, u.name, exclude, Mem);
    if QuotaOn(u, grants, env).Some? {
      var q := QuotaOn(u, grants, env).value;
      var cpuRoom := RoomFor(nano, QuotaFor(q, Cpu), replicas, Each(cpuMilli, memMB, Cpu), Cpu);
      var memRoom := RoomFor(bytes, QuotaFor(q, Mem), replicas, Each(cpuMilli, memMB, Mem), Mem);
      assert HasRoomBut(cs, missed, env, u.name, exclude, q, replicas, cpuMilli, memMB) <==> cpuRoom && memRoom;
    }
  }

  /** The owner's containers on the host are within quota, to the precision of the quota's units. */
  ghost predicate WithinBoth(cs: Containers, env: int, owner: string, q: (int, int), whole: bool) {
    forall r :: WithinQuota(Usage(cs, env, owner, "", r), QuotaFor(q, r), whole, r)
  }

  lemma CheckedWithin(before: Containers, after: Containers, svc: Service, owner: string, exclude: string,
                      q: (int, int), m: nat)
    requires svc.name != "" && (exclude == "" || exclude == svc.name) && svc.cpuMilli >= 0 && svc.memMB >= 0
    requires SaneLimits(before) && RestKept(before, after, svc) && Fits(after, svc, m)
    requires HasRoom(before, svc.endpointID, owner, exclude, q, m, svc.cpuMilli, svc.memMB)
    ensures WithinBoth(after, svc.endpointID, owner, q, WholeLimits(before, svc.endpointID, owner))
  {
    forall r ensures WithinQuota(Usage(after, svc.endpointID, owner, "", r), QuotaFor(q, r),
                                 WholeLimits(before, svc.endpointID, owner), r)
    {
      assert RoomFor(Usage(before, svc.endpointID, owner, exclude, r), QuotaFor(q, r), m,
                     Each(svc.cpuMilli, svc.memMB, r), r);
      CheckedTotal(before, after, svc, owner, exclude, QuotaFor(q, r), m, r);
    }
  }

  lemma FitsMore(cs: Containers, svc: Service, k: nat, m: nat)
    requires Fits(cs, svc, k) && k <= m
    ensures Fits(cs, svc, m)
  {
    forall l ensures FitsAt(cs, svc, m, l) {
      assert FitsAt(cs, svc, k, l);
      if Owned(cs, svc, l) {
        var i := PlaceIndex(svc, k, l);
        PlaceOfIndex(svc, m, i);
      }
    }
  }

  // ------------------------------------------------------------ single containers

  ghost predicate IsId(cs: Containers, id: nat, l: Loc) { l in cs && l.env == 0 && cs[l].id == id }

  /** The limit of the local container with this id, if there is one. */
  ghost function LimitOf(cs: Containers, id: Option<nat>, r: Resource): int {
    if id.Some? && exists l :: IsId(cs, id.value, l) then
      var l :| IsId(cs, id.value, l);
      Limit(cs[l], r)
    else 0
  }

  lemma LimitOfId(cs: Containers, nextId: nat, l: Loc)
    requires UniqueIds(cs, nextId) && l in cs && l.env == 0
    ensures forall r :: LimitOf(cs, Some(cs[l].id), r) == Limit(cs[l], r)
  {
    assert IsId(cs, cs[l].id, l);
    forall r ensures LimitOf(cs, Some(cs[l].id), r) == Limit(cs[l], r) {
      var k :| IsId(cs, cs[l].id, k) && LimitOf(cs, Some(cs[l].id), r) == Limit(cs[k], r);
      assert IdsApart(cs, l, k);
    }
  }

  lemma NoLimitOfId(cs: Containers, id: nat)
    requires forall l :: l in cs && l.env == 0 ==> cs[l].id != id
    ensures forall r :: LimitOf(cs, Some(id), r) == 0
  {
  }

  function AtLeastZero(x: int): int { if x < 0 then 0 else x }

  /** An owner's usage on the local host, except what was missed, without one container. */
  ghost function UsageBeside(cs: Containers, missed: set<Loc>, owner: string, excludeId: Option<nat>, r: Resource): int
  {
    AtLeastZero(UsageBut(cs, missed, 0, owner, "", r) - LimitOf(cs, excludeId, r))
  }

  /** The owner's usage on the local host without the container about to be replaced; if that one
      cannot be inspected it counts. excluded is the one that does not count. */
  method UsedBeside(hosts: Hosts, owner: string, excludeId: Option<nat>)
    returns (ok: bool, usedNano: int, usedMem: int, ghost missed: set<Loc>, ghost excluded: Option<nat>)
    requires hosts.Valid()
    modifies hosts`faults
    ensures hosts.Valid() && (!ok ==> hosts.faults > old(hosts.faults))
    ensures |missed| <= hosts.faults - old(hosts.faults)
    ensures excluded == excludeId || (excluded == None && hosts.faults > old(hosts.faults) + |missed|)
    ensures ok ==>
      && usedNano == UsageBeside(hosts.containers, missed, owner, excluded, Cpu)
      && usedMem == UsageBeside(hosts.containers, missed, owner, excluded, Mem)
  {
    ghost var cs := hosts.containers;
    excluded := excludeId;
    ok, usedNano, usedMem, missed := OwnerUsageExcludingService(hosts, 0, owner, "");
    if !ok { return; }
    if excludeId.Some? {
      ghost var faults := hosts.faults;
      var info := hosts.Inspect(0, excludeId.value);
      if info.Some? {
        LimitOfId(cs, hosts.nextId, Loc(0, info.value.0));
        usedNano := usedNano - info.value.1.spec.nanoCPUs;
        usedMem := usedMem - info.value.1.spec.memoryBytes;
      } else if hosts.faults == faults {
        NoLimitOfId(cs, excludeId.value);
      } else {
        excluded := None;
      }
    }
    if usedNano < 0 { usedNano := 0; }
    if usedMem < 0 { usedMem := 0; }
  }

  /** One container with these limits fits beside the user's others on the local host. */
  ghost predicate FitsBeside(cs: Containers, missed: set<Loc>, u: User, excludeId: Option<nat>, cpuMilli: int,
                             memMB: int) {
    forall r :: RoomFor(UsageBeside(cs, missed, u.name, excludeId, r), QuotaFor((u.cpuQuotaMilli, u.memQuotaMB), r), 1,
                        Each(cpuMilli, memMB, r), r)
  }

  /** What that means for a member: each resource is held against its own quota. */
  lemma BesideFits(cs: Containers, missed: set<Loc>, u: User, excludeId: Option<nat>, cpuMilli: int, memMB: int)
    requires u.cpuQuotaMilli > 0 && u.memQuotaMB > 0 && cpuMilli > 0 && memMB > 0
    ensures FitsBeside(cs, missed, u, excludeId, cpuMilli, memMB)
       <==> MemberFits(u, map[], 0, UsageBeside(cs, missed, u.name, excludeId, Cpu),
                       UsageBeside(cs, missed, u.name, excludeId, Mem), 1, cpuMilli, memMB)
  {
    var q := (u.cpuQuotaMilli, u.memQuotaMB);
    var nano := UsageBeside(cs, missed, u.name, excludeId, Cpu);
    var bytes := UsageBeside(cs, missed, u.name, excludeId, Mem);
    var cpuRoom := RoomFor(nano, QuotaFor(q, Cpu), 1, Each(cpuMilli, memMB, Cpu), Cpu);
    var memRoom := RoomFor(bytes, QuotaFor(q, Mem), 1, Each(cpuMilli, memMB, Mem), Mem);
    assert FitsBeside(cs, missed, u, excludeId, cpuMilli, memMB) <==> cpuRoom && memRoom;
  }

  /** The local container with that id does not count, if there is one, and nothing counts below zero. */
  lemma BesideSpelled(cs: Containers, nextId: nat, owner: string, id: nat, l: Loc)
    requires UniqueIds(cs, nextId) && l in cs && l.env == 0 && cs[l].id == id
    ensures var cpu, mem := Usage(cs, 0, owner, "", Cpu) - cs[l].spec.nanoCPUs,
                            Usage(cs, 0, owner, "", Mem) - cs[l].spec.memoryBytes;
            && UsageBeside(cs, {}, owner, Some(id), Cpu) == (if cpu < 0 then 0 else cpu)
            && UsageBeside(cs, {}, owner, Some(id), Mem) == if mem < 0 then 0 else mem
  {
    LimitOfId(cs, nextId, l);
    NoneMissed(cs, 0, owner, "", Cpu);
    NoneMissed(cs, 0, owner, "", Mem);
  }

  lemma UpdatedWithin(before: Containers, after: Containers, svc: Service, owner: string, q: (int, int), m: nat)
    requires svc.name != "" && svc.cpuMilli >= 0 && svc.memMB >= 0 && Count(svc) <= m
    requires Clean(before, svc) && SaneLimits(before) && RolledOver(before, after, svc)
    requires HasRoom(before, svc.endpointID, owner, svc.name, q, m, svc.cpuMilli, svc.memMB)
    ensures Fits(after, svc, m) && RestKept(before, after, svc)
    ensures WithinBoth(after, svc.endpointID, owner, q, WholeLimits(before, svc.endpointID, owner))
  {
    RolledOverFits(before, after, svc);
    FitsMore(after, svc, Count(svc), m);
    CheckedWithin(before, after, svc, owner, svc.name, q, m);
  }

  /** What the check promised holds after the service was created, even if creating it broke off. */
  lemma CreatedWithin(before: Containers, after: Containers, svc: Service, owner: string, q: (int, int), m: nat)
    requires svc.name != "" && svc.cpuMilli >= 0 && svc.memMB >= 0 && Count(svc) <= m
    requires Clean(before, svc) && SaneLimits(before) && NothingLost(before, after, svc)
    requires NoneThere(before, svc)
    requires HasRoom(before, svc.endpointID, owner, "", q, m, svc.cpuMilli, svc.memMB)
    ensures Fits(before, svc, m)
    ensures WithinBoth(after, svc.endpointID, owner, q, WholeLimits(before, svc.endpointID, owner))
  {
    forall l ensures FitsAt(before, svc, m, l) { }
    ReconcileFits(before, after, svc, svc, m);
    CheckedWithin(before, after, svc, owner, "", q, m);
  }

  /** A member's creation, wherever it broke off, left the member within quota, and the service within
      what was reserved for it. */
  ghost predicate CreatedSafely(before: Containers, after: Containers, u: User, q: Option<(int, int)>, svc: Service,
                                m: nat) {
    && q.Some? && HasRoom(before, svc.endpointID, u.name, "", q.value, m, svc.cpuMilli, svc.memMB)
    && Fits(before, svc, m) && NothingLost(before, after, svc)
    && WithinBoth(after, svc.endpointID, u.name, q.value, WholeLimits(before, svc.endpointID, u.name))
  }

  lemma CreationIsSafe(before: Containers, after: Containers, u: User, q: Option<(int, int)>, svc: Service, m: nat,
                       missed: set<Loc>)
    ensures !u.admin && missed == {} && svc.name != "" && Count(svc) <= m && NothingLost(before, after, svc)
            && Permitted(u, q, before, missed, svc.endpointID, "", m, svc.cpuMilli, svc.memMB)
            && Clean(before, svc) && SaneLimits(before) && NoneThere(before, svc) ==>
      CreatedSafely(before, after, u, q, svc, m)
  {
    if !u.admin && missed == {} && svc.name != "" && Count(svc) <= m && NothingLost(before, after, svc)
       && Permitted(u, q, before, missed, svc.endpointID, "", m, svc.cpuMilli, svc.memMB)
       && Clean(before, svc) && SaneLimits(before) && NoneThere(before, svc)
    {
      RoomWithNoneMissed(before, svc.endpointID, u.name, "", q.value, m, svc.cpuMilli, svc.memMB);
      CreatedWithin(before, after, svc, u.name, q.value, m);
    }
  }

  /** What a creation did: it stored the row under a new name, it had permission for whatever it
      changed, and a member is safe if the service's name had no container before. */
  ghost predicate CreateOutcome(u: User, q: Option<(int, int)>, rows: map<string, Service>, rows': map<string, Service>,
                                before: Containers, after: Containers, svc: Service, m: nat, missed: set<Loc>,
                                created: bool)
  {
    && (created ==> svc.name !in rows && rows' == rows[svc.name := svc])
    && (rows' != rows || after != before ==>
          Permitted(u, q, before, missed, svc.endpointID, "", m, svc.cpuMilli, svc.memMB))
    && ((rows' != rows || after != before) && !u.admin && missed == {} && Clean(before, svc) && SaneLimits(before) ==>
          !NoneThere(before, svc) || CreatedSafely(before, after, u, q, svc, m))
  }

  /** An edit of a member's service on its own host left the new replicas and nothing else of it, and
      the member within quota. */
  ghost predicate EditedSafely(before: Containers, after: Containers, u: User, q: Option<(int, int)>, svc: Service,
                               m: nat) {
    && q.Some? && HasRoom(before, svc.endpointID, u.name, svc.name, q.value, m, svc.cpuMilli, svc.memMB)
    && Fits(after, svc, m) && RestKept(before, after, svc)
    && WithinBoth(after, svc.endpointID, u.name, q.value, WholeLimits(before, svc.endpointID, u.name))
  }

  /** What an edit did: it stored the request under the old identity, it had permission for whatever it
      changed, and if no Docker call failed it rolled the replicas over - safely, if the request named
      the service's own host. */
  ghost predicate EditOutcome(u: User, q: Option<(int, int)>, rows: map<string, Service>, rows': map<string, Service>,
                              before: Containers, after: Containers, name: string, req: Request, env: int,
                              missed: set<Loc>, updated: bool, quiet: bool)
    requires name in rows && Normal(req)
  {
    var svc := Preserve(rows[name], RowOf(req, u.name, "", env));
    && (updated ==> name in rows' && rows' == rows[name := rows'[name]] && RowUpdated(rows'[name], rows[name], req))
    && (rows' != rows || after != before ==>
          Permitted(u, q, before, missed, env, name, Reserved(req), req.cpuMilli, req.memMB))
    && (updated && quiet && Clean(before, svc) ==> RolledOver(before, after, svc))
    && (updated && quiet && missed == {} && Clean(before, svc) && SaneLimits(before) ==>
          u.admin || env != svc.endpointID || svc.name == "" || EditedSafely(before, after, u, q, svc, Reserved(req)))
  }

  lemma EditIsSafe(before: Containers, after: Containers, u: User, q: Option<(int, int)>, svc: Service, m: nat,
                   missed: set<Loc>)
    ensures !u.admin && missed == {} && svc.name != "" && Count(svc) <= m
            && Permitted(u, q, before, missed, svc.endpointID, svc.name, m, svc.cpuMilli, svc.memMB)
            && Clean(before, svc) && SaneLimits(before) && RolledOver(before, after, svc) ==>
      EditedSafely(before, after, u, q, svc, m)
  {
    if !u.admin && missed == {} && svc.name != "" && Count(svc) <= m
       && Permitted(u, q, before, missed, svc.endpointID, svc.name, m, svc.cpuMilli, svc.memMB)
       && Clean(before, svc) && SaneLimits(before) && RolledOver(before, after, svc)
    {
      RoomWithNoneMissed(before, svc.endpointID, u.name, svc.name, q.value, m, svc.cpuMilli, svc.memMB);
      UpdatedWithin(before, after, svc, u.name, q.value, m);
    }
  }

  // -- when exactly an edit stays within quota

  /** In the limits' own units. */
  ghost predicate WithinExactly(cs: Containers, env: int, owner: string, q: (int, int)) {
    forall r :: WithinExactlyFor(cs, env, owner, q, r)
  }

  ghost predicate WithinExactlyFor(cs: Containers, env: int, owner: string, q: (int, int), r: Resource) {
    Usage(cs, env, owner, "", r) <= QuotaFor(q, r) * Unit(r)
  }

  /** There is room for the replicas on the service's own host, and rounding does no harm. */
  ghost predicate CheckedOnOwnHost(before: Containers, svc: Service, q: (int, int)) {
    forall r :: CheckedFor(before, svc, q, r)
  }

  ghost predicate CheckedFor(before: Containers, svc: Service, q: (int, int), r: Resource) {
    var used := Usage(before, svc.endpointID, svc.owner, svc.name, r);
    && RoomFor(used, QuotaFor(q, r), Count(svc), PerReplica(svc, r), r)
    && Snug(used, QuotaFor(q, r), Count(svc), PerReplica(svc, r), r)
  }

  /** An edit that went through leaves the owner within quota on the service's host if and only if
      the check passes there - whatever host the request named. */
  lemma EditWithinIff(before: Containers, after: Containers, svc: Service, q: (int, int))
    requires svc.name != "" && OwnerFree(svc) && Clean(before, svc) && SaneLimits(before)
    requires RolledOver(before, after, svc)
    ensures WithinExactly(after, svc.endpointID, svc.owner, q) <==> CheckedOnOwnHost(before, svc, q)
  {
    RolledOverFits(before, after, svc);
    RolledOverAtLimits(before, after, svc);
    forall r ensures WithinExactlyFor(after, svc.endpointID, svc.owner, q, r) <==> CheckedFor(before, svc, q, r) {
      WithinIffChecked(before, after, svc, svc.owner, svc.name, QuotaFor(q, r), Count(svc), r);
    }
    if WithinExactly(after, svc.endpointID, svc.owner, q) {
      forall r
        ensures CheckedFor(before, svc, q, r)
      {
        assert WithinExactlyFor(after, svc.endpointID, svc.owner, q, r);
      }
    }
    if CheckedOnOwnHost(before, svc, q) {
      forall r
        ensures WithinExactlyFor(after, svc.endpointID, svc.owner, q, r)
      {
        assert CheckedFor(before, svc, q, r);
      }
    }
  }

  /** A member with a quota of 10 milli-CPU on the local host and a grant of 1000 on environment 1
      edits a local service in a request that names environment 1: the check passes there, and the
      local host ends at 100 milli-CPU. */
  lemma EditElsewhereOvershoots() returns (before: Containers, after: Containers)
    ensures var u, grants := User(7, "u", false, 10, 20, 0), map[(7, 1) := Grant(1000, 2000, 0)];
            var svc := Sample(100);
            && Permitted(u, QuotaOn(u, grants, 1), before, {}, 1, "s", 1, 100, 1)
            && Clean(before, svc) && SaneLimits(before) && OwnerFree(svc) && RolledOver(before, after, svc)
            && !WithinExactly(after, 0, "u", QuotaOn(u, grants, 0).value)
  {
    before, after := SampleSet(1, 0), SampleSet(100, 1);
    SampleRolledOver(before, after);
    SamplePermittedElsewhere(before);
    SampleOverHere(before, after);
  }

  lemma SamplePermittedElsewhere(before: Containers)
    requires before == SampleSet(1, 0)
    ensures HasRoomBut(before, {}, 1, "u", "s", (1000, 2000), 1, 100, 1)
  {
    forall r ensures UsageBut(before, {}, 1, "u", "s", r) == 0 {
      assert CountedIn(before, before.Keys - {}, 1, "u", "s") == {};
    }
  }

  lemma SampleOverHere(before: Containers, after: Containers)
    requires var svc := Sample(100);
             Clean(before, svc) && SaneLimits(before) && OwnerFree(svc) && RolledOver(before, after, svc)
    ensures !WithinExactly(after, 0, "u", (10, 20))
  {
    var svc := Sample(100);
    EditWithinIff(before, after, svc, (10, 20));
    UsageIsSane(before, 0, "u", "s", Cpu);
    assert !CheckedFor(before, svc, (10, 20), Cpu);
  }

  lemma SampleRolledOver(before: Containers, after: Containers)
    requires before == SampleSet(1, 0) && after == SampleSet(100, 1)
    ensures var svc := Sample(100);
            Clean(before, svc) && SaneLimits(before) && OwnerFree(svc) && RolledOver(before, after, svc)
  {
    var svc := Sample(100);
    var l0 := At(svc, 0);
    assert At(Sample(1), 0) == l0;
    NewCorresponds(Sample(1), 0, before[l0]);
    NewCorresponds(svc, 0, after[l0]);
    forall l ensures Labelled(before, svc, l) && SaneAt(before, l) { }
    forall i: nat ensures Named(before, svc, i) { DistinctPlaces(svc, i, 0); }
    forall l
      ensures RolledOther(before, after, svc, l) && OwnedIffPlaced(after, svc, Count(svc), l)
    {
      SamplePlaces(100, l);
    }
    assert NewAt(after, svc, 0);
  }

  // -- editing a container

  /** The new container is what was asked for, under the old name unless a new one was given, and with the
      limits in Docker's units. */
  predicate AsksForEdit(spec: DeploySpec, request: DeploySpec, name: string, owner: string, cpuMilli: int, memMB: int) {
    && spec.name == (if request.name == "" then name else request.name)
    && spec.image == request.image && spec.env == request.env && spec.subdomain == request.subdomain
    && spec.containerPort == request.containerPort && spec.network == request.network
    && spec.owner == owner && spec.nanoCPUs == cpuMilli * 1_000_000 && spec.memoryBytes == memMB * 1_048_576
    && spec.extraLabels == map[] && spec.advanced.ports == [] && spec.advanced.labels == map[]
    && spec.advanced.other == ""
  }

  /** What a container is replaced by: the old labels and options are gone. */
  function EditedSpec(request: DeploySpec, name: string, owner: string, cpuMilli: int, memMB: int): (spec: DeploySpec)
    ensures AsksForEdit(spec, request, name, owner, cpuMilli, memMB)
  {
    request.(name := if request.name == "" then name else request.name, owner := owner,
             nanoCPUs := cpuMilli * NANO_PER_MILLI, memoryBytes := memMB * BYTES_PER_MB,
             extraLabels := map[], advanced := AdvancedSpec([], map[], ""))
  }

  /** The container with this id was replaced by a new one with this spec. */
  ghost predicate Edited(before: Containers, after: Containers, nextId: nat, was: Loc, env: int, id: nat,
                         spec: DeploySpec) {
    var l := Loc(env, spec.name);
    && was in before && was.env == env && before[was].id == id && l !in before - {was}
    && after == (before - {was})[l := Created(nextId, spec, true)]
  }

  /** A container that was not there before has whole limits. */
  ghost predicate LimitsKeptOrWhole(before: Containers, after: Containers, l: Loc) {
    l in after ==>
      || (l in before && after[l].spec == before[l].spec && after[l].labels == before[l].labels)
      || forall r :: Whole(Limit(after[l], r), r)
  }

  lemma MilliIsWhole(cpuMilli: int, memMB: int)
    ensures (cpuMilli * NANO_PER_MILLI) % NANO_PER_MILLI == 0 && (memMB * BYTES_PER_MB) % BYTES_PER_MB == 0
  {
  }

  lemma MadeIsWhole(before: Containers, after: Containers, spec: DeploySpec, cpuMilli: int, memMB: int)
    requires spec.nanoCPUs == cpuMilli * NANO_PER_MILLI && spec.memoryBytes == memMB * BYTES_PER_MB
    requires forall l :: KeptOrMade(before, after, spec, l)
    ensures forall l :: LimitsKeptOrWhole(before, after, l)
  {
    MilliIsWhole(cpuMilli, memMB);
    forall l ensures LimitsKeptOrWhole(before, after, l) { assert KeptOrMade(before, after, spec, l); }
  }

  /** The new limits fit on the container's own host beside what else the owner has there, and rounding
      does no harm. */
  ghost predicate EditChecked(before: Containers, was: Loc, owner: string, q: (int, int), cpuMilli: int, memMB: int)
    requires was in before
  {
    forall r :: EditCheckedFor(before, was, owner, q, cpuMilli, memMB, r)
  }

  ghost predicate EditCheckedFor(before: Containers, was: Loc, owner: string, q: (int, int), cpuMilli: int, memMB: int,
                                 r: Resource)
    requires was in before
  {
    var rest := Usage(before, was.env, owner, "", r) - Limit(before[was], r);
    && RoomFor(rest, QuotaFor(q, r), 1, Each(cpuMilli, memMB, r), r)
    && Snug(rest, QuotaFor(q, r), 1, Each(cpuMilli, memMB, r), r)
  }

  /** Exactly, on any host: replacing a container of the member's leaves the member within a quota there
      if and only if the new limits pass the check made there, and its rounding is harmless. */
  lemma EditWithinQuotaIff(before: Containers, after: Containers, nextId: nat, was: Loc, env: int, id: nat,
                           request: DeploySpec, owner: string, q: (int, int), cpuMilli: int, memMB: int)
    requires Edited(before, after, nextId, was, env, id, EditedSpec(request, was.name, owner, cpuMilli, memMB))
    requires SaneLimits(before) && owner != "" && HasLabel(before[was], LABEL_OWNER, owner)
    ensures WithinExactly(after, env, owner, q) <==> EditChecked(before, was, owner, q, cpuMilli, memMB)
  {
    forall r
      ensures WithinExactlyFor(after, env, owner, q, r) <==> EditCheckedFor(before, was, owner, q, cpuMilli, memMB, r)
    {
      EditWithinQuotaFor(before, after, nextId, was, env, id, request, owner, q, cpuMilli, memMB, r);
    }
    if WithinExactly(after, env, owner, q) {
      forall r
        ensures EditCheckedFor(before, was, owner, q, cpuMilli, memMB, r)
      {
        assert WithinExactlyFor(after, env, owner, q, r);
      }
    }
    if EditChecked(before, was, owner, q, cpuMilli, memMB) {
      forall r
        ensures WithinExactlyFor(after, env, owner, q, r)
      {
        assert EditCheckedFor(before, was, owner, q, cpuMilli, memMB, r);
      }
    }
  }

  lemma EditWithinQuotaFor(before: Containers, after: Containers, nextId: nat, was: Loc, env: int, id: nat,
                           request: DeploySpec, owner: string, q: (int, int), cpuMilli: int, memMB: int, r: Resource)
    requires Edited(before, after, nextId, was, env, id, EditedSpec(request, was.name, owner, cpuMilli, memMB))
    requires SaneLimits(before) && owner != "" && HasLabel(before[was], LABEL_OWNER, owner)
    ensures WithinExactlyFor(after, env, owner, q, r) <==> EditCheckedFor(before, was, owner, q, cpuMilli, memMB, r)
  {
    var spec := EditedSpec(request, was.name, owner, cpuMilli, memMB);
    var l, c := Loc(env, spec.name), Created(nextId, spec, true);
    OwnerLabel(spec);
    UsageOfReplacement(before, was, l, c, owner, r);
    OneIsPart(before, was, owner, r);
    var rest := Usage(before, env, owner, "", r) - Limit(before[was], r);
    FitsIffSnug(rest, QuotaFor(q, r), 1, Each(cpuMilli, memMB, r), r);
  }

  /** One counted container weighs no more than all. */
  lemma OneIsPart(cs: Containers, l: Loc, owner: string, r: Resource)
    requires SaneLimits(cs) && l in cs && HasLabel(cs[l], LABEL_OWNER, owner)
    ensures Limit(cs[l], r) <= Usage(cs, l.env, owner, "", r)
  {
    UsageOfUpdate(cs - {l}, l, cs[l], l.env, owner, r);
    assert (cs - {l})[l := cs[l]] == cs;
    forall k ensures SaneAt(cs - {l}, k) { assert SaneAt(cs, k); }
    UsageIsSane(cs - {l}, l.env, owner, "", r);
  }

  lemma OwnerLabel(spec: DeploySpec)
    requires spec.owner != "" && LABEL_OWNER !in spec.extraLabels && LABEL_OWNER !in spec.advanced.labels
    ensures LABEL_OWNER in LabelsOf(spec) && LabelsOf(spec)[LABEL_OWNER] == spec.owner
  {
  }

  /** The check of an edit is exact for the container it replaces, if that is the member's own. */
  lemma EditedWithin(before: Containers, nextId: nat, was: Loc, l: Loc, c: Container, u: User, cpuMilli: int,
                     memMB: int)
    requires UniqueIds(before, nextId) && SaneLimits(before) && u.name != ""
    requires was in before && was.env == 0 && HasLabel(before[was], LABEL_OWNER, u.name)
    requires l.env == 0 && l !in before - {was}
    requires c.spec.owner == u.name && c.labels == LabelsOf(c.spec)
    requires c.spec.extraLabels == map[] && c.spec.advanced.labels == map[]
    requires c.spec.nanoCPUs == cpuMilli * NANO_PER_MILLI && c.spec.memoryBytes == memMB * BYTES_PER_MB
    requires FitsBeside(before, {}, u, Some(before[was].id), cpuMilli, memMB)
    ensures WithinBoth((before - {was})[l := c], 0, u.name, (u.cpuQuotaMilli, u.memQuotaMB),
                       WholeLimits(before, 0, u.name))
  {
    var after, q, whole := (before - {was})[l := c], (u.cpuQuotaMilli, u.memQuotaMB), WholeLimits(before, 0, u.name);
    OwnerLabel(c.spec);
    LimitOfId(before, nextId, was);
    forall r ensures WithinQuota(Usage(after, 0, u.name, "", r), QuotaFor(q, r), whole, r) {
      NoneMissed(before, 0, u.name, "", r);
      var used := UsageBeside(before, {}, u.name, Some(before[was].id), r);
      assert RoomFor(used, QuotaFor(q, r), 1, Each(cpuMilli, memMB, r), r);
      UsageOfReplacement(before, was, l, c, u.name, r);
      RoomIsEnough(used, QuotaFor(q, r), 1, Each(cpuMilli, memMB, r), r, Usage(after, 0, u.name, "", r));
      if whole { WholeBeside(before, was, u.name, r); }
    }
  }

  lemma WholeBeside(cs: Containers, was: Loc, owner: string, r: Resource)
    requires SaneLimits(cs) && WholeLimits(cs, 0, owner) && was in cs && was.env == 0
    requires HasLabel(cs[was], LABEL_OWNER, owner)
    ensures Whole(AtLeastZero(Usage(cs, 0, owner, "", r) - Limit(cs[was], r)), r)
  {
    UsageIsWhole(cs, 0, owner, "", r);
    assert Counted(cs, 0, owner, "", was) && WholeAt(cs, 0, owner, was);
    if r == Cpu {
      WholeMillisLess(Usage(cs, 0, owner, "", r), Limit(cs[was], r));
    } else {
      WholeMegabytesLess(Usage(cs, 0, owner, "", r), Limit(cs[was], r));
    }
  }

  lemma WholeMillisLess(a: int, b: int)
    requires a % NANO_PER_MILLI == 0 && b % NANO_PER_MILLI == 0
    ensures (a - b) % NANO_PER_MILLI == 0
  {
  }

  lemma WholeMegabytesLess(a: int, b: int)
    requires a % BYTES_PER_MB == 0 && b % BYTES_PER_MB == 0
    ensures (a - b) % BYTES_PER_MB == 0
  {
  }

  /** What an edit promises a member about the container's own host: exactly when the member is within
      the quota granted there; and that the member is, on the local host, where the check is made. */
  ghost predicate EditBound(before: Containers, after: Containers, u: User, grants: map<(int, int), Grant>, was: Loc,
                            env: int, cpuMilli: int, memMB: int) {
    was in before && HasLabel(before[was], LABEL_OWNER, u.name) && u.name != "" && SaneLimits(before) ==>
      && (QuotaOn(u, grants, env).Some? ==>
            (WithinExactly(after, env, u.name, QuotaOn(u, grants, env).value)
             <==> EditChecked(before, was, u.name, QuotaOn(u, grants, env).value, cpuMilli, memMB)))
      && (env == 0 ==>
            WithinBoth(after, 0, u.name, (u.cpuQuotaMilli, u.memQuotaMB), WholeLimits(before, 0, u.name)))
  }

  lemma EditIsBounded(before: Containers, after: Containers, nextId: nat, u: User, grants: map<(int, int), Grant>,
                      was: Loc, env: int, id: nat, request: DeploySpec, cpuMilli: int, memMB: int)
    requires UniqueIds(before, nextId) && FitsBeside(before, {}, u, Some(id), cpuMilli, memMB)
    requires Edited(before, after, nextId, was, env, id, EditedSpec(request, was.name, u.name, cpuMilli, memMB))
    ensures EditBound(before, after, u, grants, was, env, cpuMilli, memMB)
  {
    if HasLabel(before[was], LABEL_OWNER, u.name) && u.name != "" && SaneLimits(before) {
      var spec := EditedSpec(request, was.name, u.name, cpuMilli, memMB);
      if QuotaOn(u, grants, env).Some? {
        var q := QuotaOn(u, grants, env).value;
        EditWithinQuotaIff(before, after, nextId, was, env, id, request, u.name, q, cpuMilli, memMB);
      }
      if env == 0 {
        EditedWithin(before, nextId, was, Loc(0, spec.name), Created(nextId, spec, true), u, cpuMilli, memMB);
      }
    }
  }

  /** A member with 1000 milli-CPU on the local host and a grant of 10 on environment 1 gives a container
      there 100: the check on the local host passes, and environment 1 ends over the grant. */
  lemma ContainerEditOvershoots(request: DeploySpec) returns (before: Containers, after: Containers, was: Loc)
    requires request.name == ""
    ensures var u, grants := User(7, "u", false, 1000, 2000, 0), map[(7, 1) := Grant(10, 20, 0)];
            && FitsBeside(before, {}, u, Some(0), 100, 1)
            && Edited(before, after, 1, was, 1, 0, EditedSpec(request, was.name, "u", 100, 1))
            && !WithinExactly(after, 1, "u", QuotaOn(u, grants, 1).value)
  {
    was := Loc(1, "x");
    var prior, made := EditedSpec(request, "x", "u", 1, 1), EditedSpec(request, "x", "u", 100, 1);
    before := map[was := Created(0, prior, true)];
    after := (before - {was})[was := Created(1, made, true)];
    OwnerLabel(prior);
    forall l ensures SaneAt(before, l) { }
    forall r ensures UsageBut(before, {}, 0, "u", "", r) == 0 {
      assert CountedIn(before, before.Keys - {}, 0, "u", "") == {};
    }
    NoLimitOfId(before, 0);
    EditWithinQuotaIff(before, after, 1, was, 1, 0, request, "u", (10, 20), 100, 1);
    OneIsPart(before, was, "u", Cpu);
    assert !EditCheckedFor(before, was, "u", (10, 20), 100, 1, Cpu);
  }

  function SubdomainOf(c: Container): string {
    if LABEL_SUBDOMAIN in c.labels then c.labels[LABEL_SUBDOMAIN] else ""
  }

  /** A container that was deployed for a subdomain tells it, unless other labels stand in for it. */
  lemma SubdomainTold(c: Container)
    requires c.labels == LabelsOf(c.spec)
    requires "easydeploy.subdomain" !in c.spec.extraLabels && "easydeploy.subdomain" !in c.spec.advanced.labels
    ensures SubdomainOf(c) == c.spec.subdomain
  {
    LabelsMean(c.spec, "easydeploy.subdomain");
  }

  lemma SameContainer(cs: Containers, nextId: nat, env: int, id: nat, l: Loc, k: Loc)
    requires UniqueIds(cs, nextId) && HasId(cs, env, id, l) && HasId(cs, env, id, k)
    ensures l == k
  {
    assert IdsApart(cs, l, k);
  }

  /** The manual routes follow an edit: the new subdomain leads to the new container by the requested name
      and port, on the local host; the old subdomain's route is gone, and no other route is different. */
  ghost predicate RoutesFollow(before: map<string, Route>, after: map<string, Route>, was: string, request: DeploySpec,
                               containerID: string) {
    forall s :: RouteFollows(before, after, was, request, containerID, s)
  }

  predicate RouteFollows(before: map<string, Route>, after: map<string, Route>, was: string, request: DeploySpec,
                         containerID: string, s: string) {
    if s == request.subdomain && s != "" && request.containerPort > 0 then
      && s in after && after[s].subdomain == s && after[s].containerID == containerID
      && after[s].targetHost == request.name && after[s].targetPort == request.containerPort && after[s].endpointID == 0
    else if s == was && s != "" && s != request.subdomain then s !in after
    else RouteKept(before, after, s)
  }

  predicate RouteKept(before: map<string, Route>, after: map<string, Route>, s: string) {
    (s in after <==> s in before) && (s in after ==> after[s] == before[s])
  }

  class Server {
    const services: Manager
    var users: map<int, User>
    var grants: map<(int, int), Grant>

    constructor (services: Manager)
      ensures this.services == services && users == map[] && grants == map[]
    {
      this.services := services;
      users, grants := map[], map[];
    }

    ghost predicate Valid()
      reads this, services, services.store, services.hosts
      reads services.registry, services.registry.store, services.registry.xds
    {
      services.Valid() && forall i :: i in users ==> users[i].id == i
    }

    /** A statement against the database may fail. */
    method Query() returns (ok: bool)
      modifies services.store`faults
      ensures services.store.faults == old(services.store.faults) + if ok then 0 else 1
    {
      ok := *;
      if !ok { services.store.faults := services.store.faults + 1; }
    }

    /** Whether there is room for the replicas on the host. missed are the containers that could not
        be inspected. */
    method RoomOnHost(env: int, owner: string, exclude: string, quotaCPU: int, quotaMem: int, replicas: int64,
                      cpuMilli: int, memMB: int)
      returns (ok: bool, room: bool, ghost missed: set<Loc>)
      requires Valid()
      modifies services`clients, services.hosts`faults
      ensures Valid() && |missed| <= services.hosts.faults - old(services.hosts.faults)
      ensures old(services.clients) <= services.clients
      ensures !ok ==> services.hosts.faults > old(services.hosts.faults) || !old(services.Connectable(env))
      ensures ok ==> services.Connected(env)
      ensures ok ==> (room <==> HasRoomBut(services.hosts.containers, missed, env, owner, exclude, (quotaCPU, quotaMem),
                                           replicas, cpuMilli, memMB))
    {
      missed, room := {}, false;
      ok := services.DockerFor(env);
      if !ok { return; }
      var usedNano, usedMem;
      ok, usedNano, usedMem, missed := OwnerUsageExcludingService(services.hosts, env, owner, exclude);
      if !ok { return; }
      var needCPU := Quot(usedNano, NANO_PER_MILLI) + replicas * cpuMilli;
      var needMem := Quot(usedMem, BYTES_PER_MB) + replicas * memMB;
      ghost var q := (quotaCPU, quotaMem);
      ghost var roomCpu := RoomFor(usedNano, QuotaFor(q, Cpu), replicas, Each(cpuMilli, memMB, Cpu), Cpu);
      ghost var roomMem := RoomFor(usedMem, QuotaFor(q, Mem), replicas, Each(cpuMilli, memMB, Mem), Mem);
      assert roomCpu <==> needCPU <= quotaCPU;
      assert roomMem <==> needMem <= quotaMem;
      room := !(needCPU > quotaCPU || needMem > quotaMem);
    }

    lemma QuotaSpelled(userId: int, env: int, replicas: int, cpuMilli: int, memMB: int, exclude: string)
      requires userId in users
      ensures var u, cs := users[userId], services.hosts.containers;
              Permitted(u, QuotaOn(u, grants, env), cs, {}, env, exclude, replicas, cpuMilli, memMB)
              <==> u.admin || MemberFits(u, grants, env, Usage(cs, env, u.name, exclude, Cpu),
                                         Usage(cs, env, u.name, exclude, Mem), replicas, cpuMilli, memMB)
    {
      var u, cs := users[userId], services.hosts.containers;
      MemberPermitted(u, grants, cs, {}, env, exclude, replicas, cpuMilli, memMB);
      NoneMissed(cs, env, u.name, exclude, Cpu);
      NoneMissed(cs, env, u.name, exclude, Mem);
    }

    /** Checks a request for replicas of a service against the member's quota on the host. missed are
        the containers that could not be inspected. */
    method EnforceServiceQuota(userId: int, env: int, replicas: int64, cpuMilli: int, memMB: int, exclude: string)
      returns (v: Verdict, ghost missed: set<Loc>)
      requires Valid()
      modifies services`clients, services.store`faults, services.hosts`faults
      ensures Valid() && old(services.Faults()) <= services.Faults() && old(services.clients) <= services.clients
      ensures |missed| <= services.hosts.faults - old(services.hosts.faults)
      ensures v.Allowed? ==>
        && userId in users && v.owner == users[userId].name && services.store.faults == old(services.store.faults)
        && Permitted(users[userId], QuotaOn(users[userId], grants, env), services.hosts.containers, missed, env,
                     exclude, replicas, cpuMilli, memMB)
      ensures v.Refused? ==>
        || services.Faults() > old(services.Faults()) || !old(services.Connectable(env)) || userId !in users
        || !Permitted(users[userId], QuotaOn(users[userId], grants, env), services.hosts.containers, {}, env, exclude,
                      replicas, cpuMilli, memMB)
      ensures userId in users && !users[userId].admin ==>
        var u := users[userId];
        var q := QuotaOn(u, grants, env);
        && (v.Allowed? || v == Refused(Exceeded) ==> services.Connected(env))
        && (v == Refused(NoAccess) ==> q.None?)
        && (v == Refused(NoQuota) ==> q.Some? && (q.value.0 <= 0 || q.value.1 <= 0))
        && (v == Refused(NoLimits) ==> cpuMilli <= 0 || memMB <= 0)
      ensures userId in users && services.Faults() == old(services.Faults()) && old(services.Connectable(env)) ==>
        var u, cs := users[userId], services.hosts.containers;
        v.Allowed? <==>
          u.admin || MemberFits(u, grants, env, Usage(cs, env, u.name, exclude, Cpu),
                                Usage(cs, env, u.name, exclude, Mem), replicas, cpuMilli, memMB)
    {
      missed := {};
      if userId !in users { return Refused(Failure), {}; }
      QuotaSpelled(userId, env, replicas, cpuMilli, memMB, exclude);
      var ok := Query();
      if !ok { return Refused(Failure), {}; }
      var user := users[userId];
      if user.admin { return Allowed(user.name), {}; }
      var quotaCPU, quotaMem := user.cpuQuotaMilli, user.memQuotaMB;
      if env != 0 {
        ok := Query();
        if !ok { return Refused(Failure), {}; }
        if (userId, env) !in grants { return Refused(NoAccess), {}; }
        var g := grants[(userId, env)];
        quotaCPU, quotaMem := g.cpuQuotaMilli, g.memQuotaMB;
      }
      if quotaCPU <= 0 || quotaMem <= 0 { return Refused(NoQuota), {}; }
      if cpuMilli <= 0 || memMB <= 0 { return Refused(NoLimits), {}; }
      var room;
      ok, room, missed := RoomOnHost(env, user.name, exclude, quotaCPU, quotaMem, replicas, cpuMilli, memMB);
      if !ok { return Refused(Failure), missed; }
      if !room { return Refused(Exceeded), missed; }
      v := Allowed(user.name);
    }

    /** Members manage their own services. */
    static predicate MayManage(p: Principal, rows: map<string, Service>, name: string) {
      name in rows && (p.admin || rows[name].owner == p.name)
    }

    method OwnedService(p: Principal, name: string) returns (r: Option<Service>)
      requires Valid()
      modifies services.store`faults
      ensures Valid() && old(services.Faults()) <= services.Faults()
      ensures r.Some? ==> MayManage(p, services.store.services, name) && r.value == services.store.services[name]
      ensures r.Some? ==> r.value.name == name && (p.admin || r.value.owner == p.name)
      ensures r.None? && services.Faults() == old(services.Faults()) ==>
        var rows := services.store.services;
        name !in rows || (!p.admin && rows[name].owner != p.name)
      ensures r.None? ==> services.Faults() > old(services.Faults()) || !MayManage(p, services.store.services, name)
    {
      r := services.store.GetService(name);
      if r.Some? && !p.admin && r.value.owner != p.name { return None; }
    }

    /** Creates a service. missed are the containers that the quota check could not inspect. */
    method HandleCreateService(userId: int, env: int, request: Request, token: string)
      returns (created: bool, ghost missed: set<Loc>)
      requires Valid()
      modifies services`clients, services.store`services, services.store`faults, services.hosts, services.registry.xds
      ensures Valid()
      ensures userId !in users || request.name == "" || request.image == "" ==>
        !created && services.store.services == old(services.store.services)
        && services.hosts.containers == old(services.hosts.containers)
      ensures created ==>
        && userId in users && request.name in services.store.services
        && RowCreated(services.store.services[request.name], Normalised(request), users[userId].name, token, env)
      ensures userId in users ==>
        var u, req, before := users[userId], Normalised(request), old(services.hosts.containers);
        var q, svc := QuotaOn(u, grants, env), RowOf(req, u.name, token, env);
        && CreateOutcome(u, q, old(services.store.services), services.store.services, before,
                         services.hosts.containers, svc, Reserved(req), missed, created)
        && (!created ==>
              || services.Faults() > old(services.Faults()) || request.name == "" || request.image == ""
              || request.name in old(services.store.services) || !old(services.Connectable(env))
              || !Corresponds(before, svc)
              || !Permitted(u, q, before, {}, env, "", Reserved(req), req.cpuMilli, req.memMB))
    {
      missed := {};
      if request.name == "" || request.image == "" { return false, {}; }
      var req, effReplicas := Normalise(request);
      ghost var before := services.hosts.containers;
      var v;
      v, missed := EnforceServiceQuota(userId, env, effReplicas, req.cpuMilli, req.memMB, "");
      if v.Refused? { return false, missed; }
      var svc := RowOf(req, v.owner, token, env);
      created := services.Create(svc);
      CreationIsSafe(before, services.hosts.containers, users[userId], QuotaOn(users[userId], grants, env), svc,
                     effReplicas, missed);
    }

    /** Carries a permitted edit out. */
    method ApplyEdit(u: User, cur: Service, req: Request, env: int, ghost q: Option<(int, int)>, ghost missed: set<Loc>)
      returns (updated: bool)
      requires Valid() && cur.name in services.store.services && services.store.services[cur.name] == cur
      requires Normal(req)
      requires Permitted(u, q, services.hosts.containers, missed, env, cur.name, Reserved(req), req.cpuMilli, req.memMB)
      modifies services`clients, services.store`services, services.store`faults, services.hosts, services.registry.xds
      ensures Valid() && old(services.hosts.faults) <= services.hosts.faults
      ensures old(services.registry.Faults()) <= services.registry.Faults()
      ensures EditOutcome(u, q, old(services.store.services), services.store.services, old(services.hosts.containers),
                          services.hosts.containers, cur.name, req, env, missed, updated,
                          services.hosts.faults == old(services.hosts.faults))
      ensures !updated ==> services.Faults() > old(services.Faults()) || !old(services.Connectable(cur.endpointID))
    {
      ghost var before := services.hosts.containers;
      var row := RowOf(req, u.name, "", env);
      ghost var svc := Preserve(cur, row);
      updated := services.Update(cur.name, row);
      EditIsSafe(before, services.hosts.containers, u, q, svc, Reserved(req), missed);
    }

    /** Edits a service of the caller's. Its own replicas do not count against it. */
    method HandleUpdateService(p: Principal, env: int, name: string, request: Request)
      returns (updated: bool, ghost missed: set<Loc>)
      requires Valid()
      modifies services`clients, services.store`services, services.store`faults, services.hosts, services.registry.xds
      ensures Valid()
      ensures !MayManage(p, old(services.store.services), name) || p.userId !in users || request.image == "" ==>
        !updated && services.store.services == old(services.store.services)
        && services.hosts.containers == old(services.hosts.containers)
      ensures MayManage(p, old(services.store.services), name) && p.userId in users ==>
        var u, req := users[p.userId], Normalised(request);
        var q, before := QuotaOn(u, grants, env), old(services.hosts.containers);
        && EditOutcome(u, q, old(services.store.services), services.store.services, before,
                       services.hosts.containers, name, req, env, missed, updated,
                       services.hosts.faults == old(services.hosts.faults))
        && (!updated ==>
              || services.Faults() > old(services.Faults()) || request.image == "" || !old(services.Connectable(env))
              || !old(services.Connectable(services.store.services[name].endpointID))
              || !Permitted(u, q, before, {}, env, name, Reserved(req), req.cpuMilli, req.memMB))
    {
      missed := {};
      var got := OwnedService(p, name);
      if got.None? { return false, {}; }
      if request.image == "" { return false, {}; }
      var req, effReplicas := Normalise(request);
      var v;
      v, missed := EnforceServiceQuota(p.userId, env, effReplicas, req.cpuMilli, req.memMB, got.value.name);
      if v.Refused? { return false, missed; }
      updated := ApplyEdit(users[p.userId], got.value, req, env, QuotaOn(users[p.userId], grants, env), missed);
    }

    /** The limits for one container that a member asks for on the local host. The limits of the
        container it replaces are taken off the usage first. */
    method ResolveResources(userId: int, excludeId: Option<nat>, cpuMilli: int, memMB: int)
      returns (v: Verdict, nanoCPUs: int, memBytes: int, ghost missed: set<Loc>, ghost excluded: Option<nat>)
      requires Valid()
      modifies services.store`faults, services.hosts`faults
      ensures Valid() && old(services.registry.Faults()) <= services.registry.Faults()
      ensures old(services.hosts.faults) <= services.hosts.faults
      ensures v == Refused(Failure) ==> userId !in users || services.Faults() > old(services.Faults())
      ensures userId in users && users[userId].admin ==> v.Allowed? || v == Refused(Failure)
      ensures v.Allowed? ==>
        && userId in users && v.owner == users[userId].name && services.store.faults == old(services.store.faults)
        && nanoCPUs == cpuMilli * NANO_PER_MILLI && memBytes == memMB * BYTES_PER_MB
      ensures userId in users && !users[userId].admin ==>
        var u, cs := users[userId], services.hosts.containers;
        && (v.Refused? ==> v.reason == Failure || v.reason == NoQuota || v.reason == NoLimits || v.reason == Exceeded)
        && (v == Refused(NoQuota) ==> u.cpuQuotaMilli <= 0 || u.memQuotaMB <= 0)
        && (v == Refused(NoLimits) ==> cpuMilli <= 0 || memMB <= 0)
        && (v.Allowed? || v == Refused(Exceeded) ==>
              && u.cpuQuotaMilli > 0 && u.memQuotaMB > 0 && cpuMilli > 0 && memMB > 0
              && |missed| <= services.hosts.faults - old(services.hosts.faults)
              && (excluded == excludeId
                  || (excluded == None && services.hosts.faults > old(services.hosts.faults) + |missed|))
              && (v.Allowed? <==> FitsBeside(cs, missed, u, excluded, cpuMilli, memMB)))
      ensures userId in users && services.Faults() == old(services.Faults()) ==>
        var u, cs := users[userId], services.hosts.containers;
        v.Allowed? <==>
          u.admin || MemberFits(u, map[], 0, UsageBeside(cs, {}, u.name, excludeId, Cpu),
                                UsageBeside(cs, {}, u.name, excludeId, Mem), 1, cpuMilli, memMB)
    {
      missed, excluded := {}, excludeId;
      nanoCPUs, memBytes := cpuMilli * NANO_PER_MILLI, memMB * BYTES_PER_MB;
      if userId !in users { return Refused(Failure), 0, 0, {}, None; }
      var ok := Query();
      if !ok { return Refused(Failure), 0, 0, {}, None; }
      var user := users[userId];
      if user.admin { return Allowed(user.name), nanoCPUs, memBytes, {}, None; }
      if user.cpuQuotaMilli <= 0 || user.memQuotaMB <= 0 { return Refused(NoQuota), 0, 0, {}, None; }
      if cpuMilli <= 0 || memMB <= 0 { return Refused(NoLimits), 0, 0, {}, None; }
      var usedNano, usedMem;
      ok, usedNano, usedMem, missed, excluded := UsedBeside(services.hosts, user.name, excludeId);
      if !ok { return Refused(Failure), 0, 0, missed, excluded; }
      var newCPU := Quot(usedNano, NANO_PER_MILLI) + cpuMilli;
      var newMem := Quot(usedMem, BYTES_PER_MB) + memMB;
      BesideFits(services.hosts.containers, missed, user, excluded, cpuMilli, memMB);
      if newCPU > user.cpuQuotaMilli || newMem > user.memQuotaMB { return Refused(Exceeded), 0, 0, missed, excluded; }
      v := Allowed(user.name);
    }

    /** Checks the limits, always on the local host, and replaces the container. */
    method CheckAndEdit(userId: int, env: int, id: nat, request: DeploySpec, cpuMilli: int, memMB: int)
      returns (ok: bool, ghost was: Loc)
      requires Valid()
      modifies services.store`faults, services.hosts
      ensures Valid() && old(services.hosts.faults) <= services.hosts.faults
      ensures old(services.registry.Faults()) <= services.registry.Faults()
      ensures forall l :: Spared(old(services.hosts.containers), services.hosts.containers, env, id, l)
      ensures forall l :: LimitsKeptOrWhole(old(services.hosts.containers), services.hosts.containers, l)
      ensures ok ==> userId in users
      ensures userId in users && services.Faults() == old(services.Faults()) ==>
        var u, before := users[userId], old(services.hosts.containers);
        var l := Loc(env, request.name);
        var fits := u.cpuQuotaMilli > 0 && u.memQuotaMB > 0 && cpuMilli > 0 && memMB > 0
          && FitsBeside(before, {}, u, Some(id), cpuMilli, memMB);
        var free := (exists k :: HasId(before, env, id, k)) && (l !in before || HasId(before, env, id, l));
        (u.admin || fits) && free ==> ok
      ensures ok && services.hosts.faults == old(services.hosts.faults) ==>
        Edited(old(services.hosts.containers), services.hosts.containers, old(services.hosts.nextId), was, env, id,
               EditedSpec(request, was.name, users[userId].name, cpuMilli, memMB))
        && (users[userId].admin
            || FitsBeside(old(services.hosts.containers), {}, users[userId], Some(id), cpuMilli, memMB))
    {
      was := Loc(env, "");
      ghost var before := services.hosts.containers;
      var v, nanoCPUs, memBytes;
      ghost var missed, excluded;
      v, nanoCPUs, memBytes, missed, excluded := ResolveResources(userId, Some(id), cpuMilli, memMB);
      forall l ensures LimitsKeptOrWhole(before, before, l) { }
      if v.Refused? { return false, was; }
      var spec := request.(owner := v.owner, nanoCPUs := nanoCPUs, memoryBytes := memBytes, extraLabels := map[],
                           advanced := AdvancedSpec([], map[], ""));
      ok, was := services.hosts.EditContainer(env, id, spec);
      MadeIsWhole(before, services.hosts.containers, spec, cpuMilli, memMB);
    }

    /** Retires the route of the old subdomain and sets the one of the new. Failing to is ignored. */
    method UpkeepRoutes(wasSubdomain: string, request: DeploySpec, containerID: string)
      requires Valid()
      modifies services.store`routes, services.store`faults, services.registry.xds
      ensures Valid() && old(services.registry.Faults()) <= services.registry.Faults()
      ensures services.registry.Faults() == old(services.registry.Faults()) ==>
        && RoutesFollow(old(services.store.routes), services.store.routes, wasSubdomain, request, containerID)
        && (services.store.routes != old(services.store.routes) ==> services.Agreed())
      ensures forall s :: s != wasSubdomain && s != request.subdomain ==>
        RouteKept(old(services.store.routes), services.store.routes, s)
    {
      if wasSubdomain != "" && wasSubdomain != request.subdomain {
        var _ := services.registry.Delete(wasSubdomain);
      }
      if request.subdomain != "" && request.containerPort > 0 {
        var route := Route(request.subdomain, containerID, request.name, request.containerPort, 0);
        var _ := services.registry.Upsert(route);
      }
    }

    /** Replaces a container by one with new limits, and keeps the routes of a local one. */
    method HandleEditContainer(userId: int, env: int, id: nat, request: DeploySpec, cpuMilli: int, memMB: int)
      returns (ok: bool, ghost was: Loc, containerID: string)
      requires Valid()
      modifies services`clients, services.store`routes, services.store`faults, services.hosts, services.registry.xds
      ensures Valid() && old(services.hosts.faults) <= services.hosts.faults
      ensures old(services.registry.Faults()) <= services.registry.Faults()
      ensures forall l :: Spared(old(services.hosts.containers), services.hosts.containers, env, id, l)
      ensures forall l :: LimitsKeptOrWhole(old(services.hosts.containers), services.hosts.containers, l)
      ensures ok ==> userId in users && services.Connected(env)
      ensures userId in users && services.Faults() == old(services.Faults()) && old(services.Connectable(env)) ==>
        var u, before := users[userId], old(services.hosts.containers);
        var l := Loc(env, request.name);
        var fits := u.cpuQuotaMilli > 0 && u.memQuotaMB > 0 && cpuMilli > 0 && memMB > 0
          && FitsBeside(before, {}, u, Some(id), cpuMilli, memMB);
        var free := (exists k :: HasId(before, env, id, k)) && (l !in before || HasId(before, env, id, l));
        (u.admin || fits) && free ==> ok
      ensures ok && services.hosts.faults == old(services.hosts.faults) ==>
        Edited(old(services.hosts.containers), services.hosts.containers, old(services.hosts.nextId), was, env, id,
               EditedSpec(request, was.name, users[userId].name, cpuMilli, memMB))
      ensures ok && !users[userId].admin && services.hosts.faults == old(services.hosts.faults) ==>
        EditBound(old(services.hosts.containers), services.hosts.containers, users[userId], grants, was, env, cpuMilli,
                  memMB)
      ensures !ok || env != 0 ==> services.store.routes == old(services.store.routes)
      ensures ok && env == 0 && services.Faults() == old(services.Faults()) ==>
        && RoutesFollow(old(services.store.routes), services.store.routes,
                        SubdomainOf(old(services.hosts.containers)[was]), request, containerID)
        && (services.store.routes != old(services.store.routes) ==> services.Agreed())
    {
      was, containerID := Loc(env, ""), "";
      ghost var before, nextId := services.hosts.containers, services.hosts.nextId;
      forall l ensures LimitsKeptOrWhole(before, before, l) { }
      ok := services.DockerFor(env);
      if !ok { return; }
      var oldSubdomain := "";
      var info := services.hosts.Inspect(env, id);
      if info.Some? { oldSubdomain := SubdomainOf(info.value.1); }
      ok, was := CheckAndEdit(userId, env, id, request, cpuMilli, memMB);
      if !ok { return; }
      containerID := *;
      if services.hosts.faults == old(services.hosts.faults) && !users[userId].admin {
        EditIsBounded(before, services.hosts.containers, nextId, users[userId], grants, was, env, id, request, cpuMilli,
                      memMB);
      }
      if services.hosts.faults == old(services.hosts.faults) && info.Some? {
        SameContainer(before, nextId, env, id, was, Loc(env, info.value.0));
      }
      if env == 0 { UpkeepRoutes(oldSubdomain, request, containerID); }
    }

    /** The route is served on the selected host. Once it is set, requests for its subdomain there reach its
        target, unless a service has claimed the subdomain or diverts it. */
    method HandleUpsertRoute(route: Route, env: int) returns (ok: bool)
      requires Valid()
      modifies services.store`routes, services.store`faults, services.registry.xds
      ensures Valid()
      ensures !ok ==> services.Faults() > old(services.Faults()) || route.subdomain == "" || route.targetPort <= 0
      ensures var r, rows := route.(endpointID := env), old(services.store.routes);
              && (ok ==> route.subdomain != "" && route.targetPort > 0)
              && (ok ==> services.store.routes == rows[route.subdomain := r])
              && (services.store.routes == rows || services.store.routes == rows[route.subdomain := r])
      ensures ok && Xds.LocalNodeDistinct(services.registry.xds.nodeID) && ':' !in services.registry.baseDomain
              && Addresses.Unclaimed(services.store.Data(), route.subdomain) && route.targetPort < 0x1_0000_0000 ==>
        Addresses.RouteInForce(services.store.Data(), services.registry.baseDomain, services.registry.xds.nodeID,
                               services.registry.xds.cache, route.(endpointID := env))
    {
      ok := services.registry.Upsert(route.(endpointID := env));
      if ok && Xds.LocalNodeDistinct(services.registry.xds.nodeID) && ':' !in services.registry.baseDomain
         && Addresses.Unclaimed(services.store.Data(), route.subdomain) && route.targetPort < 0x1_0000_0000
      {
        Addresses.PublishedRoute(services.registry, route.subdomain);
      }
    }

    /** Once a route is deleted, the host of its subdomain leads to a service or nowhere, on every Envoy. */
    method HandleDeleteRoute(subdomain: string) returns (ok: bool)
      requires Valid()
      modifies services.store`routes, services.store`faults, services.registry.xds
      ensures Valid() && (!ok ==> services.Faults() > old(services.Faults()))
      ensures ok ==> services.store.routes == old(services.store.routes) - {subdomain}
      ensures services.store.routes == old(services.store.routes)
           || services.store.routes == old(services.store.routes) - {subdomain}
      ensures ok && Xds.LocalNodeDistinct(services.registry.xds.nodeID) && ':' !in services.registry.baseDomain ==>
        forall id :: id == 0 || id in services.store.endpoints ==>
          Addresses.NoRouteInForce(services.store.Data(), services.registry.baseDomain, services.registry.xds.nodeID,
                                   services.registry.xds.cache, subdomain, id)
    {
      ok := services.registry.Delete(subdomain);
      if ok && Xds.LocalNodeDistinct(services.registry.xds.nodeID) && ':' !in services.registry.baseDomain {
        forall id | id == 0 || id in services.store.endpoints
          ensures Addresses.NoRouteInForce(services.store.Data(), services.registry.baseDomain,
                                           services.registry.xds.nodeID, services.registry.xds.cache, subdomain, id)
        {
          Addresses.RetiredRoute(services.registry, subdomain, id);
        }
      }
    }

    /** Sets or clears the custom subdomain; only a single label is accepted. */
    method HandleSetServiceSubdomain(p: Principal, name: string, subdomain: string) returns (ok: bool)
      requires Valid()
      modifies services.store`services, services.store`faults, services.registry.xds
      ensures Valid()
      ensures services.store.services != old(services.store.services) ==>
        MayManage(p, old(services.store.services), name)
      ensures !ok ==>
        || services.Faults() > old(services.Faults()) || !MayManage(p, old(services.store.services), name)
        || (Slug.Lower(Slug.TrimSpace(subdomain)) != "" && !Slug.IsLabel(Slug.Lower(Slug.TrimSpace(subdomain))))
      ensures var sub := Slug.Lower(Slug.TrimSpace(subdomain));
              && (sub != "" && !Slug.IsLabel(sub) ==> !ok)
              && (services.store.services == old(services.store.services)
                  || (name in old(services.store.services)
                      && var rows := old(services.store.services);
                         services.store.services == rows[name := rows[name].(subdomain := sub)]))
      ensures LabelsOnly(old(services.store.services)) ==> LabelsOnly(services.store.services)
      ensures ok ==> services.Agreed()
    {
      var got := OwnedService(p, name);
      if got.None? { return false; }
      var sub := Slug.Lower(Slug.TrimSpace(subdomain));
      if sub != "" && !Slug.IsLabel(sub) { return false; }
      ok := services.SetSubdomain(got.value.name, sub);
    }
  }

  /** Every custom subdomain is a single label. */
  ghost predicate LabelsOnly(rows: map<string, Service>) {
    forall n :: n in rows && rows[n].subdomain != "" ==> Slug.IsLabel(rows[n].subdomain)
  }

  // ------------------------------------------- a subdomain that takes an auto host

  function Asking(name: string, subdomain: string): Request {
    Request(name, "image", subdomain, 80, "", [], 100, 100, 1, 1, 1, false, 70, "", "", "", AdvancedSpec([], map[], ""))
  }

  function Accepted(name: string, subdomain: string): Service
  {
    RowOf(Normalised(Asking(name, subdomain)), "ann", "token", 0)
  }

  function Taken(): Store.Database {
    Store.Database(map["a" := Accepted("a", "b.local"), "b" := Accepted("b", "")], map[], map[])
  }

  /** Creating a service does not look at the custom subdomain: with "b.local" service "a" takes the auto
      host of service "b", which then leads to a's replica. */
  lemma SubdomainTakesAutoHost(base: string, nodeBase: string)
    requires base != "" && ':' !in base
    ensures Taken().Valid() && Registry.Live(Taken().services["b"]) && Taken().services["a"].subdomain == "b.local"
    ensures var node := Xds.ConfigOf(Registry.ForEnv(Registry.Compile(Taken(), base), 0), nodeBase);
            Xds.Resolve(node, Registry.AutoHost("b", "local", base)) == Xds.Backend([(ReplicaName("a", 0), 80)])
  {
    TakenIsShadowed();
    OtherAnswers(Taken(), base, nodeBase, Taken().services["a"], Taken().services["b"]);
  }

  /** Of two services the shadowed one's auto host leads to the other. */
  lemma OtherAnswers(db: Store.Database, base: string, nodeBase: string, a: Service, b: Service)
    requires db.Valid() && base != "" && ':' !in base
    requires forall n :: n in db.services <==> n == a.name || n == b.name
    requires db.services[a.name] == a && db.services[b.name] == b
    requires Registry.Live(b) && Routing.Shadowed(db, b) && a.replicas == 1 && a.containerPort == 80
    ensures var node := Xds.ConfigOf(Registry.ForEnv(Registry.Compile(db, base), b.endpointID), nodeBase);
            var h := Registry.AutoHost(b.name, Registry.SlugName(db.endpoints, b.endpointID), base);
            Xds.Resolve(node, h) == Xds.Backend([(ReplicaName(a.name, 0), 80)])
  {
    var first := Routing.AutoHostAnswer(db, base, nodeBase, b, false);
    assert first.name != b.name;
    OneReplica(first);
  }

  lemma OneReplica(s: Service)
    requires s.replicas == 1 && s.containerPort == 80
    ensures Xds.Endpoints(ReplicaNames(s.name, s.replicas), Registry.ToUint32(s.containerPort))
         == [(ReplicaName(s.name, 0), 80)]
  {
    var names := ReplicaNames(s.name, 1);
    assert |names| == 1 && names[0] == ReplicaName(s.name, 0);
    assert Registry.ToUint32(80) == 80;
  }

  lemma TakenIsShadowed()
    ensures var db := Taken();
            && db.Valid() && Routing.Shadowed(db, db.services["b"])
            && (forall n :: n in db.services <==> n == "a" || n == "b")
            && db.services["a"].name == "a" && db.services["b"].name == "b"
            && db.services["a"].replicas == 1 && db.services["a"].containerPort == 80
            && Registry.Live(db.services["a"]) && Registry.Live(db.services["b"])
  {
    var db := Taken();
    var a, b := db.services["a"], db.services["b"];
    assert Routing.Slugged(b, map[]) == "b" + "." + "local";
    assert "b" + "." + "local" == "b.local";
    assert Le("a", "b");
    assert Routing.Shadows(a, b, map[]);
  }
}
