/** Subdomain routing: the store's services and routes are resolved to upstreams, split by
    environment and pushed, one snapshot a node. */
module Registry {
  import opened Text
  import opened Specs
  import Collections
  import Slug
  import Store
  import Xds

  // ------------------------------------------------------------ service source

  /** A service's contribution, before it has match domains. */
  datatype ServiceUpstream = ServiceUpstream(
    service: string, subdomain: string, hosts: seq<string>, port: Xds.uint32, endpointID: int)

  /** Go's conversion to uint32. */
  function ToUint32(x: int): Xds.uint32 { x % 0x1_0000_0000 }

  predicate Live(s: Service) { s.containerPort != 0 && s.replicas > 0 }

  function UpstreamOf(s: Service): ServiceUpstream
    requires Live(s)
  {
    ServiceUpstream(s.name, s.subdomain, ReplicaNames(s.name, s.replicas), ToUint32(s.containerPort), s.endpointID)
  }

  function UpstreamsOf(svcs: seq<Service>): (r: seq<ServiceUpstream>) {
    if svcs == [] then []
    else
      var last := svcs[|svcs| - 1];
      UpstreamsOf(svcs[..|svcs| - 1]) + if Live(last) then [UpstreamOf(last)] else []
  }

  method Upstreams(svcs: seq<Service>) returns (ups: seq<ServiceUpstream>)
    ensures ups == UpstreamsOf(svcs)
  {
    ups := [];
    for i := 0 to |svcs|
      invariant ups == UpstreamsOf(svcs[..i])
    {
      var svc := svcs[i];
      assert svcs[..i + 1][..i] == svcs[..i];
      if svc.containerPort == 0 || svc.replicas <= 0 { continue; }
      var hosts := [];
      for k := 0 to svc.replicas
        invariant hosts == ReplicaNames(svc.name, k)
      {
        hosts := hosts + [ReplicaName(svc.name, k)];
      }
      ups := ups + [ServiceUpstream(svc.name, svc.subdomain, hosts, ToUint32(svc.containerPort), svc.endpointID)];
    }
    assert svcs[..|svcs|] == svcs;
  }

  // ---------------------------------------------------------------- compilation

  /** A service whose environment is gone falls back to the local label. */
  function SlugName(eps: map<int, Endpoint>, id: int): string {
    if id in eps then Slug.SlugOf(eps[id].name) else "local"
  }

  function AutoHost(service: string, slug: string, base: string): string { service + "." + slug + "." + base }
  function CustomHost(subdomain: string, base: string): string { subdomain + "." + base }

  /** The host names a service is reachable at. */
  function HostsOf(service: string, subdomain: string, slug: string, base: string): seq<string> {
    [AutoHost(service, slug, base)] + if subdomain != "" then [CustomHost(subdomain, base)] else []
  }

  function ServiceKey(slug: string, name: string): string { "svc-" + slug + "-" + name }

  function FromService(u: ServiceUpstream, eps: map<int, Endpoint>, base: string): Xds.Upstream {
    var slug := SlugName(eps, u.endpointID);
    Xds.Upstream(ServiceKey(slug, u.service), u.subdomain, HostsOf(u.service, u.subdomain, slug, base),
                 u.hosts, u.port, u.endpointID)
  }

  function FromRoute(r: Route, base: string): Xds.Upstream {
    Xds.Upstream("rt-" + r.subdomain, r.subdomain, [CustomHost(r.subdomain, base)], [r.targetHost],
                 ToUint32(r.targetPort), r.endpointID)
  }

  function ServicePart(us: seq<ServiceUpstream>, eps: map<int, Endpoint>, base: string): (r: seq<Xds.Upstream>) {
    if us == [] then []
    else
      var last := us[|us| - 1];
      ServicePart(us[..|us| - 1], eps, base) + if last.hosts != [] then [FromService(last, eps, base)] else []
  }

  /** The custom subdomains that services own, whatever their environment. */
  function Claimed(us: seq<ServiceUpstream>): set<string> {
    set u | u in us && u.hosts != [] && u.subdomain != "" :: u.subdomain
  }

  function RoutePart(routes: seq<Route>, claimed: set<string>, base: string): (r: seq<Xds.Upstream>) {
    if routes == [] then []
    else
      var last := routes[|routes| - 1];
      RoutePart(routes[..|routes| - 1], claimed, base)
      + if last.subdomain in claimed then [] else [FromRoute(last, base)]
  }

  ghost function Compile(db: Store.Database, base: string): seq<Xds.Upstream> {
    var us := UpstreamsOf(Store.InOrder(db.services));
    ServicePart(us, db.endpoints, base) + RoutePart(Store.InOrder(db.routes), Claimed(us), base)
  }

  function ForEnv(ups: seq<Xds.Upstream>, id: int): (r: seq<Xds.Upstream>) {
    if ups == [] then []
    else ForEnv(ups[..|ups| - 1], id) + if ups[|ups| - 1].endpointID == id then [ups[|ups| - 1]] else []
  }

  /** The nodes a publish pushes to: the local one, every known environment, and every environment
      that has an upstream. */
  function NodesOf(ups: seq<Xds.Upstream>, eps: map<int, Endpoint>): set<int> {
    {0} + eps.Keys + set u | u in ups :: u.endpointID
  }

  lemma ServicePartStep(us: seq<ServiceUpstream>, i: nat, eps: map<int, Endpoint>, base: string)
    requires i < |us|
    ensures us[i].hosts == [] ==> ServicePart(us[..i + 1], eps, base) == ServicePart(us[..i], eps, base)
    ensures us[i].hosts != [] ==>
      ServicePart(us[..i + 1], eps, base) == ServicePart(us[..i], eps, base) + [FromService(us[i], eps, base)]
  {
    assert us[..i + 1][..i] == us[..i];
  }

  /** The configurations of some environments. */
  ghost function ConfigsOf(ups: seq<Xds.Upstream>, ids: set<int>, nodeBase: string): (w: map<int, Xds.Config>)
    ensures forall id :: id in w <==> id in ids
    ensures forall id :: id in w ==> w[id] == Xds.ConfigOf(ForEnv(ups, id), nodeBase)
  {
    if ids == {} then map[]
    else
      var id := Collections.AnyOf(ids);
      ConfigsOf(ups, ids - {id}, nodeBase)[id := Xds.ConfigOf(ForEnv(ups, id), nodeBase)]
  }

  /** What each node must serve, given the tables. */
  ghost function WantedConfigs(db: Store.Database, base: string, nodeBase: string): (w: map<int, Xds.Config>)
    ensures forall id :: id in w <==> id in NodesOf(Compile(db, base), db.endpoints)
    ensures forall id :: id in w ==> w[id] == Xds.ConfigOf(ForEnv(Compile(db, base), id), nodeBase)
  {
    ConfigsOf(Compile(db, base), NodesOf(Compile(db, base), db.endpoints), nodeBase)
  }

  /** The label of each environment, for the auto hosts. */
  method ServerSlugs(eps: map<int, Endpoint>) returns (serverSlug: map<int, string>)
    requires 0 !in eps
    ensures serverSlug.Keys == {0} + eps.Keys
    ensures forall id :: id in serverSlug ==> serverSlug[id] == SlugName(eps, id) != ""
  {
    serverSlug := map[0 := "local"];
    var todo := eps.Keys;
    while todo != {}
      invariant todo <= eps.Keys
      invariant serverSlug.Keys == {0} + (eps.Keys - todo)
      invariant forall id :: id in serverSlug ==> serverSlug[id] == SlugName(eps, id) != ""
      decreases todo
    {
      var id := Collections.Pick(todo);
      Slug.SlugHasNoDot(eps[id].name);
      var slug := Slug.MakeSlug(eps[id].name);
      serverSlug := serverSlug[id := slug];
      todo := todo - {id};
    }
  }

  method ResolveService(u: ServiceUpstream, serverSlug: map<int, string>, eps: map<int, Endpoint>, base: string)
    returns (up: Xds.Upstream)
    requires serverSlug.Keys == {0} + eps.Keys && 0 !in eps
    requires forall id :: id in serverSlug ==> serverSlug[id] == SlugName(eps, id) != ""
    ensures up == FromService(u, eps, base)
  {
    var slugName := if u.endpointID in serverSlug then serverSlug[u.endpointID] else "";
    if slugName == "" { slugName := "local"; }
    var domains := [AutoHost(u.service, slugName, base)];
    if u.subdomain != "" { domains := domains + [CustomHost(u.subdomain, base)]; }
    assert domains == HostsOf(u.service, u.subdomain, slugName, base);
    up := Xds.Upstream(ServiceKey(slugName, u.service), u.subdomain, domains, u.hosts, u.port, u.endpointID);
  }

  lemma ClaimedStep(us: seq<ServiceUpstream>, i: nat)
    requires i < |us|
    ensures Claimed(us[..i + 1])
         == Claimed(us[..i]) + if us[i].hosts != [] && us[i].subdomain != "" then {us[i].subdomain} else {}
  {
    assert us[..i + 1] == us[..i] + [us[i]];
  }

  method CollectServices(svcUps: seq<ServiceUpstream>, eps: map<int, Endpoint>, base: string)
    returns (ups: seq<Xds.Upstream>, svcSubs: set<string>)
    requires 0 !in eps
    ensures ups == ServicePart(svcUps, eps, base) && svcSubs == Claimed(svcUps)
  {
    var serverSlug := ServerSlugs(eps);
    ups := [];
    svcSubs := {};
    for i := 0 to |svcUps|
      invariant ups == ServicePart(svcUps[..i], eps, base)
      invariant svcSubs == Claimed(svcUps[..i])
    {
      var u := svcUps[i];
      ServicePartStep(svcUps, i, eps, base);
      ClaimedStep(svcUps, i);
      if |u.hosts| == 0 { continue; }
      if u.subdomain != "" { svcSubs := svcSubs + {u.subdomain}; }
      var up := ResolveService(u, serverSlug, eps, base);
      ups := ups + [up];
    }
    assert svcUps[..|svcUps|] == svcUps;
  }

  method CollectUpstreams(svcUps: seq<ServiceUpstream>, routes: seq<Route>, eps: map<int, Endpoint>, base: string)
    returns (ups: seq<Xds.Upstream>)
    requires 0 !in eps
    ensures ups == ServicePart(svcUps, eps, base) + RoutePart(routes, Claimed(svcUps), base)
  {
    var svcSubs;
    ups, svcSubs := CollectServices(svcUps, eps, base);
    ghost var services := ups;
    for i := 0 to |routes|
      invariant ups == services + RoutePart(routes[..i], svcSubs, base)
    {
      assert routes[..i + 1][..i] == routes[..i];
      if routes[i].subdomain in svcSubs { continue; }
      ups := ups + [FromRoute(routes[i], base)];
    }
    assert routes[..|routes|] == routes;
  }

  predicate Grouped(byEnv: map<int, seq<Xds.Upstream>>, ups: seq<Xds.Upstream>, id: int) {
    ForEnv(ups, id) == if id in byEnv then byEnv[id] else []
  }

  lemma ForEnvStep(ups: seq<Xds.Upstream>, i: nat, id: int)
    requires i < |ups|
    ensures ForEnv(ups[..i + 1], id) == ForEnv(ups[..i], id) + if ups[i].endpointID == id then [ups[i]] else []
  {
    assert ups[..i + 1][..i] == ups[..i];
  }

  method GroupByEnv(ups: seq<Xds.Upstream>) returns (byEnv: map<int, seq<Xds.Upstream>>)
    ensures byEnv.Keys == set u | u in ups :: u.endpointID
    ensures forall id :: Grouped(byEnv, ups, id)
  {
    byEnv := map[];
    for i := 0 to |ups|
      invariant byEnv.Keys == set u | u in ups[..i] :: u.endpointID
      invariant forall id :: Grouped(byEnv, ups[..i], id)
    {
      var u := ups[i];
      ghost var was := byEnv;
      var before := if u.endpointID in byEnv then byEnv[u.endpointID] else [];
      byEnv := byEnv[u.endpointID := before + [u]];
      assert ups[..i + 1] == ups[..i] + [u];
      ghost var read := ups[..i + 1];
      forall id ensures Grouped(byEnv, read, id) {
        assert Grouped(was, ups[..i], id);
        ForEnvStep(ups, i, id);
      }
    }
    assert ups[..|ups|] == ups;
  }

  // ------------------------------------------------------------------- Registry

  class Registry {
    const store: Store.Store
    const xds: Xds.Manager
    const baseDomain: string

    ghost predicate Valid() reads store`services, store`routes, store`endpoints, xds`version, xds`cache {
      store.Valid() && xds.Valid() && baseDomain != ""
    }

    constructor (store: Store.Store, xds: Xds.Manager, baseDomain: string)
      requires store.Valid() && xds.Valid()
      ensures Valid() && this.store == store && this.xds == xds
      ensures this.baseDomain == if baseDomain == "" then "localhost" else baseDomain
    {
      this.store := store;
      this.xds := xds;
      this.baseDomain := if baseDomain == "" then "localhost" else baseDomain;
    }

    /** Statements that failed and pushes that were refused. */
    ghost function Faults(): nat reads store`faults, xds`refusals { store.faults + xds.refusals }

    function NodeId(id: int): string { Xds.NodeForEndpoint(xds.nodeID, id) }

    ghost function Wanted(db: Store.Database): map<int, Xds.Config> {
      WantedConfigs(db, baseDomain, xds.baseDomain)
    }

    ghost predicate Serves(wanted: map<int, Xds.Config>, cache: map<string, Xds.Snapshot>, id: int)
      requires id in wanted
    {
      NodeId(id) in cache && cache[NodeId(id)].config == wanted[id]
    }

    /** Every node serves what is wanted of it. */
    ghost predicate Agrees(wanted: map<int, Xds.Config>, cache: map<string, Xds.Snapshot>) {
      forall id :: id in wanted ==> Serves(wanted, cache, id)
    }

    /** A node's snapshot is the old one, or a newer one that serves what is wanted. */
    ghost predicate OldOrCompiled(wanted: map<int, Xds.Config>, before: map<string, Xds.Snapshot>, version: int,
                                  cache: map<string, Xds.Snapshot>, n: string)
      requires n in cache
    {
      || (n in before && cache[n] == before[n])
      || (cache[n].version > version && exists id :: id in wanted && n == NodeId(id) && Serves(wanted, cache, id))
    }

    /** How far a publish has come: what it pushed so far, and that it touched nothing else. */
    ghost predicate Pushed(wanted: map<int, Xds.Config>, before: map<string, Xds.Snapshot>, version: int,
                           cache: map<string, Xds.Snapshot>, done: set<int>) {
      && done <= wanted.Keys
      && before.Keys <= cache.Keys
      && (forall n :: n in cache ==> OldOrCompiled(wanted, before, version, cache, n))
      && (Xds.NodesInjective(xds.nodeID) ==> forall id :: id in done ==> Serves(wanted, cache, id))
    }

    lemma PushStep(wanted: map<int, Xds.Config>, before: map<string, Xds.Snapshot>, version: int,
                   cache: map<string, Xds.Snapshot>, done: set<int>, id: int, snap: Xds.Snapshot)
      requires Pushed(wanted, before, version, cache, done)
      requires id in wanted && snap.config == wanted[id] && snap.version > version
      ensures Pushed(wanted, before, version, cache[NodeId(id) := snap], done + {id})
    {
      var after := cache[NodeId(id) := snap];
      assert Serves(wanted, after, id);
      forall n | n in after ensures OldOrCompiled(wanted, before, version, after, n) {
        if n != NodeId(id) {
          assert OldOrCompiled(wanted, before, version, cache, n);
          if !(n in before && cache[n] == before[n]) {
            var j :| j in wanted && n == NodeId(j) && Serves(wanted, cache, j);
            assert Serves(wanted, after, j);
          }
        }
      }
      if Xds.NodesInjective(xds.nodeID) {
        forall j | j in done ensures Serves(wanted, after, j) {
          assert Serves(wanted, cache, j);
        }
      }
    }

    /** What will be pushed to a node is what is wanted of it. */
    ghost predicate Planned(wanted: map<int, Xds.Config>, byEnv: map<int, seq<Xds.Upstream>>, id: int) {
      id in wanted && wanted[id] == Xds.ConfigOf(if id in byEnv then byEnv[id] else [], xds.baseDomain)
    }

    /** Pushes the nodes in whatever order the map yields them, and stops at the first refusal. */
    method Push(nodes: set<int>, byEnv: map<int, seq<Xds.Upstream>>, ghost wanted: map<int, Xds.Config>)
      returns (ok: bool)
      requires xds.Valid() && nodes == wanted.Keys && forall id :: id in nodes ==> Planned(wanted, byEnv, id)
      modifies xds
      ensures xds.Valid() && old(xds.version) <= xds.version
      ensures xds.refusals == old(xds.refusals) + if ok then 0 else 1
      ensures Pushed(wanted, old(xds.cache), old(xds.version), xds.cache, if ok then nodes else {})
    {
      var todo := nodes;
      ghost var done: set<int> := {};
      while todo != {}
        invariant xds.Valid() && old(xds.version) <= xds.version && xds.refusals == old(xds.refusals)
        invariant done + todo == nodes
        invariant Pushed(wanted, old(xds.cache), old(xds.version), xds.cache, done)
        decreases todo
      {
        var id := Collections.Pick(todo);
        assert Planned(wanted, byEnv, id);
        PushStep(wanted, old(xds.cache), old(xds.version), xds.cache, done, id,
                 Xds.Snapshot(xds.version + 1, wanted[id]));
        ok := xds.Update(NodeId(id), if id in byEnv then byEnv[id] else []);
        if !ok { return; }
        todo := todo - {id};
        done := done + {id};
      }
      assert done == nodes;
      ok := true;
    }

    /** Reads the tables and compiles them. */
    method Plan() returns (ok: bool, nodes: set<int>, byEnv: map<int, seq<Xds.Upstream>>)
      requires Valid()
      modifies store`faults
      ensures store.faults == old(store.faults) + if ok then 0 else 1
      ensures ok ==> nodes == Wanted(store.Data()).Keys
      ensures ok ==> forall id :: id in nodes ==> Planned(Wanted(store.Data()), byEnv, id)
    {
      nodes, byEnv := {}, map[];
      var eps, svcs, routes;
      ok, eps := store.ListEndpoints();
      if !ok { return; }
      ok, svcs := store.ListServices();
      if !ok { return; }
      var svcUps := Upstreams(svcs);
      ok, routes := store.ListRoutes();
      if !ok { return; }
      var ups := CollectUpstreams(svcUps, routes, eps, baseDomain);
      byEnv := GroupByEnv(ups);
      nodes := {0} + eps.Keys + byEnv.Keys;
      forall id | id in nodes ensures Planned(Wanted(store.Data()), byEnv, id) { assert Grouped(byEnv, ups, id); }
    }

    /** Reads the tables, compiles them and pushes every node. */
    method Publish() returns (ok: bool)
      requires Valid()
      modifies xds, store`faults
      ensures Valid() && old(xds.version) <= xds.version
      ensures Faults() == old(Faults()) + if ok then 0 else 1
      ensures Pushed(Wanted(store.Data()), old(xds.cache), old(xds.version), xds.cache, {})
      ensures ok && Xds.LocalNodeDistinct(xds.nodeID) ==> Agrees(Wanted(store.Data()), xds.cache)
    {
      ghost var wanted := Wanted(store.Data());
      var nodes, byEnv;
      ok, nodes, byEnv := Plan();
      if !ok { return; }
      ok := Push(nodes, byEnv, wanted);
      if Xds.LocalNodeDistinct(xds.nodeID) { Xds.NodeForEndpointInjective(xds.nodeID); }
    }

    method Sync() returns (ok: bool)
      requires Valid()
      modifies xds, store`faults
      ensures Valid()
      ensures Faults() == old(Faults()) + if ok then 0 else 1
      ensures Pushed(Wanted(store.Data()), old(xds.cache), old(xds.version), xds.cache, {})
      ensures ok && Xds.LocalNodeDistinct(xds.nodeID) ==> Agrees(Wanted(store.Data()), xds.cache)
    {
      ok := Publish();
    }

    method Upsert(route: Route) returns (ok: bool)
      requires Valid()
      modifies store`routes, store`faults, xds
      ensures Valid()
      ensures Faults() == old(Faults()) + if ok || route.subdomain == "" || route.targetPort <= 0 then 0 else 1
      ensures route.subdomain == "" || route.targetPort <= 0 ==>
        !ok && store.routes == old(store.routes) && xds.cache == old(xds.cache)
      ensures store.routes == old(store.routes) || store.routes == old(store.routes)[route.subdomain := route]
      ensures ok ==> store.routes == old(store.routes)[route.subdomain := route]
      ensures ok && Xds.LocalNodeDistinct(xds.nodeID) ==> Agrees(Wanted(store.Data()), xds.cache)
    {
      if route.subdomain == "" { return false; }
      if route.targetPort <= 0 { return false; }
      ok := store.UpsertRoute(route);
      if !ok { return; }
      ok := Publish();
    }

    method Delete(subdomain: string) returns (ok: bool)
      requires Valid()
      modifies store`routes, store`faults, xds
      ensures Valid()
      ensures Faults() == old(Faults()) + if ok then 0 else 1
      ensures store.routes == old(store.routes) || store.routes == old(store.routes) - {subdomain}
      ensures ok ==> store.routes == old(store.routes) - {subdomain}
      ensures ok && Xds.LocalNodeDistinct(xds.nodeID) ==> Agrees(Wanted(store.Data()), xds.cache)
    {
      ok := store.DeleteRoute(subdomain);
      if !ok { return; }
      ok := Publish();
    }

    /** The addresses the API shows for a service: the ones that publish routes, if the database
        answers. */
    method ServiceDomains(service: string, subdomain: string, endpointID: int) returns (domains: seq<string>)
      requires Valid()
      modifies store`faults
      ensures old(store.faults) <= store.faults && (endpointID == 0 ==> store.faults == old(store.faults))
      ensures var read := store.faults == old(store.faults);
              var slugName := if read && endpointID in store.endpoints
                              then Slug.SlugOf(store.endpoints[endpointID].name) else "local";
              domains == [service + "." + slugName + "." + baseDomain]
                         + if subdomain != "" then [subdomain + "." + baseDomain] else []
    {
      var slugName := "local";
      if endpointID != 0 {
        var ep := store.GetEndpoint(endpointID);
        if ep.Some? { slugName := Slug.MakeSlug(ep.value.name); }
      }
      domains := [AutoHost(service, slugName, baseDomain)];
      if subdomain != "" { domains := domains + [CustomHost(subdomain, baseDomain)]; }
    }
  }
}
