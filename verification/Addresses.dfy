/** Who answers at which host name, in terms of the stored rows alone: the addresses that a finished
    publish serves, spelled out character by character. */
module Addresses {
  import opened Text
  import opened Specs
  import Registry
  import Routing
  import Slug
  import Store
  import Xds

  /** Service n runs replicas on environment id, and sub is the pair of its name and that server's
      label, or its custom subdomain. */
  predicate Serves(db: Store.Database, id: int, sub: string, n: string) {
    && n in db.services
    && var s := db.services[n];
       && s.containerPort != 0 && s.replicas > 0 && s.endpointID == id
       && (|| sub == n + "." + (if id in db.endpoints then Slug.SlugOf(db.endpoints[id].name) else "local")
           || (sub == s.subdomain && sub != ""))
  }

  ghost predicate ServesFirst(db: Store.Database, id: int, sub: string, n: string) {
    Serves(db, id, sub, n) && forall m :: Serves(db, id, sub, m) ==> Le(n, m)
  }

  /** No service with replicas, on whichever environment, has this custom subdomain. */
  ghost predicate Unclaimed(db: Store.Database, sub: string) {
    sub == ""
    || forall n :: n in db.services && db.services[n].containerPort != 0 && db.services[n].replicas > 0 ==>
         db.services[n].subdomain != sub
  }

  /** A route of this environment holds sub. */
  ghost predicate RoutedHere(db: Store.Database, id: int, sub: string) {
    sub in db.routes && db.routes[sub].endpointID == id && Unclaimed(db, sub)
  }

  /** Requests are balanced over containers <name>-0 to <name>-(N-1), at the service's port. */
  predicate IsReplicaSet(a: Xds.Answer, s: Service) {
    && a.Backend? && |a.endpoints| == s.replicas
    && forall i :: 0 <= i < |a.endpoints| ==>
         a.endpoints[i] == (s.name + "-" + Itoa(i), s.containerPort % 0x1_0000_0000)
  }

  /** The host name of sub under the base domain, with or without an explicit port. */
  function Host(sub: string, base: string, ported: bool): string {
    sub + "." + base + if ported then ":*" else ""
  }

  ghost function AnswerOn(db: Store.Database, base: string, nodeBase: string, id: int, h: string): Xds.Answer {
    Xds.Resolve(Routing.NodeConfig(db, base, nodeBase, id), h)
  }

  // ------------------------------------------------------------- the services' part

  lemma HostSpelled(sub: string, base: string, ported: bool)
    ensures Host(sub, base, ported) == Routing.Ported(sub + "." + base, ported)
  {
    assert sub + "." + base + "" == sub + "." + base;
  }

  lemma HostsApart(a: string, b: string, base: string, ported: bool)
    requires base != "" && ':' !in base
    ensures Host(a, base, ported) == b + "." + base || Host(a, base, ported) == (b + "." + base) + ":*" <==> a == b
  {
    HostSpelled(a, base, ported);
    Routing.HostsMeet(a, b, base);
  }

  lemma AnswersIffServes(db: Store.Database, base: string, id: int, sub: string, ported: bool, n: string)
    requires db.Valid() && base != "" && ':' !in base && n in db.services
    ensures Routing.Answers(db.services[n], db.endpoints, base, id, Host(sub, base, ported)) <==> Serves(db, id, sub, n)
  {
    var s := db.services[n];
    HostsApart(sub, Routing.Slugged(s, db.endpoints), base, ported);
    HostsApart(sub, s.subdomain, base, ported);
    if s.endpointID == id {
      assert Routing.Slugged(s, db.endpoints)
          == n + "." + (if id in db.endpoints then Slug.SlugOf(db.endpoints[id].name) else "local");
    }
  }

  /** The first service to answer is the least that serves. */
  lemma FirstServes(db: Store.Database, base: string, id: int, sub: string, ported: bool)
    returns (first: Option<string>)
    requires db.Valid() && base != "" && ':' !in base
    ensures var f := Routing.FirstServing(Store.InOrder(db.services), db.endpoints, base, id, Host(sub, base, ported));
            match first
            case Some(n) => ServesFirst(db, id, sub, n) && f == Some(db.services[n])
            case None => f == None && forall n :: !Serves(db, id, sub, n)
  {
    var svcs, keys, h := Store.InOrder(db.services), Ordered(db.services.Keys), Host(sub, base, ported);
    forall j | 0 <= j < |svcs|
      ensures keys[j] in db.services && svcs[j] == db.services[keys[j]]
      ensures Routing.Answers(svcs[j], db.endpoints, base, id, h) <==> Serves(db, id, sub, keys[j])
    {
      assert keys[j] in keys;
      AnswersIffServes(db, base, id, sub, ported, keys[j]);
    }
    if exists j :: 0 <= j < |svcs| && Routing.Answers(svcs[j], db.endpoints, base, id, h) {
      var i := Routing.FirstServingIsFirst(svcs, db.endpoints, base, id, h);
      first := Some(keys[i]);
      forall m | Serves(db, id, sub, m) ensures Le(keys[i], m) {
        var k := Routing.PlaceOf(db.services, m);
        if k == i { LeTotal(m, m); }
      }
    } else {
      Routing.NobodyServes(svcs, db.endpoints, base, id, h);
      first := None;
      forall n ensures !Serves(db, id, sub, n) {
        if n in db.services {
          var k := Routing.PlaceOf(db.services, n);
          AnswersIffServes(db, base, id, sub, ported, n);
        }
      }
    }
  }

  // --------------------------------------------------------------- the routes' part

  predicate HoldsHost(r: Route, claimed: set<string>, id: int, sub: string) {
    r.subdomain == sub && r.endpointID == id && sub !in claimed
  }

  lemma RouteMatches(r: Route, base: string, nodeBase: string, sub: string, ported: bool)
    requires base != "" && ':' !in base
    ensures Host(sub, base, ported) in Xds.MatchDomains(Registry.FromRoute(r, base), nodeBase) <==> r.subdomain == sub
  {
    var d := r.subdomain + "." + base;
    Routing.MatchesExplicit(Registry.FromRoute(r, base), nodeBase, Host(sub, base, ported));
    assert d in Registry.FromRoute(r, base).domains;
    HostsApart(sub, r.subdomain, base, ported);
  }

  /** The route that claims the host among some routes. */
  ghost function RouteClaim(routes: seq<Route>, claimed: set<string>, base: string, nodeBase: string, id: int,
                            h: string): Option<Xds.Upstream> {
    Xds.FirstClaim(Registry.ForEnv(Registry.RoutePart(routes, claimed, base), id), nodeBase, h)
  }

  lemma RouteClaimSnoc(routes: seq<Route>, r: Route, claimed: set<string>, base: string, nodeBase: string, id: int,
                       sub: string, ported: bool)
    requires base != "" && ':' !in base
    ensures var h := Host(sub, base, ported);
            RouteClaim(routes + [r], claimed, base, nodeBase, id, h) == (
              if RouteClaim(routes, claimed, base, nodeBase, id, h).Some?
              then RouteClaim(routes, claimed, base, nodeBase, id, h)
              else if HoldsHost(r, claimed, id, sub) then Some(Registry.FromRoute(r, base)) else None)
  {
    assert (routes + [r])[..|routes|] == routes;
    var part := Registry.RoutePart(routes, claimed, base);
    if r.subdomain in claimed {
      assert part + [] == part;
    } else {
      Routing.FirstClaimSnoc(part, Registry.FromRoute(r, base), nodeBase, id, Host(sub, base, ported));
      RouteMatches(r, base, nodeBase, sub, ported);
    }
  }

  /** Among routes with different subdomains only the one that holds the host claims it. */
  lemma {:induction false} RouteClaimed(routes: seq<Route>, claimed: set<string>, base: string, nodeBase: string,
                                        id: int, sub: string, ported: bool, k: nat)
    requires base != "" && ':' !in base && k <= |routes|
    requires forall i :: 0 <= i < |routes| && i != k ==> !HoldsHost(routes[i], claimed, id, sub)
    ensures RouteClaim(routes, claimed, base, nodeBase, id, Host(sub, base, ported))
         == if k < |routes| && HoldsHost(routes[k], claimed, id, sub) then Some(Registry.FromRoute(routes[k], base))
            else None
  {
    if routes != [] {
      var last := |routes| - 1;
      var init := routes[..last];
      assert routes == init + [routes[last]];
      RouteClaimed(init, claimed, base, nodeBase, id, sub, ported, if k < last then k else last);
      RouteClaimSnoc(init, routes[last], claimed, base, nodeBase, id, sub, ported);
    }
  }

  lemma RoutesClaim(db: Store.Database, base: string, nodeBase: string, id: int, sub: string, ported: bool)
    requires db.Valid() && base != "" && ':' !in base
    ensures RouteClaim(Store.InOrder(db.routes),
                       Registry.Claimed(Registry.UpstreamsOf(Store.InOrder(db.services))), base, nodeBase, id,
                       Host(sub, base, ported))
         == if RoutedHere(db, id, sub) then Some(Registry.FromRoute(db.routes[sub], base)) else None
  {
    var claimed := Registry.Claimed(Registry.UpstreamsOf(Store.InOrder(db.services)));
    var routes, keys := Store.InOrder(db.routes), Ordered(db.routes.Keys);
    Routing.ClaimedInStoreIsClaimed(db, sub);
    assert Unclaimed(db, sub) <==> !Routing.ClaimedInStore(db, sub);
    forall i | 0 <= i < |routes| ensures routes[i] == db.routes[keys[i]] && routes[i].subdomain == keys[i] {
      assert keys[i] in keys;
    }
    var k := |routes|;
    if sub in db.routes {
      assert sub in keys;
      k :| 0 <= k < |keys| && keys[k] == sub;
    }
    RouteClaimed(routes, claimed, base, nodeBase, id, sub, ported, k);
  }

  // ------------------------------------------------------------------ who answers

  lemma CatchAllIsFree(db: Store.Database, base: string, nodeBase: string, id: int)
    requires db.Valid()
    ensures Xds.FirstClaim(Registry.ForEnv(Registry.Compile(db, base), id), nodeBase, "*") == None
  {
    Routing.NodeConfigAccepted(db, base, nodeBase, id);
    Xds.DomainsClaimedOnce(Registry.ForEnv(Registry.Compile(db, base), id), nodeBase);
  }

  /** The lookup on a node is the first claim there, and without one it is refused. */
  lemma AnswerIsFirstClaim(db: Store.Database, base: string, nodeBase: string, id: int, h: string)
    requires db.Valid()
    ensures AnswerOn(db, base, nodeBase, id, h)
         == match Xds.FirstClaim(Registry.ForEnv(Registry.Compile(db, base), id), nodeBase, h)
            case Some(u) => Xds.Backend(Xds.Endpoints(u.hosts, u.port))
            case None => Xds.Status(404)
  {
    var node := Registry.ForEnv(Registry.Compile(db, base), id);
    Routing.NodeKeysUnique(db, base, id);
    CatchAllIsFree(db, base, nodeBase, id);
    Xds.CompilePreservesMeaning(node, nodeBase, h);
  }

  lemma ReplicaSetAnswers(s: Service)
    requires Registry.Live(s)
    ensures var u := Registry.UpstreamOf(s); IsReplicaSet(Xds.Backend(Xds.Endpoints(u.hosts, u.port)), s)
  {
  }

  /** The first service, in the order of their names, that owns sub on the environment; else the manual
      route there, unless a service anywhere has claimed its subdomain; else nobody. */
  ghost predicate IsAnswer(db: Store.Database, id: int, sub: string, first: Option<string>, a: Xds.Answer) {
    match first
    case Some(n) => ServesFirst(db, id, sub, n) && IsReplicaSet(a, db.services[n])
    case None =>
      && (forall n :: !Serves(db, id, sub, n))
      && a == if RoutedHere(db, id, sub)
              then Xds.Backend([(db.routes[sub].targetHost, db.routes[sub].targetPort % 0x1_0000_0000)])
              else Xds.Status(404)
  }

  /** Who answers at a host under the base domain, on any node. */
  lemma HostAnswer(db: Store.Database, base: string, nodeBase: string, id: int, sub: string, ported: bool)
    returns (first: Option<string>)
    requires db.Valid() && base != "" && ':' !in base
    ensures IsAnswer(db, id, sub, first, AnswerOn(db, base, nodeBase, id, Host(sub, base, ported)))
  {
    var svcs, h := Store.InOrder(db.services), Host(sub, base, ported);
    var us := Registry.UpstreamsOf(svcs);
    var a := Registry.ServicePart(us, db.endpoints, base);
    var b := Registry.RoutePart(Store.InOrder(db.routes), Registry.Claimed(us), base);
    Routing.ForEnvAppend(a, b, id);
    Routing.FirstClaimAppend(Registry.ForEnv(a, id), Registry.ForEnv(b, id), nodeBase, h);
    Routing.FirstServiceClaim(svcs, db.endpoints, base, nodeBase, id, h);
    RoutesClaim(db, base, nodeBase, id, sub, ported);
    AnswerIsFirstClaim(db, base, nodeBase, id, h);
    first := FirstServes(db, base, id, sub, ported);
    if first.Some? {
      ReplicaSetAnswers(db.services[first.value]);
    } else if RoutedHere(db, id, sub) {
      var r := db.routes[sub];
      var port := r.targetPort % 0x1_0000_0000;
      assert Xds.Endpoints([r.targetHost], port) == [(r.targetHost, port)];
    }
  }

  /** No other host is answered on any node. */
  lemma OtherHostsRefused(db: Store.Database, base: string, nodeBase: string, id: int, h: string)
    requires db.Valid() && forall sub :: h != Host(sub, base, false) && h != Host(sub, base, true)
    ensures AnswerOn(db, base, nodeBase, id, h) == Xds.Status(404)
  {
    var node := Registry.ForEnv(Registry.Compile(db, base), id);
    AnswerIsFirstClaim(db, base, nodeBase, id, h);
    if Xds.FirstClaim(node, nodeBase, h).Some? {
      var i := Xds.FirstClaimIsMember(node, nodeBase, h);
      Routing.NodeKeysUnique(db, base, id);
      assert node[i] in node;
      Routing.MatchesExplicit(node[i], nodeBase, h);
      var d :| d in node[i].domains && (h == d || h == d + ":*");
      Routing.DomainsUnderBase(db, base, node[i], d);
      var sub :| d == sub + "." + base;
      HostSpelled(sub, base, h != d);
    }
  }

  /** The cluster of a service is named after its server and itself. */
  lemma ClusterSpelled(s: Service, eps: map<int, Endpoint>)
    ensures Routing.ServiceCluster(s, eps)
         == "cl_svc-" + (if s.endpointID in eps then Slug.SlugOf(eps[s.endpointID].name) else "local") + "-" + s.name
  {
    var server := if s.endpointID in eps then Slug.SlugOf(eps[s.endpointID].name) else "local";
    assert "cl_" + ("svc-" + server + "-" + s.name) == "cl_svc-" + server + "-" + s.name;
  }

  // ----------------------------------------------------------------- manual routes

  /** A service of the route's own node takes the route's host, and leads elsewhere. */
  predicate Diverts(db: Store.Database, r: Route, n: string) {
    && Serves(db, r.endpointID, r.subdomain, n)
    && var s := db.services[n];
       !(s.replicas == 1 && r.targetHost == n + "-0" && r.targetPort == s.containerPort % 0x1_0000_0000)
  }

  lemma OneReplicaSet(a: Xds.Answer, s: Service, host: string, port: int)
    requires IsReplicaSet(a, s) && 0 < port < 0x1_0000_0000 && s.replicas > 0
    ensures a == Xds.Backend([(host, port)])
       <==> s.replicas == 1 && host == s.name + "-0" && port == s.containerPort % 0x1_0000_0000
  {
    ItoaDigit(0);
    assert a.endpoints[0] == (s.name + "-" + Itoa(0), s.containerPort % 0x1_0000_0000);
    assert s.name + "-" + "0" == s.name + "-0";
  }

  /** A stored route that no service has claimed leads to its target on its own node if and only if no
      service there whose "<name>.<server>" is the route's subdomain leads elsewhere. */
  lemma RouteLeads(db: Store.Database, base: string, nodeBase: string, sub: string, ported: bool)
    requires db.Valid() && base != "" && ':' !in base
    requires sub in db.routes && Unclaimed(db, sub) && 0 < db.routes[sub].targetPort < 0x1_0000_0000
    ensures var r := db.routes[sub];
            var a := AnswerOn(db, base, nodeBase, r.endpointID, Host(sub, base, ported));
            a == Xds.Backend([(r.targetHost, r.targetPort)]) <==> forall n :: !Diverts(db, r, n)
  {
    var r := db.routes[sub];
    var a := AnswerOn(db, base, nodeBase, r.endpointID, Host(sub, base, ported));
    var first := HostAnswer(db, base, nodeBase, r.endpointID, sub, ported);
    RouteDecided(db, r, first, a);
  }

  lemma RouteDecided(db: Store.Database, r: Route, first: Option<string>, a: Xds.Answer)
    requires db.Valid() && RoutedHere(db, r.endpointID, r.subdomain) && db.routes[r.subdomain] == r
    requires 0 < r.targetPort < 0x1_0000_0000 && IsAnswer(db, r.endpointID, r.subdomain, first, a)
    ensures a == Xds.Backend([(r.targetHost, r.targetPort)]) <==> forall m :: !Diverts(db, r, m)
  {
    if first.Some? {
      var n := first.value;
      OneReplicaSet(a, db.services[n], r.targetHost, r.targetPort);
      forall m | Diverts(db, r, m) ensures m == n { OwnPairTellsName(db, r.endpointID, r.subdomain, m, n); }
      if a != Xds.Backend([(r.targetHost, r.targetPort)]) { assert Diverts(db, r, n); }
    }
  }

  /** Only one service has this pair of name and label. */
  lemma OwnPairTellsName(db: Store.Database, id: int, sub: string, m: string, n: string)
    requires Unclaimed(db, sub) && Serves(db, id, sub, m) && Serves(db, id, sub, n)
    ensures m == n
  {
    var server := if id in db.endpoints then Slug.SlugOf(db.endpoints[id].name) else "local";
    assert m + "." + server == m + ("." + server) && n + "." + server == n + ("." + server);
    SuffixCancels(m, n, "." + server);
  }

  /** A subdomain without a dot is nobody's "<name>.<server>". */
  lemma PlainRouteLeads(db: Store.Database, base: string, nodeBase: string, sub: string, ported: bool)
    requires db.Valid() && base != "" && ':' !in base && '.' !in sub
    requires sub in db.routes && Unclaimed(db, sub) && 0 < db.routes[sub].targetPort < 0x1_0000_0000
    ensures var r := db.routes[sub];
            AnswerOn(db, base, nodeBase, r.endpointID, Host(sub, base, ported))
              == Xds.Backend([(r.targetHost, r.targetPort)])
  {
    RouteLeads(db, base, nodeBase, sub, ported);
    var id := db.routes[sub].endpointID;
    forall n ensures !Serves(db, id, sub, n) {
      var server := if id in db.endpoints then Slug.SlugOf(db.endpoints[id].name) else "local";
      assert (n + "." + server)[|n|] == '.';
    }
  }

  /** A service whose pair of name and label is an unclaimed subdomain answers there, route or not. */
  lemma PairAnswers(db: Store.Database, base: string, nodeBase: string, id: int, sub: string, ported: bool, n: string)
    requires db.Valid() && base != "" && ':' !in base && Unclaimed(db, sub) && Serves(db, id, sub, n)
    ensures IsReplicaSet(AnswerOn(db, base, nodeBase, id, Host(sub, base, ported)), db.services[n])
  {
    var first := HostAnswer(db, base, nodeBase, id, sub, ported);
    assert first.Some?;
    OwnPairTellsName(db, id, sub, first.value, n);
  }

  /** So a route with a dot in its subdomain can be diverted: the local service "b" takes "b.local",
      although no service has that custom subdomain. */
  lemma RouteDiverted(db: Store.Database, base: string, nodeBase: string, s: Service)
    requires base != "" && ':' !in base
    requires db == Store.Database(map["b" := s], map["b.local" := Route("b.local", "", "target", 8080, 0)], map[])
    requires s.name == "b" && s.subdomain == "" && s.containerPort == 80 && s.replicas == 1 && s.endpointID == 0
    ensures db.Valid() && Unclaimed(db, "b.local")
    ensures AnswerOn(db, base, nodeBase, 0, Host("b.local", base, false)) == Xds.Backend([("b-0", 80)])
  {
    PairServes(db, s);
    PairAnswers(db, base, nodeBase, 0, "b.local", false, "b");
    OnlyReplicaOfB(AnswerOn(db, base, nodeBase, 0, Host("b.local", base, false)), s);
  }

  lemma OnlyReplicaOfB(a: Xds.Answer, s: Service)
    requires IsReplicaSet(a, s) && s.name == "b" && s.containerPort == 80 && s.replicas == 1
    ensures a == Xds.Backend([("b-0", 80)])
  {
    assert "b" + "-0" == "b-0";
    OneReplicaSet(a, s, "b-0", 80);
  }

  lemma PairServes(db: Store.Database, s: Service)
    requires db == Store.Database(map["b" := s], map["b.local" := Route("b.local", "", "target", 8080, 0)], map[])
    requires s.name == "b" && s.subdomain == "" && s.containerPort == 80 && s.replicas == 1 && s.endpointID == 0
    ensures db.Valid() && Unclaimed(db, "b.local") && Serves(db, 0, "b.local", "b") && db.services["b"] == s
  {
    assert "b" + "." + "local" == "b.local";
  }

  // ----------------------------------------------------------- what the nodes serve

  /** The Envoy of an environment. */
  function NodeOf(localNode: string, id: int): string {
    if id == 0 then localNode else "easydeploy-edge-" + Itoa(id)
  }

  /** What the node of an environment serves after a publish that went through. */
  lemma CachedAnswer(reg: Registry.Registry, id: int, h: string)
    requires reg.Valid() && reg.Agrees(reg.Wanted(reg.store.Data()), reg.xds.cache)
    requires id in Registry.NodesOf(Registry.Compile(reg.store.Data(), reg.baseDomain), reg.store.endpoints)
    ensures var node := NodeOf(reg.xds.nodeID, id);
            && node in reg.xds.cache
            && Xds.Resolve(reg.xds.cache[node].config, h)
                 == AnswerOn(reg.store.Data(), reg.baseDomain, reg.xds.baseDomain, id, h)
  {
    var wanted := reg.Wanted(reg.store.Data());
    assert id in wanted && reg.Serves(wanted, reg.xds.cache, id);
  }

  lemma RouteNodeServed(db: Store.Database, base: string, sub: string)
    requires db.Valid() && sub in db.routes && Unclaimed(db, sub)
    ensures db.routes[sub].endpointID in Registry.NodesOf(Registry.Compile(db, base), db.endpoints)
  {
    var u := Registry.FromRoute(db.routes[sub], base);
    Routing.RowsAreRows(db.routes, db.routes[sub]);
    Routing.ClaimedInStoreIsClaimed(db, sub);
    Routing.RoutePartMembers(Store.InOrder(db.routes),
                             Registry.Claimed(Registry.UpstreamsOf(Store.InOrder(db.services))), base, u);
    assert u in Registry.Compile(db, base);
  }

  /** Once published, a stored route that no service has claimed leads to its target on the route's own
      Envoy, exactly unless a service there diverts it. */
  ghost predicate RouteInForce(db: Store.Database, base: string, localNode: string, cache: map<string, Xds.Snapshot>,
                               r: Route)
    requires 0 < r.targetPort < 0x1_0000_0000
  {
    var node := NodeOf(localNode, r.endpointID);
    && node in cache
    && forall ported ::
         Xds.Resolve(cache[node].config, Host(r.subdomain, base, ported)) == Xds.Backend([(r.targetHost, r.targetPort)])
         <==> forall n :: !Diverts(db, r, n)
  }

  lemma PublishedRoute(reg: Registry.Registry, sub: string)
    requires reg.Valid() && reg.Agrees(reg.Wanted(reg.store.Data()), reg.xds.cache) && ':' !in reg.baseDomain
    requires sub in reg.store.routes && Unclaimed(reg.store.Data(), sub)
    requires 0 < reg.store.routes[sub].targetPort < 0x1_0000_0000
    ensures RouteInForce(reg.store.Data(), reg.baseDomain, reg.xds.nodeID, reg.xds.cache, reg.store.routes[sub])
  {
    var db, r := reg.store.Data(), reg.store.routes[sub];
    RouteNodeServed(db, reg.baseDomain, sub);
    forall ported
      ensures var node := NodeOf(reg.xds.nodeID, r.endpointID);
              && node in reg.xds.cache
              && (Xds.Resolve(reg.xds.cache[node].config, Host(sub, reg.baseDomain, ported))
                    == Xds.Backend([(r.targetHost, r.targetPort)])
                  <==> forall n :: !Diverts(db, r, n))
    {
      CachedAnswer(reg, r.endpointID, Host(sub, reg.baseDomain, ported));
      RouteLeads(db, reg.baseDomain, reg.xds.baseDomain, sub, ported);
    }
  }

  /** On the Envoys of all known environments, the host of a subdomain without a route leads to a service
      or nowhere. */
  ghost predicate NoRouteInForce(db: Store.Database, base: string, localNode: string, cache: map<string, Xds.Snapshot>,
                                 sub: string, id: int)
  {
    var node := NodeOf(localNode, id);
    && node in cache
    && forall ported :: RefusedOrServed(db, cache[node].config, id, sub, Host(sub, base, ported))
  }

  ghost predicate RefusedOrServed(db: Store.Database, config: Xds.Config, id: int, sub: string, h: string) {
    if forall n :: !Serves(db, id, sub, n) then Xds.Resolve(config, h) == Xds.Status(404)
    else exists n :: ServesFirst(db, id, sub, n) && IsReplicaSet(Xds.Resolve(config, h), db.services[n])
  }

  lemma RetiredRoute(reg: Registry.Registry, sub: string, id: int)
    requires reg.Valid() && reg.Agrees(reg.Wanted(reg.store.Data()), reg.xds.cache) && ':' !in reg.baseDomain
    requires sub !in reg.store.routes && (id == 0 || id in reg.store.endpoints)
    ensures NoRouteInForce(reg.store.Data(), reg.baseDomain, reg.xds.nodeID, reg.xds.cache, sub, id)
  {
    var db := reg.store.Data();
    CachedAnswer(reg, id, "");
    forall ported
      ensures RefusedOrServed(db, reg.xds.cache[NodeOf(reg.xds.nodeID, id)].config, id, sub,
                              Host(sub, reg.baseDomain, ported))
    {
      CachedAnswer(reg, id, Host(sub, reg.baseDomain, ported));
      var first := HostAnswer(db, reg.baseDomain, reg.xds.baseDomain, id, sub, ported);
      if first.Some? { assert ServesFirst(db, id, sub, first.value); }
    }
  }
}
