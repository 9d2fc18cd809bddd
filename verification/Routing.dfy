/** What publishing guarantees to the owner of a service: facts about the compiled upstreams of a
    whole database. */
module Routing {
  import opened Text
  import opened Specs
  import opened Registry
  import Slug
  import Store
  import Xds

  // ------------------------------------------------------------- the partition

  /** The places of an environment's upstreams in the full list. */
  function Positions(ups: seq<Xds.Upstream>, id: int): (p: seq<nat>) {
    if ups == [] then []
    else Positions(ups[..|ups| - 1], id) + if ups[|ups| - 1].endpointID == id then [|ups| - 1] else []
  }

  /** Each environment gets exactly its own upstreams, in their original order. */
  lemma {:induction false} PartitionIsExact(ups: seq<Xds.Upstream>, id: int)
    ensures |Positions(ups, id)| == |ForEnv(ups, id)|
    ensures forall k :: 0 <= k < |Positions(ups, id)| ==>
      Positions(ups, id)[k] < |ups| && ForEnv(ups, id)[k] == ups[Positions(ups, id)[k]]
    ensures forall i, j :: 0 <= i < j < |Positions(ups, id)| ==> Positions(ups, id)[i] < Positions(ups, id)[j]
    ensures forall i :: 0 <= i < |ups| ==> (ups[i].endpointID == id <==> i in Positions(ups, id))
  {
    if ups != [] {
      var init := ups[..|ups| - 1];
      PartitionIsExact(init, id);
      assert forall i :: 0 <= i < |init| ==> ups[i] == init[i];
    }
  }

  lemma {:induction false} ForEnvAppend(a: seq<Xds.Upstream>, b: seq<Xds.Upstream>, id: int)
    ensures ForEnv(a + b, id) == ForEnv(a, id) + ForEnv(b, id)
  {
    if b == [] {
      assert a + b == a;
    } else {
      assert (a + b)[..|a + b| - 1] == a + b[..|b| - 1];
      ForEnvAppend(a, b[..|b| - 1], id);
    }
  }

  // --------------------------------------------------------- who is compiled in

  predicate IsUpstreamOf(u: Xds.Upstream, s: Service, eps: map<int, Endpoint>, base: string) {
    Live(s) && u == FromService(UpstreamOf(s), eps, base)
  }

  lemma {:induction false} ServicePartMembers(svcs: seq<Service>, eps: map<int, Endpoint>, base: string,
                                              u: Xds.Upstream)
    ensures u in ServicePart(UpstreamsOf(svcs), eps, base) <==> exists s :: s in svcs && IsUpstreamOf(u, s, eps, base)
  {
    if svcs != [] {
      var init, last := svcs[..|svcs| - 1], svcs[|svcs| - 1];
      ServicePartMembers(init, eps, base, u);
      assert svcs == init + [last];
      ServicePartSnoc(init, last, eps, base);
      assert u in ServicePart(UpstreamsOf(svcs), eps, base)
        <==> u in ServicePart(UpstreamsOf(init), eps, base) || IsUpstreamOf(u, last, eps, base);
      assert forall s :: s in svcs <==> s in init || s == last;
    }
  }

  lemma ServicePartSnoc(svcs: seq<Service>, s: Service, eps: map<int, Endpoint>, base: string)
    ensures ServicePart(UpstreamsOf(svcs + [s]), eps, base)
         == ServicePart(UpstreamsOf(svcs), eps, base)
          + if Live(s) then [FromService(UpstreamOf(s), eps, base)] else []
  {
    assert (svcs + [s])[..|svcs|] == svcs;
    if Live(s) {
      var us := UpstreamsOf(svcs + [s]);
      assert us[..|us| - 1] == UpstreamsOf(svcs);
      assert |us[|us| - 1].hosts| == s.replicas;
    } else {
      assert UpstreamsOf(svcs) + [] == UpstreamsOf(svcs);
      assert ServicePart(UpstreamsOf(svcs), eps, base) + [] == ServicePart(UpstreamsOf(svcs), eps, base);
    }
  }

  lemma {:induction false} ClaimedBy(svcs: seq<Service>, sub: string)
    ensures sub in Claimed(UpstreamsOf(svcs)) <==> sub != "" && exists s :: s in svcs && Live(s) && s.subdomain == sub
  {
    if svcs != [] {
      var init, last := svcs[..|svcs| - 1], svcs[|svcs| - 1];
      ClaimedBy(init, sub);
      assert svcs == init + [last];
      var us := UpstreamsOf(svcs);
      assert us == UpstreamsOf(init) + if Live(last) then [UpstreamOf(last)] else [];
      if Live(last) {
        assert |UpstreamOf(last).hosts| == last.replicas;
        assert Claimed(us) == Claimed(UpstreamsOf(init)) + Claimed([UpstreamOf(last)]);
        assert UpstreamOf(last) in [UpstreamOf(last)];
      } else {
        assert us == UpstreamsOf(init);
      }
      if s :| s in svcs && Live(s) && s.subdomain == sub {
        assert s in init || s == last;
      }
    }
  }

  lemma {:induction false} RoutePartMembers(routes: seq<Route>, claimed: set<string>, base: string, u: Xds.Upstream)
    ensures u in RoutePart(routes, claimed, base)
       <==> exists r :: r in routes && r.subdomain !in claimed && u == FromRoute(r, base)
  {
    if routes != [] {
      var init, last := routes[..|routes| - 1], routes[|routes| - 1];
      RoutePartMembers(init, claimed, base, u);
      assert routes == init + [last];
      if r :| r in routes && r.subdomain !in claimed && u == FromRoute(r, base) {
        assert r in init || r == last;
      }
    }
  }

  lemma RowsAreRows<V>(m: map<string, V>, v: V)
    ensures v in Store.InOrder(m) <==> exists k :: k in m && m[k] == v
  {
    var keys := Ordered(m.Keys);
    if k :| k in m && m[k] == v {
      assert k in keys;
      var i :| 0 <= i < |keys| && keys[i] == k;
      assert Store.InOrder(m)[i] == v;
    }
  }

  // ---------------------------------------------------------------- unique keys

  /** Upstreams of one environment have different keys. */
  ghost predicate KeysApart(ups: seq<Xds.Upstream>) {
    forall i, j :: 0 <= i < j < |ups| && ups[i].endpointID == ups[j].endpointID ==>
      Xds.UpstreamKey(ups[i]) != Xds.UpstreamKey(ups[j])
  }

  ghost predicate OneRowPerName(svcs: seq<Service>) {
    forall i, j :: 0 <= i < j < |svcs| ==> svcs[i].name != svcs[j].name
  }

  lemma ServiceKeyTellsName(slug: string, a: string, b: string)
    requires ServiceKey(slug, a) == ServiceKey(slug, b)
    ensures a == b
  {
    var p := "svc-" + slug + "-";
    assert (p + a)[|p|..] == a && (p + b)[|p|..] == b;
  }

  lemma KeysApartConcat(a: seq<Xds.Upstream>, b: seq<Xds.Upstream>)
    requires KeysApart(a) && KeysApart(b)
    requires forall u, v :: u in a && v in b && u.endpointID == v.endpointID ==>
      Xds.UpstreamKey(u) != Xds.UpstreamKey(v)
    ensures KeysApart(a + b)
  {
    forall i, j | 0 <= i < j < |a + b| && (a + b)[i].endpointID == (a + b)[j].endpointID
      ensures Xds.UpstreamKey((a + b)[i]) != Xds.UpstreamKey((a + b)[j])
    {
      if i < |a| && j >= |a| { assert a[i] in a && b[j - |a|] in b; }
    }
  }

  /** Every compiled upstream has a key and explicit domains. */
  predicate Keyed(u: Xds.Upstream, initial: char) {
    u.key != "" && u.key[0] == initial && u.domains != []
  }

  lemma ServicePartKeyed(svcs: seq<Service>, eps: map<int, Endpoint>, base: string)
    ensures forall u :: u in ServicePart(UpstreamsOf(svcs), eps, base) ==> Keyed(u, 's')
  {
    forall u | u in ServicePart(UpstreamsOf(svcs), eps, base) ensures Keyed(u, 's') {
      ServicePartMembers(svcs, eps, base, u);
    }
  }

  lemma RoutePartKeyed(routes: seq<Route>, claimed: set<string>, base: string)
    ensures forall u :: u in RoutePart(routes, claimed, base) ==> Keyed(u, 'r')
  {
    forall u | u in RoutePart(routes, claimed, base) ensures Keyed(u, 'r') {
      RoutePartMembers(routes, claimed, base, u);
    }
  }

  lemma NewServiceKey(svcs: seq<Service>, s: Service, eps: map<int, Endpoint>, base: string, u: Xds.Upstream)
    requires Live(s) && u in ServicePart(UpstreamsOf(svcs), eps, base) && u.endpointID == s.endpointID
    requires forall i :: 0 <= i < |svcs| ==> svcs[i].name != s.name
    ensures u.key != FromService(UpstreamOf(s), eps, base).key
  {
    ServicePartMembers(svcs, eps, base, u);
    var t :| t in svcs && IsUpstreamOf(u, t, eps, base);
    if u.key == FromService(UpstreamOf(s), eps, base).key {
      ServiceKeyTellsName(SlugName(eps, s.endpointID), t.name, s.name);
    }
  }

  lemma {:induction false} ServiceKeysApart(svcs: seq<Service>, eps: map<int, Endpoint>, base: string)
    requires OneRowPerName(svcs)
    ensures KeysApart(ServicePart(UpstreamsOf(svcs), eps, base))
  {
    if svcs != [] {
      var init, last := svcs[..|svcs| - 1], svcs[|svcs| - 1];
      ServiceKeysApart(init, eps, base);
      ServicePartSnoc(init, last, eps, base);
      assert svcs == init + [last];
      var part := ServicePart(UpstreamsOf(init), eps, base);
      if Live(last) {
        var v := FromService(UpstreamOf(last), eps, base);
        ServicePartKeyed(init, eps, base);
        forall u | u in part && u.endpointID == v.endpointID ensures Xds.UpstreamKey(u) != Xds.UpstreamKey(v) {
          NewServiceKey(init, last, eps, base, u);
        }
        KeysApartConcat(part, [v]);
      } else {
        assert part + [] == part;
      }
    }
  }

  lemma {:induction false} RouteKeysApart(routes: seq<Route>, claimed: set<string>, base: string)
    requires forall i, j :: 0 <= i < j < |routes| ==> routes[i].subdomain != routes[j].subdomain
    ensures KeysApart(RoutePart(routes, claimed, base))
  {
    if routes != [] {
      var init, last := routes[..|routes| - 1], routes[|routes| - 1];
      RouteKeysApart(init, claimed, base);
      var part, v := RoutePart(init, claimed, base), FromRoute(last, base);
      RoutePartKeyed(init, claimed, base);
      forall u | u in part ensures Xds.UpstreamKey(u) != Xds.UpstreamKey(v) {
        RoutePartMembers(init, claimed, base, u);
        var r :| r in init && r.subdomain !in claimed && u == FromRoute(r, base);
        var k :| 0 <= k < |init| && init[k] == r;
        assert routes[k] == r && routes[|routes| - 1] == last;
        assert ("rt-" + r.subdomain)[3..] == r.subdomain && ("rt-" + last.subdomain)[3..] == last.subdomain;
      }
      if last.subdomain !in claimed { KeysApartConcat(part, [v]); }
    }
  }

  lemma CompiledKeysApart(db: Store.Database, base: string)
    requires db.Valid()
    ensures KeysApart(Compile(db, base))
    ensures forall u :: u in Compile(db, base) ==> Keyed(u, 's') || Keyed(u, 'r')
  {
    var svcs, routes := Store.InOrder(db.services), Store.InOrder(db.routes);
    var claimed := Claimed(UpstreamsOf(svcs));
    ServiceKeysApart(svcs, db.endpoints, base);
    RouteKeysApart(routes, claimed, base);
    ServicePartKeyed(svcs, db.endpoints, base);
    RoutePartKeyed(routes, claimed, base);
    KeysApartConcat(ServicePart(UpstreamsOf(svcs), db.endpoints, base), RoutePart(routes, claimed, base));
  }

  /** On every node the upstreams have the unique keys that the control plane asks of them. */
  lemma NodeKeysUnique(db: Store.Database, base: string, id: int)
    requires db.Valid()
    ensures Xds.UniqueKeys(ForEnv(Compile(db, base), id))
    ensures forall u :: u in ForEnv(Compile(db, base), id) ==>
      u in Compile(db, base) && u.endpointID == id && u.key != "" && u.key != "default" && u.domains != []
  {
    var ups := Compile(db, base);
    CompiledKeysApart(db, base);
    PartitionIsExact(ups, id);
    var node, p := ForEnv(ups, id), Positions(ups, id);
    assert "default"[0] == 'd';
    forall k | 0 <= k < |node| ensures node[k] in ups && node[k].endpointID == id {
      assert p[k] in p;
    }
    forall i, j | 0 <= i < j < |node| ensures Xds.UpstreamKey(node[i]) != Xds.UpstreamKey(node[j]) {
      assert node[i] == ups[p[i]] && node[j] == ups[p[j]] && p[i] < p[j];
    }
  }

  lemma DotInside(a: string, b: string)
    ensures a + "." + b != "*" && (a + "." + b) + ":*" != "*"
  {
    assert (a + "." + b)[|a|] == '.';
  }

  /** A node's configuration is one that Envoy accepts: cluster names, virtual host names and
      domains are all pairwise distinct. */
  lemma NodeConfigAccepted(db: Store.Database, base: string, nodeBase: string, id: int)
    requires db.Valid()
    ensures var node := ForEnv(Compile(db, base), id);
            && Xds.DistinctNames(Xds.RouteConfig(node, nodeBase))
            && Xds.Distinct(Xds.Emitted(Xds.RouteConfig(node, nodeBase)))
            && forall i, j :: 0 <= i < j < |node| ==> Xds.ClusterName(node[i]) != Xds.ClusterName(node[j])
  {
    var node := ForEnv(Compile(db, base), id);
    NodeKeysUnique(db, base, id);
    Xds.NamesDistinct(node, nodeBase);
    Xds.DomainsClaimedOnce(node, nodeBase);
    if Xds.FirstClaim(node, nodeBase, "*").Some? {
      var i := Xds.FirstClaimIsMember(node, nodeBase, "*");
      assert node[i] in node;
      MatchesExplicit(node[i], nodeBase, "*");
      var d :| d in node[i].domains && ("*" == d || "*" == d + ":*");
      DomainsUnderBase(db, base, node[i], d);
    }
  }

  /** Explicit domains are matched as they are, with and without a port. */
  lemma MatchesExplicit(u: Xds.Upstream, nodeBase: string, h: string)
    requires u.domains != []
    ensures h in Xds.MatchDomains(u, nodeBase) <==> exists d :: d in u.domains && (h == d || h == d + ":*")
  {
    Xds.WithPortsMembers(u.domains, h);
  }

  lemma DomainsUnderBase(db: Store.Database, base: string, u: Xds.Upstream, d: string)
    requires u in Compile(db, base) && d in u.domains
    ensures exists a :: d == a + "." + base
    ensures d != "*" && d + ":*" != "*"
  {
    var svcs, routes := Store.InOrder(db.services), Store.InOrder(db.routes);
    var claimed := Claimed(UpstreamsOf(svcs));
    if u in ServicePart(UpstreamsOf(svcs), db.endpoints, base) {
      ServicePartMembers(svcs, db.endpoints, base, u);
      var s :| s in svcs && IsUpstreamOf(u, s, db.endpoints, base);
      ServiceDomainsUnderBase(s, db.endpoints, base, d);
    } else {
      RoutePartMembers(routes, claimed, base, u);
      var r :| r in routes && r.subdomain !in claimed && u == FromRoute(r, base);
      assert d == r.subdomain + "." + base;
    }
    var a :| d == a + "." + base;
    DotInside(a, base);
  }

  lemma ServiceDomainsUnderBase(s: Service, eps: map<int, Endpoint>, base: string, d: string)
    requires Live(s) && d in FromService(UpstreamOf(s), eps, base).domains
    ensures exists a :: d == a + "." + base
  {
    var slug := SlugName(eps, s.endpointID);
    if d == AutoHost(s.name, slug, base) {
      assert d == (s.name + "." + slug) + "." + base;
    } else {
      assert d == s.subdomain + "." + base;
    }
  }

  // ----------------------------------------------------------- services over routes

  ghost predicate ClaimedInStore(db: Store.Database, sub: string) {
    sub != "" && exists n :: n in db.services && Live(db.services[n]) && db.services[n].subdomain == sub
  }

  lemma ClaimedInStoreIsClaimed(db: Store.Database, sub: string)
    ensures sub in Claimed(UpstreamsOf(Store.InOrder(db.services))) <==> ClaimedInStore(db, sub)
  {
    var svcs := Store.InOrder(db.services);
    ClaimedBy(svcs, sub);
    forall n | n in db.services ensures db.services[n] in svcs { RowsAreRows(db.services, db.services[n]); }
    forall s | s in svcs ensures exists n :: n in db.services && db.services[n] == s { RowsAreRows(db.services, s); }
  }

  lemma RouteKeyTellsRoute(db: Store.Database, base: string, sub: string, u: Xds.Upstream)
    requires db.Valid() && u in Compile(db, base) && u.key == "rt-" + sub
    ensures sub in db.routes && sub !in Claimed(UpstreamsOf(Store.InOrder(db.services)))
  {
    var svcs, routes := Store.InOrder(db.services), Store.InOrder(db.routes);
    var claimed := Claimed(UpstreamsOf(svcs));
    ServicePartKeyed(svcs, db.endpoints, base);
    RoutePartMembers(routes, claimed, base, u);
    var r :| r in routes && r.subdomain !in claimed && u == FromRoute(r, base);
    assert ("rt-" + r.subdomain)[3..] == r.subdomain && ("rt-" + sub)[3..] == sub;
    RowsAreRows(db.routes, r);
  }

  /** A manual route is published exactly when no service with replicas claims its subdomain,
      on whichever environment that service is. */
  lemma RoutePublishedUnlessClaimed(db: Store.Database, base: string, sub: string)
    requires db.Valid()
    ensures (exists u :: u in Compile(db, base) && u.key == "rt-" + sub)
       <==> sub in db.routes && !ClaimedInStore(db, sub)
  {
    ClaimedInStoreIsClaimed(db, sub);
    if u :| u in Compile(db, base) && u.key == "rt-" + sub {
      RouteKeyTellsRoute(db, base, sub, u);
    }
    if sub in db.routes && !ClaimedInStore(db, sub) {
      var u := FromRoute(db.routes[sub], base);
      RowsAreRows(db.routes, db.routes[sub]);
      RoutePartMembers(Store.InOrder(db.routes), Claimed(UpstreamsOf(Store.InOrder(db.services))), base, u);
      assert u in Compile(db, base) && u.key == "rt-" + sub;
    }
  }

  // --------------------------------------------------------------- the auto host

  function Slugged(s: Service, eps: map<int, Endpoint>): string { s.name + "." + SlugName(eps, s.endpointID) }

  function AutoHostOf(s: Service, eps: map<int, Endpoint>, base: string): string { Slugged(s, eps) + "." + base }

  /** Whether a service's own domains contain h, as such or with an explicit port. */
  predicate Answers(s: Service, eps: map<int, Endpoint>, base: string, id: int, h: string) {
    && Live(s) && s.endpointID == id
    && var d0 := AutoHostOf(s, eps, base);
       var d1 := s.subdomain + "." + base;
       h == d0 || h == d0 + ":*" || (s.subdomain != "" && (h == d1 || h == d1 + ":*"))
  }

  function FirstServing(svcs: seq<Service>, eps: map<int, Endpoint>, base: string, id: int, h: string)
    : (r: Option<Service>)
  {
    if svcs == [] then None
    else
      var before := FirstServing(svcs[..|svcs| - 1], eps, base, id, h);
      var last := svcs[|svcs| - 1];
      if before.Some? then before else if Answers(last, eps, base, id, h) then Some(last) else None
  }

  lemma {:induction false} FirstServingIsFirst(svcs: seq<Service>, eps: map<int, Endpoint>, base: string, id: int,
                                               h: string)
    returns (i: nat)
    requires exists j :: 0 <= j < |svcs| && Answers(svcs[j], eps, base, id, h)
    ensures i < |svcs| && FirstServing(svcs, eps, base, id, h) == Some(svcs[i]) && Answers(svcs[i], eps, base, id, h)
    ensures forall j :: 0 <= j < i ==> !Answers(svcs[j], eps, base, id, h)
  {
    var init := svcs[..|svcs| - 1];
    if exists j :: 0 <= j < |init| && Answers(init[j], eps, base, id, h) {
      i := FirstServingIsFirst(init, eps, base, id, h);
      assert forall j :: 0 <= j < |init| ==> init[j] == svcs[j];
    } else {
      NobodyServes(init, eps, base, id, h);
      i := |svcs| - 1;
      assert forall j :: 0 <= j < |init| ==> init[j] == svcs[j];
    }
  }

  lemma {:induction false} NobodyServes(svcs: seq<Service>, eps: map<int, Endpoint>, base: string, id: int, h: string)
    requires forall j :: 0 <= j < |svcs| ==> !Answers(svcs[j], eps, base, id, h)
    ensures FirstServing(svcs, eps, base, id, h) == None
  {
    if svcs != [] { NobodyServes(svcs[..|svcs| - 1], eps, base, id, h); }
  }

  lemma {:induction false} FirstClaimAppend(a: seq<Xds.Upstream>, b: seq<Xds.Upstream>, base: string, h: string)
    ensures Xds.FirstClaim(a + b, base, h)
         == if Xds.FirstClaim(a, base, h).Some? then Xds.FirstClaim(a, base, h) else Xds.FirstClaim(b, base, h)
  {
    if a == [] {
      assert a + b == b;
    } else {
      assert (a + b)[1..] == a[1..] + b;
      FirstClaimAppend(a[1..], b, base, h);
    }
  }

  lemma ServiceAnswers(s: Service, eps: map<int, Endpoint>, base: string, nodeBase: string, h: string)
    requires Live(s)
    ensures h in Xds.MatchDomains(FromService(UpstreamOf(s), eps, base), nodeBase)
       <==> Answers(s, eps, base, s.endpointID, h)
  {
    var u := FromService(UpstreamOf(s), eps, base);
    var auto, custom := AutoHostOf(s, eps, base), CustomHost(s.subdomain, base);
    Xds.WithPortsOfTwo(auto, custom);
    assert u.domains == if s.subdomain != "" then [auto, custom] else [auto];
  }

  lemma FirstClaimSnoc(part: seq<Xds.Upstream>, u: Xds.Upstream, nodeBase: string, id: int, h: string)
    ensures Xds.FirstClaim(ForEnv(part + [u], id), nodeBase, h)
         == var before := Xds.FirstClaim(ForEnv(part, id), nodeBase, h);
            if before.Some? then before
            else if u.endpointID == id && h in Xds.MatchDomains(u, nodeBase) then Some(u) else None
  {
    assert (part + [u])[..|part|] == part;
    if u.endpointID == id {
      FirstClaimAppend(ForEnv(part, id), [u], nodeBase, h);
    } else {
      assert ForEnv(part, id) + [] == ForEnv(part, id);
    }
  }

  /** Among the services, the first upstream to claim h is the first service to answer it. */
  lemma {:induction false} FirstServiceClaim(
    svcs: seq<Service>, eps: map<int, Endpoint>, base: string, nodeBase: string, id: int, h: string)
    ensures Xds.FirstClaim(ForEnv(ServicePart(UpstreamsOf(svcs), eps, base), id), nodeBase, h)
         == match FirstServing(svcs, eps, base, id, h)
            case Some(s) => if Live(s) then Some(FromService(UpstreamOf(s), eps, base)) else None
            case None => None
    ensures FirstServing(svcs, eps, base, id, h).Some? ==> Live(FirstServing(svcs, eps, base, id, h).value)
  {
    if svcs != [] {
      var init, last := svcs[..|svcs| - 1], svcs[|svcs| - 1];
      FirstServiceClaim(init, eps, base, nodeBase, id, h);
      ServicePartSnoc(init, last, eps, base);
      assert svcs == init + [last];
      var part := ServicePart(UpstreamsOf(init), eps, base);
      if Live(last) {
        FirstClaimSnoc(part, FromService(UpstreamOf(last), eps, base), nodeBase, id, h);
        ServiceAnswers(last, eps, base, nodeBase, h);
      } else {
        assert part + [] == part;
      }
    }
  }

  /** An earlier service on the same node has s's own label pair as its custom subdomain. */
  ghost predicate Shadows(t: Service, s: Service, eps: map<int, Endpoint>) {
    && Live(t) && t.endpointID == s.endpointID && t.name != s.name && Le(t.name, s.name)
    && t.subdomain == Slugged(s, eps)
  }

  ghost predicate Shadowed(db: Store.Database, s: Service) {
    exists n :: n in db.services && Shadows(db.services[n], s, db.endpoints)
  }

  /** Two host names under a base without ':' do not collide through their explicit-port forms. */
  lemma PortFormApart(a: string, b: string, base: string)
    requires base != "" && ':' !in base
    ensures a + "." + base != (b + "." + base) + ":*"
  {
    var x, y := a + "." + base, (b + "." + base) + ":*";
    assert y[|y| - 2] == ':';
    assert x[|x| - 2] == if |base| == 1 then '.' else base[|base| - 2];
  }

  /** The ways two hosts under one base can meet. */
  lemma HostsMeet(a: string, b: string, base: string)
    requires base != "" && ':' !in base
    ensures a + "." + base == b + "." + base <==> a == b
    ensures (a + "." + base) + ":*" == (b + "." + base) + ":*" <==> a == b
    ensures a + "." + base != (b + "." + base) + ":*" && (a + "." + base) + ":*" != b + "." + base
  {
    SameHost(a, b, base);
    PortFormApart(a, b, base);
    PortFormApart(b, a, base);
  }

  lemma SluggedInjective(s: Service, t: Service, eps: map<int, Endpoint>)
    requires s.endpointID == t.endpointID
    ensures Slugged(s, eps) == Slugged(t, eps) <==> s.name == t.name
    ensures Slugged(s, eps) != ""
  {
    var suffix := "." + SlugName(eps, s.endpointID);
    assert Slugged(s, eps) == s.name + suffix && Slugged(t, eps) == t.name + suffix;
    if Slugged(s, eps) == Slugged(t, eps) { SuffixCancels(s.name, t.name, suffix); }
  }

  function Ported(h: string, ported: bool): string { if ported then h + ":*" else h }

  /** A service answers s's auto host only as s itself or under a custom subdomain spelled like it. */
  lemma WhoAnswersAutoHost(s: Service, t: Service, eps: map<int, Endpoint>, base: string, ported: bool)
    requires base != "" && ':' !in base && t.endpointID == s.endpointID
    ensures Answers(t, eps, base, s.endpointID, Ported(AutoHostOf(s, eps, base), ported))
       <==> Live(t) && (t.name == s.name || t.subdomain == Slugged(s, eps))
  {
    HostsMeet(Slugged(s, eps), Slugged(t, eps), base);
    HostsMeet(Slugged(s, eps), t.subdomain, base);
    SluggedInjective(s, t, eps);
  }

  lemma SameHost(a: string, b: string, base: string)
    ensures a + "." + base == b + "." + base <==> a == b
    ensures (a + "." + base) + ":*" == (b + "." + base) + ":*" <==> a == b
  {
    assert a + "." + base == a + ("." + base) && b + "." + base == b + ("." + base);
    if a + "." + base == b + "." + base { SuffixCancels(a, b, "." + base); }
    if (a + "." + base) + ":*" == (b + "." + base) + ":*" { SuffixCancels(a + "." + base, b + "." + base, ":*"); }
  }

  /** A service's place in the listing. */
  lemma PlaceOf(services: map<string, Service>, n: string) returns (k: nat)
    requires n in services
    ensures k < |Store.InOrder(services)| && Ordered(services.Keys)[k] == n && Store.InOrder(services)[k] == services[n]
  {
    var keys := Ordered(services.Keys);
    assert n in keys;
    k :| 0 <= k < |keys| && keys[k] == n;
  }

  /** The first service to answer s's auto host is s or a service that shadows it. */
  lemma FirstIsSelfOrShadow(db: Store.Database, base: string, s: Service, ported: bool)
    requires db.Valid() && base != "" && ':' !in base
    requires s.name in db.services && db.services[s.name] == s && Live(s)
    ensures var h := Ported(AutoHostOf(s, db.endpoints, base), ported);
            var first := FirstServing(Store.InOrder(db.services), db.endpoints, base, s.endpointID, h);
            first.Some? && Live(first.value) && (first.value == s || Shadows(first.value, s, db.endpoints))
              && first.value.name in db.services && db.services[first.value.name] == first.value
  {
    var svcs, eps := Store.InOrder(db.services), db.endpoints;
    var keys := Ordered(db.services.Keys);
    var h := Ported(AutoHostOf(s, eps, base), ported);
    var k := PlaceOf(db.services, s.name);
    WhoAnswersAutoHost(s, s, eps, base, ported);
    assert Answers(svcs[k], eps, base, s.endpointID, h);
    var i := FirstServingIsFirst(svcs, eps, base, s.endpointID, h);
    var first := svcs[i];
    assert i <= k;
    WhoAnswersAutoHost(s, first, eps, base, ported);
    assert db.services[keys[i]] == first && keys[i] == first.name;
    assert i < k ==> keys[i] != keys[k] && Le(keys[i], keys[k]);
  }

  /** A shadowing service answers before s does. */
  lemma ShadowAnswersFirst(db: Store.Database, base: string, s: Service, n: string, ported: bool)
    requires db.Valid() && base != "" && ':' !in base
    requires s.name in db.services && db.services[s.name] == s && Live(s)
    requires n in db.services && Shadows(db.services[n], s, db.endpoints)
    ensures var h := Ported(AutoHostOf(s, db.endpoints, base), ported);
            FirstServing(Store.InOrder(db.services), db.endpoints, base, s.endpointID, h) != Some(s)
  {
    var svcs, eps := Store.InOrder(db.services), db.endpoints;
    var keys := Ordered(db.services.Keys);
    var h := Ported(AutoHostOf(s, eps, base), ported);
    var k := PlaceOf(db.services, s.name);
    var j := PlaceOf(db.services, n);
    WhoAnswersAutoHost(s, svcs[j], eps, base, ported);
    assert Answers(svcs[j], eps, base, s.endpointID, h);
    var _ := FirstServingIsFirst(svcs, eps, base, s.endpointID, h);
    if j > k {
      LeAntisymmetric(keys[k], keys[j]);
    }
    assert j < k;
    OnePlace(db, s, k);
  }

  lemma OnePlace(db: Store.Database, s: Service, k: nat)
    requires db.Valid() && k < |Store.InOrder(db.services)| && Store.InOrder(db.services)[k] == s
    ensures forall i :: 0 <= i < |Store.InOrder(db.services)| && Store.InOrder(db.services)[i] == s ==> i == k
  {
    var svcs, keys := Store.InOrder(db.services), Ordered(db.services.Keys);
    forall i | 0 <= i < |svcs| && svcs[i] == s ensures i == k {
      assert keys[i] in db.services && keys[k] in db.services && keys[i] == s.name == keys[k];
    }
  }

  /** Who serves a live service's auto host, with or without explicit port, on its own node: the first
      of the services that is the service itself or was given a custom subdomain spelled like the
      auto host. */
  lemma AutoHostAnswer(db: Store.Database, base: string, nodeBase: string, s: Service, ported: bool)
    returns (first: Service)
    requires db.Valid() && base != "" && ':' !in base
    requires s.name in db.services && db.services[s.name] == s && Live(s)
    ensures Live(first) && (first == s || Shadows(first, s, db.endpoints))
    ensures first.name in db.services && db.services[first.name] == first
    ensures Shadowed(db, s) ==> first != s
    ensures var h := Ported(AutoHost(s.name, SlugName(db.endpoints, s.endpointID), base), ported);
            var node := Xds.ConfigOf(ForEnv(Compile(db, base), s.endpointID), nodeBase);
            var backends := Xds.Endpoints(ReplicaNames(first.name, first.replicas), ToUint32(first.containerPort));
            Xds.Resolve(node, h) == Xds.Backend(backends)
  {
    var svcs, routes := Store.InOrder(db.services), Store.InOrder(db.routes);
    var h := Ported(AutoHostOf(s, db.endpoints, base), ported);
    assert AutoHost(s.name, SlugName(db.endpoints, s.endpointID), base) == AutoHostOf(s, db.endpoints, base);
    var a := ServicePart(UpstreamsOf(svcs), db.endpoints, base);
    var b := RoutePart(routes, Claimed(UpstreamsOf(svcs)), base);
    var ups := Compile(db, base);
    ForEnvAppend(a, b, s.endpointID);
    FirstClaimAppend(ForEnv(a, s.endpointID), ForEnv(b, s.endpointID), nodeBase, h);
    FirstServiceClaim(svcs, db.endpoints, base, nodeBase, s.endpointID, h);
    FirstIsSelfOrShadow(db, base, s, ported);
    if Shadowed(db, s) {
      var n :| n in db.services && Shadows(db.services[n], s, db.endpoints);
      ShadowAnswersFirst(db, base, s, n, ported);
    }
    NodeKeysUnique(db, base, s.endpointID);
    Xds.CompilePreservesMeaning(ForEnv(ups, s.endpointID), nodeBase, h);
    first := FirstServing(svcs, db.endpoints, base, s.endpointID, h).value;
  }

  /** A live service owns its auto host, with and without an explicit port: on its own node the
      host is served by exactly its replicas 0..N-1, whatever manual routes and other services
      exist - unless an earlier service there was given a custom subdomain spelled
      "<name>.<server>". */
  lemma AutoHostOwned(db: Store.Database, base: string, nodeBase: string, s: Service, ported: bool)
    requires db.Valid() && base != "" && ':' !in base
    requires s.name in db.services && db.services[s.name] == s && Live(s)
    ensures var h := Ported(AutoHost(s.name, SlugName(db.endpoints, s.endpointID), base), ported);
            var node := Xds.ConfigOf(ForEnv(Compile(db, base), s.endpointID), nodeBase);
            var own := Xds.Endpoints(ReplicaNames(s.name, s.replicas), ToUint32(s.containerPort));
            Xds.Resolve(node, h) == Xds.Backend(own) <==> !Shadowed(db, s)
  {
    var first := AutoHostAnswer(db, base, nodeBase, s, ported);
    if first != s {
      BackendsDiffer(first, s);
      assert Shadows(db.services[first.name], s, db.endpoints);
    }
  }

  lemma BackendsDiffer(s: Service, t: Service)
    requires Live(s) && Live(t) && s.name != t.name
    ensures Xds.Endpoints(ReplicaNames(s.name, s.replicas), ToUint32(s.containerPort))
         != Xds.Endpoints(ReplicaNames(t.name, t.replicas), ToUint32(t.containerPort))
  {
    var a := Xds.Endpoints(ReplicaNames(s.name, s.replicas), ToUint32(s.containerPort));
    var b := Xds.Endpoints(ReplicaNames(t.name, t.replicas), ToUint32(t.containerPort));
    assert a[0].0 == ReplicaName(s.name, 0) && b[0].0 == ReplicaName(t.name, 0);
    if a == b { ReplicaNameInjective(s.name, 0, t.name, 0); }
  }

  /** No service is shadowed when custom subdomains are single labels, as the form accepts them. */
  lemma LabelsNeverShadow(db: Store.Database, s: Service)
    requires forall n :: n in db.services && Live(db.services[n]) && db.services[n].subdomain != "" ==>
      Slug.IsLabel(db.services[n].subdomain)
    ensures !Shadowed(db, s)
  {
    assert Slugged(s, db.endpoints)[|s.name|] == '.';
    forall n | n in db.services ensures !Shadows(db.services[n], s, db.endpoints) {
      assert Slug.IsLabel(db.services[n].subdomain) ==> '.' !in db.services[n].subdomain;
    }
  }

  // ------------------------------------------------------------ service clusters

  /** The cluster that a service's replicas are published under, on the service's own node. */
  function ServiceCluster(s: Service, eps: map<int, Endpoint>): string {
    "cl_" + ServiceKey(SlugName(eps, s.endpointID), s.name)
  }

  ghost function NodeConfig(db: Store.Database, base: string, nodeBase: string, id: int): Xds.Config {
    Xds.ConfigOf(ForEnv(Compile(db, base), id), nodeBase)
  }

  lemma KeyOfCluster(u: Xds.Upstream, s: Service, eps: map<int, Endpoint>)
    requires u.key != "" && Xds.ClusterName(u) == ServiceCluster(s, eps)
    ensures u.key == ServiceKey(SlugName(eps, s.endpointID), s.name) && u.key[0] == 's'
  {
    assert ("cl_" + u.key)[3..] == u.key;
    assert ServiceCluster(s, eps)[3..] == ServiceKey(SlugName(eps, s.endpointID), s.name);
  }

  /** Only a live row of this name compiles to this cluster. */
  lemma ClusterComesFromRow(db: Store.Database, base: string, s: Service, u: Xds.Upstream)
    requires db.Valid() && u in Compile(db, base) && u.endpointID == s.endpointID && u.key != ""
    requires Xds.ClusterName(u) == ServiceCluster(s, db.endpoints)
    ensures s.name in db.services && Live(db.services[s.name])
  {
    KeyOfCluster(u, s, db.endpoints);
    var svcs := Store.InOrder(db.services);
    RoutePartKeyed(Store.InOrder(db.routes), Claimed(UpstreamsOf(svcs)), base);
    ServicePartMembers(svcs, db.endpoints, base, u);
    var t :| t in svcs && IsUpstreamOf(u, t, db.endpoints, base);
    RowsAreRows(db.services, t);
    ServiceKeyTellsName(SlugName(db.endpoints, s.endpointID), t.name, s.name);
  }

  lemma LiveRowIsCompiled(db: Store.Database, base: string, s: Service)
    requires db.Valid() && s.name in db.services && db.services[s.name] == s && Live(s)
    ensures FromService(UpstreamOf(s), db.endpoints, base) in ForEnv(Compile(db, base), s.endpointID)
    ensures s.endpointID in NodesOf(Compile(db, base), db.endpoints)
  {
    var u, ups := FromService(UpstreamOf(s), db.endpoints, base), Compile(db, base);
    RowsAreRows(db.services, s);
    assert IsUpstreamOf(u, s, db.endpoints, base);
    ServicePartMembers(Store.InOrder(db.services), db.endpoints, base, u);
    assert u in ups;
    var k :| 0 <= k < |ups| && ups[k] == u;
    PartitionIsExact(ups, s.endpointID);
    var p := Positions(ups, s.endpointID);
    assert k in p;
    var m :| 0 <= m < |p| && p[m] == k;
    assert ForEnv(ups, s.endpointID)[m] == u;
  }

  /** A stored service's cluster is on its node exactly when the service is live, and then it lists
      replicas 0..N-1 at the service's port. */
  lemma StoredServiceCluster(db: Store.Database, base: string, nodeBase: string, s: Service)
    requires db.Valid() && s.name in db.services && db.services[s.name] == s
    ensures var n, c := ServiceCluster(s, db.endpoints), NodeConfig(db, base, nodeBase, s.endpointID).clusters;
            if Live(s)
            then n in c && c[n].endpoints == Xds.Endpoints(ReplicaNames(s.name, s.replicas), ToUint32(s.containerPort))
            else n !in c
  {
    var node := ForEnv(Compile(db, base), s.endpointID);
    if Live(s) {
      LiveRowIsCompiled(db, base, s);
      NodeKeysUnique(db, base, s.endpointID);
      var k :| 0 <= k < |node| && node[k] == FromService(UpstreamOf(s), db.endpoints, base);
      Xds.TableHasUnique(node, k);
    } else {
      NoServiceCluster(db, base, nodeBase, s);
    }
  }

  lemma NoServiceCluster(db: Store.Database, base: string, nodeBase: string, s: Service)
    requires db.Valid() && (s.name in db.services ==> !Live(db.services[s.name]))
    ensures ServiceCluster(s, db.endpoints) !in NodeConfig(db, base, nodeBase, s.endpointID).clusters
  {
    var node, n := ForEnv(Compile(db, base), s.endpointID), ServiceCluster(s, db.endpoints);
    Xds.TableNames(node, n);
    NodeKeysUnique(db, base, s.endpointID);
    forall i | 0 <= i < |node| ensures Xds.ClusterName(node[i]) != n {
      assert node[i] in node;
      if Xds.ClusterName(node[i]) == n { ClusterComesFromRow(db, base, s, node[i]); }
    }
  }
}
