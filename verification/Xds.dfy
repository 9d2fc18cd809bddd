/** The control plane: upstreams are compiled to Envoy clusters and virtual hosts, one snapshot a
    node. */
module Xds {
  import opened Text

  type uint32 = x: int | 0 <= x < 0x1_0000_0000

  /** One virtual host, load-balanced over replicas. key identifies it within a node. */
  datatype Upstream = Upstream(
    key: string, subdomain: string, domains: seq<string>, hosts: seq<string>, port: uint32, endpointID: int)

  datatype Cluster = Cluster(name: string, endpoints: seq<(string, uint32)>)
  datatype Action = Forward(cluster: string) | DirectResponse(status: int)
  datatype VirtualHost = VirtualHost(name: string, domains: seq<string>, action: Action)

  /** The snapshot cache indexes clusters by name, so a later cluster replaces an earlier one. */
  datatype Config = Config(clusters: map<string, Cluster>, vhosts: seq<VirtualHost>)
  datatype Snapshot = Snapshot(version: int, config: Config)

  // ----------------------------------------------------- names and match domains

  function UpstreamKey(u: Upstream): string { if u.key != "" then u.key else u.subdomain }
  function ClusterName(u: Upstream): string { "cl_" + UpstreamKey(u) }
  function VhostName(u: Upstream): string { "vh_" + UpstreamKey(u) }

  function SourceDomains(u: Upstream, base: string): seq<string> {
    if u.domains == [] && u.subdomain != "" then [u.subdomain + "." + base] else u.domains
  }

  /** Each domain is followed by its explicit-port form. */
  function WithPorts(src: seq<string>): (out: seq<string>) {
    if src == [] then [] else WithPorts(src[..|src| - 1]) + [src[|src| - 1], src[|src| - 1] + ":*"]
  }

  function MatchDomains(u: Upstream, base: string): seq<string> { WithPorts(SourceDomains(u, base)) }

  lemma WithPortsOfTwo(a: string, b: string)
    ensures WithPorts([a]) == [a, a + ":*"] && WithPorts([a, b]) == [a, a + ":*", b, b + ":*"]
  {
    assert [a][..0] == [];
    assert [a, b][..1] == [a];
  }

  lemma {:induction false} WithPortsMembers(src: seq<string>, h: string)
    ensures h in WithPorts(src) <==> exists d :: d in src && (h == d || h == d + ":*")
  {
    if src == [] {
      assert h !in WithPorts(src);
    } else {
      var init, last := src[..|src| - 1], src[|src| - 1];
      WithPortsMembers(init, h);
      assert src == init + [last];
      assert h in WithPorts(src) <==> h in WithPorts(init) || h == last || h == last + ":*";
      if h in WithPorts(src) {
        if h in WithPorts(init) {
          var d :| d in init && (h == d || h == d + ":*");
          assert d in src;
        } else {
          assert last in src;
        }
      }
      if exists d :: d in src && (h == d || h == d + ":*") {
        var d :| d in src && (h == d || h == d + ":*");
        assert d in init || d == last;
      }
    }
  }

  /** An upstream is reached at its domains, or without any at its subdomain under the base domain; each
      with and without an explicit port. */
  lemma MatchMeans(u: Upstream, base: string, h: string)
    ensures h in MatchDomains(u, base) <==>
      if u.domains != [] then exists d :: d in u.domains && (h == d || h == d + ":*")
      else u.subdomain != "" && (h == u.subdomain + "." + base || h == u.subdomain + "." + base + ":*")
  {
    WithPortsMembers(SourceDomains(u, base), h);
    if u.domains == [] && u.subdomain != "" {
      assert forall d :: d in SourceDomains(u, base) <==> d == u.subdomain + "." + base;
    }
  }

  /** Clusters and virtual hosts are named after the key, or without one after the subdomain. */
  lemma NamesSpelled(u: Upstream)
    ensures ClusterName(u) == "cl_" + (if u.key != "" then u.key else u.subdomain)
    ensures VhostName(u)[3..] == ClusterName(u)[3..] && VhostName(u)[..3] == "vh_"
  {
  }

  function Endpoints(hosts: seq<string>, port: uint32): (e: seq<(string, uint32)>)
    ensures |e| == |hosts| && forall i :: 0 <= i < |hosts| ==> e[i] == (hosts[i], port)
  {
    if hosts == [] then [] else Endpoints(hosts[..|hosts| - 1], port) + [(hosts[|hosts| - 1], port)]
  }

  function ClusterOf(u: Upstream): Cluster { Cluster(ClusterName(u), Endpoints(u.hosts, u.port)) }

  function ClusterTable(ups: seq<Upstream>): (t: map<string, Cluster>) {
    if ups == [] then map[]
    else ClusterTable(ups[..|ups| - 1])[ClusterName(ups[|ups| - 1]) := ClusterOf(ups[|ups| - 1])]
  }

  // ------------------------------------------------------------- the compiler

  /** The domains in ds that nobody has claimed, each once. */
  function Fresh(ds: seq<string>, claimed: set<string>): (r: seq<string>) {
    if ds == [] then []
    else if ds[0] in claimed then Fresh(ds[1..], claimed)
    else [ds[0]] + Fresh(ds[1..], claimed + {ds[0]})
  }

  /** No domains, no virtual host. */
  function VhostOf(u: Upstream, domains: seq<string>): seq<VirtualHost> {
    if domains == [] then [] else [VirtualHost(VhostName(u), domains, Forward(ClusterName(u)))]
  }

  function VhostsFrom(ups: seq<Upstream>, base: string, claimed: set<string>): (r: seq<VirtualHost>) {
    if ups == [] then []
    else
      var domains := Fresh(MatchDomains(ups[0], base), claimed);
      var rest := VhostsFrom(ups[1..], base, claimed + (set d | d in domains));
      VhostOf(ups[0], domains) + rest
  }

  const DEFAULT_VHOST := VirtualHost("vh_default", ["*"], DirectResponse(404))

  function RouteConfig(ups: seq<Upstream>, base: string): seq<VirtualHost> {
    VhostsFrom(ups, base, {}) + [DEFAULT_VHOST]
  }

  function ConfigOf(ups: seq<Upstream>, base: string): Config {
    Config(ClusterTable(ups), RouteConfig(ups, base))
  }

  method MakeMatchDomains(u: Upstream, base: string) returns (out: seq<string>)
    ensures out == MatchDomains(u, base)
  {
    var src := u.domains;
    if |src| == 0 && u.subdomain != "" { src := [u.subdomain + "." + base]; }
    out := [];
    for i := 0 to |src|
      invariant out == WithPorts(src[..i])
    {
      out := out + [src[i], src[i] + ":*"];
      assert src[..i + 1][..i] == src[..i];
    }
    assert src[..|src|] == src;
  }

  method MakeCluster(u: Upstream) returns (c: Cluster)
    ensures c == ClusterOf(u)
  {
    var lbEndpoints := [];
    for i := 0 to |u.hosts|
      invariant lbEndpoints == Endpoints(u.hosts[..i], u.port)
    {
      lbEndpoints := lbEndpoints + [(u.hosts[i], u.port)];
      assert u.hosts[..i + 1][..i] == u.hosts[..i];
    }
    assert u.hosts[..|u.hosts|] == u.hosts;
    c := Cluster(ClusterName(u), lbEndpoints);
  }

  /** The inner loop of makeRouteConfig: claims what is still free. */
  method Claim(all: seq<string>, claimed: set<string>) returns (domains: seq<string>, claimed': set<string>)
    ensures domains == Fresh(all, claimed)
    ensures claimed' == claimed + set d | d in domains
  {
    claimed' := claimed;
    domains := [];
    for j := 0 to |all|
      invariant domains + Fresh(all[j..], claimed') == Fresh(all, claimed)
      invariant claimed' == claimed + set d | d in domains
    {
      FreshStep(all[j..], claimed');
      assert all[j..][1..] == all[j + 1..];
      if all[j] !in claimed' {
        claimed' := claimed' + {all[j]};
        domains := domains + [all[j]];
      }
    }
  }

  method MakeRouteConfig(ups: seq<Upstream>, base: string) returns (vhosts: seq<VirtualHost>)
    ensures vhosts == RouteConfig(ups, base)
  {
    vhosts := [];
    var claimed: set<string> := {};
    for i := 0 to |ups|
      invariant vhosts + VhostsFrom(ups[i..], base, claimed) == VhostsFrom(ups, base, {})
    {
      var all := MakeMatchDomains(ups[i], base);
      RouteConfigStep(vhosts, ups, i, base, claimed);
      var domains;
      domains, claimed := Claim(all, claimed);
      if |domains| != 0 {
        vhosts := vhosts + [VirtualHost(VhostName(ups[i]), domains, Forward(ClusterName(ups[i])))];
      }
    }
    vhosts := vhosts + [DEFAULT_VHOST];
  }

  lemma FreshStep(ds: seq<string>, claimed: set<string>)
    requires ds != []
    ensures Fresh(ds, claimed) == if ds[0] in claimed then Fresh(ds[1..], claimed)
                                  else [ds[0]] + Fresh(ds[1..], claimed + {ds[0]})
  {
  }

  lemma VhostsStep(ups: seq<Upstream>, base: string, claimed: set<string>)
    requires ups != []
    ensures var domains := Fresh(MatchDomains(ups[0], base), claimed);
            var rest := VhostsFrom(ups[1..], base, claimed + (set d | d in domains));
            && (domains == [] ==> VhostsFrom(ups, base, claimed) == rest)
            && (domains != [] ==> VhostsFrom(ups, base, claimed) == VhostOf(ups[0], domains) + rest)
            && (domains != [] ==> VhostsFrom(ups, base, claimed)[1..] == rest)
  {
    var domains := Fresh(MatchDomains(ups[0], base), claimed);
    var rest := VhostsFrom(ups[1..], base, claimed + (set d | d in domains));
    if domains == [] { assert [] + rest == rest; }
  }

  lemma RouteConfigStep(done: seq<VirtualHost>, ups: seq<Upstream>, i: nat, base: string, claimed: set<string>)
    requires i < |ups|
    ensures var domains := Fresh(MatchDomains(ups[i], base), claimed);
            var rest := VhostsFrom(ups[i + 1..], base, claimed + (set d | d in domains));
            && (domains == [] ==> done + VhostsFrom(ups[i..], base, claimed) == done + rest)
            && (domains != [] ==>
                  done + VhostsFrom(ups[i..], base, claimed)
                  == done + [VirtualHost(VhostName(ups[i]), domains, Forward(ClusterName(ups[i])))] + rest)
  {
    VhostsStep(ups[i..], base, claimed);
    assert ups[i..][1..] == ups[i + 1..];
  }

  // ---------------------------------------------------- what a snapshot answers

  datatype Answer = Backend(endpoints: seq<(string, uint32)>) | Status(code: int) | NoVhost | NoCluster

  function FindVhost(vhosts: seq<VirtualHost>, h: string): (r: Option<VirtualHost>) {
    if vhosts == [] then None
    else if h in vhosts[0].domains then Some(vhosts[0])
    else FindVhost(vhosts[1..], h)
  }

  /** A request for host h: an exact domain first, else the catch-all. */
  function Resolve(c: Config, h: string): Answer {
    var v := if FindVhost(c.vhosts, h).Some? then FindVhost(c.vhosts, h) else FindVhost(c.vhosts, "*");
    match v
    case None => NoVhost
    case Some(vh) =>
      match vh.action
      case DirectResponse(s) => Status(s)
      case Forward(name) => if name in c.clusters then Backend(c.clusters[name].endpoints) else NoCluster
  }

  function FirstClaim(ups: seq<Upstream>, base: string, h: string): (r: Option<Upstream>) {
    if ups == [] then None
    else if h in MatchDomains(ups[0], base) then Some(ups[0])
    else FirstClaim(ups[1..], base, h)
  }

  /** What the upstreams mean, without clusters and virtual hosts: the first claim serves the host. */
  function Meaning(ups: seq<Upstream>, base: string, h: string): Answer {
    match FirstClaim(ups, base, h)
    case Some(u) => Backend(Endpoints(u.hosts, u.port))
    case None => Status(404)
  }

  ghost predicate UniqueKeys(ups: seq<Upstream>) {
    forall i, j :: 0 <= i < j < |ups| ==> UpstreamKey(ups[i]) != UpstreamKey(ups[j])
  }

  lemma {:induction false} FreshMembers(ds: seq<string>, claimed: set<string>)
    ensures forall d :: d in Fresh(ds, claimed) <==> d in ds && d !in claimed
    ensures Distinct(Fresh(ds, claimed))
  {
    if ds != [] {
      if ds[0] in claimed {
        FreshMembers(ds[1..], claimed);
      } else {
        FreshMembers(ds[1..], claimed + {ds[0]});
      }
      assert ds == [ds[0]] + ds[1..];
    }
  }

  lemma {:induction false} VhostsFind(ups: seq<Upstream>, base: string, claimed: set<string>, h: string)
    ensures var v := FindVhost(VhostsFrom(ups, base, claimed), h);
            match FirstClaim(ups, base, h)
            case Some(u) => if h in claimed then v.None? else v.Some? && v.value.action == Forward(ClusterName(u))
            case None => v.None?
  {
    if ups != [] {
      var all := MatchDomains(ups[0], base);
      var domains := Fresh(all, claimed);
      FreshMembers(all, claimed);
      VhostsFind(ups[1..], base, claimed + (set d | d in domains), h);
      VhostsStep(ups, base, claimed);
    }
  }

  lemma {:induction false} FindInAppended(vs: seq<VirtualHost>, v: VirtualHost, h: string)
    ensures FindVhost(vs + [v], h)
         == if FindVhost(vs, h).Some? then FindVhost(vs, h) else if h in v.domains then Some(v) else None
  {
    if vs != [] {
      assert (vs + [v])[1..] == vs[1..] + [v];
      FindInAppended(vs[1..], v, h);
    }
  }

  /** i is the last upstream whose cluster has its name. */
  ghost predicate LastOfItsName(ups: seq<Upstream>, i: nat)
    requires i < |ups|
  {
    forall j :: i < j < |ups| ==> ClusterName(ups[j]) != ClusterName(ups[i])
  }

  /** Of the clusters with one name the last one is served. */
  lemma {:induction false} LastClusterWins(ups: seq<Upstream>, i: nat)
    requires i < |ups| && LastOfItsName(ups, i)
    ensures ClusterName(ups[i]) in ClusterTable(ups) && ClusterTable(ups)[ClusterName(ups[i])] == ClusterOf(ups[i])
    decreases |ups|
  {
    var k := |ups| - 1;
    if i < k {
      assert LastOfItsName(ups[..k], i);
      LastClusterWins(ups[..k], i);
      assert ClusterName(ups[k]) != ClusterName(ups[i]);
    }
  }

  lemma TableHasUnique(ups: seq<Upstream>, i: nat)
    requires UniqueKeys(ups) && i < |ups|
    ensures ClusterName(ups[i]) in ClusterTable(ups) && ClusterTable(ups)[ClusterName(ups[i])] == ClusterOf(ups[i])
  {
    forall j | i < j < |ups| ensures ClusterName(ups[j]) != ClusterName(ups[i]) {
      ClusterNameInjective(ups[i], ups[j]);
    }
    LastClusterWins(ups, i);
  }

  /** The table holds the upstreams' clusters and no others. */
  lemma {:induction false} TableNames(ups: seq<Upstream>, name: string)
    ensures name in ClusterTable(ups) <==> exists i :: 0 <= i < |ups| && ClusterName(ups[i]) == name
  {
    if ups != [] {
      var init := ups[..|ups| - 1];
      TableNames(init, name);
      assert forall i :: 0 <= i < |init| ==> init[i] == ups[i];
      if ClusterName(ups[|ups| - 1]) != name && exists i :: 0 <= i < |ups| && ClusterName(ups[i]) == name {
        var i :| 0 <= i < |ups| && ClusterName(ups[i]) == name;
        assert ClusterName(init[i]) == name;
      }
    }
  }

  lemma ClusterNameInjective(u: Upstream, v: Upstream)
    ensures ClusterName(u) == ClusterName(v) <==> UpstreamKey(u) == UpstreamKey(v)
    ensures VhostName(u) == VhostName(v) <==> UpstreamKey(u) == UpstreamKey(v)
  {
    assert ClusterName(u)[3..] == UpstreamKey(u) && ClusterName(v)[3..] == UpstreamKey(v);
    assert VhostName(u)[3..] == UpstreamKey(u) && VhostName(v)[3..] == UpstreamKey(v);
  }

  lemma {:induction false} FirstClaimIsMember(ups: seq<Upstream>, base: string, h: string) returns (i: nat)
    requires FirstClaim(ups, base, h).Some?
    ensures i < |ups| && FirstClaim(ups, base, h) == Some(ups[i])
    ensures h in MatchDomains(ups[i], base)
    ensures forall j :: 0 <= j < i ==> h !in MatchDomains(ups[j], base)
  {
    if h in MatchDomains(ups[0], base) {
      i := 0;
    } else {
      i := FirstClaimIsMember(ups[1..], base, h);
      i := i + 1;
    }
  }

  /** Compilation preserves meaning, for every host name: looking h up in the virtual hosts and
      then in the cluster table gives the backends of the first upstream that claims h, and an
      unclaimed name falls to the catch-all. */
  lemma CompilePreservesMeaning(ups: seq<Upstream>, base: string, h: string)
    requires UniqueKeys(ups)
    ensures Resolve(ConfigOf(ups, base), h)
         == Meaning(ups, base, if FirstClaim(ups, base, h).Some? then h else "*")
  {
    var vs := VhostsFrom(ups, base, {});
    var h' := if FirstClaim(ups, base, h).Some? then h else "*";
    VhostsFind(ups, base, {}, h);
    VhostsFind(ups, base, {}, "*");
    FindInAppended(vs, DEFAULT_VHOST, h);
    FindInAppended(vs, DEFAULT_VHOST, "*");
    if FirstClaim(ups, base, h').Some? {
      var i := FirstClaimIsMember(ups, base, h');
      TableHasUnique(ups, i);
    }
  }

  /** With shared keys, exactly: upstream i claims h first, and upstream k is the last one under i's
      cluster name. What h is served by is what it means, if and only if i and k have the same
      backends. */
  lemma MeaningKeptIff(ups: seq<Upstream>, base: string, h: string, i: nat, k: nat)
    requires i < |ups| && h in MatchDomains(ups[i], base)
    requires forall j :: 0 <= j < i ==> h !in MatchDomains(ups[j], base)
    requires k < |ups| && ClusterName(ups[k]) == ClusterName(ups[i]) && LastOfItsName(ups, k)
    ensures Resolve(ConfigOf(ups, base), h) == Backend(Endpoints(ups[k].hosts, ups[k].port))
    ensures Resolve(ConfigOf(ups, base), h) == Meaning(ups, base, h)
       <==> Endpoints(ups[k].hosts, ups[k].port) == Endpoints(ups[i].hosts, ups[i].port)
  {
    ClaimsFirst(ups, base, h, i);
    VhostsFind(ups, base, {}, h);
    FindInAppended(VhostsFrom(ups, base, {}), DEFAULT_VHOST, h);
    LastClusterWins(ups, k);
  }

  lemma {:induction false} ClaimsFirst(ups: seq<Upstream>, base: string, h: string, i: nat)
    requires i < |ups| && h in MatchDomains(ups[i], base)
    requires forall j :: 0 <= j < i ==> h !in MatchDomains(ups[j], base)
    ensures FirstClaim(ups, base, h) == Some(ups[i])
    decreases i
  {
    if i > 0 { ClaimsFirst(ups[1..], base, h, i - 1); }
  }

  /** Without unique keys a later upstream steals an earlier one's traffic. */
  lemma SharedKeyChangesMeaning()
    ensures var ups := [Upstream("k", "", ["a"], ["h1"], 1, 0), Upstream("k", "", ["b"], ["h2"], 2, 0)];
            Resolve(ConfigOf(ups, "x"), "a") == Backend([("h2", 2)]) && Meaning(ups, "x", "a") == Backend([("h1", 1)])
  {
    var u, v := Upstream("k", "", ["a"], ["h1"], 1, 0), Upstream("k", "", ["b"], ["h2"], 2, 0);
    var ups := [u, v];
    WithPortsMembers(["a"], "a");
    assert ClusterName(u) == ClusterName(v) == "cl_k";
    MeaningKeptIff(ups, "x", "a", 0, 1);
  }

  // ------------------------------------------------------- what Envoy demands

  ghost predicate Distinct(s: seq<string>) { forall i, j :: 0 <= i < j < |s| ==> s[i] != s[j] }

  function Emitted(vs: seq<VirtualHost>): seq<string> {
    if vs == [] then [] else vs[0].domains + Emitted(vs[1..])
  }

  lemma DistinctConcat(a: seq<string>, b: seq<string>)
    requires Distinct(a) && Distinct(b) && forall d :: d in a ==> d !in b
    ensures Distinct(a + b)
  {
    var e := a + b;
    forall i, j | 0 <= i < j < |e| ensures e[i] != e[j] {
      if i < |a| && j >= |a| { assert a[i] in a && b[j - |a|] in b; }
    }
  }

  lemma {:induction false} EmittedByUpstreams(ups: seq<Upstream>, base: string, claimed: set<string>)
    ensures var e := Emitted(VhostsFrom(ups, base, claimed));
            && Distinct(e)
            && forall d :: d in e <==> FirstClaim(ups, base, d).Some? && d !in claimed
  {
    if ups != [] {
      var all := MatchDomains(ups[0], base);
      var domains := Fresh(all, claimed);
      FreshMembers(all, claimed);
      var rest := VhostsFrom(ups[1..], base, claimed + (set d | d in domains));
      EmittedByUpstreams(ups[1..], base, claimed + (set d | d in domains));
      VhostsStep(ups, base, claimed);
      assert Emitted(VhostsFrom(ups, base, claimed)) == domains + Emitted(rest);
      DistinctConcat(domains, Emitted(rest));
    }
  }

  lemma {:induction false} EmittedAppended(vs: seq<VirtualHost>, v: VirtualHost)
    ensures Emitted(vs + [v]) == Emitted(vs) + v.domains
  {
    if vs == [] {
      assert vs + [v] == [v] && [v][1..] == [];
    } else {
      assert (vs + [v])[1..] == vs[1..] + [v];
      EmittedAppended(vs[1..], v);
    }
  }

  /** Envoy rejects a domain claimed twice. The emitted domains are exactly the upstreams' and the
      catch-all's, and none is claimed twice unless an upstream claims the catch-all itself. */
  lemma DomainsClaimedOnce(ups: seq<Upstream>, base: string)
    ensures forall d :: d in Emitted(RouteConfig(ups, base)) <==> d == "*" || FirstClaim(ups, base, d).Some?
    ensures Distinct(Emitted(RouteConfig(ups, base))) <==> FirstClaim(ups, base, "*").None?
  {
    var vs := VhostsFrom(ups, base, {});
    EmittedByUpstreams(ups, base, {});
    EmittedAppended(vs, DEFAULT_VHOST);
    var e := Emitted(RouteConfig(ups, base));
    assert e == Emitted(vs) + ["*"];
    if FirstClaim(ups, base, "*").Some? {
      assert "*" in Emitted(vs);
      var i :| 0 <= i < |Emitted(vs)| && Emitted(vs)[i] == "*";
      assert e[i] == e[|e| - 1];
    }
  }

  ghost predicate NamesAnUpstream(name: string, ups: seq<Upstream>) {
    exists j :: 0 <= j < |ups| && name == VhostName(ups[j])
  }

  ghost predicate DistinctNames(vs: seq<VirtualHost>) {
    forall i, j :: 0 <= i < j < |vs| ==> vs[i].name != vs[j].name
  }

  lemma {:induction false} VhostNamesFrom(ups: seq<Upstream>, base: string, claimed: set<string>)
    requires UniqueKeys(ups)
    ensures forall v :: v in VhostsFrom(ups, base, claimed) ==> NamesAnUpstream(v.name, ups)
    ensures DistinctNames(VhostsFrom(ups, base, claimed))
  {
    if ups != [] {
      var domains := Fresh(MatchDomains(ups[0], base), claimed);
      var claimed' := claimed + (set d | d in domains);
      var rest := VhostsFrom(ups[1..], base, claimed');
      VhostNamesFrom(ups[1..], base, claimed');
      forall v | v in rest ensures v.name != VhostName(ups[0]) && NamesAnUpstream(v.name, ups) {
        var j :| 0 <= j < |ups[1..]| && v.name == VhostName(ups[1..][j]);
        assert ups[1..][j] == ups[j + 1];
        ClusterNameInjective(ups[0], ups[j + 1]);
      }
      VhostsStep(ups, base, claimed);
      assert forall v :: v in VhostOf(ups[0], domains) ==> v.name == VhostName(ups[0]);
      assert NamesAnUpstream(VhostName(ups[0]), ups);
      assert forall i :: 0 <= i < |rest| ==> rest[i] in rest;
    }
  }

  /** Names are pairwise distinct on a node whose upstreams have unique keys other than "default". */
  lemma NamesDistinct(ups: seq<Upstream>, base: string)
    requires UniqueKeys(ups) && forall i :: 0 <= i < |ups| ==> UpstreamKey(ups[i]) != "default"
    ensures DistinctNames(RouteConfig(ups, base))
    ensures forall i, j :: 0 <= i < j < |ups| ==> ClusterName(ups[i]) != ClusterName(ups[j])
  {
    VhostNamesFrom(ups, base, {});
    forall i, j | 0 <= i < j < |ups| ensures ClusterName(ups[i]) != ClusterName(ups[j]) {
      ClusterNameInjective(ups[i], ups[j]);
    }
    var vs := VhostsFrom(ups, base, {});
    forall i | 0 <= i < |vs| ensures vs[i].name != "vh_default" {
      assert vs[i] in vs;
      var j :| 0 <= j < |ups| && vs[i].name == VhostName(ups[j]);
      assert VhostName(ups[j])[3..] == UpstreamKey(ups[j]) && "vh_default"[3..] == "default";
    }
  }

  // ------------------------------------------------------------ node identities

  const EDGE_PREFIX := "easydeploy-edge-"

  function NodeForEndpoint(localNode: string, id: int): string {
    if id == 0 then localNode else EDGE_PREFIX + Itoa(id)
  }

  /** The configured local id is not an edge node's. */
  ghost predicate LocalNodeDistinct(localNode: string) {
    forall id: int :: id != 0 ==> localNode != EDGE_PREFIX + Itoa(id)
  }

  ghost predicate NodesInjective(localNode: string) {
    forall i: int, j: int :: NodeForEndpoint(localNode, i) == NodeForEndpoint(localNode, j) ==> i == j
  }

  /** Environments never share a node exactly when the local id is no edge id. */
  lemma NodeForEndpointInjective(localNode: string)
    ensures NodesInjective(localNode) <==> LocalNodeDistinct(localNode)
  {
    if LocalNodeDistinct(localNode) {
      forall i: int, j: int | NodeForEndpoint(localNode, i) == NodeForEndpoint(localNode, j) ensures i == j {
        if i != 0 && j != 0 {
          assert (EDGE_PREFIX + Itoa(i))[|EDGE_PREFIX|..] == Itoa(i);
          assert (EDGE_PREFIX + Itoa(j))[|EDGE_PREFIX|..] == Itoa(j);
          ItoaInjective(i, j);
        }
      }
    }
    if NodesInjective(localNode) {
      forall id: int | id != 0 ensures localNode != EDGE_PREFIX + Itoa(id) {
        assert NodeForEndpoint(localNode, 0) == localNode;
        assert NodeForEndpoint(localNode, id) == EDGE_PREFIX + Itoa(id);
      }
    }
  }

  // ------------------------------------------------------------------ Manager

  /** The snapshot cache. A version is never reused and grows with every push. */
  class Manager {
    const nodeID: string
    const baseDomain: string
    var version: int
    var cache: map<string, Snapshot>
    ghost var refusals: nat

    ghost predicate Valid() reads this`version, this`cache {
      forall n :: n in cache ==> cache[n].version <= version
    }

    /** seed is the wall clock in milliseconds. */
    constructor (nodeID: string, baseDomain: string, seed: int)
      ensures Valid() && cache == map[] && version == seed
      ensures this.nodeID == nodeID && this.baseDomain == baseDomain
    {
      this.nodeID := nodeID;
      this.baseDomain := baseDomain;
      version := seed;
      cache := map[];
    }

    /** Rebuilds one node's snapshot. The version is taken even when the cache refuses. */
    method Update(node: string, ups: seq<Upstream>) returns (ok: bool)
      requires Valid()
      modifies this
      ensures Valid() && version == old(version) + 1
      ensures cache == if ok then old(cache)[node := Snapshot(version, ConfigOf(ups, baseDomain))] else old(cache)
      ensures refusals == old(refusals) + if ok then 0 else 1
      ensures forall n :: n in old(cache) ==> old(cache)[n].version < version
    {
      var clusters: map<string, Cluster> := map[];
      for i := 0 to |ups|
        invariant version == old(version) && cache == old(cache) && refusals == old(refusals)
        invariant clusters == ClusterTable(ups[..i])
      {
        var c := MakeCluster(ups[i]);
        clusters := clusters[c.name := c];
        assert ups[..i + 1][..i] == ups[..i];
      }
      assert ups[..|ups|] == ups;
      var vhosts := MakeRouteConfig(ups, baseDomain);
      version := version + 1;
      if * {
        refusals := refusals + 1;
        return false;
      }
      cache := cache[node := Snapshot(version, Config(clusters, vhosts))];
      ok := true;
    }
  }
}
