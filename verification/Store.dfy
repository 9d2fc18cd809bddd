/** The PostgreSQL tables: maps on their unique keys, listed in ORDER BY order. Any statement may
    fail, and then changes nothing. */
module Store {
  import opened Text
  import opened Specs

  /** The tables that routing is compiled from. */
  datatype Database = Database(
    services: map<string, Service>, routes: map<string, Route>, endpoints: map<int, Endpoint>)
  {
    ghost predicate Valid() {
      && (forall n :: n in services ==> services[n].name == n)
      && (forall s :: s in routes ==> routes[s].subdomain == s)
      && (forall i :: i in endpoints ==> endpoints[i].id == i)
      && 0 !in endpoints  // BIGSERIAL ids start at one
    }
  }

  /** A row after an UPDATE of its editable columns. */
  function Edited(row: Service, s: Service): Service {
    s.(owner := row.owner, webhookToken := row.webhookToken, endpointID := row.endpointID, lastImage := row.lastImage)
  }

  /** SELECT ... ORDER BY the key. */
  ghost function InOrder<V>(m: map<string, V>): (r: seq<V>) {
    var keys := Ordered(m.Keys);
    seq(|keys|, i requires 0 <= i < |keys| => m[keys[i]])
  }

  ghost predicate RowAt<V>(m: map<string, V>, keys: seq<string>, rows: seq<V>, todo: set<string>, j: nat)
    requires j < |keys|
  {
    if j < |rows| then keys[j] in m && rows[j] == m[keys[j]] && keys[j] !in todo else keys[j] in todo
  }

  /** The rows read so far are the first ones in order, and the rest is still to come. */
  ghost predicate Scanned<V>(m: map<string, V>, keys: seq<string>, rows: seq<V>, todo: set<string>) {
    && todo <= m.Keys && |rows| + |todo| == |keys|
    && forall j :: 0 <= j < |keys| ==> RowAt(m, keys, rows, todo, j)
  }

  lemma ScanStarts<V>(m: map<string, V>, keys: seq<string>)
    requires keys == Ordered(m.Keys)
    ensures Scanned(m, keys, [], m.Keys)
  {
    OrderedLength(m.Keys);
    forall j | 0 <= j < |keys| ensures RowAt(m, keys, [], m.Keys, j) { assert keys[j] in keys; }
  }

  lemma NextIsLeast<V>(m: map<string, V>, keys: seq<string>, rows: seq<V>, todo: set<string>, x: string)
    requires keys == Ordered(m.Keys) && Scanned(m, keys, rows, todo) && IsLeast(x, todo)
    ensures |rows| < |keys| && keys[|rows|] == x
  {
    var k := |rows|;
    assert RowAt(m, keys, rows, todo, k);
    forall y | y in todo ensures Le(keys[k], y) {
      assert y in keys;
      var j :| 0 <= j < |keys| && keys[j] == y;
      assert RowAt(m, keys, rows, todo, j);
      if j == k { LeTotal(y, y); }
    }
    LeastUnique(x, keys[k], todo);
  }

  lemma ScanStep<V>(m: map<string, V>, keys: seq<string>, rows: seq<V>, todo: set<string>, x: string)
    requires keys == Ordered(m.Keys) && Scanned(m, keys, rows, todo) && IsLeast(x, todo)
    ensures x in m && Scanned(m, keys, rows + [m[x]], todo - {x})
  {
    NextIsLeast(m, keys, rows, todo, x);
    forall j | 0 <= j < |keys| ensures RowAt(m, keys, rows + [m[x]], todo - {x}, j) {
      assert RowAt(m, keys, rows, todo, j);
      assert j > |rows| ==> keys[|rows|] != keys[j];
    }
  }

  lemma ScanEnds<V>(m: map<string, V>, keys: seq<string>, rows: seq<V>)
    requires keys == Ordered(m.Keys) && Scanned(m, keys, rows, {})
    ensures rows == InOrder(m)
  {
    forall j | 0 <= j < |keys| ensures rows[j] == InOrder(m)[j] { assert RowAt(m, keys, rows, {}, j); }
  }

  method Scan<V>(m: map<string, V>) returns (rows: seq<V>)
    ensures rows == InOrder(m)
  {
    ghost var keys := Ordered(m.Keys);
    var todo := m.Keys;
    rows := [];
    ScanStarts(m, keys);
    while todo != {}
      invariant Scanned(m, keys, rows, todo)
      decreases todo
    {
      LeastExists(todo);
      var x :| IsLeast(x, todo);
      ScanStep(m, keys, rows, todo, x);
      rows := rows + [m[x]];
      todo := todo - {x};
    }
    ScanEnds(m, keys, rows);
  }

  class Store {
    var services: map<string, Service>
    var routes: map<string, Route>
    var endpoints: map<int, Endpoint>
    ghost var faults: nat

    function Data(): Database reads this`services, this`routes, this`endpoints { Database(services, routes, endpoints) }

    ghost predicate Valid() reads this`services, this`routes, this`endpoints { Data().Valid() }

    method ListServices() returns (ok: bool, out: seq<Service>)
      modifies this`faults
      ensures faults == old(faults) + if ok then 0 else 1
      ensures ok ==> out == InOrder(services)
    {
      if * {
        faults := faults + 1;
        return false, [];
      }
      out := Scan(services);
      ok := true;
    }

    method ListRoutes() returns (ok: bool, out: seq<Route>)
      modifies this`faults
      ensures faults == old(faults) + if ok then 0 else 1
      ensures ok ==> out == InOrder(routes)
    {
      if * {
        faults := faults + 1;
        return false, [];
      }
      out := Scan(routes);
      ok := true;
    }

    /** The rows by id; nothing depends on their order. */
    method ListEndpoints() returns (ok: bool, out: map<int, Endpoint>)
      modifies this`faults
      ensures faults == old(faults) + if ok then 0 else 1
      ensures ok ==> out == endpoints
    {
      if * {
        faults := faults + 1;
        return false, map[];
      }
      out := endpoints;
      ok := true;
    }

    method GetEndpoint(id: int) returns (r: Option<Endpoint>)
      modifies this`faults
      ensures faults == old(faults) || (faults == old(faults) + 1 && r == None)
      ensures faults == old(faults) ==> r == if id in endpoints then Some(endpoints[id]) else None
    {
      if * {
        faults := faults + 1;
        return None;
      }
      r := if id in endpoints then Some(endpoints[id]) else None;
    }

    method GetService(name: string) returns (r: Option<Service>)
      modifies this`faults
      ensures faults == old(faults) || (faults == old(faults) + 1 && r == None)
      ensures faults == old(faults) ==> r == if name in services then Some(services[name]) else None
    {
      if name !in services { return None; }
      if * {
        faults := faults + 1;
        return None;
      }
      r := Some(services[name]);
    }

    /** The name is UNIQUE. A new row has no last image. */
    method CreateService(s: Service) returns (ok: bool)
      requires Valid()
      modifies this`services, this`faults
      ensures Valid()
      ensures if ok then s.name !in old(services) && services == old(services)[s.name := s.(lastImage := "")]
              else services == old(services)
      ensures faults == old(faults) + if ok || s.name in old(services) then 0 else 1
    {
      if s.name in services { return false; }
      if * {
        faults := faults + 1;
        return false;
      }
      services := services[s.name := s.(lastImage := "")];
      ok := true;
    }

    /** An UPDATE of a row that is gone changes nothing and is no error. */
    method UpdateService(s: Service) returns (ok: bool)
      requires Valid()
      modifies this`services, this`faults
      ensures Valid()
      ensures faults == old(faults) + if ok then 0 else 1
      ensures services == if ok && s.name in old(services)
                          then old(services)[s.name := Edited(old(services)[s.name], s)] else old(services)
    {
      if * {
        faults := faults + 1;
        return false;
      }
      if s.name in services { services := services[s.name := Edited(services[s.name], s)]; }
      ok := true;
    }

    method SetServiceReplicas(name: string, replicas: int64) returns (ok: bool)
      requires Valid()
      modifies this`services, this`faults
      ensures Valid()
      ensures faults == old(faults) + if ok then 0 else 1
      ensures services == if ok && name in old(services)
                          then old(services)[name := old(services)[name].(replicas := replicas)] else old(services)
    {
      if * {
        faults := faults + 1;
        return false;
      }
      if name in services { services := services[name := services[name].(replicas := replicas)]; }
      ok := true;
    }

    method SetServiceSubdomain(name: string, subdomain: string) returns (ok: bool)
      requires Valid()
      modifies this`services, this`faults
      ensures Valid()
      ensures faults == old(faults) + if ok then 0 else 1
      ensures services == if ok && name in old(services)
                          then old(services)[name := old(services)[name].(subdomain := subdomain)] else old(services)
    {
      if * {
        faults := faults + 1;
        return false;
      }
      if name in services { services := services[name := services[name].(subdomain := subdomain)]; }
      ok := true;
    }

    method SetServiceImage(name: string, image: string) returns (ok: bool)
      requires Valid()
      modifies this`services, this`faults
      ensures Valid()
      ensures faults == old(faults) + if ok then 0 else 1
      ensures services == if ok && name in old(services)
                          then old(services)[name := old(services)[name].(image := image, lastImage := image)]
                          else old(services)
    {
      if * {
        faults := faults + 1;
        return false;
      }
      if name in services { services := services[name := services[name].(image := image, lastImage := image)]; }
      ok := true;
    }

    method DeleteService(name: string) returns (ok: bool)
      requires Valid()
      modifies this`services, this`faults
      ensures Valid()
      ensures faults == old(faults) + if ok then 0 else 1
      ensures services == if ok then old(services) - {name} else old(services)
    {
      if * {
        faults := faults + 1;
        return false;
      }
      services := services - {name};
      ok := true;
    }

    method UpsertRoute(r: Route) returns (ok: bool)
      requires Valid()
      modifies this`routes, this`faults
      ensures Valid()
      ensures faults == old(faults) + if ok then 0 else 1
      ensures routes == if ok then old(routes)[r.subdomain := r] else old(routes)
    {
      if * {
        faults := faults + 1;
        return false;
      }
      routes := routes[r.subdomain := r];
      ok := true;
    }

    method DeleteRoute(subdomain: string) returns (ok: bool)
      requires Valid()
      modifies this`routes, this`faults
      ensures Valid()
      ensures faults == old(faults) + if ok then 0 else 1
      ensures routes == if ok then old(routes) - {subdomain} else old(routes)
    {
      if * {
        faults := faults + 1;
        return false;
      }
      routes := routes - {subdomain};
      ok := true;
    }
  }
}
