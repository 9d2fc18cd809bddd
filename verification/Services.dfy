/** The service manager: every operation writes the store, brings a host's containers in line and
    republishes. */
module Services {
  import opened Text
  import opened Specs
  import opened Docker
  import opened Replicas
  import opened Passes
  import Registry
  import Routing
  import Store
  import Xds

  /** Labels and names of the service's replicas correspond, and its options leave them alone. */
  ghost predicate Clean(cs: Containers, svc: Service) { Corresponds(cs, svc) && LabelsFree(svc) }

  // ------------------------------------------------- containers and their cluster

  predicate ServedIffOwned(cs: Containers, s: Service, endpoints: seq<(string, Xds.uint32)>, l: Loc) {
    Owned(cs, s, l) <==> l.env == s.endpointID && (l.name, Registry.ToUint32(s.containerPort)) in endpoints
  }

  /** The service's containers on its host are exactly the hosts of its published cluster, at its
      port. A service without port or replicas has no cluster, and one without replicas has no
      container either. */
  ghost predicate InStep(cs: Containers, s: Service, config: Xds.Config, eps: map<int, Endpoint>) {
    var n := Routing.ServiceCluster(s, eps);
    && (n in config.clusters <==> Registry.Live(s))
    && (Registry.Live(s) ==> forall l :: ServedIffOwned(cs, s, config.clusters[n].endpoints, l))
    && (s.replicas <= 0 ==> NoneThere(cs, s))
  }

  lemma EndpointsAreReplicas(s: Service, l: Loc)
    requires Registry.Live(s) && l.env == s.endpointID
    ensures (l.name, Registry.ToUint32(s.containerPort))
              in Xds.Endpoints(ReplicaNames(s.name, s.replicas), Registry.ToUint32(s.containerPort))
       <==> IsPlace(s, Count(s), l)
  {
    var port := Registry.ToUint32(s.containerPort);
    var endpoints := Xds.Endpoints(ReplicaNames(s.name, s.replicas), port);
    if (l.name, port) in endpoints {
      var i :| 0 <= i < |endpoints| && endpoints[i] == (l.name, port);
      assert l == At(s, i);
    }
    if IsPlace(s, Count(s), l) {
      var i := PlaceIndex(s, Count(s), l);
      assert endpoints[i] == (l.name, port);
    }
  }

  /** Same replica set, as far as names, host and count tell. */
  predicate SameSet(a: Service, b: Service) {
    a.name == b.name && a.endpointID == b.endpointID && a.replicas == b.replicas
  }

  lemma SamePlaces(a: Service, b: Service, l: Loc)
    requires SameSet(a, b)
    ensures IsPlace(a, Count(a), l) <==> IsPlace(b, Count(b), l)
  {
    if IsPlace(a, Count(a), l) {
      var i := PlaceIndex(a, Count(a), l);
      assert l == At(b, i);
    }
    if IsPlace(b, Count(b), l) {
      var i := PlaceIndex(b, Count(b), l);
      assert l == At(a, i);
    }
  }

  /** A complete replica set is in step with what its stored row compiles to. */
  lemma CompleteInStep(cs: Containers, svc: Service, s: Service, db: Store.Database, base: string, nodeBase: string)
    requires db.Valid() && s.name in db.services && db.services[s.name] == s
    requires Complete(cs, svc) && SameSet(svc, s)
    ensures InStep(cs, s, Routing.NodeConfig(db, base, nodeBase, s.endpointID), db.endpoints)
  {
    Routing.StoredServiceCluster(db, base, nodeBase, s);
    var n, c := Routing.ServiceCluster(s, db.endpoints), Routing.NodeConfig(db, base, nodeBase, s.endpointID).clusters;
    forall l ensures (Owned(cs, s, l) <==> IsPlace(s, Count(s), l)) {
      assert OwnedIffPlaced(cs, svc, Count(svc), l);
      SamePlaces(svc, s, l);
    }
    if Registry.Live(s) {
      forall l ensures ServedIffOwned(cs, s, c[n].endpoints, l) {
        if l.env == s.endpointID { EndpointsAreReplicas(s, l); }
      }
    }
  }

  // ------------------------------------------------------------------ reconciling

  lemma RemainingIds(cs: Containers, svc: Service, found: map<int, nat>)
    requires Indexed(cs, svc, found)
    ensures Ids(Remaining(found, Count(svc))) == Leftover(found, Count(svc))
  {
    forall i | i in found ensures i >= 0 { assert IndexedAt(cs, svc, i, found[i]); }
    assert forall i :: i in Remaining(found, Count(svc)) <==> i in found && i >= Count(svc);
  }

  /** Nothing is missing and nothing is left over in a complete set. */
  lemma CompleteSurvey(before: Containers, started: Containers, svc: Service, found: map<int, nat>)
    requires Corresponds(before, svc) && Complete(before, svc)
    requires OnlyStarted(before, started, svc) && Indexed(started, svc, found)
    ensures AllFound(svc, found) && Remaining(found, Count(svc)) == map[]
  {
    forall i: int64 | 0 <= i < Count(svc) ensures i in found {
      CompleteHas(before, svc, i);
      assert StartedAt(before, started, svc, At(svc, i)) && FoundAt(started, svc, found, i);
    }
    forall i | i in found ensures 0 <= i < Count(svc) {
      assert IndexedAt(started, svc, i, found[i]);
      var l := At(svc, i);
      assert StartedAt(before, started, svc, l) && Named(before, svc, i) && OwnedIffPlaced(before, svc, Count(svc), l);
      PlaceOfIndex(svc, Count(svc), i);
    }
    assert forall i :: i !in Remaining(found, Count(svc));
  }

  /** Makes the running replica set on a reachable host match the row. */
  method Converge(hosts: Hosts, svc: Service) returns (ok: bool)
    requires hosts.Valid()
    modifies hosts
    ensures hosts.Valid() && old(hosts.faults) <= hosts.faults
    ensures Corresponds(old(hosts.containers), svc) ==> NothingLost(old(hosts.containers), hosts.containers, svc)
    ensures Corresponds(old(hosts.containers), svc) && !ok ==> hosts.faults > old(hosts.faults)
    ensures ok && Clean(old(hosts.containers), svc) && hosts.faults == old(hosts.faults) ==>
      Reconciled(old(hosts.containers), hosts.containers, svc)
    ensures Corresponds(old(hosts.containers), svc) && Complete(old(hosts.containers), svc) ==>
      hosts.changes == old(hosts.changes)
    ensures ok && NoneThere(old(hosts.containers), svc) ==> hosts.faults == old(hosts.faults)
    ensures NewRunRow(old(hosts.containers), hosts.containers, svc)
  {
    ghost var before := hosts.containers;
    var byIndex;
    ok, byIndex := Survey(hosts, svc);
    if !ok {
      UntouchedRunsRow(before, svc);
      if Corresponds(before, svc) { UntouchedLosesNothing(before, svc); }
      return;
    }
    ghost var started, found := hosts.containers, byIndex;
    ghost var up := hosts.faults == old(hosts.faults);
    ok, byIndex := Grow(hosts, svc, byIndex);
    ghost var grown, nextId := hosts.containers, hosts.nextId;
    if Corresponds(before, svc) {
      RemainingIds(started, svc, found);
      if Complete(before, svc) { CompleteSurvey(before, started, svc, found); }
      NothingTrimmed(grown, svc.endpointID, Leftover(found, Count(svc)));
      PassesLoseNothing(before, started, grown, grown, svc, found, nextId);
    }
    NothingTrimmed(grown, svc.endpointID, {});
    PassesRunRow(before, started, grown, grown, svc, {});
    if !ok { return; }
    Trim(hosts, svc.endpointID, byIndex);
    PassesRunRow(before, started, grown, hosts.containers, svc, Ids(byIndex));
    if Corresponds(before, svc) {
      PassesLoseNothing(before, started, grown, hosts.containers, svc, found, nextId);
      if LabelsFree(svc) && hosts.faults == old(hosts.faults) {
        PassesReconcile(before, started, grown, hosts.containers, svc, found, nextId);
      }
    }
  }

  lemma UntouchedRunsRow(cs: Containers, svc: Service)
    ensures NewRunRow(cs, cs, svc)
  {
    forall l ensures KeptOrRow(cs, cs, svc, l) { }
  }

  lemma UntouchedLosesNothing(cs: Containers, svc: Service)
    ensures NothingLost(cs, cs, svc)
  {
    forall l ensures NotLost(cs, cs, svc, l) { }
  }

  // ------------------------------------------------------------------- rolling out

  /** A moment of an update: a stage of the rollout, or of the trimming after it. */
  ghost predicate InUpdate(before: Containers, now: Containers, svc: Service) {
    InRollout(before, now, svc) || Trimming(before, now, svc)
  }

  ghost predicate UpdateSince(before: Containers, svc: Service, was: nat, history: seq<Containers>) {
    was <= |history| && forall k :: was <= k < |history| ==> InUpdate(before, history[k], svc)
  }

  lemma RolloutStarts(before: Containers, svc: Service)
    ensures InRollout(before, before, svc) && InUpdate(before, before, svc)
  {
    StageStarts(before, svc);
  }

  /** The rollout's states followed by the trimming's. */
  lemma RolloutThenTrimming(before: Containers, rolled: Containers, svc: Service, nextId: nat,
                            was: nat, mid: seq<Containers>, history: seq<Containers>)
    requires Clean(before, svc) && UniqueIds(rolled, nextId) && Stage(before, rolled, svc, Count(svc))
    requires RolloutSince(before, svc, was, mid) && mid <= history
    requires TrimmingSince(rolled, svc.endpointID, Superfluous(rolled, svc), |mid|, history)
    ensures UpdateSince(before, svc, was, history)
  {
    forall k | was <= k < |history| ensures InUpdate(before, history[k], svc) {
      if k < |mid| {
        assert history[k] == mid[k] && InRollout(before, mid[k], svc);
      } else {
        RolledThenTrimming(before, rolled, history[k], svc, nextId);
      }
    }
  }

  /** Rolling over a complete set leaves a complete set. */
  lemma CompleteRolledOver(before: Containers, after: Containers, svc: Service)
    requires Clean(before, svc) && Complete(before, svc) && Stage(before, after, svc, Count(svc))
    ensures RolledOver(before, after, svc)
  {
    forall j: int64 | 0 <= j < Count(svc) ensures NewAt(after, svc, j) {
      assert RolledAt(before, after, svc, Count(svc), j);
    }
    forall l ensures OwnedIffPlaced(after, svc, Count(svc), l) && RolledOther(before, after, svc, l) {
      assert Apart(before, after, svc, l) && OwnedIffPlaced(before, svc, Count(svc), l);
      if IsPlace(svc, Count(svc), l) {
        var j := PlaceIndex(svc, Count(svc), l);
        assert NewAt(after, svc, j);
        NewCorresponds(svc, j, after[l]);
      }
    }
  }

  /** What a redeployment makes of the containers: every state was a stage of the rollout, and a
      finished one replaced every replica of what was a complete set. */
  ghost predicate RolledOut(before: Containers, now: Containers, svc: Service, was: nat, history: seq<Containers>,
                            ok: bool) {
    && RolloutSince(before, svc, was, history) && InRollout(before, now, svc)
    && (ok ==> Stage(before, now, svc, Count(svc)))
    && (ok && Clean(before, svc) && Complete(before, svc) ==> RolledOver(before, now, svc))
  }

  function Reimaged(cur: Service, newImage: string): Service { if newImage != "" then cur.(image := newImage) else cur }

  /** The row under this name has the image, also as its last one; nothing else is different. */
  predicate OnlyImageSet(rows: map<string, Service>, rows': map<string, Service>, name: string, image: string)
    requires name in rows
  {
    && name in rows' && rows' == rows[name := rows'[name]]
    && rows'[name].image == image && rows'[name].lastImage == image
    && rows'[name].(image := rows[name].image, lastImage := rows[name].lastImage) == rows[name]
  }

  /** Every container of the service runs the image. */
  ghost predicate AllRunImage(cs: Containers, svc: Service, image: string) {
    forall l :: Owned(cs, svc, l) ==> cs[l].spec.image == image
  }

  lemma RolledOverImage(before: Containers, after: Containers, svc: Service)
    requires RolledOver(before, after, svc)
    ensures AllRunImage(after, svc, svc.image)
  {
    RolledOverRunsRow(before, after, svc);
    forall l | Owned(after, svc, l) ensures after[l].spec.image == svc.image {
      var i: int64 :| 0 <= i < svc.replicas && RunsRow(after, svc, i, l);
    }
  }

  lemma NotRolledYet(before: Containers, svc: Service, history: seq<Containers>)
    ensures RolledOut(before, before, svc, |history|, history, false)
  {
    RolloutStarts(before, svc);
  }

  method RollOut(hosts: Hosts, svc: Service) returns (ok: bool)
    requires hosts.Valid()
    modifies hosts
    ensures hosts.Valid() && old(hosts.faults) <= hosts.faults
    ensures RolledOut(old(hosts.containers), hosts.containers, svc, |old(hosts.history)|, hosts.history, ok)
    ensures RolledOut(old(hosts.containers), hosts.containers, svc, |old(hosts.history)|, hosts.history, false)
    ensures ok && Clean(old(hosts.containers), svc) && Complete(old(hosts.containers), svc) ==>
      AllRunImage(hosts.containers, svc, svc.image)
    ensures !ok ==> hosts.faults > old(hosts.faults) && StoppedEarly(old(hosts.containers), hosts.containers, svc)
  {
    ghost var before := hosts.containers;
    ok := Roll(hosts, svc);
    if ok && Clean(before, svc) && Complete(before, svc) {
      CompleteRolledOver(before, hosts.containers, svc);
      RolledOverImage(before, hosts.containers, svc);
    }
  }

  /** The row that an edit leaves: who it is, whose it is, where it runs, its token and its last image
      stay; every other column is the request's. */
  predicate RowEdited(cur: Service, input: Service, row: Service) {
    && row.name == cur.name && row.owner == cur.owner && row.endpointID == cur.endpointID
    && row.webhookToken == cur.webhookToken && row.lastImage == cur.lastImage
    && row.image == input.image && row.subdomain == input.subdomain && row.containerPort == input.containerPort
    && row.network == input.network && row.env == input.env
    && row.cpuMilli == input.cpuMilli && row.memMB == input.memMB
    && row.replicas == input.replicas && row.minReplicas == input.minReplicas && row.maxReplicas == input.maxReplicas
    && row.autoscale == input.autoscale && row.targetCpuPct == input.targetCpuPct
    && row.gitRepo == input.gitRepo && row.gitBranch == input.gitBranch && row.gitDockerfile == input.gitDockerfile
    && row.advanced == input.advanced
  }

  /** The edited row: identity from the stored one, everything else from the request. */
  function Preserve(cur: Service, input: Service): (svc: Service)
    ensures RowEdited(cur, input, svc.(lastImage := cur.lastImage))
    ensures svc.(lastImage := cur.lastImage) == Store.Edited(cur, input.(name := cur.name))
  {
    input.(name := cur.name, owner := cur.owner, webhookToken := cur.webhookToken, endpointID := cur.endpointID)
  }

  /** Rolls the replicas over and drops those beyond the count. */
  method RollAndTrim(hosts: Hosts, svc: Service) returns (ok: bool)
    requires hosts.Valid()
    modifies hosts
    ensures hosts.Valid() && old(hosts.faults) <= hosts.faults
    ensures Clean(old(hosts.containers), svc) ==>
      UpdateSince(old(hosts.containers), svc, |old(hosts.history)|, hosts.history)
    ensures Clean(old(hosts.containers), svc) ==> InUpdate(old(hosts.containers), hosts.containers, svc)
    ensures !ok ==> hosts.faults > old(hosts.faults) && StoppedEarly(old(hosts.containers), hosts.containers, svc)
    ensures ok && Clean(old(hosts.containers), svc) ==> Trimming(old(hosts.containers), hosts.containers, svc)
    ensures ok && Clean(old(hosts.containers), svc) && hosts.faults == old(hosts.faults) ==>
      RolledOver(old(hosts.containers), hosts.containers, svc) && AllRunRow(hosts.containers, svc)
  {
    ghost var before := hosts.containers;
    ok := Roll(hosts, svc);
    ghost var rolled, mid, nextId := hosts.containers, hosts.history, hosts.nextId;
    if !ok { return; }
    RemoveSuperfluous(hosts, svc);
    if Clean(before, svc) {
      RolloutThenTrimming(before, rolled, svc, nextId, |old(hosts.history)|, mid, hosts.history);
      RolledThenTrimming(before, rolled, hosts.containers, svc, nextId);
      if hosts.faults == old(hosts.faults) {
        RolledThenTrimmed(before, rolled, hosts.containers, svc, nextId);
        RolledOverRunsRow(before, hosts.containers, svc);
      }
    }
  }

  // ------------------------------------------------------- all services in turn

  /** However far a redeployment came, labels and names of all services correspond. */
  lemma RedeployKeepsClean(before: Containers, stopped: Containers, services: map<string, Service>,
                           rows: map<string, Service>, name: string, newImage: string)
    requires AllClean(before, services) && name in services
    requires var svc := Reimaged(services[name], newImage);
             && InRollout(before, stopped, svc)
             && (rows == services || rows == services[name := svc.(lastImage := svc.image)])
    ensures AllClean(stopped, rows)
  {
    var svc := Reimaged(services[name], newImage);
    assert services[name].name == name;
    SameRowClean(before, services[name], svc);
    var i: int64 :| Stage(before, stopped, svc, i);
    StageCorresponds(before, stopped, svc, i);
    forall n | n in rows ensures rows[n].name == n && Clean(stopped, rows[n]) {
      assert n in services;
      if n == name {
        SameRowClean(stopped, svc, rows[n]);
      } else {
        StageSparesOthers(before, stopped, svc, i, services[n]);
      }
    }
  }

  lemma SameRowClean(cs: Containers, a: Service, b: Service)
    requires Clean(cs, a) && SameSet(a, b) && LabelsFree(b)
    ensures Clean(cs, b)
  {
    forall l ensures Labelled(cs, b, l) { assert Labelled(cs, a, l); }
    forall i: nat ensures Named(cs, b, i) { assert Named(cs, a, i); }
  }

  /** Replica j runs, with this image. */
  ghost predicate RunsImage(cs: Containers, svc: Service, j: int64, image: string) {
    var l := Loc(svc.endpointID, svc.name + "-" + Itoa(j));
    l in cs && cs[l].running && cs[l].spec.image == image
  }

  /** The set is complete again, and below the index where the rollout stopped it runs the image. */
  ghost predicate RepairedUpTo(before: Containers, stopped: Containers, after: Containers, cur: Service, image: string,
                               i: int64) {
    && Repaired(before, stopped, after, cur.(image := image), i)
    && forall j: int64 :: 0 <= j < i ==> RunsImage(after, cur, j, image)
  }

  lemma SameSetComplete(cs: Containers, a: Service, b: Service)
    requires Complete(cs, a) && SameSet(a, b)
    ensures Complete(cs, b)
  {
    forall l ensures OwnedIffPlaced(cs, b, Count(b), l) {
      assert OwnedIffPlaced(cs, a, Count(a), l);
      SamePlaces(a, b, l);
    }
  }

  lemma RestartRepairs(before: Containers, stopped: Containers, after: Containers, cur: Service, row: Service,
                       image: string)
    requires var svc := cur.(image := image);
             && Complete(before, svc) && InRollout(before, stopped, svc) && Restored(stopped, after, row)
             && (row == svc.(lastImage := svc.image) || (row == cur && stopped == before))
    ensures exists i: int64 :: RepairedUpTo(before, stopped, after, cur, image, i)
  {
    var svc := cur.(image := image);
    var k: int64 :| Stage(before, stopped, svc, k);
    FailedRolloutRepaired(before, stopped, after, svc, row, k);
    var i: int64 := if stopped == before then 0 else k;
    forall j: int64 | 0 <= j < i ensures RunsImage(after, cur, j, image) {
      assert RepairedAt(before, stopped, after, svc, i, j);
      ReplicaSpecAsks(svc, j);
    }
    assert RepairedUpTo(before, stopped, after, cur, image, i);
  }

  lemma RestartEnds(before: Containers, stopped: Containers, after: Containers, services: map<string, Service>,
                    rows: map<string, Service>, name: string, newImage: string, image: string)
    requires name in services && name in rows && image == (if newImage != "" then newImage else services[name].image)
    requires Complete(before, services[name]) && RestoredAt(stopped, after, rows, name)
    requires var svc := Reimaged(services[name], newImage);
             && InRollout(before, stopped, svc)
             && (rows == services[name := svc.(lastImage := svc.image)] || (rows == services && stopped == before))
    ensures exists i: int64 :: RepairedUpTo(before, stopped, after, services[name], image, i)
  {
    SameSetComplete(before, services[name], Reimaged(services[name], newImage));
    RestartRepairs(before, stopped, after, services[name], rows[name], image);
  }

  ghost predicate AllClean(cs: Containers, services: map<string, Service>) {
    forall n :: n in services ==> services[n].name == n && Clean(cs, services[n])
  }

  ghost predicate RestoredAt(before: Containers, after: Containers, services: map<string, Service>, n: string)
    requires n in services
  {
    Restored(before, after, services[n])
  }

  /** A container of no stored service is left alone. */
  ghost predicate StrayKept(before: Containers, now: Containers, services: map<string, Service>, l: Loc) {
    l in before && (forall n :: n in services ==> !Owned(before, services[n], l)) ==> Unchanged(before, now, l)
  }

  /** Where the j-th service stands when the first k have been reconciled. */
  ghost predicate SyncedAt(before: Containers, now: Containers, services: map<string, Service>, k: nat, j: nat)
    requires j < |Store.InOrder(services)|
  {
    var svc := Store.InOrder(services)[j];
    && Clean(before, svc) && Clean(now, svc)
    && if j < k then Restored(before, now, svc) else Untouched(before, now, svc)
  }

  ghost predicate Synced(before: Containers, now: Containers, services: map<string, Service>, k: nat) {
    && (forall j :: 0 <= j < |Store.InOrder(services)| ==> SyncedAt(before, now, services, k, j))
    && forall l :: StrayKept(before, now, services, l)
  }

  lemma SyncStarts(before: Containers, services: map<string, Service>)
    requires AllClean(before, services)
    ensures Synced(before, before, services, 0)
  {
    forall j | 0 <= j < |Store.InOrder(services)| ensures SyncedAt(before, before, services, 0, j) {
      assert Ordered(services.Keys)[j] in services;
      forall l ensures UntouchedAt(before, before, Store.InOrder(services)[j], l) { }
    }
    forall l ensures StrayKept(before, before, services, l) { }
  }

  lemma SyncOne(before: Containers, now: Containers, after: Containers, services: map<string, Service>, k: nat)
    requires AllClean(before, services) && k < |Store.InOrder(services)|
    requires Synced(before, now, services, k) && Reconciled(now, after, Store.InOrder(services)[k])
    ensures Synced(before, after, services, k + 1)
  {
    var svcs, keys := Store.InOrder(services), Ordered(services.Keys);
    var svc, next := svcs[k], k + 1;
    assert SyncedAt(before, now, services, k, k);
    forall j | 0 <= j < |svcs| ensures SyncedAt(before, after, services, next, j) {
      assert SyncedAt(before, now, services, k, j);
      if j == k {
        NothingLostCorresponds(now, after, svc);
        UntouchedThenReconciled(before, now, after, svc);
      } else {
        assert keys[j] in services && keys[k] in services && keys[j] != keys[k];
        ReconcileSparesOthers(now, after, svc, svcs[j]);
        if j < k {
          RestoredThenUntouched(before, now, after, svcs[j]);
        } else {
          UntouchedTransitive(before, now, after, svcs[j]);
        }
      }
    }
    forall l ensures StrayKept(before, after, services, l) {
      assert StrayKept(before, now, services, l) && NotLost(now, after, svc, l);
      assert keys[k] in services;
    }
  }

  lemma SyncEnds(before: Containers, after: Containers, services: map<string, Service>)
    requires AllClean(before, services) && Synced(before, after, services, |Store.InOrder(services)|)
    ensures forall n :: n in services ==> RestoredAt(before, after, services, n)
  {
    forall n | n in services ensures RestoredAt(before, after, services, n) {
      var k := Routing.PlaceOf(services, n);
      assert SyncedAt(before, after, services, |Store.InOrder(services)|, k);
    }
  }

  // ------------------------------------------------------------------ Manager

  class Manager {
    const store: Store.Store
    const hosts: Hosts
    const registry: Registry.Registry
    var clients: set<int>

    ghost predicate Valid()
      reads hosts`containers, hosts`nextId, registry.xds`version, registry.xds`cache
      reads registry.store`services, registry.store`routes, registry.store`endpoints
    {
      registry.store == store && registry.Valid() && hosts.Valid()
    }

    constructor (store: Store.Store, hosts: Hosts, registry: Registry.Registry)
      requires registry.store == store && registry.Valid() && hosts.Valid()
      ensures Valid() && this.store == store && this.hosts == hosts && this.registry == registry && clients == {}
    {
      this.store, this.hosts, this.registry := store, hosts, registry;
      clients := {};
    }

    /** Everything that went wrong outside the program: Docker calls, statements and refused pushes. */
    ghost function Faults(): nat reads hosts`faults, registry.store`faults, registry.xds`refusals {
      hosts.faults + registry.Faults()
    }

    /** There is a client for the host. */
    predicate Connected(id: int) reads this`clients { id == 0 || id in clients }

    /** There is one, or there can be. */
    predicate Connectable(id: int) reads this`clients, store`endpoints { Connected(id) || id in store.endpoints }

    /** Every node serves what the tables say, provided the local node's id is no edge node's. */
    ghost predicate Agreed()
      reads store`services, store`routes, store`endpoints, registry.xds`cache
    {
      Xds.LocalNodeDistinct(registry.xds.nodeID) ==>
        registry.Agrees(registry.Wanted(store.Data()), registry.xds.cache)
    }

    /** A publish covers the service's node. */
    ghost predicate Covered(s: Service) reads store`endpoints {
      && Xds.LocalNodeDistinct(registry.xds.nodeID)
      && (s.endpointID == 0 || s.endpointID in store.endpoints || Registry.Live(s))
    }

    /** Containers and routing agree on the service's own node. */
    ghost predicate Matches(s: Service) reads store`endpoints, hosts`containers, registry.xds`cache {
      var n := registry.NodeId(s.endpointID);
      n in registry.xds.cache && InStep(hosts.containers, s, registry.xds.cache[n].config, store.endpoints)
    }

    lemma AgreedMatches(svc: Service, s: Service)
      requires Valid() && Agreed() && Covered(s)
      requires s.name in store.services && store.services[s.name] == s
      requires Complete(hosts.containers, svc) && SameSet(svc, s)
      ensures Matches(s)
    {
      var db := store.Data();
      var wanted, id := registry.Wanted(db), s.endpointID;
      if Registry.Live(s) { Routing.LiveRowIsCompiled(db, registry.baseDomain, s); }
      assert id in wanted && registry.Serves(wanted, registry.xds.cache, id);
      CompleteInStep(hosts.containers, svc, s, db, registry.baseDomain, registry.xds.baseDomain);
    }

    /** The local host, a client opened before, or a new one for a known environment. */
    method DockerFor(id: int) returns (ok: bool)
      requires Valid()
      modifies this`clients, hosts`faults
      ensures Valid() && old(hosts.faults) <= hosts.faults
      ensures ok <==> old(Connectable(id)) && hosts.faults == old(hosts.faults)
      ensures clients == old(clients) + if ok && id != 0 then {id} else {}
    {
      if id == 0 || id in clients { return true; }
      if id !in store.endpoints { return false; }
      if * {
        hosts.faults := hosts.faults + 1;
        return false;
      }
      clients := clients + {id};
      ok := true;
    }

    method Reconcile(svc: Service) returns (ok: bool)
      requires Valid()
      modifies this`clients, hosts
      ensures Valid() && old(hosts.faults) <= hosts.faults
      ensures old(clients) <= clients && (hosts.containers != old(hosts.containers) ==> Connected(svc.endpointID))
      ensures Corresponds(old(hosts.containers), svc) ==> NothingLost(old(hosts.containers), hosts.containers, svc)
      ensures Corresponds(old(hosts.containers), svc) && !ok ==>
        hosts.faults > old(hosts.faults) || !old(Connectable(svc.endpointID))
      ensures ok && Clean(old(hosts.containers), svc) && hosts.faults == old(hosts.faults) ==>
        Reconciled(old(hosts.containers), hosts.containers, svc)
      ensures Corresponds(old(hosts.containers), svc) && Complete(old(hosts.containers), svc) ==>
        hosts.changes == old(hosts.changes)
      ensures ok && NoneThere(old(hosts.containers), svc) ==> hosts.faults == old(hosts.faults)
    {
      ok := DockerFor(svc.endpointID);
      if !ok {
        UntouchedLosesNothing(hosts.containers, svc);
        return;
      }
      ok := Converge(hosts, svc);
    }

    // ------------------------------------------------------------- operations

    method Create(svc: Service) returns (ok: bool)
      requires Valid()
      modifies this`clients, store`services, store`faults, hosts, registry.xds
      ensures Valid() && old(hosts.faults) <= hosts.faults && old(registry.Faults()) <= registry.Faults()
      ensures var row := svc.(lastImage := "");
              if svc.name in old(store.services)
              then !ok && store.services == old(store.services) && hosts.containers == old(hosts.containers)
              else (ok ==> store.services == old(store.services)[svc.name := row])
                   && (store.services == old(store.services)[svc.name := row]
                       || (store.services == old(store.services) && hosts.containers == old(hosts.containers)))
      ensures Corresponds(old(hosts.containers), svc) ==> NothingLost(old(hosts.containers), hosts.containers, svc)
      ensures hosts.containers != old(hosts.containers) ==> Connected(svc.endpointID)
      ensures !ok ==> Faults() > old(Faults()) || svc.name in old(store.services) || !old(Connectable(svc.endpointID))
                      || !Corresponds(old(hosts.containers), svc)
      ensures ok ==> Agreed()
      ensures ok && Clean(old(hosts.containers), svc)
              && (hosts.faults == old(hosts.faults) || NoneThere(old(hosts.containers), svc)) ==>
        && Reconciled(old(hosts.containers), hosts.containers, svc)
        && (Covered(svc) ==> Matches(svc.(lastImage := "")))
    {
      UntouchedLosesNothing(hosts.containers, svc);
      ok := store.CreateService(svc);
      if !ok { return; }
      ok := Reconcile(svc);
      if !ok { return; }
      ok := registry.Sync();
      if ok && Complete(hosts.containers, svc) && Covered(svc) { AgreedMatches(svc, svc.(lastImage := "")); }
    }

    /** Rolls an edited service out on its host, drops the replicas beyond the count and publishes. */
    method UpdateStored(svc: Service, ghost row: Service) returns (ok: bool)
      requires Valid() && SameSet(svc, row) && row.name in store.services && store.services[row.name] == row
      modifies this`clients, store`faults, hosts, registry.xds
      ensures Valid() && old(hosts.faults) <= hosts.faults && old(registry.Faults()) <= registry.Faults()
      ensures hosts.containers != old(hosts.containers) ==> Connected(svc.endpointID)
      ensures !ok ==> Faults() > old(Faults()) || !old(Connectable(svc.endpointID))
      ensures Clean(old(hosts.containers), svc) ==>
        && UpdateSince(old(hosts.containers), svc, |old(hosts.history)|, hosts.history)
        && InUpdate(old(hosts.containers), hosts.containers, svc)
        && (ok ==> Trimming(old(hosts.containers), hosts.containers, svc))
      ensures ok && Clean(old(hosts.containers), svc) && hosts.faults == old(hosts.faults) ==>
        && RolledOver(old(hosts.containers), hosts.containers, svc) && AllRunRow(hosts.containers, svc)
        && (Covered(row) ==> Matches(row))
      ensures ok ==> Agreed()
    {
      RolloutStarts(hosts.containers, svc);
      ok := DockerFor(svc.endpointID);
      if !ok { return; }
      ok := RollAndTrim(hosts, svc);
      if !ok { return; }
      ok := registry.Sync();
      if ok && Complete(hosts.containers, svc) && Covered(row) { AgreedMatches(svc, row); }
    }

    /** The name, the owner, the token and the host stay; the rest comes from the request. */
    method Update(name: string, input: Service) returns (ok: bool)
      requires Valid()
      modifies this`clients, store`services, store`faults, hosts, registry.xds
      ensures Valid() && old(hosts.faults) <= hosts.faults && old(registry.Faults()) <= registry.Faults()
      ensures name !in old(store.services) ==>
        !ok && store.services == old(store.services) && hosts.containers == old(hosts.containers)
      ensures name in old(store.services) ==>
        var cur := old(store.services)[name];
        var svc := Preserve(cur, input);
        var row := svc.(lastImage := cur.lastImage);
        && RowEdited(cur, input, row)
        && (ok ==> store.services == old(store.services)[name := row])
        && (store.services == old(store.services)[name := row]
            || (store.services == old(store.services) && hosts.containers == old(hosts.containers)))
        && (Clean(old(hosts.containers), svc) ==>
              && UpdateSince(old(hosts.containers), svc, |old(hosts.history)|, hosts.history)
              && InUpdate(old(hosts.containers), hosts.containers, svc)
              && (ok ==> Trimming(old(hosts.containers), hosts.containers, svc)))
        && (ok && Clean(old(hosts.containers), svc) && hosts.faults == old(hosts.faults) ==>
              && RolledOver(old(hosts.containers), hosts.containers, svc) && AllRunRow(hosts.containers, svc)
              && (Covered(row) ==> Matches(row)))
        && (hosts.containers != old(hosts.containers) ==> Connected(svc.endpointID))
        && (!ok ==> Faults() > old(Faults()) || !old(Connectable(svc.endpointID)))
      ensures ok ==> Agreed()
    {
      var r := store.GetService(name);
      if r.None? {
        if name in store.services { RolloutStarts(hosts.containers, Preserve(store.services[name], input)); }
        return false;
      }
      var svc := Preserve(r.value, input);
      RolloutStarts(hosts.containers, svc);
      ok := store.UpdateService(svc);
      if !ok { return; }
      ok := UpdateStored(svc, svc.(lastImage := r.value.lastImage));
    }

    method SetSubdomain(name: string, subdomain: string) returns (ok: bool)
      requires Valid()
      modifies store`services, store`faults, registry.xds
      ensures Valid()
      ensures !ok ==> Faults() > old(Faults()) || name !in old(store.services)
      ensures ok ==>
        var rows := old(store.services);
        name in rows && store.services == rows[name := rows[name].(subdomain := subdomain)]
      ensures store.services == old(store.services)
              || (name in old(store.services)
                  && store.services == old(store.services)[name := old(store.services)[name].(subdomain := subdomain)])
      ensures ok ==> Agreed()
    {
      var r := store.GetService(name);
      if r.None? { return false; }
      ok := store.SetServiceSubdomain(name, subdomain);
      if !ok { return; }
      ok := registry.Sync();
    }

    /** A negative count means none. */
    method Scale(name: string, count: int64) returns (ok: bool)
      requires Valid()
      modifies this`clients, store`services, store`faults, hosts, registry.xds
      ensures Valid() && old(hosts.faults) <= hosts.faults && old(registry.Faults()) <= registry.Faults()
      ensures name !in old(store.services) ==>
        !ok && store.services == old(store.services) && hosts.containers == old(hosts.containers)
      ensures name in old(store.services) ==>
        var svc := old(store.services)[name].(replicas := if count < 0 then 0 else count);
        && (ok ==> store.services == old(store.services)[name := svc])
        && (store.services == old(store.services)[name := svc]
            || (store.services == old(store.services) && hosts.containers == old(hosts.containers)))
        && (Corresponds(old(hosts.containers), svc) ==> NothingLost(old(hosts.containers), hosts.containers, svc))
        && (ok && Clean(old(hosts.containers), svc) && hosts.faults == old(hosts.faults) ==>
              && Reconciled(old(hosts.containers), hosts.containers, svc)
              && (Covered(svc) ==> Matches(svc)))
        && (hosts.containers != old(hosts.containers) ==> Connected(svc.endpointID))
        && (!ok ==> Faults() > old(Faults()) || !old(Connectable(svc.endpointID))
                    || !Corresponds(old(hosts.containers), svc))
      ensures old(clients) <= clients
      ensures ok ==> Agreed()
    {
      var r := store.GetService(name);
      if r.None? {
        if name in store.services {
          UntouchedLosesNothing(hosts.containers, store.services[name].(replicas := if count < 0 then 0 else count));
        }
        return false;
      }
      var replicas := count;
      if replicas < 0 { replicas := 0; }
      var svc := r.value.(replicas := replicas);
      UntouchedLosesNothing(hosts.containers, svc);
      ok := store.SetServiceReplicas(name, replicas);
      if !ok { return; }
      ok := Reconcile(svc);
      if !ok { return; }
      ok := registry.Sync();
      if ok && Complete(hosts.containers, svc) && Covered(svc) { AgreedMatches(svc, svc); }
    }

    /** Rolls the stored service out on its host and publishes. */
    method RollOutStored(svc: Service, ghost row: Service) returns (ok: bool)
      requires Valid() && SameSet(svc, row) && row.name in store.services && store.services[row.name] == row
      modifies this`clients, store`faults, hosts, registry.xds
      ensures Valid() && old(hosts.faults) <= hosts.faults && old(registry.Faults()) <= registry.Faults()
      ensures hosts.containers != old(hosts.containers) ==> Connected(svc.endpointID)
      ensures !ok ==> Faults() > old(Faults()) || !old(Connectable(svc.endpointID))
      ensures RolledOut(old(hosts.containers), hosts.containers, svc, |old(hosts.history)|, hosts.history, ok)
      ensures ok && Clean(old(hosts.containers), svc) && Complete(old(hosts.containers), svc) ==>
        AllRunImage(hosts.containers, svc, svc.image)
      ensures ok && Complete(hosts.containers, svc) && Covered(row) ==> Matches(row)
      ensures ok ==> Agreed()
    {
      NotRolledYet(hosts.containers, svc, hosts.history);
      ok := DockerFor(svc.endpointID);
      if !ok { return; }
      ok := RollOut(hosts, svc);
      if !ok { return; }
      ok := registry.Sync();
      if ok && Complete(hosts.containers, svc) && Covered(row) { AgreedMatches(svc, row); }
    }

    /** An empty image keeps the current one. */
    method Redeploy(name: string, newImage: string) returns (ok: bool)
      requires Valid()
      modifies this`clients, store`services, store`faults, hosts, registry.xds
      ensures Valid() && old(hosts.faults) <= hosts.faults && old(registry.Faults()) <= registry.Faults()
      ensures name !in old(store.services) ==>
        !ok && store.services == old(store.services) && hosts.containers == old(hosts.containers)
      ensures name in old(store.services) ==>
        var cur, before := old(store.services)[name], old(hosts.containers);
        var image := if newImage != "" then newImage else cur.image;
        var svc, row := cur.(image := image), cur.(image := image, lastImage := image);
        && (ok ==> OnlyImageSet(old(store.services), store.services, name, image))
        && (ok && Clean(before, svc) && Complete(before, svc) ==> AllRunImage(hosts.containers, svc, image))
        && (store.services == old(store.services)[name := row]
            || (store.services == old(store.services) && hosts.containers == before))
        && RolledOut(before, hosts.containers, svc, |old(hosts.history)|, hosts.history, ok)
        && (ok && Complete(hosts.containers, svc) && Covered(row) ==> Matches(row))
        && (hosts.containers != old(hosts.containers) ==> Connected(svc.endpointID))
        && (!ok ==> Faults() > old(Faults()) || !old(Connectable(svc.endpointID)))
      ensures ok ==> Agreed()
    {
      if name in store.services {
        NotRolledYet(hosts.containers, Reimaged(store.services[name], newImage), hosts.history);
      }
      var r := store.GetService(name);
      if r.None? { return false; }
      var svc := r.value;
      if newImage != "" { svc := svc.(image := newImage); }
      ok := store.SetServiceImage(name, svc.image);
      if !ok { return; }
      ok := RollOutStored(svc, svc.(lastImage := svc.image));
    }

    /** Removes all replicas, then the row. */
    method Delete(name: string) returns (ok: bool)
      requires Valid()
      modifies this`clients, store`services, store`faults, hosts, registry.xds
      ensures Valid() && old(hosts.faults) <= hosts.faults && old(registry.Faults()) <= registry.Faults()
      ensures ok ==> name in old(store.services) && store.services == old(store.services) - {name} && Agreed()
      ensures store.services == old(store.services) || store.services == old(store.services) - {name}
      ensures name !in old(store.services) ==> hosts.containers == old(hosts.containers)
      ensures name in old(store.services) ==>
        var svc := old(store.services)[name];
        && (forall l :: KeptOrDeletedAt(old(hosts.containers), hosts.containers, svc, l))
        && (ok && hosts.faults == old(hosts.faults) ==>
              && (forall l :: DeletedAt(old(hosts.containers), hosts.containers, svc, l))
              && (Reachable(svc.endpointID) ==> Unrouted(svc)))
        && (hosts.containers != old(hosts.containers) ==> Connected(svc.endpointID))
        && (!ok ==> Faults() > old(Faults()) || !old(Connectable(svc.endpointID)))
    {
      ghost var before, nextId := hosts.containers, hosts.nextId;
      var r := store.GetService(name);
      if r.None? { return false; }
      var svc := r.value;
      ok := DockerFor(svc.endpointID);
      if !ok { return; }
      ok := RemoveAll(hosts, svc);
      OwnedTrimmed(before, hosts.containers, svc, nextId);
      if !ok { return; }
      ok := store.DeleteService(name);
      if !ok { return; }
      ok := registry.Sync();
      if ok && Reachable(svc.endpointID) { AgreedUnroutes(svc); }
    }

    ghost predicate Reachable(id: int) reads store`endpoints {
      Xds.LocalNodeDistinct(registry.xds.nodeID) && (id == 0 || id in store.endpoints)
    }

    /** The service's cluster is not on its node. */
    ghost predicate Unrouted(svc: Service) reads store`endpoints, registry.xds`cache {
      var n := registry.NodeId(svc.endpointID);
      n in registry.xds.cache
      && Routing.ServiceCluster(svc, store.endpoints) !in registry.xds.cache[n].config.clusters
    }

    lemma AgreedUnroutes(svc: Service)
      requires Valid() && Agreed() && Reachable(svc.endpointID) && svc.name !in store.services
      ensures Unrouted(svc)
    {
      var db := store.Data();
      var wanted := registry.Wanted(db);
      assert svc.endpointID in wanted && registry.Serves(wanted, registry.xds.cache, svc.endpointID);
      Routing.NoServiceCluster(db, registry.baseDomain, registry.xds.baseDomain, svc);
    }

    ghost predicate AllConnectable(svcs: seq<Service>) reads this`clients, store`endpoints {
      forall k :: 0 <= k < |svcs| ==> Connectable(svcs[k].endpointID)
    }

    method ReconcileAll(svcs: seq<Service>, ghost services: map<string, Service>) returns (ok: bool)
      requires Valid() && svcs == Store.InOrder(services)
      modifies this`clients, hosts
      ensures Valid() && old(hosts.faults) <= hosts.faults
      ensures ok && AllClean(old(hosts.containers), services) && hosts.faults == old(hosts.faults) ==>
        Synced(old(hosts.containers), hosts.containers, services, |svcs|)
      ensures !ok && AllClean(old(hosts.containers), services) && old(AllConnectable(svcs)) ==>
        hosts.faults > old(hosts.faults)
    {
      ghost var before := hosts.containers;
      ghost var clean := AllClean(before, services);
      if clean { SyncStarts(before, services); }
      for k := 0 to |svcs|
        invariant Valid() && old(hosts.faults) <= hosts.faults && old(clients) <= clients
        invariant clean && hosts.faults == old(hosts.faults) ==> Synced(before, hosts.containers, services, k)
      {
        ghost var now := hosts.containers;
        if clean && hosts.faults == old(hosts.faults) { assert SyncedAt(before, now, services, k, k); }
        ok := Reconcile(svcs[k]);
        if !ok { return; }
        if clean && hosts.faults == old(hosts.faults) { SyncOne(before, now, hosts.containers, services, k); }
      }
      ok := true;
    }

    /** Reconciles every service, in the order of their names. */
    method SyncAll() returns (ok: bool)
      requires Valid()
      modifies this`clients, store`faults, hosts, registry.xds
      ensures Valid() && old(hosts.faults) <= hosts.faults && old(registry.Faults()) <= registry.Faults()
      ensures !ok && old(AllClean(hosts.containers, store.services))
              && old(AllConnectable(Store.InOrder(store.services))) ==>
        Faults() > old(Faults())
      ensures ok ==> Agreed()
      ensures ok && AllClean(old(hosts.containers), store.services) && hosts.faults == old(hosts.faults) ==>
        && (forall n :: n in store.services ==> RestoredAt(old(hosts.containers), hosts.containers, store.services, n))
        && (forall n :: n in store.services && Covered(store.services[n]) ==> Matches(store.services[n]))
        && (forall l :: StrayKept(old(hosts.containers), hosts.containers, store.services, l))
    {
      ghost var before := hosts.containers;
      var svcs;
      ok, svcs := store.ListServices();
      if !ok { return; }
      ok := ReconcileAll(svcs, store.services);
      if !ok { return; }
      ok := registry.Sync();
      if ok && AllClean(before, store.services) && hosts.faults == old(hosts.faults) {
        SyncEnds(before, hosts.containers, store.services);
        RestoredMatch(before);
      }
    }

    /** A redeployment, whether or not it breaks off, and the sync of the next start. stopped and calls
        are the containers and the failures in between. */
    method RedeployAndRestart(name: string, newImage: string)
      returns (redeployed: bool, ok: bool, ghost stopped: Containers, ghost calls: nat)
      requires Valid() && name in store.services
      modifies this`clients, store`services, store`faults, hosts, registry.xds
      ensures Valid() && old(hosts.faults) <= calls <= hosts.faults
      ensures !redeployed && old(Connectable(store.services[name].endpointID)) && Faults() == old(Faults()) + 1 ==>
        hosts.faults == calls
      ensures var cur := old(store.services)[name];
              var image := if newImage != "" then newImage else cur.image;
              ok && hosts.faults == calls && Complete(old(hosts.containers), cur)
              && AllClean(old(hosts.containers), old(store.services)) ==>
        exists i: int64 :: RepairedUpTo(old(hosts.containers), stopped, hosts.containers, cur, image, i)
    {
      ghost var before, services := hosts.containers, store.services;
      redeployed := Redeploy(name, newImage);
      stopped, calls := hosts.containers, hosts.faults;
      ghost var rows := store.services;
      if AllClean(before, services) { RedeployKeepsClean(before, stopped, services, rows, name, newImage); }
      ok := SyncAll();
      if ok && hosts.faults == calls && AllClean(before, services)
         && Complete(before, services[name]) {
        RestartEnds(before, stopped, hosts.containers, services, rows, name, newImage,
                    Reimaged(services[name], newImage).image);
      }
    }

    lemma RestoredMatch(before: Containers)
      requires Valid() && Agreed()
      requires forall n :: n in store.services ==> RestoredAt(before, hosts.containers, store.services, n)
      ensures forall n :: n in store.services && Covered(store.services[n]) ==> Matches(store.services[n])
    {
      forall n | n in store.services && Covered(store.services[n]) ensures Matches(store.services[n]) {
        assert RestoredAt(before, hosts.containers, store.services, n);
        AgreedMatches(store.services[n], store.services[n]);
      }
    }
  }
}
