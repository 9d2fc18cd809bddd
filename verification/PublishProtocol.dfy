/** Publishing as a concurrent protocol. Service operations write their row without the registry's
    lock and sync later; route operations write and publish under the lock; a publish reads the
    services, reads the routes and pushes node after node in separate steps, and any operation may
    fail half-way. The endpoints stay fixed. */
module PublishProtocol {
  import opened Text
  import opened Specs
  import Registry
  import Store
  import Xds

  datatype RouteWrite = Put(route: Route) | Drop(subdomain: string)

  /** Where an operation stands. */
  datatype Stage =
    | Idle
    | Owes                                              // services written, sync to come
    | BeforeWrite(write: RouteWrite)                    // holds the lock, route not yet written
    | Publishing                                        // holds the lock, nothing read yet
    | HasServices(services: map<string, Service>)       // services read
    | Pushing(db: Store.Database, pushed: set<int>)     // routes read, some nodes pushed

  /** What does not change during a run. */
  datatype Setting = Setting(endpoints: map<int, Endpoint>, base: string, nodeBase: string, localNode: string)

  /** orphaned: an operation that failed left a write that nobody will publish.
      heals: the publish under way read the services after the last such failure. */
  datatype State = State(
    services: map<string, Service>, routes: map<string, Route>, cache: map<string, Xds.Config>,
    lock: Option<nat>, pcs: map<nat, Stage>, orphaned: bool, heals: bool)

  datatype Action =
    | WriteServices(services: map<string, Service>)
    | LockForSync
    | LockForRoute(write: RouteWrite)
    | WriteRoute
    | ReadServices
    | ReadRoutes
    | PushNode(id: int)
    | Finish
    | Fail

  function At(s: State, t: nat): Stage { if t in s.pcs then s.pcs[t] else Idle }

  /** What a write leaves alone, and what it leaves. */
  predicate Written(routes: map<string, Route>, w: RouteWrite, after: map<string, Route>, s: string) {
    if w.Put? && s == w.route.subdomain then s in after && after[s] == w.route
    else if w.Drop? && s == w.subdomain then s !in after
    else (s in after <==> s in routes) && (s in after ==> after[s] == routes[s])
  }

  function Apply(routes: map<string, Route>, w: RouteWrite): (after: map<string, Route>)
    ensures forall s :: Written(routes, w, after, s)
  {
    match w
    case Put(r) => routes[r.subdomain := r]
    case Drop(sub) => routes - {sub}
  }

  ghost function Wanted(c: Setting, db: Store.Database): map<int, Xds.Config> {
    Registry.WantedConfigs(db, c.base, c.nodeBase)
  }

  function Data(c: Setting, s: State): Store.Database { Store.Database(s.services, s.routes, c.endpoints) }

  function Go(s: State, t: nat, pc: Stage): State { s.(pcs := s.pcs[t := pc]) }

  /** One step of operation t. */
  ghost predicate Next(c: Setting, s: State, t: nat, a: Action, s': State) {
    match a
    case WriteServices(svcs) =>
      && At(s, t) == Idle
      && s' == Go(s, t, Owes).(services := svcs)
    case LockForSync =>
      && At(s, t) == Owes && s.lock == None
      && s' == Go(s, t, Publishing).(lock := Some(t))
    case LockForRoute(w) =>
      && At(s, t) == Idle && s.lock == None
      && s' == Go(s, t, BeforeWrite(w)).(lock := Some(t))
    case WriteRoute =>
      && At(s, t).BeforeWrite?
      && s' == Go(s, t, Publishing).(routes := Apply(s.routes, At(s, t).write))
    case ReadServices =>
      && At(s, t) == Publishing
      && s' == Go(s, t, HasServices(s.services)).(heals := true)
    case ReadRoutes =>
      && At(s, t).HasServices?
      && s' == Go(s, t, Pushing(Store.Database(At(s, t).services, s.routes, c.endpoints), {}))
    case PushNode(id) =>
      && At(s, t).Pushing?
      && var w := Wanted(c, At(s, t).db);
         id in w
         && s' == Go(s, t, Pushing(At(s, t).db, At(s, t).pushed + {id}))
                    .(cache := s.cache[Xds.NodeForEndpoint(c.localNode, id) := w[id]])
    case Finish =>
      && At(s, t).Pushing?
      && At(s, t).pushed == Wanted(c, At(s, t).db).Keys
      && s' == Go(s, t, Idle).(lock := None, orphaned := s.orphaned && !s.heals)
    case Fail =>
      && At(s, t) != Idle
      && var owed := !At(s, t).BeforeWrite?;
         s' == Go(s, t, Idle).(lock := if s.lock == Some(t) then None else s.lock,
                               orphaned := s.orphaned || owed, heals := s.heals && !owed)
  }

  // ----------------------------------------------------------------- what is kept

  ghost predicate Serves(c: Setting, cache: map<string, Xds.Config>, w: map<int, Xds.Config>, id: int)
    requires id in w
  {
    var n := Xds.NodeForEndpoint(c.localNode, id);
    n in cache && cache[n] == w[id]
  }

  /** Every node serves what the given tables say. */
  ghost predicate Agrees(c: Setting, cache: map<string, Xds.Config>, db: Store.Database) {
    var w := Wanted(c, db);
    forall id :: id in w ==> Serves(c, cache, w, id)
  }

  predicate HoldsLock(pc: Stage) { !pc.Idle? && !pc.Owes? }

  ghost predicate SomebodyOwes(s: State) { exists t :: t in s.pcs && s.pcs[t] == Owes }

  /** A write exists that the publish under way may have missed, and that is still to be published. */
  ghost predicate Missed(s: State) { SomebodyOwes(s) || (s.orphaned && !s.heals) }

  ghost predicate LockInv(s: State) {
    forall t: nat :: HoldsLock(At(s, t)) <==> s.lock == Some(t)
  }

  /** What the lock holder has read and pushed. */
  ghost predicate HolderInv(c: Setting, s: State, pc: Stage) {
    match pc
    case Idle | Owes | Publishing => true
    case BeforeWrite(_) => !SomebodyOwes(s) && !s.orphaned ==> Agrees(c, s.cache, Data(c, s))
    case HasServices(svcs) => !Missed(s) ==> svcs == s.services
    case Pushing(db, pushed) =>
      && db.routes == s.routes && db.endpoints == c.endpoints
      && (!Missed(s) ==> db.services == s.services)
      && pushed <= Wanted(c, db).Keys
      && forall id :: id in pushed ==> Serves(c, s.cache, Wanted(c, db), id)
  }

  ghost predicate Inv(c: Setting, s: State) {
    && LockInv(s)
    && (s.lock == None && !SomebodyOwes(s) && !s.orphaned ==> Agrees(c, s.cache, Data(c, s)))
    && (s.lock.Some? ==> HolderInv(c, s, At(s, s.lock.value)))
  }

  lemma LockInvKept(c: Setting, s: State, t: nat, a: Action, s': State)
    requires LockInv(s) && Next(c, s, t, a, s')
    ensures LockInv(s')
  {
    forall u: nat ensures HoldsLock(At(s', u)) <==> s'.lock == Some(u) {
      assert HoldsLock(At(s, u)) <==> s.lock == Some(u);
      assert HoldsLock(At(s, t)) <==> s.lock == Some(t);
      assert u != t ==> At(s', u) == At(s, u);
    }
  }

  /** Somebody still owes after a step unless it was the stepping operation alone. */
  lemma OwingKept(c: Setting, s: State, t: nat, a: Action, s': State)
    requires Next(c, s, t, a, s') && SomebodyOwes(s) && At(s, t) != Owes
    ensures SomebodyOwes(s')
  {
    var u :| u in s.pcs && s.pcs[u] == Owes;
    assert u in s'.pcs && s'.pcs[u] == Owes;
  }

  lemma PushKeepsOthers(c: Setting, cache: map<string, Xds.Config>, w: map<int, Xds.Config>, pushed: set<int>, id: int)
    requires Xds.LocalNodeDistinct(c.localNode) && id in w && pushed <= w.Keys
    requires forall j :: j in pushed ==> Serves(c, cache, w, j)
    ensures forall j :: j in pushed + {id} ==> Serves(c, cache[Xds.NodeForEndpoint(c.localNode, id) := w[id]], w, j)
  {
    Xds.NodeForEndpointInjective(c.localNode);
  }

  /** Steps of operations that do not hold the lock leave the holder's knowledge intact: what it
      may have missed is owed or orphaned. */
  lemma OutsiderStep(c: Setting, s: State, t: nat, a: Action, s': State)
    requires Inv(c, s) && Next(c, s, t, a, s') && s.lock.Some? && s.lock.value != t
    ensures Inv(c, s')
  {
    LockInvKept(c, s, t, a, s');
    var holder := s.lock.value;
    assert HoldsLock(At(s, t)) <==> s.lock == Some(t);
    assert a.WriteServices? || a.Fail?;
    assert s'.lock == s.lock && At(s', holder) == At(s, holder);
    if a.WriteServices? {
      assert t in s'.pcs && s'.pcs[t] == Owes;
    } else {
      assert s'.orphaned && !s'.heals;
    }
  }

  lemma FreeLockStep(c: Setting, s: State, t: nat, a: Action, s': State)
    requires Inv(c, s) && Next(c, s, t, a, s') && s.lock == None
    ensures Inv(c, s')
  {
    LockInvKept(c, s, t, a, s');
    assert HoldsLock(At(s, t)) <==> s.lock == Some(t);
    match a
    case WriteServices(_) => assert t in s'.pcs && s'.pcs[t] == Owes;
    case LockForRoute(_) => if SomebodyOwes(s) { OwingKept(c, s, t, a, s'); }
    case _ =>
  }

  lemma HolderStep(c: Setting, s: State, t: nat, a: Action, s': State)
    requires Xds.LocalNodeDistinct(c.localNode)
    requires Inv(c, s) && Next(c, s, t, a, s') && s.lock == Some(t)
    ensures Inv(c, s')
  {
    LockInvKept(c, s, t, a, s');
    assert HoldsLock(At(s, t));
    if SomebodyOwes(s) { OwingKept(c, s, t, a, s'); }
    match a
    case PushNode(id) =>
      PushKeepsOthers(c, s.cache, Wanted(c, At(s, t).db), At(s, t).pushed, id);
    case Finish =>
      if !SomebodyOwes(s') && !s'.orphaned {
        assert !Missed(s);
        assert At(s, t).db == Data(c, s);
      }
    case _ =>
  }

  /** Every step keeps the invariant. */
  lemma InvKept(c: Setting, s: State, t: nat, a: Action, s': State)
    requires Xds.LocalNodeDistinct(c.localNode)
    requires Inv(c, s) && Next(c, s, t, a, s')
    ensures Inv(c, s')
  {
    match s.lock
    case None => FreeLockStep(c, s, t, a, s');
    case Some(h) => if h == t { HolderStep(c, s, t, a, s'); } else { OutsiderStep(c, s, t, a, s'); }
  }

  // -------------------------------------------------------------- whole runs

  datatype Step = Step(op: nat, action: Action)

  ghost predicate Init(c: Setting, s: State) {
    && s.lock == None && (forall t :: t in s.pcs ==> s.pcs[t] == Idle)
    && (s.orphaned || Agrees(c, s.cache, Data(c, s)))
  }

  ghost predicate StepAt(c: Setting, states: seq<State>, steps: seq<Step>, i: nat)
    requires |states| == |steps| + 1 && i < |steps|
  {
    Next(c, states[i], steps[i].op, steps[i].action, states[i + 1])
  }

  ghost predicate Steps(c: Setting, states: seq<State>, steps: seq<Step>) {
    && |states| == |steps| + 1
    && forall i :: 0 <= i < |steps| ==> StepAt(c, states, steps, i)
  }

  ghost predicate Run(c: Setting, states: seq<State>, steps: seq<Step>) {
    Steps(c, states, steps) && Init(c, states[0])
  }

  lemma {:induction false} RunKeepsInv(c: Setting, states: seq<State>, steps: seq<Step>, k: nat)
    requires Xds.LocalNodeDistinct(c.localNode) && Run(c, states, steps) && k < |states|
    ensures Inv(c, states[k])
    decreases k
  {
    if k > 0 {
      RunKeepsInv(c, states, steps, k - 1);
      assert StepAt(c, states, steps, k - 1);
      InvKept(c, states[k - 1], steps[k - 1].op, steps[k - 1].action, states[k]);
    }
  }

  /** An operation that will still publish what is in the store. */
  ghost predicate SomebodyWillPublish(s: State) {
    exists t :: t in s.pcs && !s.pcs[t].Idle? && !s.pcs[t].BeforeWrite?
  }

  /** No lost update: at every point of every interleaving all nodes agree with the current store,
      or some operation is about to publish or publishing, or a failed operation left a write
      behind. */
  lemma NoLostUpdate(c: Setting, states: seq<State>, steps: seq<Step>, k: nat)
    requires Xds.LocalNodeDistinct(c.localNode) && Run(c, states, steps) && k < |states|
    ensures var s := states[k]; Agrees(c, s.cache, Data(c, s)) || SomebodyWillPublish(s) || s.orphaned
  {
    var s := states[k];
    RunKeepsInv(c, states, steps, k);
    if !SomebodyWillPublish(s) && s.lock.Some? {
      var h := s.lock.value;
      assert HoldsLock(At(s, h));
      assert h in s.pcs && s.pcs[h].BeforeWrite?;
    }
  }

  predicate Succeeds(steps: seq<Step>, i: nat)
    requires i < |steps|
  {
    !steps[i].action.Fail?
  }

  ghost predicate NeverFails(steps: seq<Step>) { forall i :: 0 <= i < |steps| ==> Succeeds(steps, i) }

  lemma StepOrphansOnlyByFailing(c: Setting, states: seq<State>, steps: seq<Step>, i: nat)
    requires Steps(c, states, steps) && i < |steps| && Succeeds(steps, i)
    ensures states[i + 1].orphaned ==> states[i].orphaned
  {
    assert StepAt(c, states, steps, i);
  }

  lemma {:induction false} NeverFailsNeverOrphans(c: Setting, states: seq<State>, steps: seq<Step>, k: nat)
    requires Steps(c, states, steps) && !states[0].orphaned && k < |states| && NeverFails(steps)
    ensures !states[k].orphaned
    decreases k
  {
    if k > 0 {
      NeverFailsNeverOrphans(c, states, steps, k - 1);
      StepOrphansOnlyByFailing(c, states, steps, k - 1);
    }
  }

  ghost predicate Quiescent(s: State) { forall t :: t in s.pcs ==> s.pcs[t] == Idle }

  /** Without failures every quiescent state agrees with its store. */
  lemma QuiescentAgrees(c: Setting, states: seq<State>, steps: seq<Step>, k: nat)
    requires Xds.LocalNodeDistinct(c.localNode) && Run(c, states, steps) && !states[0].orphaned
    requires NeverFails(steps)
    requires k < |states| && Quiescent(states[k])
    ensures Agrees(c, states[k].cache, Data(c, states[k]))
  {
    NoLostUpdate(c, states, steps, k);
    NeverFailsNeverOrphans(c, states, steps, k);
  }

  /** An operation fails that owes a publish. */
  predicate FailsOwing(states: seq<State>, steps: seq<Step>, i: nat)
    requires |states| == |steps| + 1 && i < |steps|
  {
    steps[i].action.Fail? && !At(states[i], steps[i].op).BeforeWrite?
  }

  /** The services were read at j, and since then no operation failed owing a publish. */
  ghost predicate ReadAt(states: seq<State>, steps: seq<Step>, j: nat, k: nat)
    requires |states| == |steps| + 1 && k <= |steps|
  {
    j < k && steps[j].action.ReadServices? && forall i :: j < i < k ==> !FailsOwing(states, steps, i)
  }

  ghost predicate ReadSince(states: seq<State>, steps: seq<Step>, k: nat)
    requires |states| == |steps| + 1 && k <= |steps|
  {
    exists j: nat :: ReadAt(states, steps, j, k)
  }

  lemma ReadStill(states: seq<State>, steps: seq<Step>, k: nat)
    requires |states| == |steps| + 1 && 0 < k <= |steps|
    ensures ReadSince(states, steps, k)
       <==> steps[k - 1].action.ReadServices? || (ReadSince(states, steps, k - 1) && !FailsOwing(states, steps, k - 1))
  {
    if steps[k - 1].action.ReadServices? {
      assert ReadAt(states, steps, k - 1, k);
    } else if j: nat :| ReadAt(states, steps, j, k) {
      assert ReadAt(states, steps, j, k - 1);
    }
    var last := k - 1;
    if j: nat :| ReadAt(states, steps, j, last) {
      assert !FailsOwing(states, steps, last) ==> ReadAt(states, steps, j, k);
    }
  }

  /** What heals tells: the services were read since the last operation failed that owed a publish. */
  lemma {:induction false} HealsIff(c: Setting, states: seq<State>, steps: seq<Step>, k: nat)
    requires Steps(c, states, steps) && k < |states|
    ensures ReadSince(states, steps, k) ==> states[k].heals
    ensures !states[0].heals && states[k].heals ==> ReadSince(states, steps, k)
    decreases k
  {
    if k > 0 {
      HealsIff(c, states, steps, k - 1);
      ReadStill(states, steps, k);
      assert StepAt(c, states, steps, k - 1);
    }
  }

  /** A publish that completes, while no operation that owes one has failed since the services were
      read, pays every debt that failures had left: if nobody owes, all nodes agree again. */
  lemma CompletedPublishHeals(c: Setting, states: seq<State>, steps: seq<Step>, k: nat)
    requires Xds.LocalNodeDistinct(c.localNode) && Run(c, states, steps) && k < |steps|
    requires steps[k].action.Finish? && ReadSince(states, steps, k) && !SomebodyOwes(states[k + 1])
    ensures !states[k + 1].orphaned && Agrees(c, states[k + 1].cache, Data(c, states[k + 1]))
  {
    assert states[k].heals by { HealsIff(c, states, steps, k); }
    HealedAt(c, states, steps, k);
  }

  lemma HealedAt(c: Setting, states: seq<State>, steps: seq<Step>, k: nat)
    requires Xds.LocalNodeDistinct(c.localNode) && Run(c, states, steps) && k < |steps|
    requires steps[k].action.Finish? && states[k].heals && !SomebodyOwes(states[k + 1])
    ensures !states[k + 1].orphaned && Agrees(c, states[k + 1].cache, Data(c, states[k + 1]))
  {
    var next := k + 1;
    RunKeepsInv(c, states, steps, next);
    assert StepAt(c, states, steps, k);
    FinishHeals(c, states[k], steps[k].op, states[next]);
  }

  lemma FinishHeals(c: Setting, s: State, t: nat, s': State)
    requires Next(c, s, t, Finish, s') && Inv(c, s') && s.heals && !SomebodyOwes(s')
    ensures !s'.orphaned && Agrees(c, s'.cache, Data(c, s'))
  {
  }

  /** At most one operation is between taking the lock and releasing it. */
  lemma OnePublisher(c: Setting, states: seq<State>, steps: seq<Step>, k: nat, t: nat, u: nat)
    requires Xds.LocalNodeDistinct(c.localNode) && Run(c, states, steps) && k < |states|
    requires HoldsLock(At(states[k], t)) && HoldsLock(At(states[k], u))
    ensures t == u
  {
    RunKeepsInv(c, states, steps, k);
  }
}
