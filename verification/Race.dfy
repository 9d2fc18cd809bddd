/** A redeployment and a scaling of one service that overlap: which interleavings of the two leave the
    replicas that the scaling asked for. */
module Race {
  import opened Text
  import opened Specs
  import opened Docker
  import opened Replicas
  import opened Quota
  import opened Overlap
  import Passes
  import Services

  /** The service when both begin, the image that the redeployment brings ("" keeps the image), and the
      count that the scaling asks for. */
  datatype Config = Config(svc: Service, image: string, count: int64)

  ghost predicate Proper(c: Config) { LabelsFree(c.svc) && c.count >= 0 }

  /** How far the redeployment is: it is about to replace replica i, or has removed it. */
  datatype Rollout =
    | Waiting
    | Read(row: Service)
    | Next(row: Service, i: int64)
    | Gone(row: Service, i: int64)
    | Broken

  /** How far the scaling is. found has the ids of the listing, by index; stopped are the listed ones
      still to be started, left those still to be removed. */
  datatype Scaling =
    | Idle
    | Known(row: Service)
    | Stored(row: Service)
    | Starting(row: Service, found: map<int, nat>, stopped: set<nat>)
    | Growing(row: Service, found: map<int, nat>, i: int64)
    | Trimming(row: Service, left: set<nat>)
    | Failed

  datatype State = State(row: Service, cs: Containers, nextId: nat, roll: Rollout, scale: Scaling, faults: nat)

  datatype Act =
    | RollReads | RollWrites | RollRemoves(fault: bool) | RollDeploys(ok: bool, fault: bool)
    | ScaleReads | ScaleWrites | ScaleLists(found: map<int, nat>, stopped: set<nat>) | ScaleCannotList
    | ScaleStarts(id: nat, fault: bool) | ScaleGoesOn | ScaleSkips | ScaleGrows(ok: bool, fault: bool)
    | ScaleTurns | ScaleTrims(id: nat, ok: bool, fault: bool)

  predicate RolledOut(r: Rollout) { r.Next? && r.i == Count(r.row) }

  predicate Scaled(s: Scaling) { s.Trimming? && s.left == {} }

  function Faults(s: State, fault: bool): nat { s.faults + if fault then 1 else 0 }

  /** A step that calls Docker. */
  ghost predicate Calls(s: State, r: Request, s': State, ok: bool, fault: bool)
    requires (r.Deploy? || r.RemoveName?) ==> r.index >= 0
  {
    Performed(s.cs, s.nextId, r, s'.cs, s'.nextId, ok, fault) && s'.row == s.row && s'.faults == Faults(s, fault)
  }

  /** A step of the redeployment. */
  ghost predicate Rolls(c: Config, s: State, a: Act, s': State) {
    && s'.scale == s.scale
    && match a
       case RollReads =>
         s.roll.Waiting? && s' == s.(roll := Read(Services.Reimaged(s.row, c.image)))
       case RollWrites =>
         && s.roll.Read?
         && s' == s.(row := s.row.(image := s.roll.row.image, lastImage := s.roll.row.image),
                     roll := Next(s.roll.row, 0))
       case RollRemoves(fault) =>
         && s.roll.Next? && 0 <= s.roll.i < Count(s.roll.row) && s'.roll == Gone(s.roll.row, s.roll.i)
         && Calls(s, RemoveName(s.roll.row, s.roll.i), s', true, fault)
       case RollDeploys(ok, fault) =>
         && s.roll.Gone? && 0 <= s.roll.i < Count(s.roll.row)
         && s'.roll == (if ok then Next(s.roll.row, s.roll.i + 1) else Broken)
         && Calls(s, Deploy(s.roll.row, s.roll.i), s', ok, fault)
       case _ => false
  }

  /** A step of the scaling. */
  ghost predicate Scales(c: Config, s: State, a: Act, s': State) {
    && s'.roll == s.roll
    && match a
       case ScaleReads =>
         s.scale.Idle? && s' == s.(scale := Known(s.row.(replicas := c.count)))
       case ScaleWrites =>
         s.scale.Known? && s' == s.(row := s.row.(replicas := c.count), scale := Stored(s.scale.row))
       case ScaleLists(found, stopped) =>
         && s.scale.Stored? && Indexed(s.cs, s.scale.row, found) && stopped <= Passes.Ids(found)
         && s' == s.(scale := Starting(s.scale.row, found, stopped))
       case ScaleCannotList =>
         s.scale.Stored? && s' == s.(scale := Failed, faults := Faults(s, true))
       case ScaleStarts(id, fault) =>
         && s.scale.Starting? && id in s.scale.stopped
         && s'.scale == Starting(s.scale.row, s.scale.found, s.scale.stopped - {id})
         && Calls(s, Start(s.scale.row.endpointID, id), s', true, fault)
       case ScaleGoesOn =>
         s.scale.Starting? && s.scale.stopped == {} && s' == s.(scale := Growing(s.scale.row, s.scale.found, 0))
       case ScaleSkips =>
         && s.scale.Growing? && 0 <= s.scale.i < Count(s.scale.row) && s.scale.i in s.scale.found
         && s' == s.(scale := Growing(s.scale.row, s.scale.found, s.scale.i + 1))
       case ScaleGrows(ok, fault) =>
         && s.scale.Growing? && 0 <= s.scale.i < Count(s.scale.row) && s.scale.i !in s.scale.found
         && s'.scale == (if ok then Growing(s.scale.row, s.scale.found, s.scale.i + 1) else Failed)
         && Calls(s, Deploy(s.scale.row, s.scale.i), s', ok, fault)
       case ScaleTurns =>
         && s.scale.Growing? && s.scale.i == Count(s.scale.row)
         && s' == s.(scale := Trimming(s.scale.row, Leftover(s.scale.found, Count(s.scale.row))))
       case ScaleTrims(id, ok, fault) =>
         && s.scale.Trimming? && id in s.scale.left && s'.scale == Trimming(s.scale.row, s.scale.left - {id})
         && Calls(s, RemoveId(s.scale.row.endpointID, id), s', ok, fault)
       case _ => false
  }

  ghost predicate Does(c: Config, s: State, a: Act, s': State) { Rolls(c, s, a, s') || Scales(c, s, a, s') }

  /** Both are yet to begin on a complete set. */
  ghost predicate Start0(c: Config, s: State) {
    && s.row == c.svc && s.roll == Waiting && s.scale == Idle && s.faults == 0
    && UniqueIds(s.cs, s.nextId) && Services.Clean(s.cs, c.svc) && Complete(s.cs, c.svc)
  }

  // ------------------------------------------------------------------ the world

  /** The largest count that either works with. */
  function Most(c: Config): nat
    requires c.count >= 0
  {
    if Count(c.svc) > c.count then Count(c.svc) else c.count
  }

  ghost predicate Known0(c: Config, row: Service)
    requires c.count >= 0
  {
    Version(row, c.svc, Most(c)) && (row.replicas == c.svc.replicas || row.replicas == c.count)
  }

  /** The ids that the scaling may still use. */
  ghost function Targets(s: Scaling): set<nat> {
    match s
    case Starting(_, found, _) => Passes.Ids(found)
    case Growing(_, found, _) => Passes.Ids(found)
    case Trimming(_, left) => left
    case _ => {}
  }

  /** Whatever happens, every row is a version of the service, labels and names correspond, and the
      ids that the scaling uses are the service's own. */
  ghost predicate World(c: Config, s: State)
    requires c.count >= 0
  {
    && UniqueIds(s.cs, s.nextId) && Services.Clean(s.cs, c.svc) && Known0(c, s.row)
    && (s.roll.Read? || s.roll.Next? || s.roll.Gone? ==> Known0(c, s.roll.row))
    && (!s.scale.Idle? && !s.scale.Failed? ==> Known0(c, s.scale.row) && s.scale.row.replicas == c.count)
    && (s.scale.Starting? ==> s.scale.stopped <= Passes.Ids(s.scale.found))
    && OwnIds(s.cs, c.svc, Targets(s.scale))
  }

  lemma CallsKeepWorld(c: Config, s: State, r: Request, s': State, ok: bool, fault: bool, ids: set<nat>)
    requires Proper(c) && World(c, s) && (r.Deploy? || r.RemoveName? ==> r.index >= 0)
    requires Calls(s, r, s', ok, fault) && Sensible(r, c.svc, Most(c), Targets(s.scale)) && ids <= Targets(s.scale)
    ensures Call(s.cs, s'.cs, c.svc, Most(c)) && Services.Clean(s'.cs, c.svc) && OwnIds(s'.cs, c.svc, ids)
    ensures UniqueIds(s'.cs, s'.nextId)
  {
    PerformedIsCall(s.cs, s.nextId, r, s'.cs, s'.nextId, ok, fault, c.svc, Most(c), Targets(s.scale));
    CallKeepsClean(s.cs, s'.cs, c.svc, Most(c));
    forall l ensures OwnIdAt(s'.cs, c.svc, ids, l) { assert OwnIdAt(s'.cs, c.svc, Targets(s.scale), l); }
  }

  lemma RollKeepsWorld(c: Config, s: State, a: Act, s': State)
    requires Proper(c) && World(c, s) && Rolls(c, s, a, s')
    ensures World(c, s') && Call(s.cs, s'.cs, c.svc, Most(c))
  {
    match a
    case RollRemoves(fault) =>
      CallsKeepWorld(c, s, RemoveName(s.roll.row, s.roll.i), s', true, fault, Targets(s.scale));
    case RollDeploys(ok, fault) =>
      CallsKeepWorld(c, s, Deploy(s.roll.row, s.roll.i), s', ok, fault, Targets(s.scale));
    case _ =>
  }

  lemma ScaleKeepsWorld(c: Config, s: State, a: Act, s': State)
    requires Proper(c) && World(c, s) && Scales(c, s, a, s')
    ensures World(c, s') && Call(s.cs, s'.cs, c.svc, Most(c))
  {
    match a
    case ScaleLists(found, stopped) => ListedAreOwn(c, s, found);
    case ScaleStarts(id, fault) =>
      CallsKeepWorld(c, s, Start(s.scale.row.endpointID, id), s', true, fault, Targets(s.scale));
    case ScaleGrows(ok, fault) =>
      CallsKeepWorld(c, s, Deploy(s.scale.row, s.scale.i), s', ok, fault, Targets(s'.scale));
    case ScaleTurns => LeftAreOwn(c, s);
    case ScaleTrims(id, ok, fault) =>
      CallsKeepWorld(c, s, RemoveId(s.scale.row.endpointID, id), s', ok, fault, Targets(s'.scale));
    case _ =>
  }

  lemma ListedAreOwn(c: Config, s: State, found: map<int, nat>)
    requires Proper(c) && World(c, s) && s.scale.Stored? && Indexed(s.cs, s.scale.row, found)
    ensures OwnIds(s.cs, c.svc, Passes.Ids(found))
  {
    forall l ensures OwnIdAt(s.cs, c.svc, Passes.Ids(found), l) {
      if l in s.cs && s.cs[l].id in Passes.Ids(found) {
        var i :| i in found && found[i] == s.cs[l].id;
        assert IndexedAt(s.cs, s.scale.row, i, found[i]) && IdsApart(s.cs, l, At(c.svc, i)) && Named(s.cs, c.svc, i);
      }
    }
  }

  lemma LeftAreOwn(c: Config, s: State)
    requires Proper(c) && World(c, s) && s.scale.Growing?
    ensures OwnIds(s.cs, c.svc, Leftover(s.scale.found, Count(s.scale.row)))
  {
    var found := s.scale.found;
    forall l ensures OwnIdAt(s.cs, c.svc, Leftover(found, Count(s.scale.row)), l) {
      assert OwnIdAt(s.cs, c.svc, Passes.Ids(found), l);
    }
  }

  // ------------------------------------------------------- before the scaling lists

  /** No call has failed and neither operation has broken off. */
  predicate Good(s: State) { s.faults == 0 && !s.roll.Broken? && !s.scale.Failed? }

  lemma WasGood(c: Config, s: State, a: Act, s': State)
    requires Does(c, s, a, s') && Good(s')
    ensures Good(s)
  {
  }

  predicate Listed(s: Scaling) { s.Starting? || s.Growing? || s.Trimming? }

  ghost predicate Present(c: Config, s: State, j: nat) { At(c.svc, j) in s.cs }

  /** The replica is away just now: removed, and not deployed again yet. */
  predicate Away(r: Rollout, j: nat) { r.Gone? && r.i == j }

  /** How many replicas the redeployment has replaced. */
  function Replaced(r: Rollout): int64 { if r.Next? || r.Gone? then r.i else 0 }

  ghost predicate InPlace(c: Config, s: State, j: nat) {
    Present(c, s, j) <==> (j < Count(c.svc) || j < Replaced(s.roll)) && !Away(s.roll, j)
  }

  predicate IndexSane(r: Rollout) {
    && (r.Next? ==> 0 <= r.i <= Count(r.row))
    && (r.Gone? ==> 0 <= r.i < Count(r.row))
  }

  ghost predicate Before(c: Config, s: State) {
    && !Listed(s.scale) && IndexSane(s.roll) && (s.scale.Stored? ==> s.row.replicas == c.count)
    && forall j: nat :: InPlace(c, s, j)
  }

  lemma RollsBefore(c: Config, s: State, a: Act, s': State)
    requires Proper(c) && World(c, s) && Rolls(c, s, a, s') && Good(s') && Before(c, s)
    ensures Before(c, s')
  {
    forall j: nat ensures InPlace(c, s', j) {
      assert InPlace(c, s, j);
      if s.roll.Next? || s.roll.Gone? { DistinctPlaces(c.svc, j, s.roll.i); }
    }
  }

  // -------------------------------------------------------- after the scaling listed

  function FoundOf(s: Scaling): map<int, nat> { if s.Starting? || s.Growing? then s.found else map[] }

  /** The scaling has seen replica j, or made it. */
  predicate Seen(c: Config, s: Scaling, j: nat) {
    s.Trimming? || j in FoundOf(s) || (s.Growing? && j < s.i)
  }

  /** A wanted replica that the scaling has dealt with is there, but for the one that is away. */
  ghost predicate WantedAt(c: Config, s: State, j: nat) {
    j < c.count && Seen(c, s.scale, j) ==> Present(c, s, j) || Away(s.roll, j)
  }

  /** The ids that the scaling is going to remove, or would if it went on. */
  ghost function Doomed(c: Config, s: Scaling): set<nat>
    requires c.count >= 0
  {
    if s.Trimming? then s.left else Leftover(FoundOf(s), c.count)
  }

  /** Of the replicas there the scaling removes only such as are not wanted. */
  ghost predicate SparedAt(c: Config, s: State, j: nat)
    requires c.count >= 0
  {
    j < c.count && Present(c, s, j) ==> s.cs[At(c.svc, j)].id !in Doomed(c, s.scale)
  }

  /** It is going to remove this one. */
  ghost predicate DoomedAt(c: Config, s: State, j: nat)
    requires c.count >= 0
  {
    j >= c.count && Present(c, s, j) ==> s.cs[At(c.svc, j)].id in Doomed(c, s.scale)
  }

  /** The count that the redeployment works with, or will. */
  function RollCount(s: State): int64 {
    if s.roll.Read? || s.roll.Next? || s.roll.Gone? then Count(s.roll.row) else Count(s.row)
  }

  /** The replicas that the redeployment makes are all wanted, or it had finished before the scaling
      listed the containers. */
  predicate EndsRight(c: Config, s: State, late: bool) { late || RollCount(s) <= c.count }

  /** The last replica of the redeployment stays. */
  ghost predicate LastStays(c: Config, s: State)
    requires c.count >= 0
  {
    RollCount(s) > 0
    && Present(c, s, RollCount(s) - 1) && s.cs[At(c.svc, RollCount(s) - 1)].id !in Doomed(c, s.scale)
  }

  /** The rows that the two work with tell the service's places. */
  ghost predicate Tied(c: Config, s: State) {
    && (s.roll.Read? || s.roll.Next? || s.roll.Gone? ==> SamePlace(s.roll.row, c.svc))
    && (Listed(s.scale) ==> SamePlace(s.scale.row, c.svc) && s.scale.row.replicas == c.count)
  }

  predicate SamePlace(a: Service, b: Service) { a.name == b.name && a.endpointID == b.endpointID }

  ghost predicate AllWanted(c: Config, s: State) { forall j: nat :: WantedAt(c, s, j) }

  ghost predicate AllSpared(c: Config, s: State)
    requires c.count >= 0
  {
    forall j: nat :: SparedAt(c, s, j)
  }

  ghost predicate AllDoomed(c: Config, s: State)
    requires c.count >= 0
  {
    forall j: nat :: DoomedAt(c, s, j)
  }

  ghost predicate Steady(c: Config, s: State, late: bool)
    requires c.count >= 0
  {
    && Listed(s.scale) && IndexSane(s.roll) && s.row.replicas == c.count
    && (late ==> RolledOut(s.roll)) && (s.scale.Growing? ==> 0 <= s.scale.i <= Count(s.scale.row))
    && forall id :: id in Doomed(c, s.scale) ==> id < s.nextId
  }

  /** late tells that the redeployment had finished when the scaling listed the containers. */
  ghost predicate After(c: Config, s: State, late: bool)
    requires c.count >= 0
  {
    && Steady(c, s, late) && AllWanted(c, s) && AllSpared(c, s)
    && (EndsRight(c, s, late) ==> AllDoomed(c, s))
    && (!EndsRight(c, s, late) && RolledOut(s.roll) ==> LastStays(c, s))
  }

  lemma ListEnters(c: Config, s: State, found: map<int, nat>, stopped: set<nat>, s': State)
    requires Proper(c) && World(c, s) && Before(c, s) && Scales(c, s, ScaleLists(found, stopped), s')
    ensures After(c, s', RolledOut(s.roll))
  {
    forall id | id in Doomed(c, s'.scale) ensures id < s'.nextId {
      var i := LeftoverIndex(found, c.count, id);
      assert IndexedAt(s.cs, s.scale.row, i, found[i]);
    }
    forall j: nat ensures WantedAt(c, s', j) && SparedAt(c, s', j) && DoomedAt(c, s', j) {
      assert FoundAt(s.cs, s.scale.row, found, j) && At(s.scale.row, j) == At(c.svc, j);
      if j in found { assert IndexedAt(s.cs, s.scale.row, j, found[j]); }
      if j < c.count && Present(c, s, j) && s.cs[At(c.svc, j)].id in Doomed(c, s'.scale) {
        var i := LeftoverIndex(found, c.count, s.cs[At(c.svc, j)].id);
        assert IndexedAt(s.cs, s.scale.row, i, found[i]) && IdsApart(s.cs, At(c.svc, i), At(c.svc, j));
        DistinctPlaces(c.svc, i, j);
      }
    }
  }

  // -- what one step does to a replica

  /** At j there is what was there, with its id. */
  ghost predicate SameAt(c: Config, s: State, s': State, j: nat) {
    && (Present(c, s', j) <==> Present(c, s, j))
    && (Present(c, s, j) ==> s'.cs[At(c.svc, j)].id == s.cs[At(c.svc, j)].id)
  }

  /** A step of the redeployment concerns no replica but the next one. */
  lemma RollAt(c: Config, s: State, a: Act, s': State, j: nat)
    requires Tied(c, s) && Rolls(c, s, a, s') && Good(s')
    ensures if a.RollRemoves? && j == s.roll.i then !Present(c, s', j)
            else if a.RollDeploys? && j == s.roll.i
            then !Present(c, s, j) && Present(c, s', j) && s'.cs[At(c.svc, j)].id == s.nextId
            else SameAt(c, s, s', j)
  {
    if s.roll.Next? || s.roll.Gone? {
      assert s.roll.i >= 0 ==> At(s.roll.row, s.roll.i) == At(c.svc, s.roll.i);
      if s.roll.i >= 0 { DistinctPlaces(c.svc, j, s.roll.i); }
    }
  }

  /** A step of the scaling deploys a missing replica, or removes one that is doomed. */
  lemma ScaleAt(c: Config, s: State, a: Act, s': State, j: nat)
    requires c.count >= 0 && Tied(c, s) && Listed(s.scale) && Scales(c, s, a, s') && Good(s')
    ensures if a.ScaleGrows? && j == s.scale.i
            then !Present(c, s, j) && Present(c, s', j) && s'.cs[At(c.svc, j)].id == s.nextId
            else if a.ScaleTrims? && Present(c, s, j) && s.cs[At(c.svc, j)].id == a.id
            then !Present(c, s', j) && a.id in Doomed(c, s.scale)
            else SameAt(c, s, s', j)
  {
    if a.ScaleStarts? {
      assert SwitchedAt(s.cs, s'.cs, s.scale.row.endpointID, a.id, true, At(c.svc, j));
    } else if a.ScaleGrows? {
      assert At(s.scale.row, s.scale.i) == At(c.svc, s.scale.i);
      DistinctPlaces(c.svc, j, s.scale.i);
    }
  }

  /** What the scaling is going to remove only gets less. */
  lemma DoomedShrinks(c: Config, s: State, a: Act, s': State)
    requires c.count >= 0 && Tied(c, s) && Listed(s.scale) && Scales(c, s, a, s') && Good(s')
    ensures Listed(s'.scale) && s'.scale.row == s.scale.row && s.nextId <= s'.nextId && s'.row == s.row
    ensures Doomed(c, s'.scale) == Doomed(c, s.scale) - if a.ScaleTrims? then {a.id} else {}
  {
    if a.ScaleTurns? {
      assert Count(s.scale.row) == c.count;
    }
  }

  // -- what every step keeps

  lemma RollKeepsWanted(c: Config, s: State, a: Act, s': State)
    requires Tied(c, s) && Rolls(c, s, a, s') && Good(s') && AllWanted(c, s)
    ensures AllWanted(c, s')
  {
    forall j: nat ensures WantedAt(c, s', j) {
      assert WantedAt(c, s, j);
      RollAt(c, s, a, s', j);
    }
  }

  lemma RollKeepsSpared(c: Config, s: State, a: Act, s': State)
    requires c.count >= 0 && Tied(c, s) && Rolls(c, s, a, s') && Good(s') && AllSpared(c, s)
    requires forall id :: id in Doomed(c, s.scale) ==> id < s.nextId
    ensures AllSpared(c, s')
  {
    forall j: nat ensures SparedAt(c, s', j) {
      assert SparedAt(c, s, j);
      RollAt(c, s, a, s', j);
    }
  }

  lemma RollKeepsDoomed(c: Config, s: State, a: Act, s': State)
    requires c.count >= 0 && Tied(c, s) && Rolls(c, s, a, s') && Good(s') && AllDoomed(c, s)
    requires s.roll.Gone? ==> s.roll.i < c.count
    ensures AllDoomed(c, s')
  {
    forall j: nat ensures DoomedAt(c, s', j) {
      assert DoomedAt(c, s, j);
      RollAt(c, s, a, s', j);
    }
  }

  lemma RollKeepsSteady(c: Config, s: State, a: Act, s': State, late: bool)
    requires Proper(c) && Rolls(c, s, a, s') && Good(s') && Steady(c, s, late)
    ensures Steady(c, s', late) && RollCount(s') == RollCount(s)
    ensures RolledOut(s'.roll) ==> RollCount(s) == 0 || (a.RollDeploys? && s.roll.i == RollCount(s) - 1)
    ensures s.roll.Gone? ==> s.roll.i < RollCount(s)
  {
  }

  lemma RollsAfter(c: Config, s: State, a: Act, s': State, late: bool)
    requires Proper(c) && Tied(c, s) && Rolls(c, s, a, s') && Good(s') && After(c, s, late)
    ensures After(c, s', late)
  {
    RollKeepsSteady(c, s, a, s', late);
    RollKeepsWanted(c, s, a, s');
    RollKeepsSpared(c, s, a, s');
    if EndsRight(c, s, late) {
      RollKeepsDoomed(c, s, a, s');
    } else if RolledOut(s'.roll) {
      RollMakesLast(c, s, a, s');
    }
  }

  lemma RollMakesLast(c: Config, s: State, a: Act, s': State)
    requires c.count >= 0 && Tied(c, s) && Rolls(c, s, a, s') && Good(s') && a.RollDeploys?
    requires RollCount(s') == RollCount(s) && s.roll.i == RollCount(s) - 1
    requires forall id :: id in Doomed(c, s.scale) ==> id < s.nextId
    ensures LastStays(c, s')
  {
    RollAt(c, s, a, s', s.roll.i);
  }

  lemma ScaleKeepsWanted(c: Config, s: State, a: Act, s': State)
    requires c.count >= 0 && Tied(c, s) && Listed(s.scale) && Scales(c, s, a, s') && Good(s')
    requires AllWanted(c, s) && AllSpared(c, s)
    ensures AllWanted(c, s')
  {
    forall j: nat ensures WantedAt(c, s', j) {
      assert WantedAt(c, s, j) && SparedAt(c, s, j);
      ScaleAt(c, s, a, s', j);
    }
  }

  lemma ScaleKeepsSpared(c: Config, s: State, a: Act, s': State)
    requires c.count >= 0 && Tied(c, s) && Listed(s.scale) && Scales(c, s, a, s') && Good(s') && AllSpared(c, s)
    requires forall id :: id in Doomed(c, s.scale) ==> id < s.nextId
    ensures AllSpared(c, s')
  {
    DoomedShrinks(c, s, a, s');
    forall j: nat ensures SparedAt(c, s', j) {
      assert SparedAt(c, s, j);
      ScaleAt(c, s, a, s', j);
    }
  }

  lemma ScaleKeepsDoomed(c: Config, s: State, a: Act, s': State)
    requires c.count >= 0 && Tied(c, s) && Listed(s.scale) && Scales(c, s, a, s') && Good(s') && AllDoomed(c, s)
    ensures AllDoomed(c, s')
  {
    DoomedShrinks(c, s, a, s');
    forall j: nat ensures DoomedAt(c, s', j) {
      assert DoomedAt(c, s, j);
      ScaleAt(c, s, a, s', j);
    }
  }

  lemma ScaleKeepsSteady(c: Config, s: State, a: Act, s': State, late: bool)
    requires Proper(c) && Tied(c, s) && Scales(c, s, a, s') && Good(s') && Steady(c, s, late)
    ensures Steady(c, s', late) && RollCount(s') == RollCount(s)
  {
    DoomedShrinks(c, s, a, s');
  }

  lemma ScaleLeavesLast(c: Config, s: State, a: Act, s': State)
    requires c.count >= 0 && Tied(c, s) && Listed(s.scale) && Scales(c, s, a, s') && Good(s') && LastStays(c, s)
    requires RollCount(s') == RollCount(s)
    ensures LastStays(c, s')
  {
    DoomedShrinks(c, s, a, s');
    ScaleAt(c, s, a, s', RollCount(s) - 1);
  }

  lemma ScalesAfter(c: Config, s: State, a: Act, s': State, late: bool)
    requires Proper(c) && Tied(c, s) && Scales(c, s, a, s') && Good(s') && After(c, s, late)
    ensures After(c, s', late)
  {
    ScaleKeepsSteady(c, s, a, s', late);
    ScaleKeepsWanted(c, s, a, s');
    ScaleKeepsSpared(c, s, a, s');
    if EndsRight(c, s, late) {
      ScaleKeepsDoomed(c, s, a, s');
    } else if RolledOut(s.roll) {
      ScaleLeavesLast(c, s, a, s');
    }
  }

  // ------------------------------------------------------------------------ runs

  ghost predicate DoesAt(c: Config, run: seq<State>, acts: seq<Act>, k: nat)
    requires |run| == |acts| + 1 && k < |acts|
  {
    Does(c, run[k], acts[k], run[k + 1])
  }

  /** Both operations from the beginning, in any order of their steps. */
  ghost predicate Run(c: Config, run: seq<State>, acts: seq<Act>) {
    && |run| == |acts| + 1 && Start0(c, run[0])
    && forall k :: 0 <= k < |acts| ==> DoesAt(c, run, acts, k)
  }

  /** Both have come to an end without an error, and no call has failed. */
  predicate BothSucceeded(s: State) { Good(s) && RolledOut(s.roll) && Scaled(s.scale) }

  lemma WorldBegins(c: Config, s: State)
    requires Proper(c) && Start0(c, s)
    ensures World(c, s) && Before(c, s)
  {
    forall j: nat ensures InPlace(c, s, j) {
      assert OwnedIffPlaced(s.cs, c.svc, Count(c.svc), At(c.svc, j)) && Named(s.cs, c.svc, j);
      PlaceOfIndex(c.svc, Count(c.svc), j);
    }
    forall l ensures OwnIdAt(s.cs, c.svc, {}, l) { }
  }

  /** In every state of every run, whatever fails, labels and names correspond. */
  lemma {:induction false} RunKeepsWorld(c: Config, run: seq<State>, acts: seq<Act>, k: nat)
    requires Proper(c) && Run(c, run, acts) && k < |run|
    ensures World(c, run[k])
    decreases k
  {
    if k == 0 {
      WorldBegins(c, run[0]);
    } else {
      RunKeepsWorld(c, run, acts, k - 1);
      assert DoesAt(c, run, acts, k - 1);
      StepKeepsWorld(c, run[k - 1], acts[k - 1], run[k]);
    }
  }

  /** The steps are calls of overlapping operations. */
  lemma StepKeepsWorld(c: Config, s: State, a: Act, s': State)
    requires Proper(c) && World(c, s) && Does(c, s, a, s')
    ensures World(c, s') && Call(s.cs, s'.cs, c.svc, Most(c))
  {
    if Rolls(c, s, a, s') { RollKeepsWorld(c, s, a, s'); } else { ScaleKeepsWorld(c, s, a, s'); }
  }

  lemma {:induction false} GoodAllAlong(c: Config, run: seq<State>, acts: seq<Act>, k: nat)
    requires Run(c, run, acts) && k < |run| && Good(run[|run| - 1])
    ensures Good(run[k])
    decreases |run| - k
  {
    if k < |run| - 1 {
      GoodAllAlong(c, run, acts, k + 1);
      assert DoesAt(c, run, acts, k);
      WasGood(c, run[k], acts[k], run[k + 1]);
    }
  }

  /** When the scaling lists the containers. */
  predicate ListsAt(acts: seq<Act>, p: nat) { p < |acts| && acts[p].ScaleLists? }

  /** As long as the scaling has not listed the containers they are where the redeployment puts them;
      afterwards the listing tells how it will end. */
  lemma {:induction false} RunSoFar(c: Config, run: seq<State>, acts: seq<Act>, k: nat) returns (p: nat)
    requires Proper(c) && Run(c, run, acts) && k < |run| && Good(run[k])
    ensures Before(c, run[k]) || (p < k && ListsAt(acts, p) && After(c, run[k], RolledOut(run[p].roll)))
    decreases k
  {
    p := 0;
    if k == 0 {
      WorldBegins(c, run[0]);
    } else {
      var s, a, s' := run[k - 1], acts[k - 1], run[k];
      assert DoesAt(c, run, acts, k - 1);
      WasGood(c, s, a, s');
      RunKeepsWorld(c, run, acts, k - 1);
      p := RunSoFar(c, run, acts, k - 1);
      if Before(c, s) {
        if a.ScaleLists? { p := k - 1; }
        StepFromBefore(c, s, a, s');
      } else {
        StepFromAfter(c, s, a, s', RolledOut(run[p].roll));
      }
    }
  }

  lemma StepFromBefore(c: Config, s: State, a: Act, s': State)
    requires Proper(c) && World(c, s) && Does(c, s, a, s') && Good(s') && Before(c, s)
    ensures if a.ScaleLists? then After(c, s', RolledOut(s.roll)) else Before(c, s')
  {
    if Rolls(c, s, a, s') {
      RollsBefore(c, s, a, s');
    } else if a.ScaleLists? {
      ListEnters(c, s, a.found, a.stopped, s');
    } else {
      forall j: nat ensures InPlace(c, s', j) { assert InPlace(c, s, j); }
    }
  }

  lemma StepFromAfter(c: Config, s: State, a: Act, s': State, late: bool)
    requires Proper(c) && World(c, s) && Does(c, s, a, s') && Good(s') && After(c, s, late)
    ensures After(c, s', late)
  {
    if Rolls(c, s, a, s') { RollsAfter(c, s, a, s', late); } else { ScalesAfter(c, s, a, s', late); }
  }

  lemma {:induction false} ListedForGood(c: Config, run: seq<State>, acts: seq<Act>, p: nat, k: nat)
    requires Run(c, run, acts) && ListsAt(acts, p) && p < k < |run|
    ensures Listed(run[k].scale) || run[k].scale.Failed?
    decreases k
  {
    assert DoesAt(c, run, acts, k - 1);
    if k - 1 > p { ListedForGood(c, run, acts, p, k - 1); }
  }

  /** The scaling lists once. */
  lemma ListsOnce(c: Config, run: seq<State>, acts: seq<Act>, p: nat, q: nat)
    requires Run(c, run, acts) && ListsAt(acts, p) && ListsAt(acts, q)
    ensures p == q
  {
    assert DoesAt(c, run, acts, p) && DoesAt(c, run, acts, q);
    if p < q { ListedForGood(c, run, acts, p, q); }
    if q < p { ListedForGood(c, run, acts, q, p); }
  }

  /** Exactly: if both succeed and no call fails, the service ends with the count that the scaling
      stored if and only if the redeployment worked with no larger count, or had finished when the
      scaling listed the containers. */
  lemma EndsRightIff(c: Config, run: seq<State>, acts: seq<Act>) returns (p: nat)
    requires Proper(c) && Run(c, run, acts) && BothSucceeded(run[|run| - 1])
    ensures ListsAt(acts, p)
    ensures var last := run[|run| - 1];
            && last.row.replicas == c.count
            && (Complete(last.cs, last.row) <==> RollCount(last) <= c.count || RolledOut(run[p].roll))
  {
    var last := run[|run| - 1];
    RunKeepsWorld(c, run, acts, |run| - 1);
    p := RunSoFar(c, run, acts, |run| - 1);
    CompleteIff(c, last, RolledOut(run[p].roll));
  }

  lemma CompleteIff(c: Config, s: State, late: bool)
    requires Proper(c) && World(c, s) && BothSucceeded(s) && After(c, s, late)
    ensures Complete(s.cs, s.row) <==> EndsRight(c, s, late)
  {
    if EndsRight(c, s, late) {
      forall l ensures OwnedIffPlaced(s.cs, s.row, Count(s.row), l) {
        assert Labelled(s.cs, c.svc, l);
        if Owned(s.cs, c.svc, l) {
          var j := IndexOf(s.cs[l].labels).value;
          assert DoomedAt(c, s, j) && l == At(s.row, j);
        }
        if IsPlace(s.row, Count(s.row), l) {
          var j := PlaceIndex(s.row, Count(s.row), l);
          assert WantedAt(c, s, j) && Named(s.cs, c.svc, j) && l == At(c.svc, j);
        }
      }
    } else {
      var j := RollCount(s) - 1;
      assert Named(s.cs, c.svc, j) && At(s.row, j) == At(c.svc, j);
      PlaceOfIndex(s.row, Count(s.row), j);
      assert !OwnedIffPlaced(s.cs, s.row, Count(s.row), At(s.row, j));
    }
  }

  /** So nothing goes wrong if the scaling asks for no fewer replicas than there were. */
  lemma ScalingUpEndsRight(c: Config, run: seq<State>, acts: seq<Act>)
    requires Proper(c) && Run(c, run, acts) && BothSucceeded(run[|run| - 1]) && c.count >= Count(c.svc)
    ensures Complete(run[|run| - 1].cs, run[|run| - 1].row)
  {
    RunKeepsWorld(c, run, acts, |run| - 1);
    var _ := EndsRightIff(c, run, acts);
  }

  // -- and if it asks for fewer, something can

  lemma Extended(c: Config, run: seq<State>, acts: seq<Act>, a: Act, s': State)
    requires Run(c, run, acts) && Does(c, run[|run| - 1], a, s')
    ensures Run(c, run + [s'], acts + [a])
  {
    var run', acts' := run + [s'], acts + [a];
    forall k | 0 <= k < |acts'| ensures DoesAt(c, run', acts', k) {
      if k < |acts| { assert DoesAt(c, run, acts, k); }
    }
  }

  /** The listing of a complete set. */
  ghost function Everyone(cs: Containers, svc: Service, n: nat): map<int, nat>
    requires forall j: nat :: j < n ==> At(svc, j) in cs
  {
    if n == 0 then map[] else Everyone(cs, svc, n - 1)[n - 1 := cs[At(svc, n - 1)].id]
  }

  lemma {:induction false} EveryoneHas(cs: Containers, svc: Service, n: nat, i: int)
    requires forall j: nat :: j < n ==> At(svc, j) in cs
    ensures i in Everyone(cs, svc, n) <==> 0 <= i < n
    ensures 0 <= i < n ==> Everyone(cs, svc, n)[i] == cs[At(svc, i)].id
    decreases n
  {
    if n > 0 { EveryoneHas(cs, svc, n - 1, i); }
  }

  lemma ListComplete(cs: Containers, svc: Service, row: Service) returns (found: map<int, nat>)
    requires Services.Clean(cs, svc) && Complete(cs, svc) && SamePlace(row, svc)
    ensures Indexed(cs, row, found) && forall i :: 0 <= i < Count(svc) ==> i in found
  {
    var n := Count(svc);
    forall j: nat | j < n ensures At(svc, j) in cs { CompleteHas(cs, svc, j); }
    found := Everyone(cs, svc, n);
    forall i | i in found ensures IndexedAt(cs, row, i, found[i]) {
      EveryoneHas(cs, svc, n, i);
      assert At(row, i) == At(svc, i);
    }
    forall i: nat ensures FoundAt(cs, row, found, i) {
      EveryoneHas(cs, svc, n, i);
      assert At(row, i) == At(svc, i) && Named(cs, svc, i) && OwnedIffPlaced(cs, svc, n, At(svc, i));
      PlaceOfIndex(svc, n, i);
    }
    forall i | 0 <= i < n ensures i in found { EveryoneHas(cs, svc, n, i); }
  }

  /** The scaling passes over the replicas that it found. */
  lemma {:induction false} Skips(c: Config, run: seq<State>, acts: seq<Act>) returns (run': seq<State>, acts': seq<Act>)
    requires Run(c, run, acts)
    requires var g := run[|run| - 1].scale;
             g.Growing? && 0 <= g.i <= Count(g.row) && forall j :: 0 <= j < Count(g.row) ==> j in g.found
    ensures Run(c, run', acts') && run <= run' && acts <= acts'
    ensures var g := run[|run| - 1].scale;
            run'[|run'| - 1] == run[|run| - 1].(scale := Growing(g.row, g.found, Count(g.row)))
    decreases Count(run[|run| - 1].scale.row) - run[|run| - 1].scale.i
  {
    var s := run[|run| - 1];
    if s.scale.i == Count(s.scale.row) {
      return run, acts;
    }
    var s' := s.(scale := Growing(s.scale.row, s.scale.found, s.scale.i + 1));
    Extended(c, run, acts, ScaleSkips, s');
    run', acts' := Skips(c, run + [s'], acts + [ScaleSkips]);
  }

  /** Its removals all go through. */
  lemma {:induction false} Trims(c: Config, run: seq<State>, acts: seq<Act>) returns (run': seq<State>, acts': seq<Act>)
    requires Run(c, run, acts) && Good(run[|run| - 1]) && run[|run| - 1].scale.Trimming?
    requires UniqueIds(run[|run| - 1].cs, run[|run| - 1].nextId)
    ensures Run(c, run', acts') && run <= run' && acts <= acts'
    ensures var s, s' := run[|run| - 1], run'[|run'| - 1];
            && s'.scale == Trimming(s.scale.row, {}) && s'.roll == s.roll && Good(s')
            && UniqueIds(s'.cs, s'.nextId)
    decreases run[|run| - 1].scale.left
  {
    var s := run[|run| - 1];
    if s.scale.left == {} {
      return run, acts;
    }
    var id :| id in s.scale.left;
    var cs := WithoutId(s.cs, s.scale.row.endpointID, id);
    IdsStayUnique(s.cs, s.nextId, cs, At(s.row, 0));
    var s' := s.(cs := cs, scale := Trimming(s.scale.row, s.scale.left - {id}));
    assert Calls(s, RemoveId(s.scale.row.endpointID, id), s', true, false);
    Extended(c, run, acts, ScaleTrims(id, true, false), s');
    run', acts' := Trims(c, run + [s'], acts + [ScaleTrims(id, true, false)]);
  }

  lemma RemovesNext(c: Config, s: State) returns (gone: State)
    requires Good(s) && s.roll.Next? && 0 <= s.roll.i < Count(s.roll.row) && UniqueIds(s.cs, s.nextId)
    ensures Does(c, s, RollRemoves(false), gone) && Good(gone) && UniqueIds(gone.cs, gone.nextId)
    ensures gone.roll == Gone(s.roll.row, s.roll.i) && gone.scale == s.scale && At(s.roll.row, s.roll.i) !in gone.cs
  {
    var l := At(s.roll.row, s.roll.i);
    gone := s.(cs := s.cs - {l}, roll := Gone(s.roll.row, s.roll.i));
    IdsStayUnique(s.cs, s.nextId, gone.cs, l);
    assert Calls(s, RemoveName(s.roll.row, s.roll.i), gone, true, false);
  }

  lemma DeploysIt(c: Config, s: State) returns (made: State)
    requires Good(s) && s.roll.Gone? && 0 <= s.roll.i < Count(s.roll.row) && UniqueIds(s.cs, s.nextId)
    requires At(s.roll.row, s.roll.i) !in s.cs
    ensures Does(c, s, RollDeploys(true, false), made) && Good(made) && UniqueIds(made.cs, made.nextId)
    ensures made.roll == Next(s.roll.row, s.roll.i + 1) && made.scale == s.scale
  {
    var l := At(s.roll.row, s.roll.i);
    var cs := s.cs[l := Created(s.nextId, ReplicaSpec(s.roll.row, s.roll.i), true)];
    made := s.(cs := cs, nextId := s.nextId + 1, roll := Next(s.roll.row, s.roll.i + 1));
    IdsStayUnique(s.cs, s.nextId, cs, l);
    assert Calls(s, Deploy(s.roll.row, s.roll.i), made, true, false);
  }

  lemma ReplaceOne(c: Config, run: seq<State>, acts: seq<Act>) returns (run': seq<State>, acts': seq<Act>)
    requires Run(c, run, acts) && Good(run[|run| - 1]) && Scaled(run[|run| - 1].scale)
    requires UniqueIds(run[|run| - 1].cs, run[|run| - 1].nextId)
    requires var r := run[|run| - 1].roll; r.Next? && 0 <= r.i < Count(r.row)
    ensures Run(c, run', acts') && run <= run' && acts <= acts'
    ensures var s, s' := run[|run| - 1], run'[|run'| - 1];
            && Good(s') && s'.scale == s.scale && s'.roll == Next(s.roll.row, s.roll.i + 1)
            && UniqueIds(s'.cs, s'.nextId)
  {
    var gone := RemovesNext(c, run[|run| - 1]);
    Extended(c, run, acts, RollRemoves(false), gone);
    var made := DeploysIt(c, gone);
    Extended(c, run + [gone], acts + [RollRemoves(false)], RollDeploys(true, false), made);
    run', acts' := run + [gone] + [made], acts + [RollRemoves(false)] + [RollDeploys(true, false)];
  }

  /** So do the replacements that the redeployment has to make. */
  lemma {:induction false} Replaces(c: Config, run: seq<State>, acts: seq<Act>)
    returns (run': seq<State>, acts': seq<Act>)
    requires Run(c, run, acts) && Good(run[|run| - 1]) && Scaled(run[|run| - 1].scale)
    requires run[|run| - 1].roll.Next? && IndexSane(run[|run| - 1].roll)
    requires UniqueIds(run[|run| - 1].cs, run[|run| - 1].nextId)
    ensures Run(c, run', acts') && run <= run' && acts <= acts'
    ensures BothSucceeded(run'[|run'| - 1]) && run'[|run'| - 1].roll.row == run[|run| - 1].roll.row
    decreases Count(run[|run| - 1].roll.row) - run[|run| - 1].roll.i
  {
    var s := run[|run| - 1];
    if s.roll.i == Count(s.roll.row) {
      return run, acts;
    }
    run', acts' := ReplaceOne(c, run, acts);
    run', acts' := Replaces(c, run', acts');
  }

  /** The redeployment reads its count, and the scaling stores and lists. */
  lemma Opening(c: Config, s: State) returns (run: seq<State>, acts: seq<Act>)
    requires Proper(c) && Start0(c, s) && c.count < Count(c.svc)
    ensures Run(c, run, acts) && run[0] == s && |acts| == 6 && ListsAt(acts, 4) && !RolledOut(run[4].roll)
    ensures var last := run[6];
            && Good(last) && last.roll.Next? && last.roll.i == 0 && Count(last.roll.row) == Count(c.svc)
            && UniqueIds(last.cs, last.nextId) && last.scale.Growing? && last.scale.i == 0
            && Count(last.scale.row) == c.count && forall j :: 0 <= j < c.count ==> j in last.scale.found
  {
    var rolled := Services.Reimaged(c.svc, c.image);
    var s1 := s.(roll := Read(rolled));
    var row := c.svc.(image := rolled.image, lastImage := rolled.image);
    var s2 := s1.(row := row, roll := Next(rolled, 0));
    var wanted := row.(replicas := c.count);
    var s3 := s2.(scale := Known(wanted));
    var s4 := s3.(row := wanted, scale := Stored(wanted));
    var found := ListComplete(s.cs, c.svc, wanted);
    var s5 := s4.(scale := Starting(wanted, found, {}));
    var s6 := s5.(scale := Growing(wanted, found, 0));
    run, acts := [s, s1, s2, s3, s4, s5, s6],
      [RollReads, RollWrites, ScaleReads, ScaleWrites, ScaleLists(found, {}), ScaleGoesOn];
    forall k | 0 <= k < |acts| ensures DoesAt(c, run, acts, k) { }
  }

  /** For every service, and every smaller count: both can succeed and leave replicas that nobody
      wants. */
  lemma ScalingDownCanEndWrong(c: Config, s: State) returns (run: seq<State>, acts: seq<Act>)
    requires Proper(c) && Start0(c, s) && c.count < Count(c.svc)
    ensures Run(c, run, acts) && run[0] == s && BothSucceeded(run[|run| - 1])
    ensures !Complete(run[|run| - 1].cs, run[|run| - 1].row)
  {
    var opening, first := Opening(c, s);
    run, acts := Skips(c, opening, first);
    var g := run[|run| - 1];
    var turned := g.(scale := Trimming(g.scale.row, Leftover(g.scale.found, Count(g.scale.row))));
    Extended(c, run, acts, ScaleTurns, turned);
    run, acts := Trims(c, run + [turned], acts + [ScaleTurns]);
    run, acts := Replaces(c, run, acts);
    assert acts[4] == first[4] && run[4] == opening[4];
    var p := EndsRightIff(c, run, acts);
    ListsOnce(c, run, acts, p, 4);
  }
}
