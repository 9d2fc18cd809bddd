/** Who a volume belongs to: the owner label that Docker keeps, and the owner column of the ledger. */
module VolumeOwners {
  import opened Text
  import opened VolumeSpecs

  /** The ledger's rows, and the owner label of every volume that Docker has; "" is none. */
  datatype Books = Books(rows: Rows, owners: map<Key, string>)

  /** What the handlers do: scope is the caller's name, or "" for an administrator; stored tells that
      the statement against the ledger succeeded. A request whose statement comes only after other
      actions is one with stored false and a later write or erasure. And what happens without the
      handlers: a volume appears, without label when a container that mounts it is created, or
      vanishes. */
  datatype Action =
    | Create(key: Key, scope: string, ownerLabel: string, sizeMB: int, stored: bool)
    | Resize(key: Key, scope: string, sizeMB: int)
    | Remove(key: Key, stored: bool)
    | Record(key: Key, scope: string, sizeMB: int)
    | Erase(key: Key)
    | Appear(key: Key, ownerLabel: string)
    | Vanish(key: Key)

  /** Members label what they create, and resize and remove what carries their label. */
  predicate Enabled(s: Books, a: Action) {
    match a
    case Create(_, scope, ownerLabel, _, _) => scope != "" ==> ownerLabel == scope
    case Resize(key, scope, _) => scope != "" ==> key in s.owners && s.owners[key] == scope
    case Remove(key, _) => key in s.owners
    case Record(_, _, _) | Erase(_) | Appear(_, _) => true
    case Vanish(key) => key in s.owners
  }

  /** A label is set once: creating a volume that exists changes the ledger alone, and mounting it
      changes nothing. */
  function Apply(s: Books, a: Action): Books {
    match a
    case Create(key, scope, ownerLabel, sizeMB, stored) =>
      Books(if stored then s.rows[key := Row(scope, sizeMB)] else s.rows, Labelled(s.owners, key, ownerLabel))
    case Resize(key, scope, sizeMB) => s.(rows := s.rows[key := Row(scope, sizeMB)])
    case Record(key, scope, sizeMB) => s.(rows := s.rows[key := Row(scope, sizeMB)])
    case Remove(key, stored) => Books(if stored then s.rows - {key} else s.rows, s.owners - {key})
    case Erase(key) => s.(rows := s.rows - {key})
    case Appear(key, ownerLabel) => s.(owners := Labelled(s.owners, key, ownerLabel))
    case Vanish(key) => s.(owners := s.owners - {key})
  }

  function Labelled(owners: map<Key, string>, key: Key, ownerLabel: string): map<Key, string> {
    if key in owners then owners else owners[key := ownerLabel]
  }

  /** The ledger names the owner that the label names. */
  predicate Mirrors(s: Books, key: Key) {
    key in s.rows && key in s.owners ==> s.rows[key].owner == s.owners[key]
  }

  /** The action settles what the ledger or the label says about the volume. */
  predicate Settles(s: Books, a: Action, key: Key) {
    && a.key == key && !a.Remove? && !a.Erase? && !a.Vanish?
    && (a.Appear? || (a.Create? && !a.stored) ==> key !in s.owners)
  }

  /** The caller's scope is the label that the volume has, or gets. A volume made without a row agrees
      with the row that an earlier volume of the name left behind. */
  predicate Fair(s: Books, a: Action) {
    match a
    case Create(key, scope, ownerLabel, _, stored) =>
      var now := if key in s.owners then s.owners[key] else ownerLabel;
      if stored then scope == now else key in s.rows ==> s.rows[key].owner == now
    case Resize(key, scope, _) => key in s.owners ==> scope == s.owners[key]
    case Record(key, scope, _) => key in s.owners ==> scope == s.owners[key]
    case Appear(key, ownerLabel) => key in s.rows && key !in s.owners ==> s.rows[key].owner == ownerLabel
    case Remove(_, _) | Erase(_) | Vanish(_) => true
  }

  /** One step: an action that settles the volume leaves row and label in agreement exactly if it was
      fair. */
  lemma MirrorsIffFair(s: Books, a: Action)
    requires Settles(s, a, a.key)
    ensures Mirrors(Apply(s, a), a.key) <==> Fair(s, a)
  {
  }

  /** The unfair actions that can happen, all of them: an administrator resizes or creates over a
      volume that carries a label, or labels a new volume; anybody creates over somebody else's
      volume; a write comes late, when the volume carries another label; and a volume is made without a
      row, by a handler or by mounting it, where a row of another owner was left behind. */
  lemma UnfairExactly(s: Books, a: Action)
    requires Enabled(s, a) && Settles(s, a, a.key)
    ensures !Fair(s, a) <==>
      || (a.Resize? && a.scope == "" && a.key in s.owners && s.owners[a.key] != "")
      || (a.Create? && a.stored && a.key in s.owners && s.owners[a.key] != a.scope)
      || (a.Create? && a.stored && a.key !in s.owners && a.scope == "" && a.ownerLabel != "")
      || (a.Create? && !a.stored && a.key in s.rows && s.rows[a.key].owner != a.ownerLabel)
      || (a.Record? && a.key in s.owners && s.owners[a.key] != a.scope)
      || (a.Appear? && a.key in s.rows && s.rows[a.key].owner != a.ownerLabel)
  {
  }

  // ------------------------------------------------------------------------ runs

  predicate StepAt(states: seq<Books>, actions: seq<Action>, i: nat)
    requires |states| == |actions| + 1 && i < |actions|
  {
    Enabled(states[i], actions[i]) && states[i + 1] == Apply(states[i], actions[i])
  }

  ghost predicate Run(states: seq<Books>, actions: seq<Action>) {
    && |states| == |actions| + 1 && states[0] == Books(map[], map[])
    && forall i :: 0 <= i < |actions| ==> StepAt(states, actions, i)
  }

  /** The action at j is the last before k to settle the volume. */
  ghost predicate LastSettled(states: seq<Books>, actions: seq<Action>, k: nat, key: Key, j: nat)
    requires |states| == |actions| + 1 && k <= |actions|
  {
    && j < k && Settles(states[j], actions[j], key)
    && forall i :: j < i < k ==> !Settles(states[i], actions[i], key)
  }

  /** In every state of every run the row of a volume names the owner of its label if and only if the
      last action to settle the volume was fair. */
  lemma {:induction false} MirrorsIffLastFair(states: seq<Books>, actions: seq<Action>, k: nat, key: Key)
    returns (j: nat)
    requires Run(states, actions) && k < |states| && key in states[k].rows && key in states[k].owners
    ensures LastSettled(states, actions, k, key, j)
    ensures states[k].rows[key].owner == states[k].owners[key] <==> Fair(states[j], actions[j])
    decreases k
  {
    assert StepAt(states, actions, k - 1);
    var s, a := states[k - 1], actions[k - 1];
    if Settles(s, a, key) {
      j := k - 1;
      MirrorsIffFair(s, a);
    } else {
      j := MirrorsIffLastFair(states, actions, k - 1, key);
    }
  }

  /** If every action of the run is fair, the owner column mirrors the labels throughout. */
  lemma FairRunsMirror(states: seq<Books>, actions: seq<Action>, k: nat, key: Key)
    requires Run(states, actions) && k < |states|
    requires forall i :: 0 <= i < k ==> Fair(states[i], actions[i])
    ensures Mirrors(states[k], key)
  {
    if key in states[k].rows && key in states[k].owners { var _ := MirrorsIffLastFair(states, actions, k, key); }
  }

  // -- runs in which it does not

  /** A member creates a volume, and an administrator resizes it. */
  lemma AdminResizeForgetsOwner(key: Key)
    ensures var s := Apply(Books(map[], map[]), Create(key, "ann", "ann", 5, true));
            Enabled(s, Resize(key, "", 9)) && !Mirrors(Apply(s, Resize(key, "", 9)), key)
            && Apply(s, Resize(key, "", 9)).rows[key].owner == "" && s.owners[key] == "ann"
  {
  }

  /** A member creates a volume under the name of another member's: the volume stays that member's, and
      the row counts against the caller. */
  lemma CreatingOverAnothersTakesTheRow(key: Key)
    ensures var s := Apply(Books(map[], map[]), Create(key, "ann", "ann", 5, true));
            var s' := Apply(s, Create(key, "bob", "bob", 9, true));
            Enabled(s, Create(key, "bob", "bob", 9, true)) && !Mirrors(s', key)
            && s'.rows[key] == Row("bob", 9) && s'.owners[key] == "ann"
  {
  }

  /** A member creates and removes a volume, the row stays because deleting it failed, and a container
      that mounts the volume makes Docker create it again, without label. */
  lemma MountingOverALeftoverRow(key: Key)
    ensures var s := Apply(Books(map[], map[]), Create(key, "ann", "ann", 5, true));
            var s' := Apply(s, Remove(key, false));
            var s'' := Apply(s', Appear(key, ""));
            Enabled(s, Remove(key, false)) && !Mirrors(s'', key)
            && s''.rows[key] == Row("ann", 5) && s''.owners[key] == ""
  {
  }
}
