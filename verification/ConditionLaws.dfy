/** What the parts of a condition tree are, which branch an ANY takes, and exactly which trigger ids every
    match contains.
 */
module ConditionLaws {
  import opened Common
  import opened Conditions
  import opened ConditionShapes

  // ----- the conditions of a tree --------------------------------------------------

  /** The tree holds this event condition outside any NOT. */
  ghost predicate HasEvent(n: Node, leaf: Leaf) {
    match n
    case Event(own) => leaf == own
    case Not(_, _) => false
    case All(cs, _) => exists i :: 0 <= i < |cs| && HasEvent(cs[i], leaf)
    case Any(cs) => exists i :: 0 <= i < |cs| && HasEvent(cs[i], leaf)
  }

  /** The tree holds this NOT condition. */
  ghost predicate HasNot(n: Node, a: Absence) {
    match n
    case Event(_) => false
    case Not(leaf, within) => a == Absence(leaf, within)
    case All(cs, _) => exists i :: 0 <= i < |cs| && HasNot(cs[i], a)
    case Any(cs) => exists i :: 0 <= i < |cs| && HasNot(cs[i], a)
  }

  /** The walks over a tree find exactly its event conditions and its NOT conditions. */
  lemma {:induction false} WalksAreExact(n: Node)
    ensures forall leaf :: leaf in Positives(n) <==> HasEvent(n, leaf)
    ensures forall a :: a in Absences(n) <==> HasNot(n, a)
    ensures forall leaf :: leaf in Leaves(n) <==> leaf in Positives(n) || exists a :: a in Absences(n) && a.leaf == leaf
    decreases n, 1
  {
    match n
    case Event(_) =>
    case Not(leaf, within) => assert Absence(leaf, within) in Absences(n);
    case All(cs, _) => ListWalksAreExact(cs);
    case Any(cs) => ListWalksAreExact(cs);
  }

  lemma {:induction false} ListWalksAreExact(ns: seq<Node>)
    ensures forall leaf :: leaf in PositivesOf(ns) <==> exists i :: 0 <= i < |ns| && HasEvent(ns[i], leaf)
    ensures forall a :: a in AbsencesOf(ns) <==> exists i :: 0 <= i < |ns| && HasNot(ns[i], a)
    ensures forall leaf :: leaf in LeavesOf(ns) <==>
      leaf in PositivesOf(ns) || exists a :: a in AbsencesOf(ns) && a.leaf == leaf
    decreases ns, 0
  {
    if ns != [] {
      WalksAreExact(ns[0]);
      ListWalksAreExact(ns[1..]);
      forall leaf ensures leaf in PositivesOf(ns) <==> exists i :: 0 <= i < |ns| && HasEvent(ns[i], leaf) {
        if i :| 0 <= i < |ns| && HasEvent(ns[i], leaf) { if i > 0 { assert HasEvent(ns[1..][i - 1], leaf); } }
        if i :| 0 <= i < |ns[1..]| && HasEvent(ns[1..][i], leaf) { assert HasEvent(ns[i + 1], leaf); }
      }
      forall a ensures a in AbsencesOf(ns) <==> exists i :: 0 <= i < |ns| && HasNot(ns[i], a) {
        if i :| 0 <= i < |ns| && HasNot(ns[i], a) { if i > 0 { assert HasNot(ns[1..][i - 1], a); } }
        if i :| 0 <= i < |ns[1..]| && HasNot(ns[1..][i], a) { assert HasNot(ns[i + 1], a); }
      }
    }
  }

  predicate Identified(leaf: Leaf) { leaf.binding.Some? && leaf.binding.value != "" }

  /** Conditions are on the same event if they bear the same id, or none and the same content. */
  lemma SameKeyIff(x: Leaf, y: Leaf)
    ensures EventKey(x) == EventKey(y) <==>
      if Identified(x) || Identified(y) then x.binding == y.binding else x.kind == y.kind && x.params == y.params
  {
  }

  // ----- the branch of an ANY ------------------------------------------------------

  /** The branch matches, none matches later, and of those that match as late it is the first. */
  ghost predicate Chosen(cs: seq<Node>, seen: Seen, i: nat) {
    && i < |cs| && Evaluate(cs[i], seen).Some?
    && (forall j :: 0 <= j < |cs| && Evaluate(cs[j], seen).Some? ==>
          Latest(Evaluate(cs[j], seen).value) <= Latest(Evaluate(cs[i], seen).value))
    && (forall j :: 0 <= j < i && Evaluate(cs[j], seen).Some? ==>
          Latest(Evaluate(cs[j], seen).value) < Latest(Evaluate(cs[i], seen).value))
  }

  /** An ANY takes the match of its branch that matched latest, the first of several, and matches if any
      branch does. */
  lemma {:induction false} AnyTakesLatest(cs: seq<Node>, seen: Seen)
    ensures EvaluateAny(cs, seen).None? <==> forall i :: 0 <= i < |cs| ==> Evaluate(cs[i], seen).None?
    ensures forall i: nat :: Chosen(cs, seen, i) ==> EvaluateAny(cs, seen) == Evaluate(cs[i], seen)
    ensures EvaluateAny(cs, seen).Some? ==> exists i: nat :: Chosen(cs, seen, i)
    decreases |cs|
  {
    if cs != [] {
      AnyTakesLatest(cs[1..], seen);
      forall j | 0 <= j < |cs[1..]| ensures cs[1..][j] == cs[j + 1] {}
      if EvaluateAny(cs[1..], seen).Some? {
        var i: nat :| Chosen(cs[1..], seen, i);
        LaterBranch(cs, seen, i);
      } else {
        assert Evaluate(cs[0], seen).Some? ==> Chosen(cs, seen, 0);
      }
      forall i: nat, j: nat | Chosen(cs, seen, i) && Chosen(cs, seen, j) ensures i == j {}
    }
  }

  lemma LaterBranch(cs: seq<Node>, seen: Seen, i: nat)
    requires cs != [] && Chosen(cs[1..], seen, i) && EvaluateAny(cs[1..], seen) == Evaluate(cs[1..][i], seen)
    ensures exists h: nat :: Chosen(cs, seen, h) && EvaluateAny(cs, seen) == Evaluate(cs[h], seen)
  {
    var first := Evaluate(cs[0], seen);
    forall j | 0 <= j < |cs[1..]| ensures cs[1..][j] == cs[j + 1] {}
    if first.Some? && Latest(first.value) >= Latest(Evaluate(cs[i + 1], seen).value) {
      assert Chosen(cs, seen, 0) by {
        forall j | 0 <= j < |cs| && Evaluate(cs[j], seen).Some?
          ensures Latest(Evaluate(cs[j], seen).value) <= Latest(first.value)
        {
          if j > 0 { assert Evaluate(cs[1..][j - 1], seen).Some?; }
        }
      }
    } else {
      assert Chosen(cs, seen, i + 1) by {
        forall j | 0 <= j < |cs| && Evaluate(cs[j], seen).Some?
          ensures Latest(Evaluate(cs[j], seen).value) <= Latest(Evaluate(cs[i + 1], seen).value)
          ensures j < i + 1 ==> Latest(Evaluate(cs[j], seen).value) < Latest(Evaluate(cs[i + 1], seen).value)
        {
          if j > 0 { assert Evaluate(cs[1..][j - 1], seen).Some?; }
        }
      }
    }
  }

  // ----- guaranteed triggers, exactly ----------------------------------------------

  /** Event conditions with the same key carry the same binding id. */
  ghost predicate OneBinding(n: Node) {
    forall x, y :: x in Positives(n) && y in Positives(n) && EventKey(x) == EventKey(y) ==> x.binding == y.binding
  }

  /** Slots that make the tree match without a trigger of this id: all children of an ALL, and of an ANY
      the first child that does not guarantee it. */
  function Avoiding(n: Node, id: string): set<Slot> {
    match n
    case Event(leaf) => {Came(EventKey(leaf))}
    case Not(leaf, _) => {StayedAway(EventKey(leaf))}
    case All(cs, _) => AvoidingAll(cs, id)
    case Any(cs) => AvoidingOne(cs, id)
  }

  function AvoidingAll(ns: seq<Node>, id: string): set<Slot> {
    if ns == [] then {} else Avoiding(ns[0], id) + AvoidingAll(ns[1..], id)
  }

  function AvoidingOne(ns: seq<Node>, id: string): set<Slot> {
    if ns == [] then {}
    else if id !in Guaranteed(ns[0]) then Avoiding(ns[0], id)
    else AvoidingOne(ns[1..], id)
  }

  ghost predicate AllNow(seen: Seen) { forall s :: s in seen ==> seen[s].timestamp == 0 }

  /** Where everything happened at one time, whatever matches was selected at that time. */
  lemma {:induction false} SelectedNow(n: Node, seen: Seen)
    requires AllNow(seen) && Evaluate(n, seen).Some?
    ensures forall a :: a in Evaluate(n, seen).value ==> a.slot in seen && a.timestamp == 0
    decreases n, 1
  {
    match n
    case Event(_) =>
    case Not(_, _) =>
    case All(cs, _) => SelectedNowAll(cs, seen);
    case Any(cs) => SelectedNowAny(cs, seen);
  }

  lemma {:induction false} SelectedNowAll(ns: seq<Node>, seen: Seen)
    requires AllNow(seen) && EvaluateAll(ns, seen).Some?
    ensures forall a :: a in EvaluateAll(ns, seen).value ==> a.slot in seen && a.timestamp == 0
    decreases ns, 0
  {
    if ns != [] {
      SelectedNow(ns[0], seen);
      SelectedNowAll(ns[1..], seen);
    }
  }

  lemma {:induction false} SelectedNowAny(ns: seq<Node>, seen: Seen)
    requires AllNow(seen) && EvaluateAny(ns, seen).Some?
    ensures forall a :: a in EvaluateAny(ns, seen).value ==> a.slot in seen && a.timestamp == 0
    decreases ns, 0
  {
    if Evaluate(ns[0], seen) == EvaluateAny(ns, seen) {
      SelectedNow(ns[0], seen);
    } else {
      SelectedNowAny(ns[1..], seen);
    }
  }

  lemma {:induction false} AvoidingMatches(n: Node, id: string, seen: Seen)
    requires Grouped(n) && id !in Guaranteed(n) && AllNow(seen) && Avoiding(n, id) <= seen.Keys
    ensures Evaluate(n, seen).Some?
    decreases n, 1
  {
    match n
    case Event(leaf) => assert Came(EventKey(leaf)) in Avoiding(n, id);
    case Not(leaf, _) => assert StayedAway(EventKey(leaf)) in Avoiding(n, id);
    case All(cs, window) =>
      AvoidingMatchesAll(cs, id, seen);
      SelectedNowAll(cs, seen);
      WindowMeans(cs, window, seen);
    case Any(cs) => AvoidingMatchesOne(cs, id, seen);
  }

  lemma {:induction false} AvoidingMatchesAll(ns: seq<Node>, id: string, seen: Seen)
    requires GroupedAll(ns) && id !in GuaranteedByAll(ns) && AllNow(seen) && AvoidingAll(ns, id) <= seen.Keys
    ensures EvaluateAll(ns, seen).Some?
    decreases ns, 0
  {
    if ns != [] {
      AvoidingMatches(ns[0], id, seen);
      AvoidingMatchesAll(ns[1..], id, seen);
    }
  }

  lemma {:induction false} AvoidingMatchesOne(ns: seq<Node>, id: string, seen: Seen)
    requires ns != [] && GroupedAll(ns) && id !in GuaranteedByEach(ns) && AllNow(seen)
    requires AvoidingOne(ns, id) <= seen.Keys
    ensures EvaluateAny(ns, seen).Some?
    decreases ns, 0
  {
    if id !in Guaranteed(ns[0]) { AvoidingMatches(ns[0], id, seen); } else { AvoidingMatchesOne(ns[1..], id, seen); }
  }

  /** Every avoiding slot is an absence, or an event with a condition of another id. */
  lemma {:induction false} AvoidingLeaves(n: Node, id: string)
    requires Grouped(n) && id !in Guaranteed(n)
    ensures forall k :: Came(k) in Avoiding(n, id) ==> AvoidsWith(Positives(n), k, id)
    decreases n, 1
  {
    match n
    case Event(leaf) => assert leaf in Positives(n);
    case Not(_, _) =>
    case All(cs, _) => AvoidingLeavesAll(cs, id);
    case Any(cs) => AvoidingLeavesOne(cs, id);
  }

  ghost predicate AvoidsWith(leaves: seq<Leaf>, k: Key, id: string) {
    exists leaf :: leaf in leaves && EventKey(leaf) == k && leaf.binding != Some(id)
  }

  lemma {:induction false} AvoidingLeavesAll(ns: seq<Node>, id: string)
    requires GroupedAll(ns) && id !in GuaranteedByAll(ns)
    ensures forall k :: Came(k) in AvoidingAll(ns, id) ==> AvoidsWith(PositivesOf(ns), k, id)
    decreases ns, 0
  {
    if ns != [] {
      AvoidingLeaves(ns[0], id);
      AvoidingLeavesAll(ns[1..], id);
    }
  }

  lemma {:induction false} AvoidingLeavesOne(ns: seq<Node>, id: string)
    requires ns != [] && GroupedAll(ns) && id !in GuaranteedByEach(ns)
    ensures forall k :: Came(k) in AvoidingOne(ns, id) ==> AvoidsWith(PositivesOf(ns), k, id)
    decreases ns, 0
  {
    if id !in Guaranteed(ns[0]) { AvoidingLeaves(ns[0], id); } else { AvoidingLeavesOne(ns[1..], id); }
  }

  /** The binding id that an occurrence of this slot carries in the tree. */
  ghost function BindingOf(leaves: seq<Leaf>, s: Slot): Option<string> {
    if s.Came? && exists leaf :: leaf in leaves && EventKey(leaf) == s.key then
      var leaf :| leaf in leaves && EventKey(leaf) == s.key;
      leaf.binding
    else None
  }

  /** A tree that does not guarantee an id can match without it. */
  lemma NotGuaranteed(n: Node, id: string) returns (seen: Seen)
    requires Grouped(n) && OneBinding(n) && id !in Guaranteed(n)
    ensures Faithful(Positives(n), seen) && Evaluate(n, seen).Some? && !Reports(Evaluate(n, seen).value, seen, id)
  {
    seen := map s | s in Avoiding(n, id) :: Entry(BindingOf(Positives(n), s), 0, 0);
    AvoidingMatches(n, id, seen);
    AvoidingLeaves(n, id);
    SelectedNow(n, seen);
    forall s | s in seen ensures seen[s].binding != Some(id) {
      if s.Came? {
        var leaf :| leaf in Positives(n) && EventKey(leaf) == s.key && leaf.binding != Some(id);
        assert BindingOf(Positives(n), s) == leaf.binding;
      }
    }
  }

  ghost predicate InEveryMatch(n: Node, id: string) {
    forall seen :: Faithful(Positives(n), seen) && Evaluate(n, seen).Some? ==>
      Reports(Evaluate(n, seen).value, seen, id)
  }

  /** The guaranteed ids are exactly those that every match contains. */
  lemma GuaranteedIff(n: Node, id: string)
    requires Grouped(n) && OneBinding(n)
    ensures id in Guaranteed(n) <==> InEveryMatch(n, id)
  {
    if id in Guaranteed(n) {
      forall seen | Faithful(Positives(n), seen) && Evaluate(n, seen).Some?
        ensures Reports(Evaluate(n, seen).value, seen, id)
      {
        GuaranteeIsSound(n, seen, id);
      }
    } else {
      var seen := NotGuaranteed(n, id);
    }
  }
}
