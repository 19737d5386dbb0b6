/** Condition trees over trigger events: how a tree is evaluated against the occurrences seen
    so far, and what the static analysis of a tree promises about its matches.
 */
module Conditions {
  import opened Common

  // ----- trees ---------------------------------------------------------------------

  /** An event condition; `params` stands for its configuration. */
  datatype Leaf = Leaf(binding: Option<string>, kind: string, params: string)

  /** The stable key of an event condition: its binding id if it has one. */
  datatype Key = ById(id: string) | ByContent(kind: string, params: string)

  function EventKey(leaf: Leaf): Key {
    if leaf.binding.Some? && leaf.binding.value != "" then ById(leaf.binding.value)
    else ByContent(leaf.kind, leaf.params)
  }

  /** A NOT condition holds one event and a waiting time. */
  datatype Node =
    | Event(leaf: Leaf)
    | All(children: seq<Node>, window: Option<int>)
    | Any(children: seq<Node>)
    | Not(leaf: Leaf, within: int)

  datatype Absence = Absence(leaf: Leaf, within: int)

  function Leaves(n: Node): seq<Leaf> {
    match n
    case Event(leaf) => [leaf]
    case Not(leaf, _) => [leaf]
    case All(cs, _) => LeavesOf(cs)
    case Any(cs) => LeavesOf(cs)
  }

  function LeavesOf(ns: seq<Node>): seq<Leaf> {
    if ns == [] then [] else Leaves(ns[0]) + LeavesOf(ns[1..])
  }

  function Positives(n: Node): seq<Leaf> {
    match n
    case Event(leaf) => [leaf]
    case Not(_, _) => []
    case All(cs, _) => PositivesOf(cs)
    case Any(cs) => PositivesOf(cs)
  }

  function PositivesOf(ns: seq<Node>): seq<Leaf> {
    if ns == [] then [] else Positives(ns[0]) + PositivesOf(ns[1..])
  }

  function Absences(n: Node): seq<Absence> {
    match n
    case Event(_) => []
    case Not(leaf, within) => [Absence(leaf, within)]
    case All(cs, _) => AbsencesOf(cs)
    case Any(cs) => AbsencesOf(cs)
  }

  function AbsencesOf(ns: seq<Node>): seq<Absence> {
    if ns == [] then [] else Absences(ns[0]) + AbsencesOf(ns[1..])
  }

  // ----- evaluation ----------------------------------------------------------------

  /** What an occurrence is recorded under: an event that came, or one that stayed away. */
  datatype Slot = Came(key: Key) | StayedAway(key: Key)

  /** A recorded occurrence; `serial` tells occurrences apart. */
  datatype Entry = Entry(binding: Option<string>, timestamp: int, serial: nat)

  datatype Item = Item(slot: Slot, timestamp: int)

  type Seen = map<Slot, Entry>
  type Signature = seq<Item>

  function Latest(sig: Signature): int
    requires sig != []
  {
    if |sig| == 1 then sig[0].timestamp
    else if Latest(sig[1..]) > sig[0].timestamp then Latest(sig[1..]) else sig[0].timestamp
  }

  function Earliest(sig: Signature): int
    requires sig != []
  {
    if |sig| == 1 then sig[0].timestamp
    else if Earliest(sig[1..]) < sig[0].timestamp then Earliest(sig[1..]) else sig[0].timestamp
  }

  function Lookup(slot: Slot, seen: Seen): (r: Option<Signature>)
    ensures r.Some? ==> r.value != []
  {
    if slot in seen then Some([Item(slot, seen[slot].timestamp)]) else None
  }

  /** The selected occurrences, or None when the tree does not match. */
  function Evaluate(n: Node, seen: Seen): (r: Option<Signature>)
    ensures r.Some? ==> r.value != []
  {
    match n
    case Event(leaf) => Lookup(Came(EventKey(leaf)), seen)
    case Not(leaf, _) => Lookup(StayedAway(EventKey(leaf)), seen)
    case All(cs, window) =>
      var r := EvaluateAll(cs, seen);
      if cs == [] || r.None? then None
      else if window.Some? && (window.value < 0 || Latest(r.value) - Earliest(r.value) > window.value) then None
      else r
    case Any(cs) => EvaluateAny(cs, seen)
  }

  /** The selections of all children, one after another. */
  function EvaluateAll(ns: seq<Node>, seen: Seen): (r: Option<Signature>)
    ensures r.Some? && ns != [] ==> r.value != []
  {
    if ns == [] then Some([])
    else
      var first := Evaluate(ns[0], seen);
      var rest := EvaluateAll(ns[1..], seen);
      if first.None? || rest.None? then None else Some(first.value + rest.value)
  }

  /** The selection of the child that matched most recently, the first such one. */
  function EvaluateAny(ns: seq<Node>, seen: Seen): (r: Option<Signature>)
    ensures r.Some? ==> r.value != []
  {
    if ns == [] then None
    else
      var first := Evaluate(ns[0], seen);
      var rest := EvaluateAny(ns[1..], seen);
      if first.None? then rest
      else if rest.None? then first
      else if Latest(rest.value) > Latest(first.value) then rest else first
  }

  // ----- meaning -------------------------------------------------------------------

  /** The tree as a Boolean formula over the slots that are filled. */
  predicate Holds(n: Node, filled: set<Slot>) {
    match n
    case Event(leaf) => Came(EventKey(leaf)) in filled
    case Not(leaf, _) => StayedAway(EventKey(leaf)) in filled
    case All(cs, _) => cs != [] && forall i :: 0 <= i < |cs| ==> Holds(cs[i], filled)
    case Any(cs) => exists i :: 0 <= i < |cs| && Holds(cs[i], filled)
  }

  predicate WindowFree(n: Node) {
    match n
    case Event(_) => true
    case Not(_, _) => true
    case All(cs, window) => window.None? && forall i :: 0 <= i < |cs| ==> WindowFree(cs[i])
    case Any(cs) => forall i :: 0 <= i < |cs| ==> WindowFree(cs[i])
  }

  /** A tree that matches is true as a formula; without time windows the converse holds. */
  lemma {:induction false} MatchIsTruth(n: Node, seen: Seen)
    ensures Evaluate(n, seen).Some? ==> Holds(n, seen.Keys)
    ensures WindowFree(n) && Holds(n, seen.Keys) ==> Evaluate(n, seen).Some?
  {
    match n
    case Event(leaf) =>
    case Not(leaf, _) =>
    case All(cs, window) => AllIsTruth(cs, seen);
    case Any(cs) => AnyIsTruth(cs, seen);
  }

  lemma {:induction false} AllIsTruth(ns: seq<Node>, seen: Seen)
    ensures EvaluateAll(ns, seen).Some? ==> forall i :: 0 <= i < |ns| ==> Holds(ns[i], seen.Keys)
    ensures (forall i :: 0 <= i < |ns| ==> WindowFree(ns[i]) && Holds(ns[i], seen.Keys)) ==> EvaluateAll(ns, seen).Some?
  {
    if ns != [] {
      MatchIsTruth(ns[0], seen);
      AllIsTruth(ns[1..], seen);
      if EvaluateAll(ns, seen).Some? {
        forall i | 0 <= i < |ns| ensures Holds(ns[i], seen.Keys) {
          if i > 0 { assert ns[i] == ns[1..][i - 1]; }
        }
      }
    }
  }

  lemma {:induction false} AnyIsTruth(ns: seq<Node>, seen: Seen)
    ensures EvaluateAny(ns, seen).Some? ==> exists i :: 0 <= i < |ns| && Holds(ns[i], seen.Keys)
    ensures (forall i :: 0 <= i < |ns| ==> WindowFree(ns[i])) && (exists i :: 0 <= i < |ns| && Holds(ns[i], seen.Keys))
      ==> EvaluateAny(ns, seen).Some?
  {
    if ns != [] {
      MatchIsTruth(ns[0], seen);
      AnyIsTruth(ns[1..], seen);
      if EvaluateAny(ns[1..], seen).Some? {
        var i :| 0 <= i < |ns[1..]| && Holds(ns[1..][i], seen.Keys);
        assert Holds(ns[i + 1], seen.Keys);
      }
    }
  }

  /** `sig` is a selection that justifies a match: one for every child of an ALL, within its
      window, and one for some child of an ANY. */
  ghost predicate Justified(n: Node, seen: Seen, sig: Signature)
    decreases n, 1
  {
    match n
    case Event(leaf) => var slot := Came(EventKey(leaf)); slot in seen && sig == [Item(slot, seen[slot].timestamp)]
    case Not(leaf, _) =>
      var slot := StayedAway(EventKey(leaf)); slot in seen && sig == [Item(slot, seen[slot].timestamp)]
    case All(cs, window) =>
      && cs != [] && JustifiedAll(cs, seen, sig)
      && (window.Some? ==> forall a, b :: a in sig && b in sig ==> a.timestamp - b.timestamp <= window.value)
    case Any(cs) => exists i :: 0 <= i < |cs| && Justified(cs[i], seen, sig)
  }

  ghost predicate JustifiedAll(ns: seq<Node>, seen: Seen, sig: Signature)
    decreases ns, 0
  {
    if ns == [] then sig == []
    else exists k :: 0 <= k <= |sig| && Justified(ns[0], seen, sig[..k]) && JustifiedAll(ns[1..], seen, sig[k..])
  }

  lemma {:induction false} LatestBounds(sig: Signature)
    requires sig != []
    ensures forall a :: a in sig ==> Earliest(sig) <= a.timestamp <= Latest(sig)
  {
    if |sig| > 1 {
      LatestBounds(sig[1..]);
      forall a | a in sig ensures Earliest(sig) <= a.timestamp <= Latest(sig) {
        if a != sig[0] { assert a in sig[1..]; }
      }
    }
  }

  /** Every match is justified; in particular each selected ALL stays within its window. */
  lemma {:induction false} MatchIsJustified(n: Node, seen: Seen)
    requires Evaluate(n, seen).Some?
    ensures Justified(n, seen, Evaluate(n, seen).value)
    decreases n, 1
  {
    match n
    case Event(leaf) =>
    case Not(leaf, _) =>
    case All(cs, window) =>
      AllJustified(cs, seen);
      LatestBounds(Evaluate(n, seen).value);
    case Any(cs) => AnyJustified(cs, seen);
  }

  lemma {:induction false} AllJustified(ns: seq<Node>, seen: Seen)
    requires EvaluateAll(ns, seen).Some?
    ensures JustifiedAll(ns, seen, EvaluateAll(ns, seen).value)
    decreases ns, 0
  {
    if ns != [] {
      MatchIsJustified(ns[0], seen);
      AllJustified(ns[1..], seen);
      var first, sig := Evaluate(ns[0], seen).value, EvaluateAll(ns, seen).value;
      var k := |first|;
      assert sig[..k] == first && sig[k..] == EvaluateAll(ns[1..], seen).value;
    }
  }

  lemma {:induction false} AnyJustified(ns: seq<Node>, seen: Seen)
    requires EvaluateAny(ns, seen).Some?
    ensures exists i :: 0 <= i < |ns| && Justified(ns[i], seen, EvaluateAny(ns, seen).value)
    decreases ns, 0
  {
    var sig := EvaluateAny(ns, seen).value;
    if Evaluate(ns[0], seen) == Some(sig) {
      MatchIsJustified(ns[0], seen);
      assert Justified(ns[0], seen, sig);
    } else {
      AnyJustified(ns[1..], seen);
      var i :| 0 <= i < |ns[1..]| && Justified(ns[1..][i], seen, sig);
      assert Justified(ns[i + 1], seen, sig);
    }
  }

  /** With windows the evaluation is not complete: ANY commits to its latest branch, which
      may fall outside the window around it although an earlier branch lies inside. */
  lemma WindowsAreGreedy(x: Leaf, a: Leaf, b: Leaf)
    requires EventKey(x) != EventKey(a) && EventKey(x) != EventKey(b) && EventKey(a) != EventKey(b)
    ensures var tree := All([Event(x), Any([Event(a), Event(b)])], Some(5));
            var seen: Seen := map[Came(EventKey(x)) := Entry(None, 0, 0), Came(EventKey(a)) := Entry(None, 1, 1),
                                  Came(EventKey(b)) := Entry(None, 9, 2)];
            && Evaluate(tree, seen).None?
            && Justified(tree, seen, [Item(Came(EventKey(x)), 0), Item(Came(EventKey(a)), 1)])
  {
    var either := Any([Event(a), Event(b)]);
    var seen: Seen := map[Came(EventKey(x)) := Entry(None, 0, 0), Came(EventKey(a)) := Entry(None, 1, 1),
                          Came(EventKey(b)) := Entry(None, 9, 2)];
    var ix, ia, ib := Item(Came(EventKey(x)), 0), Item(Came(EventKey(a)), 1), Item(Came(EventKey(b)), 9);
    assert EvaluateAny([Event(b)], seen) == Some([ib]);
    assert [Event(a), Event(b)][1..] == [Event(b)];
    assert Evaluate(Event(a), seen) == Some([ia]);
    assert EvaluateAny([Event(a), Event(b)], seen) == Some([ib]);
    assert Evaluate(either, seen) == Some([ib]);
    assert [either][1..] == [] && EvaluateAll([], seen) == Some([]);
    assert [ib] + [] == [ib];
    assert EvaluateAll([either], seen) == Some([ib]);
    assert [Event(x), either][1..] == [either];
    assert [ix] + [ib] == [ix, ib];
    assert EvaluateAll([Event(x), either], seen) == Some([ix, ib]);
    assert Latest([ix, ib]) == 9 by { assert [ix, ib][1..] == [ib]; }
    assert Earliest([ix, ib]) == 0 by { assert [ix, ib][1..] == [ib]; }
    var sig := [ix, ia];
    assert sig[..1] == [ix] && sig[1..] == [ia];
    assert Justified(Event(x), seen, sig[..1]);
    assert Justified([Event(a), Event(b)][0], seen, [ia]);
    assert Justified(either, seen, sig[1..]);
    assert JustifiedAll([either], seen, sig[1..]) by {
      assert sig[1..][..1] == [ia] && sig[1..][1..] == [];
    }
  }

  // ----- guaranteed triggers -------------------------------------------------------

  /** `guaranteed_trigger_ids`. */
  function Guaranteed(n: Node): set<string> {
    match n
    case Event(leaf) => if leaf.binding.Some? then {leaf.binding.value} else {}
    case Not(_, _) => {}
    case All(cs, _) => GuaranteedByAll(cs)
    case Any(cs) => if cs == [] then {} else GuaranteedByEach(cs)
  }

  function GuaranteedByAll(ns: seq<Node>): set<string> {
    if ns == [] then {} else Guaranteed(ns[0]) + GuaranteedByAll(ns[1..])
  }

  function GuaranteedByEach(ns: seq<Node>): set<string>
    requires ns != []
  {
    if |ns| == 1 then Guaranteed(ns[0]) else Guaranteed(ns[0]) * GuaranteedByEach(ns[1..])
  }

  /** The binding ids of the selected occurrences. */
  ghost predicate Reports(sig: Signature, seen: Seen, id: string) {
    exists a :: a in sig && a.slot in seen && seen[a.slot].binding == Some(id)
  }

  /** Each recorded occurrence of a leaf carries the leaf's binding id. */
  ghost predicate Faithful(leaves: seq<Leaf>, seen: Seen) {
    forall leaf :: leaf in leaves && Came(EventKey(leaf)) in seen ==> seen[Came(EventKey(leaf))].binding == leaf.binding
  }

  /** Whenever a tree matches, every guaranteed trigger id is among the selected occurrences. */
  lemma {:induction false} GuaranteeIsSound(n: Node, seen: Seen, id: string)
    requires Faithful(Positives(n), seen) && Evaluate(n, seen).Some? && id in Guaranteed(n)
    ensures Reports(Evaluate(n, seen).value, seen, id)
    decreases n, 1
  {
    match n
    case Event(leaf) =>
      assert leaf in Positives(n);
      assert Item(Came(EventKey(leaf)), seen[Came(EventKey(leaf))].timestamp) in Evaluate(n, seen).value;
    case All(cs, _) => AllGuarantee(cs, seen, id);
    case Any(cs) => AnyGuarantee(cs, seen, id);
  }

  lemma {:induction false} AllGuarantee(ns: seq<Node>, seen: Seen, id: string)
    requires Faithful(PositivesOf(ns), seen) && EvaluateAll(ns, seen).Some? && id in GuaranteedByAll(ns)
    ensures Reports(EvaluateAll(ns, seen).value, seen, id)
    decreases ns, 0
  {
    var first, rest := Evaluate(ns[0], seen).value, EvaluateAll(ns[1..], seen).value;
    if id in Guaranteed(ns[0]) {
      GuaranteeIsSound(ns[0], seen, id);
      var a :| a in first && a.slot in seen && seen[a.slot].binding == Some(id);
      assert a in first + rest;
    } else {
      AllGuarantee(ns[1..], seen, id);
      var a :| a in rest && a.slot in seen && seen[a.slot].binding == Some(id);
      assert a in first + rest;
    }
  }

  lemma {:induction false} AnyGuarantee(ns: seq<Node>, seen: Seen, id: string)
    requires ns != [] && Faithful(PositivesOf(ns), seen) && EvaluateAny(ns, seen).Some? && id in GuaranteedByEach(ns)
    ensures Reports(EvaluateAny(ns, seen).value, seen, id)
    decreases ns, 0
  {
    if Evaluate(ns[0], seen) == EvaluateAny(ns, seen) {
      GuaranteeIsSound(ns[0], seen, id);
    } else {
      AnyGuarantee(ns[1..], seen, id);
    }
  }
}
