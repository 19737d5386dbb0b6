/** Which condition trees are evaluated completely: the exact shapes for which a match is found
    whenever some selection of occurrences justifies one.
 */
module ConditionShapes {
  import opened Common
  import opened Conditions

  // ----- shapes --------------------------------------------------------------------

  function Slots(n: Node): set<Slot> {
    match n
    case Event(leaf) => {Came(EventKey(leaf))}
    case Not(leaf, _) => {StayedAway(EventKey(leaf))}
    case All(cs, _) => SlotsOf(cs)
    case Any(cs) => SlotsOf(cs)
  }

  function SlotsOf(ns: seq<Node>): set<Slot> { if ns == [] then {} else Slots(ns[0]) + SlotsOf(ns[1..]) }

  /** A validated tree: groups have children and windows are not negative. */
  predicate Grouped(n: Node) {
    match n
    case Event(_) => true
    case Not(_, _) => true
    case All(cs, window) => cs != [] && (window.Some? ==> window.value >= 0) && GroupedAll(cs)
    case Any(cs) => cs != [] && GroupedAll(cs)
  }

  predicate GroupedAll(ns: seq<Node>) { ns == [] || (Grouped(ns[0]) && GroupedAll(ns[1..])) }

  /** A validated tree in which no condition occurs twice. */
  predicate WellFormed(n: Node) {
    match n
    case Event(_) => true
    case Not(_, _) => true
    case All(cs, window) => cs != [] && (window.Some? ==> window.value >= 0) && WellFormedAll(cs)
    case Any(cs) => cs != [] && WellFormedAll(cs)
  }

  predicate WellFormedAll(ns: seq<Node>) {
    ns == [] || (WellFormed(ns[0]) && Slots(ns[0]) !! SlotsOf(ns[1..]) && WellFormedAll(ns[1..]))
  }

  /** Somewhere in the tree an ANY has two branches to choose from. */
  predicate HasChoice(n: Node) {
    match n
    case Event(_) => false
    case Not(_, _) => false
    case All(cs, _) => ChoiceIn(cs)
    case Any(cs) => |cs| >= 2 || ChoiceIn(cs)
  }

  predicate ChoiceIn(ns: seq<Node>) { ns != [] && (HasChoice(ns[0]) || ChoiceIn(ns[1..])) }

  /** A match of the tree may be spread over more than `w`. */
  predicate CanSpread(n: Node, w: int) {
    match n
    case Event(_) => false
    case Not(_, _) => false
    case All(cs, window) => (window.None? || window.value > w) && (|cs| >= 2 || SpreadIn(cs, w))
    case Any(cs) => SpreadIn(cs, w)
  }

  predicate SpreadIn(ns: seq<Node>, w: int) { ns != [] && (CanSpread(ns[0], w) || SpreadIn(ns[1..], w)) }

  /** Choosing the latest branches never spreads a match over more than `w` that another choice would
      keep within it. */
  predicate Steady(n: Node, w: int) {
    match n
    case Event(_) => true
    case Not(_, _) => true
    case All(cs, window) => (window.Some? && window.value <= w) || SteadyAll(cs, w)
    case Any(cs) => if |cs| == 1 then Steady(cs[0], w) else !SpreadIn(cs, w)
  }

  predicate SteadyAll(cs: seq<Node>, w: int) { if |cs| == 1 then Steady(cs[0], w) else !ChoiceIn(cs) }

  /** The shape for which evaluation is complete. In particular a windowed ALL of two or more
      children must have no choice below it. */
  predicate Reliable(n: Node) {
    match n
    case Event(_) => true
    case Not(_, _) => true
    case All(cs, window) => ReliableAll(cs) && (window.Some? ==> SteadyAll(cs, window.value))
    case Any(cs) => ReliableAll(cs)
  }

  predicate ReliableAll(ns: seq<Node>) { ns == [] || (Reliable(ns[0]) && ReliableAll(ns[1..])) }

  // ----- spread --------------------------------------------------------------------

  ghost predicate Within(sig: Signature, w: int) {
    forall a, b :: a in sig && b in sig ==> a.timestamp - b.timestamp <= w
  }

  lemma {:induction false} Attained(sig: Signature)
    requires sig != []
    ensures exists a :: a in sig && a.timestamp == Latest(sig)
    ensures exists a :: a in sig && a.timestamp == Earliest(sig)
  {
    if |sig| > 1 {
      Attained(sig[1..]);
      var a :| a in sig[1..] && a.timestamp == Latest(sig[1..]);
      var b :| b in sig[1..] && b.timestamp == Earliest(sig[1..]);
      assert a in sig && b in sig && sig[0] in sig;
    } else {
      assert sig[0] in sig;
    }
  }

  lemma SpreadIs(sig: Signature, w: int)
    requires sig != []
    ensures Within(sig, w) <==> Latest(sig) - Earliest(sig) <= w
  {
    Attained(sig);
    LatestBounds(sig);
  }

  /** A windowed ALL matches exactly when its children do, within the window. */
  lemma WindowMeans(cs: seq<Node>, window: Option<int>, seen: Seen)
    requires cs != [] && (window.Some? ==> window.value >= 0)
    ensures var r := EvaluateAll(cs, seen);
            Evaluate(All(cs, window), seen) ==
              if r.None? || (window.Some? && !Within(r.value, window.value)) then None else r
  {
    var r := EvaluateAll(cs, seen);
    if r.Some? && window.Some? { SpreadIs(r.value, window.value); }
  }

  // ----- reliable shapes are complete ----------------------------------------------

  /** Without a choice there is one selection, and evaluation finds it. */
  lemma {:induction false} Unchosen(n: Node, seen: Seen, sig: Signature)
    requires Grouped(n) && !HasChoice(n) && Justified(n, seen, sig)
    ensures Evaluate(n, seen) == Some(sig)
    decreases n, 1
  {
    match n
    case Event(_) =>
    case Not(_, _) =>
    case All(cs, window) =>
      UnchosenAll(cs, seen, sig);
      WindowMeans(cs, window, seen);
    case Any(cs) =>
      var i :| 0 <= i < |cs| && Justified(cs[i], seen, sig);
      Unchosen(cs[0], seen, sig);
      assert EvaluateAny(cs[1..], seen).None?;
  }

  lemma {:induction false} UnchosenAll(ns: seq<Node>, seen: Seen, sig: Signature)
    requires GroupedAll(ns) && !ChoiceIn(ns) && JustifiedAll(ns, seen, sig)
    ensures EvaluateAll(ns, seen) == Some(sig)
    decreases ns, 0
  {
    if ns != [] {
      var k :| 0 <= k <= |sig| && Justified(ns[0], seen, sig[..k]) && JustifiedAll(ns[1..], seen, sig[k..]);
      Unchosen(ns[0], seen, sig[..k]);
      UnchosenAll(ns[1..], seen, sig[k..]);
      assert sig[..k] + sig[k..] == sig;
    }
  }

  lemma OneChild(c: Node, seen: Seen)
    ensures EvaluateAll([c], seen) == Evaluate(c, seen) && EvaluateAny([c], seen) == Evaluate(c, seen)
    ensures forall sig :: JustifiedAll([c], seen, sig) ==> Justified(c, seen, sig)
  {
    assert [c][1..] == [] && EvaluateAll([], seen) == Some([]) && EvaluateAny([], seen) == None;
    var r := Evaluate(c, seen);
    if r.Some? { assert r.value + [] == r.value; }
    forall sig | JustifiedAll([c], seen, sig) ensures Justified(c, seen, sig) {
      var k :| 0 <= k <= |sig| && Justified(c, seen, sig[..k]) && JustifiedAll([c][1..], seen, sig[k..]);
      assert sig[..k] == sig;
    }
  }

  /** A tree that cannot spread keeps every match within the bound. */
  lemma {:induction false} Confined(n: Node, seen: Seen, w: int)
    requires Grouped(n) && w >= 0 && !CanSpread(n, w) && Evaluate(n, seen).Some?
    ensures Within(Evaluate(n, seen).value, w)
    decreases n, 1
  {
    match n
    case Event(_) =>
    case Not(_, _) =>
    case All(cs, window) =>
      WindowMeans(cs, window, seen);
      if window.None? || window.value > w {
        assert cs == [cs[0]];
        OneChild(cs[0], seen);
        Confined(cs[0], seen, w);
      }
    case Any(cs) => ConfinedAny(cs, seen, w);
  }

  lemma {:induction false} ConfinedAny(ns: seq<Node>, seen: Seen, w: int)
    requires GroupedAll(ns) && w >= 0 && !SpreadIn(ns, w) && EvaluateAny(ns, seen).Some?
    ensures Within(EvaluateAny(ns, seen).value, w)
    decreases ns, 0
  {
    if Evaluate(ns[0], seen) == EvaluateAny(ns, seen) {
      Confined(ns[0], seen, w);
    } else {
      ConfinedAny(ns[1..], seen, w);
    }
  }

  lemma {:induction false} SteadyMeans(n: Node, seen: Seen, sig: Signature, w: int)
    requires Grouped(n) && w >= 0 && Steady(n, w) && Justified(n, seen, sig) && Within(sig, w)
    requires Evaluate(n, seen).Some?
    ensures Within(Evaluate(n, seen).value, w)
    decreases n
  {
    match n
    case Event(_) =>
    case Not(_, _) =>
    case All(cs, window) =>
      WindowMeans(cs, window, seen);
      if window.None? || window.value > w {
        if |cs| == 1 {
          assert cs == [cs[0]];
          OneChild(cs[0], seen);
          SteadyMeans(cs[0], seen, sig, w);
        } else {
          UnchosenAll(cs, seen, sig);
        }
      }
    case Any(cs) =>
      if |cs| == 1 {
        assert cs == [cs[0]];
        OneChild(cs[0], seen);
        SteadyMeans(cs[0], seen, sig, w);
      } else {
        ConfinedAny(cs, seen, w);
      }
  }

  lemma {:induction false} ReliableIsComplete(n: Node, seen: Seen, sig: Signature)
    requires Grouped(n) && Reliable(n) && Justified(n, seen, sig)
    ensures Evaluate(n, seen).Some?
    decreases n, 1
  {
    match n
    case Event(_) =>
    case Not(_, _) =>
    case All(cs, window) =>
      ReliableChildren(cs, seen, sig);
      WindowMeans(cs, window, seen);
      if window.Some? { SteadyChildren(cs, seen, sig, window.value); }
    case Any(cs) =>
      var i :| 0 <= i < |cs| && Justified(cs[i], seen, sig);
      ReliableBranch(cs, seen, sig, i);
  }

  lemma SteadyChildren(cs: seq<Node>, seen: Seen, sig: Signature, w: int)
    requires GroupedAll(cs) && cs != [] && w >= 0 && SteadyAll(cs, w) && JustifiedAll(cs, seen, sig) && Within(sig, w)
    requires EvaluateAll(cs, seen).Some?
    ensures Within(EvaluateAll(cs, seen).value, w)
  {
    if |cs| == 1 {
      assert cs == [cs[0]];
      OneChild(cs[0], seen);
      SteadyMeans(cs[0], seen, sig, w);
    } else {
      UnchosenAll(cs, seen, sig);
    }
  }

  lemma {:induction false} ReliableChildren(ns: seq<Node>, seen: Seen, sig: Signature)
    requires GroupedAll(ns) && ReliableAll(ns) && JustifiedAll(ns, seen, sig)
    ensures EvaluateAll(ns, seen).Some?
    decreases ns, 0
  {
    if ns != [] {
      var k :| 0 <= k <= |sig| && Justified(ns[0], seen, sig[..k]) && JustifiedAll(ns[1..], seen, sig[k..]);
      ReliableIsComplete(ns[0], seen, sig[..k]);
      ReliableChildren(ns[1..], seen, sig[k..]);
    }
  }

  lemma {:induction false} ReliableBranch(ns: seq<Node>, seen: Seen, sig: Signature, i: nat)
    requires i < |ns| && GroupedAll(ns) && ReliableAll(ns) && Justified(ns[i], seen, sig)
    ensures EvaluateAny(ns, seen).Some?
    decreases ns, 0
  {
    if i == 0 { ReliableIsComplete(ns[0], seen, sig); } else { ReliableBranch(ns[1..], seen, sig, i - 1); }
  }

  // ----- occurrences of parts of a tree --------------------------------------------

  /** The same occurrences, as far as these slots go. */
  ghost predicate SameOn(a: Seen, b: Seen, slots: set<Slot>) {
    forall s :: s in slots ==> (s in a <==> s in b) && (s in a && s in b ==> a[s].timestamp == b[s].timestamp)
  }

  lemma {:induction false} EvaluateIsLocal(n: Node, a: Seen, b: Seen)
    requires SameOn(a, b, Slots(n))
    ensures Evaluate(n, a) == Evaluate(n, b)
    decreases n, 1
  {
    match n
    case Event(_) =>
    case Not(_, _) =>
    case All(cs, _) => EvaluateAllIsLocal(cs, a, b);
    case Any(cs) => EvaluateAllIsLocal(cs, a, b);
  }

  lemma {:induction false} EvaluateAllIsLocal(ns: seq<Node>, a: Seen, b: Seen)
    requires SameOn(a, b, SlotsOf(ns))
    ensures EvaluateAll(ns, a) == EvaluateAll(ns, b) && EvaluateAny(ns, a) == EvaluateAny(ns, b)
    decreases ns, 0
  {
    if ns != [] {
      EvaluateIsLocal(ns[0], a, b);
      EvaluateAllIsLocal(ns[1..], a, b);
    }
  }

  lemma {:induction false} JustifiedIsLocal(n: Node, a: Seen, b: Seen, sig: Signature)
    requires SameOn(a, b, Slots(n)) && Justified(n, a, sig)
    ensures Justified(n, b, sig)
    decreases n, 1
  {
    match n
    case Event(_) =>
    case Not(_, _) =>
    case All(cs, _) => JustifiedAllIsLocal(cs, a, b, sig);
    case Any(cs) =>
      var i :| 0 <= i < |cs| && Justified(cs[i], a, sig);
      ChildSlots(cs, i);
      JustifiedIsLocal(cs[i], a, b, sig);
  }

  lemma {:induction false} JustifiedAllIsLocal(ns: seq<Node>, a: Seen, b: Seen, sig: Signature)
    requires SameOn(a, b, SlotsOf(ns)) && JustifiedAll(ns, a, sig)
    ensures JustifiedAll(ns, b, sig)
    decreases ns, 0
  {
    if ns != [] {
      var k :| 0 <= k <= |sig| && Justified(ns[0], a, sig[..k]) && JustifiedAll(ns[1..], a, sig[k..]);
      JustifiedIsLocal(ns[0], a, b, sig[..k]);
      JustifiedAllIsLocal(ns[1..], a, b, sig[k..]);
    }
  }

  lemma {:induction false} ChildSlots(ns: seq<Node>, i: nat)
    requires i < |ns|
    ensures Slots(ns[i]) <= SlotsOf(ns)
    ensures WellFormedAll(ns) ==> WellFormed(ns[i])
  {
    if i > 0 { ChildSlots(ns[1..], i - 1); }
  }

  lemma {:induction false} ChildrenDisjoint(ns: seq<Node>, i: nat, j: nat)
    requires i < |ns| && j < |ns| && i != j && WellFormedAll(ns)
    ensures Slots(ns[i]) !! Slots(ns[j])
  {
    if i == 0 {
      ChildSlots(ns[1..], j - 1);
    } else if j == 0 {
      ChildSlots(ns[1..], i - 1);
    } else {
      ChildrenDisjoint(ns[1..], i - 1, j - 1);
    }
  }

  /** Nothing of the tree has occurred. */
  lemma {:induction false} AbsentDoesNotMatch(n: Node, seen: Seen)
    requires WellFormed(n) && seen.Keys !! Slots(n)
    ensures Evaluate(n, seen).None?
    decreases n, 1
  {
    match n
    case Event(_) =>
    case Not(_, _) =>
    case All(cs, _) => AbsentNeverMatches(cs, seen);
    case Any(cs) => AbsentNeverMatches(cs, seen);
  }

  lemma {:induction false} AbsentNeverMatches(ns: seq<Node>, seen: Seen)
    requires WellFormedAll(ns) && seen.Keys !! SlotsOf(ns)
    ensures EvaluateAny(ns, seen).None? && (ns != [] ==> EvaluateAll(ns, seen).None?)
    decreases ns, 0
  {
    if ns != [] {
      AbsentDoesNotMatch(ns[0], seen);
      AbsentNeverMatches(ns[1..], seen);
    }
  }

  /** Every slot filled at one time. */
  function At(slots: set<Slot>, t: int): Seen { map s | s in slots :: Entry(None, t, 0) }

  ghost predicate AllAt(sig: Signature, t: int) { forall a :: a in sig ==> a.timestamp == t }

  lemma {:induction false} FilledMatches(n: Node, seen: Seen, t: int)
    requires WellFormed(n) && SameOn(seen, At(Slots(n), t), Slots(n))
    ensures Evaluate(n, seen).Some? && AllAt(Evaluate(n, seen).value, t)
    decreases n, 1
  {
    match n
    case Event(leaf) => assert Came(EventKey(leaf)) in Slots(n);
    case Not(leaf, _) => assert StayedAway(EventKey(leaf)) in Slots(n);
    case All(cs, window) =>
      FilledMatchesAll(cs, seen, t);
      WindowMeans(cs, window, seen);
    case Any(cs) => FilledMatchesAll(cs, seen, t);
  }

  lemma {:induction false} FilledMatchesAll(ns: seq<Node>, seen: Seen, t: int)
    requires WellFormedAll(ns) && SameOn(seen, At(SlotsOf(ns), t), SlotsOf(ns))
    ensures EvaluateAll(ns, seen).Some? && AllAt(EvaluateAll(ns, seen).value, t)
    ensures ns != [] ==> EvaluateAny(ns, seen).Some? && AllAt(EvaluateAny(ns, seen).value, t)
    decreases ns, 0
  {
    if ns != [] {
      assert SameOn(seen, At(Slots(ns[0]), t), Slots(ns[0]));
      FilledMatches(ns[0], seen, t);
      assert SameOn(seen, At(SlotsOf(ns[1..]), t), SlotsOf(ns[1..]));
      FilledMatchesAll(ns[1..], seen, t);
    }
  }

  /** A selection in which everything happened at time zero justifies a match. */
  ghost predicate ZeroJustified(n: Node, seen: Seen) { exists sig :: Justified(n, seen, sig) && AllAt(sig, 0) }

  ghost predicate ZeroJustifiedAll(ns: seq<Node>, seen: Seen) {
    exists sig :: JustifiedAll(ns, seen, sig) && AllAt(sig, 0)
  }

  lemma FilledIsJustified(n: Node, seen: Seen)
    requires WellFormed(n) && SameOn(seen, At(Slots(n), 0), Slots(n))
    ensures ZeroJustified(n, seen)
  {
    FilledMatches(n, seen, 0);
    MatchIsJustified(n, seen);
  }

  lemma FilledAreJustified(ns: seq<Node>, seen: Seen)
    requires WellFormedAll(ns) && SameOn(seen, At(SlotsOf(ns), 0), SlotsOf(ns))
    ensures ZeroJustifiedAll(ns, seen)
  {
    FilledMatchesAll(ns, seen, 0);
    AllJustified(ns, seen);
  }

  lemma ZeroJustifiedIsLocal(n: Node, a: Seen, b: Seen)
    requires SameOn(a, b, Slots(n)) && ZeroJustified(n, a)
    ensures ZeroJustified(n, b)
  {
    var sig :| Justified(n, a, sig) && AllAt(sig, 0);
    JustifiedIsLocal(n, a, b, sig);
  }

  lemma ZeroJustifiedAllIsLocal(ns: seq<Node>, a: Seen, b: Seen)
    requires SameOn(a, b, SlotsOf(ns)) && ZeroJustifiedAll(ns, a)
    ensures ZeroJustifiedAll(ns, b)
  {
    var sig :| JustifiedAll(ns, a, sig) && AllAt(sig, 0);
    JustifiedAllIsLocal(ns, a, b, sig);
  }

  lemma ZeroJoin(ns: seq<Node>, seen: Seen)
    requires ns != [] && ZeroJustified(ns[0], seen) && ZeroJustifiedAll(ns[1..], seen)
    ensures ZeroJustifiedAll(ns, seen)
  {
    var a :| Justified(ns[0], seen, a) && AllAt(a, 0);
    var b :| JustifiedAll(ns[1..], seen, b) && AllAt(b, 0);
    var sig := a + b;
    assert sig[..|a|] == a && sig[|a|..] == b;
    assert JustifiedAll(ns, seen, sig);
  }

  lemma ZeroAll(cs: seq<Node>, window: Option<int>, seen: Seen)
    requires cs != [] && (window.Some? ==> window.value >= 0) && ZeroJustifiedAll(cs, seen)
    ensures ZeroJustified(All(cs, window), seen)
  {
    var sig :| JustifiedAll(cs, seen, sig) && AllAt(sig, 0);
    assert Justified(All(cs, window), seen, sig);
  }

  lemma ZeroAny(cs: seq<Node>, seen: Seen, i: nat)
    requires i < |cs| && ZeroJustified(cs[i], seen)
    ensures ZeroJustified(Any(cs), seen)
  {
    var sig :| Justified(cs[i], seen, sig) && AllAt(sig, 0);
    assert Justified(Any(cs), seen, sig);
  }

  /** A branch later than every other is chosen. */
  lemma {:induction false} LatestBranch(ns: seq<Node>, seen: Seen, i: nat)
    requires i < |ns| && Evaluate(ns[i], seen).Some?
    requires forall j :: 0 <= j < |ns| && j != i ==>
      Evaluate(ns[j], seen).None? || Latest(Evaluate(ns[j], seen).value) < Latest(Evaluate(ns[i], seen).value)
    ensures EvaluateAny(ns, seen) == Evaluate(ns[i], seen)
    decreases |ns|
  {
    if i == 0 {
      BranchBelow(ns[1..], seen, Latest(Evaluate(ns[0], seen).value));
    } else {
      LatestBranch(ns[1..], seen, i - 1);
    }
  }

  lemma {:induction false} BranchBelow(ns: seq<Node>, seen: Seen, t: int)
    requires forall j :: 0 <= j < |ns| ==> Evaluate(ns[j], seen).None? || Latest(Evaluate(ns[j], seen).value) < t
    ensures EvaluateAny(ns, seen).None? || Latest(EvaluateAny(ns, seen).value) < t
    decreases |ns|
  {
    if ns != [] { BranchBelow(ns[1..], seen, t); }
  }

  lemma LatestAt(sig: Signature, t: int)
    requires sig != [] && AllAt(sig, t)
    ensures Latest(sig) == t
  {
    Attained(sig);
  }

  // ----- unreliable shapes miss a match --------------------------------------------

  ghost predicate HasItemAt(sig: Signature, t: int) { exists a :: a in sig && a.timestamp == t }

  /** Two branches: one filled at zero, the other later. The later one is chosen. */
  lemma TwoBranches(cs: seq<Node>, i: nat, j: nat, later: Seen, seen: Seen)
    requires WellFormedAll(cs) && i < |cs| && j < |cs| && i != j
    requires later.Keys <= Slots(cs[i]) && seen == later + At(Slots(cs[j]), 0)
    requires Evaluate(cs[i], later).Some? && Latest(Evaluate(cs[i], later).value) > 0
    ensures EvaluateAny(cs, seen) == Evaluate(cs[i], later) && ZeroJustified(Any(cs), seen)
    ensures seen.Keys <= SlotsOf(cs)
  {
    ChildSlots(cs, i);
    ChildSlots(cs, j);
    ChildrenDisjoint(cs, i, j);
    EvaluateIsLocal(cs[i], later, seen);
    assert SameOn(seen, At(Slots(cs[j]), 0), Slots(cs[j]));
    FilledMatches(cs[j], seen, 0);
    LatestAt(Evaluate(cs[j], seen).value, 0);
    forall h | 0 <= h < |cs| && h != i
      ensures Evaluate(cs[h], seen).None? || Latest(Evaluate(cs[h], seen).value) < Latest(Evaluate(cs[i], seen).value)
    {
      if h != j {
        ChildSlots(cs, h);
        ChildrenDisjoint(cs, h, i);
        ChildrenDisjoint(cs, h, j);
        AbsentDoesNotMatch(cs[h], seen);
      }
    }
    LatestBranch(cs, seen, i);
    FilledIsJustified(cs[j], seen);
    ZeroAny(cs, seen, j);
  }

  /** With a choice, a match at time zero can be passed over for one with an item at `t`. */
  lemma {:induction false} ChoosesLate(n: Node, t: int) returns (seen: Seen)
    requires WellFormed(n) && HasChoice(n) && t > 0
    ensures seen.Keys <= Slots(n) && ZeroJustified(n, seen)
    ensures Evaluate(n, seen).None? || HasItemAt(Evaluate(n, seen).value, t)
    decreases n, 1
  {
    match n
    case All(cs, window) =>
      seen := ChoosesLateAll(cs, t);
      WindowMeans(cs, window, seen);
      ZeroAll(cs, window, seen);
    case Any(cs) =>
      if |cs| >= 2 {
        var later := At(Slots(cs[1]), t);
        seen := later + At(Slots(cs[0]), 0);
        ChildSlots(cs, 1);
        FilledMatches(cs[1], later, t);
        LatestAt(Evaluate(cs[1], later).value, t);
        TwoBranches(cs, 1, 0, later, seen);
        assert Evaluate(cs[1], later).value[0] in Evaluate(cs[1], later).value;
      } else {
        assert cs == [cs[0]] && cs[1..] == [] && !ChoiceIn(cs[1..]);
        seen := ChoosesLate(cs[0], t);
        OneChild(cs[0], seen);
        ZeroAny(cs, seen, 0);
      }
  }

  /** In a list of two or more, some other child stays at zero. */
  lemma {:induction false} ChoosesLateAll(ns: seq<Node>, t: int) returns (seen: Seen)
    requires WellFormedAll(ns) && ChoiceIn(ns) && t > 0
    ensures seen.Keys <= SlotsOf(ns) && ZeroJustifiedAll(ns, seen)
    ensures EvaluateAll(ns, seen).None? ||
      (HasItemAt(EvaluateAll(ns, seen).value, t) && (|ns| >= 2 ==> HasItemAt(EvaluateAll(ns, seen).value, 0)))
    decreases ns, 0
  {
    if HasChoice(ns[0]) {
      var first := ChoosesLate(ns[0], t);
      seen := first + At(SlotsOf(ns[1..]), 0);
      LateThenZero(ns, first, seen, t);
    } else {
      var rest := ChoosesLateAll(ns[1..], t);
      seen := At(Slots(ns[0]), 0) + rest;
      ZeroThenLate(ns, rest, seen, t);
    }
  }

  lemma LateThenZero(ns: seq<Node>, first: Seen, seen: Seen, t: int)
    requires WellFormedAll(ns) && ns != [] && first.Keys <= Slots(ns[0]) && seen == first + At(SlotsOf(ns[1..]), 0)
    requires ZeroJustified(ns[0], first)
    requires Evaluate(ns[0], first).None? || HasItemAt(Evaluate(ns[0], first).value, t)
    ensures seen.Keys <= SlotsOf(ns) && ZeroJustifiedAll(ns, seen)
    ensures EvaluateAll(ns, seen).None? ||
      (HasItemAt(EvaluateAll(ns, seen).value, t) && (|ns| >= 2 ==> HasItemAt(EvaluateAll(ns, seen).value, 0)))
  {
    var rest := ns[1..];
    EvaluateIsLocal(ns[0], first, seen);
    ZeroJustifiedIsLocal(ns[0], first, seen);
    FilledAreJustified(rest, seen);
    FilledMatchesAll(rest, seen, 0);
    ZeroJoin(ns, seen);
    if Evaluate(ns[0], seen).Some? {
      JoinedItems(Evaluate(ns[0], seen).value, EvaluateAll(rest, seen).value);
      if |ns| >= 2 { assert EvaluateAll(rest, seen).value[0] in EvaluateAll(rest, seen).value; }
    }
  }

  lemma ZeroThenLate(ns: seq<Node>, rest: Seen, seen: Seen, t: int)
    requires WellFormedAll(ns) && ns != [] && rest.Keys <= SlotsOf(ns[1..]) && seen == At(Slots(ns[0]), 0) + rest
    requires ZeroJustifiedAll(ns[1..], rest)
    requires EvaluateAll(ns[1..], rest).None? || HasItemAt(EvaluateAll(ns[1..], rest).value, t)
    ensures seen.Keys <= SlotsOf(ns) && ZeroJustifiedAll(ns, seen)
    ensures EvaluateAll(ns, seen).None? ||
      (HasItemAt(EvaluateAll(ns, seen).value, t) && HasItemAt(EvaluateAll(ns, seen).value, 0))
  {
    EvaluateAllIsLocal(ns[1..], rest, seen);
    ZeroJustifiedAllIsLocal(ns[1..], rest, seen);
    FilledIsJustified(ns[0], seen);
    FilledMatches(ns[0], seen, 0);
    ZeroJoin(ns, seen);
    if EvaluateAll(ns[1..], seen).Some? {
      JoinedItems(Evaluate(ns[0], seen).value, EvaluateAll(ns[1..], seen).value);
      assert Evaluate(ns[0], seen).value[0] in Evaluate(ns[0], seen).value;
    }
  }

  lemma JoinedItems(a: Signature, b: Signature)
    ensures forall t :: HasItemAt(a, t) || HasItemAt(b, t) ==> HasItemAt(a + b, t)
  {
    forall t | HasItemAt(a, t) || HasItemAt(b, t) ensures HasItemAt(a + b, t) {
      var x :| (x in a || x in b) && x.timestamp == t;
      assert x in a + b;
    }
  }

  /** A match from zero to `w + 1`. */
  ghost predicate SpreadsOver(sig: Signature, w: int) {
    HasItemAt(sig, 0) && HasItemAt(sig, w + 1) && forall a :: a in sig ==> 0 <= a.timestamp <= w + 1
  }

  lemma {:induction false} Spreads(n: Node, w: int) returns (seen: Seen)
    requires WellFormed(n) && CanSpread(n, w) && w >= 0
    ensures seen.Keys <= Slots(n) && Evaluate(n, seen).Some? && SpreadsOver(Evaluate(n, seen).value, w)
    decreases n, 1
  {
    match n
    case All(cs, window) =>
      if |cs| >= 2 {
        seen := At(Slots(cs[0]), 0) + At(SlotsOf(cs[1..]), w + 1);
        TwoTimes(cs, w, seen);
      } else {
        assert cs == [cs[0]] && cs[1..] == [] && !SpreadIn(cs[1..], w);
        seen := Spreads(cs[0], w);
        OneChild(cs[0], seen);
      }
      WindowMeans(cs, window, seen);
    case Any(cs) => seen := SpreadsBranch(cs, w);
  }

  lemma TwoTimes(cs: seq<Node>, w: int, seen: Seen)
    requires WellFormedAll(cs) && |cs| >= 2 && w >= 0 && seen == At(Slots(cs[0]), 0) + At(SlotsOf(cs[1..]), w + 1)
    ensures seen.Keys <= SlotsOf(cs) && EvaluateAll(cs, seen).Some? && SpreadsOver(EvaluateAll(cs, seen).value, w)
  {
    FilledMatches(cs[0], seen, 0);
    FilledMatchesAll(cs[1..], seen, w + 1);
    var a, b := Evaluate(cs[0], seen).value, EvaluateAll(cs[1..], seen).value;
    JoinedItems(a, b);
    assert a[0] in a && b[0] in b;
  }

  lemma {:induction false} SpreadsBranch(ns: seq<Node>, w: int) returns (seen: Seen)
    requires WellFormedAll(ns) && SpreadIn(ns, w) && w >= 0
    ensures seen.Keys <= SlotsOf(ns) && EvaluateAny(ns, seen).Some? && SpreadsOver(EvaluateAny(ns, seen).value, w)
    decreases ns, 0
  {
    if CanSpread(ns[0], w) {
      seen := Spreads(ns[0], w);
      AbsentNeverMatches(ns[1..], seen);
    } else {
      seen := SpreadsBranch(ns[1..], w);
      AbsentDoesNotMatch(ns[0], seen);
    }
  }

  lemma {:induction false} SpreadIndex(ns: seq<Node>, w: int) returns (i: nat)
    requires SpreadIn(ns, w)
    ensures i < |ns| && CanSpread(ns[i], w)
  {
    if CanSpread(ns[0], w) {
      i := 0;
    } else {
      i := SpreadIndex(ns[1..], w);
      i := i + 1;
    }
  }

  /** An unsteady tree can be given occurrences that match at one time and yet are evaluated to
      something wider than `w`. */
  lemma {:induction false} Unsteady(n: Node, w: int) returns (seen: Seen)
    requires WellFormed(n) && !Steady(n, w) && w >= 0
    ensures seen.Keys <= Slots(n) && ZeroJustified(n, seen)
    ensures Evaluate(n, seen).None? || !Within(Evaluate(n, seen).value, w)
    decreases n, 1
  {
    match n
    case All(cs, window) =>
      seen := UnsteadyAll(cs, w);
      WindowMeans(cs, window, seen);
      ZeroAll(cs, window, seen);
    case Any(cs) =>
      if |cs| == 1 {
        seen := Unsteady(cs[0], w);
        assert cs == [cs[0]];
        OneChild(cs[0], seen);
        ZeroAny(cs, seen, 0);
      } else {
        seen := UnsteadyAny(cs, w);
      }
  }

  lemma UnsteadyAny(cs: seq<Node>, w: int) returns (seen: Seen)
    requires WellFormedAll(cs) && |cs| >= 2 && SpreadIn(cs, w) && w >= 0
    ensures seen.Keys <= SlotsOf(cs) && ZeroJustified(Any(cs), seen)
    ensures EvaluateAny(cs, seen).Some? && !Within(EvaluateAny(cs, seen).value, w)
  {
    var i := SpreadIndex(cs, w);
    var j := if i == 0 then 1 else 0;
    ChildSlots(cs, i);
    var later := Spreads(cs[i], w);
    var sig := Evaluate(cs[i], later).value;
    SpreadIsWide(sig, w);
    seen := later + At(Slots(cs[j]), 0);
    TwoBranches(cs, i, j, later, seen);
  }

  lemma SpreadIsWide(sig: Signature, w: int)
    requires sig != [] && w >= 0 && SpreadsOver(sig, w)
    ensures !Within(sig, w) && Latest(sig) > 0
  {
    LatestBounds(sig);
    var a :| a in sig && a.timestamp == 0;
    var b :| b in sig && b.timestamp == w + 1;
    assert b.timestamp - a.timestamp > w;
  }

  lemma {:induction false} UnsteadyAll(cs: seq<Node>, w: int) returns (seen: Seen)
    requires WellFormedAll(cs) && cs != [] && !SteadyAll(cs, w) && w >= 0
    ensures seen.Keys <= SlotsOf(cs) && ZeroJustifiedAll(cs, seen)
    ensures EvaluateAll(cs, seen).None? || !Within(EvaluateAll(cs, seen).value, w)
    decreases cs, 0
  {
    if |cs| == 1 {
      seen := Unsteady(cs[0], w);
      OneIsAll(cs, seen);
    } else {
      seen := ChoosesLateAll(cs, w + 1);
      if EvaluateAll(cs, seen).Some? {
        var sig := EvaluateAll(cs, seen).value;
        var a :| a in sig && a.timestamp == 0;
        var b :| b in sig && b.timestamp == w + 1;
        assert b.timestamp - a.timestamp > w;
      }
    }
  }

  lemma OneIsAll(cs: seq<Node>, seen: Seen)
    requires |cs| == 1 && ZeroJustified(cs[0], seen)
    ensures EvaluateAll(cs, seen) == Evaluate(cs[0], seen) && ZeroJustifiedAll(cs, seen)
  {
    assert cs == [cs[0]];
    OneChild(cs[0], seen);
    assert JustifiedAll([], seen, []) && AllAt([], 0);
    assert ZeroJustifiedAll(cs[1..], seen);
    ZeroJoin(cs, seen);
  }

  /** An unreliable tree misses a match that occurrences all at one time justify. */
  lemma {:induction false} UnreliableMisses(n: Node) returns (seen: Seen)
    requires WellFormed(n) && !Reliable(n)
    ensures seen.Keys <= Slots(n) && ZeroJustified(n, seen) && Evaluate(n, seen).None?
    decreases n, 1
  {
    match n
    case All(cs, window) =>
      if !ReliableAll(cs) {
        seen := UnreliableAll(cs);
      } else {
        seen := UnsteadyAll(cs, window.value);
      }
      WindowMeans(cs, window, seen);
      ZeroAll(cs, window, seen);
    case Any(cs) => seen := UnreliableAny(cs);
  }

  lemma {:induction false} UnreliableAll(ns: seq<Node>) returns (seen: Seen)
    requires WellFormedAll(ns) && !ReliableAll(ns)
    ensures seen.Keys <= SlotsOf(ns) && ZeroJustifiedAll(ns, seen) && EvaluateAll(ns, seen).None?
    decreases ns, 0
  {
    if !Reliable(ns[0]) {
      var first := UnreliableMisses(ns[0]);
      seen := first + At(SlotsOf(ns[1..]), 0);
      LateThenZero(ns, first, seen, 1);
      EvaluateIsLocal(ns[0], first, seen);
    } else {
      var rest := UnreliableAll(ns[1..]);
      seen := At(Slots(ns[0]), 0) + rest;
      ZeroThenLate(ns, rest, seen, 1);
      EvaluateAllIsLocal(ns[1..], rest, seen);
    }
  }

  lemma {:induction false} UnreliableAny(ns: seq<Node>) returns (seen: Seen)
    requires WellFormedAll(ns) && !ReliableAll(ns)
    ensures seen.Keys <= SlotsOf(ns) && ZeroJustified(Any(ns), seen) && EvaluateAny(ns, seen).None?
    decreases ns, 0
  {
    if !Reliable(ns[0]) {
      seen := UnreliableMisses(ns[0]);
      AbsentNeverMatches(ns[1..], seen);
      ZeroAny(ns, seen, 0);
    } else {
      seen := UnreliableAny(ns[1..]);
      AbsentDoesNotMatch(ns[0], seen);
      var sig :| Justified(Any(ns[1..]), seen, sig) && AllAt(sig, 0);
      var i :| 0 <= i < |ns[1..]| && Justified(ns[1..][i], seen, sig);
      assert ns[1..][i] == ns[i + 1];
      ZeroAny(ns, seen, i + 1);
    }
  }

  // ----- the exact condition -------------------------------------------------------

  ghost predicate Complete(n: Node) { forall seen, sig :: Justified(n, seen, sig) ==> Evaluate(n, seen).Some? }

  lemma Missed(n: Node, seen: Seen, sig: Signature)
    requires Justified(n, seen, sig) && Evaluate(n, seen).None?
    ensures !Complete(n)
  {
  }

  /** Evaluation finds a match whenever one is justified, whatever was seen, if and only if the tree
      has a reliable shape. */
  lemma CompleteIff(n: Node)
    requires WellFormed(n)
    ensures Complete(n) <==> Reliable(n)
  {
    if Reliable(n) {
      WellFormedIsGrouped(n);
      forall seen, sig | Justified(n, seen, sig) ensures Evaluate(n, seen).Some? { ReliableIsComplete(n, seen, sig); }
    } else {
      var seen := UnreliableMisses(n);
      var sig :| Justified(n, seen, sig) && AllAt(sig, 0);
      Missed(n, seen, sig);
    }
  }

  lemma {:induction false} WellFormedIsGrouped(n: Node)
    requires WellFormed(n)
    ensures Grouped(n)
    decreases n, 1
  {
    match n
    case Event(_) =>
    case Not(_, _) =>
    case All(cs, _) => WellFormedAreGrouped(cs);
    case Any(cs) => WellFormedAreGrouped(cs);
  }

  lemma {:induction false} WellFormedAreGrouped(ns: seq<Node>)
    requires WellFormedAll(ns)
    ensures GroupedAll(ns)
    decreases ns, 0
  {
    if ns != [] {
      WellFormedIsGrouped(ns[0]);
      WellFormedAreGrouped(ns[1..]);
    }
  }

  /** For a reliable shape evaluation is exact, even when a condition occurs twice. */
  lemma MatchIffJustified(n: Node, seen: Seen)
    requires Grouped(n) && Reliable(n)
    ensures Evaluate(n, seen).Some? <==> exists sig :: Justified(n, seen, sig)
  {
    if Evaluate(n, seen).Some? {
      MatchIsJustified(n, seen);
      assert Justified(n, seen, Evaluate(n, seen).value);
    }
    forall sig | Justified(n, seen, sig) ensures Evaluate(n, seen).Some? { ReliableIsComplete(n, seen, sig); }
  }

  /** Trees without time windows are reliable. */
  lemma {:induction false} WindowFreeIsReliable(n: Node)
    requires WindowFree(n)
    ensures Reliable(n)
    decreases n, 1
  {
    match n
    case Event(_) =>
    case Not(_, _) =>
    case All(cs, _) => WindowFreeAreReliable(cs);
    case Any(cs) => WindowFreeAreReliable(cs);
  }

  lemma {:induction false} WindowFreeAreReliable(ns: seq<Node>)
    requires forall i :: 0 <= i < |ns| ==> WindowFree(ns[i])
    ensures ReliableAll(ns)
    decreases ns, 0
  {
    if ns != [] {
      WindowFreeIsReliable(ns[0]);
      WindowFreeAreReliable(ns[1..]);
    }
  }
}
