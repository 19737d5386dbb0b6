/** What a condition's runtime remembers: exactly the latest occurrences that no match has reported,
    with the times at which the operations brought them.
 */
module ConditionMemory {
  import opened Common
  import opened Conditions
  import opened ConditionRuntime
  import CL = ConditionLaws

  // ----- nothing is forgotten ------------------------------------------------------

  /** No match has handed out the occurrence with this serial. */
  ghost predicate Unreported(r: Runtime, serial: nat) {
    forall i, x :: 0 <= i < |r.reports| && x in r.reports[i] ==> x.entry.serial != serial
  }

  /** The latest occurrence of the slot has been reported in no match. */
  ghost predicate Outstanding(r: Runtime, slot: Slot) {
    exists serial: nat :: Newest(r.log, slot, serial) && Unreported(r, serial)
  }

  ghost predicate Remembered(r: Runtime, slot: Slot) { Outstanding(r, slot) ==> slot in r.seen }

  /** The tables changed in nothing that matters to the slot. */
  ghost predicate SameSlot(r: Runtime, t: Runtime, slot: Slot) {
    && t.log == r.log && t.reports == r.reports
    && (slot in r.seen <==> slot in t.seen) && (slot in r.seen && slot in t.seen ==> r.seen[slot] == t.seen[slot])
  }

  lemma RecordRemembers(r: Runtime, x: Slot, binding: Option<string>, now: int, slot: Slot)
    requires Remembered(r, slot)
    ensures Remembered(Record(r, x, binding, now), slot)
  {
    var t := Record(r, x, binding, now);
    if x != slot && Outstanding(t, slot) {
      var m: nat :| Newest(t.log, slot, m) && Unreported(t, m);
      assert t.log[|r.log|] == x;
      assert Newest(r.log, slot, m) by {
        forall j | m < j < |r.log| ensures r.log[j] != slot { assert t.log[j] != slot; }
      }
      assert Unreported(r, m);
    }
  }

  /** The event withdraws the slot: an absence it has just matched. */
  predicate Withdraws(absences: seq<Absence>, hits: set<Key>, slot: Slot) {
    slot.StayedAway? && slot.key in hits && exists a :: a in absences && EventKey(a.leaf) == slot.key
  }

  lemma {:induction false} RestartAllSame(r: Runtime, absences: seq<Absence>, hits: set<Key>, now: int, slot: Slot)
    requires !Withdraws(absences, hits, slot)
    ensures SameSlot(r, RestartAll(r, absences, hits, now), slot)
    decreases |absences|
  {
    if absences != [] {
      var next := if EventKey(absences[0].leaf) in hits then Restart(r, absences[0], now) else r;
      assert absences[0] in absences && forall a :: a in absences[1..] ==> a in absences;
      RestartAllSame(next, absences[1..], hits, now, slot);
    }
  }

  lemma SameRemembers(r: Runtime, t: Runtime, slot: Slot)
    requires Remembered(r, slot) && SameSlot(r, t, slot)
    ensures Remembered(t, slot)
  {
    if Outstanding(t, slot) {
      var m: nat :| Newest(t.log, slot, m) && Unreported(t, m);
      assert Newest(r.log, slot, m) && Unreported(r, m);
    }
  }

  lemma {:induction false} RecordAllRemembers(r: Runtime, leaves: seq<Leaf>, now: int, slot: Slot)
    requires Remembered(r, slot)
    ensures Remembered(RecordAll(r, leaves, now), slot)
    decreases |leaves|
  {
    if leaves != [] {
      RecordRemembers(r, Came(EventKey(leaves[0])), leaves[0].binding, now, slot);
      RecordAllRemembers(Record(r, Came(EventKey(leaves[0])), leaves[0].binding, now), leaves[1..], now, slot);
    }
  }

  lemma ObserveRemembers(r: Runtime, n: Node, hits: set<Key>, now: int, slot: Slot)
    requires Remembered(r, slot) && !Withdraws(Absences(n), hits, slot)
    ensures Remembered(Observe(r, n, hits, now).0, slot)
  {
    var t := RestartAll(r, Absences(n), hits, now);
    RestartAllSame(r, Absences(n), hits, now, slot);
    SameRemembers(r, t, slot);
    SameRemembers(t, t.(fired := None), slot);
    RecordAllRemembers(t, Matching(Positives(n), hits), now, slot);
    RecordAllRemembers(t.(fired := None), Matching(Positives(n), hits), now, slot);
  }

  lemma PollOneRemembers(r: Runtime, a: Absence, now: int, slot: Slot)
    requires Remembered(r, slot)
    ensures Remembered(PollOne(r, a, now), slot)
  {
    var k := EventKey(a.leaf);
    var armed := if k in r.deadlines then r else Arm(r, k, now, a.within);
    SameRemembers(r, armed, slot);
    if Expired(armed, k, now) {
      var marked := armed.(deadlines := armed.deadlines[k := armed.deadlines[k].(emitted := true)]);
      SameRemembers(armed, marked, slot);
      RecordRemembers(marked, StayedAway(k), None, now, slot);
    }
  }

  lemma {:induction false} PollAllRemembers(r: Runtime, absences: seq<Absence>, now: int, slot: Slot)
    requires Remembered(r, slot)
    ensures Remembered(PollAll(r, absences, now), slot)
    decreases |absences|
  {
    if absences != [] {
      PollOneRemembers(r, absences[0], now, slot);
      PollAllRemembers(PollOne(r, absences[0], now), absences[1..], now, slot);
    }
  }

  /** The latest occurrence of a selected slot is in the report. */
  lemma SelectedIsReported(r: Runtime, n: Node, slot: Slot, serial: nat)
    requires Consumed(r) && Evaluate(n, r.seen).Some? && slot in SlotsOf(Evaluate(n, r.seen).value)
    requires Newest(r.log, slot, serial)
    ensures exists x :: x in SelectedEntries(Evaluate(n, r.seen).value, r.seen) && x.entry.serial == serial
  {
    var sig := Evaluate(n, r.seen).value;
    ItemsComeFromTree(n, r.seen);
    SelectedAreSeen(sig, r.seen);
    var a :| a in sig && a.slot == slot;
    var x := Reported(slot, r.seen[slot]);
    assert x in SelectedEntries(sig, r.seen);
    assert Newest(r.log, slot, r.seen[slot].serial);
  }

  lemma UnreportedBefore(r: Runtime, t: Runtime, report: seq<Reported>, serial: nat)
    requires t.reports == r.reports + [report] && Unreported(t, serial)
    ensures Unreported(r, serial) && forall x :: x in report ==> x.entry.serial != serial
  {
    forall i, x | 0 <= i < |r.reports| && x in r.reports[i] ensures x.entry.serial != serial {
      assert t.reports[i] == r.reports[i];
    }
    assert t.reports[|r.reports|] == report;
  }

  /** Handing out a match forgets only what the match hands out. */
  lemma TakeRemembers(r: Runtime, n: Node, slot: Slot)
    requires Consumed(r) && NewMatch(r, n) && Remembered(r, slot)
    ensures Remembered(Take(RecordMatch(r, n)), slot)
  {
    var sig := Evaluate(n, r.seen).value;
    var t := Take(RecordMatch(r, n));
    if Outstanding(t, slot) {
      var m: nat :| Newest(t.log, slot, m) && Unreported(t, m);
      UnreportedBefore(r, t, SelectedEntries(sig, r.seen), m);
      assert Outstanding(r, slot);
      if slot in SlotsOf(sig) { SelectedIsReported(r, n, slot, m); }
    }
  }

  // ----- one operation -------------------------------------------------------------

  lemma EvaluatedRemembers(n: Node, r: Runtime, op: Op, slot: Slot)
    requires Remembered(r, slot) && !(op.EventOp? && Withdraws(Absences(n), op.hits, slot))
    ensures Remembered(Evaluated(n, r, op), slot)
  {
    match op
    case EventOp(hits, now) => ObserveRemembers(r, n, hits, now, slot);
    case PollOp(now) => PollAllRemembers(r, Absences(n), now, slot);
  }

  lemma StepFromEvaluated(n: Node, r: Runtime, op: Op, slot: Slot)
    requires Idle(r, n) && Coherent(n) && Remembered(Evaluated(n, r, op), slot)
    ensures Remembered(Step(n, r, op), slot)
  {
    EvaluatedKeeps(n, r, op);
    var m := Evaluated(n, r, op);
    if NewMatch(m, n) { TakeRemembers(m, n, slot); }
  }

  /** The wait for the event is over and it has not come since. */
  predicate Raised(ops: seq<Op>, a: Absence) {
    var c := ClockAfter(ops, EventKey(a.leaf), a.within);
    c.Some? && c.value.raised.Some?
  }

  /** All that is outstanding is remembered: events always, absences while their wait is over. */
  ghost predicate RemembersAll(r: Runtime, ops: seq<Op>, n: Node) {
    && (forall k :: Remembered(r, Came(k)))
    && (forall a :: a in Absences(n) && Raised(ops, a) ==> Remembered(r, StayedAway(EventKey(a.leaf))))
  }

  /** A poll that raises the absence has it in the table. */
  lemma RaisingRemembers(n: Node, r: Runtime, ops: seq<Op>, op: Op, a: Absence)
    requires Timed(r, ops, n) && Coherent(n) && a in Absences(n) && Raised(ops + [op], a) && !Raised(ops, a)
    ensures StayedAway(EventKey(a.leaf)) in Evaluated(n, r, op).seen
  {
    var k := EventKey(a.leaf);
    ClockSteps(ops, op, k, a.within);
    assert TimerFits(r, ClockAfter(ops, k, a.within), k, a.within);
    CoherentWait(n, a);
    PollAllTimer(r, Absences(n), op.now, k, a.within);
    assert AwayAt(Evaluated(n, r, op), k) == Some(op.now);
  }

  lemma AbsenceRemembered(n: Node, r: Runtime, ops: seq<Op>, op: Op, a: Absence)
    requires Idle(r, n) && Coherent(n) && Timed(r, ops, n) && a in Absences(n)
    requires Raised(ops, a) ==> Remembered(r, StayedAway(EventKey(a.leaf)))
    requires Raised(ops + [op], a)
    ensures Remembered(Step(n, r, op), StayedAway(EventKey(a.leaf)))
  {
    ClockSteps(ops, op, EventKey(a.leaf), a.within);
    if Raised(ops, a) {
      EvaluatedRemembers(n, r, op, StayedAway(EventKey(a.leaf)));
    } else {
      RaisingRemembers(n, r, ops, op, a);
    }
    StepFromEvaluated(n, r, op, StayedAway(EventKey(a.leaf)));
  }

  lemma StepRemembers(n: Node, r: Runtime, ops: seq<Op>, op: Op)
    requires Idle(r, n) && Coherent(n) && Timed(r, ops, n) && RemembersAll(r, ops, n)
    ensures RemembersAll(Step(n, r, op), ops + [op], n)
  {
    forall k ensures Remembered(Step(n, r, op), Came(k)) {
      EvaluatedRemembers(n, r, op, Came(k));
      StepFromEvaluated(n, r, op, Came(k));
    }
    forall a | a in Absences(n) && Raised(ops + [op], a)
      ensures Remembered(Step(n, r, op), StayedAway(EventKey(a.leaf)))
    {
      AbsenceRemembered(n, r, ops, op, a);
    }
  }

  lemma {:induction false} EveryStateRemembers(n: Node, states: seq<Runtime>, ops: seq<Op>, i: nat)
    requires Execution(n, states, ops) && Coherent(n) && i <= |ops|
    ensures RemembersAll(states[i], ops[..i], n)
  {
    if i > 0 {
      EveryStateRemembers(n, states, ops, i - 1);
      EveryStateIdle(n, states, ops, i - 1);
      EveryStateTimed(n, states, ops, i - 1);
      ChainLink((r, op, t) => t == Step(n, r, op), states, ops, i - 1);
      StepRemembers(n, states[i - 1], ops[..i - 1], ops[i - 1]);
      assert ops[..i] == ops[..i - 1] + [ops[i - 1]];
    }
  }

  // ----- the table, exactly --------------------------------------------------------

  /** In every state of a run: an event is in the table exactly if its latest occurrence is in no report,
      and an absence exactly if moreover its wait is over and the event has not come since. */
  lemma TableIsExact(n: Node, states: seq<Runtime>, ops: seq<Op>, i: nat)
    requires Execution(n, states, ops) && Coherent(n) && i <= |ops|
    ensures forall k :: Came(k) in states[i].seen <==> Outstanding(states[i], Came(k))
    ensures forall a :: a in Absences(n) ==>
      var slot := StayedAway(EventKey(a.leaf));
      (slot in states[i].seen <==> Outstanding(states[i], slot) && Raised(ops[..i], a))
  {
    EveryStateRemembers(n, states, ops, i);
    EveryStateIdle(n, states, ops, i);
    EveryStateTimed(n, states, ops, i);
    forall slot | slot in states[i].seen ensures Outstanding(states[i], slot) { SeenIsOutstanding(states[i], slot); }
    forall a | a in Absences(n) && StayedAway(EventKey(a.leaf)) in states[i].seen ensures Raised(ops[..i], a) {
      assert TimerFits(states[i], ClockAfter(ops[..i], EventKey(a.leaf), a.within), EventKey(a.leaf), a.within);
    }
  }

  lemma SeenIsOutstanding(r: Runtime, slot: Slot)
    requires Consumed(r) && slot in r.seen
    ensures Outstanding(r, slot)
  {
    assert Newest(r.log, slot, r.seen[slot].serial) && Unreported(r, r.seen[slot].serial);
  }

  // ----- where occurrences come from -----------------------------------------------

  /** Some positive condition is on this event. */
  ghost predicate IsPositive(n: Node, k: Key) { exists leaf :: CL.HasEvent(n, leaf) && EventKey(leaf) == k }

  ghost predicate Among(leaves: seq<Leaf>, k: Key) { exists leaf :: leaf in leaves && EventKey(leaf) == k }

  /** The log grew, and by an occurrence of the event exactly if `came`; its entry then has this time,
      and otherwise it is what it was. */
  ghost predicate Brings(r: Runtime, t: Runtime, k: Key, came: bool, now: int) {
    && r.log <= t.log && (Came(k) in t.log[|r.log|..] <==> came)
    && (came ==> Came(k) in t.seen && t.seen[Came(k)].timestamp == now)
    && (!came ==> (Came(k) in t.seen <==> Came(k) in r.seen))
    && (!came && Came(k) in r.seen && Came(k) in t.seen ==> t.seen[Came(k)] == r.seen[Came(k)])
  }

  lemma RecordBrings(r: Runtime, leaf: Leaf, now: int, k: Key)
    ensures Brings(r, Record(r, Came(EventKey(leaf)), leaf.binding, now), k, EventKey(leaf) == k, now)
  {
    var t := Record(r, Came(EventKey(leaf)), leaf.binding, now);
    assert t.log[|r.log|..] == [Came(EventKey(leaf))];
  }

  lemma BringsJoin(r: Runtime, t: Runtime, u: Runtime, k: Key, a: bool, b: bool, now: int)
    requires Brings(r, t, k, a, now) && Brings(t, u, k, b, now)
    ensures Brings(r, u, k, a || b, now)
  {
    assert u.log[|r.log|..] == t.log[|r.log|..] + u.log[|t.log|..];
  }

  lemma BringsNothing(r: Runtime, t: Runtime, k: Key, now: int)
    requires t.log == r.log && (Came(k) in t.seen <==> Came(k) in r.seen)
    requires Came(k) in r.seen && Came(k) in t.seen ==> t.seen[Came(k)] == r.seen[Came(k)]
    ensures Brings(r, t, k, false, now)
  {
  }

  lemma {:induction false} RecordAllBrings(r: Runtime, leaves: seq<Leaf>, now: int, k: Key)
    ensures Brings(r, RecordAll(r, leaves, now), k, Among(leaves, k), now)
    decreases |leaves|
  {
    if leaves != [] {
      var t := Record(r, Came(EventKey(leaves[0])), leaves[0].binding, now);
      RecordBrings(r, leaves[0], now, k);
      RecordAllBrings(t, leaves[1..], now, k);
      BringsJoin(r, t, RecordAll(t, leaves[1..], now), k, EventKey(leaves[0]) == k, Among(leaves[1..], k), now);
      assert Among(leaves, k) <==> EventKey(leaves[0]) == k || Among(leaves[1..], k);
    }
  }

  lemma {:induction false} PositivesAreLeaves(n: Node, leaf: Leaf)
    requires leaf in Positives(n)
    ensures leaf in Leaves(n)
    decreases n, 1
  {
    match n
    case Event(_) =>
    case Not(_, _) =>
    case All(cs, _) => PositivesAreLeavesOf(cs, leaf);
    case Any(cs) => PositivesAreLeavesOf(cs, leaf);
  }

  lemma {:induction false} PositivesAreLeavesOf(ns: seq<Node>, leaf: Leaf)
    requires leaf in PositivesOf(ns)
    ensures leaf in LeavesOf(ns)
    decreases ns, 0
  {
    if leaf in Positives(ns[0]) { PositivesAreLeaves(ns[0], leaf); } else { PositivesAreLeavesOf(ns[1..], leaf); }
  }

  lemma MatchingAmong(n: Node, hits: set<Key>, k: Key)
    ensures Among(Matching(Positives(n), hits), k) <==> IsPositive(n, k) && k in hits
    ensures Matching(Leaves(n), hits) == [] ==> Matching(Positives(n), hits) == []
  {
    CL.WalksAreExact(n);
    if Matching(Positives(n), hits) != [] {
      var leaf := Matching(Positives(n), hits)[0];
      assert leaf in Matching(Positives(n), hits);
      PositivesAreLeaves(n, leaf);
      assert leaf in Matching(Leaves(n), hits);
    }
  }

  lemma {:induction false} PollAllBrings(r: Runtime, absences: seq<Absence>, now: int, k: Key)
    ensures Brings(r, PollAll(r, absences, now), k, false, now)
    decreases |absences|
  {
    if absences != [] {
      var t := PollOne(r, absences[0], now);
      assert t.log[|r.log|..] == [] || t.log[|r.log|..] == [StayedAway(EventKey(absences[0].leaf))];
      PollAllBrings(t, absences[1..], now, k);
      BringsJoin(r, t, PollAll(t, absences[1..], now), k, false, false, now);
    }
  }

  lemma ObserveBrings(r: Runtime, n: Node, hits: set<Key>, now: int, k: Key)
    ensures Brings(r, Observe(r, n, hits, now).0, k, IsPositive(n, k) && k in hits, now)
  {
    MatchingAmong(n, hits, k);
    var t := RestartAll(r, Absences(n), hits, now);
    RestartAllSame(r, Absences(n), hits, now, Came(k));
    RestartLog(r, Absences(n), hits, now);
    BringsNothing(r, r, k, now);
    BringsNothing(r, t, k, now);
    BringsNothing(r, t.(fired := None), k, now);
    RecordAllBrings(t, Matching(Positives(n), hits), now, k);
    RecordAllBrings(t.(fired := None), Matching(Positives(n), hits), now, k);
    var (u, came) := (t.(fired := None), Among(Matching(Positives(n), hits), k));
    BringsJoin(r, t, RecordAll(t, Matching(Positives(n), hits), now), k, false, came, now);
    BringsJoin(r, u, RecordAll(u, Matching(Positives(n), hits), now), k, false, came, now);
  }

  /** An operation records the event exactly if it is an event that hits a positive condition on it. */
  lemma RecordsExactly(n: Node, r: Runtime, op: Op, k: Key)
    ensures Brings(r, Evaluated(n, r, op), k, IsPositive(n, k) && Hits(op, k), op.now)
    ensures Step(n, r, op).log == Evaluated(n, r, op).log
  {
    match op
    case EventOp(hits, now) => ObserveBrings(r, n, hits, now, k);
    case PollOp(now) => PollAllBrings(r, Absences(n), now, k);
  }

  /** The time of the last event that hits `k`. */
  function LastHit(ops: seq<Op>, k: Key): Option<int>
    decreases |ops|
  {
    if ops == [] then None
    else if Hits(ops[|ops| - 1], k) then Some(ops[|ops| - 1].now)
    else LastHit(ops[..|ops| - 1], k)
  }

  /** An event in the table came when it last came. */
  ghost predicate Dated(r: Runtime, ops: seq<Op>, n: Node) {
    forall k :: Came(k) in r.seen ==> IsPositive(n, k) && LastHit(ops, k) == Some(r.seen[Came(k)].timestamp)
  }

  lemma StepDates(n: Node, r: Runtime, ops: seq<Op>, op: Op)
    requires Dated(r, ops, n)
    ensures Dated(Step(n, r, op), ops + [op], n)
  {
    assert (ops + [op])[..|ops|] == ops;
    var (m, t) := (Evaluated(n, r, op), Step(n, r, op));
    forall k | Came(k) in t.seen
      ensures IsPositive(n, k) && LastHit(ops + [op], k) == Some(t.seen[Came(k)].timestamp)
    {
      RecordsExactly(n, r, op, k);
      assert Came(k) in m.seen && m.seen[Came(k)] == t.seen[Came(k)];
    }
  }

  /** In every state of a run, an event in the table has the time of the last event that hit it. */
  lemma {:induction false} EveryStateDated(n: Node, states: seq<Runtime>, ops: seq<Op>, i: nat)
    requires Execution(n, states, ops) && i <= |ops|
    ensures Dated(states[i], ops[..i], n)
  {
    if i > 0 {
      EveryStateDated(n, states, ops, i - 1);
      ChainLink((r, op, t) => t == Step(n, r, op), states, ops, i - 1);
      StepDates(n, states[i - 1], ops[..i - 1], ops[i - 1]);
      assert ops[..i] == ops[..i - 1] + [ops[i - 1]];
    }
  }
}
