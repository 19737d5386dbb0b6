/** The runtime of one rule's condition: occurrences, absence timers, matches.

    `Runtime` holds the tables of one rule key and a ledger: `log` lists the slot of every
    occurrence ever recorded (an occurrence's serial is its place in it), `reports` the
    matches handed out.
 */
module ConditionRuntime {
  import opened Common
  import opened Conditions
  import CS = ConditionShapes

  datatype Timer = Timer(deadline: int, emitted: bool)

  datatype Reported = Reported(slot: Slot, entry: Entry)

  datatype Runtime = Runtime(
    seen: Seen, fired: Option<Signature>, last: seq<Reported>, deadlines: map<Key, Timer>,
    log: seq<Slot>, reports: seq<seq<Reported>>)

  const FRESH := Runtime(map[], None, [], map[], [], [])

  function Record(r: Runtime, slot: Slot, binding: Option<string>, now: int): Runtime {
    r.(seen := r.seen[slot := Entry(binding, now, |r.log|)], log := r.log + [slot])
  }

  // ----- the steps of `match` and `poll_absences` ----------------------------------

  /** A matching event restarts the timer of a NOT condition and withdraws its absence. */
  function Restart(r: Runtime, a: Absence, now: int): Runtime {
    var k := EventKey(a.leaf);
    r.(deadlines := r.deadlines[k := Timer(now + a.within, false)], seen := r.seen - {StayedAway(k)})
  }

  function RestartAll(r: Runtime, absences: seq<Absence>, hits: set<Key>, now: int): Runtime
    decreases |absences|
  {
    if absences == [] then r
    else
      RestartAll(
        if EventKey(absences[0].leaf) in hits then Restart(r, absences[0], now) else r, absences[1..], hits, now)
  }

  function RecordAll(r: Runtime, leaves: seq<Leaf>, now: int): Runtime
    decreases |leaves|
  {
    if leaves == [] then r
    else RecordAll(Record(r, Came(EventKey(leaves[0])), leaves[0].binding, now), leaves[1..], now)
  }

  function Matching(leaves: seq<Leaf>, hits: set<Key>): (r: seq<Leaf>)
    ensures forall leaf :: leaf in r <==> leaf in leaves && EventKey(leaf) in hits
  {
    if leaves == [] then []
    else if EventKey(leaves[0]) in hits then [leaves[0]] + Matching(leaves[1..], hits)
    else Matching(leaves[1..], hits)
  }

  /** A poll looks at one timer: arms it if it has none, raises it once when it has expired. */
  function PollOne(r: Runtime, a: Absence, now: int): Runtime {
    var k := EventKey(a.leaf);
    var armed := if k in r.deadlines then r else Arm(r, k, now, a.within);
    if Expired(armed, k, now) then Raise(armed, k, now) else armed
  }

  function Arm(r: Runtime, k: Key, now: int, within: int): Runtime {
    r.(deadlines := r.deadlines[k := Timer(now + within, false)])
  }

  function Raise(r: Runtime, k: Key, now: int): Runtime
    requires k in r.deadlines
  {
    Record(r.(deadlines := r.deadlines[k := r.deadlines[k].(emitted := true)]), StayedAway(k), None, now)
  }

  predicate Expired(r: Runtime, k: Key, now: int) {
    k in r.deadlines && !r.deadlines[k].emitted && now >= r.deadlines[k].deadline
  }

  function PollAll(r: Runtime, absences: seq<Absence>, now: int): Runtime
    decreases |absences|
  {
    if absences == [] then r else PollAll(PollOne(r, absences[0], now), absences[1..], now)
  }

  function SelectedEntries(sig: Signature, seen: Seen): seq<Reported> {
    if sig == [] then []
    else if sig[0].slot in seen then [Reported(sig[0].slot, seen[sig[0].slot])] + SelectedEntries(sig[1..], seen)
    else SelectedEntries(sig[1..], seen)
  }

  /** Two selections are the same when they consist of the same items: the code compares
      them sorted. */
  ghost predicate SameSelection(a: Option<Signature>, b: Signature) { a.Some? && multiset(a.value) == multiset(b) }

  /** `_record_match` answers whether there is a new match. */
  ghost predicate NewMatch(r: Runtime, n: Node) {
    Evaluate(n, r.seen).Some? && !SameSelection(r.fired, Evaluate(n, r.seen).value)
  }

  ghost function RecordMatch(r: Runtime, n: Node): Runtime {
    if NewMatch(r, n) then
      var sig := Evaluate(n, r.seen).value;
      r.(fired := Some(sig), last := SelectedEntries(sig, r.seen))
    else r
  }

  function SlotsOf(sig: Signature): set<Slot> { set a | a in sig :: a.slot }

  /** `take_last_match`: hands out the last match and consumes its occurrences. */
  function Take(r: Runtime): Runtime {
    var sig := if r.fired.Some? then r.fired.value else [];
    r.(seen := r.seen - SlotsOf(sig), fired := None, last := [], reports := r.reports + [r.last])
  }

  /** `match` up to the evaluation: None when no positive condition was hit. */
  function Observe(r: Runtime, n: Node, hits: set<Key>, now: int): (Runtime, bool) {
    if Matching(Leaves(n), hits) == [] then (r, false)
    else
      var t := RestartAll(r, Absences(n), hits, now);
      var leaves := Matching(Positives(n), hits);
      if leaves == [] then (t, false)
      else
        var u := if t.fired.Some? && exists a :: a in t.fired.value && a.slot !in t.seen then t.(fired := None) else t;
        (RecordAll(u, leaves, now), true)
  }

  /** `match_and_take`. `hits` are the keys of the leaves the event satisfies. */
  ghost function MatchAndTake(r: Runtime, n: Node, hits: set<Key>, now: int): Runtime {
    var (t, hit) := Observe(r, n, hits, now);
    if hit && NewMatch(t, n) then Take(RecordMatch(t, n)) else t
  }

  /** `poll_absences`. */
  ghost function Poll(r: Runtime, n: Node, now: int): Runtime {
    var t := PollAll(r, Absences(n), now);
    if |t.log| > |r.log| && NewMatch(t, n) then Take(RecordMatch(t, n)) else t
  }

  datatype Op = EventOp(hits: set<Key>, now: int) | PollOp(now: int)

  ghost function Step(n: Node, r: Runtime, op: Op): Runtime {
    match op
    case EventOp(hits, now) => MatchAndTake(r, n, hits, now)
    case PollOp(now) => Poll(r, n, now)
  }

  ghost predicate Execution(n: Node, states: seq<Runtime>, ops: seq<Op>) {
    Chain((r, op, t) => t == Step(n, r, op), states, ops) && states[0] == FRESH
  }

  // ----- absence timers ------------------------------------------------------------

  /** A timer as the operations define it: when its wait started, and when it was raised. */
  datatype Clock = Clock(start: int, raised: Option<int>)

  /** The timer of a NOT condition on `k` after a series of operations, worked out from the
      operations alone: a matching event starts it anew, the first poll starts it if nothing has,
      and the first poll at or after its end raises it. */
  function ClockAfter(ops: seq<Op>, k: Key, within: int): Option<Clock>
    decreases |ops|
  {
    if ops == [] then None else ClockNext(ClockAfter(ops[..|ops| - 1], k, within), ops[|ops| - 1], k, within)
  }

  function ClockNext(before: Option<Clock>, op: Op, k: Key, within: int): Option<Clock> {
    match op
    case EventOp(hits, now) => if k in hits then Some(Clock(now, None)) else before
    case PollOp(now) => Some(Polled(before, now, within))
  }

  function Polled(before: Option<Clock>, now: int, within: int): Clock {
    var c := if before.Some? then before.value else Clock(now, None);
    if c.raised.None? && now >= c.start + within then c.(raised := Some(now)) else c
  }

  lemma ClockSteps(ops: seq<Op>, op: Op, k: Key, within: int)
    ensures ClockAfter(ops + [op], k, within) == ClockNext(ClockAfter(ops, k, within), op, k, within)
  {
    assert (ops + [op])[..|ops|] == ops;
  }

  /** No two NOT conditions on the same event disagree about the waiting time, and positive
      conditions on the same event carry the same binding id. Normalized rules give every
      condition a binding id of its own. */
  ghost predicate Coherent(n: Node) {
    && (forall a, b :: a in Absences(n) && b in Absences(n) && EventKey(a.leaf) == EventKey(b.leaf) ==>
          a.within == b.within)
    && (forall x, y :: x in Positives(n) && y in Positives(n) && EventKey(x) == EventKey(y) ==> x.binding == y.binding)
  }

  /** The table's timer of a NOT condition. */
  function TimerOf(r: Runtime, k: Key): Option<Timer> { if k in r.deadlines then Some(r.deadlines[k]) else None }

  /** When the table says an event stayed away. */
  function AwayAt(r: Runtime, k: Key): Option<int> {
    if StayedAway(k) in r.seen then Some(r.seen[StayedAway(k)].timestamp) else None
  }

  function TimerFor(c: Option<Clock>, within: int): Option<Timer> {
    if c.Some? then Some(Timer(c.value.start + within, c.value.raised.Some?)) else None
  }

  /** The table's timer is the one the operations define, and an absence counts only while its timer
      is raised, with the time of the poll that raised it. */
  ghost predicate TimerFits(r: Runtime, c: Option<Clock>, k: Key, within: int) {
    && TimerOf(r, k) == TimerFor(c, within)
    && (AwayAt(r, k).Some? ==> c.Some? && c.value.raised == AwayAt(r, k))
  }

  ghost predicate Timed(r: Runtime, ops: seq<Op>, n: Node) {
    forall a :: a in Absences(n) ==>
      TimerFits(r, ClockAfter(ops, EventKey(a.leaf), a.within), EventKey(a.leaf), a.within)
  }

  // ----- occurrences ---------------------------------------------------------------

  /** An unconsumed occurrence is the latest one recorded for its slot. */
  ghost predicate Newest(log: seq<Slot>, slot: Slot, serial: nat) {
    serial < |log| && log[serial] == slot && forall m :: serial < m < |log| ==> log[m] != slot
  }

  /** No occurrence is reported in two matches, and none that was reported is still held. */
  ghost predicate Consumed(r: Runtime) {
    && (forall slot :: slot in r.seen ==> Newest(r.log, slot, r.seen[slot].serial))
    && (forall i, x :: 0 <= i < |r.reports| && x in r.reports[i] ==> x.entry.serial < |r.log|)
    && (forall i, x, slot :: 0 <= i < |r.reports| && x in r.reports[i] && slot in r.seen ==>
          x.entry.serial != r.seen[slot].serial)
    && (forall i, j, x, y :: 0 <= i < j < |r.reports| && x in r.reports[i] && y in r.reports[j] ==>
          x.entry.serial != y.entry.serial)
  }

  // ----- every step keeps them -----------------------------------------------------

  ghost predicate Inv(r: Runtime, n: Node) {
    Consumed(r) && Faithful(Positives(n), r.seen)
  }

  lemma ShrinkConsumed(r: Runtime, t: Runtime)
    requires Consumed(r) && t.log == r.log && t.reports == r.reports
    requires forall slot :: slot in t.seen ==> slot in r.seen && t.seen[slot] == r.seen[slot]
    ensures Consumed(t)
  {
  }

  lemma RestartKeeps(r: Runtime, a: Absence, now: int, n: Node)
    requires Inv(r, n)
    ensures Inv(Restart(r, a, now), n)
  {
    ShrinkConsumed(r, Restart(r, a, now));
  }

  lemma {:induction false} RestartAllKeeps(r: Runtime, absences: seq<Absence>, hits: set<Key>, now: int, n: Node)
    requires Inv(r, n)
    ensures Inv(RestartAll(r, absences, hits, now), n)
    ensures RestartAll(r, absences, hits, now).reports == r.reports
    ensures RestartAll(r, absences, hits, now).fired == r.fired
    ensures RestartAll(r, absences, hits, now).last == r.last
    decreases |absences|
  {
    if absences != [] {
      if EventKey(absences[0].leaf) in hits { RestartKeeps(r, absences[0], now, n); }
      var next := if EventKey(absences[0].leaf) in hits then Restart(r, absences[0], now) else r;
      RestartAllKeeps(next, absences[1..], hits, now, n);
    }
  }

  lemma RecordConsumed(r: Runtime, slot: Slot, binding: Option<string>, now: int)
    requires Consumed(r)
    ensures Consumed(Record(r, slot, binding, now))
  {
    var t := Record(r, slot, binding, now);
    forall x | x in t.seen ensures Newest(t.log, x, t.seen[x].serial) {
      if x != slot { assert Newest(r.log, x, r.seen[x].serial); }
    }
  }

  lemma {:induction false} RecordAllKeeps(r: Runtime, leaves: seq<Leaf>, now: int, n: Node)
    requires Inv(r, n) && Coherent(n) && forall leaf :: leaf in leaves ==> leaf in Positives(n)
    ensures var t := RecordAll(r, leaves, now);
            Inv(t, n) && t.reports == r.reports && t.fired == r.fired && t.last == r.last
    decreases |leaves|
  {
    if leaves != [] {
      var leaf := leaves[0];
      RecordConsumed(r, Came(EventKey(leaf)), leaf.binding, now);
      RecordAllKeeps(Record(r, Came(EventKey(leaf)), leaf.binding, now), leaves[1..], now, n);
    }
  }

  lemma ObserveKeeps(r: Runtime, n: Node, hits: set<Key>, now: int)
    requires Inv(r, n) && Coherent(n) && r.fired.None? && r.last == []
    ensures var (t, hit) := Observe(r, n, hits, now);
            Inv(t, n) && t.reports == r.reports && t.fired.None? && t.last == []
  {
    RestartAllKeeps(r, Absences(n), hits, now, n);
    RecordAllKeeps(RestartAll(r, Absences(n), hits, now), Matching(Positives(n), hits), now, n);
  }

  lemma PollOneKeeps(r: Runtime, a: Absence, now: int, n: Node)
    requires Inv(r, n)
    ensures var t := PollOne(r, a, now);
            Inv(t, n) && t.reports == r.reports && t.fired == r.fired && t.last == r.last && |t.log| >= |r.log|
  {
    var k := EventKey(a.leaf);
    var armed := if k in r.deadlines then r else Arm(r, k, now, a.within);
    ShrinkConsumed(r, armed);
    if Expired(armed, k, now) { RaiseKeeps(armed, k, now, n); }
  }

  lemma RaiseKeeps(r: Runtime, k: Key, now: int, n: Node)
    requires Inv(r, n) && k in r.deadlines
    ensures Inv(Raise(r, k, now), n)
  {
    RecordConsumed(r, StayedAway(k), None, now);
    ShrinkConsumed(Record(r, StayedAway(k), None, now), Raise(r, k, now));
  }

  lemma {:induction false} PollAllKeeps(r: Runtime, absences: seq<Absence>, now: int, n: Node)
    requires Inv(r, n)
    ensures var t := PollAll(r, absences, now);
            Inv(t, n) && t.reports == r.reports && t.fired == r.fired && t.last == r.last && |t.log| >= |r.log|
    decreases |absences|
  {
    if absences != [] {
      PollOneKeeps(r, absences[0], now, n);
      PollAllKeeps(PollOne(r, absences[0], now), absences[1..], now, n);
    }
  }

  lemma {:induction false} SelectedAreSeen(sig: Signature, seen: Seen)
    ensures forall x :: x in SelectedEntries(sig, seen) ==>
      x.slot in SlotsOf(sig) && x.slot in seen && x.entry == seen[x.slot]
    ensures forall a :: a in sig && a.slot in seen ==> Reported(a.slot, seen[a.slot]) in SelectedEntries(sig, seen)
  {
    if sig != [] {
      SelectedAreSeen(sig[1..], seen);
      assert forall a :: a in sig <==> a == sig[0] || a in sig[1..];
    }
  }

  /** Handing out a match keeps the books: its occurrences leave the table with it. */
  lemma TakeKeeps(r: Runtime, n: Node)
    requires Inv(r, n) && NewMatch(r, n)
    ensures Inv(Take(RecordMatch(r, n)), n)
  {
    var sig := Evaluate(n, r.seen).value;
    var t := Take(RecordMatch(r, n));
    SelectedAreSeen(sig, r.seen);
    TakeConsumed(r, t, SelectedEntries(sig, r.seen), SlotsOf(sig));
  }

  lemma TakeConsumed(r: Runtime, t: Runtime, report: seq<Reported>, slots: set<Slot>)
    requires Consumed(r) && t.log == r.log && t.reports == r.reports + [report] && t.seen == r.seen - slots
    requires forall x :: x in report ==> x.slot in slots && x.slot in r.seen && x.entry == r.seen[x.slot]
    ensures Consumed(t)
  {
    forall i, x | 0 <= i < |t.reports| && x in t.reports[i] ensures x.entry.serial < |t.log| {
      if i == |r.reports| { assert Newest(r.log, x.slot, r.seen[x.slot].serial); }
    }
    forall i, x, slot | 0 <= i < |t.reports| && x in t.reports[i] && slot in t.seen
      ensures x.entry.serial != t.seen[slot].serial
    {
      if i == |r.reports| {
        assert Newest(r.log, x.slot, r.seen[x.slot].serial) && Newest(r.log, slot, r.seen[slot].serial);
      }
    }
    forall i, j, x, y | 0 <= i < j < |t.reports| && x in t.reports[i] && y in t.reports[j]
      ensures x.entry.serial != y.entry.serial
    {
      if j == |r.reports| { assert y.slot in r.seen && y.entry == r.seen[y.slot]; }
    }
  }

  /** Between the runtime's entry points no match is pending. */
  ghost predicate Idle(r: Runtime, n: Node) { Inv(r, n) && r.fired.None? && r.last == [] }

  lemma StepKeeps(r: Runtime, n: Node, op: Op)
    requires Idle(r, n) && Coherent(n)
    ensures Idle(Step(n, r, op), n)
  {
    match op
    case EventOp(hits, now) => EventKeeps(r, n, hits, now);
    case PollOp(now) => PollKeeps(r, n, now);
  }

  lemma EventKeeps(r: Runtime, n: Node, hits: set<Key>, now: int)
    requires Idle(r, n) && Coherent(n)
    ensures Idle(MatchAndTake(r, n, hits, now), n)
  {
    ObserveKeeps(r, n, hits, now);
    var t := Observe(r, n, hits, now).0;
    if NewMatch(t, n) { TakeKeeps(t, n); }
  }

  lemma PollKeeps(r: Runtime, n: Node, now: int)
    requires Idle(r, n) && Coherent(n)
    ensures Idle(Poll(r, n, now), n)
  {
    PollAllKeeps(r, Absences(n), now, n);
    var t := PollAll(r, Absences(n), now);
    if NewMatch(t, n) { TakeKeeps(t, n); }
  }

  lemma FreshIdle(n: Node)
    ensures Idle(FRESH, n)
  {
  }

  lemma EveryStateIdle(n: Node, states: seq<Runtime>, ops: seq<Op>, i: nat)
    requires Execution(n, states, ops) && Coherent(n) && i <= |ops|
    ensures Idle(states[i], n)
  {
    FreshIdle(n);
    var link := (r, op, t) => t == Step(n, r, op);
    forall r, op, t | link(r, op, t) && Idle(r, n) ensures Idle(t, n) { StepKeeps(r, n, op); }
    ChainInvariant(link, r => Idle(r, n), states, ops, i);
  }

  // ----- every step keeps the timers -----------------------------------------------

  predicate HasAbsence(absences: seq<Absence>, k: Key, within: int) {
    exists i :: 0 <= i < |absences| && EventKey(absences[i].leaf) == k && absences[i].within == within
  }

  /** All conditions on `k` wait equally long. */
  ghost predicate SameWait(absences: seq<Absence>, k: Key, within: int) {
    forall a :: a in absences && EventKey(a.leaf) == k ==> a.within == within
  }

  /** What a round of restarts does to one timer. */
  lemma {:induction false} RestartAllTimer(
      r: Runtime, absences: seq<Absence>, hits: set<Key>, now: int, k: Key, within: int)
    requires SameWait(absences, k, within)
    ensures var t := RestartAll(r, absences, hits, now);
            if k in hits && HasAbsence(absences, k, within) then
              TimerOf(t, k) == Some(Timer(now + within, false)) && AwayAt(t, k).None?
            else TimerOf(t, k) == TimerOf(r, k) && AwayAt(t, k) == AwayAt(r, k)
    decreases |absences|
  {
    if absences != [] {
      var a := absences[0];
      var next := if EventKey(a.leaf) in hits then Restart(r, a, now) else r;
      assert a in absences && forall b :: b in absences[1..] ==> b in absences;
      RestartAllTimer(next, absences[1..], hits, now, k, within);
      HasAbsenceSplit(absences, k, within);
    }
  }

  lemma HasAbsenceSplit(absences: seq<Absence>, k: Key, within: int)
    requires absences != []
    ensures HasAbsence(absences, k, within) <==>
      (EventKey(absences[0].leaf) == k && absences[0].within == within) || HasAbsence(absences[1..], k, within)
  {
    if HasAbsence(absences[1..], k, within) {
      var i :| 0 <= i < |absences[1..]| && EventKey(absences[1..][i].leaf) == k && absences[1..][i].within == within;
      assert EventKey(absences[i + 1].leaf) == k;
    }
    if HasAbsence(absences, k, within) {
      var i :| 0 <= i < |absences| && EventKey(absences[i].leaf) == k && absences[i].within == within;
      if i > 0 { assert absences[1..][i - 1] == absences[i]; }
    }
  }

  lemma {:induction false} RecordAllTimer(r: Runtime, leaves: seq<Leaf>, now: int, k: Key)
    ensures var t := RecordAll(r, leaves, now); TimerOf(t, k) == TimerOf(r, k) && AwayAt(t, k) == AwayAt(r, k)
    decreases |leaves|
  {
    if leaves != [] {
      RecordAllTimer(Record(r, Came(EventKey(leaves[0])), leaves[0].binding, now), leaves[1..], now, k);
    }
  }

  /** A poll of one timer, as a function of that timer alone; a second poll at the same time does
      nothing more. */
  function PolledTimer(t: Option<Timer>, now: int, within: int): Timer {
    var armed := if t.Some? then t.value else Timer(now + within, false);
    if !armed.emitted && now >= armed.deadline then armed.(emitted := true) else armed
  }

  predicate Raises(t: Option<Timer>, now: int, within: int) {
    PolledTimer(t, now, within).emitted && (t.None? || !t.value.emitted)
  }

  lemma PollOneTimer(r: Runtime, a: Absence, now: int, k: Key)
    ensures var t := PollOne(r, a, now);
            if EventKey(a.leaf) == k then
              && TimerOf(t, k) == Some(PolledTimer(TimerOf(r, k), now, a.within))
              && AwayAt(t, k) == (if Raises(TimerOf(r, k), now, a.within) then Some(now) else AwayAt(r, k))
              && t.log == r.log + (if Raises(TimerOf(r, k), now, a.within) then [StayedAway(k)] else [])
            else
              && TimerOf(t, k) == TimerOf(r, k) && AwayAt(t, k) == AwayAt(r, k)
              && (t.log == r.log || t.log == r.log + [StayedAway(EventKey(a.leaf))])
  {
  }

  /** How often a list holds a slot. */
  function Occurrences(log: seq<Slot>, slot: Slot): nat { multiset(log)[slot] }

  lemma OccurrencesAppend(log: seq<Slot>, x: Slot, slot: Slot)
    ensures Occurrences(log + [x], slot) == Occurrences(log, slot) + (if x == slot then 1 else 0)
  {
  }

  /** What a poll does to one timer: it polls it once, however often the tree mentions the event,
      and records an absence exactly when that raises the timer. */
  lemma {:induction false} PollAllTimer(r: Runtime, absences: seq<Absence>, now: int, k: Key, within: int)
    requires SameWait(absences, k, within)
    ensures var t := PollAll(r, absences, now);
            var raises := HasAbsence(absences, k, within) && Raises(TimerOf(r, k), now, within);
            && TimerOf(t, k) == (if HasAbsence(absences, k, within) then Some(PolledTimer(TimerOf(r, k), now, within))
                                 else TimerOf(r, k))
            && AwayAt(t, k) == (if raises then Some(now) else AwayAt(r, k))
            && Occurrences(t.log, StayedAway(k)) == Occurrences(r.log, StayedAway(k)) + (if raises then 1 else 0)
    decreases |absences|
  {
    if absences != [] {
      var a := absences[0];
      var next := PollOne(r, a, now);
      assert a in absences && forall b :: b in absences[1..] ==> b in absences;
      PollOneTimer(r, a, now, k);
      OccurrencesAppend(r.log, StayedAway(EventKey(a.leaf)), StayedAway(k));
      PollAllTimer(next, absences[1..], now, k, within);
      HasAbsenceSplit(absences, k, within);
    }
  }

  lemma AbsencesAreLeaves(n: Node, a: Absence)
    requires a in Absences(n)
    ensures a.leaf in Leaves(n)
    decreases n, 1
  {
    match n
    case Event(_) =>
    case Not(_, _) =>
    case All(cs, _) => AbsencesAreLeavesOf(cs, a);
    case Any(cs) => AbsencesAreLeavesOf(cs, a);
  }

  lemma AbsencesAreLeavesOf(ns: seq<Node>, a: Absence)
    requires a in AbsencesOf(ns)
    ensures a.leaf in LeavesOf(ns)
    decreases ns, 0
  {
    if ns != [] {
      if a in Absences(ns[0]) { AbsencesAreLeaves(ns[0], a); } else { AbsencesAreLeavesOf(ns[1..], a); }
    }
  }

  lemma CoherentWait(n: Node, a: Absence)
    requires Coherent(n) && a in Absences(n)
    ensures SameWait(Absences(n), EventKey(a.leaf), a.within) && HasAbsence(Absences(n), EventKey(a.leaf), a.within)
  {
    var i :| 0 <= i < |Absences(n)| && Absences(n)[i] == a;
    assert EventKey(Absences(n)[i].leaf) == EventKey(a.leaf);
  }

  /** What an event does to one timer: restarts it and withdraws its absence if it matches, and
      nothing otherwise. */
  lemma ObserveTimer(r: Runtime, n: Node, hits: set<Key>, now: int, a: Absence)
    requires Coherent(n) && a in Absences(n)
    ensures var t := Observe(r, n, hits, now).0; var k := EventKey(a.leaf);
            if k in hits then TimerOf(t, k) == Some(Timer(now + a.within, false)) && AwayAt(t, k).None?
            else TimerOf(t, k) == TimerOf(r, k) && AwayAt(t, k) == AwayAt(r, k)
  {
    var k := EventKey(a.leaf);
    AbsencesAreLeaves(n, a);
    CoherentWait(n, a);
    RestartAllTimer(r, Absences(n), hits, now, k, a.within);
    var t := RestartAll(r, Absences(n), hits, now);
    RecordAllTimer(t, Matching(Positives(n), hits), now, k);
    RecordAllTimer(t.(fired := None), Matching(Positives(n), hits), now, k);
    if k in hits { assert a.leaf in Matching(Leaves(n), hits); }
  }

  /** In the state in which an operation evaluates the tree, the timers are those of the operations
      up to and with it. */
  lemma EvaluatedTimed(r: Runtime, n: Node, ops: seq<Op>, op: Op)
    requires Timed(r, ops, n) && Coherent(n)
    ensures Timed(Evaluated(n, r, op), ops + [op], n)
  {
    forall a | a in Absences(n)
      ensures TimerFits(
        Evaluated(n, r, op), ClockAfter(ops + [op], EventKey(a.leaf), a.within), EventKey(a.leaf), a.within)
    {
      ClockSteps(ops, op, EventKey(a.leaf), a.within);
      EvaluatedTimer(r, n, ClockAfter(ops, EventKey(a.leaf), a.within), op, a);
    }
  }

  lemma EvaluatedTimer(r: Runtime, n: Node, c: Option<Clock>, op: Op, a: Absence)
    requires Coherent(n) && a in Absences(n) && TimerFits(r, c, EventKey(a.leaf), a.within)
    ensures TimerFits(Evaluated(n, r, op), ClockNext(c, op, EventKey(a.leaf), a.within), EventKey(a.leaf), a.within)
  {
    match op
    case EventOp(hits, now) => ObserveTimer(r, n, hits, now, a);
    case PollOp(now) =>
      CoherentWait(n, a);
      PollAllTimer(r, Absences(n), now, EventKey(a.leaf), a.within);
      PollFits(r, PollAll(r, Absences(n), now), c, now, EventKey(a.leaf), a.within);
  }

  lemma PollFits(r: Runtime, t: Runtime, c: Option<Clock>, now: int, k: Key, within: int)
    requires TimerFits(r, c, k, within)
    requires TimerOf(t, k) == Some(PolledTimer(TimerOf(r, k), now, within))
    requires AwayAt(t, k) == if Raises(TimerOf(r, k), now, within) then Some(now) else AwayAt(r, k)
    ensures TimerFits(t, Some(Polled(c, now, within)), k, within)
  {
  }

  lemma StepTimed(r: Runtime, n: Node, ops: seq<Op>, op: Op)
    requires Timed(r, ops, n) && Coherent(n)
    ensures Timed(Step(n, r, op), ops + [op], n)
  {
    EvaluatedTimed(r, n, ops, op);
    var m, t := Evaluated(n, r, op), Step(n, r, op);
    forall a | a in Absences(n)
      ensures TimerFits(t, ClockAfter(ops + [op], EventKey(a.leaf), a.within), EventKey(a.leaf), a.within)
    {
      assert TimerFits(m, ClockAfter(ops + [op], EventKey(a.leaf), a.within), EventKey(a.leaf), a.within);
    }
  }

  /** In every state the timers are what the operations so far make of them. */
  lemma {:induction false} EveryStateTimed(n: Node, states: seq<Runtime>, ops: seq<Op>, i: nat)
    requires Execution(n, states, ops) && Coherent(n) && i <= |ops|
    ensures Timed(states[i], ops[..i], n)
  {
    if i > 0 {
      EveryStateTimed(n, states, ops, i - 1);
      ChainLink((r, op, t) => t == Step(n, r, op), states, ops, i - 1);
      StepTimed(states[i - 1], n, ops[..i - 1], ops[i - 1]);
      assert ops[..i] == ops[..i - 1] + [ops[i - 1]];
    }
  }

  // ----- the guarantees ------------------------------------------------------------

  /** Over any run of events and polls, each recorded occurrence is reported in at most one match. */
  lemma ReportedOnce(n: Node, states: seq<Runtime>, ops: seq<Op>, i: nat, a: nat, b: nat, x: Reported, y: Reported)
    requires Execution(n, states, ops) && Coherent(n) && i <= |ops|
    requires a < |states[i].reports| && b < |states[i].reports|
    requires x in states[i].reports[a] && y in states[i].reports[b]
    requires x.entry.serial == y.entry.serial
    ensures a == b
  {
    EveryStateIdle(n, states, ops, i);
  }

  /** The state in which an operation evaluates the tree. */
  ghost function Evaluated(n: Node, r: Runtime, op: Op): Runtime {
    match op
    case EventOp(hits, now) => Observe(r, n, hits, now).0
    case PollOp(now) => PollAll(r, Absences(n), now)
  }

  lemma {:induction false} ItemsComeFromTree(n: Node, seen: Seen)
    requires Evaluate(n, seen).Some?
    ensures forall a :: a in Evaluate(n, seen).value ==> a.slot in seen
    ensures forall a :: a in Evaluate(n, seen).value && a.slot.StayedAway? ==>
      exists b :: b in Absences(n) && EventKey(b.leaf) == a.slot.key
    decreases n, 1
  {
    match n
    case Event(leaf) =>
    case Not(leaf, within) => assert Absence(leaf, within) in Absences(n);
    case All(cs, _) => ItemsOfAll(cs, seen);
    case Any(cs) => ItemsOfAny(cs, seen);
  }

  lemma {:induction false} ItemsOfAll(ns: seq<Node>, seen: Seen)
    requires EvaluateAll(ns, seen).Some?
    ensures forall a :: a in EvaluateAll(ns, seen).value ==> a.slot in seen
    ensures forall a :: a in EvaluateAll(ns, seen).value && a.slot.StayedAway? ==>
      exists b :: b in AbsencesOf(ns) && EventKey(b.leaf) == a.slot.key
    decreases ns, 0
  {
    if ns != [] {
      ItemsComeFromTree(ns[0], seen);
      ItemsOfAll(ns[1..], seen);
    }
  }

  lemma {:induction false} ItemsOfAny(ns: seq<Node>, seen: Seen)
    requires EvaluateAny(ns, seen).Some?
    ensures forall a :: a in EvaluateAny(ns, seen).value ==> a.slot in seen
    ensures forall a :: a in EvaluateAny(ns, seen).value && a.slot.StayedAway? ==>
      exists b :: b in AbsencesOf(ns) && EventKey(b.leaf) == a.slot.key
    decreases ns, 0
  {
    if Evaluate(ns[0], seen) == EvaluateAny(ns, seen) {
      ItemsComeFromTree(ns[0], seen);
    } else {
      ItemsOfAny(ns[1..], seen);
    }
  }

  /** The reported occurrence is the latest recorded for its slot, and was not consumed yet. */
  ghost predicate HeldLatest(r: Runtime, x: Reported) {
    x.slot in r.seen && x.entry == r.seen[x.slot] && Newest(r.log, x.slot, x.entry.serial)
  }

  /** A match hands out the entries of a justified selection of what was seen, and every
      guaranteed trigger id is among them. */
  lemma MatchIsSound(n: Node, r: Runtime, op: Op)
    requires Idle(r, n) && Coherent(n) && |Step(n, r, op).reports| > |r.reports|
    ensures var m := Evaluated(n, r, op); var t := Step(n, r, op);
            && Evaluate(n, m.seen).Some? && Justified(n, m.seen, Evaluate(n, m.seen).value)
            && t.reports == r.reports + [SelectedEntries(Evaluate(n, m.seen).value, m.seen)]
            && (forall x :: x in t.reports[|r.reports|] ==> HeldLatest(m, x))
            && (forall id :: id in Guaranteed(n) ==>
                  exists x :: x in t.reports[|r.reports|] && x.entry.binding == Some(id))
  {
    var m, t := Evaluated(n, r, op), Step(n, r, op);
    EvaluatedKeeps(n, r, op);
    var sig := Evaluate(n, m.seen).value;
    MatchIsJustified(n, m.seen);
    SelectedAreSeen(sig, m.seen);
    forall id | id in Guaranteed(n) ensures exists x :: x in t.reports[|r.reports|] && x.entry.binding == Some(id) {
      GuaranteeIsSound(n, m.seen, id);
      var a :| a in sig && a.slot in m.seen && m.seen[a.slot].binding == Some(id);
      assert Reported(a.slot, m.seen[a.slot]) in t.reports[|r.reports|];
    }
  }

  lemma EvaluatedKeeps(n: Node, r: Runtime, op: Op)
    requires Idle(r, n) && Coherent(n)
    ensures Idle(Evaluated(n, r, op), n) && Evaluated(n, r, op).reports == r.reports
  {
    match op
    case EventOp(hits, now) => ObserveKeeps(r, n, hits, now);
    case PollOp(now) => PollAllKeeps(r, Absences(n), now, n);
  }

  function TimeOf(op: Op): int { op.now }

  predicate Hits(op: Op, k: Key) { op.EventOp? && k in op.hits }

  /** The wait for `k` starts here: at a matching event, or at the first poll if none came before. */
  ghost predicate Starts(ops: seq<Op>, k: Key, j: nat)
    requires j < |ops|
  {
    Hits(ops[j], k) || (ops[j].PollOp? && forall h :: 0 <= h < j ==> !ops[h].PollOp? && !Hits(ops[h], k))
  }

  /** The wait that started at operation j was raised by the poll m at the time `at`, no sooner than
      `within` after its start, and no matching event has come since. */
  ghost predicate AbsentSince(ops: seq<Op>, k: Key, within: int, j: nat, m: nat, at: int) {
    && j <= m < |ops| && Starts(ops, k, j) && ops[m] == PollOp(at)
    && TimeOf(ops[j]) + within <= at
    && forall h :: j < h < |ops| ==> !Hits(ops[h], k)
  }

  /** The NOT condition is about `k`, and its wait was raised at `at`. */
  ghost predicate StayedAwayFor(a: Absence, ops: seq<Op>, k: Key, at: int) {
    EventKey(a.leaf) == k && exists j, m :: AbsentSince(ops, k, a.within, j, m, at)
  }

  ghost predicate Started(ops: seq<Op>, k: Key, start: int, j: nat) {
    j < |ops| && Starts(ops, k, j) && TimeOf(ops[j]) == start && forall h :: j < h < |ops| ==> !Hits(ops[h], k)
  }

  /** What a timer says about the operations behind it. */
  ghost predicate Explained(c: Option<Clock>, ops: seq<Op>, k: Key, within: int) {
    match c
    case None => forall h :: 0 <= h < |ops| ==> !ops[h].PollOp? && !Hits(ops[h], k)
    case Some(Clock(start, None)) => exists j :: Started(ops, k, start, j)
    case Some(Clock(start, Some(at))) =>
      exists j, m :: Started(ops, k, start, j) && AbsentSince(ops, k, within, j, m, at)
  }

  lemma StartedNext(ops: seq<Op>, op: Op, k: Key, start: int, j: nat)
    requires Started(ops, k, start, j) && !Hits(op, k)
    ensures Started(ops + [op], k, start, j)
  {
    var more := ops + [op];
    forall h | 0 <= h < j ensures more[h] == ops[h] {}
    assert Starts(more, k, j);
  }

  lemma StartsHere(ops: seq<Op>, op: Op, k: Key)
    requires Hits(op, k) || (op.PollOp? && forall h :: 0 <= h < |ops| ==> !ops[h].PollOp? && !Hits(ops[h], k))
    ensures Started(ops + [op], k, TimeOf(op), |ops|)
  {
    var more := ops + [op];
    forall h | 0 <= h < |ops| ensures more[h] == ops[h] {}
    assert Starts(more, k, |ops|);
  }

  lemma {:induction false} ClockExplained(ops: seq<Op>, k: Key, within: int)
    ensures Explained(ClockAfter(ops, k, within), ops, k, within)
    decreases |ops|
  {
    if ops != [] {
      var before, op := ops[..|ops| - 1], ops[|ops| - 1];
      ClockExplained(before, k, within);
      assert before + [op] == ops;
      if Hits(op, k) {
        StartsHere(before, op, k);
      } else {
        ClockExplainedNext(before, op, k, within);
      }
    }
  }

  lemma ClockExplainedNext(ops: seq<Op>, op: Op, k: Key, within: int)
    requires Explained(ClockAfter(ops, k, within), ops, k, within) && !Hits(op, k)
    ensures Explained(ClockAfter(ops + [op], k, within), ops + [op], k, within)
  {
    ClockSteps(ops, op, k, within);
    match ClockAfter(ops, k, within)
    case None => if op.PollOp? { StartsHere(ops, op, k); PollMayRaise(ops, op, k, within, op.now, |ops|); }
    case Some(Clock(start, None)) =>
      var j :| Started(ops, k, start, j);
      StartedNext(ops, op, k, start, j);
      if op.PollOp? { PollMayRaise(ops, op, k, within, start, j); }
    case Some(Clock(start, Some(at))) =>
      var j, m :| Started(ops, k, start, j) && AbsentSince(ops, k, within, j, m, at);
      StartedNext(ops, op, k, start, j);
      assert AbsentSince(ops + [op], k, within, j, m, at);
  }

  lemma PollMayRaise(ops: seq<Op>, op: Op, k: Key, within: int, start: int, j: nat)
    requires op.PollOp? && Started(ops + [op], k, start, j)
    ensures op.now >= start + within ==> AbsentSince(ops + [op], k, within, j, |ops|, op.now)
  {
  }

  /** A NOT condition contributes to a match only if a poll raised it at the reported time, at least
      its waiting time after the last matching event, or after the first poll if none had come, and
      no matching event has come since. */
  lemma AbsenceIsSound(n: Node, states: seq<Runtime>, ops: seq<Op>, i: nat, x: Reported)
    requires Execution(n, states, ops) && Coherent(n) && i < |ops| && |states[i + 1].reports| > |states[i].reports|
    requires x in states[i + 1].reports[|states[i].reports|] && x.slot.StayedAway?
    ensures exists a :: a in Absences(n) && StayedAwayFor(a, ops[..i + 1], x.slot.key, x.entry.timestamp)
  {
    ChainLink((r, op, t) => t == Step(n, r, op), states, ops, i);
    EveryStateIdle(n, states, ops, i);
    EveryStateTimed(n, states, ops, i);
    assert ops[..i + 1] == ops[..i] + [ops[i]];
    var a := ReportedAbsence(n, states[i], ops[..i], ops[i], x);
    ClockExplained(ops[..i + 1], x.slot.key, a.within);
    var start := ClockAfter(ops[..i + 1], x.slot.key, a.within).value.start;
    var j, m :| Started(ops[..i + 1], x.slot.key, start, j)
      && AbsentSince(ops[..i + 1], x.slot.key, a.within, j, m, x.entry.timestamp);
    assert StayedAwayFor(a, ops[..i + 1], x.slot.key, x.entry.timestamp);
  }

  lemma ReportedAbsence(n: Node, r: Runtime, ops: seq<Op>, op: Op, x: Reported) returns (a: Absence)
    requires Idle(r, n) && Timed(r, ops, n) && Coherent(n) && |Step(n, r, op).reports| > |r.reports|
    requires x in Step(n, r, op).reports[|r.reports|] && x.slot.StayedAway?
    ensures a in Absences(n) && EventKey(a.leaf) == x.slot.key
    ensures var c := ClockAfter(ops + [op], x.slot.key, a.within); c.Some? && c.value.raised == Some(x.entry.timestamp)
  {
    var m := Evaluated(n, r, op);
    MatchIsSound(n, r, op);
    EvaluatedTimed(r, n, ops, op);
    ItemsComeFromTree(n, m.seen);
    SelectedAreSeen(Evaluate(n, m.seen).value, m.seen);
    a :| a in Absences(n) && EventKey(a.leaf) == x.slot.key;
    assert TimerFits(m, ClockAfter(ops + [op], x.slot.key, a.within), x.slot.key, a.within);
  }

  /** How often an operation records that `k` stayed away. */
  ghost function RaisedIn(states: seq<Runtime>, i: nat, k: Key): int
    requires i + 1 < |states|
  {
    Occurrences(states[i + 1].log, StayedAway(k)) - Occurrences(states[i].log, StayedAway(k))
  }

  lemma {:induction false} RestartLog(r: Runtime, absences: seq<Absence>, hits: set<Key>, now: int)
    ensures RestartAll(r, absences, hits, now).log == r.log
    decreases |absences|
  {
    if absences != [] {
      var next := if EventKey(absences[0].leaf) in hits then Restart(r, absences[0], now) else r;
      RestartLog(next, absences[1..], hits, now);
    }
  }

  lemma {:induction false} RecordLog(r: Runtime, leaves: seq<Leaf>, now: int, k: Key)
    ensures Occurrences(RecordAll(r, leaves, now).log, StayedAway(k)) == Occurrences(r.log, StayedAway(k))
    decreases |leaves|
  {
    if leaves != [] {
      OccurrencesAppend(r.log, Came(EventKey(leaves[0])), StayedAway(k));
      RecordLog(Record(r, Came(EventKey(leaves[0])), leaves[0].binding, now), leaves[1..], now, k);
    }
  }

  lemma EventRaisesNothing(r: Runtime, n: Node, hits: set<Key>, now: int, k: Key)
    ensures Occurrences(Observe(r, n, hits, now).0.log, StayedAway(k)) == Occurrences(r.log, StayedAway(k))
  {
    RestartLog(r, Absences(n), hits, now);
    var t := RestartAll(r, Absences(n), hits, now);
    RecordLog(t, Matching(Positives(n), hits), now, k);
    RecordLog(t.(fired := None), Matching(Positives(n), hits), now, k);
  }

  /** Whether an operation raises the timer, by the operations alone. */
  predicate RaisesBy(ops: seq<Op>, op: Op, k: Key, within: int) {
    var before := ClockAfter(ops, k, within);
    op.PollOp? && (before.None? || before.value.raised.None?) && Polled(before, op.now, within).raised.Some?
  }

  lemma RaisedExactly(n: Node, r: Runtime, ops: seq<Op>, op: Op, a: Absence)
    requires Timed(r, ops, n) && Coherent(n) && a in Absences(n)
    ensures var k := EventKey(a.leaf);
            Occurrences(Step(n, r, op).log, StayedAway(k)) ==
              Occurrences(r.log, StayedAway(k)) + (if RaisesBy(ops, op, k, a.within) then 1 else 0)
  {
    var k := EventKey(a.leaf);
    assert TimerFits(r, ClockAfter(ops, k, a.within), k, a.within);
    match op
    case EventOp(hits, now) => EventRaisesNothing(r, n, hits, now, k);
    case PollOp(now) =>
      CoherentWait(n, a);
      PollAllTimer(r, Absences(n), now, k, a.within);
  }

  /** A raised timer stays raised until a matching event comes. */
  lemma {:induction false} StaysRaised(ops: seq<Op>, k: Key, within: int, i: nat, j: nat)
    requires i < j <= |ops| && RaisesBy(ops[..i], ops[i], k, within)
    requires forall h :: i < h < j ==> !Hits(ops[h], k)
    ensures var c := ClockAfter(ops[..j], k, within); c.Some? && c.value.raised.Some?
  {
    assert ops[..j] == ops[..j - 1] + [ops[j - 1]];
    ClockSteps(ops[..j - 1], ops[j - 1], k, within);
    if i < j - 1 {
      StaysRaised(ops, k, within, i, j - 1);
      assert !Hits(ops[j - 1], k);
    }
  }

  /** An absence is raised at most once by a poll and never by an event, and between two polls that
      raise it a matching event must come. */
  lemma RaisedAtMostOnce(n: Node, states: seq<Runtime>, ops: seq<Op>, i: nat, j: nat, a: Absence)
    requires Execution(n, states, ops) && Coherent(n) && i < j < |ops| && a in Absences(n)
    ensures var k := EventKey(a.leaf);
            && 0 <= RaisedIn(states, i, k) <= (if ops[i].PollOp? then 1 else 0)
            && (RaisedIn(states, i, k) > 0 && RaisedIn(states, j, k) > 0 ==> exists h :: i < h < j && Hits(ops[h], k))
  {
    var k := EventKey(a.leaf);
    RaisedByOps(n, states, ops, i, a);
    RaisedByOps(n, states, ops, j, a);
    if RaisedIn(states, i, k) > 0 && RaisedIn(states, j, k) > 0 && forall h :: i < h < j ==> !Hits(ops[h], k) {
      StaysRaised(ops, k, a.within, i, j);
      assert false;
    }
  }

  lemma RaisedByOps(n: Node, states: seq<Runtime>, ops: seq<Op>, i: nat, a: Absence)
    requires Execution(n, states, ops) && Coherent(n) && i < |ops| && a in Absences(n)
    ensures RaisedIn(states, i, EventKey(a.leaf)) ==
      if RaisesBy(ops[..i], ops[i], EventKey(a.leaf), a.within) then 1 else 0
  {
    ChainLink((r, op, t) => t == Step(n, r, op), states, ops, i);
    EveryStateTimed(n, states, ops, i);
    RaisedExactly(n, states[i], ops[..i], ops[i], a);
  }

  /** The operation brought a new occurrence: the event hit a positive condition, or the poll
      found a timer expired. */
  ghost predicate Occurred(n: Node, r: Runtime, op: Op) {
    match op
    case EventOp(hits, now) => Matching(Positives(n), hits) != [] && Matching(Leaves(n), hits) != []
    case PollOp(now) => |PollAll(r, Absences(n), now).log| > |r.log|
  }

  /** A match is handed out exactly when something new occurred and the tree evaluates to one;
      without time windows, exactly when the formula holds of what was seen. */
  lemma MatchExactly(n: Node, r: Runtime, op: Op)
    requires Idle(r, n) && Coherent(n)
    ensures var m := Evaluated(n, r, op);
            var reported := |Step(n, r, op).reports| > |r.reports|;
            && (reported <==> Occurred(n, r, op) && Evaluate(n, m.seen).Some?)
            && (WindowFree(n) ==> (reported <==> Occurred(n, r, op) && Holds(n, m.seen.Keys)))
            && (CS.Grouped(n) && CS.Reliable(n) ==>
              (reported <==> Occurred(n, r, op) && exists sig :: Justified(n, m.seen, sig)))
  {
    EvaluatedKeeps(n, r, op);
    if CS.Grouped(n) && CS.Reliable(n) { CS.MatchIffJustified(n, Evaluated(n, r, op).seen); }
    MatchIsTruth(n, Evaluated(n, r, op).seen);
  }

  // ----- the runtime object --------------------------------------------------------

  /** `match` alone, without taking the match. */
  ghost function MatchOnly(r: Runtime, n: Node, hits: set<Key>, now: int): (Runtime, bool) {
    var (t, hit) := Observe(r, n, hits, now);
    if hit then (RecordMatch(t, n), NewMatch(t, n)) else (t, false)
  }

  /** The tables of one rule key. `log` gives each recorded occurrence an identity. */
  class ConditionRuntime {
    var seen: Seen
    var fired: Option<Signature>
    var last: seq<Reported>
    var deadlines: map<Key, Timer>
    var log: seq<Slot>
    ghost var reports: seq<seq<Reported>>

    ghost function Abs(): Runtime
      reads this
    {
      Runtime(seen, fired, last, deadlines, log, reports)
    }

    constructor ()
      ensures Abs() == FRESH
    {
      seen, fired, last, deadlines, log, reports := map[], None, [], map[], [], [];
    }

    method RecordOccurrence(slot: Slot, binding: Option<string>, now: int)
      modifies this
      ensures Abs() == Record(old(Abs()), slot, binding, now)
    {
      seen := seen[slot := Entry(binding, now, |log|)];
      log := log + [slot];
    }

    method RestartTimers(n: Node, hits: set<Key>, now: int)
      modifies this
      ensures Abs() == RestartAll(old(Abs()), Absences(n), hits, now)
    {
      var absences := Absences(n);
      var i := 0;
      while i < |absences|
        invariant 0 <= i <= |absences|
        invariant RestartAll(Abs(), absences[i..], hits, now) == RestartAll(old(Abs()), absences, hits, now)
      {
        assert absences[i..][1..] == absences[i + 1..];
        var k := EventKey(absences[i].leaf);
        if k in hits {
          deadlines := deadlines[k := Timer(now + absences[i].within, false)];
          seen := seen - {StayedAway(k)};
        }
        i := i + 1;
      }
    }

    method RecordLeaves(leaves: seq<Leaf>, now: int)
      modifies this
      ensures Abs() == RecordAll(old(Abs()), leaves, now)
    {
      var i := 0;
      while i < |leaves|
        invariant 0 <= i <= |leaves|
        invariant RecordAll(Abs(), leaves[i..], now) == RecordAll(old(Abs()), leaves, now)
      {
        assert leaves[i..][1..] == leaves[i + 1..];
        RecordOccurrence(Came(EventKey(leaves[i])), leaves[i].binding, now);
        i := i + 1;
      }
    }

    /** `_record_match`. */
    method RecordNewMatch(n: Node) returns (matched: bool)
      modifies this`fired, this`last
      ensures Abs() == RecordMatch(old(Abs()), n) && matched == NewMatch(old(Abs()), n)
    {
      var sig := Evaluate(n, seen);
      if sig.None? || (fired.Some? && multiset(fired.value) == multiset(sig.value)) { return false; }
      fired := sig;
      last := SelectedEntries(sig.value, seen);
      matched := true;
    }

    /** `match`. */
    method Match(n: Node, hits: set<Key>, now: int) returns (matched: bool)
      modifies this
      ensures (Abs(), matched) == MatchOnly(old(Abs()), n, hits, now)
    {
      if Matching(Leaves(n), hits) == [] { return false; }
      RestartTimers(n, hits, now);
      var leaves := Matching(Positives(n), hits);
      if leaves == [] { return false; }
      if fired.Some? && exists a :: a in fired.value && a.slot !in seen {
        fired := None;
      }
      RecordLeaves(leaves, now);
      matched := RecordNewMatch(n);
    }

    /** `take_last_match`. */
    method TakeLastMatch() returns (result: seq<Reported>)
      modifies this
      ensures Abs() == Take(old(Abs())) && result == old(last)
    {
      result := last;
      var sig := if fired.Some? then fired.value else [];
      assert seen - SlotsOf([]) == seen;
      for i := 0 to |sig|
        invariant seen == old(seen) - SlotsOf(sig[..i])
        invariant Abs() == old(Abs()).(seen := seen)
      {
        assert sig[..i + 1] == sig[..i] + [sig[i]];
        assert SlotsOf(sig[..i + 1]) == SlotsOf(sig[..i]) + {sig[i].slot};
        seen := seen - {sig[i].slot};
      }
      assert sig[..|sig|] == sig;
      fired, last := None, [];
      reports := reports + [result];
    }

    /** `match_and_take`. */
    method MatchAndTakeEvent(n: Node, hits: set<Key>, now: int) returns (result: Option<seq<Reported>>)
      modifies this
      ensures Abs() == MatchAndTake(old(Abs()), n, hits, now)
      ensures result.Some? <==> |reports| > |old(reports)|
      ensures result.Some? ==> result.value == reports[|old(reports)|]
    {
      ReportsKept(Abs(), n, hits, now);
      var matched := Match(n, hits, now);
      if !matched { return None; }
      var taken := TakeLastMatch();
      result := Some(taken);
    }

    /** `poll_absences`. */
    method PollAbsences(n: Node, now: int) returns (result: Option<seq<Reported>>)
      modifies this
      ensures Abs() == Poll(old(Abs()), n, now)
      ensures result.Some? <==> |reports| > |old(reports)|
      ensures result.Some? ==> result.value == reports[|old(reports)|]
    {
      var absences := Absences(n);
      var before := |log|;
      var i := 0;
      while i < |absences|
        invariant 0 <= i <= |absences| && reports == old(reports) && |log| >= before
        invariant PollAll(Abs(), absences[i..], now) == PollAll(old(Abs()), absences, now)
      {
        assert absences[i..][1..] == absences[i + 1..];
        PollTimer(absences[i], now);
        i := i + 1;
      }
      if |log| == before { return None; }
      var matched := RecordNewMatch(n);
      if !matched { return None; }
      var taken := TakeLastMatch();
      result := Some(taken);
    }

    method PollTimer(a: Absence, now: int)
      modifies this
      ensures Abs() == PollOne(old(Abs()), a, now) && reports == old(reports) && |log| >= |old(log)|
    {
      var k := EventKey(a.leaf);
      if k !in deadlines {
        deadlines := deadlines[k := Timer(now + a.within, false)];
      }
      if !deadlines[k].emitted && now >= deadlines[k].deadline {
        deadlines := deadlines[k := deadlines[k].(emitted := true)];
        RecordOccurrence(StayedAway(k), None, now);
      }
    }
  }

  lemma {:induction false} RestartReports(r: Runtime, absences: seq<Absence>, hits: set<Key>, now: int)
    ensures RestartAll(r, absences, hits, now).reports == r.reports
    decreases |absences|
  {
    if absences != [] {
      var next := if EventKey(absences[0].leaf) in hits then Restart(r, absences[0], now) else r;
      RestartReports(next, absences[1..], hits, now);
    }
  }

  lemma {:induction false} RecordReports(r: Runtime, leaves: seq<Leaf>, now: int)
    ensures RecordAll(r, leaves, now).reports == r.reports
    decreases |leaves|
  {
    if leaves != [] {
      RecordReports(Record(r, Came(EventKey(leaves[0])), leaves[0].binding, now), leaves[1..], now);
    }
  }

  lemma ReportsKept(r: Runtime, n: Node, hits: set<Key>, now: int)
    ensures Observe(r, n, hits, now).0.reports == r.reports
  {
    RestartReports(r, Absences(n), hits, now);
    var t := RestartAll(r, Absences(n), hits, now);
    RecordReports(t, Matching(Positives(n), hits), now);
    RecordReports(t.(fired := None), Matching(Positives(n), hits), now);
  }
}
