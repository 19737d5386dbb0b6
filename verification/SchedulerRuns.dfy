/** Submissions to the run scheduler, and what holds over every run of the scheduler. */
module SchedulerRuns {
  import opened Common
  import opened SchedulerModel
  import opened SchedulerProofs
  import opened SchedulerSafety

  // ----- a submission that waits or is turned away ---------------------------------

  /** `t` is `s` with a fresh run of rule `k` entered in the ledger and not started. */
  ghost predicate Entered(s: Sched, t: Sched, k: RuleKey, id: RunId) {
    && (forall x :: Exec(t, x) == Exec(s, x) && Active(t, x) == Active(s, x))
    && t.arrivals == s.arrivals[id := Arrival(k, |s.arrivals|)] && t.started == s.started
    && t.workers == s.workers && t.maxWorkers == s.maxWorkers && t.maxPending == s.maxPending
    && t.closing == s.closing
    && id !in s.arrivals && id !in s.started && id !in s.fates
  }

  lemma EnteredLedger(s: Sched, t: Sched, k: RuleKey, id: RunId)
    requires Entered(s, t, k, id) && Ledger(s)
    requires t.fates.Keys == s.fates.Keys || t.fates.Keys == s.fates.Keys + {id}
    ensures Ledger(t)
  {
    NextTicket(s.arrivals, k, id);
  }

  lemma DiscardEffect(s: Sched, k: RuleKey, id: RunId)
    requires id !in s.arrivals && id !in s.started && id !in s.fates
    ensures var t := Discard(Arrive(s, k, id), id);
            && Entered(s, t, k, id) && (forall x :: QueueOf(t, x) == QueueOf(s, x))
            && (forall x, y :: Waiting(t, x, y) == Waiting(s, x, y))
            && (forall x, y :: Running(t, x, y) == Running(s, x, y))
  {
  }

  lemma DiscardPlacement(s: Sched, k: RuleKey, id: RunId)
    requires Placement(s) && id !in s.arrivals && id !in s.started && id !in s.fates
    ensures Placement(Discard(Arrive(s, k, id), id))
  {
    DiscardEffect(s, k, id);
  }

  lemma SameQueuesOrdered(s: Sched, t: Sched)
    requires Placement(s) && Ordered(s)
    requires forall x :: QueueOf(t, x) == QueueOf(s, x)
    requires forall y :: y in s.arrivals ==> TicketOf(t, y) == TicketOf(s, y)
    ensures Ordered(t)
  {
    forall x, i, j | 0 <= i < j < |QueueOf(t, x)|
      ensures TicketOf(t, QueueOf(t, x)[i].id) < TicketOf(t, QueueOf(t, x)[j].id)
    {
      assert QueueOf(t, x) == QueueOf(s, x);
      assert Waiting(s, x, QueueOf(s, x)[i].id) && Waiting(s, x, QueueOf(s, x)[j].id);
    }
  }

  lemma DiscardOrdered(s: Sched, k: RuleKey, id: RunId)
    requires Placement(s) && Ordered(s) && id !in s.arrivals && id !in s.started && id !in s.fates
    ensures Ordered(Discard(Arrive(s, k, id), id))
  {
    DiscardEffect(s, k, id);
    SameQueuesOrdered(s, Discard(Arrive(s, k, id), id));
  }

  lemma DiscardLedger(s: Sched, k: RuleKey, id: RunId)
    requires Ledger(s) && id !in s.arrivals
    ensures Ledger(Discard(Arrive(s, k, id), id))
  {
    DiscardEffect(s, k, id);
    EnteredLedger(s, Discard(Arrive(s, k, id), id), k, id);
  }

  lemma DiscardTables(s: Sched, k: RuleKey, id: RunId)
    requires Tables(s) && Bounded(s)
    ensures Tables(Discard(Arrive(s, k, id), id)) && Bounded(Discard(Arrive(s, k, id), id))
  {
    assert forall x :: QueueOf(Discard(Arrive(s, k, id), id), x) == QueueOf(s, x);
  }

  lemma DiscardCounting(s: Sched, k: RuleKey, id: RunId)
    requires Counting(s) && id !in s.started
    ensures Counting(Discard(Arrive(s, k, id), id))
  {
    var t := Discard(Arrive(s, k, id), id);
    assert t.started - t.fates.Keys == s.started - s.fates.Keys;
  }

  lemma DiscardLogged(s: Sched, k: RuleKey, id: RunId)
    requires Logged(s) && id !in s.arrivals && id !in s.started && id !in s.fates
    ensures Logged(Discard(Arrive(s, k, id), id))
  {
    DiscardEffect(s, k, id);
  }

  lemma DiscardFair(s: Sched, k: RuleKey, id: RunId)
    requires FirstComeFirstServed(s) && id !in s.arrivals && id !in s.started && id !in s.fates
    ensures FirstComeFirstServed(Discard(Arrive(s, k, id), id))
  {
    DiscardEffect(s, k, id);
  }

  lemma DiscardConserves(s: Sched, k: RuleKey, id: RunId)
    requires WorkConserving(s)
    ensures WorkConserving(Discard(Arrive(s, k, id), id))
  {
    forall x ensures Conserves(Discard(Arrive(s, k, id), id), x) { assert Conserves(s, x); }
  }

  lemma DiscardKeeps(s: Sched, k: RuleKey, id: RunId)
    requires Inv(s) && id !in s.arrivals
    ensures Inv(Discard(Arrive(s, k, id), id))
  {
    var t := Discard(Arrive(s, k, id), id);
    FreshRun(s, id);
    DiscardPlacement(s, k, id);
    DiscardOrdered(s, k, id);
    DiscardLedger(s, k, id);
    DiscardTables(s, k, id);
    DiscardCounting(s, k, id);
    DiscardLogged(s, k, id);
  }

  lemma EnqueueEffect(s: Sched, k: RuleKey, e: Entry)
    requires e.id !in s.arrivals && e.id !in s.started && e.id !in s.fates
    ensures var t := Enqueue(Arrive(s, k, e.id), k, e);
            && Entered(s, t, k, e.id)
            && (forall x :: QueueOf(t, x) == if x == k then QueueOf(s, k) + [e] else QueueOf(s, x))
            && (forall x, y :: Waiting(t, x, y) <==> Waiting(s, x, y) || (x == k && y == e.id))
            && (forall x, y :: Running(t, x, y) == Running(s, x, y))
  {
  }

  lemma EnqueuePlacement(s: Sched, k: RuleKey, e: Entry)
    requires Placement(s) && e.id !in s.arrivals && e.id !in s.started && e.id !in s.fates
    ensures Placement(Enqueue(Arrive(s, k, e.id), k, e))
  {
    var t := Enqueue(Arrive(s, k, e.id), k, e);
    EnqueueEffect(s, k, e);
    forall x, i | 0 <= i < |QueueOf(t, x)| ensures Waiting(t, x, QueueOf(t, x)[i].id) {
      if i < |QueueOf(s, x)| { assert Waiting(s, x, QueueOf(s, x)[i].id); }
    }
    forall x, y | Waiting(t, x, y) ensures InQueue(QueueOf(t, x), y) {
      if Waiting(s, x, y) {
        assert InQueue(QueueOf(s, x), y);
        var i :| 0 <= i < |QueueOf(s, x)| && QueueOf(s, x)[i].id == y;
        assert QueueOf(t, x)[i].id == y;
      } else {
        assert QueueOf(t, k)[|QueueOf(s, k)|].id == y;
      }
    }
  }

  lemma EnqueueOrdered(s: Sched, k: RuleKey, e: Entry)
    requires Placement(s) && Ordered(s) && Ledger(s) && e.id !in s.arrivals
    ensures Ordered(Enqueue(Arrive(s, k, e.id), k, e))
  {
    var t := Enqueue(Arrive(s, k, e.id), k, e);
    forall x, i, j | 0 <= i < j < |QueueOf(t, x)|
      ensures TicketOf(t, QueueOf(t, x)[i].id) < TicketOf(t, QueueOf(t, x)[j].id)
    {
      assert QueueOf(t, x)[i] == QueueOf(s, x)[i];
      assert Waiting(s, x, QueueOf(s, x)[i].id);
      if j < |QueueOf(s, x)| {
        assert QueueOf(t, x)[j] == QueueOf(s, x)[j];
        assert Waiting(s, x, QueueOf(s, x)[j].id);
      }
    }
  }

  lemma EnqueueBounded(s: Sched, k: RuleKey, e: Entry)
    requires Tables(s) && Bounded(s) && k in s.queues && !s.closing
    requires |QueueOf(s, k)| < QueueLimit(e.rule) && Pending(s.order, s.queues) < s.maxPending
    ensures Tables(Enqueue(Arrive(s, k, e.id), k, e)) && Bounded(Enqueue(Arrive(s, k, e.id), k, e))
  {
    var t := Enqueue(Arrive(s, k, e.id), k, e);
    PendingUpdate(s.order, s.queues, k, QueueOf(s, k) + [e]);
    forall x | QueueOf(t, x) != []
      ensures |QueueOf(t, x)| <= QueueLimit(QueueOf(t, x)[|QueueOf(t, x)| - 1].rule)
    {
      assert QueueOf(t, x) == if x == k then QueueOf(s, k) + [e] else QueueOf(s, x);
    }
  }

  lemma EnqueueLogged(s: Sched, k: RuleKey, e: Entry)
    requires Logged(s) && e.id !in s.arrivals && e.id !in s.started && e.id !in s.fates
    ensures Logged(Enqueue(Arrive(s, k, e.id), k, e))
  {
    EnqueueEffect(s, k, e);
    assert s.log[ReplacedNote(e.id)] == 0;
  }

  lemma EnqueueFair(s: Sched, k: RuleKey, e: Entry)
    requires FirstComeFirstServed(s) && Ledger(s) && e.id !in s.arrivals && e.id !in s.started && e.id !in s.fates
    ensures FirstComeFirstServed(Enqueue(Arrive(s, k, e.id), k, e))
  {
    EnqueueEffect(s, k, e);
  }

  lemma EnqueueConserves(s: Sched, k: RuleKey, e: Entry)
    requires WorkConserving(s) && !HasRoom(s, k, e.rule)
    ensures WorkConserving(Enqueue(Arrive(s, k, e.id), k, e))
  {
    var t := Enqueue(Arrive(s, k, e.id), k, e);
    forall x ensures Conserves(t, x) {
      assert Conserves(s, x);
      assert QueueOf(t, x) == if x == k then QueueOf(s, k) + [e] else QueueOf(s, x);
    }
  }

  lemma EnqueueLedger(s: Sched, k: RuleKey, e: Entry)
    requires Ledger(s) && e.id !in s.arrivals
    ensures Ledger(Enqueue(Arrive(s, k, e.id), k, e))
  {
    EnqueueEffect(s, k, e);
    EnteredLedger(s, Enqueue(Arrive(s, k, e.id), k, e), k, e.id);
  }

  lemma EnqueueKeeps(s: Sched, k: RuleKey, e: Entry)
    requires Inv(s) && e.id !in s.arrivals && k in s.queues && !s.closing
    requires |QueueOf(s, k)| < QueueLimit(e.rule) && Pending(s.order, s.queues) < s.maxPending
    ensures Inv(Enqueue(Arrive(s, k, e.id), k, e))
  {
    FreshRun(s, e.id);
    EnqueuePlacement(s, k, e);
    EnqueueOrdered(s, k, e);
    EnqueueLedger(s, k, e);
    EnqueueBounded(s, k, e);
    EnqueueLogged(s, k, e);
  }

  // ----- submissions ---------------------------------------------------------------

  lemma AdmitFair(s: Sched, t: Sched, k: RuleKey, id: RunId)
    requires FirstComeFirstServed(s) && Placement(s) && StartedRun(s, t, k, id) && id !in s.arrivals
    requires QueueOf(s, k) == []
    ensures FirstComeFirstServed(t)
  {
    StartedRunMoves(s, t, k, id);
    forall x, w, y | Waiting(t, x, w) && y in t.started && y in t.arrivals && t.arrivals[y].key == x
      ensures TicketOf(t, y) < TicketOf(t, w)
    {
      assert Waiting(s, x, w) && InQueue(QueueOf(s, x), w);
    }
  }

  lemma AdmitUnfair(s: Sched, k: RuleKey, id: RunId)
    requires Placement(s) && Ledger(s) && id !in s.arrivals && QueueOf(s, k) != []
    ensures !FirstComeFirstServed(Begin(Arrive(s, k, id), k, id))
  {
    var t := Begin(Arrive(s, k, id), k, id);
    var w := QueueOf(s, k)[0].id;
    assert Waiting(s, k, w) && Waiting(t, k, w);
    assert TicketOf(t, w) == TicketOf(s, w) < TicketOf(t, id);
  }

  lemma AdmitConserves(s: Sched, k: RuleKey, id: RunId)
    requires WorkConserving(s)
    ensures WorkConserving(Begin(Arrive(s, k, id), k, id))
  {
    var t := Begin(Arrive(s, k, id), k, id);
    forall x ensures Conserves(t, x) {
      assert Conserves(s, x);
      assert QueueOf(t, x) == QueueOf(s, x);
      if x == k { assert Active(s, k) <= Active(t, k); SubsetSize(Active(s, k), Active(t, k)); }
    }
  }

  lemma {:induction false} SubsetSize<T>(a: set<T>, b: set<T>)
    requires a <= b
    ensures |a| <= |b|
  {
    assert b == a + (b - a);
  }

  lemma PlaceKeeps(s: Sched, k: RuleKey, rule: Concurrency, id: RunId)
    requires Inv(s) && id !in s.arrivals && k in s.queues && !s.closing
    ensures Inv(Place(s, k, rule, id))
  {
    if HasRoom(s, k, rule) {
      AdmitKeeps(s, k, id);
    } else if |QueueOf(s, k)| >= QueueLimit(rule) || Pending(s.order, s.queues) >= s.maxPending {
      DiscardKeeps(s, k, id);
    } else {
      EnqueueKeeps(s, k, Entry(id, rule));
    }
  }

  lemma PlaceConserves(s: Sched, k: RuleKey, rule: Concurrency, id: RunId)
    requires WorkConserving(s) && forall x :: x in s.order ==> x in s.queues
    ensures WorkConserving(Place(s, k, rule, id))
  {
    if HasRoom(s, k, rule) {
      AdmitConserves(s, k, id);
    } else if |QueueOf(s, k)| >= QueueLimit(rule) || Pending(s.order, s.queues) >= s.maxPending {
      DiscardConserves(s, k, id);
    } else {
      EnqueueConserves(s, k, Entry(id, rule));
    }
  }

  lemma PlaceFair(s: Sched, k: RuleKey, rule: Concurrency, id: RunId)
    requires Inv(s) && id !in s.arrivals && FirstComeFirstServed(s)
    ensures FirstComeFirstServed(Place(s, k, rule, id)) <==> !(HasRoom(s, k, rule) && QueueOf(s, k) != [])
  {
    FreshRun(s, id);
    if HasRoom(s, k, rule) {
      if QueueOf(s, k) != [] {
        AdmitUnfair(s, k, id);
      } else {
        AdmitEffect(s, k, id);
        AdmitFair(s, Begin(Arrive(s, k, id), k, id), k, id);
      }
    } else if |QueueOf(s, k)| >= QueueLimit(rule) || Pending(s.order, s.queues) >= s.maxPending {
      DiscardFair(s, k, id);
    } else {
      EnqueueFair(s, k, Entry(id, rule));
    }
  }

  lemma PreparedKeeps(s: Sched, k: RuleKey, rule: Concurrency, cancelled: set<RunId>)
    requires Inv(s) && !s.closing
    ensures var t := Prepared(s, k, rule, cancelled);
            && Inv(t) && k in t.queues && t.closing == s.closing && t.arrivals == s.arrivals && t.started == s.started
            && (FirstComeFirstServed(s) ==> FirstComeFirstServed(t))
            && (ConfigOf(rule).mode == Replace ==> QueueOf(t, k) == [])
            && (ConfigOf(rule).mode != Replace ==> SameRuns(s, t))
  {
    var o := Open(s, k);
    OpenKeeps(s, k);
    if FirstComeFirstServed(s) { SameFair(s, o); }
    if ConfigOf(rule).mode == Replace {
      SupersedeKeeps(o, k, cancelled);
    }
  }

  lemma PreparedConserves(s: Sched, k: RuleKey, rule: Concurrency, cancelled: set<RunId>)
    requires Inv(s) && !s.closing && WorkConserving(s)
    ensures WorkConserving(Prepared(s, k, rule, cancelled))
  {
    OpenKeeps(s, k);
    SameConserving(s, Open(s, k));
    if ConfigOf(rule).mode == Replace {
      SupersedeConserves(Open(s, k), k, cancelled);
    }
  }

  /** The submission starts at once although runs of the same rule wait. */
  ghost predicate Overtakes(s: Sched, k: RuleKey, rule: Concurrency) {
    && !s.closing && ConfigOf(rule).mode != Replace && ConfigOf(rule).mode != Single
    && QueueOf(s, k) != [] && HasRoom(s, k, rule)
  }

  lemma SubmitKeeps(s: Sched, k: RuleKey, rule: Concurrency, id: RunId, cancelled: set<RunId>)
    requires Inv(s) && id !in s.arrivals
    ensures Inv(Submit(s, k, rule, id, cancelled))
  {
    if s.closing {
      DiscardKeeps(s, k, id);
    } else if TurnedAway(s, k, rule) {
      OpenKeeps(s, k);
      DiscardKeeps(Open(s, k), k, id);
    } else {
      PreparedKeeps(s, k, rule, cancelled);
      PlaceKeeps(Prepared(s, k, rule, cancelled), k, rule, id);
    }
  }

  lemma SubmitConserves(s: Sched, k: RuleKey, rule: Concurrency, id: RunId, cancelled: set<RunId>)
    requires Inv(s) && id !in s.arrivals && WorkConserving(s)
    ensures WorkConserving(Submit(s, k, rule, id, cancelled))
  {
    if s.closing {
      DiscardConserves(s, k, id);
    } else if TurnedAway(s, k, rule) {
      OpenKeeps(s, k);
      SameConserving(s, Open(s, k));
      DiscardConserves(Open(s, k), k, id);
    } else {
      PreparedKeeps(s, k, rule, cancelled);
      PreparedConserves(s, k, rule, cancelled);
      PlaceConserves(Prepared(s, k, rule, cancelled), k, rule, id);
    }
  }

  /** A submission breaks the order of arrival exactly when it overtakes. */
  lemma SubmitFair(s: Sched, k: RuleKey, rule: Concurrency, id: RunId, cancelled: set<RunId>)
    requires Inv(s) && id !in s.arrivals && FirstComeFirstServed(s)
    ensures FirstComeFirstServed(Submit(s, k, rule, id, cancelled)) <==> !Overtakes(s, k, rule)
  {
    if s.closing {
      FreshRun(s, id);
      DiscardFair(s, k, id);
    } else if TurnedAway(s, k, rule) {
      TurnedAwayFair(s, k, id);
    } else {
      PreparedKeeps(s, k, rule, cancelled);
      PlaceFair(Prepared(s, k, rule, cancelled), k, rule, id);
      OvertakesOncePrepared(s, k, rule, cancelled);
    }
  }

  lemma OvertakesOncePrepared(s: Sched, k: RuleKey, rule: Concurrency, cancelled: set<RunId>)
    requires Tables(s) && !s.closing && !TurnedAway(s, k, rule)
    ensures var p := Prepared(s, k, rule, cancelled);
            Overtakes(s, k, rule) <==> HasRoom(p, k, rule) && QueueOf(p, k) != []
  {
  }

  lemma TurnedAwayFair(s: Sched, k: RuleKey, id: RunId)
    requires Inv(s) && id !in s.arrivals && FirstComeFirstServed(s) && !s.closing
    ensures FirstComeFirstServed(Discard(Arrive(Open(s, k), k, id), id))
  {
    OpenKeeps(s, k);
    SameFair(s, Open(s, k));
    FreshRun(s, id);
    DiscardFair(Open(s, k), k, id);
  }

  // ----- runs of the scheduler -----------------------------------------------------

  /** One lock section, with the choices the environment makes in it. */
  datatype Op =
    | SubmitOp(key: RuleKey, rule: Concurrency, id: RunId, cancelled: set<RunId>)
    | RunEventOp(id: RunId)
    | RetireOp(key: RuleKey, id: RunId)
    | WorkerDoneOp(key: RuleKey, id: RunId)
    | SpawnFailedOp(key: RuleKey, id: RunId)
    | DropRuleOp(key: RuleKey)
    | ShutdownOp

  /** Run ids are fresh when submitted; a worker retires its own run before it gives its
      slot back. */
  ghost predicate Enabled(s: Sched, op: Op) {
    match op
    case SubmitOp(_, _, id, _) => id !in s.arrivals && forall x :: x in s.order <==> x in s.queues
    case RetireOp(k, id) => id in Exec(s, k)
    case WorkerDoneOp(k, id) => id in Exec(s, k) && id !in Active(s, k)
    case SpawnFailedOp(k, id) => id in Exec(s, k)
    case _ => true
  }

  ghost function Step(s: Sched, op: Op): Sched
    requires Enabled(s, op)
  {
    match op
    case SubmitOp(k, rule, id, cancelled) => Submit(s, k, rule, id, cancelled)
    case RunEventOp(id) => RunEvent(s, id)
    case RetireOp(k, id) => Retire(s, k, id)
    case WorkerDoneOp(k, id) => WorkerDone(s, k, id)
    case SpawnFailedOp(k, id) => SpawnFailed(s, k, id)
    case DropRuleOp(k) => DropRule(s, k)
    case ShutdownOp => Shutdown(s)
  }

  ghost function Fresh(maxWorkers: nat, maxPending: nat): Sched {
    Sched(maxWorkers, maxPending, 0, map[], map[], [], map[], {}, false, multiset{}, map[], {}, map[])
  }

  ghost predicate Next(s: Sched, op: Op, t: Sched) { Enabled(s, op) && t == Step(s, op) }

  ghost predicate Execution(states: seq<Sched>, ops: seq<Op>) {
    Chain(Next, states, ops) && states[0] == Fresh(states[0].maxWorkers, states[0].maxPending)
  }

  ghost predicate OvertakingOp(s: Sched, op: Op) { op.SubmitOp? && Overtakes(s, op.key, op.rule) }

  lemma RunEventKeeps(s: Sched, id: RunId)
    requires Inv(s)
    ensures Inv(RunEvent(s, id))
    ensures FirstComeFirstServed(s) ==> FirstComeFirstServed(RunEvent(s, id))
    ensures WorkConserving(s) ==> WorkConserving(RunEvent(s, id))
  {
    if id in s.arrivals { RetireKeeps(s, s.arrivals[id].key, id); }
  }

  /** Every lock section keeps the accounting and the work-conserving invariant. */
  lemma StepSafe(s: Sched, op: Op)
    requires Inv(s) && WorkConserving(s) && Enabled(s, op)
    ensures Inv(Step(s, op)) && WorkConserving(Step(s, op))
  {
    match op
    case SubmitOp(k, rule, id, cancelled) =>
      SubmitKeeps(s, k, rule, id, cancelled);
      SubmitConserves(s, k, rule, id, cancelled);
    case RunEventOp(id) => RunEventKeeps(s, id);
    case RetireOp(k, id) => RetireKeeps(s, k, id);
    case WorkerDoneOp(k, id) => WorkerDoneKeeps(s, k, id);
    case SpawnFailedOp(k, id) => SpawnFailedKeeps(s, k, id);
    case DropRuleOp(k) => DropRuleKeeps(s, k);
    case ShutdownOp => ShutdownKeeps(s);
  }

  /** A lock section breaks the order of arrival exactly when it is an overtaking submission. */
  lemma StepFair(s: Sched, op: Op)
    requires Inv(s) && FirstComeFirstServed(s) && Enabled(s, op)
    ensures FirstComeFirstServed(Step(s, op)) <==> !OvertakingOp(s, op)
  {
    match op
    case SubmitOp(k, rule, id, cancelled) => SubmitFair(s, k, rule, id, cancelled);
    case RunEventOp(id) => RunEventKeeps(s, id);
    case RetireOp(k, id) => RetireKeeps(s, k, id);
    case WorkerDoneOp(k, id) => WorkerDoneKeeps(s, k, id);
    case SpawnFailedOp(k, id) => SpawnFailedKeeps(s, k, id);
    case DropRuleOp(k) => DropRuleKeeps(s, k);
    case ShutdownOp => ShutdownKeeps(s);
  }

  /** In every reachable state the accounting holds and no worker idles while a run that
      could start waits. */
  lemma EveryStateSafe(states: seq<Sched>, ops: seq<Op>, i: nat)
    requires Execution(states, ops) && i <= |ops|
    ensures Safe(states[i])
  {
    FreshSafe(states[0].maxWorkers, states[0].maxPending);
    NextAlwaysSafe();
    ChainInvariant(Next, Safe, states, ops, i);
  }

  lemma NextAlwaysSafe()
    ensures forall s, op, t :: Next(s, op, t) && Safe(s) ==> Safe(t)
  {
    forall s, op, t | Next(s, op, t) && Safe(s) ensures Safe(t) {
      StepSafe(s, op);
    }
  }

  ghost predicate Safe(s: Sched) { Inv(s) && WorkConserving(s) }

  lemma FreshSafe(maxWorkers: nat, maxPending: nat)
    ensures Safe(Fresh(maxWorkers, maxPending))
    ensures FirstComeFirstServed(Fresh(maxWorkers, maxPending))
  {
  }

  ghost predicate FairSoFar(states: seq<Sched>, n: nat)
    requires n < |states|
  {
    forall i :: 0 <= i <= n ==> FirstComeFirstServed(states[i])
  }

  ghost predicate NoneOvertakes(states: seq<Sched>, ops: seq<Op>, n: nat)
    requires n <= |ops| < |states|
  {
    forall i :: 0 <= i < n ==> !OvertakingOp(states[i], ops[i])
  }

  lemma ExecutionStep(states: seq<Sched>, ops: seq<Op>, i: nat)
    requires Execution(states, ops) && i < |ops|
    ensures Enabled(states[i], ops[i]) && states[i + 1] == Step(states[i], ops[i])
    ensures Inv(states[i]) && WorkConserving(states[i])
  {
    EveryStateSafe(states, ops, i);
    assert Next(states[i], ops[i], states[i + 1]);
  }

  lemma FairLink(states: seq<Sched>, ops: seq<Op>, i: nat)
    requires Execution(states, ops) && i < |ops| && FirstComeFirstServed(states[i])
    ensures FirstComeFirstServed(states[i + 1]) <==> !OvertakingOp(states[i], ops[i])
  {
    ExecutionStep(states, ops, i);
    StepFair(states[i], ops[i]);
  }

  /** Runs of one rule start in order of arrival through the whole execution if and only
      if no submission overtakes. */
  lemma FairUnlessOvertaken(states: seq<Sched>, ops: seq<Op>, n: nat)
    requires Execution(states, ops) && n <= |ops|
    ensures FairSoFar(states, n) <==> NoneOvertakes(states, ops, n)
  {
    FreshSafe(states[0].maxWorkers, states[0].maxPending);
    forall i | 0 <= i < n && FirstComeFirstServed(states[i])
      ensures FirstComeFirstServed(states[i + 1]) <==> !OvertakingOp(states[i], ops[i])
    {
      FairLink(states, ops, i);
    }
    KeptUnlessFlawed(FirstComeFirstServed, OvertakingOp, states, ops, n);
  }

  /** Overtaking needs a submission whose own limit is above that of the waiting head. */
  lemma OvertakingRaisesLimit(s: Sched, k: RuleKey, rule: Concurrency)
    requires WorkConserving(s) && Overtakes(s, k, rule)
    ensures RunLimit(rule, s.maxWorkers) > RunLimit(QueueOf(s, k)[0].rule, s.maxWorkers)
  {
    assert Conserves(s, k);
  }

  // ----- fixed settings ------------------------------------------------------------

  /** Every waiting run carries its rule's one concurrency setting. */
  ghost predicate QueueRules(s: Sched, cfg: RuleKey -> Concurrency) {
    forall k, i :: 0 <= i < |QueueOf(s, k)| ==> QueueOf(s, k)[i].rule == cfg(k)
  }

  ghost predicate FixedSettings(ops: seq<Op>, cfg: RuleKey -> Concurrency) {
    forall i :: 0 <= i < |ops| && ops[i].SubmitOp? ==> ops[i].rule == cfg(ops[i].key)
  }

  /** No rule has more active runs than its setting allows. */
  ghost predicate WithinLimits(s: Sched, cfg: RuleKey -> Concurrency) {
    forall k :: Active(s, k) != {} ==> |Active(s, k)| <= RunLimit(cfg(k), s.maxWorkers)
  }

  ghost predicate Settled(s: Sched, cfg: RuleKey -> Concurrency) { QueueRules(s, cfg) && WithinLimits(s, cfg) }

  /** Queues lost a prefix, active sets some elements. */
  ghost predicate Smaller(s: Sched, t: Sched) {
    && t.maxWorkers == s.maxWorkers
    && (forall k :: Active(t, k) <= Active(s, k))
    && (forall k :: |QueueOf(t, k)| <= |QueueOf(s, k)|
          && QueueOf(t, k) == QueueOf(s, k)[|QueueOf(s, k)| - |QueueOf(t, k)|..])
  }

  lemma SmallerSettled(s: Sched, t: Sched, cfg: RuleKey -> Concurrency)
    requires Smaller(s, t) && Settled(s, cfg)
    ensures Settled(t, cfg)
  {
    forall k, i | 0 <= i < |QueueOf(t, k)| ensures QueueOf(t, k)[i].rule == cfg(k) {
      var d := |QueueOf(s, k)| - |QueueOf(t, k)|;
      assert QueueOf(t, k)[i] == QueueOf(s, k)[d + i];
    }
    forall k | Active(t, k) != {} ensures |Active(t, k)| <= RunLimit(cfg(k), t.maxWorkers) {
      SubsetSize(Active(t, k), Active(s, k));
    }
  }

  lemma BeginWithin(s: Sched, t: Sched, k: RuleKey, id: RunId, cfg: RuleKey -> Concurrency)
    requires WithinLimits(s, cfg) && HasRoom(s, k, cfg(k)) && t.maxWorkers == s.maxWorkers
    requires forall x :: Active(t, x) == if x == k then Active(s, k) + {id} else Active(s, x)
    ensures WithinLimits(t, cfg)
  {
  }

  lemma StartHeadSettled(s: Sched, k: RuleKey, cfg: RuleKey -> Concurrency)
    requires CanDispatch(s, k) && Settled(s, cfg)
    ensures Settled(StartHead(s, k), cfg)
  {
    var t := StartHead(s, k);
    var u := s.(queues := s.queues[k := s.queues[k][1..]]);
    assert QueueOf(s, k)[0].rule == cfg(k);
    assert Smaller(s, u);
    SmallerSettled(s, u, cfg);
    BeginEffect(u, k, s.queues[k][0].id);
    BeginWithin(u, t, k, s.queues[k][0].id, cfg);
  }

  lemma {:induction false} DispatchQueuedSettled(s: Sched, k: RuleKey, cfg: RuleKey -> Concurrency)
    requires Settled(s, cfg)
    ensures Settled(DispatchQueued(s, k), cfg)
    decreases |QueueOf(s, k)|
  {
    if CanDispatch(s, k) {
      StartHeadSettled(s, k, cfg);
      DispatchQueuedSettled(StartHead(s, k), k, cfg);
    }
  }

  lemma PruneSettled(s: Sched, k: RuleKey, cfg: RuleKey -> Concurrency)
    requires Settled(s, cfg)
    ensures Settled(Prune(s, k), cfg)
  {
    assert Smaller(s, Prune(s, k));
    SmallerSettled(s, Prune(s, k), cfg);
  }

  lemma {:induction false} PassSettled(s: Sched, keys: seq<RuleKey>, cfg: RuleKey -> Concurrency)
    requires Settled(s, cfg)
    ensures Settled(Pass(s, keys), cfg)
    decreases |keys|
  {
    if keys != [] {
      DispatchQueuedSettled(s, keys[0], cfg);
      PruneSettled(DispatchQueued(s, keys[0]), keys[0], cfg);
      PassSettled(Prune(DispatchQueued(s, keys[0]), keys[0]), keys[1..], cfg);
    }
  }

  lemma {:induction false} DispatchAvailableSettled(s: Sched, cfg: RuleKey -> Concurrency)
    requires Settled(s, cfg)
    ensures Settled(DispatchAvailable(s), cfg)
    decreases if s.workers < s.maxWorkers then s.maxWorkers - s.workers else 0
  {
    if s.workers < s.maxWorkers {
      PassSettled(s, s.order, cfg);
      if Pass(s, s.order).workers != s.workers {
        DispatchAvailableSettled(Pass(s, s.order), cfg);
      }
    }
  }

  lemma RetireSettled(s: Sched, k: RuleKey, id: RunId, cfg: RuleKey -> Concurrency)
    requires Settled(s, cfg)
    ensures Settled(Retire(s, k, id), cfg)
  {
    var d := Deactivate(s, k, id);
    DeactivateSmaller(s, k, id);
    SmallerSettled(s, d, cfg);
    DispatchQueuedSettled(d, k, cfg);
    PruneSettled(DispatchQueued(d, k), k, cfg);
  }

  lemma DeactivateSmaller(s: Sched, k: RuleKey, id: RunId)
    ensures Smaller(s, Deactivate(s, k, id))
  {
  }

  lemma LeavingSmaller(s: Sched, k: RuleKey, id: RunId)
    requires k in s.executing
    ensures Smaller(s, Release(s, k, id, Finished)) && Smaller(s, Unspawned(s, k, id))
  {
  }

  lemma WorkerDoneSettled(s: Sched, k: RuleKey, id: RunId, cfg: RuleKey -> Concurrency)
    requires k in s.executing && Settled(s, cfg)
    ensures Settled(WorkerDone(s, k, id), cfg) && Settled(SpawnFailed(s, k, id), cfg)
  {
    var r := Release(s, k, id, Finished);
    LeavingSmaller(s, k, id);
    SmallerSettled(s, r, cfg);
    PruneSettled(r, k, cfg);
    DispatchAvailableSettled(Prune(r, k), cfg);
    SmallerSettled(s, Unspawned(s, k, id), cfg);
    DispatchAvailableSettled(Unspawned(s, k, id), cfg);
  }

  lemma PlaceSettled(s: Sched, k: RuleKey, rule: Concurrency, id: RunId, cfg: RuleKey -> Concurrency)
    requires (forall x :: x in s.order ==> x in s.queues) && Settled(s, cfg) && rule == cfg(k)
    ensures Settled(Place(s, k, rule, id), cfg)
  {
    var a := Arrive(s, k, id);
    ArriveEffect(s, k, id);
    assert Settled(a, cfg);
    if HasRoom(s, k, rule) {
      BeginEffect(a, k, id);
      BeginWithin(a, Begin(a, k, id), k, id, cfg);
    } else if |QueueOf(s, k)| >= QueueLimit(rule) || Pending(s.order, s.queues) >= s.maxPending {
      DiscardSmaller(a, id);
      SmallerSettled(a, Discard(a, id), cfg);
    } else {
      EnqueueSettled(a, k, Entry(id, rule), cfg);
    }
  }

  lemma EnqueueSettled(s: Sched, k: RuleKey, e: Entry, cfg: RuleKey -> Concurrency)
    requires Settled(s, cfg) && e.rule == cfg(k)
    ensures Settled(Enqueue(s, k, e), cfg)
  {
    var t := Enqueue(s, k, e);
    assert forall x :: Active(t, x) == Active(s, x);
    forall x, i | 0 <= i < |QueueOf(t, x)| ensures QueueOf(t, x)[i].rule == cfg(x) {
      if i < |QueueOf(s, x)| { assert QueueOf(t, x)[i] == QueueOf(s, x)[i]; }
    }
  }

  lemma DiscardSmaller(s: Sched, id: RunId)
    ensures Smaller(s, Discard(s, id))
  {
  }

  lemma OpenSmaller(s: Sched, k: RuleKey)
    ensures Smaller(s, Open(s, k))
  {
  }

  lemma SupersedeSmaller(s: Sched, k: RuleKey, cancelled: set<RunId>)
    requires k in s.active && k in s.queues
    ensures Smaller(s, Supersede(s, k, cancelled))
  {
    var t := Supersede(s, k, cancelled);
    SmallerTables(s, t, s.active[k] * cancelled, k);
  }

  lemma SmallerTables(s: Sched, t: Sched, gone: set<RunId>, k: RuleKey)
    requires k in s.active && t.active == s.active[k := s.active[k] - gone] && t.maxWorkers == s.maxWorkers
    requires t.queues == s.queues[k := []]
    ensures Smaller(s, t)
  {
  }

  lemma PreparedSettled(s: Sched, k: RuleKey, rule: Concurrency, cancelled: set<RunId>, cfg: RuleKey -> Concurrency)
    requires Settled(s, cfg)
    ensures Settled(Open(s, k), cfg) && Settled(Prepared(s, k, rule, cancelled), cfg)
  {
    OpenSmaller(s, k);
    SmallerSettled(s, Open(s, k), cfg);
    SupersedeSmaller(Open(s, k), k, cancelled);
    SmallerSettled(Open(s, k), Supersede(Open(s, k), k, cancelled), cfg);
  }

  lemma ArriveSmaller(s: Sched, k: RuleKey, id: RunId)
    ensures Smaller(s, Discard(Arrive(s, k, id), id))
  {
  }

  lemma SubmitSettled(
      s: Sched, k: RuleKey, rule: Concurrency, id: RunId, cancelled: set<RunId>, cfg: RuleKey -> Concurrency)
    requires (forall x :: x in s.order <==> x in s.queues) && Settled(s, cfg) && rule == cfg(k)
    ensures Settled(Submit(s, k, rule, id, cancelled), cfg)
  {
    PreparedSettled(s, k, rule, cancelled, cfg);
    if s.closing {
      ArriveSmaller(s, k, id);
      SmallerSettled(s, Discard(Arrive(s, k, id), id), cfg);
    } else if TurnedAway(s, k, rule) {
      ArriveSmaller(Open(s, k), k, id);
      SmallerSettled(Open(s, k), Discard(Arrive(Open(s, k), k, id), id), cfg);
    } else {
      PlaceSettled(Prepared(s, k, rule, cancelled), k, rule, id, cfg);
    }
  }

  lemma WithdrawnSmaller(s: Sched, k: RuleKey)
    ensures Smaller(s, Withdrawn(s, k))
  {
    FewerQueues(s, Withdrawn(s, k));
  }

  lemma ShutdownSmaller(s: Sched)
    ensures Smaller(s, Shutdown(s))
  {
    FewerQueues(s, Shutdown(s));
  }

  lemma FewerQueues(s: Sched, t: Sched)
    requires t.active == s.active && t.maxWorkers == s.maxWorkers
    requires forall k :: k in t.queues ==> k in s.queues && t.queues[k] == s.queues[k]
    ensures Smaller(s, t)
  {
  }

  lemma StepSettled(s: Sched, op: Op, cfg: RuleKey -> Concurrency)
    requires Enabled(s, op) && Settled(s, cfg) && (op.SubmitOp? ==> op.rule == cfg(op.key))
    ensures Settled(Step(s, op), cfg)
  {
    match op
    case SubmitOp(k, rule, id, cancelled) => SubmitSettled(s, k, rule, id, cancelled, cfg);
    case RunEventOp(id) => if id in s.arrivals { RetireSettled(s, s.arrivals[id].key, id, cfg); }
    case RetireOp(k, id) => RetireSettled(s, k, id, cfg);
    case WorkerDoneOp(k, id) => WorkerDoneSettled(s, k, id, cfg);
    case SpawnFailedOp(k, id) => WorkerDoneSettled(s, k, id, cfg);
    case DropRuleOp(k) =>
      WithdrawnSmaller(s, k);
      SmallerSettled(s, Withdrawn(s, k), cfg);
      PruneSettled(Withdrawn(s, k), k, cfg);
    case ShutdownOp => ShutdownSmaller(s); SmallerSettled(s, Shutdown(s), cfg);
  }

  /** A transition in which a submission carries its rule's fixed setting. */
  ghost predicate FixedNext(s: Sched, op: Op, t: Sched, cfg: RuleKey -> Concurrency) {
    Next(s, op, t) && (op.SubmitOp? ==> op.rule == cfg(op.key))
  }

  lemma FixedNextSettled(s: Sched, op: Op, t: Sched, cfg: RuleKey -> Concurrency)
    requires FixedNext(s, op, t, cfg) && Settled(s, cfg)
    ensures Settled(t, cfg)
  {
    StepSettled(s, op, cfg);
  }

  lemma FixedChain(states: seq<Sched>, ops: seq<Op>, cfg: RuleKey -> Concurrency)
    requires Chain(Next, states, ops) && FixedSettings(ops, cfg)
    ensures Chain((s, op, t) => FixedNext(s, op, t, cfg), states, ops)
  {
    forall i | 0 <= i < |ops| ensures FixedNext(states[i], ops[i], states[i + 1], cfg) {
      ChainLink(Next, states, ops, i);
    }
  }

  /** With a fixed setting for each rule, no rule ever has more active runs than it allows. */
  lemma LimitsHold(states: seq<Sched>, ops: seq<Op>, cfg: RuleKey -> Concurrency, i: nat)
    requires Execution(states, ops) && FixedSettings(ops, cfg) && i <= |ops|
    ensures Settled(states[i], cfg)
  {
    var link := (s, op, t) => FixedNext(s, op, t, cfg);
    FixedChain(states, ops, cfg);
    forall s, op, t | link(s, op, t) && Settled(s, cfg) ensures Settled(t, cfg) {
      FixedNextSettled(s, op, t, cfg);
    }
    ChainInvariant(link, s => Settled(s, cfg), states, ops, i);
  }

  lemma FixedNeverOvertakes(s: Sched, op: Op, cfg: RuleKey -> Concurrency)
    requires WorkConserving(s) && QueueRules(s, cfg) && (op.SubmitOp? ==> op.rule == cfg(op.key))
    ensures !OvertakingOp(s, op)
  {
    if OvertakingOp(s, op) {
      OvertakingRaisesLimit(s, op.key, op.rule);
      assert false;
    }
  }

  /** With a fixed setting for each rule, no run ever starts ahead of an earlier run of
      its rule that still waits. */
  lemma FixedSettingsAreFair(states: seq<Sched>, ops: seq<Op>, cfg: RuleKey -> Concurrency, i: nat)
    requires Execution(states, ops) && FixedSettings(ops, cfg) && i <= |ops|
    ensures FirstComeFirstServed(states[i])
  {
    forall j | 0 <= j < |ops| ensures !OvertakingOp(states[j], ops[j]) {
      EveryStateSafe(states, ops, j);
      LimitsHold(states, ops, cfg, j);
      FixedNeverOvertakes(states[j], ops[j], cfg);
    }
    FairUnlessOvertaken(states, ops, |ops|);
  }

  // ----- progress ------------------------------------------------------------------

  /** Nothing waits for nothing: while a run waits, some run is executing whose end will be looked at
      again. */
  lemma WaitingMeansExecuting(states: seq<Sched>, ops: seq<Op>, i: nat, k: RuleKey, w: RunId)
    requires Execution(states, ops) && i <= |ops| && states[i].maxWorkers >= 1 && Waiting(states[i], k, w)
    ensures exists key, id :: Running(states[i], key, id) && (key == k || states[i].workers == states[i].maxWorkers)
  {
    EveryStateSafe(states, ops, i);
    var s := states[i];
    assert InQueue(QueueOf(s, k), w);
    assert Conserves(s, k);
    if s.workers >= s.maxWorkers {
      var id := Pick(s.started - s.fates.Keys);
      assert Running(s, s.arrivals[id].key, id);
    } else {
      var id := Pick(Active(s, k));
      assert id in Exec(s, k) && Running(s, k, id);
    }
  }

  // ----- conservation and shutdown -------------------------------------------------

  /** The runs in some executing set. */
  ghost function ExecutingRuns(s: Sched): set<RunId> {
    set id | id in s.arrivals && id in Exec(s, s.arrivals[id].key)
  }

  /** Every submitted run is in exactly one place: its rule's queue, its rule's executing
      set, or among the runs that are over. The worker count is the number of executing
      runs, within bounds, and the queues are within theirs. */
  lemma RunsConserved(s: Sched, id: RunId)
    requires Inv(s) && id in s.arrivals
    ensures var k := s.arrivals[id].key;
            && (InQueue(QueueOf(s, k), id) || id in Exec(s, k) || id in s.fates)
            && !(InQueue(QueueOf(s, k), id) && id in Exec(s, k))
            && !(InQueue(QueueOf(s, k), id) && id in s.fates)
            && !(id in Exec(s, k) && id in s.fates)
    ensures forall k :: k != s.arrivals[id].key ==>
      !InQueue(QueueOf(s, k), id) && id !in Exec(s, k) && id !in Active(s, k)
    ensures s.workers == |ExecutingRuns(s)| <= s.maxWorkers
    ensures Pending(s.order, s.queues) <= s.maxPending
  {
    var k := s.arrivals[id].key;
    if !(id in s.fates) && !(id in s.started) { assert Waiting(s, k, id); }
    forall x | InQueue(QueueOf(s, x), id) ensures Waiting(s, x, id) {
      var i :| 0 <= i < |QueueOf(s, x)| && QueueOf(s, x)[i].id == id;
    }
    ExecutingAreRunning(s);
  }

  lemma ExecutingAreRunning(s: Sched)
    requires Placement(s) && Ledger(s)
    ensures ExecutingRuns(s) == s.started - s.fates.Keys && Size(ExecutingRuns(s)) == |ExecutingRuns(s)|
  {
    SizeIs(ExecutingRuns(s));
    forall id | id in s.arrivals ensures id in ExecutingRuns(s) <==> id in s.started - s.fates.Keys {
      assert id in Exec(s, s.arrivals[id].key) <==> Running(s, s.arrivals[id].key, id);
    }
  }

  lemma ClosedDispatch(s: Sched, k: RuleKey)
    requires s.closing
    ensures DispatchQueued(s, k) == s
  {
  }

  lemma {:induction false} ClosedPass(s: Sched, keys: seq<RuleKey>)
    requires s.closing
    ensures Pass(s, keys).started == s.started && Pass(s, keys).closing && Pass(s, keys).workers == s.workers
    decreases |keys|
  {
    if keys != [] {
      ClosedDispatch(s, keys[0]);
      var t := Prune(s, keys[0]);
      if t.workers < t.maxWorkers { ClosedPass(t, keys[1..]); }
    }
  }

  lemma ClosedAvailable(s: Sched)
    requires s.closing
    ensures DispatchAvailable(s).started == s.started && DispatchAvailable(s).closing
  {
    ClosedPass(s, s.order);
  }

  lemma ClosedRetire(s: Sched, k: RuleKey, id: RunId)
    requires s.closing
    ensures Retire(s, k, id).started == s.started && Retire(s, k, id).closing
  {
    ClosedDispatch(Deactivate(s, k, id), k);
  }

  /** After shutdown nothing starts, whatever is still submitted or finishes. */
  lemma NothingStartsAfterShutdown(s: Sched, op: Op)
    requires Enabled(s, op) && s.closing
    ensures Step(s, op).started == s.started && Step(s, op).closing
  {
    match op
    case SubmitOp(k, rule, id, cancelled) =>
    case RunEventOp(id) =>
      if id in s.arrivals { ClosedRetire(s, s.arrivals[id].key, id); }
    case RetireOp(k, id) => ClosedRetire(s, k, id);
    case WorkerDoneOp(k, id) => ClosedAvailable(Prune(Release(s, k, id, Finished), k));
    case SpawnFailedOp(k, id) => ClosedAvailable(Unspawned(s, k, id));
    case DropRuleOp(k) =>
    case ShutdownOp =>
  }

  // ----- settings that change ------------------------------------------------------

  const ONE := Declared(Some(Mode.Queue), Some(1), None)
  const TWO := Declared(Some(Mode.Queue), Some(2), None)

  /** Two workers, run "a" of rule "r" executing. */
  ghost function NoneBusy(): Sched {
    Sched(2, 20, 0, map["r" := {}], map[], ["r"], map["r" := []], {}, false, multiset{}, map[], {}, map[])
  }

  ghost function OneBusy(): Sched {
    Sched(2, 20, 1, map["r" := {"a"}], map["r" := {"a"}], ["r"], map["r" := []], {}, false,
          multiset{}, map["a" := Arrival("r", 0)], {"a"}, map[])
  }

  /** As before, with run "b" queued behind a limit of one. */
  ghost function OneWaiting(): Sched {
    OneBusy().(queues := map["r" := [Entry("b", ONE)]], log := multiset{QueuedNote("b")},
               arrivals := map["a" := Arrival("r", 0), "b" := Arrival("r", 1)])
  }

  lemma FirstStarts()
    ensures Submit(Fresh(2, 20), "r", ONE, "a", {}) == OneBusy()
  {
    FirstOpens();
    var t := Begin(Arrive(NoneBusy(), "r", "a"), "r", "a");
    assert HasRoom(NoneBusy(), "r", ONE) && Place(NoneBusy(), "r", ONE, "a") == t;
    assert t.active == map["r" := {"a"}] && t.executing == map["r" := {"a"}];
    assert t.arrivals == map["a" := Arrival("r", 0)];
  }

  lemma FirstOpens()
    ensures Prepared(Fresh(2, 20), "r", ONE, {}) == NoneBusy() && !TurnedAway(Fresh(2, 20), "r", ONE)
  {
    assert Open(Fresh(2, 20), "r").order == ["r"];
    assert Open(Fresh(2, 20), "r").active == map["r" := {}];
  }

  lemma SecondWaits()
    ensures Submit(OneBusy(), "r", ONE, "b", {}) == OneWaiting()
  {
    var s := OneBusy();
    assert Open(s, "r") == s;
    assert |Active(s, "r")| == 1 && QueueOf(s, "r") == [];
    assert Pending(s.order, s.queues) == 0;
    var t := Enqueue(Arrive(s, "r", "b"), "r", Entry("b", ONE));
    assert QueueOf(Arrive(s, "r", "b"), "r") + [Entry("b", ONE)] == [Entry("b", ONE)];
    assert t.arrivals == OneWaiting().arrivals;
    assert t.queues == OneWaiting().queues;
    assert t.log == OneWaiting().log;
    assert !HasRoom(s, "r", ONE);
  }

  lemma ThirdOvertakes()
    ensures Overtakes(OneWaiting(), "r", TWO)
  {
    assert Active(OneWaiting(), "r") == {"a"};
  }

  lemma OverrunSteps()
    ensures Next(Fresh(2, 20), SubmitOp("r", ONE, "a", {}), OneBusy())
    ensures Next(OneBusy(), SubmitOp("r", ONE, "b", {}), OneWaiting())
    ensures Enabled(OneWaiting(), SubmitOp("r", TWO, "c", {}))
  {
    FirstStarts();
    SecondWaits();
  }

  lemma BusyIsSafe()
    ensures Inv(OneBusy()) && WorkConserving(OneBusy()) && FirstComeFirstServed(OneBusy())
  {
    var first := SubmitOp("r", ONE, "a", {});
    FreshSafe(2, 20);
    FirstStarts();
    StepSafe(Fresh(2, 20), first);
    StepFair(Fresh(2, 20), first);
  }

  lemma WaitingIsSafe()
    ensures Inv(OneWaiting()) && WorkConserving(OneWaiting()) && FirstComeFirstServed(OneWaiting())
  {
    var second := SubmitOp("r", ONE, "b", {});
    BusyIsSafe();
    SecondWaits();
    StepSafe(OneBusy(), second);
    StepFair(OneBusy(), second);
  }

  /** A change of settings lets a run overtake: from a fresh scheduler, "a" starts and "b" waits
      under a limit of one, and a submission "c" that declares a limit of two starts before "b". */
  lemma OvertakingHappens()
    ensures Next(Fresh(2, 20), SubmitOp("r", ONE, "a", {}), OneBusy())
    ensures Next(OneBusy(), SubmitOp("r", ONE, "b", {}), OneWaiting())
    ensures FirstComeFirstServed(OneWaiting())
    ensures !FirstComeFirstServed(Submit(OneWaiting(), "r", TWO, "c", {}))
  {
    OverrunSteps();
    ThirdOvertakes();
    WaitingIsSafe();
    SubmitFair(OneWaiting(), "r", TWO, "c", {});
  }
}
