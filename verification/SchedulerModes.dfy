/** What each concurrency mode means: the exact outcome of a submission, read off the setting as it
    was declared, and which lock section moves which run.
 */
module SchedulerModes {
  import opened Common
  import opened SchedulerModel
  import opened SchedulerProofs
  import opened SchedulerSafety
  import opened SchedulerRuns

  // ----- a declared setting --------------------------------------------------------

  /** The rule declares this mode. A rule that declares none is parallel. */
  predicate Declares(raw: Concurrency, mode: Mode) { raw.Declared? && raw.mode == Some(mode) }

  /** How many runs of the rule may be active: what it declares, if that is at least one; otherwise
      every worker for a parallel rule and one for any other. */
  function Slots(raw: Concurrency, maxWorkers: nat): int {
    match raw
    case Declared(Some(mode), Some(n), _) =>
      if n >= 1 then n else if mode == Parallel then maxWorkers else 1
    case Declared(Some(mode), None, _) => if mode == Parallel then maxWorkers else 1
    case _ => maxWorkers
  }

  /** How many runs of the rule may wait. */
  function Places(raw: Concurrency): int {
    match raw
    case Declared(Some(_), _, Some(n)) => if n >= 1 then n else 20
    case _ => 20
  }

  lemma SettingMeans(raw: Concurrency, maxWorkers: nat)
    ensures RunLimit(raw, maxWorkers) == Slots(raw, maxWorkers) && QueueLimit(raw) == Places(raw)
    ensures ConfigOf(raw).mode == Single <==> Declares(raw, Single)
    ensures ConfigOf(raw).mode == Replace <==> Declares(raw, Replace)
  {
  }

  // ----- how many wait -------------------------------------------------------------

  /** The runs that wait, of all rules. */
  ghost function WaitingRuns(s: Sched): set<RunId> {
    set id | id in s.arrivals && Waiting(s, s.arrivals[id].key, id)
  }

  /** The ids queued under these keys. */
  ghost function IdsUnder(order: seq<RuleKey>, queues: map<RuleKey, seq<Entry>>): set<RunId>
    requires forall k :: k in order ==> k in queues
  {
    if order == [] then {} else EntryIds(queues[order[0]]) + IdsUnder(order[1..], queues)
  }

  lemma {:induction false} EntryIdsSize(q: seq<Entry>)
    requires forall i, j :: 0 <= i < j < |q| ==> q[i].id != q[j].id
    ensures |EntryIds(q)| == |q|
  {
    if q != [] {
      EntryIdsSize(q[1..]);
      assert EntryIds(q) == {q[0].id} + EntryIds(q[1..]);
    }
  }

  lemma {:induction false} PendingSize(s: Sched, order: seq<RuleKey>)
    requires Placement(s) && Ordered(s) && Distinct(order) && forall k :: k in order ==> k in s.queues
    ensures Pending(order, s.queues) == |IdsUnder(order, s.queues)|
    ensures forall id :: id in IdsUnder(order, s.queues) <==> exists k :: k in order && Waiting(s, k, id)
  {
    if order != [] {
      PendingSize(s, order[1..]);
      var q := s.queues[order[0]];
      assert q == QueueOf(s, order[0]);
      WaitingIds(s, order[0]);
      forall i, j | 0 <= i < j < |q| ensures q[i].id != q[j].id {
        assert TicketOf(s, QueueOf(s, order[0])[i].id) < TicketOf(s, QueueOf(s, order[0])[j].id);
      }
      EntryIdsSize(q);
      assert EntryIds(q) !! IdsUnder(order[1..], s.queues);
    }
  }

  /** The global bound counts the runs that wait. */
  lemma PendingIsWaiting(s: Sched)
    requires Inv(s)
    ensures Pending(s.order, s.queues) == |WaitingRuns(s)|
  {
    PendingSize(s, s.order);
    WaitingAreUnder(s);
  }

  lemma WaitingAreUnder(s: Sched)
    requires Placement(s) && (forall k :: k in s.order <==> k in s.queues)
    requires forall id :: id in IdsUnder(s.order, s.queues) <==> exists k :: k in s.order && Waiting(s, k, id)
    ensures WaitingRuns(s) == IdsUnder(s.order, s.queues)
  {
    forall id ensures id in WaitingRuns(s) <==> id in IdsUnder(s.order, s.queues) {
      if id in WaitingRuns(s) { assert InQueue(QueueOf(s, s.arrivals[id].key), id); }
    }
  }

  // ----- the outcome of a submission -----------------------------------------------

  /** What a submission leaves of its rule: the active runs and the queue it finds. */
  ghost function KeptActive(s: Sched, k: RuleKey, rule: Concurrency, cancelled: set<RunId>): set<RunId> {
    if Declares(rule, Replace) then Active(s, k) - cancelled else Active(s, k)
  }

  ghost function KeptQueue(s: Sched, k: RuleKey, rule: Concurrency): seq<Entry> {
    if Declares(rule, Replace) then [] else QueueOf(s, k)
  }

  /** A rule in single mode with a run active or waiting takes no other. */
  ghost predicate Refused(s: Sched, k: RuleKey, rule: Concurrency) {
    Declares(rule, Single) && (Active(s, k) != {} || QueueOf(s, k) != [])
  }

  ghost predicate StartsNow(s: Sched, k: RuleKey, rule: Concurrency, cancelled: set<RunId>) {
    && !s.closing && !Refused(s, k, rule)
    && |KeptActive(s, k, rule, cancelled)| < Slots(rule, s.maxWorkers) && s.workers < s.maxWorkers
  }

  ghost predicate WaitsNow(s: Sched, k: RuleKey, rule: Concurrency, cancelled: set<RunId>) {
    && !s.closing && !Refused(s, k, rule) && !StartsNow(s, k, rule, cancelled)
    && |KeptQueue(s, k, rule)| < Places(rule)
    && |WaitingRuns(s)| - |QueueOf(s, k)| + |KeptQueue(s, k, rule)| < s.maxPending
  }

  /** The run itself: started, waiting as the last of its queue, or dropped. */
  ghost predicate Landed(s: Sched, t: Sched, k: RuleKey, e: Entry, starts: bool, waits: bool) {
    && (e.id in t.started <==> starts) && (Waiting(t, k, e.id) <==> waits)
    && (e.id in t.fates <==> !starts && !waits) && (e.id in t.fates ==> t.fates[e.id] == Dropped)
    && t.workers == s.workers + (if starts then 1 else 0)
    && t.started == s.started + (if starts then {e.id} else {})
  }

  /** The tables: those of the rule as said, every other rule's untouched. */
  ghost predicate TablesAre(s: Sched, t: Sched, k: RuleKey, active: set<RunId>, queue: seq<Entry>) {
    && Active(t, k) == active && QueueOf(t, k) == queue
    && forall x :: x != k ==> Active(t, x) == Active(s, x) && QueueOf(t, x) == QueueOf(s, x)
  }

  /** A run that was never submitted. */
  ghost predicate Unknown(s: Sched, id: RunId) { id !in s.arrivals && id !in s.started && id !in s.fates }

  lemma SupersedeTables(s: Sched, k: RuleKey, cancelled: set<RunId>)
    requires k in s.active && k in s.queues
    ensures TablesAre(s, Supersede(s, k, cancelled), k, Active(s, k) - cancelled, [])
  {
    assert Active(s, k) - Active(s, k) * cancelled == Active(s, k) - cancelled;
  }

  lemma SupersedeLeaves(s: Sched, k: RuleKey, cancelled: set<RunId>)
    requires k in s.active && k in s.queues && Distinct(s.order) && (forall x :: x in s.order <==> x in s.queues)
    ensures var p := Supersede(s, k, cancelled);
            && p.workers == s.workers && p.maxWorkers == s.maxWorkers && p.maxPending == s.maxPending
            && p.started == s.started && p.arrivals == s.arrivals && p.closing == s.closing
            && Pending(p.order, p.queues) == Pending(s.order, s.queues) - |QueueOf(s, k)|
  {
    PendingUpdate(s.order, s.queues, k, []);
  }

  /** The state in which a submission is placed. */
  ghost predicate Ready(s: Sched, p: Sched, k: RuleKey, rule: Concurrency, cancelled: set<RunId>) {
    && TablesAre(s, p, k, KeptActive(s, k, rule, cancelled), KeptQueue(s, k, rule))
    && (forall x :: x in p.order ==> x in p.queues)
    && p.workers == s.workers && p.maxWorkers == s.maxWorkers && p.maxPending == s.maxPending
    && p.started == s.started && p.arrivals == s.arrivals
    && Pending(p.order, p.queues) == |WaitingRuns(s)| - |QueueOf(s, k)| + |KeptQueue(s, k, rule)|
  }

  lemma PreparedReady(s: Sched, k: RuleKey, rule: Concurrency, cancelled: set<RunId>)
    requires Inv(s) && !s.closing
    ensures Ready(s, Prepared(s, k, rule, cancelled), k, rule, cancelled)
  {
    SettingMeans(rule, s.maxWorkers);
    PendingIsWaiting(s);
    OpenTables(s, k);
    if Declares(rule, Replace) {
      SupersedeTables(Open(s, k), k, cancelled);
      SupersedeLeaves(Open(s, k), k, cancelled);
    }
    ReadyFrom(s, Open(s, k), Prepared(s, k, rule, cancelled), k, rule, cancelled);
  }

  lemma ReadyFrom(s: Sched, o: Sched, p: Sched, k: RuleKey, rule: Concurrency, cancelled: set<RunId>)
    requires SameRuns(s, o) && (forall x :: x in o.order ==> x in o.queues)
    requires Pending(o.order, o.queues) == |WaitingRuns(s)|
    requires if Declares(rule, Replace) then
               && TablesAre(o, p, k, Active(o, k) - cancelled, []) && (forall x :: x in p.order ==> x in p.queues)
               && p.workers == o.workers && p.maxWorkers == o.maxWorkers && p.maxPending == o.maxPending
               && p.started == o.started && p.arrivals == o.arrivals
               && Pending(p.order, p.queues) == Pending(o.order, o.queues) - |QueueOf(o, k)|
             else p == o
    ensures Ready(s, p, k, rule, cancelled)
  {
  }

  lemma StartedLands(p: Sched, t: Sched, k: RuleKey, e: Entry)
    requires Unknown(p, e.id) && StartedRun(p, t, k, e.id) && forall x :: QueueOf(t, x) == QueueOf(p, x)
    ensures PlacedRight(p, t, k, e, true, false)
  {
    assert QueueOf(p, k) + [] == QueueOf(p, k);
  }

  lemma EnteredLands(p: Sched, t: Sched, k: RuleKey, e: Entry, waits: bool)
    requires Unknown(p, e.id) && Entered(p, t, k, e.id)
    requires forall x :: QueueOf(t, x) == if waits && x == k then QueueOf(p, k) + [e] else QueueOf(p, x)
    requires if waits then e.id !in t.fates else e.id in t.fates && t.fates[e.id] == Dropped
    ensures PlacedRight(p, t, k, e, false, waits)
  {
    assert Active(p, k) + {} == Active(p, k) && QueueOf(p, k) + [] == QueueOf(p, k);
    assert Waiting(t, k, e.id) <==> waits;
  }

  lemma StartLands(p: Sched, k: RuleKey, e: Entry)
    requires Unknown(p, e.id)
    ensures PlacedRight(p, Begin(Arrive(p, k, e.id), k, e.id), k, e, true, false)
  {
    AdmitEffect(p, k, e.id);
    StartedLands(p, Begin(Arrive(p, k, e.id), k, e.id), k, e);
  }

  lemma DropLands(p: Sched, k: RuleKey, e: Entry)
    requires Unknown(p, e.id)
    ensures PlacedRight(p, Discard(Arrive(p, k, e.id), e.id), k, e, false, false)
  {
    DiscardEffect(p, k, e.id);
    DiscardFate(Arrive(p, k, e.id), e.id);
    EnteredLands(p, Discard(Arrive(p, k, e.id), e.id), k, e, false);
  }

  lemma DiscardFate(p: Sched, id: RunId)
    ensures id in Discard(p, id).fates && Discard(p, id).fates[id] == Dropped
  {
  }

  lemma WaitLands(p: Sched, k: RuleKey, e: Entry)
    requires Unknown(p, e.id)
    ensures PlacedRight(p, Enqueue(Arrive(p, k, e.id), k, e), k, e, false, true)
  {
    EnqueueEffect(p, k, e);
    EnqueueFates(p, k, e);
    EnteredLands(p, Enqueue(Arrive(p, k, e.id), k, e), k, e, true);
  }

  lemma EnqueueFates(p: Sched, k: RuleKey, e: Entry)
    ensures Enqueue(Arrive(p, k, e.id), k, e).fates == p.fates
  {
  }

  ghost predicate PlacedRight(p: Sched, t: Sched, k: RuleKey, e: Entry, starts: bool, waits: bool) {
    && Landed(p, t, k, e, starts, waits)
    && TablesAre(p, t, k, Active(p, k) + (if starts then {e.id} else {}), QueueOf(p, k) + (if waits then [e] else []))
  }

  lemma PlaceLands(p: Sched, k: RuleKey, rule: Concurrency, id: RunId)
    requires Unknown(p, id) && (forall x :: x in p.order ==> x in p.queues)
    ensures var starts := |Active(p, k)| < Slots(rule, p.maxWorkers) && p.workers < p.maxWorkers;
            var waits := !starts && |QueueOf(p, k)| < Places(rule) && Pending(p.order, p.queues) < p.maxPending;
            PlacedRight(p, Place(p, k, rule, id), k, Entry(id, rule), starts, waits)
  {
    SettingMeans(rule, p.maxWorkers);
    StartLands(p, k, Entry(id, rule));
    DropLands(p, k, Entry(id, rule));
    WaitLands(p, k, Entry(id, rule));
  }

  /** The outcome in terms of what the submission found. */
  ghost predicate OutcomeIs(s: Sched, t: Sched, k: RuleKey, rule: Concurrency, id: RunId, cancelled: set<RunId>) {
    var (starts, waits) := (StartsNow(s, k, rule, cancelled), WaitsNow(s, k, rule, cancelled));
    && Landed(s, t, k, Entry(id, rule), starts, waits)
    && (if s.closing || Refused(s, k, rule) then TablesAre(s, t, k, Active(s, k), QueueOf(s, k))
        else TablesAre(s, t, k, KeptActive(s, k, rule, cancelled) + (if starts then {id} else {}),
                       KeptQueue(s, k, rule) + (if waits then [Entry(id, rule)] else [])))
  }

  lemma OutcomeFromPlaced(s: Sched, p: Sched, t: Sched, k: RuleKey, rule: Concurrency, id: RunId, cancelled: set<RunId>)
    requires !s.closing && !Refused(s, k, rule) && Ready(s, p, k, rule, cancelled)
    requires var starts := |Active(p, k)| < Slots(rule, p.maxWorkers) && p.workers < p.maxWorkers;
             var waits := !starts && |QueueOf(p, k)| < Places(rule) && Pending(p.order, p.queues) < p.maxPending;
             PlacedRight(p, t, k, Entry(id, rule), starts, waits)
    ensures OutcomeIs(s, t, k, rule, id, cancelled)
  {
  }

  lemma OutcomeFromDropped(s: Sched, o: Sched, k: RuleKey, rule: Concurrency, id: RunId, cancelled: set<RunId>)
    requires s.closing || Refused(s, k, rule)
    requires SameRuns(s, o) && Unknown(o, id)
    ensures OutcomeIs(s, Discard(Arrive(o, k, id), id), k, rule, id, cancelled)
  {
    DropLands(o, k, Entry(id, rule));
    assert QueueOf(o, k) + [] == QueueOf(s, k) && Active(o, k) + {} == Active(s, k);
  }

  /** The exact outcome of a submission in every mode: where the run goes, what is left of its rule,
      and that no other rule is touched. */
  lemma SubmitOutcome(s: Sched, k: RuleKey, rule: Concurrency, id: RunId, cancelled: set<RunId>)
    requires Inv(s) && id !in s.arrivals
    ensures OutcomeIs(s, Submit(s, k, rule, id, cancelled), k, rule, id, cancelled)
  {
    SettingMeans(rule, s.maxWorkers);
    if s.closing {
      OutcomeFromDropped(s, s, k, rule, id, cancelled);
    } else if TurnedAway(s, k, rule) {
      OpenTables(s, k);
      OutcomeFromDropped(s, Open(s, k), k, rule, id, cancelled);
    } else {
      var p := Prepared(s, k, rule, cancelled);
      PreparedReady(s, k, rule, cancelled);
      PreparedUnknown(s, k, rule, cancelled, id);
      PlaceLands(p, k, rule, id);
      OutcomeFromPlaced(s, p, Place(p, k, rule, id), k, rule, id, cancelled);
    }
  }

  lemma PreparedUnknown(s: Sched, k: RuleKey, rule: Concurrency, cancelled: set<RunId>, id: RunId)
    requires Inv(s) && !s.closing && id !in s.arrivals
    ensures Unknown(Prepared(s, k, rule, cancelled), id)
  {
    PreparedKeeps(s, k, rule, cancelled);
    FreshRun(Prepared(s, k, rule, cancelled), id);
  }

  // ----- what dispatching moves ----------------------------------------------------

  /** Active and executing sets only gain runs that had not started, as many as the queues lose, and no
      run ends. */
  ghost predicate Grows(s: Sched, t: Sched) {
    && (forall x :: Active(s, x) <= Active(t, x) && Exec(s, x) <= Exec(t, x))
    && (forall x, r :: r in Active(t, x) && r in s.started ==> r in Active(s, x))
    && (forall x, r :: r in Exec(t, x) && r in s.started ==> r in Exec(s, x))
    && (forall x :: |Active(t, x)| + |QueueOf(t, x)| <= |Active(s, x)| + |QueueOf(s, x)|)
    && s.started <= t.started && t.fates == s.fates && t.arrivals == s.arrivals
  }

  lemma GrowsTransitive(s: Sched, t: Sched, u: Sched)
    requires Grows(s, t) && Grows(t, u)
    ensures Grows(s, u)
  {
  }

  lemma SameGrows(s: Sched, t: Sched)
    requires SameRuns(s, t)
    ensures Grows(s, t)
  {
  }

  lemma StartedGrows(s: Sched, t: Sched, k: RuleKey, id: RunId)
    requires StartedRun(s, t, k, id) && t.arrivals == s.arrivals
    requires forall x :: |QueueOf(t, x)| == |QueueOf(s, x)| - (if x == k then 1 else 0)
    ensures Grows(s, t)
  {
    forall x ensures |Active(t, x)| <= |Active(s, x)| + (if x == k then 1 else 0) {}
  }

  lemma {:induction false} DispatchQueuedGrows(s: Sched, k: RuleKey)
    requires Inv(s)
    ensures Grows(s, DispatchQueued(s, k))
    decreases |QueueOf(s, k)|
  {
    SameGrows(s, s);
    if CanDispatch(s, k) {
      var t := StartHead(s, k);
      HeadWaits(s, k);
      StartHeadEffect(s, k);
      StartHeadKeeps(s, k);
      StartedGrows(s, t, k, s.queues[k][0].id);
      DispatchQueuedGrows(t, k);
      GrowsTransitive(s, t, DispatchQueued(t, k));
    }
  }

  lemma DispatchOneGrows(s: Sched, k: RuleKey)
    requires Inv(s)
    ensures Inv(Prune(DispatchQueued(s, k), k)) && Grows(s, Prune(DispatchQueued(s, k), k))
  {
    var u := DispatchQueued(s, k);
    DispatchQueuedKeeps(s, k);
    DispatchQueuedGrows(s, k);
    PruneKeeps(u, k);
    SameGrows(u, Prune(u, k));
    GrowsTransitive(s, u, Prune(u, k));
  }

  lemma {:induction false} PassGrows(s: Sched, keys: seq<RuleKey>)
    requires Inv(s)
    ensures Grows(s, Pass(s, keys))
    decreases |keys|
  {
    SameGrows(s, s);
    if keys != [] {
      var t := Prune(DispatchQueued(s, keys[0]), keys[0]);
      DispatchOneGrows(s, keys[0]);
      if t.workers < t.maxWorkers {
        PassGrows(t, keys[1..]);
        GrowsTransitive(s, t, Pass(t, keys[1..]));
      }
    }
  }

  lemma {:induction false} DispatchAvailableGrows(s: Sched)
    requires Inv(s)
    ensures Grows(s, DispatchAvailable(s))
    decreases if s.workers < s.maxWorkers then s.maxWorkers - s.workers else 0
  {
    SameGrows(s, s);
    if s.workers < s.maxWorkers {
      var t := Pass(s, s.order);
      PassKeeps(s, s.order);
      PassGrows(s, s.order);
      if t.workers != s.workers {
        DispatchAvailableGrows(t);
        GrowsTransitive(s, t, DispatchAvailable(t));
      }
    }
  }

  // ----- which lock section moves which run ----------------------------------------

  /** The lock section ends the activity of this run of rule `x`: its own final event, its worker's
      word, a worker that could not be created, or a replacing submission that cancelled it. */
  ghost predicate EndsActivity(s: Sched, op: Op, x: RuleKey, r: RunId) {
    match op
    case RunEventOp(id) => id == r
    case RetireOp(k, id) => k == x && id == r
    case SpawnFailedOp(k, id) => k == x && id == r
    case SubmitOp(k, rule, _, cancelled) => k == x && !s.closing && Declares(rule, Replace) && r in cancelled
    case _ => false
  }

  /** Its worker is done, or was never created. */
  ghost predicate EndsExecution(op: Op, x: RuleKey, r: RunId) {
    op == WorkerDoneOp(x, r) || op == SpawnFailedOp(x, r)
  }

  /** The lock section empties the rule's queue: a replacing submission, the rule's removal, or
      shutdown. */
  ghost predicate EmptiesQueue(s: Sched, op: Op, x: RuleKey) {
    match op
    case SubmitOp(k, rule, _, _) => k == x && !s.closing && Declares(rule, Replace)
    case DropRuleOp(k) => k == x
    case ShutdownOp => true
    case _ => false
  }

  ghost function FateOf(op: Op): Fate {
    match op
    case WorkerDoneOp(_, _) => Finished
    case SubmitOp(_, _, _, _) => Replaced
    case _ => Dropped
  }

  /** A run known before: it leaves the active set, the executing set or the queue exactly as the
      section says, and its fate is settled exactly then. */
  ghost predicate Moves(s: Sched, op: Op, t: Sched, x: RuleKey, r: RunId) {
    && (r in Active(s, x) ==> (r in Active(t, x) <==> !EndsActivity(s, op, x, r)))
    && (r in Exec(s, x) ==> (r in Exec(t, x) <==> !EndsExecution(op, x, r)))
    && (r in Exec(s, x) ==> (r in t.fates <==> EndsExecution(op, x, r)))
    && (Waiting(s, x, r) ==> (r in t.fates <==> EmptiesQueue(s, op, x)))
    && (Waiting(s, x, r) && !EmptiesQueue(s, op, x) ==> Waiting(t, x, r) || Running(t, x, r))
    && (r in t.fates && r !in s.fates ==> t.fates[r] == FateOf(op))
    && (r in s.fates ==> r in t.fates && t.fates[r] == s.fates[r])
  }

  /** Dispatching afterwards changes none of it. */
  lemma MovesThrough(s: Sched, op: Op, u: Sched, t: Sched, x: RuleKey, r: RunId)
    requires Placement(s) && Moves(s, op, u, x, r) && Grows(u, t) && s.started <= u.started
    ensures Moves(s, op, t, x, r)
  {
    assert r in Active(s, x) ==> r in Exec(s, x);
    assert r in Exec(s, x) ==> Running(s, x, r);
  }

  lemma DeactivateMoves(s: Sched, op: Op, k: RuleKey, id: RunId, x: RuleKey, r: RunId)
    requires Placement(s) && (op == RetireOp(k, id) || (op == RunEventOp(id) && id in Active(s, k)))
    ensures Moves(s, op, Deactivate(s, k, id), x, r)
  {
    assert r in Active(s, x) && id in Active(s, k) ==> Running(s, x, r) && Running(s, k, id);
    assert r in Exec(s, x) ==> Running(s, x, r);
  }

  lemma RetireMoves(s: Sched, op: Op, k: RuleKey, id: RunId, x: RuleKey, r: RunId)
    requires Inv(s) && (op == RetireOp(k, id) || (op == RunEventOp(id) && id in Active(s, k)))
    ensures Moves(s, op, Retire(s, k, id), x, r)
  {
    var d := Deactivate(s, k, id);
    DeactivateMoves(s, op, k, id, x, r);
    DeactivateKeeps(s, k, id);
    DispatchOneGrows(d, k);
    MovesThrough(s, op, d, Retire(s, k, id), x, r);
  }

  lemma IdleMoves(s: Sched, id: RunId, x: RuleKey, r: RunId)
    requires Placement(s) && (id in s.arrivals ==> id !in Active(s, s.arrivals[id].key))
    ensures Moves(s, RunEventOp(id), s, x, r)
  {
    assert r in Active(s, x) ==> Running(s, x, r);
    assert r in Exec(s, x) ==> Running(s, x, r);
  }

  lemma ReleaseMoves(s: Sched, k: RuleKey, id: RunId, x: RuleKey, r: RunId)
    requires Placement(s) && id in Exec(s, k)
    ensures id !in Active(s, k) ==> Moves(s, WorkerDoneOp(k, id), Release(s, k, id, Finished), x, r)
    ensures Moves(s, SpawnFailedOp(k, id), Unspawned(s, k, id), x, r)
  {
    assert Running(s, k, id);
    assert r in Active(s, x) ==> Running(s, x, r);
    assert r in Exec(s, x) ==> Running(s, x, r);
  }

  lemma WorkerMoves(s: Sched, k: RuleKey, id: RunId, x: RuleKey, r: RunId)
    requires Inv(s) && id in Exec(s, k)
    ensures id !in Active(s, k) ==> Moves(s, WorkerDoneOp(k, id), WorkerDone(s, k, id), x, r)
    ensures Moves(s, SpawnFailedOp(k, id), SpawnFailed(s, k, id), x, r)
  {
    ReleaseMoves(s, k, id, x, r);
    IsRunning(s, k, id);
    UnspawnedEffect(s, k, id);
    LeftLogged(s, Unspawned(s, k, id), k, id, Dropped);
    LeftKeeps(s, Unspawned(s, k, id), k, id, Dropped);
    DispatchAvailableGrows(Unspawned(s, k, id));
    MovesThrough(s, SpawnFailedOp(k, id), Unspawned(s, k, id), SpawnFailed(s, k, id), x, r);
    if id !in Active(s, k) { DoneMoves(s, k, id, x, r); }
  }

  lemma DoneMoves(s: Sched, k: RuleKey, id: RunId, x: RuleKey, r: RunId)
    requires Inv(s) && id in Exec(s, k) && id !in Active(s, k)
    ensures Moves(s, WorkerDoneOp(k, id), WorkerDone(s, k, id), x, r)
  {
    var u := Release(s, k, id, Finished);
    ReleaseMoves(s, k, id, x, r);
    IsRunning(s, k, id);
    ReleaseEffect(s, k, id);
    LeftLogged(s, u, k, id, Finished);
    LeftKeeps(s, u, k, id, Finished);
    PruneKeeps(u, k);
    SameGrows(u, Prune(u, k));
    DispatchAvailableGrows(Prune(u, k));
    GrowsTransitive(u, Prune(u, k), WorkerDone(s, k, id));
    MovesThrough(s, WorkerDoneOp(k, id), u, WorkerDone(s, k, id), x, r);
  }

  /** Queues emptied, their runs marked, nothing else moved. */
  lemma FlushedRuns(s: Sched, op: Op, t: Sched, keys: set<RuleKey>, ids: set<RunId>, x: RuleKey, r: RunId)
    requires Placement(s) && (op.DropRuleOp? || op.ShutdownOp?)
    requires t.fates == MarkAll(s.fates, ids, Dropped) && t.started == s.started && t.arrivals == s.arrivals
    requires Active(t, x) == Active(s, x) && Exec(t, x) == Exec(s, x)
    requires forall y :: y in ids <==> exists k :: k in keys && Waiting(s, k, y)
    requires Waiting(s, x, r) ==> (EmptiesQueue(s, op, x) <==> x in keys)
    ensures Moves(s, op, t, x, r)
  {
    assert r in Exec(s, x) ==> Running(s, x, r);
    assert Waiting(s, x, r) ==> InQueue(QueueOf(s, x), r);
  }

  lemma WithdrawnRuns(s: Sched, k: RuleKey, x: RuleKey)
    ensures var t := Withdrawn(s, k);
            && t.fates == MarkAll(s.fates, EntryIds(QueueOf(s, k)), Dropped)
            && t.started == s.started && t.arrivals == s.arrivals
            && Active(t, x) == Active(s, x) && Exec(t, x) == Exec(s, x)
  {
  }

  lemma WithdrawnMoves(s: Sched, k: RuleKey, x: RuleKey, r: RunId)
    requires Placement(s)
    ensures Moves(s, DropRuleOp(k), Withdrawn(s, k), x, r)
  {
    var u := Withdrawn(s, k);
    WaitingIds(s, k);
    OnlyUnder(s, k, EntryIds(QueueOf(s, k)));
    WithdrawnRuns(s, k, x);
    FlushedRuns(s, DropRuleOp(k), u, {k}, EntryIds(QueueOf(s, k)), x, r);
  }

  lemma PruneGrows(u: Sched, k: RuleKey)
    requires k !in u.queues
    ensures Grows(u, Prune(u, k))
  {
    PruneSame(u, k);
    SameGrows(u, Prune(u, k));
  }

  lemma DropMoves(s: Sched, k: RuleKey, x: RuleKey, r: RunId)
    requires Placement(s)
    ensures Moves(s, DropRuleOp(k), DropRule(s, k), x, r)
  {
    var u := Withdrawn(s, k);
    WithdrawnMoves(s, k, x, r);
    PruneGrows(u, k);
    MovesThrough(s, DropRuleOp(k), u, Prune(u, k), x, r);
  }

  lemma OnlyUnder(s: Sched, k: RuleKey, ids: set<RunId>)
    requires forall y :: y in ids <==> Waiting(s, k, y)
    ensures forall y :: y in ids <==> exists z :: z in {k} && Waiting(s, z, y)
  {
    forall y ensures y in ids <==> exists z :: z in {k} && Waiting(s, z, y) {
      if y in ids { assert k in {k} && Waiting(s, k, y); }
    }
  }

  lemma QueuedAreWaiting(s: Sched)
    requires Placement(s)
    ensures forall y :: y in QueuedIds(s) <==> exists k :: k in s.queues.Keys && Waiting(s, k, y)
  {
    forall y ensures y in QueuedIds(s) <==> exists k :: k in s.queues.Keys && Waiting(s, k, y) {
      if k, e :| k in s.queues && e in s.queues[k] && e.id == y {
        WaitingIds(s, k);
        assert e in QueueOf(s, k);
      }
      if k :| k in s.queues.Keys && Waiting(s, k, y) {
        WaitingIds(s, k);
        var e :| e in QueueOf(s, k) && e.id == y;
      }
    }
  }

  lemma ShutdownRuns(s: Sched, x: RuleKey)
    ensures var t := Shutdown(s);
            && t.fates == MarkAll(s.fates, QueuedIds(s), Dropped)
            && t.started == s.started && t.arrivals == s.arrivals
            && Active(t, x) == Active(s, x) && Exec(t, x) == Exec(s, x)
  {
  }

  lemma ShutdownMoves(s: Sched, x: RuleKey, r: RunId)
    requires Placement(s)
    ensures Moves(s, ShutdownOp, Shutdown(s), x, r)
  {
    QueuedAreWaiting(s);
    ShutdownRuns(s, x);
    assert Waiting(s, x, r) ==> InQueue(QueueOf(s, x), r);
    FlushedRuns(s, ShutdownOp, Shutdown(s), s.queues.Keys, QueuedIds(s), x, r);
  }

  /** A run that was known before a submission, as far as the submission's rule is prepared for it. */
  lemma PreparedMoves(s: Sched, op: Op, x: RuleKey, r: RunId)
    requires Inv(s) && op.SubmitOp? && !s.closing
    ensures Moves(s, op, Prepared(s, op.key, op.rule, op.cancelled), x, r)
  {
    SettingMeans(op.rule, s.maxWorkers);
    OpenTables(s, op.key);
    WaitingIds(s, op.key);
    if Declares(op.rule, Replace) {
      SupersedeMoves(s, Open(s, op.key), op, x, r);
    } else {
      StillMoves(s, Open(s, op.key), op, x, r);
    }
  }

  /** Nothing but the new run moves in a submission that replaces nothing. */
  lemma StillMoves(s: Sched, o: Sched, op: Op, x: RuleKey, r: RunId)
    requires Placement(s) && SameRuns(s, o) && op.SubmitOp? && (s.closing || !Declares(op.rule, Replace))
    ensures Moves(s, op, o, x, r)
  {
    assert r in Exec(s, x) ==> Running(s, x, r);
  }

  lemma SupersedeMoves(s: Sched, o: Sched, op: Op, x: RuleKey, r: RunId)
    requires Placement(s) && SameRuns(s, o) && op.SubmitOp? && !s.closing && Declares(op.rule, Replace)
    requires op.key in o.active && op.key in o.queues
    requires forall y :: y in EntryIds(QueueOf(s, op.key)) <==> Waiting(s, op.key, y)
    ensures Moves(s, op, Supersede(o, op.key, op.cancelled), x, r)
  {
    assert o.queues[op.key] == QueueOf(s, op.key) && o.active[op.key] == Active(s, op.key);
    assert r in Exec(s, x) ==> Running(s, x, r);
  }

  /** The run is where it was. */
  ghost predicate Undisturbed(u: Sched, t: Sched, x: RuleKey, r: RunId) {
    && (r in Active(t, x) <==> r in Active(u, x)) && (r in Exec(t, x) <==> r in Exec(u, x))
    && (r in t.fates <==> r in u.fates) && (r in u.fates && r in t.fates ==> t.fates[r] == u.fates[r])
    && Waiting(t, x, r) == Waiting(u, x, r) && Running(t, x, r) == Running(u, x, r)
  }

  lemma ArriveDisturbs(u: Sched, k: RuleKey, id: RunId, x: RuleKey, r: RunId)
    requires r != id
    ensures Undisturbed(u, Arrive(u, k, id), x, r)
  {
  }

  lemma BeginDisturbs(u: Sched, k: RuleKey, id: RunId, x: RuleKey, r: RunId)
    requires r != id
    ensures Undisturbed(u, Begin(u, k, id), x, r)
  {
  }

  lemma OthersDisturb(u: Sched, k: RuleKey, e: Entry, x: RuleKey, r: RunId)
    requires r != e.id
    ensures Undisturbed(u, Discard(u, e.id), x, r) && Undisturbed(u, Enqueue(u, k, e), x, r)
  {
  }

  lemma UndisturbedMoves(s: Sched, op: Op, u: Sched, t: Sched, x: RuleKey, r: RunId)
    requires Moves(s, op, u, x, r) && Undisturbed(u, t, x, r)
    ensures Moves(s, op, t, x, r)
  {
  }

  /** What placing the new run does to the others. */
  lemma PlacedMoves(s: Sched, op: Op, u: Sched, x: RuleKey, r: RunId)
    requires op.SubmitOp? && Moves(s, op, u, x, r) && r != op.id && (forall y :: y in u.order ==> y in u.queues)
    ensures Moves(s, op, Place(u, op.key, op.rule, op.id), x, r)
    ensures Moves(s, op, Discard(Arrive(u, op.key, op.id), op.id), x, r)
  {
    var v := Arrive(u, op.key, op.id);
    ArriveDisturbs(u, op.key, op.id, x, r);
    UndisturbedMoves(s, op, u, v, x, r);
    BeginDisturbs(v, op.key, op.id, x, r);
    UndisturbedMoves(s, op, v, Begin(v, op.key, op.id), x, r);
    OthersDisturb(v, op.key, Entry(op.id, op.rule), x, r);
    UndisturbedMoves(s, op, v, Discard(v, op.id), x, r);
    UndisturbedMoves(s, op, v, Enqueue(v, op.key, Entry(op.id, op.rule)), x, r);
  }

  lemma SubmitMoves(s: Sched, op: Op, x: RuleKey, r: RunId)
    requires Inv(s) && op.SubmitOp? && op.id !in s.arrivals && r in s.arrivals
    ensures Moves(s, op, Submit(s, op.key, op.rule, op.id, op.cancelled), x, r)
  {
    SettingMeans(op.rule, s.maxWorkers);
    if s.closing {
      StillMoves(s, s, op, x, r);
      PlacedMoves(s, op, s, x, r);
    } else if TurnedAway(s, op.key, op.rule) {
      OpenTables(s, op.key);
      StillMoves(s, Open(s, op.key), op, x, r);
      PlacedMoves(s, op, Open(s, op.key), x, r);
    } else {
      PreparedKeeps(s, op.key, op.rule, op.cancelled);
      PreparedMoves(s, op, x, r);
      PlacedMoves(s, op, Prepared(s, op.key, op.rule, op.cancelled), x, r);
    }
  }

  /** In every lock section, exactly which runs leave the active set, the executing set and the queue,
      and with which fate. */
  lemma StepMoves(s: Sched, op: Op, x: RuleKey, r: RunId)
    requires Inv(s) && Enabled(s, op) && r in s.arrivals
    ensures Moves(s, op, Step(s, op), x, r)
  {
    match op
    case SubmitOp(_, _, _, _) => SubmitMoves(s, op, x, r);
    case RunEventOp(id) =>
      if id in s.arrivals && id in Active(s, s.arrivals[id].key) { RetireMoves(s, op, s.arrivals[id].key, id, x, r); }
      else { IdleMoves(s, id, x, r); }
    case RetireOp(k, id) => RetireMoves(s, op, k, id, x, r);
    case WorkerDoneOp(k, id) => WorkerMoves(s, k, id, x, r);
    case SpawnFailedOp(k, id) => WorkerMoves(s, k, id, x, r);
    case DropRuleOp(k) => DropMoves(s, k, x, r);
    case ShutdownOp => ShutdownMoves(s, x, r);
  }

  // ----- single mode over whole runs -----------------------------------------------

  /** Every submission for the rule declares single mode. */
  ghost predicate SingleRule(ops: seq<Op>, k: RuleKey) {
    forall i :: 0 <= i < |ops| && ops[i].SubmitOp? && ops[i].key == k ==> Declares(ops[i].rule, Single)
  }

  ghost predicate AtMostOne(s: Sched, k: RuleKey) { |Active(s, k)| + |QueueOf(s, k)| <= 1 }

  /** Nothing active or waiting of the rule is added but by a submission. */
  lemma LoadShrinks(s: Sched, op: Op, k: RuleKey)
    requires Inv(s) && Enabled(s, op) && !op.SubmitOp?
    ensures var t := Step(s, op); |Active(t, k)| + |QueueOf(t, k)| <= |Active(s, k)| + |QueueOf(s, k)|
  {
    match op
    case RunEventOp(id) => if id in s.arrivals { RetireLoad(s, s.arrivals[id].key, id, k); }
    case RetireOp(x, id) => RetireLoad(s, x, id, k);
    case WorkerDoneOp(x, id) => WorkerLoad(s, x, id, k);
    case SpawnFailedOp(x, id) => WorkerLoad(s, x, id, k);
    case DropRuleOp(x) => DropLoad(s, x, k);
    case ShutdownOp => ShutdownRuns(s, k);
  }

  lemma DropLoad(s: Sched, x: RuleKey, k: RuleKey)
    ensures var t := DropRule(s, x); |Active(t, k)| + |QueueOf(t, k)| <= |Active(s, k)| + |QueueOf(s, k)|
  {
    PruneGrows(Withdrawn(s, x), x);
    WithdrawnRuns(s, x, k);
    assert |QueueOf(Withdrawn(s, x), k)| <= |QueueOf(s, k)|;
  }

  lemma RetireLoad(s: Sched, x: RuleKey, id: RunId, k: RuleKey)
    requires Inv(s)
    ensures var t := Retire(s, x, id); |Active(t, k)| + |QueueOf(t, k)| <= |Active(s, k)| + |QueueOf(s, k)|
  {
    var d := Deactivate(s, x, id);
    DeactivateKeeps(s, x, id);
    DispatchOneGrows(d, x);
    DeactivateEffect(s, x, id);
    SubsetSize(Active(d, k), Active(s, k));
  }

  lemma WorkerLoad(s: Sched, x: RuleKey, id: RunId, k: RuleKey)
    requires Inv(s) && id in Exec(s, x)
    ensures var t := SpawnFailed(s, x, id); |Active(t, k)| + |QueueOf(t, k)| <= |Active(s, k)| + |QueueOf(s, k)|
    ensures var t := WorkerDone(s, x, id);
            id !in Active(s, x) ==> |Active(t, k)| + |QueueOf(t, k)| <= |Active(s, k)| + |QueueOf(s, k)|
  {
    var u := Unspawned(s, x, id);
    IsRunning(s, x, id);
    UnspawnedEffect(s, x, id);
    LeftLogged(s, u, x, id, Dropped);
    LeftKeeps(s, u, x, id, Dropped);
    DispatchAvailableGrows(u);
    SubsetSize(Active(u, k), Active(s, k));
    if id !in Active(s, x) { DoneLoad(s, x, id, k); }
  }

  lemma DoneLoad(s: Sched, x: RuleKey, id: RunId, k: RuleKey)
    requires Inv(s) && id in Exec(s, x) && id !in Active(s, x)
    ensures var t := WorkerDone(s, x, id); |Active(t, k)| + |QueueOf(t, k)| <= |Active(s, k)| + |QueueOf(s, k)|
  {
    var u := Release(s, x, id, Finished);
    IsRunning(s, x, id);
    ReleaseEffect(s, x, id);
    LeftLogged(s, u, x, id, Finished);
    LeftKeeps(s, u, x, id, Finished);
    PruneKeeps(u, x);
    DispatchAvailableGrows(Prune(u, x));
    SubsetSize(Active(u, k), Active(s, k));
  }

  lemma SubmitLoad(s: Sched, op: Op, k: RuleKey)
    requires Inv(s) && Enabled(s, op) && op.SubmitOp? && AtMostOne(s, k)
    requires op.key == k ==> Declares(op.rule, Single)
    ensures AtMostOne(Step(s, op), k)
  {
    SubmitOutcome(s, op.key, op.rule, op.id, op.cancelled);
    OutcomeLoad(s, Submit(s, op.key, op.rule, op.id, op.cancelled), op, k);
  }

  lemma OutcomeLoad(s: Sched, t: Sched, op: Op, k: RuleKey)
    requires op.SubmitOp? && AtMostOne(s, k) && OutcomeIs(s, t, op.key, op.rule, op.id, op.cancelled)
    requires op.key == k ==> Declares(op.rule, Single)
    ensures AtMostOne(t, k)
  {
  }

  /** In single mode, at most one run of the rule is active or waiting, in every reachable state. */
  lemma {:induction false} SingleIsSingle(states: seq<Sched>, ops: seq<Op>, i: nat, k: RuleKey)
    requires Execution(states, ops) && i <= |ops| && SingleRule(ops, k)
    ensures AtMostOne(states[i], k)
  {
    if i == 0 {
      FreshIsEmpty(states[0].maxWorkers, states[0].maxPending, k);
    } else {
      SingleIsSingle(states, ops, i - 1, k);
      SingleLink(states, ops, i - 1, k);
    }
  }

  lemma FreshIsEmpty(maxWorkers: nat, maxPending: nat, k: RuleKey)
    ensures AtMostOne(Fresh(maxWorkers, maxPending), k)
  {
  }

  lemma SingleLink(states: seq<Sched>, ops: seq<Op>, i: nat, k: RuleKey)
    requires Execution(states, ops) && i < |ops| && SingleRule(ops, k) && AtMostOne(states[i], k)
    ensures AtMostOne(states[i + 1], k)
  {
    ExecutionStep(states, ops, i);
    SingleStep(states[i], ops[i], k);
  }

  lemma SingleStep(s: Sched, op: Op, k: RuleKey)
    requires Inv(s) && Enabled(s, op) && AtMostOne(s, k)
    requires op.SubmitOp? && op.key == k ==> Declares(op.rule, Single)
    ensures AtMostOne(Step(s, op), k)
  {
    if op.SubmitOp? { SubmitLoad(s, op, k); } else { LoadShrinks(s, op, k); }
  }

  /** With fixed settings no rule ever has more runs active than it declares, or more waiting. */
  lemma DeclaredLimitsHold(states: seq<Sched>, ops: seq<Op>, cfg: RuleKey -> Concurrency, i: nat, k: RuleKey)
    requires Execution(states, ops) && FixedSettings(ops, cfg) && i <= |ops|
    ensures Active(states[i], k) != {} ==> |Active(states[i], k)| <= Slots(cfg(k), states[i].maxWorkers)
    ensures |QueueOf(states[i], k)| <= Places(cfg(k))
  {
    LimitsHold(states, ops, cfg, i);
    EveryStateSafe(states, ops, i);
    SettingMeans(cfg(k), states[i].maxWorkers);
    var q := QueueOf(states[i], k);
    if q != [] { assert q[|q| - 1].rule == cfg(k); }
  }

  // ----- what a submission reports -------------------------------------------------

  /** The submission replaces this run. */
  ghost predicate Replaces(s: Sched, op: Op, r: RunId)
    requires op.SubmitOp?
  {
    && !s.closing && Declares(op.rule, Replace)
    && (Waiting(s, op.key, r) || (r in Active(s, op.key) && r in op.cancelled))
  }

  /** The notes about run `r` that were added. */
  ghost predicate Noted(s: Sched, t: Sched, r: RunId, replaced: bool, queued: bool) {
    && t.log[ReplacedNote(r)] == s.log[ReplacedNote(r)] + (if replaced then 1 else 0)
    && t.log[QueuedNote(r)] == s.log[QueuedNote(r)] + (if queued then 1 else 0)
  }

  lemma SupersedeNotes(o: Sched, k: RuleKey, cancelled: set<RunId>, r: RunId)
    requires k in o.active && k in o.queues
    requires r in EntryIds(QueueOf(o, k)) ==> r !in Active(o, k)
    ensures var replaced := r in EntryIds(QueueOf(o, k)) || r in Active(o, k) * cancelled;
            Noted(o, Supersede(o, k, cancelled), r, replaced, false)
  {
    ReplacedCounts(o.log, Active(o, k) * cancelled, EntryIds(QueueOf(o, k)));
  }

  lemma QuietNotes(p: Sched, k: RuleKey, id: RunId, r: RunId)
    ensures Noted(p, Arrive(p, k, id), r, false, false) && Noted(p, Begin(p, k, id), r, false, false)
    ensures Noted(p, Discard(p, id), r, false, false) && Noted(p, Open(p, k), r, false, false)
  {
  }

  lemma EnqueueNotes(p: Sched, k: RuleKey, e: Entry, r: RunId)
    ensures Noted(p, Enqueue(p, k, e), r, false, r == e.id)
  {
  }

  lemma PlaceNotes(p: Sched, k: RuleKey, rule: Concurrency, id: RunId, r: RunId)
    requires forall x :: x in p.order ==> x in p.queues
    ensures var starts := |Active(p, k)| < Slots(rule, p.maxWorkers) && p.workers < p.maxWorkers;
            var waits := !starts && |QueueOf(p, k)| < Places(rule) && Pending(p.order, p.queues) < p.maxPending;
            Noted(p, Place(p, k, rule, id), r, false, waits && r == id)
  {
    SettingMeans(rule, p.maxWorkers);
    QuietNotes(p, k, id, r);
    QuietNotes(Arrive(p, k, id), k, id, r);
    EnqueueNotes(Arrive(p, k, id), k, Entry(id, rule), r);
  }

  lemma PreparedNotes(s: Sched, op: Op, r: RunId)
    requires Inv(s) && op.SubmitOp? && !s.closing
    ensures Noted(s, Prepared(s, op.key, op.rule, op.cancelled), r, Replaces(s, op, r), false)
  {
    SettingMeans(op.rule, s.maxWorkers);
    OpenTables(s, op.key);
    WaitingIds(s, op.key);
    QuietNotes(s, op.key, op.id, r);
    assert r in Active(s, op.key) ==> r in Exec(s, op.key) && Running(s, op.key, r);
    if Declares(op.rule, Replace) { SupersedeNotes(Open(s, op.key), op.key, op.cancelled, r); }
  }

  lemma ReadyWaits(s: Sched, p: Sched, k: RuleKey, rule: Concurrency, cancelled: set<RunId>)
    requires Ready(s, p, k, rule, cancelled) && !s.closing && !Refused(s, k, rule)
    ensures var starts := |Active(p, k)| < Slots(rule, p.maxWorkers) && p.workers < p.maxWorkers;
            var waits := !starts && |QueueOf(p, k)| < Places(rule) && Pending(p.order, p.queues) < p.maxPending;
            waits == WaitsNow(s, k, rule, cancelled)
  {
  }

  /** Each replaced run is reported as replaced, and the new one as queued if it waits; a submission
      reports no other run so. */
  lemma SubmitNotes(s: Sched, op: Op, r: RunId)
    requires Inv(s) && op.SubmitOp? && op.id !in s.arrivals
    ensures Noted(s, Submit(s, op.key, op.rule, op.id, op.cancelled), r, Replaces(s, op, r),
                  r == op.id && WaitsNow(s, op.key, op.rule, op.cancelled))
  {
    var (k, rule, cancelled) := (op.key, op.rule, op.cancelled);
    SettingMeans(rule, s.maxWorkers);
    if s.closing || TurnedAway(s, k, rule) {
      QuietNotes(s, k, op.id, r);
      var o := if s.closing then s else Open(s, k);
      QuietNotes(o, k, op.id, r);
      QuietNotes(Arrive(o, k, op.id), k, op.id, r);
    } else {
      var p := Prepared(s, k, rule, cancelled);
      PreparedReady(s, k, rule, cancelled);
      ReadyWaits(s, p, k, rule, cancelled);
      PreparedNotes(s, op, r);
      PlaceNotes(p, k, rule, op.id, r);
    }
  }
}
