/** The run scheduler itself: its fields, and its methods proved against the transitions. */
module Scheduler {
  import opened Common
  import opened SchedulerModel
  import opened SchedulerProofs
  import M = SchedulerModel
  import SchedulerRuns

  lemma ReplacedNotesAdd(ids: set<RunId>, id: RunId)
    requires id !in ids
    ensures ReplacedNotes(ids + {id}) == ReplacedNotes(ids) + multiset{ReplacedNote(id)}
  {
  }

  lemma DroppedNotesAdd(ids: set<RunId>, id: RunId)
    requires id !in ids
    ensures DroppedNotes(ids + {id}) == DroppedNotes(ids) + multiset{DroppedNote(id)}
  {
  }

  ghost predicate DistinctIds(q: seq<Entry>) {
    forall i, j :: 0 <= i < j < |q| ==> q[i].id != q[j].id
  }

  lemma EntryIdsAdd(q: seq<Entry>, i: nat)
    requires i < |q| && DistinctIds(q)
    ensures EntryIds(q[..i + 1]) == EntryIds(q[..i]) + {q[i].id} && q[i].id !in EntryIds(q[..i])
  {
    assert q[..i + 1] == q[..i] + [q[i]];
  }

  lemma QueueIdsDistinct(s: Sched, k: RuleKey)
    requires Ordered(s) && k in s.queues
    ensures DistinctIds(s.queues[k])
  {
    assert s.queues[k] == QueueOf(s, k);
  }

  lemma QueueIdsDistinctOpen(s: Sched, k: RuleKey)
    requires Ordered(s)
    ensures DistinctIds(QueueOf(Open(s, k), k))
  {
    assert QueueOf(Open(s, k), k) == QueueOf(s, k);
  }

  lemma DroppedNotesUnion(a: set<RunId>, b: set<RunId>)
    requires a !! b
    ensures DroppedNotes(a + b) == DroppedNotes(a) + DroppedNotes(b)
  {
  }

  /** The runs queued for the first `n` rules. */
  ghost function IdsUpTo(s: Sched, n: nat): set<RunId>
    requires n <= |s.order| && forall x :: x in s.order ==> x in s.queues
  {
    set i, e | 0 <= i < n && e in s.queues[s.order[i]] :: e.id
  }

  lemma IdsUpToStep(s: Sched, n: nat)
    requires Tables(s) && Placement(s) && n < |s.order|
    ensures IdsUpTo(s, n + 1) == IdsUpTo(s, n) + EntryIds(s.queues[s.order[n]])
    ensures IdsUpTo(s, n) !! EntryIds(s.queues[s.order[n]])
  {
    forall i, e | 0 <= i <= n && e in s.queues[s.order[i]] ensures Waiting(s, s.order[i], e.id) {
      var j :| 0 <= j < |s.queues[s.order[i]]| && s.queues[s.order[i]][j] == e;
      assert QueueOf(s, s.order[i])[j] == e;
    }
  }

  lemma AllIds(s: Sched)
    requires Tables(s)
    ensures IdsUpTo(s, |s.order|) == QueuedIds(s)
  {
    forall x | x in QueuedIds(s) ensures x in IdsUpTo(s, |s.order|) {
      var k, e :| k in s.queues && e in s.queues[k] && e.id == x;
      assert k in s.order;
      var i :| 0 <= i < |s.order| && s.order[i] == k;
    }
  }

  /** What `submit` answers, in terms of where the run went. */
  ghost function PlaceDecision(s: Sched, k: RuleKey, rule: Concurrency): Decision
    requires forall x :: x in s.order ==> x in s.queues
  {
    if HasRoom(s, k, rule) then (if ConfigOf(rule).mode == Replace then ReplacedOthers else Started)
    else if |QueueOf(s, k)| >= QueueLimit(rule) || Pending(s.order, s.queues) >= s.maxPending then DroppedNow
    else QueuedUp
  }

  ghost function SubmitDecision(s: Sched, k: RuleKey, rule: Concurrency, cancelled: set<RunId>): Decision
    requires forall x :: x in s.order <==> x in s.queues
  {
    if s.closing || TurnedAway(s, k, rule) then DroppedNow else PlaceDecision(Prepared(s, k, rule, cancelled), k, rule)
  }

  lemma PlaceMeans(s: Sched, k: RuleKey, rule: Concurrency, id: RunId)
    requires (forall x :: x in s.order ==> x in s.queues) && id !in s.fates && id !in s.started
    ensures var t := Place(s, k, rule, id); var d := PlaceDecision(s, k, rule);
            && (d == DroppedNow <==> id in t.fates)
            && (d == QueuedUp <==> Waiting(t, k, id))
            && (d == Started || d == ReplacedOthers <==> Running(t, k, id))
  {
    if HasRoom(s, k, rule) {
      BegunRuns(s, k, id);
    } else if PlaceDecision(s, k, rule) == DroppedNow {
      DiscardedIsOver(s, k, id);
    } else {
      EnqueuedWaits(s, k, Entry(id, rule));
    }
  }

  lemma BegunRuns(s: Sched, k: RuleKey, id: RunId)
    requires id !in s.fates
    ensures var t := Begin(Arrive(s, k, id), k, id); Running(t, k, id) && !Waiting(t, k, id) && id !in t.fates
  {
  }

  lemma DiscardedIsOver(s: Sched, k: RuleKey, id: RunId)
    ensures var t := Discard(Arrive(s, k, id), id); !Running(t, k, id) && !Waiting(t, k, id) && id in t.fates
  {
  }

  lemma EnqueuedWaits(s: Sched, k: RuleKey, e: Entry)
    requires e.id !in s.fates && e.id !in s.started
    ensures var t := Enqueue(Arrive(s, k, e.id), k, e); Waiting(t, k, e.id) && !Running(t, k, e.id) && e.id !in t.fates
  {
  }

  /** The answer names the run's fate: started runs execute, queued runs wait, dropped runs are over. */
  lemma DecisionMeans(s: Sched, k: RuleKey, rule: Concurrency, id: RunId, cancelled: set<RunId>)
    requires Inv(s) && id !in s.arrivals
    ensures var t := SchedulerModel.Submit(s, k, rule, id, cancelled); var d := SubmitDecision(s, k, rule, cancelled);
            && (d == DroppedNow <==> id in t.fates)
            && (d == QueuedUp <==> Waiting(t, k, id))
            && (d == Started || d == ReplacedOthers <==> Running(t, k, id))
  {
    FreshRun(s, id);
    if !s.closing && !TurnedAway(s, k, rule) {
      SchedulerRuns.PreparedKeeps(s, k, rule, cancelled);
      FreshRun(Prepared(s, k, rule, cancelled), id);
      PlaceMeans(Prepared(s, k, rule, cancelled), k, rule, id);
    }
  }

  class RuleScheduler {
    const maxWorkers: nat
    const maxPending: nat
    var workers: int
    var active: map<RuleKey, set<RunId>>
    var executing: map<RuleKey, set<RunId>>
    var order: seq<RuleKey>
    var queues: map<RuleKey, seq<Entry>>
    var removed: set<RuleKey>
    var closing: bool
    var log: multiset<Note>
    ghost var arrivals: map<RunId, Arrival>
    ghost var started: set<RunId>
    ghost var fates: map<RunId, Fate>

    ghost function Abs(): Sched
      reads this
    {
      Sched(maxWorkers, maxPending, workers, active, executing, order, queues, removed, closing, log,
            arrivals, started, fates)
    }

    constructor (maxWorkers: nat, maxPendingRuns: Option<nat>)
      ensures Abs() == SchedulerRuns.Fresh(maxWorkers,
        if maxPendingRuns.Some? && maxPendingRuns.value > 0 then maxPendingRuns.value
        else if maxWorkers * 4 > DEFAULT_QUEUE_LIMIT then maxWorkers * 4 else DEFAULT_QUEUE_LIMIT)
    {
      this.maxWorkers := maxWorkers;
      this.maxPending :=
        if maxPendingRuns.Some? && maxPendingRuns.value > 0 then maxPendingRuns.value
        else if maxWorkers * 4 > DEFAULT_QUEUE_LIMIT then maxWorkers * 4 else DEFAULT_QUEUE_LIMIT;
      workers, active, executing, order, queues := 0, map[], map[], [], map[];
      removed, closing, log := {}, false, multiset{};
      arrivals, started, fates := map[], {}, map[];
    }

    /** The rule whose active set holds a run. */
    method RuleKeyOf(id: RunId) returns (r: Option<RuleKey>)
      ensures r.Some? ==> r.value in active && id in active[r.value]
      ensures r.None? ==> forall k :: k in active ==> id !in active[k]
    {
      var todo := active.Keys;
      while todo != {}
        invariant todo <= active.Keys
        invariant forall k :: k in active && k !in todo ==> id !in active[k]
        decreases todo
      {
        var k :| k in todo;
        if id in active[k] { return Some(k); }
        todo := todo - {k};
      }
      r := None;
    }

    /** The table updates that start a run; the worker itself runs outside the lock. */
    method BeginRun(k: RuleKey, id: RunId)
      modifies this
      ensures Abs() == Begin(old(Abs()), k, id)
    {
      active := active[k := (if k in active then active[k] else {}) + {id}];
      executing := executing[k := (if k in executing then executing[k] else {}) + {id}];
      workers := workers + 1;
      started := started + {id};
    }

    method DispatchQueued(k: RuleKey)
      modifies this
      ensures Abs() == M.DispatchQueued(old(Abs()), k)
    {
      if closing || k !in queues || k !in active { return; }
      while queues[k] != [] && workers < maxWorkers
        invariant k in queues && k in active && !closing
        invariant M.DispatchQueued(Abs(), k) == M.DispatchQueued(old(Abs()), k)
        decreases |queues[k]|
      {
        var head := queues[k][0];
        if |active[k]| >= RunLimit(head.rule, maxWorkers) { break; }
        assert CanDispatch(Abs(), k);
        ghost var next := StartHead(Abs(), k);
        queues := queues[k := queues[k][1..]];
        BeginRun(k, head.id);
        assert Abs() == next;
      }
    }

    method PruneRemovedRule(k: RuleKey)
      modifies this
      ensures Abs() == Prune(old(Abs()), k)
    {
      if k in removed && (k !in active || active[k] == {}) && (k !in executing || executing[k] == {}) {
        active, executing, queues := active - {k}, executing - {k}, queues - {k};
        order := Without(order, k);
        removed := removed - {k};
      }
    }

    method DispatchAvailable()
      modifies this
      ensures Abs() == M.DispatchAvailable(old(Abs()))
    {
      while workers < maxWorkers
        invariant M.DispatchAvailable(Abs()) == M.DispatchAvailable(old(Abs()))
        decreases maxWorkers - workers
      {
        var before := workers;
        ghost var s := Abs();
        OnePass();
        if workers == before { return; }
      }
    }

    /** One pass over the rules with a queue, as they were when the pass began. */
    method OnePass()
      requires workers < maxWorkers
      modifies this
      ensures Abs() == Pass(old(Abs()), old(order))
    {
      var keys := order;
      var i := 0;
      while i < |keys|
        invariant 0 <= i <= |keys|
        invariant i < |keys| ==> workers < maxWorkers
        invariant Pass(Abs(), keys[i..]) == Pass(old(Abs()), keys)
      {
        ghost var s := Abs();
        DispatchQueued(keys[i]);
        PruneRemovedRule(keys[i]);
        assert keys[i..][1..] == keys[i + 1..];
        if workers >= maxWorkers { return; }
        i := i + 1;
      }
    }

    method RetireRun(k: RuleKey, id: RunId)
      modifies this
      ensures Abs() == if id == "" then old(Abs()) else Retire(old(Abs()), k, id)
    {
      if id == "" { return; }
      if k in active {
        active := active[k := active[k] - {id}];
      }
      DispatchQueued(k);
      PruneRemovedRule(k);
    }

    method OnRunEvent(eventType: string, id: RunId)
      requires Inv(Abs())
      modifies this
      ensures Abs() == if (eventType == "workflow_completed" || eventType == "workflow_failed") && id != ""
        then RunEvent(old(Abs()), id) else old(Abs())
    {
      if eventType != "workflow_completed" && eventType != "workflow_failed" { return; }
      if id == "" { return; }
      var key := RuleKeyOf(id);
      if key.None? { return; }
      OwnerIsKey(Abs(), key.value, id);
      RetireRun(key.value, id);
    }

    method GiveBack(k: RuleKey, id: RunId, ghost fate: Fate)
      requires k in executing
      modifies this
      ensures Abs() == Release(old(Abs()), k, id, fate)
    {
      workers := workers - 1;
      executing := executing[k := executing[k] - {id}];
      fates := fates[id := fate];
    }

    /** The `finally` section of a worker thread. */
    method FinishWorker(k: RuleKey, id: RunId)
      requires k in executing
      modifies this
      ensures Abs() == WorkerDone(old(Abs()), k, id)
    {
      GiveBack(k, id, Finished);
      PruneRemovedRule(k);
      DispatchAvailable();
    }

    method Unspawn(k: RuleKey, id: RunId)
      requires k in executing
      modifies this
      ensures Abs() == Unspawned(old(Abs()), k, id)
    {
      GiveBack(k, id, Dropped);
      if k in active {
        active := active[k := active[k] - {id}];
      }
      log := log + multiset{DroppedNote(id)};
    }

    /** The section run when the worker thread could not be created. */
    method SpawnFailed(k: RuleKey, id: RunId)
      requires k in executing
      modifies this
      ensures Abs() == M.SpawnFailed(old(Abs()), k, id)
    {
      Unspawn(k, id);
      DispatchAvailable();
    }

    method WithdrawQueue(k: RuleKey) returns (queue: seq<Entry>)
      requires k in queues ==> DistinctIds(queues[k])
      modifies this
      ensures queue == QueueOf(old(Abs()), k)
      ensures Abs() == Withdrawn(old(Abs()), k)
    {
      queue := if k in queues then queues[k] else [];
      queues := queues - {k};
      order := Without(order, k);
      removed := removed + {k};
      NoteDropped(queue);
      fates := MarkAll(fates, EntryIds(queue), Dropped);
    }

    method DropRule(k: RuleKey) returns (count: nat)
      requires Inv(Abs())
      modifies this
      ensures Abs() == M.DropRule(old(Abs()), k)
      ensures count == |QueueOf(old(Abs()), k)|
    {
      if k in queues { QueueIdsDistinct(Abs(), k); }
      var queue := WithdrawQueue(k);
      PruneRemovedRule(k);
      count := |queue|;
    }

    method OpenRule(k: RuleKey)
      modifies this
      ensures Abs() == Open(old(Abs()), k)
    {
      removed := removed - {k};
      if k !in active { active := active[k := {}]; }
      if k !in queues {
        queues := queues[k := []];
        order := order + [k];
      }
    }

    /** Cancels the active runs of a rule; `cancelled` says which cancellations succeed. */
    method CancelActive(k: RuleKey, cancelled: set<RunId>)
      requires k in active
      modifies this`active, this`log
      ensures active == old(active)[k := old(active)[k] - old(active)[k] * cancelled]
      ensures log == old(log) + ReplacedNotes(old(active)[k] * cancelled)
    {
      var todo := active[k];
      ghost var gone := {};
      assert active[k] - gone == active[k];
      while todo != {}
        invariant todo <= old(active)[k] && gone == (old(active)[k] - todo) * cancelled
        invariant k in active && active == old(active)[k := old(active)[k] - gone]
        invariant log == old(log) + ReplacedNotes(gone)
        decreases todo
      {
        var r :| r in todo;
        todo := todo - {r};
        if r in cancelled {
          ReplacedNotesAdd(gone, r);
          assert old(active)[k] - gone - {r} == old(active)[k] - (gone + {r});
          active := active[k := active[k] - {r}];
          log := log + multiset{ReplacedNote(r)};
          gone := gone + {r};
        }
      }
    }

    method SupersedeRule(k: RuleKey, cancelled: set<RunId>)
      requires k in active && k in queues && DistinctIds(queues[k])
      modifies this
      ensures Abs() == Supersede(old(Abs()), k, cancelled)
    {
      CancelActive(k, cancelled);
      ReplaceQueue(k);
    }

    /** Accounts the waiting runs of a rule as replaced and empties its queue. */
    method ReplaceQueue(k: RuleKey)
      requires k in queues && DistinctIds(queues[k])
      modifies this`queues, this`log, this`fates
      ensures queues == old(queues)[k := []] && fates == MarkAll(old(fates), EntryIds(old(queues)[k]), Replaced)
      ensures log == old(log) + ReplacedNotes(EntryIds(old(queues)[k]))
    {
      NoteReplaced(queues[k]);
      fates := MarkAll(fates, EntryIds(queues[k]), Replaced);
      queues := queues[k := []];
    }

    method PlaceRun(k: RuleKey, rule: Concurrency, id: RunId) returns (d: Decision)
      requires k in active && k in queues && forall x :: x in order <==> x in queues
      modifies this
      ensures Abs() == Place(old(Abs()), k, rule, id)
      ensures d == PlaceDecision(old(Abs()), k, rule)
    {
      if |active[k]| < RunLimit(rule, maxWorkers) && workers < maxWorkers {
        Admit(k, id);
        BeginRun(k, id);
        d := if ConfigOf(rule).mode == Replace then ReplacedOthers else Started;
      } else if |queues[k]| >= QueueLimit(rule) || Pending(order, queues) >= maxPending {
        Admit(k, id);
        NoteDrop(id);
        d := DroppedNow;
      } else {
        Admit(k, id);
        queues := queues[k := queues[k] + [Entry(id, rule)]];
        log := log + multiset{QueuedNote(id)};
        d := QueuedUp;
      }
    }

    /** Enters a run in the ledger. */
    ghost method Admit(k: RuleKey, id: RunId)
      modifies this`arrivals
      ensures Abs() == Arrive(old(Abs()), k, id)
    {
      arrivals := arrivals[id := Arrival(k, |arrivals|)];
    }

    method NoteDrop(id: RunId)
      modifies this`log, this`fates
      ensures Abs() == Discard(old(Abs()), id)
    {
      log := log + multiset{DroppedNote(id)};
      fates := fates[id := Dropped];
    }

    /** `submit`; `cancelled` says which cancellations of active runs would succeed. */
    method Submit(k: RuleKey, rule: Concurrency, id: RunId, cancelled: set<RunId>) returns (d: Decision)
      requires Inv(Abs()) && id !in arrivals && id != ""
      modifies this
      ensures Abs() == M.Submit(old(Abs()), k, rule, id, cancelled)
      ensures d == SubmitDecision(old(Abs()), k, rule, cancelled)
    {
      if closing {
        Admit(k, id);
        NoteDrop(id);
        return DroppedNow;
      }
      OpenTables(Abs(), k);
      OpenRule(k);
      if ConfigOf(rule).mode == Single && (active[k] != {} || queues[k] != []) {
        Admit(k, id);
        NoteDrop(id);
        return DroppedNow;
      }
      if ConfigOf(rule).mode == Replace {
        QueueIdsDistinctOpen(old(Abs()), k);
        SupersedeRule(k, cancelled);
      }
      d := PlaceRun(k, rule, id);
    }

    /** Reports every queued run as dropped. */
    method NoteAllQueued()
      requires Tables(Abs()) && Placement(Abs()) && Ordered(Abs())
      modifies this`log
      ensures log == old(log) + DroppedNotes(QueuedIds(old(Abs())))
    {
      ghost var s := Abs();
      for i := 0 to |order|
        invariant log == old(log) + DroppedNotes(IdsUpTo(s, i))
      {
        QueueIdsDistinct(s, order[i]);
        IdsUpToStep(s, i);
        NoteDropped(queues[order[i]]);
        DroppedNotesUnion(IdsUpTo(s, i), EntryIds(queues[order[i]]));
      }
      AllIds(s);
    }

    method Shutdown()
      requires Tables(Abs()) && Placement(Abs()) && Ordered(Abs())
      modifies this
      ensures Abs() == M.Shutdown(old(Abs()))
    {
      ghost var ids := QueuedIds(Abs());
      NoteAllQueued();
      ClearQueues(ids);
    }

    method ClearQueues(ghost ids: set<RunId>)
      modifies this
      ensures Abs() ==
        old(Abs()).(closing := true, queues := map[], order := [], fates := MarkAll(old(fates), ids, Dropped))
    {
      fates := MarkAll(fates, ids, Dropped);
      queues, order, closing := map[], [], true;
    }

    method NoteDropped(queue: seq<Entry>)
      requires DistinctIds(queue)
      modifies this`log
      ensures log == old(log) + DroppedNotes(EntryIds(queue))
    {
      assert EntryIds(queue[..0]) == {};
      for i := 0 to |queue|
        invariant log == old(log) + DroppedNotes(EntryIds(queue[..i]))
      {
        EntryIdsAdd(queue, i);
        DroppedNotesAdd(EntryIds(queue[..i]), queue[i].id);
        log := log + multiset{DroppedNote(queue[i].id)};
      }
      assert queue[..|queue|] == queue;
    }

    method NoteReplaced(queue: seq<Entry>)
      requires DistinctIds(queue)
      modifies this`log
      ensures log == old(log) + ReplacedNotes(EntryIds(queue))
    {
      assert EntryIds(queue[..0]) == {};
      for i := 0 to |queue|
        invariant log == old(log) + ReplacedNotes(EntryIds(queue[..i]))
      {
        EntryIdsAdd(queue, i);
        ReplacedNotesAdd(EntryIds(queue[..i]), queue[i].id);
        log := log + multiset{ReplacedNote(queue[i].id)};
      }
      assert queue[..|queue|] == queue;
    }
  }

  lemma OwnerIsKey(s: Sched, k: RuleKey, id: RunId)
    requires Placement(s) && k in s.active && id in s.active[k]
    ensures id in s.arrivals && s.arrivals[id].key == k && id in Active(s, k)
  {
    assert id in Active(s, k) && id in Exec(s, k) && Running(s, k, id);
  }
}
