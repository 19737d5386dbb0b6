/** What every transition of the run scheduler keeps. */
module SchedulerProofs {
  import opened SchedulerModel

  // ----- the global queue bound ----------------------------------------------------

  lemma {:induction false} PendingUpdate(
      order: seq<RuleKey>, queues: map<RuleKey, seq<Entry>>, k: RuleKey, q: seq<Entry>)
    requires Distinct(order) && forall x :: x in order ==> x in queues
    ensures Pending(order, queues[k := q])
         == Pending(order, queues) + (if k in order then |q| - |queues[k]| else 0)
  {
    if order != [] {
      PendingUpdate(order[1..], queues, k, q);
    }
  }

  lemma {:induction false} PendingWithout(order: seq<RuleKey>, queues: map<RuleKey, seq<Entry>>, k: RuleKey)
    requires Distinct(order) && forall x :: x in order ==> x in queues
    ensures Distinct(Without(order, k))
    ensures Pending(Without(order, k), queues - {k}) <= Pending(order, queues)
  {
    if order != [] {
      PendingWithout(order[1..], queues, k);
      var rest := Without(order[1..], k);
      if order[0] != k {
        assert forall j :: 0 <= j < |rest| ==> rest[j] in order[1..];
        assert Without(order, k)[1..] == rest;
      }
    }
  }

  lemma {:induction false} PendingExtend(order: seq<RuleKey>, queues: map<RuleKey, seq<Entry>>, k: RuleKey)
    requires (forall x :: x in order ==> x in queues) && k !in order
    ensures Pending(order + [k], queues[k := []]) == Pending(order, queues)
  {
    if order == [] {
      assert [k][1..] == [];
    } else {
      assert (order + [k])[1..] == order[1..] + [k];
      PendingExtend(order[1..], queues, k);
    }
  }

  // ----- transitions that move no run ----------------------------------------------

  /** The two states agree on everything the run invariants look at. */
  ghost predicate SameRuns(s: Sched, t: Sched) {
    && (forall k :: Active(t, k) == Active(s, k) && Exec(t, k) == Exec(s, k) && QueueOf(t, k) == QueueOf(s, k))
    && t.maxWorkers == s.maxWorkers && t.maxPending == s.maxPending && t.workers == s.workers
    && t.closing == s.closing && t.log == s.log
    && t.arrivals == s.arrivals && t.started == s.started && t.fates == s.fates
  }

  lemma SamePlacement(s: Sched, t: Sched)
    requires Placement(s) && SameRuns(s, t)
    ensures Placement(t)
  {
    assert forall k, id :: Waiting(t, k, id) == Waiting(s, k, id);
    assert forall k, id :: Running(t, k, id) == Running(s, k, id);
  }

  lemma SameOrdered(s: Sched, t: Sched)
    requires Ordered(s) && SameRuns(s, t)
    ensures Ordered(t)
  {
    assert forall k :: QueueOf(t, k) == QueueOf(s, k);
  }

  lemma SameLogged(s: Sched, t: Sched)
    requires Logged(s) && SameRuns(s, t)
    ensures Logged(t)
  {
    assert forall k, id :: Waiting(t, k, id) == Waiting(s, k, id);
  }

  lemma SameFair(s: Sched, t: Sched)
    requires SameRuns(s, t) && FirstComeFirstServed(s)
    ensures FirstComeFirstServed(t)
  {
    assert forall k, id :: Waiting(t, k, id) == Waiting(s, k, id);
  }

  lemma SameConserving(s: Sched, t: Sched)
    requires SameRuns(s, t) && WorkConserving(s)
    ensures WorkConserving(t)
  {
    forall k ensures Conserves(t, k) { assert Conserves(s, k); }
  }

  lemma SameRunsKeep(s: Sched, t: Sched)
    requires Inv(s) && SameRuns(s, t) && Tables(t) && Pending(t.order, t.queues) <= s.maxPending
    ensures Inv(t)
  {
    SamePlacement(s, t);
    SameOrdered(s, t);
    SameLogged(s, t);
  }

  lemma OpenTables(s: Sched, k: RuleKey)
    requires Tables(s) && !s.closing
    ensures Tables(Open(s, k)) && SameRuns(s, Open(s, k))
    ensures Pending(Open(s, k).order, Open(s, k).queues) == Pending(s.order, s.queues)
    ensures k in Open(s, k).active && k in Open(s, k).queues
  {
    if k !in s.queues {
      PendingExtend(s.order, s.queues, k);
    }
  }

  lemma OpenKeeps(s: Sched, k: RuleKey)
    requires Inv(s) && !s.closing
    ensures Inv(Open(s, k)) && SameRuns(s, Open(s, k))
    ensures k in Open(s, k).active && k in Open(s, k).queues
  {
    OpenTables(s, k);
    SameRunsKeep(s, Open(s, k));
  }

  lemma PruneSame(s: Sched, k: RuleKey)
    requires k in s.removed ==> k !in s.queues
    ensures SameRuns(s, Prune(s, k))
  {
  }

  lemma PruneTables(s: Sched, k: RuleKey)
    requires Tables(s)
    ensures Tables(Prune(s, k))
    ensures Pending(Prune(s, k).order, Prune(s, k).queues) <= Pending(s.order, s.queues)
  {
    PendingWithout(s.order, s.queues, k);
  }

  lemma PruneKeeps(s: Sched, k: RuleKey)
    requires Inv(s)
    ensures Inv(Prune(s, k)) && SameRuns(s, Prune(s, k))
  {
    PruneTables(s, k);
    PruneSame(s, k);
    SameRunsKeep(s, Prune(s, k));
  }

  // ----- starting a run ------------------------------------------------------------

  /** `t` is `s` with run `id` of rule `k` started; the queues may have changed. */
  ghost predicate StartedRun(s: Sched, t: Sched, k: RuleKey, id: RunId) {
    && (forall x :: Exec(t, x) == if x == k then Exec(s, k) + {id} else Exec(s, x))
    && (forall x :: Active(t, x) == if x == k then Active(s, k) + {id} else Active(s, x))
    && t.fates == s.fates && t.log == s.log && t.started == s.started + {id}
    && t.maxWorkers == s.maxWorkers && t.workers == s.workers + 1
    && id in t.arrivals && t.arrivals[id].key == k && id !in s.fates && id !in s.started
    && (forall x :: x in t.arrivals <==> x in s.arrivals || x == id)
    && (forall x :: x in s.arrivals ==> t.arrivals[x] == s.arrivals[x])
  }

  lemma StartedRunMoves(s: Sched, t: Sched, k: RuleKey, id: RunId)
    requires StartedRun(s, t, k, id)
    ensures forall x, y :: Waiting(t, x, y) == (Waiting(s, x, y) && y != id)
    ensures forall x, y :: Running(t, x, y) == (Running(s, x, y) || (x == k && y == id))
  {
  }

  lemma StartedRunLogged(s: Sched, t: Sched, k: RuleKey, id: RunId)
    requires StartedRun(s, t, k, id) && Logged(s) && s.log[ReplacedNote(id)] == 0
    ensures Logged(t)
  {
    StartedRunMoves(s, t, k, id);
  }

  lemma {:induction false} SizeIs(ids: set<RunId>)
    ensures Size(ids) == |ids|
  {
    if ids != {} { SizeIs(ids - {Pick(ids)}); }
  }

  lemma SizeWith(ids: set<RunId>, id: RunId)
    requires id !in ids
    ensures Size(ids + {id}) == Size(ids) + 1
  {
    SizeIs(ids);
    SizeIs(ids + {id});
  }

  lemma StartedRunCounting(s: Sched, t: Sched, id: RunId)
    requires t.fates == s.fates && t.started == s.started + {id} && t.workers == s.workers + 1
    requires id !in s.started && id !in s.fates && t.maxWorkers == s.maxWorkers
    requires Counting(s) && s.workers < s.maxWorkers
    ensures Counting(t)
  {
    assert t.started - t.fates.Keys == (s.started - s.fates.Keys) + {id};
    SizeWith(s.started - s.fates.Keys, id);
  }

  lemma StartedRunPlacement(s: Sched, t: Sched, k: RuleKey, id: RunId)
    requires StartedRun(s, t, k, id) && Placement(s)
    requires forall x, i :: 0 <= i < |QueueOf(t, x)| ==> Waiting(t, x, QueueOf(t, x)[i].id)
    requires forall x, y :: Waiting(t, x, y) ==> InQueue(QueueOf(t, x), y)
    ensures Placement(t)
  {
    StartedRunMoves(s, t, k, id);
  }

  lemma BeginEffect(s: Sched, k: RuleKey, id: RunId)
    ensures var t := Begin(s, k, id);
            && (forall x :: Exec(t, x) == if x == k then Exec(s, k) + {id} else Exec(s, x))
            && (forall x :: Active(t, x) == if x == k then Active(s, k) + {id} else Active(s, x))
            && (forall x :: QueueOf(t, x) == QueueOf(s, x))
  {
  }

  lemma ArriveEffect(s: Sched, k: RuleKey, id: RunId)
    ensures var t := Arrive(s, k, id);
            forall x :: Exec(t, x) == Exec(s, x) && Active(t, x) == Active(s, x) && QueueOf(t, x) == QueueOf(s, x)
  {
  }

  lemma AdmitEffect(s: Sched, k: RuleKey, id: RunId)
    requires id !in s.arrivals && id !in s.fates && id !in s.started
    ensures StartedRun(s, Begin(Arrive(s, k, id), k, id), k, id)
    ensures forall x :: QueueOf(Begin(Arrive(s, k, id), k, id), x) == QueueOf(s, x)
  {
    ArriveEffect(s, k, id);
    BeginEffect(Arrive(s, k, id), k, id);
  }

  lemma AdmitPlacement(s: Sched, t: Sched, k: RuleKey, id: RunId)
    requires Placement(s) && StartedRun(s, t, k, id) && id !in s.arrivals
    requires forall x :: QueueOf(t, x) == QueueOf(s, x)
    ensures Placement(t)
  {
    StartedRunMoves(s, t, k, id);
    StartedRunPlacement(s, t, k, id);
  }

  lemma AdmitOrdered(s: Sched, t: Sched, k: RuleKey, id: RunId)
    requires Placement(s) && Ordered(s) && StartedRun(s, t, k, id) && id !in s.arrivals
    requires forall x :: QueueOf(t, x) == QueueOf(s, x)
    ensures Ordered(t)
  {
    forall x, i, j | 0 <= i < j < |QueueOf(t, x)|
      ensures TicketOf(t, QueueOf(t, x)[i].id) < TicketOf(t, QueueOf(t, x)[j].id)
    {
      assert QueueOf(t, x) == QueueOf(s, x);
      assert Waiting(s, x, QueueOf(s, x)[i].id) && Waiting(s, x, QueueOf(s, x)[j].id);
    }
  }

  lemma AdmitLedger(s: Sched, k: RuleKey, id: RunId)
    requires Ledger(s) && id !in s.arrivals
    ensures Ledger(Begin(Arrive(s, k, id), k, id))
  {
    NextTicket(s.arrivals, k, id);
  }

  lemma NextTicket(arrivals: map<RunId, Arrival>, k: RuleKey, id: RunId)
    requires Tickets(arrivals) && id !in arrivals
    ensures Tickets(arrivals[id := Arrival(k, |arrivals|)])
  {
  }

  lemma AdmitBounded(s: Sched, k: RuleKey, id: RunId)
    requires Tables(s) && Bounded(s) && k in s.active
    ensures Tables(Begin(Arrive(s, k, id), k, id)) && Bounded(Begin(Arrive(s, k, id), k, id))
  {
    var t := Begin(Arrive(s, k, id), k, id);
    forall x | QueueOf(t, x) != []
      ensures |QueueOf(t, x)| <= QueueLimit(QueueOf(t, x)[|QueueOf(t, x)| - 1].rule)
    {
      assert QueueOf(t, x) == QueueOf(s, x);
    }
  }

  lemma FreshRun(s: Sched, id: RunId)
    requires Ledger(s) && Logged(s) && id !in s.arrivals
    ensures id !in s.fates && id !in s.started && s.log[ReplacedNote(id)] == 0 && s.log[DroppedNote(id)] == 0
  {
  }

  /** A fresh run admitted straight to a worker. */
  lemma AdmitKeeps(s: Sched, k: RuleKey, id: RunId)
    requires Inv(s) && k in s.active && id !in s.arrivals && s.workers < s.maxWorkers
    ensures Inv(Begin(Arrive(s, k, id), k, id))
  {
    var t := Begin(Arrive(s, k, id), k, id);
    FreshRun(s, id);
    AdmitEffect(s, k, id);
    AdmitPlacement(s, t, k, id);
    AdmitOrdered(s, t, k, id);
    AdmitLedger(s, k, id);
    AdmitBounded(s, k, id);
    StartedRunLogged(s, t, k, id);
    StartedRunCounting(s, t, id);
  }

  lemma StartHeadEffect(s: Sched, k: RuleKey)
    requires CanDispatch(s, k) && Waiting(s, k, s.queues[k][0].id)
    ensures StartedRun(s, StartHead(s, k), k, s.queues[k][0].id)
    ensures forall x :: QueueOf(StartHead(s, k), x) == if x == k then s.queues[k][1..] else QueueOf(s, x)
  {
    BeginEffect(s.(queues := s.queues[k := s.queues[k][1..]]), k, s.queues[k][0].id);
    StartHeadQueues(s, k);
  }

  lemma StartHeadQueues(s: Sched, k: RuleKey)
    requires CanDispatch(s, k)
    ensures forall x :: QueueOf(StartHead(s, k), x) == if x == k then s.queues[k][1..] else QueueOf(s, x)
  {
  }

  lemma HeadWaits(s: Sched, k: RuleKey)
    requires CanDispatch(s, k) && Placement(s)
    ensures Waiting(s, k, s.queues[k][0].id)
  {
    assert QueueOf(s, k)[0].id == s.queues[k][0].id;
  }

  lemma StartHeadKeeps(s: Sched, k: RuleKey)
    requires Inv(s) && CanDispatch(s, k)
    ensures Inv(StartHead(s, k))
    ensures FirstComeFirstServed(s) ==> FirstComeFirstServed(StartHead(s, k))
  {
    var id := s.queues[k][0].id;
    var t := StartHead(s, k);
    HeadWaits(s, k);
    StartHeadEffect(s, k);
    StartHeadPlacement(s, k);
    StartHeadOrdered(s, k);
    StartHeadBounded(s, k);
    StartedRunLogged(s, t, k, id);
    StartedRunCounting(s, t, id);
    if FirstComeFirstServed(s) {
      StartHeadFair(s, k);
    }
  }

  lemma StartHeadPlacement(s: Sched, k: RuleKey)
    requires Placement(s) && Ordered(s) && CanDispatch(s, k)
    ensures Placement(StartHead(s, k))
  {
    var q := s.queues[k];
    var id := q[0].id;
    var t := StartHead(s, k);
    HeadWaits(s, k);
    StartHeadEffect(s, k);
    StartedRunMoves(s, t, k, id);
    forall x, i | 0 <= i < |QueueOf(t, x)| ensures Waiting(t, x, QueueOf(t, x)[i].id) {
      if x == k {
        assert QueueOf(t, x)[i] == QueueOf(s, k)[i + 1];
        assert Waiting(s, k, QueueOf(s, k)[0].id) && Waiting(s, k, QueueOf(s, k)[i + 1].id);
      }
    }
    forall x, y | Waiting(t, x, y) ensures InQueue(QueueOf(t, x), y) {
      assert InQueue(QueueOf(s, x), y);
      var i :| 0 <= i < |QueueOf(s, x)| && QueueOf(s, x)[i].id == y;
      if x == k { assert QueueOf(t, x)[i - 1].id == y; }
    }
    StartedRunPlacement(s, t, k, id);
  }

  lemma StartHeadOrdered(s: Sched, k: RuleKey)
    requires Ordered(s) && CanDispatch(s, k)
    ensures Ordered(StartHead(s, k))
  {
    var t := StartHead(s, k);
    forall x, i, j | 0 <= i < j < |QueueOf(t, x)|
      ensures TicketOf(t, QueueOf(t, x)[i].id) < TicketOf(t, QueueOf(t, x)[j].id)
    {
      var d := if x == k then 1 else 0;
      assert QueueOf(t, x)[i] == QueueOf(s, x)[i + d];
      assert QueueOf(t, x)[j] == QueueOf(s, x)[j + d];
    }
  }

  lemma StartHeadBounded(s: Sched, k: RuleKey)
    requires Tables(s) && Bounded(s) && CanDispatch(s, k)
    ensures Tables(StartHead(s, k)) && Bounded(StartHead(s, k))
  {
    var t := StartHead(s, k);
    PendingUpdate(s.order, s.queues, k, s.queues[k][1..]);
    forall x | QueueOf(t, x) != []
      ensures |QueueOf(t, x)| <= QueueLimit(QueueOf(t, x)[|QueueOf(t, x)| - 1].rule)
    {
      var q := QueueOf(s, x);
      assert QueueOf(t, x) == if x == k then q[1..] else q;
      assert QueueOf(t, x)[|QueueOf(t, x)| - 1] == q[|q| - 1];
    }
  }

  /** The head of a queue is the earliest of the rule's waiting runs. */
  lemma StartHeadFair(s: Sched, k: RuleKey)
    requires Placement(s) && Ordered(s) && CanDispatch(s, k) && FirstComeFirstServed(s)
    ensures FirstComeFirstServed(StartHead(s, k))
  {
    HeadWaits(s, k);
    StartHeadEffect(s, k);
    StartedRunFair(s, StartHead(s, k), k, s.queues[k][0].id);
  }

  lemma StartedRunFair(s: Sched, t: Sched, k: RuleKey, head: RunId)
    requires Placement(s) && Ordered(s) && FirstComeFirstServed(s) && StartedRun(s, t, k, head)
    requires t.arrivals == s.arrivals && QueueOf(s, k) != [] && QueueOf(s, k)[0].id == head
    ensures FirstComeFirstServed(t)
  {
    StartedRunMoves(s, t, k, head);
    forall x, w, id | Waiting(t, x, w) && id in t.started && id in t.arrivals && t.arrivals[id].key == x
      ensures TicketOf(t, id) < TicketOf(t, w)
    {
      assert Waiting(s, x, w);
      if id == head {
        assert InQueue(QueueOf(s, x), w);
        var i :| 0 <= i < |QueueOf(s, x)| && QueueOf(s, x)[i].id == w;
      }
    }
  }

  // ----- dispatching ---------------------------------------------------------------

  /** What dispatching for one rule leaves alone. */
  ghost predicate OnlyRule(s: Sched, t: Sched, k: RuleKey) {
    && (forall x :: x != k ==> Active(t, x) == Active(s, x) && QueueOf(t, x) == QueueOf(s, x))
    && t.maxWorkers == s.maxWorkers && t.workers >= s.workers
    && t.closing == s.closing && t.arrivals == s.arrivals && t.fates == s.fates && s.started <= t.started
  }

  lemma OnlyRuleConserves(s: Sched, t: Sched, k: RuleKey, x: RuleKey)
    requires OnlyRule(s, t, k) && x != k && Conserves(s, x)
    ensures Conserves(t, x)
  {
  }

  lemma StartHeadOnly(s: Sched, k: RuleKey)
    requires CanDispatch(s, k)
    ensures OnlyRule(s, StartHead(s, k), k)
  {
  }

  lemma {:induction false} DispatchQueuedKeeps(s: Sched, k: RuleKey)
    requires Inv(s)
    ensures Inv(DispatchQueued(s, k)) && OnlyRule(s, DispatchQueued(s, k), k)
    ensures FirstComeFirstServed(s) ==> FirstComeFirstServed(DispatchQueued(s, k))
    ensures !CanDispatch(DispatchQueued(s, k), k)
    decreases |QueueOf(s, k)|
  {
    if CanDispatch(s, k) {
      StartHeadKeeps(s, k);
      StartHeadOnly(s, k);
      DispatchQueuedKeeps(StartHead(s, k), k);
    }
  }

  lemma SettledConserves(s: Sched, k: RuleKey)
    requires Tables(s) && !CanDispatch(s, k)
    ensures Conserves(s, k)
  {
  }

  /** Dispatching one rule and pruning it. */
  lemma DispatchOneKeeps(s: Sched, k: RuleKey)
    requires Inv(s)
    ensures var t := Prune(DispatchQueued(s, k), k);
            && Inv(t) && OnlyRule(s, t, k) && Conserves(t, k)
            && (FirstComeFirstServed(s) ==> FirstComeFirstServed(t))
  {
    var u := DispatchQueued(s, k);
    DispatchQueuedKeeps(s, k);
    SettledConserves(u, k);
    PruneKeeps(u, k);
    SameRunsOne(s, u, Prune(u, k), k);
    if FirstComeFirstServed(u) {
      SameFair(u, Prune(u, k));
    }
  }

  lemma SameRunsOne(s: Sched, u: Sched, t: Sched, k: RuleKey)
    requires OnlyRule(s, u, k) && SameRuns(u, t) && Conserves(u, k)
    ensures OnlyRule(s, t, k) && Conserves(t, k)
  {
  }

  /** What passes over several rules leave alone. */
  ghost predicate Advances(s: Sched, t: Sched) {
    && t.maxWorkers == s.maxWorkers && t.workers >= s.workers
    && t.closing == s.closing && t.arrivals == s.arrivals && t.fates == s.fates && s.started <= t.started
  }

  lemma {:induction false} PassKeeps(s: Sched, keys: seq<RuleKey>)
    requires Inv(s)
    ensures Inv(Pass(s, keys)) && Advances(s, Pass(s, keys))
    ensures FirstComeFirstServed(s) ==> FirstComeFirstServed(Pass(s, keys))
    ensures forall x :: Conserves(s, x) || x in keys ==> Conserves(Pass(s, keys), x)
    decreases |keys|
  {
    if keys != [] {
      var t := Prune(DispatchQueued(s, keys[0]), keys[0]);
      DispatchOneKeeps(s, keys[0]);
      if t.workers < t.maxWorkers {
        PassKeeps(t, keys[1..]);
      }
      forall x | Conserves(s, x) || x in keys ensures Conserves(Pass(s, keys), x) {
        if x != keys[0] && Conserves(s, x) {
          OnlyRuleConserves(s, t, keys[0], x);
        }
      }
    }
  }

  lemma FullPassConserves(s: Sched)
    requires Inv(s)
    ensures WorkConserving(Pass(s, s.order))
  {
    PassKeeps(s, s.order);
    forall x ensures Conserves(Pass(s, s.order), x) {
      if x !in s.order { assert QueueOf(s, x) == []; assert Conserves(s, x); }
    }
  }

  lemma {:induction false} DispatchAvailableKeeps(s: Sched)
    requires Inv(s)
    ensures Inv(DispatchAvailable(s)) && Advances(s, DispatchAvailable(s))
    ensures WorkConserving(DispatchAvailable(s))
    ensures FirstComeFirstServed(s) ==> FirstComeFirstServed(DispatchAvailable(s))
    decreases if s.workers < s.maxWorkers then s.maxWorkers - s.workers else 0
  {
    if s.workers < s.maxWorkers {
      PassKeeps(s, s.order);
      FullPassConserves(s);
      var t := Pass(s, s.order);
      if t.workers != s.workers {
        DispatchAvailableKeeps(t);
      }
    } else {
      FullIsConserving(s);
    }
  }

  lemma FullIsConserving(s: Sched)
    requires s.workers >= s.maxWorkers
    ensures WorkConserving(s)
  {
  }
}
