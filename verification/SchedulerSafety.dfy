/** Whole transitions of the run scheduler, and what holds after any run of them. */
module SchedulerSafety {
  import opened SchedulerModel
  import opened SchedulerProofs

  // ----- emptying queues -----------------------------------------------------------

  /** `t` is `s` with the queues of `keys` emptied and `ids`, the runs that waited there,
      given `fate`; some active sets may have shrunk. */
  ghost predicate Flushed(s: Sched, t: Sched, keys: set<RuleKey>, ids: set<RunId>, fate: Fate) {
    && (forall x :: QueueOf(t, x) == if x in keys then [] else QueueOf(s, x))
    && (forall x :: Exec(t, x) == Exec(s, x) && Active(t, x) <= Active(s, x))
    && (forall x, y :: x in keys && Waiting(s, x, y) ==> y in ids)
    && (forall y :: y in ids ==> y in s.arrivals && s.arrivals[y].key in keys && Waiting(s, s.arrivals[y].key, y))
    && t.fates == MarkAll(s.fates, ids, fate)
    && t.started == s.started && t.arrivals == s.arrivals
    && t.workers == s.workers && t.maxWorkers == s.maxWorkers && t.maxPending == s.maxPending
  }

  lemma FlushedMoves(s: Sched, t: Sched, keys: set<RuleKey>, ids: set<RunId>, fate: Fate)
    requires Flushed(s, t, keys, ids, fate)
    ensures forall x, y :: Waiting(t, x, y) <==> Waiting(s, x, y) && x !in keys
  {
  }

  lemma FlushedRunning(s: Sched, t: Sched, keys: set<RuleKey>, ids: set<RunId>, fate: Fate)
    requires Flushed(s, t, keys, ids, fate)
    ensures forall x, y :: Running(t, x, y) <==> Running(s, x, y)
  {
  }

  lemma FlushedPlacement(s: Sched, t: Sched, keys: set<RuleKey>, ids: set<RunId>, fate: Fate)
    requires Flushed(s, t, keys, ids, fate) && Placement(s)
    ensures Placement(t)
  {
    FlushedMoves(s, t, keys, ids, fate);
    FlushedRunning(s, t, keys, ids, fate);
  }

  lemma FlushedOrdered(s: Sched, t: Sched, keys: set<RuleKey>, ids: set<RunId>, fate: Fate)
    requires Flushed(s, t, keys, ids, fate) && Ordered(s)
    ensures Ordered(t)
  {
    forall x, i, j | 0 <= i < j < |QueueOf(t, x)|
      ensures TicketOf(t, QueueOf(t, x)[i].id) < TicketOf(t, QueueOf(t, x)[j].id)
    {
      assert QueueOf(t, x) == QueueOf(s, x);
    }
  }

  lemma FlushedLedger(s: Sched, t: Sched, keys: set<RuleKey>, ids: set<RunId>, fate: Fate)
    requires Flushed(s, t, keys, ids, fate) && Ledger(s)
    ensures Ledger(t)
  {
    assert t.fates.Keys == s.fates.Keys + ids;
  }

  lemma FlushedCounting(s: Sched, t: Sched, keys: set<RuleKey>, ids: set<RunId>, fate: Fate)
    requires Flushed(s, t, keys, ids, fate) && Counting(s)
    ensures Counting(t)
  {
    assert t.started - t.fates.Keys == s.started - s.fates.Keys;
  }

  lemma FlushedBounded(s: Sched, t: Sched, keys: set<RuleKey>, ids: set<RunId>, fate: Fate)
    requires Flushed(s, t, keys, ids, fate) && Tables(s) && Tables(t) && Bounded(s)
    requires Pending(t.order, t.queues) <= Pending(s.order, s.queues)
    ensures Bounded(t)
  {
    forall x | QueueOf(t, x) != []
      ensures |QueueOf(t, x)| <= QueueLimit(QueueOf(t, x)[|QueueOf(t, x)| - 1].rule)
    {
      assert QueueOf(t, x) == QueueOf(s, x);
    }
  }

  lemma FlushedFair(s: Sched, t: Sched, keys: set<RuleKey>, ids: set<RunId>, fate: Fate)
    requires Flushed(s, t, keys, ids, fate) && FirstComeFirstServed(s)
    ensures FirstComeFirstServed(t)
  {
    FlushedMoves(s, t, keys, ids, fate);
  }

  lemma FlushedKeeps(s: Sched, t: Sched, keys: set<RuleKey>, ids: set<RunId>, fate: Fate)
    requires Inv(s) && Flushed(s, t, keys, ids, fate) && Tables(t) && Logged(t)
    requires Pending(t.order, t.queues) <= Pending(s.order, s.queues)
    ensures Inv(t)
    ensures FirstComeFirstServed(s) ==> FirstComeFirstServed(t)
  {
    FlushedPlacement(s, t, keys, ids, fate);
    FlushedOrdered(s, t, keys, ids, fate);
    FlushedLedger(s, t, keys, ids, fate);
    FlushedCounting(s, t, keys, ids, fate);
    FlushedBounded(s, t, keys, ids, fate);
    if FirstComeFirstServed(s) {
      FlushedFair(s, t, keys, ids, fate);
    }
  }

  lemma DroppedLogged(s: Sched, t: Sched, keys: set<RuleKey>, ids: set<RunId>)
    requires Flushed(s, t, keys, ids, Dropped) && Logged(s)
    requires t.log == s.log + DroppedNotes(ids)
    ensures Logged(t)
  {
    FlushedMoves(s, t, keys, ids, Dropped);
    forall id ensures t.log[ReplacedNote(id)] == s.log[ReplacedNote(id)] {}
    forall id ensures t.log[DroppedNote(id)] == s.log[DroppedNote(id)] + (if id in ids then 1 else 0) {}
  }

  ghost predicate CountsReplaced(log: multiset<Note>, log': multiset<Note>, gone: set<RunId>, ids: set<RunId>) {
    && (forall id :: log'[DroppedNote(id)] == log[DroppedNote(id)])
    && (forall id :: log'[ReplacedNote(id)] ==
          log[ReplacedNote(id)] + (if id in gone then 1 else 0) + (if id in ids then 1 else 0))
  }

  lemma ReplacedCounts(log: multiset<Note>, gone: set<RunId>, ids: set<RunId>)
    ensures CountsReplaced(log, log + ReplacedNotes(gone) + ReplacedNotes(ids), gone, ids)
  {
  }

  lemma ReplacedLogged(s: Sched, t: Sched, k: RuleKey, gone: set<RunId>, ids: set<RunId>)
    requires Flushed(s, t, {k}, ids, Replaced) && Logged(s)
    requires forall id :: id in gone ==> Running(s, k, id) && id in Active(s, k)
    requires forall x, id :: id in Active(t, x) ==> id !in gone && id !in ids
    requires CountsReplaced(s.log, t.log, gone, ids)
    ensures Logged(t)
  {
    FlushedMoves(s, t, {k}, ids, Replaced);
    ReplacedCountsOnce(s, t, k, gone, ids);
  }

  lemma ReplacedCountsOnce(s: Sched, t: Sched, k: RuleKey, gone: set<RunId>, ids: set<RunId>)
    requires Flushed(s, t, {k}, ids, Replaced) && Logged(s)
    requires forall id :: id in gone ==> Running(s, k, id) && id in Active(s, k)
    requires CountsReplaced(s.log, t.log, gone, ids)
    ensures forall id :: t.log[ReplacedNote(id)] == if id in gone || id in ids then 1 else s.log[ReplacedNote(id)]
  {
    forall id ensures t.log[ReplacedNote(id)] == if id in gone || id in ids then 1 else s.log[ReplacedNote(id)] {
      if id in ids { assert Waiting(s, s.arrivals[id].key, id); }
    }
  }

  /** Superseded runs were running, and nothing that stays active was superseded. */
  lemma SupersedeDisjoint(s: Sched, t: Sched, k: RuleKey, gone: set<RunId>, ids: set<RunId>)
    requires Flushed(s, t, {k}, ids, Replaced) && Placement(s)
    requires gone <= Active(s, k) && Active(t, k) == Active(s, k) - gone
    ensures forall id :: id in gone ==> Running(s, k, id) && id in Active(s, k)
    ensures forall x, id :: id in Active(t, x) ==> id !in gone && id !in ids
  {
    forall x, id | id in Active(t, x) ensures id !in gone && id !in ids {
      assert id in Active(s, x) && id in Exec(s, x) && Running(s, x, id);
      assert id in Active(s, k) ==> id in Exec(s, k) && Running(s, k, id) && x == k;
    }
  }

  /** The ids in a rule's queue are exactly its waiting runs. */
  lemma WaitingIds(s: Sched, k: RuleKey)
    requires Placement(s)
    ensures forall y :: y in EntryIds(QueueOf(s, k)) <==> Waiting(s, k, y)
  {
    forall y | y in EntryIds(QueueOf(s, k)) ensures Waiting(s, k, y) {
      var i :| 0 <= i < |QueueOf(s, k)| && QueueOf(s, k)[i].id == y;
    }
    forall y | Waiting(s, k, y) ensures y in EntryIds(QueueOf(s, k)) {
      assert InQueue(QueueOf(s, k), y);
      var i :| 0 <= i < |QueueOf(s, k)| && QueueOf(s, k)[i].id == y;
      assert QueueOf(s, k)[i] in QueueOf(s, k);
    }
  }

  lemma SupersedeEffect(s: Sched, k: RuleKey, cancelled: set<RunId>)
    requires Tables(s) && k in s.active && k in s.queues
    requires forall y :: y in EntryIds(QueueOf(s, k)) <==> Waiting(s, k, y)
    ensures Flushed(s, Supersede(s, k, cancelled), {k}, EntryIds(QueueOf(s, k)), Replaced)
    ensures Tables(Supersede(s, k, cancelled))
    ensures Pending(Supersede(s, k, cancelled).order, Supersede(s, k, cancelled).queues) <= Pending(s.order, s.queues)
  {
    PendingUpdate(s.order, s.queues, k, []);
  }

  lemma SupersedeKeeps(s: Sched, k: RuleKey, cancelled: set<RunId>)
    requires Inv(s) && k in s.active && k in s.queues
    ensures var t := Supersede(s, k, cancelled);
            && Inv(t) && QueueOf(t, k) == [] && k in t.active && k in t.queues
            && (FirstComeFirstServed(s) ==> FirstComeFirstServed(t))
  {
    var t := Supersede(s, k, cancelled);
    var ids := EntryIds(QueueOf(s, k));
    WaitingIds(s, k);
    SupersedeEffect(s, k, cancelled);
    var gone := s.active[k] * cancelled;
    SupersedeDisjoint(s, t, k, gone, ids);
    ReplacedCounts(s.log, gone, ids);
    ReplacedLogged(s, t, k, gone, ids);
    FlushedKeeps(s, t, {k}, ids, Replaced);
  }

  lemma SupersedeConserves(s: Sched, k: RuleKey, cancelled: set<RunId>)
    requires k in s.active && k in s.queues && WorkConserving(s)
    ensures WorkConserving(Supersede(s, k, cancelled))
  {
    forall x ensures Conserves(Supersede(s, k, cancelled), x) { assert Conserves(s, x); }
  }

  lemma WithdrawnEffect(s: Sched, k: RuleKey)
    requires Tables(s)
    requires forall y :: y in EntryIds(QueueOf(s, k)) <==> Waiting(s, k, y)
    ensures Flushed(s, Withdrawn(s, k), {k}, EntryIds(QueueOf(s, k)), Dropped)
    ensures Tables(Withdrawn(s, k))
    ensures Pending(Withdrawn(s, k).order, Withdrawn(s, k).queues) <= Pending(s.order, s.queues)
  {
    PendingWithout(s.order, s.queues, k);
  }

  lemma DropRuleKeeps(s: Sched, k: RuleKey)
    requires Inv(s)
    ensures Inv(DropRule(s, k)) && DropRule(s, k).started == s.started
    ensures FirstComeFirstServed(s) ==> FirstComeFirstServed(DropRule(s, k))
    ensures WorkConserving(s) ==> WorkConserving(DropRule(s, k))
  {
    var ids := EntryIds(QueueOf(s, k));
    var t := Withdrawn(s, k);
    WaitingIds(s, k);
    WithdrawnEffect(s, k);
    DroppedLogged(s, t, {k}, ids);
    FlushedKeeps(s, t, {k}, ids, Dropped);
    PruneKeeps(t, k);
    if FirstComeFirstServed(t) { SameFair(t, Prune(t, k)); }
    if WorkConserving(s) {
      WithdrawnConserves(s, k);
      SameConserving(t, Prune(t, k));
    }
  }

  lemma WithdrawnConserves(s: Sched, k: RuleKey)
    requires WorkConserving(s)
    ensures WorkConserving(Withdrawn(s, k))
  {
    forall x ensures Conserves(Withdrawn(s, k), x) { assert Conserves(s, x); }
  }

  lemma ShutdownEffect(s: Sched)
    requires Placement(s)
    ensures Flushed(s, Shutdown(s), s.queues.Keys, QueuedIds(s), Dropped)
  {
    var t := Shutdown(s);
    forall x, y | x in s.queues && Waiting(s, x, y) ensures y in QueuedIds(s) {
      WaitingIds(s, x);
      var e :| e in QueueOf(s, x) && e.id == y;
    }
    forall y | y in QueuedIds(s)
      ensures y in s.arrivals && s.arrivals[y].key in s.queues && Waiting(s, s.arrivals[y].key, y)
    {
      var x, e :| x in s.queues && e in s.queues[x] && e.id == y;
      WaitingIds(s, x);
      assert e in QueueOf(s, x);
    }
  }

  lemma ShutdownKeeps(s: Sched)
    requires Inv(s)
    ensures Inv(Shutdown(s)) && WorkConserving(Shutdown(s)) && Shutdown(s).started == s.started
    ensures FirstComeFirstServed(s) ==> FirstComeFirstServed(Shutdown(s))
  {
    var t := Shutdown(s);
    ShutdownEffect(s);
    DroppedLogged(s, t, s.queues.Keys, QueuedIds(s));
    FlushedKeeps(s, t, s.queues.Keys, QueuedIds(s), Dropped);
  }

  // ----- runs that leave -----------------------------------------------------------

  lemma DeactivateKeeps(s: Sched, k: RuleKey, id: RunId)
    requires Inv(s)
    ensures Inv(Deactivate(s, k, id)) && OnlyRule(s, Deactivate(s, k, id), k)
    ensures FirstComeFirstServed(s) ==> FirstComeFirstServed(Deactivate(s, k, id))
  {
    var t := Deactivate(s, k, id);
    DeactivateEffect(s, k, id);
    ShrunkKeeps(s, t);
  }

  /** `t` is `s` with smaller active sets. */
  ghost predicate Shrunk(s: Sched, t: Sched) {
    && (forall x :: Active(t, x) <= Active(s, x) && Exec(t, x) == Exec(s, x) && QueueOf(t, x) == QueueOf(s, x))
    && t.fates == s.fates && t.started == s.started && t.arrivals == s.arrivals && t.log == s.log
    && t.workers == s.workers && t.maxWorkers == s.maxWorkers && t.maxPending == s.maxPending
    && t.order == s.order && t.queues == s.queues && t.closing == s.closing && t.removed == s.removed
    && t.active.Keys == s.active.Keys
  }

  lemma DeactivateEffect(s: Sched, k: RuleKey, id: RunId)
    ensures Shrunk(s, Deactivate(s, k, id)) && OnlyRule(s, Deactivate(s, k, id), k)
  {
  }

  lemma ShrunkMoves(s: Sched, t: Sched)
    requires Shrunk(s, t)
    ensures forall x, y :: Waiting(t, x, y) == Waiting(s, x, y)
    ensures forall x, y :: Running(t, x, y) == Running(s, x, y)
  {
  }

  lemma ShrunkPlacement(s: Sched, t: Sched)
    requires Shrunk(s, t) && Placement(s) && Logged(s)
    ensures Placement(t) && Logged(t)
  {
    ShrunkMoves(s, t);
  }

  lemma ShrunkOrdered(s: Sched, t: Sched)
    requires Shrunk(s, t) && Ordered(s)
    ensures Ordered(t)
  {
    assert forall x :: QueueOf(t, x) == QueueOf(s, x);
  }

  lemma ShrunkTables(s: Sched, t: Sched)
    requires Shrunk(s, t) && Tables(s) && Bounded(s)
    ensures Tables(t) && Bounded(t)
  {
    assert forall x :: QueueOf(t, x) == QueueOf(s, x);
  }

  lemma ShrunkFair(s: Sched, t: Sched)
    requires Shrunk(s, t) && FirstComeFirstServed(s)
    ensures FirstComeFirstServed(t)
  {
    ShrunkMoves(s, t);
  }

  lemma ShrunkKeeps(s: Sched, t: Sched)
    requires Inv(s) && Shrunk(s, t)
    ensures Inv(t)
    ensures FirstComeFirstServed(s) ==> FirstComeFirstServed(t)
  {
    ShrunkPlacement(s, t);
    ShrunkOrdered(s, t);
    ShrunkTables(s, t);
    if FirstComeFirstServed(s) { ShrunkFair(s, t); }
  }

  lemma RetireKeeps(s: Sched, k: RuleKey, id: RunId)
    requires Inv(s)
    ensures Inv(Retire(s, k, id)) && OnlyRule(s, Retire(s, k, id), k)
    ensures FirstComeFirstServed(s) ==> FirstComeFirstServed(Retire(s, k, id))
    ensures WorkConserving(s) ==> WorkConserving(Retire(s, k, id))
  {
    var t := Deactivate(s, k, id);
    DeactivateKeeps(s, k, id);
    DispatchOneKeeps(t, k);
    OnlyRuleTransitive(s, t, Retire(s, k, id), k);
    if WorkConserving(s) {
      forall x ensures Conserves(Retire(s, k, id), x) {
        if x != k { OnlyRuleConserves(s, Retire(s, k, id), k, x); }
      }
    }
  }

  lemma OnlyRuleTransitive(s: Sched, t: Sched, u: Sched, k: RuleKey)
    requires OnlyRule(s, t, k) && OnlyRule(t, u, k)
    ensures OnlyRule(s, u, k)
  {
  }

  /** `t` is `s` with run `id` of rule `k` gone from its worker. */
  ghost predicate Left(s: Sched, t: Sched, k: RuleKey, id: RunId, fate: Fate) {
    && (forall x :: Exec(t, x) == if x == k then Exec(s, k) - {id} else Exec(s, x))
    && (forall x :: Active(t, x) <= Active(s, x) && QueueOf(t, x) == QueueOf(s, x))
    && id !in Active(t, k)
    && t.fates == s.fates[id := fate] && t.started == s.started && t.arrivals == s.arrivals
    && t.workers == s.workers - 1 && t.maxWorkers == s.maxWorkers && t.maxPending == s.maxPending
    && t.order == s.order && t.queues == s.queues && t.closing == s.closing && t.removed == s.removed
    && t.active.Keys == s.active.Keys
  }

  lemma LeftMoves(s: Sched, t: Sched, k: RuleKey, id: RunId, fate: Fate)
    requires Left(s, t, k, id, fate) && Running(s, k, id)
    ensures forall x, y :: Waiting(t, x, y) == Waiting(s, x, y)
    ensures forall x, y :: Running(t, x, y) <==> Running(s, x, y) && y != id
  {
  }

  lemma LeftPlacement(s: Sched, t: Sched, k: RuleKey, id: RunId, fate: Fate)
    requires Left(s, t, k, id, fate) && Placement(s) && Running(s, k, id)
    ensures Placement(t)
  {
    LeftMoves(s, t, k, id, fate);
    forall x ensures Active(t, x) <= Exec(t, x) {
      if x != k && id in Active(s, x) { assert id in Exec(s, x) && Running(s, x, id); }
    }
  }

  lemma LeftOrdered(s: Sched, t: Sched, k: RuleKey, id: RunId, fate: Fate)
    requires Left(s, t, k, id, fate) && Ordered(s)
    ensures Ordered(t)
  {
    assert forall x :: QueueOf(t, x) == QueueOf(s, x);
  }

  lemma LeftTables(s: Sched, t: Sched, k: RuleKey, id: RunId, fate: Fate)
    requires Left(s, t, k, id, fate) && Tables(s) && Bounded(s)
    ensures Tables(t) && Bounded(t)
  {
    assert forall x :: QueueOf(t, x) == QueueOf(s, x);
  }

  lemma LeftCounting(s: Sched, t: Sched, k: RuleKey, id: RunId, fate: Fate)
    requires Left(s, t, k, id, fate) && Counting(s) && Running(s, k, id)
    ensures Counting(t)
  {
    assert s.started - s.fates.Keys == (t.started - t.fates.Keys) + {id};
    SizeWith(t.started - t.fates.Keys, id);
  }

  lemma LeftLedger(s: Sched, t: Sched, k: RuleKey, id: RunId, fate: Fate)
    requires Left(s, t, k, id, fate) && Ledger(s) && Running(s, k, id)
    ensures Ledger(t)
  {
    assert t.fates.Keys == s.fates.Keys + {id};
  }

  lemma LeftFair(s: Sched, t: Sched, k: RuleKey, id: RunId, fate: Fate)
    requires Left(s, t, k, id, fate) && Running(s, k, id) && FirstComeFirstServed(s)
    ensures FirstComeFirstServed(t)
  {
    LeftMoves(s, t, k, id, fate);
  }

  lemma LeftLogged(s: Sched, t: Sched, k: RuleKey, id: RunId, fate: Fate)
    requires Left(s, t, k, id, fate) && Running(s, k, id) && Logged(s) && fate != Replaced
    requires t.log == if fate == Dropped then s.log + multiset{DroppedNote(id)} else s.log
    ensures Logged(t)
  {
    LeftMoves(s, t, k, id, fate);
  }

  lemma LeftKeeps(s: Sched, t: Sched, k: RuleKey, id: RunId, fate: Fate)
    requires Inv(s) && Left(s, t, k, id, fate) && Running(s, k, id) && Logged(t)
    ensures Inv(t)
    ensures FirstComeFirstServed(s) ==> FirstComeFirstServed(t)
  {
    LeftPlacement(s, t, k, id, fate);
    LeftOrdered(s, t, k, id, fate);
    LeftTables(s, t, k, id, fate);
    LeftCounting(s, t, k, id, fate);
    LeftLedger(s, t, k, id, fate);
    if FirstComeFirstServed(s) { LeftFair(s, t, k, id, fate); }
  }

  lemma ReleaseEffect(s: Sched, k: RuleKey, id: RunId)
    requires id in Exec(s, k) && id !in Active(s, k)
    ensures Left(s, Release(s, k, id, Finished), k, id, Finished)
  {
  }

  lemma UnspawnedEffect(s: Sched, k: RuleKey, id: RunId)
    requires id in Exec(s, k)
    ensures Left(s, Unspawned(s, k, id), k, id, Dropped)
  {
  }

  lemma IsRunning(s: Sched, k: RuleKey, id: RunId)
    requires Placement(s) && id in Exec(s, k)
    ensures Running(s, k, id)
  {
  }

  lemma WorkerDoneKeeps(s: Sched, k: RuleKey, id: RunId)
    requires Inv(s) && id in Exec(s, k) && id !in Active(s, k)
    ensures var t := WorkerDone(s, k, id);
            && Inv(t) && WorkConserving(t) && (FirstComeFirstServed(s) ==> FirstComeFirstServed(t))
            && s.started <= t.started && t.closing == s.closing && t.maxWorkers == s.maxWorkers
  {
    var t := Release(s, k, id, Finished);
    IsRunning(s, k, id);
    ReleaseEffect(s, k, id);
    LeftLogged(s, t, k, id, Finished);
    LeftKeeps(s, t, k, id, Finished);
    PruneKeeps(t, k);
    if FirstComeFirstServed(t) { SameFair(t, Prune(t, k)); }
    DispatchAvailableKeeps(Prune(t, k));
  }

  lemma SpawnFailedKeeps(s: Sched, k: RuleKey, id: RunId)
    requires Inv(s) && id in Exec(s, k)
    ensures var t := SpawnFailed(s, k, id);
            && Inv(t) && WorkConserving(t) && (FirstComeFirstServed(s) ==> FirstComeFirstServed(t))
            && s.started <= t.started && t.closing == s.closing && t.maxWorkers == s.maxWorkers
  {
    var t := Unspawned(s, k, id);
    IsRunning(s, k, id);
    UnspawnedEffect(s, k, id);
    LeftLogged(s, t, k, id, Dropped);
    LeftKeeps(s, t, k, id, Dropped);
    DispatchAvailableKeeps(t);
  }
}
