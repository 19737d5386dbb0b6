/** The run scheduler as a state machine: one transition per lock section.

    `Sched` holds the scheduler's own tables and a ledger of every run ever submitted.
    The tables decide what happens; the ledger only records it, so that properties of
    whole runs (nothing lost, nothing counted twice, first come first served) can be
    stated about a single state.
 */
module SchedulerModel {
  import opened Common

  type RuleKey = string
  type RunId = string

  // ----- concurrency settings ------------------------------------------------------

  datatype Mode = Single | Queue | Replace | Parallel

  /** A rule's `concurrency` field as found: absent, or an object in which a field of
      the wrong kind reads as None. */
  datatype Concurrency = Absent | Declared(mode: Option<Mode>, maxConcurrency: Option<int>, queueLimit: Option<int>)

  datatype Config = Config(mode: Mode, maxConcurrency: Option<int>, queueLimit: Option<int>)

  const DEFAULT_MAX_CONCURRENCY := 1
  const DEFAULT_QUEUE_LIMIT := 20

  function ConfigOf(raw: Concurrency): Config {
    if raw.Absent? || raw.mode.None? then Config(Parallel, None, None)
    else
      var limit :=
        if raw.maxConcurrency.Some? && raw.maxConcurrency.value >= 1 then raw.maxConcurrency
        else if raw.mode.value != Parallel then Some(DEFAULT_MAX_CONCURRENCY)
        else None;
      var queue :=
        if raw.queueLimit.Some? && raw.queueLimit.value >= 1 then raw.queueLimit.value
        else DEFAULT_QUEUE_LIMIT;
      Config(raw.mode.value, limit, Some(queue))
  }

  /** How many runs of one rule may be active at once. */
  function RunLimit(raw: Concurrency, maxWorkers: nat): int {
    var c := ConfigOf(raw);
    if c.maxConcurrency.Some? then c.maxConcurrency.value
    else if c.mode == Parallel then maxWorkers
    else DEFAULT_MAX_CONCURRENCY
  }

  function QueueLimit(raw: Concurrency): int {
    var c := ConfigOf(raw);
    if c.queueLimit.Some? then c.queueLimit.value else DEFAULT_QUEUE_LIMIT
  }

  // ----- state ---------------------------------------------------------------------

  datatype Entry = Entry(id: RunId, rule: Concurrency)
  datatype Arrival = Arrival(key: RuleKey, ticket: nat)
  datatype Fate = Finished | Dropped | Replaced
  datatype Note = QueuedNote(id: RunId) | DroppedNote(id: RunId) | ReplacedNote(id: RunId)
  datatype Decision = Started | QueuedUp | DroppedNow | ReplacedOthers

  datatype Sched = Sched(
    maxWorkers: nat, maxPending: nat, workers: int,
    active: map<RuleKey, set<RunId>>, executing: map<RuleKey, set<RunId>>,
    order: seq<RuleKey>, queues: map<RuleKey, seq<Entry>>,
    removed: set<RuleKey>, closing: bool, log: multiset<Note>,
    arrivals: map<RunId, Arrival>, started: set<RunId>, fates: map<RunId, Fate>)

  ghost function Active(s: Sched, k: RuleKey): set<RunId> { if k in s.active then s.active[k] else {} }
  ghost function Exec(s: Sched, k: RuleKey): set<RunId> { if k in s.executing then s.executing[k] else {} }
  ghost function QueueOf(s: Sched, k: RuleKey): seq<Entry> { if k in s.queues then s.queues[k] else [] }

  function Pending(order: seq<RuleKey>, queues: map<RuleKey, seq<Entry>>): nat
    requires forall k :: k in order ==> k in queues
  {
    if order == [] then 0 else |queues[order[0]]| + Pending(order[1..], queues)
  }

  function Without(order: seq<RuleKey>, k: RuleKey): (r: seq<RuleKey>)
    ensures forall x :: x in r <==> x in order && x != k
  {
    if order == [] then []
    else if order[0] == k then Without(order[1..], k)
    else [order[0]] + Without(order[1..], k)
  }

  ghost predicate Distinct(order: seq<RuleKey>) {
    forall i, j :: 0 <= i < j < |order| ==> order[i] != order[j]
  }

  // ----- invariants ----------------------------------------------------------------

  ghost predicate Tables(s: Sched) {
    && Distinct(s.order)
    && (forall k :: k in s.order <==> k in s.queues)
    && (forall k :: k in s.queues ==> k in s.active)
    && (forall k :: k in s.removed ==> k !in s.queues)
    && (s.closing ==> s.queues == map[])
  }

  ghost predicate Waiting(s: Sched, k: RuleKey, id: RunId) {
    id in s.arrivals && s.arrivals[id].key == k && id !in s.started && id !in s.fates
  }

  ghost predicate InQueue(q: seq<Entry>, id: RunId) {
    exists i :: 0 <= i < |q| && q[i].id == id
  }

  ghost predicate Running(s: Sched, k: RuleKey, id: RunId) {
    id in s.arrivals && s.arrivals[id].key == k && id in s.started && id !in s.fates
  }

  /** Where runs may be: the executing sets hold exactly the started, unfinished runs of
      their rule, queues hold waiting runs of their rule in order of arrival. */
  ghost predicate Placement(s: Sched) {
    && (forall k :: Active(s, k) <= Exec(s, k))
    && (forall k, id :: id in Exec(s, k) <==> Running(s, k, id))
    && (forall k, i :: 0 <= i < |QueueOf(s, k)| ==> Waiting(s, k, QueueOf(s, k)[i].id))
    && (forall k, id :: Waiting(s, k, id) ==> InQueue(QueueOf(s, k), id))
  }

  /** The arrival number of a submitted run. */
  ghost function TicketOf(s: Sched, id: RunId): int { if id in s.arrivals then s.arrivals[id].ticket else -1 }

  ghost predicate Ordered(s: Sched) {
    forall k, i, j :: 0 <= i < j < |QueueOf(s, k)| ==>
      TicketOf(s, QueueOf(s, k)[i].id) < TicketOf(s, QueueOf(s, k)[j].id)
  }

  ghost predicate Ledger(s: Sched) {
    && s.started <= s.arrivals.Keys
    && s.fates.Keys <= s.arrivals.Keys
    && Tickets(s.arrivals)
  }

  /** Arrival numbers count up from zero, one each. */
  ghost predicate Tickets(arrivals: map<RunId, Arrival>) {
    && (forall id :: id in arrivals ==> arrivals[id].ticket < |arrivals|)
    && (forall a, b :: a in arrivals && b in arrivals && a != b ==> arrivals[a].ticket != arrivals[b].ticket)
  }

  ghost predicate Counting(s: Sched) {
    s.workers == Size(s.started - s.fates.Keys) <= s.maxWorkers
  }

  ghost function Pick(ids: set<RunId>): RunId
    requires ids != {}
  {
    var id :| id in ids;
    id
  }

  /** The number of elements, counted one by one. */
  ghost function Size(ids: set<RunId>): nat { if ids == {} then 0 else 1 + Size(ids - {Pick(ids)}) }

  ghost predicate Bounded(s: Sched)
    requires Tables(s)
  {
    && (forall k :: QueueOf(s, k) != [] ==> |QueueOf(s, k)| <= QueueLimit(QueueOf(s, k)[|QueueOf(s, k)| - 1].rule))
    && Pending(s.order, s.queues) <= s.maxPending
  }

  /** Each dropped run has exactly one `run_dropped` note, and no run is reported
      replaced more than once or while it still waits or is still active. */
  ghost predicate Logged(s: Sched) {
    && (forall id :: s.log[DroppedNote(id)] == if id in s.fates && s.fates[id] == Dropped then 1 else 0)
    && (forall id :: s.log[ReplacedNote(id)] <= 1)
    && (forall id :: s.log[ReplacedNote(id)] == 1 ==> id in s.arrivals)
    && (forall id :: id in s.fates && s.fates[id] == Replaced ==> s.log[ReplacedNote(id)] == 1)
    && (forall k, id :: Waiting(s, k, id) || id in Active(s, k) ==> s.log[ReplacedNote(id)] == 0)
  }

  ghost predicate Inv(s: Sched) {
    Tables(s) && Placement(s) && Ordered(s) && Ledger(s) && Counting(s) && Bounded(s) && Logged(s)
  }

  /** A rule's queue may be non-empty only if every worker is busy or the rule has no
      room for the run at the head. */
  ghost predicate Conserves(s: Sched, k: RuleKey) {
    QueueOf(s, k) != [] ==>
      s.workers >= s.maxWorkers || |Active(s, k)| >= RunLimit(QueueOf(s, k)[0].rule, s.maxWorkers)
  }

  ghost predicate WorkConserving(s: Sched) { forall k :: Conserves(s, k) }

  /** No run that started arrived after a run of the same rule that still waits. */
  ghost predicate FirstComeFirstServed(s: Sched) {
    forall k, w, id :: Waiting(s, k, w) && id in s.started && id in s.arrivals && s.arrivals[id].key == k
      ==> TicketOf(s, id) < TicketOf(s, w)
  }

  // ----- transitions ---------------------------------------------------------------

  ghost function Arrive(s: Sched, k: RuleKey, id: RunId): Sched {
    s.(arrivals := s.arrivals[id := Arrival(k, |s.arrivals|)])
  }

  ghost function Begin(s: Sched, k: RuleKey, id: RunId): Sched {
    s.(active := s.active[k := Active(s, k) + {id}],
       executing := s.executing[k := Exec(s, k) + {id}],
       workers := s.workers + 1, started := s.started + {id})
  }

  ghost function Discard(s: Sched, id: RunId): Sched {
    s.(fates := s.fates[id := Dropped], log := s.log + multiset{DroppedNote(id)})
  }

  ghost function Enqueue(s: Sched, k: RuleKey, e: Entry): Sched {
    s.(queues := s.queues[k := QueueOf(s, k) + [e]], log := s.log + multiset{QueuedNote(e.id)})
  }

  ghost function Open(s: Sched, k: RuleKey): Sched {
    s.(removed := s.removed - {k},
       active := if k in s.active then s.active else s.active[k := {}],
       queues := if k in s.queues then s.queues else s.queues[k := []],
       order := if k in s.queues then s.order else s.order + [k])
  }

  ghost function EntryIds(q: seq<Entry>): set<RunId> { set e | e in q :: e.id }

  ghost function MarkAll(fates: map<RunId, Fate>, ids: set<RunId>, fate: Fate): map<RunId, Fate> {
    map id | id in fates.Keys + ids :: if id in ids then fate else fates[id]
  }

  ghost function ReplacedNotes(ids: set<RunId>): multiset<Note> {
    multiset(set id | id in ids :: ReplacedNote(id))
  }

  ghost function DroppedNotes(ids: set<RunId>): multiset<Note> {
    multiset(set id | id in ids :: DroppedNote(id))
  }

  /** Replace mode: the active runs whose cancellation succeeded leave `active`, and the
      whole queue is replaced. */
  ghost function Supersede(s: Sched, k: RuleKey, cancelled: set<RunId>): Sched
    requires k in s.active && k in s.queues
  {
    var gone := s.active[k] * cancelled;
    var waiting := EntryIds(s.queues[k]);
    s.(active := s.active[k := s.active[k] - gone],
       queues := s.queues[k := []],
       fates := MarkAll(s.fates, waiting, Replaced),
       log := s.log + ReplacedNotes(gone) + ReplacedNotes(waiting))
  }

  ghost predicate HasRoom(s: Sched, k: RuleKey, rule: Concurrency) {
    |Active(s, k)| < RunLimit(rule, s.maxWorkers) && s.workers < s.maxWorkers
  }

  /** What is left of a submission once the mode has been dealt with. */
  ghost function Place(s: Sched, k: RuleKey, rule: Concurrency, id: RunId): Sched
    requires forall x :: x in s.order ==> x in s.queues
  {
    if HasRoom(s, k, rule) then Begin(Arrive(s, k, id), k, id)
    else if |QueueOf(s, k)| >= QueueLimit(rule) then Discard(Arrive(s, k, id), id)
    else if Pending(s.order, s.queues) >= s.maxPending then Discard(Arrive(s, k, id), id)
    else Enqueue(Arrive(s, k, id), k, Entry(id, rule))
  }

  ghost predicate TurnedAway(s: Sched, k: RuleKey, rule: Concurrency) {
    ConfigOf(rule).mode == Single && (Active(s, k) != {} || QueueOf(s, k) != [])
  }

  ghost function Prepared(s: Sched, k: RuleKey, rule: Concurrency, cancelled: set<RunId>): Sched {
    var o := Open(s, k);
    if ConfigOf(rule).mode == Replace then Supersede(o, k, cancelled) else o
  }

  ghost function Submit(s: Sched, k: RuleKey, rule: Concurrency, id: RunId, cancelled: set<RunId>): Sched
    requires forall x :: x in s.order <==> x in s.queues
  {
    if s.closing then Discard(Arrive(s, k, id), id)
    else if TurnedAway(s, k, rule) then Discard(Arrive(Open(s, k), k, id), id)
    else Place(Prepared(s, k, rule, cancelled), k, rule, id)
  }

  ghost predicate CanDispatch(s: Sched, k: RuleKey) {
    && !s.closing && k in s.queues && k in s.active && s.queues[k] != []
    && HasRoom(s, k, s.queues[k][0].rule)
  }

  ghost function StartHead(s: Sched, k: RuleKey): Sched
    requires CanDispatch(s, k)
  {
    Begin(s.(queues := s.queues[k := s.queues[k][1..]]), k, s.queues[k][0].id)
  }

  /** `_dispatch_queued_locked`. */
  ghost function DispatchQueued(s: Sched, k: RuleKey): (r: Sched)
    ensures r.workers >= s.workers && r.maxWorkers == s.maxWorkers
    decreases |QueueOf(s, k)|
  {
    if CanDispatch(s, k) then DispatchQueued(StartHead(s, k), k) else s
  }

  /** `_prune_removed_rule`. */
  ghost function Prune(s: Sched, k: RuleKey): Sched {
    if k in s.removed && Active(s, k) == {} && Exec(s, k) == {} then
      s.(active := s.active - {k}, executing := s.executing - {k},
         queues := s.queues - {k}, order := Without(s.order, k), removed := s.removed - {k})
    else s
  }

  /** One pass over the rules that have a queue, in the order given. */
  ghost function Pass(s: Sched, keys: seq<RuleKey>): (r: Sched)
    ensures r.workers >= s.workers && r.maxWorkers == s.maxWorkers
    decreases |keys|
  {
    if keys == [] then s
    else
      var t := Prune(DispatchQueued(s, keys[0]), keys[0]);
      if t.workers >= t.maxWorkers then t else Pass(t, keys[1..])
  }

  /** `_dispatch_available_locked`: passes until the workers are busy or a pass starts nothing. */
  ghost function DispatchAvailable(s: Sched): Sched
    decreases if s.workers < s.maxWorkers then s.maxWorkers - s.workers else 0
  {
    if s.workers >= s.maxWorkers then s
    else
      var t := Pass(s, s.order);
      if t.workers == s.workers then t else DispatchAvailable(t)
  }

  ghost function Deactivate(s: Sched, k: RuleKey, id: RunId): Sched {
    if k in s.active then s.(active := s.active[k := s.active[k] - {id}]) else s
  }

  /** `_retire_run`. */
  ghost function Retire(s: Sched, k: RuleKey, id: RunId): Sched {
    Prune(DispatchQueued(Deactivate(s, k, id), k), k)
  }

  ghost function RunEvent(s: Sched, id: RunId): Sched {
    if id in s.arrivals && id in Active(s, s.arrivals[id].key) then Retire(s, s.arrivals[id].key, id) else s
  }

  /** A worker gives its slot back. */
  ghost function Release(s: Sched, k: RuleKey, id: RunId, fate: Fate): Sched
    requires k in s.executing
  {
    s.(workers := s.workers - 1, executing := s.executing[k := s.executing[k] - {id}],
       fates := s.fates[id := fate])
  }

  /** A worker has left `_run_entry`: its slot becomes free and waiting runs may start. */
  ghost function WorkerDone(s: Sched, k: RuleKey, id: RunId): Sched
    requires k in s.executing
  {
    DispatchAvailable(Prune(Release(s, k, id, Finished), k))
  }

  ghost function Unspawned(s: Sched, k: RuleKey, id: RunId): Sched
    requires k in s.executing
  {
    var t := Release(s, k, id, Dropped);
    t.(active := if k in t.active then t.active[k := t.active[k] - {id}] else t.active,
       log := t.log + multiset{DroppedNote(id)})
  }

  /** The worker thread of an admitted run could not be created. */
  ghost function SpawnFailed(s: Sched, k: RuleKey, id: RunId): Sched
    requires k in s.executing
  {
    DispatchAvailable(Unspawned(s, k, id))
  }

  ghost function DropRule(s: Sched, k: RuleKey): Sched {
    Prune(Withdrawn(s, k), k)
  }

  ghost function Withdrawn(s: Sched, k: RuleKey): Sched {
    var ids := EntryIds(QueueOf(s, k));
    s.(queues := s.queues - {k}, order := Without(s.order, k), removed := s.removed + {k},
       fates := MarkAll(s.fates, ids, Dropped), log := s.log + DroppedNotes(ids))
  }

  ghost function QueuedIds(s: Sched): set<RunId> {
    set k, e | k in s.queues && e in s.queues[k] :: e.id
  }

  ghost function Shutdown(s: Sched): Sched {
    var ids := QueuedIds(s);
    s.(closing := true, queues := map[], order := [],
       fates := MarkAll(s.fates, ids, Dropped), log := s.log + DroppedNotes(ids))
  }
}
