/** The run history: a bounded ring in memory, a queue, one background writer, and a file that is
    compacted from time to time, kept in agreement.
 */
module History {
  import opened Common
  import opened Values
  import opened Replay
  import KeyedFold

  /** A line of the history file that ends in a newline; a damaged line counts but is not read. */
  datatype Line = Good(packet: Packet) | Damaged | Blank

  /** What follows the last newline: nothing, blanks that reading JSON skips, a whole event, or a piece
      of one. */
  datatype Tail = Clean | Blanks | Unterminated(packet: Packet) | Torn

  /** Nothing that the next line could damage. */
  predicate Closed(tail: Tail) { tail.Clean? || tail.Blanks? }

  datatype File = File(lines: seq<Line>, tail: Tail)

  const BATCH := 128
  const SLACK := 500

  /** `batch` is what the writer has taken from the queue and not yet written. A writer that is `dead`
      still counts as the writer. */
  datatype State = State(
    limit: nat,
    ring: seq<Packet>, pending: seq<Packet>, batch: seq<Packet>,
    writer: bool, error: bool, dead: bool,
    file: File, count: nat)

  function LineEvents(lines: seq<Line>): seq<Packet> {
    if lines == [] then [] else (if lines[0].Good? then [lines[0].packet] else []) + LineEvents(lines[1..])
  }

  /** The events a reader finds in the file: the last line needs no newline to be read. */
  function Events(file: File): seq<Packet> {
    LineEvents(file.lines) + (if file.tail.Unterminated? then [file.tail.packet] else [])
  }

  function Filled(lines: seq<Line>): nat {
    if lines == [] then 0 else (if lines[0].Blank? then 0 else 1) + Filled(lines[1..])
  }

  function LineCount(file: File): nat { Filled(file.lines) + (if Closed(file.tail) then 0 else 1) }

  function Lines(packets: seq<Packet>): seq<Line> { seq(|packets|, i requires 0 <= i < |packets| => Good(packets[i])) }

  /** Writing lines at the end of the file. An unfinished line runs into the first of them, and neither
      can be read any more. */
  function Append(file: File, packets: seq<Packet>): File {
    if packets == [] then file
    else if Closed(file.tail) then File(file.lines + Lines(packets), Clean)
    else File(file.lines + [Damaged] + Lines(packets[1..]), Clean)
  }

  lemma {:induction false} EventsJoin(a: seq<Line>, b: seq<Line>)
    ensures LineEvents(a + b) == LineEvents(a) + LineEvents(b)
  {
    if a == [] {
      assert a + b == b;
    } else {
      assert (a + b)[1..] == a[1..] + b;
      EventsJoin(a[1..], b);
      Associate(if a[0].Good? then [a[0].packet] else [], LineEvents(a[1..]), LineEvents(b));
    }
  }

  lemma {:induction false} FilledJoin(a: seq<Line>, b: seq<Line>)
    ensures Filled(a + b) == Filled(a) + Filled(b)
  {
    if a == [] {
      assert a + b == b;
    } else {
      assert (a + b)[1..] == a[1..] + b;
      FilledJoin(a[1..], b);
    }
  }

  lemma Associate<T>(a: seq<T>, b: seq<T>, c: seq<T>)
    ensures (a + b) + c == a + (b + c)
  {
  }

  lemma {:induction false} EventsOfLines(packets: seq<Packet>)
    ensures LineEvents(Lines(packets)) == packets && Filled(Lines(packets)) == |packets|
  {
    if packets != [] {
      assert Lines(packets)[1..] == Lines(packets[1..]);
      EventsOfLines(packets[1..]);
    }
  }

  /** Appending to a clean file adds the events; otherwise the first of them and the unfinished line
      are lost. */
  lemma AppendEvents(file: File, packets: seq<Packet>)
    requires packets != []
    ensures Append(file, packets).tail.Clean?
    ensures Events(Append(file, packets)) ==
      if Closed(file.tail) then Events(file) + packets else LineEvents(file.lines) + packets[1..]
    ensures LineCount(Append(file, packets)) == LineCount(file) + |packets| - (if Closed(file.tail) then 0 else 1)
  {
    if Closed(file.tail) {
      EventsJoin(file.lines, Lines(packets));
      FilledJoin(file.lines, Lines(packets));
      EventsOfLines(packets);
    } else {
      EventsJoin(file.lines + [Damaged], Lines(packets[1..]));
      FilledJoin(file.lines + [Damaged], Lines(packets[1..]));
      EventsJoin(file.lines, [Damaged]);
      FilledJoin(file.lines, [Damaged]);
      EventsOfLines(packets[1..]);
      assert LineEvents([Damaged]) == LineEvents([Damaged][1..]) == [];
      assert Filled([Damaged]) == 1 + Filled([Damaged][1..]) == 1;
    }
  }

  // ----- the steps -----------------------------------------------------------------

  function Open(limit: nat, file: File): State {
    State(limit, Last(limit, Events(file)), [], [], false, false, false, file, LineCount(file))
  }

  /** `record_async`: into the ring and the queue, with a writer; a full queue drops its oldest. */
  function Recorded(s: State, p: Packet): State {
    s.(ring := Last(s.limit, s.ring + [p]), pending := Last(s.limit, s.pending + [p]),
       error := s.error || |s.pending| == s.limit, writer := true)
  }

  function Taken(s: State): State {
    var n := if |s.pending| <= BATCH then |s.pending| else BATCH;
    s.(batch := s.pending[..n], pending := s.pending[n..])
  }

  /** How far reading the file got: an error in it is reported nowhere and ends the list. */
  datatype Read = Everything | Only(n: nat)

  function Found(events: seq<Packet>, read: Read): seq<Packet> {
    if read.Only? && read.n < |events| then events[..read.n] else events
  }

  function Compacted(s: State, read: Read): State {
    var kept := Last(s.limit, Found(Events(s.file), read));
    s.(file := File(Lines(kept), Clean), count := |kept|)
  }

  function Appended(s: State): State {
    s.(file := Append(s.file, s.batch), count := s.count + |s.batch|, batch := [])
  }

  predicate Overlong(s: State) { s.count + |s.batch| > s.limit + SLACK }

  /** `_write_batch`. */
  function Written(s: State, read: Read): State { if Overlong(s) then Compacted(Appended(s), read) else Appended(s) }

  /** An append can raise after some of the lines and a part of the next. */
  predicate CanTear(batch: seq<Packet>, done: nat, rest: Tail) {
    && done <= |batch| && !rest.Blanks? && (!rest.Clean? ==> done < |batch|)
    && (rest.Unterminated? ==> batch[done] == rest.packet)
  }

  function AppendPart(file: File, batch: seq<Packet>, done: nat, rest: Tail): File
    requires CanTear(batch, done, rest)
  {
    var f := Append(file, batch[..done]);
    if rest.Clean? then f else f.(tail := if Closed(f.tail) then rest else Torn)
  }

  function AppendFailed(s: State, done: nat, rest: Tail): State
    requires CanTear(s.batch, done, rest)
  {
    s.(file := AppendPart(s.file, s.batch, done, rest), batch := [], error := true)
  }

  /** Compaction raised, after all of the lines were appended. */
  function CompactionFailed(s: State): State { Appended(s).(error := true) }

  /** An event after the first `done` cannot be encoded: those before it are written, the error is not
      one that the writer catches, and its thread ends. */
  function Died(s: State, done: nat): State
    requires done <= |s.batch|
  {
    s.(file := Append(s.file, s.batch[..done]), batch := [], dead := true)
  }

  /** The same in compaction, of an event read back from the file. */
  function DiedCompacting(s: State): State { Appended(s).(dead := true) }

  datatype Op =
    | Record(packet: Packet) | Take | Leave | Write(read: Read)
    | FailAppend(done: nat, rest: Tail) | FailCompaction | Die(done: nat) | DieCompacting

  ghost predicate Step(s: State, op: Op, t: State) {
    match op
    case Record(p) => t == Recorded(s, p)
    case Take => s.writer && !s.dead && s.batch == [] && s.pending != [] && t == Taken(s)
    case Leave => s.writer && !s.dead && s.batch == [] && s.pending == [] && t == s.(writer := false)
    case Write(read) => s.batch != [] && t == Written(s, read)
    case FailAppend(done, rest) => s.batch != [] && CanTear(s.batch, done, rest) && t == AppendFailed(s, done, rest)
    case FailCompaction => s.batch != [] && Overlong(s) && t == CompactionFailed(s)
    case Die(done) => done < |s.batch| && t == Died(s, done)
    case DieCompacting => s.batch != [] && Overlong(s) && t == DiedCompacting(s)
  }

  /** Any interleaving of recording and writing, failures included, after the file is opened. */
  ghost predicate Execution(limit: nat, file: File, states: seq<State>, ops: seq<Op>) {
    Chain(Step, states, ops) && states[0] == Open(limit, file)
  }

  /** Whenever the file was compacted it could be read. */
  predicate ReadsSucceed(ops: seq<Op>) { forall i :: 0 <= i < |ops| && ops[i].Write? ==> ops[i].read == Everything }

  // ----- agreement -----------------------------------------------------------------

  /** The ring holds the last events of file, batch and queue together. */
  ghost predicate Agrees(s: State) { s.ring == Last(s.limit, Events(s.file) + s.batch + s.pending) }

  /** Kept by every step: bounds, a writer for whatever is not written, and, unless a write failed, the
      queue overflowed or the writer died, a count that no file exceeds. */
  ghost predicate Inv(s: State) {
    && |s.ring| <= s.limit && |s.pending| <= s.limit && |s.batch| <= BATCH
    && (s.pending != [] || s.batch != [] ==> s.writer)
    && (s.dead ==> s.writer && s.batch == [])
    && (!s.error && !s.dead ==> LineCount(s.file) <= s.count)
  }

  /** Unless a write failed, the queue overflowed or the writer died, the file ends in no unfinished
      line and agrees. */
  ghost predicate Sound(s: State) { s.error || s.dead || (Closed(s.file.tail) && Agrees(s)) }

  lemma OpenInv(limit: nat, file: File)
    ensures Inv(Open(limit, file)) && (Closed(file.tail) ==> Sound(Open(limit, file)))
  {
    assert Events(file) + [] + [] == Events(file);
  }

  lemma RecordAgrees(s: State, p: Packet)
    requires Agrees(s) && |s.pending| < s.limit
    ensures Agrees(Recorded(s, p))
  {
    var all := Events(s.file) + s.batch + s.pending;
    LastOfLast(s.limit, all, [p]);
    assert all + [p] == Events(s.file) + s.batch + (s.pending + [p]);
  }

  lemma TakeAgrees(s: State)
    requires Agrees(s) && s.batch == []
    ensures Agrees(Taken(s))
  {
    var t := Taken(s);
    assert s.pending == t.batch + t.pending;
    assert Events(s.file) + [] + s.pending == Events(t.file) + t.batch + t.pending;
  }

  lemma AppendAgrees(s: State)
    requires Agrees(s) && Closed(s.file.tail) && s.batch != []
    ensures Agrees(Appended(s)) && Appended(s).file.tail.Clean?
  {
    AppendEvents(s.file, s.batch);
    assert Events(Appended(s).file) + [] + s.pending == Events(s.file) + s.batch + s.pending;
  }

  lemma CompactedFile(s: State, read: Read)
    ensures var t := Compacted(s, read);
            && Events(t.file) == Last(s.limit, Found(Events(s.file), read)) && LineCount(t.file) == t.count
            && t.count <= s.limit
  {
    EventsOfLines(Last(s.limit, Found(Events(s.file), read)));
  }

  /** Compaction that reads the whole file does not disturb the agreement. */
  lemma CompactAgrees(s: State)
    requires Agrees(s) && s.batch == []
    ensures Agrees(Compacted(s, Everything)) && Compacted(s, Everything).file.tail.Clean?
  {
    CompactedFile(s, Everything);
    var kept := Last(s.limit, Events(s.file));
    LastOfLast(s.limit, Events(s.file), s.pending);
    assert Events(s.file) + [] + s.pending == Events(s.file) + s.pending;
    assert kept + [] + s.pending == kept + s.pending;
  }

  lemma WriteInv(s: State, read: Read)
    requires Inv(s) && s.batch != []
    ensures Inv(Written(s, read)) && (!s.error && !s.dead ==> LineCount(Written(s, read).file) <= s.limit + SLACK)
  {
    AppendEvents(s.file, s.batch);
    CompactedFile(Appended(s), read);
  }

  lemma StepKeeps(s: State, op: Op, t: State)
    requires Inv(s) && Step(s, op, t)
    ensures Inv(t) && t.limit == s.limit && (s.error ==> t.error)
    ensures s.dead ==> t.dead && t.file == s.file
  {
    if op.Write? { WriteInv(s, op.read); }
  }

  /** Agreement can be lost in a step only by a read error in compaction. */
  lemma StepSound(s: State, op: Op, t: State)
    requires Inv(s) && Sound(s) && Step(s, op, t) && (op.Write? ==> op.read == Everything)
    ensures Sound(t)
  {
    if !t.error && !t.dead {
      match op
      case Record(p) => RecordAgrees(s, p);
      case Take => TakeAgrees(s);
      case Leave =>
      case Write(_) =>
        AppendAgrees(s);
        CompactAgrees(Appended(s));
    }
  }

  /** The file stays bounded: a completed write leaves at most `limit + 500` lines. */
  lemma WriteBounds(s: State, read: Read, t: State)
    requires Inv(s) && Step(s, Write(read), t) && !t.error
    ensures LineCount(t.file) <= s.limit + SLACK
  {
    WriteInv(s, read);
  }

  /** Bounds hold in every state. Where the file ended in no unfinished line when opened, and every
      compaction could read it, ring and file agree in every state without an error. */
  lemma {:induction false} EveryStateAgrees(limit: nat, file: File, states: seq<State>, ops: seq<Op>, i: nat)
    requires Execution(limit, file, states, ops) && i <= |ops|
    ensures Inv(states[i]) && (Closed(file.tail) && ReadsSucceed(ops[..i]) ==> Sound(states[i]))
  {
    if i == 0 {
      OpenInv(limit, file);
    } else {
      EveryStateAgrees(limit, file, states, ops, i - 1);
      ChainLink(Step, states, ops, i - 1);
      StepKeeps(states[i - 1], ops[i - 1], states[i]);
      if Closed(file.tail) && ReadsSucceed(ops[..i]) {
        assert forall j :: 0 <= j < i - 1 ==> ops[..i - 1][j] == ops[..i][j];
        assert ops[..i][i - 1] == ops[i - 1];
        StepSound(states[i - 1], ops[i - 1], states[i]);
      }
    }
  }

  function Packets(ops: seq<Op>): seq<Packet> {
    if ops == [] then []
    else Packets(ops[..|ops| - 1]) + PacketOf(ops[|ops| - 1])
  }

  /** The ring is always the last of what was on file at first and has been recorded since, even
      after failed writes. */
  lemma {:induction false} RingIsLastRecorded(limit: nat, file: File, states: seq<State>, ops: seq<Op>, i: nat)
    requires Execution(limit, file, states, ops) && i <= |ops|
    ensures states[i].limit == limit && states[i].ring == Last(limit, Events(file) + Packets(ops[..i]))
  {
    if i == 0 {
      assert ops[..0] == [] && Events(file) + [] == Events(file);
    } else {
      RingIsLastRecorded(limit, file, states, ops, i - 1);
      ChainLink(Step, states, ops, i - 1);
      RingStep(states[i - 1], ops[i - 1], states[i], Events(file) + Packets(ops[..i - 1]));
      PacketsNext(ops, i - 1);
      Associate(Events(file), Packets(ops[..i - 1]), PacketOf(ops[i - 1]));
    }
  }

  function PacketOf(op: Op): seq<Packet> { if op.Record? then [op.packet] else [] }

  lemma PacketsNext(ops: seq<Op>, i: nat)
    requires i < |ops|
    ensures Packets(ops[..i + 1]) == Packets(ops[..i]) + PacketOf(ops[i])
  {
    assert ops[..i + 1][..i] == ops[..i];
  }

  lemma RingStep(s: State, op: Op, t: State, all: seq<Packet>)
    requires Step(s, op, t) && s.ring == Last(s.limit, all)
    ensures t.limit == s.limit && t.ring == Last(s.limit, all + PacketOf(op))
  {
    if op.Record? { LastOfLast(s.limit, all, [op.packet]); } else { assert all + [] == all; }
  }

  // ----- what a successful flush means ---------------------------------------------

  /** `flush` reports success. */
  predicate Flushed(s: State) { !s.writer && !s.error }

  /** The file's last events are the ring, so a restart finds the same. */
  predicate Saved(s: State) { Open(s.limit, s.file).ring == s.ring }

  /** With a file that ends in no unfinished line and is readable when compacted, a successful flush
      means that everything in the ring is saved; the next process finds such a file again. */
  lemma FlushedIsSaved(limit: nat, file: File, states: seq<State>, ops: seq<Op>, i: nat)
    requires Execution(limit, file, states, ops) && i <= |ops| && Flushed(states[i])
    requires Closed(file.tail) && ReadsSucceed(ops[..i])
    ensures Saved(states[i]) && Closed(states[i].file.tail)
    ensures Last(limit, Events(states[i].file)) == Last(limit, Events(file) + Packets(ops[..i]))
  {
    EveryStateAgrees(limit, file, states, ops, i);
    RingIsLastRecorded(limit, file, states, ops, i);
    assert Events(states[i].file) + [] + [] == Events(states[i].file);
  }

  /** A successful flush means saved, in every execution. */
  ghost predicate Dependable(limit: nat, file: File, readsMayFail: bool) {
    forall states, ops :: Execution(limit, file, states, ops) && (readsMayFail || ReadsSucceed(ops)) ==>
      (Flushed(states[|ops|]) ==> Saved(states[|ops|]))
  }

  /** Exactly when `flush` can be relied on: the file ends in no unfinished line when it is opened, and
      no compaction meets a read error. */
  lemma DependableIff(limit: nat, file: File, readsMayFail: bool)
    requires limit >= 1
    ensures Dependable(limit, file, readsMayFail) <==> Closed(file.tail) && !readsMayFail
  {
    if !Closed(file.tail) {
      var states, ops := TailSwallows(limit, file);
    } else if readsMayFail {
      OpenInv(limit, file);
      var states, ops := ReadErrorLoses(Open(limit, file));
    } else {
      forall states, ops | Execution(limit, file, states, ops) && ReadsSucceed(ops) && Flushed(states[|ops|])
        ensures Saved(states[|ops|])
      {
        assert ops[..|ops|] == ops;
        FlushedIsSaved(limit, file, states, ops, |ops|);
      }
    }
  }

  const ONE_PACKET := Packet("run_queued", None, Null)
  const OTHER_PACKET := Packet("run_dropped", None, Null)

  /** A last line without its newline swallows the next event, and flush reports success. */
  lemma TailSwallows(limit: nat, file: File) returns (states: seq<State>, ops: seq<Op>)
    requires limit >= 1 && !Closed(file.tail)
    ensures Execution(limit, file, states, ops) && ReadsSucceed(ops)
    ensures Flushed(states[|ops|]) && !Saved(states[|ops|])
  {
    var before := LineEvents(file.lines);
    var p := if before != [] && before[|before| - 1] == ONE_PACKET then OTHER_PACKET else ONE_PACKET;
    var s := Open(limit, file);
    states, ops := OneEventOps(s, p, Everything);
    OneEventFile(s, p);
    Swallowed(file, p);
    OthersDiffer(limit, before, s.ring, p);
    NotSaved(OneEvent(s, p, Everything), before);
  }

  lemma Swallowed(file: File, p: Packet)
    requires !Closed(file.tail)
    ensures Events(Append(file, [p])) == LineEvents(file.lines)
  {
    AppendEvents(file, [p]);
    assert [p][1..] == [] && LineEvents(file.lines) + [] == LineEvents(file.lines);
  }

  lemma NotSaved(s: State, events: seq<Packet>)
    requires Last(s.limit, Events(s.file)) == Last(s.limit, events) != s.ring
    ensures !Saved(s)
  {
  }

  lemma OthersDiffer(n: nat, a: seq<Packet>, b: seq<Packet>, p: Packet)
    requires n >= 1 && (a != [] ==> a[|a| - 1] != p)
    ensures Last(n, a) != Last(n, b + [p])
  {
    var x, y := Last(n, a), Last(n, b + [p]);
    assert y != [] && y[|y| - 1] == p;
    if a != [] { assert x[|x| - 1] == a[|a| - 1]; }
  }

  lemma OneEventFile(s: State, p: Packet)
    requires s.batch == [] && s.pending == [] && s.limit >= 1
    ensures var t := OneEvent(s, p, Everything);
            && t.ring == Last(s.limit, s.ring + [p]) && t.limit == s.limit
            && Last(s.limit, Events(t.file)) == Last(s.limit, Events(Append(s.file, [p])))
  {
    var taken := Taken(Recorded(s, p));
    assert taken.batch == [p] && taken.file == s.file;
    CompactedFile(Appended(taken), Everything);
    LastOfLast(s.limit, Events(Append(s.file, [p])), []);
    assert Events(Append(s.file, [p])) + [] == Events(Append(s.file, [p]));
    var kept := Last(s.limit, Events(Append(s.file, [p])));
    assert kept + [] == kept;
  }

  /** An idle history records one event, and the writer writes it and leaves. */
  function OneEvent(s: State, p: Packet, read: Read): State { Written(Taken(Recorded(s, p)), read).(writer := false) }

  lemma OneEventOps(s: State, p: Packet, read: Read) returns (states: seq<State>, ops: seq<Op>)
    requires s.batch == [] && s.pending == [] && s.limit >= 1 && !s.error && !s.dead
    ensures Chain(Step, states, ops) && states[0] == s && states[|ops|] == OneEvent(s, p, read)
    ensures ops == [Record(p), Take, Write(read), Leave]
    ensures Taken(Recorded(s, p)).batch == [p] && !OneEvent(s, p, read).error
    ensures !OneEvent(s, p, read).dead
  {
    var a := Recorded(s, p);
    var b := Taken(a);
    var c := Written(b, read);
    states := [s, a, b, c, c.(writer := false)];
    ops := [Record(p), Take, Write(read), Leave];
    assert Step(s, ops[0], a) && Step(a, ops[1], b) && Step(b, ops[2], c) && Step(c, ops[3], states[4]);
  }

  /** Enough events bring the file to its next compaction; if nothing can be read then, all is lost,
      and flush reports success. */
  lemma {:induction false} ReadErrorLoses(s: State) returns (states: seq<State>, ops: seq<Op>)
    requires s.batch == [] && s.pending == [] && s.limit >= 1 && !s.error && !s.dead
    ensures Chain(Step, states, ops) && states[0] == s && Flushed(states[|ops|]) && !Saved(states[|ops|])
    decreases s.limit + SLACK - s.count
  {
    var p := ONE_PACKET;
    if s.count + 1 > s.limit + SLACK {
      states, ops := OneEventOps(s, p, Only(0));
      CompactedFile(Appended(Taken(Recorded(s, p))), Only(0));
      OthersDiffer(s.limit, [], s.ring, p);
    } else {
      var first, start := OneEventOps(s, p, Everything);
      var rest, more := ReadErrorLoses(OneEvent(s, p, Everything));
      states, ops := first[..|start|] + rest, start + more;
      JoinChains(first, start, rest, more);
    }
  }

  lemma JoinChains(a: seq<State>, x: seq<Op>, b: seq<State>, y: seq<Op>)
    requires Chain(Step, a, x) && Chain(Step, b, y) && a[|x|] == b[0]
    ensures Chain(Step, a[..|x|] + b, x + y)
    ensures (a[..|x|] + b)[0] == a[0] && (a[..|x|] + b)[|x + y|] == b[|y|]
  {
    var (c, z) := (a[..|x|] + b, x + y);
    forall i | 0 <= i < |z| ensures Step(c[i], z[i], c[i + 1]) {
      if i < |x| {
        assert Step(a[i], x[i], a[i + 1]);
      } else {
        assert Step(b[i - |x|], y[i - |x|], b[i - |x| + 1]);
      }
    }
  }

  /** Once the writer has died nothing is ever written again, and `flush` never succeeds. */
  lemma {:induction false} DeadWriterStays(
      limit: nat, file: File, states: seq<State>, ops: seq<Op>, i: nat, j: nat)
    requires Execution(limit, file, states, ops) && i <= j <= |ops| && states[i].dead
    ensures states[j].dead && states[j].file == states[i].file && !Flushed(states[j])
  {
    EveryStateAgrees(limit, file, states, ops, j);
    if i < j {
      DeadWriterStays(limit, file, states, ops, i, j - 1);
      EveryStateAgrees(limit, file, states, ops, j - 1);
      ChainLink(Step, states, ops, j - 1);
      StepKeeps(states[j - 1], ops[j - 1], states[j]);
    }
  }

  /** A writer that has not died is never stuck: while anything is unwritten one of its steps can be
      taken. */
  lemma WriterCanMove(s: State)
    requires Inv(s) && s.writer && !s.dead
    ensures exists op: Op, t: State :: !op.Record? && Step(s, op, t)
  {
    if s.batch != [] {
      assert Step(s, Write(Everything), Written(s, Everything));
    } else if s.pending != [] {
      assert Step(s, Take, Taken(s));
    } else {
      assert Step(s, Leave, s.(writer := false));
    }
  }

  /** What is still to be written. Each step of the writer alone makes it less, so a writer that is
      left alone and does not fail comes to its end. */
  function Work(s: State): nat { 2 * |s.pending| + |s.batch| + (if s.writer then 1 else 0) }

  lemma WriterProgresses(s: State, op: Op, t: State)
    requires Step(s, op, t) && !op.Record?
    ensures Work(t) < Work(s)
  {
  }

  // ----- the class -----------------------------------------------------------------

  /** How a write ended; `read` says how far a compaction could read. The last two are not caught and
      end the writer's thread. */
  datatype WriteResult =
    | Succeeded(read: Read) | AppendRaised(done: nat, rest: Tail) | CompactionRaised
    | EncodingRaised(done: nat) | CompactionEncodingRaised

  class RunHistory {
    const limit: nat
    var events: seq<Packet>
    var pending: seq<Packet>
    var batch: seq<Packet>
    var writer: bool
    var writeError: bool
    ghost var dead: bool
    var file: File
    var eventCount: nat

    ghost function Now(): State
      reads this
    {
      State(limit, events, pending, batch, writer, writeError, dead, file, eventCount)
    }

    constructor (maxEvents: int, file: File)
      ensures Now() == Open(if maxEvents < 100 then 100 else maxEvents, file)
    {
      var bound := if maxEvents < 100 then 100 else maxEvents;
      limit := bound;
      var found := ReadEvents(file, Everything);
      var lines := CountEvents(file);
      events := Last(bound, found);
      pending := [];
      batch := [];
      writer := false;
      writeError := false;
      dead := false;
      this.file := file;
      eventCount := lines;
    }

    method RecordAsync(packet: Packet)
      modifies this
      ensures Now() == Recorded(old(Now()), packet)
    {
      events := Last(limit, events + [packet]);
      if |pending| == limit { writeError := true; }
      pending := Last(limit, pending + [packet]);
      if !writer { writer := true; }
    }

    /** The first half of the writer's turn: take a batch, or leave. */
    method TakeBatch() returns (left: bool)
      requires writer && !dead && batch == []
      modifies this
      ensures Now() == if left then old(Now()).(writer := false) else Taken(old(Now()))
      ensures left <==> old(pending) == []
    {
      if pending == [] {
        writer := false;
        return true;
      }
      var n := if |pending| <= BATCH then |pending| else BATCH;
      var i := 0;
      ghost var queued := pending;
      while i < n
        invariant 0 <= i <= n <= |queued|
        invariant batch == queued[..i] && pending == queued[i..]
        invariant Now() == old(Now()).(batch := batch, pending := pending)
      {
        batch := batch + [pending[0]];
        pending := pending[1..];
        i := i + 1;
      }
      left := false;
    }

    /** The second half: write the batch, and compact the file when it has grown too long. */
    method WriteBatch(result: WriteResult)
      requires batch != []
      requires result.AppendRaised? ==> CanTear(batch, result.done, result.rest)
      requires result.CompactionRaised? || result.CompactionEncodingRaised? ==> Overlong(Now())
      requires result.EncodingRaised? ==> result.done < |batch|
      modifies this
      ensures Now() == match result
        case Succeeded(read) => Written(old(Now()), read)
        case AppendRaised(done, rest) => AppendFailed(old(Now()), done, rest)
        case CompactionRaised => CompactionFailed(old(Now()))
        case EncodingRaised(done) => Died(old(Now()), done)
        case CompactionEncodingRaised => DiedCompacting(old(Now()))
    {
      if result.AppendRaised? {
        file := AppendPart(file, batch, result.done, result.rest);
        batch := [];
        writeError := true;
        return;
      }
      if result.EncodingRaised? {
        file := Append(file, batch[..result.done]);
        batch := [];
        dead := true;
        return;
      }
      file := Append(file, batch);
      eventCount := eventCount + |batch|;
      batch := [];
      if eventCount > limit + SLACK {
        match result
        case CompactionRaised => writeError := true;
        case CompactionEncodingRaised => dead := true;
        case Succeeded(read) => Compact(read);
      }
    }

    method Compact(read: Read)
      modifies this
      ensures Now() == Compacted(old(Now()), read)
    {
      var found := ReadEvents(file, read);
      var kept := Last(limit, found);
      file := File(Lines(kept), Clean);
      eventCount := |kept|;
    }

    /** `flush`, once it stops waiting. */
    method Flush() returns (saved: bool)
      requires Inv(Now())
      ensures saved == Flushed(Now())
      ensures saved && Sound(Now()) ==> Last(limit, Events(file)) == events
    {
      saved := !writer && !writeError;
      assert Events(file) + [] + [] == Events(file);
    }

    /** `get_run` and `list_runs` read the ring alone. */
    method Find(id: string, reading: Replay.Reading) returns (result: Option<Run>)
      ensures result.Some? <==> id in KeyedFold.Appearing(RunRules(reading), events)
      ensures result.Some? ==> KeyedFold.IsRecord(RunRules(reading), events, id, result.value)
    {
      result := GetRun(events, id, reading);
    }
  }

  /** What is still to be read once the first lines have been. */
  ghost function Unread(file: File, i: nat): seq<Packet>
    requires i <= |file.lines|
  {
    Events(File(file.lines[i..], file.tail))
  }

  lemma UnreadNext(file: File, i: nat)
    requires i < |file.lines|
    ensures Unread(file, i) == (if file.lines[i].Good? then [file.lines[i].packet] else []) + Unread(file, i + 1)
  {
    assert file.lines[i..][1..] == file.lines[i + 1..];
  }

  lemma CutOff(a: seq<Packet>, b: seq<Packet>)
    ensures Found(a + b, Only(|a|)) == a
  {
  }

  lemma ReadToTheEnd(a: seq<Packet>, file: File, read: Read)
    requires read.Only? ==> |a| <= read.n
    ensures Found(a + Unread(file, |file.lines|), read) ==
      if file.tail.Unterminated? && read != Only(|a|) then a + [file.tail.packet] else a
  {
    var rest := Unread(file, |file.lines|);
    assert file.lines[|file.lines|..] == [] && LineEvents([]) == [];
    assert rest == if file.tail.Unterminated? then [file.tail.packet] else [];
    if read == Only(|a|) { CutOff(a, rest); }
  }

  method ReadEvents(file: File, read: Read) returns (found: seq<Packet>)
    ensures found == Found(Events(file), read)
  {
    found := [];
    var i := 0;
    assert file.lines[0..] == file.lines;
    while i < |file.lines|
      invariant 0 <= i <= |file.lines| && Events(file) == found + Unread(file, i)
      invariant read.Only? ==> |found| <= read.n
    {
      if read == Only(|found|) {
        CutOff(found, Unread(file, i));
        return;
      }
      UnreadNext(file, i);
      if file.lines[i].Good? {
        Associate(found, [file.lines[i].packet], Unread(file, i + 1));
        found := found + [file.lines[i].packet];
      }
      i := i + 1;
    }
    ReadToTheEnd(found, file, read);
    if file.tail.Unterminated? && read != Only(|found|) { found := found + [file.tail.packet]; }
  }

  method CountEvents(file: File) returns (n: nat)
    ensures n == LineCount(file)
  {
    n := 0;
    var i := 0;
    while i < |file.lines|
      invariant 0 <= i <= |file.lines| && Filled(file.lines) == n + Filled(file.lines[i..])
    {
      assert file.lines[i..][1..] == file.lines[i + 1..];
      if !file.lines[i].Blank? { n := n + 1; }
      i := i + 1;
    }
    if !Closed(file.tail) { n := n + 1; }
  }
}
