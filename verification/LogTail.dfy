/** The incremental log reader: it remembers how far it has read and keeps the last lines, and
    answers as if it had read the whole file.
 */
module LogTail {
  import opened Common

  newtype byte = x: int | 0 <= x < 256

  type Bytes = seq<byte>

  const NEWLINE: byte := 10
  const RETURN: byte := 13
  const KEPT := 2000

  /** A log file when it is read: the identity and time stat reports, the size stat reported just
      before, and the bytes found. */
  datatype File = File(key: int, statSize: nat, mtime: int, content: Bytes)

  /** What the reader keeps between calls. */
  datatype Cache = Cache(key: Option<int>, offset: nat, mtime: int, total: nat, pending: Bytes, tail: seq<string>)

  datatype Answer = Answer(lines: seq<string>, total: nat)

  // ----- lines of a whole file -----------------------------------------------------

  /** Where the first newline is, or the length. */
  function LineEnd(b: Bytes): (n: nat)
    ensures n <= |b| && NEWLINE !in b[..n] && (n < |b| ==> b[n] == NEWLINE)
  {
    if b == [] || b[0] == NEWLINE then 0
    else
      var n := 1 + LineEnd(b[1..]);
      assert b[..n] == [b[0]] + b[1..][..n - 1];
      n
  }

  /** The parts of `split` before the last newline, and the part after it. */
  function Complete(b: Bytes): seq<Bytes>
    decreases |b|
  {
    var n := LineEnd(b);
    if n == |b| then [] else [b[..n]] + Complete(b[n + 1..])
  }

  function Rest(b: Bytes): Bytes
    decreases |b|
  {
    var n := LineEnd(b);
    if n == |b| then b else Rest(b[n + 1..])
  }

  function WithoutReturns(line: Bytes): Bytes {
    if line != [] && line[|line| - 1] == RETURN then WithoutReturns(line[..|line| - 1]) else line
  }

  function Decoded(lines: seq<Bytes>, decode: Bytes -> string): seq<string> {
    seq(|lines|, i requires 0 <= i < |lines| => decode(WithoutReturns(lines[i])))
  }

  /** All lines of a file; an unfinished last line counts as one. */
  function AllLines(content: Bytes, decode: Bytes -> string): seq<string> {
    Decoded(Complete(content), decode) + (if Rest(content) == [] then [] else [decode(Rest(content))])
  }

  function Clamp(lines: int): nat { if lines < 1 then 1 else if lines > KEPT then KEPT else lines }

  /** The answer from reading the whole file anew. */
  function FullRead(content: Bytes, lines: int, decode: Bytes -> string): Answer {
    var all := AllLines(content, decode);
    Answer(Last(Clamp(lines), all), |all|)
  }

  // ----- what an answer is ---------------------------------------------------------

  /** The lines, each with its newline. */
  function Unsplit(lines: seq<Bytes>): Bytes {
    if lines == [] then [] else lines[0] + [NEWLINE] + Unsplit(lines[1..])
  }

  ghost predicate NoNewline(lines: seq<Bytes>) { forall i :: 0 <= i < |lines| ==> NEWLINE !in lines[i] }

  /** The bytes are these lines and this rest, and no newline is left in any. */
  ghost predicate Splits(b: Bytes, lines: seq<Bytes>, rest: Bytes) {
    b == Unsplit(lines) + rest && NoNewline(lines) && NEWLINE !in rest
  }

  /** The complete lines and the rest are the only lines without a newline that make up the bytes. */
  lemma LinesAreExact(b: Bytes, lines: seq<Bytes>, rest: Bytes)
    ensures lines == Complete(b) && rest == Rest(b) <==> Splits(b, lines, rest)
  {
    SplitIsExact(b);
    if Splits(b, lines, rest) { UnsplitSplits(lines, rest); }
  }

  lemma {:induction false} SplitIsExact(b: Bytes)
    ensures Splits(b, Complete(b), Rest(b))
    decreases |b|
  {
    if LineEnd(b) < |b| {
      var (first, after) := (b[..LineEnd(b)], b[LineEnd(b) + 1..]);
      SplitIsExact(after);
      SplitsBehind(first, after, Complete(after), Rest(after));
      CutAtNewline(b);
    } else {
      Unbroken(b);
    }
  }

  lemma CutAtNewline(b: Bytes)
    requires LineEnd(b) < |b|
    ensures b == b[..LineEnd(b)] + [NEWLINE] + b[LineEnd(b) + 1..]
  {
    CutAt(b, LineEnd(b));
  }

  lemma CutAt(b: Bytes, n: nat)
    requires n < |b|
    ensures b == b[..n] + [b[n]] + b[n + 1..]
  {
  }

  lemma Unbroken(b: Bytes)
    requires LineEnd(b) == |b|
    ensures Splits(b, Complete(b), Rest(b))
  {
    assert b[..|b|] == b;
    assert Complete(b) == [] && Rest(b) == b;
    assert [] + b == b;
  }

  lemma SplitsBehind(first: Bytes, b: Bytes, lines: seq<Bytes>, rest: Bytes)
    requires Splits(b, lines, rest) && NEWLINE !in first
    ensures Splits(first + [NEWLINE] + b, [first] + lines, rest)
  {
    assert ([first] + lines)[1..] == lines;
    assert first + [NEWLINE] + (Unsplit(lines) + rest) == first + [NEWLINE] + Unsplit(lines) + rest;
  }

  lemma {:induction false} UnsplitSplits(lines: seq<Bytes>, rest: Bytes)
    requires NoNewline(lines) && NEWLINE !in rest
    ensures Complete(Unsplit(lines) + rest) == lines && Rest(Unsplit(lines) + rest) == rest
  {
    if lines == [] {
      assert Unsplit(lines) + rest == rest;
      assert LineEnd(rest) == |rest|;
    } else {
      UnsplitSplits(lines[1..], rest);
      var after := Unsplit(lines[1..]) + rest;
      assert Unsplit(lines) + rest == lines[0] + [NEWLINE] + after;
      FirstOf(lines[0], after);
      assert [lines[0]] + lines[1..] == lines;
    }
  }

  lemma FirstOf(first: Bytes, after: Bytes)
    requires NEWLINE !in first
    ensures var b := first + [NEWLINE] + after;
            Complete(b) == [first] + Complete(after) && Rest(b) == Rest(after)
  {
    var b := first + [NEWLINE] + after;
    assert b[..|first|] == first && b[|first| + 1..] == after;
    LineEndIs(b, |first|);
  }

  /** Returns at the end of a line are dropped, all of them and nothing else. */
  lemma {:induction false} ReturnsAreDropped(line: Bytes)
    ensures var r := WithoutReturns(line);
            && r <= line && (forall i :: |r| <= i < |line| ==> line[i] == RETURN)
            && (r != [] ==> r[|r| - 1] != RETURN)
    decreases |line|
  {
    if line != [] && line[|line| - 1] == RETURN { ReturnsAreDropped(line[..|line| - 1]); }
  }

  /** The answer of a full read: how many lines there are, and as many of the last as were asked for,
      at least one and at most 2000, in the file's order. */
  lemma FullReadIs(content: Bytes, lines: int, decode: Bytes -> string)
    ensures var (complete, rest, answer) := (Complete(content), Rest(content), FullRead(content, lines, decode));
            && answer.total == |complete| + (if rest == [] then 0 else 1)
            && Asked(|answer.lines|, answer.total, lines)
            && EndOf(answer, complete, rest, decode)
  {
    var all := AllLines(content, decode);
    AllLinesAre(content, decode);
    EndIs(Clamp(lines), all, Complete(content), Rest(content), decode);
    HowMany(all, lines);
  }

  ghost predicate EndOf(answer: Answer, complete: seq<Bytes>, rest: Bytes, decode: Bytes -> string) {
    forall i :: 0 <= i < |answer.lines| ==>
      answer.lines[i] == LineAt(answer.total - |answer.lines| + i, complete, rest, decode)
  }

  ghost predicate AreLines(all: seq<string>, complete: seq<Bytes>, rest: Bytes, decode: Bytes -> string) {
    forall k :: 0 <= k < |all| ==> all[k] == LineAt(k, complete, rest, decode)
  }

  lemma EndIs(n: nat, all: seq<string>, complete: seq<Bytes>, rest: Bytes, decode: Bytes -> string)
    requires AreLines(all, complete, rest, decode)
    ensures EndOf(Answer(Last(n, all), |all|), complete, rest, decode)
  {
  }

  lemma HowMany<T>(all: seq<T>, lines: int)
    ensures Asked(|Last(Clamp(lines), all)|, |all|, lines)
  {
  }

  /** How many lines come of a file with this many. */
  predicate Asked(n: nat, total: nat, lines: int) {
    && (1 <= lines <= KEPT && lines <= total ==> n == lines)
    && (lines <= 1 && total > 0 ==> n == 1)
    && (lines > KEPT && total > KEPT ==> n == KEPT)
    && (total <= KEPT && total <= lines ==> n == total)
  }

  /** The k-th line of the file. */
  function LineAt(k: int, complete: seq<Bytes>, rest: Bytes, decode: Bytes -> string): string {
    if 0 <= k < |complete| then decode(WithoutReturns(complete[k])) else decode(rest)
  }

  lemma AllLinesAre(content: Bytes, decode: Bytes -> string)
    ensures var (all, complete, rest) := (AllLines(content, decode), Complete(content), Rest(content));
            |all| == |complete| + (if rest == [] then 0 else 1) && AreLines(all, complete, rest, decode)
  {
  }

  // ----- splitting in pieces -------------------------------------------------------

  lemma LineEndIs(b: Bytes, n: nat)
    requires n < |b| && b[n] == NEWLINE && NEWLINE !in b[..n]
    ensures LineEnd(b) == n
  {
    var m := LineEnd(b);
    forall k | 0 <= k < n ensures b[k] != NEWLINE { assert b[..n][k] in b[..n]; }
    forall k | 0 <= k < m ensures b[k] != NEWLINE { assert b[..m][k] in b[..m]; }
  }

  /** Splitting what is left over together with the next piece goes on where the first piece ended. */
  lemma {:induction false} SplitJoin(a: Bytes, b: Bytes)
    ensures Complete(a + b) == Complete(a) + Complete(Rest(a) + b) && Rest(a + b) == Rest(Rest(a) + b)
    decreases |a|
  {
    var n := LineEnd(a);
    if n < |a| {
      SplitJoin(a[n + 1..], b);
      SplitJoinLine(a, b);
    } else {
      assert Complete(a) == [] && Rest(a) == a;
      assert [] + Complete(a + b) == Complete(a + b);
    }
  }

  lemma {:induction false} SplitJoinLine(a: Bytes, b: Bytes)
    requires LineEnd(a) < |a|
    requires var after := a[LineEnd(a) + 1..];
             && Complete(after + b) == Complete(after) + Complete(Rest(after) + b)
             && Rest(after + b) == Rest(Rest(after) + b)
    ensures Complete(a + b) == Complete(a) + Complete(Rest(a) + b) && Rest(a + b) == Rest(Rest(a) + b)
  {
    var n := LineEnd(a);
    FirstLine(a, b);
    FirstSplit(a, n, a[n + 1..]);
    FirstSplit(a + b, n, a[n + 1..] + b);
    Prepended(a[..n], Complete(a[n + 1..]), Complete(Rest(a) + b));
  }

  lemma {:induction false} FirstSplit(b: Bytes, n: nat, after: Bytes)
    requires LineEnd(b) == n < |b| && after == b[n + 1..]
    ensures Complete(b) == [b[..n]] + Complete(after) && Rest(b) == Rest(after)
  {
  }

  /** More bytes do not change the first line of what has one. */
  lemma {:induction false} FirstLine(a: Bytes, b: Bytes)
    requires LineEnd(a) < |a|
    ensures var n := LineEnd(a);
            LineEnd(a + b) == n && (a + b)[..n] == a[..n] && (a + b)[n + 1..] == a[n + 1..] + b
  {
    var n := LineEnd(a);
    assert (a + b)[..n] == a[..n];
    LineEndIs(a + b, n);
  }

  lemma Prepended(first: Bytes, a: seq<Bytes>, b: seq<Bytes>)
    ensures [first] + (a + b) == ([first] + a) + b
  {
  }

  lemma DecodedJoin(a: seq<Bytes>, b: seq<Bytes>, decode: Bytes -> string)
    ensures Decoded(a + b, decode) == Decoded(a, decode) + Decoded(b, decode)
  {
  }

  // ----- what the reader knows -----------------------------------------------------

  /** The cache is what reading exactly the bytes `seen` leaves. */
  ghost predicate Holds(c: Cache, seen: Bytes, decode: Bytes -> string) {
    && c.offset == |seen| && c.pending == Rest(seen) && c.total == |Complete(seen)|
    && c.tail == Last(KEPT, Decoded(Complete(seen), decode))
  }

  predicate Resets(c: Cache, f: File) {
    c.key != Some(f.key) || f.statSize < c.offset || (f.statSize == c.offset && f.mtime != c.mtime)
  }

  /** The bytes the cache stands for after a call: the file's, or the old ones followed by what the
      file holds beyond the old offset. */
  function SeenAfter(c: Cache, seen: Bytes, f: File): Bytes {
    if Resets(c, f) then f.content
    else if |seen| <= |f.content| then seen + f.content[|seen|..]
    else seen
  }

  lemma HoldsMore(c: Cache, seen: Bytes, chunk: Bytes, decode: Bytes -> string)
    requires Holds(c, seen, decode)
    ensures var both := c.pending + chunk;
            Holds(c.(offset := c.offset + |chunk|, pending := Rest(both), total := c.total + |Complete(both)|,
                     tail := Last(KEPT, c.tail + Decoded(Complete(both), decode))), seen + chunk, decode)
  {
    SplitJoin(seen, chunk);
    DecodedJoin(Complete(seen), Complete(c.pending + chunk), decode);
    LastOfLast(KEPT, Decoded(Complete(seen), decode), Decoded(Complete(c.pending + chunk), decode));
  }

  /** The kept lines are enough for any number of lines that can be asked for. */
  lemma AnswerIsFullRead(c: Cache, seen: Bytes, lines: int, decode: Bytes -> string)
    requires Holds(c, seen, decode)
    ensures AnswerFrom(c, lines, decode) == FullRead(seen, lines, decode)
  {
    var complete := Decoded(Complete(seen), decode);
    var open := if Rest(seen) == [] then [] else [decode(Rest(seen))];
    LastOfLess(KEPT, Clamp(lines), complete, open);
  }

  lemma LastOfLess<T>(kept: nat, n: nat, a: seq<T>, b: seq<T>)
    requires n <= kept
    ensures Last(n, Last(kept, a) + b) == Last(n, a + b)
  {
  }

  function AnswerFrom(c: Cache, lines: int, decode: Bytes -> string): Answer {
    Answer(Last(Clamp(lines), c.tail + (if c.pending == [] then [] else [decode(c.pending)])),
           c.total + (if c.pending == [] then 0 else 1))
  }

  // ----- the reader ----------------------------------------------------------------

  class LogFiles {
    const decode: Bytes -> string
    var key: Option<int>
    var offset: nat
    var mtime: int
    var total: nat
    var pending: Bytes
    var tail: seq<string>
    ghost var seen: Bytes

    ghost function Now(): Cache
      reads this
    {
      Cache(key, offset, mtime, total, pending, tail)
    }

    constructor (decode: Bytes -> string)
      ensures this.decode == decode && key == None && seen == [] && Holds(Now(), seen, decode)
    {
      this.decode := decode;
      key := None;
      offset := 0;
      mtime := 0;
      total := 0;
      pending := [];
      tail := [];
      seen := [];
    }

    /** `tail`: the answer is that of a full read of the bytes the reader stands for after the
        call, in whatever chunks the file is read. */
    method Tail(lines: int, file: Option<File>) returns (answer: Answer)
      requires Holds(Now(), seen, decode)
      modifies this
      ensures Holds(Now(), seen, decode)
      ensures file.None? ==> Now() == old(Now()) && seen == old(seen) && answer == Answer([], 0)
      ensures file.Some? ==> seen == SeenAfter(old(Now()), old(seen), file.value)
      ensures file.Some? ==> answer == FullRead(seen, lines, decode)
      ensures file.Some? ==> key == Some(file.value.key) && mtime == file.value.mtime
    {
      if file.None? { return Answer([], 0); }
      var f := file.value;
      if Resets(Cache(key, offset, mtime, total, pending, tail), f) {
        key := Some(f.key);
        offset := 0;
        total := 0;
        pending := [];
        tail := [];
        seen := [];
      }
      ReadOn(f.content);
      mtime := f.mtime;
      AnswerIsFullRead(Now(), seen, lines, decode);
      answer := AnswerFrom(Cache(key, offset, mtime, total, pending, tail), lines, decode);
    }

    /** The reading loop, from the offset to the end. */
    method ReadOn(content: Bytes)
      requires Holds(Now(), seen, decode)
      modifies this
      ensures Holds(Now(), seen, decode) && key == old(key) && mtime == old(mtime)
      ensures seen == if old(offset) <= |content| then old(seen) + content[old(offset)..] else old(seen)
    {
      var at := offset;
      while at < |content|
        invariant Holds(Now(), seen, decode) && key == old(key) && mtime == old(mtime)
        invariant old(offset) <= |content| ==> at <= |content| && seen == old(seen) + content[old(offset)..at]
        invariant at == offset && (old(offset) > |content| ==> seen == old(seen))
      {
        var size: nat :| 0 < size <= |content| - at;
        var chunk := content[at..at + size];
        var both := pending + chunk;
        HoldsMore(Now(), seen, chunk, decode);
        assert old(seen) + content[old(offset)..at] + chunk == old(seen) + content[old(offset)..at + size];
        var parts := Complete(both);
        pending := Rest(both);
        total := total + |parts|;
        tail := Last(KEPT, tail + Decoded(parts, decode));
        at := at + size;
        offset := at;
        seen := seen + chunk;
      }
    }
  }

  // ----- when the answers are right ------------------------------------------------

  /** Between two calls the file was only appended to, or was changed in a way its identity, size or
      time betrays. */
  predicate Detected(before: File, after: File) {
    || before.key != after.key || after.statSize < |before.content|
    || (after.statSize == |before.content| && after.mtime != before.mtime)
  }

  /** A reader that stands for a file's bytes then stands for the next file's bytes exactly when
      the change was an append or was detected. */
  lemma RightIff(c: Cache, before: File, after: File, decode: Bytes -> string)
    requires Holds(c, before.content, decode) && c.key == Some(before.key) && c.mtime == before.mtime
    ensures SeenAfter(c, before.content, after) == after.content <==>
      Detected(before, after) || before.content <= after.content
  {
    if !Detected(before, after) && |before.content| <= |after.content| {
      var mixed := before.content + after.content[|before.content|..];
      assert mixed[..|before.content|] == before.content;
      assert after.content == after.content[..|before.content|] + after.content[|before.content|..];
    }
  }

  /** Every change in the series of files was an append or detected. */
  ghost predicate Honest(files: seq<File>) {
    forall i :: 0 <= i < |files| - 1 ==> Detected(files[i], files[i + 1]) || files[i].content <= files[i + 1].content
  }

  /** The reader before the i-th call of a series. */
  ghost predicate Ready(c: Cache, seen: Bytes, files: seq<File>, i: nat, decode: Bytes -> string)
    requires i <= |files|
  {
    && Holds(c, seen, decode)
    && if i == 0 then c.key == None
       else seen == files[i - 1].content && c.key == Some(files[i - 1].key) && c.mtime == files[i - 1].mtime
  }

  lemma NextIsRight(c: Cache, seen: Bytes, files: seq<File>, i: nat, decode: Bytes -> string)
    requires Honest(files) && i < |files| && Ready(c, seen, files, i, decode)
    ensures SeenAfter(c, seen, files[i]) == files[i].content
  {
    if i > 0 {
      assert Detected(files[i - 1], files[i - 1 + 1]) || files[i - 1].content <= files[i - 1 + 1].content;
      RightIff(c, files[i - 1], files[i], decode);
    }
  }

  ghost predicate AnswersRight(answers: seq<Answer>, files: seq<File>, lines: seq<int>, decode: Bytes -> string)
    requires |answers| <= |files| == |lines|
  {
    forall i :: 0 <= i < |answers| ==> answers[i] == FullRead(files[i].content, lines[i], decode)
  }

  /** Over any series of calls, any appends and any detected truncations or rotations between them,
      every answer is that of a full read. */
  method ReadAll(files: seq<File>, lines: seq<int>, decode: Bytes -> string) returns (answers: seq<Answer>)
    requires Honest(files) && |lines| == |files|
    ensures |answers| == |files| && AnswersRight(answers, files, lines, decode)
  {
    var reader := new LogFiles(decode);
    answers := [];
    while |answers| < |files|
      invariant |answers| <= |files| && reader.decode == decode
      invariant Ready(reader.Now(), reader.seen, files, |answers|, decode)
      invariant AnswersRight(answers, files, lines, decode)
    {
      var i := |answers|;
      NextIsRight(reader.Now(), reader.seen, files, i, decode);
      var answer := reader.Tail(lines[i], Some(files[i]));
      answers := answers + [answer];
    }
  }

  /** A rewrite in place that leaves the file no shorter goes unnoticed, and the answer mixes old
      and new lines. */
  lemma UnnoticedRewriteMixes(c: Cache, key: int, mtime: int, later: int, decode: Bytes -> string)
    requires var before := File(key, 2, mtime, [97, NEWLINE]);
             Holds(c, before.content, decode) && c.key == Some(key) && c.mtime == mtime
    requires decode([97]) != decode([98])
    ensures var after := File(key, 4, later, [98, NEWLINE, 99, NEWLINE]);
            && FullRead(SeenAfter(c, [97, NEWLINE], after), 2, decode).lines == [decode([97]), decode([99])]
            && FullRead(after.content, 2, decode).lines == [decode([98]), decode([99])]
  {
    var after := File(key, 4, later, [98, NEWLINE, 99, NEWLINE]);
    assert after.content[2..] == [99, NEWLINE];
    assert SeenAfter(c, [97, NEWLINE], after) == [97, NEWLINE, 99, NEWLINE];
    TwoLines(97, 99, decode);
    TwoLines(98, 99, decode);
  }

  lemma TwoLines(a: byte, b: byte, decode: Bytes -> string)
    requires a != NEWLINE && b != NEWLINE && a != RETURN && b != RETURN
    ensures FullRead([a, NEWLINE, b, NEWLINE], 2, decode).lines == [decode([a]), decode([b])]
  {
    var content := [a, NEWLINE, b, NEWLINE];
    LineEndIs(content, 1);
    assert content[..1] == [a] && content[2..] == [b, NEWLINE];
    LineEndIs([b, NEWLINE], 1);
    assert [b, NEWLINE][..1] == [b] && [b, NEWLINE][2..] == [];
    assert Complete([]) == [] && Rest([]) == [];
    assert Complete([b, NEWLINE]) == [[b]];
    assert Complete(content) == [[a], [b]];
    assert Rest(content) == [];
    assert WithoutReturns([a]) == [a] && WithoutReturns([b]) == [b];
    assert AllLines(content, decode) == [decode([a]), decode([b])];
  }
}
