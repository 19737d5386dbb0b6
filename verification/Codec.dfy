/** The JSON encoding of run data: a one-key wrapper object carries what JSON cannot, and objects
    that look like the wrapper are themselves wrapped.
 */
module Codec {
  import opened Common
  import opened Values

  const WIRE_KEY := "$nmf_value"
  const MAX_SAFE_INTEGER := 0x20_0000_0000_0000 - 1
  const MAX_DEPTH := 64
  const DAY := 86400 * 1000000
  const MAX_DAYS := 999999999

  /** `canonical` parses the text of a date, path, decimal, … and prints it back; None is a text
      the constructor refuses. */
  type Canonical = (StampKind, string) -> Option<string>

  ghost predicate ValidCanonical(canonical: Canonical) {
    forall kind, text, out :: canonical(kind, text) == Some(out) ==> canonical(kind, out) == Some(out)
  }

  /** A value the engine can hold: printed scalars are canonical, durations are normalized. */
  predicate Valid(v: Value, canonical: Canonical) {
    match v
    case Stamp(kind, text) => canonical(kind, text) == Some(text)
    case Duration(days, seconds, microseconds) =>
      -MAX_DAYS <= days <= MAX_DAYS && 0 <= seconds < 86400 && 0 <= microseconds < 1000000
    case List(items) => forall i :: 0 <= i < |items| ==> Valid(items[i], canonical)
    case Dict(fields) => forall k :: k in fields ==> Valid(fields[k], canonical)
    case _ => true
  }

  /** `copy_value`: nothing in the value is nested deeper than the limit. */
  predicate Within(v: Value, limit: int)
    decreases v
  {
    limit >= 0 &&
    match v
    case List(items) => forall i :: 0 <= i < |items| ==> Within(items[i], limit - 1)
    case Dict(fields) => forall k :: k in fields ==> Within(fields[k], limit - 1)
    case _ => true
  }

  // ----- decimal text --------------------------------------------------------------

  function Digit(d: nat): char
    requires d < 10
  {
    '0' + d as char
  }

  function ShowNat(n: nat): string {
    if n < 10 then [Digit(n)] else ShowNat(n / 10) + [Digit(n % 10)]
  }

  function ShowInt(n: int): string { if n < 0 then "-" + ShowNat(-n) else ShowNat(n) }

  function ReadNat(s: string): Option<nat> {
    if s == "" then None
    else
      var last := s[|s| - 1];
      if !('0' <= last <= '9') then None
      else if |s| == 1 then Some((last - '0') as nat)
      else match ReadNat(s[..|s| - 1])
        case Some(n) => Some(10 * n + (last - '0') as nat)
        case None => None
  }

  function Signed(negative: bool, m: int): int { if negative then -m else m }

  /** An integer, if the text is exactly the text that integer is printed as. */
  function ReadInt(s: string): Option<int> {
    var negative := s != "" && s[0] == '-';
    match ReadNat(if negative then s[1..] else s)
    case Some(m) =>
      var n := Signed(negative, m);
      if ShowInt(n) == s then Some(n) else None
    case None => None
  }

  lemma {:induction false} ReadShownNat(n: nat)
    ensures ReadNat(ShowNat(n)) == Some(n) && ShowNat(n) != "" && ShowNat(n)[0] != '-'
  {
    if n >= 10 {
      ReadShownNat(n / 10);
      var s := ShowNat(n);
      assert s[..|s| - 1] == ShowNat(n / 10);
    }
  }

  lemma ReadShownInt(n: int)
    ensures ReadInt(ShowInt(n)) == Some(n)
  {
    ReadShownNat(if n < 0 then -n else n);
    if n < 0 { assert ShowInt(n)[1..] == ShowNat(-n); }
  }

  // ----- durations -----------------------------------------------------------------

  function Microseconds(days: int, seconds: int, microseconds: int): int {
    (days * 86400 + seconds) * 1000000 + microseconds
  }

  /** `timedelta(microseconds=…)`: normalized, or out of range. */
  function DurationOf(total: int): Option<Value> {
    var days := total / DAY;
    var rest := total % DAY;
    if -MAX_DAYS <= days <= MAX_DAYS then Some(Duration(days, rest / 1000000, rest % 1000000)) else None
  }

  lemma WholeDays(days: int, rest: int)
    requires 0 <= rest < DAY
    ensures (days * DAY + rest) / DAY == days && (days * DAY + rest) % DAY == rest
  {
  }

  lemma WholeSeconds(seconds: int, rest: int)
    requires 0 <= rest < 1000000
    ensures (seconds * 1000000 + rest) / 1000000 == seconds && (seconds * 1000000 + rest) % 1000000 == rest
  {
  }

  lemma DurationRoundTrip(days: int, seconds: int, microseconds: int)
    requires -MAX_DAYS <= days <= MAX_DAYS && 0 <= seconds < 86400 && 0 <= microseconds < 1000000
    ensures DurationOf(Microseconds(days, seconds, microseconds)) == Some(Duration(days, seconds, microseconds))
  {
    var rest := seconds * 1000000 + microseconds;
    WholeDays(days, rest);
    WholeSeconds(seconds, microseconds);
    assert Microseconds(days, seconds, microseconds) == days * DAY + rest;
  }

  // ----- encoding ------------------------------------------------------------------

  datatype Shape = IntShape | DurationShape | ObjectShape | StampShape(kind: StampKind)

  function ShapeName(shape: Shape): string {
    match shape
    case IntShape => "int"
    case DurationShape => "timedelta"
    case ObjectShape => "object"
    case StampShape(Decimal) => "decimal"
    case StampShape(Bytes) => "bytes"
    case StampShape(DateTime) => "datetime"
    case StampShape(Date) => "date"
    case StampShape(Time) => "time"
    case StampShape(WindowsPath) => "windows_path"
    case StampShape(PosixPath) => "posix_path"
    case StampShape(Uuid) => "uuid"
  }

  function ShapeOf(name: string): Option<Shape> {
    if name == "int" then Some(IntShape)
    else if name == "timedelta" then Some(DurationShape)
    else if name == "object" then Some(ObjectShape)
    else if name == "decimal" then Some(StampShape(Decimal))
    else if name == "bytes" then Some(StampShape(Bytes))
    else if name == "datetime" then Some(StampShape(DateTime))
    else if name == "date" then Some(StampShape(Date))
    else if name == "time" then Some(StampShape(Time))
    else if name == "windows_path" then Some(StampShape(WindowsPath))
    else if name == "posix_path" then Some(StampShape(PosixPath))
    else if name == "uuid" then Some(StampShape(Uuid))
    else None
  }

  lemma ShapeRoundTrip(shape: Shape)
    ensures ShapeOf(ShapeName(shape)) == Some(shape)
  {
  }

  function Tagged(shape: Shape, data: Value): Value {
    Dict(map[WIRE_KEY := Dict(map["type" := Text(ShapeName(shape)), "data" := data])])
  }

  function Encode(v: Value): Value {
    match v
    case Int(i) => if -MAX_SAFE_INTEGER <= i <= MAX_SAFE_INTEGER then v else Tagged(IntShape, Text(ShowInt(i)))
    case Stamp(kind, text) => Tagged(StampShape(kind), Text(text))
    case Duration(days, seconds, microseconds) =>
      Tagged(DurationShape, Text(ShowInt(Microseconds(days, seconds, microseconds))))
    case List(items) => List(seq(|items|, i requires 0 <= i < |items| => Encode(items[i])))
    case Dict(fields) =>
      if fields.Keys == {WIRE_KEY} then Tagged(ObjectShape, List([List([Text(WIRE_KEY), Encode(fields[WIRE_KEY])])]))
      else Dict(map k | k in fields :: Encode(fields[k]))
    case _ => v
  }

  function EncodeValue(v: Value): Option<Value> { if Within(v, MAX_DEPTH) then Some(Encode(v)) else None }

  // ----- decoding ------------------------------------------------------------------

  /** The record inside a wrapper; None is not the right shape. */
  function Record(v: Value): Option<(Shape, Value)> {
    if v.Dict? && v.fields.Keys == {"type", "data"} && v.fields["type"].Text? then
      match ShapeOf(v.fields["type"].s)
      case Some(shape) => Some((shape, v.fields["data"]))
      case None => None
    else None
  }

  function DecodeScalar(shape: Shape, text: string, canonical: Canonical): Option<Value> {
    match shape
    case IntShape => (match ReadInt(text) case Some(n) => Some(Int(n)) case None => None)
    case DurationShape => (match ReadInt(text) case Some(n) => DurationOf(n) case None => None)
    case StampShape(kind) => (match canonical(kind, text) case Some(t) => Some(Stamp(kind, t)) case None => None)
    case ObjectShape => None
  }

  /** The decoded value; None is the error of an invalid encoding. */
  function Decode(v: Value, canonical: Canonical): Option<Value> {
    match v
    case List(items) =>
      if forall i :: 0 <= i < |items| ==> Decode(items[i], canonical).Some?
      then Some(List(seq(|items|, i requires 0 <= i < |items| => Decode(items[i], canonical).value)))
      else None
    case Dict(fields) =>
      if fields.Keys != {WIRE_KEY} then
        if forall k :: k in fields ==> Decode(fields[k], canonical).Some?
        then Some(Dict(map k | k in fields :: Decode(fields[k], canonical).value))
        else None
      else
        var record := Record(fields[WIRE_KEY]);
        if record.None? then None
        else if record.value.0 == ObjectShape then
          if record.value.1.List? then DecodePairs(record.value.1.items, map[], canonical) else None
        else if record.value.1.Text? then DecodeScalar(record.value.0, record.value.1.s, canonical) else None
    case _ => Some(v)
  }

  /** The key-value pairs of a wrapped object; a repeated key is an error. */
  function DecodePairs(pairs: seq<Value>, done: map<string, Value>, canonical: Canonical): Option<Value>
    decreases pairs
  {
    if pairs == [] then Some(Dict(done))
    else
      var pair := pairs[0];
      if !pair.List? || |pair.items| != 2 || !pair.items[0].Text? || pair.items[0].s in done then None
      else
        var v := Decode(pair.items[1], canonical);
        if v.None? then None else DecodePairs(pairs[1..], done[pair.items[0].s := v.value], canonical)
  }

  function DecodeValue(v: Value, canonical: Canonical): Option<Value> {
    if Within(v, MAX_DEPTH) then Decode(v, canonical) else None
  }

  // ----- round trip ----------------------------------------------------------------

  lemma KeysDiffer()
    ensures "type" != "data" && WIRE_KEY != "type" && WIRE_KEY != "data"
  {
    assert "type"[0] == 't' && "data"[0] == 'd' && WIRE_KEY[0] == '$';
  }

  lemma TaggedIsRead(shape: Shape, data: Value)
    ensures var t := Tagged(shape, data);
            t.fields.Keys == {WIRE_KEY} && Record(t.fields[WIRE_KEY]) == Some((shape, data))
  {
    KeysDiffer();
    ShapeRoundTrip(shape);
    var record := Tagged(shape, data).fields[WIRE_KEY];
    assert record.fields.Keys == {"type", "data"};
  }

  lemma ScalarRoundTrip(shape: Shape, text: string, canonical: Canonical)
    requires shape != ObjectShape
    ensures Decode(Tagged(shape, Text(text)), canonical) == DecodeScalar(shape, text, canonical)
  {
    TaggedIsRead(shape, Text(text));
  }

  /** An object whose only key is the wrapper's comes back as itself. */
  lemma WrappedRoundTrip(child: Value, canonical: Canonical)
    requires Decode(Encode(child), canonical) == Some(child)
    ensures Decode(Encode(Dict(map[WIRE_KEY := child])), canonical) == Some(Dict(map[WIRE_KEY := child]))
  {
    var pair := List([Text(WIRE_KEY), Encode(child)]);
    TaggedIsRead(ObjectShape, List([pair]));
    assert map[WIRE_KEY := child].Keys == {WIRE_KEY};
    assert Encode(Dict(map[WIRE_KEY := child])) == Tagged(ObjectShape, List([pair]));
    assert [pair][1..] == [];
    assert DecodePairs([], map[][WIRE_KEY := child], canonical) == Some(Dict(map[WIRE_KEY := child]));
    assert DecodePairs([pair], map[], canonical) == Some(Dict(map[WIRE_KEY := child]));
  }

  lemma {:induction false} DecodeEncoded(v: Value, canonical: Canonical)
    requires Valid(v, canonical)
    ensures Decode(Encode(v), canonical) == Some(v)
  {
    match v
    case Int(i) =>
      if Encode(v) != v {
        ScalarRoundTrip(IntShape, ShowInt(i), canonical);
        ReadShownInt(i);
      }
    case Stamp(kind, text) => ScalarRoundTrip(StampShape(kind), text, canonical);
    case Duration(days, seconds, microseconds) =>
      var total := Microseconds(days, seconds, microseconds);
      ScalarRoundTrip(DurationShape, ShowInt(total), canonical);
      ReadShownInt(total);
      DurationRoundTrip(days, seconds, microseconds);
    case List(items) =>
      forall i | 0 <= i < |items| ensures Decode(Encode(items[i]), canonical) == Some(items[i]) {
        DecodeEncoded(items[i], canonical);
      }
      ListRoundTrip(items, canonical);
    case Dict(fields) =>
      forall k | k in fields ensures Decode(Encode(fields[k]), canonical) == Some(fields[k]) {
        DecodeEncoded(fields[k], canonical);
      }
      if fields.Keys == {WIRE_KEY} {
        WrappedRoundTrip(fields[WIRE_KEY], canonical);
        assert fields == map[WIRE_KEY := fields[WIRE_KEY]];
      } else {
        DictRoundTrip(fields, canonical);
      }
    case _ =>
  }

  lemma ListRoundTrip(items: seq<Value>, canonical: Canonical)
    requires forall i :: 0 <= i < |items| ==> Decode(Encode(items[i]), canonical) == Some(items[i])
    ensures Decode(Encode(List(items)), canonical) == Some(List(items))
  {
    var coded := Encode(List(items)).items;
    assert forall i :: 0 <= i < |coded| ==> Decode(coded[i], canonical) == Some(items[i]);
    assert Decode(List(coded), canonical).value.items == items;
  }

  lemma DictRoundTrip(fields: map<string, Value>, canonical: Canonical)
    requires fields.Keys != {WIRE_KEY}
    requires forall k :: k in fields ==> Decode(Encode(fields[k]), canonical) == Some(fields[k])
    ensures Decode(Encode(Dict(fields)), canonical) == Some(Dict(fields))
  {
    DecodedFields(Encode(Dict(fields)).fields, fields, canonical);
  }

  lemma DecodedFields(coded: map<string, Value>, fields: map<string, Value>, canonical: Canonical)
    requires coded.Keys == fields.Keys != {WIRE_KEY}
    requires forall k :: k in coded ==> Decode(coded[k], canonical) == Some(fields[k])
    ensures Decode(Dict(coded), canonical) == Some(Dict(fields))
  {
    var decoded := map k | k in coded :: Decode(coded[k], canonical).value;
    assert Decode(Dict(coded), canonical) == Some(Dict(decoded));
    assert decoded.Keys == fields.Keys;
    assert forall k :: k in fields ==> decoded[k] == fields[k];
    assert decoded == fields;
  }

  // ----- the depth limit -----------------------------------------------------------

  /** The encoding fits in the limit, said of the value itself: a tag costs two levels, an object
      that looks like the wrapper four. */
  predicate WireFits(v: Value, limit: int)
    decreases v
  {
    limit >= 0 &&
    match v
    case Int(i) => limit >= if -MAX_SAFE_INTEGER <= i <= MAX_SAFE_INTEGER then 0 else 2
    case Stamp(_, _) => limit >= 2
    case Duration(_, _, _) => limit >= 2
    case List(items) => forall i :: 0 <= i < |items| ==> WireFits(items[i], limit - 1)
    case Dict(fields) => forall k :: k in fields ==>
      WireFits(fields[k], limit - if fields.Keys == {WIRE_KEY} then 4 else 1)
    case _ => true
  }

  lemma TaggedWithin(shape: Shape, data: Value, limit: int)
    ensures Within(Tagged(shape, data), limit) <==> limit >= 2 && Within(data, limit - 2)
  {
    KeysDiffer();
    var record := Tagged(shape, data).fields[WIRE_KEY];
    assert record.fields["data"] == data && WIRE_KEY in Tagged(shape, data).fields;
    if limit >= 2 && Within(data, limit - 2) {
      assert Within(record, limit - 1);
    } else if Within(Tagged(shape, data), limit) {
      assert Within(record, limit - 1);
    }
  }

  lemma PairWithin(coded: Value, limit: int)
    ensures Within(List([List([Text(WIRE_KEY), coded])]), limit) <==> limit >= 2 && Within(coded, limit - 2)
  {
    var pair := List([Text(WIRE_KEY), coded]);
    var outer := List([pair]);
    assert outer.items[0] == pair && pair.items[1] == coded && pair.items[0] == Text(WIRE_KEY);
    assert Within(outer, limit) <==> limit >= 0 && Within(pair, limit - 1);
    assert Within(pair, limit - 1) <==> limit >= 2 && Within(coded, limit - 2) by {
      assert Within(Text(WIRE_KEY), limit - 2) <==> limit >= 2;
      if limit >= 2 && Within(coded, limit - 2) {
        assert forall i :: 0 <= i < |pair.items| ==> Within(pair.items[i], limit - 2);
      }
    }
  }

  lemma {:induction false} EncodedWithin(v: Value, limit: int)
    ensures Within(Encode(v), limit) <==> WireFits(v, limit)
    decreases v
  {
    match v
    case Int(i) => TaggedWithin(IntShape, Text(ShowInt(i)), limit);
    case Stamp(kind, text) => TaggedWithin(StampShape(kind), Text(text), limit);
    case Duration(d, s, m) => TaggedWithin(DurationShape, Text(ShowInt(Microseconds(d, s, m))), limit);
    case List(items) =>
      forall i | 0 <= i < |items| ensures Within(Encode(items[i]), limit - 1) <==> WireFits(items[i], limit - 1) {
        EncodedWithin(items[i], limit - 1);
      }
      ListWithin(items, limit);
    case Dict(fields) =>
      if fields.Keys == {WIRE_KEY} {
        EncodedWithin(fields[WIRE_KEY], limit - 4);
        WrappedWithin(fields, limit);
      } else {
        forall k | k in fields ensures Within(Encode(fields[k]), limit - 1) <==> WireFits(fields[k], limit - 1) {
          EncodedWithin(fields[k], limit - 1);
        }
        DictWithin(fields, limit);
      }
    case _ =>
  }

  lemma WrappedWithin(fields: map<string, Value>, limit: int)
    requires fields.Keys == {WIRE_KEY}
    requires Within(Encode(fields[WIRE_KEY]), limit - 4) <==> WireFits(fields[WIRE_KEY], limit - 4)
    ensures Within(Encode(Dict(fields)), limit) <==> WireFits(Dict(fields), limit)
  {
    var coded := Encode(fields[WIRE_KEY]);
    TaggedWithin(ObjectShape, List([List([Text(WIRE_KEY), coded])]), limit);
    PairWithin(coded, limit - 2);
    assert WIRE_KEY in fields;
    assert limit >= 4 ==> (WireFits(Dict(fields), limit) <==> WireFits(fields[WIRE_KEY], limit - 4));
  }

  lemma ListWithin(items: seq<Value>, limit: int)
    requires forall i :: 0 <= i < |items| ==> (Within(Encode(items[i]), limit - 1) <==> WireFits(items[i], limit - 1))
    ensures Within(Encode(List(items)), limit) <==> WireFits(List(items), limit)
  {
    var coded := Encode(List(items)).items;
    assert forall i :: 0 <= i < |items| ==> coded[i] == Encode(items[i]);
  }

  lemma DictWithin(fields: map<string, Value>, limit: int)
    requires fields.Keys != {WIRE_KEY}
    requires forall k :: k in fields ==> (Within(Encode(fields[k]), limit - 1) <==> WireFits(fields[k], limit - 1))
    ensures Within(Encode(Dict(fields)), limit) <==> WireFits(Dict(fields), limit)
  {
    var coded := Encode(Dict(fields)).fields;
    assert coded.Keys == fields.Keys && forall k :: k in fields ==> coded[k] == Encode(fields[k]);
  }

  lemma {:induction false} WireFitsImpliesWithin(v: Value, limit: int)
    requires WireFits(v, limit)
    ensures Within(v, limit)
    decreases v
  {
    match v
    case List(items) => forall i | 0 <= i < |items| { WireFitsImpliesWithin(items[i], limit - 1); }
    case Dict(fields) =>
      forall k | k in fields ensures Within(fields[k], limit - 1) {
        var inner := limit - if fields.Keys == {WIRE_KEY} then 4 else 1;
        WireFitsImpliesWithin(fields[k], inner);
        WithinGrows(fields[k], inner, limit - 1);
      }
    case _ =>
  }

  lemma {:induction false} WithinGrows(v: Value, low: int, high: int)
    requires Within(v, low) && low <= high
    ensures Within(v, high)
    decreases v
  {
    match v
    case List(items) => forall i | 0 <= i < |items| { WithinGrows(items[i], low - 1, high - 1); }
    case Dict(fields) => forall k | k in fields { WithinGrows(fields[k], low - 1, high - 1); }
    case _ =>
  }

  /** A value survives the wire exactly when its encoding stays within the depth limit. */
  lemma RoundTripIff(v: Value, canonical: Canonical)
    requires Valid(v, canonical)
    ensures (EncodeValue(v).Some? && DecodeValue(EncodeValue(v).value, canonical) == Some(v)) <==>
      WireFits(v, MAX_DEPTH)
  {
    EncodedWithin(v, MAX_DEPTH);
    DecodeEncoded(v, canonical);
    if WireFits(v, MAX_DEPTH) { WireFitsImpliesWithin(v, MAX_DEPTH); }
  }

  /** The encoding is at most four times as deep as the value, plus two levels. */
  lemma {:induction false} EncodingDepth(v: Value, depth: nat)
    requires Within(v, depth)
    ensures WireFits(v, 4 * depth + 2)
    decreases v
  {
    match v
    case List(items) =>
      forall i | 0 <= i < |items| ensures WireFits(items[i], 4 * depth + 1) {
        assert Within(items[i], depth - 1);
        EncodingDepth(items[i], depth - 1);
        WireFitsGrows(items[i], 4 * (depth - 1) + 2, 4 * depth + 1);
      }
    case Dict(fields) =>
      var cost := if fields.Keys == {WIRE_KEY} then 4 else 1;
      forall k | k in fields ensures WireFits(fields[k], 4 * depth + 2 - cost) {
        assert Within(fields[k], depth - 1);
        EncodingDepth(fields[k], depth - 1);
        WireFitsGrows(fields[k], 4 * (depth - 1) + 2, 4 * depth + 2 - cost);
      }
    case _ =>
  }

  lemma {:induction false} WireFitsGrows(v: Value, low: int, high: int)
    requires WireFits(v, low) && low <= high
    ensures WireFits(v, high)
    decreases v
  {
    match v
    case List(items) => forall i | 0 <= i < |items| { WireFitsGrows(items[i], low - 1, high - 1); }
    case Dict(fields) =>
      var cost := if fields.Keys == {WIRE_KEY} then 4 else 1;
      forall k | k in fields { WireFitsGrows(fields[k], low - cost, high - cost); }
    case _ =>
  }

  /** Fifteen levels are always safe, and sixteen are not: sixteen wrapper-shaped objects around
      a date encode too deep. */
  lemma FifteenLevelsAreSafe(v: Value, canonical: Canonical)
    requires Valid(v, canonical) && Within(v, 15)
    ensures EncodeValue(v).Some? && DecodeValue(EncodeValue(v).value, canonical) == Some(v)
  {
    EncodingDepth(v, 15);
    WireFitsGrows(v, 62, MAX_DEPTH);
    RoundTripIff(v, canonical);
  }

  function Wrapped(levels: nat, leaf: Value): Value {
    if levels == 0 then leaf else Dict(map[WIRE_KEY := Wrapped(levels - 1, leaf)])
  }

  lemma {:induction false} WrappedDepth(levels: nat, kind: StampKind, text: string, limit: int)
    ensures Within(Wrapped(levels, Stamp(kind, text)), levels)
    ensures WireFits(Wrapped(levels, Stamp(kind, text)), limit) <==> limit >= 4 * levels + 2
  {
    if levels > 0 {
      var inner := Wrapped(levels - 1, Stamp(kind, text));
      WrappedDepth(levels - 1, kind, text, limit - 4);
      var fields := map[WIRE_KEY := inner];
      assert fields.Keys == {WIRE_KEY} && WIRE_KEY in fields && fields[WIRE_KEY] == inner;
    }
  }

  lemma SixteenLevelsAreNot(kind: StampKind, text: string, canonical: Canonical)
    requires canonical(kind, text) == Some(text)
    ensures var v := Wrapped(16, Stamp(kind, text));
            && Within(v, 16) && Valid(v, canonical) && EncodeValue(v).Some?
            && DecodeValue(EncodeValue(v).value, canonical) == None
  {
    var v := Wrapped(16, Stamp(kind, text));
    WrappedDepth(16, kind, text, MAX_DEPTH);
    WrappedValid(16, Stamp(kind, text), canonical);
    WithinGrows(v, 16, MAX_DEPTH);
    EncodedWithin(v, MAX_DEPTH);
  }

  lemma {:induction false} WrappedValid(levels: nat, leaf: Value, canonical: Canonical)
    requires Valid(leaf, canonical)
    ensures Valid(Wrapped(levels, leaf), canonical)
  {
    if levels > 0 { WrappedValid(levels - 1, leaf, canonical); }
  }

  // ----- what travels, and what comes back -----------------------------------------

  /** Only what JSON carries exactly: no tagged scalar outside a wrapper, no unsafe integer. */
  predicate PlainJson(v: Value) {
    match v
    case Int(i) => -MAX_SAFE_INTEGER <= i <= MAX_SAFE_INTEGER
    case Stamp(_, _) => false
    case Duration(_, _, _) => false
    case List(items) => forall i :: 0 <= i < |items| ==> PlainJson(items[i])
    case Dict(fields) => forall k :: k in fields ==> PlainJson(fields[k])
    case _ => true
  }

  lemma {:induction false} EncodedIsPlain(v: Value)
    ensures PlainJson(Encode(v))
  {
    match v
    case List(items) => forall i | 0 <= i < |items| { EncodedIsPlain(items[i]); }
    case Dict(fields) =>
      forall k | k in fields ensures PlainJson(Encode(fields[k])) { EncodedIsPlain(fields[k]); }
      if fields.Keys == {WIRE_KEY} {
        var pair := List([Text(WIRE_KEY), Encode(fields[WIRE_KEY])]);
        assert PlainJson(pair);
        assert PlainJson(List([pair]));
      }
    case _ =>
  }

  /** Two values with the same encoding are the same value. */
  lemma EncodingIsInjective(a: Value, b: Value, canonical: Canonical)
    requires Valid(a, canonical) && Valid(b, canonical) && Encode(a) == Encode(b)
    ensures a == b
  {
    DecodeEncoded(a, canonical);
    DecodeEncoded(b, canonical);
  }

  /** Whatever the decoder accepts is a valid value, so it can itself be sent on. */
  lemma {:induction false} DecodedIsValid(v: Value, canonical: Canonical)
    requires ValidCanonical(canonical) && Valid(v, canonical) && Decode(v, canonical).Some?
    ensures Valid(Decode(v, canonical).value, canonical)
  {
    match v
    case List(items) => forall i | 0 <= i < |items| { DecodedIsValid(items[i], canonical); }
    case Dict(fields) =>
      if fields.Keys != {WIRE_KEY} {
        forall k | k in fields { DecodedIsValid(fields[k], canonical); }
      } else {
        var inner := fields[WIRE_KEY];
        assert WIRE_KEY in fields && Valid(inner, canonical);
        var (shape, data) := Record(inner).value;
        assert "data" in inner.fields && Valid(data, canonical);
        if shape == ObjectShape {
          PairsAreValid(data.items, map[], canonical);
        } else {
          ScalarIsValid(shape, data.s, canonical);
        }
      }
    case _ =>
  }

  lemma ScalarIsValid(shape: Shape, text: string, canonical: Canonical)
    requires ValidCanonical(canonical) && DecodeScalar(shape, text, canonical).Some?
    ensures Valid(DecodeScalar(shape, text, canonical).value, canonical)
  {
  }

  lemma {:induction false} PairsAreValid(pairs: seq<Value>, done: map<string, Value>, canonical: Canonical)
    requires ValidCanonical(canonical) && DecodePairs(pairs, done, canonical).Some?
    requires forall i :: 0 <= i < |pairs| ==> Valid(pairs[i], canonical)
    requires forall k :: k in done ==> Valid(done[k], canonical)
    ensures Valid(DecodePairs(pairs, done, canonical).value, canonical)
    decreases pairs
  {
    if pairs != [] {
      var pair := pairs[0];
      assert Valid(pair, canonical) && Valid(pair.items[1], canonical);
      DecodedIsValid(pair.items[1], canonical);
      PairsAreValid(pairs[1..], done[pair.items[0].s := Decode(pair.items[1], canonical).value], canonical);
    }
  }

  /** The converse of the round trip fails: an empty wrapped object decodes to the empty object,
      which is encoded without the wrapper. */
  lemma OtherEncodingsExist(canonical: Canonical)
    ensures var wire := Tagged(ObjectShape, List([]));
            Decode(wire, canonical) == Some(Dict(map[])) && Encode(Dict(map[])) != wire
  {
    TaggedIsRead(ObjectShape, List([]));
    var empty: map<string, Value> := map[];
    assert Encode(Dict(empty)) == Dict(empty) by {
      assert empty.Keys == {} && WIRE_KEY !in empty.Keys;
    }
    assert WIRE_KEY in Tagged(ObjectShape, List([])).fields;
  }
}
