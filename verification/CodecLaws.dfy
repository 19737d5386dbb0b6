/** What the wire format says: a relation between encodings and values that mentions neither coder, and
    the proof that the decoder accepts exactly what it relates; and which values are sent as they are.
 */
module CodecLaws {
  import opened Common
  import opened Values
  import opened Codec

  /** The only key is the wrapper's. */
  ghost predicate IsWrapped(fields: map<string, Value>) {
    WIRE_KEY in fields && forall k :: k in fields ==> k == WIRE_KEY
  }

  /** A record with this type name, this data and nothing else. */
  ghost predicate IsRecord(record: Value, name: string, data: Value) {
    && record.Dict? && Has(record.fields, "type", Text(name)) && Has(record.fields, "data", data)
    && forall k :: k in record.fields ==> k == "type" || k == "data"
  }

  ghost predicate Has(fields: map<string, Value>, key: string, v: Value) { key in fields && fields[key] == v }

  /** How long the duration is. */
  ghost predicate Lasts(v: Value, microseconds: int) {
    && v.Duration? && -MAX_DAYS <= v.days <= MAX_DAYS && 0 <= v.seconds < 86400 && 0 <= v.microseconds < 1000000
    && (v.days * 24 * 60 * 60 + v.seconds) * 1000000 + v.microseconds == microseconds
  }

  /** A text of this type stands for the value. Integers are printed as the engine prints them. */
  ghost predicate TextDenotes(name: string, text: string, v: Value, canonical: Canonical) {
    || (name == "int" && v.Int? && text == ShowInt(v.i))
    || (name == "timedelta" && exists n :: text == ShowInt(n) && Lasts(v, n))
    || (v.Stamp? && name == ShapeName(StampShape(v.kind)) && canonical(v.kind, text) == Some(v.text))
  }

  /** A pair of a key and what its value is encoded as. */
  ghost predicate IsPair(pair: Value, key: string) { pair.List? && |pair.items| == 2 && pair.items[0] == Text(key) }

  ghost predicate Keyed(pairs: seq<Value>, key: string) { exists i :: 0 <= i < |pairs| && IsPair(pairs[i], key) }

  /** The encoding stands for the value. */
  ghost predicate Denotes(wire: Value, v: Value, canonical: Canonical)
    decreases wire, 1
  {
    match wire
    case List(items) =>
      && v.List? && |v.items| == |items|
      && forall i :: 0 <= i < |items| ==> Denotes(items[i], v.items[i], canonical)
    case Dict(fields) =>
      if IsWrapped(fields) then WrappedDenotes(fields[WIRE_KEY], v, canonical)
      else
        && v.Dict? && v.fields.Keys == fields.Keys
        && forall k :: k in fields ==> Denotes(fields[k], v.fields[k], canonical)
    case _ => v == wire
  }

  ghost predicate WrappedDenotes(record: Value, v: Value, canonical: Canonical)
    decreases record, 0
  {
    || (exists name, text :: IsRecord(record, name, Text(text)) && TextDenotes(name, text, v, canonical))
    || (record.Dict? && "data" in record.fields && record.fields["data"].List?
        && IsRecord(record, "object", record.fields["data"])
        && v.Dict? && PairKeys(record.fields["data"].items, {}, v.fields.Keys)
        && PairValues(record.fields["data"].items, v.fields, canonical))
  }

  /** Each pair has a key of its own, and the object's keys are these and the ones there before. */
  ghost predicate PairKeys(pairs: seq<Value>, before: set<string>, keys: set<string>) {
    && (forall i :: 0 <= i < |pairs| ==> Paired(pairs[i]))
    && (forall i, j, key :: 0 <= i < j < |pairs| && IsPair(pairs[i], key) ==> !IsPair(pairs[j], key))
    && (forall key :: key in keys <==> key in before || Keyed(pairs, key))
    && (forall key :: key in before ==> !Keyed(pairs, key))
  }

  ghost predicate Paired(pair: Value) { exists key :: IsPair(pair, key) }

  /** The object has for each key what the pair's value stands for. */
  ghost predicate PairValues(pairs: seq<Value>, fields: map<string, Value>, canonical: Canonical)
    decreases pairs, 0
  {
    forall i :: 0 <= i < |pairs| ==> PairValue(pairs[i], fields, canonical)
  }

  ghost predicate PairValue(pair: Value, fields: map<string, Value>, canonical: Canonical)
    decreases pair, 0
  {
    && pair.List? && |pair.items| == 2 && pair.items[0].Text? && pair.items[0].s in fields
    && Denotes(pair.items[1], fields[pair.items[0].s], canonical)
  }

  // ----- the decoder ---------------------------------------------------------------

  /** A text is read as an integer exactly when it is what that integer is printed as. */
  lemma ReadIntIff(text: string, n: int)
    ensures ReadInt(text) == Some(n) <==> text == ShowInt(n)
  {
    ReadShownInt(n);
  }

  lemma DurationIff(v: Value, n: int)
    ensures DurationOf(n) == Some(v) <==> Lasts(v, n)
  {
    if Lasts(v, n) {
      DurationRoundTrip(v.days, v.seconds, v.microseconds);
      assert Microseconds(v.days, v.seconds, v.microseconds) == n;
    }
    if DurationOf(n) == Some(v) { DivisionIs(n); }
  }

  lemma DivisionIs(n: int)
    ensures var (days, rest) := (n / DAY, n % DAY);
            && 0 <= rest / 1000000 < 86400 && 0 <= rest % 1000000 < 1000000
            && (days * 24 * 60 * 60 + rest / 1000000) * 1000000 + rest % 1000000 == n
  {
  }

  lemma ScalarIff(shape: Shape, text: string, v: Value, canonical: Canonical)
    requires shape != ObjectShape
    ensures DecodeScalar(shape, text, canonical) == Some(v) <==> TextDenotes(ShapeName(shape), text, v, canonical)
  {
    ShapeRoundTrip(shape);
    match shape
    case IntShape =>
      if v.Int? { ReadIntIff(text, v.i); }
      if v.Stamp? { ShapeRoundTrip(StampShape(v.kind)); }
    case DurationShape =>
      forall n ensures ReadInt(text) == Some(n) <==> text == ShowInt(n) { ReadIntIff(text, n); }
      forall n ensures DurationOf(n) == Some(v) <==> Lasts(v, n) { DurationIff(v, n); }
      if v.Stamp? { ShapeRoundTrip(StampShape(v.kind)); }
    case StampShape(kind) =>
      if v.Stamp? { ShapeRoundTrip(StampShape(v.kind)); }
  }

  lemma RecordIff(record: Value, shape: Shape, data: Value)
    ensures Record(record) == Some((shape, data)) <==> IsRecord(record, ShapeName(shape), data)
  {
    KeysDiffer();
    ShapeRoundTrip(shape);
    if IsRecord(record, ShapeName(shape), data) { assert record.fields.Keys == {"type", "data"}; }
  }

  lemma NamesAreShapes(name: string)
    ensures ShapeOf(name).Some? ==> name == ShapeName(ShapeOf(name).value)
  {
  }

  lemma TextNamesShape(name: string, text: string, v: Value, canonical: Canonical)
    requires TextDenotes(name, text, v, canonical)
    ensures ShapeOf(name).Some? && name == ShapeName(ShapeOf(name).value) && ShapeOf(name) != Some(ObjectShape)
  {
    if v.Stamp? { ShapeRoundTrip(StampShape(v.kind)); }
  }

  lemma OneData(record: Value, name: string, data: Value, other: string, also: Value)
    requires IsRecord(record, name, data) && IsRecord(record, other, also)
    ensures name == other && data == also
  {
  }

  /** The decoder accepts an encoding as a value exactly when it stands for it. */
  lemma {:induction false} DecodeIff(wire: Value, v: Value, canonical: Canonical)
    ensures Decode(wire, canonical) == Some(v) <==> Denotes(wire, v, canonical)
    decreases wire, 1
  {
    match wire
    case List(items) => ItemsIff(wire, v, canonical);
    case Dict(fields) =>
      if IsWrapped(fields) {
        WrappedIff(wire, v, canonical);
      } else {
        FieldsIff(wire, v, canonical);
      }
    case _ =>
  }

  lemma {:induction false} ItemsIff(wire: Value, v: Value, canonical: Canonical)
    requires wire.List?
    ensures Decode(wire, canonical) == Some(v) <==> Denotes(wire, v, canonical)
    decreases wire, 0
  {
    var items := wire.items;
    if v.List? && |v.items| == |items| {
      forall i | 0 <= i < |items|
        ensures Decode(items[i], canonical) == Some(v.items[i]) <==> Denotes(items[i], v.items[i], canonical)
      {
        DecodeIff(items[i], v.items[i], canonical);
      }
    }
    ListDecoded(items, v, canonical);
  }

  lemma ListDecoded(items: seq<Value>, v: Value, canonical: Canonical)
    ensures Decode(List(items), canonical) == Some(v) <==>
      && v.List? && |v.items| == |items|
      && forall i :: 0 <= i < |items| ==> Decode(items[i], canonical) == Some(v.items[i])
  {
    if v.List? && |v.items| == |items|
      && (forall i :: 0 <= i < |items| ==> Decode(items[i], canonical) == Some(v.items[i]))
    {
      assert Decode(List(items), canonical).value.items == v.items;
    }
  }

  lemma {:induction false} FieldsIff(wire: Value, v: Value, canonical: Canonical)
    requires wire.Dict? && !IsWrapped(wire.fields)
    ensures Decode(wire, canonical) == Some(v) <==> Denotes(wire, v, canonical)
    decreases wire, 0
  {
    var fields := wire.fields;
    if v.Dict? && v.fields.Keys == fields.Keys {
      forall k | k in fields
        ensures Decode(fields[k], canonical) == Some(v.fields[k]) <==> Denotes(fields[k], v.fields[k], canonical)
      {
        DecodeIff(fields[k], v.fields[k], canonical);
      }
    }
    WrappedKeys(fields);
    DictDecoded(fields, v, canonical);
  }

  lemma DictDecoded(fields: map<string, Value>, v: Value, canonical: Canonical)
    requires fields.Keys != {WIRE_KEY}
    ensures Decode(Dict(fields), canonical) == Some(v) <==>
      && v.Dict? && v.fields.Keys == fields.Keys
      && forall k :: k in fields ==> Decode(fields[k], canonical) == Some(v.fields[k])
  {
    if v.Dict? && v.fields.Keys == fields.Keys
      && (forall k :: k in fields ==> Decode(fields[k], canonical) == Some(v.fields[k]))
    {
      assert Decode(Dict(fields), canonical).value.fields == v.fields;
    }
  }

  lemma WrappedKeys(fields: map<string, Value>)
    ensures IsWrapped(fields) <==> fields.Keys == {WIRE_KEY}
  {
    assert fields.Keys == {WIRE_KEY} ==> WIRE_KEY in fields.Keys && forall k :: k in fields ==> k in fields.Keys;
  }

  lemma {:induction false} WrappedIff(wire: Value, v: Value, canonical: Canonical)
    requires wire.Dict? && IsWrapped(wire.fields)
    ensures Decode(wire, canonical) == Some(v) <==> WrappedDenotes(wire.fields[WIRE_KEY], v, canonical)
    decreases wire, 0
  {
    WrappedKeys(wire.fields);
    var record := wire.fields[WIRE_KEY];
    if Record(record).None? {
      NoRecord(record, v, canonical);
    } else {
      var (shape, data) := Record(record).value;
      RecordIff(record, shape, data);
      assert record.fields["data"] == data;
      if shape == ObjectShape {
        NotText(record, v, canonical);
        if data.List? { PairsIff(data.items, map[], v, canonical); }
      } else {
        NotObject(record, shape, data);
        if data.Text? { ScalarIff(shape, data.s, v, canonical); }
      }
    }
  }

  lemma NoRecord(record: Value, v: Value, canonical: Canonical)
    requires Record(record).None?
    ensures !WrappedDenotes(record, v, canonical)
  {
    forall name, data | IsRecord(record, name, data) ensures ShapeOf(name).None? {
      if ShapeOf(name).Some? {
        NamesAreShapes(name);
        RecordIff(record, ShapeOf(name).value, data);
      }
    }
    forall name, text | IsRecord(record, name, Text(text)) ensures !TextDenotes(name, text, v, canonical) {
      if TextDenotes(name, text, v, canonical) { TextNamesShape(name, text, v, canonical); }
    }
    ShapeRoundTrip(ObjectShape);
  }

  /** A wrapped object is not also a text of some type, nor the other way round. */
  lemma NotText(record: Value, v: Value, canonical: Canonical)
    requires exists data :: IsRecord(record, "object", data)
    ensures forall name, text :: IsRecord(record, name, Text(text)) ==> !TextDenotes(name, text, v, canonical)
  {
    var data :| IsRecord(record, "object", data);
    ShapeRoundTrip(ObjectShape);
    forall name, text | IsRecord(record, name, Text(text)) ensures !TextDenotes(name, text, v, canonical) {
      OneData(record, "object", data, name, Text(text));
      if TextDenotes(name, text, v, canonical) { TextNamesShape(name, text, v, canonical); }
    }
  }

  lemma NotObject(record: Value, shape: Shape, data: Value)
    requires IsRecord(record, ShapeName(shape), data) && shape != ObjectShape
    ensures forall also :: !IsRecord(record, "object", also)
    ensures forall name, also :: IsRecord(record, name, also) ==> name == ShapeName(shape) && also == data
  {
    ShapeRoundTrip(shape);
    ShapeRoundTrip(ObjectShape);
  }

  // ----- pairs ---------------------------------------------------------------------

  ghost predicate PairsAdd(
      pairs: seq<Value>, before: map<string, Value>, fields: map<string, Value>, canonical: Canonical)
  {
    && PairKeys(pairs, before.Keys, fields.Keys) && PairValues(pairs, fields, canonical)
    && Extends(fields, before)
  }

  ghost predicate Extends(fields: map<string, Value>, before: map<string, Value>) {
    forall key :: key in before ==> Has(fields, key, before[key])
  }

  lemma {:induction false} PairsIff(pairs: seq<Value>, before: map<string, Value>, v: Value, canonical: Canonical)
    ensures DecodePairs(pairs, before, canonical) == Some(v) <==>
      v.Dict? && PairsAdd(pairs, before, v.fields, canonical)
    decreases pairs, 2
  {
    if pairs == [] {
      if v.Dict? && PairsAdd(pairs, before, v.fields, canonical) { assert v.fields == before; }
    } else if !(exists key :: IsPair(pairs[0], key) && key !in before) {
      BadPair(pairs, before, v, canonical);
    } else {
      var (pair, tail) := (pairs[0], pairs[1..]);
      var key := pair.items[0].s;
      assert IsPair(pair, key) && key !in before;
      var child := Decode(pair.items[1], canonical);
      if v.Dict? && key in v.fields { DecodeIff(pair.items[1], v.fields[key], canonical); }
      if v.Dict? { FirstValue(pairs, v.fields, canonical); }
      if child.Some? {
        PairsIff(tail, before[key := child.value], v, canonical);
        if v.Dict? { PairsFirst(pairs, before, key, child.value, v.fields, canonical); }
      }
    }
  }

  lemma BadPair(pairs: seq<Value>, before: map<string, Value>, v: Value, canonical: Canonical)
    requires pairs != [] && !(exists key :: IsPair(pairs[0], key) && key !in before)
    ensures DecodePairs(pairs, before, canonical).None?
    ensures v.Dict? ==> !PairsAdd(pairs, before, v.fields, canonical)
  {
    var pair := pairs[0];
    if pair.List? && |pair.items| == 2 && pair.items[0].Text? { assert IsPair(pair, pair.items[0].s); }
    if key :| IsPair(pair, key) { assert Keyed(pairs, key) && key in before; }
  }

  lemma FirstValue(pairs: seq<Value>, fields: map<string, Value>, canonical: Canonical)
    requires pairs != []
    ensures PairValues(pairs, fields, canonical) <==>
      PairValue(pairs[0], fields, canonical) && PairValues(pairs[1..], fields, canonical)
  {
    var tail := pairs[1..];
    assert forall i :: 0 <= i < |tail| ==> tail[i] == pairs[i + 1];
    if PairValue(pairs[0], fields, canonical) && PairValues(tail, fields, canonical) {
      forall i | 0 <= i < |pairs| ensures PairValue(pairs[i], fields, canonical) {
        if i > 0 { assert PairValue(tail[i - 1], fields, canonical); }
      }
    }
    if PairValues(pairs, fields, canonical) {
      forall i | 0 <= i < |tail| ensures PairValue(tail[i], fields, canonical) {
        assert PairValue(pairs[i + 1], fields, canonical);
      }
    }
  }

  lemma PairsFirst(
      pairs: seq<Value>, before: map<string, Value>, key: string, child: Value,
      fields: map<string, Value>, canonical: Canonical)
    requires pairs != [] && IsPair(pairs[0], key) && key !in before
    requires key in fields ==> (Denotes(pairs[0].items[1], fields[key], canonical) <==> fields[key] == child)
    ensures PairsAdd(pairs, before, fields, canonical) <==>
      PairsAdd(pairs[1..], before[key := child], fields, canonical)
  {
    FirstValue(pairs, fields, canonical);
    FirstKey(pairs, before.Keys, key, fields.Keys);
    assert before[key := child].Keys == before.Keys + {key};
    assert PairValue(pairs[0], fields, canonical) <==> Has(fields, key, child);
    HasFirst(before, key, child, fields);
  }

  lemma HasFirst(before: map<string, Value>, key: string, child: Value, fields: map<string, Value>)
    requires key !in before
    ensures Extends(fields, before[key := child]) <==> Has(fields, key, child) && Extends(fields, before)
  {
    var now := before[key := child];
    assert key in now && now[key] == child;
    assert forall k :: k in before ==> k in now && now[k] == before[k];
  }

  lemma KeyedFirst(pairs: seq<Value>, key: string, k: string)
    requires pairs != [] && IsPair(pairs[0], key)
    ensures Keyed(pairs, k) <==> k == key || Keyed(pairs[1..], k)
  {
    if i :| 0 <= i < |pairs| && IsPair(pairs[i], k) { if i > 0 { assert IsPair(pairs[1..][i - 1], k); } }
    if i :| 0 <= i < |pairs[1..]| && IsPair(pairs[1..][i], k) { assert IsPair(pairs[i + 1], k); }
  }

  lemma FirstKey(pairs: seq<Value>, before: set<string>, key: string, keys: set<string>)
    requires pairs != [] && IsPair(pairs[0], key) && key !in before
    ensures PairKeys(pairs, before, keys) <==> PairKeys(pairs[1..], before + {key}, keys)
  {
    var tail := pairs[1..];
    assert forall i :: 0 <= i < |tail| ==> tail[i] == pairs[i + 1];
    forall k ensures Keyed(pairs, k) <==> k == key || Keyed(tail, k) { KeyedFirst(pairs, key, k); }
    if PairKeys(pairs, before, keys) { KeysDrop(pairs, before, key, keys); }
    if PairKeys(tail, before + {key}, keys) { KeysPut(pairs, before, key, keys); }
  }

  lemma KeysDrop(pairs: seq<Value>, before: set<string>, key: string, keys: set<string>)
    requires pairs != [] && IsPair(pairs[0], key) && key !in before && PairKeys(pairs, before, keys)
    requires forall k :: Keyed(pairs, k) <==> k == key || Keyed(pairs[1..], k)
    ensures PairKeys(pairs[1..], before + {key}, keys)
  {
    var tail := pairs[1..];
    assert !Keyed(tail, key) by {
      forall i | 0 <= i < |tail| ensures !IsPair(tail[i], key) { assert !IsPair(pairs[i + 1], key); }
    }
    forall i | 0 <= i < |tail| ensures Paired(tail[i]) { assert Paired(pairs[i + 1]); }
    forall i, j, k | 0 <= i < j < |tail| && IsPair(tail[i], k) ensures !IsPair(tail[j], k) {
      assert IsPair(pairs[i + 1], k) && !IsPair(pairs[j + 1], k);
    }
  }

  lemma KeysPut(pairs: seq<Value>, before: set<string>, key: string, keys: set<string>)
    requires pairs != [] && IsPair(pairs[0], key) && key !in before
    requires PairKeys(pairs[1..], before + {key}, keys)
    requires forall k :: Keyed(pairs, k) <==> k == key || Keyed(pairs[1..], k)
    ensures PairKeys(pairs, before, keys)
  {
    var tail := pairs[1..];
    forall i | 0 <= i < |pairs| ensures Paired(pairs[i]) { if i > 0 { assert Paired(tail[i - 1]); } }
    forall i, j, k | 0 <= i < j < |pairs| && IsPair(pairs[i], k) ensures !IsPair(pairs[j], k) {
      if i > 0 {
        assert IsPair(tail[i - 1], k) && !IsPair(tail[j - 1], k);
      } else if IsPair(tail[j - 1], k) {
        assert k == key && Keyed(tail, key);
      }
    }
  }

  // ----- what is sent as it is -----------------------------------------------------

  /** Nothing in the value needs a wrapper or looks like one. */
  ghost predicate SentAsIs(v: Value) {
    match v
    case Int(i) => -0x1f_ffff_ffff_ffff <= i <= 0x1f_ffff_ffff_ffff
    case Stamp(_, _) => false
    case Duration(_, _, _) => false
    case List(items) => forall i :: 0 <= i < |items| ==> SentAsIs(items[i])
    case Dict(fields) => !IsWrapped(fields) && forall k :: k in fields ==> SentAsIs(fields[k])
    case _ => true
  }

  /** The encoding leaves alone exactly the values that need no wrapper anywhere. */
  lemma {:induction false} SentAsIsIff(v: Value)
    ensures Encode(v) == v <==> SentAsIs(v)
  {
    match v
    case List(items) =>
      forall i | 0 <= i < |items| ensures Encode(items[i]) == items[i] <==> SentAsIs(items[i]) {
        SentAsIsIff(items[i]);
      }
      ListSent(items);
    case Dict(fields) =>
      forall k | k in fields ensures Encode(fields[k]) == fields[k] <==> SentAsIs(fields[k]) { SentAsIsIff(fields[k]); }
      DictSent(fields);
    case Int(_) =>
    case Stamp(_, _) =>
    case Duration(_, _, _) =>
    case _ =>
  }

  lemma ListSent(items: seq<Value>)
    ensures Encode(List(items)) == List(items) <==> forall i :: 0 <= i < |items| ==> Encode(items[i]) == items[i]
  {
    var coded := Encode(List(items)).items;
    assert forall i :: 0 <= i < |items| ==> coded[i] == Encode(items[i]);
  }

  lemma DictSent(fields: map<string, Value>)
    ensures Encode(Dict(fields)) == Dict(fields) <==>
      !IsWrapped(fields) && forall k :: k in fields ==> Encode(fields[k]) == fields[k]
  {
    WrappedKeys(fields);
    if IsWrapped(fields) {
      WrapperGrows(fields[WIRE_KEY]);
      assert Encode(Dict(fields)).fields[WIRE_KEY] == Wrapper(Encode(fields[WIRE_KEY]));
    } else {
      var coded := Encode(Dict(fields)).fields;
      assert forall k :: k in fields ==> coded[k] == Encode(fields[k]);
    }
  }

  function Wrapper(coded: Value): Value {
    Dict(map["type" := Text("object"), "data" := List([List([Text(WIRE_KEY), coded])])])
  }

  lemma EncodedWrapper(coded: Value)
    ensures Encode(Wrapper(coded)) == Wrapper(Encode(coded))
  {
    var (fields, pair) := (Wrapper(coded).fields, List([Text(WIRE_KEY), coded]));
    KeysDiffer();
    assert "type" in fields.Keys;
    assert Encode(pair) == List([Text(WIRE_KEY), Encode(coded)]);
    assert Encode(List([pair])) == List([Encode(pair)]);
    var coding := map k | k in fields :: Encode(fields[k]);
    assert coding == Wrapper(Encode(coded)).fields;
  }

  /** No value is the wrapper of its own encoding. */
  lemma {:induction false} WrapperGrows(child: Value)
    ensures Wrapper(Encode(child)) != child
    decreases child
  {
    var coded := Encode(child);
    if Wrapper(coded) == child {
      assert coded == child.fields["data"].items[0].items[1];
      EncodedWrapper(coded);
      WrapperGrows(coded);
    }
  }
}
