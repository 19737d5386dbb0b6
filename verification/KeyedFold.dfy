/** Folding a stream of events by key: one pass over all events agrees with folding each key's
    events on their own.
 */
module KeyedFold {
  import opened Common

  /** How a record is started by its first event and moved on by each event. */
  datatype Rules<!E, !R> = Rules(key: E -> Option<string>, start: E -> R, apply: (R, E) -> R)

  function Fold<E, R>(rules: Rules<E, R>, record: R, events: seq<E>): R
    decreases |events|
  {
    if events == [] then record else Fold(rules, rules.apply(record, events[0]), events[1..])
  }

  /** The record of one key from all its events. */
  function RecordOf<E, R>(rules: Rules<E, R>, events: seq<E>): R
    requires events != []
  {
    Fold(rules, rules.start(events[0]), events)
  }

  lemma {:induction false} FoldJoin<E, R>(rules: Rules<E, R>, record: R, a: seq<E>, b: seq<E>)
    ensures Fold(rules, record, a + b) == Fold(rules, Fold(rules, record, a), b)
    decreases |a|
  {
    if a == [] {
      assert a + b == b;
    } else {
      assert (a + b)[1..] == a[1..] + b;
      FoldJoin(rules, rules.apply(record, a[0]), a[1..], b);
    }
  }

  lemma RecordNext<E, R>(rules: Rules<E, R>, own: seq<E>, e: E)
    ensures RecordOf(rules, own + [e]) == rules.apply(if own == [] then rules.start(e) else RecordOf(rules, own), e)
  {
    if own == [] {
      assert own + [e] == [e] && [e][1..] == [];
      assert Fold(rules, rules.apply(rules.start(e), e), []) == rules.apply(rules.start(e), e);
    } else {
      FoldJoin(rules, rules.start(own[0]), own, [e]);
      assert (own + [e])[0] == own[0] && [e][1..] == [];
    }
  }

  function EventsOf<E, R>(rules: Rules<E, R>, events: seq<E>, key: string): seq<E> {
    if events == [] then []
    else (if rules.key(events[0]) == Some(key) then [events[0]] else []) + EventsOf(rules, events[1..], key)
  }

  lemma {:induction false} EventsOfJoin<E, R>(rules: Rules<E, R>, a: seq<E>, b: seq<E>, key: string)
    ensures EventsOf(rules, a + b, key) == EventsOf(rules, a, key) + EventsOf(rules, b, key)
  {
    if a == [] {
      assert a + b == b;
    } else {
      assert (a + b)[1..] == a[1..] + b;
      EventsOfJoin(rules, a[1..], b, key);
    }
  }

  lemma EventsOfNext<E, R>(rules: Rules<E, R>, events: seq<E>, e: E, key: string)
    ensures EventsOf(rules, events + [e], key) ==
      EventsOf(rules, events, key) + (if rules.key(e) == Some(key) then [e] else [])
  {
    EventsOfJoin(rules, events, [e], key);
    assert [e][1..] == [] && EventsOf(rules, [], key) == [];
  }

  lemma EventsOfOther<E, R>(rules: Rules<E, R>, events: seq<E>, e: E, key: string)
    requires rules.key(e) != Some(key)
    ensures EventsOf(rules, events + [e], key) == EventsOf(rules, events, key)
  {
    EventsOfNext(rules, events, e, key);
  }

  lemma {:induction false} EventsOfHaveKey<E, R>(rules: Rules<E, R>, events: seq<E>, key: string)
    ensures forall i :: 0 <= i < |EventsOf(rules, events, key)| ==>
      rules.key(EventsOf(rules, events, key)[i]) == Some(key)
  {
    if events != [] { EventsOfHaveKey(rules, events[1..], key); }
  }

  /** The keys in order of first appearance. */
  function Appearing<E, R>(rules: Rules<E, R>, events: seq<E>): seq<string>
    decreases |events|
  {
    if events == [] then []
    else
      var before := Appearing(rules, events[..|events| - 1]);
      match rules.key(events[|events| - 1])
      case Some(key) => if key in before then before else before + [key]
      case None => before
  }

  lemma {:induction false} AppearingDistinct<E, R>(rules: Rules<E, R>, events: seq<E>)
    ensures forall i, j :: 0 <= i < j < |Appearing(rules, events)| ==>
      Appearing(rules, events)[i] != Appearing(rules, events)[j]
    decreases |events|
  {
    if events != [] { AppearingDistinct(rules, events[..|events| - 1]); }
  }

  /** The first event with this key. */
  ghost predicate FirstWith<E, R>(rules: Rules<E, R>, events: seq<E>, key: string, i: int) {
    && 0 <= i < |events| && rules.key(events[i]) == Some(key)
    && forall j :: 0 <= j < i ==> rules.key(events[j]) != Some(key)
  }

  /** A key listed before another appeared before it. */
  lemma {:induction false} AppearingInOrder<E, R>(rules: Rules<E, R>, events: seq<E>, a: nat, b: nat, i: int, j: int)
    requires a < b < |Appearing(rules, events)|
    requires FirstWith(rules, events, Appearing(rules, events)[a], i)
    requires FirstWith(rules, events, Appearing(rules, events)[b], j)
    ensures i < j
    decreases |events|
  {
    var (before, last) := (events[..|events| - 1], events[|events| - 1]);
    var keys := Appearing(rules, before);
    assert events == before + [last];
    FirstBefore(rules, before, keys[a]);
    FirstStays(rules, before, last, keys[a], i);
    if b < |keys| {
      FirstBefore(rules, before, keys[b]);
      FirstStays(rules, before, last, keys[b], j);
      AppearingInOrder(rules, before, a, b, i, j);
    } else if j < |before| {
      var key := Appearing(rules, events)[b];
      SeenHasEvents(rules, before, key, j);
      AppearsIff(rules, before, key);
    }
  }

  lemma {:induction false} SeenHasEvents<E, R>(rules: Rules<E, R>, events: seq<E>, key: string, i: nat)
    requires i < |events| && rules.key(events[i]) == Some(key)
    ensures EventsOf(rules, events, key) != []
  {
    if i > 0 { SeenHasEvents(rules, events[1..], key, i - 1); }
  }

  lemma FirstStays<E, R>(rules: Rules<E, R>, before: seq<E>, last: E, key: string, i: int)
    requires FirstWith(rules, before + [last], key, i) && exists h :: FirstWith(rules, before, key, h)
    ensures FirstWith(rules, before, key, i)
  {
    var h :| FirstWith(rules, before, key, h);
    assert (before + [last])[h] == before[h];
    assert forall j :: 0 <= j < |before| ==> (before + [last])[j] == before[j];
  }

  /** What is listed has appeared. */
  lemma FirstBefore<E, R>(rules: Rules<E, R>, events: seq<E>, key: string)
    requires key in Appearing(rules, events)
    ensures exists i :: FirstWith(rules, events, key, i)
  {
    AppearsIff(rules, events, key);
    FirstOfSome(rules, events, key);
  }

  lemma {:induction false} FirstOfSome<E, R>(rules: Rules<E, R>, events: seq<E>, key: string)
    requires EventsOf(rules, events, key) != []
    ensures exists i :: FirstWith(rules, events, key, i)
  {
    if rules.key(events[0]) == Some(key) {
      assert FirstWith(rules, events, key, 0);
    } else {
      FirstOfSome(rules, events[1..], key);
      var i :| FirstWith(rules, events[1..], key, i);
      assert forall j :: 0 < j <= i + 1 ==> events[j] == events[1..][j - 1];
      assert FirstWith(rules, events, key, i + 1);
    }
  }

  lemma {:induction false} AppearsIff<E, R>(rules: Rules<E, R>, events: seq<E>, key: string)
    ensures key in Appearing(rules, events) <==> EventsOf(rules, events, key) != []
    decreases |events|
  {
    if events != [] {
      var before, last := events[..|events| - 1], events[|events| - 1];
      assert events == before + [last];
      AppearsIff(rules, before, key);
      EventsOfNext(rules, before, last, key);
    }
  }

  lemma {:induction false} EventsOfOwn<E, R>(rules: Rules<E, R>, events: seq<E>, key: string)
    requires forall i :: 0 <= i < |events| ==> rules.key(events[i]) == Some(key)
    ensures EventsOf(rules, events, key) == events
    decreases |events|
  {
    if events != [] {
      EventsOfOwn(rules, events[1..], key);
      assert events == [events[0]] + events[1..];
    }
  }

  lemma {:induction false} AppearingOwn<E, R>(rules: Rules<E, R>, events: seq<E>, key: string)
    requires forall i :: 0 <= i < |events| ==> rules.key(events[i]) == Some(key)
    ensures Appearing(rules, events) == if events == [] then [] else [key]
    decreases |events|
  {
    if events != [] { AppearingOwn(rules, events[..|events| - 1], key); }
  }

  function Reversed<T>(s: seq<T>): seq<T> { if s == [] then [] else Reversed(s[1..]) + [s[0]] }

  lemma {:induction false} ReversedAt<T>(s: seq<T>)
    ensures |Reversed(s)| == |s| && forall k :: 0 <= k < |s| ==> Reversed(s)[k] == s[|s| - 1 - k]
  {
    if s != [] { ReversedAt(s[1..]); }
  }

  /** What one pass has built from the events so far. */
  ghost predicate Built<E, R>(rules: Rules<E, R>, events: seq<E>, records: map<string, R>, order: seq<string>) {
    && order == Appearing(rules, events)
    && (forall key :: key in records <==> key in order)
    && (forall key :: BuiltOne(rules, events, records, key))
  }

  ghost predicate BuiltOne<E, R>(rules: Rules<E, R>, events: seq<E>, records: map<string, R>, key: string) {
    var own := EventsOf(rules, events, key);
    if key in records then own != [] && records[key] == RecordOf(rules, own) else own == []
  }

  lemma BuiltOneNext<E, R>(
      rules: Rules<E, R>, events: seq<E>, e: E, records: map<string, R>, key: string, other: string)
    requires rules.key(e) == Some(key) && BuiltOne(rules, events, records, other)
    ensures var before := if key in records then records[key] else rules.start(e);
            BuiltOne(rules, events + [e], records[key := rules.apply(before, e)], other)
  {
    if other == key {
      EventsOfNext(rules, events, e, key);
      RecordNext(rules, EventsOf(rules, events, key), e);
    } else {
      EventsOfOther(rules, events, e, other);
    }
  }

  lemma AppearingNext<E, R>(rules: Rules<E, R>, events: seq<E>, e: E)
    ensures var before := Appearing(rules, events);
            Appearing(rules, events + [e]) == match rules.key(e)
              case Some(key) => if key in before then before else before + [key]
              case None => before
  {
    assert (events + [e])[..|events|] == events;
  }

  lemma BuiltNext<E, R>(
      rules: Rules<E, R>, events: seq<E>, e: E, records: map<string, R>, order: seq<string>, key: string)
    requires Built(rules, events, records, order) && rules.key(e) == Some(key)
    ensures var before := if key in records then records[key] else rules.start(e);
            Built(rules, events + [e], records[key := rules.apply(before, e)],
                  if key in records then order else order + [key])
  {
    AppearingNext(rules, events, e);
    var before := if key in records then records[key] else rules.start(e);
    var after := records[key := rules.apply(before, e)];
    forall other ensures BuiltOne(rules, events + [e], after, other) {
      BuiltOneNext(rules, events, e, records, key, other);
    }
  }

  lemma BuiltSkip<E, R>(rules: Rules<E, R>, events: seq<E>, e: E, records: map<string, R>, order: seq<string>)
    requires Built(rules, events, records, order) && rules.key(e) == None
    ensures Built(rules, events + [e], records, order)
  {
    AppearingNext(rules, events, e);
    forall other ensures BuiltOne(rules, events + [e], records, other) {
      assert BuiltOne(rules, events, records, other);
      EventsOfOther(rules, events, e, other);
    }
  }

  /** Every record, the key that appeared last first: each is the fold of its own events. */
  ghost predicate AreRecords<E, R>(rules: Rules<E, R>, events: seq<E>, result: seq<R>) {
    var keys := Reversed(Appearing(rules, events));
    |result| == |keys| && forall k :: 0 <= k < |keys| ==> IsRecord(rules, events, keys[k], result[k])
  }

  ghost predicate IsRecord<E, R>(rules: Rules<E, R>, events: seq<E>, key: string, record: R) {
    EventsOf(rules, events, key) != [] && record == RecordOf(rules, EventsOf(rules, events, key))
  }

  lemma BuiltRecords<E, R>(rules: Rules<E, R>, events: seq<E>, records: map<string, R>, order: seq<string>)
    requires Built(rules, events, records, order)
    ensures forall k :: 0 <= k < |Reversed(order)| ==>
      Reversed(order)[k] in records && IsRecord(rules, events, Reversed(order)[k], records[Reversed(order)[k]])
  {
    ReversedAt(order);
    forall k | 0 <= k < |Reversed(order)|
      ensures Reversed(order)[k] in records && IsRecord(rules, events, Reversed(order)[k], records[Reversed(order)[k]])
    {
      assert Reversed(order)[k] == order[|order| - 1 - k] && BuiltOne(rules, events, records, Reversed(order)[k]);
    }
  }

  /** The entry of a key in the list of all records. */
  lemma EntryOf<E, R>(rules: Rules<E, R>, events: seq<E>, result: seq<R>, key: string)
    requires AreRecords(rules, events, result) && key in Appearing(rules, events)
    ensures EventsOf(rules, events, key) != []
    ensures exists k :: 0 <= k < |result| && result[k] == RecordOf(rules, EventsOf(rules, events, key))
  {
    var order := Appearing(rules, events);
    var i :| 0 <= i < |order| && order[i] == key;
    ReversedAt(order);
    var k := |order| - 1 - i;
    assert IsRecord(rules, events, Reversed(order)[k], result[k]);
  }
}
