/** What a solution says of each constant: its value is what its expression gives as its type stores it,
    and it is marked exactly if it depends, however indirectly, on a constant declared sensitive.
 */
module ConstantLaws {
  import opened Common
  import opened Values
  import opened DataTypes
  import opened Normalizing
  import opened Bindings
  import opened ResolveLaws
  import opened Constants

  ghost predicate Gets(v: Value, def: ConstantDef, values: map<Id, Value>, w: World) {
    exists raw, n ::
      && Resolve(def.value, ConstantsOnly(values), w) == Ok(raw)
      && Stores(raw, n, def.ty, w.types, 0) && w.bound(n) == Ok(v)
  }

  /** Each constant has the value that its expression resolves to, among the other constants, as its type
      stores it and the registry hands it on. */
  lemma SolvedIsStored(defs: Constants, w: World, p: Progress, id: Id)
    requires ValidEnv(w.types) && Solution(defs, w, p) && id in defs
    ensures id in p.values && Gets(p.values[id], defs[id], p.values, w)
  {
    assert Holds(defs, w, p, id);
    var def := defs[id];
    var raw := Resolve(def.value, ConstantsOnly(p.values), w).value;
    var n := Normalize(raw, def.ty, w.types, 0).value;
    NormalizedIsStored(raw, def.ty, w.types, 0);
    assert Stores(raw, n, def.ty, w.types, 0) && w.bound(n) == Ok(p.values[id]);
  }

  /** The first constant's expression mentions the second. */
  ghost predicate Uses(defs: Constants, a: Id, b: Id) {
    a in defs && exists r :: Mentions(defs[a].value, r) && r.node == b
  }

  /** Each constant of the chain uses the next. */
  ghost predicate IsChain(defs: Constants, chain: seq<Id>) {
    forall i :: 0 <= i < |chain| - 1 ==> Uses(defs, chain[i], chain[i + 1])
  }

  /** It leads from this constant to one that is declared sensitive. */
  ghost predicate LeadsToSecret(defs: Constants, id: Id, chain: seq<Id>) {
    && chain != [] && chain[0] == id && IsChain(defs, chain)
    && chain[|chain| - 1] in defs && defs[chain[|chain| - 1]].sensitive
  }

  lemma UsesIff(defs: Constants, a: Id, b: Id)
    ensures Uses(defs, a, b) <==> a in defs && b in Dependencies(defs[a])
  {
    if a in defs {
      forall r ensures r in References(defs[a].value) <==> Mentions(defs[a].value, r) {
        ReferencesAreMentioned(defs[a].value, r);
      }
      if Uses(defs, a, b) {
        var r :| Mentions(defs[a].value, r) && r.node == b;
        assert r in References(defs[a].value);
      }
      if b in Dependencies(defs[a]) {
        var r :| r in References(defs[a].value) && r.node == b;
        assert Mentions(defs[a].value, r);
      }
    }
  }

  lemma {:induction false} MarkedLeads(defs: Constants, w: World, p: Progress, i: nat) returns (chain: seq<Id>)
    requires Solution(defs, w, p) && i < |p.order| && p.order[i] in p.marked
    ensures LeadsToSecret(defs, p.order[i], chain)
    decreases i
  {
    var id := p.order[i];
    assert Holds(defs, w, p, id) && EarlierThan(defs, p, i);
    if defs[id].sensitive {
      chain := [id];
    } else {
      var d :| d in Dependencies(defs[id]) * p.marked;
      var j :| 0 <= j < i && p.order[j] == d;
      var rest := MarkedLeads(defs, w, p, j);
      UsesIff(defs, id, d);
      chain := [id] + rest;
      forall h | 0 <= h < |chain| - 1 ensures Uses(defs, chain[h], chain[h + 1]) {
        if h > 0 { assert chain[h] == rest[h - 1] && chain[h + 1] == rest[h]; }
      }
    }
  }

  lemma {:induction false} LeadsMarked(defs: Constants, w: World, p: Progress, id: Id, chain: seq<Id>)
    requires Solution(defs, w, p) && id in defs && LeadsToSecret(defs, id, chain)
    ensures id in p.marked
    decreases |chain|
  {
    assert id in p.order && Holds(defs, w, p, id);
    if |chain| > 1 {
      var next := chain[1];
      assert Uses(defs, chain[0], chain[0 + 1]);
      UsesIff(defs, id, next);
      PartialIsClosed(defs, w, p, id, next);
      assert next in p.order && next in defs;
      assert LeadsToSecret(defs, next, chain[1..]) by {
        forall h | 0 <= h < |chain[1..]| - 1 ensures Uses(defs, chain[1..][h], chain[1..][h + 1]) {
          assert Uses(defs, chain[h + 1], chain[h + 1 + 1]);
        }
      }
      LeadsMarked(defs, w, p, next, chain[1..]);
      assert next in Dependencies(defs[id]) * p.marked;
    }
  }

  /** A constant is marked if and only if a chain of uses leads from it to one declared sensitive. */
  lemma MarkedIff(defs: Constants, w: World, p: Progress, id: Id)
    requires Solution(defs, w, p) && id in defs
    ensures id in p.marked <==> exists chain :: LeadsToSecret(defs, id, chain)
  {
    if id in p.marked {
      assert id in p.order;
      var i :| 0 <= i < |p.order| && p.order[i] == id;
      var chain := MarkedLeads(defs, w, p, i);
    }
    if chain :| LeadsToSecret(defs, id, chain) { LeadsMarked(defs, w, p, id, chain); }
  }
}
