/** Rule constants: the depth-first evaluation of all constants, with the marks that keep
    sensitive values apart.
 */
module Constants {
  import opened Common
  import opened Values
  import opened DataTypes
  import opened Bindings

  function ConstantsOnly(values: map<Id, Value>): Context { Context(None, map[], values, map[], map[]) }

  // ----- solutions -----------------------------------------------------------------

  datatype ConstantDef = ConstantDef(value: Expr, ty: Type, sensitive: bool)

  type Constants = map<Id, ConstantDef>

  /** What has been evaluated, in order: the values and the marks. */
  datatype Progress = Progress(order: seq<Id>, values: map<Id, Value>, marked: set<Id>)

  function Dependencies(def: ConstantDef): set<Id> {
    set r | r in References(def.value) :: r.node
  }

  function EvaluateOne(def: ConstantDef, values: map<Id, Value>, w: World): Result<Value, Failure> {
    var v := Resolve(def.value, ConstantsOnly(values), w);
    if v.Err? then v
    else
      var n := Normalize(v.value, def.ty, w.types, 0);
      if n.Err? then Err(Rejected(n.error)) else Bound(n.value, w)
  }

  predicate Admissible(def: ConstantDef) {
    !HasLegacy(def.value) && forall r :: r in References(def.value) ==> r.scope == ConstantScope
  }

  /** The equation of one constant, and the rule for its mark. */
  ghost predicate Holds(defs: Constants, w: World, p: Progress, id: Id) {
    && id in defs && Admissible(defs[id]) && id in p.values
    && EvaluateOne(defs[id], p.values, w) == Ok(p.values[id])
    && (id in p.marked <==> defs[id].sensitive || Dependencies(defs[id]) * p.marked != {})
  }

  ghost predicate EarlierThan(defs: Constants, p: Progress, i: nat)
    requires i < |p.order|
  {
    p.order[i] in defs && forall d :: d in Dependencies(defs[p.order[i]]) ==> d in p.order[..i]
  }

  /** The equations hold for the constants evaluated so far, each after its dependencies. */
  ghost predicate Partial(defs: Constants, w: World, p: Progress) {
    && (forall id :: id in p.values <==> id in p.order)
    && (forall id :: id in p.marked ==> id in p.order)
    && (forall i :: 0 <= i < |p.order| ==> EarlierThan(defs, p, i))
    && (forall id :: id in p.order ==> Holds(defs, w, p, id))
  }

  ghost predicate Solution(defs: Constants, w: World, p: Progress) {
    Partial(defs, w, p) && p.values.Keys == defs.Keys
  }

  lemma PartialIsClosed(defs: Constants, w: World, p: Progress, id: Id, d: Id)
    requires Partial(defs, w, p) && id in p.order && d in Dependencies(defs[id])
    ensures d in p.order
  {
    var i :| 0 <= i < |p.order| && p.order[i] == id;
    assert EarlierThan(defs, p, i);
  }

  ghost predicate SameValue(a: map<Id, Value>, b: map<Id, Value>, id: Id) {
    (id in a <==> id in b) && (id in a && id in b ==> a[id] == b[id])
  }

  lemma EquationIsLocal(def: ConstantDef, a: map<Id, Value>, b: map<Id, Value>, w: World)
    requires !HasLegacy(def.value) && forall d :: d in Dependencies(def) ==> SameValue(a, b, d)
    ensures EvaluateOne(def, a, w) == EvaluateOne(def, b, w)
  {
    forall r | r in References(def.value) ensures SameFor(r, ConstantsOnly(a), ConstantsOnly(b), w) {
      assert SameValue(a, b, r.node);
    }
    ResolveIsLocal(def.value, ConstantsOnly(a), ConstantsOnly(b), w);
  }

  /** Where two rules define a dependency-closed set of constants alike, their evaluations agree
      on that set, whatever else the rules define and in whatever order they evaluate. */
  lemma {:induction false} AgreeOnShared(
      defs1: Constants, p1: Progress, defs2: Constants, p2: Progress, w: World, shared: set<Id>, i: nat)
    requires Partial(defs1, w, p1) && Partial(defs2, w, p2) && i < |p1.order| && p1.order[i] in shared
    requires forall id :: id in shared ==> id in p1.order && id in p2.order && defs1[id] == defs2[id]
    requires forall id :: id in shared ==> Dependencies(defs1[id]) <= shared
    ensures p1.values[p1.order[i]] == p2.values[p1.order[i]]
    ensures p1.order[i] in p1.marked <==> p1.order[i] in p2.marked
    decreases i
  {
    var id := p1.order[i];
    assert EarlierThan(defs1, p1, i);
    forall d | d in Dependencies(defs1[id])
      ensures SameValue(p1.values, p2.values, d) && (d in p1.marked <==> d in p2.marked)
    {
      var j :| 0 <= j < i && p1.order[j] == d;
      AgreeOnShared(defs1, p1, defs2, p2, w, shared, j);
    }
    EquationIsLocal(defs1[id], p1.values, p2.values, w);
    assert Dependencies(defs1[id]) * p1.marked == Dependencies(defs1[id]) * p2.marked;
    assert Holds(defs1, w, p1, id) && Holds(defs2, w, p2, id);
  }

  lemma AgreeOnAllShared(defs1: Constants, p1: Progress, defs2: Constants, p2: Progress, w: World, shared: set<Id>)
    requires Partial(defs1, w, p1) && Partial(defs2, w, p2)
    requires forall id :: id in shared ==> id in p1.order && id in p2.order && defs1[id] == defs2[id]
    requires forall id :: id in shared ==> Dependencies(defs1[id]) <= shared
    ensures forall id :: id in shared ==> SameValue(p1.values, p2.values, id) && (id in p1.marked <==> id in p2.marked)
  {
    forall id | id in shared ensures SameValue(p1.values, p2.values, id) && (id in p1.marked <==> id in p2.marked) {
      var i :| 0 <= i < |p1.order| && p1.order[i] == id;
      AgreeOnShared(defs1, p1, defs2, p2, w, shared, i);
    }
  }

  /** The defining equations have one solution, whatever the order of declaration. */
  lemma SolutionIsUnique(defs: Constants, w: World, p: Progress, q: Progress)
    requires Solution(defs, w, p) && Solution(defs, w, q)
    ensures p.values == q.values && p.marked == q.marked
  {
    forall id | id in defs ensures Dependencies(defs[id]) <= defs.Keys {
      forall d | d in Dependencies(defs[id]) ensures d in defs { PartialIsClosed(defs, w, p, id, d); }
    }
    AgreeOnAllShared(defs, p, defs, q, w, defs.Keys);
  }

  // ----- noninterference -----------------------------------------------------------

  /** The rules differ at most in the expressions of constants declared sensitive. */
  ghost predicate DifferInSecrets(defs1: Constants, defs2: Constants) {
    && defs1.Keys == defs2.Keys
    && forall id :: id in defs1 ==>
      defs1[id].sensitive == defs2[id].sensitive && (!defs1[id].sensitive ==> defs1[id] == defs2[id])
  }

  lemma UnmarkedDependency(defs: Constants, w: World, p: Progress, id: Id, d: Id)
    requires Holds(defs, w, p, id) && id !in p.marked && d in Dependencies(defs[id])
    ensures d !in p.marked
  {
    var marked := Dependencies(defs[id]) * p.marked;
    assert d !in marked;
  }

  lemma Unmarked(defs1: Constants, defs2: Constants, w: World, p1: Progress, p2: Progress)
    requires Solution(defs1, w, p1) && Solution(defs2, w, p2) && DifferInSecrets(defs1, defs2)
    ensures forall id :: id in defs1 && id !in p1.marked ==> id !in p2.marked && p1.values[id] == p2.values[id]
  {
    var open := set id | id in defs1 && id !in p1.marked;
    forall id | id in open ensures defs1[id] == defs2[id] && Dependencies(defs1[id]) <= open {
      assert Holds(defs1, w, p1, id);
      forall d | d in Dependencies(defs1[id]) ensures d in open {
        PartialIsClosed(defs1, w, p1, id, d);
        UnmarkedDependency(defs1, w, p1, id, d);
      }
    }
    AgreeOnAllShared(defs1, p1, defs2, p2, w, open);
    forall id | id in open ensures id !in p2.marked { assert SameValue(p1.values, p2.values, id); }
  }

  /** Sensitive constants do not leak: rules that differ only in the expressions of sensitive
      constants mark the same constants and give every unmarked one the same value. */
  lemma Noninterference(defs1: Constants, defs2: Constants, w: World, p1: Progress, p2: Progress)
    requires Solution(defs1, w, p1) && Solution(defs2, w, p2) && DifferInSecrets(defs1, defs2)
    ensures p1.marked == p2.marked
    ensures forall id :: id in defs1 && id !in p1.marked ==> p1.values[id] == p2.values[id]
  {
    Unmarked(defs1, defs2, w, p1, p2);
    Unmarked(defs2, defs1, w, p2, p1);
  }

  // ----- why evaluation fails ------------------------------------------------------

  datatype Problem = LegacyTemplate | NotAConstant | UnknownSource | Cyclic | Failed(failure: Failure)

  ghost predicate Edge(defs: Constants, a: Id, b: Id) { a in defs && b in Dependencies(defs[a]) }

  ghost predicate IsPath(defs: Constants, path: seq<Id>) {
    forall i :: 0 <= i < |path| - 1 ==> Edge(defs, path[i], path[i + 1])
  }

  ghost predicate IsCycle(defs: Constants, path: seq<Id>) {
    |path| >= 2 && path[0] == path[|path| - 1] && IsPath(defs, path)
  }

  /** A constant's expression fails once all it depends on is evaluated. */
  ghost predicate FailsAt(defs: Constants, w: World, p: Progress, id: Id, failure: Failure) {
    && Partial(defs, w, p) && id in defs && !HasLegacy(defs[id].value) && Dependencies(defs[id]) <= p.values.Keys
    && EvaluateOne(defs[id], p.values, w) == Err(failure)
  }

  ghost predicate Justified(defs: Constants, w: World, problem: Problem) {
    match problem
    case LegacyTemplate => exists id :: id in defs && HasLegacy(defs[id].value)
    case NotAConstant => exists id :: id in defs && !Admissible(defs[id])
    case UnknownSource => exists a, b :: Edge(defs, a, b) && b !in defs
    case Cyclic => exists path :: IsCycle(defs, path)
    case Failed(failure) => exists p, id :: FailsAt(defs, w, p, id, failure)
  }

  /** Along a path the position in the order of evaluation goes down. */
  lemma {:induction false} PathGoesBack(defs: Constants, w: World, p: Progress, path: seq<Id>, i: nat) returns (j: nat)
    requires Partial(defs, w, p) && i < |p.order| && |path| >= 2 && IsPath(defs, path) && path[0] == p.order[i]
    ensures j < i && p.order[j] == path[|path| - 1]
    decreases |path|
  {
    assert EarlierThan(defs, p, i) && Edge(defs, path[0], path[0 + 1]);
    j :| 0 <= j < i && p.order[j] == path[1];
    if |path| > 2 {
      forall k | 0 <= k < |path[1..]| - 1 ensures Edge(defs, path[1..][k], path[1..][k + 1]) {
        assert Edge(defs, path[k + 1], path[k + 1 + 1]);
      }
      j := PathGoesBack(defs, w, p, path[1..], j);
    }
  }

  lemma {:induction false} NoCycle(defs: Constants, w: World, p: Progress, path: seq<Id>, i: nat)
    requires Partial(defs, w, p) && i < |p.order| && path != [] && path[0] == p.order[i]
    ensures !IsCycle(defs, path)
    decreases i
  {
    if IsCycle(defs, path) {
      var j := PathGoesBack(defs, w, p, path, i);
      NoCycle(defs, w, p, path, j);
    }
  }

  lemma SolvedNeverFails(defs: Constants, w: World, s: Progress, p: Progress, id: Id)
    requires Solution(defs, w, s) && Partial(defs, w, p) && id in defs && Dependencies(defs[id]) <= p.values.Keys
    ensures EvaluateOne(defs[id], p.values, w).Ok?
  {
    forall a | a in p.values.Keys ensures Dependencies(defs[a]) <= p.values.Keys {
      forall d | d in Dependencies(defs[a]) ensures d in p.values { PartialIsClosed(defs, w, p, a, d); }
    }
    forall a | a in p.values.Keys ensures a in s.order { assert Holds(defs, w, p, a); }
    AgreeOnAllShared(defs, p, defs, s, w, p.values.Keys);
    assert Holds(defs, w, s, id);
    EquationIsLocal(defs[id], p.values, s.values, w);
  }

  lemma NeverFailsAt(defs: Constants, w: World, s: Progress, p: Progress, id: Id, failure: Failure)
    requires Solution(defs, w, s)
    ensures !FailsAt(defs, w, p, id, failure)
  {
    if Partial(defs, w, p) && id in defs && Dependencies(defs[id]) <= p.values.Keys {
      SolvedNeverFails(defs, w, s, p, id);
    }
  }

  /** Where the equations have a solution, none of the reasons to fail exists: in particular no
      dependency cycle. */
  lemma SolvedHasNoProblem(defs: Constants, w: World, s: Progress, problem: Problem)
    requires Solution(defs, w, s)
    ensures !Justified(defs, w, problem)
  {
    match problem
    case LegacyTemplate => forall id | id in defs ensures !HasLegacy(defs[id].value) { assert Holds(defs, w, s, id); }
    case NotAConstant => forall id | id in defs ensures Admissible(defs[id]) { assert Holds(defs, w, s, id); }
    case UnknownSource =>
      forall a, b | Edge(defs, a, b) ensures b in defs { PartialIsClosed(defs, w, s, a, b); }
    case Cyclic =>
      forall path ensures !IsCycle(defs, path) {
        if IsCycle(defs, path) {
          assert Edge(defs, path[0], path[0 + 1]) && path[0] in s.order;
          var i :| 0 <= i < |s.order| && s.order[i] == path[0];
          NoCycle(defs, w, s, path, i);
        }
      }
    case Failed(failure) =>
      forall p, id ensures !FailsAt(defs, w, p, id, failure) { NeverFailsAt(defs, w, s, p, id, failure); }
  }

  // ----- the evaluation ------------------------------------------------------------

  function Extended(p: Progress, id: Id, v: Value, mark: bool): Progress {
    Progress(p.order + [id], p.values[id := v], if mark then p.marked + {id} else p.marked)
  }

  /** Evaluating one more constant after its dependencies. */
  lemma ExtendKeepsOne(defs: Constants, w: World, p: Progress, id: Id, v: Value, mark: bool, a: Id)
    requires Partial(defs, w, p) && id !in p.order && a in p.order
    ensures Holds(defs, w, Extended(p, id, v, mark), a)
  {
    var q := Extended(p, id, v, mark);
    forall d | d in Dependencies(defs[a]) ensures SameValue(p.values, q.values, d) && d != id {
      PartialIsClosed(defs, w, p, a, d);
    }
    assert Holds(defs, w, p, a);
    EquationIsLocal(defs[a], p.values, q.values, w);
    assert Dependencies(defs[a]) * q.marked == Dependencies(defs[a]) * p.marked;
  }

  lemma ExtendHoldsNew(defs: Constants, w: World, p: Progress, id: Id, v: Value, mark: bool)
    requires Partial(defs, w, p) && id !in p.order && id in defs && Admissible(defs[id])
    requires Dependencies(defs[id]) <= p.values.Keys
    requires EvaluateOne(defs[id], p.values, w) == Ok(v)
    requires mark <==> defs[id].sensitive || Dependencies(defs[id]) * p.marked != {}
    ensures Holds(defs, w, Extended(p, id, v, mark), id)
  {
    var q := Extended(p, id, v, mark);
    forall d | d in Dependencies(defs[id]) ensures SameValue(p.values, q.values, d) && d != id {
    }
    EquationIsLocal(defs[id], p.values, q.values, w);
    assert Dependencies(defs[id]) * q.marked == Dependencies(defs[id]) * p.marked;
  }

  lemma ExtendKeeps(defs: Constants, w: World, p: Progress, id: Id, v: Value, mark: bool)
    requires Partial(defs, w, p) && id !in p.order && id in defs && Admissible(defs[id])
    requires Dependencies(defs[id]) <= p.values.Keys
    requires EvaluateOne(defs[id], p.values, w) == Ok(v)
    requires mark <==> defs[id].sensitive || Dependencies(defs[id]) * p.marked != {}
    ensures Partial(defs, w, Extended(p, id, v, mark))
  {
    var q := Extended(p, id, v, mark);
    ExtendHoldsNew(defs, w, p, id, v, mark);
    forall a | a in q.order ensures Holds(defs, w, q, a) {
      if a in p.order { ExtendKeepsOne(defs, w, p, id, v, mark, a); }
    }
    forall i | 0 <= i < |q.order| ensures EarlierThan(defs, q, i) {
      if i < |p.order| {
        assert EarlierThan(defs, p, i) && q.order[..i] == p.order[..i];
      } else {
        assert q.order[..i] == p.order;
      }
    }
  }

  /** A reference back to a constant on the stack closes a cycle. */
  lemma BackReferenceIsCycle(defs: Constants, stack: seq<Id>, id: Id)
    requires IsPath(defs, stack) && stack != [] && Edge(defs, stack[|stack| - 1], id) && id in stack
    ensures exists path :: IsCycle(defs, path)
  {
    var k :| 0 <= k < |stack| && stack[k] == id;
    var path := stack[k..] + [id];
    forall i | 0 <= i < |path| - 1 ensures Edge(defs, path[i], path[i + 1]) {
      if i < |path| - 2 { assert Edge(defs, stack[k + i], stack[k + i + 1]); }
    }
    assert IsCycle(defs, path);
  }

  /** The stack of constants being evaluated: a dependency path without repetition, none of them
      evaluated yet. */
  ghost predicate OnStack(defs: Constants, p: Progress, pending: set<Id>, stack: seq<Id>) {
    && pending <= defs.Keys && IsPath(defs, stack)
    && (forall id :: id in pending <==> id in stack)
    && (forall i, j :: 0 <= i < j < |stack| ==> stack[i] != stack[j])
    && (forall id :: id in pending ==> id !in p.values)
  }

  ghost predicate Reached(defs: Constants, stack: seq<Id>, id: Id) {
    if stack == [] then id in defs else Edge(defs, stack[|stack| - 1], id)
  }

  lemma PushKeeps(defs: Constants, p: Progress, pending: set<Id>, stack: seq<Id>, id: Id)
    requires OnStack(defs, p, pending, stack) && Reached(defs, stack, id)
    requires id in defs && id !in pending && id !in p.values
    ensures OnStack(defs, p, pending + {id}, stack + [id])
  {
  }

  lemma PopKeeps(defs: Constants, p: Progress, pending: set<Id>, stack: seq<Id>, id: Id, v: Value, mark: bool)
    requires OnStack(defs, p, pending + {id}, stack + [id]) && id !in pending
    ensures OnStack(defs, Extended(p, id, v, mark), pending, stack)
  {
    var pushed := stack + [id];
    forall i | 0 <= i < |stack| - 1 ensures Edge(defs, stack[i], stack[i + 1]) {
      assert Edge(defs, pushed[i], pushed[i + 1]);
    }
    forall i | 0 <= i < |stack| ensures stack[i] != id { assert pushed[i] != pushed[|stack|]; }
    forall a ensures a in pending <==> a in stack { assert a in pending + {id} <==> a in pushed; }
    forall i, j | 0 <= i < j < |stack| ensures stack[i] != stack[j] { assert pushed[i] != pushed[j]; }
  }

  class ConstantContext {
    const definitions: Constants
    const world: World
    var constants: map<Id, Value>
    var sensitive: set<Id>
    var pending: set<Id>
    ghost var order: seq<Id>
    ghost var stack: seq<Id>

    ghost function Done(): Progress
      reads this
    {
      Progress(order, constants, sensitive)
    }

    ghost predicate Valid()
      reads this
    {
      Partial(definitions, world, Done()) && OnStack(definitions, Done(), pending, stack)
    }

    constructor (definitions: Constants, world: World)
      ensures Valid() && this.definitions == definitions && this.world == world
      ensures pending == {} && stack == [] && order == []
    {
      this.definitions := definitions;
      this.world := world;
      constants := map[];
      sensitive := {};
      pending := {};
      order := [];
      stack := [];
    }

    /** `evaluate`: the constant and all it depends on, or a reason why that is impossible. */
    method Evaluate(identity: Id) returns (r: Result<(), Problem>)
      requires Valid() && Reached(definitions, stack, identity)
      modifies this
      ensures r.Ok? ==> Valid() && identity in constants && old(order) <= order
      ensures r.Ok? ==> pending == old(pending) && stack == old(stack)
      ensures r.Err? ==> Justified(definitions, world, r.error)
      decreases definitions.Keys - pending, 0
    {
      if identity in constants { return Ok(()); }
      if identity in pending {
        BackReferenceIsCycle(definitions, stack, identity);
        return Err(Cyclic);
      }
      if identity !in definitions { return Err(UnknownSource); }
      if HasLegacy(definitions[identity].value) { return Err(LegacyTemplate); }
      if !Admissible(definitions[identity]) { return Err(NotAConstant); }
      PushKeeps(definitions, Done(), pending, stack, identity);
      pending := pending + {identity};
      stack := stack + [identity];
      r := EvaluateDependencies(identity);
      if r.Err? { return; }
      assert Dependencies(definitions[identity]) <= constants.Keys;
      r := Store(identity, old(pending), old(stack));
    }

    /** The constant on top of the stack, once its dependencies are evaluated. */
    method Store(identity: Id, ghost below: set<Id>, ghost rest: seq<Id>) returns (r: Result<(), Problem>)
      requires Valid() && identity in definitions && Admissible(definitions[identity])
      requires pending == below + {identity} && stack == rest + [identity] && identity !in below
      requires Dependencies(definitions[identity]) <= constants.Keys
      modifies this
      ensures r.Ok? ==> Valid() && identity in constants && old(order) <= order && pending == below && stack == rest
      ensures r.Err? ==> Justified(definitions, world, r.error)
    {
      var definition := definitions[identity];
      var value := EvaluateOne(definition, constants, world);
      if value.Err? {
        assert FailsAt(definitions, world, Done(), identity, value.error);
        return Err(Failed(value.error));
      }
      var mark := definition.sensitive || Dependencies(definition) * sensitive != {};
      ExtendKeeps(definitions, world, Done(), identity, value.value, mark);
      PopKeeps(definitions, Done(), below, rest, identity, value.value, mark);
      ghost var done := Extended(Done(), identity, value.value, mark);
      constants := constants[identity := value.value];
      if mark { sensitive := sensitive + {identity}; }
      pending := pending - {identity};
      order := order + [identity];
      stack := rest;
      assert Done() == done && pending == below;
      r := Ok(());
    }

    /** The loop over the references of the constant on top of the stack. */
    method EvaluateDependencies(identity: Id) returns (r: Result<(), Problem>)
      requires Valid() && identity in definitions
      requires stack != [] && stack[|stack| - 1] == identity
      modifies this
      ensures r.Ok? ==>
        Valid() && old(order) <= order && forall d :: d in Dependencies(definitions[identity]) ==> d in order
      ensures r.Ok? ==> pending == old(pending) && stack == old(stack)
      ensures r.Err? ==> Justified(definitions, world, r.error)
      decreases definitions.Keys - pending, 1
    {
      var usages := References(definitions[identity].value);
      var i := 0;
      while i < |usages|
        invariant 0 <= i <= |usages| && Valid() && old(order) <= order
        invariant pending == old(pending) && stack == old(stack)
        invariant AllIn(usages[..i], order)
      {
        ghost var before := order;
        r := Evaluate(usages[i].node);
        if r.Err? { return; }
        OneMore(usages, i, before, order);
        i := i + 1;
      }
      DependenciesAre(definitions[identity], order);
      r := Ok(());
    }
  }

  ghost predicate AllIn(refs: seq<Reference>, order: seq<Id>) { forall r :: r in refs ==> r.node in order }

  lemma OneMore(refs: seq<Reference>, i: nat, before: seq<Id>, after: seq<Id>)
    requires i < |refs| && AllIn(refs[..i], before) && before <= after && refs[i].node in after
    ensures AllIn(refs[..i + 1], after)
  {
    assert refs[..i + 1] == refs[..i] + [refs[i]];
  }

  lemma DependenciesAre(def: ConstantDef, order: seq<Id>)
    requires AllIn(References(def.value)[..|References(def.value)|], order)
    ensures forall d :: d in Dependencies(def) ==> d in order
  {
    assert References(def.value)[..|References(def.value)|] == References(def.value);
  }

  ghost predicate AllDone(ids: seq<Id>, order: seq<Id>) { forall id :: id in ids ==> id in order }

  lemma OneDone(ids: seq<Id>, i: nat, before: seq<Id>, after: seq<Id>)
    requires i < |ids| && AllDone(ids[..i], before) && before <= after && ids[i] in after
    ensures AllDone(ids[..i + 1], after)
  {
    assert ids[..i + 1] == ids[..i] + [ids[i]];
  }

  /** `constant_context`: evaluation succeeds exactly when the defining equations have a solution
      in some order of evaluation, and then returns that solution; an error is always justified. */
  method EvaluateConstants(definitions: Constants, declared: seq<Id>, world: World)
    returns (r: Result<(map<Id, Value>, set<Id>), Problem>)
    requires forall id :: id in declared <==> id in definitions
    ensures r.Ok? <==> exists p :: Solution(definitions, world, p)
    ensures r.Ok? ==> forall p :: Solution(definitions, world, p) ==> r.value == (p.values, p.marked)
    ensures r.Err? ==> Justified(definitions, world, r.error)
  {
    var context := new ConstantContext(definitions, world);
    var i := 0;
    while i < |declared|
      invariant 0 <= i <= |declared| && context.Valid()
      invariant context.definitions == definitions && context.world == world
      invariant context.pending == {} && context.stack == []
      invariant AllDone(declared[..i], context.order)
    {
      ghost var before := context.order;
      var one := context.Evaluate(declared[i]);
      if one.Err? {
        UnsolvableIf(definitions, world, one.error);
        return Err(one.error);
      }
      OneDone(declared, i, before, context.order);
      i := i + 1;
    }
    assert declared[..i] == declared;
    AllSolved(definitions, world, context.Done(), declared);
    r := Ok((context.constants, context.sensitive));
  }

  lemma UnsolvableIf(defs: Constants, w: World, problem: Problem)
    requires Justified(defs, w, problem)
    ensures forall p :: !Solution(defs, w, p)
  {
    forall p ensures !Solution(defs, w, p) {
      if Solution(defs, w, p) { SolvedHasNoProblem(defs, w, p, problem); }
    }
  }

  lemma AllSolved(defs: Constants, w: World, s: Progress, declared: seq<Id>)
    requires Partial(defs, w, s) && (forall id :: id in declared <==> id in defs)
    requires AllDone(declared, s.order)
    ensures Solution(defs, w, s)
    ensures forall p :: Solution(defs, w, p) ==> p.values == s.values && p.marked == s.marked
  {
    forall id | id in s.values ensures id in defs { assert Holds(defs, w, s, id); }
    forall id | id in defs ensures id in s.values { assert id in declared; }
    assert s.values.Keys == defs.Keys;
    forall p | Solution(defs, w, p) ensures p.values == s.values && p.marked == s.marked {
      SolutionIsUnique(defs, w, p, s);
    }
  }
}
