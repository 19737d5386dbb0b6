/** What the binding check accepts, by position: a rule is accepted exactly when each reference the
    check visits is well-formed and, if to a step, to one that is sure to be recorded by then.
 */
module CheckLaws {
  import opened Common
  import opened Bindings
  import opened BindingCheck
  import opened Workflow

  /** The reference stands in the expression, outside the settings of conversions. */
  ghost predicate Visits(e: Expr, r: Reference) {
    match e
    case Ref(scope, node, path, policy) =>
      r == Reference(scope, node, path) || (policy.OnMissingDefault? && Visits(policy.default, r))
    case Convert(source, _) => Visits(source, r)
    case Template(elements) => VisitsAny(elements, r)
    case Object(_, elements) => VisitsAny(elements, r)
    case Array(elements) => VisitsAny(elements, r)
    case _ => false
  }

  ghost predicate VisitsAny(es: seq<Expr>, r: Reference) { exists i :: 0 <= i < |es| && Visits(es[i], r) }

  /** No name on the path is an internal one, and there is a node unless the event is meant; a step is
      one of these. */
  ghost predicate Fine(r: Reference, available: set<Id>) {
    && (forall i :: 0 <= i < |r.path| && r.path[i].Key? ==> !Internal(r.path[i].name))
    && (r.scope != EventScope ==> r.node != "") && (r.scope == StepScope ==> r.node in available)
  }

  predicate Internal(name: string) { ['_'] <= name || name == "constructor" || name == "prototype" }

  lemma FineIff(r: Reference, available: set<Id>)
    ensures Fine(r, available) <==>
      ValidReference(r.scope, r.node, r.path) && StepNode(r.scope, r.node) <= available
  {
    forall i | 0 <= i < |r.path| && r.path[i].Key?
      ensures Internal(r.path[i].name) <==> ReservedName(r.path[i].name)
    {
    }
    assert StepNode(r.scope, r.node) <= available <==> (r.scope == StepScope ==> r.node in available);
  }

  ghost predicate AllFine(e: Expr, available: set<Id>) { forall r :: Visits(e, r) ==> Fine(r, available) }

  ghost predicate AllFineIn(es: seq<Expr>, available: set<Id>) { forall r :: VisitsAny(es, r) ==> Fine(r, available) }

  /** An expression is accepted exactly when all the references in it are fine. */
  lemma {:induction false} CheckedIff(e: Expr, available: set<Id>)
    ensures Checked(e, available) <==> AllFine(e, available)
    decreases e
  {
    match e
    case Ref(scope, node, path, policy) =>
      var own := Reference(scope, node, path);
      assert Visits(e, own);
      FineIff(own, available);
      if policy.OnMissingDefault? {
        CheckedIff(policy.default, available);
        assert forall r :: Visits(e, r) <==> r == own || Visits(policy.default, r);
      }
    case Convert(source, _) =>
      CheckedIff(source, available);
      assert forall r :: Visits(e, r) <==> Visits(source, r);
    case Template(elements) => CheckedListIff(elements, available);
    case Object(_, elements) => CheckedListIff(elements, available);
    case Array(elements) => CheckedListIff(elements, available);
    case _ =>
  }

  lemma VisitsFirst(es: seq<Expr>, r: Reference)
    requires es != []
    ensures VisitsAny(es, r) <==> Visits(es[0], r) || VisitsAny(es[1..], r)
  {
    if i :| 0 <= i < |es| && Visits(es[i], r) { if i > 0 { assert Visits(es[1..][i - 1], r); } }
    if i :| 0 <= i < |es[1..]| && Visits(es[1..][i], r) { assert Visits(es[i + 1], r); }
  }

  lemma {:induction false} CheckedListIff(es: seq<Expr>, available: set<Id>)
    ensures CheckedList(es, available) <==> AllFineIn(es, available)
    decreases es
  {
    if es != [] {
      CheckedIff(es[0], available);
      CheckedListIff(es[1..], available);
      forall r ensures VisitsAny(es, r) <==> Visits(es[0], r) || VisitsAny(es[1..], r) { VisitsFirst(es, r); }
    }
  }

  // ----- conditions and actions ----------------------------------------------------

  ghost predicate VisitsCondition(p: Predicate, r: Reference) {
    match p
    case Malformed => false
    case Compare(_, left, right) => Visits(left, r) || (right.Some? && Visits(right.value, r))
    case Every(children) => VisitsChild(children, r)
    case Either(children) => VisitsChild(children, r)
    case Negation(child) => VisitsCondition(child, r)
  }

  ghost predicate VisitsChild(ps: seq<Predicate>, r: Reference) {
    exists i :: 0 <= i < |ps| && VisitsCondition(ps[i], r)
  }

  ghost predicate ConditionFine(p: Predicate, available: set<Id>) {
    forall r :: VisitsCondition(p, r) ==> Fine(r, available)
  }

  ghost predicate ChildrenFine(ps: seq<Predicate>, available: set<Id>) {
    forall r :: VisitsChild(ps, r) ==> Fine(r, available)
  }

  lemma {:induction false} CheckedConditionIff(p: Predicate, available: set<Id>)
    ensures CheckedCondition(p, available) <==> ConditionFine(p, available)
    decreases p
  {
    match p
    case Malformed =>
    case Compare(_, left, right) =>
      CheckedIff(left, available);
      assert forall r :: VisitsCondition(p, r) <==> Visits(left, r) || (right.Some? && Visits(right.value, r));
      if right.Some? { CheckedIff(right.value, available); }
    case Every(children) => CheckedChildrenIff(children, available);
    case Either(children) => CheckedChildrenIff(children, available);
    case Negation(child) =>
      CheckedConditionIff(child, available);
      assert forall r :: VisitsCondition(p, r) <==> VisitsCondition(child, r);
  }

  lemma VisitsFirstChild(ps: seq<Predicate>, r: Reference)
    requires ps != []
    ensures VisitsChild(ps, r) <==> VisitsCondition(ps[0], r) || VisitsChild(ps[1..], r)
  {
    if i :| 0 <= i < |ps| && VisitsCondition(ps[i], r) { if i > 0 { assert VisitsCondition(ps[1..][i - 1], r); } }
    if i :| 0 <= i < |ps[1..]| && VisitsCondition(ps[1..][i], r) { assert VisitsCondition(ps[i + 1], r); }
  }

  lemma {:induction false} CheckedChildrenIff(ps: seq<Predicate>, available: set<Id>)
    ensures CheckedConditions(ps, available) <==> ChildrenFine(ps, available)
    decreases ps
  {
    if ps != [] {
      CheckedConditionIff(ps[0], available);
      CheckedChildrenIff(ps[1..], available);
      forall r ensures VisitsChild(ps, r) <==> VisitsCondition(ps[0], r) || VisitsChild(ps[1..], r) {
        VisitsFirstChild(ps, r);
      }
    }
  }

  /** The steps that are sure to be recorded before the i-th action of a list: those that were before the
      list, and every earlier action of it that is no `if`. */
  ghost function SureAt(actions: seq<Action>, i: nat, before: set<Id>): set<Id>
    requires i <= |actions|
  {
    before + set j | 0 <= j < i && !actions[j].If? :: actions[j].id
  }

  /** The reference stands somewhere in the list where these steps are sure to be recorded. Failure
      actions stand where their action stands, branches where their `if` stands. */
  ghost predicate StandsIn(actions: seq<Action>, before: set<Id>, r: Reference, known: set<Id>) {
    exists i :: 0 <= i < |actions| && StandsInOne(actions[i], SureAt(actions, i, before), r, known)
  }

  ghost predicate StandsInOne(a: Action, before: set<Id>, r: Reference, known: set<Id>) {
    match a
    case Plain(_, params, onFailure, _) =>
      (known == before && Visits(params, r)) || StandsIn(onFailure, before, r, known)
    case Assign(_, _, value, _) => known == before && Visits(value, r)
    case If(_, condition, yes, no, _) =>
      || (known == before && VisitsCondition(condition, r))
      || StandsIn(yes, before, r, known) || StandsIn(no, before, r, known)
  }

  ghost predicate AllStandFine(actions: seq<Action>, before: set<Id>) {
    forall r, known :: StandsIn(actions, before, r, known) ==> Fine(r, known)
  }

  ghost predicate OneStandsFine(a: Action, before: set<Id>) {
    forall r, known :: StandsInOne(a, before, r, known) ==> Fine(r, known)
  }

  /** A list of actions is accepted exactly when each reference in it is fine where it stands. */
  lemma {:induction false} CheckedAllIff(actions: seq<Action>, before: set<Id>)
    ensures CheckedAll(actions, before) <==> AllStandFine(actions, before)
    decreases actions
  {
    if actions != [] {
      CheckedActionIff(actions[0], before);
      CheckedAllIff(actions[1..], before + Adds(actions[0]));
      forall r, known
        ensures StandsIn(actions, before, r, known) <==>
          StandsInOne(actions[0], before, r, known) || StandsIn(actions[1..], before + Adds(actions[0]), r, known)
      {
        StandsFirst(actions, before, r, known);
      }
    }
  }

  lemma SureLater(actions: seq<Action>, i: nat, before: set<Id>)
    requires actions != [] && i < |actions|
    ensures SureAt(actions, 0, before) == before
    ensures SureAt(actions, i + 1, before) == SureAt(actions[1..], i, before + Adds(actions[0]))
  {
    var tail := actions[1..];
    assert forall j :: 0 <= j < i ==> tail[j] == actions[j + 1];
    forall id ensures id in SureAt(actions, i + 1, before) <==> id in SureAt(tail, i, before + Adds(actions[0])) {
      if j :| 0 <= j < i + 1 && !actions[j].If? && actions[j].id == id { if j > 0 { assert tail[j - 1].id == id; } }
      if j :| 0 <= j < i && !tail[j].If? && tail[j].id == id { assert actions[j + 1].id == id; }
    }
  }

  lemma StandsFirst(actions: seq<Action>, before: set<Id>, r: Reference, known: set<Id>)
    requires actions != []
    ensures StandsIn(actions, before, r, known) <==>
      StandsInOne(actions[0], before, r, known) || StandsIn(actions[1..], before + Adds(actions[0]), r, known)
  {
    var (tail, later) := (actions[1..], before + Adds(actions[0]));
    SureLater(actions, 0, before);
    if i :| 0 <= i < |actions| && StandsInOne(actions[i], SureAt(actions, i, before), r, known) {
      if i > 0 {
        SureLater(actions, i - 1, before);
        assert StandsInOne(tail[i - 1], SureAt(tail, i - 1, later), r, known);
      }
    }
    if i :| 0 <= i < |tail| && StandsInOne(tail[i], SureAt(tail, i, later), r, known) {
      SureLater(actions, i, before);
      assert StandsInOne(actions[i + 1], SureAt(actions, i + 1, before), r, known);
    }
  }

  lemma {:induction false} CheckedActionIff(a: Action, before: set<Id>)
    ensures CheckedAction(a, before) <==> OneStandsFine(a, before)
    decreases a
  {
    match a
    case Plain(_, params, onFailure, _) =>
      CheckedIff(params, before);
      CheckedAllIff(onFailure, before);
      assert forall r :: Visits(params, r) ==> StandsInOne(a, before, r, before);
    case Assign(_, _, value, _) =>
      CheckedIff(value, before);
      assert forall r :: Visits(value, r) ==> StandsInOne(a, before, r, before);
    case If(_, condition, yes, no, _) =>
      CheckedConditionIff(condition, before);
      CheckedAllIff(yes, before);
      CheckedAllIff(no, before);
      assert forall r :: VisitsCondition(condition, r) ==> StandsInOne(a, before, r, before);
  }
}
