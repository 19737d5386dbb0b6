/** The binding check itself: it walks the rule, collects issues, and keeps the set of steps that are
    available at each point.
 */
module BindingChecker {
  import opened Bindings
  import opened BindingCheck
  import opened Workflow

  datatype Issue = MalformedReference(node: Id) | ForwardReference(node: Id)

  // ----- the issues, as functions --------------------------------------------------

  /** What is wrong with the references of an expression, in the order the check finds it. */
  function IssuesIn(e: Expr, available: set<Id>): seq<Issue> {
    match e
    case Ref(scope, node, path, policy) =>
      if !ValidReference(scope, node, path) then [MalformedReference(node)]
      else if scope == StepScope && node !in available then [ForwardReference(node)]
      else if policy.OnMissingDefault? then IssuesIn(policy.default, available)
      else []
    case Convert(source, _) => IssuesIn(source, available)
    case Template(elements) => IssuesInList(elements, available)
    case Object(_, elements) => IssuesInList(elements, available)
    case Array(elements) => IssuesInList(elements, available)
    case _ => []
  }

  function IssuesInList(es: seq<Expr>, available: set<Id>): seq<Issue>
    decreases es
  {
    if es == [] then [] else IssuesInList(es[..|es| - 1], available) + IssuesIn(es[|es| - 1], available)
  }

  function IssuesInCondition(p: Predicate, available: set<Id>): seq<Issue> {
    match p
    case Malformed => []
    case Compare(_, left, right) =>
      IssuesIn(left, available) + (if right.Some? then IssuesIn(right.value, available) else [])
    case Every(children) => IssuesInConditions(children, available)
    case Either(children) => IssuesInConditions(children, available)
    case Negation(child) => IssuesInCondition(child, available)
  }

  function IssuesInConditions(ps: seq<Predicate>, available: set<Id>): seq<Issue>
    decreases ps
  {
    if ps == [] then [] else IssuesInConditions(ps[..|ps| - 1], available) + IssuesInCondition(ps[|ps| - 1], available)
  }

  function IssuesInAction(a: Action, available: set<Id>): seq<Issue> {
    match a
    case Plain(_, params, onFailure, _) => IssuesIn(params, available) + IssuesInActions(onFailure, available)
    case Assign(_, _, value, _) => IssuesIn(value, available)
    case If(_, condition, yes, no, _) =>
      IssuesInCondition(condition, available) + IssuesInActions(yes, available) + IssuesInActions(no, available)
  }

  /** The steps available after a list of actions. */
  function AvailableAfter(actions: seq<Action>, available: set<Id>): set<Id>
    decreases |actions|
  {
    if actions == [] then available
    else AvailableAfter(actions[..|actions| - 1], available) + Adds(actions[|actions| - 1])
  }

  function IssuesInActions(actions: seq<Action>, available: set<Id>): seq<Issue>
    decreases actions
  {
    if actions == [] then []
    else
      var before := actions[..|actions| - 1];
      IssuesInActions(before, available) + IssuesInAction(actions[|actions| - 1], AvailableAfter(before, available))
  }

  // ----- no issue means checked ----------------------------------------------------

  /** An expression has no issue exactly when it is checked. */
  lemma {:induction false} NoIssueIffChecked(e: Expr, available: set<Id>)
    ensures IssuesIn(e, available) == [] <==> Checked(e, available)
    decreases e
  {
    match e
    case Ref(_, _, _, policy) => if policy.OnMissingDefault? { NoIssueIffChecked(policy.default, available); }
    case Convert(source, _) => NoIssueIffChecked(source, available);
    case Template(elements) => NoIssueInList(elements, available);
    case Object(_, elements) => NoIssueInList(elements, available);
    case Array(elements) => NoIssueInList(elements, available);
    case _ =>
  }

  lemma {:induction false} NoIssueInList(es: seq<Expr>, available: set<Id>)
    ensures IssuesInList(es, available) == [] <==> CheckedList(es, available)
    decreases es
  {
    if es != [] {
      NoIssueInList(es[..|es| - 1], available);
      NoIssueIffChecked(es[|es| - 1], available);
      CheckedListLast(es, available);
    }
  }

  lemma {:induction false} CheckedListLast(es: seq<Expr>, available: set<Id>)
    requires es != []
    ensures CheckedList(es, available) <==> CheckedList(es[..|es| - 1], available) && Checked(es[|es| - 1], available)
    decreases |es|
  {
    if |es| > 1 {
      CheckedListLast(es[1..], available);
      assert es[1..][..|es| - 2] == es[..|es| - 1][1..];
    }
  }

  lemma {:induction false} NoIssueInCondition(p: Predicate, available: set<Id>)
    ensures IssuesInCondition(p, available) == [] <==> CheckedCondition(p, available)
    decreases p
  {
    match p
    case Malformed =>
    case Compare(_, left, right) =>
      NoIssueIffChecked(left, available);
      if right.Some? { NoIssueIffChecked(right.value, available); }
    case Every(children) => NoIssueInConditions(children, available);
    case Either(children) => NoIssueInConditions(children, available);
    case Negation(child) => NoIssueInCondition(child, available);
  }

  lemma {:induction false} NoIssueInConditions(ps: seq<Predicate>, available: set<Id>)
    ensures IssuesInConditions(ps, available) == [] <==> CheckedConditions(ps, available)
    decreases ps
  {
    if ps != [] {
      NoIssueInConditions(ps[..|ps| - 1], available);
      NoIssueInCondition(ps[|ps| - 1], available);
      CheckedConditionsLast(ps, available);
    }
  }

  lemma {:induction false} CheckedConditionsLast(ps: seq<Predicate>, available: set<Id>)
    requires ps != []
    ensures CheckedConditions(ps, available) <==>
      CheckedConditions(ps[..|ps| - 1], available) && CheckedCondition(ps[|ps| - 1], available)
    decreases |ps|
  {
    if |ps| > 1 {
      CheckedConditionsLast(ps[1..], available);
      assert ps[1..][..|ps| - 2] == ps[..|ps| - 1][1..];
    }
  }

  lemma {:induction false} NoIssueInAction(a: Action, available: set<Id>)
    ensures IssuesInAction(a, available) == [] <==> CheckedAction(a, available)
    decreases a
  {
    match a
    case Plain(_, params, onFailure, _) =>
      NoIssueIffChecked(params, available);
      NoIssueInActions(onFailure, available);
    case Assign(_, _, value, _) => NoIssueIffChecked(value, available);
    case If(_, condition, yes, no, _) =>
      NoIssueInCondition(condition, available);
      NoIssueInActions(yes, available);
      NoIssueInActions(no, available);
  }

  /** A list of actions has no issue exactly when it is checked: the set the check grows along the
      way is the set of steps that are sure to be recorded. */
  lemma {:induction false} NoIssueInActions(actions: seq<Action>, available: set<Id>)
    ensures IssuesInActions(actions, available) == [] <==> CheckedAll(actions, available)
    decreases actions
  {
    if actions != [] {
      var before := actions[..|actions| - 1];
      NoIssueInActions(before, available);
      NoIssueInAction(actions[|actions| - 1], AvailableAfter(before, available));
      CheckedAllLast(actions, available);
    }
  }

  lemma {:induction false} CheckedAllLast(actions: seq<Action>, available: set<Id>)
    requires actions != []
    ensures var before := actions[..|actions| - 1];
            CheckedAll(actions, available) <==>
            CheckedAll(before, available) && CheckedAction(actions[|actions| - 1], AvailableAfter(before, available))
    decreases |actions|
  {
    if |actions| > 1 {
      var tail := actions[1..];
      CheckedAllLast(tail, available + Adds(actions[0]));
      assert tail[..|tail| - 1] == actions[..|actions| - 1][1..];
      AvailableFromFront(actions[..|actions| - 1], available);
    } else {
      assert actions[..0] == [] && CheckedAll(actions[1..], available + Adds(actions[0]));
    }
  }

  lemma {:induction false} AvailableFromFront(actions: seq<Action>, available: set<Id>)
    requires actions != []
    ensures AvailableAfter(actions, available) == AvailableAfter(actions[1..], available + Adds(actions[0]))
    decreases |actions|
  {
    if |actions| > 1 {
      var before := actions[..|actions| - 1];
      AvailableFromFront(before, available);
      assert before[1..] == actions[1..][..|actions| - 2];
    }
  }

  // ----- the checker ---------------------------------------------------------------

  class BindingChecker {
    var issues: seq<Issue>

    constructor ()
      ensures issues == []
    {
      issues := [];
    }

    method Add(issue: Issue)
      modifies this
      ensures issues == old(issues) + [issue]
    {
      issues := issues + [issue];
    }

    /** `check`, with `reference_type` for references. */
    method Check(e: Expr, available: set<Id>)
      modifies this
      ensures issues == old(issues) + IssuesIn(e, available)
      decreases e
    {
      match e
      case Ref(scope, node, path, policy) =>
        if !ValidReference(scope, node, path) {
          Add(MalformedReference(node));
        } else if scope == StepScope && node !in available {
          Add(ForwardReference(node));
        } else if policy.OnMissingDefault? {
          Check(policy.default, available);
        }
      case Convert(source, _) => Check(source, available);
      case Template(elements) => CheckElements(elements, available);
      case Object(_, elements) => CheckElements(elements, available);
      case Array(elements) => CheckElements(elements, available);
      case _ =>
    }

    method CheckElements(es: seq<Expr>, available: set<Id>)
      modifies this
      ensures issues == old(issues) + IssuesInList(es, available)
      decreases es
    {
      var i := 0;
      while i < |es|
        invariant 0 <= i <= |es| && issues == old(issues) + IssuesInList(es[..i], available)
      {
        assert es[..i + 1][..i] == es[..i];
        Check(es[i], available);
        i := i + 1;
      }
      assert es[..i] == es;
    }

    method CheckCondition(p: Predicate, available: set<Id>)
      modifies this
      ensures issues == old(issues) + IssuesInCondition(p, available)
      decreases p
    {
      match p
      case Malformed =>
      case Compare(_, left, right) =>
        Check(left, available);
        if right.Some? { Check(right.value, available); }
      case Every(children) => CheckChildren(children, available);
      case Either(children) => CheckChildren(children, available);
      case Negation(child) => CheckCondition(child, available);
    }

    method CheckChildren(ps: seq<Predicate>, available: set<Id>)
      modifies this
      ensures issues == old(issues) + IssuesInConditions(ps, available)
      decreases ps
    {
      var i := 0;
      while i < |ps|
        invariant 0 <= i <= |ps| && issues == old(issues) + IssuesInConditions(ps[..i], available)
      {
        assert ps[..i + 1][..i] == ps[..i];
        CheckCondition(ps[i], available);
        i := i + 1;
      }
      assert ps[..i] == ps;
    }

    method CheckAction(a: Action, available: set<Id>)
      modifies this
      ensures issues == old(issues) + IssuesInAction(a, available)
      decreases a
    {
      match a
      case Plain(_, params, onFailure, _) =>
        Check(params, available);
        CheckSequence(onFailure, available);
      case Assign(_, _, value, _) => Check(value, available);
      case If(_, condition, yes, no, _) =>
        CheckCondition(condition, available);
        CheckSequence(yes, available);
        CheckSequence(no, available);
    }

    /** `sequence`: the set of available steps grows as the loop goes on. */
    method CheckSequence(items: seq<Action>, previous: set<Id>)
      modifies this
      ensures issues == old(issues) + IssuesInActions(items, previous)
      decreases items
    {
      var available := previous;
      var i := 0;
      while i < |items|
        invariant 0 <= i <= |items| && available == AvailableAfter(items[..i], previous)
        invariant issues == old(issues) + IssuesInActions(items[..i], previous)
      {
        assert items[..i + 1][..i] == items[..i];
        CheckAction(items[i], available);
        available := available + Adds(items[i]);
        i := i + 1;
      }
      assert items[..i] == items;
    }
  }

  /** The check of a rule's actions: no issue exactly when every reference it visits is well-formed
      and to a step that is sure to be recorded. */
  method CheckRuleBindings(actions: seq<Action>) returns (issues: seq<Issue>)
    ensures issues == [] <==> CheckedAll(actions, {})
  {
    var checker := new BindingChecker();
    checker.CheckSequence(actions, {});
    NoIssueInActions(actions, {});
    issues := checker.issues;
  }
}
