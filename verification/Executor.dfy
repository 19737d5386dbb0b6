/** The executor itself: loops that write step records, variables and the cancellation flag in
    place, doing what the interpreter function says.
 */
module Executor {
  import opened Common
  import opened Values
  import opened Bindings
  import opened BindingCheck
  import opened Workflow

  /** `whole` is what was done so far followed by the actions from the i-th on. */
  ghost predicate Rejoins(whole: Done, past: Done, actions: seq<Action>, i: nat, st: State, rest: Rest, main: bool)
    requires i <= |actions|
  {
    whole == Followed(past, RunAll(actions[i..], st, rest, main))
  }

  lemma Starts(actions: seq<Action>, st: State, rest: Rest, main: bool)
    ensures Rejoins(RunAll(actions, st, rest, main), Done(st, true, []), actions, 0, st, rest, main)
  {
    assert actions[0..] == actions;
    assert [] + RunAll(actions, st, rest, main).trace == RunAll(actions, st, rest, main).trace;
  }

  lemma Ends(whole: Done, past: Done, actions: seq<Action>, st: State, rest: Rest, main: bool)
    requires Rejoins(whole, past, actions, |actions|, st, rest, main) && past.state == st
    ensures whole == past
  {
    assert past.trace + [] == past.trace;
  }

  lemma Stopped(whole: Done, past: Done, actions: seq<Action>, i: nat, st: State, rest: Rest, main: bool)
    requires i < |actions| && Rejoins(whole, past, actions, i, st, rest, main)
    requires st.cancelled || rest.cancels(actions[i], st.ctx)
    ensures whole == Followed(past, Done(st.(cancelled := true), false, [Interrupted(main)]))
  {
  }

  lemma Advances(whole: Done, past: Done, actions: seq<Action>, i: nat, st: State, rest: Rest, main: bool)
    requires i < |actions| && Rejoins(whole, past, actions, i, st, rest, main)
    requires !st.cancelled && !rest.cancels(actions[i], st.ctx)
    ensures var one := RunOne(actions[i], st, rest, main);
            if !one.ok && !actions[i].goOn then whole == Followed(past, one)
            else Rejoins(whole, Followed(past, one), actions, i + 1, one.state, rest, main)
  {
    var one := RunOne(actions[i], st, rest, main);
    assert actions[i..][1..] == actions[i + 1..];
    if one.ok || actions[i].goOn {
      var others := RunAll(actions[i + 1..], one.state, rest, main);
      assert past.trace + (one.trace + others.trace) == (past.trace + one.trace) + others.trace;
    }
  }

  lemma Append(a: seq<Event>, b: seq<Event>, c: seq<Event>)
    ensures (a + b) + c == a + (b + c)
  {
  }

  class WorkflowExecutor {
    const rest: Rest
    const event: Option<Value>
    const triggers: map<Id, TriggerData>
    const constants: map<Id, Value>
    var variables: map<Id, Value>
    var steps: map<Id, StepRecord>
    var cancelled: bool
    ghost var trace: seq<Event>

    constructor (rest: Rest, event: Option<Value>, triggers: map<Id, TriggerData>,
                 constants: map<Id, Value>, variables: map<Id, Value>)
      ensures this.rest == rest && trace == []
      ensures Now() == State(Context(event, triggers, constants, variables, map[]), false)
    {
      this.rest := rest;
      this.event := event;
      this.triggers := triggers;
      this.constants := constants;
      this.variables := variables;
      steps := map[];
      cancelled := false;
      trace := [];
    }

    function Ctx(): Context
      reads this
    {
      Context(event, triggers, constants, variables, steps)
    }

    ghost function Now(): State
      reads this
    {
      State(Ctx(), cancelled)
    }

    /** `execute_actions`: every step a successful run has recorded is in the trace, and so on for
        all that is proved of the interpreter. */
    method ExecuteActions(actions: seq<Action>) returns (ok: bool)
      modifies this
      ensures var d := RunAll(actions, old(Now()), rest, true);
              Now() == d.state && ok == d.ok && trace == old(trace) + d.trace
    {
      ok := ExecuteSequence(actions, true);
    }

    /** `_execute_action_sequence`. */
    method ExecuteSequence(actions: seq<Action>, main: bool) returns (ok: bool)
      modifies this
      ensures var d := RunAll(actions, old(Now()), rest, main);
              Now() == d.state && ok == d.ok && trace == old(trace) + d.trace
      decreases actions
    {
      ok := true;
      ghost var past := Done(Now(), true, []);
      ghost var whole := RunAll(actions, Now(), rest, main);
      Starts(actions, Now(), rest, main);
      var i := 0;
      while i < |actions|
        invariant 0 <= i <= |actions|
        invariant past.state == Now() && past.ok == ok && trace == old(trace) + past.trace
        invariant Rejoins(whole, past, actions, i, Now(), rest, main)
      {
        if cancelled || rest.cancels(actions[i], Ctx()) {
          Stopped(whole, past, actions, i, Now(), rest, main);
          Append(old(trace), past.trace, [Interrupted(main)]);
          cancelled := true;
          trace := trace + [Interrupted(main)];
          return false;
        }
        ghost var one := RunOne(actions[i], Now(), rest, main);
        Advances(whole, past, actions, i, Now(), rest, main);
        var fine := ExecuteOne(actions[i], main);
        Append(old(trace), past.trace, one.trace);
        past := Followed(past, one);
        ok := ok && fine;
        if !fine && !actions[i].goOn { return; }
        i := i + 1;
      }
      Ends(whole, past, actions, Now(), rest, main);
    }

    method ExecuteOne(a: Action, main: bool) returns (ok: bool)
      modifies this
      ensures var d := RunOne(a, old(Now()), rest, main);
              Now() == d.state && ok == d.ok && trace == old(trace) + d.trace
      decreases a, 1
    {
      match a
      case Plain(_, _, _, _) => ok := ExecutePlain(a, main);
      case Assign(_, _, _, _) => ok := ExecuteAssignment(a, main);
      case If(_, _, _, _, _) => ok := ExecuteIf(a, main);
    }

    /** The body of the loop for a plugin action: skip, or run, record and repair. */
    method ExecutePlain(a: Action, main: bool) returns (ok: bool)
      requires a.Plain?
      modifies this
      ensures var d := RunPlain(a, old(Now()), rest, main);
              Now() == d.state && ok == d.ok && trace == old(trace) + d.trace
      decreases a, 0
    {
      ghost var looked := LookedUp(Consulted(a.params, Ctx(), rest.world));
      if !Available(a.params, Ctx(), rest.world) {
        steps := steps[a.id := StepRecord(StepSkipped, Null)];
        trace := trace + [looked, Recorded(a.id, StepSkipped, main)];
        return true;
      }
      var o := Attempt(a, Ctx(), rest);
      steps := steps[a.id := StepRecord(StatusOf(o), ResultOf(o))];
      cancelled := cancelled || o.Cancelled?;
      ghost var own := [looked, Recorded(a.id, StatusOf(o), main)];
      trace := trace + own;
      ok := o.Returned?;
      if o.Raised? && main {
        ghost var repair := RunAll(a.onFailure, Now(), rest, false);
        var _ := ExecuteSequence(a.onFailure, false);
        Append(old(trace), own, repair.trace);
      }
    }

    /** `_execute_assignment`. */
    method ExecuteAssignment(a: Action, main: bool) returns (ok: bool)
      requires a.Assign?
      modifies this
      ensures var d := RunAssign(a, old(Now()), rest, main);
              Now() == d.state && ok == d.ok && trace == old(trace) + d.trace
    {
      ghost var looked := LookedUp(Consulted(a.value, Ctx(), rest.world));
      if !Available(a.value, Ctx(), rest.world) {
        steps := steps[a.id := StepRecord(StepSkipped, Null)];
        trace := trace + [looked, Recorded(a.id, StepSkipped, main)];
        return true;
      }
      var v := None;
      var resolved := Resolve(a.value, Ctx(), rest.world);
      if resolved.Ok? { v := rest.assign(a.variable, resolved.value, Ctx()); }
      if v.Some? {
        variables := variables[a.variable := v.value];
        steps := steps[a.id := StepRecord(StepOk, Dict(map["value" := v.value]))];
        trace := trace + [looked, Recorded(a.id, StepOk, main)];
        return true;
      }
      steps := steps[a.id := StepRecord(StepFailed, Null)];
      trace := trace + [looked, Recorded(a.id, StepFailed, main)];
      ok := false;
    }

    /** `_execute_if`. */
    method ExecuteIf(a: Action, main: bool) returns (ok: bool)
      requires a.If?
      modifies this
      ensures var d := RunIf(a, old(Now()), rest, main);
              Now() == d.state && ok == d.ok && trace == old(trace) + d.trace
      decreases a, 0
    {
      var judged := Judge(a.condition, Ctx(), rest);
      ghost var looked := [LookedUp(judged.looked)];
      if judged.matched.None? {
        steps := steps[a.id := StepRecord(StepFailed, Null)];
        trace := trace + [LookedUp(judged.looked), Recorded(a.id, StepFailed, main)];
        return false;
      }
      trace := trace + looked;
      var chosen := if judged.matched.value then a.yes else a.no;
      ghost var branch := RunAll(chosen, Now(), rest, main);
      ok := ExecuteSequence(chosen, main);
      var status := if ok then StepOk else StepFailed;
      steps := steps[a.id := StepRecord(status, if ok then BranchResult(judged.matched.value) else Null)];
      ghost var last := [Recorded(a.id, status, main)];
      trace := trace + last;
      assert old(trace) + looked + branch.trace + last == old(trace) + (looked + branch.trace + last);
    }
  }

  /** A whole run of an accepted rule, from an empty record: every lookup is of a recorded step,
      and success means that nothing outside failure actions failed. */
  method RunRule(executor: WorkflowExecutor, actions: seq<Action>) returns (ok: bool)
    requires executor.steps == map[] && executor.trace == []
    requires CheckedAll(actions, {}) && SettledAll(actions, {}) && ListDistinct(actions)
    modifies executor
    ensures WellOrdered(executor.trace, {}) && executor.steps.Keys == RecordedIn(executor.trace) <= ListIds(actions)
    ensures ok <==> AllFine(executor.trace)
    ensures Halts(executor.trace)
  {
    ghost var start := executor.Now();
    assert start.ctx.steps.Keys == {};
    ok := executor.ExecuteActions(actions);
    RunAllIsFaithful(actions, {}, start, executor.rest, true);
    SuccessMeans(actions, start, executor.rest, true);
    CancellationHalts(actions, start, executor.rest, true);
    assert executor.trace == RunAll(actions, start, executor.rest, true).trace;
  }
}
