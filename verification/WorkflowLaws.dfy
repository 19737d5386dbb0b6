/** What a run of an action list does, said of the steps it records: conditions have a truth value of
    their own and choose the branch, actions run in order until one stops the list, failure actions
    run after a failure alone, and every record holds what its action returned.
 */
module WorkflowLaws {
  import opened Common
  import opened Values
  import opened Bindings
  import opened BindingCheck
  import opened Workflow

  // ----- the truth of a condition --------------------------------------------------

  /** The expression has its data and resolves to the value. */
  ghost predicate Gives(e: Expr, v: Value, ctx: Context, rest: Rest) {
    Available(e, ctx, rest.world) && Resolve(e, ctx, rest.world) == Ok(v)
  }

  /** The comparison of what the operands resolve to gives this answer. */
  ghost predicate Answers(op: string, left: Expr, right: Option<Expr>, b: bool, ctx: Context, rest: Rest) {
    exists v :: Gives(left, v, ctx, rest) &&
      (if right.None? then rest.compare(op, v, None) == Some(b)
       else exists u :: Gives(right.value, u, ctx, rest) && rest.compare(op, v, Some(u)) == Some(b))
  }

  /** The value of a condition as a formula over its comparisons, read from left to right: a part that
      is reached must have a value. */
  ghost predicate Is(p: Predicate, b: bool, ctx: Context, rest: Rest) {
    match p
    case Malformed => false
    case Compare(op, left, right) => Answers(op, left, right, b, ctx, rest)
    case Negation(child) => Is(child, !b, ctx, rest)
    case Every(children) =>
      if b then forall i :: 0 <= i < |children| ==> Is(children[i], true, ctx, rest)
      else exists i :: 0 <= i < |children| && Is(children[i], false, ctx, rest)
             && forall j :: 0 <= j < i ==> Is(children[j], true, ctx, rest)
    case Either(children) =>
      if !b then forall i :: 0 <= i < |children| ==> Is(children[i], false, ctx, rest)
      else exists i :: 0 <= i < |children| && Is(children[i], true, ctx, rest)
             && forall j :: 0 <= j < i ==> Is(children[j], false, ctx, rest)
  }

  /** The first of a list that has the value `stop` after others that have the opposite. */
  ghost predicate StopsAt(ps: seq<Predicate>, i: nat, stop: bool, ctx: Context, rest: Rest) {
    i < |ps| && Is(ps[i], stop, ctx, rest) && forall j :: 0 <= j < i ==> Is(ps[j], !stop, ctx, rest)
  }

  ghost predicate AllAre(ps: seq<Predicate>, b: bool, ctx: Context, rest: Rest) {
    forall i :: 0 <= i < |ps| ==> Is(ps[i], b, ctx, rest)
  }

  lemma {:induction false} CompareIsAnswered(p: Predicate, b: bool, ctx: Context, rest: Rest)
    requires p.Compare?
    ensures Judge(p, ctx, rest).matched == Some(b) <==> Is(p, b, ctx, rest)
  {
    var left := Operand(p.left, ctx, rest);
    if left.Some? {
      assert Gives(p.left, left.value, ctx, rest);
      if p.right.Some? {
        var right := Operand(p.right.value, ctx, rest);
        if right.Some? { assert Gives(p.right.value, right.value, ctx, rest); }
      }
    }
  }

  /** Evaluation finds the value of a condition, and raises exactly when it has none. */
  lemma {:induction false} JudgedIsTruth(p: Predicate, b: bool, ctx: Context, rest: Rest)
    ensures Judge(p, ctx, rest).matched == Some(b) <==> Is(p, b, ctx, rest)
    decreases p, 1
  {
    match p
    case Malformed =>
    case Compare(_, _, _) => CompareIsAnswered(p, b, ctx, rest);
    case Negation(child) => JudgedIsTruth(child, !b, ctx, rest);
    case Every(children) =>
      JudgedUntil(children, false, ctx, rest);
      if !b && Is(p, b, ctx, rest) {
        var i :| 0 <= i < |children| && Is(children[i], false, ctx, rest)
          && forall j :: 0 <= j < i ==> Is(children[j], true, ctx, rest);
        assert StopsAt(children, i, false, ctx, rest);
      }
    case Either(children) =>
      JudgedUntil(children, true, ctx, rest);
      if b && Is(p, b, ctx, rest) {
        var i :| 0 <= i < |children| && Is(children[i], true, ctx, rest)
          && forall j :: 0 <= j < i ==> Is(children[j], false, ctx, rest);
        assert StopsAt(children, i, true, ctx, rest);
      }
  }

  lemma {:induction false} JudgedUntil(ps: seq<Predicate>, stop: bool, ctx: Context, rest: Rest)
    ensures JudgeUntil(ps, stop, ctx, rest).matched == Some(stop) <==> exists i: nat :: StopsAt(ps, i, stop, ctx, rest)
    ensures JudgeUntil(ps, stop, ctx, rest).matched == Some(!stop) <==> AllAre(ps, !stop, ctx, rest)
    decreases ps, 0
  {
    if ps != [] {
      JudgedIsTruth(ps[0], stop, ctx, rest);
      JudgedIsTruth(ps[0], !stop, ctx, rest);
      JudgedUntil(ps[1..], stop, ctx, rest);
      StopsLater(ps, stop, ctx, rest);
      assert AllAre(ps, !stop, ctx, rest) <==> Is(ps[0], !stop, ctx, rest) && AllAre(ps[1..], !stop, ctx, rest) by {
        if AllAre(ps, !stop, ctx, rest) {
          forall i | 0 <= i < |ps[1..]| ensures Is(ps[1..][i], !stop, ctx, rest) { assert ps[1..][i] == ps[i + 1]; }
        }
        if Is(ps[0], !stop, ctx, rest) && AllAre(ps[1..], !stop, ctx, rest) {
          forall i | 0 <= i < |ps| ensures Is(ps[i], !stop, ctx, rest) { if i > 0 { assert ps[i] == ps[1..][i - 1]; } }
        }
      }
    }
  }

  lemma StopsLater(ps: seq<Predicate>, stop: bool, ctx: Context, rest: Rest)
    requires ps != []
    ensures (exists i: nat :: StopsAt(ps, i, stop, ctx, rest)) <==>
      Is(ps[0], stop, ctx, rest)
      || (Is(ps[0], !stop, ctx, rest) && exists i: nat :: StopsAt(ps[1..], i, stop, ctx, rest))
  {
    if i: nat :| StopsAt(ps, i, stop, ctx, rest) {
      if i > 0 {
        assert StopsAt(ps[1..], i - 1, stop, ctx, rest) by {
          forall j | 0 <= j < i - 1 ensures Is(ps[1..][j], !stop, ctx, rest) { assert ps[1..][j] == ps[j + 1]; }
        }
      }
    }
    if Is(ps[0], stop, ctx, rest) { assert StopsAt(ps, 0, stop, ctx, rest); }
    if i: nat :| StopsAt(ps[1..], i, stop, ctx, rest) {
      if Is(ps[0], !stop, ctx, rest) {
        assert StopsAt(ps, i + 1, stop, ctx, rest) by {
          forall j | 0 <= j < i + 1 ensures Is(ps[j], !stop, ctx, rest) { if j > 0 { assert ps[j] == ps[1..][j - 1]; } }
        }
      }
    }
  }

  // ----- which steps are recorded --------------------------------------------------

  lemma {:induction false} RecordedJoin(a: seq<Event>, b: seq<Event>)
    ensures RecordedIn(a + b) == RecordedIn(a) + RecordedIn(b)
  {
    if a == [] {
      assert a + b == b;
    } else {
      assert (a + b)[1..] == a[1..] + b;
      RecordedJoin(a[1..], b);
    }
  }

  lemma {:induction false} RecordedMeans(trace: seq<Event>)
    ensures forall id :: id in RecordedIn(trace) <==> exists e :: e in trace && e.Recorded? && e.step == id
  {
    if trace != [] {
      RecordedMeans(trace[1..]);
      assert forall e :: e in trace <==> e == trace[0] || e in trace[1..];
    }
  }

  lemma PairRecords(looked: set<Id>, id: Id, status: Status, main: bool)
    ensures RecordedIn([LookedUp(looked), Recorded(id, status, main)]) == {id}
  {
    assert [LookedUp(looked), Recorded(id, status, main)][1..] == [Recorded(id, status, main)];
    assert [Recorded(id, status, main)][1..] == [] && RecordedIn([]) == {};
  }

  predicate FailsInMain(a: Action, st: State, rest: Rest, main: bool)
    requires a.Plain?
  {
    main && OwnRecord(a, st.ctx, rest).status == StepFailed
  }

  function OwnTrace(a: Action, st: State, rest: Rest, main: bool): seq<Event>
    requires a.Plain?
  {
    [LookedUp(Consulted(a.params, st.ctx, rest.world)), Recorded(a.id, OwnRecord(a, st.ctx, rest).status, main)]
  }

  function Failed(a: Action, st: State): State { Record(st, a.id, StepFailed, Null) }

  /** A plain action records itself; if it failed, and is not itself a failure action, its failure
      actions follow. */
  lemma PlainTrace(a: Action, st: State, rest: Rest, main: bool)
    requires a.Plain?
    ensures var d := RunPlain(a, st, rest, main);
            if FailsInMain(a, st, rest, main) then
              var repair := RunAll(a.onFailure, Failed(a, st), rest, false);
              d == Done(repair.state, false, OwnTrace(a, st, rest, main) + repair.trace)
            else
              var own := OwnRecord(a, st.ctx, rest);
              && d.trace == OwnTrace(a, st, rest, main) && d.ok == Good(own.status)
              && d.state.ctx == Record(st, a.id, own.status, own.result).ctx
              && d.state.cancelled == (st.cancelled || own.status == StepCancelled)
  {
  }

  predicate Good(status: Status) { status == StepOk || status == StepSkipped }

  /** What a plain action records: skipped without its data, failed if its parameters do not resolve,
      and otherwise as the plugin answers, with the value it returned. */
  function OwnRecord(a: Action, ctx: Context, rest: Rest): StepRecord
    requires a.Plain?
  {
    if !Available(a.params, ctx, rest.world) then StepRecord(StepSkipped, Null)
    else if Resolve(a.params, ctx, rest.world).Err? then StepRecord(StepFailed, Null)
    else match rest.outcome(a, ctx)
      case Returned(v) => StepRecord(StepOk, v)
      case Raised => StepRecord(StepFailed, Null)
      case Cancelled => StepRecord(StepCancelled, Null)
      case TimedOut => StepRecord(StepTimedOut, Null)
  }

  lemma {:induction false} AllRecords(actions: seq<Action>, st: State, rest: Rest, main: bool)
    ensures RecordedIn(RunAll(actions, st, rest, main).trace) <= ListIds(actions)
    decreases actions
  {
    if actions == [] {
    } else if st.cancelled || rest.cancels(actions[0], st.ctx) {
      assert [Interrupted(main)][1..] == [] && RecordedIn([]) == {};
    } else {
      var first := RunOne(actions[0], st, rest, main);
      OneRecords(actions[0], st, rest, main);
      if first.ok || actions[0].goOn {
        AllRecords(actions[1..], first.state, rest, main);
        RecordedJoin(first.trace, RunAll(actions[1..], first.state, rest, main).trace);
      }
    }
  }

  lemma {:induction false} OneRecords(a: Action, st: State, rest: Rest, main: bool)
    ensures RecordedIn(RunOne(a, st, rest, main).trace) <= Ids(a)
    decreases a, 1
  {
    match a
    case Plain(_, _, _, _) =>
      PlainTrace(a, st, rest, main);
      PairRecords(Consulted(a.params, st.ctx, rest.world), a.id, OwnRecord(a, st.ctx, rest).status, main);
      if FailsInMain(a, st, rest, main) {
        AllRecords(a.onFailure, Failed(a, st), rest, false);
        RecordedJoin(OwnTrace(a, st, rest, main), RunAll(a.onFailure, Failed(a, st), rest, false).trace);
      }
    case Assign(_, _, _, _) =>
      var d := RunAssign(a, st, rest, main);
      PairRecords(Consulted(a.value, st.ctx, rest.world), a.id, d.trace[1].status, main);
      assert d.trace == [LookedUp(Consulted(a.value, st.ctx, rest.world)), Recorded(a.id, d.trace[1].status, main)];
    case If(_, _, _, _, _) => IfRecords(a, st, rest, main);
  }

  /** The branch a condition chooses. */
  function Branch(a: Action, b: bool): seq<Action>
    requires a.If?
  {
    if b then a.yes else a.no
  }

  lemma Enclosed(looked: set<Id>, middle: seq<Event>, id: Id, status: Status, main: bool)
    ensures RecordedIn([LookedUp(looked)] + middle + [Recorded(id, status, main)]) == RecordedIn(middle) + {id}
  {
    RecordedJoin([LookedUp(looked)] + middle, [Recorded(id, status, main)]);
    RecordedJoin([LookedUp(looked)], middle);
    assert [LookedUp(looked)][1..] == [] && [Recorded(id, status, main)][1..] == [] && RecordedIn([]) == {};
  }

  lemma {:induction false} IfRecords(a: Action, st: State, rest: Rest, main: bool)
    requires a.If?
    ensures RecordedIn(RunIf(a, st, rest, main).trace) <= Ids(a)
    decreases a, 0
  {
    var judged := Judge(a.condition, st.ctx, rest);
    if judged.matched.None? {
      PairRecords(judged.looked, a.id, StepFailed, main);
    } else {
      var branch := RunAll(Branch(a, judged.matched.value), st, rest, main);
      AllRecords(Branch(a, judged.matched.value), st, rest, main);
      Enclosed(judged.looked, branch.trace, a.id, if branch.ok then StepOk else StepFailed, main);
    }
  }

  // ----- conditions choose ---------------------------------------------------------

  /** A condition with a value runs the branch of that value and no step of the other, and the step's
      record says which; one without a value fails alone. */
  lemma ConditionChooses(a: Action, st: State, rest: Rest, main: bool)
    requires a.If?
    ensures var d := RunOne(a, st, rest, main);
            && (forall b :: Is(a.condition, b, st.ctx, rest) ==> RunsBranch(d, a, b, st, rest, main))
            && ((forall b :: !Is(a.condition, b, st.ctx, rest)) ==>
                  && RecordedIn(d.trace) == {a.id} && !d.ok
                  && d.state == Record(st, a.id, StepFailed, Null))
  {
    JudgedIsTruth(a.condition, true, st.ctx, rest);
    JudgedIsTruth(a.condition, false, st.ctx, rest);
    var judged := Judge(a.condition, st.ctx, rest);
    if judged.matched.None? {
      PairRecords(judged.looked, a.id, StepFailed, main);
    } else {
      var branch := RunAll(Branch(a, judged.matched.value), st, rest, main);
      AllRecords(Branch(a, judged.matched.value), st, rest, main);
      Enclosed(judged.looked, branch.trace, a.id, if branch.ok then StepOk else StepFailed, main);
      assert RunsBranch(RunOne(a, st, rest, main), a, judged.matched.value, st, rest, main);
    }
  }

  ghost predicate RunsBranch(d: Done, a: Action, b: bool, st: State, rest: Rest, main: bool)
    requires a.If?
  {
    var branch := RunAll(Branch(a, b), st, rest, main);
    && RecordedIn(d.trace) == {a.id} + RecordedIn(branch.trace) <= {a.id} + ListIds(Branch(a, b))
    && d.ok == branch.ok
    && d.state == (if branch.ok then Record(branch.state, a.id, StepOk, BranchResult(b))
                   else Record(branch.state, a.id, StepFailed, Null))
  }

  // ----- actions run in order ------------------------------------------------------

  ghost predicate Says(trace: seq<Event>, id: Id, status: Status, main: bool) { Recorded(id, status, main) in trace }

  /** The action was recorded and lets the list go on. */
  ghost predicate GoesOn(trace: seq<Event>, a: Action, main: bool) {
    exists status :: Says(trace, a.id, status, main) && (Good(status) || a.goOn)
  }

  /** An action's own record says whether it succeeded, and no other event bears its id. */
  ghost predicate OwnEvent(trace: seq<Event>, a: Action, main: bool, ok: bool) {
    exists status :: Says(trace, a.id, status, main) && Good(status) == ok
      && forall e :: e in trace && e.Recorded? && e.step == a.id ==> e == Recorded(a.id, status, main)
  }

  lemma OneOwnEvent(a: Action, st: State, rest: Rest, main: bool)
    requires Distinct(a)
    ensures OwnEvent(RunOne(a, st, rest, main).trace, a, main, RunOne(a, st, rest, main).ok)
  {
    match a
    case Plain(_, _, _, _) =>
      PlainTrace(a, st, rest, main);
      var status := OwnRecord(a, st.ctx, rest).status;
      assert OwnTrace(a, st, rest, main)[1] == Recorded(a.id, status, main);
      if FailsInMain(a, st, rest, main) {
        var repair := RunAll(a.onFailure, Failed(a, st), rest, false);
        AllRecords(a.onFailure, Failed(a, st), rest, false);
        RecordedMeans(repair.trace);
        assert Says(RunOne(a, st, rest, main).trace, a.id, status, main);
      }
    case Assign(_, _, _, _) =>
      var d := RunAssign(a, st, rest, main);
      assert d.trace[1].Recorded? && Says(d.trace, a.id, d.trace[1].status, main);
    case If(_, _, _, _, _) => IfOwnEvent(a, st, rest, main);
  }

  lemma IfOwnEvent(a: Action, st: State, rest: Rest, main: bool)
    requires a.If? && Distinct(a)
    ensures OwnEvent(RunIf(a, st, rest, main).trace, a, main, RunIf(a, st, rest, main).ok)
  {
    var judged := Judge(a.condition, st.ctx, rest);
    var d := RunIf(a, st, rest, main);
    if judged.matched.None? {
      assert d.trace[1] == Recorded(a.id, StepFailed, main) && Says(d.trace, a.id, StepFailed, main);
    } else {
      var branch := RunAll(Branch(a, judged.matched.value), st, rest, main);
      AllRecords(Branch(a, judged.matched.value), st, rest, main);
      RecordedMeans(branch.trace);
      var status := if branch.ok then StepOk else StepFailed;
      assert d.trace[|d.trace| - 1] == Recorded(a.id, status, main) && Says(d.trace, a.id, status, main);
    }
  }

  /** Some cancellation was noticed. */
  ghost predicate WasInterrupted(trace: seq<Event>) { exists e :: e in trace && e.Interrupted? }

  ghost predicate AllBefore(trace: seq<Event>, actions: seq<Action>, j: nat, main: bool)
    requires j <= |actions|
  {
    forall h :: 0 <= h < j ==> GoesOn(trace, actions[h], main)
  }

  /** An action that is recorded comes after actions that all let the list go on; without a cancellation
      each such action is recorded. */
  ghost predicate InOrder(trace: seq<Event>, actions: seq<Action>, main: bool) {
    forall j :: 0 <= j < |actions| ==>
      && (actions[j].id in RecordedIn(trace) ==> AllBefore(trace, actions, j, main))
      && (!WasInterrupted(trace) && AllBefore(trace, actions, j, main) ==> actions[j].id in RecordedIn(trace))
  }

  lemma {:induction false} IdsAmong(actions: seq<Action>, j: nat)
    requires j < |actions|
    ensures actions[j].id in Ids(actions[j]) && Ids(actions[j]) <= ListIds(actions)
  {
    if j > 0 { IdsAmong(actions[1..], j - 1); }
  }

  /** Events of a part about an action whose id the other part does not bear. */
  lemma SaysJoin(a: seq<Event>, b: seq<Event>, x: Action, main: bool)
    ensures x.id !in RecordedIn(b) ==> (GoesOn(a + b, x, main) <==> GoesOn(a, x, main))
    ensures x.id !in RecordedIn(a) ==> (GoesOn(a + b, x, main) <==> GoesOn(b, x, main))
    ensures WasInterrupted(a + b) <==> WasInterrupted(a) || WasInterrupted(b)
  {
    RecordedMeans(a);
    RecordedMeans(b);
    forall status
      ensures Says(a + b, x.id, status, main) <==> Says(a, x.id, status, main) || Says(b, x.id, status, main)
    {
    }
  }

  /** The list stops with its first action. */
  lemma StoppedInOrder(actions: seq<Action>, trace: seq<Event>, main: bool)
    requires actions != [] && ListDistinct(actions) && RecordedIn(trace) <= Ids(actions[0])
    requires actions[0].id in RecordedIn(trace) || WasInterrupted(trace)
    requires !GoesOn(trace, actions[0], main)
    ensures InOrder(trace, actions, main)
  {
    forall j | 0 < j < |actions| ensures actions[j].id !in RecordedIn(trace) {
      IdsAmong(actions[1..], j - 1);
      assert actions[1..][j - 1] == actions[j];
    }
    assert forall j :: 0 < j < |actions| && AllBefore(trace, actions, j, main) ==> GoesOn(trace, actions[0], main);
  }

  lemma JoinedInOrder(actions: seq<Action>, a: seq<Event>, b: seq<Event>, main: bool)
    requires actions != [] && ListDistinct(actions)
    requires RecordedIn(a) <= Ids(actions[0]) && actions[0].id in RecordedIn(a) && GoesOn(a, actions[0], main)
    requires RecordedIn(b) <= ListIds(actions[1..]) && InOrder(b, actions[1..], main)
    ensures InOrder(a + b, actions, main)
  {
    RecordedJoin(a, b);
    IdsAmong(actions, 0);
    SaysJoin(a, b, actions[0], main);
    forall j | 0 < j < |actions|
      ensures actions[j].id !in RecordedIn(a) && actions[j] == actions[1..][j - 1]
      ensures GoesOn(a + b, actions[j], main) <==> GoesOn(b, actions[1..][j - 1], main)
    {
      IdsAmong(actions[1..], j - 1);
      SaysJoin(a, b, actions[j], main);
    }
    forall j | 0 < j < |actions|
      ensures AllBefore(a + b, actions, j, main) <==> AllBefore(b, actions[1..], j - 1, main)
    {
      if AllBefore(b, actions[1..], j - 1, main) {
        forall h | 0 <= h < j ensures GoesOn(a + b, actions[h], main) {
          if h > 0 { assert GoesOn(b, actions[1..][h - 1], main); }
        }
      }
      if AllBefore(a + b, actions, j, main) {
        forall h | 0 <= h < j - 1 ensures GoesOn(b, actions[1..][h], main) {
          assert GoesOn(a + b, actions[h + 1], main);
        }
      }
    }
  }

  lemma OneGoesOn(a: Action, st: State, rest: Rest, main: bool)
    requires Distinct(a)
    ensures var d := RunOne(a, st, rest, main);
            a.id in RecordedIn(d.trace) && (GoesOn(d.trace, a, main) <==> d.ok || a.goOn)
  {
    OneOwnEvent(a, st, rest, main);
    var d := RunOne(a, st, rest, main);
    RecordedMeans(d.trace);
    var status :| Says(d.trace, a.id, status, main) && Good(status) == d.ok
      && forall e :: e in d.trace && e.Recorded? && e.step == a.id ==> e == Recorded(a.id, status, main);
  }

  /** Actions run in order, and nothing after an action that stops the list. */
  lemma {:induction false} RunsInOrder(actions: seq<Action>, st: State, rest: Rest, main: bool)
    requires ListDistinct(actions)
    ensures InOrder(RunAll(actions, st, rest, main).trace, actions, main)
    decreases |actions|
  {
    if actions == [] {
    } else if st.cancelled || rest.cancels(actions[0], st.ctx) {
      var trace := [Interrupted(main)];
      assert trace[1..] == [] && RecordedIn([]) == {} && trace[0] in trace;
      StoppedInOrder(actions, trace, main);
    } else {
      var first := RunOne(actions[0], st, rest, main);
      OneRecords(actions[0], st, rest, main);
      OneGoesOn(actions[0], st, rest, main);
      if first.ok || actions[0].goOn {
        AllRecords(actions[1..], first.state, rest, main);
        RunsInOrder(actions[1..], first.state, rest, main);
        JoinedInOrder(actions, first.trace, RunAll(actions[1..], first.state, rest, main).trace, main);
      } else {
        StoppedInOrder(actions, first.trace, main);
      }
    }
  }

  // ----- failure actions -----------------------------------------------------------

  /** Failure actions are recorded only after their action failed, outside other failure actions; then
      they run as a list of their own, from the state in which the failure is on record. */
  lemma FailureActionsFollow(a: Action, st: State, rest: Rest, main: bool)
    requires a.Plain? && Distinct(a)
    ensures var d := RunOne(a, st, rest, main);
            var failed := main && Says(d.trace, a.id, StepFailed, true);
            var repair := RunAll(a.onFailure, Record(st, a.id, StepFailed, Null), rest, false);
            && (RecordedIn(d.trace) != {a.id} ==> failed)
            && (failed ==> RecordedIn(d.trace) == {a.id} + RecordedIn(repair.trace))
  {
    PlainTrace(a, st, rest, main);
    OneOwnEvent(a, st, rest, main);
    PairRecords(Consulted(a.params, st.ctx, rest.world), a.id, OwnRecord(a, st.ctx, rest).status, main);
    assert OwnTrace(a, st, rest, main)[1] == Recorded(a.id, OwnRecord(a, st.ctx, rest).status, main);
    if FailsInMain(a, st, rest, main) {
      RecordedJoin(OwnTrace(a, st, rest, main), RunAll(a.onFailure, Failed(a, st), rest, false).trace);
    }
  }

  // ----- records -------------------------------------------------------------------

  /** What a run leaves of a step, a variable and the rest of the data that it does not write. */
  ghost predicate Leaves(st: State, d: Done) {
    && (forall x :: x !in RecordedIn(d.trace) ==>
          (x in d.state.ctx.steps <==> x in st.ctx.steps)
          && (x in st.ctx.steps && x in d.state.ctx.steps ==> d.state.ctx.steps[x] == st.ctx.steps[x]))
    && d.state.ctx.event == st.ctx.event && d.state.ctx.triggers == st.ctx.triggers
    && d.state.ctx.constants == st.ctx.constants
  }

  /** Each step that was recorded stands in the record with the status that was reported. */
  ghost predicate Stand(d: Done) {
    forall e :: e in d.trace && e.Recorded? ==>
      e.step in d.state.ctx.steps && d.state.ctx.steps[e.step].status == e.status
  }

  lemma StandJoin(st: State, first: Done, then_: Done)
    requires Leaves(st, first) && Stand(first) && Leaves(first.state, then_) && Stand(then_)
    requires RecordedIn(first.trace) !! RecordedIn(then_.trace)
    ensures Leaves(st, Followed(first, then_)) && Stand(Followed(first, then_))
  {
    var d := Followed(first, then_);
    RecordedJoin(first.trace, then_.trace);
    RecordedMeans(first.trace);
    forall e | e in d.trace && e.Recorded?
      ensures e.step in d.state.ctx.steps && d.state.ctx.steps[e.step].status == e.status
    {
      if e in first.trace { assert e.step in RecordedIn(first.trace); }
    }
  }

  /** A step recorded on its own. */
  lemma OwnStands(st: State, looked: set<Id>, id: Id, r: StepRecord, main: bool, d: Done)
    requires d.trace == [LookedUp(looked), Recorded(id, r.status, main)]
    requires d.state.ctx.steps == st.ctx.steps[id := r]
    requires d.state.ctx.event == st.ctx.event && d.state.ctx.triggers == st.ctx.triggers
    requires d.state.ctx.constants == st.ctx.constants
    ensures Leaves(st, d) && Stand(d)
  {
    PairRecords(looked, id, r.status, main);
  }

  /** After any run of a list the record says of each step what was reported of it, other steps are as
      they were, and event, triggers and constants too. */
  lemma {:induction false} RecordsStand(actions: seq<Action>, st: State, rest: Rest, main: bool)
    requires ListDistinct(actions)
    ensures Leaves(st, RunAll(actions, st, rest, main)) && Stand(RunAll(actions, st, rest, main))
    decreases actions
  {
    if actions == [] {
    } else if st.cancelled || rest.cancels(actions[0], st.ctx) {
      assert [Interrupted(main)][1..] == [] && RecordedIn([]) == {};
    } else {
      var first := RunOne(actions[0], st, rest, main);
      OneStands(actions[0], st, rest, main);
      if first.ok || actions[0].goOn {
        OneRecords(actions[0], st, rest, main);
        AllRecords(actions[1..], first.state, rest, main);
        RecordsStand(actions[1..], first.state, rest, main);
        StandJoin(st, first, RunAll(actions[1..], first.state, rest, main));
      }
    }
  }

  lemma {:induction false} OneStands(a: Action, st: State, rest: Rest, main: bool)
    requires Distinct(a)
    ensures Leaves(st, RunOne(a, st, rest, main)) && Stand(RunOne(a, st, rest, main))
    decreases a, 1
  {
    match a
    case Plain(_, _, _, _) => PlainStands(a, st, rest, main);
    case Assign(_, _, _, _) =>
      AssignRecorded(a, st, rest, main);
      var d := RunAssign(a, st, rest, main);
      OwnStands(st, Consulted(a.value, st.ctx, rest.world), a.id, AssignRecord(a, st.ctx, rest), main, d);
    case If(_, _, _, _, _) => IfStands(a, st, rest, main);
  }

  /** A plain action leaves the record that its plugin's answer gives, also after its failure actions. */
  lemma {:induction false} PlainStands(a: Action, st: State, rest: Rest, main: bool)
    requires a.Plain? && Distinct(a)
    ensures Leaves(st, RunPlain(a, st, rest, main)) && Stand(RunPlain(a, st, rest, main))
    ensures var ctx := RunPlain(a, st, rest, main).state.ctx;
            a.id in ctx.steps && ctx.steps[a.id] == OwnRecord(a, st.ctx, rest)
    decreases a, 0
  {
    PlainTrace(a, st, rest, main);
    var (own, looked) := (OwnRecord(a, st.ctx, rest), Consulted(a.params, st.ctx, rest.world));
    if FailsInMain(a, st, rest, main) {
      var alone := Done(Failed(a, st), false, OwnTrace(a, st, rest, main));
      OwnStands(st, looked, a.id, own, main, alone);
      PairRecords(looked, a.id, own.status, main);
      AllRecords(a.onFailure, Failed(a, st), rest, false);
      RecordsStand(a.onFailure, Failed(a, st), rest, false);
      StandJoin(st, alone, RunAll(a.onFailure, Failed(a, st), rest, false));
    } else {
      OwnStands(st, looked, a.id, own, main, RunPlain(a, st, rest, main));
    }
  }

  /** The value an assignment fits to its variable, if it has its data. */
  function Fitted(a: Action, ctx: Context, rest: Rest): Option<Value>
    requires a.Assign?
  {
    if !Available(a.value, ctx, rest.world) then None
    else match Resolve(a.value, ctx, rest.world)
      case Ok(u) => rest.assign(a.variable, u, ctx)
      case Err(_) => None
  }

  function AssignRecord(a: Action, ctx: Context, rest: Rest): StepRecord
    requires a.Assign?
  {
    var v := Fitted(a, ctx, rest);
    if v.Some? then StepRecord(StepOk, Dict(map["value" := v.value]))
    else StepRecord(if Available(a.value, ctx, rest.world) then StepFailed else StepSkipped, Null)
  }

  /** An assignment writes the value that fits the variable, and records it; without its data it is
      skipped, and otherwise it fails and writes nothing. */
  lemma AssignRecorded(a: Action, st: State, rest: Rest, main: bool)
    requires a.Assign?
    ensures var d := RunOne(a, st, rest, main); var r := AssignRecord(a, st.ctx, rest);
            var v := Fitted(a, st.ctx, rest);
            && d.trace == [LookedUp(Consulted(a.value, st.ctx, rest.world)), Recorded(a.id, r.status, main)]
            && d.ok == Good(r.status)
            && d.state == (if v.Some? then Assigned(a, st, v.value) else Record(st, a.id, r.status, Null))
  {
  }

  function Assigned(a: Action, st: State, v: Value): State
    requires a.Assign?
  {
    var stored := st.(ctx := st.ctx.(variables := st.ctx.variables[a.variable := v]));
    Record(stored, a.id, StepOk, Dict(map["value" := v]))
  }

  lemma {:induction false} IfStands(a: Action, st: State, rest: Rest, main: bool)
    requires a.If? && Distinct(a)
    ensures Leaves(st, RunIf(a, st, rest, main)) && Stand(RunIf(a, st, rest, main))
    decreases a, 0
  {
    var judged := Judge(a.condition, st.ctx, rest);
    if judged.matched.None? {
      OwnStands(st, judged.looked, a.id, StepRecord(StepFailed, Null), main, RunIf(a, st, rest, main));
    } else {
      var chosen := Branch(a, judged.matched.value);
      AllRecords(chosen, st, rest, main);
      RecordsStand(chosen, st, rest, main);
      EnclosedStands(st, judged.looked, RunAll(chosen, st, rest, main), a.id,
        RunIf(a, st, rest, main).state.ctx.steps[a.id], main, RunIf(a, st, rest, main));
    }
  }

  lemma EnclosedStands(st: State, looked: set<Id>, branch: Done, id: Id, r: StepRecord, main: bool, d: Done)
    requires Leaves(st, branch) && Stand(branch) && id !in RecordedIn(branch.trace)
    requires d.trace == [LookedUp(looked)] + branch.trace + [Recorded(id, r.status, main)]
    requires d.state == Record(branch.state, id, r.status, r.result)
    ensures Leaves(st, d) && Stand(d)
  {
    Enclosed(looked, branch.trace, id, r.status, main);
    RecordedMeans(branch.trace);
  }
}
