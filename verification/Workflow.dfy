/** The workflow interpreter: action lists with branches and failure actions, what each run
    records and looks up, and the promise the static check makes about it.
 */
module Workflow {
  import opened Common
  import opened Values
  import opened Bindings
  import opened BindingCheck

  datatype Predicate =
    | Compare(op: string, left: Expr, right: Option<Expr>)
    | Every(children: seq<Predicate>)
    | Either(children: seq<Predicate>)
    | Negation(child: Predicate)
    | Malformed

  /** `goOn` is the `continue` setting of an action's failure. */
  datatype Action =
    | Plain(id: Id, params: Expr, onFailure: seq<Action>, goOn: bool)
    | Assign(id: Id, variable: Id, value: Expr, goOn: bool)
    | If(id: Id, condition: Predicate, yes: seq<Action>, no: seq<Action>, goOn: bool)

  datatype Outcome = Returned(value: Value) | Raised | Cancelled | TimedOut

  /** The rest of the world: what a plugin does, whether a cancellation has arrived when an action
      is about to start, how operands compare, and how a value is fitted to a variable. */
  datatype Rest = Rest(
    world: World,
    outcome: (Action, Context) -> Outcome,
    cancels: (Action, Context) -> bool,
    compare: (string, Value, Option<Value>) -> Option<bool>,
    assign: (Id, Value, Context) -> Option<Value>)

  /** What an observer sees: steps looked up, steps recorded, and a cancellation noticed before an
      action. `main` is false inside failure actions. */
  datatype Event =
    | LookedUp(steps: set<Id>)
    | Recorded(step: Id, status: Status, main: bool)
    | Interrupted(main: bool)

  datatype State = State(ctx: Context, cancelled: bool)

  datatype Done = Done(state: State, ok: bool, trace: seq<Event>)

  function Record(st: State, id: Id, status: Status, result: Value): State {
    st.(ctx := st.ctx.(steps := st.ctx.steps[id := StepRecord(status, result)]))
  }

  // ----- conditions ----------------------------------------------------------------

  datatype Judged = Judged(matched: Option<bool>, looked: set<Id>)

  function Operand(e: Expr, ctx: Context, rest: Rest): Option<Value> {
    if !Available(e, ctx, rest.world) then None
    else match Resolve(e, ctx, rest.world)
      case Ok(v) => Some(v)
      case Err(_) => None
  }

  /** `evaluate_predicate`: the answer, None where it raises, and the steps looked up. */
  function Judge(p: Predicate, ctx: Context, rest: Rest): Judged {
    match p
    case Malformed => Judged(None, {})
    case Compare(op, left, right) =>
      var first := Consulted(left, ctx, rest.world);
      (match Operand(left, ctx, rest)
       case None => Judged(None, first)
       case Some(a) =>
         match right
         case None => Judged(rest.compare(op, a, None), first)
         case Some(e) =>
           var both := first + Consulted(e, ctx, rest.world);
           match Operand(e, ctx, rest)
           case None => Judged(None, both)
           case Some(b) => Judged(rest.compare(op, a, Some(b)), both))
    case Every(children) => JudgeUntil(children, false, ctx, rest)
    case Either(children) => JudgeUntil(children, true, ctx, rest)
    case Negation(child) =>
      var r := Judge(child, ctx, rest);
      Judged(if r.matched.Some? then Some(!r.matched.value) else None, r.looked)
  }

  /** Judges the children up to the first that answers `stop`. */
  function JudgeUntil(ps: seq<Predicate>, stop: bool, ctx: Context, rest: Rest): Judged {
    if ps == [] then Judged(Some(!stop), {})
    else
      var first := Judge(ps[0], ctx, rest);
      if first.matched.None? || first.matched.value == stop then first
      else
        var others := JudgeUntil(ps[1..], stop, ctx, rest);
        Judged(others.matched, first.looked + others.looked)
  }

  predicate CheckedCondition(p: Predicate, available: set<Id>) {
    match p
    case Malformed => true
    case Compare(_, left, right) => Checked(left, available) && (right.Some? ==> Checked(right.value, available))
    case Every(children) => CheckedConditions(children, available)
    case Either(children) => CheckedConditions(children, available)
    case Negation(child) => CheckedCondition(child, available)
  }

  predicate CheckedConditions(ps: seq<Predicate>, available: set<Id>) {
    ps == [] || (CheckedCondition(ps[0], available) && CheckedConditions(ps[1..], available))
  }

  function ConditionSettings(p: Predicate): set<Id> {
    match p
    case Malformed => {}
    case Compare(_, left, right) => SettingsNodes(left) + (if right.Some? then SettingsNodes(right.value) else {})
    case Every(children) => ConditionsSettings(children)
    case Either(children) => ConditionsSettings(children)
    case Negation(child) => ConditionSettings(child)
  }

  function ConditionsSettings(ps: seq<Predicate>): set<Id> {
    if ps == [] then {} else ConditionSettings(ps[0]) + ConditionsSettings(ps[1..])
  }

  // ----- the interpreter, as a function --------------------------------------------

  /** The result of an action whose data is available; nothing is invoked if a parameter fails. */
  function Attempt(a: Action, ctx: Context, rest: Rest): Outcome
    requires a.Plain?
  {
    if Resolve(a.params, ctx, rest.world).Ok? then rest.outcome(a, ctx) else Raised
  }

  function StatusOf(o: Outcome): Status {
    match o
    case Returned(_) => StepOk
    case Raised => StepFailed
    case Cancelled => StepCancelled
    case TimedOut => StepTimedOut
  }

  function ResultOf(o: Outcome): Value { if o.Returned? then o.value else Null }

  function RunPlain(a: Action, st: State, rest: Rest, main: bool): Done
    requires a.Plain?
    decreases a, 0
  {
    var looked := LookedUp(Consulted(a.params, st.ctx, rest.world));
    if !Available(a.params, st.ctx, rest.world) then
      Done(Record(st, a.id, StepSkipped, Null), true, [looked, Recorded(a.id, StepSkipped, main)])
    else
      var o := Attempt(a, st.ctx, rest);
      var after := Record(st, a.id, StatusOf(o), ResultOf(o)).(cancelled := st.cancelled || o.Cancelled?);
      var trace := [looked, Recorded(a.id, StatusOf(o), main)];
      if o.Raised? && main then
        var repair := RunAll(a.onFailure, after, rest, false);
        Done(repair.state, false, trace + repair.trace)
      else Done(after, o.Returned?, trace)
  }

  function RunAssign(a: Action, st: State, rest: Rest, main: bool): Done
    requires a.Assign?
  {
    var looked := LookedUp(Consulted(a.value, st.ctx, rest.world));
    if !Available(a.value, st.ctx, rest.world) then
      Done(Record(st, a.id, StepSkipped, Null), true, [looked, Recorded(a.id, StepSkipped, main)])
    else
      var v := match Resolve(a.value, st.ctx, rest.world)
        case Ok(u) => rest.assign(a.variable, u, st.ctx)
        case Err(_) => None;
      if v.Some? then
        var stored := st.(ctx := st.ctx.(variables := st.ctx.variables[a.variable := v.value]));
        Done(Record(stored, a.id, StepOk, Dict(map["value" := v.value])), true, [looked, Recorded(a.id, StepOk, main)])
      else Done(Record(st, a.id, StepFailed, Null), false, [looked, Recorded(a.id, StepFailed, main)])
  }

  /** What an `if` step that succeeds leaves as its result. */
  function BranchResult(matched: bool): Value {
    Dict(map["matched" := Bool(matched), "branch" := Text(if matched then "then" else "else")])
  }

  function RunIf(a: Action, st: State, rest: Rest, main: bool): Done
    requires a.If?
    decreases a, 0
  {
    var judged := Judge(a.condition, st.ctx, rest);
    if judged.matched.None? then
      Done(Record(st, a.id, StepFailed, Null), false, [LookedUp(judged.looked), Recorded(a.id, StepFailed, main)])
    else
      var branch := RunAll(if judged.matched.value then a.yes else a.no, st, rest, main);
      var status := if branch.ok then StepOk else StepFailed;
      var result := if branch.ok then BranchResult(judged.matched.value) else Null;
      Done(Record(branch.state, a.id, status, result), branch.ok,
           [LookedUp(judged.looked)] + branch.trace + [Recorded(a.id, status, main)])
  }

  function RunOne(a: Action, st: State, rest: Rest, main: bool): Done
    decreases a, 1
  {
    if a.Plain? then RunPlain(a, st, rest, main)
    else if a.Assign? then RunAssign(a, st, rest, main)
    else RunIf(a, st, rest, main)
  }

  function Followed(first: Done, then_: Done): Done {
    Done(then_.state, first.ok && then_.ok, first.trace + then_.trace)
  }

  /** `_execute_action_sequence`. */
  function RunAll(actions: seq<Action>, st: State, rest: Rest, main: bool): Done
    decreases actions
  {
    if actions == [] then Done(st, true, [])
    else if st.cancelled || rest.cancels(actions[0], st.ctx) then
      Done(st.(cancelled := true), false, [Interrupted(main)])
    else
      var first := RunOne(actions[0], st, rest, main);
      if !first.ok && !actions[0].goOn then first
      else Followed(first, RunAll(actions[1..], first.state, rest, main))
  }

  // ----- the static check of an action list ----------------------------------------

  /** The step ids of an action, its branches and its failure actions. */
  function Ids(a: Action): set<Id> {
    match a
    case Plain(id, _, onFailure, _) => {id} + ListIds(onFailure)
    case Assign(id, _, _, _) => {id}
    case If(id, _, yes, no, _) => {id} + ListIds(yes) + ListIds(no)
  }

  function ListIds(actions: seq<Action>): set<Id> {
    if actions == [] then {} else Ids(actions[0]) + ListIds(actions[1..])
  }

  /** No step id is used twice. */
  predicate Distinct(a: Action) {
    match a
    case Plain(id, _, onFailure, _) => id !in ListIds(onFailure) && ListDistinct(onFailure)
    case Assign(_, _, _, _) => true
    case If(id, _, yes, no, _) =>
      id !in ListIds(yes) + ListIds(no) && ListIds(yes) !! ListIds(no) && ListDistinct(yes) && ListDistinct(no)
  }

  predicate ListDistinct(actions: seq<Action>) {
    actions == [] || (Distinct(actions[0]) && Ids(actions[0]) !! ListIds(actions[1..]) && ListDistinct(actions[1..]))
  }

  /** What `sequence` adds to the available steps after an action. */
  function Adds(a: Action): set<Id> { if a.If? then {} else {a.id} }

  /** `check_rule_bindings` has no issue with the references of the action. */
  predicate CheckedAction(a: Action, available: set<Id>) {
    match a
    case Plain(_, params, onFailure, _) => Checked(params, available) && CheckedAll(onFailure, available)
    case Assign(_, _, value, _) => Checked(value, available)
    case If(_, condition, yes, no, _) =>
      CheckedCondition(condition, available) && CheckedAll(yes, available) && CheckedAll(no, available)
  }

  predicate CheckedAll(actions: seq<Action>, available: set<Id>) {
    actions == [] || (CheckedAction(actions[0], available) && CheckedAll(actions[1..], available + Adds(actions[0])))
  }

  /** The steps in conversion settings are available ones too: what the check does not look at. */
  predicate SettledAction(a: Action, available: set<Id>) {
    match a
    case Plain(_, params, onFailure, _) => SettingsNodes(params) <= available && SettledAll(onFailure, available)
    case Assign(_, _, value, _) => SettingsNodes(value) <= available
    case If(_, condition, yes, no, _) =>
      ConditionSettings(condition) <= available && SettledAll(yes, available) && SettledAll(no, available)
  }

  predicate SettledAll(actions: seq<Action>, available: set<Id>) {
    actions == [] || (SettledAction(actions[0], available) && SettledAll(actions[1..], available + Adds(actions[0])))
  }

  // ----- definition before use -----------------------------------------------------

  /** Each lookup is of a step recorded before it, and no step is recorded twice. */
  predicate WellOrdered(trace: seq<Event>, known: set<Id>) {
    trace == [] ||
    match trace[0]
    case LookedUp(steps) => steps <= known && WellOrdered(trace[1..], known)
    case Recorded(step, _, _) => step !in known && WellOrdered(trace[1..], known + {step})
    case Interrupted(_) => WellOrdered(trace[1..], known)
  }

  function RecordedIn(trace: seq<Event>): set<Id> {
    if trace == [] then {}
    else (if trace[0].Recorded? then {trace[0].step} else {}) + RecordedIn(trace[1..])
  }

  lemma {:induction false} WellOrderedJoin(a: seq<Event>, b: seq<Event>, known: set<Id>)
    requires WellOrdered(a, known) && WellOrdered(b, known + RecordedIn(a))
    ensures WellOrdered(a + b, known) && RecordedIn(a + b) == RecordedIn(a) + RecordedIn(b)
  {
    if a == [] {
      assert a + b == b && known + RecordedIn(a) == known;
    } else {
      assert (a + b)[1..] == a[1..] + b;
      var now := if a[0].Recorded? then known + {a[0].step} else known;
      assert now + RecordedIn(a[1..]) == known + RecordedIn(a);
      WellOrderedJoin(a[1..], b, now);
    }
  }

  lemma {:induction false} ConditionLooksUpChecked(p: Predicate, available: set<Id>, ctx: Context, rest: Rest)
    requires CheckedCondition(p, available)
    ensures Judge(p, ctx, rest).looked <= available + ConditionSettings(p)
    decreases p
  {
    match p
    case Malformed =>
    case Compare(_, left, right) =>
      LooksUpChecked(left, available, ctx, rest.world);
      if right.Some? { LooksUpChecked(right.value, available, ctx, rest.world); }
    case Every(children) => ConditionsLookUpChecked(children, false, available, ctx, rest);
    case Either(children) => ConditionsLookUpChecked(children, true, available, ctx, rest);
    case Negation(child) => ConditionLooksUpChecked(child, available, ctx, rest);
  }

  lemma {:induction false} ConditionsLookUpChecked(
      ps: seq<Predicate>, stop: bool, available: set<Id>, ctx: Context, rest: Rest)
    requires CheckedConditions(ps, available)
    ensures JudgeUntil(ps, stop, ctx, rest).looked <= available + ConditionsSettings(ps)
    decreases ps
  {
    if ps != [] {
      ConditionLooksUpChecked(ps[0], available, ctx, rest);
      ConditionsLookUpChecked(ps[1..], stop, available, ctx, rest);
    }
  }

  lemma LooksUpChecked(e: Expr, available: set<Id>, ctx: Context, w: World)
    requires Checked(e, available)
    ensures Consulted(e, ctx, w) <= available + SettingsNodes(e)
  {
    ConsultedIsScanned(e, ctx, w);
    ScannedIsChecked(e, available);
  }

  /** The trace of a run from a state: well ordered, and recording what the state then holds. */
  ghost predicate Faithful(d: Done, st: State) {
    && WellOrdered(d.trace, st.ctx.steps.Keys)
    && d.state.ctx.steps.Keys == st.ctx.steps.Keys + RecordedIn(d.trace)
  }

  lemma FaithfulFollows(first: Done, then_: Done, st: State)
    requires Faithful(first, st) && Faithful(then_, first.state)
    ensures Faithful(Followed(first, then_), st)
    ensures RecordedIn(Followed(first, then_).trace) == RecordedIn(first.trace) + RecordedIn(then_.trace)
  {
    WellOrderedJoin(first.trace, then_.trace, st.ctx.steps.Keys);
  }

  /** One lookup and one record. */
  lemma FaithfulStep(st: State, looked: set<Id>, id: Id, status: Status, main: bool, d: Done)
    requires looked <= st.ctx.steps.Keys && id !in st.ctx.steps
    requires d.trace == [LookedUp(looked), Recorded(id, status, main)]
    requires d.state.ctx.steps.Keys == st.ctx.steps.Keys + {id}
    ensures Faithful(d, st) && RecordedIn(d.trace) == {id}
  {
    var last := [Recorded(id, status, main)];
    assert d.trace[1..] == last && last[1..] == [];
    assert RecordedIn([]) == {} && RecordedIn(last) == {id};
    assert WellOrdered([], st.ctx.steps.Keys + {id}) && WellOrdered(last, st.ctx.steps.Keys);
  }

  ghost predicate Ready(a: Action, available: set<Id>, st: State) {
    && CheckedAction(a, available) && SettledAction(a, available) && Distinct(a)
    && available <= st.ctx.steps.Keys && Ids(a) !! st.ctx.steps.Keys
  }

  ghost predicate AllReady(actions: seq<Action>, available: set<Id>, st: State) {
    && CheckedAll(actions, available) && SettledAll(actions, available) && ListDistinct(actions)
    && available <= st.ctx.steps.Keys && ListIds(actions) !! st.ctx.steps.Keys
  }

  lemma {:induction false} RunAllIsFaithful(actions: seq<Action>, available: set<Id>, st: State, rest: Rest, main: bool)
    requires AllReady(actions, available, st)
    ensures Faithful(RunAll(actions, st, rest, main), st)
    ensures RecordedIn(RunAll(actions, st, rest, main).trace) <= ListIds(actions)
    decreases actions
  {
    if actions == [] {
    } else if st.cancelled || rest.cancels(actions[0], st.ctx) {
      assert [Interrupted(main)][1..] == [];
      assert RecordedIn([]) == {} && WellOrdered([], st.ctx.steps.Keys);
    } else {
      var first := RunOne(actions[0], st, rest, main);
      RunOneIsFaithful(actions[0], available, st, rest, main);
      if first.ok || actions[0].goOn {
        NextIsReady(actions, available, st, first);
        RunAllIsFaithful(actions[1..], available + Adds(actions[0]), first.state, rest, main);
        FaithfulFollows(first, RunAll(actions[1..], first.state, rest, main), st);
      }
    }
  }

  lemma NextIsReady(actions: seq<Action>, available: set<Id>, st: State, first: Done)
    requires actions != [] && AllReady(actions, available, st) && Faithful(first, st)
    requires RecordedIn(first.trace) <= Ids(actions[0]) && actions[0].id in RecordedIn(first.trace)
    ensures AllReady(actions[1..], available + Adds(actions[0]), first.state)
  {
  }

  lemma {:induction false} RunOneIsFaithful(a: Action, available: set<Id>, st: State, rest: Rest, main: bool)
    requires Ready(a, available, st)
    ensures Faithful(RunOne(a, st, rest, main), st)
    ensures RecordedIn(RunOne(a, st, rest, main).trace) <= Ids(a) && a.id in RecordedIn(RunOne(a, st, rest, main).trace)
    decreases a
  {
    match a
    case Plain(_, _, _, _) => RunPlainIsFaithful(a, available, st, rest, main);
    case Assign(_, _, _, _) => RunAssignIsFaithful(a, available, st, rest, main);
    case If(_, _, _, _, _) => RunIfIsFaithful(a, available, st, rest, main);
  }

  lemma {:induction false} RunPlainIsFaithful(a: Action, available: set<Id>, st: State, rest: Rest, main: bool)
    requires a.Plain? && Ready(a, available, st)
    ensures Faithful(RunPlain(a, st, rest, main), st)
    ensures RecordedIn(RunPlain(a, st, rest, main).trace) <= Ids(a)
    ensures a.id in RecordedIn(RunPlain(a, st, rest, main).trace)
    decreases a, 0
  {
    LooksUpChecked(a.params, available, st.ctx, rest.world);
    var looked := Consulted(a.params, st.ctx, rest.world);
    if !Available(a.params, st.ctx, rest.world) {
      FaithfulStep(st, looked, a.id, StepSkipped, main, RunPlain(a, st, rest, main));
    } else {
      var o := Attempt(a, st.ctx, rest);
      var after := Record(st, a.id, StatusOf(o), ResultOf(o)).(cancelled := st.cancelled || o.Cancelled?);
      var alone := Done(after, o.Returned?, [LookedUp(looked), Recorded(a.id, StatusOf(o), main)]);
      FaithfulStep(st, looked, a.id, StatusOf(o), main, alone);
      if o.Raised? && main {
        RunAllIsFaithful(a.onFailure, available, after, rest, false);
        FaithfulFollows(alone, RunAll(a.onFailure, after, rest, false), st);
      }
    }
  }

  lemma RunAssignIsFaithful(a: Action, available: set<Id>, st: State, rest: Rest, main: bool)
    requires a.Assign? && Ready(a, available, st)
    ensures Faithful(RunAssign(a, st, rest, main), st) && RecordedIn(RunAssign(a, st, rest, main).trace) == {a.id}
  {
    LooksUpChecked(a.value, available, st.ctx, rest.world);
    var d := RunAssign(a, st, rest, main);
    FaithfulStep(st, Consulted(a.value, st.ctx, rest.world), a.id, d.trace[1].status, main, d);
  }

  lemma {:induction false} RunIfIsFaithful(a: Action, available: set<Id>, st: State, rest: Rest, main: bool)
    requires a.If? && Ready(a, available, st)
    ensures Faithful(RunIf(a, st, rest, main), st)
    ensures RecordedIn(RunIf(a, st, rest, main).trace) <= Ids(a) && a.id in RecordedIn(RunIf(a, st, rest, main).trace)
    decreases a, 0
  {
    ConditionLooksUpChecked(a.condition, available, st.ctx, rest);
    var judged := Judge(a.condition, st.ctx, rest);
    if judged.matched.None? {
      FaithfulStep(st, judged.looked, a.id, StepFailed, main, RunIf(a, st, rest, main));
    } else {
      var chosen := if judged.matched.value then a.yes else a.no;
      RunAllIsFaithful(chosen, available, st, rest, main);
      BranchIsFaithful(st, judged.looked, RunAll(chosen, st, rest, main), a.id, RunIf(a, st, rest, main), main);
    }
  }

  /** A lookup, the events of a branch, and the record of the branching step. */
  lemma BranchIsFaithful(st: State, looked: set<Id>, branch: Done, id: Id, whole: Done, main: bool)
    requires Faithful(branch, st) && looked <= st.ctx.steps.Keys
    requires id !in st.ctx.steps && id !in RecordedIn(branch.trace)
    requires exists status :: whole.trace == [LookedUp(looked)] + branch.trace + [Recorded(id, status, main)]
    requires whole.state.ctx.steps.Keys == branch.state.ctx.steps.Keys + {id}
    ensures Faithful(whole, st) && RecordedIn(whole.trace) == RecordedIn(branch.trace) + {id}
  {
    var status :| whole.trace == [LookedUp(looked)] + branch.trace + [Recorded(id, status, main)];
    var known := st.ctx.steps.Keys;
    var last := [Recorded(id, status, main)];
    assert last[1..] == [] && RecordedIn([]) == {} && RecordedIn(last) == {id};
    assert WellOrdered([], known + RecordedIn(branch.trace) + {id});
    assert WellOrdered(last, known + RecordedIn(branch.trace));
    WellOrderedJoin(branch.trace, last, known);
    assert whole.trace[1..] == branch.trace + last;
  }

  /** Definition before use: in every run of an action list the check accepts, whatever its
      actions do, every step looked up was recorded before and no step is recorded twice,
      provided the steps in conversion settings are available too. */
  lemma DefinitionBeforeUse(actions: seq<Action>, start: State, rest: Rest)
    requires CheckedAll(actions, {}) && SettledAll(actions, {}) && ListDistinct(actions)
    requires start.ctx.steps == map[]
    ensures WellOrdered(RunAll(actions, start, rest, true).trace, {})
  {
    assert start.ctx.steps.Keys == {};
    RunAllIsFaithful(actions, {}, start, rest, true);
  }

  // ----- straight lists ------------------------------------------------------------

  /** No branch and no failure action, every action goes on after a failure, and the settings of its
      conversions are looked up whatever the data. */
  predicate Straight(a: Action) {
    match a
    case Plain(_, params, onFailure, goOn) => onFailure == [] && goOn && SettingsDirect(params)
    case Assign(_, _, value, goOn) => goOn && SettingsDirect(value)
    case If(_, _, _, _, _) => false
  }

  predicate AllStraight(actions: seq<Action>) {
    actions == [] || (Straight(actions[0]) && AllStraight(actions[1..]))
  }

  /** The expression a straight action scans. */
  function Scanned(a: Action): Expr
    requires !a.If?
  {
    if a.Plain? then a.params else a.value
  }

  /** A straight action looks up what its scan does, then records its step, and goes on. */
  lemma StraightTrace(a: Action, st: State, rest: Rest)
    requires Straight(a)
    ensures var d := RunOne(a, st, rest, true);
            && d.state.ctx.steps.Keys == st.ctx.steps.Keys + {a.id}
            && (d.state.cancelled ==> st.cancelled || (a.Plain? && Attempt(a, st.ctx, rest).Cancelled?))
            && exists status :: d.trace ==
                 [LookedUp(Consulted(Scanned(a), st.ctx, rest.world)), Recorded(a.id, status, true)]
  {
    var looked := LookedUp(Consulted(Scanned(a), st.ctx, rest.world));
    if a.Plain? {
      var d := RunPlain(a, st, rest, true);
      if !Available(a.params, st.ctx, rest.world) {
        assert d.trace == [looked, Recorded(a.id, StepSkipped, true)];
      } else {
        var o := Attempt(a, st.ctx, rest);
        var after := Record(st, a.id, StatusOf(o), ResultOf(o)).(cancelled := st.cancelled || o.Cancelled?);
        var trace := [looked, Recorded(a.id, StatusOf(o), true)];
        assert RunAll([], after, rest, false) == Done(after, true, []) && trace + [] == trace;
        assert d.trace == trace;
      }
    } else {
      var d := RunAssign(a, st, rest, true);
      assert d.trace == [looked, Recorded(a.id, StepSkipped, true)]
        || d.trace == [looked, Recorded(a.id, StepOk, true)] || d.trace == [looked, Recorded(a.id, StepFailed, true)];
    }
  }

  /** A run in which nothing is cancelled and every plugin returns. */
  function Quiet(w: World): Rest {
    Rest(w, (a, ctx) => Returned(Null), (a, ctx) => false, (op, l, r) => None, (id, v, ctx) => None)
  }

  lemma LookThenRecord(looked: set<Id>, id: Id, status: Status, later: seq<Event>, known: set<Id>)
    ensures WellOrdered([LookedUp(looked), Recorded(id, status, true)] + later, known)
      <==> looked <= known && id !in known && WellOrdered(later, known + {id})
  {
    var trace := [LookedUp(looked), Recorded(id, status, true)] + later;
    assert trace[1..] == [Recorded(id, status, true)] + later && trace[1..][1..] == later;
  }

  lemma {:induction false} UnsettledIsSeen(actions: seq<Action>, st: State, w: World)
    requires AllStraight(actions) && !SettledAll(actions, st.ctx.steps.Keys) && !st.cancelled
    ensures !WellOrdered(RunAll(actions, st, Quiet(w), true).trace, st.ctx.steps.Keys)
    decreases |actions|
  {
    var (a, rest, known) := (actions[0], Quiet(w), st.ctx.steps.Keys);
    StraightTrace(a, st, rest);
    var first := RunOne(a, st, rest, true);
    var looked := Consulted(Scanned(a), st.ctx, w);
    var status :| first.trace == [LookedUp(looked), Recorded(a.id, status, true)];
    var later := RunAll(actions[1..], first.state, rest, true).trace;
    assert RunAll(actions, st, rest, true).trace == first.trace + later;
    LookThenRecord(looked, a.id, status, later, known);
    DirectSettingsAreConsulted(Scanned(a), st.ctx, w);
    assert SettledAll([], known) && (SettledAction(a, known) <==> SettingsNodes(Scanned(a)) <= known);
    if SettledAction(a, known) { UnsettledIsSeen(actions[1..], first.state, w); }
  }

  ghost predicate AlwaysWellOrdered(actions: seq<Action>) {
    forall start: State, rest: Rest :: start.ctx.steps == map[] ==>
      WellOrdered(RunAll(actions, start, rest, true).trace, {})
  }

  /** For straight lists exactly: every run of an accepted list is well ordered if and only if the
      steps in conversion settings are available ones. */
  lemma DefinitionBeforeUseIff(actions: seq<Action>, w: World)
    requires CheckedAll(actions, {}) && ListDistinct(actions) && AllStraight(actions)
    ensures AlwaysWellOrdered(actions) <==> SettledAll(actions, {})
  {
    if SettledAll(actions, {}) {
      forall start: State, rest: Rest | start.ctx.steps == map[]
        ensures WellOrdered(RunAll(actions, start, rest, true).trace, {})
      {
        DefinitionBeforeUse(actions, start, rest);
      }
    } else {
      var start := State(Blank({}), false);
      assert start.ctx.steps == map[] && start.ctx.steps.Keys == {};
      UnsettledIsSeen(actions, start, w);
      assert !WellOrdered(RunAll(actions, start, Quiet(w), true).trace, {});
    }
  }

  /** The proviso is needed: the check accepts an action whose conversion options refer to a step
      that never runs, and the run looks that step up. */
  lemma SettingsAreUnchecked(start: State, rest: Rest, id: Id, other: Id)
    requires start.ctx.steps == map[] && !start.cancelled && other != ""
    ensures var e := Convert(Scalar(Null), Ref(StepScope, other, [], Unspecified));
            var actions := [Plain(id, e, [], false)];
            && CheckedAll(actions, {}) && ListDistinct(actions)
            && (!rest.cancels(actions[0], start.ctx) ==> !WellOrdered(RunAll(actions, start, rest, true).trace, {}))
  {
    var e := Convert(Scalar(Null), Ref(StepScope, other, [], Unspecified));
    var a := Plain(id, e, [], false);
    assert [a][1..] == [];
    assert Checked(e, {});
    assert CheckedAll([], {}) && CheckedAll([], {} + Adds(a)) && CheckedAction(a, {});
    assert ListIds([]) == {} && ListDistinct([]) && Distinct(a);
    assert Consulted(e, start.ctx, rest.world) == {other} by {
      assert Consulted(Scalar(Null), start.ctx, rest.world) == {};
      assert Consulted(Ref(StepScope, other, [], Unspecified), start.ctx, rest.world) == {other};
    }
    if !rest.cancels(a, start.ctx) {
      OneActionTrace(a, start, rest);
      assert other in {other};
    }
  }

  lemma OneActionTrace(a: Action, start: State, rest: Rest)
    requires a.Plain? && !start.cancelled && !rest.cancels(a, start.ctx)
    ensures RunAll([a], start, rest, true).trace != []
    ensures RunAll([a], start, rest, true).trace[0] == LookedUp(Consulted(a.params, start.ctx, rest.world))
  {
    assert [a][1..] == [];
    var first := RunOne(a, start, rest, true);
    assert first == RunPlain(a, start, rest, true);
    assert RunAll([], first.state, rest, true).trace == [] by {
      assert RunAll([], first.state, rest, true) == Done(first.state, true, []);
    }
  }

  // ----- success and cancellation --------------------------------------------------

  /** Nothing went wrong outside failure actions. */
  predicate Fine(e: Event) {
    match e
    case LookedUp(_) => true
    case Recorded(_, status, main) => main ==> status == StepOk || status == StepSkipped
    case Interrupted(main) => !main
  }

  ghost predicate AllFine(trace: seq<Event>) { forall e :: e in trace ==> Fine(e) }

  /** A run succeeds exactly when every step recorded outside failure actions is ok or skipped and
      no cancellation was noticed there; failure actions change nothing about it. */
  lemma {:induction false} SuccessMeans(actions: seq<Action>, st: State, rest: Rest, main: bool)
    ensures AllFine(RunAll(actions, st, rest, main).trace) <==> (main ==> RunAll(actions, st, rest, main).ok)
    decreases actions
  {
    if actions == [] {
    } else if st.cancelled || rest.cancels(actions[0], st.ctx) {
      assert Interrupted(main) in RunAll(actions, st, rest, main).trace;
    } else {
      var first := RunOne(actions[0], st, rest, main);
      OneSuccessMeans(actions[0], st, rest, main);
      if first.ok || actions[0].goOn {
        SuccessMeans(actions[1..], first.state, rest, main);
        FineJoin(first.trace, RunAll(actions[1..], first.state, rest, main).trace);
      }
    }
  }

  lemma FineJoin(a: seq<Event>, b: seq<Event>)
    ensures AllFine(a + b) <==> AllFine(a) && AllFine(b)
  {
    assert forall e :: e in a + b <==> e in a || e in b;
  }

  lemma {:induction false} OneSuccessMeans(a: Action, st: State, rest: Rest, main: bool)
    ensures AllFine(RunOne(a, st, rest, main).trace) <==> (main ==> RunOne(a, st, rest, main).ok)
    decreases a
  {
    match a
    case Assign(_, _, _, _) => FineTwo(RunAssign(a, st, rest, main).trace);
    case Plain(_, _, _, _) => PlainSuccessMeans(a, st, rest, main);
    case If(_, _, _, _, _) => IfSuccessMeans(a, st, rest, main);
  }

  lemma {:induction false} PlainSuccessMeans(a: Action, st: State, rest: Rest, main: bool)
    requires a.Plain?
    ensures AllFine(RunPlain(a, st, rest, main).trace) <==> (main ==> RunPlain(a, st, rest, main).ok)
    decreases a, 0
  {
    var d := RunPlain(a, st, rest, main);
    if Available(a.params, st.ctx, rest.world) && Attempt(a, st.ctx, rest).Raised? && main {
      var after := Record(st, a.id, StepFailed, Null);
      var own := [d.trace[0], d.trace[1]];
      SuccessMeans(a.onFailure, after, rest, false);
      FineTwo(own);
      FineJoin(own, RunAll(a.onFailure, after, rest, false).trace);
      assert d.trace == own + RunAll(a.onFailure, after, rest, false).trace;
    } else {
      FineTwo(d.trace);
    }
  }

  lemma {:induction false} IfSuccessMeans(a: Action, st: State, rest: Rest, main: bool)
    requires a.If?
    ensures AllFine(RunIf(a, st, rest, main).trace) <==> (main ==> RunIf(a, st, rest, main).ok)
    decreases a, 0
  {
    var d := RunIf(a, st, rest, main);
    var judged := Judge(a.condition, st.ctx, rest);
    if judged.matched.None? {
      FineTwo(d.trace);
    } else {
      var chosen := if judged.matched.value then a.yes else a.no;
      SuccessMeans(chosen, st, rest, main);
      var branch := RunAll(chosen, st, rest, main);
      FineEnds(LookedUp(judged.looked), branch.trace, d.trace[|d.trace| - 1]);
    }
  }

  lemma FineTwo(trace: seq<Event>)
    requires |trace| == 2
    ensures AllFine(trace) <==> Fine(trace[0]) && Fine(trace[1])
  {
    assert forall e :: e in trace <==> e == trace[0] || e == trace[1];
  }

  lemma FineEnds(first: Event, middle: seq<Event>, last: Event)
    ensures AllFine([first] + middle + [last]) <==> Fine(first) && AllFine(middle) && Fine(last)
  {
    assert forall e :: e in [first] + middle + [last] <==> e == first || e in middle || e == last;
  }

  /** A cancellation was noticed. */
  predicate Stops(e: Event) { e.Interrupted? || (e.Recorded? && e.status == StepCancelled) }

  /** What may still follow: leaving the enclosing sequences and branches. */
  predicate Leaving(e: Event) { e.Interrupted? || (e.Recorded? && e.status == StepFailed) }

  ghost predicate AllLeaving(trace: seq<Event>) { forall e :: e in trace ==> Leaving(e) }

  ghost predicate Halts(trace: seq<Event>) {
    forall i, j :: 0 <= i < j < |trace| && Stops(trace[i]) ==> Leaving(trace[j])
  }

  ghost predicate HaltsAtCancel(d: Done) {
    Halts(d.trace) && ((exists e :: e in d.trace && Stops(e)) ==> d.state.cancelled && !d.ok)
  }

  lemma HaltsFollow(first: Done, then_: Done)
    requires HaltsAtCancel(first) && HaltsAtCancel(then_)
    requires first.state.cancelled ==> AllLeaving(then_.trace) && then_.state.cancelled
    ensures HaltsAtCancel(Followed(first, then_))
  {
    var a, b := first.trace, then_.trace;
    forall i, j | 0 <= i < j < |a + b| && Stops((a + b)[i]) ensures Leaving((a + b)[j]) {
      if j >= |a| {
        assert (a + b)[j] in b;
        if i < |a| { assert a[i] in a; }
      }
    }
    forall e | e in a + b && Stops(e) ensures then_.state.cancelled && !(first.ok && then_.ok) {
      assert e in a || e in b;
    }
  }

  lemma CancelledOnlyLeaves(actions: seq<Action>, st: State, rest: Rest, main: bool)
    requires st.cancelled
    ensures AllLeaving(RunAll(actions, st, rest, main).trace) && RunAll(actions, st, rest, main).state.cancelled
  {
  }

  /** Once a cancellation is noticed no further step is looked up or started: what follows only
      leaves the sequences and branches the run was in. */
  lemma {:induction false} CancellationHalts(actions: seq<Action>, st: State, rest: Rest, main: bool)
    ensures HaltsAtCancel(RunAll(actions, st, rest, main))
    decreases actions
  {
    if actions == [] {
    } else if st.cancelled || rest.cancels(actions[0], st.ctx) {
    } else {
      var first := RunOne(actions[0], st, rest, main);
      OneHalts(actions[0], st, rest, main);
      if first.ok || actions[0].goOn {
        var then_ := RunAll(actions[1..], first.state, rest, main);
        CancellationHalts(actions[1..], first.state, rest, main);
        if first.state.cancelled { CancelledOnlyLeaves(actions[1..], first.state, rest, main); }
        HaltsFollow(first, then_);
      }
    }
  }

  lemma HaltsTwo(d: Done)
    requires |d.trace| == 2 && !Stops(d.trace[0]) && (Stops(d.trace[1]) ==> d.state.cancelled && !d.ok)
    ensures HaltsAtCancel(d)
  {
    assert forall e :: e in d.trace ==> e == d.trace[0] || e == d.trace[1];
  }

  lemma BranchHalts(branch: Done, first: Event, last: Event, d: Done)
    requires HaltsAtCancel(branch) && !Stops(first) && !Stops(last) && (!branch.ok ==> Leaving(last))
    requires d.trace == [first] + branch.trace + [last] && d.ok == branch.ok
    requires d.state.cancelled == branch.state.cancelled
    ensures HaltsAtCancel(d)
  {
    forall i, j | 0 <= i < j < |d.trace| && Stops(d.trace[i]) ensures Leaving(d.trace[j]) {
      assert d.trace[i] == branch.trace[i - 1];
      assert branch.trace[i - 1] in branch.trace;
      if j < |d.trace| - 1 { assert d.trace[j] == branch.trace[j - 1]; }
    }
    assert forall e :: e in d.trace <==> e == first || e in branch.trace || e == last;
  }

  lemma {:induction false} OneHalts(a: Action, st: State, rest: Rest, main: bool)
    requires !st.cancelled
    ensures HaltsAtCancel(RunOne(a, st, rest, main))
    decreases a
  {
    match a
    case Assign(_, _, _, _) => HaltsTwo(RunAssign(a, st, rest, main));
    case Plain(_, _, _, _) => PlainHalts(a, st, rest, main);
    case If(_, _, _, _, _) => IfHalts(a, st, rest, main);
  }

  lemma {:induction false} PlainHalts(a: Action, st: State, rest: Rest, main: bool)
    requires a.Plain? && !st.cancelled
    ensures HaltsAtCancel(RunPlain(a, st, rest, main))
    decreases a, 0
  {
    var d := RunPlain(a, st, rest, main);
    if Available(a.params, st.ctx, rest.world) && Attempt(a, st.ctx, rest).Raised? && main {
      var after := Record(st, a.id, StepFailed, Null);
      var alone := Done(after, false, [d.trace[0], d.trace[1]]);
      HaltsTwo(alone);
      CancellationHalts(a.onFailure, after, rest, false);
      HaltsFollow(alone, RunAll(a.onFailure, after, rest, false));
      assert d.trace == Followed(alone, RunAll(a.onFailure, after, rest, false)).trace;
    } else {
      HaltsTwo(d);
    }
  }

  lemma {:induction false} IfHalts(a: Action, st: State, rest: Rest, main: bool)
    requires a.If? && !st.cancelled
    ensures HaltsAtCancel(RunIf(a, st, rest, main))
    decreases a, 0
  {
    var d := RunIf(a, st, rest, main);
    var judged := Judge(a.condition, st.ctx, rest);
    if judged.matched.None? {
      HaltsTwo(d);
    } else {
      var chosen := if judged.matched.value then a.yes else a.no;
      CancellationHalts(chosen, st, rest, main);
      BranchHalts(RunAll(chosen, st, rest, main), LookedUp(judged.looked), d.trace[|d.trace| - 1], d);
    }
  }
}
