/** Run records rebuilt from run events: one record per run, fixed at its first final event. */
module Replay {
  import opened Common
  import opened Values
  import opened KeyedFold

  /** A stored event. `data` is None when it is not an object. */
  datatype Packet = Packet(kind: string, data: Option<map<string, Value>>, ts: Value)

  datatype StepView = StepView(id: string, status: string, fields: map<string, Value>)

  /** A run record: its status, its steps in order of appearance, and its other fields. */
  datatype Run = Run(status: string, steps: seq<StepView>, fields: map<string, Value>)

  /** How counts are read from stored data, and the duration between two time stamps. */
  datatype Reading = Reading(count: (Value, Value) -> Value, elapsed: (Value, Value) -> Value, text: Value -> string)

  const TERMINAL := {"succeeded", "failed", "cancelled", "dropped", "replaced"}

  const RESUME_SIGNALS :=
    {"action_executed", "action_skipped", "action_cancelled", "action_timed_out", "error", "test_assertions_completed"}

  predicate IsTerminal(status: string) { status in TERMINAL }

  function Get(data: map<string, Value>, key: string, default: Value): Value {
    if key in data then data[key] else default
  }

  /** What counts as true, of the values that stored data holds. */
  predicate Truthy(v: Value) {
    match v
    case Null => false
    case Bool(b) => b
    case Int(i) => i != 0
    case Float(f) => f != 0.0
    case Text(s) => s != ""
    case List(items) => items != []
    case Dict(fields) => fields != map[]
    case _ => true
  }

  /** The run an event belongs to, if to any. */
  function RunId(p: Packet): Option<string> {
    if p.data.Some? && "run_id" in p.data.value && p.data.value["run_id"].Text? && p.data.value["run_id"].s != ""
    then Some(p.data.value["run_id"].s) else None
  }

  /** The status `workflow_completed` reports, if it names a final one. */
  function ReportedStatus(data: map<string, Value>): string {
    if "status" in data && data["status"].Text? && IsTerminal(data["status"].s) then data["status"].s else "succeeded"
  }

  /** `status_after`: the status an event moves a run to. */
  function StatusAfter(kind: string, data: map<string, Value>, current: string): Option<string> {
    if IsTerminal(current) then None
    else if kind == "rule_triggered" then Some("running")
    else if kind == "run_queued" then Some("queued")
    else if kind == "run_dropped" then Some("dropped")
    else if kind == "run_replaced" then Some("replaced")
    else if kind == "workflow_failed" then Some("failed")
    else if kind == "workflow_completed" then Some(ReportedStatus(data))
    else if kind in RESUME_SIGNALS && current == "queued" then Some("running")
    else None
  }

  function NewRun(data: map<string, Value>, ts: Value, reading: Reading): Run {
    var zero := Int(0);
    Run("running", [], map[
      "run_id" := Get(data, "run_id", Text("")),
      "rule_id" := Get(data, "rule_id", Text("")),
      "rule_name" := Get(data, "rule_name", Text("未命名规则")),
      "event_type" := Get(data, "event_type", Text("")),
      "started_at" := ts, "finished_at" := Null, "duration_ms" := Null,
      "action_count" := reading.count(Get(data, "action_count", Null), zero),
      "precondition_count" := reading.count(Get(data, "precondition_count", Null), zero),
      "start_step_id" := Get(data, "start_step_id", Text("")),
      "end_step_id" := Get(data, "end_step_id", Text("")),
      "assertions_passed" := zero,
      "assertions_total" := reading.count(Get(data, "assertion_count", Null), zero),
      "assertion_results" := List([]), "failure_kind" := Text(""), "error" := Null,
      "deferred_reason" := Null, "retry_after_seconds" := Null, "replayable" := Bool(false)])
  }

  // ----- one event -----------------------------------------------------------------

  /** `rule_triggered` fills in the run's description. */
  function Describe(run: Run, data: map<string, Value>, reading: Reading): Run {
    var f := run.fields;
    run.(fields := f + map[
      "rule_id" := Get(data, "rule_id", Get(f, "rule_id", Null)),
      "rule_name" := Get(data, "rule_name", Get(f, "rule_name", Null)),
      "event_type" := Get(data, "event_type", Get(f, "event_type", Null)),
      "action_count" := reading.count(Get(data, "action_count", Null), Get(f, "action_count", Null)),
      "precondition_count" := reading.count(Get(data, "precondition_count", Null), Get(f, "precondition_count", Null)),
      "start_step_id" := Get(data, "start_step_id", Get(f, "start_step_id", Null)),
      "end_step_id" := Get(data, "end_step_id", Get(f, "end_step_id", Null)),
      "assertions_total" := reading.count(Get(data, "assertion_count", Null), Get(f, "assertions_total", Null))])
  }

  function Asserted(run: Run, data: map<string, Value>, reading: Reading): Run {
    run.(fields := run.fields + map[
      "assertions_passed" := reading.count(Get(data, "passed", Null), Int(0)),
      "assertions_total" := reading.count(Get(data, "total", Null), Int(0)),
      "assertion_results" := Get(data, "results", List([]))])
  }

  const STEP_KINDS :=
    {"action_executed", "action_skipped", "action_cancelled", "action_timed_out", "error", "workflow_failed"}

  function StepStatus(kind: string): string {
    if kind == "action_executed" then "succeeded"
    else if kind == "action_skipped" then "skipped"
    else if kind == "action_cancelled" then "cancelled"
    else if kind == "action_timed_out" then "timed_out"
    else "failed"
  }

  function StepNote(kind: string, data: map<string, Value>): map<string, Value> {
    if kind == "action_executed" then map[]
    else if kind == "action_skipped" then map["reason" := Get(data, "reason", Null)]
    else if kind == "action_cancelled" then
      var error := Get(data, "error", Null);
      map["reason" := if Truthy(error) then error else Text("动作已取消")]
    else map["error" := Get(data, "error", Null)]
  }

  function FreshStep(id: string, data: map<string, Value>, ts: Value): StepView {
    StepView(id, "running", map[
      "action_type" := Get(data, "action_type", Text("")), "finished_at" := ts,
      "duration_ms" := Get(data, "duration_ms", Null), "attempt" := Get(data, "attempt", Null),
      "reason" := Null, "error" := Null])
  }

  function UpdatedStep(step: StepView, kind: string, data: map<string, Value>, ts: Value): StepView {
    var summaries := map k | k in {"input_summary", "output_summary"} && k in data :: data[k];
    StepView(step.id, StepStatus(kind), step.fields + StepNote(kind, data) + map[
      "finished_at" := ts,
      "duration_ms" := Get(data, "duration_ms", Get(step.fields, "duration_ms", Null)),
      "attempt" := Get(data, "attempt", Get(step.fields, "attempt", Null))] + summaries)
  }

  /** The first step with the id is updated; without one a step is added at the end. */
  function WithStep(
      steps: seq<StepView>, id: string, kind: string, data: map<string, Value>, ts: Value): seq<StepView> {
    if steps == [] then [UpdatedStep(FreshStep(id, data, ts), kind, data, ts)]
    else if steps[0].id == id then [UpdatedStep(steps[0], kind, data, ts)] + steps[1..]
    else [steps[0]] + WithStep(steps[1..], id, kind, data, ts)
  }

  function StepId(data: map<string, Value>, reading: Reading): string {
    if "step_id" in data then reading.text(data["step_id"]) else ""
  }

  function Stepped(run: Run, p: Packet, data: map<string, Value>, reading: Reading): Run {
    var id := StepId(data, reading);
    if p.kind in STEP_KINDS && id != "" then run.(steps := WithStep(run.steps, id, p.kind, data, p.ts)) else run
  }

  function Ended(run: Run, status: string, ts: Value, note: map<string, Value>, reading: Reading): Run {
    var times := map[
      "finished_at" := ts,
      "duration_ms" := reading.elapsed(Get(run.fields, "started_at", Null), ts)];
    run.(status := status, fields := run.fields + times + note)
  }

  /** The status part of an event. */
  function Moved(run: Run, p: Packet, data: map<string, Value>, reading: Reading): Run {
    var current := if run.status == "deferred" then "queued" else run.status;
    var next := StatusAfter(p.kind, data, current);
    var status := if next.Some? then next.value else run.status;
    if p.kind == "workflow_deferred" then
      run.(status := "deferred", fields := run.fields + map[
        "deferred_reason" := Get(data, "reason", Null),
        "retry_after_seconds" := Get(data, "retry_after_seconds", Null)])
    else if p.kind == "run_queued" then
      run.(status := status, fields := run.fields["queued_reason" := Get(data, "reason", Null)])
    else if p.kind == "run_dropped" || p.kind == "run_replaced" then
      Ended(run, status, p.ts, map["drop_reason" := Get(data, "reason", Null)], reading)
    else if p.kind == "workflow_failed" then
      Ended(run, status, p.ts, map["error" := Get(data, "error", Null)], reading)
    else if p.kind == "workflow_completed" then
      Ended(run, status, p.ts, Completion(run, data, reading), reading)
    else if next == Some("running") then run.(status := "running")
    else run
  }

  function Completion(run: Run, data: map<string, Value>, reading: Reading): map<string, Value> {
    var counts := map[
      "assertions_passed" :=
        reading.count(Get(data, "assertions_passed", Null), Get(run.fields, "assertions_passed", Null)),
      "assertions_total" :=
        reading.count(Get(data, "assertions_total", Null), Get(run.fields, "assertions_total", Null)),
      "failure_kind" := Get(data, "failure_kind", Text(""))];
    if "duration_ms" in data then counts["duration_ms" := data["duration_ms"]] else counts
  }

  /** `_apply_event`. */
  function Apply(run: Run, p: Packet, reading: Reading): Run {
    if p.data.None? || IsTerminal(run.status) then run
    else
      var data := p.data.value;
      if p.kind == "rule_triggered" then Describe(run, data, reading)
      else if p.kind == "test_assertions_completed" then Asserted(run, data, reading)
      else Moved(Stepped(run, p, data, reading), p, data, reading)
  }

  function Start(p: Packet, reading: Reading): Run {
    NewRun(if p.data.Some? then p.data.value else map[], p.ts, reading)
  }

  function RunRules(reading: Reading): Rules<Packet, Run> {
    Rules(RunId, p => Start(p, reading), (run, p) => Apply(run, p, reading))
  }

  function Replayed(run: Run, events: seq<Packet>, reading: Reading): Run { Fold(RunRules(reading), run, events) }

  /** The record of one run from all its events. */
  function RunRecord(events: seq<Packet>, reading: Reading): Run
    requires events != []
  {
    RecordOf(RunRules(reading), events)
  }

  // ----- a run is fixed at its first final event -----------------------------------

  /** The final status an event reports, if it is a final event. */
  function FinalStatus(p: Packet): Option<string> {
    if p.data.None? then None
    else if p.kind == "run_dropped" then Some("dropped")
    else if p.kind == "run_replaced" then Some("replaced")
    else if p.kind == "workflow_failed" then Some("failed")
    else if p.kind == "workflow_completed" then Some(ReportedStatus(p.data.value))
    else None
  }

  /** The status reported by the first final event. */
  function FirstFinal(events: seq<Packet>): Option<string> {
    if events == [] then None
    else if FinalStatus(events[0]).Some? then FinalStatus(events[0])
    else FirstFinal(events[1..])
  }

  lemma LiveStatuses()
    ensures !IsTerminal("running") && !IsTerminal("queued") && !IsTerminal("deferred")
  {
    assert |"running"| == 7 && |"queued"| == 6 && |"deferred"| == 8;
    assert |"succeeded"| == 9 && |"failed"| == 6 && |"cancelled"| == 9 && |"dropped"| == 7 && |"replaced"| == 8;
    assert "running"[0] == 'r' && "dropped"[0] == 'd' && "queued"[0] == 'q' && "failed"[0] == 'f';
    assert "deferred"[0] == 'd' && "replaced"[0] == 'r';
  }

  lemma {:induction false} FinishedIsFrozen(run: Run, events: seq<Packet>, reading: Reading)
    requires IsTerminal(run.status)
    ensures Replayed(run, events, reading) == run
  {
    if events != [] { FinishedIsFrozen(run, events[1..], reading); }
  }

  /** One event makes a live run final exactly when it is a final event, with its status. */
  lemma ApplyFinal(run: Run, p: Packet, reading: Reading)
    requires !IsTerminal(run.status)
    ensures IsTerminal(Apply(run, p, reading).status) <==> FinalStatus(p).Some?
    ensures FinalStatus(p).Some? ==> Apply(run, p, reading).status == FinalStatus(p).value
  {
    LiveStatuses();
  }

  /** A queued run is resumed by each of the resume signals but one: replay handles finished test
      assertions before it asks for the new status, although that would be `running`. */
  lemma AssertionsDoNotResume(run: Run, p: Packet, reading: Reading)
    requires run.status == "queued" && p.data.Some? && p.kind in RESUME_SIGNALS
    ensures StatusAfter(p.kind, p.data.value, run.status) == Some("running")
    ensures Apply(run, p, reading).status == (if p.kind == "test_assertions_completed" then "queued" else "running")
  {
    LiveStatuses();
  }

  /** The outcome of a replay is the first final event's, whatever comes before or after it; a run
      without one stays live. */
  lemma {:induction false} FirstFinalDecides(run: Run, events: seq<Packet>, reading: Reading)
    requires !IsTerminal(run.status)
    ensures IsTerminal(Replayed(run, events, reading).status) <==> FirstFinal(events).Some?
    ensures FirstFinal(events).Some? ==> Replayed(run, events, reading).status == FirstFinal(events).value
    decreases |events|
  {
    if events != [] {
      var next := Apply(run, events[0], reading);
      ApplyFinal(run, events[0], reading);
      assert Replayed(run, events, reading) == Replayed(next, events[1..], reading);
      if FinalStatus(events[0]).Some? {
        FinishedIsFrozen(next, events[1..], reading);
      } else {
        FirstFinalDecides(next, events[1..], reading);
      }
    }
  }

  /** Later events change nothing in the record of a finished run. */
  lemma FinishedIsFixed(events: seq<Packet>, later: seq<Packet>, reading: Reading)
    requires events != [] && FirstFinal(events).Some?
    ensures RunRecord(events + later, reading) == RunRecord(events, reading)
  {
    var first := Start(events[0], reading);
    LiveStatuses();
    FirstFinalDecides(first, events, reading);
    FoldJoin(RunRules(reading), first, events, later);
    FinishedIsFrozen(Replayed(first, events, reading), later, reading);
    assert (events + later)[0] == events[0];
  }

  // ----- all runs ------------------------------------------------------------------

  /** `build_runs`: one pass over all events gives each run the record its own events give it,
      the run that appeared last first. */
  method BuildRuns(events: seq<Packet>, reading: Reading) returns (result: seq<Run>)
    ensures AreRecords(RunRules(reading), events, result)
  {
    ghost var rules := RunRules(reading);
    var runs: map<string, Run> := map[];
    var order: seq<string> := [];
    var i := 0;
    while i < |events|
      invariant 0 <= i <= |events| && Built(rules, events[..i], runs, order)
    {
      var p := events[i];
      assert events[..i + 1] == events[..i] + [p];
      var id := RunId(p);
      if id.Some? {
        BuiltNext(rules, events[..i], p, runs, order, id.value);
        var run := if id.value in runs then runs[id.value] else Start(p, reading);
        if id.value !in runs { order := order + [id.value]; }
        runs := runs[id.value := Apply(run, p, reading)];
      } else {
        BuiltSkip(rules, events[..i], p, runs, order);
      }
      i := i + 1;
    }
    assert events[..i] == events;
    BuiltRecords(rules, events, runs, order);
    var ids := Reversed(order);
    result := seq(|ids|, k requires 0 <= k < |ids| => runs[ids[k]]);
  }

  /** `get_run`: replaying a run's events alone gives the entry that the replay of all events has
      for it, and nothing exactly when that replay has no such run. */
  method GetRun(events: seq<Packet>, id: string, reading: Reading) returns (result: Option<Run>)
    ensures result.Some? <==> id in Appearing(RunRules(reading), events)
    ensures result.Some? ==> IsRecord(RunRules(reading), events, id, result.value)
  {
    ghost var rules := RunRules(reading);
    var own := [];
    var i := 0;
    while i < |events|
      invariant 0 <= i <= |events| && own == EventsOf(rules, events[..i], id)
    {
      assert events[..i + 1] == events[..i] + [events[i]];
      EventsOfNext(rules, events[..i], events[i], id);
      if RunId(events[i]) == Some(id) { own := own + [events[i]]; }
      i := i + 1;
    }
    assert events[..i] == events;
    AppearsIff(rules, events, id);
    var runs := BuildRuns(own, reading);
    OnlyEntry(events, id, reading, runs);
    result := if runs == [] then None else Some(runs[0]);
  }

  lemma OnlyEntry(events: seq<Packet>, id: string, reading: Reading, result: seq<Run>)
    requires AreRecords(RunRules(reading), EventsOf(RunRules(reading), events, id), result)
    ensures result != [] <==> EventsOf(RunRules(reading), events, id) != []
    ensures result != [] ==> IsRecord(RunRules(reading), events, id, result[0])
  {
    var rules := RunRules(reading);
    var own := EventsOf(rules, events, id);
    EventsOfHaveKey(rules, events, id);
    EventsOfOwn(rules, own, id);
    AppearingOwn(rules, own, id);
    assert Reversed<string>([]) == [] && [id][1..] == [] && Reversed([id]) == [id];
    if own != [] { assert IsRecord(rules, own, Reversed([id])[0], result[0]); }
  }

  /** `list_runs`: the newest runs, at least one and at most a thousand. */
  method ListRuns(events: seq<Packet>, limit: int, reading: Reading) returns (result: seq<Run>)
    ensures exists all :: AreRecords(RunRules(reading), events, all) && IsFront(result, all, limit)
  {
    var all := BuildRuns(events, reading);
    result := Newest(all, limit);
    assert IsFront(result, all, limit);
  }

  /** The front of the list: all that was asked for, unless the list or the thousand ends before. */
  ghost predicate IsFront(result: seq<Run>, all: seq<Run>, limit: int) {
    && result <= all && |result| <= 1000
    && (limit >= 1 ==> |result| <= limit) && (limit < 1 ==> |result| <= 1)
    && (|result| == |all| || |result| == 1000 || |result| == limit || (limit < 1 && |result| == 1))
  }

  function Newest(all: seq<Run>, limit: int): seq<Run> { if |all| <= Clamp(limit) then all else all[..Clamp(limit)] }

  function Clamp(limit: int): nat { if limit < 1 then 1 else if limit > 1000 then 1000 else limit }
}
