/** What a replayed record says, read off the events: a live run's status is the last one reported, its
    steps stand in order of appearance, each with what its last event reported, and it ends at the time
    of its first final event.
 */
module ReplayLaws {
  import opened Common
  import opened Values
  import opened KeyedFold
  import opened Replay

  /** No event but the last may be final. */
  ghost predicate Live(events: seq<Packet>) {
    forall i :: 0 <= i < |events| - 1 ==> FinalStatus(events[i]).None?
  }

  ghost predicate Unfinished(events: seq<Packet>) { forall i :: 0 <= i < |events| ==> FinalStatus(events[i]).None? }

  lemma {:induction false} NoFirstFinal(events: seq<Packet>)
    requires Unfinished(events)
    ensures FirstFinal(events).None?
  {
    if events != [] { NoFirstFinal(events[1..]); }
  }

  lemma ReplayedNext(run: Run, events: seq<Packet>, p: Packet, reading: Reading)
    ensures Replayed(run, events + [p], reading) == Apply(Replayed(run, events, reading), p, reading)
  {
    FoldJoin(RunRules(reading), run, events, [p]);
    assert [p][1..] == [];
  }

  lemma StillLive(run: Run, events: seq<Packet>, reading: Reading)
    requires !IsTerminal(run.status) && Unfinished(events)
    ensures !IsTerminal(Replayed(run, events, reading).status)
  {
    NoFirstFinal(events);
    FirstFinalDecides(run, events, reading);
  }

  // ----- the status of a live run --------------------------------------------------

  /** The status an event of a live run reports. */
  predicate Reports(p: Packet, status: string) {
    p.data.Some? &&
    ((p.kind == "workflow_deferred" && status == "deferred")
     || (p.kind == "run_queued" && status == "queued")
     || (p.kind in {"action_executed", "action_skipped", "action_cancelled", "action_timed_out", "error"}
         && status == "running"))
  }

  predicate ReportsAny(p: Packet) { Reports(p, "deferred") || Reports(p, "queued") || Reports(p, "running") }

  /** The last event that reports one reports this status; with none it is the status at first. */
  ghost predicate LastReport(before: string, events: seq<Packet>, status: string) {
    (status == before && forall i :: 0 <= i < |events| ==> !ReportsAny(events[i]))
    || exists i: nat :: LastReporting(events, i) && Reports(events[i], status)
  }

  ghost predicate LastReporting(events: seq<Packet>, i: nat) {
    i < |events| && forall j :: i < j < |events| ==> !ReportsAny(events[j])
  }

  lemma LastReportNext(first: string, before: seq<Packet>, p: Packet, was: string, status: string)
    requires LastReport(first, before, was) && (if ReportsAny(p) then Reports(p, status) else status == was)
    ensures LastReport(first, before + [p], status)
  {
    var events := before + [p];
    if ReportsAny(p) {
      assert LastReporting(events, |before|) && events[|before|] == p;
    } else if i: nat :| LastReporting(before, i) && Reports(before[i], was) {
      assert LastReporting(events, i) && events[i] == before[i];
    }
  }

  lemma ApplyReports(run: Run, p: Packet, reading: Reading)
    requires run.status in {"running", "queued", "deferred"} && FinalStatus(p).None?
    ensures !ReportsAny(p) ==> Apply(run, p, reading).status == run.status
    ensures forall status :: Reports(p, status) ==> Apply(run, p, reading).status == status
    ensures Apply(run, p, reading).status in {"running", "queued", "deferred"}
  {
    LiveStatuses();
  }

  lemma StatusNext(first: string, before: seq<Packet>, run: Run, p: Packet, reading: Reading)
    requires run.status in {"running", "queued", "deferred"} && FinalStatus(p).None?
    requires LastReport(first, before, run.status)
    ensures var status := Apply(run, p, reading).status;
            LastReport(first, before + [p], status) && status in {"running", "queued", "deferred"}
  {
    ApplyReports(run, p, reading);
    LastReportNext(first, before, p, run.status, Apply(run, p, reading).status);
  }

  /** A run without a final event has the status that was reported last. */
  lemma {:induction false} LiveStatusIsLast(run: Run, events: seq<Packet>, reading: Reading)
    requires run.status in {"running", "queued", "deferred"} && Unfinished(events)
    ensures var status := Replayed(run, events, reading).status;
            LastReport(run.status, events, status) && status in {"running", "queued", "deferred"}
    decreases |events|
  {
    if events != [] {
      var (before, p) := (events[..|events| - 1], events[|events| - 1]);
      assert events == before + [p];
      LiveStatusIsLast(run, before, reading);
      ReplayedNext(run, before, p, reading);
      StatusNext(run.status, before, Replayed(run, before, reading), p, reading);
    }
  }

  // ----- the times of a run --------------------------------------------------------

  /** The first final event of these. */
  ghost predicate FirstFinalIs(events: seq<Packet>, i: int) {
    0 <= i < |events| && FinalStatus(events[i]).Some? && forall j :: 0 <= j < i ==> FinalStatus(events[j]).None?
  }

  /** A run that no event has ended shows no end, one that has ended the time of the event that did it and
      what that event says of the reason; all show when they started. */
  ghost predicate TimesStand(run: Run, before: Run, events: seq<Packet>) {
    && KeepsStart(before, run) && EndShown(run, events)
    && (Unfinished(events) && Unended(before) ==> Unended(run))
  }

  ghost predicate KeepsStart(run: Run, next: Run) {
    forall ts :: Holds(run.fields, "started_at", ts) ==> Holds(next.fields, "started_at", ts)
  }

  predicate Unended(run: Run) { Holds(run.fields, "finished_at", Null) }

  ghost predicate EndShown(run: Run, events: seq<Packet>) {
    forall i :: FirstFinalIs(events, i) ==> EndsSo(run, events[i])
  }

  predicate EndsSo(run: Run, p: Packet) {
    Holds(run.fields, "finished_at", p.ts) && p.data.Some? && ReasonStands(run, p.kind, p.data.value)
  }

  predicate ReasonStands(run: Run, kind: string, data: map<string, Value>) {
    && (kind in {"run_dropped", "run_replaced"} ==> Holds(run.fields, "drop_reason", Get(data, "reason", Null)))
    && (kind == "workflow_failed" ==> Holds(run.fields, "error", Get(data, "error", Null)))
  }

  /** The times and reasons a record shows are those of the events. */
  lemma {:induction false} TimesAreReplayed(run: Run, events: seq<Packet>, reading: Reading)
    requires !IsTerminal(run.status)
    ensures TimesStand(Replayed(run, events, reading), run, events)
    decreases |events|
  {
    if events == [] {
      assert Replayed(run, events, reading) == run;
    } else {
      var (p, rest) := (events[0], events[1..]);
      var next := Apply(run, p, reading);
      ApplyFinal(run, p, reading);
      assert events == [p] + rest;
      if FinalStatus(p).Some? {
        FinishedIsFrozen(next, rest, reading);
        EndingTimes(run, p, reading);
        assert forall i :: FirstFinalIs(events, i) ==> i == 0;
        assert !Unfinished(events) && Replayed(run, events, reading) == next;
      } else {
        TimesAreReplayed(next, rest, reading);
        LiveStart(run, p, reading);
        if Unended(run) { LiveEnd(run, p, reading); }
        EndBehind(Replayed(next, rest, reading), p, rest);
      }
    }
  }

  lemma NamesDiffer()
    ensures "started_at" != "finished_at" && "started_at" != "duration_ms" && "drop_reason" != "finished_at"
    ensures "drop_reason" != "duration_ms" && "error" !in {"finished_at", "duration_ms", "started_at"}
  {
    assert |"started_at"| == 10 && |"finished_at"| == 11 && |"duration_ms"| == 11 && |"error"| == 5;
    assert "drop_reason"[1] == 'r' && "duration_ms"[1] == 'u' && "finished_at"[1] == 'i';
  }

  lemma EndingTimes(run: Run, p: Packet, reading: Reading)
    requires !IsTerminal(run.status) && FinalStatus(p).Some?
    ensures KeepsStart(run, Apply(run, p, reading)) && EndsSo(Apply(run, p, reading), p)
  {
    NamesDiffer();
    KindsDiffer();
  }

  lemma LiveStart(run: Run, p: Packet, reading: Reading)
    requires !IsTerminal(run.status) && FinalStatus(p).None?
    ensures KeepsStart(run, Apply(run, p, reading))
  {
    NamesDiffer();
  }

  lemma LiveEnd(run: Run, p: Packet, reading: Reading)
    requires !IsTerminal(run.status) && FinalStatus(p).None? && Unended(run)
    ensures Unended(Apply(run, p, reading))
  {
    NamesDiffer();
  }

  lemma EndBehind(run: Run, p: Packet, rest: seq<Packet>)
    requires FinalStatus(p).None? && EndShown(run, rest)
    ensures EndShown(run, [p] + rest) && (Unfinished([p] + rest) ==> Unfinished(rest))
  {
    var events := [p] + rest;
    assert forall i :: 0 <= i < |rest| ==> rest[i] == events[i + 1];
    forall i | FirstFinalIs(events, i) ensures EndsSo(run, events[i]) { assert i > 0 && FirstFinalIs(rest, i - 1); }
  }

  // ----- the steps of a run --------------------------------------------------------

  /** The step an event reports on, if on any. */
  function StepOf(p: Packet, reading: Reading): Option<string> {
    if p.data.Some? && p.kind in STEP_KINDS && StepId(p.data.value, reading) != ""
    then Some(StepId(p.data.value, reading)) else None
  }

  /** What each kind of event reports of its step. */
  predicate StepReport(kind: string, status: string) {
    || (kind == "action_executed" && status == "succeeded") || (kind == "action_skipped" && status == "skipped")
    || (kind == "action_cancelled" && status == "cancelled") || (kind == "action_timed_out" && status == "timed_out")
    || (kind in {"error", "workflow_failed"} && status == "failed")
  }

  predicate Holds(fields: map<string, Value>, key: string, v: Value) { key in fields && fields[key] == v }

  /** The step shows the status, the time and the reason of such an event. */
  predicate Reported(step: StepView, kind: string, data: map<string, Value>, ts: Value) {
    && StepReport(kind, step.status) && Holds(step.fields, "finished_at", ts)
    && (kind == "action_skipped" ==> Holds(step.fields, "reason", Get(data, "reason", Null)))
    && (kind in {"action_timed_out", "error", "workflow_failed"} ==>
          Holds(step.fields, "error", Get(data, "error", Null)))
  }

  /** The last event on this step is what it shows. */
  ghost predicate LastOnStep(events: seq<Packet>, step: StepView, reading: Reading) {
    exists i :: On(events, i, step.id, reading) && events[i].data.Some?
      && Reported(step, events[i].kind, events[i].data.value, events[i].ts)
      && forall j :: i < j ==> !On(events, j, step.id, reading)
  }

  /** The ids of the steps in order of appearance. */
  function Ids(events: seq<Packet>, reading: Reading): seq<string>
    decreases |events|
  {
    if events == [] then []
    else
      var before := Ids(events[..|events| - 1], reading);
      var id := StepOf(events[|events| - 1], reading);
      if id.Some? && id.value !in before then before + [id.value] else before
  }

  ghost predicate On(events: seq<Packet>, j: int, id: string, reading: Reading) {
    0 <= j < |events| && StepOf(events[j], reading) == Some(id)
  }

  ghost predicate OnBefore(events: seq<Packet>, j: int, id: string, reading: Reading) {
    exists i :: i < j && On(events, i, id, reading)
  }

  lemma IdsNext(before: seq<Packet>, p: Packet, reading: Reading)
    ensures var (was, id) := (Ids(before, reading), StepOf(p, reading));
            Ids(before + [p], reading) == if id.Some? && id.value !in was then was + [id.value] else was
  {
    assert (before + [p])[..|before|] == before;
  }

  /** Each step that an event reports on is listed once, and nothing else. */
  lemma {:induction false} IdsAreListed(events: seq<Packet>, reading: Reading)
    ensures var ids := Ids(events, reading);
            && (forall id :: id in ids <==> OnBefore(events, |events|, id, reading))
            && (forall a, b :: 0 <= a < b < |ids| ==> ids[a] != ids[b])
    decreases |events|
  {
    if events != [] {
      var (before, p) := (events[..|events| - 1], events[|events| - 1]);
      assert events == before + [p];
      IdsAreListed(before, reading);
      IdsNext(before, p, reading);
      OnNext(before, p, reading);
    }
  }

  /** A step listed before another was reported on before it. */
  ghost predicate InOrder(ids: seq<string>, events: seq<Packet>, reading: Reading) {
    forall a, b, j :: 0 <= a < b < |ids| && On(events, j, ids[b], reading) ==> OnBefore(events, j, ids[a], reading)
  }

  lemma {:induction false} IdsAreInOrder(events: seq<Packet>, reading: Reading)
    ensures InOrder(Ids(events, reading), events, reading)
    decreases |events|
  {
    if events != [] {
      var (before, p) := (events[..|events| - 1], events[|events| - 1]);
      assert events == before + [p];
      IdsAreInOrder(before, reading);
      OrderNext(before, p, reading);
    }
  }

  lemma OrderNext(before: seq<Packet>, p: Packet, reading: Reading)
    requires InOrder(Ids(before, reading), before, reading)
    ensures InOrder(Ids(before + [p], reading), before + [p], reading)
  {
    var (was, ids, events) := (Ids(before, reading), Ids(before + [p], reading), before + [p]);
    IdsAreListed(before, reading);
    IdsNext(before, p, reading);
    OnNext(before, p, reading);
    forall a, b, j | 0 <= a < b < |ids| && On(events, j, ids[b], reading) ensures OnBefore(events, j, ids[a], reading) {
      assert ids[a] == was[a] && was[a] in was && OnBefore(before, |before|, was[a], reading);
      if j < |before| {
        assert On(before, j, ids[b], reading) && OnBefore(before, |before|, ids[b], reading);
        assert ids[b] in was && ids[b] == was[b];
        assert OnBefore(before, j, was[a], reading);
      }
    }
  }

  lemma OnNext(before: seq<Packet>, p: Packet, reading: Reading)
    ensures var events := before + [p];
            && (forall j, id :: On(events, j, id, reading) <==>
                  On(before, j, id, reading) || (j == |before| && StepOf(p, reading) == Some(id)))
            && (forall j, id :: j <= |before| ==>
                  (OnBefore(events, j, id, reading) <==> OnBefore(before, j, id, reading)))
            && (forall id :: OnBefore(events, |events|, id, reading) <==>
                  OnBefore(before, |before|, id, reading) || StepOf(p, reading) == Some(id))
  {
    var events := before + [p];
    forall j, id ensures On(events, j, id, reading) <==>
      On(before, j, id, reading) || (j == |before| && StepOf(p, reading) == Some(id))
    {
      if 0 <= j < |before| { assert events[j] == before[j]; }
    }
    forall id | StepOf(p, reading) == Some(id) ensures OnBefore(events, |events|, id, reading) {
      assert On(events, |before|, id, reading);
    }
    forall id | OnBefore(before, |before|, id, reading) ensures OnBefore(events, |events|, id, reading) {
      var i :| i < |before| && On(before, i, id, reading);
      assert On(events, i, id, reading);
    }
  }

  /** The step with this id is reported on, at the end if there was none; the others are untouched. */
  ghost predicate Advanced(
      steps: seq<StepView>, r: seq<StepView>, id: string, kind: string, data: map<string, Value>, ts: Value) {
    && |r| == |steps| + (if HasStep(steps, id) then 0 else 1)
    && (forall a :: 0 <= a < |steps| ==> r[a].id == steps[a].id && (steps[a].id != id ==> r[a] == steps[a]))
    && (|r| > |steps| ==> r[|steps|].id == id)
    && (forall a :: 0 <= a < |r| && r[a].id == id ==> Reported(r[a], kind, data, ts))
  }

  ghost predicate HasStep(steps: seq<StepView>, id: string) { exists a :: 0 <= a < |steps| && steps[a].id == id }

  lemma {:induction false} WithStepIs(
      steps: seq<StepView>, id: string, kind: string, data: map<string, Value>, ts: Value)
    requires kind in STEP_KINDS && forall a, b :: 0 <= a < b < |steps| ==> steps[a].id != steps[b].id
    ensures Advanced(steps, WithStep(steps, id, kind, data, ts), id, kind, data, ts)
    decreases |steps|
  {
    if steps == [] {
      UpdatedIs(FreshStep(id, data, ts), kind, data, ts);
    } else if steps[0].id == id {
      UpdatedIs(steps[0], kind, data, ts);
    } else {
      WithStepIs(steps[1..], id, kind, data, ts);
      AdvancedBehind(steps[0], steps[1..], WithStep(steps[1..], id, kind, data, ts), id, kind, data, ts);
      assert steps == [steps[0]] + steps[1..];
    }
  }

  lemma AdvancedBehind(
      first: StepView, steps: seq<StepView>, r: seq<StepView>,
      id: string, kind: string, data: map<string, Value>, ts: Value)
    requires Advanced(steps, r, id, kind, data, ts) && first.id != id
    ensures Advanced([first] + steps, [first] + r, id, kind, data, ts)
  {
    var whole := [first] + steps;
    if a :| 0 <= a < |whole| && whole[a].id == id { assert steps[a - 1].id == id; }
    if a :| 0 <= a < |steps| && steps[a].id == id { assert whole[a + 1].id == id; }
  }

  lemma StatusIs(kind: string)
    requires kind in STEP_KINDS
    ensures StepReport(kind, StepStatus(kind))
  {
  }

  /** The fields that an update always sets are other than those that say why. */
  lemma FieldsDiffer()
    ensures "finished_at" !in {"duration_ms", "attempt", "input_summary", "output_summary"}
    ensures "reason" !in {"finished_at", "duration_ms", "attempt", "input_summary", "output_summary"}
    ensures "error" !in {"finished_at", "duration_ms", "attempt", "input_summary", "output_summary"}
  {
    assert |"finished_at"| == 11 && |"duration_ms"| == 11 && |"attempt"| == 7 && |"reason"| == 6 && |"error"| == 5;
    assert "finished_at"[0] == 'f' && "duration_ms"[0] == 'd';
    assert |"input_summary"| == 13 && |"output_summary"| == 14;
  }

  lemma UpdatedIs(step: StepView, kind: string, data: map<string, Value>, ts: Value)
    requires kind in STEP_KINDS
    ensures var r := UpdatedStep(step, kind, data, ts);
            r.id == step.id && Reported(r, kind, data, ts)
  {
    StatusIs(kind);
    FieldsDiffer();
    NotesSay(kind, data);
  }

  lemma NotesSay(kind: string, data: map<string, Value>)
    requires kind in STEP_KINDS
    ensures kind == "action_skipped" ==> Holds(StepNote(kind, data), "reason", Get(data, "reason", Null))
    ensures kind in {"action_timed_out", "error", "workflow_failed"} ==>
      Holds(StepNote(kind, data), "error", Get(data, "error", Null))
  {
  }

  /** The steps stand in order of appearance, each as its last event reported it. */
  ghost predicate StepsStand(steps: seq<StepView>, events: seq<Packet>, reading: Reading) {
    && |steps| == |Ids(events, reading)|
    && (forall a :: 0 <= a < |steps| ==> steps[a].id == Ids(events, reading)[a])
    && (forall a :: 0 <= a < |steps| ==> LastOnStep(events, steps[a], reading))
  }

  lemma KeptOnStep(before: seq<Packet>, p: Packet, step: StepView, reading: Reading)
    requires LastOnStep(before, step, reading) && StepOf(p, reading) != Some(step.id)
    ensures LastOnStep(before + [p], step, reading)
  {
    OnNext(before, p, reading);
    var i :| On(before, i, step.id, reading) && before[i].data.Some?
      && Reported(step, before[i].kind, before[i].data.value, before[i].ts)
      && forall j :: i < j ==> !On(before, j, step.id, reading);
    assert On(before + [p], i, step.id, reading) && (before + [p])[i] == before[i];
  }

  lemma NewOnStep(before: seq<Packet>, p: Packet, step: StepView, reading: Reading)
    requires StepOf(p, reading) == Some(step.id) && Reported(step, p.kind, p.data.value, p.ts)
    ensures LastOnStep(before + [p], step, reading)
  {
    OnNext(before, p, reading);
    assert On(before + [p], |before|, step.id, reading) && (before + [p])[|before|] == p;
  }

  /** What an event of a live run does to its steps. */
  lemma ApplySteps(run: Run, p: Packet, reading: Reading)
    requires !IsTerminal(run.status)
    ensures Apply(run, p, reading).steps ==
      if StepOf(p, reading).None? then run.steps
      else WithStep(run.steps, StepOf(p, reading).value, p.kind, p.data.value, p.ts)
  {
    assert "rule_triggered" !in STEP_KINDS && "test_assertions_completed" !in STEP_KINDS by { KindsDiffer(); }
  }

  lemma KindsDiffer()
    ensures "rule_triggered" !in STEP_KINDS && "test_assertions_completed" !in STEP_KINDS
  {
    assert |"rule_triggered"| == 14 && |"test_assertions_completed"| == 25;
    assert |"action_executed"| == 15 && |"action_skipped"| == 14 && |"action_cancelled"| == 16;
    assert |"action_timed_out"| == 16 && |"error"| == 5 && |"workflow_failed"| == 15;
    assert "rule_triggered"[0] == 'r' && "action_skipped"[0] == 'a';
  }

  lemma StepsNext(steps: seq<StepView>, before: seq<Packet>, p: Packet, reading: Reading)
    requires StepsStand(steps, before, reading) && StepOf(p, reading).Some?
    ensures StepsStand(WithStep(steps, StepOf(p, reading).value, p.kind, p.data.value, p.ts), before + [p], reading)
  {
    var id := StepOf(p, reading).value;
    StepsDistinct(steps, before, reading);
    WithStepIs(steps, id, p.kind, p.data.value, p.ts);
    AdvancedStands(steps, WithStep(steps, id, p.kind, p.data.value, p.ts), before, p, reading);
  }

  lemma AdvancedStands(steps: seq<StepView>, r: seq<StepView>, before: seq<Packet>, p: Packet, reading: Reading)
    requires StepsStand(steps, before, reading) && StepOf(p, reading).Some?
    requires Advanced(steps, r, StepOf(p, reading).value, p.kind, p.data.value, p.ts)
    ensures StepsStand(r, before + [p], reading)
  {
    var id := StepOf(p, reading).value;
    IdsNext(before, p, reading);
    HasStepIff(steps, before, id, reading);
    AdvancedIds(steps, r, Ids(before, reading), id, p);
    forall a | 0 <= a < |r| ensures LastOnStep(before + [p], r[a], reading) {
      AdvancedLast(steps, r, a, before, p, reading);
    }
  }

  lemma AdvancedIds(steps: seq<StepView>, r: seq<StepView>, was: seq<string>, id: string, p: Packet)
    requires p.data.Some? && Advanced(steps, r, id, p.kind, p.data.value, p.ts)
    requires |steps| == |was| && (forall a :: 0 <= a < |steps| ==> steps[a].id == was[a])
    requires HasStep(steps, id) <==> id in was
    ensures var ids := if id in was then was else was + [id];
            |r| == |ids| && forall a :: 0 <= a < |r| ==> r[a].id == ids[a]
  {
  }

  lemma AdvancedLast(steps: seq<StepView>, r: seq<StepView>, a: nat, before: seq<Packet>, p: Packet, reading: Reading)
    requires StepOf(p, reading).Some? && a < |r|
    requires forall b :: 0 <= b < |steps| ==> LastOnStep(before, steps[b], reading)
    requires Advanced(steps, r, StepOf(p, reading).value, p.kind, p.data.value, p.ts)
    ensures LastOnStep(before + [p], r[a], reading)
  {
    if r[a].id == StepOf(p, reading).value {
      NewOnStep(before, p, r[a], reading);
    } else {
      KeptOnStep(before, p, steps[a], reading);
    }
  }

  lemma HasStepIff(steps: seq<StepView>, events: seq<Packet>, id: string, reading: Reading)
    requires StepsStand(steps, events, reading)
    ensures HasStep(steps, id) <==> id in Ids(events, reading)
  {
    var ids := Ids(events, reading);
    if a :| 0 <= a < |ids| && ids[a] == id { assert steps[a].id == id; }
    if a :| 0 <= a < |steps| && steps[a].id == id { assert ids[a] in ids; }
  }

  lemma StepsDistinct(steps: seq<StepView>, events: seq<Packet>, reading: Reading)
    requires StepsStand(steps, events, reading)
    ensures forall a, b :: 0 <= a < b < |steps| ==> steps[a].id != steps[b].id
  {
    IdsAreListed(events, reading);
    forall a, b | 0 <= a < b < |steps| ensures steps[a].id != steps[b].id {
      assert Ids(events, reading)[a] != Ids(events, reading)[b];
    }
  }

  lemma StepsSkip(steps: seq<StepView>, before: seq<Packet>, p: Packet, reading: Reading)
    requires StepsStand(steps, before, reading) && StepOf(p, reading).None?
    ensures StepsStand(steps, before + [p], reading)
  {
    IdsNext(before, p, reading);
    forall a | 0 <= a < |steps| ensures LastOnStep(before + [p], steps[a], reading) {
      KeptOnStep(before, p, steps[a], reading);
    }
  }

  /** The record's steps are the steps that the events report on, up to the final one, in order of
      appearance, each as its last event reported it. */
  lemma {:induction false} StepsAreReplayed(run: Run, events: seq<Packet>, reading: Reading)
    requires !IsTerminal(run.status) && run.steps == [] && Live(events)
    ensures StepsStand(Replayed(run, events, reading).steps, events, reading)
    decreases |events|
  {
    if events != [] {
      var (before, p) := (events[..|events| - 1], events[|events| - 1]);
      assert events == before + [p] && Unfinished(before);
      StepsAreReplayed(run, before, reading);
      ReplayedNext(run, before, p, reading);
      StillLive(run, before, reading);
      ApplySteps(Replayed(run, before, reading), p, reading);
      if StepOf(p, reading).Some? {
        StepsNext(Replayed(run, before, reading).steps, before, p, reading);
      } else {
        StepsSkip(Replayed(run, before, reading).steps, before, p, reading);
      }
    }
  }
}
