/** One executed run: whatever its preparation, actions and cancellation do, it reports exactly one
    final event, and its record ends with that event's status.
 */
module RunOutcome {
  import opened Common
  import opened Values
  import opened Replay

  datatype Preparation = Prepared | Refused | PreparationRaised

  /** What happens in a run: the steps that are not the executor's own decisions. `actions` are the
      events the actions report, up to the exception if they raise one; the three cancellation
      flags are what the three checks see. */
  datatype Happening = Happening(
    preparation: Preparation,
    cancelledBefore: bool,
    actions: seq<Packet>, actionsRaised: bool, succeeded: bool,
    cancelledAfter: bool,
    assertions: Option<(nat, nat)>, assertionsRaised: bool,
    cancelledLast: bool)

  function AssertionsPassed(h: Happening): bool { h.assertions.None? || h.assertions.value.0 == h.assertions.value.1 }

  /** The status a run should end with. */
  function Expected(h: Happening): string {
    if h.preparation != Prepared then "failed"
    else if h.cancelledBefore then "cancelled"
    else if h.actionsRaised then "failed"
    else if h.cancelledAfter then "cancelled"
    else if h.assertionsRaised then "failed"
    else if h.cancelledLast then "cancelled"
    else if h.succeeded && AssertionsPassed(h) then "succeeded"
    else "failed"
  }

  /** The three moments a run looks for its cancellation, and what must not have gone wrong before. */
  predicate CancelSeen(h: Happening, check: nat) {
    || (check == 1 && h.cancelledBefore)
    || (check == 2 && h.cancelledAfter && !h.actionsRaised)
    || (check == 3 && h.cancelledLast && !h.actionsRaised && !h.assertionsRaised)
  }

  predicate AnyExceptionIn(h: Happening) {
    h.preparation == PreparationRaised || h.actionsRaised || h.assertionsRaised
  }

  /** A run succeeds exactly when it was prepared, nothing raised, no check saw a cancellation, its actions
      succeeded and as many assertions passed as there are; it is cancelled exactly when a check that it
      reached saw the cancellation; otherwise it fails. */
  lemma ExpectedIff(h: Happening)
    ensures Expected(h) in {"succeeded", "cancelled", "failed"}
    ensures Expected(h) == "succeeded" <==>
      && h.preparation == Prepared && !AnyExceptionIn(h)
      && !h.cancelledBefore && !h.cancelledAfter && !h.cancelledLast
      && h.succeeded && forall passed, total :: h.assertions == Some((passed, total)) ==> passed == total
    ensures Expected(h) == "cancelled" <==> h.preparation == Prepared && exists check :: CancelSeen(h, check)
  {
    assert |"failed"| == 6 && "succeeded"[0] == 's' && "cancelled"[0] == 'c';
    assert h.cancelledBefore ==> CancelSeen(h, 1);
    assert h.cancelledAfter && !h.actionsRaised ==> CancelSeen(h, 2);
    assert h.cancelledLast && !h.actionsRaised && !h.assertionsRaised ==> CancelSeen(h, 3);
  }

  ghost predicate NoFinal(events: seq<Packet>) { forall i :: 0 <= i < |events| ==> FinalStatus(events[i]).None? }

  /** One final event, the last one, reporting the status. */
  ghost predicate EndsOnce(events: seq<Packet>, status: string) {
    && events != []
    && NoFinal(events[..|events| - 1])
    && FinalStatus(events[|events| - 1]) == Some(status)
  }

  lemma {:induction false} FinalAfterNone(a: seq<Packet>, p: Packet)
    requires NoFinal(a) && FinalStatus(p).Some?
    ensures FirstFinal(a + [p]) == FinalStatus(p)
  {
    if a == [] {
      assert a + [p] == [p];
    } else {
      assert (a + [p])[1..] == a[1..] + [p];
      FinalAfterNone(a[1..], p);
    }
  }

  /** The record of a run that ended once has that status, and events arriving late leave it. */
  lemma EndedRunIsRecorded(
      before: seq<Packet>, events: seq<Packet>, late: seq<Packet>, status: string, reading: Replay.Reading)
    requires NoFinal(before) && EndsOnce(events, status)
    ensures RunRecord(before + events, reading).status == status
    ensures RunRecord(before + events + late, reading) == RunRecord(before + events, reading)
  {
    var all := before + events;
    var (init, last) := (all[..|all| - 1], all[|all| - 1]);
    assert all == init + [last] && last == events[|events| - 1];
    forall i | 0 <= i < |init| ensures FinalStatus(init[i]).None? {
      if i >= |before| { assert init[i] == events[..|events| - 1][i - |before|]; } else { assert init[i] == before[i]; }
    }
    FinalAfterNone(init, last);
    LiveStatuses();
    FirstFinalDecides(Start(all[0], reading), all, reading);
    FinishedIsFixed(all, late, reading);
  }

  /** `all` interleaves `a` and `b`. */
  ghost predicate Interleaves(a: seq<Packet>, b: seq<Packet>, all: seq<Packet>)
    decreases |all|
  {
    if all == [] then a == [] && b == []
    else
      || (a != [] && all[0] == a[0] && Interleaves(a[1..], b, all[1..]))
      || (b != [] && all[0] == b[0] && Interleaves(a, b[1..], all[1..]))
  }

  lemma {:induction false} FirstFinalOfOthers(own: seq<Packet>, others: seq<Packet>, all: seq<Packet>)
    requires NoFinal(own) && Interleaves(own, others, all)
    ensures FirstFinal(all) == FirstFinal(others)
    decreases |all|
  {
    if all != [] {
      if own != [] && all[0] == own[0] && Interleaves(own[1..], others, all[1..]) {
        FirstFinalOfOthers(own[1..], others, all[1..]);
      } else {
        if FinalStatus(all[0]).None? { FirstFinalOfOthers(own, others[1..], all[1..]); }
      }
    }
  }

  lemma {:induction false} FirstFinalJoin(a: seq<Packet>, b: seq<Packet>)
    ensures FirstFinal(a + b) == if FirstFinal(a).Some? then FirstFinal(a) else FirstFinal(b)
  {
    if a == [] {
      assert a + b == b;
    } else {
      assert (a + b)[1..] == a[1..] + b;
      FirstFinalJoin(a[1..], b);
    }
  }

  ghost predicate Mixed(events: seq<Packet>, early: seq<Packet>, body: seq<Packet>)
    requires events != []
  {
    Interleaves(events[..|events| - 1], early, body)
  }

  /** What the log holds of a run that sent `events`: others' events about it, a submission that
      replaces it for one, come between its own (`early`) and after them. */
  ghost predicate LogOf(events: seq<Packet>, early: seq<Packet>, late: seq<Packet>, log: seq<Packet>)
    requires events != []
  {
    exists body :: Mixed(events, early, body) && log == body + [events[|events| - 1]] + late
  }

  /** The record of a run that ended once has its status unless another final event came first; then
      it has that event's. */
  lemma InterruptedRunIsRecorded(
      events: seq<Packet>, early: seq<Packet>, late: seq<Packet>, log: seq<Packet>,
      status: string, reading: Replay.Reading)
    requires EndsOnce(events, status) && LogOf(events, early, late, log)
    ensures RunRecord(log, reading).status == if FirstFinal(early).Some? then FirstFinal(early).value else status
  {
    var (own, last) := (events[..|events| - 1], events[|events| - 1]);
    var body :| Mixed(events, early, body) && log == body + [last] + late;
    FirstFinalOfOthers(own, early, body);
    FirstFinalJoin(body, [last]);
    FirstFinalJoin(body + [last], late);
    LiveStatuses();
    FirstFinalDecides(Start(log[0], reading), log, reading);
  }

  function Report(kind: string, id: string, status: string): Packet {
    Packet(kind, Some(map["run_id" := Text(id), "status" := Text(status)]), Null)
  }

  function TestReport(id: string): Packet {
    Packet("test_assertions_completed", Some(map["run_id" := Text(id)]), Null)
  }

  lemma ReportsAreFinal(id: string, status: string)
    ensures FinalStatus(Report("workflow_failed", id, status)) == Some("failed")
    ensures IsTerminal(status) ==> FinalStatus(Report("workflow_completed", id, status)) == Some(status)
    ensures FinalStatus(TestReport(id)) == None
  {
    assert "status"[0] == 's' && "run_id"[0] == 'r';
    assert |"workflow_failed"| == 15 && |"workflow_completed"| == 18 && |"test_assertions_completed"| == 25;
    assert |"run_dropped"| == 11 && |"run_replaced"| == 12;
  }

  /** A run that now reports its end has reported it once, last. */
  lemma ReportLast(before: seq<Packet>, sent: seq<Packet>, id: string, status: string)
    requires before <= sent && NoFinal(sent[|before|..]) && IsTerminal(status)
    ensures var after := sent + [Report("workflow_completed", id, status)];
            before <= after && EndsOnce(after[|before|..], status)
  {
    var p := Report("workflow_completed", id, status);
    ReportsAreFinal(id, status);
    var (own, events) := (sent[|before|..], (sent + [p])[|before|..]);
    assert events == own + [p] && events[..|events| - 1] == own;
  }

  lemma TestReported(before: seq<Packet>, sent: seq<Packet>, id: string)
    requires before <= sent && NoFinal(sent[|before|..])
    ensures var after := sent + [TestReport(id)];
            before <= after && NoFinal(after[|before|..])
  {
    ReportsAreFinal(id, "failed");
    assert (sent + [TestReport(id)])[|before|..] == sent[|before|..] + [TestReport(id)];
  }

  /** The executor's side of one run: the finished flag, the registered cancellation handle, and
      the events sent so far. */
  class RunExecution {
    const id: string
    var finished: bool
    var registered: bool
    var sent: seq<Packet>

    constructor (id: string)
      ensures this.id == id && !finished && !registered && sent == []
    {
      this.id := id;
      finished := false;
      registered := false;
      sent := [];
    }

    /** `_finish_run`: true for the first caller only. */
    method FinishRun() returns (first: bool)
      modifies this
      ensures first == !old(finished) && finished && sent == old(sent)
      ensures registered == (old(registered) && old(finished))
    {
      if finished { return false; }
      finished := true;
      registered := false;
      first := true;
    }

    method CompleteCancelled()
      modifies this
      ensures finished && (!old(finished) ==> !registered)
      ensures sent == if old(finished) then old(sent) else old(sent) + [Report("workflow_completed", id, "cancelled")]
    {
      var first := FinishRun();
      if first { sent := sent + [Report("workflow_completed", id, "cancelled")]; }
    }

    /** The body of `execute_workflow`'s `try`: one final event, or an exception. */
    method Work(h: Happening) returns (raised: bool)
      requires NoFinal(h.actions)
      modifies this
      ensures old(finished) ==> !raised && sent == old(sent) && finished && registered == old(registered)
      ensures old(sent) <= sent
      ensures !old(finished) && raised ==> !finished && NoFinal(sent[|old(sent)|..]) && Expected(h) == "failed"
      ensures !old(finished) && !raised ==> finished && !registered && EndsOnce(sent[|old(sent)|..], Expected(h))
    {
      raised := false;
      if finished { return; }
      ReportsAreFinal(id, "cancelled");
      ReportsAreFinal(id, "succeeded");
      ReportsAreFinal(id, "failed");
      if h.preparation == PreparationRaised { return true; }
      if h.preparation == Refused {
        var _ := FinishRun();
        sent := sent + [Report("workflow_failed", id, "failed")];
        return;
      }
      registered := true;
      if h.cancelledBefore {
        CompleteCancelled();
        return;
      }
      sent := sent + h.actions;
      assert sent[|old(sent)|..] == h.actions;
      if h.actionsRaised { return true; }
      raised := Conclude(h, old(sent));
    }

    /** The part after the actions. */
    method Conclude(h: Happening, ghost before: seq<Packet>) returns (raised: bool)
      requires !finished && before <= sent && NoFinal(sent[|before|..])
      requires h.preparation == Prepared && !h.cancelledBefore && !h.actionsRaised
      modifies this
      ensures before <= sent
      ensures raised ==> !finished && NoFinal(sent[|before|..]) && Expected(h) == "failed"
      ensures !raised ==> finished && !registered && EndsOnce(sent[|before|..], Expected(h))
    {
      raised := false;
      if h.cancelledAfter {
        ReportLast(before, sent, id, "cancelled");
        CompleteCancelled();
        return;
      }
      if h.assertionsRaised { return true; }
      if h.assertions.Some? {
        TestReported(before, sent, id);
        sent := sent + [TestReport(id)];
      }
      if h.cancelledLast {
        ReportLast(before, sent, id, "cancelled");
        CompleteCancelled();
        return;
      }
      var _ := FinishRun();
      var status := if h.succeeded && AssertionsPassed(h) then "succeeded" else "failed";
      ReportLast(before, sent, id, status);
      sent := sent + [Report("workflow_completed", id, status)];
    }

    /** `execute_workflow`: whatever happens, the run is finished and unregistered afterwards. */
    method ExecuteWorkflow(h: Happening) returns (raised: bool)
      requires NoFinal(h.actions)
      modifies this
      ensures finished && old(sent) <= sent
      ensures old(finished) ==> !raised && sent == old(sent)
      ensures !old(finished) ==> !registered
      ensures !old(finished) && raised ==> NoFinal(sent[|old(sent)|..]) && Expected(h) == "failed"
      ensures !old(finished) && !raised ==> EndsOnce(sent[|old(sent)|..], Expected(h))
    {
      raised := Work(h);
      var _ := FinishRun();
    }

    /** The scheduler's `_run_entry`: a run that had not finished reports exactly one final event,
        the last it sends; one that had sends nothing. */
    method RunEntry(h: Happening)
      requires NoFinal(h.actions)
      modifies this
      ensures finished && old(sent) <= sent
      ensures if old(finished) then sent == old(sent) else !registered && EndsOnce(sent[|old(sent)|..], Expected(h))
    {
      var raised := ExecuteWorkflow(h);
      if raised {
        ghost var during := sent[|old(sent)|..];
        ReportsAreFinal(id, "failed");
        sent := sent + [Report("workflow_failed", id, "failed")];
        assert sent[|old(sent)|..] == during + [Report("workflow_failed", id, "failed")];
      }
    }
  }

  /** A fresh run, executed once: its record says what happened, unless another final event about it
      came before its own last one, and keeps saying it. */
  method ExecuteOnce(id: string, h: Happening, reading: Replay.Reading) returns (events: seq<Packet>)
    requires NoFinal(h.actions)
    ensures EndsOnce(events, Expected(h))
    ensures forall early, late, log :: LogOf(events, early, late, log) ==>
      RunRecord(log, reading).status == if FirstFinal(early).Some? then FirstFinal(early).value else Expected(h)
  {
    var run := new RunExecution(id);
    run.RunEntry(h);
    events := run.sent;
    assert events[0..] == events;
    forall early, late, log | LogOf(events, early, late, log)
      ensures RunRecord(log, reading).status == if FirstFinal(early).Some? then FirstFinal(early).value else Expected(h)
    {
      InterruptedRunIsRecorded(events, early, late, log, Expected(h), reading);
    }
  }
}
