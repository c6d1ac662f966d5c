/** Whole runs of the provider: deliveries, watcher bodies, the environment, crashes and restarts in
    any order, with any interference and faults inside each of them. */
module Runs {
  import opened Wrappers
  import opened Domain
  import opened Lookback
  import opened World
  import opened Watcher
  import opened Protocol
  import opened WatcherSteps
  import opened Safety
  import opened Jobs
  import opened Admission
  import opened AdmissionSteps
  import opened Recovery

  datatype ListedId = ListedId(submissionId: string, tick: EnvTick)

  datatype Action =
    | Meanwhile(step: Step)
    | Delivered(message: Message, script: HandleScript, ack: Tick)
    | Recovered(ids: seq<ListedId>)
    | Crashing

  /** The listing Ray returns: any of its jobs, in any order. */
  function Listing(w: World, ids: seq<ListedId>): seq<Listed> {
    seq(|ids|, i requires 0 <= i < |ids| => Listed(ViewOf(w, ids[i].submissionId), ids[i].tick))
  }

  function Act(cfg: Config, s: Sys, a: Action): Sys {
    match a
    case Meanwhile(step) => Apply(cfg.setting.matcher, s, step)
    case Delivered(m, t, ack) => Deliver(cfg, s, m, t, ack)
    case Recovered(ids) => RecoverAll(cfg, s, Listing(s.world, ids)).0
    case Crashing => Crash(s)
  }

  function Run(cfg: Config, s: Sys, actions: seq<Action>): Sys {
    if actions == [] then s
    else Act(cfg, Run(cfg, s, actions[..|actions| - 1]), actions[|actions| - 1])
  }

  lemma ActSteps(cfg: Config, s: Sys, a: Action)
    requires Safe(cfg.setting, s) && Aligned(cfg)
    ensures Steps(cfg.setting, s, Act(cfg, s, a))
  {
    match a
    case Meanwhile(step) => ApplySteps(cfg.setting, s, step);
    case Delivered(m, t, ack) => DeliverSteps(cfg, s, m, t, ack);
    case Recovered(ids) => RecoverAllSteps(cfg, s, Listing(s.world, ids));
    case Crashing => NoteCrash(cfg.setting, s);
  }

  lemma NoteCrash(g: Setting, s: Sys)
    ensures Steps(g, s, Crash(s))
  {
    StepsReflexive(g, s);
    StepsThenNote(g, s, s, Crash(s), Crashed);
  }

  /** Every run of the code is an execution of the guarded atomic steps. */
  lemma {:induction false} RunSteps(cfg: Config, s: Sys, actions: seq<Action>)
    requires Safe(cfg.setting, s) && Aligned(cfg)
    ensures Steps(cfg.setting, s, Run(cfg, s, actions))
  {
    if actions == [] {
      StepsReflexive(cfg.setting, s);
    } else {
      var front := Run(cfg, s, actions[..|actions| - 1]);
      RunSteps(cfg, s, actions[..|actions| - 1]);
      StepsAreSafe(cfg.setting, s, front);
      ActSteps(cfg, front, actions[|actions| - 1]);
      StepsTransitive(cfg.setting, s, front, Run(cfg, s, actions));
    }
  }

  /** Every reachable state is safe. */
  lemma ReachableIsSafe(cfg: Config, s: Sys, actions: seq<Action>)
    requires Fresh(s) && Aligned(cfg)
    ensures Safe(cfg.setting, Run(cfg, s, actions))
  {
    FreshIsSafe(cfg.setting, s);
    RunSteps(cfg, s, actions);
    StepsAreSafe(cfg.setting, s, Run(cfg, s, actions));
  }

  // ---------------------------------------------------------------- admission

  /** No acknowledged task is lost: it has a Ray job, a CANCELLED event in its stream, or was rejected
      with a FAILED publication attempted, whose event is in its stream unless the publication raised
      before it took effect. It is acknowledged only once. */
  lemma NoAckedTaskIsLost(cfg: Config, s0: Sys, actions: seq<Action>, i: nat)
    requires Fresh(s0) && Aligned(cfg)
    requires var s := Run(cfg, s0, actions); i < |s.trace| && s.trace[i].XAcked?
    ensures var s := Run(cfg, s0, actions);
            var d := s.trace[i].delivery;
            && (|| HasJob(s.world, s.trace[i].operationId)
                || CancelledIn(s.world, cfg.setting.channels.For(d.operationType).EventKey(s.trace[i].operationId))
                || RejectedWithReport(cfg.setting.channels, s, d, s.trace[i].operationId))
            && forall j :: 0 <= j < |s.trace| && s.trace[j].XAcked? && s.trace[j].delivery == d ==> j == i
  {
    ReachableIsSafe(cfg, s0, actions);
    var s := Run(cfg, s0, actions);
    var d, op := s.trace[i].delivery, s.trace[i].operationId;
    if WasRejected(cfg.setting.channels, s.world, s.trace, d, op) {
      var k :| 0 <= k < |s.trace| && RejectedAt(cfg.setting.channels, s.world, s.trace[k], d, op);
      assert ReportsRejection(cfg.setting.channels, s.world, s.trace[k], d, op);
    }
  }

  /** Every active entry has a Ray job of its operation, in every reachable state. */
  lemma ActiveEntriesHaveJobs(cfg: Config, s0: Sys, actions: seq<Action>, operationId: string)
    requires Fresh(s0) && Aligned(cfg)
    requires operationId in Run(cfg, s0, actions).mem.active
    ensures var s := Run(cfg, s0, actions);
            var e := s.mem.active[operationId];
            && e.operationId == operationId
            && e.SubmissionId() in s.world.jobs && Carries(s.world.jobs[e.SubmissionId()], operationId)
  {
    ReachableIsSafe(cfg, s0, actions);
  }

  /** Single live submission: the submitter is called, and an entry is put, only while the operation
      is not tracked, on either channel. */
  lemma SubmitsAndPutsFindNothingTracked(cfg: Config, s0: Sys, actions: seq<Action>, i: nat)
    requires Fresh(s0) && Aligned(cfg)
    requires i < |Run(cfg, s0, actions).trace|
    ensures var o := Run(cfg, s0, actions).trace[i];
            (o.SubmitCalled? ==> o.tracked.None?) && (o.Put? ==> o.displaced.None?)
  {
    ReachableIsSafe(cfg, s0, actions);
  }

  /** While an entry stays tracked, nothing submits its operation, whatever else happens. */
  lemma TrackedOperationIsNotResubmitted(cfg: Config, s: Sys, actions: seq<Action>, e: ActiveSubmission, j: nat)
    requires Safe(cfg.setting, s) && Aligned(cfg) && Tracked(s, e.operationId) == Some(e)
    requires var trace := Run(cfg, s, actions).trace;
             forall k :: |s.trace| <= k < |trace| ==> !Ends(trace[k], e)
    requires |s.trace| <= j < |Run(cfg, s, actions).trace|
    ensures !StartsAgain(Run(cfg, s, actions).trace[j], e.operationId)
  {
    var s' := Run(cfg, s, actions);
    RunSteps(cfg, s, actions);
    StepsAreSafe(cfg.setting, s, s');
    NotStartedAgain(s.trace, s'.trace, e, j);
  }

  lemma NotStartedAgain(before: seq<Obs>, after: seq<Obs>, e: ActiveSubmission, j: nat)
    requires before <= after && StillPut(before, e) && OneLiveSubmission(after)
    requires forall k :: |before| <= k < |after| ==> !Ends(after[k], e)
    requires |before| <= j < |after|
    ensures !StartsAgain(after[j], e.operationId)
  {
    var i :| 0 <= i < |before| && before[i].Put? && before[i].entry == e && NotEndedAfter(before, i, e);
    assert forall k :: 0 <= k < |before| ==> after[k] == before[k];
    assert NotEndedAfter(after, i, e);
    assert after[i].Put? && after[i].entry == e;
  }

  /** A rejection of the delivery, and its event under the operation of the envelope, or under one made of
      the delivery if the envelope names none. */
  ghost predicate RejectedWithReport(c: Channels, s: Sys, d: Delivery, operationId: string) {
    exists k :: 0 <= k < |s.trace| && ReportsRejection(c, s.world, s.trace[k], d, operationId)
  }

  ghost predicate ReportsRejection(c: Channels, w: World, o: Obs, d: Delivery, operationId: string) {
    && o.RejectionAttempted? && o.delivery == d
    && (o.fault != RaiseBefore ==>
          IsIn(w, c.For(d.operationType).EventKey(if operationId != "" then operationId else "invalid-" + d.token),
               Event(Name("FAILED"), None, o.code, ByAdmission)))
  }

  // ---------------------------------------------------------------- removal

  /** Whatever the watcher, resumption or recovery removes, a terminal event for the item that caused
      the removal was appended to its stream. */
  lemma RemovalsAreJustified(cfg: Config, s0: Sys, actions: seq<Action>, i: nat)
    requires Fresh(s0) && Aligned(cfg)
    requires var s := Run(cfg, s0, actions); i < |s.trace| && s.trace[i].Removed?
    ensures var s := Run(cfg, s0, actions);
            var x := s.trace[i].item;
            && s.trace[i].entry.operationId == x.operationId
            && EverPublished(cfg.setting.matcher, StreamAt(s.world, x.EventKey()).history, x)
  {
    ReachableIsSafe(cfg, s0, actions);
  }

  /** Between two submitter calls for one operation, the first of which returned, the process crashed
      or the first entry was removed; unless that removal came from a stale snapshot item, a terminal
      event for the first submission was appended. */
  lemma ResubmissionFollowsTerminalEvent(cfg: Config, s0: Sys, actions: seq<Action>, i: nat, j: nat)
    requires Fresh(s0) && Aligned(cfg)
    requires var trace := Run(cfg, s0, actions).trace;
             i < j < |trace| && trace[i].Put? && StartsAgain(trace[j], trace[i].entry.operationId)
    requires var trace := Run(cfg, s0, actions).trace;
             forall k :: i < k < j ==> !trace[k].Crashed?
    ensures var s := Run(cfg, s0, actions);
            var e := s.trace[i].entry;
            exists k :: && i < k < j && s.trace[k].Removed? && s.trace[k].entry == e
                        && (s.trace[k].item == e ==>
                            EverPublished(cfg.setting.matcher, StreamAt(s.world, e.EventKey()).history, e))
  {
    ReachableIsSafe(cfg, s0, actions);
    var s := Run(cfg, s0, actions);
    var k :| i < k < j && Ends(s.trace[k], s.trace[i].entry);
    assert s.trace[k].Removed?;
  }

  // ---------------------------------------------------------------- fallbacks of the watcher

  /** Exactly what a fallback on STOPPED says: EXECUTION_TIMEOUT if and only if a stop that the deadline
      caused returned, or the item timed out with neither a marker nor a stop caused by one; otherwise
      CANCELLED if and only if there was a marker or such a stop; otherwise RAY_JOB_STOPPED. */
  lemma StoppedVerdictIsExact(cfg: Config, s0: Sys, actions: seq<Action>, i: nat)
    requires Fresh(s0) && Aligned(cfg)
    requires var trace := Run(cfg, s0, actions).trace;
             i < |trace| && trace[i].Wrote? && trace[i].status == Stopped
    ensures var trace := Run(cfg, s0, actions).trace;
            var o, op := trace[i], trace[i].item.operationId;
            var byMarker, byDeadline := StoppedBy(trace[..i], op, ByMarker), StoppedBy(trace[..i], op, ByDeadline);
            var timedOut := o.item.deadlineAtMs.Some? && o.nowMs >= o.item.deadlineAtMs.value;
            var timeout := byDeadline || (timedOut && !o.present && !byMarker);
            && (o.code == "EXECUTION_TIMEOUT" <==> timeout)
            && (o.kind == "CANCELLED" <==> !timeout && (o.present || byMarker))
            && (o.code == "RAY_JOB_STOPPED" <==> !timeout && !o.present && !byMarker)
            && (o.kind == "FAILED" <==> o.kind != "CANCELLED")
  {
    ReachableIsSafe(cfg, s0, actions);
    var s := Run(cfg, s0, actions);
    assert VerdictExplained(s.world, s.trace[..i], s.trace[i]);
  }

  /** And exactly what it says on SUCCEEDED and FAILED: it is FAILED, with EXECUTION_TIMEOUT under the same
      condition, and otherwise with RAY_JOB_FAILED if and only if the job failed and
      TERMINAL_EVENT_MISSING if and only if it succeeded. */
  lemma FinalVerdictIsExact(cfg: Config, s0: Sys, actions: seq<Action>, i: nat)
    requires Fresh(s0) && Aligned(cfg)
    requires var trace := Run(cfg, s0, actions).trace;
             i < |trace| && trace[i].Wrote? && trace[i].status != Stopped
    ensures var trace := Run(cfg, s0, actions).trace;
            var o, op := trace[i], trace[i].item.operationId;
            var byMarker, byDeadline := StoppedBy(trace[..i], op, ByMarker), StoppedBy(trace[..i], op, ByDeadline);
            var timedOut := o.item.deadlineAtMs.Some? && o.nowMs >= o.item.deadlineAtMs.value;
            var timeout := byDeadline || (timedOut && !o.present && !byMarker);
            && o.kind == "FAILED" && (o.status == Succeeded || o.status == Failed)
            && (o.code == "EXECUTION_TIMEOUT" <==> timeout)
            && (o.code == "RAY_JOB_FAILED" <==> !timeout && o.status == Failed)
            && (o.code == "TERMINAL_EVENT_MISSING" <==> !timeout && o.status == Succeeded)
  {
    ReachableIsSafe(cfg, s0, actions);
    var s := Run(cfg, s0, actions);
    assert VerdictExplained(s.world, s.trace[..i], s.trace[i]);
  }

  /** Every stop that returned was asked for right after the item's marker was read; a stop ascribed to the
      marker saw it, and one ascribed to the deadline missed it and came when the deadline had passed. */
  lemma StopsAreWarranted(cfg: Config, s0: Sys, actions: seq<Action>, i: nat)
    requires Fresh(s0) && Aligned(cfg)
    requires var trace := Run(cfg, s0, actions).trace; i < |trace| && trace[i].StopReturned?
    ensures var trace := Run(cfg, s0, actions).trace;
            var o := trace[i];
            && i > 0 && trace[i - 1].MarkerRead? && trace[i - 1].item == o.item
            && (o.cause == ByMarker <==> trace[i - 1].present)
            && (o.cause == ByDeadline ==> o.item.deadlineAtMs.Some? && o.nowMs >= o.item.deadlineAtMs.value)
  {
    ReachableIsSafe(cfg, s0, actions);
    assert StopWarranted(Run(cfg, s0, actions).trace, i);
  }

  /** Over every run: a rejection whose publication did not raise before its effect left a FAILED event
      with its code in the stream of the channel and operation it was reported under, and a confirmation
      left an ACCEPTED event with its submission id. */
  lemma AnswersAreInTheirStreams(cfg: Config, s0: Sys, actions: seq<Action>, i: nat)
    requires Fresh(s0) && Aligned(cfg) && i < |Run(cfg, s0, actions).trace|
    ensures var s := Run(cfg, s0, actions);
            var o, channels := s.trace[i], cfg.setting.channels;
            && (o.RejectionAttempted? && o.fault != RaiseBefore ==>
                  IsIn(s.world, channels.For(o.delivery.operationType).EventKey(o.operationId),
                       Event(Name("FAILED"), None, o.code, ByAdmission)))
            && (o.AcceptedReturned? ==>
                  IsIn(s.world, channels.For(o.delivery.operationType).EventKey(o.operationId),
                       Event(Name("ACCEPTED"), Some(o.submissionId), "", ByAdmission)))
  {
    ReachableIsSafe(cfg, s0, actions);
    assert PublishedAsNoted(cfg.setting, Run(cfg, s0, actions).world, Run(cfg, s0, actions).trace[i]);
  }

  /** First cause wins: on STOPPED, a first stop caused by the deadline gives EXECUTION_TIMEOUT; one
      caused by the marker gives CANCELLED, as long as the marker was not deleted between the read that
      caused the stop and the read of the body that writes. */
  lemma FirstCauseWins(cfg: Config, s0: Sys, actions: seq<Action>, i: nat)
    requires Fresh(s0) && Aligned(cfg)
    requires var trace := Run(cfg, s0, actions).trace;
             i < |trace| && trace[i].Wrote? && trace[i].status == Stopped
    ensures var trace := Run(cfg, s0, actions).trace;
            var o, stops := trace[i], Stops(trace[..i], trace[i].item.operationId);
            && i > 0 && trace[i - 1].MarkerRead? && trace[i - 1].item == o.item
            && (FirstCauseIs(stops, o.item, ByDeadline) ==> (o.kind, o.code) == ("FAILED", "EXECUTION_TIMEOUT"))
            && (FirstCauseIs(stops, o.item, ByMarker) && stops[0].deletions == trace[i - 1].deletions ==>
                o.kind == "CANCELLED")
            && (stops == [] ==> o.kind == (if o.present then "CANCELLED" else "FAILED"))
  {
    ReachableIsSafe(cfg, s0, actions);
    FirstCauseDecides(Run(cfg, s0, actions), i);
  }

  lemma FirstCauseDecides(s: Sys, i: nat)
    requires VerdictsExplained(s) && i < |s.trace| && s.trace[i].Wrote? && s.trace[i].status == Stopped
    ensures var o, stops := s.trace[i], Stops(s.trace[..i], s.trace[i].item.operationId);
            && i > 0 && s.trace[i - 1].MarkerRead? && s.trace[i - 1].item == o.item
            && (FirstCauseIs(stops, o.item, ByDeadline) ==> (o.kind, o.code) == ("FAILED", "EXECUTION_TIMEOUT"))
            && (FirstCauseIs(stops, o.item, ByMarker) && stops[0].deletions == s.trace[i - 1].deletions ==>
                o.kind == "CANCELLED")
            && (stops == [] ==> o.kind == (if o.present then "CANCELLED" else "FAILED"))
  {
    assert VerdictExplained(s.world, s.trace[..i], s.trace[i]);
    assert Last(s.trace[..i]) == s.trace[i - 1];
  }

  /** CANCELLED is written only in a body that read STOPPED and either read the marker or follows a
      returned stop that the marker caused; and Ray never reports anything else for that job later. */
  lemma CancelledMeansStoppedOnRequest(cfg: Config, s0: Sys, actions: seq<Action>, i: nat)
    requires Fresh(s0) && Aligned(cfg)
    requires var trace := Run(cfg, s0, actions).trace;
             i < |trace| && trace[i].Wrote? && trace[i].kind == "CANCELLED"
    ensures var s := Run(cfg, s0, actions);
            var o := s.trace[i];
            && o.status == Stopped
            && (o.present || StoppedBy(s.trace[..i], o.item.operationId, ByMarker))
            && o.item.SubmissionId() in s.world.jobs && s.world.jobs[o.item.SubmissionId()].status == Stopped
  {
    ReachableIsSafe(cfg, s0, actions);
    var s := Run(cfg, s0, actions);
    assert VerdictExplained(s.world, s.trace[..i], s.trace[i]);
  }

  /** Every fallback in every stream agrees with the final status of its Ray job. */
  lemma FallbacksAgreeWithRay(cfg: Config, s0: Sys, actions: seq<Action>, key: string, i: nat)
    requires Fresh(s0) && Aligned(cfg)
    requires i < |StreamAt(Run(cfg, s0, actions).world, key).history|
    ensures AgreesWithRay(Run(cfg, s0, actions).world, StreamAt(Run(cfg, s0, actions).world, key).history[i])
  {
    ReachableIsSafe(cfg, s0, actions);
  }

  /** Fallback idempotence, exactly: across ambiguous publications, crashes and restarts, a stream holds
      at most one fallback for a submission if and only if every body that wrote one had found none in
      the whole history at its lookback. */
  lemma FallbackIsUniqueExactly(cfg: Config, s0: Sys, actions: seq<Action>, key: string, submissionId: string)
    requires Fresh(s0) && Aligned(cfg)
    ensures var s := Run(cfg, s0, actions);
            FallbackCount(StreamAt(s.world, key).history, submissionId) <= 1 <==>
            EveryWriterFoundNone(s.trace, key, submissionId)
  {
    ReachableIsSafe(cfg, s0, actions);
    var s := Run(cfg, s0, actions);
    WrittenOnceExactly(s.trace, key, submissionId);
    assert FallbackCount(StreamAt(s.world, key).history, submissionId) == WriteCount(s.trace, key, submissionId);
  }

  /** The lookbacks of this submission that let a fallback be written came in time: fewer than sixteen
      events followed its newest fallback, and the stream still retained that one. */
  ghost predicate LookedInTime(trace: seq<Obs>, key: string, submissionId: string) {
    forall i :: 2 <= i < |trace| && Writes(trace[i], key, submissionId) && trace[i - 2].Looked? ==>
                  !Late(trace[i - 2])
  }

  predicate Late(o: Obs)
    requires o.Looked?
  {
    o.after.Some? && o.after.value >= Min(TERMINAL_LOOKBACK, o.retained)
  }

  /** So a submission whose own lookbacks came in time has at most one fallback, whatever happens to
      other submissions and streams. */
  lemma FallbackIsWrittenOnce(cfg: Config, s0: Sys, actions: seq<Action>, key: string, submissionId: string)
    requires Fresh(s0) && Aligned(cfg)
    requires LookedInTime(Run(cfg, s0, actions).trace, key, submissionId)
    ensures FallbackCount(StreamAt(Run(cfg, s0, actions).world, key).history, submissionId) <= 1
  {
    ReachableIsSafe(cfg, s0, actions);
    FallbackIsUniqueExactly(cfg, s0, actions, key, submissionId);
    var trace := Run(cfg, s0, actions).trace;
    forall i | 0 <= i < |trace| && Writes(trace[i], key, submissionId) ensures FoundNoneBefore(trace, i) {
      assert WriteExplained(trace, i) && !Late(trace[i - 2]);
    }
  }

  // ---------------------------------------------------------------- cancellation before admission

  /** The submitter is not called between two states. */
  ghost predicate NoSubmitSince(s: Sys, s': Sys) {
    && s.trace <= s'.trace
    && forall i :: |s.trace| <= i < |s'.trace| ==> !s'.trace[i].SubmitCalled?
  }

  /** Neither is the submitter called nor anything put or acknowledged between two states. */
  ghost predicate Unanswered(s: Sys, s': Sys) {
    && NoSubmitSince(s, s')
    && (forall i :: |s.trace| <= i < |s'.trace| ==> !s'.trace[i].XAcked? && !s'.trace[i].Put?)
    && s'.world.acked == s.world.acked
  }

  lemma UnansweredIsTransitive(a: Sys, b: Sys, c: Sys)
    requires Unanswered(a, b) && Unanswered(b, c)
    ensures Unanswered(a, c)
  {
    forall i | |a.trace| <= i < |c.trace| ensures !c.trace[i].SubmitCalled? && !c.trace[i].XAcked? && !c.trace[i].Put? {
      if i < |b.trace| {
        assert c.trace[i] == b.trace[i];
      }
    }
  }

  lemma EnvAnswersNothing(s: Sys, steps: seq<EnvStep>)
    ensures Unanswered(s, Env(s, steps))
  {
    EnvAllExtends(s.world, steps);
  }

  lemma CheckItemAnswersNothing(m: Matcher, s: Sys, x: ActiveSubmission, t: ItemScript)
    ensures Unanswered(s, CheckItem(m, s, x, t))
  {
    var (s1, scan) := LookAt(m, s, x, t.lookback);
    EnvAnswersNothing(s, t.lookback.before);
    assert Unanswered(s, s1);
    if scan.Found? {
      UnansweredIsTransitive(s, s1, Forget(s1, x));
    } else if scan.NotFound? {
      var s2 := Env(s1, t.status.before);
      EnvAnswersNothing(s1, t.status.before);
      UnansweredIsTransitive(s, s1, s2);
      if t.status.fault == Ok && x.SubmissionId() in s2.world.jobs {
        ActOnStatusAnswersNothing(s2, x, s2.world.jobs[x.SubmissionId()].status, t);
        UnansweredIsTransitive(s, s2, CheckItem(m, s, x, t));
      }
    }
  }

  lemma ActOnStatusAnswersNothing(s: Sys, x: ActiveSubmission, status: RayStatus, t: ItemScript)
    ensures Unanswered(s, ActOnStatus(s, x, status, t))
  {
    var s1 := Env(s, t.marker.before);
    EnvAnswersNothing(s, t.marker.before);
    var present := x.CancelKey() in s1.world.markers;
    var deletions := Deletions(s1.world, x.CancelKey());
    var read := Note(s1, MarkerRead(x, present, deletions));
    var s2 := Env(read, t.effect.before);
    EnvAnswersNothing(read, t.effect.before);
    UnansweredIsTransitive(s, read, s2);
    ReactionAnswersNothing(s2, x, status, present, deletions, t.nowMs, t.effect.fault);
    UnansweredIsTransitive(s, s2, RequestStop(s2, x, present, deletions, t.nowMs, t.effect.fault));
    UnansweredIsTransitive(s, s2, ReportFinal(s2, x, status, present, t.nowMs, t.effect.fault));
  }

  lemma ReactionAnswersNothing(s: Sys, x: ActiveSubmission, status: RayStatus, present: bool, deletions: nat,
                               nowMs: int, fault: Fault)
    ensures Unanswered(s, RequestStop(s, x, present, deletions, nowMs, fault))
    ensures Unanswered(s, ReportFinal(s, x, status, present, nowMs, fault))
  {
  }

  lemma {:induction false} InterferenceAnswersNothing(m: Matcher, s: Sys, steps: seq<Step>)
    ensures Unanswered(s, Interfere(m, s, steps))
  {
    if steps != [] {
      var front := Interfere(m, s, steps[..|steps| - 1]);
      InterferenceAnswersNothing(m, s, steps[..|steps| - 1]);
      StepAnswersNothing(m, front, steps[|steps| - 1]);
      UnansweredIsTransitive(s, front, Interfere(m, s, steps));
    }
  }

  lemma StepAnswersNothing(m: Matcher, s: Sys, step: Step)
    ensures Unanswered(s, Apply(m, s, step))
  {
    match step
    case Outside(env) => EnvAnswersNothing(s, [env]);
    case BeginPass(_) =>
    case CheckNext(script) =>
      if s.mem.pass != [] {
        CheckItemAnswersNothing(m, s.(mem := s.mem.(pass := s.mem.pass[1..])), s.mem.pass[0], script);
      }
  }

  lemma GateAnswersNothing(cfg: Config, s: Sys, m: Message, t: HandleScript)
    ensures Unanswered(s, Gate(cfg, s, m, t).0)
  {
    var g := cfg.setting.matcher;
    var s1 := Interfere(g, s, t.gate.before);
    InterferenceAnswersNothing(g, s, t.gate.before);
    var seen := Note(s1, MarkerSeen(m.delivery));
    var s2 := Interfere(g, seen, t.gatePublish.before);
    InterferenceAnswersNothing(g, seen, t.gatePublish.before);
    UnansweredIsTransitive(s, seen, s2);
    UnansweredIsTransitive(s, s2, PublishCancelled(cfg, s2, m, m.outerId, t.gatePublish.fault).0);
  }

  lemma InvalidAnswersNothing(cfg: Config, s: Sys, m: Message, code: string, t: HandleScript)
    ensures Unanswered(s, Invalid(cfg, s, m, code, t).0)
  {
    InterferenceAnswersNothing(cfg.setting.matcher, s, t.invalid.before);
  }

  /** A marker that is not deleted before the end of the gate is still there when the gate looks. */
  lemma MarkedGateStops(cfg: Config, s: Sys, m: Message, t: HandleScript)
    requires var key := ChannelOf(cfg, m).CancelKey(m.outerId);
             key in s.world.markers && Deletions(Gate(cfg, s, m, t).0.world, key) == Deletions(s.world, key)
    ensures var out := Gate(cfg, s, m, t).1;
            out.Some? && (out.value == Ack(None) || out.value == Retry(CANCEL_CHECK_UNAVAILABLE))
  {
    InterfereSteps(cfg.setting, s, t.gate.before);
    var s1 := Interfere(cfg.setting.matcher, s, t.gate.before);
    StepsAreSafe(cfg.setting, s, s1);
    assert MarkerKept(s.world, s1.world, ChannelOf(cfg, m).CancelKey(m.outerId));
  }

  /** A marker that is set before a delivery is handled, and not deleted before it is looked up, keeps
      the delivery from the submitter, even if the lookup or the publication raises. */
  lemma MarkedDeliveryNeverReachesSubmitter(cfg: Config, s: Sys, m: Message, t: HandleScript)
    requires m.outerId != ""
    requires var key := ChannelOf(cfg, m).CancelKey(m.outerId);
             key in s.world.markers && Deletions(Gate(cfg, s, m, t).0.world, key) == Deletions(s.world, key)
    ensures var (s', out) := Handle(cfg, s, m, t);
            NoSubmitSince(s, s') && (out == Ack(None) || out == Retry(CANCEL_CHECK_UNAVAILABLE))
  {
    MarkedGateStops(cfg, s, m, t);
    GateAnswersNothing(cfg, s, m, t);
    assert Handle(cfg, s, m, t) == (Gate(cfg, s, m, t).0, Gate(cfg, s, m, t).1.value);
  }
}
