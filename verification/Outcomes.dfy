/** What becomes of one delivery, in the terms of its envelope, its request and the calls it meets: which
    deliveries are rejected and how that is reported, which are refused or cancelled, which reach the
    submitter, and what is put and confirmed for them. */
module Outcomes {
  import opened Wrappers
  import opened Domain
  import opened Lookback
  import opened World
  import opened Watcher
  import opened Protocol
  import opened Decimal
  import opened Jobs
  import opened Admission
  import opened Runs
  import opened Convergence

  /** The newest event of the delivery's channel under this operation. */
  predicate NewestEventIs(cfg: Config, w: World, m: Message, operationId: string, e: Entry) {
    var c := if m.delivery.operationType == Training then cfg.setting.channels.training
             else cfg.setting.channels.batchInference;
    var h := StreamAt(w, c.eventPrefix + ":" + operationId).history;
    |h| > 0 && h[|h| - 1] == e
  }

  predicate MarkedAt(cfg: Config, w: World, m: Message, operationId: string) {
    var c := if m.delivery.operationType == Training then cfg.setting.channels.training
             else cfg.setting.channels.batchInference;
    c.cancelPrefix + ":" + operationId in w.markers
  }

  // ---------------------------------------------------------------- rejections

  /** Whatever is acknowledged with a code was reported: unless the publication raised before it took
      effect, the newest event under the envelope's operation, or under one made of the delivery if the
      envelope names none, is FAILED with that code. */
  lemma RejectionIsReported(cfg: Config, s: Sys, m: Message, t: HandleScript, code: string)
    requires Handle(cfg, s, m, t).1 == Ack(Some(code))
    ensures t.invalid.fault != RaiseBefore ==>
              NewestEventIs(cfg, Handle(cfg, s, m, t).0.world, m,
                            if m.outerId != "" then m.outerId else "invalid-" + m.delivery.token,
                            Event(Name("FAILED"), None, code, ByAdmission))
  {
    if m.outerId != "" {
      var s1 := Gate(cfg, s, m, t).0;
      assert Gate(cfg, s, m, t).1.None?;
      if Validate(cfg, m).Valid? {
        var r := Validate(cfg, m).request;
        OnlySizeIsRejectedLater(cfg, s1, m, r, Validate(cfg, m).timeoutSeconds, t, code);
      }
    }
  }

  lemma ResumptionRejectsNothing(cfg: Config, s: Sys, m: Message, r: Request, t: HandleScript)
    ensures var out := Resume(cfg, s, m, r, t).1;
            out.Some? && out.value.Ack? ==> out.value == Ack(None)
  {
  }

  lemma OnlySizeIsRejected(cfg: Config, s: Sys, m: Message, r: Request, timeoutSeconds: Option<real>, t: HandleScript,
                           code: string)
    requires Admit(cfg, s, m, r, timeoutSeconds, t).1 == Ack(Some(code))
    ensures Admit(cfg, s, m, r, timeoutSeconds, t) == Invalid(cfg, s, m, code, t)
  {
  }

  lemma OnlySizeIsRejectedLater(cfg: Config, s: Sys, m: Message, r: Request, timeoutSeconds: Option<real>,
                                t: HandleScript, code: string)
    requires Proceed(cfg, s, m, r, timeoutSeconds, t).1 == Ack(Some(code))
    ensures var s2 := SecondGate(cfg, Resume(cfg, s, m, r, t).0, m, r, t).0;
            Proceed(cfg, s, m, r, timeoutSeconds, t) == Invalid(cfg, s2, m, code, t)
  {
    var s1 := Resume(cfg, s, m, r, t).0;
    ResumptionRejectsNothing(cfg, s, m, r, t);
    var (s2, cancelled) := SecondGate(cfg, s1, m, r, t);
    assert cancelled.None?;
    OnlySizeIsRejected(cfg, s2, m, r, timeoutSeconds, t, code);
  }

  /** The gate lets the delivery pass. */
  predicate PassesGate(cfg: Config, s: Sys, m: Message, t: HandleScript) {
    && m.outerId != "" && t.gate.fault == Ok
    && !MarkedAt(cfg, Interfere(cfg.setting.matcher, s, t.gate.before).world, m, m.outerId)
  }

  /** The envelope, the payload and the request are in order, and this is the request. */
  predicate Reads(cfg: Config, m: Message, r: Request, timeoutSeconds: Option<real>) {
    && !m.encodingError && !m.envelopeError && !m.payloadError && m.raw.Some?
    && cfg.parser(m.raw.value, m.outerId, m.delivery.operationType) == ParsedRequest(r)
    && cfg.enabled(m.delivery.operationType, r.profile)
    && cfg.preparer(r) == PreparedOperation(timeoutSeconds)
  }

  lemma ReadsExactlyTheValid(cfg: Config, m: Message, r: Request, timeoutSeconds: Option<real>)
    ensures Validate(cfg, m) == Valid(r, timeoutSeconds) <==> Reads(cfg, m, r, timeoutSeconds)
  {
  }

  /** How a delivery that passes the gate is answered when something about it is wrong: the first fault in
      this order decides, and an exception of the parser or the preparer escapes. */
  lemma FaultsAreAnsweredInOrder(cfg: Config, s: Sys, m: Message, t: HandleScript)
    ensures var out := Handle(cfg, s, m, t).1;
            && (m.outerId == "" ==> out == Ack(Some("INVALID_OPERATION_ID")))
            && (PassesGate(cfg, s, m, t) ==>
                  && (m.encodingError ==> out == Ack(Some("INVALID_PAYLOAD")))
                  && (!m.encodingError && m.envelopeError ==> out == Ack(Some("INVALID_ENVELOPE")))
                  && (!m.encodingError && !m.envelopeError ==>
                        && (m.payloadError ==> out == Ack(Some("PAYLOAD_TOO_LARGE")))
                        && (!m.payloadError && m.raw.None? ==> out == Ack(Some("INVALID_REQUEST")))
                        && (!m.payloadError && m.raw.Some? ==> AnsweredAsParsed(cfg, m, out))))
  {
  }

  predicate AnsweredAsParsed(cfg: Config, m: Message, out: Outcome)
    requires m.raw.Some?
  {
    match cfg.parser(m.raw.value, m.outerId, m.delivery.operationType)
    case ParserRaised => out == Escaped
    case ProtocolFailure(code) => out == Ack(Some(code))
    case ParsedRequest(r) =>
      if !cfg.enabled(m.delivery.operationType, r.profile) then out == Ack(Some("UNSUPPORTED_EXECUTION_PROFILE"))
      else
        match cfg.preparer(r)
        case PreparerRaised => out == Escaped
        case MappingFailure(code) => out == Ack(Some(code))
        case PreparedOperation(_) => true
  }

  /** A delivery that was not acknowledged yet is acknowledged exactly when handling it answers with an ACK
      and XACK takes effect; nothing else of a delivery, and no other thread, acknowledges anything. */
  lemma AcknowledgedExactlyOnAck(cfg: Config, s: Sys, m: Message, t: HandleScript, ack: Tick)
    requires m.delivery !in s.world.acked
    ensures Deliver(cfg, s, m, t, ack).world.acked ==
            s.world.acked + if Handle(cfg, s, m, t).1.Ack? && ack.fault != RaiseBefore then {m.delivery} else {}
  {
    var (s1, out) := Handle(cfg, s, m, t);
    HandleSubmitsOnce(cfg, s, m, t);
    InterferenceAnswersNothing(cfg.setting.matcher, s1, ack.before);
  }

  // ---------------------------------------------------------------- cancellation

  const CANCELLED_EVENT := Event(Name("CANCELLED"), None, "", ByAdmission)

  /** The check before anything is parsed: a failed lookup retries; a marker for a tracked operation is left
      to the watcher; any other marker is answered with CANCELLED, or the delivery is retried. */
  lemma QueuedCancellationIsExact(cfg: Config, s: Sys, m: Message, t: HandleScript)
    requires m.outerId != ""
    ensures var (s', out) := Handle(cfg, s, m, t);
            var s1 := Interfere(cfg.setting.matcher, s, t.gate.before);
            var s2 := Interfere(cfg.setting.matcher, Note(s1, MarkerSeen(m.delivery)), t.gatePublish.before);
            && (t.gate.fault != Ok ==> s' == s1 && out == Retry("CANCEL_CHECK_UNAVAILABLE"))
            && (t.gate.fault == Ok && MarkedAt(cfg, s1.world, m, m.outerId) ==>
                  && (m.outerId in s2.mem.active ==> s' == s2 && out == Ack(None))
                  && (m.outerId !in s2.mem.active ==>
                        CancelledOrRetried(cfg, s', m, m.outerId, t.gatePublish.fault, out)))
  {
  }

  predicate CancelledOrRetried(cfg: Config, s: Sys, m: Message, operationId: string, fault: Fault, out: Outcome) {
    && out == (if fault == Ok then Ack(None) else Retry("CANCEL_CHECK_UNAVAILABLE"))
    && (fault != RaiseBefore ==> NewestEventIs(cfg, s.world, m, operationId, CANCELLED_EVENT))
  }

  /** The state in which the attempt checks for cancellation once more, with nothing tracked. */
  function AtSecondCheck(cfg: Config, s: Sys, m: Message, t: HandleScript): Sys {
    Interfere(cfg.setting.matcher, AtLookup(cfg, s, m, t), t.secondGate.before)
  }

  lemma SecondCancellationIsExact(cfg: Config, s: Sys, m: Message, r: Request, timeoutSeconds: Option<real>,
                                  t: HandleScript)
    requires PassesGate(cfg, s, m, t) && Reads(cfg, m, r, timeoutSeconds)
    requires r.operationId !in AtLookup(cfg, s, m, t).mem.active
    ensures var (s', out) := Handle(cfg, s, m, t);
            var s2 := AtSecondCheck(cfg, s, m, t);
            && (t.secondGate.fault != Ok ==> s' == s2 && out == Retry("CANCEL_CHECK_UNAVAILABLE"))
            && (t.secondGate.fault == Ok && MarkedAt(cfg, s2.world, m, r.operationId) ==>
                  CancelledOrRetried(cfg, s', m, r.operationId, t.cancelled.fault, out))
  {
    ReadsExactlyTheValid(cfg, m, r, timeoutSeconds);
    assert Handle(cfg, s, m, t) == Proceed(cfg, Gate(cfg, s, m, t).0, m, r, timeoutSeconds, t);
  }

  // ---------------------------------------------------------------- resumption

  /** The delivery asks for what the entry was admitted for. */
  predicate SameRequest(e: ActiveSubmission, m: Message, r: Request) {
    && e.operationType == m.delivery.operationType
    && e.profile == r.profile
    && e.runId == (if r.runId.Some? && r.runId.value != "" then r.runId.value else r.operationId)
    && e.submission.attemptId == r.attemptId
    && r.digest.Some? && e.submission.requestDigest.Some?
    && e.submission.requestDigest.value == r.digest.value
  }

  lemma TrackedDeliveryIsResumed(cfg: Config, s: Sys, m: Message, r: Request, timeoutSeconds: Option<real>,
                                 e: ActiveSubmission, t: HandleScript)
    requires PassesGate(cfg, s, m, t) && Reads(cfg, m, r, timeoutSeconds)
    requires Tracked(AtLookup(cfg, s, m, t), r.operationId) == Some(e)
    ensures Handle(cfg, s, m, t) ==
            if SameRequest(e, m, r) then ResumeTracked(cfg, AtLookup(cfg, s, m, t), m, r, e, t)
            else (AtLookup(cfg, s, m, t), Retry("OPERATION_ALREADY_ACTIVE"))
  {
    ReadsExactlyTheValid(cfg, m, r, timeoutSeconds);
    assert Handle(cfg, s, m, t) == Proceed(cfg, Gate(cfg, s, m, t).0, m, r, timeoutSeconds, t);
    assert SameIdentity(e, r, m.delivery.operationType) <==> SameRequest(e, m, r);
  }

  /** A delivery that finds its operation tracked for another request, in any field, or without a digest on
      either side, is refused: this thread publishes, puts and removes nothing, and the delivery stays
      pending. */
  lemma DifferentRequestIsRefused(cfg: Config, s: Sys, m: Message, r: Request, timeoutSeconds: Option<real>,
                                  e: ActiveSubmission, t: HandleScript, ack: Tick)
    requires PassesGate(cfg, s, m, t) && Reads(cfg, m, r, timeoutSeconds)
    requires Tracked(AtLookup(cfg, s, m, t), r.operationId) == Some(e) && !SameRequest(e, m, r)
    ensures Handle(cfg, s, m, t) == (AtLookup(cfg, s, m, t), Retry("OPERATION_ALREADY_ACTIVE"))
    ensures Deliver(cfg, s, m, t, ack).world.acked == s.world.acked
  {
    TrackedDeliveryIsResumed(cfg, s, m, r, timeoutSeconds, e, t);
    var s1 := Gate(cfg, s, m, t).0;
    GateAnswersNothing(cfg, s, m, t);
    InterferenceAnswersNothing(cfg.setting.matcher, s1, t.existing);
    UnansweredIsTransitive(s, s1, AtLookup(cfg, s, m, t));
  }

  /** And an acknowledgement means that every field agrees. */
  lemma AcknowledgedResumptionIsOfTheSameRequest(cfg: Config, s: Sys, m: Message, r: Request,
                                                 timeoutSeconds: Option<real>, e: ActiveSubmission, t: HandleScript)
    requires PassesGate(cfg, s, m, t) && Reads(cfg, m, r, timeoutSeconds)
    requires Tracked(AtLookup(cfg, s, m, t), r.operationId) == Some(e) && Handle(cfg, s, m, t).1.Ack?
    ensures SameRequest(e, m, r)
  {
    TrackedDeliveryIsResumed(cfg, s, m, r, timeoutSeconds, e, t);
  }

  /** What resumption of the same request does: a finished operation is acknowledged and untracked without a
      publication; one that is not is acknowledged exactly when ACCEPTED, with the tracked submission, was
      published. */
  lemma ResumptionIsExact(cfg: Config, s: Sys, m: Message, r: Request, timeoutSeconds: Option<real>,
                          e: ActiveSubmission, t: HandleScript)
    requires PassesGate(cfg, s, m, t) && Reads(cfg, m, r, timeoutSeconds)
    requires Tracked(AtLookup(cfg, s, m, t), r.operationId) == Some(e) && SameRequest(e, m, r)
    requires e.operationId == r.operationId
    ensures var (s', out) := Handle(cfg, s, m, t);
            var s1 := Interfere(cfg.setting.matcher, AtLookup(cfg, s, m, t), t.lookback.before);
            var scan := BoundedScan(cfg.setting.matcher, StreamAt(s1.world, e.EventKey()), e);
            && (t.lookback.fault != Ok || scan.ScanRaised? ==> s' == s1 && out == Escaped)
            && (t.lookback.fault == Ok && scan.Found? ==>
                  s'.world == s1.world && s'.mem.active == s1.mem.active - {r.operationId} && out == Ack(None))
            && (t.lookback.fault == Ok && scan.NotFound? ==>
                  && out == (if t.resume.fault == Ok then Ack(None) else Retry("RECOVERED_ADMISSION_UNCONFIRMED"))
                  && (t.resume.fault != RaiseBefore ==>
                        NewestEventIs(cfg, s'.world, m, r.operationId,
                                      Event(Name("ACCEPTED"), Some(e.SubmissionId()), "", ByAdmission))))
  {
    TrackedDeliveryIsResumed(cfg, s, m, r, timeoutSeconds, e, t);
  }

  // ---------------------------------------------------------------- who reaches the submitter

  /** The time a delivery was received: what the envelope says, or now. */
  predicate ReceivedIs(m: Message, t: HandleScript, receivedAtMs: int) {
    if m.receivedAt == "" then receivedAtMs == t.nowMs else ParseInt(m.receivedAt) == Some(receivedAtMs)
  }

  /** The deadline lies the timeout after the receipt, cut to whole milliseconds toward the receipt. */
  predicate DeadlineIs(receivedAtMs: int, timeoutSeconds: Option<real>, deadlineAtMs: Option<int>) {
    match timeoutSeconds
    case None => deadlineAtMs == None
    case Some(timeout) =>
      && deadlineAtMs.Some?
      && var ms := (deadlineAtMs.value - receivedAtMs) as real;
      && (timeout >= 0.0 ==> ms <= 1000.0 * timeout < ms + 1.0)
      && (timeout < 0.0 ==> ms - 1.0 < 1000.0 * timeout <= ms)
  }

  lemma DeadlineIsCut(receivedAtMs: int, timeoutSeconds: Option<real>, deadlineAtMs: Option<int>)
    ensures DeadlineIs(receivedAtMs, timeoutSeconds, deadlineAtMs) <==>
            deadlineAtMs == Deadline(receivedAtMs, timeoutSeconds)
  {
  }

  /** The times are usable: the receipt can be read and neither time is before the epoch. */
  predicate TimesAre(m: Message, t: HandleScript, timeoutSeconds: Option<real>, receivedAtMs: int,
                     deadlineAtMs: Option<int>) {
    && ReceivedIs(m, t, receivedAtMs) && receivedAtMs >= 0
    && DeadlineIs(receivedAtMs, timeoutSeconds, deadlineAtMs)
    && (deadlineAtMs.Some? ==> deadlineAtMs.value >= 0)
  }

  /** The delivery gets as far as the encoded driver input. */
  predicate IsEncoded(cfg: Config, s: Sys, m: Message, r: Request, timeoutSeconds: Option<real>, t: HandleScript) {
    && PassesGate(cfg, s, m, t) && Reads(cfg, m, r, timeoutSeconds)
    && r.operationId !in AtLookup(cfg, s, m, t).mem.active
    && t.secondGate.fault == Ok && !MarkedAt(cfg, AtSecondCheck(cfg, s, m, t).world, m, r.operationId)
  }

  /** The submitter is called since then. */
  ghost predicate SubmitSince(s: Sys, s': Sys) {
    exists i :: |s.trace| <= i < |s'.trace| && s'.trace[i].SubmitCalled?
  }

  function TheEntry(cfg: Config, m: Message, r: Request, receivedAtMs: int, deadlineAtMs: Option<int>, t: HandleScript)
    : ActiveSubmission
  {
    var runId := if r.runId.Some? && r.runId.value != "" then r.runId.value else r.operationId;
    ActiveSubmission(r.operationId, m.delivery.operationType, r.profile, runId,
                     if m.delivery.operationType == Training then cfg.setting.channels.training
                     else cfg.setting.channels.batchInference,
                     Submission(runId, r.attemptId, t.submissionId, t.rayJobId, r.digest),
                     Some(receivedAtMs), deadlineAtMs)
  }

  lemma EncodedDeliveryIsAdmitted(cfg: Config, s: Sys, m: Message, r: Request, timeoutSeconds: Option<real>,
                                  t: HandleScript)
    requires IsEncoded(cfg, s, m, r, timeoutSeconds, t)
    ensures Handle(cfg, s, m, t) == Admit(cfg, AtSecondCheck(cfg, s, m, t), m, r, timeoutSeconds, t)
  {
    ReadsExactlyTheValid(cfg, m, r, timeoutSeconds);
    assert Handle(cfg, s, m, t) == Proceed(cfg, Gate(cfg, s, m, t).0, m, r, timeoutSeconds, t);
  }

  /** From there: unusable times escape, too large an input is rejected, and the rest is submitted as the
      entry of this request. */
  lemma EncodedDeliveryIsAnswered(cfg: Config, s: Sys, m: Message, r: Request, timeoutSeconds: Option<real>,
                                  t: HandleScript, receivedAtMs: int, deadlineAtMs: Option<int>)
    requires IsEncoded(cfg, s, m, r, timeoutSeconds, t) && TimesAre(m, t, timeoutSeconds, receivedAtMs, deadlineAtMs)
    ensures t.driverBytes > cfg.maxDriverBytes ==> Handle(cfg, s, m, t).1 == Ack(Some("DRIVER_INPUT_TOO_LARGE"))
    ensures t.driverBytes <= cfg.maxDriverBytes ==>
              Handle(cfg, s, m, t)
              == Submit(cfg, AtSecondCheck(cfg, s, m, t), m, TheEntry(cfg, m, r, receivedAtMs, deadlineAtMs, t), t)
  {
    EncodedDeliveryIsAdmitted(cfg, s, m, r, timeoutSeconds, t);
    DeadlineIsCut(receivedAtMs, timeoutSeconds, deadlineAtMs);
    assert AdmittedEntry(cfg, m, r, receivedAtMs, deadlineAtMs, t)
        == TheEntry(cfg, m, r, receivedAtMs, deadlineAtMs, t);
  }

  lemma UnusableTimesEscape(cfg: Config, s: Sys, m: Message, r: Request, timeoutSeconds: Option<real>, t: HandleScript)
    requires IsEncoded(cfg, s, m, r, timeoutSeconds, t)
    requires forall receivedAtMs, deadlineAtMs :: !TimesAre(m, t, timeoutSeconds, receivedAtMs, deadlineAtMs)
    ensures Handle(cfg, s, m, t) == (AtSecondCheck(cfg, s, m, t), Escaped)
  {
    EncodedDeliveryIsAdmitted(cfg, s, m, r, timeoutSeconds, t);
    var received := if m.receivedAt == "" then Some(t.nowMs) else ParseInt(m.receivedAt);
    if received.Some? {
      var deadline := Deadline(received.value, timeoutSeconds);
      DeadlineIsCut(received.value, timeoutSeconds, deadline);
      assert !TimesAre(m, t, timeoutSeconds, received.value, deadline);
    }
  }

  /** Everything that has to be in order before the submitter is called. */
  ghost predicate MayBeSubmitted(cfg: Config, s: Sys, m: Message, t: HandleScript) {
    exists r, timeoutSeconds, receivedAtMs, deadlineAtMs ::
      && IsEncoded(cfg, s, m, r, timeoutSeconds, t) && TimesAre(m, t, timeoutSeconds, receivedAtMs, deadlineAtMs)
      && t.driverBytes <= cfg.maxDriverBytes
  }

  lemma InOrderIsSubmitted(cfg: Config, s: Sys, m: Message, t: HandleScript)
    requires MayBeSubmitted(cfg, s, m, t)
    ensures SubmitSince(s, Handle(cfg, s, m, t).0)
  {
    var r, timeoutSeconds, receivedAtMs, deadlineAtMs :|
      && IsEncoded(cfg, s, m, r, timeoutSeconds, t) && TimesAre(m, t, timeoutSeconds, receivedAtMs, deadlineAtMs)
      && t.driverBytes <= cfg.maxDriverBytes;
    EncodedDeliveryIsAnswered(cfg, s, m, r, timeoutSeconds, t, receivedAtMs, deadlineAtMs);
    var e := TheEntry(cfg, m, r, receivedAtMs, deadlineAtMs, t);
    BeforeSecondCheckNothing(cfg, s, m, t);
    SubmitCalls(cfg, AtSecondCheck(cfg, s, m, t), m, e, t);
    var i :| |AtSecondCheck(cfg, s, m, t).trace| <= i < |Handle(cfg, s, m, t).0.trace|
             && Handle(cfg, s, m, t).0.trace[i].SubmitCalled?;
  }

  lemma BeforeSecondCheckNothing(cfg: Config, s: Sys, m: Message, t: HandleScript)
    ensures Unanswered(s, AtSecondCheck(cfg, s, m, t))
  {
    var g := cfg.setting.matcher;
    var s1, s2 := Gate(cfg, s, m, t).0, AtLookup(cfg, s, m, t);
    GateAnswersNothing(cfg, s, m, t);
    InterferenceAnswersNothing(g, s1, t.existing);
    UnansweredIsTransitive(s, s1, s2);
    InterferenceAnswersNothing(g, s2, t.secondGate.before);
    UnansweredIsTransitive(s, s2, AtSecondCheck(cfg, s, m, t));
  }

  /** The call is made after the others have acted, and everything put after it is this entry. */
  lemma SubmitCalls(cfg: Config, s: Sys, m: Message, e: ActiveSubmission, t: HandleScript)
    requires e.receivedAtMs.Some?
    ensures var s' := Submit(cfg, s, m, e, t).0;
            && SubmitSince(s, s') && s.trace <= s'.trace
            && forall i :: |s.trace| <= i < |s'.trace| && s'.trace[i].Put? ==> s'.trace[i].entry == e
  {
    var s1 := Interfere(cfg.setting.matcher, s, t.submit.before);
    InterferenceAnswersNothing(cfg.setting.matcher, s, t.submit.before);
    var md := MetadataOf(cfg.setting.entrypoint, e);
    CalledCalls(cfg, s1, m, e, md, t);
    var s' := Called(cfg, s1, m, e, md, t).0;
    assert s'.trace[|s1.trace|].SubmitCalled?;
    assert forall i :: |s.trace| <= i < |s1.trace| ==> s'.trace[i] == s1.trace[i];
  }

  lemma CalledCalls(cfg: Config, s1: Sys, m: Message, e: ActiveSubmission, md: Metadata, t: HandleScript)
    ensures var s' := Called(cfg, s1, m, e, md, t).0;
            && |s1.trace| < |s'.trace| && s1.trace <= s'.trace && s'.trace[|s1.trace|].SubmitCalled?
            && forall i :: |s1.trace| <= i < |s'.trace| && s'.trace[i].Put? ==> s'.trace[i].entry == e
  {
    var s2 := Note(s1, SubmitCalled(e.operationId, Tracked(s1, e.operationId)));
    var w := CreateJob(s2.world, e.SubmissionId(), md, t.rayJobId);
    var put := PutActive(s2.(world := w), e, FromCall(e.SubmissionId() !in s2.world.jobs));
    ConfirmationAnswersNothing(cfg, put, m, e, t.accepted);
    var s' := Called(cfg, s1, m, e, md, t).0;
    assert s2.trace <= s'.trace;
    assert s'.trace[|s1.trace|] == s2.trace[|s1.trace|];
    forall i | |s1.trace| <= i < |s'.trace| && s'.trace[i].Put? ensures s'.trace[i].entry == e {
      if i < |put.trace| {
        assert put.trace == s2.trace + [Last(put.trace)];
        assert s'.trace[i] == put.trace[i];
      }
    }
  }

  /** Whatever is not encoded is answered without the submitter. */
  lemma UnlessEncodedNothing(cfg: Config, s: Sys, m: Message, t: HandleScript)
    requires forall r, timeoutSeconds :: !IsEncoded(cfg, s, m, r, timeoutSeconds, t)
    ensures Unanswered(s, Handle(cfg, s, m, t).0)
  {
    if m.outerId == "" {
      InvalidAnswersNothing(cfg, s, m, "INVALID_OPERATION_ID", t);
    } else {
      var s1 := Gate(cfg, s, m, t).0;
      GateAnswersNothing(cfg, s, m, t);
      if Gate(cfg, s, m, t).1.None? {
        var v := Validate(cfg, m);
        if v.Valid? {
          ReadsExactlyTheValid(cfg, m, v.request, v.timeoutSeconds);
          StoppedProceedingNothing(cfg, s, m, v.request, v.timeoutSeconds, t);
        } else {
          InvalidAnswersNothing(cfg, s1, m, if v.Bad? then v.code else "", t);
        }
        UnansweredIsTransitive(s, s1, Handle(cfg, s, m, t).0);
      }
    }
  }

  lemma StoppedProceedingNothing(cfg: Config, s: Sys, m: Message, r: Request, timeoutSeconds: Option<real>,
                                 t: HandleScript)
    requires PassesGate(cfg, s, m, t) && Reads(cfg, m, r, timeoutSeconds)
    requires !IsEncoded(cfg, s, m, r, timeoutSeconds, t)
    ensures Unanswered(Gate(cfg, s, m, t).0, Proceed(cfg, Gate(cfg, s, m, t).0, m, r, timeoutSeconds, t).0)
  {
    var s1 := Gate(cfg, s, m, t).0;
    var s2 := Resume(cfg, s1, m, r, t).0;
    ResumeAnswersNothing(cfg, s1, m, r, t);
    SecondGateAnswersNothing(cfg, s2, m, r, t);
    UnansweredIsTransitive(s1, s2, SecondGate(cfg, s2, m, r, t).0);
  }

  lemma EncodedButNotInOrder(cfg: Config, s: Sys, m: Message, r: Request, timeoutSeconds: Option<real>, t: HandleScript)
    requires IsEncoded(cfg, s, m, r, timeoutSeconds, t) && !MayBeSubmitted(cfg, s, m, t)
    ensures Unanswered(s, Handle(cfg, s, m, t).0)
  {
    var s2 := AtSecondCheck(cfg, s, m, t);
    BeforeSecondCheckNothing(cfg, s, m, t);
    EncodedDeliveryIsAdmitted(cfg, s, m, r, timeoutSeconds, t);
    if receivedAtMs, deadlineAtMs :| TimesAre(m, t, timeoutSeconds, receivedAtMs, deadlineAtMs) {
      DeadlineIsCut(receivedAtMs, timeoutSeconds, deadlineAtMs);
      assert t.driverBytes > cfg.maxDriverBytes;
      InvalidAnswersNothing(cfg, s2, m, "DRIVER_INPUT_TOO_LARGE", t);
      UnansweredIsTransitive(s, s2, Handle(cfg, s, m, t).0);
    } else {
      UnusableTimesEscape(cfg, s, m, r, timeoutSeconds, t);
    }
  }

  /** Exactly which deliveries reach the submitter, under any interference: those that pass both checks for
      cancellation, whose envelope, payload, request and profile are in order, whose operation nothing
      tracks, whose times are usable and whose driver input fits. */
  lemma SubmittedExactlyWhenInOrder(cfg: Config, s: Sys, m: Message, t: HandleScript)
    ensures SubmitSince(s, Handle(cfg, s, m, t).0) <==> MayBeSubmitted(cfg, s, m, t)
  {
    if MayBeSubmitted(cfg, s, m, t) {
      InOrderIsSubmitted(cfg, s, m, t);
    } else if r, timeoutSeconds :| IsEncoded(cfg, s, m, r, timeoutSeconds, t) {
      EncodedButNotInOrder(cfg, s, m, r, timeoutSeconds, t);
    } else {
      UnlessEncodedNothing(cfg, s, m, t);
    }
  }

  /** What handling a delivery puts is the entry of its request: every field of it. */
  lemma PutIsTheEntryOfTheRequest(cfg: Config, s: Sys, m: Message, t: HandleScript, i: nat)
    requires |s.trace| <= i < |Handle(cfg, s, m, t).0.trace| && Handle(cfg, s, m, t).0.trace[i].Put?
    ensures exists r, timeoutSeconds, receivedAtMs, deadlineAtMs ::
              && IsEncoded(cfg, s, m, r, timeoutSeconds, t)
              && TimesAre(m, t, timeoutSeconds, receivedAtMs, deadlineAtMs)
              && t.driverBytes <= cfg.maxDriverBytes
              && Handle(cfg, s, m, t).0.trace[i].entry == TheEntry(cfg, m, r, receivedAtMs, deadlineAtMs, t)
  {
    if !MayBeSubmitted(cfg, s, m, t) {
      if r, timeoutSeconds :| IsEncoded(cfg, s, m, r, timeoutSeconds, t) {
        EncodedButNotInOrder(cfg, s, m, r, timeoutSeconds, t);
      } else {
        UnlessEncodedNothing(cfg, s, m, t);
      }
      assert false;
    }
    var r, timeoutSeconds, receivedAtMs, deadlineAtMs :|
      && IsEncoded(cfg, s, m, r, timeoutSeconds, t) && TimesAre(m, t, timeoutSeconds, receivedAtMs, deadlineAtMs)
      && t.driverBytes <= cfg.maxDriverBytes;
    EncodedDeliveryIsAnswered(cfg, s, m, r, timeoutSeconds, t, receivedAtMs, deadlineAtMs);
    var e, s2 := TheEntry(cfg, m, r, receivedAtMs, deadlineAtMs, t), AtSecondCheck(cfg, s, m, t);
    BeforeSecondCheckNothing(cfg, s, m, t);
    SubmitCalls(cfg, s2, m, e, t);
    assert forall k :: |s.trace| <= k < |s2.trace| ==> Handle(cfg, s, m, t).0.trace[k] == s2.trace[k];
  }

  /** What a submission is answered with: it is acknowledged exactly when the submitter and the publication
      of ACCEPTED both returned, and then ACCEPTED, with the new submission, is the newest event. */
  lemma SubmissionIsAnswered(cfg: Config, s: Sys, m: Message, e: ActiveSubmission, t: HandleScript)
    requires e.receivedAtMs.Some?
    ensures var (s', out) := Submit(cfg, s, m, e, t);
            var returned := t.submit.fault == Ok && MayReturn(Interfere(cfg.setting.matcher, s, t.submit.before).world,
                                                              e.SubmissionId(), MetadataOf(cfg.setting.entrypoint, e));
            && out == (if returned && t.accepted.fault == Ok then Ack(None) else Retry("RAY_ADMISSION_UNKNOWN"))
            && (returned && t.accepted.fault != RaiseBefore ==>
                  NewestEventIs(cfg, s'.world, m, e.operationId,
                                Event(Name("ACCEPTED"), Some(e.SubmissionId()), "", ByAdmission)))
  {
    var s1 := Interfere(cfg.setting.matcher, s, t.submit.before);
    CalledIsAnswered(cfg, s1, m, e, MetadataOf(cfg.setting.entrypoint, e), t);
  }

  lemma CalledIsAnswered(cfg: Config, s1: Sys, m: Message, e: ActiveSubmission, md: Metadata, t: HandleScript)
    ensures var (s', out) := Called(cfg, s1, m, e, md, t);
            var returned := t.submit.fault == Ok && MayReturn(s1.world, e.SubmissionId(), md);
            && out == (if returned && t.accepted.fault == Ok then Ack(None) else Retry("RAY_ADMISSION_UNKNOWN"))
            && (returned && t.accepted.fault != RaiseBefore ==>
                  NewestEventIs(cfg, s'.world, m, e.operationId,
                                Event(Name("ACCEPTED"), Some(e.SubmissionId()), "", ByAdmission)))
  {
  }
}
