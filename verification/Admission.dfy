/** The consumer thread's handling of one delivery, as a state transformer. Before each external call
    the environment and the watcher may act, and each call may raise before or after its effect. */
module Admission {
  import opened Wrappers
  import opened Domain
  import opened Lookback
  import opened World
  import opened Watcher
  import opened Protocol
  import opened Decimal
  import opened Jobs

  datatype Request = Request(operationId: string, profile: ExecutionProfile, runId: Option<string>,
                             attemptId: string, digest: Option<string>)
  {
    /** `request.run_id or request.operation_id` */
    function EffectiveRunId(): string {
      if runId.Some? && runId.value != "" then runId.value else operationId
    }
  }

  datatype Parsed = ParsedRequest(request: Request) | ProtocolFailure(code: string) | ParserRaised

  datatype Prepared = PreparedOperation(timeoutSeconds: Option<real>) | MappingFailure(code: string) | PreparerRaised

  /** The parser and the preparer are arbitrary functions, as they are constructor arguments. */
  datatype Config = Config(setting: Setting,
                           parser: (string, string, OperationType) -> Parsed,
                           enabled: (OperationType, ExecutionProfile) -> bool,
                           preparer: Request -> Prepared, maxDriverBytes: nat)

  datatype Message = Message(delivery: Delivery, outerId: string, encodingError: bool, envelopeError: bool,
                             payloadError: bool, raw: Option<string>, receivedAt: string)

  /** The outcome handed to `_apply_outcome`; Escaped is an exception that leaves `handle`. */
  datatype Outcome = Ack(error: Option<string>) | Retry(code: string) | Escaped

  datatype HandleScript = HandleScript(
    invalid: Tick, gate: Tick, gatePublish: Tick, existing: seq<Step>, lookback: Tick, resume: Tick, secondGate: Tick,
    cancelled: Tick, nowMs: int, driverBytes: nat, submit: Tick, submissionId: string,
    rayJobId: Option<string>, accepted: Tick)

  function ChannelOf(cfg: Config, m: Message): Channel {
    cfg.setting.channels.For(m.delivery.operationType)
  }

  /** `_invalid`: one attempt to publish FAILED, then ACK whatever became of it. */
  function Invalid(cfg: Config, s: Sys, m: Message, code: string, t: HandleScript): (Sys, Outcome) {
    var s1 := Interfere(cfg.setting.matcher, s, t.invalid.before);
    var operationId := ReportedId(m.delivery, m.outerId);
    var reported := Publish(s1.world, ChannelOf(cfg, m).EventKey(operationId), RejectionEvent(code), t.invalid.fault);
    (Note(s1.(world := reported), RejectionAttempted(m.delivery, operationId, code, t.invalid.fault)), Ack(Some(code)))
  }

  const CANCEL_CHECK_UNAVAILABLE := "CANCEL_CHECK_UNAVAILABLE"

  function PublishCancelled(cfg: Config, s: Sys, m: Message, operationId: string, fault: Fault): (Sys, Outcome) {
    var event := Event(Name("CANCELLED"), None, "", ByAdmission);
    (s.(world := Publish(s.world, ChannelOf(cfg, m).EventKey(operationId), event, fault)),
     if fault == Ok then Ack(None) else Retry(CANCEL_CHECK_UNAVAILABLE))
  }

  /** The envelope-level cancellation check, before anything is parsed. */
  function Gate(cfg: Config, s: Sys, m: Message, t: HandleScript): (Sys, Option<Outcome>) {
    var s1 := Interfere(cfg.setting.matcher, s, t.gate.before);
    if t.gate.fault != Ok then (s1, Some(Retry(CANCEL_CHECK_UNAVAILABLE)))
    else if ChannelOf(cfg, m).CancelKey(m.outerId) !in s1.world.markers then (s1, None)
    else
      var s2 := Interfere(cfg.setting.matcher, Note(s1, MarkerSeen(m.delivery)), t.gatePublish.before);
      if Tracked(s2, m.outerId).Some? then (s2, Some(Ack(None)))
      else
        var (s3, out) := PublishCancelled(cfg, s2, m, m.outerId, t.gatePublish.fault);
        (s3, Some(out))
  }

  predicate SameIdentity(e: ActiveSubmission, r: Request, t: OperationType) {
    && e.operationType == t && e.profile == r.profile && e.runId == r.EffectiveRunId()
    && e.submission.attemptId == r.attemptId
    && r.digest.Some? && e.submission.requestDigest == r.digest
  }

  /** The ACCEPTED publication and the outcome that follows from it. */
  function Confirm(cfg: Config, s: Sys, m: Message, operationId: string, submissionId: string, fault: Fault,
                   code: string): (Sys, Outcome) {
    var s1 := s.(world := Publish(s.world, ChannelOf(cfg, m).EventKey(operationId), AcceptedEvent(submissionId),
        fault));
    if fault == Ok then (Note(s1, AcceptedReturned(m.delivery, operationId, submissionId)), Ack(None))
    else (s1, Retry(code))
  }

  /** What resuming does with an entry of the same identity; the lookback is outside any `try`. */
  function ResumeTracked(cfg: Config, s: Sys, m: Message, r: Request, e: ActiveSubmission,
                         t: HandleScript): (Sys, Outcome) {
    var s1 := Interfere(cfg.setting.matcher, s, t.lookback.before);
    if t.lookback.fault != Ok then (s1, Escaped)
    else
      match BoundedScan(cfg.setting.matcher, StreamAt(s1.world, e.EventKey()), e)
      case ScanRaised => (s1, Escaped)
      case Found => (Note(RemoveActive(s1, e), TerminalSeen(m.delivery, e.SubmissionId())), Ack(None))
      case NotFound =>
        var s2 := Interfere(cfg.setting.matcher, s1, t.resume.before);
        Confirm(cfg, s2, m, r.operationId, e.SubmissionId(), t.resume.fault, "RECOVERED_ADMISSION_UNCONFIRMED")
  }

  /** `_resume_existing_submission`; other threads may act before the map is read. */
  function Resume(cfg: Config, before: Sys, m: Message, r: Request, t: HandleScript): (Sys, Option<Outcome>) {
    var s := Interfere(cfg.setting.matcher, before, t.existing);
    match Tracked(s, r.operationId)
    case None => (s, None)
    case Some(e) =>
      if !SameIdentity(e, r, m.delivery.operationType) then (s, Some(Retry("OPERATION_ALREADY_ACTIVE")))
      else
        var (s', out) := ResumeTracked(cfg, s, m, r, e, t);
        (s', Some(out))
  }

  function SecondGate(cfg: Config, s: Sys, m: Message, r: Request, t: HandleScript): (Sys, Option<Outcome>) {
    var s1 := Interfere(cfg.setting.matcher, s, t.secondGate.before);
    if t.secondGate.fault != Ok then (s1, Some(Retry(CANCEL_CHECK_UNAVAILABLE)))
    else if ChannelOf(cfg, m).CancelKey(r.operationId) !in s1.world.markers then (s1, None)
    else
      var s2 := Interfere(cfg.setting.matcher, Note(s1, MarkerSeen(m.delivery)), t.cancelled.before);
      var (s3, out) := PublishCancelled(cfg, s2, m, r.operationId, t.cancelled.fault);
      (s3, Some(out))
  }

  /** `int(x)` of a number: truncation toward zero. */
  function Truncate(x: real): int {
    if x >= 0.0 then x.Floor else -((-x).Floor)
  }

  function Deadline(receivedAtMs: int, timeoutSeconds: Option<real>): Option<int> {
    if timeoutSeconds.None? then None else Some(receivedAtMs + Truncate(timeoutSeconds.value * 1000.0))
  }

  predicate Negative(n: Option<int>) {
    n.Some? && n.value < 0
  }

  /** The submitter's contract: an existing job is taken over only if everything but its times agrees. */
  predicate MayReturn(w: World, submissionId: string, md: Metadata) {
    submissionId in w.jobs ==>
      && w.jobs[submissionId].metadata.Some?
      && w.jobs[submissionId].metadata.value - {ReceivedAtKey, DeadlineKey} == md - {ReceivedAtKey, DeadlineKey}
  }

  function CreateJob(w: World, submissionId: string, md: Metadata, rayJobId: Option<string>): World {
    if submissionId in w.jobs then w else w.(jobs := w.jobs[submissionId := Job(Some(md), rayJobId, Pending)])
  }

  function AdmittedEntry(cfg: Config, m: Message, r: Request, receivedAtMs: int, deadlineAtMs: Option<int>,
                         t: HandleScript): ActiveSubmission {
    ActiveSubmission(r.operationId, m.delivery.operationType, r.profile, r.EffectiveRunId(), ChannelOf(cfg, m),
                     Submission(r.EffectiveRunId(), r.attemptId, t.submissionId, t.rayJobId, r.digest),
                     Some(receivedAtMs), deadlineAtMs)
  }

  const RAY_ADMISSION_UNKNOWN := "RAY_ADMISSION_UNKNOWN"

  function Submit(cfg: Config, s: Sys, m: Message, e: ActiveSubmission, t: HandleScript): (Sys, Outcome)
    requires e.receivedAtMs.Some?
  {
    Called(cfg, Interfere(cfg.setting.matcher, s, t.submit.before), m, e, MetadataOf(cfg.setting.entrypoint, e), t)
  }

  /** The submitter call and what follows it. */
  function Called(cfg: Config, s1: Sys, m: Message, e: ActiveSubmission, md: Metadata,
                  t: HandleScript): (Sys, Outcome) {
    var s2 := Note(s1, SubmitCalled(e.operationId, Tracked(s1, e.operationId)));
    if t.submit.fault == RaiseBefore || !MayReturn(s2.world, e.SubmissionId(), md)
        then (s2, Retry(RAY_ADMISSION_UNKNOWN))
    else
      var s3 := s2.(world := CreateJob(s2.world, e.SubmissionId(), md, t.rayJobId));
      if t.submit.fault == RaiseAfter then (s3, Retry(RAY_ADMISSION_UNKNOWN))
      else
        var created := e.SubmissionId() !in s2.world.jobs;
        var s4 := Interfere(cfg.setting.matcher, PutActive(s3, e, FromCall(created)), t.accepted.before);
        Confirm(cfg, s4, m, e.operationId, e.SubmissionId(), t.accepted.fault, RAY_ADMISSION_UNKNOWN)
  }

  /** Times, driver-input validation and size check, then submission. */
  function Admit(cfg: Config, s: Sys, m: Message, r: Request, timeoutSeconds: Option<real>,
                 t: HandleScript): (Sys, Outcome) {
    var received := if m.receivedAt == "" then Some(t.nowMs) else ParseInt(m.receivedAt);
    if received.None? then (s, Escaped)
    else
      var deadline := Deadline(received.value, timeoutSeconds);
      if Negative(received) || Negative(deadline) then (s, Escaped)
      else if t.driverBytes > cfg.maxDriverBytes then Invalid(cfg, s, m, "DRIVER_INPUT_TOO_LARGE", t)
      else Submit(cfg, s, m, AdmittedEntry(cfg, m, r, received.value, deadline, t), t)
  }

  /** Everything after a request was parsed and prepared. */
  function Proceed(cfg: Config, s: Sys, m: Message, r: Request, timeoutSeconds: Option<real>,
                   t: HandleScript): (Sys, Outcome) {
    var (s1, resumed) := Resume(cfg, s, m, r, t);
    if resumed.Some? then (s1, resumed.value)
    else
      var (s2, cancelled) := SecondGate(cfg, s1, m, r, t);
      if cancelled.Some? then (s2, cancelled.value) else Admit(cfg, s2, m, r, timeoutSeconds, t)
  }

  datatype Validation = Valid(request: Request, timeoutSeconds: Option<real>) | Bad(code: string) | ValidationEscaped

  /** Envelope errors, parser, enabled profiles and preparer, in the order they are checked. */
  function Validate(cfg: Config, m: Message): Validation {
    if m.encodingError then Bad("INVALID_PAYLOAD")
    else if m.envelopeError then Bad("INVALID_ENVELOPE")
    else if m.payloadError then Bad("PAYLOAD_TOO_LARGE")
    else if m.raw.None? then Bad("INVALID_REQUEST")
    else
      match cfg.parser(m.raw.value, m.outerId, m.delivery.operationType)
      case ParserRaised => ValidationEscaped
      case ProtocolFailure(code) => Bad(code)
      case ParsedRequest(r) =>
        if !cfg.enabled(m.delivery.operationType, r.profile) then Bad("UNSUPPORTED_EXECUTION_PROFILE")
        else
          match cfg.preparer(r)
          case PreparerRaised => ValidationEscaped
          case MappingFailure(code) => Bad(code)
          case PreparedOperation(timeout) => Valid(r, timeout)
  }

  function Handle(cfg: Config, s: Sys, m: Message, t: HandleScript): (Sys, Outcome) {
    if m.outerId == "" then Invalid(cfg, s, m, "INVALID_OPERATION_ID", t)
    else
      var (s1, stopped) := Gate(cfg, s, m, t);
      if stopped.Some? then (s1, stopped.value) else AfterGate(cfg, s1, m, t)
  }

  function AfterGate(cfg: Config, s: Sys, m: Message, t: HandleScript): (Sys, Outcome) {
    AfterValidation(cfg, s, m, Validate(cfg, m), t)
  }

  function AfterValidation(cfg: Config, s: Sys, m: Message, v: Validation, t: HandleScript): (Sys, Outcome) {
    match v
    case ValidationEscaped => (s, Escaped)
    case Bad(code) => Invalid(cfg, s, m, code, t)
    case Valid(r, timeout) => Proceed(cfg, s, m, r, timeout, t)
  }

  /** XACK of a delivery; acknowledging twice changes nothing. */
  function AckDelivery(s: Sys, m: Message): Sys {
    if m.delivery in s.world.acked then s
    else Note(s.(world := s.world.(acked := s.world.acked + {m.delivery})), XAcked(m.delivery, m.outerId))
  }

  /** One delivery from `poll` to `_apply_outcome`. Redis never delivers an acknowledged entry. */
  function Deliver(cfg: Config, s: Sys, m: Message, t: HandleScript, ack: Tick): Sys {
    if m.delivery in s.world.acked then s
    else
      var (s1, out) := Handle(cfg, s, m, t);
      if !out.Ack? then s1
      else
        var s2 := Interfere(cfg.setting.matcher, s1, ack.before);
        if ack.fault == RaiseBefore then s2 else AckDelivery(s2, m)
  }

  /** What `parse_request` guarantees of every request it returns: the payload identity is the
      envelope's. */
  ghost predicate Aligned(cfg: Config) {
    forall raw, id, t :: cfg.parser(raw, id, t).ParsedRequest? ==> cfg.parser(raw, id, t).request.operationId == id
  }
}
