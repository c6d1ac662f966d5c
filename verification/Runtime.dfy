/** The runtime object: admission of one delivery, its acknowledgement, and restart recovery, each
    method proved against the state transformer it carries out. */
module Runtime {
  import opened Wrappers
  import opened Domain
  import opened Lookback
  import opened World
  import opened Watcher
  import opened Protocol
  import opened Decimal
  import opened Jobs
  import opened Admission
  import opened Recovery
  import opened Provider

  class RedisBrokerRuntime {
    const cfg: Config
    const backend: Backend
    const activeSubmissions: ActiveSubmissionMap
    const cancelWatcher: CancelWatcher

    ghost predicate Valid()
      reads this, cancelWatcher, cancelWatcher.active
    {
      && cancelWatcher.Valid() && cancelWatcher.backend == backend
      && cancelWatcher.active == activeSubmissions && cancelWatcher.matcher == cfg.setting.matcher
    }

    ghost function State(): Sys
      reads this, cancelWatcher, backend, cancelWatcher.backend, cancelWatcher.active
    {
      cancelWatcher.State()
    }

    /** A process start over whatever Redis and Ray hold. */
    constructor (cfg: Config, backend: Backend)
      ensures Valid() && this.cfg == cfg && this.backend == backend
      ensures fresh(cancelWatcher) && fresh(activeSubmissions)
      ensures State() == Sys(backend.world, EMPTY_MEMORY, backend.trace)
    {
      var map_ := new ActiveSubmissionMap();
      var watcher := new CancelWatcher(backend, map_, cfg.setting.matcher);
      this.cfg, this.backend, this.activeSubmissions, this.cancelWatcher := cfg, backend, map_, watcher;
    }

    /** What the environment and the watcher thread do before the next call of this thread. */
    method OtherThreads(steps: seq<Step>)
      requires Valid()
      modifies backend, activeSubmissions, cancelWatcher
      ensures Valid() && State() == Interfere(cfg.setting.matcher, old(State()), steps)
    {
      ghost var began := State();
      var i := 0;
      while i < |steps|
        invariant Valid() && 0 <= i <= |steps|
        invariant State() == Interfere(cfg.setting.matcher, began, steps[..i])
      {
        OtherThreadStep(steps[i]);
        InterfereSnoc(cfg.setting.matcher, began, steps, i);
        i := i + 1;
      }
      assert steps[..i] == steps;
    }

    method OtherThreadStep(step: Step)
      requires Valid()
      modifies backend, activeSubmissions, cancelWatcher
      ensures Valid() && State() == Apply(cfg.setting.matcher, old(State()), step)
    {
      match step
      case Outside(env) =>
        backend.Environment([env]);
      case BeginPass(snapshot) =>
        if cancelWatcher.pass == [] && IsSnapshot(snapshot, activeSubmissions.items) {
          cancelWatcher.pass := snapshot;
        }
      case CheckNext(script) =>
        if cancelWatcher.pass != [] {
          cancelWatcher.CheckNextItem(script);
        }
    }

    /** `_invalid` */
    method RejectInvalid(m: Message, code: string, t: HandleScript) returns (outcome: Outcome)
      requires Valid()
      modifies backend, activeSubmissions, cancelWatcher
      ensures Valid() && (State(), outcome) == Invalid(cfg, old(State()), m, code, t)
    {
      OtherThreads(t.invalid.before);
      var operationId := if m.outerId != "" then m.outerId else "invalid-" + m.delivery.token;
      var key := cfg.setting.channels.For(m.delivery.operationType).EventKey(operationId);
      var returned := backend.Xadd(key, Event(Name("FAILED"), None, code, ByAdmission), t.invalid.fault);
      backend.Record(RejectionAttempted(m.delivery, operationId, code, t.invalid.fault));
      outcome := Ack(Some(code));
    }

    method ReportCancelled(m: Message, operationId: string, fault: Fault) returns (outcome: Outcome)
      requires Valid()
      modifies backend
      ensures Valid() && (State(), outcome) == PublishCancelled(cfg, old(State()), m, operationId, fault)
    {
      var key := cfg.setting.channels.For(m.delivery.operationType).EventKey(operationId);
      var returned := backend.Xadd(key, Event(Name("CANCELLED"), None, "", ByAdmission), fault);
      outcome := if returned then Ack(None) else Retry(CANCEL_CHECK_UNAVAILABLE);
    }

    /** The check of the cancel marker that precedes all parsing. */
    method CheckQueuedCancellation(m: Message, t: HandleScript) returns (outcome: Option<Outcome>)
      requires Valid()
      modifies backend, activeSubmissions, cancelWatcher
      ensures Valid() && (State(), outcome) == Gate(cfg, old(State()), m, t)
    {
      OtherThreads(t.gate.before);
      var channel := cfg.setting.channels.For(m.delivery.operationType);
      var marker := backend.Exists(channel.CancelKey(m.outerId), t.gate.fault);
      if marker.None? {
        return Some(Retry(CANCEL_CHECK_UNAVAILABLE));
      }
      if !marker.value {
        return None;
      }
      backend.Record(MarkerSeen(m.delivery));
      OtherThreads(t.gatePublish.before);
      var existing := activeSubmissions.Get(m.outerId);
      if existing.Some? {
        return Some(Ack(None));
      }
      var published := ReportCancelled(m, m.outerId, t.gatePublish.fault);
      return Some(published);
    }

    method PublishAccepted(m: Message, operationId: string, submissionId: string, fault: Fault,
                           code: string) returns (outcome: Outcome)
      requires Valid()
      modifies backend
      ensures Valid() && (State(), outcome) == Confirm(cfg, old(State()), m, operationId, submissionId, fault, code)
    {
      var key := cfg.setting.channels.For(m.delivery.operationType).EventKey(operationId);
      var returned := backend.Xadd(key, AcceptedEvent(submissionId), fault);
      if !returned {
        return Retry(code);
      }
      backend.Record(AcceptedReturned(m.delivery, operationId, submissionId));
      return Ack(None);
    }

    /** `_resume_existing_submission` */
    method ResumeExistingSubmission(m: Message, r: Request, t: HandleScript) returns (outcome: Option<Outcome>)
      requires Valid()
      modifies backend, activeSubmissions, cancelWatcher
      ensures Valid() && (State(), outcome) == Resume(cfg, old(State()), m, r, t)
    {
      OtherThreads(t.existing);
      var found := activeSubmissions.Get(r.operationId);
      if found.None? {
        return None;
      }
      var existing := found.value;
      if existing.operationType != m.delivery.operationType
         || existing.profile != r.profile
         || existing.runId != r.EffectiveRunId()
         || existing.submission.attemptId != r.attemptId
         || r.digest.None?
         || existing.submission.requestDigest.None?
         || existing.submission.requestDigest != r.digest
      {
        return Some(Retry("OPERATION_ALREADY_ACTIVE"));
      }
      OtherThreads(t.lookback.before);
      var published := cancelWatcher.TerminalEventPublished(existing, t.lookback.fault);
      if published == ScanRaised {
        return Some(Escaped);
      }
      if published == Found {
        cancelWatcher.RemoveItem(existing);
        backend.Record(TerminalSeen(m.delivery, existing.SubmissionId()));
        return Some(Ack(None));
      }
      OtherThreads(t.resume.before);
      var confirmed := PublishAccepted(m, r.operationId, existing.SubmissionId(), t.resume.fault,
                                       "RECOVERED_ADMISSION_UNCONFIRMED");
      return Some(confirmed);
    }

    method CheckCancellationBeforeAdmission(m: Message, r: Request, t: HandleScript) returns (outcome: Option<Outcome>)
      requires Valid()
      modifies backend, activeSubmissions, cancelWatcher
      ensures Valid() && (State(), outcome) == SecondGate(cfg, old(State()), m, r, t)
    {
      OtherThreads(t.secondGate.before);
      var channel := cfg.setting.channels.For(m.delivery.operationType);
      var marker := backend.Exists(channel.CancelKey(r.operationId), t.secondGate.fault);
      if marker.None? {
        return Some(Retry(CANCEL_CHECK_UNAVAILABLE));
      }
      if !marker.value {
        return None;
      }
      backend.Record(MarkerSeen(m.delivery));
      OtherThreads(t.cancelled.before);
      var published := ReportCancelled(m, r.operationId, t.cancelled.fault);
      return Some(published);
    }

    /** The `try` block around the submitter, the map and the ACCEPTED event. */
    method SubmitAndTrack(m: Message, e: ActiveSubmission, t: HandleScript) returns (outcome: Outcome)
      requires Valid() && e.receivedAtMs.Some?
      modifies backend, activeSubmissions, cancelWatcher
      ensures Valid() && (State(), outcome) == Submit(cfg, old(State()), m, e, t)
    {
      OtherThreads(t.submit.before);
      backend.Record(SubmitCalled(e.operationId, Tracked(State(), e.operationId)));
      var md := MetadataOf(cfg.setting.entrypoint, e);
      ghost var created := e.SubmissionId() !in backend.world.jobs;
      var returned := backend.SubmitJob(e.SubmissionId(), md, t.rayJobId, t.submit.fault);
      if !returned {
        return Retry(RAY_ADMISSION_UNKNOWN);
      }
      ghost var displaced := Tracked(State(), e.operationId);
      activeSubmissions.Put(e);
      backend.Record(Put(e, displaced, FromCall(created)));
      OtherThreads(t.accepted.before);
      outcome := PublishAccepted(m, e.operationId, e.SubmissionId(), t.accepted.fault, RAY_ADMISSION_UNKNOWN);
    }

    method AdmitRequest(m: Message, r: Request, timeoutSeconds: Option<real>,
                        t: HandleScript) returns (outcome: Outcome)
      requires Valid()
      modifies backend, activeSubmissions, cancelWatcher
      ensures Valid() && (State(), outcome) == Admit(cfg, old(State()), m, r, timeoutSeconds, t)
    {
      var received := if m.receivedAt == "" then Some(t.nowMs) else ParseInt(m.receivedAt);
      if received.None? {
        return Escaped;
      }
      var deadline := Deadline(received.value, timeoutSeconds);
      if Negative(received) || Negative(deadline) {
        return Escaped;
      }
      if t.driverBytes > cfg.maxDriverBytes {
        outcome := RejectInvalid(m, "DRIVER_INPUT_TOO_LARGE", t);
        return;
      }
      outcome := SubmitAndTrack(m, AdmittedEntry(cfg, m, r, received.value, deadline, t), t);
    }

    method HandleRequest(m: Message, r: Request, timeoutSeconds: Option<real>,
                         t: HandleScript) returns (outcome: Outcome)
      requires Valid()
      modifies backend, activeSubmissions, cancelWatcher
      ensures Valid() && (State(), outcome) == Proceed(cfg, old(State()), m, r, timeoutSeconds, t)
    {
      var resumed := ResumeExistingSubmission(m, r, t);
      if resumed.Some? {
        return resumed.value;
      }
      var cancelled := CheckCancellationBeforeAdmission(m, r, t);
      if cancelled.Some? {
        return cancelled.value;
      }
      outcome := AdmitRequest(m, r, timeoutSeconds, t);
    }

    method HandleDelivery(m: Message, t: HandleScript) returns (outcome: Outcome)
      requires Valid()
      modifies backend, activeSubmissions, cancelWatcher
      ensures Valid() && (State(), outcome) == Handle(cfg, old(State()), m, t)
    {
      if m.outerId == "" {
        outcome := RejectInvalid(m, "INVALID_OPERATION_ID", t);
        return;
      }
      var stopped := CheckQueuedCancellation(m, t);
      if stopped.Some? {
        return stopped.value;
      }
      match Validate(cfg, m)
      case ValidationEscaped =>
        outcome := Escaped;
      case Bad(code) =>
        outcome := RejectInvalid(m, code, t);
      case Valid(r, timeout) =>
        outcome := HandleRequest(m, r, timeout, t);
    }

    /** A delivery that Redis still holds, from `poll` to `_apply_outcome`. */
    method Process(m: Message, t: HandleScript, ack: Tick)
      requires Valid() && m.delivery !in backend.world.acked
      modifies backend, activeSubmissions, cancelWatcher
      ensures Valid() && State() == Deliver(cfg, old(State()), m, t, ack)
    {
      var outcome := HandleDelivery(m, t);
      if outcome.Ack? {
        OtherThreads(ack.before);
        ghost var before := State();
        var returned := backend.Xack(m.delivery, ack.fault);
        if ack.fault != RaiseBefore && m.delivery !in before.world.acked {
          backend.Record(XAcked(m.delivery, m.outerId));
        }
        assert m.delivery in before.world.acked ==> before.world.acked + {m.delivery} == before.world.acked;
      }
    }

    method RecoverOne(v: JobView, t: EnvTick) returns (raised: bool)
      requires Valid()
      modifies backend, activeSubmissions, cancelWatcher
      ensures Valid() && (State(), raised) == RecoverJob(cfg, old(State()), v, t)
    {
      var decoded := Eligible(cfg, v);
      if decoded.None? {
        return false;
      }
      var e := decoded.value;
      var tracked := activeSubmissions.Get(e.operationId);
      if tracked.Some? {
        return false;
      }
      activeSubmissions.Put(e);
      backend.Record(Put(e, None, FromListing));
      backend.Environment(t.before);
      var published := cancelWatcher.TerminalEventPublished(e, t.fault);
      if published == ScanRaised {
        return true;
      }
      if published == Found {
        cancelWatcher.RemoveItem(e);
      }
      return false;
    }

    /** `_recover_active_submissions`: the loop over the listed jobs, abandoned by a raised lookback. */
    method RecoverActiveSubmissions(listing: seq<Listed>) returns (raised: bool)
      requires Valid()
      modifies backend, activeSubmissions, cancelWatcher
      ensures Valid() && (State(), raised) == RecoverAll(cfg, old(State()), listing)
    {
      ghost var began := State();
      raised := false;
      var i := 0;
      while i < |listing| && !raised
        invariant Valid() && 0 <= i <= |listing|
        invariant (State(), raised) == RecoverAll(cfg, began, listing[..i])
      {
        raised := RecoverOne(listing[i].view, listing[i].tick);
        assert listing[..i + 1][..i] == listing[..i];
        i := i + 1;
      }
      RaisedStays(cfg, began, listing, i);
    }
  }

  /** Once a lookback raised, the rest of the listing is not looked at. */
  lemma {:induction false} RaisedStays(cfg: Config, s: Sys, listing: seq<Listed>, i: nat)
    requires i <= |listing| && (i == |listing| || RecoverAll(cfg, s, listing[..i]).1)
    ensures RecoverAll(cfg, s, listing) == RecoverAll(cfg, s, listing[..i])
    decreases |listing|
  {
    if i == |listing| {
      assert listing[..i] == listing;
    } else {
      var front := listing[..|listing| - 1];
      assert front[..i] == listing[..i];
      RaisedStays(cfg, s, front, i);
    }
  }
}
