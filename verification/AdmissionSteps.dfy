/** The handling of a delivery refines the guarded atomic steps, and whatever it acknowledges is
    supported. */
module AdmissionSteps {
  import opened Wrappers
  import opened Domain
  import opened Lookback
  import opened World
  import opened Watcher
  import opened Protocol
  import opened WatcherSteps
  import opened Safety
  import opened Jobs
  import opened Admission

  /** No entry appears or changes. */
  ghost predicate OnlyRemoves(s: Sys, s': Sys) {
    forall op :: op in s'.mem.active ==> op in s.mem.active && s'.mem.active[op] == s.mem.active[op]
  }

  lemma CheckItemOnlyRemoves(m: Matcher, s: Sys, x: ActiveSubmission, t: ItemScript)
    ensures OnlyRemoves(s, CheckItem(m, s, x, t))
  {
    var (s1, scan) := LookAt(m, s, x, t.lookback);
    assert s1.mem == s.mem;
    if scan.NotFound? {
      var s2 := Env(s1, t.status.before);
      if t.status.fault == Ok && x.SubmissionId() in s2.world.jobs {
        ActOnStatusOnlyRemoves(s2, x, s2.world.jobs[x.SubmissionId()].status, t);
      }
    }
  }

  lemma ActOnStatusOnlyRemoves(s: Sys, x: ActiveSubmission, status: RayStatus, t: ItemScript)
    ensures OnlyRemoves(s, ActOnStatus(s, x, status, t))
  {
    var s1 := Env(s, t.marker.before);
    var present := x.CancelKey() in s1.world.markers;
    var deletions := Deletions(s1.world, x.CancelKey());
    var s2 := Env(Note(s1, MarkerRead(x, present, deletions)), t.effect.before);
    assert s1.mem == s.mem && s2.mem == s.mem;
    ReactionOnlyRemoves(s2, x, status, present, deletions, t.nowMs, t.effect.fault);
  }

  lemma ReactionOnlyRemoves(s: Sys, x: ActiveSubmission, status: RayStatus, present: bool, deletions: nat,
                            nowMs: int, fault: Fault)
    ensures OnlyRemoves(s, RequestStop(s, x, present, deletions, nowMs, fault))
    ensures OnlyRemoves(s, ReportFinal(s, x, status, present, nowMs, fault))
  {
  }

  lemma {:induction false} InterfereOnlyRemoves(m: Matcher, s: Sys, steps: seq<Step>)
    ensures OnlyRemoves(s, Interfere(m, s, steps))
  {
    if steps != [] {
      InterfereOnlyRemoves(m, s, steps[..|steps| - 1]);
      var front := Interfere(m, s, steps[..|steps| - 1]);
      var step := steps[|steps| - 1];
      if step.CheckNext? && front.mem.pass != [] {
        CheckItemOnlyRemoves(m, front.(mem := front.mem.(pass := front.mem.pass[1..])), front.mem.pass[0], step.script);
      }
    }
  }

  lemma PublishSteps(g: Setting, s: Sys, key: string, e: Entry, fault: Fault)
    requires !FromWatcher(e)
    ensures Steps(g, s, s.(world := Publish(s.world, key, e, fault)))
  {
    var s' := s.(world := Publish(s.world, key, e, fault));
    AppendExtends(s.world, key, e);
    assert SilentNext(s, s');
    StepsOnce(g, s, s');
  }

  lemma NoteSteps(g: Setting, s: Sys, o: Obs)
    requires ObsNext(g, s, Note(s, o), o)
    ensures Steps(g, s, Note(s, o))
  {
    StepsReflexive(g, s);
    StepsThenNote(g, s, s, Note(s, o), o);
  }

  lemma InvalidSteps(cfg: Config, s: Sys, m: Message, code: string, t: HandleScript)
    ensures var (s', out) := Invalid(cfg, s, m, code, t);
            && Steps(cfg.setting, s, s')
            && WasRejected(cfg.setting.channels, s'.world, s'.trace, m.delivery, m.outerId)
  {
    var g := cfg.setting;
    var s1 := Interfere(g.matcher, s, t.invalid.before);
    var (s', out) := Invalid(cfg, s, m, code, t);
    InterfereSteps(g, s, t.invalid.before);
    var o := RejectionAttempted(m.delivery, ReportedId(m.delivery, m.outerId), code, t.invalid.fault);
    assert s'.trace == s1.trace + [o];
    StepsThenNote(g, s, s1, s', o);
    NewNoteIsPublished(g, s1, s', o);
    assert RejectedAt(g.channels, s'.world, s'.trace[|s'.trace| - 1], m.delivery, m.outerId);
  }

  lemma PublishCancelledSteps(cfg: Config, s: Sys, m: Message, operationId: string, fault: Fault)
    ensures var (s', out) := PublishCancelled(cfg, s, m, operationId, fault);
            && Steps(cfg.setting, s, s')
            && (out.Ack? ==> CancelledIn(s'.world, ChannelOf(cfg, m).EventKey(operationId)))
  {
    var key := ChannelOf(cfg, m).EventKey(operationId);
    var event := Event(Name("CANCELLED"), None, "", ByAdmission);
    PublishSteps(cfg.setting, s, key, event, fault);
    if fault == Ok {
      var h := StreamAt(Publish(s.world, key, event, fault), key).history;
      assert IsCancelled(h[|h| - 1]);
    }
  }

  /** When the gate acknowledges, there is a job for the operation or a CANCELLED event. */
  lemma GateSteps(cfg: Config, s: Sys, m: Message, t: HandleScript)
    requires Safe(cfg.setting, s)
    ensures var (s', out) := Gate(cfg, s, m, t);
            && Steps(cfg.setting, s, s')
            && (out.Some? && out.value.Ack? ==>
                Supported(cfg.setting.channels, s'.world, s'.trace, m.delivery, m.outerId))
  {
    var g := cfg.setting;
    var s1 := Interfere(g.matcher, s, t.gate.before);
    InterfereSteps(g, s, t.gate.before);
    if t.gate.fault == Ok && ChannelOf(cfg, m).CancelKey(m.outerId) in s1.world.markers {
      var seen := Note(s1, MarkerSeen(m.delivery));
      NoteSteps(g, s1, MarkerSeen(m.delivery));
      StepsTransitive(g, s, s1, seen);
      var s2 := Interfere(g.matcher, seen, t.gatePublish.before);
      InterfereSteps(g, seen, t.gatePublish.before);
      StepsTransitive(g, s, seen, s2);
      if Tracked(s2, m.outerId).Some? {
        StepsAreSafe(g, s, s2);
        TrackedGivesJob(g, s2, m.outerId);
      } else {
        PublishCancelledSteps(cfg, s2, m, m.outerId, t.gatePublish.fault);
        StepsTransitive(g, s, s2, Gate(cfg, s, m, t).0);
      }
    }
  }

  lemma TrackedGivesJob(g: Setting, s: Sys, operationId: string)
    requires Safe(g, s) && Tracked(s, operationId).Some?
    ensures HasJob(s.world, operationId)
  {
    var sid := s.mem.active[operationId].SubmissionId();
    assert sid in s.world.jobs && Carries(s.world.jobs[sid], operationId);
  }

  lemma JobStays(g: Setting, s: Sys, s': Sys, operationId: string)
    requires Steps(g, s, s') && HasJob(s.world, operationId)
    ensures HasJob(s'.world, operationId)
  {
    StepsAreSafe(g, s, s');
    var sid :| sid in s.world.jobs && Carries(s.world.jobs[sid], operationId);
    assert sid in s'.world.jobs && Carries(s'.world.jobs[sid], operationId);
  }

  lemma ConfirmSteps(cfg: Config, s: Sys, m: Message, operationId: string, sid: string, fault: Fault, code: string)
    ensures Steps(cfg.setting, s, Confirm(cfg, s, m, operationId, sid, fault, code).0)
  {
    var s' := Confirm(cfg, s, m, operationId, sid, fault, code).0;
    if fault == Ok {
      StepsReflexive(cfg.setting, s);
      StepsThenNote(cfg.setting, s, s, s', AcceptedReturned(m.delivery, operationId, sid));
    } else {
      PublishSteps(cfg.setting, s, ChannelOf(cfg, m).EventKey(operationId), AcceptedEvent(sid), fault);
    }
  }

  /** Resuming never submits; it acknowledges only with a job behind it, and steps aside only when
      the operation is not tracked. */
  lemma ResumeSteps(cfg: Config, before: Sys, m: Message, r: Request, t: HandleScript)
    requires Safe(cfg.setting, before)
    ensures var (s', out) := Resume(cfg, before, m, r, t);
            && Steps(cfg.setting, before, s')
            && (out.None? ==> OnlyRemoves(before, s') && Tracked(s', r.operationId).None?)
            && (out.Some? && out.value.Ack? ==> HasJob(s'.world, r.operationId))
  {
    var g := cfg.setting;
    var s := Interfere(g.matcher, before, t.existing);
    InterfereSteps(g, before, t.existing);
    InterfereOnlyRemoves(g.matcher, before, t.existing);
    StepsAreSafe(g, before, s);
    var (s', out) := Resume(cfg, before, m, r, t);
    if Tracked(s, r.operationId).Some? && SameIdentity(Tracked(s, r.operationId).value, r, m.delivery.operationType) {
      ResumeTrackedSteps(cfg, s, m, r, Tracked(s, r.operationId).value, t);
      StepsTransitive(g, before, s, s');
    }
  }

  lemma ResumeTrackedSteps(cfg: Config, s: Sys, m: Message, r: Request, e: ActiveSubmission, t: HandleScript)
    requires Safe(cfg.setting, s) && Tracked(s, r.operationId) == Some(e)
    ensures var (s', out) := ResumeTracked(cfg, s, m, r, e, t);
            Steps(cfg.setting, s, s') && HasJob(s'.world, r.operationId)
  {
    var g := cfg.setting;
    var (s', out) := ResumeTracked(cfg, s, m, r, e, t);
    TrackedGivesJob(g, s, r.operationId);
    var s1 := Interfere(g.matcher, s, t.lookback.before);
    InterfereSteps(g, s, t.lookback.before);
    if t.lookback.fault == Ok {
      var scan := BoundedScan(g.matcher, StreamAt(s1.world, e.EventKey()), e);
      if scan.Found? {
        BoundedScanIsSound(g.matcher, StreamAt(s1.world, e.EventKey()), e);
        var s2 := RemoveActive(s1, e);
        RemoveSteps(g, s1, e);
        StepsTransitive(g, s, s1, s2);
        NoteSteps(g, s2, TerminalSeen(m.delivery, e.SubmissionId()));
        StepsTransitive(g, s, s2, s');
      } else if scan.NotFound? {
        var s2 := Interfere(g.matcher, s1, t.resume.before);
        InterfereSteps(g, s1, t.resume.before);
        StepsTransitive(g, s, s1, s2);
        ConfirmSteps(cfg, s2, m, r.operationId, e.SubmissionId(), t.resume.fault, "RECOVERED_ADMISSION_UNCONFIRMED");
        StepsTransitive(g, s, s2, s');
      }
    }
    JobStays(g, s, s', r.operationId);
  }

  lemma SecondGateSteps(cfg: Config, s: Sys, m: Message, r: Request, t: HandleScript)
    ensures var (s', out) := SecondGate(cfg, s, m, r, t);
            && Steps(cfg.setting, s, s')
            && (out.None? ==> OnlyRemoves(s, s'))
            && (out.Some? && out.value.Ack? ==> CancelledIn(s'.world, ChannelOf(cfg, m).EventKey(r.operationId)))
  {
    var g := cfg.setting;
    var s1 := Interfere(g.matcher, s, t.secondGate.before);
    InterfereSteps(g, s, t.secondGate.before);
    InterfereOnlyRemoves(g.matcher, s, t.secondGate.before);
    if t.secondGate.fault == Ok && ChannelOf(cfg, m).CancelKey(r.operationId) in s1.world.markers {
      var seen := Note(s1, MarkerSeen(m.delivery));
      NoteSteps(g, s1, MarkerSeen(m.delivery));
      StepsTransitive(g, s, s1, seen);
      var s2 := Interfere(g.matcher, seen, t.cancelled.before);
      InterfereSteps(g, seen, t.cancelled.before);
      StepsTransitive(g, s, seen, s2);
      PublishCancelledSteps(cfg, s2, m, r.operationId, t.cancelled.fault);
      StepsTransitive(g, s, s2, SecondGate(cfg, s, m, r, t).0);
    }
  }

  lemma CreateJobExtends(w: World, e: ActiveSubmission, md: Metadata, rayJobId: Option<string>)
    requires MayReturn(w, e.SubmissionId(), md)
    requires OperationIdKey in md && md[OperationIdKey] == Text(e.operationId)
    ensures var w' := CreateJob(w, e.SubmissionId(), md, rayJobId);
            Extends(w, w') && e.SubmissionId() in w'.jobs && Carries(w'.jobs[e.SubmissionId()], e.operationId)
  {
    if e.SubmissionId() in w.jobs {
      var md0 := w.jobs[e.SubmissionId()].metadata.value;
      assert OperationIdKey in md - {ReceivedAtKey, DeadlineKey};
      assert (md0 - {ReceivedAtKey, DeadlineKey})[OperationIdKey] == md0[OperationIdKey];
    }
  }

  /** Once the job exists: the entry is put, and ACCEPTED is published. */
  lemma SubmittedSteps(cfg: Config, s: Sys, m: Message, e: ActiveSubmission, origin: Origin, accepted: Tick)
    requires BackedBy(cfg.setting, s.world, e, origin)
    requires Tracked(s, e.operationId).None? && e.SubmissionId() in s.world.jobs
             && Carries(s.world.jobs[e.SubmissionId()], e.operationId)
    ensures var s4 := Interfere(cfg.setting.matcher, PutActive(s, e, origin), accepted.before);
            var s' := Confirm(cfg, s4, m, e.operationId, e.SubmissionId(), accepted.fault, RAY_ADMISSION_UNKNOWN).0;
            Steps(cfg.setting, s, s') && HasJob(s'.world, e.operationId)
  {
    var g := cfg.setting;
    var put := PutActive(s, e, origin);
    StepsReflexive(g, s);
    StepsThenNote(g, s, s, put, Put(e, None, origin));
    var s4 := Interfere(g.matcher, put, accepted.before);
    InterfereSteps(g, put, accepted.before);
    StepsTransitive(g, s, put, s4);
    var s' := Confirm(cfg, s4, m, e.operationId, e.SubmissionId(), accepted.fault, RAY_ADMISSION_UNKNOWN).0;
    ConfirmSteps(cfg, s4, m, e.operationId, e.SubmissionId(), accepted.fault, RAY_ADMISSION_UNKNOWN);
    StepsTransitive(g, s, s4, s');
    assert HasJob(s.world, e.operationId);
    JobStays(g, s, s', e.operationId);
  }

  /** The submitter is called on an operation that is not tracked, and may leave a job. */
  lemma CallSteps(cfg: Config, s1: Sys, e: ActiveSubmission, md: Metadata, rayJobId: Option<string>)
    requires OperationIdKey in md && md[OperationIdKey] == Text(e.operationId) && Tracked(s1, e.operationId).None?
    ensures var s2 := Note(s1, SubmitCalled(e.operationId, Tracked(s1, e.operationId)));
            && Steps(cfg.setting, s1, s2)
            && (MayReturn(s2.world, e.SubmissionId(), md) ==>
                  var s3 := s2.(world := CreateJob(s2.world, e.SubmissionId(), md, rayJobId));
                  && Steps(cfg.setting, s1, s3)
                  && (e.SubmissionId() !in s2.world.jobs ==> JobCarries(s3.world, e.SubmissionId(), md))
                  && e.SubmissionId() in s3.world.jobs && Carries(s3.world.jobs[e.SubmissionId()], e.operationId))
  {
    var g := cfg.setting;
    var s2 := Note(s1, SubmitCalled(e.operationId, None));
    NoteSteps(g, s1, SubmitCalled(e.operationId, None));
    if MayReturn(s2.world, e.SubmissionId(), md) {
      var s3 := s2.(world := CreateJob(s2.world, e.SubmissionId(), md, rayJobId));
      CreateJobExtends(s2.world, e, md, rayJobId);
      assert SilentNext(s2, s3);
      StepsThen(g, s1, s2, s3);
    }
  }

  lemma MetadataNameOperation(entrypoint: string, e: ActiveSubmission)
    requires e.receivedAtMs.Some?
    ensures var md := MetadataOf(entrypoint, e);
            OperationIdKey in md && md[OperationIdKey] == Text(e.operationId)
  {
  }

  lemma CalledSteps(cfg: Config, s1: Sys, m: Message, e: ActiveSubmission, md: Metadata, t: HandleScript)
    requires Admissible(cfg.setting.channels, e) && Tracked(s1, e.operationId).None?
    requires OperationIdKey in md && md[OperationIdKey] == Text(e.operationId)
    requires forall w :: JobCarries(w, e.SubmissionId(), md) ==> BackedBy(cfg.setting, w, e, FromCall(true))
    ensures var (s', out) := Called(cfg, s1, m, e, md, t);
            Steps(cfg.setting, s1, s') && (out.Ack? ==> HasJob(s'.world, e.operationId))
  {
    CallSteps(cfg, s1, e, md, t.rayJobId);
    var s2 := Note(s1, SubmitCalled(e.operationId, Tracked(s1, e.operationId)));
    if t.submit.fault == Ok && MayReturn(s2.world, e.SubmissionId(), md) {
      var s3 := s2.(world := CreateJob(s2.world, e.SubmissionId(), md, t.rayJobId));
      var origin := FromCall(e.SubmissionId() !in s2.world.jobs);
      assert BackedBy(cfg.setting, s3.world, e, origin);
      SubmittedSteps(cfg, s3, m, e, origin, t.accepted);
      StepsTransitive(cfg.setting, s1, s3, Called(cfg, s1, m, e, md, t).0);
    }
  }

  /** Submitting an operation that is not tracked calls the submitter once and puts at most one entry,
      on an absent key and with a job behind it. */
  lemma SubmitSteps(cfg: Config, s: Sys, m: Message, e: ActiveSubmission, t: HandleScript)
    requires Admissible(cfg.setting.channels, e) && Tracked(s, e.operationId).None?
    ensures var (s', out) := Submit(cfg, s, m, e, t);
            Steps(cfg.setting, s, s') && (out.Ack? ==> HasJob(s'.world, e.operationId))
  {
    var s1 := Interfere(cfg.setting.matcher, s, t.submit.before);
    InterfereSteps(cfg.setting, s, t.submit.before);
    InterfereOnlyRemoves(cfg.setting.matcher, s, t.submit.before);
    MetadataNameOperation(cfg.setting.entrypoint, e);
    CalledSteps(cfg, s1, m, e, MetadataOf(cfg.setting.entrypoint, e), t);
    StepsTransitive(cfg.setting, s, s1, Submit(cfg, s, m, e, t).0);
  }

  lemma AdmittedIsAdmissible(cfg: Config, m: Message, r: Request, receivedAtMs: int, deadlineAtMs: Option<int>,
                             t: HandleScript)
    requires r.operationId != "" && receivedAtMs >= 0 && !Negative(deadlineAtMs)
    ensures var e := AdmittedEntry(cfg, m, r, receivedAtMs, deadlineAtMs, t);
            Admissible(cfg.setting.channels, e) && e.operationId == r.operationId
  {
  }

  lemma AdmitSteps(cfg: Config, s: Sys, m: Message, r: Request, timeoutSeconds: Option<real>, t: HandleScript)
    requires Tracked(s, r.operationId).None? && r.operationId != ""
    ensures var (s', out) := Admit(cfg, s, m, r, timeoutSeconds, t);
            && Steps(cfg.setting, s, s')
            && (out.Ack? ==>
                  || HasJob(s'.world, r.operationId)
                  || WasRejected(cfg.setting.channels, s'.world, s'.trace, m.delivery, m.outerId))
  {
    StepsReflexive(cfg.setting, s);
    var received := if m.receivedAt == "" then Some(t.nowMs) else Decimal.ParseInt(m.receivedAt);
    if received.Some? {
      var deadline := Deadline(received.value, timeoutSeconds);
      InvalidSteps(cfg, s, m, "DRIVER_INPUT_TOO_LARGE", t);
      if !Negative(received) && !Negative(deadline) {
        AdmittedIsAdmissible(cfg, m, r, received.value, deadline, t);
        SubmitSteps(cfg, s, m, AdmittedEntry(cfg, m, r, received.value, deadline, t), t);
      }
    }
  }

  lemma ProceedSteps(cfg: Config, s: Sys, m: Message, r: Request, timeoutSeconds: Option<real>, t: HandleScript)
    requires Safe(cfg.setting, s) && r.operationId != "" && r.operationId == m.outerId
    ensures var (s', out) := Proceed(cfg, s, m, r, timeoutSeconds, t);
            && Steps(cfg.setting, s, s')
            && (out.Ack? ==> Supported(cfg.setting.channels, s'.world, s'.trace, m.delivery, r.operationId))
  {
    var g := cfg.setting;
    var (s1, resumed) := Resume(cfg, s, m, r, t);
    ResumeSteps(cfg, s, m, r, t);
    if resumed.None? {
      var (s2, cancelled) := SecondGate(cfg, s1, m, r, t);
      SecondGateSteps(cfg, s1, m, r, t);
      StepsTransitive(g, s, s1, s2);
      if cancelled.None? {
        AdmitSteps(cfg, s2, m, r, timeoutSeconds, t);
        StepsTransitive(g, s, s2, Admit(cfg, s2, m, r, timeoutSeconds, t).0);
      }
    }
  }

  lemma AfterGateSteps(cfg: Config, s: Sys, m: Message, t: HandleScript)
    requires Safe(cfg.setting, s) && Aligned(cfg) && m.outerId != ""
    ensures var (s', out) := AfterGate(cfg, s, m, t);
            && Steps(cfg.setting, s, s')
            && (out.Ack? ==> Supported(cfg.setting.channels, s'.world, s'.trace, m.delivery, m.outerId))
  {
    match Validate(cfg, m)
    case ValidationEscaped =>
      StepsReflexive(cfg.setting, s);
    case Bad(code) =>
      InvalidSteps(cfg, s, m, code, t);
    case Valid(r, timeout) =>
      assert r.operationId == m.outerId;
      ProceedSteps(cfg, s, m, r, timeout, t);
  }

  /** Handling any delivery, under any interference and any faults, is a run of atomic steps; if it
      ends in ACK, the acknowledgement is supported. */
  lemma HandleSteps(cfg: Config, s: Sys, m: Message, t: HandleScript)
    requires Safe(cfg.setting, s) && Aligned(cfg)
    ensures var (s', out) := Handle(cfg, s, m, t);
            && Steps(cfg.setting, s, s')
            && (out.Ack? ==> Supported(cfg.setting.channels, s'.world, s'.trace, m.delivery, m.outerId))
  {
    if m.outerId == "" {
      InvalidSteps(cfg, s, m, "INVALID_OPERATION_ID", t);
    } else {
      var (s1, stopped) := Gate(cfg, s, m, t);
      GateSteps(cfg, s, m, t);
      if stopped.None? {
        StepsAreSafe(cfg.setting, s, s1);
        AfterGateSteps(cfg, s1, m, t);
        StepsTransitive(cfg.setting, s, s1, AfterGate(cfg, s1, m, t).0);
      }
    }
  }

  lemma DeliverSteps(cfg: Config, s: Sys, m: Message, t: HandleScript, ack: Tick)
    requires Safe(cfg.setting, s) && Aligned(cfg)
    ensures Steps(cfg.setting, s, Deliver(cfg, s, m, t, ack))
  {
    var g := cfg.setting;
    StepsReflexive(g, s);
    if m.delivery !in s.world.acked {
      var (s1, out) := Handle(cfg, s, m, t);
      HandleSteps(cfg, s, m, t);
      if out.Ack? {
        var s2 := Interfere(g.matcher, s1, ack.before);
        InterfereSteps(g, s1, ack.before);
        StepsTransitive(g, s, s1, s2);
        if ack.fault != RaiseBefore && m.delivery !in s2.world.acked {
          StepsAreSafe(g, s1, s2);
          SupportedStays(g.channels, s1.world, s2.world, s1.trace, s2.trace, m.delivery, m.outerId);
          StepsThenNote(g, s, s2, AckDelivery(s2, m), XAcked(m.delivery, m.outerId));
        }
      }
    }
  }
}
