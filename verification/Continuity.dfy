/** How long a tracked entry stays: exactly when its removal needs a terminal event of its own, and when
    the stop requests of its operation are its own. */
module Continuity {
  import opened Wrappers
  import opened Domain
  import opened Lookback
  import opened World
  import opened Watcher
  import opened Protocol
  import opened WatcherSteps
  import opened Safety
  import opened Jobs
  import opened Admission
  import opened AdmissionSteps
  import opened Recovery
  import opened Runs

  // ---------------------------------------------------------------- the condition

  /** Every event that can end the item also ends the entry. */
  ghost predicate Covers(m: Matcher, x: ActiveSubmission, e: ActiveSubmission) {
    x.EventKey() == e.EventKey() && forall entry :: Matches(m, entry, x) ==> Matches(m, entry, e)
  }

  /** The pass in progress holds no item of the operation that could be ended by another event. */
  ghost predicate NothingStale(m: Matcher, pass: seq<ActiveSubmission>, e: ActiveSubmission) {
    forall k :: 0 <= k < |pass| && pass[k].operationId == e.operationId ==> Covers(m, pass[k], e)
  }

  /** The pass in progress holds no other item of the operation at all. */
  predicate NothingForeign(pass: seq<ActiveSubmission>, e: ActiveSubmission) {
    forall k :: 0 <= k < |pass| && pass[k].operationId == e.operationId ==> pass[k] == e
  }

  ghost predicate OwnStops(trace: seq<Obs>, e: ActiveSubmission) {
    forall a :: 0 <= a < |Stops(trace, e.operationId)| ==> Stops(trace, e.operationId)[a].item == e
  }

  predicate Keyed(active: map<string, ActiveSubmission>) {
    forall op :: op in active ==> active[op].operationId == op
  }

  /** The entry has been tracked without a break since the trace had the given length, and the pass in
      progress cannot change that; with `own`, its operation's stops were all made for it. */
  ghost predicate Keeps(m: Matcher, start: nat, s: Sys, e: ActiveSubmission, own: bool) {
    && Tracked(s, e.operationId) == Some(e) && Keyed(s.mem.active)
    && start <= |s.trace| && (forall k :: start <= k < |s.trace| ==> !Ends(s.trace[k], e))
    && NothingStale(m, s.mem.pass, e)
    && (own ==> NothingForeign(s.mem.pass, e) && OwnStops(s.trace, e))
  }

  ghost predicate KeepsOrEnded(m: Matcher, start: nat, s: Sys, e: ActiveSubmission, own: bool) {
    Keeps(m, start, s, e, own) || Justified(m, s.world, e)
  }

  /** Without a custom matcher this is a matter of names. */
  lemma CoversWithoutMatcher(m: Matcher, x: ActiveSubmission, e: ActiveSubmission)
    requires forall entry, y :: m(entry, y) == Refused
    ensures Covers(m, x, e) <==> x.EventKey() == e.EventKey() && x.SubmissionId() == e.SubmissionId()
  {
    var entry := Event(Name("COMPLETED"), Some(x.SubmissionId()), "", ByOther);
    assert Matches(m, entry, x);
  }

  // ---------------------------------------------------------------- small steps

  lemma WorldKeeps(m: Matcher, start: nat, s: Sys, w: World, e: ActiveSubmission, own: bool)
    requires KeepsOrEnded(m, start, s, e, own)
    requires forall k :: StreamAt(s.world, k).history <= StreamAt(w, k).history
    ensures KeepsOrEnded(m, start, s.(world := w), e, own)
  {
    if Justified(m, s.world, e) {
      var h, h' := StreamAt(s.world, e.EventKey()).history, StreamAt(w, e.EventKey()).history;
      var i :| 0 <= i < |h| && Matches(m, h[i], e);
      assert h <= h' && Matches(m, h'[i], e);
    }
  }

  lemma EnvKeeps(m: Matcher, start: nat, s: Sys, steps: seq<EnvStep>, e: ActiveSubmission, own: bool)
    requires KeepsOrEnded(m, start, s, e, own)
    ensures KeepsOrEnded(m, start, Env(s, steps), e, own)
  {
    EnvAllExtends(s.world, steps);
    WorldKeeps(m, start, s, EnvAll(s.world, steps), e, own);
  }

  lemma PublishKeeps(m: Matcher, start: nat, s: Sys, key: string, entry: Entry, fault: Fault, e: ActiveSubmission,
                     own: bool)
    requires KeepsOrEnded(m, start, s, e, own)
    ensures KeepsOrEnded(m, start, s.(world := Publish(s.world, key, entry, fault)), e, own)
  {
    WorldKeeps(m, start, s, Publish(s.world, key, entry, fault), e, own);
  }

  predicate Harmless(o: Obs, e: ActiveSubmission, own: bool) {
    !Ends(o, e) && (own && o.StopReturned? && o.item.operationId == e.operationId ==> o.item == e)
  }

  lemma NoteKeeps(m: Matcher, start: nat, s: Sys, o: Obs, e: ActiveSubmission, own: bool)
    requires KeepsOrEnded(m, start, s, e, own) && Harmless(o, e, own)
    ensures KeepsOrEnded(m, start, Note(s, o), e, own)
  {
    if Keeps(m, start, s, e, own) {
      StopsAfter(s.trace, o, e.operationId);
      assert (s.trace + [o])[..|s.trace|] == s.trace;
    }
  }

  lemma RemoveOtherKeeps(m: Matcher, start: nat, s: Sys, x: ActiveSubmission, e: ActiveSubmission, own: bool)
    requires KeepsOrEnded(m, start, s, e, own) && (x.operationId == e.operationId ==> Justified(m, s.world, e))
    ensures KeepsOrEnded(m, start, RemoveActive(s, x), e, own)
  {
    if x.operationId != e.operationId && x.operationId in s.mem.active && !Justified(m, s.world, e) {
      var removed := s.(mem := s.mem.(active := s.mem.active - {x.operationId}));
      assert Keeps(m, start, removed, e, own);
      NoteKeeps(m, start, removed, Removed(s.mem.active[x.operationId], x), e, own);
    }
  }

  lemma ForgetOtherKeeps(m: Matcher, start: nat, s: Sys, x: ActiveSubmission, e: ActiveSubmission, own: bool)
    requires KeepsOrEnded(m, start, s, e, own) && (x.operationId == e.operationId ==> Justified(m, s.world, e))
    ensures KeepsOrEnded(m, start, Forget(s, x), e, own)
  {
    RemoveOtherKeeps(m, start, s, x, e, own);
    var removed := RemoveActive(s, x);
    var op := x.operationId;
    var discarded := removed.(mem := removed.mem.(stopRequested := removed.mem.stopRequested - {op},
                                                  timeoutRequested := removed.mem.timeoutRequested - {op}));
    assert KeepsOrEnded(m, start, discarded, e, own);
    NoteKeeps(m, start, discarded, Discarded(op), e, own);
  }

  lemma PutOtherKeeps(m: Matcher, start: nat, s: Sys, other: ActiveSubmission, origin: Origin, e: ActiveSubmission,
                      own: bool)
    requires KeepsOrEnded(m, start, s, e, own) && other.operationId != e.operationId
    ensures KeepsOrEnded(m, start, PutActive(s, other, origin), e, own)
  {
    var put := s.(mem := s.mem.(active := s.mem.active[other.operationId := other]));
    assert KeepsOrEnded(m, start, put, e, own);
    NoteKeeps(m, start, put, Put(other, Tracked(s, other.operationId), origin), e, own);
  }

  // ---------------------------------------------------------------- the watcher

  /** The body may run for this item without taking the entry away. */
  ghost predicate Admits(m: Matcher, x: ActiveSubmission, e: ActiveSubmission, own: bool) {
    x.operationId == e.operationId ==> Covers(m, x, e) && (own ==> x == e)
  }

  lemma JustifiedByCovered(m: Matcher, w: World, x: ActiveSubmission, e: ActiveSubmission)
    requires Covers(m, x, e) && Justified(m, w, x)
    ensures Justified(m, w, e)
  {
    var h := StreamAt(w, x.EventKey()).history;
    var i :| 0 <= i < |h| && Matches(m, h[i], x);
    assert Matches(m, h[i], e);
  }

  lemma RequestStopKeeps(m: Matcher, start: nat, s: Sys, x: ActiveSubmission, present: bool, deletions: nat,
                         nowMs: int, fault: Fault, e: ActiveSubmission, own: bool)
    requires KeepsOrEnded(m, start, s, e, own) && Admits(m, x, e, own)
    ensures KeepsOrEnded(m, start, RequestStop(s, x, present, deletions, nowMs, fault), e, own)
  {
    var asked := s.(world := s.world.(stopping := s.world.stopping + {x.SubmissionId()}));
    WorldKeeps(m, start, s, asked.world, e, own);
    if fault == Ok {
      var mem := RequestStop(s, x, present, deletions, nowMs, fault).mem;
      assert KeepsOrEnded(m, start, asked.(mem := mem), e, own);
      var stopped := StopReturned(x, if present then ByMarker else ByDeadline, deletions, nowMs);
      NoteKeeps(m, start, asked.(mem := mem), stopped, e, own);
    }
  }

  lemma ReportKeeps(m: Matcher, start: nat, s: Sys, x: ActiveSubmission, status: RayStatus, present: bool,
          nowMs: int,
                    fault: Fault, e: ActiveSubmission, own: bool)
    requires KeepsOrEnded(m, start, s, e, own) && Admits(m, x, e, own)
    ensures KeepsOrEnded(m, start, ReportFinal(s, x, status, present, nowMs, fault), e, own)
  {
    var (kind, code) := VerdictIn(s.mem, x, status, present, TimedOut(x, nowMs));
    var appended := s.(world := Append(s.world, x.EventKey(), Fallback(x, kind, code)));
    PublishKeeps(m, start, s, x.EventKey(), Fallback(x, kind, code), Ok, e, own);
    var o := Wrote(x, status, present, nowMs, kind, code);
    NoteKeeps(m, start, appended, o, e, own);
    var h := StreamAt(appended.world, x.EventKey()).history;
    assert Matches(m, h[|h| - 1], x);
    if x.operationId == e.operationId {
      JustifiedByCovered(m, appended.world, x, e);
    }
    ForgetOtherKeeps(m, start, Note(appended, o), x, e, own);
  }

  lemma ActOnStatusKeeps(m: Matcher, start: nat, s: Sys, x: ActiveSubmission, status: RayStatus, t: ItemScript,
                         e: ActiveSubmission, own: bool)
    requires KeepsOrEnded(m, start, s, e, own) && Admits(m, x, e, own)
    ensures KeepsOrEnded(m, start, ActOnStatus(s, x, status, t), e, own)
  {
    var s1 := Env(s, t.marker.before);
    EnvKeeps(m, start, s, t.marker.before, e, own);
    var present, deletions := x.CancelKey() in s1.world.markers, Deletions(s1.world, x.CancelKey());
    var read := Note(s1, MarkerRead(x, present, deletions));
    NoteKeeps(m, start, s1, MarkerRead(x, present, deletions), e, own);
    var s2 := Env(read, t.effect.before);
    EnvKeeps(m, start, read, t.effect.before, e, own);
    ReportKeeps(m, start, s2, x, status, present, t.nowMs, t.effect.fault, e, own);
    RequestStopKeeps(m, start, s2, x, present, deletions, t.nowMs, t.effect.fault, e, own);
  }

  lemma CheckItemKeeps(m: Matcher, start: nat, s: Sys, x: ActiveSubmission, t: ItemScript, e: ActiveSubmission,
                       own: bool)
    requires KeepsOrEnded(m, start, s, e, own) && Admits(m, x, e, own)
    ensures KeepsOrEnded(m, start, CheckItem(m, s, x, t), e, own)
  {
    var (s1, scan) := LookAt(m, s, x, t.lookback);
    var s0 := Env(s, t.lookback.before);
    EnvKeeps(m, start, s, t.lookback.before, e, own);
    if t.lookback.fault == Ok {
      NoteKeeps(m, start, s0, Last(s1.trace), e, own);
      assert s1 == Note(s0, Last(s1.trace));
    }
    if scan.Found? {
      BoundedScanIsSound(m, StreamAt(s0.world, x.EventKey()), x);
      if x.operationId == e.operationId {
        JustifiedByCovered(m, s1.world, x, e);
      }
      ForgetOtherKeeps(m, start, s1, x, e, own);
    } else if scan.NotFound? {
      var s2 := Env(s1, t.status.before);
      EnvKeeps(m, start, s1, t.status.before, e, own);
      if t.status.fault == Ok && x.SubmissionId() in s2.world.jobs {
        ActOnStatusKeeps(m, start, s2, x, s2.world.jobs[x.SubmissionId()].status, t, e, own);
      }
    }
  }

  lemma CheckNextKeeps(m: Matcher, start: nat, s: Sys, t: ItemScript, e: ActiveSubmission, own: bool)
    requires Keeps(m, start, s, e, own) && s.mem.pass != []
    ensures KeepsOrEnded(m, start, Apply(m, s, CheckNext(t)), e, own)
  {
    var rest := s.(mem := s.mem.(pass := s.mem.pass[1..]));
    assert forall k :: 0 <= k < |rest.mem.pass| ==> rest.mem.pass[k] == s.mem.pass[k + 1];
    assert Keeps(m, start, rest, e, own);
    CheckItemKeeps(m, start, rest, s.mem.pass[0], t, e, own);
  }

  lemma StepKeeps(g: Setting, start: nat, s: Sys, step: Step, e: ActiveSubmission, own: bool)
    requires KeepsOrEnded(g.matcher, start, s, e, own)
    ensures KeepsOrEnded(g.matcher, start, Apply(g.matcher, s, step), e, own)
  {
    if Justified(g.matcher, s.world, e) {
      ApplySteps(g, s, step);
      EndedStays(g, s, Apply(g.matcher, s, step), e);
    } else {
      match step
      case Outside(env) => EnvKeeps(g.matcher, start, s, [env], e, own);
      case BeginPass(_) =>
      case CheckNext(script) =>
        if s.mem.pass != [] {
          CheckNextKeeps(g.matcher, start, s, script, e, own);
        }
    }
  }

  lemma EndedStays(g: Setting, s: Sys, s': Sys, e: ActiveSubmission)
    requires Steps(g, s, s') && Justified(g.matcher, s.world, e)
    ensures Justified(g.matcher, s'.world, e)
  {
    StepsAreSafe(g, s, s');
    JustifiedStays(g.matcher, s.world, s'.world, e);
  }

  lemma {:induction false} InterferenceKeeps(g: Setting, start: nat, s: Sys, steps: seq<Step>, e: ActiveSubmission,
                                             own: bool)
    requires KeepsOrEnded(g.matcher, start, s, e, own)
    ensures KeepsOrEnded(g.matcher, start, Interfere(g.matcher, s, steps), e, own)
  {
    if steps != [] {
      InterferenceKeeps(g, start, s, steps[..|steps| - 1], e, own);
      StepKeeps(g, start, Interfere(g.matcher, s, steps[..|steps| - 1]), steps[|steps| - 1], e, own);
    }
  }

  // ---------------------------------------------------------------- admission

  lemma InvalidKeeps(cfg: Config, start: nat, s: Sys, m: Message, code: string, t: HandleScript, e: ActiveSubmission,
                     own: bool)
    requires KeepsOrEnded(cfg.setting.matcher, start, s, e, own)
    ensures KeepsOrEnded(cfg.setting.matcher, start, Invalid(cfg, s, m, code, t).0, e, own)
  {
    var g := cfg.setting;
    var s0 := Interfere(g.matcher, s, t.invalid.before);
    InterferenceKeeps(g, start, s, t.invalid.before, e, own);
    var operationId := ReportedId(m.delivery, m.outerId);
    var key := ChannelOf(cfg, m).EventKey(operationId);
    PublishKeeps(g.matcher, start, s0, key, RejectionEvent(code), t.invalid.fault, e, own);
    NoteKeeps(g.matcher, start, s0.(world := Publish(s0.world, key, RejectionEvent(code), t.invalid.fault)),
              RejectionAttempted(m.delivery, operationId, code, t.invalid.fault), e, own);
  }

  /** Both cancellation checks: note the marker, let others act, publish. */
  lemma CancelKeeps(cfg: Config, start: nat, s: Sys, m: Message, t: Tick, operationId: string, e: ActiveSubmission,
                    own: bool)
    requires KeepsOrEnded(cfg.setting.matcher, start, s, e, own)
    ensures var s2 := Interfere(cfg.setting.matcher, Note(s, MarkerSeen(m.delivery)), t.before);
            && KeepsOrEnded(cfg.setting.matcher, start, s2, e, own)
            && KeepsOrEnded(cfg.setting.matcher, start, PublishCancelled(cfg, s2, m, operationId, t.fault).0, e, own)
  {
    var g := cfg.setting;
    NoteKeeps(g.matcher, start, s, MarkerSeen(m.delivery), e, own);
    InterferenceKeeps(g, start, Note(s, MarkerSeen(m.delivery)), t.before, e, own);
    PublishKeeps(g.matcher, start, Interfere(g.matcher, Note(s, MarkerSeen(m.delivery)), t.before),
                 ChannelOf(cfg, m).EventKey(operationId), Event(Name("CANCELLED"), None, "",
                           ByAdmission), t.fault, e, own);
  }

  lemma GateKeeps(cfg: Config, start: nat, s: Sys, m: Message, t: HandleScript, e: ActiveSubmission, own: bool)
    requires KeepsOrEnded(cfg.setting.matcher, start, s, e, own)
    ensures KeepsOrEnded(cfg.setting.matcher, start, Gate(cfg, s, m, t).0, e, own)
  {
    InterferenceKeeps(cfg.setting, start, s, t.gate.before, e, own);
    CancelKeeps(cfg, start, Interfere(cfg.setting.matcher, s, t.gate.before), m, t.gatePublish, m.outerId, e, own);
  }

  lemma SecondGateKeeps(cfg: Config, start: nat, s: Sys, m: Message, r: Request, t: HandleScript, e: ActiveSubmission,
                        own: bool)
    requires KeepsOrEnded(cfg.setting.matcher, start, s, e, own)
    ensures KeepsOrEnded(cfg.setting.matcher, start, SecondGate(cfg, s, m, r, t).0, e, own)
  {
    InterferenceKeeps(cfg.setting, start, s, t.secondGate.before, e, own);
    CancelKeeps(cfg, start, Interfere(cfg.setting.matcher, s, t.secondGate.before), m, t.cancelled, r.operationId, e,
                own);
  }

  lemma ConfirmKeeps(cfg: Config, start: nat, s: Sys, m: Message, operationId: string, sid: string, fault: Fault,
          code: string,
                     e: ActiveSubmission, own: bool)
    requires KeepsOrEnded(cfg.setting.matcher, start, s, e, own)
    ensures KeepsOrEnded(cfg.setting.matcher, start, Confirm(cfg, s, m, operationId, sid, fault, code).0, e, own)
  {
    var key := ChannelOf(cfg, m).EventKey(operationId);
    PublishKeeps(cfg.setting.matcher, start, s, key, AcceptedEvent(sid), fault, e, own);
    NoteKeeps(cfg.setting.matcher, start, s.(world := Publish(s.world, key, AcceptedEvent(sid), fault)),
              AcceptedReturned(m.delivery, operationId, sid), e, own);
  }

  lemma FinishedIsRemoved(cfg: Config, start: nat, s: Sys, m: Message, found: ActiveSubmission, e: ActiveSubmission,
                          own: bool)
    requires KeepsOrEnded(cfg.setting.matcher, start, s, e, own)
    requires found == e || found.operationId != e.operationId || Justified(cfg.setting.matcher, s.world, e)
    requires BoundedScan(cfg.setting.matcher, StreamAt(s.world, found.EventKey()), found).Found?
    ensures KeepsOrEnded(cfg.setting.matcher, start,
            Note(RemoveActive(s, found), TerminalSeen(m.delivery, found.SubmissionId())), e, own)
  {
    BoundedScanIsSound(cfg.setting.matcher, StreamAt(s.world, found.EventKey()), found);
    RemoveOtherKeeps(cfg.setting.matcher, start, s, found, e, own);
    NoteKeeps(cfg.setting.matcher, start, RemoveActive(s, found), TerminalSeen(m.delivery, found.SubmissionId()), e,
              own);
  }

  lemma InterferenceEndsOrKeeps(g: Setting, start: nat, s: Sys, steps: seq<Step>, e: ActiveSubmission, own: bool)
    requires KeepsOrEnded(g.matcher, start, s, e, own)
    ensures KeepsOrEnded(g.matcher, start, Interfere(g.matcher, s, steps), e, own)
    ensures Justified(g.matcher, s.world, e) ==> Justified(g.matcher, Interfere(g.matcher, s, steps).world, e)
  {
    InterferenceKeeps(g, start, s, steps, e, own);
    if Justified(g.matcher, s.world, e) {
      InterfereSteps(g, s, steps);
      EndedStays(g, s, Interfere(g.matcher, s, steps), e);
    }
  }

  /** Resuming removes what it found finished; if that is the entry, an event for it was found. */
  lemma ResumeTrackedKeeps(cfg: Config, start: nat, s: Sys, m: Message, r: Request, found: ActiveSubmission,
          t: HandleScript,
                           e: ActiveSubmission, own: bool)
    requires KeepsOrEnded(cfg.setting.matcher, start, s, e, own)
    requires found == e || found.operationId != e.operationId || Justified(cfg.setting.matcher, s.world, e)
    ensures KeepsOrEnded(cfg.setting.matcher, start, ResumeTracked(cfg, s, m, r, found, t).0, e, own)
  {
    var g := cfg.setting;
    var s1 := Interfere(g.matcher, s, t.lookback.before);
    InterferenceEndsOrKeeps(g, start, s, t.lookback.before, e, own);
    if BoundedScan(g.matcher, StreamAt(s1.world, found.EventKey()), found).Found? {
      FinishedIsRemoved(cfg, start, s1, m, found, e, own);
    }
    var s2 := Interfere(g.matcher, s1, t.resume.before);
    InterferenceKeeps(g, start, s1, t.resume.before, e, own);
    ConfirmKeeps(cfg, start, s2, m, r.operationId, found.SubmissionId(), t.resume.fault,
                 "RECOVERED_ADMISSION_UNCONFIRMED", e, own);
  }

  lemma ResumeKeeps(cfg: Config, start: nat, before: Sys, m: Message, r: Request, t: HandleScript,
                    e: ActiveSubmission, own: bool)
    requires KeepsOrEnded(cfg.setting.matcher, start, before, e, own)
    ensures KeepsOrEnded(cfg.setting.matcher, start, Resume(cfg, before, m, r, t).0, e, own)
  {
    var s := Interfere(cfg.setting.matcher, before, t.existing);
    InterferenceKeeps(cfg.setting, start, before, t.existing, e, own);
    if Tracked(s, r.operationId).Some? {
      var found := Tracked(s, r.operationId).value;
      ResumeTrackedKeeps(cfg, start, s, m, r, found, t, e, own);
    }
  }

  lemma SubmitOtherKeeps(cfg: Config, start: nat, s: Sys, m: Message, other: ActiveSubmission, t: HandleScript,
                         e: ActiveSubmission, own: bool)
    requires KeepsOrEnded(cfg.setting.matcher, start, s, e, own)
    requires other.receivedAtMs.Some? && other.operationId != e.operationId
    ensures KeepsOrEnded(cfg.setting.matcher, start, Submit(cfg, s, m, other, t).0, e, own)
  {
    var g := cfg.setting;
    var s1 := Interfere(g.matcher, s, t.submit.before);
    InterferenceKeeps(g, start, s, t.submit.before, e, own);
    var called := SubmitCalled(other.operationId, Tracked(s1, other.operationId));
    var s2 := Note(s1, called);
    NoteKeeps(g.matcher, start, s1, called, e, own);
    var md := MetadataOf(g.entrypoint, other);
    var s3 := s2.(world := CreateJob(s2.world, other.SubmissionId(), md, t.rayJobId));
    WorldKeeps(g.matcher, start, s2, s3.world, e, own);
    var origin := FromCall(other.SubmissionId() !in s2.world.jobs);
    PutOtherKeeps(g.matcher, start, s3, other, origin, e, own);
    var s4 := Interfere(g.matcher, PutActive(s3, other, origin), t.accepted.before);
    InterferenceKeeps(g, start, PutActive(s3, other, origin), t.accepted.before, e, own);
    ConfirmKeeps(cfg, start, s4, m, other.operationId, other.SubmissionId(), t.accepted.fault, RAY_ADMISSION_UNKNOWN,
                 e, own);
  }

  lemma AdmitOtherKeeps(cfg: Config, start: nat, s: Sys, m: Message, r: Request, timeoutSeconds: Option<real>,
          t: HandleScript,
                        e: ActiveSubmission, own: bool)
    requires KeepsOrEnded(cfg.setting.matcher, start, s, e, own) && r.operationId != e.operationId
    ensures KeepsOrEnded(cfg.setting.matcher, start, Admit(cfg, s, m, r, timeoutSeconds, t).0, e, own)
  {
    var received := if m.receivedAt == "" then Some(t.nowMs) else Decimal.ParseInt(m.receivedAt);
    if received.Some? {
      var deadline := Deadline(received.value, timeoutSeconds);
      InvalidKeeps(cfg, start, s, m, "DRIVER_INPUT_TOO_LARGE", t, e, own);
      SubmitOtherKeeps(cfg, start, s, m, AdmittedEntry(cfg, m, r, received.value, deadline, t), t, e, own);
    }
  }

  /** What is neither resumed nor cancelled is admitted, and that is another operation. */
  lemma ProceedKeeps(cfg: Config, start: nat, s: Sys, m: Message, r: Request, timeoutSeconds: Option<real>,
          t: HandleScript,
                     e: ActiveSubmission, own: bool)
    requires Safe(cfg.setting, s) && r.operationId != "" && KeepsOrEnded(cfg.setting.matcher, start, s, e, own)
    ensures KeepsOrEnded(cfg.setting.matcher, start, Proceed(cfg, s, m, r, timeoutSeconds, t).0, e, own)
  {
    var g := cfg.setting;
    var (s1, resumed) := Resume(cfg, s, m, r, t);
    ResumeKeeps(cfg, start, s, m, r, t, e, own);
    ResumeSteps(cfg, s, m, r, t);
    if resumed.None? {
      var (s2, cancelled) := SecondGate(cfg, s1, m, r, t);
      SecondGateKeeps(cfg, start, s1, m, r, t, e, own);
      SecondGateSteps(cfg, s1, m, r, t);
      if cancelled.None? {
        if Justified(g.matcher, s2.world, e) {
          AdmitSteps(cfg, s2, m, r, timeoutSeconds, t);
          EndedStays(g, s2, Admit(cfg, s2, m, r, timeoutSeconds, t).0, e);
        } else {
          AdmitOtherKeeps(cfg, start, s2, m, r, timeoutSeconds, t, e, own);
        }
      }
    }
  }

  lemma ValidKeeps(cfg: Config, start: nat, s: Sys, m: Message, v: Validation, t: HandleScript, e: ActiveSubmission,
                   own: bool)
    requires Safe(cfg.setting, s) && KeepsOrEnded(cfg.setting.matcher, start, s, e, own)
    requires v.Valid? ==> v.request.operationId != ""
    ensures KeepsOrEnded(cfg.setting.matcher, start, AfterValidation(cfg, s, m, v, t).0, e, own)
  {
    match v
    case ValidationEscaped =>
    case Bad(code) => InvalidKeeps(cfg, start, s, m, code, t, e, own);
    case Valid(r, timeout) => ProceedKeeps(cfg, start, s, m, r, timeout, t, e, own);
  }

  lemma ValidIsNamed(cfg: Config, m: Message)
    requires Aligned(cfg)
    ensures Validate(cfg, m).Valid? ==> Validate(cfg, m).request.operationId == m.outerId
  {
  }

  lemma HandleKeeps(cfg: Config, start: nat, s: Sys, m: Message, t: HandleScript, e: ActiveSubmission, own: bool)
    requires Safe(cfg.setting, s) && Aligned(cfg) && KeepsOrEnded(cfg.setting.matcher, start, s, e, own)
    ensures KeepsOrEnded(cfg.setting.matcher, start, Handle(cfg, s, m, t).0, e, own)
  {
    if m.outerId == "" {
      InvalidKeeps(cfg, start, s, m, "INVALID_OPERATION_ID", t, e, own);
    } else {
      var (s1, stopped) := Gate(cfg, s, m, t);
      GateKeeps(cfg, start, s, m, t, e, own);
      if stopped.None? {
        GateSteps(cfg, s, m, t);
        StepsAreSafe(cfg.setting, s, s1);
        ValidIsNamed(cfg, m);
        ValidKeeps(cfg, start, s1, m, Validate(cfg, m), t, e, own);
      }
    }
  }

  lemma AckKeeps(cfg: Config, start: nat, s: Sys, m: Message, e: ActiveSubmission, own: bool)
    requires KeepsOrEnded(cfg.setting.matcher, start, s, e, own)
    ensures KeepsOrEnded(cfg.setting.matcher, start, AckDelivery(s, m), e, own)
  {
    var acked := s.(world := s.world.(acked := s.world.acked + {m.delivery}));
    WorldKeeps(cfg.setting.matcher, start, s, acked.world, e, own);
    NoteKeeps(cfg.setting.matcher, start, acked, XAcked(m.delivery, m.outerId), e, own);
  }

  lemma DeliverKeeps(cfg: Config, start: nat, s: Sys, m: Message, t: HandleScript, ack: Tick, e: ActiveSubmission,
                     own: bool)
    requires Safe(cfg.setting, s) && Aligned(cfg) && KeepsOrEnded(cfg.setting.matcher, start, s, e, own)
    ensures KeepsOrEnded(cfg.setting.matcher, start, Deliver(cfg, s, m, t, ack), e, own)
  {
    if m.delivery !in s.world.acked {
      var s1 := Handle(cfg, s, m, t).0;
      HandleKeeps(cfg, start, s, m, t, e, own);
      InterferenceKeeps(cfg.setting, start, s1, ack.before, e, own);
      AckKeeps(cfg, start, Interfere(cfg.setting.matcher, s1, ack.before), m, e, own);
    }
  }

  // ---------------------------------------------------------------- recovery

  lemma RecoverJobKeeps(cfg: Config, start: nat, s: Sys, v: JobView, t: EnvTick, e: ActiveSubmission, own: bool)
    requires Keeps(cfg.setting.matcher, start, s, e, own)
    ensures KeepsOrEnded(cfg.setting.matcher, start, RecoverJob(cfg, s, v, t).0, e, own)
  {
    var m := cfg.setting.matcher;
    if Eligible(cfg, v).Some? && Tracked(s, Eligible(cfg, v).value.operationId).None? {
      var other := Eligible(cfg, v).value;
      PutOtherKeeps(m, start, s, other, FromListing, e, own);
      var s1 := Env(PutActive(s, other, FromListing), t.before);
      EnvKeeps(m, start, PutActive(s, other, FromListing), t.before, e, own);
      RemoveOtherKeeps(m, start, s1, other, e, own);
    }
  }

  lemma {:induction false} RecoverAllKeeps(cfg: Config, start: nat, s: Sys, listing: seq<Listed>, e: ActiveSubmission,
                                           own: bool)
    requires KeepsOrEnded(cfg.setting.matcher, start, s, e, own)
    requires forall i :: 0 <= i < |listing| ==> ShowsJob(s.world, listing[i].view)
    ensures KeepsOrEnded(cfg.setting.matcher, start, RecoverAll(cfg, s, listing).0, e, own)
  {
    if Justified(cfg.setting.matcher, s.world, e) {
      RecoverAllSteps(cfg, s, listing);
      EndedStays(cfg.setting, s, RecoverAll(cfg, s, listing).0, e);
    } else if listing != [] {
      var front, last := listing[..|listing| - 1], listing[|listing| - 1];
      RecoverAllKeeps(cfg, start, s, front, e, own);
      RecoverAllSteps(cfg, s, front);
      RecoverLastKeeps(cfg, start, s, RecoverAll(cfg, s, front).0, last, e, own);
    }
  }

  lemma EndedMeanwhile(g: Setting, start: nat, s: Sys, s': Sys, e: ActiveSubmission, own: bool)
    requires Steps(g, s, s') && Justified(g.matcher, s.world, e)
    ensures KeepsOrEnded(g.matcher, start, s', e, own)
  {
    EndedStays(g, s, s', e);
  }

  lemma StillShown(g: Setting, s: Sys, s': Sys, v: JobView)
    requires Steps(g, s, s') && ShowsJob(s.world, v)
    ensures ShowsJob(s'.world, v)
  {
    StepsAreSafe(g, s, s');
  }

  lemma RecoverLastKeeps(cfg: Config, start: nat, s: Sys, s1: Sys, last: Listed, e: ActiveSubmission, own: bool)
    requires Steps(cfg.setting, s, s1) && KeepsOrEnded(cfg.setting.matcher, start, s1, e, own)
             && ShowsJob(s.world, last.view)
    ensures KeepsOrEnded(cfg.setting.matcher, start, RecoverJob(cfg, s1, last.view, last.tick).0, e, own)
  {
    if Justified(cfg.setting.matcher, s1.world, e) {
      StillShown(cfg.setting, s, s1, last.view);
      RecoverJobSteps(cfg, s1, last.view, last.tick);
      EndedMeanwhile(cfg.setting, start, s1, RecoverJob(cfg, s1, last.view, last.tick).0, e, own);
    } else {
      RecoverJobKeeps(cfg, start, s1, last.view, last.tick, e, own);
    }
  }

  // ---------------------------------------------------------------- runs without a crash

  predicate NoCrash(actions: seq<Action>) {
    forall i :: 0 <= i < |actions| ==> !actions[i].Crashing?
  }

  lemma ActKeeps(cfg: Config, start: nat, s: Sys, a: Action, e: ActiveSubmission, own: bool)
    requires Safe(cfg.setting, s) && Aligned(cfg) && !a.Crashing? && KeepsOrEnded(cfg.setting.matcher, start, s, e, own)
    ensures KeepsOrEnded(cfg.setting.matcher, start, Act(cfg, s, a), e, own)
  {
    match a
    case Meanwhile(step) => StepKeeps(cfg.setting, start, s, step, e, own);
    case Delivered(m, t, ack) => DeliverKeeps(cfg, start, s, m, t, ack, e, own);
    case Recovered(ids) => RecoveredKeeps(cfg, start, s, ids, e, own);
  }

  lemma RecoveredKeeps(cfg: Config, start: nat, s: Sys, ids: seq<ListedId>, e: ActiveSubmission, own: bool)
    requires KeepsOrEnded(cfg.setting.matcher, start, s, e, own)
    ensures KeepsOrEnded(cfg.setting.matcher, start, RecoverAll(cfg, s, Listing(s.world, ids)).0, e, own)
  {
    RecoverAllKeeps(cfg, start, s, Listing(s.world, ids), e, own);
  }

  /** From a state with nothing stale in the pass, over every run without a crash: as long as no terminal
      event for the entry was appended, it stays tracked without a break. */
  lemma {:induction false} RunKeeps(cfg: Config, start: nat, s: Sys, actions: seq<Action>, e: ActiveSubmission,
                                    own: bool)
    requires Safe(cfg.setting, s) && Aligned(cfg) && NoCrash(actions)
             && KeepsOrEnded(cfg.setting.matcher, start, s, e, own)
    ensures KeepsOrEnded(cfg.setting.matcher, start, Run(cfg, s, actions), e, own)
  {
    if actions != [] {
      var front := Run(cfg, s, actions[..|actions| - 1]);
      RunKeeps(cfg, start, s, actions[..|actions| - 1], e, own);
      RunSteps(cfg, s, actions[..|actions| - 1]);
      StepsAreSafe(cfg.setting, s, front);
      ActKeeps(cfg, start, front, actions[|actions| - 1], e, own);
    }
  }

  /** An entry that was admitted with nothing stale in the pass is removed, and its operation is submitted
      again, only after a terminal event for it, in every run without a crash. */
  lemma RemovalFollowsOwnTerminalEvent(cfg: Config, s: Sys, actions: seq<Action>, e: ActiveSubmission, j: nat)
    requires Safe(cfg.setting, s) && Aligned(cfg) && NoCrash(actions)
    requires Tracked(s, e.operationId) == Some(e) && NothingStale(cfg.setting.matcher, s.mem.pass, e)
    requires var trace := Run(cfg, s, actions).trace;
             |s.trace| <= j < |trace| && (Ends(trace[j], e) || StartsAgain(trace[j], e.operationId))
    ensures Justified(cfg.setting.matcher, Run(cfg, s, actions).world, e)
  {
    var s' := Run(cfg, s, actions);
    RunKeeps(cfg, |s.trace|, s, actions, e, false);
    if !Justified(cfg.setting.matcher, s'.world, e) {
      TrackedOperationIsNotResubmitted(cfg, s, actions, e, j);
      assert false;
    }
  }

  // ---------------------------------------------------------------- the converse

  /** The provenance of an event is no part of its payload, so no matcher can read it. */
  ghost predicate WriterBlind(m: Matcher) {
    forall entry: Entry, w: Writer, x: ActiveSubmission :: entry.Event? ==> m(entry.(writer := w), x) == m(entry, x)
  }

  const RAISING := EnvTick([], RaiseBefore)
  const RETURNING := EnvTick([], Ok)
  const SKIPPED := ItemScript(RAISING, RAISING, RAISING, 0, RAISING)
  const CHECKED := ItemScript(RETURNING, RETURNING, RETURNING, 0, RETURNING)

  function Skips(k: nat): seq<Action> {
    if k == 0 then [] else Skips(k - 1) + [Meanwhile(CheckNext(SKIPPED))]
  }

  /** Bodies whose lookback raises only use up the items of the pass. */
  lemma {:induction false} SkipsSkip(cfg: Config, s: Sys, k: nat)
    requires k <= |s.mem.pass|
    ensures Run(cfg, s, Skips(k)) == s.(mem := s.mem.(pass := s.mem.pass[k..])) && NoCrash(Skips(k))
  {
    if k > 0 {
      var n := |Skips(k)| - 1;
      assert Skips(k)[..n] == Skips(k - 1);
      SkipsSkip(cfg, s, k - 1);
      var before := Run(cfg, s, Skips(k - 1));
      assert before.mem.pass[1..] == s.mem.pass[k..];
      assert Env(before, []) == before;
    }
  }

  /** An event that ends the item without ending the entry. */
  lemma EndsOnlyTheItem(m: Matcher, x: ActiveSubmission, e: ActiveSubmission) returns (entry: Entry)
    requires WriterBlind(m) && !Covers(m, x, e)
    ensures !FromWatcher(entry) && Matches(m, entry, x) && (x.EventKey() == e.EventKey() ==> !Matches(m, entry, e))
  {
    if x.EventKey() != e.EventKey() {
      entry := Event(Name("COMPLETED"), Some(x.SubmissionId()), "", ByOther);
    } else {
      var found: Entry :| Matches(m, found, x) && !Matches(m, found, e);
      entry := found.(writer := ByOther);
      assert m(entry, x) == m(found, x) && m(entry, e) == m(found, e);
    }
  }

  /** The body of the item whose event was just appended removes whatever its operation has. */
  lemma FoundItemUntracks(m: Matcher, s: Sys, x: ActiveSubmission)
    requires s.mem.pass != [] && s.mem.pass[0] == x
    requires Retained(StreamAt(s.world, x.EventKey())) > 0
    requires Matches(m, StreamAt(s.world, x.EventKey()).history[|StreamAt(s.world, x.EventKey()).history| - 1], x)
    ensures var s' := Apply(m, s, CheckNext(CHECKED));
            s'.world == s.world && Tracked(s', x.operationId).None?
  {
    NewestMatchIsFound(m, StreamAt(s.world, x.EventKey()), x);
    var rest := s.(mem := s.mem.(pass := s.mem.pass[1..]));
    assert Env(rest, []) == rest;
  }

  lemma AppendedElsewhere(m: Matcher, w: World, key: string, entry: Entry, e: ActiveSubmission)
    requires !Justified(m, w, e) && (key == e.EventKey() ==> !Matches(m, entry, e))
    ensures !Justified(m, Append(w, key, entry), e)
  {
    var h, h' := StreamAt(w, e.EventKey()).history, StreamAt(Append(w, key, entry), e.EventKey()).history;
    forall i | 0 <= i < |h'| ensures !Matches(m, h'[i], e) {
      if i < |h| {
        assert h'[i] == h[i];
      }
    }
  }

  /** A stale item has a continuation that takes the entry away with nothing appended for it: an event ends
      the item, and its body runs. */
  lemma StaleItemUntracks(cfg: Config, s: Sys, e: ActiveSubmission, k: nat) returns (actions: seq<Action>)
    requires WriterBlind(cfg.setting.matcher) && !Justified(cfg.setting.matcher, s.world, e)
    requires k < |s.mem.pass| && s.mem.pass[k].operationId == e.operationId
             && !Covers(cfg.setting.matcher, s.mem.pass[k], e)
    ensures NoCrash(actions)
    ensures Tracked(Run(cfg, s, actions), e.operationId).None?
            && !Justified(cfg.setting.matcher, Run(cfg, s, actions).world, e)
  {
    var m, x := cfg.setting.matcher, s.mem.pass[k];
    var entry := EndsOnlyTheItem(m, x, e);
    var write, check := Meanwhile(Outside(Write(x.EventKey(), entry))), Meanwhile(CheckNext(CHECKED));
    actions := Skips(k) + [write] + [check];
    SkipsSkip(cfg, s, k);
    var s1 := Run(cfg, s, Skips(k));
    assert (Skips(k) + [write])[..|Skips(k)|] == Skips(k) && actions[..|Skips(k)| + 1] == Skips(k) + [write];
    EnvOne(s1.world, Write(x.EventKey(), entry));
    var s2 := s1.(world := Append(s1.world, x.EventKey(), entry));
    assert Run(cfg, s, Skips(k) + [write]) == s2;
    AppendedElsewhere(m, s1.world, x.EventKey(), entry, e);
    FoundItemUntracks(m, s2, x);
    assert Run(cfg, s, actions) == Apply(m, s2, CheckNext(CHECKED));
  }

  /** Exactly: nothing stale in the pass if and only if no run without a crash takes the entry away before
      a terminal event for it. */
  lemma KeptExactlyWhenNothingIsStale(cfg: Config, s: Sys, e: ActiveSubmission)
    requires Safe(cfg.setting, s) && Aligned(cfg) && WriterBlind(cfg.setting.matcher)
    requires Tracked(s, e.operationId) == Some(e) && !Justified(cfg.setting.matcher, s.world, e)
    ensures NothingStale(cfg.setting.matcher, s.mem.pass, e) <==>
            forall actions :: NoCrash(actions) ==>
                                || Tracked(Run(cfg, s, actions), e.operationId) == Some(e)
                                || Justified(cfg.setting.matcher, Run(cfg, s, actions).world, e)
  {
    var m := cfg.setting.matcher;
    if NothingStale(m, s.mem.pass, e) {
      forall actions | NoCrash(actions)
        ensures Tracked(Run(cfg, s, actions), e.operationId) == Some(e) || Justified(m, Run(cfg, s, actions).world, e)
      {
        RunKeeps(cfg, |s.trace|, s, actions, e, false);
      }
    } else {
      var k :| 0 <= k < |s.mem.pass| && s.mem.pass[k].operationId == e.operationId && !Covers(m, s.mem.pass[k], e);
      var actions := StaleItemUntracks(cfg, s, e, k);
      assert NoCrash(actions);
    }
  }

  // ---------------------------------------------------------------- whose stop requests

  lemma NeitherSetMeansNoStops(s: Sys, operationId: string)
    requires SetsAreCauses(s)
    ensures operationId !in s.mem.stopRequested && operationId !in s.mem.timeoutRequested <==>
            Stops(s.trace, operationId) == []
  {
    var stops := Stops(s.trace, operationId);
    if stops != [] {
      assert StoppedBy(s.trace, operationId, stops[0].cause);
    }
  }

  /** A stop that this cause made for this entry counts for its operation. */
  ghost predicate StoppedFor(trace: seq<Obs>, e: ActiveSubmission, cause: StopCause) {
    exists a :: 0 <= a < |Stops(trace, e.operationId)| && Stops(trace, e.operationId)[a].item == e
                && Stops(trace, e.operationId)[a].cause == cause
  }

  lemma OwnStopsAreTheOnlyOnes(trace: seq<Obs>, e: ActiveSubmission, cause: StopCause)
    requires OwnStops(trace, e)
    ensures StoppedFor(trace, e, cause) <==> StoppedBy(trace, e.operationId, cause)
  {
    var stops := Stops(trace, e.operationId);
    if StoppedBy(trace, e.operationId, cause) {
      var a :| 0 <= a < |stops| && stops[a].cause == cause;
      assert stops[a].item == e;
    }
  }

  /** An entry admitted while its operation was in neither request set, and with no other item of the
      operation in the pass, is judged by its own stops only: until a terminal event for it, every stop
      that counts for its operation was made for it, and the two sets hold its operation exactly if such a
      stop was caused by the marker or by the deadline. */
  lemma OwnStopsDecide(cfg: Config, s: Sys, actions: seq<Action>, e: ActiveSubmission)
    requires Safe(cfg.setting, s) && Aligned(cfg) && NoCrash(actions) && Tracked(s, e.operationId) == Some(e)
    requires e.operationId !in s.mem.stopRequested && e.operationId !in s.mem.timeoutRequested
    requires NothingForeign(s.mem.pass, e)
    ensures var s' := Run(cfg, s, actions);
            || Justified(cfg.setting.matcher, s'.world, e)
            || (&& Tracked(s', e.operationId) == Some(e) && OwnStops(s'.trace, e)
                && (e.operationId in s'.mem.stopRequested <==> StoppedFor(s'.trace, e, ByMarker))
                && (e.operationId in s'.mem.timeoutRequested <==> StoppedFor(s'.trace, e, ByDeadline)))
  {
    var s' := Run(cfg, s, actions);
    NeitherSetMeansNoStops(s, e.operationId);
    RunKeeps(cfg, |s.trace|, s, actions, e, true);
    RunSteps(cfg, s, actions);
    SetsStayCauses(cfg.setting, s, s');
    if !Justified(cfg.setting.matcher, s'.world, e) {
      SetsAreOwnStops(s', e);
    }
  }

  lemma SetsStayCauses(g: Setting, s: Sys, s': Sys)
    requires Safe(g, s) && Steps(g, s, s')
    ensures SetsAreCauses(s')
  {
    StepsAreSafe(g, s, s');
  }

  lemma SetsAreOwnStops(s: Sys, e: ActiveSubmission)
    requires SetsAreCauses(s) && OwnStops(s.trace, e)
    ensures e.operationId in s.mem.stopRequested <==> StoppedFor(s.trace, e, ByMarker)
    ensures e.operationId in s.mem.timeoutRequested <==> StoppedFor(s.trace, e, ByDeadline)
  {
    OwnStopsAreTheOnlyOnes(s.trace, e, ByMarker);
    OwnStopsAreTheOnlyOnes(s.trace, e, ByDeadline);
  }
}
