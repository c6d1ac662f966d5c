/** Redeliveries of one task converge, and a crash after admission loses nothing that recovery does
    not rebuild. */
module Convergence {
  import opened Wrappers
  import opened Domain
  import opened Lookback
  import opened World
  import opened Watcher
  import opened Protocol
  import opened Safety
  import opened Decimal
  import opened Jobs
  import opened Admission
  import opened AdmissionSteps
  import opened Recovery
  import opened Runs

  predicate Undisturbed(t: Tick) {
    t.before == []
  }

  /** No other thread acts during the attempt; every call may still raise. */
  predicate QuietScript(t: HandleScript) {
    && Undisturbed(t.invalid) && Undisturbed(t.gate) && Undisturbed(t.gatePublish) && Undisturbed(t.lookback)
    && Undisturbed(t.resume) && Undisturbed(t.secondGate) && Undisturbed(t.cancelled) && Undisturbed(t.submit)
    && Undisturbed(t.accepted) && t.existing == []
  }

  datatype Attempt = Attempt(script: HandleScript, ack: Tick)

  predicate QuietAttempt(a: Attempt) {
    QuietScript(a.script) && Undisturbed(a.ack)
  }

  /** The calls on which an acknowledgement of a tracked operation depends all took effect. */
  predicate Succeeds(a: Attempt) {
    a.script.gate.fault == Ok && a.script.lookback.fault == Ok && a.script.resume.fault == Ok
        && a.ack.fault != RaiseBefore
  }

  function SubmitCount(trace: seq<Obs>): nat {
    if trace == [] then 0
    else SubmitCount(trace[..|trace| - 1]) + if Last(trace).SubmitCalled? then 1 else 0
  }

  function AckCount(trace: seq<Obs>, d: Delivery): nat {
    if trace == [] then 0
    else AckCount(trace[..|trace| - 1], d) + if Last(trace).XAcked? && Last(trace).delivery == d then 1 else 0
  }

  lemma CountsOfNote(trace: seq<Obs>, o: Obs, d: Delivery)
    ensures SubmitCount(trace + [o]) == SubmitCount(trace) + if o.SubmitCalled? then 1 else 0
    ensures AckCount(trace + [o], d) == AckCount(trace, d) + if o.XAcked? && o.delivery == d then 1 else 0
  {
    assert (trace + [o])[..|trace|] == trace;
  }

  /** Appending an entry that decides nothing cannot make the lookback find something. */
  lemma NotFoundAfterAppend(m: Matcher, s: Stream, e: Entry, x: ActiveSubmission)
    requires BoundedScan(m, s, x).NotFound? && !Decisive(m, e, x)
    ensures BoundedScan(m, Stream(s.history + [e], s.dropped), x).NotFound?
  {
    var before, after := Newest(s, TERMINAL_LOOKBACK), Newest(Stream(s.history + [e], s.dropped), TERMINAL_LOOKBACK);
    assert FirstDecisive(m, before, x) == |before|;
    forall j | 0 <= j < |after| ensures !Decisive(m, after[j], x) {
      assert j > 0 ==> after[j] == before[j - 1];
    }
  }

  /** The delivery asks for the operation that `e` already tracks, is neither cancelled nor
      acknowledged, and no terminal event is visible. */
  ghost predicate Awaits(cfg: Config, s: Sys, m: Message, r: Request, e: ActiveSubmission) {
    && m.outerId != "" && m.delivery !in s.world.acked
    && ChannelOf(cfg, m).CancelKey(m.outerId) !in s.world.markers
    && Validate(cfg, m).Valid? && Validate(cfg, m).request == r
    && Tracked(s, r.operationId) == Some(e) && SameIdentity(e, r, m.delivery.operationType)
    && ScanOf(cfg, s.world, e).NotFound?
  }

  /** One redelivery of a tracked operation: it is acknowledged exactly when the calls it depends on
      took effect; it never submits; and otherwise everything it relied on still holds. */
  lemma RedeliveryOfTracked(cfg: Config, s: Sys, m: Message, r: Request, e: ActiveSubmission, a: Attempt)
    requires Awaits(cfg, s, m, r, e) && QuietAttempt(a)
    ensures var s' := Deliver(cfg, s, m, a.script, a.ack);
            && s'.mem == s.mem
            && SubmitCount(s'.trace) == SubmitCount(s.trace)
            && (m.delivery in s'.world.acked <==> Succeeds(a))
            && AckCount(s'.trace, m.delivery) == AckCount(s.trace, m.delivery) + (if Succeeds(a) then 1 else 0)
            && (!Succeeds(a) ==> Awaits(cfg, s', m, r, e))
  {
    var t := a.script;
    var s' := Deliver(cfg, s, m, t, a.ack);
    var event := AcceptedEvent(e.SubmissionId());
    NotFoundAfterAppend(cfg.setting.matcher, StreamAt(s.world, e.EventKey()), event, e);
    if t.gate.fault == Ok && t.lookback.fault == Ok {
      var key := ChannelOf(cfg, m).EventKey(r.operationId);
      var s1 := s.(world := Publish(s.world, key, event, t.resume.fault));
      assert ScanOf(cfg, s1.world, e).NotFound?;
      assert Handle(cfg, s, m, t) == Confirm(cfg, s, m, r.operationId, e.SubmissionId(), t.resume.fault,
          "RECOVERED_ADMISSION_UNCONFIRMED");
      CountsOfNote(s.trace, AcceptedReturned(m.delivery, r.operationId, e.SubmissionId()), m.delivery);
      CountsOfNote(s.trace + [AcceptedReturned(m.delivery, r.operationId, e.SubmissionId())],
                   XAcked(m.delivery, m.outerId), m.delivery);
    }
  }

  function Redeliver(cfg: Config, s: Sys, m: Message, attempts: seq<Attempt>): Sys {
    if attempts == [] then s
    else Deliver(cfg, Redeliver(cfg, s, m, attempts[..|attempts| - 1]), m, attempts[|attempts| - 1].script,
        attempts[|attempts| - 1].ack)
  }

  ghost predicate SomeSucceeds(attempts: seq<Attempt>) {
    exists i :: 0 <= i < |attempts| && Succeeds(attempts[i])
  }

  lemma SomeSucceedsStep(attempts: seq<Attempt>)
    requires attempts != []
    ensures SomeSucceeds(attempts) <==> SomeSucceeds(attempts[..|attempts| - 1]) || Succeeds(attempts[|attempts| - 1])
  {
    var front := attempts[..|attempts| - 1];
    if SomeSucceeds(front) {
      var i :| 0 <= i < |front| && Succeeds(front[i]);
      assert Succeeds(attempts[i]);
    }
    if SomeSucceeds(attempts) {
      var i :| 0 <= i < |attempts| && Succeeds(attempts[i]);
      if i < |front| {
        assert Succeeds(front[i]);
      }
    }
  }

  /** What a series of redeliveries has achieved. */
  ghost predicate Achieved(cfg: Config, s: Sys, s': Sys, m: Message, r: Request, e: ActiveSubmission, succeeded: bool) {
    && s'.mem == s.mem
    && SubmitCount(s'.trace) == SubmitCount(s.trace)
    && (m.delivery in s'.world.acked <==> succeeded)
    && AckCount(s'.trace, m.delivery) == AckCount(s.trace, m.delivery) + (if succeeded then 1 else 0)
    && (!succeeded ==> Awaits(cfg, s', m, r, e))
  }

  lemma OneMoreRetry(cfg: Config, s: Sys, s1: Sys, m: Message, r: Request, e: ActiveSubmission, succeeded: bool,
                     a: Attempt)
    requires Achieved(cfg, s, s1, m, r, e, succeeded) && QuietAttempt(a)
    ensures Achieved(cfg, s, Deliver(cfg, s1, m, a.script, a.ack), m, r, e, succeeded || Succeeds(a))
  {
    if succeeded {
      assert Deliver(cfg, s1, m, a.script, a.ack) == s1;
    } else {
      RedeliveryOfTracked(cfg, s1, m, r, e, a);
    }
  }

  /** Retry convergence: over any number of redeliveries with any pattern of failures, a tracked
      operation is never submitted again, stays tracked, and is acknowledged exactly once, at the
      first attempt that succeeds, if there is one. */
  lemma {:induction false} RetriesConverge(cfg: Config, s: Sys, m: Message, r: Request, e: ActiveSubmission,
                                           attempts: seq<Attempt>)
    requires Awaits(cfg, s, m, r, e)
    requires forall i :: 0 <= i < |attempts| ==> QuietAttempt(attempts[i])
    ensures Achieved(cfg, s, Redeliver(cfg, s, m, attempts), m, r, e, SomeSucceeds(attempts))
  {
    if attempts != [] {
      var front := attempts[..|attempts| - 1];
      RetriesConverge(cfg, s, m, r, e, front);
      OneMoreRetry(cfg, s, Redeliver(cfg, s, m, front), m, r, e, SomeSucceeds(front), attempts[|attempts| - 1]);
      SomeSucceedsStep(attempts);
    }
  }

  // ---------------------------------------------------------------- redelivery under interference

  /** The delivery asks for the operation that `e` stands for. */
  ghost predicate Asks(cfg: Config, m: Message, r: Request, e: ActiveSubmission) {
    && m.outerId != "" && r.operationId == m.outerId && e.operationId == r.operationId
    && Validate(cfg, m).Valid? && Validate(cfg, m).request == r
    && SameIdentity(e, r, m.delivery.operationType)
  }

  /** The state in which the attempt looks into the map. */
  function AtLookup(cfg: Config, s: Sys, m: Message, t: HandleScript): Sys {
    Interfere(cfg.setting.matcher, Gate(cfg, s, m, t).0, t.existing)
  }

  /** The operation is still tracked when the attempt is past its first gate, and when it looks into the
      map, if it gets there. */
  predicate StaysTracked(cfg: Config, s: Sys, m: Message, e: ActiveSubmission, t: HandleScript) {
    && Tracked(Gate(cfg, s, m, t).0, e.operationId) == Some(e)
    && (Gate(cfg, s, m, t).1.None? ==> Tracked(AtLookup(cfg, s, m, t), e.operationId) == Some(e))
  }

  /** What the lookback of the attempt answers. */
  function ScanAt(cfg: Config, s: Sys, m: Message, e: ActiveSubmission, t: HandleScript): Scan {
    ScanOf(cfg, Interfere(cfg.setting.matcher, AtLookup(cfg, s, m, t), t.lookback.before).world, e)
  }

  /** The attempt is told to stop, finds the operation finished, or confirms its admission; and each
      call that this takes returns. */
  predicate Answers(cfg: Config, s: Sys, m: Message, e: ActiveSubmission, t: HandleScript) {
    && t.gate.fault == Ok
    && (|| ChannelOf(cfg, m).CancelKey(m.outerId) in Interfere(cfg.setting.matcher, s, t.gate.before).world.markers
        || (t.lookback.fault == Ok && ScanAt(cfg, s, m, e, t).Found?)
        || (t.lookback.fault == Ok && ScanAt(cfg, s, m, e, t).NotFound? && t.resume.fault == Ok))
  }

  lemma GateOfTracked(cfg: Config, s: Sys, m: Message, r: Request, e: ActiveSubmission, t: HandleScript)
    requires Asks(cfg, m, r, e) && StaysTracked(cfg, s, m, e, t)
    ensures var out := Gate(cfg, s, m, t).1;
            var marked := ChannelOf(cfg, m).CancelKey(m.outerId) in Interfere(cfg.setting.matcher, s,
                                    t.gate.before).world.markers;
            && (out.Some? <==> t.gate.fault != Ok || marked)
            && (out.Some? ==> (out.value.Ack? <==> t.gate.fault == Ok))
  {
  }

  lemma ResumeAnswersNothing(cfg: Config, s: Sys, m: Message, r: Request, t: HandleScript)
    ensures Unanswered(s, Resume(cfg, s, m, r, t).0)
  {
    var s1 := Interfere(cfg.setting.matcher, s, t.existing);
    InterferenceAnswersNothing(cfg.setting.matcher, s, t.existing);
    if Tracked(s1, r.operationId).Some? {
      ResumeOfTracked(cfg, s1, m, r, Tracked(s1, r.operationId).value, t);
      UnansweredIsTransitive(s, s1, ResumeTracked(cfg, s1, m, r, Tracked(s1, r.operationId).value, t).0);
    }
  }

  lemma ResumeOfTracked(cfg: Config, s: Sys, m: Message, r: Request, e: ActiveSubmission, t: HandleScript)
    ensures var (s', out) := ResumeTracked(cfg, s, m, r, e, t);
            var scan := ScanOf(cfg, Interfere(cfg.setting.matcher, s, t.lookback.before).world, e);
            && Unanswered(s, s')
            && (out.Ack? <==> t.lookback.fault == Ok && (scan.Found? || (scan.NotFound? && t.resume.fault == Ok)))
  {
    var g := cfg.setting.matcher;
    var s1 := Interfere(g, s, t.lookback.before);
    InterferenceAnswersNothing(g, s, t.lookback.before);
    if t.lookback.fault == Ok && ScanOf(cfg, s1.world, e).NotFound? {
      var s2 := Interfere(g, s1, t.resume.before);
      InterferenceAnswersNothing(g, s1, t.resume.before);
      UnansweredIsTransitive(s, s1, s2);
      UnansweredIsTransitive(s, s2, ResumeTracked(cfg, s, m, r, e, t).0);
    }
  }

  lemma HandleOfTracked(cfg: Config, s: Sys, m: Message, r: Request, e: ActiveSubmission, t: HandleScript)
    requires Asks(cfg, m, r, e) && StaysTracked(cfg, s, m, e, t)
    ensures Unanswered(s, Handle(cfg, s, m, t).0)
    ensures Handle(cfg, s, m, t).1.Ack? <==> Answers(cfg, s, m, e, t)
  {
    var s1 := Gate(cfg, s, m, t).0;
    GateAnswersNothing(cfg, s, m, t);
    GateOfTracked(cfg, s, m, r, e, t);
    if Gate(cfg, s, m, t).1.None? {
      var s2 := AtLookup(cfg, s, m, t);
      InterferenceAnswersNothing(cfg.setting.matcher, s1, t.existing);
      UnansweredIsTransitive(s, s1, s2);
      ResumeOfTracked(cfg, s2, m, r, e, t);
      assert Handle(cfg, s, m, t) == ResumeTracked(cfg, s2, m, r, e, t);
      UnansweredIsTransitive(s, s2, Handle(cfg, s, m, t).0);
    }
  }

  /** Exactly one acknowledgement or none, and no submission, between two states. */
  ghost predicate AnsweredBy(s: Sys, s': Sys, d: Delivery, acked: bool) {
    && NoSubmitSince(s, s')
    && (d in s'.world.acked <==> acked)
    && AckCount(s'.trace, d) == AckCount(s.trace, d) + (if acked then 1 else 0)
  }

  lemma {:induction false} UnansweredKeepsAckCount(before: seq<Obs>, after: seq<Obs>, d: Delivery)
    requires before <= after && forall i :: |before| <= i < |after| ==> !after[i].XAcked?
    ensures AckCount(after, d) == AckCount(before, d)
  {
    if |after| == |before| {
      assert after == before;
    } else {
      UnansweredKeepsAckCount(before, after[..|after| - 1], d);
    }
  }

  lemma AckStage(cfg: Config, s: Sys, s1: Sys, m: Message, ack: Tick)
    requires Unanswered(s, s1) && m.delivery !in s.world.acked
    ensures var s2 := Interfere(cfg.setting.matcher, s1, ack.before);
            && AnsweredBy(s, s2, m.delivery, false)
            && AnsweredBy(s, AckDelivery(s2, m), m.delivery, true)
  {
    var s2 := Interfere(cfg.setting.matcher, s1, ack.before);
    InterferenceAnswersNothing(cfg.setting.matcher, s1, ack.before);
    UnansweredIsTransitive(s, s1, s2);
    UnansweredKeepsAckCount(s.trace, s2.trace, m.delivery);
    CountsOfNote(s2.trace, XAcked(m.delivery, m.outerId), m.delivery);
  }

  predicate Settles(cfg: Config, s: Sys, m: Message, e: ActiveSubmission, a: Attempt) {
    Answers(cfg, s, m, e, a.script) && a.ack.fault != RaiseBefore
  }

  /** One redelivery under any interference that leaves the operation tracked: no submission, and an
      acknowledgement exactly when the attempt settles it. */
  lemma RedeliveryUnderInterference(cfg: Config, s: Sys, m: Message, r: Request, e: ActiveSubmission, a: Attempt)
    requires Asks(cfg, m, r, e) && m.delivery !in s.world.acked && StaysTracked(cfg, s, m, e, a.script)
    ensures AnsweredBy(s, Deliver(cfg, s, m, a.script, a.ack), m.delivery, Settles(cfg, s, m, e, a))
  {
    var s1 := Handle(cfg, s, m, a.script).0;
    HandleOfTracked(cfg, s, m, r, e, a.script);
    AckStage(cfg, s, s1, m, a.ack);
    UnansweredKeepsAckCount(s.trace, s1.trace, m.delivery);
  }

  /** The attempt settles the delivery in the state it meets. */
  predicate SettlesAt(cfg: Config, s: Sys, m: Message, e: ActiveSubmission, attempts: seq<Attempt>, i: nat)
    requires i < |attempts|
  {
    var met := Redeliver(cfg, s, m, attempts[..i]);
    m.delivery !in met.world.acked && Settles(cfg, met, m, e, attempts[i])
  }

  ghost predicate SomeSettles(cfg: Config, s: Sys, m: Message, e: ActiveSubmission, attempts: seq<Attempt>) {
    exists i :: 0 <= i < |attempts| && SettlesAt(cfg, s, m, e, attempts, i)
  }

  lemma SettlesAtPrefix(cfg: Config, s: Sys, m: Message, e: ActiveSubmission, attempts: seq<Attempt>, i: nat)
    requires i < |attempts| - 1
    ensures SettlesAt(cfg, s, m, e, attempts, i) <==> SettlesAt(cfg, s, m, e, attempts[..|attempts| - 1], i)
  {
    assert attempts[..|attempts| - 1][..i] == attempts[..i];
  }

  lemma SomeSettlesLater(cfg: Config, s: Sys, m: Message, e: ActiveSubmission, attempts: seq<Attempt>)
    requires attempts != [] && SomeSettles(cfg, s, m, e, attempts[..|attempts| - 1])
    ensures SomeSettles(cfg, s, m, e, attempts)
  {
    var front := attempts[..|attempts| - 1];
    var i :| 0 <= i < |front| && SettlesAt(cfg, s, m, e, front, i);
    SettlesAtPrefix(cfg, s, m, e, attempts, i);
  }

  lemma SomeSettlesStep(cfg: Config, s: Sys, m: Message, e: ActiveSubmission, attempts: seq<Attempt>)
    requires attempts != []
    ensures SomeSettles(cfg, s, m, e, attempts) <==>
            || SomeSettles(cfg, s, m, e, attempts[..|attempts| - 1])
            || SettlesAt(cfg, s, m, e, attempts, |attempts| - 1)
  {
    if SomeSettles(cfg, s, m, e, attempts[..|attempts| - 1]) {
      SomeSettlesLater(cfg, s, m, e, attempts);
    } else if SomeSettles(cfg, s, m, e, attempts) {
      var i :| 0 <= i < |attempts| && SettlesAt(cfg, s, m, e, attempts, i);
      if i < |attempts| - 1 {
        SettlesAtPrefix(cfg, s, m, e, attempts, i);
      }
    }
  }

  /** Retry convergence: over any number of redeliveries, under any interference that leaves the
      operation tracked and any failures, nothing is submitted, and the delivery is acknowledged
      exactly once if some attempt settles it, and not at all otherwise. */
  lemma {:induction false} RetriesConvergeUnderInterference(cfg: Config, s: Sys, m: Message, r: Request,
                                                            e: ActiveSubmission, attempts: seq<Attempt>)
    requires Asks(cfg, m, r, e) && m.delivery !in s.world.acked
    requires forall i :: 0 <= i < |attempts| ==>
               || m.delivery in Redeliver(cfg, s, m, attempts[..i]).world.acked
               || StaysTracked(cfg, Redeliver(cfg, s, m, attempts[..i]), m, e, attempts[i].script)
    ensures AnsweredBy(s, Redeliver(cfg, s, m, attempts), m.delivery, SomeSettles(cfg, s, m, e, attempts))
  {
    if attempts != [] {
      var n := |attempts| - 1;
      var front := attempts[..n];
      assert forall i :: 0 <= i < n ==> front[..i] == attempts[..i];
      RetriesConvergeUnderInterference(cfg, s, m, r, e, front);
      SomeSettlesStep(cfg, s, m, e, attempts);
      OneMoreAttempt(cfg, s, Redeliver(cfg, s, m, front), m, r, e, SomeSettles(cfg, s, m, e, front), attempts[n]);
    }
  }

  lemma OneMoreAttempt(cfg: Config, s: Sys, mid: Sys, m: Message, r: Request, e: ActiveSubmission, settled: bool,
                       a: Attempt)
    requires Asks(cfg, m, r, e) && AnsweredBy(s, mid, m.delivery, settled)
    requires settled || StaysTracked(cfg, mid, m, e, a.script)
    ensures AnsweredBy(s, Deliver(cfg, mid, m, a.script, a.ack), m.delivery, settled || Settles(cfg, mid, m, e, a))
  {
    if settled {
      assert Deliver(cfg, mid, m, a.script, a.ack) == mid;
    } else {
      RedeliveryUnderInterference(cfg, mid, m, r, e, a);
      NoSubmitSinceIsTransitive(s, mid, Deliver(cfg, mid, m, a.script, a.ack));
    }
  }

  lemma NoSubmitSinceIsTransitive(a: Sys, b: Sys, c: Sys)
    requires NoSubmitSince(a, b) && NoSubmitSince(b, c)
    ensures NoSubmitSince(a, c)
  {
    forall i | |a.trace| <= i < |c.trace| ensures !c.trace[i].SubmitCalled? {
      if i < |b.trace| {
        assert c.trace[i] == b.trace[i];
      }
    }
  }

  // ---------------------------------------------------------------- from the first attempt

  /** The received time of a delivery, if the code can use it at all. */
  function ReceivedAt(m: Message, t: HandleScript): Option<int> {
    if m.receivedAt == "" then Some(t.nowMs) else ParseInt(m.receivedAt)
  }

  /** The delivery reaches the submitter, which returns a new job. */
  ghost predicate ReachesSubmitter(cfg: Config, s: Sys, m: Message, r: Request, t: HandleScript) {
    && m.outerId != "" && m.delivery !in s.world.acked && r.operationId == m.outerId
    && ChannelOf(cfg, m).CancelKey(m.outerId) !in s.world.markers
    && Validate(cfg, m).Valid? && Validate(cfg, m).request == r && r.digest.Some?
    && Tracked(s, r.operationId).None? && t.submissionId !in s.world.jobs
    && ReceivedAt(m, t).Some? && !Negative(ReceivedAt(m, t))
    && !Negative(Deadline(ReceivedAt(m, t).value, Validate(cfg, m).timeoutSeconds))
    && t.driverBytes <= cfg.maxDriverBytes
    && t.gate.fault == Ok && t.secondGate.fault == Ok && t.submit.fault == Ok
  }

  function EntryFor(cfg: Config, m: Message, r: Request, t: HandleScript): ActiveSubmission
    requires ReceivedAt(m, t).Some? && Validate(cfg, m).Valid?
  {
    AdmittedEntry(cfg, m, r, ReceivedAt(m, t).value, Deadline(ReceivedAt(m, t).value, Validate(cfg, m).timeoutSeconds),
        t)
  }

  /** The first attempt: one submitter call, and the entry is tracked even if ACCEPTED fails. */
  lemma FirstAttempt(cfg: Config, s: Sys, m: Message, r: Request, a: Attempt)
    requires ReachesSubmitter(cfg, s, m, r, a.script) && QuietAttempt(a)
    requires ScanOf(cfg, s.world, EntryFor(cfg, m, r, a.script)).NotFound?
    ensures var s' := Deliver(cfg, s, m, a.script, a.ack);
            var e := EntryFor(cfg, m, r, a.script);
            var acked := a.script.accepted.fault == Ok && a.ack.fault != RaiseBefore;
            && s'.mem == s.mem.(active := s.mem.active[r.operationId := e])
            && SubmitCount(s'.trace) == SubmitCount(s.trace) + 1
            && (m.delivery in s'.world.acked <==> acked)
            && AckCount(s'.trace, m.delivery) == AckCount(s.trace, m.delivery) + (if acked then 1 else 0)
            && (!acked ==> Awaits(cfg, s', m, r, e))
  {
    var t, d := a.script, m.delivery;
    var e := EntryFor(cfg, m, r, t);
    var event := AcceptedEvent(e.SubmissionId());
    NotFoundAfterAppend(cfg.setting.matcher, StreamAt(s.world, e.EventKey()), event, e);
    var md := MetadataOf(cfg.setting.entrypoint, e);
    var called := Note(s, SubmitCalled(e.operationId, None));
    var created := called.(world := CreateJob(s.world, e.SubmissionId(), md, t.rayJobId));
    var put := PutActive(created, e, FromCall(true));
    assert Handle(cfg, s, m, t) == Confirm(cfg, put, m, e.operationId, e.SubmissionId(), t.accepted.fault,
        RAY_ADMISSION_UNKNOWN);
    CountsOfNote(s.trace, SubmitCalled(e.operationId, None), d);
    CountsOfNote(called.trace, Put(e, None, FromCall(true)), d);
    CountsOfNote(put.trace, AcceptedReturned(d, r.operationId, e.SubmissionId()), d);
    CountsOfNote(put.trace + [AcceptedReturned(d, r.operationId, e.SubmissionId())], XAcked(d, m.outerId), d);
  }

  /** From the first submitter call that returned to the acknowledgement: exactly one submitter call
      and at most one acknowledgement, whatever fails in between. */
  lemma AdmissionConverges(cfg: Config, s: Sys, m: Message, r: Request, first: Attempt, retries: seq<Attempt>)
    requires ReachesSubmitter(cfg, s, m, r, first.script) && QuietAttempt(first)
    requires ScanOf(cfg, s.world, EntryFor(cfg, m, r, first.script)).NotFound?
    requires !(first.script.accepted.fault == Ok && first.ack.fault != RaiseBefore)
    requires forall i :: 0 <= i < |retries| ==> QuietAttempt(retries[i])
    ensures var s' := Redeliver(cfg, Deliver(cfg, s, m, first.script, first.ack), m, retries);
            var succeeded := SomeSucceeds(retries);
            && Tracked(s', r.operationId) == Some(EntryFor(cfg, m, r, first.script))
            && SubmitCount(s'.trace) == SubmitCount(s.trace) + 1
            && (m.delivery in s'.world.acked <==> succeeded)
            && AckCount(s'.trace, m.delivery) == AckCount(s.trace, m.delivery) + (if succeeded then 1 else 0)
  {
    FirstAttempt(cfg, s, m, r, first);
    RetriesConverge(cfg, Deliver(cfg, s, m, first.script, first.ack), m, r, EntryFor(cfg, m, r, first.script), retries);
  }

  /** Once a terminal event is visible, a redelivery whose calls take effect is acknowledged without
      a submission, and the entry leaves the map. */
  lemma VisibleTerminalEventAcknowledges(cfg: Config, s: Sys, m: Message, r: Request, e: ActiveSubmission, a: Attempt)
    requires m.outerId != "" && m.delivery !in s.world.acked && e.operationId == r.operationId
    requires ChannelOf(cfg, m).CancelKey(m.outerId) !in s.world.markers
    requires Validate(cfg, m).Valid? && Validate(cfg, m).request == r
    requires Tracked(s, r.operationId) == Some(e) && SameIdentity(e, r, m.delivery.operationType)
    requires ScanOf(cfg, s.world, e).Found?
    requires QuietAttempt(a) && a.script.gate.fault == Ok && a.script.lookback.fault == Ok && a.ack.fault != RaiseBefore
    ensures var s' := Deliver(cfg, s, m, a.script, a.ack);
            && m.delivery in s'.world.acked && AckCount(s'.trace, m.delivery) == AckCount(s.trace, m.delivery) + 1
            && SubmitCount(s'.trace) == SubmitCount(s.trace)
            && s'.mem == s.mem.(active := s.mem.active - {r.operationId})
  {
    var d := m.delivery;
    var seen := [Removed(e, e), TerminalSeen(d, e.SubmissionId()), XAcked(d, m.outerId)];
    CountsOfNote(s.trace, seen[0], d);
    CountsOfNote(s.trace + [seen[0]], seen[1], d);
    CountsOfNote(s.trace + [seen[0]] + [seen[1]], seen[2], d);
  }

  // ---------------------------------------------------------------- the first attempt under interference

  ghost predicate PutSince(s: Sys, s': Sys) {
    exists i :: |s.trace| <= i < |s'.trace| && s'.trace[i].Put?
  }

  /** Nothing was acknowledged; the submitter was called at most once, and nothing was put without it. */
  ghost predicate SubmitsOnce(s: Sys, s': Sys) {
    && s.trace <= s'.trace && s'.world.acked == s.world.acked
    && (forall i :: |s.trace| <= i < |s'.trace| ==> !s'.trace[i].XAcked?)
    && SubmitCount(s.trace) <= SubmitCount(s'.trace) <= SubmitCount(s.trace) + 1
    && (PutSince(s, s') ==> SubmitCount(s'.trace) == SubmitCount(s.trace) + 1)
  }

  lemma {:induction false} NoSubmitKeepsCount(before: seq<Obs>, after: seq<Obs>)
    requires before <= after && forall i :: |before| <= i < |after| ==> !after[i].SubmitCalled?
    ensures SubmitCount(after) == SubmitCount(before)
  {
    if |after| == |before| {
      assert after == before;
    } else {
      NoSubmitKeepsCount(before, after[..|after| - 1]);
    }
  }

  lemma UnansweredSubmitsNothing(s: Sys, s': Sys)
    requires Unanswered(s, s')
    ensures SubmitsOnce(s, s') && SubmitCount(s'.trace) == SubmitCount(s.trace) && !PutSince(s, s')
  {
    NoSubmitKeepsCount(s.trace, s'.trace);
  }

  lemma SubmitsOnceThen(a: Sys, b: Sys, c: Sys)
    requires Unanswered(a, b) && SubmitsOnce(b, c)
    ensures SubmitsOnce(a, c) && (PutSince(a, c) <==> PutSince(b, c))
  {
    UnansweredSubmitsNothing(a, b);
    forall i | |a.trace| <= i < |c.trace| ensures !c.trace[i].XAcked? && (i < |b.trace| ==> !c.trace[i].Put?) {
      if i < |b.trace| {
        assert c.trace[i] == b.trace[i];
      }
    }
  }

  lemma ThenUnanswered(a: Sys, b: Sys, c: Sys)
    requires SubmitsOnce(a, b) && Unanswered(b, c)
    ensures SubmitsOnce(a, c) && (PutSince(a, c) <==> PutSince(a, b))
  {
    UnansweredSubmitsNothing(b, c);
    forall i | |a.trace| <= i < |c.trace| ensures !c.trace[i].XAcked? && (i < |b.trace| ==> c.trace[i] == b.trace[i]) {
    }
    if PutSince(a, b) {
      var i :| |a.trace| <= i < |b.trace| && b.trace[i].Put?;
      assert c.trace[i].Put?;
    }
  }

  lemma CallSubmitsOnce(s: Sys, operationId: string)
    ensures var s' := Note(s, SubmitCalled(operationId, Tracked(s, operationId)));
            SubmitsOnce(s, s') && SubmitCount(s'.trace) == SubmitCount(s.trace) + 1 && !PutSince(s, s')
  {
    assert (s.trace + [SubmitCalled(operationId, Tracked(s, operationId))])[..|s.trace|] == s.trace;
  }

  lemma PutAfterCall(s: Sys, called: Sys, w: World, e: ActiveSubmission, origin: Origin)
    requires SubmitsOnce(s, called) && SubmitCount(called.trace) == SubmitCount(s.trace) + 1
             && w.acked == called.world.acked
    ensures var put := PutActive(called.(world := w), e, origin);
            SubmitsOnce(s, put) && PutSince(s, put)
  {
    var put := PutActive(called.(world := w), e, origin);
    assert put.trace[..|called.trace|] == called.trace && put.trace[|called.trace|].Put?;
  }

  lemma ConfirmationAnswersNothing(cfg: Config, s: Sys, m: Message, e: ActiveSubmission, accepted: Tick)
    ensures var s4 := Interfere(cfg.setting.matcher, s, accepted.before);
            Unanswered(s, Confirm(cfg, s4, m, e.operationId, e.SubmissionId(), accepted.fault, RAY_ADMISSION_UNKNOWN).0)
  {
    var s4 := Interfere(cfg.setting.matcher, s, accepted.before);
    InterferenceAnswersNothing(cfg.setting.matcher, s, accepted.before);
    UnansweredIsTransitive(s, s4, Confirm(cfg, s4, m, e.operationId, e.SubmissionId(), accepted.fault,
        RAY_ADMISSION_UNKNOWN).0);
  }

  /** Under any interference the entry is put exactly if the submitter returned, whatever becomes of
      ACCEPTED. */
  lemma SubmitPutsWhenItReturns(cfg: Config, s: Sys, m: Message, e: ActiveSubmission, t: HandleScript)
    requires e.receivedAtMs.Some?
    ensures var s' := Submit(cfg, s, m, e, t).0;
            && SubmitsOnce(s, s')
            && (PutSince(s, s') <==>
                && t.submit.fault == Ok
                && MayReturn(Interfere(cfg.setting.matcher, s, t.submit.before).world, e.SubmissionId(),
                    MetadataOf(cfg.setting.entrypoint, e)))
  {
    var s1 := Interfere(cfg.setting.matcher, s, t.submit.before);
    InterferenceAnswersNothing(cfg.setting.matcher, s, t.submit.before);
    CalledSubmitsOnce(cfg, s1, m, e, MetadataOf(cfg.setting.entrypoint, e), t);
    SubmitsOnceThen(s, s1, Submit(cfg, s, m, e, t).0);
  }

  lemma ReturnedCallPuts(cfg: Config, s1: Sys, m: Message, e: ActiveSubmission, w: World, origin: Origin,
                         accepted: Tick)
    requires w.acked == s1.world.acked
    ensures var s2 := Note(s1, SubmitCalled(e.operationId, Tracked(s1, e.operationId)));
            var s4 := Interfere(cfg.setting.matcher, PutActive(s2.(world := w), e, origin), accepted.before);
            var s' := Confirm(cfg, s4, m, e.operationId, e.SubmissionId(), accepted.fault, RAY_ADMISSION_UNKNOWN).0;
            SubmitsOnce(s1, s') && PutSince(s1, s')
  {
    var s2 := Note(s1, SubmitCalled(e.operationId, Tracked(s1, e.operationId)));
    CallSubmitsOnce(s1, e.operationId);
    PutAfterCall(s1, s2, w, e, origin);
    var put := PutActive(s2.(world := w), e, origin);
    ConfirmationAnswersNothing(cfg, put, m, e, accepted);
    var s4 := Interfere(cfg.setting.matcher, put, accepted.before);
    ThenUnanswered(s1, put,
                   Confirm(cfg, s4, m, e.operationId, e.SubmissionId(), accepted.fault, RAY_ADMISSION_UNKNOWN).0);
  }

  lemma RaisedCallPutsNothing(s1: Sys, operationId: string, w: World)
    requires w.acked == s1.world.acked
    ensures var s' := Note(s1, SubmitCalled(operationId, Tracked(s1, operationId))).(world := w);
            SubmitsOnce(s1, s') && !PutSince(s1, s')
  {
    CallSubmitsOnce(s1, operationId);
  }

  /** From the call on. */
  lemma CalledSubmitsOnce(cfg: Config, s1: Sys, m: Message, e: ActiveSubmission, md: Metadata, t: HandleScript)
    ensures var s' := Called(cfg, s1, m, e, md, t).0;
            && SubmitsOnce(s1, s')
            && (PutSince(s1, s') <==> t.submit.fault == Ok && MayReturn(s1.world, e.SubmissionId(), md))
  {
    var w := CreateJob(s1.world, e.SubmissionId(), md, t.rayJobId);
    if t.submit.fault == Ok && MayReturn(s1.world, e.SubmissionId(), md) {
      ReturnedCallPuts(cfg, s1, m, e, w, FromCall(e.SubmissionId() !in s1.world.jobs), t.accepted);
    } else if t.submit.fault == RaiseBefore || !MayReturn(s1.world, e.SubmissionId(), md) {
      RaisedCallPutsNothing(s1, e.operationId, s1.world);
    } else {
      RaisedCallPutsNothing(s1, e.operationId, w);
    }
  }

  lemma SecondGateAnswersNothing(cfg: Config, s: Sys, m: Message, r: Request, t: HandleScript)
    ensures Unanswered(s, SecondGate(cfg, s, m, r, t).0)
  {
    var g := cfg.setting.matcher;
    var s1 := Interfere(g, s, t.secondGate.before);
    InterferenceAnswersNothing(g, s, t.secondGate.before);
    var seen := Note(s1, MarkerSeen(m.delivery));
    var s2 := Interfere(g, seen, t.cancelled.before);
    InterferenceAnswersNothing(g, seen, t.cancelled.before);
    UnansweredIsTransitive(s, seen, s2);
    UnansweredIsTransitive(s, s2, PublishCancelled(cfg, s2, m, r.operationId, t.cancelled.fault).0);
  }

  lemma AdmitSubmitsOnce(cfg: Config, s: Sys, m: Message, r: Request, timeoutSeconds: Option<real>, t: HandleScript)
    ensures SubmitsOnce(s, Admit(cfg, s, m, r, timeoutSeconds, t).0)
  {
    InvalidAnswersNothing(cfg, s, m, "DRIVER_INPUT_TOO_LARGE", t);
    UnansweredSubmitsNothing(s, Invalid(cfg, s, m, "DRIVER_INPUT_TOO_LARGE", t).0);
    if ReceivedAt(m, t).Some? {
      var deadline := Deadline(ReceivedAt(m, t).value, timeoutSeconds);
      SubmitPutsWhenItReturns(cfg, s, m, AdmittedEntry(cfg, m, r, ReceivedAt(m, t).value, deadline, t), t);
    }
  }

  lemma ProceedSubmitsOnce(cfg: Config, s: Sys, m: Message, r: Request, timeoutSeconds: Option<real>, t: HandleScript)
    ensures SubmitsOnce(s, Proceed(cfg, s, m, r, timeoutSeconds, t).0)
  {
    var s1 := Resume(cfg, s, m, r, t).0;
    var s2 := SecondGate(cfg, s1, m, r, t).0;
    ResumeAnswersNothing(cfg, s, m, r, t);
    UnansweredSubmitsNothing(s, s1);
    SecondGateAnswersNothing(cfg, s1, m, r, t);
    UnansweredIsTransitive(s, s1, s2);
    UnansweredSubmitsNothing(s, s2);
    AdmitSubmitsOnce(cfg, s2, m, r, timeoutSeconds, t);
    SubmitsOnceThen(s, s2, Admit(cfg, s2, m, r, timeoutSeconds, t).0);
  }

  /** Handling a delivery, under any interference, calls the submitter at most once and puts nothing
      without calling it. */
  lemma HandleSubmitsOnce(cfg: Config, s: Sys, m: Message, t: HandleScript)
    ensures SubmitsOnce(s, Handle(cfg, s, m, t).0)
  {
    if m.outerId == "" {
      InvalidAnswersNothing(cfg, s, m, "INVALID_OPERATION_ID", t);
      UnansweredSubmitsNothing(s, Handle(cfg, s, m, t).0);
    } else {
      var s1 := Gate(cfg, s, m, t).0;
      GateAnswersNothing(cfg, s, m, t);
      UnansweredSubmitsNothing(s, s1);
      AfterGateSubmitsOnce(cfg, s1, m, t);
      SubmitsOnceThen(s, s1, AfterGate(cfg, s1, m, t).0);
    }
  }

  lemma AfterGateSubmitsOnce(cfg: Config, s: Sys, m: Message, t: HandleScript)
    ensures SubmitsOnce(s, AfterGate(cfg, s, m, t).0)
  {
    match Validate(cfg, m)
    case ValidationEscaped =>
      UnansweredSubmitsNothing(s, s);
    case Bad(code) =>
      InvalidAnswersNothing(cfg, s, m, code, t);
      UnansweredSubmitsNothing(s, Invalid(cfg, s, m, code, t).0);
    case Valid(r, timeout) =>
      ProceedSubmitsOnce(cfg, s, m, r, timeout, t);
  }

  /** A delivery that was not acknowledged submitted at most once. */
  lemma UnackedDeliverySubmitsOnce(cfg: Config, s: Sys, m: Message, a: Attempt)
    requires m.delivery !in Deliver(cfg, s, m, a.script, a.ack).world.acked && m.delivery !in s.world.acked
    ensures SubmitsOnce(s, Deliver(cfg, s, m, a.script, a.ack))
  {
    var (s1, out) := Handle(cfg, s, m, a.script);
    HandleSubmitsOnce(cfg, s, m, a.script);
    if out.Ack? {
      var s2 := Interfere(cfg.setting.matcher, s1, a.ack.before);
      InterferenceAnswersNothing(cfg.setting.matcher, s1, a.ack.before);
      ThenUnanswered(s, s1, s2);
    }
  }

  /** From the first returned submitter call to the acknowledgement, under any interference that leaves the
      operation tracked and any failures: exactly one submitter call, and exactly one acknowledgement if
      some redelivery settles the delivery, and none otherwise. */
  lemma AdmissionConvergesUnderInterference(cfg: Config, s: Sys, m: Message, r: Request, e: ActiveSubmission,
                                            first: Attempt, retries: seq<Attempt>)
    requires Asks(cfg, m, r, e) && m.delivery !in s.world.acked
    requires var s1 := Deliver(cfg, s, m, first.script, first.ack);
             && m.delivery !in s1.world.acked && PutSince(s, s1)
             && forall i :: 0 <= i < |retries| ==>
                              || m.delivery in Redeliver(cfg, s1, m, retries[..i]).world.acked
                              || StaysTracked(cfg, Redeliver(cfg, s1, m, retries[..i]), m, e, retries[i].script)
    ensures var s1 := Deliver(cfg, s, m, first.script, first.ack);
            var s' := Redeliver(cfg, s1, m, retries);
            var settled := SomeSettles(cfg, s1, m, e, retries);
            && SubmitCount(s'.trace) == SubmitCount(s.trace) + 1
            && (m.delivery in s'.world.acked <==> settled)
            && AckCount(s'.trace, m.delivery) == AckCount(s.trace, m.delivery) + (if settled then 1 else 0)
  {
    var s1 := Deliver(cfg, s, m, first.script, first.ack);
    UnackedDeliverySubmitsOnce(cfg, s, m, first);
    RetriesConvergeUnderInterference(cfg, s1, m, r, e, retries);
    var s' := Redeliver(cfg, s1, m, retries);
    NoSubmitKeepsCount(s1.trace, s'.trace);
    UnansweredKeepsAckCount(s.trace, s1.trace, m.delivery);
  }

  // ---------------------------------------------------------------- crash refinement

  /** Whatever happens after a submitter call created a job, in every reachable state the job keeps the
      metadata of the entry that was put. */
  lemma AdmittedJobKeepsMetadata(cfg: Config, s0: Sys, actions: seq<Action>, i: nat)
    requires Fresh(s0) && Aligned(cfg)
    requires var trace := Run(cfg, s0, actions).trace; i < |trace| && trace[i].Put? && trace[i].origin == FromCall(true)
    ensures var s := Run(cfg, s0, actions);
            var e := s.trace[i].entry;
            Admissible(cfg.setting.channels, e)
                && JobCarries(s.world, e.SubmissionId(), MetadataOf(cfg.setting.entrypoint, e))
  {
    ReachableIsSafe(cfg, s0, actions);
    assert BackedBy(cfg.setting, Run(cfg, s0, actions).world, Run(cfg, s0, actions).trace[i].entry, FromCall(true));
  }

  /** The entry was put by recovery, or by a call that created its job, with no empty identity. */
  ghost predicate CanBeReadBack(cfg: Config, trace: seq<Obs>, e: ActiveSubmission) {
    exists i :: 0 <= i < |trace| && trace[i].Put? && trace[i].entry == e && ReadsBack(cfg, e, trace[i].origin)
  }

  predicate ReadsBack(cfg: Config, e: ActiveSubmission, origin: Origin) {
    origin == FromListing || (origin == FromCall(true) && Identified(cfg.setting.entrypoint, e))
  }

  /** In a safe state such an entry's job stands for it, unless a terminal event is visible or Ray reports
      a status that recovery does not know. */
  lemma PutEntryStandsForItself(cfg: Config, s: Sys, e: ActiveSubmission)
    requires Safe(cfg.setting, s) && CanBeReadBack(cfg, s.trace, e)
    requires var own := ViewOf(s.world, e.SubmissionId());
             own.status != OtherStatus && ScanOf(cfg, s.world, WithRayJobId(e, own.rayJobId)).NotFound?
    ensures StandsFor(cfg, s.world, e)
  {
    var g := cfg.setting;
    var i :| 0 <= i < |s.trace| && s.trace[i].Put? && s.trace[i].entry == e && ReadsBack(cfg, e, s.trace[i].origin);
    assert BackedBy(g, s.world, e, s.trace[i].origin);
    if s.trace[i].origin.FromCall? {
      CarriedDecodes(g.channels, g.entrypoint, s.world, e);
    }
    var own := ViewOf(s.world, e.SubmissionId());
    DecodeIgnoresProgress(g.channels, g.entrypoint, JobView(Some(e.SubmissionId()), None, Pending, own.metadata), own);
  }

  /** Crash refinement: in every reachable state, a tracked entry that recovery put, or a call that created
      its job, is rebuilt after a crash, all but its Ray job id, when no terminal event for it is visible
      and no other live job of the operation is listed before its own. */
  lemma CrashIsRefined(cfg: Config, s0: Sys, actions: seq<Action>, e: ActiveSubmission, listing: seq<Listed>, i: nat)
    requires Fresh(s0) && Aligned(cfg)
    requires var s := Run(cfg, s0, actions);
             var own := ViewOf(s.world, e.SubmissionId());
             && Tracked(s, e.operationId) == Some(e) && CanBeReadBack(cfg, s.trace, e)
             && own.status != OtherStatus && ScanOf(cfg, s.world, WithRayJobId(e, own.rayJobId)).NotFound?
             && i < |listing| && listing[i].view == own
             && FirstLive(cfg, s.world, Views(listing)[..i], e.operationId).None?
             && !RecoverAll(cfg, Crash(s), listing).1
    requires forall k :: 0 <= k < |listing| ==> Quiet(listing[k].tick)
    ensures var s := Run(cfg, s0, actions);
            var rebuilt := Tracked(RecoverAll(cfg, Crash(s), listing).0, e.operationId);
            rebuilt == Some(WithRayJobId(e, ViewOf(s.world, e.SubmissionId()).rayJobId))
  {
    ReachableIsSafe(cfg, s0, actions);
    PutEntryStandsForItself(cfg, Run(cfg, s0, actions), e);
    ListedEntryIsRebuilt(cfg, Run(cfg, s0, actions), listing, e, i);
  }

  /** And so is the whole map, when this holds of every tracked entry and the listing shows no other live
      job. */
  lemma CrashedMapIsRefined(cfg: Config, s0: Sys, actions: seq<Action>, listing: seq<Listed>)
    requires Fresh(s0) && Aligned(cfg)
    requires forall k :: 0 <= k < |listing| ==> Quiet(listing[k].tick)
    requires var s := Run(cfg, s0, actions);
             && (forall op :: op in s.mem.active ==>
                                var e := s.mem.active[op];
                                var own := ViewOf(s.world, e.SubmissionId());
                                && CanBeReadBack(cfg, s.trace, e) && own.status != OtherStatus && own in Views(listing)
                                && ScanOf(cfg, s.world, WithRayJobId(e, own.rayJobId)).NotFound?)
             && (forall k :: 0 <= k < |listing| && Live(cfg, s.world, listing[k].view).Some? ==>
                               var op := Live(cfg, s.world, listing[k].view).value.operationId;
                               op in s.mem.active
                                   && listing[k].view == ViewOf(s.world, s.mem.active[op].SubmissionId()))
             && !RecoverAll(cfg, Crash(s), listing).1
    ensures var s := Run(cfg, s0, actions);
            var recovered := RecoverAll(cfg, Crash(s), listing).0.mem.active;
            && recovered.Keys == s.mem.active.Keys
            && forall op :: op in s.mem.active ==>
                              recovered[op]
                                  == WithRayJobId(s.mem.active[op],
                                      ViewOf(s.world, s.mem.active[op].SubmissionId()).rayJobId)
  {
    var s := Run(cfg, s0, actions);
    ReachableIsSafe(cfg, s0, actions);
    forall op | op in s.mem.active ensures StandsFor(cfg, s.world, s.mem.active[op]) {
      PutEntryStandsForItself(cfg, s, s.mem.active[op]);
    }
    CrashedMapIsRebuilt(cfg, s, listing);
  }

  /** A submitter call that takes over the job of an earlier, unconfirmed call tracks an entry with the
      new times while the job keeps the first ones: what a restart would rebuild is the tracked entry,
      all but its Ray job id, if and only if the times agree. */
  lemma TakenOverEntryIsRefinedIffTimesAgree(cfg: Config, s: Sys, m: Message, first: ActiveSubmission,
                                             e: ActiveSubmission, t: HandleScript)
    requires QuietScript(t) && t.submit.fault == Ok && Tracked(s, e.operationId).None?
    requires e.receivedAtMs.Some? && Survives(cfg, s.world, first)
    requires e.(receivedAtMs := first.receivedAtMs, deadlineAtMs := first.deadlineAtMs) == first
    requires MayReturn(s.world, e.SubmissionId(), MetadataOf(cfg.setting.entrypoint, e))
    ensures var s' := Submit(cfg, s, m, e, t).0;
            && Tracked(s', e.operationId) == Some(e)
            && (Eligible(cfg, ViewOf(s'.world, e.SubmissionId()))
                == Some(WithRayJobId(e, s'.world.jobs[e.SubmissionId()].rayJobId))
                <==> e.receivedAtMs == first.receivedAtMs && e.deadlineAtMs == first.deadlineAtMs)
  {
    var s' := Submit(cfg, s, m, e, t).0;
    assert s'.world.jobs == s.world.jobs;
    TakenOverEntryKeepsFirstTimes(cfg, s.world, first, e);
  }
}
