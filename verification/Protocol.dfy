/** The protocol as guarded atomic steps, and what every sequence of them keeps. */
module Protocol {
  import opened Wrappers
  import opened Domain
  import opened Lookback
  import opened World
  import opened Jobs
  import opened Watcher

  ghost predicate Justified(m: Matcher, w: World, x: ActiveSubmission) {
    EverPublished(m, StreamAt(w, x.EventKey()).history, x)
  }

  ghost predicate HasJob(w: World, operationId: string) {
    exists sid :: sid in w.jobs && Carries(w.jobs[sid], operationId)
  }

  ghost predicate CancelledIn(w: World, key: string) {
    exists i :: 0 <= i < |StreamAt(w, key).history| && IsCancelled(StreamAt(w, key).history[i])
  }

  predicate IsCancelled(e: Entry) {
    e.Event? && e.eventType == Name("CANCELLED")
  }

  /** The events that admission publishes. */
  function AcceptedEvent(submissionId: string): Entry {
    Event(Name("ACCEPTED"), Some(submissionId), "", ByAdmission)
  }

  function RejectionEvent(code: string): Entry {
    Event(Name("FAILED"), None, code, ByAdmission)
  }

  /** The operation a rejection is reported under: the envelope's, or one made of the delivery. */
  function ReportedId(d: Delivery, operationId: string): string {
    if operationId != "" then operationId else "invalid-" + d.token
  }

  ghost predicate IsIn(w: World, key: string, e: Entry) {
    exists i :: 0 <= i < |StreamAt(w, key).history| && StreamAt(w, key).history[i] == e
  }

  /** A FAILED publication with some code was attempted for the delivery; unless it raised before it
      took effect, the event is in the stream. */
  ghost predicate WasRejected(c: Channels, w: World, trace: seq<Obs>, d: Delivery, operationId: string) {
    exists i :: 0 <= i < |trace| && RejectedAt(c, w, trace[i], d, operationId)
  }

  ghost predicate RejectedAt(c: Channels, w: World, o: Obs, d: Delivery, operationId: string) {
    && o.RejectionAttempted? && o.delivery == d && o.operationId == ReportedId(d, operationId)
    && (o.fault != RaiseBefore ==> IsIn(w, c.For(d.operationType).EventKey(o.operationId), RejectionEvent(o.code)))
  }

  /** What an acknowledged delivery leaves behind. */
  ghost predicate Supported(c: Channels, w: World, trace: seq<Obs>, d: Delivery, operationId: string) {
    || HasJob(w, operationId)
    || CancelledIn(w, c.For(d.operationType).EventKey(operationId))
    || WasRejected(c, w, trace, d, operationId)
  }

  datatype Setting = Setting(matcher: Matcher, channels: Channels, entrypoint: string)

  /** What a put entry has to do with the metadata of its job: recovery decodes the entry from them, and
      a submitter call that creates the job writes them from the entry. */
  ghost predicate BackedBy(g: Setting, w: World, e: ActiveSubmission, origin: Origin) {
    match origin
    case FromListing => DecodesTo(g.channels, g.entrypoint, w, e)
    case FromCall(created) =>
      Admissible(g.channels, e) && (created ==> JobCarries(w, e.SubmissionId(), MetadataOf(g.entrypoint, e)))
  }

  function Last(trace: seq<Obs>): Obs
    requires trace != []
  {
    trace[|trace| - 1]
  }

  /** The fallback guard: the latest lookback for this item found no fallback of the watcher, or the
      newest one was sixteen or more events back or trimmed away. */
  ghost predicate LookedBefore(trace: seq<Obs>, x: ActiveSubmission) {
    && |trace| >= 2
    && trace[|trace| - 2].Looked? && trace[|trace| - 2].item == x
    && Unseen(trace[|trace| - 2])
  }

  /** The last thing observed is the item's marker. */
  predicate ReadMarker(trace: seq<Obs>, x: ActiveSubmission, present: bool) {
    trace != [] && Last(trace).MarkerRead? && Last(trace).item == x && Last(trace).present == present
  }

  predicate Unseen(o: Obs)
    requires o.Looked?
  {
    o.after.None? || o.after.value >= Min(TERMINAL_LOOKBACK, o.retained)
  }

  /** A step that the trace does not show. */
  ghost predicate SilentNext(s: Sys, s': Sys) {
    && s'.trace == s.trace
    && s'.mem == s.mem.(pass := s'.mem.pass)
    && Extends(s.world, s'.world)
  }

  ghost predicate ObsNext(g: Setting, s: Sys, s': Sys, o: Obs) {
    match o
    case SubmitCalled(op, tracked) =>
      s'.mem == s.mem && s'.world == s.world && tracked == Tracked(s, op) == None
    case Put(e, displaced, origin) =>
      && s'.world == s.world
      && displaced == Tracked(s, e.operationId) == None
      && e.SubmissionId() in s.world.jobs && Carries(s.world.jobs[e.SubmissionId()], e.operationId)
      && BackedBy(g, s.world, e, origin)
      && s'.mem == s.mem.(active := s.mem.active[e.operationId := e])
    case Removed(e, x) =>
      && s'.world == s.world
      && Tracked(s, x.operationId) == Some(e)
      && Justified(g.matcher, s.world, x)
      && s'.mem == s.mem.(active := s.mem.active - {x.operationId})
    case Looked(x, after, retained) =>
      && s'.mem == s.mem && s'.world == s.world
      && after == EventsAfterFallback(StreamAt(s.world, x.EventKey()).history, x.SubmissionId())
      && retained == Retained(StreamAt(s.world, x.EventKey()))
    case MarkerRead(x, present, deletions) =>
      && s'.mem == s.mem && s'.world == s.world
      && (present <==> x.CancelKey() in s.world.markers) && deletions == Deletions(s.world, x.CancelKey())
    case StopReturned(x, cause, deletions, nowMs) =>
      && (cause == ByDeadline ==> TimedOut(x, nowMs))
      && s.trace != [] && Last(s.trace) == MarkerRead(x, cause == ByMarker, deletions)
      && s'.world == s.world.(stopping := s.world.stopping + {x.SubmissionId()})
      && s'.mem == (if cause == ByMarker
                    then s.mem.(stopRequested := s.mem.stopRequested + {x.operationId})
                    else s.mem.(timeoutRequested := s.mem.timeoutRequested + {x.operationId}))
    case Wrote(x, status, present, nowMs, kind, code) =>
      && ReadMarker(s.trace, x, present) && LookedBefore(s.trace, x)
      && x.SubmissionId() in s.world.jobs && s.world.jobs[x.SubmissionId()].status == status && IsFinal(status)
      && (kind, code) == VerdictIn(s.mem, x, status, present, TimedOut(x, nowMs))
      && s'.world == Append(s.world, x.EventKey(), Fallback(x, kind, code))
      && s'.mem == s.mem
    case Discarded(op) =>
      && s'.world == s.world
      && s'.mem == s.mem.(stopRequested := s.mem.stopRequested - {op},
                          timeoutRequested := s.mem.timeoutRequested - {op})
    case XAcked(d, op) =>
      && d !in s.world.acked && Supported(g.channels, s.world, s.trace, d, op)
      && s'.world == s.world.(acked := s.world.acked + {d})
      && s'.mem == s.mem
    case RejectionAttempted(d, op, code, fault) =>
      && s'.mem == s.mem
      && s'.world == Publish(s.world, g.channels.For(d.operationType).EventKey(op), RejectionEvent(code), fault)
    case AcceptedReturned(d, op, sid) =>
      && s'.mem == s.mem
      && s'.world == Append(s.world, g.channels.For(d.operationType).EventKey(op), AcceptedEvent(sid))
    case Crashed =>
      s'.world == s.world && s'.mem == EMPTY_MEMORY
    case _ =>
      s'.mem == s.mem && s'.world == s.world
  }

  ghost predicate Next(g: Setting, s: Sys, s': Sys) {
    || SilentNext(s, s')
    || (&& |s'.trace| == |s.trace| + 1
        && s'.trace[..|s.trace|] == s.trace
        && ObsNext(g, s, s', Last(s'.trace)))
  }

  lemma NoteNext(g: Setting, s: Sys, s': Sys, o: Obs)
    requires s'.trace == s.trace + [o]
    requires ObsNext(g, s, s', o)
    ensures Next(g, s, s')
  {
  }

  ghost predicate IsExecution(g: Setting, states: seq<Sys>) {
    states != [] && forall i :: 0 < i < |states| ==> Next(g, states[i - 1], states[i])
  }

  /** Finitely many atomic steps lead from one state to the other. */
  ghost predicate Steps(g: Setting, s: Sys, s': Sys) {
    exists states :: IsExecution(g, states) && states[0] == s && states[|states| - 1] == s'
  }

  lemma StepsReflexive(g: Setting, s: Sys)
    ensures Steps(g, s, s)
  {
    assert IsExecution(g, [s]);
  }

  lemma StepsOnce(g: Setting, s: Sys, s': Sys)
    requires Next(g, s, s')
    ensures Steps(g, s, s')
  {
    assert IsExecution(g, [s, s']);
  }

  /** Two executions that meet make one. */
  lemma ExecutionsJoin(g: Setting, p: seq<Sys>, q: seq<Sys>)
    requires IsExecution(g, p) && IsExecution(g, q) && p[|p| - 1] == q[0]
    ensures IsExecution(g, p + q[1..])
  {
    var r := p + q[1..];
    forall i | 0 < i < |r| ensures Next(g, r[i - 1], r[i]) {
      if i < |p| {
        assert r[i - 1] == p[i - 1] && r[i] == p[i];
      } else {
        assert r[i - 1] == q[i - |p|] && r[i] == q[i - |p| + 1];
      }
    }
  }

  lemma StepsTransitive(g: Setting, a: Sys, b: Sys, c: Sys)
    requires Steps(g, a, b) && Steps(g, b, c)
    ensures Steps(g, a, c)
  {
    var p :| IsExecution(g, p) && p[0] == a && p[|p| - 1] == b;
    var q :| IsExecution(g, q) && q[0] == b && q[|q| - 1] == c;
    ExecutionsJoin(g, p, q);
    var r := p + q[1..];
    assert r[0] == a && r[|r| - 1] == c;
  }

  /** Steps that end with one more observation. */
  lemma StepsThenNote(g: Setting, a: Sys, b: Sys, c: Sys, o: Obs)
    requires Steps(g, a, b) && c.trace == b.trace + [o] && ObsNext(g, b, c, o)
    ensures Steps(g, a, c)
  {
    NoteNext(g, b, c, o);
    StepsThen(g, a, b, c);
  }

  /** Steps that end with one more atomic step. */
  lemma StepsThen(g: Setting, a: Sys, b: Sys, c: Sys)
    requires Steps(g, a, b) && Next(g, b, c)
    ensures Steps(g, a, c)
  {
    StepsOnce(g, b, c);
    StepsTransitive(g, a, b, c);
  }
}
