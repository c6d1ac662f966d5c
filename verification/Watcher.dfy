/** One item's body of the lifecycle watcher as a state transformer, and the interference that the
    consumer thread can meet between two of its own calls. */
module Watcher {
  import opened Wrappers
  import opened Domain
  import opened Lookback
  import opened World

  /** The environment acts before the call; then the call returns or raises. */
  datatype EnvTick = EnvTick(before: seq<EnvStep>, fault: Fault)

  datatype ItemScript = ItemScript(lookback: EnvTick, status: EnvTick, marker: EnvTick, nowMs: int, effect: EnvTick)

  function LookAt(m: Matcher, s: Sys, x: ActiveSubmission, t: EnvTick): (Sys, Scan) {
    var s0 := Env(s, t.before);
    var stream := StreamAt(s0.world, x.EventKey());
    if t.fault != Ok then (s0, ScanRaised)
    else (Note(s0, Looked(x, EventsAfterFallback(stream.history, x.SubmissionId()), Retained(stream))),
          BoundedScan(m, stream, x))
  }

  function Forget(s: Sys, x: ActiveSubmission): Sys {
    DiscardRequests(RemoveActive(s, x), x.operationId)
  }

  predicate TimedOut(x: ActiveSubmission, nowMs: int) {
    x.deadlineAtMs.Some? && nowMs >= x.deadlineAtMs.value
  }

  predicate TimeoutStop(mem: Memory, operationId: string, present: bool, timedOut: bool) {
    operationId in mem.timeoutRequested || (timedOut && !present && operationId !in mem.stopRequested)
  }

  /** Event type and error code of the fallback for a final Ray status. */
  function Verdict(status: RayStatus, timeoutStop: bool, cancelIntent: bool): (string, string) {
    if status == Stopped then
      if timeoutStop then ("FAILED", "EXECUTION_TIMEOUT")
      else if cancelIntent then ("CANCELLED", "")
      else ("FAILED", "RAY_JOB_STOPPED")
    else
      ("FAILED", if timeoutStop then "EXECUTION_TIMEOUT"
                 else if status == Failed then "RAY_JOB_FAILED" else "TERMINAL_EVENT_MISSING")
  }

  function VerdictIn(mem: Memory, x: ActiveSubmission, status: RayStatus, present: bool,
                     timedOut: bool): (string, string) {
    Verdict(status, TimeoutStop(mem, x.operationId, present, timedOut),
            present || x.operationId in mem.stopRequested)
  }

  function Fallback(x: ActiveSubmission, kind: string, code: string): Entry {
    Event(Name(kind), Some(x.SubmissionId()), code, ByWatcher)
  }

  function ReportFinal(s: Sys, x: ActiveSubmission, status: RayStatus, present: bool, nowMs: int,
                       fault: Fault): Sys {
    var (kind, code) := VerdictIn(s.mem, x, status, present, TimedOut(x, nowMs));
    var written := Note(s.(world := Append(s.world, x.EventKey(), Fallback(x, kind, code))),
                        Wrote(x, status, present, nowMs, kind, code));
    match fault
    case RaiseBefore => s
    case RaiseAfter => written
    case Ok => Forget(written, x)
  }

  function RequestStop(s: Sys, x: ActiveSubmission, present: bool, deletions: nat, nowMs: int, fault: Fault): Sys {
    var asked := s.(world := s.world.(stopping := s.world.stopping + {x.SubmissionId()}));
    match fault
    case RaiseBefore => s
    case RaiseAfter => asked
    case Ok =>
      var mem := if present
                 then s.mem.(stopRequested := s.mem.stopRequested + {x.operationId})
                 else s.mem.(timeoutRequested := s.mem.timeoutRequested + {x.operationId});
      Note(asked.(mem := mem), StopReturned(x, if present then ByMarker else ByDeadline, deletions, nowMs))
  }

  function ActOnStatus(s: Sys, x: ActiveSubmission, status: RayStatus, t: ItemScript): Sys {
    var s1 := Env(s, t.marker.before);
    if t.marker.fault != Ok then s1
    else
      var present := x.CancelKey() in s1.world.markers;
      var deletions := Deletions(s1.world, x.CancelKey());
      var s2 := Env(Note(s1, MarkerRead(x, present, deletions)), t.effect.before);
      if IsFinal(status) then ReportFinal(s2, x, status, present, t.nowMs, t.effect.fault)
      else if present || TimedOut(x, t.nowMs) then
        RequestStop(s2, x, present, deletions, t.nowMs, t.effect.fault)
      else s2
  }

  /** The body of the loop over the snapshot. Any exception leaves the rest of the body undone. */
  function CheckItem(m: Matcher, s: Sys, x: ActiveSubmission, t: ItemScript): Sys {
    var (s1, scan) := LookAt(m, s, x, t.lookback);
    match scan
    case ScanRaised => s1
    case Found => Forget(s1, x)
    case NotFound =>
      var s2 := Env(s1, t.status.before);
      if t.status.fault != Ok || x.SubmissionId() !in s2.world.jobs then s2
      else ActOnStatus(s2, x, s2.world.jobs[x.SubmissionId()].status, t)
  }

  /** A snapshot holds every tracked entry exactly once, in some order. */
  predicate IsSnapshot(items: seq<ActiveSubmission>, active: map<string, ActiveSubmission>) {
    && |items| == |active|
    && (forall i :: 0 <= i < |items| ==> items[i].operationId in active && active[items[i].operationId] == items[i])
    && (forall i, j :: 0 <= i < j < |items| ==> items[i].operationId != items[j].operationId)
  }

  /** What other threads can do between two calls of the consumer thread: the environment acts, the
      watcher starts a pass, or it runs the body for the next item of its pass. */
  datatype Step =
    | Outside(env: EnvStep)
    | BeginPass(snapshot: seq<ActiveSubmission>)
    | CheckNext(script: ItemScript)

  function Apply(m: Matcher, s: Sys, step: Step): Sys {
    match step
    case Outside(env) => Env(s, [env])
    case BeginPass(snapshot) =>
      if s.mem.pass == [] && IsSnapshot(snapshot, s.mem.active) then s.(mem := s.mem.(pass := snapshot)) else s
    case CheckNext(script) =>
      if s.mem.pass == [] then s
      else CheckItem(m, s.(mem := s.mem.(pass := s.mem.pass[1..])), s.mem.pass[0], script)
  }

  function Interfere(m: Matcher, s: Sys, steps: seq<Step>): Sys {
    if steps == [] then s
    else Apply(m, Interfere(m, s, steps[..|steps| - 1]), steps[|steps| - 1])
  }

  datatype Tick = Tick(before: seq<Step>, fault: Fault)

  lemma InterfereSnoc(m: Matcher, s: Sys, steps: seq<Step>, i: nat)
    requires i < |steps|
    ensures Interfere(m, s, steps[..i + 1]) == Apply(m, Interfere(m, s, steps[..i]), steps[i])
  {
    assert steps[..i + 1][..i] == steps[..i];
  }
}
