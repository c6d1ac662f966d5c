/** The watcher's code refines the guarded atomic steps. */
module WatcherSteps {
  import opened Domain
  import opened Lookback
  import opened World
  import opened Watcher
  import opened Protocol

  lemma EnvSteps(g: Setting, s: Sys, steps: seq<EnvStep>)
    ensures SilentNext(s, Env(s, steps)) && Steps(g, s, Env(s, steps))
  {
    EnvAllExtends(s.world, steps);
    StepsOnce(g, s, Env(s, steps));
  }

  lemma ForgetSteps(g: Setting, s: Sys, x: ActiveSubmission)
    requires Justified(g.matcher, s.world, x)
    ensures Steps(g, s, Forget(s, x))
  {
    var s1 := RemoveActive(s, x);
    RemoveSteps(g, s, x);
    StepsThenNote(g, s, s1, Forget(s, x), Discarded(x.operationId));
  }

  lemma RemoveSteps(g: Setting, s: Sys, x: ActiveSubmission)
    requires Justified(g.matcher, s.world, x)
    ensures Steps(g, s, RemoveActive(s, x))
  {
    StepsReflexive(g, s);
    if x.operationId in s.mem.active {
      StepsThenNote(g, s, s, RemoveActive(s, x), Removed(s.mem.active[x.operationId], x));
    }
  }

  /** The lookback leaves a `Looked` observation whenever it is evaluated; finding an event
      justifies the removal, and finding none satisfies the fallback guard. */
  lemma LookSteps(g: Setting, s: Sys, x: ActiveSubmission, t: EnvTick)
    ensures var (s1, scan) := LookAt(g.matcher, s, x, t);
            && Steps(g, s, s1)
            && s1.mem == s.mem
            && (scan.Found? ==> Justified(g.matcher, s1.world, x))
            && (scan.NotFound? ==>
                  && s1.trace != [] && Last(s1.trace).Looked? && Last(s1.trace).item == x
                  && Unseen(Last(s1.trace)))
  {
    var s0 := Env(s, t.before);
    EnvSteps(g, s, t.before);
    if t.fault == Ok {
      var (s1, scan) := LookAt(g.matcher, s, x, t);
      StepsThenNote(g, s, s0, s1, Last(s1.trace));
      var stream := StreamAt(s0.world, x.EventKey());
      if scan.Found? {
        BoundedScanIsSound(g.matcher, stream, x);
      } else if scan.NotFound? && !Unseen(Last(s1.trace)) {
        VisibleFallbackIsNotMissed(g.matcher, stream, x);
      }
    }
  }

  lemma ReportSteps(g: Setting, s: Sys, x: ActiveSubmission, status: RayStatus, present: bool, nowMs: int,
                    fault: Fault)
    requires ReadMarker(s.trace, x, present) && LookedBefore(s.trace, x)
    requires x.SubmissionId() in s.world.jobs && s.world.jobs[x.SubmissionId()].status == status && IsFinal(status)
    ensures Steps(g, s, ReportFinal(s, x, status, present, nowMs, fault))
  {
    var (kind, code) := VerdictIn(s.mem, x, status, present, TimedOut(x, nowMs));
    var written := ReportFinal(s, x, status, present, nowMs, RaiseAfter);
    if fault == RaiseBefore {
      StepsReflexive(g, s);
    } else {
      StepsReflexive(g, s);
      StepsThenNote(g, s, s, written, Wrote(x, status, present, nowMs, kind, code));
      if fault == Ok {
        var h := StreamAt(written.world, x.EventKey()).history;
        assert Matches(g.matcher, h[|h| - 1], x);
        ForgetSteps(g, written, x);
        StepsTransitive(g, s, written, Forget(written, x));
      }
    }
  }

  lemma StopSteps(g: Setting, s: Sys, x: ActiveSubmission, present: bool, deletions: nat, nowMs: int,
                  fault: Fault)
    requires present || TimedOut(x, nowMs)
    requires s.trace != [] && Last(s.trace) == MarkerRead(x, present, deletions)
    ensures Steps(g, s, RequestStop(s, x, present, deletions, nowMs, fault))
  {
    var s' := RequestStop(s, x, present, deletions, nowMs, fault);
    StepsReflexive(g, s);
    if fault == RaiseAfter {
      assert SilentNext(s, s');
      StepsOnce(g, s, s');
    } else if fault == Ok {
      StepsThenNote(g, s, s, s', StopReturned(x, if present then ByMarker else ByDeadline, deletions, nowMs));
    }
  }

  /** Reading the marker, and whatever the environment does before the call that follows. */
  lemma ReadMarkerSteps(g: Setting, s: Sys, x: ActiveSubmission, marker: EnvTick, effect: EnvTick)
    requires s.trace != [] && Last(s.trace).Looked? && Last(s.trace).item == x && Unseen(Last(s.trace))
    ensures var s1 := Env(s, marker.before);
            var present := x.CancelKey() in s1.world.markers;
            var deletions := Deletions(s1.world, x.CancelKey());
            var s2 := Env(Note(s1, MarkerRead(x, present, deletions)), effect.before);
            && Steps(g, s, s1) && Steps(g, s, s2) && Extends(s.world, s2.world)
            && s2.trace != [] && Last(s2.trace) == MarkerRead(x, present, deletions) && LookedBefore(s2.trace, x)
  {
    var s1 := Env(s, marker.before);
    EnvSteps(g, s, marker.before);
    var read := Note(s1, MarkerRead(x, x.CancelKey() in s1.world.markers, Deletions(s1.world, x.CancelKey())));
    StepsThenNote(g, s, s1, read, Last(read.trace));
    EnvSteps(g, read, effect.before);
    StepsTransitive(g, s, read, Env(read, effect.before));
    ExtendsIsTransitive(s.world, s1.world, Env(read, effect.before).world);
  }

  lemma ActOnStatusSteps(g: Setting, s: Sys, x: ActiveSubmission, status: RayStatus, t: ItemScript)
    requires s.trace != [] && Last(s.trace).Looked? && Last(s.trace).item == x && Unseen(Last(s.trace))
    requires x.SubmissionId() in s.world.jobs && s.world.jobs[x.SubmissionId()].status == status
    ensures Steps(g, s, ActOnStatus(s, x, status, t))
  {
    ReadMarkerSteps(g, s, x, t.marker, t.effect);
    if t.marker.fault == Ok {
      var present := x.CancelKey() in Env(s, t.marker.before).world.markers;
      var deletions := Deletions(Env(s, t.marker.before).world, x.CancelKey());
      var s2 := Env(Note(Env(s, t.marker.before), MarkerRead(x, present, deletions)), t.effect.before);
      if IsFinal(status) {
        ReportSteps(g, s2, x, status, present, t.nowMs, t.effect.fault);
        StepsTransitive(g, s, s2, ReportFinal(s2, x, status, present, t.nowMs, t.effect.fault));
      } else if present || TimedOut(x, t.nowMs) {
        StopSteps(g, s2, x, present, deletions, t.nowMs, t.effect.fault);
        StepsTransitive(g, s, s2, RequestStop(s2, x, present, deletions, t.nowMs, t.effect.fault));
      }
    }
  }

  /** One item's body, under any interference and any faults, is a run of atomic steps. */
  lemma CheckItemSteps(g: Setting, s: Sys, x: ActiveSubmission, t: ItemScript)
    ensures Steps(g, s, CheckItem(g.matcher, s, x, t))
  {
    var (s1, scan) := LookAt(g.matcher, s, x, t.lookback);
    LookSteps(g, s, x, t.lookback);
    match scan
    case ScanRaised =>
    case Found =>
      ForgetSteps(g, s1, x);
      StepsTransitive(g, s, s1, Forget(s1, x));
    case NotFound =>
      var s2 := Env(s1, t.status.before);
      EnvSteps(g, s1, t.status.before);
      StepsTransitive(g, s, s1, s2);
      if t.status.fault == Ok && x.SubmissionId() in s2.world.jobs {
        var status := s2.world.jobs[x.SubmissionId()].status;
        ActOnStatusSteps(g, s2, x, status, t);
        StepsTransitive(g, s, s2, ActOnStatus(s2, x, status, t));
      }
  }

  lemma ApplySteps(g: Setting, s: Sys, step: Step)
    ensures Steps(g, s, Apply(g.matcher, s, step))
  {
    match step
    case Outside(env) =>
      EnvSteps(g, s, [env]);
    case BeginPass(snapshot) =>
      var s' := Apply(g.matcher, s, step);
      assert SilentNext(s, s');
      StepsOnce(g, s, s');
    case CheckNext(script) =>
      if s.mem.pass == [] {
        StepsReflexive(g, s);
      } else {
        var s1 := s.(mem := s.mem.(pass := s.mem.pass[1..]));
        assert SilentNext(s, s1);
        StepsOnce(g, s, s1);
        CheckItemSteps(g, s1, s.mem.pass[0], script);
        StepsTransitive(g, s, s1, Apply(g.matcher, s, step));
      }
  }

  lemma {:induction false} InterfereSteps(g: Setting, s: Sys, steps: seq<Step>)
    ensures Steps(g, s, Interfere(g.matcher, s, steps))
  {
    if steps == [] {
      StepsReflexive(g, s);
    } else {
      var front := Interfere(g.matcher, s, steps[..|steps| - 1]);
      InterfereSteps(g, s, steps[..|steps| - 1]);
      ApplySteps(g, front, steps[|steps| - 1]);
      StepsTransitive(g, s, front, Interfere(g.matcher, s, steps));
    }
  }
}
