/** What every sequence of atomic steps keeps, whatever the interleaving, the faults and the
    environment. Each fact is a predicate of the state and its trace with its own preservation lemma. */
module Safety {
  import opened Wrappers
  import opened Domain
  import opened Lookback
  import opened World
  import opened Jobs
  import opened Watcher
  import opened Protocol

  // ---------------------------------------------------------------- the facts

  /** Every active entry has a Ray job that names its operation. */
  ghost predicate TrackedHasJob(s: Sys) {
    forall op :: op in s.mem.active ==>
                   var e := s.mem.active[op];
                   e.operationId == op && e.SubmissionId() in s.world.jobs
                       && Carries(s.world.jobs[e.SubmissionId()], op)
  }

  /** Entries are put, and the submitter is called, only while the operation is not tracked. */
  ghost predicate NothingDisplaced(s: Sys) {
    && (forall i :: 0 <= i < |s.trace| && s.trace[i].SubmitCalled? ==> s.trace[i].tracked == None)
    && (forall i :: 0 <= i < |s.trace| && s.trace[i].Put? ==> s.trace[i].displaced == None)
  }

  /** Every removal is backed by a terminal event for the item that caused it. */
  ghost predicate RemovalsJustified(g: Setting, s: Sys) {
    forall i :: 0 <= i < |s.trace| && s.trace[i].Removed? ==>
                  && s.trace[i].entry.operationId == s.trace[i].item.operationId
                  && Justified(g.matcher, s.world, s.trace[i].item)
  }

  predicate Ends(o: Obs, e: ActiveSubmission) {
    o.Crashed? || (o.Removed? && o.entry == e)
  }

  predicate StartsAgain(o: Obs, operationId: string) {
    (o.Put? && o.entry.operationId == operationId) || (o.SubmitCalled? && o.operationId == operationId)
  }

  /** An entry stays until the trace shows its removal or a crash. */
  ghost predicate PutsAccounted(s: Sys) {
    forall i :: 0 <= i < |s.trace| && s.trace[i].Put? ==>
                  || Tracked(s, s.trace[i].entry.operationId) == Some(s.trace[i].entry)
                  || exists k :: i < k < |s.trace| && Ends(s.trace[k], s.trace[i].entry)
  }

  /** Every tracked entry was put, and nothing ended it since. */
  ghost predicate TrackedWasPut(s: Sys) {
    forall op :: op in s.mem.active ==> StillPut(s.trace, s.mem.active[op])
  }

  ghost predicate StillPut(trace: seq<Obs>, e: ActiveSubmission) {
    exists i :: 0 <= i < |trace| && trace[i].Put? && trace[i].entry == e && NotEndedAfter(trace, i, e)
  }

  ghost predicate NotEndedAfter(trace: seq<Obs>, i: nat, e: ActiveSubmission) {
    forall k :: i < k < |trace| ==> !Ends(trace[k], e)
  }

  /** The operation is not submitted or put again before that. */
  ghost predicate OneLiveSubmission(trace: seq<Obs>) {
    forall i, j :: 0 <= i < j < |trace| && trace[i].Put? && StartsAgain(trace[j], trace[i].entry.operationId) ==>
                     exists k :: i < k < j && Ends(trace[k], trace[i].entry)
  }

  datatype Stop = Stop(item: ActiveSubmission, cause: StopCause, deletions: nat)

  /** The stop calls for an operation that returned since its requests were last discarded or the
      process crashed, oldest first. */
  function Stops(trace: seq<Obs>, operationId: string): seq<Stop> {
    if trace == [] then []
    else
      var before := Stops(trace[..|trace| - 1], operationId);
      match Last(trace)
      case StopReturned(item, cause, deletions, _) =>
        if item.operationId == operationId then before + [Stop(item, cause, deletions)] else before
      case Discarded(op) => if op == operationId then [] else before
      case Crashed => []
      case _ => before
  }

  ghost predicate StoppedBy(trace: seq<Obs>, operationId: string, cause: StopCause) {
    exists k :: 0 <= k < |Stops(trace, operationId)| && Stops(trace, operationId)[k].cause == cause
  }

  /** The watcher's two sets are exactly the causes of the stop calls that returned. */
  ghost predicate SetsAreCauses(s: Sys) {
    && (forall op :: op in s.mem.stopRequested <==> StoppedBy(s.trace, op, ByMarker))
    && (forall op :: op in s.mem.timeoutRequested <==> StoppedBy(s.trace, op, ByDeadline))
  }

  /** A count of deletions that was read with or before the marker in this state; if a marker was there
      and was not deleted since, it is still there. */
  predicate ReadEarlier(w: World, key: string, present: bool, deletions: nat) {
    && deletions <= Deletions(w, key)
    && (present && deletions == Deletions(w, key) ==> key in w.markers)
  }

  predicate StopExplained(w: World, stop: Stop) {
    ReadEarlier(w, stop.item.CancelKey(), stop.cause == ByMarker, stop.deletions)
  }

  /** The read came after the stop: it saw no fewer deletions, and more if the stop's marker was gone. */
  predicate ReadAfterStop(stop: Stop, key: string, present: bool, deletions: nat) {
    stop.item.CancelKey() == key ==>
      stop.deletions <= deletions && (stop.cause == ByMarker && !present ==> stop.deletions < deletions)
  }

  ghost predicate LastReadExplained(s: Sys) {
    s.trace != [] && Last(s.trace).MarkerRead? ==>
      var read := Last(s.trace);
      && ReadEarlier(s.world, read.item.CancelKey(), read.present, read.deletions)
      && forall op, a :: 0 <= a < |Stops(s.trace, op)| ==>
                           ReadAfterStop(Stops(s.trace, op)[a], read.item.CancelKey(), read.present, read.deletions)
  }

  /** Between a stop caused by a marker and a later one for the same key caused by the deadline, the
      marker was deleted. */
  ghost predicate StopsOrdered(stops: seq<Stop>) {
    forall a, b :: 0 <= a < b < |stops| && stops[a].cause == ByMarker && stops[b].cause == ByDeadline
                   && stops[a].item.CancelKey() == stops[b].item.CancelKey() ==>
                     stops[a].deletions < stops[b].deletions
  }

  ghost predicate MarkersExplained(s: Sys) {
    && (forall op, a :: 0 <= a < |Stops(s.trace, op)| ==> StopExplained(s.world, Stops(s.trace, op)[a]))
    && LastReadExplained(s)
    && (forall op :: StopsOrdered(Stops(s.trace, op)))
  }

  /** The first stop call that returned for an item since its operation's sets were empty, when all
      of them were for this item's cancel key. */
  ghost predicate FirstCauseIs(stops: seq<Stop>, x: ActiveSubmission, cause: StopCause) {
    && stops != [] && stops[0].cause == cause
    && forall k :: 0 <= k < |stops| ==> stops[k].item.CancelKey() == x.CancelKey()
  }

  /** What the trace before a written fallback says about it. */
  ghost predicate VerdictExplained(w: World, before: seq<Obs>, o: Obs)
    requires o.Wrote?
  {
    var byMarker := StoppedBy(before, o.item.operationId, ByMarker);
    var byDeadline := StoppedBy(before, o.item.operationId, ByDeadline);
    var stops := Stops(before, o.item.operationId);
    && IsFinal(o.status)
    && ReadMarker(before, o.item, o.present)
    && o.item.SubmissionId() in w.jobs && w.jobs[o.item.SubmissionId()].status == o.status
    && (o.kind, o.code) == Verdict(o.status, byDeadline || (TimedOut(o.item, o.nowMs) && !o.present && !byMarker),
                                   o.present || byMarker)
    && (o.status == Stopped && FirstCauseIs(stops, o.item, ByDeadline) ==>
        (o.kind, o.code) == ("FAILED", "EXECUTION_TIMEOUT"))
    && (o.status == Stopped && FirstCauseIs(stops, o.item, ByMarker) && stops[0].deletions == Last(before).deletions ==>
          o.kind == "CANCELLED")
  }

  ghost predicate VerdictsExplained(s: Sys) {
    forall i :: 0 <= i < |s.trace| && s.trace[i].Wrote? ==> VerdictExplained(s.world, s.trace[..i], s.trace[i])
  }

  /** A fallback in a stream agrees with the final status Ray reports for its submission. */
  predicate AgreesWithRay(w: World, e: Entry) {
    FromWatcher(e) ==>
      && e.submissionId.Some? && e.submissionId.value in w.jobs
      && var status := w.jobs[e.submissionId.value].status;
      && IsFinal(status)
      && (e.eventType == Name("CANCELLED") || e.code == "RAY_JOB_STOPPED" ==> status == Stopped)
      && (e.eventType == Name("FAILED") || e.eventType == Name("CANCELLED"))
      && (e.eventType == Name("FAILED") ==>
            e.code == "EXECUTION_TIMEOUT" || e.code == (if status == Stopped then "RAY_JOB_STOPPED"
                                                        else if status == Failed then "RAY_JOB_FAILED"
                                                        else "TERMINAL_EVENT_MISSING"))
      && (e.code == "RAY_JOB_FAILED" ==> status == Failed)
      && (e.code == "TERMINAL_EVENT_MISSING" ==> status == Succeeded)
  }

  ghost predicate FallbacksAgree(w: World) {
    forall key, i :: 0 <= i < |StreamAt(w, key).history| ==> AgreesWithRay(w, StreamAt(w, key).history[i])
  }

  function CountIn(w: World, x: ActiveSubmission): nat {
    FallbackCount(StreamAt(w, x.EventKey()).history, x.SubmissionId())
  }

  /** The latest lookback of a running body still describes the watcher's own writes. */
  ghost predicate LookIsFresh(s: Sys) {
    && (|s.trace| >= 1 && Last(s.trace).Looked? ==>
          (Last(s.trace).after.None? <==> CountIn(s.world, Last(s.trace).item) == 0))
    && (|s.trace| >= 2 && Last(s.trace).MarkerRead? && s.trace[|s.trace| - 2].Looked? ==>
          (s.trace[|s.trace| - 2].after.None? <==> CountIn(s.world, s.trace[|s.trace| - 2].item) == 0))
  }

  /** The watcher's writes of a fallback for this submission to this stream. */
  predicate Writes(o: Obs, key: string, submissionId: string) {
    o.Wrote? && o.item.EventKey() == key && o.item.SubmissionId() == submissionId
  }

  function WriteCount(trace: seq<Obs>, key: string, submissionId: string): nat {
    if trace == [] then 0
    else WriteCount(trace[..|trace| - 1], key, submissionId) + if Writes(Last(trace), key, submissionId) then 1 else 0
  }

  /** Every stream holds exactly the fallbacks that were written to it. */
  ghost predicate WritesCounted(s: Sys) {
    forall key, sid :: FallbackCount(StreamAt(s.world, key).history, sid) == WriteCount(s.trace, key, sid)
  }

  /** The lookback that let a fallback be written saw an earlier one exactly if there was one. */
  ghost predicate WriteExplained(trace: seq<Obs>, i: nat)
    requires i < |trace| && trace[i].Wrote?
  {
    var key, sid := trace[i].item.EventKey(), trace[i].item.SubmissionId();
    && i >= 2 && trace[i - 2].Looked? && trace[i - 2].item == trace[i].item && Unseen(trace[i - 2])
    && (trace[i - 2].after.None? <==> WriteCount(trace[..i], key, sid) == 0)
  }

  ghost predicate WritesExplained(trace: seq<Obs>) {
    forall i :: 0 <= i < |trace| && trace[i].Wrote? ==> WriteExplained(trace, i)
  }

  /** What was put is backed by its job's metadata as long as the job exists, which is forever. */
  ghost predicate PutsBacked(g: Setting, s: Sys) {
    forall i :: 0 <= i < |s.trace| && s.trace[i].Put? ==> BackedBy(g, s.world, s.trace[i].entry, s.trace[i].origin)
  }

  /** What an observation of admission says was published is in the stream. */
  ghost predicate PublishedAsNoted(g: Setting, w: World, o: Obs) {
    && (o.RejectionAttempted? && o.fault != RaiseBefore ==>
          IsIn(w, g.channels.For(o.delivery.operationType).EventKey(o.operationId), RejectionEvent(o.code)))
    && (o.AcceptedReturned? ==>
          IsIn(w, g.channels.For(o.delivery.operationType).EventKey(o.operationId), AcceptedEvent(o.submissionId)))
  }

  ghost predicate AnswersPublished(g: Setting, s: Sys) {
    forall i :: 0 <= i < |s.trace| ==> PublishedAsNoted(g, s.world, s.trace[i])
  }

  /** A stop was asked for right after its marker was read, and one caused by the deadline after it. */
  predicate StopWarranted(trace: seq<Obs>, i: nat)
    requires i < |trace| && trace[i].StopReturned?
  {
    && i > 0 && trace[i - 1] == MarkerRead(trace[i].item, trace[i].cause == ByMarker, trace[i].deletions)
    && (trace[i].cause == ByDeadline ==> TimedOut(trace[i].item, trace[i].nowMs))
  }

  ghost predicate StopsWarranted(trace: seq<Obs>) {
    forall i :: 0 <= i < |trace| && trace[i].StopReturned? ==> StopWarranted(trace, i)
  }

  ghost predicate AcksSupported(g: Setting, s: Sys) {
    && (forall i :: 0 <= i < |s.trace| && s.trace[i].XAcked? ==>
                      && s.trace[i].delivery in s.world.acked
                      && Supported(g.channels, s.world, s.trace, s.trace[i].delivery, s.trace[i].operationId))
    && (forall i, j :: 0 <= i < j < |s.trace| && s.trace[i].XAcked? && s.trace[j].XAcked? ==>
                         s.trace[i].delivery != s.trace[j].delivery)
  }

  ghost predicate Safe(g: Setting, s: Sys) {
    && TrackedHasJob(s) && NothingDisplaced(s) && RemovalsJustified(g, s)
    && PutsAccounted(s) && TrackedWasPut(s) && OneLiveSubmission(s.trace)
    && SetsAreCauses(s) && MarkersExplained(s) && VerdictsExplained(s)
    && FallbacksAgree(s.world) && LookIsFresh(s) && WritesCounted(s) && WritesExplained(s.trace)
    && PutsBacked(g, s) && AnswersPublished(g, s) && StopsWarranted(s.trace) && AcksSupported(g, s)
  }

  /** A first start of the provider: nothing in memory, nothing observed or acknowledged yet, and no
      event of an earlier watcher. The streams, markers and Ray jobs are arbitrary. */
  ghost predicate Fresh(s: Sys) {
    && s.mem == EMPTY_MEMORY && s.trace == [] && s.world.acked == {}
    && forall key, i :: 0 <= i < |StreamAt(s.world, key).history| ==> !FromWatcher(StreamAt(s.world, key).history[i])
  }

  lemma NoFallbacksWithoutWatcher(history: seq<Entry>, sid: string)
    requires forall i :: 0 <= i < |history| ==> !FromWatcher(history[i])
    ensures FallbackCount(history, sid) == 0
  {
  }

  lemma FreshIsSafe(g: Setting, s: Sys)
    requires Fresh(s)
    ensures Safe(g, s)
  {
    forall key, sid ensures FallbackCount(StreamAt(s.world, key).history, sid) == 0 {
      NoFallbacksWithoutWatcher(StreamAt(s.world, key).history, sid);
    }
  }

  // ---------------------------------------------------------------- each fact is kept

  ghost predicate Observed(s: Sys, s': Sys) {
    |s'.trace| == |s.trace| + 1 && s'.trace[..|s.trace|] == s.trace
  }

  lemma TraceGrows(s: Sys, s': Sys)
    requires Observed(s, s')
    ensures s'.trace == s.trace + [Last(s'.trace)]
    ensures s'.trace[..|s'.trace| - 1] == s.trace
    ensures forall i :: 0 <= i < |s.trace| ==> s'.trace[i] == s.trace[i]
    ensures forall i :: 0 <= i <= |s.trace| ==> s'.trace[..i] == s.trace[..i]
  {
    forall i | 0 <= i < |s.trace| ensures s'.trace[i] == s.trace[i] {
      assert s'.trace[..|s.trace|][i] == s.trace[i];
    }
  }

  /** No step shortens a stream, deletes a job or its metadata, or forgets a deletion. */
  ghost predicate Monotone(w: World, w': World) {
    && (forall k :: StreamAt(w, k).history <= StreamAt(w', k).history)
    && (forall sid :: sid in w.jobs ==> sid in w'.jobs && SameJob(w.jobs[sid], w'.jobs[sid]))
    && (forall k :: MarkerKept(w, w', k))
    && w.acked <= w'.acked
  }

  lemma AppendIsMonotone(w: World, key: string, e: Entry)
    ensures Monotone(w, Append(w, key, e))
  {
  }

  lemma ObsIsMonotone(g: Setting, s: Sys, s': Sys, o: Obs)
    requires ObsNext(g, s, s', o)
    ensures Monotone(s.world, s'.world)
  {
    match o
    case Wrote(x, _, _, _, kind, code) => AppendIsMonotone(s.world, x.EventKey(), Fallback(x, kind, code));
    case RejectionAttempted(d, op, code, _) =>
      AppendIsMonotone(s.world, g.channels.For(d.operationType).EventKey(op), RejectionEvent(code));
    case AcceptedReturned(d, op, sid) =>
      AppendIsMonotone(s.world, g.channels.For(d.operationType).EventKey(op), AcceptedEvent(sid));
    case _ =>
  }

  lemma NextIsMonotone(g: Setting, s: Sys, s': Sys)
    requires Next(g, s, s')
    ensures Monotone(s.world, s'.world)
  {
    if !SilentNext(s, s') {
      ObsIsMonotone(g, s, s', Last(s'.trace));
    }
  }

  lemma JustifiedStays(m: Matcher, w: World, w': World, x: ActiveSubmission)
    requires Monotone(w, w') && Justified(m, w, x)
    ensures Justified(m, w', x)
  {
    var h, h' := StreamAt(w, x.EventKey()).history, StreamAt(w', x.EventKey()).history;
    var i :| 0 <= i < |h| && Matches(m, h[i], x);
    assert h <= h' && Matches(m, h'[i], x);
  }

  lemma IsInStays(w: World, w': World, key: string, e: Entry)
    requires Monotone(w, w') && IsIn(w, key, e)
    ensures IsIn(w', key, e)
  {
    var h, h' := StreamAt(w, key).history, StreamAt(w', key).history;
    var i :| 0 <= i < |h| && h[i] == e;
    assert h <= h' && h'[i] == e;
  }

  lemma RejectedStays(c: Channels, w: World, w': World, o: Obs, d: Delivery, op: string)
    requires Monotone(w, w') && RejectedAt(c, w, o, d, op)
    ensures RejectedAt(c, w', o, d, op)
  {
    if o.fault != RaiseBefore {
      IsInStays(w, w', c.For(d.operationType).EventKey(o.operationId), RejectionEvent(o.code));
    }
  }

  lemma SupportedStays(c: Channels, w: World, w': World, trace: seq<Obs>, trace': seq<Obs>, d: Delivery, op: string)
    requires Monotone(w, w') && trace <= trace' && Supported(c, w, trace, d, op)
    ensures Supported(c, w', trace', d, op)
  {
    var key := c.For(d.operationType).EventKey(op);
    if HasJob(w, op) {
      var sid :| sid in w.jobs && Carries(w.jobs[sid], op);
      assert sid in w'.jobs && Carries(w'.jobs[sid], op);
    } else if CancelledIn(w, key) {
      var i :| 0 <= i < |StreamAt(w, key).history| && IsCancelled(StreamAt(w, key).history[i]);
      assert StreamAt(w, key).history <= StreamAt(w', key).history;
      assert IsCancelled(StreamAt(w', key).history[i]);
    } else {
      var i :| 0 <= i < |trace| && RejectedAt(c, w, trace[i], d, op);
      RejectedStays(c, w, w', trace[i], d, op);
      assert trace'[i] == trace[i];
    }
  }

  /** A tracked entry was either put by this step, or tracked before it and not ended by it. */
  lemma TrackedBefore(g: Setting, s: Sys, s': Sys, op: string)
    requires TrackedHasJob(s) && Observed(s, s') && Next(g, s, s') && op in s'.mem.active
    ensures var o := Last(s'.trace);
            || (o.Put? && o.entry == s'.mem.active[op])
            || (op in s.mem.active && s.mem.active[op] == s'.mem.active[op] && !Ends(o, s'.mem.active[op]))
  {
  }

  lemma CarriedStays(w: World, w': World, sid: string, op: string)
    requires Monotone(w, w') && sid in w.jobs && Carries(w.jobs[sid], op)
    ensures sid in w'.jobs && Carries(w'.jobs[sid], op)
  {
  }

  lemma TrackedHasJobKept(g: Setting, s: Sys, s': Sys)
    requires TrackedHasJob(s) && Next(g, s, s')
    ensures TrackedHasJob(s')
  {
    NextIsMonotone(g, s, s');
    forall op | op in s'.mem.active
      ensures var e := s'.mem.active[op];
              e.operationId == op && e.SubmissionId() in s'.world.jobs && Carries(s'.world.jobs[e.SubmissionId()], op)
    {
      if Observed(s, s') {
        TrackedBefore(g, s, s', op);
      }
      if op in s.mem.active && s.mem.active[op] == s'.mem.active[op] {
        CarriedStays(s.world, s'.world, s.mem.active[op].SubmissionId(), op);
      }
    }
  }

  lemma NothingDisplacedKept(g: Setting, s: Sys, s': Sys)
    requires NothingDisplaced(s) && Next(g, s, s')
    ensures NothingDisplaced(s')
  {
    if Observed(s, s') {
      TraceGrows(s, s');
    }
  }

  lemma RemovalsJustifiedKept(g: Setting, s: Sys, s': Sys)
    requires TrackedHasJob(s) && RemovalsJustified(g, s) && Next(g, s, s')
    ensures RemovalsJustified(g, s')
  {
    NextIsMonotone(g, s, s');
    if Observed(s, s') {
      TraceGrows(s, s');
    }
    forall i | 0 <= i < |s'.trace| && s'.trace[i].Removed?
      ensures s'.trace[i].entry.operationId == s'.trace[i].item.operationId
              && Justified(g.matcher, s'.world, s'.trace[i].item)
    {
      JustifiedStays(g.matcher, s.world, s'.world, s'.trace[i].item);
    }
  }

  lemma PutsAccountedKept(g: Setting, s: Sys, s': Sys)
    requires TrackedHasJob(s) && PutsAccounted(s) && Next(g, s, s')
    ensures PutsAccounted(s')
  {
    if Observed(s, s') {
      TraceGrows(s, s');
      var o := Last(s'.trace);
      forall i | 0 <= i < |s'.trace| && s'.trace[i].Put?
        ensures || Tracked(s', s'.trace[i].entry.operationId) == Some(s'.trace[i].entry)
                || exists k :: i < k < |s'.trace| && Ends(s'.trace[k], s'.trace[i].entry)
      {
        if i < |s.trace| {
          var e := s'.trace[i].entry;
          if Tracked(s, e.operationId) != Some(e) {
            var k :| i < k < |s.trace| && Ends(s.trace[k], e);
            assert Ends(s'.trace[k], e);
          } else if Tracked(s', e.operationId) != Some(e) {
            assert Ends(s'.trace[|s.trace|], e);
          }
        }
      }
    }
  }

  lemma PutIsStill(trace: seq<Obs>, o: Obs)
    requires o.Put?
    ensures StillPut(trace + [o], o.entry)
  {
    var after := trace + [o];
    assert after[|trace|].entry == o.entry && NotEndedAfter(after, |trace|, o.entry);
  }

  lemma StillPutAfter(trace: seq<Obs>, o: Obs, e: ActiveSubmission)
    requires StillPut(trace, e) && !Ends(o, e)
    ensures StillPut(trace + [o], e)
  {
    var i :| 0 <= i < |trace| && trace[i].Put? && trace[i].entry == e && NotEndedAfter(trace, i, e);
    var after := trace + [o];
    assert after[i].entry == e && NotEndedAfter(after, i, e);
  }

  lemma TrackedWasPutKept(g: Setting, s: Sys, s': Sys)
    requires TrackedHasJob(s) && TrackedWasPut(s) && Next(g, s, s')
    ensures TrackedWasPut(s')
  {
    if Observed(s, s') {
      TraceGrows(s, s');
      var o := Last(s'.trace);
      forall op | op in s'.mem.active ensures StillPut(s'.trace, s'.mem.active[op]) {
        TrackedBefore(g, s, s', op);
        if o.Put? && o.entry == s'.mem.active[op] {
          PutIsStill(s.trace, o);
        } else {
          StillPutAfter(s.trace, o, s'.mem.active[op]);
        }
      }
    }
  }

  lemma OneLiveSubmissionKept(g: Setting, s: Sys, s': Sys)
    requires PutsAccounted(s) && OneLiveSubmission(s.trace) && Next(g, s, s')
    ensures OneLiveSubmission(s'.trace)
  {
    if Observed(s, s') {
      TraceGrows(s, s');
      forall i, j | 0 <= i < j < |s'.trace| && s'.trace[i].Put?
          && StartsAgain(s'.trace[j], s'.trace[i].entry.operationId)
        ensures exists k :: i < k < j && Ends(s'.trace[k], s'.trace[i].entry)
      {
        var k :| i < k < j && Ends(s.trace[k], s.trace[i].entry);
        assert Ends(s'.trace[k], s'.trace[i].entry);
      }
    }
  }

  lemma SetsAreCausesKept(g: Setting, s: Sys, s': Sys)
    requires SetsAreCauses(s) && Next(g, s, s')
    ensures SetsAreCauses(s')
  {
    if Observed(s, s') {
      TraceGrows(s, s');
      forall op ensures op in s'.mem.stopRequested <==> StoppedBy(s'.trace, op, ByMarker)
                ensures op in s'.mem.timeoutRequested <==> StoppedBy(s'.trace, op, ByDeadline) {
        var before, after := Stops(s.trace, op), Stops(s'.trace, op);
        assert op in s.mem.stopRequested <==> StoppedBy(s.trace, op, ByMarker);
        assert op in s.mem.timeoutRequested <==> StoppedBy(s.trace, op, ByDeadline);
        if |after| > |before| {
          assert after[..|before|] == before;
          assert forall k :: 0 <= k < |before| ==> after[k] == before[k];
          assert after[|before|].cause == Last(s'.trace).cause;
        }
      }
    }
  }

  lemma ReadStaysEarlier(w: World, w': World, key: string, present: bool, deletions: nat)
    requires ReadEarlier(w, key, present, deletions) && MarkerKept(w, w', key)
    ensures ReadEarlier(w', key, present, deletions)
  {
  }

  /** What one step does to the stops of one operation. */
  lemma StopsAfter(trace: seq<Obs>, o: Obs, op: string)
    ensures var before, after := Stops(trace, op), Stops(trace + [o], op);
            || after == [] || after == before
            || (o.StopReturned? && after == before + [Stop(o.item, o.cause, o.deletions)])
    ensures o.MarkerRead? ==> Stops(trace + [o], op) == Stops(trace, op)
  {
    assert (trace + [o])[..|trace|] == trace;
  }

  /** A stop that returned is explained by the read before it. */
  lemma NewStopExplained(s: Sys, o: Obs, op: string)
    requires MarkersExplained(s) && o.StopReturned?
    requires s.trace != [] && Last(s.trace) == MarkerRead(o.item, o.cause == ByMarker, o.deletions)
    ensures var stop := Stop(o.item, o.cause, o.deletions);
            StopExplained(s.world, stop) && StopsOrdered(Stops(s.trace, op) + [stop])
  {
    var stops, stop := Stops(s.trace, op), Stop(o.item, o.cause, o.deletions);
    forall a | 0 <= a < |stops| && stops[a].cause == ByMarker && o.cause == ByDeadline
               && stops[a].item.CancelKey() == o.item.CancelKey() ensures stops[a].deletions < o.deletions {
      assert ReadAfterStop(stops[a], o.item.CancelKey(), false, o.deletions);
    }
    assert StopsOrdered(stops);
  }

  lemma StopsStayExplained(g: Setting, s: Sys, s': Sys, op: string)
    requires MarkersExplained(s) && Observed(s, s') && ObsNext(g, s, s', Last(s'.trace)) && Monotone(s.world, s'.world)
    ensures forall a :: 0 <= a < |Stops(s'.trace, op)| ==> StopExplained(s'.world, Stops(s'.trace, op)[a])
    ensures StopsOrdered(Stops(s'.trace, op))
  {
    var o := Last(s'.trace);
    TraceGrows(s, s');
    StopsAfter(s.trace, o, op);
    if o.StopReturned? {
      NewStopExplained(s, o, op);
    }
    assert StopsOrdered(Stops(s.trace, op));
    forall a | 0 <= a < |Stops(s'.trace, op)| ensures StopExplained(s'.world, Stops(s'.trace, op)[a]) {
      var stop := Stops(s'.trace, op)[a];
      assert StopExplained(s.world, stop);
      ReadStaysEarlier(s.world, s'.world, stop.item.CancelKey(), stop.cause == ByMarker, stop.deletions);
    }
  }

  lemma NewReadExplained(g: Setting, s: Sys, s': Sys)
    requires MarkersExplained(s) && Observed(s, s') && ObsNext(g, s, s', Last(s'.trace))
    ensures LastReadExplained(s')
  {
    var read := Last(s'.trace);
    TraceGrows(s, s');
    if read.MarkerRead? {
      forall op, a | 0 <= a < |Stops(s'.trace, op)|
        ensures ReadAfterStop(Stops(s'.trace, op)[a], read.item.CancelKey(), read.present, read.deletions)
      {
        StopsAfter(s.trace, read, op);
        assert StopExplained(s.world, Stops(s.trace, op)[a]);
      }
    }
  }

  lemma SilentKeepsReads(s: Sys, s': Sys)
    requires MarkersExplained(s) && s'.trace == s.trace && Monotone(s.world, s'.world)
    ensures MarkersExplained(s')
  {
    forall op, a | 0 <= a < |Stops(s'.trace, op)| ensures StopExplained(s'.world, Stops(s'.trace, op)[a]) {
      var stop := Stops(s.trace, op)[a];
      assert StopExplained(s.world, stop);
      ReadStaysEarlier(s.world, s'.world, stop.item.CancelKey(), stop.cause == ByMarker, stop.deletions);
    }
    if s.trace != [] && Last(s.trace).MarkerRead? {
      var read := Last(s.trace);
      ReadStaysEarlier(s.world, s'.world, read.item.CancelKey(), read.present, read.deletions);
    }
  }

  lemma MarkersExplainedKept(g: Setting, s: Sys, s': Sys)
    requires MarkersExplained(s) && Next(g, s, s')
    ensures MarkersExplained(s')
  {
    NextIsMonotone(g, s, s');
    if Observed(s, s') {
      NewReadExplained(g, s, s');
      forall op
        ensures forall a :: 0 <= a < |Stops(s'.trace, op)| ==> StopExplained(s'.world, Stops(s'.trace, op)[a])
        ensures StopsOrdered(Stops(s'.trace, op))
      {
        StopsStayExplained(g, s, s', op);
      }
    } else {
      SilentKeepsReads(s, s');
    }
  }

  lemma VerdictStays(w: World, w': World, before: seq<Obs>, o: Obs)
    requires o.Wrote? && VerdictExplained(w, before, o) && Monotone(w, w')
    ensures VerdictExplained(w', before, o)
  {
  }

  lemma NewVerdictExplained(g: Setting, s: Sys, s': Sys)
    requires SetsAreCauses(s) && MarkersExplained(s) && Observed(s, s')
    requires Last(s'.trace).Wrote? && ObsNext(g, s, s', Last(s'.trace))
    ensures VerdictExplained(s'.world, s.trace, Last(s'.trace))
  {
    var o := Last(s'.trace);
    var op := o.item.operationId;
    var stops := Stops(s.trace, op);
    assert op in s.mem.stopRequested <==> StoppedBy(s.trace, op, ByMarker);
    assert op in s.mem.timeoutRequested <==> StoppedBy(s.trace, op, ByDeadline);
    if FirstCauseIs(stops, o.item, ByMarker) && stops[0].deletions == Last(s.trace).deletions {
      FirstMarkerStopIsTheOnlyCause(s, o.item);
      assert StoppedBy(s.trace, op, ByMarker);
    }
  }

  /** While the marker of the first stop was not deleted, the deadline causes no stop. */
  lemma FirstMarkerStopIsTheOnlyCause(s: Sys, x: ActiveSubmission)
    requires MarkersExplained(s) && s.trace != [] && Last(s.trace).MarkerRead? && Last(s.trace).item == x
    requires FirstCauseIs(Stops(s.trace, x.operationId), x, ByMarker)
    requires Stops(s.trace, x.operationId)[0].deletions == Last(s.trace).deletions
    ensures !StoppedBy(s.trace, x.operationId, ByDeadline)
  {
    var stops, read := Stops(s.trace, x.operationId), Last(s.trace);
    assert StopsOrdered(stops);
    forall b | 0 <= b < |stops| ensures stops[b].cause != ByDeadline {
      assert ReadAfterStop(stops[b], x.CancelKey(), read.present, read.deletions);
      assert stops[0].item.CancelKey() == stops[b].item.CancelKey();
    }
  }

  lemma VerdictsExplainedKept(g: Setting, s: Sys, s': Sys)
    requires SetsAreCauses(s) && MarkersExplained(s) && VerdictsExplained(s) && Next(g, s, s')
    ensures VerdictsExplained(s')
  {
    NextIsMonotone(g, s, s');
    if Observed(s, s') {
      TraceGrows(s, s');
    }
    forall i | 0 <= i < |s'.trace| && s'.trace[i].Wrote?
      ensures VerdictExplained(s'.world, s'.trace[..i], s'.trace[i])
    {
      if i < |s.trace| {
        VerdictStays(s.world, s'.world, s.trace[..i], s.trace[i]);
      } else {
        NewVerdictExplained(g, s, s');
      }
    }
  }

  lemma AgreementStays(w: World, w': World, e: Entry)
    requires Monotone(w, w') && AgreesWithRay(w, e)
    ensures AgreesWithRay(w', e)
  {
  }

  lemma VerdictAgrees(w: World, mem: Memory, x: ActiveSubmission, status: RayStatus, present: bool, timedOut: bool)
    requires x.SubmissionId() in w.jobs && w.jobs[x.SubmissionId()].status == status && IsFinal(status)
    ensures var (kind, code) := VerdictIn(mem, x, status, present, timedOut);
            AgreesWithRay(w, Fallback(x, kind, code))
  {
  }

  /** The watcher's own writes are the only ones that have to agree with Ray, and they do. */
  lemma NewEntryAgrees(g: Setting, s: Sys, s': Sys, key: string, i: nat)
    requires Next(g, s, s')
    requires |StreamAt(s.world, key).history| <= i < |StreamAt(s'.world, key).history|
    ensures AgreesWithRay(s'.world, StreamAt(s'.world, key).history[i])
  {
    if Observed(s, s') && Last(s'.trace).Wrote? {
      WrittenAgrees(g, s, s', key, i);
    } else {
      assert !FromWatcher(StreamAt(s'.world, key).history[i]);
    }
  }

  lemma WrittenAgrees(g: Setting, s: Sys, s': Sys, key: string, i: nat)
    requires Observed(s, s') && Last(s'.trace).Wrote? && ObsNext(g, s, s', Last(s'.trace))
    requires |StreamAt(s.world, key).history| <= i < |StreamAt(s'.world, key).history|
    ensures AgreesWithRay(s'.world, StreamAt(s'.world, key).history[i])
  {
    var o := Last(s'.trace);
    VerdictAgrees(s'.world, s.mem, o.item, o.status, o.present, TimedOut(o.item, o.nowMs));
    assert StreamAt(s'.world, key).history[i] == Fallback(o.item, o.kind, o.code);
  }

  lemma FallbacksAgreeKept(g: Setting, s: Sys, s': Sys)
    requires FallbacksAgree(s.world) && Next(g, s, s')
    ensures FallbacksAgree(s'.world)
  {
    NextIsMonotone(g, s, s');
    forall key, i | 0 <= i < |StreamAt(s'.world, key).history|
      ensures AgreesWithRay(s'.world, StreamAt(s'.world, key).history[i])
    {
      var h, h' := StreamAt(s.world, key).history, StreamAt(s'.world, key).history;
      if i < |h| {
        assert h <= h' && h'[i] == h[i];
        AgreementStays(s.world, s'.world, h[i]);
      } else {
        NewEntryAgrees(g, s, s', key, i);
      }
    }
  }

  /** Except for a written fallback, no step changes a count. */
  lemma CountsUnchanged(g: Setting, s: Sys, s': Sys, key: string, sid: string)
    requires Next(g, s, s')
    requires Observed(s, s') ==> !Last(s'.trace).Wrote?
    ensures FallbackCount(StreamAt(s'.world, key).history, sid) == FallbackCount(StreamAt(s.world, key).history, sid)
  {
    var h, h' := StreamAt(s.world, key).history, StreamAt(s'.world, key).history;
    NextIsMonotone(g, s, s');
    assert h <= h';
    forall i | |h| <= i < |h'| ensures !IsFallback(h'[i], sid) {
      assert !FromWatcher(h'[i]);
    }
    FallbackCountOfExtension(h, h', sid);
  }

  /** A step that does not write keeps what a lookback said about the watcher's own writes. */
  lemma LookStaysFresh(g: Setting, s: Sys, s': Sys, look: Obs)
    requires Next(g, s, s') && (Observed(s, s') ==> !Last(s'.trace).Wrote?)
    requires look.Looked? && (look.after.None? <==> CountIn(s.world, look.item) == 0)
    ensures look.after.None? <==> CountIn(s'.world, look.item) == 0
  {
    CountsUnchanged(g, s, s', look.item.EventKey(), look.item.SubmissionId());
  }

  lemma LookIsFreshKept(g: Setting, s: Sys, s': Sys)
    requires LookIsFresh(s) && Next(g, s, s')
    ensures LookIsFresh(s')
  {
    if Observed(s, s') {
      TraceGrows(s, s');
      if Last(s'.trace).MarkerRead? && s.trace != [] && Last(s.trace).Looked? {
        LookStaysFresh(g, s, s', Last(s.trace));
      }
    } else {
      SilentKeepsLook(g, s, s');
    }
  }

  lemma SilentKeepsLook(g: Setting, s: Sys, s': Sys)
    requires LookIsFresh(s) && Next(g, s, s') && !Observed(s, s')
    ensures LookIsFresh(s')
  {
    var n := |s.trace|;
    assert s'.trace == s.trace;
    if n >= 1 && Last(s.trace).Looked? {
      LookStaysFresh(g, s, s', Last(s.trace));
    }
    if n >= 2 && Last(s.trace).MarkerRead? && s.trace[n - 2].Looked? {
      LookStaysFresh(g, s, s', s.trace[n - 2]);
    }
  }

  lemma CountOfSnoc(history: seq<Entry>, e: Entry, submissionId: string)
    ensures FallbackCount(history + [e], submissionId)
         == FallbackCount(history, submissionId) + if IsFallback(e, submissionId) then 1 else 0
  {
    assert (history + [e])[..|history|] == history;
  }

  lemma WriteCountOfSnoc(trace: seq<Obs>, o: Obs, key: string, submissionId: string)
    ensures WriteCount(trace + [o], key, submissionId)
         == WriteCount(trace, key, submissionId) + if Writes(o, key, submissionId) then 1 else 0
  {
    assert (trace + [o])[..|trace|] == trace;
  }

  lemma AppendedIsLast(w: World, at: string, e: Entry, key: string)
    ensures StreamAt(Append(w, at, e), key).history == StreamAt(w, key).history + if key == at then [e] else []
  {
  }

  lemma VerdictsAreFallbacks(x: ActiveSubmission, status: RayStatus, timeoutStop: bool, cancelIntent: bool, sid: string)
    ensures var (kind, code) := Verdict(status, timeoutStop, cancelIntent);
            IsFallback(Fallback(x, kind, code), sid) <==> x.SubmissionId() == sid
  {
  }

  lemma WrittenIsCounted(g: Setting, s: Sys, s': Sys, key: string, sid: string)
    requires Observed(s, s') && Last(s'.trace).Wrote? && ObsNext(g, s, s', Last(s'.trace))
    ensures FallbackCount(StreamAt(s'.world, key).history, sid)
         == FallbackCount(StreamAt(s.world, key).history, sid) + if Writes(Last(s'.trace), key, sid) then 1 else 0
  {
    var o := Last(s'.trace);
    var op, e := o.item.operationId, Fallback(o.item, o.kind, o.code);
    VerdictsAreFallbacks(o.item, o.status, TimeoutStop(s.mem, op, o.present, TimedOut(o.item, o.nowMs)),
                         o.present || op in s.mem.stopRequested, sid);
    AppendedIsLast(s.world, o.item.EventKey(), e, key);
    CountOfSnoc(StreamAt(s.world, key).history, e, sid);
  }

  lemma WritesCountedKept(g: Setting, s: Sys, s': Sys)
    requires WritesCounted(s) && Next(g, s, s')
    ensures WritesCounted(s')
  {
    forall key, sid ensures FallbackCount(StreamAt(s'.world, key).history, sid) == WriteCount(s'.trace, key, sid) {
      assert FallbackCount(StreamAt(s.world, key).history, sid) == WriteCount(s.trace, key, sid);
      if Observed(s, s') {
        TraceGrows(s, s');
        WriteCountOfSnoc(s.trace, Last(s'.trace), key, sid);
      }
      if Observed(s, s') && Last(s'.trace).Wrote? {
        WrittenIsCounted(g, s, s', key, sid);
      } else {
        CountsUnchanged(g, s, s', key, sid);
      }
    }
  }

  lemma NewWriteExplained(g: Setting, s: Sys, s': Sys)
    requires LookIsFresh(s) && WritesCounted(s) && Observed(s, s')
    requires Last(s'.trace).Wrote? && ObsNext(g, s, s', Last(s'.trace))
    ensures WriteExplained(s'.trace, |s.trace|)
  {
    var o := Last(s'.trace);
    TraceGrows(s, s');
    assert s'.trace[|s.trace| - 2] == s.trace[|s.trace| - 2];
    assert CountIn(s.world, o.item) == WriteCount(s.trace, o.item.EventKey(), o.item.SubmissionId());
  }

  lemma WriteStaysExplained(before: seq<Obs>, after: seq<Obs>, i: nat)
    requires before <= after && i < |before| && before[i].Wrote? && WriteExplained(before, i)
    ensures WriteExplained(after, i)
  {
    assert after[..i] == before[..i];
  }

  lemma WritesExplainedKept(g: Setting, s: Sys, s': Sys)
    requires LookIsFresh(s) && WritesCounted(s) && WritesExplained(s.trace) && Next(g, s, s')
    ensures WritesExplained(s'.trace)
  {
    if Observed(s, s') {
      TraceGrows(s, s');
      forall i | 0 <= i < |s'.trace| && s'.trace[i].Wrote? ensures WriteExplained(s'.trace, i) {
        if i < |s.trace| {
          WriteStaysExplained(s.trace, s'.trace, i);
        } else {
          NewWriteExplained(g, s, s');
        }
      }
    }
  }

  /** The body that wrote here had found no earlier fallback in the whole history. */
  predicate FoundNoneBefore(trace: seq<Obs>, i: nat)
    requires i < |trace|
  {
    i >= 2 && trace[i - 2].Looked? && trace[i - 2].after.None?
  }

  ghost predicate EveryWriterFoundNone(trace: seq<Obs>, key: string, sid: string) {
    forall i :: 0 <= i < |trace| && Writes(trace[i], key, sid) ==> FoundNoneBefore(trace, i)
  }

  lemma LastWriterFoundNone(trace: seq<Obs>, key: string, sid: string)
    requires trace != []
    ensures EveryWriterFoundNone(trace, key, sid) <==>
            && EveryWriterFoundNone(trace[..|trace| - 1], key, sid)
            && (Writes(Last(trace), key, sid) ==> FoundNoneBefore(trace, |trace| - 1))
  {
    var front := trace[..|trace| - 1];
    forall i | 0 <= i < |front| ensures Writes(front[i], key, sid) <==> Writes(trace[i], key, sid)
                                ensures FoundNoneBefore(front, i) <==> FoundNoneBefore(trace, i)
    {
      assert front[i] == trace[i];
    }
  }

  lemma WritesStayExplained(trace: seq<Obs>)
    requires trace != [] && WritesExplained(trace)
    ensures WritesExplained(trace[..|trace| - 1])
  {
    var front := trace[..|trace| - 1];
    forall i | 0 <= i < |front| && front[i].Wrote? ensures WriteExplained(front, i) {
      assert WriteExplained(trace, i) && front[..i] == trace[..i];
    }
  }

  /** Exactly: a stream holds at most one fallback for a submission if and only if every write of one was
      preceded by a lookback with no earlier one in the whole history. */
  lemma {:induction false} WrittenOnceExactly(trace: seq<Obs>, key: string, sid: string)
    requires WritesExplained(trace)
    ensures WriteCount(trace, key, sid) <= 1 <==> EveryWriterFoundNone(trace, key, sid)
  {
    if trace != [] {
      var n := |trace| - 1;
      WritesStayExplained(trace);
      WrittenOnceExactly(trace[..n], key, sid);
      LastWriterFoundNone(trace, key, sid);
      if Writes(trace[n], key, sid) {
        assert WriteExplained(trace, n);
        NoWritesNone(trace[..n], key, sid);
      }
    }
  }

  lemma {:induction false} NoWritesNone(trace: seq<Obs>, key: string, sid: string)
    ensures WriteCount(trace, key, sid) == 0 <==> forall i :: 0 <= i < |trace| ==> !Writes(trace[i], key, sid)
  {
    if trace != [] {
      var front := trace[..|trace| - 1];
      NoWritesNone(front, key, sid);
      assert trace == front + [Last(trace)];
    }
  }

  lemma BackingStays(g: Setting, w: World, w': World, e: ActiveSubmission, origin: Origin)
    requires Monotone(w, w') && BackedBy(g, w, e, origin)
    ensures BackedBy(g, w', e, origin)
  {
  }

  lemma PutsBackedKept(g: Setting, s: Sys, s': Sys)
    requires PutsBacked(g, s) && Next(g, s, s')
    ensures PutsBacked(g, s')
  {
    NextIsMonotone(g, s, s');
    if Observed(s, s') {
      TraceGrows(s, s');
    }
    forall i | 0 <= i < |s'.trace| && s'.trace[i].Put?
        ensures BackedBy(g, s'.world, s'.trace[i].entry, s'.trace[i].origin) {
      if i < |s.trace| {
        BackingStays(g, s.world, s'.world, s.trace[i].entry, s.trace[i].origin);
      }
    }
  }

  lemma NotedStaysPublished(g: Setting, w: World, w': World, o: Obs)
    requires Monotone(w, w') && PublishedAsNoted(g, w, o)
    ensures PublishedAsNoted(g, w', o)
  {
    if o.RejectionAttempted? && o.fault != RaiseBefore {
      IsInStays(w, w', g.channels.For(o.delivery.operationType).EventKey(o.operationId), RejectionEvent(o.code));
    } else if o.AcceptedReturned? {
      IsInStays(w, w', g.channels.For(o.delivery.operationType).EventKey(o.operationId), AcceptedEvent(o.submissionId));
    }
  }

  lemma NewNoteIsPublished(g: Setting, s: Sys, s': Sys, o: Obs)
    requires ObsNext(g, s, s', o)
    ensures PublishedAsNoted(g, s'.world, o)
  {
    if o.RejectionAttempted? || o.AcceptedReturned? {
      var h := StreamAt(s'.world, g.channels.For(o.delivery.operationType).EventKey(o.operationId)).history;
      var e := if o.AcceptedReturned? then AcceptedEvent(o.submissionId) else RejectionEvent(o.code);
      assert o.AcceptedReturned? || o.fault != RaiseBefore ==> |h| > 0 && h[|h| - 1] == e;
    }
  }

  lemma AnswersPublishedKept(g: Setting, s: Sys, s': Sys)
    requires AnswersPublished(g, s) && Next(g, s, s')
    ensures AnswersPublished(g, s')
  {
    NextIsMonotone(g, s, s');
    if Observed(s, s') {
      TraceGrows(s, s');
      NewNoteIsPublished(g, s, s', Last(s'.trace));
    }
    forall i | 0 <= i < |s'.trace| ensures PublishedAsNoted(g, s'.world, s'.trace[i]) {
      if i < |s.trace| {
        NotedStaysPublished(g, s.world, s'.world, s.trace[i]);
      }
    }
  }

  lemma StopsWarrantedKept(g: Setting, s: Sys, s': Sys)
    requires StopsWarranted(s.trace) && Next(g, s, s')
    ensures StopsWarranted(s'.trace)
  {
    if Observed(s, s') {
      TraceGrows(s, s');
      forall i | 0 <= i < |s'.trace| && s'.trace[i].StopReturned? ensures StopWarranted(s'.trace, i) {
        assert i < |s.trace| ==> StopWarranted(s.trace, i);
      }
    }
  }

  lemma AckSupportedAt(g: Setting, s: Sys, s': Sys, i: nat)
    requires AcksSupported(g, s) && Observed(s, s') && ObsNext(g, s, s', Last(s'.trace)) && Monotone(s.world, s'.world)
    requires i < |s'.trace| && s'.trace[i].XAcked?
    ensures s'.trace[i].delivery in s'.world.acked
    ensures Supported(g.channels, s'.world, s'.trace, s'.trace[i].delivery, s'.trace[i].operationId)
  {
    TraceGrows(s, s');
    SupportedStays(g.channels, s.world, s'.world, s.trace, s'.trace, s'.trace[i].delivery, s'.trace[i].operationId);
  }

  /** A delivery that was acknowledged before is not acknowledged again. */
  lemma AcksStayDistinct(g: Setting, s: Sys, s': Sys)
    requires AcksSupported(g, s) && Observed(s, s') && ObsNext(g, s, s', Last(s'.trace))
    ensures forall i, j :: 0 <= i < j < |s'.trace| && s'.trace[i].XAcked? && s'.trace[j].XAcked? ==>
                             s'.trace[i].delivery != s'.trace[j].delivery
  {
    TraceGrows(s, s');
  }

  lemma AcksSupportedKept(g: Setting, s: Sys, s': Sys)
    requires AcksSupported(g, s) && Next(g, s, s')
    ensures AcksSupported(g, s')
  {
    NextIsMonotone(g, s, s');
    if Observed(s, s') {
      AcksStayDistinct(g, s, s');
    }
    forall i | 0 <= i < |s'.trace| && s'.trace[i].XAcked?
      ensures s'.trace[i].delivery in s'.world.acked
      ensures Supported(g.channels, s'.world, s'.trace, s'.trace[i].delivery, s'.trace[i].operationId)
    {
      if Observed(s, s') {
        AckSupportedAt(g, s, s', i);
      } else {
        SupportedStays(g.channels, s.world, s'.world, s.trace, s'.trace, s'.trace[i].delivery, s'.trace[i].operationId);
      }
    }
  }

  lemma NextIsSafe(g: Setting, s: Sys, s': Sys)
    requires Safe(g, s) && Next(g, s, s')
    ensures Safe(g, s')
  {
    TrackedHasJobKept(g, s, s');
    NothingDisplacedKept(g, s, s');
    RemovalsJustifiedKept(g, s, s');
    PutsAccountedKept(g, s, s');
    TrackedWasPutKept(g, s, s');
    OneLiveSubmissionKept(g, s, s');
    SetsAreCausesKept(g, s, s');
    MarkersExplainedKept(g, s, s');
    VerdictsExplainedKept(g, s, s');
    FallbacksAgreeKept(g, s, s');
    LookIsFreshKept(g, s, s');
    WritesCountedKept(g, s, s');
    WritesExplainedKept(g, s, s');
    PutsBackedKept(g, s, s');
    AnswersPublishedKept(g, s, s');
    StopsWarrantedKept(g, s, s');
    AcksSupportedKept(g, s, s');
  }

  /** Along an execution everything stays safe and the world only grows. */
  lemma {:induction false} ExecutionIsSafe(g: Setting, states: seq<Sys>)
    requires IsExecution(g, states)
    ensures Monotone(states[0].world, states[|states| - 1].world) && states[0].trace <= states[|states| - 1].trace
    ensures Safe(g, states[0]) ==> Safe(g, states[|states| - 1])
  {
    if |states| > 1 {
      var front := states[..|states| - 1];
      ExecutionIsSafe(g, front);
      var a, b, c := states[0].world, states[|states| - 2], states[|states| - 1];
      assert Next(g, b, c);
      NextIsMonotone(g, b, c);
      MonotoneIsTransitive(a, b.world, c.world);
      if Safe(g, states[0]) {
        NextIsSafe(g, b, c);
      }
      if Observed(b, c) {
        TraceGrows(b, c);
      }
    }
  }

  lemma MonotoneIsTransitive(a: World, b: World, c: World)
    requires Monotone(a, b) && Monotone(b, c)
    ensures Monotone(a, c)
  {
    forall k ensures StreamAt(a, k).history <= StreamAt(c, k).history {
      assert StreamAt(a, k).history <= StreamAt(b, k).history <= StreamAt(c, k).history;
    }
    forall k ensures MarkerKept(a, c, k) {
      assert MarkerKept(a, b, k) && MarkerKept(b, c, k);
    }
  }

  lemma StepsAreSafe(g: Setting, s: Sys, s': Sys)
    requires Steps(g, s, s')
    ensures Safe(g, s) ==> Safe(g, s')
    ensures Monotone(s.world, s'.world) && s.trace <= s'.trace
  {
    var states :| IsExecution(g, states) && states[0] == s && states[|states| - 1] == s';
    ExecutionIsSafe(g, states);
  }
}
