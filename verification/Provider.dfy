/** The provider process as objects: the in-memory map, the watcher and the runtime, over one object
    that stands for Redis and Ray. Every method is proved against the state transformer it carries out. */
module Provider {
  import opened Wrappers
  import opened Domain
  import opened Lookback
  import opened World
  import opened Watcher
  import opened Passes
  import opened Protocol
  import opened Jobs
  import opened Admission
  import opened Recovery

  // ---------------------------------------------------------------- Redis and Ray

  /** The clients. `None` or false stands for a raised exception. */
  class Backend {
    var world: World
    ghost var trace: seq<Obs>

    constructor (w: World)
      ensures world == w && trace == []
    {
      world, trace := w, [];
    }

    ghost method Record(o: Obs)
      modifies this`trace
      ensures trace == old(trace) + [o]
    {
      trace := trace + [o];
    }

    method Environment(steps: seq<EnvStep>)
      modifies this`world
      ensures world == EnvAll(old(world), steps)
    {
      world := EnvAll(world, steps);
    }

    method Xrevrange(key: string, count: nat, fault: Fault) returns (r: Option<seq<Entry>>)
      ensures r == if fault == Ok then Some(Newest(StreamAt(world, key), count)) else None
    {
      r := if fault == Ok then Some(Newest(StreamAt(world, key), count)) else None;
    }

    method Exists(key: string, fault: Fault) returns (r: Option<bool>)
      ensures r == if fault == Ok then Some(key in world.markers) else None
    {
      r := if fault == Ok then Some(key in world.markers) else None;
    }

    method Xadd(key: string, e: Entry, fault: Fault) returns (returned: bool)
      modifies this`world
      ensures world == Publish(old(world), key, e, fault)
      ensures returned <==> fault == Ok
    {
      world := Publish(world, key, e, fault);
      returned := fault == Ok;
    }

    method Xack(d: Delivery, fault: Fault) returns (returned: bool)
      modifies this`world
      ensures world == if fault == RaiseBefore then old(world) else old(world).(acked := old(world).acked + {d})
      ensures returned <==> fault == Ok
    {
      if fault != RaiseBefore {
        world := world.(acked := world.acked + {d});
      }
      returned := fault == Ok;
    }

    method JobStatus(submissionId: string, fault: Fault) returns (r: Option<RayStatus>)
      ensures r == if fault == Ok && submissionId in world.jobs then Some(world.jobs[submissionId].status) else None
    {
      r := if fault == Ok && submissionId in world.jobs then Some(world.jobs[submissionId].status) else None;
    }

    method StopJob(submissionId: string, fault: Fault) returns (returned: bool)
      modifies this`world
      ensures world == if fault == RaiseBefore then old(world)
                       else old(world).(stopping := old(world).stopping + {submissionId})
      ensures returned <==> fault == Ok
    {
      if fault != RaiseBefore {
        world := world.(stopping := world.stopping + {submissionId});
      }
      returned := fault == Ok;
    }

    /** The submitter may raise after creating the job; it never returns a job of another identity. */
    method SubmitJob(submissionId: string, md: Metadata, rayJobId: Option<string>,
                     fault: Fault) returns (returned: bool)
      modifies this`world
      ensures world == if fault == RaiseBefore || !MayReturn(old(world), submissionId, md) then old(world)
                       else CreateJob(old(world), submissionId, md, rayJobId)
      ensures returned <==> fault == Ok && MayReturn(old(world), submissionId, md)
    {
      returned := fault == Ok && MayReturn(world, submissionId, md);
      if fault != RaiseBefore && MayReturn(world, submissionId, md) {
        world := CreateJob(world, submissionId, md, rayJobId);
      }
    }
  }

  // ---------------------------------------------------------------- the active map

  ghost predicate NoDuplicates(order: seq<string>) {
    forall i, j :: 0 <= i < j < |order| ==> order[i] != order[j]
  }

  lemma {:induction false} NoDuplicatesCardinality(order: seq<string>, keys: set<string>)
    requires NoDuplicates(order) && (forall k :: k in keys <==> k in order)
    ensures |keys| == |order|
  {
    if order == [] {
      assert keys == {};
    } else {
      var last := order[|order| - 1];
      var front := order[..|order| - 1];
      forall k ensures k in keys - {last} <==> k in front {
        if k in front {
          var i :| 0 <= i < |front| && front[i] == k;
          assert order[i] != last;
        }
      }
      NoDuplicatesCardinality(front, keys - {last});
    }
  }

  function Without(order: seq<string>, key: string): (r: seq<string>)
    ensures forall k :: k in r <==> k in order && k != key
  {
    if order == [] then [] else (if order[0] == key then [] else [order[0]]) + Without(order[1..], key)
  }

  lemma {:induction false} WithoutKeepsNoDuplicates(order: seq<string>, key: string)
    requires NoDuplicates(order)
    ensures NoDuplicates(Without(order, key))
  {
    if order != [] {
      WithoutKeepsNoDuplicates(order[1..], key);
      var rest := Without(order[1..], key);
      forall i | 0 <= i < |rest| ensures rest[i] != order[0] {
        assert rest[i] in order[1..];
        var j :| 0 <= j < |order[1..]| && order[1..][j] == rest[i];
        assert order[j + 1] == rest[i];
      }
    }
  }

  /** An insertion-ordered dictionary from operation to active submission. */
  class ActiveSubmissionMap {
    var items: map<string, ActiveSubmission>
    var order: seq<string>

    ghost predicate Valid()
      reads this
    {
      NoDuplicates(order) && forall k :: k in items.Keys <==> k in order
    }

    constructor ()
      ensures Valid() && items == map[]
    {
      items, order := map[], [];
    }

    method Put(value: ActiveSubmission)
      requires Valid()
      modifies this
      ensures Valid() && items == old(items)[value.operationId := value]
      ensures value.operationId in old(items) ==> order == old(order)
      ensures value.operationId !in old(items) ==> order == old(order) + [value.operationId]
    {
      if value.operationId !in items {
        order := order + [value.operationId];
      }
      items := items[value.operationId := value];
    }

    method Remove(operationId: string) returns (r: Option<ActiveSubmission>)
      requires Valid()
      modifies this
      ensures Valid() && items == old(items) - {operationId}
      ensures r == if operationId in old(items) then Some(old(items)[operationId]) else None
    {
      r := if operationId in items then Some(items[operationId]) else None;
      WithoutKeepsNoDuplicates(order, operationId);
      order := Without(order, operationId);
      items := items - {operationId};
    }

    method Get(operationId: string) returns (r: Option<ActiveSubmission>)
      ensures r == if operationId in items then Some(items[operationId]) else None
    {
      r := if operationId in items then Some(items[operationId]) else None;
    }

    /** Every entry once, in insertion order. */
    method Snapshot() returns (r: seq<ActiveSubmission>)
      requires Valid()
      requires forall op :: op in items ==> items[op].operationId == op
      ensures IsSnapshot(r, items)
      ensures |r| == |order| && forall i :: 0 <= i < |r| ==> r[i].operationId == order[i]
    {
      r := [];
      for i := 0 to |order|
        invariant |r| == i
        invariant forall k :: 0 <= k < i ==> order[k] in items && r[k] == items[order[k]]
      {
        assert order[i] in order;
        r := r + [items[order[i]]];
      }
      NoDuplicatesCardinality(order, items.Keys);
      assert |items| == |items.Keys|;
    }
  }

  // ---------------------------------------------------------------- the watcher

  /** `pass` is the rest of the snapshot that the pass in progress still has to iterate over. */
  class CancelWatcher {
    const backend: Backend
    const active: ActiveSubmissionMap
    const matcher: Matcher
    var stopRequested: set<string>
    var timeoutRequested: set<string>
    var pass: seq<ActiveSubmission>

    ghost predicate Valid()
      reads this, active
    {
      active.Valid() && forall op :: op in active.items ==> active.items[op].operationId == op
    }

    ghost function State(): Sys
      reads this, backend, active
    {
      Sys(backend.world, Memory(active.items, stopRequested, timeoutRequested, pass), backend.trace)
    }

    constructor (backend: Backend, active: ActiveSubmissionMap, matcher: Matcher)
      requires active.Valid() && active.items == map[]
      ensures Valid() && this.backend == backend && this.active == active && this.matcher == matcher
      ensures State() == Sys(backend.world, EMPTY_MEMORY, backend.trace)
    {
      this.backend, this.active, this.matcher := backend, active, matcher;
      stopRequested, timeoutRequested, pass := {}, {}, [];
    }

    method TerminalEventPublished(x: ActiveSubmission, fault: Fault) returns (r: Scan)
      ensures r == if fault != Ok then ScanRaised else BoundedScan(matcher, StreamAt(backend.world, x.EventKey()), x)
    {
      var entries := backend.Xrevrange(x.EventKey(), TERMINAL_LOOKBACK, fault);
      if entries.None? {
        return ScanRaised;
      }
      r := ScanLoop(matcher, entries.value, x);
    }

    method RemoveItem(x: ActiveSubmission)
      requires Valid()
      modifies active, backend`trace
      ensures Valid() && State() == RemoveActive(old(State()), x)
    {
      var removed := active.Remove(x.operationId);
      if removed.Some? {
        backend.Record(Removed(removed.value, x));
      }
      assert removed.None? ==> active.items == old(active.items);
    }

    method ForgetItem(x: ActiveSubmission)
      requires Valid()
      modifies this`stopRequested, this`timeoutRequested, active, backend`trace
      ensures Valid() && State() == Forget(old(State()), x)
    {
      RemoveItem(x);
      stopRequested := stopRequested - {x.operationId};
      timeoutRequested := timeoutRequested - {x.operationId};
      backend.Record(Discarded(x.operationId));
    }

    /** `_report_failed` or `_report_cancelled`, then the removal if the publication returned. */
    method Report(x: ActiveSubmission, kind: string, code: string, status: RayStatus, present: bool, nowMs: int,
                  fault: Fault)
      requires Valid() && IsFinal(status)
      requires (kind, code) == VerdictIn(State().mem, x, status, present, TimedOut(x, nowMs))
      modifies this`stopRequested, this`timeoutRequested, active, backend
      ensures Valid() && State() == ReportFinal(old(State()), x, status, present, nowMs, fault)
    {
      var returned := backend.Xadd(x.EventKey(), Fallback(x, kind, code), fault);
      if fault != RaiseBefore {
        backend.Record(Wrote(x, status, present, nowMs, kind, code));
      }
      if returned {
        ForgetItem(x);
      }
    }

    method Stop(x: ActiveSubmission, cancelled: bool, ghost deletions: nat, ghost nowMs: int, fault: Fault)
      requires Valid()
      modifies this`stopRequested, this`timeoutRequested, backend
      ensures Valid() && State() == RequestStop(old(State()), x, cancelled, deletions, nowMs, fault)
    {
      var returned := backend.StopJob(x.SubmissionId(), fault);
      if returned {
        if cancelled {
          stopRequested := stopRequested + {x.operationId};
        } else {
          timeoutRequested := timeoutRequested + {x.operationId};
        }
        backend.Record(StopReturned(x, if cancelled then ByMarker else ByDeadline, deletions, nowMs));
      }
    }

    /** The second half of the body: marker, deadline, and what the status calls for. */
    method React(x: ActiveSubmission, status: RayStatus, t: ItemScript)
      requires Valid()
      modifies this`stopRequested, this`timeoutRequested, active, backend
      ensures Valid() && State() == ActOnStatus(old(State()), x, status, t)
    {
      backend.Environment(t.marker.before);
      var marker := backend.Exists(x.CancelKey(), t.marker.fault);
      if marker.None? {
        return;
      }
      var cancelled := marker.value;
      ghost var deletions := Deletions(backend.world, x.CancelKey());
      backend.Record(MarkerRead(x, cancelled, deletions));
      var timedOut := x.deadlineAtMs.Some? && t.nowMs >= x.deadlineAtMs.value;
      backend.Environment(t.effect.before);
      var timeoutStop := x.operationId in timeoutRequested
                         || (timedOut && !cancelled && x.operationId !in stopRequested);
      if status == Succeeded || status == Failed {
        var code := if timeoutStop then "EXECUTION_TIMEOUT"
                    else if status == Failed then "RAY_JOB_FAILED" else "TERMINAL_EVENT_MISSING";
        Report(x, "FAILED", code, status, cancelled, t.nowMs, t.effect.fault);
        return;
      }
      if status == Stopped {
        if timeoutStop {
          Report(x, "FAILED", "EXECUTION_TIMEOUT", status, cancelled, t.nowMs, t.effect.fault);
        } else if cancelled || x.operationId in stopRequested {
          Report(x, "CANCELLED", "", status, cancelled, t.nowMs, t.effect.fault);
        } else {
          Report(x, "FAILED", "RAY_JOB_STOPPED", status, cancelled, t.nowMs, t.effect.fault);
        }
        return;
      }
      if cancelled || timedOut {
        Stop(x, cancelled, deletions, t.nowMs, t.effect.fault);
      }
    }

    method CheckItem(x: ActiveSubmission, t: ItemScript)
      requires Valid()
      modifies this`stopRequested, this`timeoutRequested, active, backend
      ensures Valid() && State() == Watcher.CheckItem(matcher, old(State()), x, t)
    {
      backend.Environment(t.lookback.before);
      var published := TerminalEventPublished(x, t.lookback.fault);
      if t.lookback.fault == Ok {
        ghost var stream := StreamAt(backend.world, x.EventKey());
        backend.Record(Looked(x, EventsAfterFallback(stream.history, x.SubmissionId()), Retained(stream)));
      }
      if published == ScanRaised {
        return;
      }
      if published == Found {
        ForgetItem(x);
        return;
      }
      backend.Environment(t.status.before);
      var status := backend.JobStatus(x.SubmissionId(), t.status.fault);
      if status.Some? {
        React(x, status.value, t);
      }
    }

    method CheckNextItem(t: ItemScript)
      requires Valid() && pass != []
      modifies this, active, backend
      ensures Valid() && State() == Apply(matcher, old(State()), CheckNext(t))
    {
      var x := pass[0];
      pass := pass[1..];
      CheckItem(x, t);
    }

    /** The iteration over the rest of the snapshot, one body per script. */
    method RunPass(scripts: seq<ItemScript>)
      requires Valid() && |pass| == |scripts|
      modifies this, active, backend
      ensures Valid() && pass == []
      ensures State() == Interfere(matcher, old(State()), Bodies(scripts))
    {
      ghost var began := State();
      var i := 0;
      while i < |scripts|
        invariant Valid() && 0 <= i <= |scripts| && |pass| == |scripts| - i
        invariant State() == Interfere(matcher, began, Bodies(scripts)[..i])
      {
        ghost var before := State();
        CheckNextItem(scripts[i]);
        BodyShortensPass(matcher, before, scripts[i]);
        InterfereSnoc(matcher, began, Bodies(scripts), i);
        i := i + 1;
      }
      assert Bodies(scripts)[..i] == Bodies(scripts);
    }

    /** One pass: snapshot, then the body for every item of the snapshot. */
    method CheckOnce(scripts: seq<ItemScript>) returns (ghost snapshot: seq<ActiveSubmission>)
      requires Valid() && pass == [] && |scripts| == |active.order|
      modifies this, active, backend
      ensures Valid() && pass == [] && IsSnapshot(snapshot, old(active.items))
      ensures State() == Interfere(matcher, WithPass(old(State()), snapshot), Bodies(scripts))
    {
      var items := active.Snapshot();
      snapshot := items;
      pass := items;
      RunPass(scripts);
    }
  }

  /** A body consumes exactly one item of the pass. */
  lemma BodyShortensPass(m: Matcher, s: Sys, t: ItemScript)
    requires s.mem.pass != []
    ensures Apply(m, s, CheckNext(t)).mem.pass == s.mem.pass[1..]
  {
    var s0 := WithPass(s, s.mem.pass[1..]);
    PassIsNotRead(m, s0, s.mem.pass[0], t, s.mem.pass[1..]);
  }

  function Bodies(scripts: seq<ItemScript>): seq<Step> {
    seq(|scripts|, i requires 0 <= i < |scripts| => CheckNext(scripts[i]))
  }
}
