/** One whole pass of the watcher over a snapshot, without interference: the bodies act on disjoint
    parts of the state, so each item ends as if it had been checked alone, in whatever order. */
module Passes {
  import opened Wrappers
  import opened Domain
  import opened Lookback
  import opened World
  import opened Watcher
  import opened Safety
  import opened AdmissionSteps

  datatype Check = Check(item: ActiveSubmission, script: ItemScript)

  predicate QuietItem(t: ItemScript) {
    t.lookback.before == [] && t.status.before == [] && t.marker.before == [] && t.effect.before == []
  }

  function PassAll(m: Matcher, s: Sys, checks: seq<Check>): Sys {
    if checks == [] then s
    else CheckItem(m, PassAll(m, s, checks[..|checks| - 1]), checks[|checks| - 1].item, checks[|checks| - 1].script)
  }

  /** The two items share no operation, no event stream and no submission. */
  predicate Separate(x: ActiveSubmission, y: ActiveSubmission) {
    x.operationId != y.operationId && x.EventKey() != y.EventKey() && x.SubmissionId() != y.SubmissionId()
  }

  /** The two states look the same to one item, including everything its body can change. */
  predicate AgreeOn(a: Sys, b: Sys, x: ActiveSubmission) {
    && StreamAt(a.world, x.EventKey()) == StreamAt(b.world, x.EventKey())
    && Tracked(a, x.operationId) == Tracked(b, x.operationId)
    && (x.operationId in a.mem.stopRequested <==> x.operationId in b.mem.stopRequested)
    && (x.operationId in a.mem.timeoutRequested <==> x.operationId in b.mem.timeoutRequested)
    && (x.SubmissionId() in a.world.stopping <==> x.SubmissionId() in b.world.stopping)
  }

  /** What no body changes. */
  predicate SameBackground(a: Sys, b: Sys) {
    a.world.markers == b.world.markers && a.world.jobs == b.world.jobs && a.world.cleared == b.world.cleared
    && a.world.acked == b.world.acked
  }

  /** What a body decides from what its item sees, when nothing interferes. */
  datatype Decision =
    | LeaveIt
    | ForgetIt
    | WriteFallback(kind: string, code: string, forget: bool)
    | AskToStop(returned: Option<StopCause>)

  function Decide(m: Matcher, s: Sys, x: ActiveSubmission, t: ItemScript): Decision {
    var scan := BoundedScan(m, StreamAt(s.world, x.EventKey()), x);
    if t.lookback.fault != Ok || scan.ScanRaised? then LeaveIt
    else if scan.Found? then ForgetIt
    else if t.status.fault != Ok || x.SubmissionId() !in s.world.jobs then LeaveIt
    else DecideOnStatus(s, x, s.world.jobs[x.SubmissionId()].status, t)
  }

  function Forgotten(mem: Memory, op: string): Memory {
    mem.(active := mem.active - {op}, stopRequested := mem.stopRequested - {op},
        timeoutRequested := mem.timeoutRequested - {op})
  }

  function EffectOnMemory(mem: Memory, x: ActiveSubmission, d: Decision): Memory {
    var op := x.operationId;
    match d
    case LeaveIt => mem
    case ForgetIt => Forgotten(mem, op)
    case WriteFallback(_, _, forget) => if forget then Forgotten(mem, op) else mem
    case AskToStop(returned) =>
      if returned == Some(ByMarker) then mem.(stopRequested := mem.stopRequested + {op})
      else if returned == Some(ByDeadline) then mem.(timeoutRequested := mem.timeoutRequested + {op})
      else mem
  }

  function EffectOnWorld(w: World, x: ActiveSubmission, d: Decision): World {
    match d
    case WriteFallback(kind, code, _) => Append(w, x.EventKey(), Fallback(x, kind, code))
    case AskToStop(_) => w.(stopping := w.stopping + {x.SubmissionId()})
    case _ => w
  }

  /** Without interference, a body is a local decision followed by a local effect. */
  lemma CheckIsDecision(m: Matcher, s: Sys, x: ActiveSubmission, t: ItemScript)
    requires QuietItem(t)
    ensures var d := Decide(m, s, x, t);
            && CheckItem(m, s, x, t).mem == EffectOnMemory(s.mem, x, d)
            && CheckItem(m, s, x, t).world == EffectOnWorld(s.world, x, d)
  {
    var (s1, scan) := LookAt(m, s, x, t.lookback);
    assert s1.world == s.world && s1.mem == s.mem;
    if scan.Found? {
      ForgetForgets(s1, x);
    } else if scan.NotFound? && t.status.fault == Ok && x.SubmissionId() in s.world.jobs {
      assert Env(s1, t.status.before) == s1;
      ActIsDecision(s1, x, s.world.jobs[x.SubmissionId()].status, t);
    }
  }

  lemma ForgetForgets(s: Sys, x: ActiveSubmission)
    ensures Forget(s, x).mem == Forgotten(s.mem, x.operationId) && Forget(s, x).world == s.world
  {
    assert x.operationId !in s.mem.active ==> s.mem.active - {x.operationId} == s.mem.active;
  }

  function DecideOnStatus(s: Sys, x: ActiveSubmission, status: RayStatus, t: ItemScript): Decision {
    var present := x.CancelKey() in s.world.markers;
    var timedOut := TimedOut(x, t.nowMs);
    if t.marker.fault != Ok || t.effect.fault == RaiseBefore then LeaveIt
    else if IsFinal(status) then
      var (kind, code) := VerdictIn(s.mem, x, status, present, timedOut);
      WriteFallback(kind, code, t.effect.fault == Ok)
    else if present || timedOut then
      AskToStop(if t.effect.fault == RaiseAfter then None else if present then Some(ByMarker) else Some(ByDeadline))
    else LeaveIt
  }

  lemma ActIsDecision(s: Sys, x: ActiveSubmission, status: RayStatus, t: ItemScript)
    requires QuietItem(t)
    ensures var d := DecideOnStatus(s, x, status, t);
            && ActOnStatus(s, x, status, t).mem == EffectOnMemory(s.mem, x, d)
            && ActOnStatus(s, x, status, t).world == EffectOnWorld(s.world, x, d)
  {
    var present := x.CancelKey() in s.world.markers;
    var s2 := Note(s, MarkerRead(x, present, Deletions(s.world, x.CancelKey())));
    assert Env(s, t.marker.before) == s && Env(s2, t.effect.before) == s2;
    if IsFinal(status) {
      ForgetForgets(ReportFinal(s2, x, status, present, t.nowMs, RaiseAfter), x);
    }
  }

  lemma QuietCheck(m: Matcher, s: Sys, x: ActiveSubmission, t: ItemScript)
    requires QuietItem(t)
    ensures SameBackground(s, CheckItem(m, s, x, t)) && CheckItem(m, s, x, t).mem.pass == s.mem.pass
  {
    CheckIsDecision(m, s, x, t);
  }

  /** A body leaves everything alone that belongs to another item. */
  lemma CheckItemFrame(m: Matcher, s: Sys, x: ActiveSubmission, t: ItemScript, y: ActiveSubmission)
    requires QuietItem(t) && Separate(x, y)
    ensures AgreeOn(CheckItem(m, s, x, t), s, y)
  {
    CheckIsDecision(m, s, x, t);
    EffectFrame(s, x, Decide(m, s, x, t), CheckItem(m, s, x, t), y);
  }

  lemma EffectFrame(s: Sys, x: ActiveSubmission, d: Decision, s': Sys, y: ActiveSubmission)
    requires s'.mem == EffectOnMemory(s.mem, x, d) && s'.world == EffectOnWorld(s.world, x, d) && Separate(x, y)
    ensures AgreeOn(s', s, y)
  {
  }

  /** A body depends only on what its own item sees. */
  lemma CheckItemIsLocal(m: Matcher, a: Sys, b: Sys, x: ActiveSubmission, t: ItemScript)
    requires QuietItem(t) && AgreeOn(a, b, x) && SameBackground(a, b)
    ensures AgreeOn(CheckItem(m, a, x, t), CheckItem(m, b, x, t), x)
  {
    CheckIsDecision(m, a, x, t);
    CheckIsDecision(m, b, x, t);
    assert Decide(m, a, x, t) == Decide(m, b, x, t);
    EffectIsLocal(a, b, x, Decide(m, a, x, t), CheckItem(m, a, x, t), CheckItem(m, b, x, t));
  }

  lemma EffectIsLocal(a: Sys, b: Sys, x: ActiveSubmission, d: Decision, a': Sys, b': Sys)
    requires AgreeOn(a, b, x)
    requires a'.mem == EffectOnMemory(a.mem, x, d) && a'.world == EffectOnWorld(a.world, x, d)
    requires b'.mem == EffectOnMemory(b.mem, x, d) && b'.world == EffectOnWorld(b.world, x, d)
    ensures AgreeOn(a', b', x)
  {
  }

  ghost predicate Independent(checks: seq<Check>) {
    && (forall i :: 0 <= i < |checks| ==> QuietItem(checks[i].script))
    && (forall i, j :: 0 <= i < j < |checks| ==> Separate(checks[i].item, checks[j].item))
  }

  lemma SeparateIsSymmetric(checks: seq<Check>, i: nat, j: nat)
    requires Independent(checks) && i < |checks| && j < |checks| && i != j
    ensures Separate(checks[i].item, checks[j].item)
  {
    assert Separate(checks[if i < j then i else j].item, checks[if i < j then j else i].item);
  }

  lemma {:induction false} PassFrame(m: Matcher, s: Sys, checks: seq<Check>, y: ActiveSubmission)
    requires Independent(checks)
    requires forall i :: 0 <= i < |checks| ==> Separate(checks[i].item, y)
    ensures AgreeOn(PassAll(m, s, checks), s, y) && SameBackground(PassAll(m, s, checks), s)
  {
    if checks != [] {
      var front, last := checks[..|checks| - 1], checks[|checks| - 1];
      PassFrame(m, s, front, y);
      CheckItemFrame(m, PassAll(m, s, front), last.item, last.script, y);
      QuietCheck(m, PassAll(m, s, front), last.item, last.script);
    }
  }

  lemma {:induction false} PassBackground(m: Matcher, s: Sys, checks: seq<Check>)
    requires Independent(checks)
    ensures SameBackground(PassAll(m, s, checks), s) && PassAll(m, s, checks).mem.pass == s.mem.pass
  {
    if checks != [] {
      var front, last := checks[..|checks| - 1], checks[|checks| - 1];
      PassBackground(m, s, front);
      QuietCheck(m, PassAll(m, s, front), last.item, last.script);
    }
  }

  /** Independence: after the pass, every item is exactly where its own body alone would have left it
      from the initial state, whatever the other bodies did or failed to do. */
  lemma {:induction false} PassIsPointwise(m: Matcher, s: Sys, checks: seq<Check>, k: nat)
    requires Independent(checks) && k < |checks|
    ensures AgreeOn(PassAll(m, s, checks), CheckItem(m, s, checks[k].item, checks[k].script), checks[k].item)
    decreases |checks|
  {
    var front, last := checks[..|checks| - 1], checks[|checks| - 1];
    var mid := PassAll(m, s, front);
    PassBackground(m, s, front);
    if k == |checks| - 1 {
      forall i | 0 <= i < |front| ensures Separate(front[i].item, last.item) {
        SeparateIsSymmetric(checks, i, k);
      }
      PassFrame(m, s, front, last.item);
      CheckItemIsLocal(m, mid, s, last.item, last.script);
    } else {
      PassIsPointwise(m, s, front, k);
      SeparateIsSymmetric(checks, |checks| - 1, k);
      CheckItemFrame(m, mid, last.item, last.script, checks[k].item);
    }
  }

  /** The two states cannot be told apart by any key, operation or submission. */
  ghost predicate SameState(a: Sys, b: Sys) {
    && SameBackground(a, b)
    && (forall key :: StreamAt(a.world, key) == StreamAt(b.world, key))
    && a.mem.active == b.mem.active
    && a.mem.stopRequested == b.mem.stopRequested && a.mem.timeoutRequested == b.mem.timeoutRequested
    && a.world.stopping == b.world.stopping
  }

  ghost predicate OwnsKey(checks: seq<Check>, key: string) {
    exists i :: 0 <= i < |checks| && checks[i].item.EventKey() == key
  }

  ghost predicate OwnsOperation(checks: seq<Check>, op: string) {
    exists i :: 0 <= i < |checks| && checks[i].item.operationId == op
  }

  ghost predicate OwnsSubmission(checks: seq<Check>, sid: string) {
    exists i :: 0 <= i < |checks| && checks[i].item.SubmissionId() == sid
  }

  predicate SameOperation(a: Sys, b: Sys, op: string) {
    && Tracked(a, op) == Tracked(b, op)
    && (op in a.mem.stopRequested <==> op in b.mem.stopRequested)
    && (op in a.mem.timeoutRequested <==> op in b.mem.timeoutRequested)
  }

  lemma OwnershipGrows(checks: seq<Check>, key: string, op: string, sid: string)
    requires checks != []
    ensures var front, last := checks[..|checks| - 1], checks[|checks| - 1].item;
            && (OwnsKey(front, key) || last.EventKey() == key ==> OwnsKey(checks, key))
            && (OwnsOperation(front, op) || last.operationId == op ==> OwnsOperation(checks, op))
            && (OwnsSubmission(front, sid) || last.SubmissionId() == sid ==> OwnsSubmission(checks, sid))
  {
    var n := |checks| - 1;
    assert checks[n] == checks[|checks| - 1];
    assert forall i :: 0 <= i < n ==> checks[..n][i] == checks[i];
  }

  /** A key, an operation or a submission that no item of the pass owns is left alone. */
  lemma {:induction false} PassLeavesOthers(m: Matcher, s: Sys, checks: seq<Check>, key: string, op: string,
                                            sid: string)
    requires Independent(checks)
    ensures var s' := PassAll(m, s, checks);
            && (!OwnsKey(checks, key) ==> StreamAt(s'.world, key) == StreamAt(s.world, key))
            && (!OwnsOperation(checks, op) ==> SameOperation(s', s, op))
            && (!OwnsSubmission(checks, sid) ==> (sid in s'.world.stopping <==> sid in s.world.stopping))
  {
    if checks != [] {
      var front, last := checks[..|checks| - 1], checks[|checks| - 1];
      PassLeavesOthers(m, s, front, key, op, sid);
      var mid := PassAll(m, s, front);
      CheckIsDecision(m, mid, last.item, last.script);
      EffectLeavesOthers(mid, last.item, Decide(m, mid, last.item, last.script), PassAll(m, s, checks), key, op, sid);
      OwnershipGrows(checks, key, op, sid);
    }
  }

  lemma EffectLeavesOthers(s: Sys, x: ActiveSubmission, d: Decision, s': Sys, key: string, op: string, sid: string)
    requires s'.mem == EffectOnMemory(s.mem, x, d) && s'.world == EffectOnWorld(s.world, x, d)
    ensures key != x.EventKey() ==> StreamAt(s'.world, key) == StreamAt(s.world, key)
    ensures op != x.operationId ==> SameOperation(s', s, op)
    ensures sid != x.SubmissionId() ==> (sid in s'.world.stopping <==> sid in s.world.stopping)
  {
  }

  lemma SameOwners(p: seq<Check>, q: seq<Check>, key: string, op: string, sid: string)
    requires forall c :: c in p ==> c in q
    ensures OwnsKey(p, key) ==> OwnsKey(q, key)
    ensures OwnsOperation(p, op) ==> OwnsOperation(q, op)
    ensures OwnsSubmission(p, sid) ==> OwnsSubmission(q, sid)
  {
    forall i | 0 <= i < |p| ensures exists j :: 0 <= j < |q| && q[j] == p[i] {
      assert p[i] in q;
    }
  }

  /** Whatever an item of both passes owns ends the same. */
  lemma PassesAgreeOn(m: Matcher, s: Sys, p: seq<Check>, q: seq<Check>, i: nat)
    requires Independent(p) && Independent(q) && i < |p| && p[i] in q
    ensures AgreeOn(PassAll(m, s, p), PassAll(m, s, q), p[i].item)
  {
    var j :| 0 <= j < |q| && q[j] == p[i];
    PassIsPointwise(m, s, p, i);
    PassIsPointwise(m, s, q, j);
  }

  lemma StreamsAgree(m: Matcher, s: Sys, p: seq<Check>, q: seq<Check>, key: string)
    requires Independent(p) && Independent(q) && forall c :: c in p <==> c in q
    ensures StreamAt(PassAll(m, s, p).world, key) == StreamAt(PassAll(m, s, q).world, key)
  {
    if OwnsKey(p, key) {
      var i :| 0 <= i < |p| && p[i].item.EventKey() == key;
      PassesAgreeOn(m, s, p, q, i);
    } else {
      SameOwners(q, p, key, "", "");
      PassLeavesOthers(m, s, p, key, "", "");
      PassLeavesOthers(m, s, q, key, "", "");
    }
  }

  lemma OperationsAgree(m: Matcher, s: Sys, p: seq<Check>, q: seq<Check>, op: string)
    requires Independent(p) && Independent(q) && forall c :: c in p <==> c in q
    ensures SameOperation(PassAll(m, s, p), PassAll(m, s, q), op)
  {
    if OwnsOperation(p, op) {
      var i :| 0 <= i < |p| && p[i].item.operationId == op;
      PassesAgreeOn(m, s, p, q, i);
    } else {
      SameOwners(q, p, "", op, "");
      PassLeavesOthers(m, s, p, "", op, "");
      PassLeavesOthers(m, s, q, "", op, "");
    }
  }

  lemma StopsAgree(m: Matcher, s: Sys, p: seq<Check>, q: seq<Check>, sid: string)
    requires Independent(p) && Independent(q) && forall c :: c in p <==> c in q
    ensures sid in PassAll(m, s, p).world.stopping <==> sid in PassAll(m, s, q).world.stopping
  {
    if OwnsSubmission(p, sid) {
      var i :| 0 <= i < |p| && p[i].item.SubmissionId() == sid;
      PassesAgreeOn(m, s, p, q, i);
    } else {
      SameOwners(q, p, "", "", sid);
      PassLeavesOthers(m, s, p, "", "", sid);
      PassLeavesOthers(m, s, q, "", "", sid);
    }
  }

  /** The order of the snapshot does not matter. */
  lemma PassOrderIsIrrelevant(m: Matcher, s: Sys, p: seq<Check>, q: seq<Check>)
    requires Independent(p) && Independent(q)
    requires forall c :: c in p <==> c in q
    ensures SameState(PassAll(m, s, p), PassAll(m, s, q))
  {
    var a, b := PassAll(m, s, p), PassAll(m, s, q);
    PassBackground(m, s, p);
    PassBackground(m, s, q);
    forall key ensures StreamAt(a.world, key) == StreamAt(b.world, key) {
      StreamsAgree(m, s, p, q, key);
    }
    forall op ensures SameOperation(a, b, op) {
      OperationsAgree(m, s, p, q, op);
    }
    forall sid ensures sid in a.world.stopping <==> sid in b.world.stopping {
      StopsAgree(m, s, p, q, sid);
    }
    SameMemory(a, b);
  }

  lemma SameMemory(a: Sys, b: Sys)
    requires forall op :: SameOperation(a, b, op)
    ensures a.mem.active == b.mem.active
    ensures a.mem.stopRequested == b.mem.stopRequested && a.mem.timeoutRequested == b.mem.timeoutRequested
  {
    forall op ensures op in a.mem.active <==> op in b.mem.active
              ensures op in a.mem.stopRequested <==> op in b.mem.stopRequested
              ensures op in a.mem.timeoutRequested <==> op in b.mem.timeoutRequested
    {
      assert SameOperation(a, b, op);
    }
    forall op | op in a.mem.active ensures a.mem.active[op] == b.mem.active[op] {
      assert SameOperation(a, b, op);
    }
  }

  /** No call of the body raised. */
  predicate NothingRaised(m: Matcher, s: Sys, x: ActiveSubmission, t: ItemScript) {
    && t.lookback.fault == Ok && t.status.fault == Ok && t.marker.fault == Ok && t.effect.fault == Ok
    && !BoundedScan(m, StreamAt(s.world, x.EventKey()), x).ScanRaised?
    && x.SubmissionId() in s.world.jobs
  }

  /** The item was removed, or Ray still runs its job and no terminal event is visible. */
  predicate Settled(m: Matcher, s: Sys, x: ActiveSubmission) {
    || Tracked(s, x.operationId).None?
    || (&& x.SubmissionId() in s.world.jobs && !IsFinal(s.world.jobs[x.SubmissionId()].status)
        && BoundedScan(m, StreamAt(s.world, x.EventKey()), x).NotFound?)
  }

  lemma CheckSettles(m: Matcher, s: Sys, x: ActiveSubmission, t: ItemScript)
    requires QuietItem(t) && NothingRaised(m, s, x, t)
    ensures Settled(m, CheckItem(m, s, x, t), x)
  {
    CheckIsDecision(m, s, x, t);
  }

  /** After a pass every item whose body raised nothing is settled, whatever the other bodies did. */
  lemma PassSettlesItems(m: Matcher, s: Sys, checks: seq<Check>, k: nat)
    requires Independent(checks) && k < |checks|
    requires NothingRaised(m, s, checks[k].item, checks[k].script)
    ensures Settled(m, PassAll(m, s, checks), checks[k].item)
  {
    PassIsPointwise(m, s, checks, k);
    PassBackground(m, s, checks);
    CheckSettles(m, s, checks[k].item, checks[k].script);
    QuietCheck(m, s, checks[k].item, checks[k].script);
  }

  /** The body's own lookback and status read, under whatever the environment does before them. */
  function WorldAtLookback(s: Sys, t: ItemScript): World {
    EnvAll(s.world, t.lookback.before)
  }

  function WorldAtStatus(s: Sys, t: ItemScript): World {
    EnvAll(WorldAtLookback(s, t), t.status.before)
  }

  predicate BodyReturned(m: Matcher, s: Sys, x: ActiveSubmission, t: ItemScript) {
    && t.lookback.fault == Ok && t.status.fault == Ok && t.marker.fault == Ok && t.effect.fault == Ok
    && !BoundedScan(m, StreamAt(WorldAtLookback(s, t), x.EventKey()), x).ScanRaised?
    && x.SubmissionId() in WorldAtStatus(s, t).jobs
  }

  /** The body found no terminal event, and Ray had not finished the job. */
  predicate FoundRunning(m: Matcher, s: Sys, x: ActiveSubmission, t: ItemScript) {
    && BoundedScan(m, StreamAt(WorldAtLookback(s, t), x.EventKey()), x).NotFound?
    && x.SubmissionId() in WorldAtStatus(s, t).jobs && !IsFinal(WorldAtStatus(s, t).jobs[x.SubmissionId()].status)
  }

  /** Under any environment, a body that raised nothing removes its item or found it running. */
  lemma BodySettles(m: Matcher, s: Sys, x: ActiveSubmission, t: ItemScript)
    requires BodyReturned(m, s, x, t)
    ensures Tracked(CheckItem(m, s, x, t), x.operationId).None? || FoundRunning(m, s, x, t)
  {
    var s1 := LookAt(m, s, x, t.lookback).0;
    assert Env(s1, t.status.before).world == WorldAtStatus(s, t);
  }

  // ---------------------------------------------------------------- one body, whatever the environment does

  function WorldAtMarker(s: Sys, t: ItemScript): World {
    EnvAll(WorldAtStatus(s, t), t.marker.before)
  }

  function WorldAtEffect(s: Sys, t: ItemScript): World {
    EnvAll(WorldAtMarker(s, t), t.effect.before)
  }

  /** The body gets as far as its reaction: nothing found, and a status and a marker read. */
  predicate Reacts(m: Matcher, s: Sys, x: ActiveSubmission, t: ItemScript) {
    && t.lookback.fault == Ok && BoundedScan(m, StreamAt(WorldAtLookback(s, t), x.EventKey()), x).NotFound?
    && t.status.fault == Ok && x.SubmissionId() in WorldAtStatus(s, t).jobs && t.marker.fault == Ok
  }

  /** What the reaction goes by. */
  predicate MarkerIsThere(s: Sys, x: ActiveSubmission, t: ItemScript) {
    x.channel.cancelPrefix + ":" + x.operationId in WorldAtMarker(s, t).markers
  }

  predicate DeadlineHasPassed(x: ActiveSubmission, t: ItemScript) {
    x.deadlineAtMs.Some? && x.deadlineAtMs.value <= t.nowMs
  }

  function StatusRead(s: Sys, x: ActiveSubmission, t: ItemScript): RayStatus
    requires x.SubmissionId() in WorldAtStatus(s, t).jobs
  {
    WorldAtStatus(s, t).jobs[x.SubmissionId()].status
  }

  /** A body that does not come to a reaction changes no stream, no submission and no memory, unless it found
      a terminal event: then it forgets the operation, its entry and its stop requests. */
  lemma BodyWithoutReaction(m: Matcher, s: Sys, x: ActiveSubmission, t: ItemScript)
    requires !Reacts(m, s, x, t)
    ensures var s' := CheckItem(m, s, x, t);
            var stream := StreamAt(WorldAtLookback(s, t), x.EventKey());
            var found := t.lookback.fault == Ok && BoundedScan(m, stream, x).Found?;
            && s'.world in {WorldAtLookback(s, t), WorldAtStatus(s, t), WorldAtMarker(s, t)}
            && s'.mem == if found then Forgotten(s.mem, x.operationId) else s.mem
  {
    var s1 := LookAt(m, s, x, t.lookback).0;
    ForgetForgets(s1, x);
    assert Env(s1, t.status.before).world == WorldAtStatus(s, t);
  }

  /** On a status that is not final the body asks Ray to stop the submission exactly when the marker is there
      or the deadline has passed, and records who asked only when the call returned. */
  lemma StopIsRequestedExactly(m: Matcher, s: Sys, x: ActiveSubmission, t: ItemScript)
    requires Reacts(m, s, x, t) && StatusRead(s, x, t) in {Pending, Running, OtherStatus}
    ensures var s' := CheckItem(m, s, x, t);
            var w, present, due := WorldAtEffect(s, t), MarkerIsThere(s, x, t), DeadlineHasPassed(x, t);
            var asked := (present || due) && t.effect.fault != RaiseBefore;
            && s'.world == w.(stopping := w.stopping + if asked then {x.SubmissionId()} else {})
            && s'.mem.active == s.mem.active
            && s'.mem.stopRequested ==
               s.mem.stopRequested + (if present && t.effect.fault == Ok then {x.operationId} else {})
            && s'.mem.timeoutRequested ==
               s.mem.timeoutRequested + if due && !present && t.effect.fault == Ok then {x.operationId} else {}
  {
    BodyReacts(m, s, x, t);
    var s2 := AtReaction(m, s, x, t);
    assert s2.world.(stopping := s2.world.stopping + {}) == s2.world;
  }

  /** On a final status the body appends one fallback for its submission, unless the publication raised before
      its effect, and forgets the operation exactly when the publication returned. */
  lemma FinalStatusIsReported(m: Matcher, s: Sys, x: ActiveSubmission, t: ItemScript)
    requires Reacts(m, s, x, t) && StatusRead(s, x, t) in {Succeeded, Failed, Stopped}
    ensures var s' := CheckItem(m, s, x, t);
            var w, present := WorldAtEffect(s, t), MarkerIsThere(s, x, t);
            var byMarker := present || x.operationId in s.mem.stopRequested;
            var timeout := x.operationId in s.mem.timeoutRequested || (DeadlineHasPassed(x, t) && !byMarker);
            var cancelled := StatusRead(s, x, t) == Stopped && byMarker && !timeout;
            var code := if timeout then "EXECUTION_TIMEOUT" else if cancelled then ""
                        else if StatusRead(s, x, t) == Stopped then "RAY_JOB_STOPPED"
                        else if StatusRead(s, x, t) == Failed then "RAY_JOB_FAILED" else "TERMINAL_EVENT_MISSING";
            var kind := if cancelled then "CANCELLED" else "FAILED";
            && s'.world == (if t.effect.fault == RaiseBefore then w
                            else Append(w, x.channel.eventPrefix + ":" + x.operationId,
                                        Event(Name(kind), Some(x.SubmissionId()), code, ByWatcher)))
            && s'.mem == if t.effect.fault == Ok then Forgotten(s.mem, x.operationId) else s.mem
  {
    BodyReacts(m, s, x, t);
    var s2 := AtReaction(m, s, x, t);
    ForgetForgets(ReportFinal(s2, x, StatusRead(s, x, t), MarkerIsThere(s, x, t), t.nowMs, RaiseAfter), x);
  }

  /** The state in which the body reacts. */
  ghost function AtReaction(m: Matcher, s: Sys, x: ActiveSubmission, t: ItemScript): Sys {
    var s1 := Env(Env(LookAt(m, s, x, t.lookback).0, t.status.before), t.marker.before);
    Env(Note(s1, MarkerRead(x, MarkerIsThere(s, x, t), Deletions(s1.world, x.CancelKey()))), t.effect.before)
  }

  lemma BodyReacts(m: Matcher, s: Sys, x: ActiveSubmission, t: ItemScript)
    requires Reacts(m, s, x, t)
    ensures var s2, status, present := AtReaction(m, s, x, t), StatusRead(s, x, t), MarkerIsThere(s, x, t);
            var deletions := Deletions(WorldAtMarker(s, t), x.CancelKey());
            && s2.world == WorldAtEffect(s, t) && s2.mem == s.mem
            && CheckItem(m, s, x, t)
               == if IsFinal(status) then ReportFinal(s2, x, status, present, t.nowMs, t.effect.fault)
                  else if present || TimedOut(x, t.nowMs)
                  then RequestStop(s2, x, present, deletions, t.nowMs, t.effect.fault)
                  else s2
  {
    var s1 := LookAt(m, s, x, t.lookback).0;
    assert Env(s1, t.status.before).world == WorldAtStatus(s, t);
  }

  /** And so for every item of a pass: it stays removed, whatever the other bodies and the environment do. */
  lemma {:induction false} PassSettlesUnderInterference(m: Matcher, s: Sys, checks: seq<Check>, k: nat)
    requires k < |checks| && BodyReturned(m, PassAll(m, s, checks[..k]), checks[k].item, checks[k].script)
    ensures || Tracked(PassAll(m, s, checks), checks[k].item.operationId).None?
            || FoundRunning(m, PassAll(m, s, checks[..k]), checks[k].item, checks[k].script)
    decreases |checks|
  {
    var front, last := checks[..|checks| - 1], checks[|checks| - 1];
    if k < |front| {
      assert front[..k] == checks[..k];
      PassSettlesUnderInterference(m, s, front, k);
      CheckItemOnlyRemoves(m, PassAll(m, s, front), last.item, last.script);
    } else {
      assert front == checks[..k];
      BodySettles(m, PassAll(m, s, front), last.item, last.script);
    }
  }

  // ---------------------------------------------------------------- the real pass

  function Scripts(checks: seq<Check>): seq<Step> {
    seq(|checks|, i requires 0 <= i < |checks| => CheckNext(checks[i].script))
  }

  function Items(checks: seq<Check>): seq<ActiveSubmission> {
    seq(|checks|, i requires 0 <= i < |checks| => checks[i].item)
  }

  function WithPass(s: Sys, pass: seq<ActiveSubmission>): Sys {
    s.(mem := s.mem.(pass := pass))
  }

  /** The body never looks at the rest of the pass. */
  lemma PassIsNotRead(m: Matcher, s: Sys, x: ActiveSubmission, t: ItemScript, pass: seq<ActiveSubmission>)
    ensures CheckItem(m, WithPass(s, pass), x, t) == WithPass(CheckItem(m, s, x, t), pass)
  {
    var (s1, scan) := LookAt(m, s, x, t.lookback);
    assert LookAt(m, WithPass(s, pass), x, t.lookback) == (WithPass(s1, pass), scan);
    assert Forget(WithPass(s1, pass), x) == WithPass(Forget(s1, x), pass);
    var s2 := Env(s1, t.status.before);
    if x.SubmissionId() in s2.world.jobs {
      PassIsNotReadLater(s2, x, s2.world.jobs[x.SubmissionId()].status, t, pass);
    }
  }

  lemma PassIsNotReadLater(s: Sys, x: ActiveSubmission, status: RayStatus, t: ItemScript, pass: seq<ActiveSubmission>)
    ensures ActOnStatus(WithPass(s, pass), x, status, t) == WithPass(ActOnStatus(s, x, status, t), pass)
  {
    var s1 := Env(s, t.marker.before);
    var present := x.CancelKey() in s1.world.markers;
    var deletions := Deletions(s1.world, x.CancelKey());
    var s2 := Env(Note(s1, MarkerRead(x, present, deletions)), t.effect.before);
    if IsFinal(status) {
      ReportIgnoresPass(s2, x, status, present, t.nowMs, t.effect.fault, pass);
    }
    assert RequestStop(WithPass(s2, pass), x, present, deletions, t.nowMs, t.effect.fault)
        == WithPass(RequestStop(s2, x, present, deletions, t.nowMs, t.effect.fault), pass);
  }

  lemma ReportIgnoresPass(s: Sys, x: ActiveSubmission, status: RayStatus, present: bool, nowMs: int, fault: Fault,
                          pass: seq<ActiveSubmission>)
    ensures ReportFinal(WithPass(s, pass), x, status, present, nowMs, fault)
            == WithPass(ReportFinal(s, x, status, present, nowMs, fault), pass)
  {
    var written := ReportFinal(s, x, status, present, nowMs, RaiseAfter);
    assert ReportFinal(WithPass(s, pass), x, status, present, nowMs, RaiseAfter) == WithPass(written, pass);
    assert Forget(WithPass(written, pass), x) == WithPass(Forget(written, x), pass);
  }

  /** Iterating over the snapshot held by the watcher is the pass over its items, leaving the rest. */
  lemma {:induction false} IterationIsPass(m: Matcher, s: Sys, checks: seq<Check>, rest: seq<ActiveSubmission>)
    ensures Interfere(m, WithPass(s, Items(checks) + rest), Scripts(checks)) == WithPass(PassAll(m, s, checks), rest)
  {
    if checks == [] {
      assert Items(checks) + rest == rest;
    } else {
      var front, last := checks[..|checks| - 1], checks[|checks| - 1];
      assert Scripts(checks)[..|checks| - 1] == Scripts(front);
      assert Items(checks) + rest == Items(front) + ([last.item] + rest);
      IterationIsPass(m, s, front, [last.item] + rest);
      assert ([last.item] + rest)[1..] == rest;
      PassIsNotRead(m, PassAll(m, s, front), last.item, last.script, rest);
    }
  }

  /** The entries of a real snapshot are independent: distinct operations have distinct jobs, and one
      channel never shares streams. Only streams of different channels must be distinct by assumption. */
  lemma SnapshotIsIndependent(s: Sys, checks: seq<Check>)
    requires TrackedHasJob(s) && IsSnapshot(Items(checks), s.mem.active)
    requires forall i :: 0 <= i < |checks| ==> QuietItem(checks[i].script)
    requires forall i, j :: 0 <= i < j < |checks| && checks[i].item.channel != checks[j].item.channel ==>
                              checks[i].item.EventKey() != checks[j].item.EventKey()
    ensures Independent(checks)
  {
    forall i, j | 0 <= i < j < |checks| ensures Separate(checks[i].item, checks[j].item) {
      var x, y := checks[i].item, checks[j].item;
      assert Items(checks)[i] == x && Items(checks)[j] == y;
      ChannelKeysAreInjective(x.channel, x.operationId, y.operationId);
    }
  }
}
