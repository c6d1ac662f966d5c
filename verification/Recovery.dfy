/** Rebuilding the active map from a listing of Ray jobs after a restart. */
module Recovery {
  import opened Wrappers
  import opened Domain
  import opened Lookback
  import opened World
  import opened Watcher
  import opened Protocol
  import opened WatcherSteps
  import opened Safety
  import opened Jobs
  import opened Admission

  function Eligible(cfg: Config, v: JobView): Option<ActiveSubmission> {
    Decode(cfg.setting.channels, cfg.setting.entrypoint, v)
  }

  /** One iteration: filter, duplicate check, put, lookback, and removal if it is already terminal.
      True means that the lookback raised and recovery was abandoned. */
  function RecoverJob(cfg: Config, s: Sys, v: JobView, t: EnvTick): (Sys, bool) {
    match Eligible(cfg, v)
    case None => (s, false)
    case Some(e) =>
      if Tracked(s, e.operationId).Some? then (s, false)
      else
        var s1 := Env(PutActive(s, e, FromListing), t.before);
        if t.fault != Ok then (s1, true)
        else
          match BoundedScan(cfg.setting.matcher, StreamAt(s1.world, e.EventKey()), e)
          case ScanRaised => (s1, true)
          case Found => (RemoveActive(s1, e), false)
          case NotFound => (s1, false)
  }

  datatype Listed = Listed(view: JobView, tick: EnvTick)

  function RecoverAll(cfg: Config, s: Sys, listing: seq<Listed>): (Sys, bool) {
    if listing == [] then (s, false)
    else
      var (s1, raised) := RecoverAll(cfg, s, listing[..|listing| - 1]);
      if raised then (s1, true)
      else RecoverJob(cfg, s1, listing[|listing| - 1].view, listing[|listing| - 1].tick)
  }

  // ---------------------------------------------------------------- refinement of the atomic steps

  /** The listing shows jobs that Ray has, with their metadata. */
  ghost predicate ShowsJob(w: World, v: JobView) {
    v.submissionId.Some? ==> v.submissionId.value in w.jobs && w.jobs[v.submissionId.value].metadata == v.metadata
  }

  lemma RecoverJobSteps(cfg: Config, s: Sys, v: JobView, t: EnvTick)
    requires ShowsJob(s.world, v)
    ensures Steps(cfg.setting, s, RecoverJob(cfg, s, v, t).0)
  {
    var g := cfg.setting;
    StepsReflexive(g, s);
    if Eligible(cfg, v).Some? && Tracked(s, Eligible(cfg, v).value.operationId).None? {
      var e := Eligible(cfg, v).value;
      ListedPutSteps(cfg, s, v);
      var put := PutActive(s, e, FromListing);
      KeepOrRemoveSteps(g, put, e, t);
      StepsTransitive(g, s, put, RecoverJob(cfg, s, v, t).0);
    }
  }

  /** What recovery puts can be read back from its job for as long as the job exists. */
  lemma ListedPutSteps(cfg: Config, s: Sys, v: JobView)
    requires ShowsJob(s.world, v) && Eligible(cfg, v).Some? && Tracked(s, Eligible(cfg, v).value.operationId).None?
    ensures Steps(cfg.setting, s, PutActive(s, Eligible(cfg, v).value, FromListing))
  {
    var g, e := cfg.setting, Eligible(cfg, v).value;
    DecodedCarries(g.channels, g.entrypoint, v, s.world.jobs[v.submissionId.value]);
    DecodeIgnoresProgress(g.channels, g.entrypoint, v, JobView(v.submissionId, None, Pending, v.metadata));
    StepsReflexive(g, s);
    StepsThenNote(g, s, s, PutActive(s, e, FromListing), Put(e, None, FromListing));
  }

  lemma KeepOrRemoveSteps(g: Setting, put: Sys, e: ActiveSubmission, t: EnvTick)
    ensures var s1 := Env(put, t.before);
            && Steps(g, put, s1)
            && (BoundedScan(g.matcher, StreamAt(s1.world, e.EventKey()), e).Found? ==>
                Steps(g, put, RemoveActive(s1, e)))
  {
    var s1 := Env(put, t.before);
    EnvSteps(g, put, t.before);
    var stream := StreamAt(s1.world, e.EventKey());
    if BoundedScan(g.matcher, stream, e).Found? {
      BoundedScanIsSound(g.matcher, stream, e);
      RemoveSteps(g, s1, e);
      StepsTransitive(g, put, s1, RemoveActive(s1, e));
    }
  }

  lemma {:induction false} RecoverAllSteps(cfg: Config, s: Sys, listing: seq<Listed>)
    requires forall i :: 0 <= i < |listing| ==> ShowsJob(s.world, listing[i].view)
    ensures Steps(cfg.setting, s, RecoverAll(cfg, s, listing).0)
  {
    if listing == [] {
      StepsReflexive(cfg.setting, s);
    } else {
      var front := listing[..|listing| - 1];
      RecoverAllSteps(cfg, s, front);
      var (s1, raised) := RecoverAll(cfg, s, front);
      StepsAreSafe(cfg.setting, s, s1);
      if !raised {
        var last := listing[|listing| - 1];
        assert ShowsJob(s.world, last.view);
        assert ShowsJob(s1.world, last.view);
        RecoverJobSteps(cfg, s1, last.view, last.tick);
        StepsTransitive(cfg.setting, s, s1, RecoverAll(cfg, s, listing).0);
      }
    }
  }

  // ---------------------------------------------------------------- the declarative form

  predicate Quiet(t: EnvTick) {
    t.before == [] && t.fault == Ok
  }

  function Views(listing: seq<Listed>): seq<JobView> {
    seq(|listing|, i requires 0 <= i < |listing| => listing[i].view)
  }

  function ScanOf(cfg: Config, w: World, e: ActiveSubmission): Scan {
    BoundedScan(cfg.setting.matcher, StreamAt(w, e.EventKey()), e)
  }

  /** The entry a listed job stands for when no terminal event is visible for it. */
  function Live(cfg: Config, w: World, v: JobView): Option<ActiveSubmission> {
    match Eligible(cfg, v)
    case None => None
    case Some(e) => if ScanOf(cfg, w, e).NotFound? then Some(e) else None
  }

  /** The first live job of the operation in list order. */
  function FirstLive(cfg: Config, w: World, views: seq<JobView>, operationId: string): Option<ActiveSubmission> {
    if views == [] then None
    else
      var earlier := FirstLive(cfg, w, views[..|views| - 1], operationId);
      var last := Live(cfg, w, views[|views| - 1]);
      if earlier.Some? then earlier
      else if last.Some? && last.value.operationId == operationId then last
      else None
  }

  function OrElse<T>(a: Option<T>, b: Option<T>): Option<T> {
    if a.Some? then a else b
  }

  /** The lookback of this position raises and is reached: nothing tracks the operation yet. */
  ghost predicate RaisesAt(cfg: Config, s: Sys, views: seq<JobView>, i: nat)
    requires i < |views|
  {
    && Eligible(cfg, views[i]).Some?
    && ScanOf(cfg, s.world, Eligible(cfg, views[i]).value).ScanRaised?
    && Tracked(s, Eligible(cfg, views[i]).value.operationId).None?
    && FirstLive(cfg, s.world, views[..i], Eligible(cfg, views[i]).value.operationId).None?
  }

  ghost predicate SomeRaises(cfg: Config, s: Sys, views: seq<JobView>) {
    exists i :: 0 <= i < |views| && RaisesAt(cfg, s, views, i)
  }

  /** Recovery is abandoned exactly when some reached lookback raises; otherwise every operation keeps
      its entry or gets its first live job. */
  ghost predicate AsDeclared(cfg: Config, s: Sys, views: seq<JobView>, r: (Sys, bool)) {
    && r.0.world == s.world
    && (r.1 <==> SomeRaises(cfg, s, views))
    && (!r.1 ==> forall op :: Tracked(r.0, op) == OrElse(Tracked(s, op), FirstLive(cfg, s.world, views, op)))
  }

  lemma NothingListed(cfg: Config, s: Sys)
    ensures AsDeclared(cfg, s, [], (s, false))
  {
  }

  lemma ViewsOfLast(listing: seq<Listed>)
    requires listing != []
    ensures Views(listing) == Views(listing[..|listing| - 1]) + [listing[|listing| - 1].view]
  {
  }

  /** The loop without interference equals its declarative form. */
  lemma {:induction false} RecoverAllIsFirstLive(cfg: Config, s: Sys, listing: seq<Listed>)
    requires forall i :: 0 <= i < |listing| ==> Quiet(listing[i].tick)
    ensures AsDeclared(cfg, s, Views(listing), RecoverAll(cfg, s, listing))
  {
    if listing == [] {
      NothingListed(cfg, s);
      assert Views(listing) == [];
    } else {
      var front, last := listing[..|listing| - 1], listing[|listing| - 1];
      RecoverAllIsFirstLive(cfg, s, front);
      ViewsOfLast(listing);
      OneMoreJob(cfg, s, Views(front), last.view, RecoverAll(cfg, s, front), last.tick);
    }
  }

  lemma SomeRaisesOfSnoc(cfg: Config, s: Sys, front: seq<JobView>, v: JobView)
    ensures SomeRaises(cfg, s, front + [v]) <==> SomeRaises(cfg, s, front) || RaisesAt(cfg, s, front + [v], |front|)
  {
    var views := front + [v];
    forall i | 0 <= i < |front| ensures RaisesAt(cfg, s, views, i) <==> RaisesAt(cfg, s, front, i) {
      assert views[..i] == front[..i] && views[i] == front[i];
    }
    if SomeRaises(cfg, s, front) {
      var i :| 0 <= i < |front| && RaisesAt(cfg, s, front, i);
      assert RaisesAt(cfg, s, views, i);
    }
  }

  /** The induction step of the declarative form. */
  lemma OneMoreJob(cfg: Config, s: Sys, front: seq<JobView>, v: JobView, r: (Sys, bool), t: EnvTick)
    requires Quiet(t) && AsDeclared(cfg, s, front, r)
    ensures AsDeclared(cfg, s, front + [v], if r.1 then (r.0, true) else RecoverJob(cfg, r.0, v, t))
  {
    SomeRaisesOfSnoc(cfg, s, front, v);
    if !r.1 {
      assert (front + [v])[..|front|] == front;
      LastJobRaises(cfg, s, r.0, front + [v], t);
      LastJobTracks(cfg, s, r.0, front + [v], t);
    }
  }

  lemma LastJobRaises(cfg: Config, s: Sys, s1: Sys, views: seq<JobView>, t: EnvTick)
    requires views != [] && Quiet(t) && s1.world == s.world
    requires forall op :: Tracked(s1, op) == OrElse(Tracked(s, op), FirstLive(cfg, s.world, views[..|views| - 1], op))
    ensures RecoverJob(cfg, s1, views[|views| - 1], t).1 <==> RaisesAt(cfg, s, views, |views| - 1)
  {
    var v := views[|views| - 1];
    if Eligible(cfg, v).Some? {
      var op := Eligible(cfg, v).value.operationId;
      assert Tracked(s1, op) == OrElse(Tracked(s, op), FirstLive(cfg, s.world, views[..|views| - 1], op));
    }
  }

  lemma LastJobTracks(cfg: Config, s: Sys, s1: Sys, views: seq<JobView>, t: EnvTick)
    requires views != [] && Quiet(t) && s1.world == s.world
    requires forall op :: Tracked(s1, op) == OrElse(Tracked(s, op), FirstLive(cfg, s.world, views[..|views| - 1], op))
    ensures var (s', raised) := RecoverJob(cfg, s1, views[|views| - 1], t);
            && s'.world == s.world
            && (!raised ==> forall op :: Tracked(s', op) == OrElse(Tracked(s, op), FirstLive(cfg, s.world, views, op)))
  {
    var v := views[|views| - 1];
    var (s', raised) := RecoverJob(cfg, s1, v, t);
    JobTracks(cfg, s1, v, t);
    forall op | !raised ensures Tracked(s', op) == OrElse(Tracked(s, op), FirstLive(cfg, s.world, views, op)) {
      assert Tracked(s1, op) == OrElse(Tracked(s, op), FirstLive(cfg, s.world, views[..|views| - 1], op));
    }
  }

  /** Recovery that is abandoned keeps what it rebuilt, and the entry whose lookback raised, which it put
      before looking. */
  lemma {:induction false} AbandonedRecoveryKeepsEntries(cfg: Config, s: Sys, listing: seq<Listed>)
    requires RecoverAll(cfg, s, listing).1
    ensures exists k :: 0 <= k < |listing| && AbandonedAt(cfg, s, listing, k)
  {
    var n := |listing| - 1;
    if RecoverAll(cfg, s, listing[..n]).1 {
      AbandonedRecoveryKeepsEntries(cfg, s, listing[..n]);
      var k :| 0 <= k < n && AbandonedAt(cfg, s, listing[..n], k);
      assert listing[..n][..k] == listing[..k] && listing[..n][k] == listing[k];
      assert AbandonedAt(cfg, s, listing, k);
    } else {
      assert AbandonedAt(cfg, s, listing, n);
    }
  }

  ghost predicate AbandonedAt(cfg: Config, s: Sys, listing: seq<Listed>, k: nat)
    requires k < |listing|
  {
    var (before, raised) := RecoverAll(cfg, s, listing[..k]);
    && !raised && Eligible(cfg, listing[k].view).Some?
    && var e := Eligible(cfg, listing[k].view).value;
    && e.operationId !in before.mem.active
    && RecoverAll(cfg, s, listing).0.mem == before.mem.(active := before.mem.active[e.operationId := e])
  }

  function LiveFor(cfg: Config, w: World, v: JobView, operationId: string): Option<ActiveSubmission> {
    var live := Live(cfg, w, v);
    if live.Some? && live.value.operationId == operationId then live else None
  }

  /** One quiet iteration tracks the job's entry if it is live and its operation was free. */
  lemma JobTracks(cfg: Config, s: Sys, v: JobView, t: EnvTick)
    requires Quiet(t)
    ensures var (s', raised) := RecoverJob(cfg, s, v, t);
            && s'.world == s.world
            && (!raised ==> forall op :: Tracked(s', op) == OrElse(Tracked(s, op), LiveFor(cfg, s.world, v, op)))
  {
  }

  lemma {:induction false} FirstLiveIsAMember(cfg: Config, w: World, views: seq<JobView>, op: string)
    ensures FirstLive(cfg, w, views, op).Some? ==>
              exists i :: 0 <= i < |views| && Live(cfg, w, views[i]) == FirstLive(cfg, w, views, op)
                          && FirstLive(cfg, w, views, op).value.operationId == op
    ensures forall i :: 0 <= i < |views| && LiveFor(cfg, w, views[i], op).Some? ==>
                          FirstLive(cfg, w, views, op).Some?
  {
    if views != [] {
      var front := views[..|views| - 1];
      FirstLiveIsAMember(cfg, w, front, op);
      if FirstLive(cfg, w, front, op).Some? {
        var i :| 0 <= i < |front| && Live(cfg, w, front[i]) == FirstLive(cfg, w, front, op);
        assert Live(cfg, w, views[i]) == FirstLive(cfg, w, views, op);
      }
      forall i | 0 <= i < |views| && Live(cfg, w, views[i]).Some? && Live(cfg, w, views[i]).value.operationId == op
        ensures FirstLive(cfg, w, views, op).Some?
      {
        if i < |front| {
          assert Live(cfg, w, front[i]).Some?;
        }
      }
    }
  }

  /** The listed live jobs of one operation all stand for the same entry. */
  ghost predicate OneLiveEntry(cfg: Config, w: World, views: seq<JobView>) {
    forall i, j :: 0 <= i < |views| && 0 <= j < |views| && Live(cfg, w, views[i]).Some? && Live(cfg, w, views[j]).Some?
                   && Live(cfg, w, views[i]).value.operationId == Live(cfg, w, views[j]).value.operationId ==>
                     Live(cfg, w, views[i]) == Live(cfg, w, views[j])
  }

  lemma SameLive(cfg: Config, w: World, a: seq<JobView>, b: seq<JobView>, op: string)
    requires forall v :: v in a <==> v in b
    requires OneLiveEntry(cfg, w, a)
    ensures FirstLive(cfg, w, a, op) == FirstLive(cfg, w, b, op)
  {
    FirstLiveIsAMember(cfg, w, a, op);
    FirstLiveIsAMember(cfg, w, b, op);
    if FirstLive(cfg, w, a, op).Some? {
      var i :| 0 <= i < |a| && Live(cfg, w, a[i]) == FirstLive(cfg, w, a, op);
      assert a[i] in b;
      var k :| 0 <= k < |b| && b[k] == a[i];
      assert Live(cfg, w, b[k]).Some?;
    }
    if FirstLive(cfg, w, b, op).Some? {
      var j :| 0 <= j < |b| && Live(cfg, w, b[j]) == FirstLive(cfg, w, b, op);
      assert b[j] in a;
      var k :| 0 <= k < |a| && a[k] == b[j];
      assert Live(cfg, w, a[k]).Some?;
    }
  }

  /** With at most one live entry per operation, two listings of the same jobs in any order recover
      the same map. */
  lemma RecoveryIgnoresOrder(cfg: Config, s: Sys, a: seq<Listed>, b: seq<Listed>)
    requires forall i :: 0 <= i < |a| ==> Quiet(a[i].tick)
    requires forall i :: 0 <= i < |b| ==> Quiet(b[i].tick)
    requires forall v :: v in Views(a) <==> v in Views(b)
    requires OneLiveEntry(cfg, s.world, Views(a))
    requires !RecoverAll(cfg, s, a).1 && !RecoverAll(cfg, s, b).1
    ensures RecoverAll(cfg, s, a).0.mem.active == RecoverAll(cfg, s, b).0.mem.active
  {
    var sa, sb := RecoverAll(cfg, s, a).0, RecoverAll(cfg, s, b).0;
    RecoverAllIsFirstLive(cfg, s, a);
    RecoverAllIsFirstLive(cfg, s, b);
    forall op ensures Tracked(sa, op) == Tracked(sb, op) {
      SameLive(cfg, s.world, Views(a), Views(b), op);
    }
    SameTracked(sa, sb);
  }

  lemma SameTracked(a: Sys, b: Sys)
    requires forall op :: Tracked(a, op) == Tracked(b, op)
    ensures a.mem.active == b.mem.active
  {
    forall op ensures op in a.mem.active <==> op in b.mem.active {
      assert Tracked(a, op) == Tracked(b, op);
    }
    forall op | op in a.mem.active ensures a.mem.active[op] == b.mem.active[op] {
      assert Tracked(a, op) == Tracked(b, op);
    }
  }

  /** Running the loop again over the same listing does not raise and changes nothing. */
  lemma RecoveryIsIdempotent(cfg: Config, s: Sys, listing: seq<Listed>)
    requires forall i :: 0 <= i < |listing| ==> Quiet(listing[i].tick)
    requires !RecoverAll(cfg, s, listing).1
    ensures var s' := RecoverAll(cfg, s, listing).0;
            && !RecoverAll(cfg, s', listing).1
            && RecoverAll(cfg, s', listing).0.mem.active == s'.mem.active
  {
    var s' := RecoverAll(cfg, s, listing).0;
    RecoverAllIsFirstLive(cfg, s, listing);
    RecoverAllIsFirstLive(cfg, s', listing);
    forall i | 0 <= i < |listing| && RaisesAt(cfg, s', Views(listing), i) ensures false {
      var op := Eligible(cfg, Views(listing)[i]).value.operationId;
      assert Tracked(s', op) == OrElse(Tracked(s, op), FirstLive(cfg, s.world, Views(listing), op));
      assert RaisesAt(cfg, s, Views(listing), i);
    }
    var s'' := RecoverAll(cfg, s', listing).0;
    forall op ensures Tracked(s'', op) == Tracked(s', op) {
      assert Tracked(s', op) == OrElse(Tracked(s, op), FirstLive(cfg, s.world, Views(listing), op));
    }
    SameTracked(s'', s');
  }

  // ---------------------------------------------------------------- crash refinement

  function Crash(s: Sys): Sys {
    Note(s.(mem := EMPTY_MEMORY), Crashed)
  }

  function ViewOf(w: World, submissionId: string): JobView {
    if submissionId in w.jobs
    then JobView(Some(submissionId), w.jobs[submissionId].rayJobId, w.jobs[submissionId].status,
        w.jobs[submissionId].metadata)
    else JobView(None, None, OtherStatus, None)
  }

  /** The entry's own job carries the metadata of this very entry, the entry is recoverable, and no
      terminal event for it is visible. */
  ghost predicate Survives(cfg: Config, w: World, e: ActiveSubmission) {
    && Recoverable(cfg.setting.channels, cfg.setting.entrypoint, e)
    && e.SubmissionId() in w.jobs
    && w.jobs[e.SubmissionId()].metadata == Some(MetadataOf(cfg.setting.entrypoint, e))
    && w.jobs[e.SubmissionId()].status != OtherStatus
    && ScanOf(cfg, w, WithRayJobId(e, w.jobs[e.SubmissionId()].rayJobId)).NotFound?
  }

  lemma SurvivorIsLive(cfg: Config, w: World, e: ActiveSubmission)
    requires Survives(cfg, w, e)
    ensures Live(cfg, w, ViewOf(w, e.SubmissionId())) == Some(WithRayJobId(e, w.jobs[e.SubmissionId()].rayJobId))
  {
    DecodeRebuildsEntry(cfg.setting.channels, cfg.setting.entrypoint, e, ViewOf(w, e.SubmissionId()));
  }

  /** After a crash, recovery rebuilds an entry, all but its Ray job id, when its job stands for it and
      is listed before any other live job of the operation. */
  lemma ListedEntryIsRebuilt(cfg: Config, s: Sys, listing: seq<Listed>, e: ActiveSubmission, i: nat)
    requires forall k :: 0 <= k < |listing| ==> Quiet(listing[k].tick)
    requires i < |listing| && Live(cfg, s.world, listing[i].view) == Some(WithRayJobId(e, listing[i].view.rayJobId))
    requires FirstLive(cfg, s.world, Views(listing)[..i], e.operationId).None?
    requires !RecoverAll(cfg, Crash(s), listing).1
    ensures Tracked(RecoverAll(cfg, Crash(s), listing).0, e.operationId)
            == Some(WithRayJobId(e, listing[i].view.rayJobId))
  {
    RecoverAllIsFirstLive(cfg, Crash(s), listing);
    FirstLiveOfPrefix(cfg, s.world, Views(listing), i, e.operationId);
  }

  /** In particular a tracked entry that survives. */
  lemma CrashedEntryIsRebuilt(cfg: Config, s: Sys, listing: seq<Listed>, e: ActiveSubmission, i: nat)
    requires forall k :: 0 <= k < |listing| ==> Quiet(listing[k].tick)
    requires Tracked(s, e.operationId) == Some(e) && Survives(cfg, s.world, e)
    requires i < |listing| && listing[i].view == ViewOf(s.world, e.SubmissionId())
    requires FirstLive(cfg, s.world, Views(listing)[..i], e.operationId).None?
    requires !RecoverAll(cfg, Crash(s), listing).1
    ensures Tracked(RecoverAll(cfg, Crash(s), listing).0, e.operationId)
         == Some(WithRayJobId(e, s.world.jobs[e.SubmissionId()].rayJobId))
  {
    SurvivorIsLive(cfg, s.world, e);
    ListedEntryIsRebuilt(cfg, s, listing, e, i);
  }

  lemma {:induction false} FirstLiveOfPrefix(cfg: Config, w: World, views: seq<JobView>, i: nat, op: string)
    requires i < |views|
    requires FirstLive(cfg, w, views[..i], op).None?
    requires Live(cfg, w, views[i]).Some? && Live(cfg, w, views[i]).value.operationId == op
    ensures FirstLive(cfg, w, views, op) == Live(cfg, w, views[i])
    decreases |views|
  {
    var front := views[..|views| - 1];
    if i < |front| {
      assert front[..i] == views[..i];
      FirstLiveOfPrefix(cfg, w, front, i, op);
    } else {
      assert front == views[..i];
    }
  }

  /** The entry's own job stands for the entry. */
  ghost predicate StandsFor(cfg: Config, w: World, e: ActiveSubmission) {
    Live(cfg, w, ViewOf(w, e.SubmissionId())) == Some(WithRayJobId(e, ViewOf(w, e.SubmissionId()).rayJobId))
  }

  /** The whole map is rebuilt: every tracked entry's job stands for it and is listed, and the listing
      shows no other live job. */
  lemma CrashedMapIsRebuilt(cfg: Config, s: Sys, listing: seq<Listed>)
    requires TrackedHasJob(s)
    requires forall k :: 0 <= k < |listing| ==> Quiet(listing[k].tick)
    requires forall op :: op in s.mem.active ==>
                            StandsFor(cfg, s.world, s.mem.active[op])
                                && ViewOf(s.world, s.mem.active[op].SubmissionId()) in Views(listing)
    requires forall k :: 0 <= k < |listing| && Live(cfg, s.world, listing[k].view).Some? ==>
                           var op := Live(cfg, s.world, listing[k].view).value.operationId;
                           op in s.mem.active && listing[k].view == ViewOf(s.world, s.mem.active[op].SubmissionId())
    requires !RecoverAll(cfg, Crash(s), listing).1
    ensures var recovered := RecoverAll(cfg, Crash(s), listing).0.mem.active;
            && recovered.Keys == s.mem.active.Keys
            && forall op :: op in s.mem.active ==>
                              recovered[op]
                                  == WithRayJobId(s.mem.active[op],
                                      s.world.jobs[s.mem.active[op].SubmissionId()].rayJobId)
  {
    var s' := RecoverAll(cfg, Crash(s), listing).0;
    var views := Views(listing);
    RecoverAllIsFirstLive(cfg, Crash(s), listing);
    forall op ensures Tracked(s', op) == (if op in s.mem.active
                                          then Some(WithRayJobId(s.mem.active[op],
                                              s.world.jobs[s.mem.active[op].SubmissionId()].rayJobId))
                                          else None)
    {
      assert Tracked(Crash(s), op).None?;
      FirstLiveIsAMember(cfg, s.world, views, op);
      if op in s.mem.active {
        assert StandsFor(cfg, s.world, s.mem.active[op]);
      }
    }
    forall op ensures op in s'.mem.active <==> op in s.mem.active {
      assert Tracked(s', op).Some? <==> op in s.mem.active;
    }
    forall op | op in s.mem.active
      ensures s'.mem.active[op] == WithRayJobId(s.mem.active[op],
              s.world.jobs[s.mem.active[op].SubmissionId()].rayJobId)
    {
      assert Tracked(s', op).Some?;
    }
  }

  /** An entry whose submit call took over the job of an earlier, unconfirmed call is rebuilt with
      the times of the first call, so it is rebuilt as it was exactly when the times agree. */
  lemma TakenOverEntryKeepsFirstTimes(cfg: Config, w: World, first: ActiveSubmission, e: ActiveSubmission)
    requires Survives(cfg, w, first)
    requires e.(receivedAtMs := first.receivedAtMs, deadlineAtMs := first.deadlineAtMs) == first
    ensures Eligible(cfg, ViewOf(w, e.SubmissionId())) == Some(WithRayJobId(first, w.jobs[e.SubmissionId()].rayJobId))
    ensures Eligible(cfg, ViewOf(w, e.SubmissionId())) == Some(WithRayJobId(e, w.jobs[e.SubmissionId()].rayJobId))
       <==> e.receivedAtMs == first.receivedAtMs && e.deadlineAtMs == first.deadlineAtMs
  {
    SurvivorIsLive(cfg, w, first);
  }
}
