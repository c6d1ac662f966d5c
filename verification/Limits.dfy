/** Concrete runs that show where the protocol's guarantees end. */
module Limits {
  import opened Wrappers
  import opened Domain
  import opened Lookback
  import opened World
  import opened Watcher
  import opened Protocol
  import opened Safety
  import opened Jobs
  import opened Admission
  import opened Recovery
  import opened Runs
  import opened Convergence
  import Passes

  const CHANNEL := Channel("tasks", "events", "cancel")
  const CHANNELS := Channels(CHANNEL, Channel("tasks2", "events2", "cancel2"))
  /** The task text names the attempt. The submission id is a function of operation and attempt, here the
      attempt itself, so that only a new attempt makes a new submission. */
  function RequestOf(operationId: string, attempt: string): Request {
    Request(operationId, SingleWorker, None, attempt, Some(attempt))
  }

  function Refuse(e: Entry, x: ActiveSubmission): MatchVerdict {
    Refused
  }

  function ConfigWith(timeoutSeconds: Option<real>): Config {
    Config(Setting(Refuse, CHANNELS, "driver"),
           (raw: string, id: string, t: OperationType) => ParsedRequest(RequestOf(id, raw)),
           (t: OperationType, p: ExecutionProfile) => true,
           (r: Request) => PreparedOperation(timeoutSeconds), 0)
  }

  const OK_TICK := Tick([], Ok)
  const OK_ENV := EnvTick([], Ok)

  function ScriptFor(sid: string): HandleScript {
    HandleScript(OK_TICK, OK_TICK, OK_TICK, [], OK_TICK, OK_TICK, OK_TICK, OK_TICK, 5, 0, OK_TICK, sid, None, OK_TICK)
  }

  function TaskOf(token: string, attempt: string): Message {
    Message(Delivery(Training, token), "op", false, false, false, Some(attempt), "")
  }

  function DeliveredAs(token: string, attempt: string): Action {
    Delivered(TaskOf(token, attempt), ScriptFor(attempt), OK_TICK)
  }

  function EntryOf(sid: string, deadline: Option<int>): ActiveSubmission {
    ActiveSubmission("op", Training, SingleWorker, "op", CHANNEL, Submission("op", sid, sid, None, Some(sid)), Some(5),
        deadline)
  }

  const START := Sys(World(map[], {}, multiset{}, map[], {}, {}), EMPTY_MEMORY, [])

  const KEY := CHANNEL.EventKey("op")

  lemma EntryKeys(sid: string, deadline: Option<int>)
    ensures EntryOf(sid, deadline).EventKey() == KEY && EntryOf(sid, deadline).SubmissionId() == sid
  {
  }

  lemma StartIsFresh(timeoutSeconds: Option<real>)
    ensures Fresh(START) && Aligned(ConfigWith(timeoutSeconds))
  {
  }

  /** The state after a delivery that is admitted and acknowledged at once. */
  function AdmittedState(cfg: Config, s: Sys, token: string, e: ActiveSubmission): Sys
    requires e.receivedAtMs.Some?
  {
    var d := Delivery(Training, token);
    var sid := e.SubmissionId();
    var jobs := s.world.jobs[sid := Job(Some(MetadataOf(cfg.setting.entrypoint, e)), None, Pending)];
    var w := Append(s.world.(jobs := jobs), KEY, AcceptedEvent(sid));
    Sys(w.(acked := w.acked + {d}), s.mem.(active := s.mem.active["op" := e]),
        s.trace + [SubmitCalled("op", None), Put(e, None, FromCall(true)), AcceptedReturned(d, "op", sid),
                   XAcked(d, "op")])
  }

  lemma DeliveryIsAdmitted(timeoutSeconds: Option<real>, s: Sys, token: string, sid: string, deadline: Option<int>)
    requires Delivery(Training, token) !in s.world.acked && s.world.markers == {} && sid !in s.world.jobs
    requires "op" !in s.mem.active && deadline == Deadline(5, timeoutSeconds) && !Negative(deadline)
    ensures Act(ConfigWith(timeoutSeconds), s, DeliveredAs(token, sid))
         == AdmittedState(ConfigWith(timeoutSeconds), s, token, EntryOf(sid, deadline))
  {
    var cfg, m, t := ConfigWith(timeoutSeconds), TaskOf(token, sid), ScriptFor(sid);
    var e := EntryOf(sid, deadline);
    assert AdmittedEntry(cfg, m, RequestOf("op", sid), 5, deadline, t) == e;
    assert Validate(cfg, m) == Valid(RequestOf("op", sid), timeoutSeconds);
    var called := Note(s, SubmitCalled("op", None));
    var created := called.(world := CreateJob(s.world, sid, MetadataOf(cfg.setting.entrypoint, e), None));
    var put := PutActive(created, e, FromCall(true));
    assert Handle(cfg, s, m, t) == Confirm(cfg, put, m, "op", sid, Ok, RAY_ADMISSION_UNKNOWN);
  }

  /** A redelivery of a tracked operation whose terminal event is the newest one. */
  lemma DeliveryIsResumed(timeoutSeconds: Option<real>, s: Sys, token: string, e: ActiveSubmission,
                          deadline: Option<int>)
    requires Delivery(Training, token) !in s.world.acked && s.world.markers == {}
    requires e == EntryOf(e.SubmissionId(), deadline) && Tracked(s, "op") == Some(e)
    requires BoundedScan(Refuse, StreamAt(s.world, KEY), e).Found?
    ensures var s' := Act(ConfigWith(timeoutSeconds), s, DeliveredAs(token, e.SubmissionId()));
            && s'.mem == s.mem.(active := s.mem.active - {"op"})
            && s'.world == s.world.(acked := s.world.acked + {Delivery(Training, token)})
            && s'.trace == s.trace + [Removed(e, e), TerminalSeen(Delivery(Training, token), e.SubmissionId()),
                XAcked(Delivery(Training, token), "op")]
  {
    var cfg, m, t := ConfigWith(timeoutSeconds), TaskOf(token, e.SubmissionId()), ScriptFor(e.SubmissionId());
    assert Validate(cfg, m) == Valid(RequestOf("op", e.SubmissionId()), timeoutSeconds);
  }

  function Completed(sid: string): Entry {
    Event(Name("COMPLETED"), Some(sid), "", ByDriver)
  }

  const OK_ITEM := ItemScript(OK_ENV, OK_ENV, OK_ENV, 5, OK_ENV)

  /** The watcher snapshots the first submission; before its body runs, the first submission ends, a
      redelivery removes it and a delivery with a new attempt is admitted as a second one. */
  const STALE_RUN: seq<Action> := [
    DeliveredAs("1", "s1"),
    Meanwhile(BeginPass([EntryOf("s1", None)])),
    Meanwhile(Outside(Write(KEY, Completed("s1")))),
    DeliveredAs("2", "s1"),
    DeliveredAs("3", "s2"),
    Meanwhile(CheckNext(OK_ITEM))]

  lemma RunOfOne(cfg: Config, s: Sys, actions: seq<Action>, i: nat)
    requires i < |actions|
    ensures Run(cfg, s, actions[..i + 1]) == Act(cfg, Run(cfg, s, actions[..i]), actions[i])
  {
    assert actions[..i + 1][..i] == actions[..i];
  }

  function WithFirstDone(): Sys {
    var s1 := AdmittedState(ConfigWith(None), START, "1", EntryOf("s1", None));
    s1.(mem := s1.mem.(pass := [EntryOf("s1", None)]), world := Append(s1.world, KEY, Completed("s1")))
  }

  lemma StaleRunUntilFirstDone()
    ensures Run(ConfigWith(None), START, STALE_RUN[..3]) == WithFirstDone()
  {
    var cfg, e1 := ConfigWith(None), EntryOf("s1", None);
    var s1 := AdmittedState(cfg, START, "1", e1);
    DeliveryIsAdmitted(None, START, "1", "s1", None);
    assert s1.mem.active == map["op" := e1];
    ActSnapshot(cfg, s1, e1);
    ActWrite(cfg, WithPassOf(s1, e1), Completed("s1"));
    RunOfThree(cfg, START, STALE_RUN);
  }

  lemma RunOfThree(cfg: Config, s: Sys, a: seq<Action>)
    requires |a| >= 3
    ensures Run(cfg, s, a[..3]) == Act(cfg, Act(cfg, Act(cfg, s, a[0]), a[1]), a[2])
  {
    assert a[..0] == [];
    RunOfOne(cfg, s, a, 0);
    RunOfOne(cfg, s, a, 1);
    RunOfOne(cfg, s, a, 2);
  }

  function WithPassOf(s: Sys, e: ActiveSubmission): Sys {
    s.(mem := s.mem.(pass := [e]))
  }

  lemma OneWrite(w: World, e: Entry)
    requires !FromWatcher(e)
    ensures EnvAll(w, [Write(KEY, e)]) == Append(w, KEY, e)
  {
    EnvOne(w, Write(KEY, e));
  }

  /** The tracked submission is done: a redelivery removes it, and a new attempt is admitted. */
  lemma DoneThenAdmitted(timeoutSeconds: Option<real>, deadline: Option<int>, s: Sys)
    requires deadline == Deadline(5, timeoutSeconds) && !Negative(deadline)
    requires s.mem.active == map["op" := EntryOf("s1", deadline)] && s.world.markers == {}
             && s.world.acked == {Delivery(Training, "1")}
    requires StreamAt(s.world, KEY) == Stream([AcceptedEvent("s1"), Completed("s1")], 0) && "s2" !in s.world.jobs
    ensures var cfg := ConfigWith(timeoutSeconds);
            var s' := Act(cfg, Act(cfg, s, DeliveredAs("2", "s1")), DeliveredAs("3", "s2"));
            && s'.mem == s.mem.(active := map["op" := EntryOf("s2", deadline)])
            && s'.world.markers == {} && "s2" in s'.world.jobs && !IsFinal(s'.world.jobs["s2"].status)
            && StreamAt(s'.world, KEY) == Stream([AcceptedEvent("s1"), Completed("s1"), AcceptedEvent("s2")], 0)
  {
    var cfg := ConfigWith(timeoutSeconds);
    EntryKeys("s1", deadline);
    NewestMatchIsFound(Refuse, StreamAt(s.world, KEY), EntryOf("s1", deadline));
    DeliveryIsResumed(timeoutSeconds, s, "2", EntryOf("s1", deadline), deadline);
    var s4 := Act(cfg, s, DeliveredAs("2", "s1"));
    assert "op" !in s4.mem.active;
    DeliveryIsAdmitted(timeoutSeconds, s4, "3", "s2", deadline);
    EntryKeys("s2", deadline);
    var s5 := AdmittedState(cfg, s4, "3", EntryOf("s2", deadline));
    assert s5.mem.active == map["op" := EntryOf("s2", deadline)];
    assert StreamAt(s5.world, KEY).history == [AcceptedEvent("s1"), Completed("s1")] + [AcceptedEvent("s2")];
  }

  lemma StaleRunUntilSecondAdmitted()
    ensures var s := Run(ConfigWith(None), START, STALE_RUN[..5]);
            && s.mem.pass == [EntryOf("s1", None)] && s.mem.active == map["op" := EntryOf("s2", None)]
            && StreamAt(s.world, KEY) == Stream([AcceptedEvent("s1"), Completed("s1"), AcceptedEvent("s2")], 0)
  {
    StaleRunUntilFirstDone();
    FirstDoneFacts();
    RunOfOne(ConfigWith(None), START, STALE_RUN, 3);
    RunOfOne(ConfigWith(None), START, STALE_RUN, 4);
    DoneThenAdmitted(None, None, WithFirstDone());
  }

  lemma FirstDoneFacts()
    ensures var s := WithFirstDone();
            && s.mem.active == map["op" := EntryOf("s1", None)] && s.mem.pass == [EntryOf("s1", None)]
            && s.world.markers == {} && s.world.acked == {Delivery(Training, "1")} && "s2" !in s.world.jobs
            && StreamAt(s.world, KEY) == Stream([AcceptedEvent("s1"), Completed("s1")], 0)
  {
    EntryKeys("s1", None);
    assert WithFirstDone().world.jobs.Keys == {"s1"};
    assert "s1" != "s2" by {
      assert "s1"[1] != "s2"[1];
    }
  }

  /** A removal need not be justified for the entry it removes: the body of a stale snapshot item takes
      the second submission out of the map although nothing was ever published for it. */
  lemma StaleSnapshotUntracksLiveSubmission()
    ensures var s := Run(ConfigWith(None), START, STALE_RUN);
            && Fresh(START) && Aligned(ConfigWith(None))
            && s.mem.active == map[]
            && (exists i :: 0 <= i < |s.trace| && s.trace[i] == Removed(EntryOf("s2", None), EntryOf("s1", None)))
            && !EverPublished(Refuse, StreamAt(s.world, KEY).history, EntryOf("s2", None))
  {
    StartIsFresh(None);
    StaleRunUntilSecondAdmitted();
    StaleCheck(Run(ConfigWith(None), START, STALE_RUN[..5]), EntryOf("s1", None), EntryOf("s2", None));
    RunOfOne(ConfigWith(None), START, STALE_RUN, 5);
    assert STALE_RUN[..6] == STALE_RUN;
  }

  /** The last step of the run. */
  lemma StaleCheck(s: Sys, e1: ActiveSubmission, e2: ActiveSubmission)
    requires e1 == EntryOf("s1", None) && e2 == EntryOf("s2", None)
    requires s.mem.pass == [e1] && s.mem.active == map["op" := e2]
    requires StreamAt(s.world, KEY) == Stream([AcceptedEvent("s1"), Completed("s1"), AcceptedEvent("s2")], 0)
    ensures var s' := Apply(Refuse, s, CheckNext(OK_ITEM));
            && s'.mem.active == map[]
            && (exists i :: 0 <= i < |s'.trace| && s'.trace[i] == Removed(e2, e1))
            && !EverPublished(Refuse, StreamAt(s'.world, KEY).history, e2)
  {
    EntryKeys("s1", None);
    var stream := StreamAt(s.world, KEY);
    var newest := Newest(stream, TERMINAL_LOOKBACK);
    assert newest == [AcceptedEvent("s2"), Completed("s1"), AcceptedEvent("s1")];
    assert FirstDecisive(Refuse, newest, e1) == 1;
    var s0 := s.(mem := s.mem.(pass := []));
    var (looked, scan) := LookAt(Refuse, s0, e1, OK_ENV);
    assert scan.Found?;
    var s' := Apply(Refuse, s, CheckNext(OK_ITEM));
    assert s' == Forget(looked, e1);
    assert s'.trace[|s'.trace| - 2] == Removed(e2, e1);
  }

  // ---------------------------------------------------------------- a leaked cause

  const TIMEOUT: Option<real> := Some(0.001)
  const DEADLINE: Option<int> := Some(6)

  /** The first submission is stopped at its deadline, still completes, and is removed by a redelivery,
      which does not discard the stop request. Ray then stops the second submission before its deadline. */
  const LEAK_RUN: seq<Action> := [
    DeliveredAs("1", "s1"),
    Meanwhile(BeginPass([EntryOf("s1", DEADLINE)])),
    Meanwhile(CheckNext(OK_ITEM.(nowMs := 6))),
    Meanwhile(Outside(Write(KEY, Completed("s1")))),
    DeliveredAs("2", "s1"),
    DeliveredAs("3", "s2"),
    Meanwhile(Outside(RayProgress("s2", Stopped))),
    Meanwhile(BeginPass([EntryOf("s2", DEADLINE)])),
    Meanwhile(CheckNext(OK_ITEM))]

  lemma LeakDeadline()
    ensures Deadline(5, TIMEOUT) == DEADLINE
  {
    assert 0.001 * 1000.0 == 1.0;
  }

  /** The first submission is tracked, in the pass, timed out and still pending. */
  lemma StoppedAtDeadline(s: Sys)
    requires s.mem == Memory(map["op" := EntryOf("s1", DEADLINE)], {}, {}, [EntryOf("s1", DEADLINE)])
    requires StreamAt(s.world, KEY) == Stream([AcceptedEvent("s1")], 0) && s.world.markers == {}
    requires "s1" in s.world.jobs && s.world.jobs["s1"].status == Pending
    ensures var s' := Apply(Refuse, s, CheckNext(OK_ITEM.(nowMs := 6)));
            && s'.mem == Memory(s.mem.active, {}, {"op"}, [])
            && s'.world == s.world.(stopping := s.world.stopping + {"s1"})
  {
    var e1, t := EntryOf("s1", DEADLINE), OK_ITEM.(nowMs := 6);
    EntryKeys("s1", DEADLINE);
    var newest := Newest(StreamAt(s.world, KEY), TERMINAL_LOOKBACK);
    assert FirstDecisive(Refuse, newest, e1) == 1;
    var s0 := s.(mem := s.mem.(pass := []));
    var (looked, scan) := LookAt(Refuse, s0, e1, OK_ENV);
    assert scan.NotFound?;
    assert Apply(Refuse, s, CheckNext(t)) == ActOnStatus(looked, e1, Pending, t);
  }

  lemma ActSnapshot(cfg: Config, s: Sys, e: ActiveSubmission)
    requires s.mem.pass == [] && e.operationId == "op" && s.mem.active == map["op" := e]
    ensures Act(cfg, s, Meanwhile(BeginPass([e]))) == WithPassOf(s, e)
  {
    assert IsSnapshot([e], s.mem.active);
  }

  lemma ActWrite(cfg: Config, s: Sys, e: Entry)
    requires !FromWatcher(e)
    ensures Act(cfg, s, Meanwhile(Outside(Write(KEY, e)))) == s.(world := Append(s.world, KEY, e))
  {
    OneWrite(s.world, e);
  }

  lemma ActProgress(cfg: Config, s: Sys, sid: string)
    requires sid in s.world.jobs && !IsFinal(s.world.jobs[sid].status)
    ensures Act(cfg, s, Meanwhile(Outside(RayProgress(sid, Stopped))))
         == s.(world := s.world.(jobs := s.world.jobs[sid := s.world.jobs[sid].(status := Stopped)]))
  {
    EnvOne(s.world, RayProgress(sid, Stopped));
  }

  /** The first submission is tracked and pending, and is the only job. */
  ghost predicate FirstAdmitted(s: Sys, pass: seq<ActiveSubmission>) {
    && s.mem == Memory(map["op" := EntryOf("s1", DEADLINE)], {}, {}, pass)
    && s.world.markers == {} && s.world.acked == {Delivery(Training, "1")}
    && s.world.jobs.Keys == {"s1"} && s.world.jobs["s1"].status == Pending
    && StreamAt(s.world, KEY) == Stream([AcceptedEvent("s1")], 0)
  }

  lemma LeakAdmitted()
    ensures FirstAdmitted(Act(ConfigWith(TIMEOUT), START, LEAK_RUN[0]), [])
  {
    LeakDeadline();
    EntryKeys("s1", DEADLINE);
    DeliveryIsAdmitted(TIMEOUT, START, "1", "s1", DEADLINE);
    var s1 := AdmittedState(ConfigWith(TIMEOUT), START, "1", EntryOf("s1", DEADLINE));
    assert s1.mem.active == map["op" := EntryOf("s1", DEADLINE)];
  }

  ghost predicate FirstStopped(s: Sys, events: seq<Entry>) {
    && s.mem == Memory(map["op" := EntryOf("s1", DEADLINE)], {}, {"op"}, [])
    && s.world.markers == {} && s.world.acked == {Delivery(Training, "1")} && s.world.jobs.Keys == {"s1"}
    && StreamAt(s.world, KEY) == Stream(events, 0)
  }

  lemma LeakSnapshot(s: Sys)
    requires FirstAdmitted(s, [])
    ensures FirstAdmitted(Act(ConfigWith(TIMEOUT), s, LEAK_RUN[1]), [EntryOf("s1", DEADLINE)])
  {
    ActSnapshot(ConfigWith(TIMEOUT), s, EntryOf("s1", DEADLINE));
  }

  lemma LeakStopped(s: Sys)
    requires FirstAdmitted(s, [EntryOf("s1", DEADLINE)])
    ensures FirstStopped(Act(ConfigWith(TIMEOUT), s, LEAK_RUN[2]), [AcceptedEvent("s1")])
  {
    StoppedAtDeadline(s);
  }

  lemma LeakCompleted(s: Sys)
    requires FirstStopped(s, [AcceptedEvent("s1")])
    ensures FirstStopped(Act(ConfigWith(TIMEOUT), s, LEAK_RUN[3]), [AcceptedEvent("s1"), Completed("s1")])
  {
    ActWrite(ConfigWith(TIMEOUT), s, Completed("s1"));
    assert [AcceptedEvent("s1")] + [Completed("s1")] == [AcceptedEvent("s1"), Completed("s1")];
  }

  ghost predicate SecondAdmitted(s: Sys, pass: seq<ActiveSubmission>) {
    && s.mem == Memory(map["op" := EntryOf("s2", DEADLINE)], {}, {"op"}, pass)
    && s.world.markers == {} && "s2" in s.world.jobs
    && StreamAt(s.world, KEY) == Stream([AcceptedEvent("s1"), Completed("s1"), AcceptedEvent("s2")], 0)
  }

  lemma LeakSecond(s: Sys)
    requires FirstStopped(s, [AcceptedEvent("s1"), Completed("s1")])
    ensures var s' := Act(ConfigWith(TIMEOUT), Act(ConfigWith(TIMEOUT), s, LEAK_RUN[4]), LEAK_RUN[5]);
            SecondAdmitted(s', []) && !IsFinal(s'.world.jobs["s2"].status)
  {
    LeakDeadline();
    assert "s1" != "s2" by {
      assert "s1"[1] != "s2"[1];
    }
    DoneThenAdmitted(TIMEOUT, DEADLINE, s);
  }

  lemma LeakBlamed(s: Sys)
    requires SecondAdmitted(s, []) && !IsFinal(s.world.jobs["s2"].status)
    ensures var cfg := ConfigWith(TIMEOUT);
            var s' := Act(cfg, Act(cfg, Act(cfg, s, LEAK_RUN[6]), LEAK_RUN[7]), LEAK_RUN[8]);
            Wrote(EntryOf("s2", DEADLINE), Stopped, false, OK_ITEM.nowMs, "FAILED", "EXECUTION_TIMEOUT") in s'.trace
  {
    var cfg := ConfigWith(TIMEOUT);
    ActProgress(cfg, s, "s2");
    ActSnapshot(cfg, Act(cfg, s, LEAK_RUN[6]), EntryOf("s2", DEADLINE));
    BlamedForTimeout(WithPassOf(Act(cfg, s, LEAK_RUN[6]), EntryOf("s2", DEADLINE)));
  }

  /** The second submission is tracked, in the pass, stopped by Ray, and its deadline has not come. */
  lemma BlamedForTimeout(s: Sys)
    requires s.mem == Memory(map["op" := EntryOf("s2", DEADLINE)], {}, {"op"}, [EntryOf("s2", DEADLINE)])
    requires StreamAt(s.world, KEY) == Stream([AcceptedEvent("s1"), Completed("s1"), AcceptedEvent("s2")], 0)
             && s.world.markers == {}
    requires "s2" in s.world.jobs && s.world.jobs["s2"].status == Stopped
    ensures var s' := Apply(Refuse, s, CheckNext(OK_ITEM));
            Wrote(EntryOf("s2", DEADLINE), Stopped, false, OK_ITEM.nowMs, "FAILED", "EXECUTION_TIMEOUT") in s'.trace
  {
    var e2 := EntryOf("s2", DEADLINE);
    EntryKeys("s2", DEADLINE);
    NothingDecidesForSecond(StreamAt(s.world, KEY), e2);
    var s0 := s.(mem := s.mem.(pass := []));
    var (looked, scan) := LookAt(Refuse, s0, e2, OK_ENV);
    assert scan.NotFound?;
    var read := Note(looked, MarkerRead(e2, false, Deletions(s.world, e2.CancelKey())));
    assert Apply(Refuse, s, CheckNext(OK_ITEM)) == ActOnStatus(looked, e2, Stopped, OK_ITEM);
    assert ActOnStatus(looked, e2, Stopped, OK_ITEM) == ReportFinal(read, e2, Stopped, false, OK_ITEM.nowMs, Ok);
    var s' := ReportFinal(read, e2, Stopped, false, OK_ITEM.nowMs, Ok);
    assert s'.trace[|read.trace|] == Wrote(e2, Stopped, false, OK_ITEM.nowMs, "FAILED", "EXECUTION_TIMEOUT");
  }

  lemma NothingDecidesForSecond(stream: Stream, e2: ActiveSubmission)
    requires e2 == EntryOf("s2", DEADLINE)
    requires stream == Stream([AcceptedEvent("s1"), Completed("s1"), AcceptedEvent("s2")], 0)
    ensures BoundedScan(Refuse, stream, e2).NotFound?
  {
    EntryKeys("s2", DEADLINE);
    var newest := Newest(stream, TERMINAL_LOOKBACK);
    assert newest == [AcceptedEvent("s2"), Completed("s1"), AcceptedEvent("s1")];
    assert "s1" != "s2" by {
      assert "s1"[1] != "s2"[1];
    }
    assert FirstDecisive(Refuse, newest, e2) == 3;
  }

  /** A stop request outlives the submission it was made for: the second submission is reported as
      timed out before its own deadline. */
  lemma LeakedCauseBlamesNextSubmission()
    ensures Fresh(START) && Aligned(ConfigWith(TIMEOUT)) && !TimedOut(EntryOf("s2", DEADLINE), OK_ITEM.nowMs)
    ensures Wrote(EntryOf("s2", DEADLINE), Stopped, false, OK_ITEM.nowMs, "FAILED", "EXECUTION_TIMEOUT")
            in Run(ConfigWith(TIMEOUT), START, LEAK_RUN).trace
  {
    var cfg := ConfigWith(TIMEOUT);
    StartIsFresh(TIMEOUT);
    LeakAdmitted();
    var s1 := Act(cfg, START, LEAK_RUN[0]);
    LeakSnapshot(s1);
    var s2 := Act(cfg, s1, LEAK_RUN[1]);
    LeakStopped(s2);
    var s3 := Act(cfg, s2, LEAK_RUN[2]);
    LeakCompleted(s3);
    var s4 := Act(cfg, s3, LEAK_RUN[3]);
    LeakSecond(s4);
    LeakBlamed(Act(cfg, Act(cfg, s4, LEAK_RUN[4]), LEAK_RUN[5]));
    RunOfNine(cfg, START, LEAK_RUN);
  }

  lemma RunOfNine(cfg: Config, s: Sys, a: seq<Action>)
    requires |a| == 9
    ensures Run(cfg, s, a) == Act(cfg, Act(cfg, Act(cfg, Act(cfg, Act(cfg, Act(cfg, Act(cfg, Act(cfg, Act(cfg, s,
                                a[0]), a[1]), a[2]), a[3]), a[4]), a[5]), a[6]), a[7]), a[8])
  {
    assert a[..0] == [] && a[..9] == a;
    RunOfOne(cfg, s, a, 0);
    RunOfOne(cfg, s, a, 1);
    RunOfOne(cfg, s, a, 2);
    RunOfOne(cfg, s, a, 3);
    RunOfOne(cfg, s, a, 4);
    RunOfOne(cfg, s, a, 5);
    RunOfOne(cfg, s, a, 6);
    RunOfOne(cfg, s, a, 7);
    RunOfOne(cfg, s, a, 8);
  }

  // ---------------------------------------------------------------- a late lookback

  /** The bound on the lookback is tight: when the newest sixteen retained events decide nothing, a
      body that reads a final status writes again, however many fallbacks are further back. */
  lemma LateLookbackWritesAgain(m: Matcher, s: Sys, x: ActiveSubmission, t: ItemScript)
    requires t == ItemScript(OK_ENV, OK_ENV, OK_ENV, t.nowMs, OK_ENV)
    requires forall e :: e in Newest(StreamAt(s.world, x.EventKey()), TERMINAL_LOOKBACK) ==> !Decisive(m, e, x)
    requires x.SubmissionId() in s.world.jobs && IsFinal(s.world.jobs[x.SubmissionId()].status)
    ensures CountIn(CheckItem(m, s, x, t).world, x) == CountIn(s.world, x) + 1
  {
    var d := Passes.Decide(m, s, x, t);
    NothingDecidesThenWrites(m, s, x, t);
    Passes.CheckIsDecision(m, s, x, t);
    OneMoreFallback(s.world, x, d.kind, d.code);
  }

  lemma NothingDecidesThenWrites(m: Matcher, s: Sys, x: ActiveSubmission, t: ItemScript)
    requires t == ItemScript(OK_ENV, OK_ENV, OK_ENV, t.nowMs, OK_ENV)
    requires forall e :: e in Newest(StreamAt(s.world, x.EventKey()), TERMINAL_LOOKBACK) ==> !Decisive(m, e, x)
    requires x.SubmissionId() in s.world.jobs && IsFinal(s.world.jobs[x.SubmissionId()].status)
    ensures var d := Passes.Decide(m, s, x, t);
            d.WriteFallback? && (d.kind == "FAILED" || d.kind == "CANCELLED")
  {
    var newest := Newest(StreamAt(s.world, x.EventKey()), TERMINAL_LOOKBACK);
    assert forall k :: 0 <= k < |newest| ==> newest[k] in newest;
    assert FirstDecisive(m, newest, x) == |newest|;
  }

  lemma OneMoreFallback(w: World, x: ActiveSubmission, kind: string, code: string)
    requires kind == "FAILED" || kind == "CANCELLED"
    ensures CountIn(Append(w, x.EventKey(), Fallback(x, kind, code)), x) == CountIn(w, x) + 1
  {
    CountOfSnoc(StreamAt(w, x.EventKey()).history, Fallback(x, kind, code), x.SubmissionId());
  }

  lemma CountOfSnoc(history: seq<Entry>, e: Entry, submissionId: string)
    ensures FallbackCount(history + [e], submissionId)
            == FallbackCount(history, submissionId) + if IsFallback(e, submissionId) then 1 else 0
  {
    assert (history + [e])[..|history|] == history;
  }
}
