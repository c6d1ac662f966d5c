/** The Ray job's driver: ordered publications around one workload, and the exit code. */
module Driver {
  import opened Wrappers

  datatype NonTerminal = NonTerminal(eventType: string, phase: string)

  datatype Terminal = Completed | Failed(code: string)

  /** One call of `publish`, and whether it raised. */
  datatype Attempt = Informed(event: NonTerminal, raised: bool) | Concluded(conclusion: Terminal, raised: bool)

  datatype Call = Returns | Raises

  datatype InferenceResult = InferenceRaises | InferenceFails(code: string) | InferenceSucceeds

  datatype Job =
    | TrainingJob(run: Call, serialize: Call)
    | InferenceJob(parse: Call, resolve: Call, result: InferenceResult, serialize: Call)

  /** Everything but the publications: input loading, the credential reference, Ray, the job and the
      closing of the client. */
  datatype Workload = Workload(load: Call, credentialAvailable: bool, connect: Call, job: Job, close: Call)

  /** `Uncaught` is an exception that leaves `main`. */
  datatype Exit = Code(code: nat) | Uncaught

  /** Which nonterminal publications raise: on the first try and on the retry. */
  type Schedule = seq<(bool, bool)>

  function RaisesOnTry(schedule: Schedule, index: nat, retry: bool): bool {
    if index >= |schedule| then false else if retry then schedule[index].1 else schedule[index].0
  }

  function RaisesTerminal(terminals: seq<bool>, index: nat): bool {
    index < |terminals| && terminals[index]
  }

  // ---------------------------------------------------------------- what the workload determines

  const PREPARING := NonTerminal("PHASE", "PREPARING")
  const STARTED := NonTerminal("LOG", "PREPARING")
  const EXECUTING := NonTerminal("PHASE", "EXECUTING")
  const METRICS := NonTerminal("METRICS", "EXECUTING")
  const MATERIALIZING := NonTerminal("PHASE", "MATERIALIZING")
  const PROGRESS_START := NonTerminal("PROGRESS", "PREPARING")
  const PROGRESS_END := NonTerminal("PROGRESS", "MATERIALIZING")

  /** The informational events in order, up to the point where the workload stops. */
  function EventsOf(w: Workload): seq<NonTerminal> {
    if w.load == Raises || !w.credentialAvailable || w.connect == Raises then []
    else
      match w.job
      case TrainingJob(run, serialize) =>
        [PREPARING, STARTED, EXECUTING] + if run == Returns && serialize == Returns then [METRICS, MATERIALIZING]
            else []
      case InferenceJob(parse, resolve, result, _) =>
        if parse == Raises then []
        else [PREPARING, STARTED, PROGRESS_START]
             + if resolve == Raises then [] else [EXECUTING] + if result.InferenceSucceeds? then [PROGRESS_END] else []
  }

  const PUBLICATION_FAILED := Failed("TERMINAL_EVENT_PUBLICATION_FAILED")
  const EXECUTION_FAILED := Failed("EXECUTION_FAILED")

  /** The first terminal event, and the one published instead if that publication raises. */
  function ConclusionOf(w: Workload): (Terminal, Option<Terminal>) {
    if !w.credentialAvailable then (Failed("CREDENTIAL_UNAVAILABLE"), None)
    else if w.connect == Raises then (EXECUTION_FAILED, None)
    else
      match w.job
      case TrainingJob(run, serialize) =>
        if run == Raises then (EXECUTION_FAILED, None)
        else if serialize == Raises then (PUBLICATION_FAILED, None)
        else (Completed, Some(PUBLICATION_FAILED))
      case InferenceJob(parse, resolve, result, serialize) =>
        if parse == Raises || resolve == Raises || result.InferenceRaises? then (EXECUTION_FAILED, None)
        else if result.InferenceFails? then (Failed(result.code), Some(EXECUTION_FAILED))
        else if serialize == Raises then (PUBLICATION_FAILED, None)
        else (Completed, Some(PUBLICATION_FAILED))
  }

  /** The terminal attempts: one, and a second one only if the first raised inside the workload. */
  function Conclusion(w: Workload, terminals: seq<bool>): seq<Attempt> {
    if w.load == Raises then []
    else
      var (first, second) := ConclusionOf(w);
      [Concluded(first, RaisesTerminal(terminals, 0))]
      + if RaisesTerminal(terminals, 0) && second.Some? then [Concluded(second.value, RaisesTerminal(terminals, 1))]
          else []
  }

  function ExitOf(w: Workload, terminals: seq<bool>): Exit {
    if w.load == Raises || w.close == Raises then Uncaught
    else
      var attempts := Conclusion(w, terminals);
      if attempts[|attempts| - 1].raised then Uncaught
      else if attempts == [Concluded(Completed, false)] then Code(0)
      else Code(1)
  }

  function TriesOf(e: NonTerminal, schedule: Schedule, index: nat): seq<Attempt> {
    if RaisesOnTry(schedule, index, false)
    then [Informed(e, true), Informed(e, RaisesOnTry(schedule, index, true))]
    else [Informed(e, false)]
  }

  /** Each event is tried, and retried once if the first try raised. */
  function Informing(events: seq<NonTerminal>, schedule: Schedule): seq<Attempt> {
    if events == [] then []
    else
      var n := |events| - 1;
      Informing(events[..n], schedule) + TriesOf(events[n], schedule, n)
  }

  // ---------------------------------------------------------------- the driver

  /** How a part of `main` ends: with a return value or with one of the exceptions it distinguishes. */
  datatype Flow = Returned(code: nat) | CredentialUnavailable | TerminalPublicationError | OtherError

  class ExecutionDriver {
    const schedule: Schedule
    const terminals: seq<bool>
    var attempts: seq<Attempt>
    var informed: nat
    var concluded: nat

    constructor (schedule: Schedule, terminals: seq<bool>)
      ensures this.schedule == schedule && this.terminals == terminals
      ensures attempts == [] && informed == 0 && concluded == 0
    {
      this.schedule, this.terminals := schedule, terminals;
      attempts, informed, concluded := [], 0, 0;
    }

    /** The events informed so far are `events`, and nothing was concluded yet. */
    ghost predicate Told(events: seq<NonTerminal>)
      reads this
    {
      informed == |events| && concluded == 0 && attempts == Informing(events, schedule)
    }

    /** `_publish_nonterminal`: at most two tries, and never an exception. */
    method PublishNonterminal(e: NonTerminal, ghost events: seq<NonTerminal>)
      requires Told(events)
      modifies this
      ensures Told(events + [e])
    {
      assert (events + [e])[..|events|] == events;
      var attempt := 0;
      ghost var before := attempts;
      while attempt < 2
        invariant 0 <= attempt <= 2 && informed == |events| && concluded == 0
        invariant attempt == 0 ==> attempts == before
        invariant attempt >= 1 ==> RaisesOnTry(schedule, informed, false)
        invariant attempt == 1 ==> attempts == before + [Informed(e, true)]
        invariant attempt == 2 ==> attempts == before + [Informed(e, true), Informed(e, true)]
        invariant attempt == 2 ==> RaisesOnTry(schedule, informed, true)
      {
        var raised := RaisesOnTry(schedule, informed, attempt == 1);
        attempts := attempts + [Informed(e, raised)];
        if !raised {
          break;
        }
        attempt := attempt + 1;
      }
      informed := informed + 1;
    }

    /** One terminal `publish`; false when it raised. */
    method PublishTerminal(e: Terminal) returns (returned: bool)
      modifies this
      ensures attempts == old(attempts) + [Concluded(e, !returned)]
      ensures returned == !RaisesTerminal(terminals, old(concluded))
      ensures concluded == old(concluded) + 1 && informed == old(informed)
    {
      returned := !RaisesTerminal(terminals, concluded);
      attempts := attempts + [Concluded(e, !returned)];
      concluded := concluded + 1;
    }

    method PublishCompleted() returns (flow: Flow)
      modifies this
      ensures attempts == old(attempts) + [Concluded(Completed, RaisesTerminal(terminals, old(concluded)))]
      ensures concluded == old(concluded) + 1 && informed == old(informed)
      ensures flow == if RaisesTerminal(terminals, old(concluded)) then TerminalPublicationError else Returned(0)
    {
      var returned := PublishTerminal(Completed);
      flow := if returned then Returned(0) else TerminalPublicationError;
    }

    /** What a workload that was started leaves to `main`. */
    ghost predicate Ended(w: Workload, flow: Flow)
      reads this
    {
      var (first, second) := ConclusionOf(w);
      if second.None? then
        && Told(EventsOf(w))
        && (first == EXECUTION_FAILED ==> flow == OtherError)
        && (first == PUBLICATION_FAILED ==> flow == TerminalPublicationError)
      else
        && concluded == 1
        && attempts == Informing(EventsOf(w), schedule) + [Concluded(first, RaisesTerminal(terminals, 0))]
        && (RaisesTerminal(terminals, 0) ==> flow == if first == Completed then TerminalPublicationError
            else OtherError)
        && (!RaisesTerminal(terminals, 0) ==> flow == Returned(if first == Completed then 0 else 1))
    }

    /** The three events both workloads start with. */
    method TellThree(a: NonTerminal, b: NonTerminal, c: NonTerminal) returns (ghost told: seq<NonTerminal>)
      requires Told([])
      modifies this
      ensures told == [a, b, c] && Told(told)
    {
      PublishNonterminal(a, []);
      assert [] + [a] == [a];
      PublishNonterminal(b, [a]);
      assert [a] + [b] == [a, b];
      PublishNonterminal(c, [a, b]);
      told := [a, b, c];
      assert [a, b] + [c] == told;
    }

    /** `_run_training` */
    method RunTraining(w: Workload) returns (flow: Flow)
      requires Told([]) && w.load == Returns && w.credentialAvailable && w.connect == Returns && w.job.TrainingJob?
      modifies this
      ensures Ended(w, flow)
    {
      ghost var started := TellThree(PREPARING, STARTED, EXECUTING);
      assert w.job.run == Raises || w.job.serialize == Raises ==> started == EventsOf(w);
      if w.job.run == Raises {
        return OtherError;
      }
      if w.job.serialize == Raises {
        return TerminalPublicationError;
      }
      PublishNonterminal(METRICS, started);
      PublishNonterminal(MATERIALIZING, started + [METRICS]);
      assert started + [METRICS] + [MATERIALIZING] == EventsOf(w);
      flow := PublishCompleted();
    }

    /** `_run_batch_inference` */
    method RunBatchInference(w: Workload) returns (flow: Flow)
      requires Told([]) && w.load == Returns && w.credentialAvailable && w.connect == Returns && w.job.InferenceJob?
      modifies this
      ensures Ended(w, flow)
    {
      if w.job.parse == Raises {
        return OtherError;
      }
      ghost var started := TellThree(PREPARING, STARTED, PROGRESS_START);
      if w.job.resolve == Raises {
        assert started == EventsOf(w);
        return OtherError;
      }
      PublishNonterminal(EXECUTING, started);
      assert !w.job.result.InferenceSucceeds? ==> started + [EXECUTING] == EventsOf(w);
      if w.job.result.InferenceRaises? {
        return OtherError;
      }
      if w.job.result.InferenceFails? {
        var returned := PublishTerminal(Failed(w.job.result.code));
        return if returned then Returned(1) else OtherError;
      }
      PublishNonterminal(PROGRESS_END, started + [EXECUTING]);
      assert started + [EXECUTING] + [PROGRESS_END] == EventsOf(w);
      if w.job.serialize == Raises {
        return TerminalPublicationError;
      }
      flow := PublishCompleted();
    }

    /** The `try` of `main`: credential, Ray, workload. */
    method Execute(w: Workload) returns (flow: Flow)
      requires Told([]) && w.load == Returns
      modifies this
      ensures if !w.credentialAvailable then flow == CredentialUnavailable && Told([]) else Ended(w, flow)
    {
      if !w.credentialAvailable {
        return CredentialUnavailable;
      }
      if w.connect == Raises {
        return OtherError;
      }
      if w.job.TrainingJob? {
        flow := RunTraining(w);
      } else {
        flow := RunBatchInference(w);
      }
    }

    /** `main`: the exception handlers report once more, and an exception from them or from closing
        the client leaves the process. */
    method Run(w: Workload) returns (exit: Exit)
      requires Told([])
      modifies this
      ensures (attempts, exit) == DriverRun(w, schedule, terminals)
    {
      assert Informing([], schedule) == [];
      if w.load == Raises {
        assert DriverRun(w, schedule, terminals).0 == [];
        return Uncaught;
      }
      var flow := Execute(w);
      exit := Uncaught;
      match flow {
        case Returned(code) =>
          exit := Code(code);
        case CredentialUnavailable =>
          var reported := PublishTerminal(Failed("CREDENTIAL_UNAVAILABLE"));
          if reported { exit := Code(1); }
        case TerminalPublicationError =>
          var reported := PublishTerminal(PUBLICATION_FAILED);
          if reported { exit := Code(1); }
        case OtherError =>
          var reported := PublishTerminal(EXECUTION_FAILED);
          if reported { exit := Code(1); }
      }
      assert attempts == Informing(EventsOf(w), schedule) + Conclusion(w, terminals);
      if w.close == Raises {
        exit := Uncaught;
      }
    }
  }

  function DriverRun(w: Workload, schedule: Schedule, terminals: seq<bool>): (seq<Attempt>, Exit) {
    (Informing(EventsOf(w), schedule) + Conclusion(w, terminals), ExitOf(w, terminals))
  }

  // ---------------------------------------------------------------- what the log shows

  function TerminalAttempts(log: seq<Attempt>): seq<Attempt> {
    if log == [] then []
    else TerminalAttempts(log[..|log| - 1]) + if log[|log| - 1].Concluded? then [log[|log| - 1]] else []
  }

  lemma {:induction false} TerminalAttemptsOfConcat(a: seq<Attempt>, b: seq<Attempt>)
    ensures TerminalAttempts(a + b) == TerminalAttempts(a) + TerminalAttempts(b)
  {
    if b == [] {
      assert a + b == a;
    } else {
      assert (a + b)[..|a + b| - 1] == a + b[..|b| - 1];
      TerminalAttemptsOfConcat(a, b[..|b| - 1]);
    }
  }

  function Tries(log: seq<Attempt>, e: NonTerminal): nat {
    if log == [] then 0
    else Tries(log[..|log| - 1], e) + if log[|log| - 1].Informed? && log[|log| - 1].event == e then 1 else 0
  }

  lemma TriesOfOneEvent(event: NonTerminal, schedule: Schedule, index: nat, e: NonTerminal)
    ensures Tries(TriesOf(event, schedule, index), e) ==
            if event != e then 0 else if RaisesOnTry(schedule, index, false) then 2 else 1
  {
    var tries := TriesOf(event, schedule, index);
    assert tries[..1] == [tries[0]] && tries[..1][..0] == [];
    assert Tries(tries[..1], e) == if event == e then 1 else 0;
    assert |tries| == 1 ==> tries[..1] == tries;
  }

  ghost predicate OnlyInforms(log: seq<Attempt>) {
    forall i :: 0 <= i < |log| ==> log[i].Informed?
  }

  lemma {:induction false} OnlyInformingConcludesNothing(log: seq<Attempt>)
    requires OnlyInforms(log)
    ensures TerminalAttempts(log) == []
  {
    if log != [] {
      OnlyInformingConcludesNothing(log[..|log| - 1]);
    }
  }

  lemma {:induction false} InformingOnlyInforms(events: seq<NonTerminal>, schedule: Schedule)
    ensures OnlyInforms(Informing(events, schedule))
  {
    if events != [] {
      InformingOnlyInforms(events[..|events| - 1], schedule);
    }
  }

  lemma InformingConcludesNothing(events: seq<NonTerminal>, schedule: Schedule)
    ensures TerminalAttempts(Informing(events, schedule)) == [] && OnlyInforms(Informing(events, schedule))
  {
    InformingOnlyInforms(events, schedule);
    OnlyInformingConcludesNothing(Informing(events, schedule));
  }

  lemma ConclusionIsTerminal(w: Workload, terminals: seq<bool>)
    ensures TerminalAttempts(Conclusion(w, terminals)) == Conclusion(w, terminals)
  {
    var c := Conclusion(w, terminals);
    if c != [] {
      assert c[..1][..0] == [];
      assert TerminalAttempts(c[..1]) == [c[0]];
      assert |c| == 1 ==> c[..1] == c;
      assert |c| == 2 ==> c == c[..1] + [c[1]];
    }
  }

  /** Noninterference: two schedules of nonterminal failures give the same terminal attempts and the
      same exit, for every workload and every behaviour of the terminal publications. */
  lemma NonterminalFailuresDoNotInterfere(w: Workload, a: Schedule, b: Schedule, terminals: seq<bool>)
    ensures TerminalAttempts(DriverRun(w, a, terminals).0) == TerminalAttempts(DriverRun(w, b, terminals).0)
    ensures DriverRun(w, a, terminals).1 == DriverRun(w, b, terminals).1
  {
    TerminalAttemptsOfConcat(Informing(EventsOf(w), a), Conclusion(w, terminals));
    TerminalAttemptsOfConcat(Informing(EventsOf(w), b), Conclusion(w, terminals));
    InformingConcludesNothing(EventsOf(w), a);
    InformingConcludesNothing(EventsOf(w), b);
    ConclusionIsTerminal(w, terminals);
  }

  lemma {:induction false} TriesOfConcat(a: seq<Attempt>, b: seq<Attempt>, e: NonTerminal)
    ensures Tries(a + b, e) == Tries(a, e) + Tries(b, e)
  {
    if b == [] {
      assert a + b == a;
    } else {
      assert (a + b)[..|a + b| - 1] == a + b[..|b| - 1];
      TriesOfConcat(a, b[..|b| - 1], e);
    }
  }

  function Occurrences(events: seq<NonTerminal>, e: NonTerminal): nat {
    if events == [] then 0
    else Occurrences(events[..|events| - 1], e) + if events[|events| - 1] == e then 1 else 0
  }

  lemma {:induction false} InformingTriesTwice(events: seq<NonTerminal>, schedule: Schedule, e: NonTerminal)
    ensures Occurrences(events, e) <= Tries(Informing(events, schedule), e) <= 2 * Occurrences(events, e)
  {
    if events != [] {
      var n := |events| - 1;
      InformingTriesTwice(events[..n], schedule, e);
      TriesOfConcat(Informing(events[..n], schedule), TriesOf(events[n], schedule, n), e);
      TriesOfOneEvent(events[n], schedule, n, e);
    }
  }

  predicate AreDifferent(events: seq<NonTerminal>) {
    forall i, j :: 0 <= i < j < |events| ==> events[i] != events[j]
  }

  lemma FiveAreDifferent(a: NonTerminal, b: NonTerminal, c: NonTerminal, d: NonTerminal, e: NonTerminal)
    requires a != b && a != c && a != d && a != e && b != c && b != d && b != e && c != d && c != e && d != e
    ensures AreDifferent([a, b, c, d, e])
  {
  }

  lemma SomeAreDifferent(events: seq<NonTerminal>, all: seq<NonTerminal>)
    requires events <= all && AreDifferent(all)
    ensures AreDifferent(events)
  {
    assert forall i :: 0 <= i < |events| ==> events[i] == all[i];
  }

  lemma EventsAreDifferent(w: Workload)
    ensures AreDifferent(EventsOf(w))
  {
    if w.job.TrainingJob? {
      FiveAreDifferent(PREPARING, STARTED, EXECUTING, METRICS, MATERIALIZING);
      SomeAreDifferent(EventsOf(w), [PREPARING, STARTED, EXECUTING, METRICS, MATERIALIZING]);
    } else {
      FiveAreDifferent(PREPARING, STARTED, PROGRESS_START, EXECUTING, PROGRESS_END);
      SomeAreDifferent(EventsOf(w), [PREPARING, STARTED, PROGRESS_START, EXECUTING, PROGRESS_END]);
    }
  }

  lemma {:induction false} DistinctOccurrences(events: seq<NonTerminal>, e: NonTerminal)
    requires AreDifferent(events)
    ensures Occurrences(events, e) <= 1
    ensures Occurrences(events, e) == 1 ==> e in events
  {
    if events != [] {
      var front := events[..|events| - 1];
      assert forall i, j :: 0 <= i < j < |front| ==> front[i] != front[j];
      DistinctOccurrences(front, e);
    }
  }

  lemma TriedAtMostTwice(events: seq<NonTerminal>, schedule: Schedule, e: NonTerminal)
    requires AreDifferent(events)
    ensures Tries(Informing(events, schedule), e) <= 2
  {
    InformingTriesTwice(events, schedule, e);
    DistinctOccurrences(events, e);
  }

  lemma ConclusionShape(w: Workload, terminals: seq<bool>)
    requires w.load == Returns
    ensures var c := Conclusion(w, terminals);
            && |c| in {1, 2} && c[0].Concluded?
            && (|c| == 2 ==> c[0].raised && c[1].Concluded? && c[1].conclusion.Failed?)
            && (ExitOf(w, terminals) == Code(0) <==> Concluded(Completed, false) in c && w.close == Returns)
  {
  }

  /** Shape of every log: informational attempts, each event tried at most twice; then one terminal
      attempt, plus a second one, a FAILED, only if the first raised. Exit 0 means exactly that the
      COMPLETED publication returned and the client closed. */
  lemma DriverLogShape(w: Workload, schedule: Schedule, terminals: seq<bool>)
    requires w.load == Returns
    ensures var (log, exit) := DriverRun(w, schedule, terminals);
            var n := |Informing(EventsOf(w), schedule)|;
            && |log| in {n + 1, n + 2}
            && (forall i :: 0 <= i < n ==> log[i].Informed?)
            && (forall e :: Tries(log[..n], e) <= 2)
            && log[n].Concluded?
            && (|log| == n + 2 ==> log[n].raised && log[n + 1].Concluded? && log[n + 1].conclusion.Failed?)
            && (exit == Code(0) <==> Concluded(Completed, false) in log && w.close == Returns)
  {
    var informing := Informing(EventsOf(w), schedule);
    var (log, exit) := DriverRun(w, schedule, terminals);
    var n := |informing|;
    assert log[..n] == informing && log[n..] == Conclusion(w, terminals);
    ConclusionShape(w, terminals);
    InformingConcludesNothing(EventsOf(w), schedule);
    EventsAreDifferent(w);
    forall e ensures Tries(log[..n], e) <= 2 {
      TriedAtMostTwice(EventsOf(w), schedule, e);
    }
    assert Concluded(Completed, false) in log <==> Concluded(Completed, false) in Conclusion(w, terminals);
  }

  // ---------------------------------------------------------------- what the workload alone decides

  /** The credential is there and Ray is connected. */
  predicate Started(w: Workload) {
    w.load == Returns && w.credentialAvailable && w.connect == Returns
  }

  /** Every call of the workload returns, and an inference reports success. */
  predicate Succeeds(w: Workload) {
    && Started(w)
    && (w.job.TrainingJob? ==> w.job.run == Returns)
    && (w.job.InferenceJob? ==> w.job.parse == Returns && w.job.resolve == Returns && w.job.result.InferenceSucceeds?)
    && w.job.serialize == Returns
  }

  /** An inference that ran to its end and reported a failure of its own. */
  predicate ReportsFailure(w: Workload) {
    && Started(w) && w.job.InferenceJob?
    && w.job.parse == Returns && w.job.resolve == Returns && w.job.result.InferenceFails?
  }

  /** The connection, or a call that makes the result, raises. */
  predicate RaisesBeforeResult(w: Workload) {
    && w.credentialAvailable
    && (w.connect == Raises
        || (w.job.TrainingJob? && w.job.run == Raises)
        || (w.job.InferenceJob? && (w.job.parse == Raises || w.job.resolve == Raises || w.job.result.InferenceRaises?)))
  }

  /** The terminal attempts of the log are the conclusion. */
  lemma TerminalAttemptsOfRun(w: Workload, schedule: Schedule, terminals: seq<bool>)
    ensures TerminalAttempts(DriverRun(w, schedule, terminals).0) == Conclusion(w, terminals)
  {
    TerminalAttemptsOfConcat(Informing(EventsOf(w), schedule), Conclusion(w, terminals));
    InformingConcludesNothing(EventsOf(w), schedule);
    ConclusionIsTerminal(w, terminals);
    assert [] + Conclusion(w, terminals) == Conclusion(w, terminals);
  }

  /** The first terminal event is the one of the call that failed first. */
  ghost predicate IsVerdict(w: Workload, first: Terminal) {
    && (first == Completed <==> Succeeds(w))
    && (!w.credentialAvailable ==> first == Failed("CREDENTIAL_UNAVAILABLE"))
    && (RaisesBeforeResult(w) ==> first == Failed("EXECUTION_FAILED"))
    && (ReportsFailure(w) ==> first == Failed(w.job.result.code))
    && (w.credentialAvailable && !RaisesBeforeResult(w) && !ReportsFailure(w) && w.job.serialize == Raises ==>
          first == Failed("TERMINAL_EVENT_PUBLICATION_FAILED"))
  }

  lemma ConclusionIsVerdict(w: Workload)
    requires w.load == Returns
    ensures IsVerdict(w, ConclusionOf(w).0)
    ensures ConclusionOf(w).1 ==
            if Succeeds(w) then Some(Failed("TERMINAL_EVENT_PUBLICATION_FAILED"))
            else if ReportsFailure(w) then Some(Failed("EXECUTION_FAILED")) else None
  {
  }

  /** The terminal attempts in terms of the workload: COMPLETED is attempted if and only if the workload
      succeeds, otherwise the first attempt is FAILED with the code of the call that failed. A second
      attempt is made exactly when the first one raised inside the workload. */
  lemma ConclusionIsExact(w: Workload, schedule: Schedule, terminals: seq<bool>)
    requires w.load == Returns
    ensures var ends := TerminalAttempts(DriverRun(w, schedule, terminals).0);
            && |ends| in {1, 2} && ends[0].Concluded? && IsVerdict(w, ends[0].conclusion)
            && (ends[0].raised <==> 0 < |terminals| && terminals[0])
            && (|ends| == 2 <==> ends[0].raised && (Succeeds(w) || ReportsFailure(w)))
            && (|ends| == 2 ==>
                  && ends[1].Concluded? && (ends[1].raised <==> 1 < |terminals| && terminals[1])
                  && ends[1].conclusion == if Succeeds(w) then Failed("TERMINAL_EVENT_PUBLICATION_FAILED")
                                           else Failed("EXECUTION_FAILED"))
  {
    TerminalAttemptsOfRun(w, schedule, terminals);
    ConclusionIsVerdict(w);
  }

  /** The exit code is 0 if and only if the workload succeeds, its COMPLETED is published at once and the
      client closes; an exception leaves `main` if and only if the last publication or the closing
      raised. Input that cannot be loaded publishes nothing. */
  lemma ExitIsExact(w: Workload, schedule: Schedule, terminals: seq<bool>)
    ensures var (log, exit) := DriverRun(w, schedule, terminals);
            var ends := TerminalAttempts(log);
            && (w.load == Raises ==> log == [] && exit == Uncaught)
            && (w.load == Returns ==>
                  && ends != []
                  && (exit == Code(0) <==> Succeeds(w) && !ends[0].raised && w.close == Returns)
                  && (exit == Uncaught <==> ends[|ends| - 1].raised || w.close == Raises))
            && exit in {Code(0), Code(1), Uncaught}
  {
    TerminalAttemptsOfRun(w, schedule, terminals);
    if w.load == Raises {
      assert Informing([], schedule) == [];
    } else {
      ConclusionIsVerdict(w);
    }
  }

  /** An informational attempt is a first try, unless it comes right after a failed try of its event. */
  predicate IsFirstTry(log: seq<Attempt>, i: nat)
    requires i < |log|
  {
    log[i].Informed? && (i == 0 || log[i - 1] != Informed(log[i].event, true))
  }

  /** The events that the first `n` attempts of a log announce. */
  function Announced(log: seq<Attempt>, n: nat): seq<NonTerminal>
    requires n <= |log|
  {
    if n == 0 then []
    else Announced(log, n - 1) + if IsFirstTry(log, n - 1) then [log[n - 1].event] else []
  }

  lemma {:induction false} LaterAttemptsChangeNothing(log: seq<Attempt>, more: seq<Attempt>, n: nat)
    requires n <= |log|
    ensures Announced(log + more, n) == Announced(log, n)
  {
    if n > 0 {
      LaterAttemptsChangeNothing(log, more, n - 1);
    }
  }

  ghost predicate EndsWith(log: seq<Attempt>, e: NonTerminal) {
    log != [] && log[|log| - 1].Informed? && log[|log| - 1].event == e
  }

  lemma TriesAnnounceOnce(log: seq<Attempt>, e: NonTerminal, schedule: Schedule, index: nat)
    requires log == [] || (log[|log| - 1].Informed? && log[|log| - 1].event != e)
    ensures var all := log + TriesOf(e, schedule, index);
            Announced(all, |all|) == Announced(log, |log|) + [e] && EndsWith(all, e)
  {
    var tries := TriesOf(e, schedule, index);
    LaterAttemptsChangeNothing(log, tries, |log|);
    assert Announced(log + tries, |log| + 1) == Announced(log, |log|) + [e];
  }

  /** Different events, each tried once or twice, announce themselves in order. */
  lemma {:induction false} InformingAnnounces(events: seq<NonTerminal>, schedule: Schedule)
    requires AreDifferent(events)
    ensures var log := Informing(events, schedule);
            Announced(log, |log|) == events && (events != [] ==> EndsWith(log, events[|events| - 1]))
  {
    if events != [] {
      var n := |events| - 1;
      var front, e := events[..n], events[n];
      InformingAnnounces(front, schedule);
      TriesAnnounceOnce(Informing(front, schedule), e, schedule, n);
      assert front + [e] == events;
    }
  }

  lemma {:induction false} ConcludingAnnouncesNothing(log: seq<Attempt>, ends: seq<Attempt>, n: nat)
    requires OnlyConcludes(ends)
    requires n <= |ends|
    ensures Announced(log + ends, |log| + n) == Announced(log, |log|)
  {
    if n == 0 {
      LaterAttemptsChangeNothing(log, ends, |log|);
    } else {
      ConcludingAnnouncesNothing(log, ends, n - 1);
    }
  }

  /** The events of the calls that returned, in order. */
  ghost predicate AreTheEvents(w: Workload, told: seq<NonTerminal>) {
    && (w.job.TrainingJob? ==>
          && told <= [NonTerminal("PHASE", "PREPARING"), NonTerminal("LOG", "PREPARING"),
                      NonTerminal("PHASE", "EXECUTING"), NonTerminal("METRICS", "EXECUTING"),
                      NonTerminal("PHASE", "MATERIALIZING")]
          && |told| == if !Started(w) then 0 else if Succeeds(w) then 5 else 3)
    && (w.job.InferenceJob? ==>
          && told <= [NonTerminal("PHASE", "PREPARING"), NonTerminal("LOG", "PREPARING"),
                      NonTerminal("PROGRESS", "PREPARING"), NonTerminal("PHASE", "EXECUTING"),
                      NonTerminal("PROGRESS", "MATERIALIZING")]
          && |told| == if !Started(w) || w.job.parse == Raises then 0
                       else if w.job.resolve == Raises then 3
                       else if w.job.result.InferenceSucceeds? then 5 else 4)
  }

  ghost predicate OnlyConcludes(ends: seq<Attempt>) {
    forall i :: 0 <= i < |ends| ==> ends[i].Concluded?
  }

  lemma LogAnnouncesEvents(events: seq<NonTerminal>, schedule: Schedule, ends: seq<Attempt>)
    requires AreDifferent(events) && OnlyConcludes(ends)
    ensures var log := Informing(events, schedule) + ends; Announced(log, |log|) == events
  {
    InformingAnnounces(events, schedule);
    ConcludingAnnouncesNothing(Informing(events, schedule), ends, |ends|);
  }

  lemma LogTriesExactly(events: seq<NonTerminal>, schedule: Schedule, ends: seq<Attempt>, k: nat)
    requires AreDifferent(events) && OnlyConcludes(ends) && k < |events|
    ensures Tries(Informing(events, schedule) + ends, events[k]) == if RaisesOnTry(schedule, k, false) then 2 else 1
  {
    TriesOfConcat(Informing(events, schedule), ends, events[k]);
    TriesAreExact(events, schedule, k);
    ConcludingTriesNothing(ends, events[k]);
  }

  /** The events a log announces are those of the calls that returned, in order, whatever is retried,
      dropped or concluded. */
  lemma EventsAreExact(w: Workload, schedule: Schedule, terminals: seq<bool>)
    ensures var log := DriverRun(w, schedule, terminals).0;
            AreTheEvents(w, Announced(log, |log|))
  {
    EventsAreDifferent(w);
    LogAnnouncesEvents(EventsOf(w), schedule, Conclusion(w, terminals));
    EventsAreListed(w);
  }

  lemma EventsAreListed(w: Workload)
    ensures AreTheEvents(w, EventsOf(w))
  {
  }

  /** Each announced event is tried a second time exactly when its first try raised. */
  lemma RetriesAreExact(w: Workload, schedule: Schedule, terminals: seq<bool>, k: nat)
    requires var log := DriverRun(w, schedule, terminals).0; k < |Announced(log, |log|)|
    ensures var log := DriverRun(w, schedule, terminals).0;
            Tries(log, Announced(log, |log|)[k]) == if k < |schedule| && schedule[k].0 then 2 else 1
  {
    EventsAreDifferent(w);
    LogAnnouncesEvents(EventsOf(w), schedule, Conclusion(w, terminals));
    LogTriesExactly(EventsOf(w), schedule, Conclusion(w, terminals), k);
  }

  lemma {:induction false} ConcludingTriesNothing(ends: seq<Attempt>, e: NonTerminal)
    requires OnlyConcludes(ends)
    ensures Tries(ends, e) == 0
  {
    if ends != [] {
      ConcludingTriesNothing(ends[..|ends| - 1], e);
    }
  }

  /** Of different events each one is tried a second time exactly when its first try raised. */
  lemma {:induction false} TriesAreExact(events: seq<NonTerminal>, schedule: Schedule, k: nat)
    requires AreDifferent(events) && k < |events|
    ensures Tries(Informing(events, schedule), events[k]) == if RaisesOnTry(schedule, k, false) then 2 else 1
  {
    var n := |events| - 1;
    TriesOfConcat(Informing(events[..n], schedule), TriesOf(events[n], schedule, n), events[k]);
    TriesOfOneEvent(events[n], schedule, n, events[k]);
    if k == n {
      InformingTriesTwice(events[..n], schedule, events[k]);
      NotAmong(events[..n], events[k]);
    } else {
      TriesAreExact(events[..n], schedule, k);
    }
  }

  lemma {:induction false} NotAmong(events: seq<NonTerminal>, e: NonTerminal)
    requires e !in events
    ensures Occurrences(events, e) == 0
  {
    if events != [] {
      NotAmong(events[..|events| - 1], e);
    }
  }
}
