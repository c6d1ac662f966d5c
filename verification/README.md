# Verification of the Redis broker protocol

The provider moves tasks from Redis Streams to Ray and reports what becomes of them. Three independent
parties take part: Redis (task streams, pending lists, event streams, cancel markers), Ray (a durable job
table) and the provider process (an in-memory map of active submissions that a crash loses). This project
models that protocol and the code that runs it, and proves what the protocol keeps over whole runs.

The environment is adversarial. Every external call returns, raises before it takes effect, or raises after
it took effect. Before every call of the consumer thread any number of steps of the environment and of the
lifecycle watcher may happen; between two calls of one watcher body only the environment acts, so that a
body is atomic with respect to `handle`. A crash clears exactly the volatile fields.

## How the project is built

- `World`, `Domain`: the three parties as one state, with a ghost trace of observable calls.
- `Lookback`: the scan of the newest sixteen events, against the scan of everything ever appended.
- `Watcher`, `Jobs`, `Decimal`, `Admission`, `Recovery`: what the code does, as state transformers.
- `Protocol`, `Safety`: the same protocol as guarded atomic steps, and the invariant they keep, one fact and
  one preservation lemma at a time. `WatcherSteps`, `AdmissionSteps` and `Recovery` prove that the code only
  ever makes such steps.
- `Runs`, `Continuity`, `Convergence`, `Outcomes`, `Passes`: the main theorems about runs, about how long a
  tracked entry stays, about redeliveries and crashes, about what one delivery comes to, and about watcher
  bodies and passes.
- `Limits`: concrete runs, from a fresh start, in which a stronger claim would be false.
- `Provider`, `Runtime`: the objects. `ActiveSubmissionMap`, `CancelWatcher` and `RedisBrokerRuntime` change
  their fields in place, and each method is proved to carry out its state transformer.
- `Consumer`, `Scheduler`, `Driver`: the pending-page consumer, the round robin and the job driver, each as a
  class proved against a specification about which the theorems are stated.
- `Json`, `Credentials`, `RequestParser`, `Redaction`: the two tree walks and the request parser.

## Assumptions

- The submitter raises, possibly after creating the job, or returns a submission whose job carries the
  metadata it was given. If a job of that submission id exists, it is taken over only if its metadata agree
  in everything but the two times.
- Ray keeps a job's metadata, and SUCCEEDED, FAILED and STOPPED are final. The listing used for recovery
  shows jobs that exist, with their metadata.
- XAUTOCLAIM scans at least `claim_count` pending entries per page, claims the eligible ones among them in
  order, and returns the entry to go on from, or zero at the end.
- One provider process consumes the group. A run starts with nothing acknowledged and no event written by an
  earlier watcher; streams, markers and Ray jobs are arbitrary.
- The two channels have different task streams. Where distinct event streams matter (independence of the
  items of a pass), this is a hypothesis of the lemma, because the prefixes alone do not give it.
- Only the environment writes events other than the provider's own; the driver's events are among them.

## Results that limit what may be claimed

- Removal is keyed by operation. A body that works on a stale snapshot item can take a later submission out
  of the map although nothing was published for it (`Limits.StaleSnapshotUntracksLiveSubmission`). The exact
  condition can be checked when an entry is put: the pass in progress holds no item of the operation that an
  event could end without ending the entry. It holds if and only if no run without a crash takes the entry away
  before a terminal event for it (`Continuity.KeptExactlyWhenNothingIsStale`).
- Resuming removes an entry without discarding its stop requests. The next submission of the operation can be
  reported as EXECUTION_TIMEOUT before its own deadline (`Limits.LeakedCauseBlamesNextSubmission`). What decides
  is exactly which stops returned since the sets were emptied (`Runs.StoppedVerdictIsExact`), and they are all
  the entry's own if it was admitted with the operation in neither set and no other item of it in the pass
  (`Continuity.OwnStopsDecide`).
- The bound on the lookback is tight: when the newest sixteen retained events decide nothing, the watcher
  writes again (`Limits.LateLookbackWritesAgain`). A stream holds at most one fallback for a submission if and
  only if every body that wrote one had none in the whole history at its lookback (`Runs.FallbackIsUniqueExactly`).
- A submitter call that takes over the job of an unconfirmed one tracks new times while the job keeps the
  first ones, so recovery rebuilds the tracked entry exactly when the times agree
  (`Convergence.TakenOverEntryIsRefinedIffTimesAgree`).
- Redaction replaces what a sensitive key carries, but keeps the text under `credential_ref`;
  `Redaction.RedactionRevealsExactlyAgreement` says exactly what the output depends on.

## Model

| member | source | states |
|---|---|---|
| Runs.NoAckedTaskIsLost | src/tributo_broker_redis/runtime.py:388-772 | In every reachable state, an acknowledged delivery has a Ray job of its operation, a CANCELLED event in its stream, or was rejected, and then a FAILED event with the code of the rejection is in the stream of its channel and reported operation unless that publication raised before its effect; and it was acknowledged only once |
| Runs.AnswersAreInTheirStreams | src/tributo_broker_redis/runtime.py:388-753 | Over every run, a rejection whose publication took effect left FAILED with its code, and a confirmation ACCEPTED with its submission id, in the stream it was addressed to |
| Outcomes.RejectionIsReported | src/tributo_broker_redis/runtime.py:388-440 | Whatever is acknowledged with a code: FAILED with that code is the newest event under the operation of the envelope, or under one made of the delivery if it names none, unless the publication raised before its effect |
| Outcomes.FaultsAreAnsweredInOrder | src/tributo_broker_redis/runtime.py:445-550 | Past the cancellation check, the first fault of envelope, payload, parser, profile and preparer, in that order, decides the code; an exception of the parser or the preparer escapes |
| Outcomes.AcknowledgedExactlyOnAck | src/tributo_broker_redis/runtime.py:755-772 | A delivery becomes acknowledged exactly if handling it answers ACK and XACK takes effect, and nothing else is acknowledged meanwhile |
| Outcomes.QueuedCancellationIsExact | src/tributo_broker_redis/runtime.py:456-488 | A failed lookup of the marker retries; a marker for a tracked operation is left to the watcher; any other one is answered with CANCELLED or retried |
| Outcomes.SecondCancellationIsExact | src/tributo_broker_redis/runtime.py:565-593 | The same of the check right before submission, for an operation that nothing tracks |
| Outcomes.DifferentRequestIsRefused | src/tributo_broker_redis/runtime.py:280-307 | A delivery whose operation is tracked for another type, profile, run, attempt or digest, or without a digest on either side, is answered OPERATION_ALREADY_ACTIVE under any interference: this thread publishes, puts and removes nothing, and it stays unacknowledged |
| Outcomes.AcknowledgedResumptionIsOfTheSameRequest | src/tributo_broker_redis/runtime.py:290-307 | Conversely, a delivery of a tracked operation that is acknowledged agrees with the entry in all these fields |
| Outcomes.ResumptionIsExact | src/tributo_broker_redis/runtime.py:308-358 | For the same request: a visible terminal event acknowledges and untracks without a publication, a raising lookback escapes, and otherwise ACCEPTED with the tracked submission id decides between ACK and RETRY |
| Outcomes.SubmittedExactlyWhenInOrder | src/tributo_broker_redis/runtime.py:442-694 | Under any interference, the submitter is called if and only if both cancellation checks pass, envelope, payload, request and profile are in order, nothing tracks the operation, the times are usable and the driver input fits |
| Outcomes.PutIsTheEntryOfTheRequest | src/tributo_broker_redis/runtime.py:596-713 | What handling a delivery puts is the entry of its own request, field by field, with these times |
| Outcomes.DeadlineIsCut | src/tributo_broker_redis/runtime.py:599-603 | The deadline is the receipt plus the timeout in milliseconds, cut toward the receipt |
| Outcomes.EncodedDeliveryIsAnswered | src/tributo_broker_redis/runtime.py:624-642 | A driver input above the limit is rejected as DRIVER_INPUT_TOO_LARGE, one at the limit is submitted |
| Outcomes.UnusableTimesEscape | src/tributo_broker_redis/runtime.py:596-623 | A receipt that is no number, or a time before the epoch, lets an exception out before anything is submitted |
| Outcomes.SubmissionIsAnswered | src/tributo_broker_redis/runtime.py:643-753 | A submission is acknowledged if and only if the submitter and the publication of ACCEPTED both returned, and ACCEPTED with the new submission id is then the newest event |
| Runs.ActiveEntriesHaveJobs | src/tributo_broker_redis/runtime.py:187-278 | In every reachable state, every active entry has a Ray job that names its operation |
| Runs.SubmitsAndPutsFindNothingTracked | src/tributo_broker_redis/runtime.py:554-713 | Over every run, the submitter is called and an entry is put only while nothing tracks the operation, on either channel |
| Runs.TrackedOperationIsNotResubmitted | src/tributo_broker_redis/runtime.py:280-358 | From any safe state, while an entry is neither removed nor lost in a crash, no action submits or puts its operation again |
| Runs.RemovalsAreJustified | src/tributo_broker_redis/cancellation.py:140-210 | Over every run, a removal follows a terminal event, appended to the stream of the item that caused it and matching it |
| Continuity.RemovalFollowsOwnTerminalEvent | src/tributo_broker_redis/cancellation.py:140-210 | From any safe state in which an entry is tracked and nothing in the pass is stale for it: in every run without a crash, its removal and any resubmission of its operation come after a terminal event for it |
| Continuity.KeptExactlyWhenNothingIsStale | src/tributo_broker_redis/cancellation.py:46-48 | Nothing in the pass is stale for a tracked entry if and only if no run without a crash takes it away before a terminal event for it; a stale item always has a continuation that does |
| Continuity.StaleItemUntracks | src/tributo_broker_redis/cancellation.py:141-151 | From any state with a stale item, one event for that item and one body remove the live entry with nothing published for it |
| Continuity.CoversWithoutMatcher | src/tributo_broker_redis/cancellation.py:87-90 | Without a custom matcher an item is not stale if and only if it has the entry's stream and submission id |
| Continuity.OwnStopsDecide | src/tributo_broker_redis/cancellation.py:186-202 | For an entry admitted with its operation in neither request set and no other item of it in the pass: until its terminal event, every stop that counts was made for it, and the sets hold its operation exactly by such stops |
| Runs.StoppedVerdictIsExact | src/tributo_broker_redis/cancellation.py:157-193 | On STOPPED, over every run: EXECUTION_TIMEOUT if and only if a deadline stop returned, or the item timed out with neither marker nor marker stop; otherwise CANCELLED if and only if there was a marker or a marker stop; otherwise RAY_JOB_STOPPED |
| Runs.FinalVerdictIsExact | src/tributo_broker_redis/cancellation.py:157-180 | On SUCCEEDED or FAILED, over every run: FAILED, with EXECUTION_TIMEOUT under the same condition, otherwise RAY_JOB_FAILED if and only if the job failed and TERMINAL_EVENT_MISSING if and only if it succeeded |
| Runs.StopsAreWarranted | src/tributo_broker_redis/cancellation.py:154-202 | Over every run, a returned stop ascribed to the marker follows a read that saw it; one ascribed to the deadline follows a read that missed it and came when the deadline had passed |
| Runs.FirstCauseWins | src/tributo_broker_redis/cancellation.py:157-202 | On STOPPED, over every run: if the deadline caused the first stop, EXECUTION_TIMEOUT; if the marker caused it and was not deleted between that stop's read and this body's, CANCELLED |
| Runs.CancelledMeansStoppedOnRequest | src/tributo_broker_redis/cancellation.py:153-202 | The watcher writes CANCELLED only if Ray says STOPPED, then and ever after, and the marker was read or a marker-caused stop returned |
| Runs.FallbacksAgreeWithRay | src/tributo_broker_redis/cancellation.py:160-202 | Every fallback event in every stream agrees with the final status of its Ray job |
| Runs.FallbackIsUniqueExactly | src/tributo_broker_redis/cancellation.py:140-210 | Across ambiguous publications, crashes and restarts, a stream holds at most one fallback for a submission if and only if every body that wrote one had found none in the whole history |
| Runs.FallbackIsWrittenOnce | src/tributo_broker_redis/cancellation.py:62-91 | So a submission whose own writing bodies looked back in time has at most one fallback, whatever happens to other submissions and streams |
| Runs.MarkedDeliveryNeverReachesSubmitter | src/tributo_broker_redis/runtime.py:458-488 | A marker set before a delivery is handled, and not deleted from then until the gate is done, keeps it from the submitter even if the lookup or the publication raises |
| Runs.ReachableIsSafe | src/tributo_broker_redis/runtime.py:442-793 | Every state reachable by deliveries, watcher bodies, environment steps, crashes and recoveries in any order satisfies the whole invariant |
| Runs.RunSteps | src/tributo_broker_redis/runtime.py:187-793 | Every run of the code is an execution of the guarded atomic steps |
| Safety.NextIsSafe | src/tributo_broker_redis/cancellation.py:94-210 | Every guarded atomic step keeps all seventeen facts of the invariant |
| Safety.WritesExplainedKept | src/tributo_broker_redis/cancellation.py:144-202 | A step keeps, for each stream and submission, that a lookback which let a fallback be written saw an earlier one exactly if there was one |
| Safety.PutsBackedKept | src/tributo_broker_redis/runtime.py:643-713 | A step keeps that every entry put by recovery, or by a call that created its job, can be read back from its job's metadata |
| Safety.MarkersExplainedKept | src/tributo_broker_redis/cancellation.py:157-202 | A step keeps that a stop caused by a marker means the marker is still there or was deleted since that very read |
| Safety.SetsAreCausesKept | src/tributo_broker_redis/cancellation.py:186-202 | The two request sets stay exactly the causes of the stop calls that returned since they were emptied |
| Safety.OneLiveSubmissionKept | src/tributo_broker_redis/runtime.py:643-713 | A step keeps every operation from starting again before its entry ended |
| WatcherSteps.CheckItemSteps | src/tributo_broker_redis/cancellation.py:140-210 | One item's body, under any interference and faults, is a run of guarded atomic steps |
| AdmissionSteps.HandleSteps | src/tributo_broker_redis/runtime.py:442-753 | Handling a delivery is a run of guarded atomic steps, and an ACK leaves a job, a CANCELLED event or a rejection with its FAILED event behind |
| AdmissionSteps.ResumeSteps | src/tributo_broker_redis/runtime.py:280-358 | Resuming never submits, acknowledges only with a job behind it, and steps aside only when nothing tracks the operation |
| AdmissionSteps.SubmitSteps | src/tributo_broker_redis/runtime.py:643-752 | Submitting puts at most one entry, on an absent key and with a job behind it |
| Recovery.RecoverAllSteps | src/tributo_broker_redis/runtime.py:187-278 | Recovery under any interference and faults is a run of guarded atomic steps |
| Recovery.RecoverAllIsFirstLive | src/tributo_broker_redis/runtime.py:187-278 | The loop equals its declarative form: each operation keeps its entry or gets its first eligible job without a visible terminal event, and the loop is abandoned exactly when a reached lookback raises |
| Recovery.AbandonedRecoveryKeepsEntries | src/tributo_broker_redis/runtime.py:236-264 | Recovery that a raising lookback abandons, under any interference, keeps what it rebuilt so far and the entry it had put before that lookback |
| Recovery.RecoveryIgnoresOrder | src/tributo_broker_redis/runtime.py:187-278 | With at most one live entry per operation, the order of the listing does not matter |
| Recovery.RecoveryIsIdempotent | src/tributo_broker_redis/runtime.py:236-263 | Running recovery again changes nothing and does not raise |
| Recovery.CrashedEntryIsRebuilt | src/tributo_broker_redis/runtime.py:187-278 | After a crash, a tracked entry whose job is listed before any other live job of the operation is rebuilt, all but its Ray job id |
| Recovery.CrashedMapIsRebuilt | src/tributo_broker_redis/runtime.py:187-278 | When every entry survives and the listing shows no other live job, the whole map is rebuilt |
| Recovery.TakenOverEntryKeepsFirstTimes | src/tributo_broker_redis/runtime.py:676-713 | What is rebuilt for a taken-over job has the first call's times, and equals the tracked entry if and only if the times agree |
| Convergence.CrashIsRefined | src/tributo_broker_redis/runtime.py:187-278 | In every reachable state, a tracked entry that recovery put, or a call that created its job, is rebuilt after a crash, all but its Ray job id, if no terminal event is visible and no other live job is listed before its own |
| Convergence.CrashedMapIsRefined | src/tributo_broker_redis/runtime.py:187-278 | In every reachable state where this holds of every tracked entry and nothing else is live, the whole map is rebuilt |
| Jobs.AdmissibleIsRecoverable | src/tributo_broker_redis/runtime.py:596-713 | What handling admits passes the recovery filter if and only if its attempt, submission id, digest, entry point and task stream are not empty |
| Convergence.AdmittedJobKeepsMetadata | src/tributo_broker_redis/runtime.py:676-713 | In every reachable state, the job that an admitting call created still has the metadata of the entry that was put |
| Convergence.TakenOverEntryIsRefinedIffTimesAgree | src/tributo_broker_redis/runtime.py:596-713 | A call that takes over an earlier job tracks the new times, and a restart would rebuild its entry if and only if the times agree |
| Convergence.RedeliveryOfTracked | src/tributo_broker_redis/runtime.py:280-358 | A redelivery of a tracked operation never submits and is acknowledged exactly when the calls it depends on took effect |
| Convergence.RetriesConverge | src/tributo_broker_redis/runtime.py:280-358 | Over any number of undisturbed redeliveries with any pattern of failures, no submission, memory unchanged, and one acknowledgement if and only if some attempt succeeds |
| Convergence.RedeliveryUnderInterference | src/tributo_broker_redis/runtime.py:442-772 | Under any interference that leaves the operation tracked past the gate: no submission, and an acknowledgement exactly when the attempt reads the marker, finds the operation finished or confirms it, each call that takes returning |
| Convergence.RetriesConvergeUnderInterference | src/tributo_broker_redis/runtime.py:280-358 | Over any number of such redeliveries: nothing is submitted, and the delivery is acknowledged exactly once if some attempt settles it, and not at all otherwise |
| Convergence.SubmitPutsWhenItReturns | src/tributo_broker_redis/runtime.py:643-752 | Under any interference, submission calls the submitter once and puts the entry if and only if the call returned, whatever becomes of ACCEPTED |
| Convergence.HandleSubmitsOnce | src/tributo_broker_redis/runtime.py:442-753 | Under any interference, handling a delivery calls the submitter at most once and puts nothing without calling it |
| Convergence.AdmissionConvergesUnderInterference | src/tributo_broker_redis/runtime.py:442-772 | From the first returned submitter call over redeliveries under any interference that leaves the operation tracked: exactly one submission, and one acknowledgement if and only if some redelivery settles it |
| Convergence.VisibleTerminalEventAcknowledges | src/tributo_broker_redis/runtime.py:308-319 | Once a terminal event is visible, a redelivery whose calls take effect is acknowledged without a submission, and the entry leaves the map |
| Lookback.ScanLoop | src/tributo_broker_redis/cancellation.py:62-91 | The loop with early return answers what the first deciding entry of its window answers |
| Lookback.BoundedScanIsSound | src/tributo_broker_redis/cancellation.py:62-91 | The lookback finds an event only if a matching one was appended, is retained and is among the newest sixteen |
| Lookback.BoundedScanRefinesFullScan | src/tributo_broker_redis/cancellation.py:62-91 | The lookback agrees with the scan of the whole history if and only if the deciding entry is within the window or there is none |
| Lookback.FullScanDecidesPublication | src/tributo_broker_redis/cancellation.py:74-91 | Where no entry makes the scan raise, the full scan answers precisely whether a matching event was ever published |
| Lookback.VisibleFallbackIsNotMissed | src/tributo_broker_redis/cancellation.py:62-91 | A fallback that fewer than sixteen retained events follow is never missed |
| Lookback.OnlyTerminalTypesDecide | src/tributo_broker_redis/cancellation.py:74-91 | COMPLETED, FAILED and CANCELLED match for the submission they name or if the matcher accepts them; an unhashable type or a raising matcher makes the scan raise; no other event decides anything |
| Passes.CheckIsDecision | src/tributo_broker_redis/cancellation.py:140-210 | Without interference a body is one local decision followed by one local effect |
| Passes.PassIsPointwise | src/tributo_broker_redis/cancellation.py:140-210 | In a pass over separate items, each item ends as if it had been checked alone |
| Passes.PassOrderIsIrrelevant | src/tributo_broker_redis/cancellation.py:140-210 | Two orders of a snapshot, with the same outcome of each item's calls, end in the same state |
| Passes.PassSettlesUnderInterference | src/tributo_broker_redis/cancellation.py:140-210 | Whatever the environment and the other bodies do, an item whose body raised nothing stays removed, or its body found no terminal event and a non-terminal status |
| Passes.PassSettlesItems | src/tributo_broker_redis/cancellation.py:140-210 | Without interference, such an item is removed or has neither a visible terminal event nor a final status when the pass ends |
| Passes.StopIsRequestedExactly | src/tributo_broker_redis/cancellation.py:194-202 | Under any environment, Ray is asked to stop a running submission exactly if the marker is there or the deadline has passed, and who asked is recorded only if the call returned |
| Passes.FinalStatusIsReported | src/tributo_broker_redis/cancellation.py:160-193 | Under any environment, a body that reads a final status appends exactly one event with the kind and code these conditions give, and forgets the operation with its stop requests exactly if the publication returned |
| Passes.BodyWithoutReaction | src/tributo_broker_redis/cancellation.py:140-156 | A body that found a terminal event forgets the operation and its stop requests; one whose lookback, status or marker read raised changes nothing |
| Passes.SnapshotIsIndependent | src/tributo_broker_redis/cancellation.py:50-52 | The items of a snapshot share no operation, stream or submission, if different channels give different event streams |
| Limits.StaleSnapshotUntracksLiveSubmission | src/tributo_broker_redis/cancellation.py:46-48 | A run from a fresh start in which a stale item removes the live submission of a new attempt for which nothing was published |
| Limits.LeakedCauseBlamesNextSubmission | src/tributo_broker_redis/runtime.py:318-319 | A run in which a stop request that resuming left behind makes the submission of a new attempt a timeout before its deadline |
| Limits.LateLookbackWritesAgain | src/tributo_broker_redis/cancellation.py:62-91 | When the newest sixteen retained events decide nothing, a body that reads a final status adds one more fallback |
| Jobs.DecodeRebuildsEntry | src/tributo_broker_redis/runtime.py:191-262 | The recovery filter, applied to the metadata of a submission, rebuilds its entry, all but the Ray job id, if and only if every required identity is there, the channel is the operation's and no time is negative |
| Jobs.DecodedCarries | src/tributo_broker_redis/runtime.py:198-222 | An entry that recovery decodes is named by the job it was decoded from |
| Jobs.DecodeIsExact | src/tributo_broker_redis/runtime.py:191-262 | A listed job is taken if and only if its status is one of the five, every identity is a non-empty string, type and profile are known, entry point and task stream are this provider's, and the digest is absent or usable; and each field of the entry is what the metadata say |
| Jobs.TimesAreReadOrDropped | src/tributo_broker_redis/runtime.py:60-65 | A time is the number its text denotes, if that is not negative, and nothing otherwise |
| Decimal.ParsePrintInt | src/tributo_broker_redis/runtime.py:60-65 | Every integer survives `str` and `int`, which carry the times through the metadata |
| Provider.ActiveSubmissionMap.Put | src/tributo_broker_redis/cancellation.py:42-44 | Puts the entry under its operation and keeps the insertion order of the others |
| Provider.ActiveSubmissionMap.Remove | src/tributo_broker_redis/cancellation.py:46-48 | Removes and returns whatever entry the operation has |
| Provider.ActiveSubmissionMap.Snapshot | src/tributo_broker_redis/cancellation.py:50-52 | Every entry exactly once, in insertion order |
| Provider.CancelWatcher.TerminalEventPublished | src/tributo_broker_redis/cancellation.py:62-91 | The lookback over the stream as Redis holds it, raising when the read raises |
| Provider.CancelWatcher.CheckItem | src/tributo_broker_redis/cancellation.py:140-210 | Carries out one item's body on the map, the two sets and the backend |
| Provider.CancelWatcher.CheckOnce | src/tributo_broker_redis/cancellation.py:140-210 | Carries out the bodies for a snapshot of the map, each item once |
| Runtime.RedisBrokerRuntime.HandleDelivery | src/tributo_broker_redis/runtime.py:442-753 | Carries out the handling of a delivery under interference and faults |
| Runtime.RedisBrokerRuntime.ResumeExistingSubmission | src/tributo_broker_redis/runtime.py:280-358 | Carries out resumption: identity, lookback, and the repeated ACCEPTED |
| Runtime.RedisBrokerRuntime.SubmitAndTrack | src/tributo_broker_redis/runtime.py:643-752 | Carries out submission, tracking and the ACCEPTED event |
| Runtime.RedisBrokerRuntime.RejectInvalid | src/tributo_broker_redis/runtime.py:388-440 | Carries out a rejection: one publication of FAILED with the code, and an ACK whatever became of it |
| Runtime.RedisBrokerRuntime.Process | src/tributo_broker_redis/runtime.py:755-772 | Carries out one delivery from handling to its acknowledgement |
| Runtime.RedisBrokerRuntime.RecoverActiveSubmissions | src/tributo_broker_redis/runtime.py:187-278 | The loop over the listed jobs carries out recovery, abandoned by a raised lookback |
| Consumer.DeliveriesAreConserved | src/tributo_broker_redis/consumer.py:124-240 | In every lawful run entries partition into undelivered, pending and acknowledged; what is buffered or in hand is pending and distinct; the buffer is at most one page and is served in claim order |
| Consumer.ClaimedEntriesAreServedFirst | src/tributo_broker_redis/consumer.py:124-163 | In every reachable state a poll serves the next unserved claimed entry in claim order, and something new is delivered only when every claimed entry was served |
| Consumer.ReadHandsOutTheNextEntry | src/tributo_broker_redis/consumer.py:124-163 | A read with nothing buffered hands out the lowest entry not delivered yet, now pending, and nothing exactly if there is none |
| Consumer.DeliveredEntriesAreHandedOut | src/tributo_broker_redis/consumer.py:124-163 | Over every run, each delivered entry was delivered by a poll with nothing buffered that handed it out, or whose read timed out or raised |
| Consumer.FinishedEntryMoves | src/tributo_broker_redis/consumer.py:165-193 | The delivery in hand moves from pending to acknowledged if and only if it was acknowledged or rejected and XACK took effect |
| Consumer.ClaimedPageIsBuffered | src/tributo_broker_redis/consumer.py:195-240 | A claim buffers the page in order and moves the cursor exactly if nothing was buffered and the call returned a page |
| Consumer.SweepCoversPendingEntry | src/tributo_broker_redis/consumer.py:195-240 | In every sweep, an entry at position p of the pending list, eligible until it is claimed, is buffered within floor(p / claim_count) + 1 pages of the sweep's start, and never twice in one sweep |
| Consumer.RedisTaskConsumer.PollOnce | src/tributo_broker_redis/consumer.py:124-163 | Carries out a poll on the buffer and the stream, with timeouts and raises that may have delivered |
| Consumer.RedisTaskConsumer.RecoverPendingOnce | src/tributo_broker_redis/consumer.py:195-240 | Claims one page only when the buffer is empty, and moves the cursor only with a usable page |
| Scheduler.TurnIsFair | src/tributo_broker_redis/runtime.py:774-793 | A turn serves the first ready channel, reports nothing if and only if every poll came back empty, and brings a passed-over ready channel strictly closer |
| Scheduler.ReadyChannelIsServed | src/tributo_broker_redis/runtime.py:774-793 | A channel that always has a message is served within as many turns as its distance plus one, and so within N turns |
| Scheduler.TurnAdvancesExactly | src/tributo_broker_redis/runtime.py:774-793 | A turn serves the first non-empty channel exactly if its poll, the handling and a due XACK return, and only then does the next turn start right behind it |
| Scheduler.TurnFinishesWhatItPolled | src/tributo_broker_redis/runtime.py:755-793 | A turn leaves the channels behind the first ready one untouched; the message of that one ends acknowledged if and only if its outcome was ACK or REJECT and XACK took effect, and pending otherwise |
| Scheduler.DueTurnClaimsForEveryChannel | src/tributo_broker_redis/runtime.py:170-185 | A due turn claims a page for every channel with nothing buffered whose call returned one, whatever the others' calls do, and no other turn claims |
| Scheduler.RoundRobin.RunOnce | src/tributo_broker_redis/runtime.py:774-793 | Carries out pending recovery if it is due and then the turn: channels before the served one were polled in vain, the others not touched, and `_next_channel` moves only if nothing raised |
| Scheduler.RoundRobin.RecoverPendingPages | src/tributo_broker_redis/runtime.py:170-185 | At most once per interval, one page per channel, a raise on one channel not keeping the others from theirs |
| Driver.NonterminalFailuresDoNotInterfere | src/tributo_broker_redis/execution_driver.py:90-257 | Any two schedules of nonterminal failures give the same terminal attempts and the same exit |
| Driver.DriverLogShape | src/tributo_broker_redis/execution_driver.py:100-257 | Every log is nonterminal attempts, each event tried at most twice, then one terminal attempt, and a second, FAILED one only if the first raised; exit 0 if and only if COMPLETED was published and the client closed |
| Driver.ConclusionIsExact | src/tributo_broker_redis/execution_driver.py:128-254 | In the calls of the workload alone: COMPLETED is attempted if and only if all of them return and succeed; otherwise the first terminal attempt is FAILED with the code of the call that failed; a second one is made exactly if the first raised inside the workload, with the code for that |
| Driver.ExitIsExact | src/tributo_broker_redis/execution_driver.py:229-257 | Exit 0 if and only if the workload succeeds, COMPLETED is published at once and the client closes; an exception leaves the process if and only if the last publication or the closing raised; unloadable input publishes nothing |
| Driver.EventsAreExact | src/tributo_broker_redis/execution_driver.py:128-215 | The events a log announces are the listed ones in order, up to the call that failed, whatever is retried, dropped or concluded |
| Driver.RetriesAreExact | src/tributo_broker_redis/execution_driver.py:100-125 | Each announced event is tried a second time exactly if its first try raised |
| Driver.ExecutionDriver.PublishNonterminal | src/tributo_broker_redis/execution_driver.py:100-125 | At most two tries, and never an exception |
| Driver.ExecutionDriver.Run | src/tributo_broker_redis/execution_driver.py:229-257 | The attempts and the exit of `main` are those the workload, the schedule and the terminal outcomes determine |
| Driver.ExecutionDriver.RunTraining | src/tributo_broker_redis/execution_driver.py:128-169 | The events of a training workload and how it ends |
| Driver.ExecutionDriver.RunBatchInference | src/tributo_broker_redis/execution_driver.py:172-226 | The events of an inference workload and how it ends |
| Credentials.FirstPathIsFirstOffence | src/tributo_broker_redis/protocol.py:130-160 | On every tree the walk reports nothing if and only if no position offends, and otherwise the first offending position in pre-order |
| Credentials.RenderedReferenceIsRootField | src/tributo_broker_redis/protocol.py:133-141 | The path text equals "spec.credential_ref" if and only if the position is the root's own field of that name |
| Credentials.QueryKeyIsFirst | src/tributo_broker_redis/protocol.py:157-159 | Of a URL's query, the first sensitive key with a value is reported |
| Credentials.UrlReportIsExact | src/tributo_broker_redis/protocol.py:150-160 | For a URL that offends, the report is its path if it has a user, and otherwise the path with the first sensitive query key that has a value |
| Json.PreOrderIsTotal | src/tributo_broker_redis/protocol.py:131-149 | Pre-order is a strict total order on positions, so the first offence is unique |
| RequestParser.AcceptedExactlyWhenCleanAndAligned | src/tributo_broker_redis/protocol.py:163-207 | A request is accepted if and only if profile and version are right, no position of its spec offends, the schema accepts it, and its identity and type are the envelope's |
| RequestParser.RefusedExactlyWhenLeaking | src/tributo_broker_redis/protocol.py:177-191 | PLAINTEXT_CREDENTIAL is the answer if and only if the text is recognised and some position of its spec offends |
| RequestParser.RefusalsAreExact | src/tributo_broker_redis/protocol.py:163-207 | Each other code is the answer if and only if its check is the first of the six, in order, that fails |
| RequestParser.ParserIsAligned | src/tributo_broker_redis/protocol.py:198-207 | The parser keeps the promise on which admission relies: the payload identity is the envelope's |
| RequestParser.LeakedCredentialNeverReachesSubmitter | src/tributo_broker_redis/runtime.py:489-532 | A delivery whose spec leaks a credential never reaches the submitter, whatever raises and whatever other threads do |
| Redaction.RedactTree | src/tributo_broker_redis/reporter.py:19-33 | The loops over a dictionary and a list compute the redaction |
| Redaction.RedactedIsClean | src/tributo_broker_redis/reporter.py:19-33 | At every depth of the result: no tuple, text under `credential_ref`, the mask under every other sensitive key |
| Redaction.FixedIffClean | src/tributo_broker_redis/reporter.py:19-33 | Redaction leaves exactly the clean trees as they are |
| Redaction.RedactIsIdempotent | src/tributo_broker_redis/reporter.py:19-33 | Redacting twice is redacting once |
| Redaction.RedactionRevealsExactlyAgreement | src/tributo_broker_redis/reporter.py:19-33 | Two trees have the same redaction if and only if they agree outside what sensitive keys carry, up to tuples and lists |
| Redaction.OpenPositionsArePreserved | src/tributo_broker_redis/reporter.py:19-33 | Every node reached without crossing a sensitive key or `credential_ref` stays where it is, redacted itself |

## Left out

- Recovery.RecoverAllIsFirstLive: the declarative form is for lookbacks that no environment step precedes; under interference recovery is covered by RecoverAllSteps.
- Runs.ResubmissionFollowsTerminalEvent: says of entries admitted while a stale item was in the pass only that they were removed before a resubmission; when a terminal event is promised is exactly Continuity.KeptExactlyWhenNothingIsStale.
- Continuity.KeptExactlyWhenNothingIsStale: assumes of the matcher that it does not read who wrote an event, which is no part of an event's payload.
- Consumer.DeliveriesAreConserved: one provider process; another consumer of the group may claim buffered entries.
- Consumer.SweepCoversPendingEntry: pages with deleted entries, and clients that lack XAUTOCLAIM, are not modelled.
- Exactly one terminal event per submission: the watcher and the driver can race (docs/operations.md), so only the watcher's own fallbacks are counted.
- Redis and Ray clients, Sentinel discovery, credentials, environment and mount files, command line, signals and logging: input and output over libraries.
- Provider.CancelWatcher.TerminalEventPublished: a client without XREVRANGE, for which the lookback answers that nothing was found, is not modelled.
- Locks, thread scheduling, `close` and `join`: the watcher appears as interleaved atomic bodies.
- The schema in config.py and protocol.py and the profile checks in operations.py: the parser's schema and the preparer are arbitrary functions.
- The regular expressions, URL splitting and JSON decoding: arbitrary predicates and functions; JSON objects have string keys.
- Submission ids, event ids, timestamps inside events and JSON text of events: an event is its type, submission id, code and writer, and a publication that is too large raises before its effect.
- base64 and `driver_transport`: only the size of the encoded driver input matters.
- `int` of a string: digits and spaces beyond ASCII and the length limit of the conversion are not modelled, and metadata times that are not strings count as missing.
- Floating point: a timeout is a real number, truncated toward zero after the multiplication by 1000.
- Job metadata with a null value: a null digest counts as a present one that is no string; Ray's metadata are strings.
- Entry ids of a task stream: entries are numbered in stream order, and zero stands for the cursor at the end.
