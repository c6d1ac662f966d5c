/** The three parties as one state: what Redis and Ray keep, what the provider process holds in
    memory, and a ghost trace of the observable calls. Every external call takes a `Fault`: it
    returns, raises before taking effect, or raises after taking effect. */
module World {
  import opened Wrappers
  import opened Domain
  import opened Lookback

  // ---------------------------------------------------------------- Ray

  datatype RayStatus = Pending | Running | Succeeded | Failed | Stopped | OtherStatus

  predicate IsFinal(s: RayStatus) {
    s == Succeeded || s == Failed || s == Stopped
  }

  /** The "tributo.*" metadata keys of a Ray job. */
  datatype MetaKey =
    | OperationIdKey | OperationTypeKey | ProfileKey | RunIdKey | AttemptIdKey
    | EntrypointKey | TaskStreamKey | ReceivedAtKey | DeadlineKey | DigestKey | ForeignKey(name: string)

  datatype MetaValue = Text(text: string) | NotText

  type Metadata = map<MetaKey, MetaValue>

  /** `metadata` is None when Ray reports something that is not a mapping. */
  datatype Job = Job(metadata: Option<Metadata>, rayJobId: Option<string>, status: RayStatus)

  predicate Carries(j: Job, operationId: string) {
    && j.metadata.Some?
    && OperationIdKey in j.metadata.value
    && j.metadata.value[OperationIdKey] == Text(operationId)
  }

  // ---------------------------------------------------------------- durable state

  /** A delivery is an entry of one task stream. */
  datatype Delivery = Delivery(operationType: OperationType, token: string)

  /** `markers` are the cancel keys that exist; `cleared` counts how often each was deleted.
      `stopping` are the submissions Ray was asked to stop. */
  datatype World = World(
    streams: map<string, Stream>, markers: set<string>, cleared: multiset<string>,
    jobs: map<string, Job>, stopping: set<string>, acked: set<Delivery>)

  function StreamAt(w: World, key: string): Stream {
    if key in w.streams then w.streams[key] else Stream([], 0)
  }

  function Append(w: World, key: string, e: Entry): World {
    var s := StreamAt(w, key);
    w.(streams := w.streams[key := Stream(s.history + [e], s.dropped)])
  }

  function Publish(w: World, key: string, e: Entry, fault: Fault): World {
    if fault == RaiseBefore then w else Append(w, key, e)
  }

  // ---------------------------------------------------------------- the environment

  /** What the outside world may do between any two calls of the provider. */
  datatype EnvStep =
    | Write(key: string, entry: Entry)
    | Trim(key: string, count: nat)
    | SetMarker(key: string)
    | ClearMarker(key: string)
    | RayProgress(submissionId: string, status: RayStatus)
    | ForeignJob(submissionId: string, job: Job)

  function EnvApply(w: World, e: EnvStep): World {
    match e
    case Write(key, entry) =>
      if entry.Event? && entry.writer == ByWatcher then w else Append(w, key, entry)
    case Trim(key, count) =>
      var s := StreamAt(w, key);
      w.(streams := w.streams[key := Stream(s.history, s.dropped + Min(count, Retained(s)))])
    case SetMarker(key) => w.(markers := w.markers + {key})
    case ClearMarker(key) =>
      if key in w.markers then w.(markers := w.markers - {key}, cleared := w.cleared + multiset{key}) else w
    case RayProgress(sid, status) =>
      if sid in w.jobs && !IsFinal(w.jobs[sid].status)
      then w.(jobs := w.jobs[sid := w.jobs[sid].(status := status)])
      else w
    case ForeignJob(sid, job) =>
      if sid in w.jobs then w else w.(jobs := w.jobs[sid := job])
  }

  function EnvAll(w: World, steps: seq<EnvStep>): World {
    if steps == [] then w
    else EnvApply(EnvAll(w, steps[..|steps| - 1]), steps[|steps| - 1])
  }

  lemma EnvOne(w: World, e: EnvStep)
    ensures EnvAll(w, [e]) == EnvApply(w, e)
  {
    assert [e][..0] == [];
  }

  /** The guarantees that hold between any two moments, whoever acted, except that the watcher
      wrote nothing and nothing was acknowledged in between. */
  ghost predicate Extends(w: World, w': World) {
    && (forall k :: StreamAt(w, k).history <= StreamAt(w', k).history)
    && (forall k, i :: |StreamAt(w, k).history| <= i < |StreamAt(w', k).history| ==>
                         !FromWatcher(StreamAt(w', k).history[i]))
    && (forall k :: MarkerKept(w, w', k))
    && (forall sid :: sid in w.jobs ==> sid in w'.jobs && SameJob(w.jobs[sid], w'.jobs[sid]))
    && w.stopping <= w'.stopping
    && w'.acked == w.acked
  }

  function Deletions(w: World, key: string): nat {
    w.cleared[key]
  }

  /** Deletions are never forgotten, and a marker that was not deleted is still there. */
  predicate MarkerKept(w: World, w': World, key: string) {
    && Deletions(w, key) <= Deletions(w', key)
    && (key in w.markers && Deletions(w, key) == Deletions(w', key) ==> key in w'.markers)
  }

  predicate FromWatcher(e: Entry) {
    e.Event? && e.writer == ByWatcher
  }

  /** Ray keeps a job's metadata, and a final status is final. */
  predicate SameJob(j: Job, j': Job) {
    && j'.metadata == j.metadata
    && (IsFinal(j.status) ==> j'.status == j.status)
  }

  lemma ExtendsIsTransitive(a: World, b: World, c: World)
    requires Extends(a, b) && Extends(b, c)
    ensures Extends(a, c)
  {
    forall k ensures StreamAt(a, k).history <= StreamAt(c, k).history {
      assert StreamAt(a, k).history <= StreamAt(b, k).history <= StreamAt(c, k).history;
    }
    forall k, i | |StreamAt(a, k).history| <= i < |StreamAt(c, k).history|
      ensures !FromWatcher(StreamAt(c, k).history[i])
    {
      assert StreamAt(b, k).history <= StreamAt(c, k).history;
      if i < |StreamAt(b, k).history| {
        assert StreamAt(c, k).history[i] == StreamAt(b, k).history[i];
      }
    }
    forall k ensures MarkerKept(a, c, k) {
      assert MarkerKept(a, b, k) && MarkerKept(b, c, k);
    }
    forall sid | sid in a.jobs ensures sid in c.jobs && SameJob(a.jobs[sid], c.jobs[sid]) {
      assert sid in b.jobs;
    }
  }

  lemma AppendExtends(w: World, key: string, e: Entry)
    requires !FromWatcher(e)
    ensures Extends(w, Append(w, key, e))
  {
  }

  lemma EnvApplyExtends(w: World, e: EnvStep)
    ensures Extends(w, EnvApply(w, e))
  {
    if e.Write? {
      if !FromWatcher(e.entry) {
        AppendExtends(w, e.key, e.entry);
      }
    }
  }

  lemma {:induction false} EnvAllExtends(w: World, steps: seq<EnvStep>)
    ensures Extends(w, EnvAll(w, steps))
  {
    if steps != [] {
      var front := EnvAll(w, steps[..|steps| - 1]);
      EnvAllExtends(w, steps[..|steps| - 1]);
      EnvApplyExtends(front, steps[|steps| - 1]);
      ExtendsIsTransitive(w, front, EnvAll(w, steps));
    }
  }

  // ---------------------------------------------------------------- volatile memory and trace

  /** What a crash loses: the active map, the watcher's two sets and the rest of its pass. */
  datatype Memory = Memory(
    active: map<string, ActiveSubmission>, stopRequested: set<string>, timeoutRequested: set<string>,
    pass: seq<ActiveSubmission>)

  const EMPTY_MEMORY := Memory(map[], {}, {}, [])

  datatype StopCause = ByMarker | ByDeadline

  /** Who puts an entry: restart recovery, or a submitter call that returned, which may have created
      the job or taken over one that existed. */
  datatype Origin = FromListing | FromCall(createdJob: bool)

  /** One observable call. `Looked` records how far the newest fallback for the submission was from
      the end of the stream, and how much the stream retained; `deletions` is how often the marker had
      been deleted when it was read. */
  datatype Obs =
    | SubmitCalled(operationId: string, tracked: Option<ActiveSubmission>)
    | Put(entry: ActiveSubmission, displaced: Option<ActiveSubmission>, origin: Origin)
    | Removed(entry: ActiveSubmission, item: ActiveSubmission)
    | Looked(item: ActiveSubmission, after: Option<nat>, retained: nat)
    | MarkerRead(item: ActiveSubmission, present: bool, deletions: nat)
    | StopReturned(item: ActiveSubmission, cause: StopCause, deletions: nat, nowMs: int)
    | Wrote(item: ActiveSubmission, status: RayStatus, present: bool, nowMs: int, kind: string, code: string)
    | Discarded(operationId: string)
    | AcceptedReturned(delivery: Delivery, operationId: string, submissionId: string)
    | MarkerSeen(delivery: Delivery)
    | TerminalSeen(delivery: Delivery, submissionId: string)
    | RejectionAttempted(delivery: Delivery, operationId: string, code: string, fault: Fault)
    | XAcked(delivery: Delivery, operationId: string)
    | Crashed

  datatype Sys = Sys(world: World, mem: Memory, trace: seq<Obs>)

  function Note(s: Sys, o: Obs): Sys {
    s.(trace := s.trace + [o])
  }

  function Env(s: Sys, steps: seq<EnvStep>): Sys {
    s.(world := EnvAll(s.world, steps))
  }

  function Tracked(s: Sys, operationId: string): Option<ActiveSubmission> {
    if operationId in s.mem.active then Some(s.mem.active[operationId]) else None
  }

  function PutActive(s: Sys, e: ActiveSubmission, origin: Origin): Sys {
    Note(s.(mem := s.mem.(active := s.mem.active[e.operationId := e])),
         Put(e, Tracked(s, e.operationId), origin))
  }

  /** `active.remove(item.operation_id)`: keyed by operation, whatever entry is there now. */
  function RemoveActive(s: Sys, item: ActiveSubmission): Sys {
    match Tracked(s, item.operationId)
    case None => s
    case Some(entry) =>
      Note(s.(mem := s.mem.(active := s.mem.active - {item.operationId})), Removed(entry, item))
  }

  function DiscardRequests(s: Sys, operationId: string): Sys {
    Note(s.(mem := s.mem.(stopRequested := s.mem.stopRequested - {operationId},
                          timeoutRequested := s.mem.timeoutRequested - {operationId})),
         Discarded(operationId))
  }
}
