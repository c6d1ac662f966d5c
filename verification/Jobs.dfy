/** The Ray job metadata written at admission and the filter that reads it back after a restart. */
module Jobs {
  import opened Wrappers
  import opened Domain
  import opened World
  import opened Decimal

  function TypeName(t: OperationType): string {
    if t == Training then "training" else "batch_inference"
  }

  function ProfileName(p: ExecutionProfile): string {
    if p == SingleWorker then "single_worker" else "distributed"
  }

  function ParseType(s: string): Option<OperationType> {
    if s == "training" then Some(Training) else if s == "batch_inference" then Some(BatchInference) else None
  }

  function ParseProfile(s: string): Option<ExecutionProfile> {
    if s == "single_worker" then Some(SingleWorker) else if s == "distributed" then Some(Distributed) else None
  }

  /** The metadata passed to the submitter; the request digest is added by the submitter itself. */
  function MetadataFor(entrypoint: string, taskStream: string, operationId: string, t: OperationType,
                       p: ExecutionProfile, runId: string, attemptId: string,
                       receivedAtMs: int, deadlineAtMs: Option<int>, digest: Option<string>): Metadata
  {
    var base := map[OperationIdKey := Text(operationId),
                    OperationTypeKey := Text(TypeName(t)),
                    ProfileKey := Text(ProfileName(p)),
                    RunIdKey := Text(runId),
                    AttemptIdKey := Text(attemptId),
                    EntrypointKey := Text(entrypoint),
                    TaskStreamKey := Text(taskStream),
                    ReceivedAtKey := Text(PrintInt(receivedAtMs))];
    var timed := if deadlineAtMs.Some? then base[DeadlineKey := Text(PrintInt(deadlineAtMs.value))] else base;
    if digest.Some? then timed[DigestKey := Text(digest.value)] else timed
  }

  /** What a job listing shows of one job. */
  datatype JobView = JobView(submissionId: Option<string>, rayJobId: Option<string>, status: RayStatus,
                             metadata: Option<Metadata>)

  /** A metadata value that is a non-empty string. */
  function RequiredText(md: Metadata, key: MetaKey): Option<string> {
    if key in md && md[key].Text? && md[key].text != "" then Some(md[key].text) else None
  }

  /** `_metadata_milliseconds`: a non-negative integer, or nothing. */
  function Milliseconds(md: Metadata, key: MetaKey): Option<int> {
    if key in md && md[key].Text? then
      match ParseInt(md[key].text)
      case Some(n) => if n >= 0 then Some(n) else None
      case None => None
    else None
  }

  function NonEmpty(s: Option<string>): Option<string> {
    if s == Some("") then None else s
  }

  predicate DigestAcceptable(md: Metadata) {
    DigestKey in md ==> md[DigestKey].Text? && md[DigestKey].text != ""
  }

  /** The filter of the recovery loop: the active entry a listed job stands for, if it is eligible. */
  function Decode(c: Channels, entrypoint: string, v: JobView): Option<ActiveSubmission> {
    if v.status == OtherStatus || v.metadata.None? then None
    else
      var md := v.metadata.value;
      var operationId, typeText, profileText := RequiredText(md, OperationIdKey), RequiredText(md,
                                                             OperationTypeKey), RequiredText(md, ProfileKey);
      var runId, attemptId := RequiredText(md, RunIdKey), RequiredText(md, AttemptIdKey);
      var driver, taskStream, sid := RequiredText(md, EntrypointKey), RequiredText(md,
                                                  TaskStreamKey), NonEmpty(v.submissionId);
      if operationId.None? || typeText.None? || profileText.None? || runId.None? || attemptId.None?
         || driver.None? || taskStream.None? || sid.None? then None
      else
        var t, p := ParseType(typeText.value), ParseProfile(profileText.value);
        if t.None? || p.None? || driver.value != entrypoint || taskStream.value != c.For(t.value).taskStream
           || !DigestAcceptable(md) then None
        else
          var digest := if DigestKey in md then Some(md[DigestKey].text) else None;
          Some(ActiveSubmission(
                 operationId.value, t.value, p.value, runId.value, c.For(t.value),
                 Submission(runId.value, attemptId.value, sid.value, NonEmpty(v.rayJobId), digest),
                 Milliseconds(md, ReceivedAtKey), Milliseconds(md, DeadlineKey)))
  }

  /** The metadata of the job behind an entry that was admitted with these times. */
  function MetadataOf(entrypoint: string, e: ActiveSubmission): Metadata
    requires e.receivedAtMs.Some?
  {
    MetadataFor(entrypoint, e.channel.taskStream, e.operationId, e.operationType, e.profile, e.runId,
                e.submission.attemptId, e.receivedAtMs.value, e.deadlineAtMs, e.submission.requestDigest)
  }

  /** Every identity the filter demands is there, and the times are not negative. */
  predicate Recoverable(c: Channels, entrypoint: string, e: ActiveSubmission) {
    && e.operationId != "" && e.runId != "" && e.submission.attemptId != "" && e.SubmissionId() != ""
    && entrypoint != "" && e.channel.taskStream != "" && e.channel == c.For(e.operationType)
    && e.submission.runId == e.runId && e.submission.requestDigest != Some("")
    && e.receivedAtMs.Some? && e.receivedAtMs.value >= 0
    && (e.deadlineAtMs.Some? ==> e.deadlineAtMs.value >= 0)
  }

  function WithRayJobId(e: ActiveSubmission, rayJobId: Option<string>): ActiveSubmission {
    e.(submission := e.submission.(rayJobId := NonEmpty(rayJobId)))
  }

  /** Reading back the metadata of an entry rebuilds the entry, except for the Ray job id, exactly when
      the entry is recoverable. */
  lemma DecodeRebuildsEntry(c: Channels, entrypoint: string, e: ActiveSubmission, v: JobView)
    requires e.receivedAtMs.Some?
    requires v.status != OtherStatus && v.submissionId == Some(e.SubmissionId())
    requires v.metadata == Some(MetadataOf(entrypoint, e))
    ensures Decode(c, entrypoint, v) == Some(WithRayJobId(e, v.rayJobId)) <==> Recoverable(c, entrypoint, e)
  {
    var md := v.metadata.value;
    MetadataLookups(entrypoint, e);
    TimeLookups(entrypoint, e);
    assert Milliseconds(md, ReceivedAtKey) == e.receivedAtMs <==> e.receivedAtMs.value >= 0;
    assert Milliseconds(md, DeadlineKey) == e.deadlineAtMs <==> (e.deadlineAtMs.Some? ==> e.deadlineAtMs.value >= 0);
    if Decode(c, entrypoint, v).Some? {
      var d := Decode(c, entrypoint, v).value;
      assert d.channel == c.For(e.operationType);
      assert d.submission.runId == e.runId;
    }
  }

  lemma MetadataLookups(entrypoint: string, e: ActiveSubmission)
    requires e.receivedAtMs.Some?
    ensures var md := MetadataOf(entrypoint, e);
            && RequiredText(md, OperationIdKey) == NonEmpty(Some(e.operationId))
            && RequiredText(md, OperationTypeKey) == Some(TypeName(e.operationType))
            && RequiredText(md, ProfileKey) == Some(ProfileName(e.profile))
            && RequiredText(md, RunIdKey) == NonEmpty(Some(e.runId))
            && RequiredText(md, AttemptIdKey) == NonEmpty(Some(e.submission.attemptId))
            && RequiredText(md, EntrypointKey) == NonEmpty(Some(entrypoint))
            && RequiredText(md, TaskStreamKey) == NonEmpty(Some(e.channel.taskStream))
            && (DigestKey in md <==> e.submission.requestDigest.Some?)
            && (DigestKey in md ==> md[DigestKey] == Text(e.submission.requestDigest.value))
    ensures ParseType(TypeName(e.operationType)) == Some(e.operationType)
    ensures ParseProfile(ProfileName(e.profile)) == Some(e.profile)
  {
    assert TypeName(e.operationType) != "" && ProfileName(e.profile) != "";
  }

  lemma TimeLookups(entrypoint: string, e: ActiveSubmission)
    requires e.receivedAtMs.Some?
    ensures var md := MetadataOf(entrypoint, e);
            && Milliseconds(md, ReceivedAtKey) == NonNegative(e.receivedAtMs)
            && Milliseconds(md, DeadlineKey) == NonNegative(e.deadlineAtMs)
  {
    var md := MetadataOf(entrypoint, e);
    ParsePrintInt(e.receivedAtMs.value);
    assert md[ReceivedAtKey] == Text(PrintInt(e.receivedAtMs.value));
    if e.deadlineAtMs.Some? {
      ParsePrintInt(e.deadlineAtMs.value);
      assert md[DeadlineKey] == Text(PrintInt(e.deadlineAtMs.value));
    }
  }

  function NonNegative(n: Option<int>): Option<int> {
    if n.Some? && n.value < 0 then None else n
  }

  /** A decoded entry names its own job's operation. */
  lemma DecodedCarries(c: Channels, entrypoint: string, v: JobView, j: Job)
    requires Decode(c, entrypoint, v).Some? && v.metadata == j.metadata
    ensures v.submissionId == Some(Decode(c, entrypoint, v).value.SubmissionId())
    ensures Carries(j, Decode(c, entrypoint, v).value.operationId)
  {
  }

  ghost predicate JobCarries(w: World, sid: string, md: Metadata) {
    sid in w.jobs && w.jobs[sid].metadata == Some(md)
  }

  /** Whatever the job's status is later, recovery reads this entry back from its metadata. */
  ghost predicate DecodesTo(c: Channels, entrypoint: string, w: World, e: ActiveSubmission) {
    && e.SubmissionId() in w.jobs
    && Decode(c, entrypoint, JobView(Some(e.SubmissionId()), None, Pending, w.jobs[e.SubmissionId()].metadata))
       == Some(WithRayJobId(e, None))
  }

  /** Decoding depends on the status and the Ray job id of a listed job only as far as it must. */
  lemma DecodeIgnoresProgress(c: Channels, entrypoint: string, v: JobView, v': JobView)
    requires v.status != OtherStatus && v'.status != OtherStatus
    requires v.submissionId == v'.submissionId && v.metadata == v'.metadata
    ensures Decode(c, entrypoint, v).Some? <==> Decode(c, entrypoint, v').Some?
    ensures Decode(c, entrypoint, v).Some? ==>
              Decode(c, entrypoint, v') == Some(WithRayJobId(Decode(c, entrypoint, v).value, v'.rayJobId))
  {
  }

  /** What handling a delivery gives every entry it admits. */
  predicate Admissible(c: Channels, e: ActiveSubmission) {
    && e.operationId != "" && e.runId != "" && e.submission.runId == e.runId && e.channel == c.For(e.operationType)
    && e.receivedAtMs.Some? && e.receivedAtMs.value >= 0
    && (e.deadlineAtMs.Some? ==> e.deadlineAtMs.value >= 0)
  }

  /** What is left to the request, the submitter and the configuration. */
  predicate Identified(entrypoint: string, e: ActiveSubmission) {
    && e.submission.attemptId != "" && e.SubmissionId() != "" && e.submission.requestDigest != Some("")
    && entrypoint != "" && e.channel.taskStream != ""
  }

  lemma AdmissibleIsRecoverable(c: Channels, entrypoint: string, e: ActiveSubmission)
    requires Admissible(c, e)
    ensures Recoverable(c, entrypoint, e) <==> Identified(entrypoint, e)
  {
  }

  /** The metadata that a call wrote from an identified entry read back as that entry. */
  lemma CarriedDecodes(c: Channels, entrypoint: string, w: World, e: ActiveSubmission)
    requires Admissible(c, e) && Identified(entrypoint, e)
    requires JobCarries(w, e.SubmissionId(), MetadataOf(entrypoint, e))
    ensures DecodesTo(c, entrypoint, w, e)
  {
    DecodeRebuildsEntry(c, entrypoint, e,
                        JobView(Some(e.SubmissionId()), None, Pending, w.jobs[e.SubmissionId()].metadata));
  }

  /** The metadata hold a non-empty text under this key. */
  predicate Holds(md: Metadata, key: MetaKey) {
    key in md && md[key].Text? && md[key].text != ""
  }

  /** Exactly which listed jobs recovery takes: those in one of Ray's five states whose metadata name every
      identity, a known type and profile, this provider's entry point and the task stream of the type's
      channel, with a submission id and no unusable digest; and which entry each stands for. */
  lemma DecodeIsExact(c: Channels, entrypoint: string, v: JobView)
    ensures Decode(c, entrypoint, v).Some? <==> Takes(c, entrypoint, v)
    ensures Takes(c, entrypoint, v) ==>
              var md, e := v.metadata.value, Decode(c, entrypoint, v).value;
              && md[OperationIdKey] == Text(e.operationId) && md[RunIdKey] == Text(e.runId)
              && md[RunIdKey] == Text(e.submission.runId) && md[AttemptIdKey] == Text(e.submission.attemptId)
              && v.submissionId == Some(e.SubmissionId())
              && e.submission.rayJobId == (if v.rayJobId == Some("") then None else v.rayJobId)
              && (e.operationType == Training <==> md[OperationTypeKey] == Text("training"))
              && (e.profile == SingleWorker <==> md[ProfileKey] == Text("single_worker"))
              && e.channel == (if e.operationType == Training then c.training else c.batchInference)
              && e.submission.requestDigest == (if DigestKey in md then Some(md[DigestKey].text) else None)
  {
    assert "training" != "batch_inference" && "single_worker" != "distributed";
  }

  predicate Takes(c: Channels, entrypoint: string, v: JobView) {
    && (v.status == Pending || v.status == Running || v.status == Succeeded || v.status == Failed
        || v.status == Stopped)
    && v.submissionId.Some? && v.submissionId.value != ""
    && v.metadata.Some?
    && var md := v.metadata.value;
    && Holds(md, OperationIdKey) && Holds(md, RunIdKey) && Holds(md, AttemptIdKey)
    && Holds(md, EntrypointKey) && md[EntrypointKey].text == entrypoint
    && Holds(md, ProfileKey) && (md[ProfileKey].text == "single_worker" || md[ProfileKey].text == "distributed")
    && Holds(md, OperationTypeKey) && Holds(md, TaskStreamKey)
    && ((md[OperationTypeKey].text == "training" && md[TaskStreamKey].text == c.training.taskStream)
        || (md[OperationTypeKey].text == "batch_inference" && md[TaskStreamKey].text == c.batchInference.taskStream))
    && (DigestKey in md ==> Holds(md, DigestKey))
  }

  /** What the times of a listed job become: a number that is not negative, or nothing. */
  lemma TimesAreReadOrDropped(md: Metadata, key: MetaKey)
    ensures Milliseconds(md, key) ==
            if key in md && md[key].Text? && ParseInt(md[key].text).Some? && ParseInt(md[key].text).value >= 0
            then ParseInt(md[key].text) else None
  {
  }
}
