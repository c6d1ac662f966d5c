/** The values shared by the consumer thread, the lifecycle watcher and restart recovery:
    channels, Ray submissions and the entry of the in-memory active map. */
module Domain {
  import opened Wrappers

  datatype OperationType = Training | BatchInference

  datatype ExecutionProfile = SingleWorker | Distributed

  /** The names one operation channel owns in Redis. */
  datatype Channel = Channel(taskStream: string, eventPrefix: string, cancelPrefix: string) {
    function EventKey(operationId: string): string {
      eventPrefix + ":" + operationId
    }

    function CancelKey(operationId: string): string {
      cancelPrefix + ":" + operationId
    }
  }

  datatype Channels = Channels(training: Channel, batchInference: Channel) {
    function For(t: OperationType): Channel {
      if t == Training then training else batchInference
    }
  }

  datatype Submission = Submission(runId: string, attemptId: string, submissionId: string,
                                   rayJobId: Option<string>, requestDigest: Option<string>)

  datatype ActiveSubmission = ActiveSubmission(
    operationId: string, operationType: OperationType, profile: ExecutionProfile, runId: string,
    channel: Channel, submission: Submission,
    receivedAtMs: Option<int>, deadlineAtMs: Option<int>)
  {
    function EventKey(): string {
      channel.EventKey(operationId)
    }

    function CancelKey(): string {
      channel.CancelKey(operationId)
    }

    function SubmissionId(): string {
      submission.submissionId
    }
  }

  /** Within one channel, distinct operations never share an event stream or a cancel key. */
  lemma ChannelKeysAreInjective(c: Channel, a: string, b: string)
    ensures c.EventKey(a) == c.EventKey(b) <==> a == b
    ensures c.CancelKey(a) == c.CancelKey(b) <==> a == b
  {
    SuffixIsInjective(c.eventPrefix + ":", a, b);
    SuffixIsInjective(c.cancelPrefix + ":", a, b);
  }

  lemma SuffixIsInjective(p: string, a: string, b: string)
    ensures p + a == p + b <==> a == b
  {
    if p + a == p + b {
      assert (p + a)[|p|..] == a && (p + b)[|p|..] == b;
    }
  }

  datatype Fault = Ok | RaiseBefore | RaiseAfter
}
