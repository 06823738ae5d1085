/** The status-polling loop of `main` (transcript.py:167-176, 196-197). The service
    is an oracle: the `n`-th status query returns the `n`-th response of a sequence,
    either the job description or the exception `get_job` re-raises. */
module Polling {
  import opened Results

  /** The `Transcript` entry of a job description, whose `TranscriptFileUri` key
      may be missing. */
  datatype TranscriptRef = TranscriptRef(fileUri: Option<string>)

  /** The parts of a `TranscriptionJob` description the loop reads:
      `TranscriptionJobStatus` and, when present, the `Transcript` entry. */
  datatype JobInfo = JobInfo(status: string, transcript: Option<TranscriptRef>)

  /** `job_info["Transcript"]["TranscriptFileUri"]`, which raises `KeyError` on
      whichever key is missing first. */
  function TranscriptUri(info: JobInfo): (r: Result<string, PyError>)
    ensures r.Success? <==> info.transcript.Some? && info.transcript.value.fileUri.Some?
    ensures r.Success? ==> r.value == info.transcript.value.fileUri.value
    ensures r.Failure? ==> r.error == (if info.transcript.None? then KeyError("Transcript")
                                       else KeyError("TranscriptFileUri"))
  {
    match info.transcript
    case None => Failure(KeyError("Transcript"))
    case Some(ref) =>
      match ref.fileUri
      case None => Failure(KeyError("TranscriptFileUri"))
      case Some(uri) => Success(uri)
  }

  /** What one call of `get_job` produces. */
  type Response = Result<JobInfo, PyError>

  const COMPLETED := "COMPLETED"
  const FAILED := "FAILED"

  /** The seconds `time.sleep` waits after a non-terminal status. */
  const PollIntervalSeconds: nat := 5

  /** `status in ["COMPLETED", "FAILED"]`. */
  predicate IsTerminal(status: string) {
    status == COMPLETED || status == FAILED
  }

  /** A response after which no further query is made: a raised exception or a
      terminal status. */
  predicate Stops(r: Response) {
    r.Failure? || IsTerminal(r.value.status)
  }

  /** Some query eventually stops the loop; otherwise the source polls forever. */
  predicate EventuallyStops(responses: seq<Response>) {
    exists k :: 0 <= k < |responses| && Stops(responses[k])
  }

  /** How the loop and the branch after it end. */
  datatype PollOutcome =
    | Completed(transcriptUri: string) // COMPLETED, and the transcript URI was read
    | JobFailed(info: JobInfo)         // FAILED; the job description is reported
    | Raised(error: PyError)           // an exception reached the `except` of `main`

  /** Polls until the first stopping response. `queries` is the number of status
      queries made and `slept` the seconds spent in `time.sleep`. When the first
      stopping response is at index `k`, exactly `k + 1` queries are made, and the
      transcript URI is read only when that response reports COMPLETED. */
  method AwaitJob(responses: seq<Response>) returns (outcome: PollOutcome, queries: nat, slept: nat)
    requires EventuallyStops(responses)
    ensures 1 <= queries <= |responses|
    ensures Stops(responses[queries - 1])
    ensures forall j :: 0 <= j < queries - 1 ==> !Stops(responses[j])
    ensures forall k :: 0 <= k < |responses| && Stops(responses[k]) && (forall j :: 0 <= j < k ==> !Stops(responses[j]))
              ==> queries == k + 1
    ensures slept == PollIntervalSeconds * (queries - 1)
    ensures responses[queries - 1].Failure? ==> outcome == Raised(responses[queries - 1].error)
    ensures responses[queries - 1].Success? && responses[queries - 1].value.status == FAILED ==>
              outcome == JobFailed(responses[queries - 1].value)
    ensures responses[queries - 1].Success? && responses[queries - 1].value.status == COMPLETED ==>
              outcome == match TranscriptUri(responses[queries - 1].value)
                         case Success(uri) => Completed(uri)
                         case Failure(e) => Raised(e)
    ensures outcome.Completed? || outcome.JobFailed? ==> responses[queries - 1].Success?
  {
    ghost var k :| 0 <= k < |responses| && Stops(responses[k]);
    queries := 0;
    slept := 0;
    var info: JobInfo;
    while true
      invariant queries <= k
      invariant forall j :: 0 <= j < queries ==> !Stops(responses[j])
      invariant slept == PollIntervalSeconds * queries
      decreases k - queries
    {
      var response := responses[queries];
      queries := queries + 1;
      if response.Failure? {
        outcome := Raised(response.error);
        return;
      }
      info := response.value;
      if IsTerminal(info.status) {
        break;
      }
      slept := slept + PollIntervalSeconds;
    }
    if info.status == COMPLETED {
      var uri := TranscriptUri(info);
      if uri.Success? {
        outcome := Completed(uri.value);
      } else {
        outcome := Raised(uri.error);
      }
    } else {
      outcome := JobFailed(info);
    }
  }
}
