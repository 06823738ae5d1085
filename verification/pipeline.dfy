/** The sequence `main` runs once the audio is uploaded (transcript.py:161-199):
    submit the job, poll it, and on COMPLETED fetch the transcript, measure it and
    analyse its fillers. Every exception inside the `try` ends the run with
    `Aborted`. The service, the HTTP fetch and the tagger are parameters. */
module Pipeline {
  import opened Results
  import opened Counters
  import opened Tagging
  import opened FillerAnalysis
  import opened Transcript
  import opened Jobs
  import opened Polling

  const Bucket := "forenses-transcribe"
  const MediaFormat := "m4a"
  const LanguageCode := "en-US"

  /** `f"s3://{s3_bucket}/{s3_key}"`: the bucket's prefix followed by the key,
      which the URI's tail gives back. */
  function MediaUri(s3Key: string): (uri: string)
    ensures |uri| == |"s3://forenses-transcribe/"| + |s3Key|
    ensures uri[..|uri| - |s3Key|] == "s3://forenses-transcribe/"
    ensures uri[|uri| - |s3Key|..] == s3Key
  {
    "s3://" + Bucket + "/" + s3Key
  }

  /** `wpm` words per minute over `seconds` seconds make `words` words. */
  predicate IsRate(wpm: real, words: nat, seconds: real) {
    wpm * seconds == words as real * 60.0
  }

  /** `words / (seconds / 60)`, the speaking rate in words per minute, unrounded. */
  function WordsPerMinute(words: nat, seconds: real): (wpm: real)
    requires seconds != 0.0
    ensures IsRate(wpm, words, seconds)
  {
    var minutes := seconds / 60.0;
    assert minutes * 60.0 == seconds;
    var wpm := words as real / minutes;
    assert wpm * minutes == words as real;
    wpm
  }

  /** What `main` computes from a completed transcript. */
  datatype Report = Report(
    text: string,
    words: nat,
    seconds: real,
    wordsPerMinute: real,
    analysis: Analysis,
    overallPercentage: real)

  /** Lines 177-180 and 194-195: the transcript text, its word count, its duration,
      the rate `words / (seconds / 60)`, the filler analysis and the overall filler
      percentage `print_analysis` divides out. A zero duration or a zero word count
      raises `ZeroDivisionError`; a present transcript with a nonzero duration and
      at least one word is always analysed. */
  function ProcessTranscript(json: TranscriptJson, tag: Tagger): (r: Result<Report, PyError>)
    ensures r.Success? <==> TranscriptText(json).Success? && AudioDuration(json) != 0.0
                            && CountWordsSpacy(TranscriptText(json).value, tag) > 0
    ensures TranscriptText(json).Failure? ==> r == Failure(TranscriptText(json).error)
    ensures TranscriptText(json).Success? && r.Failure? ==> r.error == ZeroDivisionError
    ensures TranscriptText(json).Success? && AudioDuration(json) == 0.0 ==> r == Failure(ZeroDivisionError)
    ensures r.Success? ==> TranscriptText(json) == Success(r.value.text)
    ensures r.Success? ==> r.value.words == r.value.analysis.totalWords == CountWordsSpacy(r.value.text, tag)
    ensures r.Success? ==> r.value.words > 0
    ensures r.Success? ==> r.value.seconds == AudioDuration(json) && r.value.seconds != 0.0
    ensures r.Success? ==> IsRate(r.value.wordsPerMinute, r.value.words, r.value.seconds)
    ensures r.Success? ==> AnalyzeFillerWords(r.value.text, tag) == Success(r.value.analysis)
    ensures r.Success? ==> IsPercentage(r.value.overallPercentage, Sum(r.value.analysis.fillerCounts), r.value.words)
  {
    var text :- TranscriptText(json);
    var words := CountWordsSpacy(text, tag);
    var seconds := AudioDuration(json);
    if seconds == 0.0 then Failure(ZeroDivisionError)
    else
      var wpm := WordsPerMinute(words, seconds);
      var analysis :- AnalyzeFillerWords(text, tag);
      if analysis.totalWords == 0 then Failure(ZeroDivisionError)
      else
        var overall := Percent(analysis.totalFillerWords, analysis.totalWords);
        Success(Report(text, words, seconds, wpm, analysis, overall))
  }

  /** How a run of `main` ends. */
  datatype MainOutcome =
    | UploadFailed            // `upload_to_s3` returned False; nothing was submitted
    | Analyzed(report: Report) // the job completed and its transcript was analysed
    | TranscriptionFailed(info: JobInfo) // the job reported FAILED
    | Aborted(error: PyError) // an exception reached the `except` of `main`

  /** `main` after the upload. `startError` is the exception
      `start_transcription_job` raises, if any; `responses` are the successive
      answers of `get_job`; `fetch` is `requests.get(uri).json()`. */
  method RunMain(uploaded: bool, s3Key: string, now: Timestamp, startError: Option<PyError>,
                 responses: seq<Response>, fetch: string -> Result<TranscriptJson, PyError>, tag: Tagger)
    returns (outcome: MainOutcome, request: Option<map<string, Value>>, queries: nat)
    requires ValidTimestamp(now)
    requires uploaded && startError.None? ==> EventuallyStops(responses)
    ensures !uploaded ==> outcome == UploadFailed && request.None? && queries == 0
    ensures uploaded ==> request == Some(BuildJobArgs(GenerateUniqueJobName(DefaultBaseName, now),
                                                      MediaUri(s3Key), MediaFormat, LanguageCode, None))
    ensures uploaded ==> request.Some? && request.value.Keys == RequiredKeys
    ensures uploaded ==> ReadJobArgs(request.value) == Some(JobRequest(GenerateUniqueJobName(DefaultBaseName, now),
                                                                       MediaUri(s3Key), MediaFormat, LanguageCode, None))
    ensures startError.Some? ==> queries == 0 && (uploaded ==> outcome == Aborted(startError.value))
    ensures queries > 0 ==> queries <= |responses| && Stops(responses[queries - 1])
                            && forall j :: 0 <= j < queries - 1 ==> !Stops(responses[j])
    ensures uploaded && startError.None? ==> queries > 0
    ensures outcome.TranscriptionFailed? ==> queries > 0 && responses[queries - 1] == Success(outcome.info)
                                             && outcome.info.status == FAILED
    ensures outcome.Analyzed? ==>
              queries > 0 && responses[queries - 1].Success?
              && responses[queries - 1].value.status == COMPLETED
              && TranscriptUri(responses[queries - 1].value).Success?
              && fetch(TranscriptUri(responses[queries - 1].value).value).Success?
              && ProcessTranscript(fetch(TranscriptUri(responses[queries - 1].value).value).value, tag)
                 == Success(outcome.report)
    ensures uploaded && startError.None? && responses[queries - 1].Failure? ==>
              outcome == Aborted(responses[queries - 1].error)
    ensures uploaded && startError.None? && responses[queries - 1].Success?
            && responses[queries - 1].value.status == FAILED ==>
              outcome == TranscriptionFailed(responses[queries - 1].value)
    ensures uploaded && startError.None? && responses[queries - 1].Success?
            && responses[queries - 1].value.status == COMPLETED
            && TranscriptUri(responses[queries - 1].value).Failure? ==>
              outcome == Aborted(TranscriptUri(responses[queries - 1].value).error)
    ensures uploaded && startError.None? && responses[queries - 1].Success?
            && responses[queries - 1].value.status == COMPLETED
            && TranscriptUri(responses[queries - 1].value).Success? ==>
              var fetched := fetch(TranscriptUri(responses[queries - 1].value).value);
              outcome == if fetched.Failure? then Aborted(fetched.error)
                         else match ProcessTranscript(fetched.value, tag)
                              case Success(report) => Analyzed(report)
                              case Failure(e) => Aborted(e)
  {
    queries := 0;
    if !uploaded {
      return UploadFailed, None, 0;
    }
    var jobName := GenerateUniqueJobName(DefaultBaseName, now);
    var args := BuildJobArgs(jobName, MediaUri(s3Key), MediaFormat, LanguageCode, None);
    JobArgsRoundTrip(jobName, MediaUri(s3Key), MediaFormat, LanguageCode, None);
    request := Some(args);
    if startError.Some? {
      return Aborted(startError.value), request, 0;
    }
    var polled, slept;
    polled, queries, slept := AwaitJob(responses);
    match polled
    case Raised(e) =>
      outcome := Aborted(e);
    case JobFailed(info) =>
      outcome := TranscriptionFailed(info);
    case Completed(uri) =>
      var fetched := fetch(uri);
      if fetched.Failure? {
        outcome := Aborted(fetched.error);
      } else {
        var processed := ProcessTranscript(fetched.value, tag);
        match processed
        case Failure(e) => outcome := Aborted(e);
        case Success(report) => outcome := Analyzed(report);
      }
  }
}
