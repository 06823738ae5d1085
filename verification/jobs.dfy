/** Naming and describing a transcription job: `generate_unique_job_name`
    (transcript.py:34-36) and the `job_args` dictionary that `transcribe_text`
    passes to the service (transcript.py:38-51). The clock reading is a parameter. */
module Jobs {
  import opened Results

  /** A reading of `datetime.utcnow()`, down to the second. */
  datatype Timestamp = Timestamp(year: nat, month: nat, day: nat, hour: nat, minute: nat, second: nat)

  /** The ranges a `datetime` keeps its fields in, years before 1000 excluded. */
  predicate ValidTimestamp(t: Timestamp) {
    && 1000 <= t.year <= 9999
    && 1 <= t.month <= 12
    && 1 <= t.day <= 31
    && t.hour < 24
    && t.minute < 60
    && t.second < 60
  }

  function Pow10(width: nat): nat {
    if width == 0 then 1 else 10 * Pow10(width - 1)
  }

  predicate IsDigit(c: char) {
    '0' <= c <= '9'
  }

  function DigitChar(d: nat): (c: char)
    requires d < 10
    ensures IsDigit(c)
  {
    ('0' as int + d) as char
  }

  /** `n` written with exactly `width` decimal digits, zero-padded on the left. */
  function Digits(n: nat, width: nat): (s: string)
    requires n < Pow10(width)
    ensures |s| == width
    ensures forall i :: 0 <= i < |s| ==> IsDigit(s[i])
  {
    if width == 0 then [] else Digits(n / 10, width - 1) + [DigitChar(n % 10)]
  }

  /** The value of a string of decimal digits. */
  function ParseDigits(s: string): nat
    requires forall i :: 0 <= i < |s| ==> IsDigit(s[i])
  {
    if |s| == 0 then 0
    else
      assert IsDigit(s[|s| - 1]);
      ParseDigits(s[..|s| - 1]) * 10 + (s[|s| - 1] as int - '0' as int)
  }

  lemma {:induction false} ParseDigitsInvertsDigits(n: nat, width: nat)
    requires n < Pow10(width)
    ensures ParseDigits(Digits(n, width)) == n
  {
    if width > 0 {
      var s := Digits(n, width);
      assert s[..|s| - 1] == Digits(n / 10, width - 1);
      ParseDigitsInvertsDigits(n / 10, width - 1);
    }
  }

  /** `strftime("%Y%m%d%H%M%S")`. */
  function FormatTimestamp(t: Timestamp): (s: string)
    requires ValidTimestamp(t)
    ensures |s| == 14
    ensures forall i :: 0 <= i < |s| ==> IsDigit(s[i])
  {
    assert Pow10(2) == 100 && Pow10(4) == 10000;
    Digits(t.year, 4) + Digits(t.month, 2) + Digits(t.day, 2)
      + Digits(t.hour, 2) + Digits(t.minute, 2) + Digits(t.second, 2)
  }

  /** Reads the six fields back out of a fourteen-digit stamp. */
  function ParseTimestamp(s: string): Timestamp
    requires |s| == 14
    requires forall i :: 0 <= i < |s| ==> IsDigit(s[i])
  {
    Timestamp(ParseDigits(s[0..4]), ParseDigits(s[4..6]), ParseDigits(s[6..8]),
              ParseDigits(s[8..10]), ParseDigits(s[10..12]), ParseDigits(s[12..14]))
  }

  lemma TimestampRoundTrip(t: Timestamp)
    requires ValidTimestamp(t)
    ensures ParseTimestamp(FormatTimestamp(t)) == t
  {
    assert Pow10(2) == 100 && Pow10(4) == 10000;
    var s := FormatTimestamp(t);
    assert s[0..4] == Digits(t.year, 4);
    assert s[4..6] == Digits(t.month, 2);
    assert s[6..8] == Digits(t.day, 2);
    assert s[8..10] == Digits(t.hour, 2);
    assert s[10..12] == Digits(t.minute, 2);
    assert s[12..14] == Digits(t.second, 2);
    ParseDigitsInvertsDigits(t.year, 4);
    ParseDigitsInvertsDigits(t.month, 2);
    ParseDigitsInvertsDigits(t.day, 2);
    ParseDigitsInvertsDigits(t.hour, 2);
    ParseDigitsInvertsDigits(t.minute, 2);
    ParseDigitsInvertsDigits(t.second, 2);
  }

  /** The default `base_name` of `generate_unique_job_name`. */
  const DefaultBaseName := "transcribe_job"

  /** `generate_unique_job_name(base, now)`: the base, an underscore and the stamp. */
  function GenerateUniqueJobName(base: string, now: Timestamp): (name: string)
    requires ValidTimestamp(now)
    ensures |name| == |base| + 15
    ensures name[..|base|] == base && name[|base|] == '_'
  {
    base + "_" + FormatTimestamp(now)
  }

  /** Splits a generated name into its base and its timestamp; `None` for a name
      that does not end in an underscore and fourteen digits. */
  function SplitJobName(name: string): Option<(string, Timestamp)> {
    if |name| < 15 then None
    else
      var stamp := name[|name| - 14..];
      if name[|name| - 15] == '_' && forall i :: 0 <= i < |stamp| ==> IsDigit(stamp[i]) then
        Some((name[..|name| - 15], ParseTimestamp(stamp)))
      else None
  }

  lemma JobNameRoundTrip(base: string, now: Timestamp)
    requires ValidTimestamp(now)
    ensures SplitJobName(GenerateUniqueJobName(base, now)) == Some((base, now))
  {
    var name := GenerateUniqueJobName(base, now);
    assert name[|name| - 14..] == FormatTimestamp(now);
    assert name[..|name| - 15] == base;
    TimestampRoundTrip(now);
  }

  /** Two submissions get the same name only when they have the same base and the
      clock shows the same second. */
  lemma JobNamesAreDistinct(b1: string, t1: Timestamp, b2: string, t2: Timestamp)
    requires ValidTimestamp(t1) && ValidTimestamp(t2)
    requires GenerateUniqueJobName(b1, t1) == GenerateUniqueJobName(b2, t2)
    ensures b1 == b2 && t1 == t2
  {
    JobNameRoundTrip(b1, t1);
    JobNameRoundTrip(b2, t2);
  }

  /** A JSON-like value of the request: a string or a nested dictionary. */
  datatype Value = Str(s: string) | Obj(fields: map<string, Value>)

  /** What a transcription request says, field by field. */
  datatype JobRequest = JobRequest(
    name: string,
    mediaUri: string,
    mediaFormat: string,
    languageCode: string,
    vocabularyName: Option<string>)

  const RequiredKeys: set<string> := {"TranscriptionJobName", "Media", "MediaFormat", "LanguageCode"}

  /** The `job_args` dictionary of `transcribe_text`: the `Settings` entry is added
      exactly when a vocabulary name is given. */
  function BuildJobArgs(jobName: string, mediaUri: string, mediaFormat: string, languageCode: string,
                        vocabularyName: Option<string>): (args: map<string, Value>)
    ensures args.Keys == RequiredKeys + (if vocabularyName.Some? then {"Settings"} else {})
    ensures "Settings" in args <==> vocabularyName.Some?
  {
    var required := map[
      "TranscriptionJobName" := Str(jobName),
      "Media" := Obj(map["MediaFileUri" := Str(mediaUri)]),
      "MediaFormat" := Str(mediaFormat),
      "LanguageCode" := Str(languageCode)
    ];
    match vocabularyName
    case None => required
    case Some(v) => required["Settings" := Obj(map["VocabularyName" := Str(v)])]
  }

  /** How the service reads a request dictionary back into its fields; `None`
      for a dictionary that lacks a field or has one of the wrong shape. */
  function ReadJobArgs(args: map<string, Value>): Option<JobRequest> {
    if "TranscriptionJobName" in args && args["TranscriptionJobName"].Str?
       && "Media" in args && args["Media"].Obj?
       && "MediaFileUri" in args["Media"].fields && args["Media"].fields["MediaFileUri"].Str?
       && "MediaFormat" in args && args["MediaFormat"].Str?
       && "LanguageCode" in args && args["LanguageCode"].Str?
    then
      var vocabulary :=
        if "Settings" in args && args["Settings"].Obj?
           && "VocabularyName" in args["Settings"].fields
           && args["Settings"].fields["VocabularyName"].Str?
        then Some(args["Settings"].fields["VocabularyName"].s)
        else None;
      Some(JobRequest(args["TranscriptionJobName"].s, args["Media"].fields["MediaFileUri"].s,
                      args["MediaFormat"].s, args["LanguageCode"].s, vocabulary))
    else None
  }

  /** The request carries the name, media URI, format, language and vocabulary
      exactly as given. */
  lemma JobArgsRoundTrip(jobName: string, mediaUri: string, mediaFormat: string, languageCode: string,
                         vocabularyName: Option<string>)
    ensures ReadJobArgs(BuildJobArgs(jobName, mediaUri, mediaFormat, languageCode, vocabularyName))
            == Some(JobRequest(jobName, mediaUri, mediaFormat, languageCode, vocabularyName))
  {
  }
}
