# Speech delivery analysis: a Dafny model of the transcript pipeline

This project models the core of `transcript.py`. That file turns a recorded spoken
answer into delivery statistics. It submits an Amazon Transcribe job and polls the
job until it reaches a terminal status. It then reads the transcript JSON, counts
the words, finds the audio duration and the words-per-minute rate, and classifies
filler words ("um", "like", "you know", ...) with a part-of-speech-aware rule table.

The model is functional. Tokens, transcript items, job descriptions and analysis
results are immutable datatypes. The classification and counting steps are pure
functions over sequences and maps. The poll loop is one imperative method driven
by an oracle sequence of service responses. Python exceptions that reach the
`except` of `main` are `Failure` values (`Results.PyError`), not preconditions.

Modules, one per file:

- `Results` (results.dfy): `Option`, `Result`, and the exception kinds that can reach the `except` of `main`.
- `Counters` (counters.dfy): `collections.Counter` as a `map<string, nat>` whose missing keys read as 0, and the sum of its values.
- `Strings` (strings.dfy): `str.lower` and `str.count`.
- `Tagging` (tagging.dfy): tokens, the filler vocabulary, and `is_probable_filler` next to an independent rule table.
- `FillerAnalysis` (filler_analysis.dfy): `count_words_spacy` and `analyze_filler_words`.
- `Transcript` (transcript.dfy): the transcript JSON, `get_audio_duration_from_transcript`, and the transcript text lookup.
- `Jobs` (jobs.dfy): `generate_unique_job_name`, and the `job_args` dictionary built by `transcribe_text`.
- `Polling` (polling.dfy): the status-polling loop.
- `Pipeline` (pipeline.dfy): `main` after the upload, from job submission to filler analysis.

External capabilities are parameters:

- The spaCy tagger is a function from the lowered text to its tagged tokens.
- `datetime.utcnow()` is a `Timestamp` argument.
- The outcome of `start_transcription_job` is an optional exception.
- The answers of `get_transcription_job` are a sequence of responses.
- `requests.get(uri).json()` is a function from URI to payload.
- `time.sleep(5)` is counted as seconds slept.

## Model

| member | source | states |
|---|---|---|
| Counters.Add | transcript.py:112 | `counter[key] += n` raises that key's count by n and makes it a key; every other key keeps its count |
| Counters.SumAdd | transcript.py:112-113 | incrementing one key by n raises the sum of all counts by exactly n, which is how the running total tracks the Counter |
| Counters.SumRemove | transcript.py:107 | the sum of a Counter's values is the same whichever key is taken out first |
| Strings.Lower | transcript.py:105 | lowering keeps the length, turns each capital letter into the matching small letter, keeps every other character, and leaves no capital in the text |
| Strings.OccursInLowerIff | transcript.py:105-118 | a phrase without capitals occurs in the lowered text at a position exactly when the original text holds it there up to ASCII case, so the phrase pass also finds capitalised phrases such as "You know" |
| Strings.Count | transcript.py:118 | `text.count(phrase)` for a non-empty phrase is the number of matches of the left-to-right scan, and those matches fit in the text |
| Strings.MatchPositions | transcript.py:118 | `str.count` scans left to right; the positions where it matches number exactly the count, each is a real occurrence, and no two overlap |
| Strings.CountFromPositiveIff | transcript.py:118-119 | a scan from index i counts something exactly when the pattern occurs at or after i |
| Strings.CountPositiveIffOccurs | transcript.py:118-119 | a phrase's count is positive exactly when the phrase is a substring of the text, so `if count > 0` admits exactly the phrases that occur |
| Strings.CountFromIsMaximal | transcript.py:118 | no family of non-overlapping occurrences at or after i is larger than the scan's count |
| Strings.CountIsMaximumNonOverlapping | transcript.py:118 | `text.count(phrase)` is the largest number of non-overlapping occurrences: a family of that size exists and none is larger |
| Strings.CountFromBound | transcript.py:118 | the non-overlapping matches fit in the text: count times the phrase length is at most the text length |
| Tagging.IsProbableFiller | transcript.py:83-102 | the predicate accepts only vocabulary words, and accepts um, uh, basically, literally and the four phrases whatever their tags |
| Tagging.PredicateFollowsTable | transcript.py:83-102 | the if/elif chain accepts a token exactly when its word has a row in the filler table and that row's tag rule holds: just needs ADV; like needs INTJ, or VERB with dependency `discourse`; so needs ADV with `discourse`; well needs INTJ; right needs INTJ or ADV; really and actually need ADV; um, uh, basically, literally and the four phrases always count |
| Tagging.TableCoversVocabulary | transcript.py:67-70 | the rule table has a row for each of the fifteen vocabulary entries and for nothing else |
| Tagging.VocabularyGuardIsRedundant | transcript.py:111 | the predicate only accepts vocabulary words, so the `token.text in filler_words` test never changes the outcome of the single-token loop |
| Tagging.EveryEntryIsReachable | transcript.py:83-102 | each vocabulary entry is accepted under some tagging, and each entry with a tag-dependent rule is rejected under some other tagging |
| Tagging.TagsMatterOnlyForDisambiguatedWords | transcript.py:98-102 | for any word other than just, like, so, well, right, really and actually, the tags play no part in the decision |
| Tagging.SpacedEntriesAreThePhrases | transcript.py:116 | a vocabulary entry contains a space exactly when it is one of the multi-word phrases |
| Tagging.MultiWordFillersAreDistinctEntries | transcript.py:116 | the phrase list holds vocabulary entries, each listed once |
| FillerAnalysis.WordCount | transcript.py:81 | the word count is the number of tokens that are not punctuation, and it is at most the number of tokens |
| FillerAnalysis.CountWordsSpacy | transcript.py:79-81 | `count_words_spacy` counts the non-punctuation tokens of the lowered text |
| FillerAnalysis.CountSingleTokens | transcript.py:110-113 | after the single-token loop, each word's count is the number of tokens with that text that pass the vocabulary test and the predicate; keys are vocabulary words with positive counts; the running total equals the sum of the counts |
| FillerAnalysis.SingleTokenStep | transcript.py:110-113 | one more token adds exactly 1 to the count of its own text, and 1 to the running total, when its text is in the vocabulary and the predicate accepts it; otherwise nothing changes; no other key ever changes |
| FillerAnalysis.AddPhrases | transcript.py:115-121 | each phrase adds its `str.count` in the text to its own count and leaves other keys alone; a phrase that does not occur is never added as a key; positive counts stay positive; the running total keeps equal to the sum of the counts |
| FillerAnalysis.FillerTally | transcript.py:107-121 | after both loops, each term's count is its accepted tokens plus, for a phrase, its occurrences in the lowered text; the total is the sum of the counts; the Counter is empty exactly when no term is found |
| FillerAnalysis.Percent | transcript.py:124 | a percentage `p` of `count` over `total` satisfies `p * total == count * 100` |
| FillerAnalysis.Percentages | transcript.py:123-126 | the percentage map has exactly the Counter's keys, each holding that term's percentage of the word count |
| FillerAnalysis.AnalyzeFillerWords | transcript.py:104-133 | the analysis raises ZeroDivisionError exactly when a term is found in a text with no words; otherwise `total_words` equals `count_words_spacy` on the same text, every term's count is its expected count, `total_filler_words` is the sum of the counts, and the percentages have exactly the Counter's keys |
| FillerAnalysis.NoFillersMeansEmptyResult | transcript.py:119-126 | when no term is found, counts and percentages are empty and the total is 0, with no division, whatever the word count |
| FillerAnalysis.SingleFillersWithinWords | transcript.py:106-113 | if the tagger never marks a counted filler as punctuation, the single-token fillers number at most the words |
| Transcript.Duration | transcript.py:74-77 | the duration is the end time of the last item that has one, whatever untimed items follow, and 0.0 when no item is timed |
| Transcript.LastTimedExists | transcript.py:74-76 | when some item carries an end time, there is a last one that does |
| Transcript.DurationIgnoresTrailingUntimed | transcript.py:74-77 | appending untimed items leaves the duration unchanged |
| Transcript.AudioDuration | transcript.py:72-77 | a payload without `results` or without `items` has duration 0.0; otherwise the duration is that of its items |
| Transcript.TranscriptText | transcript.py:177 | the transcript text is found exactly when `results`, a non-empty `transcripts` list and its first entry's `transcript` are all present; otherwise the error is KeyError for a missing `results`, `transcripts` or `transcript` key, the first missing one in that order, and IndexError for an empty `transcripts` list |
| Jobs.Digits | transcript.py:35 | a field is written with exactly the requested number of decimal digits |
| Jobs.ParseDigitsInvertsDigits | transcript.py:35 | reading the digits back gives the field's value |
| Jobs.FormatTimestamp | transcript.py:35 | `%Y%m%d%H%M%S` is fourteen decimal digits |
| Jobs.TimestampRoundTrip | transcript.py:35 | the fourteen digits determine the clock reading: parsing them gives back year, month, day, hour, minute and second |
| Jobs.GenerateUniqueJobName | transcript.py:34-36 | the job name is the base, then an underscore, then fifteen characters in all for the separator and stamp |
| Jobs.JobNameRoundTrip | transcript.py:34-36 | splitting a generated name gives back its base and its timestamp |
| Jobs.JobNamesAreDistinct | transcript.py:34-36 | two generated names are equal only when both the base and the second of the clock reading are equal |
| Jobs.BuildJobArgs | transcript.py:40-48 | the request has the four required keys, plus `Settings` exactly when a vocabulary name is given |
| Jobs.JobArgsRoundTrip | transcript.py:40-48 | reading the request back gives the job name, media URI, format, language and vocabulary exactly as passed |
| Polling.AwaitJob | transcript.py:167-176 | queries continue until the first response that is terminal (COMPLETED or FAILED) or raises. If that response is at index k, exactly k+1 queries are made, with five seconds of sleep after each of the first k. The transcript URI is read only on COMPLETED, and a missing `Transcript` or `TranscriptFileUri` key raises KeyError on that key. FAILED reports the job description (lines 196-197) |
| Polling.TranscriptUri | transcript.py:175 | the URI is found exactly when the job description has a `Transcript` entry holding `TranscriptFileUri`; otherwise KeyError names `Transcript` when that entry is missing, and `TranscriptFileUri` when only the inner key is |
| Pipeline.MediaUri | transcript.py:162 | the media URI is `s3://forenses-transcribe/` followed by the object key, which its tail gives back |
| Pipeline.WordsPerMinute | transcript.py:180 | the rate `words / (seconds / 60)` satisfies `rate * seconds == words * 60` |
| Pipeline.ProcessTranscript | transcript.py:177-195 | the run succeeds exactly when the transcript text is present, the duration is nonzero and the text has at least one word; a missing transcript raises the lookup's error, and every other failure is ZeroDivisionError; on success the word count equals the analysis's `total_words` and is positive, the rate is computed from the duration, and the overall filler percentage is the filler total over the word count |
| Pipeline.RunMain | transcript.py:161-199 | no upload means nothing is submitted. The request is exactly the `job_args` dictionary for the generated name, `s3://forenses-transcribe/<key>`, `m4a` and `en-US`: the four required keys and nothing else. A failed submission makes no status query. An analysed outcome comes only from a COMPLETED response whose transcript URI was fetched and processed. A TranscriptionFailed outcome carries the FAILED job description. Conversely, the last status response fixes the outcome: a raised query gives Aborted with that error; FAILED gives TranscriptionFailed; COMPLETED without a transcript URI gives Aborted with the lookup's KeyError; a failed fetch gives Aborted with the fetch error; otherwise the outcome is Analyzed or Aborted exactly as ProcessTranscript succeeds or fails on the fetched payload |

## Left out

- Uploading to S3 (transcript.py:24-32, 154-159) is I/O. The model takes whether the upload succeeded and the object key as inputs. `os.path.basename` is not modelled. Line 154 reads `st.session_state`, but transcript.py never imports `st`, so as written `main` raises NameError there, outside its `try`, and none of its later lines run. `Pipeline.RunMain` describes `main` as it would run with `st` defined.
- The boto3 clients, `start_transcription_job` and `get_transcription_job` are network calls. Their results are oracle inputs. The `TranscriptionJob` value that `transcribe_text` returns is not modelled, because `main` discards it.
- spaCy (transcript.py:65, 80, 105) is a foreign library. The tagger is a function parameter, applied to the lowered text, and `doc.text` is taken to be that lowered text.
- `requests.get(...).json()` (transcript.py:176) is a function parameter. JSON parsing is not modelled. `end_time` arrives already converted to a number.
- `time.sleep(5)` is counted in `Polling.AwaitJob`'s `slept` output but not performed.
- `print_analysis` and the printing in `main` are display only. The one exception they can raise is kept: the overall percentage at line 150 divides by `total_words`.
- FillerAnalysis.Percentages: holds unrounded real values. Python's float arithmetic and `round(..., 2)` are not modelled.
- Pipeline.WordsPerMinute: uses real division without the final `round`.
- Pipeline.ProcessTranscript: uses the unrounded duration. The source first rounds to two decimals (line 179), so a duration below 0.005 s becomes 0.0 and raises there, while the model raises only at exactly 0.0.
- Strings.Lower: lowers ASCII letters only. Python's `str.lower` also maps non-ASCII letters.
- Jobs.FormatTimestamp: requires years 1000 to 9999, because how `%Y` pads earlier years depends on the platform. It also checks each field's range but not calendar validity, e.g. day 31 of February.
- The phrase loop iterates over a Python set, whose order is unspecified. The model uses one fixed order. `FillerAnalysis.AddPhrases` states each key's final count independently of that order.
- `Polling.AwaitJob` requires the response sequence to contain a stopping response. The source has no bound on the loop, so without one it polls forever.
- The poll loop has no deadline, failed queries are not retried, and there are no dedicated error types; the model has none either.
- An empty Counter gives an empty percentage map, not all-zero percentages, and `print_analysis` then raises ZeroDivisionError when the text has no words.
- `speech_analysis.py` repeats the boto3 wrappers and adds module-level network calls, with no further logic.
- The Streamlit pages (`Home.py`, `index.py`, `pages/`), the question generator (`rag_bot_clean.py`), the scraper (`scraper.py`) and `qandafeedback.py` are user interface, LLM or web I/O, outside this core.
