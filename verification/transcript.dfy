/** The parts of the transcript JSON that the pipeline reads, and
    `get_audio_duration_from_transcript` (transcript.py:72-77). A key the payload
    may lack is an `Option`; `end_time` is taken as already converted by `float`. */
module Transcript {
  import opened Results

  /** One entry of `results.items`: a word or punctuation mark, timed or not. */
  datatype Item = Item(content: string, endTime: Option<real>)

  /** One entry of `results.transcripts`. */
  datatype Entry = Entry(transcript: Option<string>)

  datatype TranscriptResults = TranscriptResults(transcripts: Option<seq<Entry>>, items: Option<seq<Item>>)

  datatype TranscriptJson = TranscriptJson(results: Option<TranscriptResults>)

  predicate Untimed(items: seq<Item>) {
    forall i :: 0 <= i < |items| ==> items[i].endTime.None?
  }

  /** Item `i` carries an end time and no item after it does. */
  predicate LastTimed(items: seq<Item>, i: int) {
    && 0 <= i < |items|
    && items[i].endTime.Some?
    && forall j :: i < j < |items| ==> items[j].endTime.None?
  }

  /** The scan over `reversed(items)`: the end time of the last timed item, and
      0.0 when no item is timed. */
  function Duration(items: seq<Item>): (d: real)
    ensures Untimed(items) ==> d == 0.0
    ensures forall i :: LastTimed(items, i) ==> d == items[i].endTime.value
  {
    if |items| == 0 then 0.0
    else
      var last := items[|items| - 1];
      var prev := items[..|items| - 1];
      if last.endTime.Some? then
        assert forall i :: LastTimed(items, i) ==> i == |items| - 1;
        last.endTime.value
      else
        assert forall i :: LastTimed(items, i) ==> LastTimed(prev, i);
        Duration(prev)
  }

  /** When some item is timed, there is a last timed one. */
  lemma {:induction false} LastTimedExists(items: seq<Item>)
    requires !Untimed(items)
    ensures exists i :: LastTimed(items, i)
  {
    var last := items[|items| - 1];
    if last.endTime.Some? {
      assert LastTimed(items, |items| - 1);
    } else {
      var prev := items[..|items| - 1];
      assert !Untimed(prev);
      LastTimedExists(prev);
      var i :| LastTimed(prev, i);
      assert LastTimed(items, i);
    }
  }

  /** Untimed items after the last timed one do not change the duration. */
  lemma DurationIgnoresTrailingUntimed(items: seq<Item>, tail: seq<Item>)
    requires Untimed(tail)
    ensures Duration(items + tail) == Duration(items)
  {
    var all := items + tail;
    if Untimed(items) {
      assert Untimed(all);
    } else {
      LastTimedExists(items);
      var i :| LastTimed(items, i);
      assert LastTimed(all, i);
    }
  }

  /** `transcript_json.get("results", {}).get("items", [])`. */
  function TimedItems(json: TranscriptJson): seq<Item> {
    match json.results
    case None => []
    case Some(results) => if results.items.Some? then results.items.value else []
  }

  /** `get_audio_duration_from_transcript`: a payload without results or without
      items has duration 0.0. */
  function AudioDuration(json: TranscriptJson): (d: real)
    ensures json.results.None? || json.results.value.items.None? ==> d == 0.0
    ensures Untimed(TimedItems(json)) ==> d == 0.0
    ensures forall i :: LastTimed(TimedItems(json), i) ==> d == TimedItems(json)[i].endTime.value
  {
    Duration(TimedItems(json))
  }

  /** `transcript_json["results"]["transcripts"][0]["transcript"]`, which raises
      `KeyError` on a missing key and `IndexError` on an empty list. */
  function TranscriptText(json: TranscriptJson): (r: Result<string, PyError>)
    ensures r.Success? <==> json.results.Some? && json.results.value.transcripts.Some?
                            && |json.results.value.transcripts.value| > 0
                            && json.results.value.transcripts.value[0].transcript.Some?
    ensures r.Success? ==> r.value == json.results.value.transcripts.value[0].transcript.value
    ensures r.Failure? ==> r.error == (if json.results.None? then KeyError("results")
                                       else if json.results.value.transcripts.None? then KeyError("transcripts")
                                       else if |json.results.value.transcripts.value| == 0 then IndexError
                                       else KeyError("transcript"))
  {
    match json.results
    case None => Failure(KeyError("results"))
    case Some(results) =>
      match results.transcripts
      case None => Failure(KeyError("transcripts"))
      case Some(entries) =>
        if |entries| == 0 then Failure(IndexError)
        else
          match entries[0].transcript
          case None => Failure(KeyError("transcript"))
          case Some(text) => Success(text)
  }
}
