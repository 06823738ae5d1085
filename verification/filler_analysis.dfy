/** `count_words_spacy` and `analyze_filler_words` (transcript.py:79-81, 104-133).
    The spaCy pipeline is a parameter: a tagger that maps the lowered text to its
    tokens. */
module FillerAnalysis {
  import opened Results
  import opened Counters
  import opened Strings
  import opened Tagging

  /** `nlp(text)`: the tokens, with their tags, of a text. */
  type Tagger = string -> seq<Token>

  /** The indices of the tokens that are not punctuation. */
  ghost function WordIndices(doc: seq<Token>): set<int> {
    set i | 0 <= i < |doc| && !doc[i].isPunct
  }

  /** `len([t for t in doc if not t.is_punct])`. */
  function WordCount(doc: seq<Token>): (n: nat)
    ensures n == |WordIndices(doc)|
    ensures n <= |doc|
  {
    if |doc| == 0 then
      assert WordIndices(doc) == {};
      0
    else
      var prev := doc[..|doc| - 1];
      var last := doc[|doc| - 1];
      assert WordIndices(doc) == WordIndices(prev) + (if last.isPunct then {} else {|prev|});
      WordCount(prev) + (if last.isPunct then 0 else 1)
  }

  /** `count_words_spacy`: the words of the lowered text, punctuation excluded. */
  function CountWordsSpacy(text: string, tag: Tagger): (n: nat)
    ensures n == |WordIndices(tag(Lower(text)))|
  {
    WordCount(tag(Lower(text)))
  }

  /** The indices of the tokens with text `w` that the single-token pass counts. */
  ghost function Hits(doc: seq<Token>, w: string): set<int> {
    set i | 0 <= i < |doc| && doc[i].text == w && IsCountedFiller(doc[i])
  }

  lemma HitsSnoc(doc: seq<Token>, t: Token, w: string)
    ensures Hits(doc + [t], w) == Hits(doc, w) + (if t.text == w && IsCountedFiller(t) then {|doc|} else {})
    ensures |doc| !in Hits(doc, w)
  {
  }

  /** The Counter and the running total that `analyze_filler_words` keeps side by side. */
  datatype Tally = Tally(counts: Counter, total: nat)

  /** The single-token loop (transcript.py:110-113): each counted filler token adds
      one to its own text's count and one to the total. */
  function CountSingleTokens(doc: seq<Token>): (r: Tally)
    ensures forall w :: Get(r.counts, w) == |Hits(doc, w)|
    ensures r.counts.Keys <= FillerWords
    ensures AllPositive(r.counts)
    ensures r.total == Sum(r.counts)
  {
    if |doc| == 0 then
      assert forall w :: Hits(doc, w) == {};
      Tally(map[], 0)
    else
      var prev := doc[..|doc| - 1];
      var t := doc[|doc| - 1];
      var before := CountSingleTokens(prev);
      assert doc == prev + [t];
      assert forall w :: Hits(doc, w) == Hits(prev, w) + (if t.text == w && IsCountedFiller(t) then {|prev|} else {}) by {
        forall w ensures Hits(doc, w) == Hits(prev, w) + (if t.text == w && IsCountedFiller(t) then {|prev|} else {}) {
          HitsSnoc(prev, t, w);
        }
      }
      assert forall w :: |prev| !in Hits(prev, w) by {
        forall w ensures |prev| !in Hits(prev, w) {
          HitsSnoc(prev, t, w);
        }
      }
      if IsCountedFiller(t) then
        SumAdd(before.counts, t.text, 1);
        Tally(Add(before.counts, t.text, 1), before.total + 1)
      else
        before
  }

  /** One more token adds exactly one to its own text's count, and to the total,
      when it passes the vocabulary test and the predicate; otherwise nothing
      changes. No other key ever changes. */
  lemma SingleTokenStep(doc: seq<Token>, t: Token)
    ensures Get(CountSingleTokens(doc + [t]).counts, t.text)
            == Get(CountSingleTokens(doc).counts, t.text) + (if IsCountedFiller(t) then 1 else 0)
    ensures forall w :: w != t.text ==> Get(CountSingleTokens(doc + [t]).counts, w) == Get(CountSingleTokens(doc).counts, w)
    ensures CountSingleTokens(doc + [t]).total == CountSingleTokens(doc).total + (if IsCountedFiller(t) then 1 else 0)
  {
  }

  /** No phrase is listed twice. */
  predicate Distinct(phrases: seq<string>) {
    forall a, b :: 0 <= a < b < |phrases| ==> phrases[a] != phrases[b]
  }

  /** The phrase loop (transcript.py:115-121): each phrase adds its `str.count` in
      the text to its own count and to the total, and a phrase that does not occur
      is not added as a key. */
  function AddPhrases(tally: Tally, text: string, phrases: seq<string>): (r: Tally)
    requires Distinct(phrases)
    ensures forall w :: Get(r.counts, w) == Get(tally.counts, w) + (if w in phrases then Count(text, w) else 0)
    ensures r.counts.Keys == tally.counts.Keys + (set p | p in phrases && Count(text, p) > 0)
    ensures AllPositive(tally.counts) ==> AllPositive(r.counts)
    ensures tally.total == Sum(tally.counts) ==> r.total == Sum(r.counts)
    decreases |phrases|
  {
    if |phrases| == 0 then tally
    else
      var p := phrases[0];
      var n := Count(text, p);
      var next := if n > 0 then Tally(Add(tally.counts, p, n), tally.total + n) else tally;
      assert n > 0 ==> Sum(next.counts) == Sum(tally.counts) + n by {
        if n > 0 { SumAdd(tally.counts, p, n); }
      }
      assert Distinct(phrases[1..]);
      assert forall w :: w in phrases <==> w == p || w in phrases[1..];
      assert p !in phrases[1..];
      AddPhrases(next, text, phrases[1..])
  }

  /** The count the analysis promises for a term: the tokens the predicate accepts
      with that text, plus, for a phrase, its occurrences in the lowered text. */
  ghost function ExpectedCount(text: string, tag: Tagger, w: string): nat {
    |Hits(tag(Lower(text)), w)| + (if w in MultiWordFillers then Count(Lower(text), w) else 0)
  }

  /** The Counter and total after both loops of `analyze_filler_words`. */
  function FillerTally(text: string, tag: Tagger): (r: Tally)
    ensures forall w :: Get(r.counts, w) == ExpectedCount(text, tag, w)
    ensures AllPositive(r.counts) && r.counts.Keys <= FillerWords
    ensures r.total == Sum(r.counts)
    ensures r.counts == map[] <==> forall w :: ExpectedCount(text, tag, w) == 0
  {
    var lowered := Lower(text);
    var single := CountSingleTokens(tag(lowered));
    MultiWordFillersAreDistinctEntries();
    var r := AddPhrases(single, lowered, MultiWordFillers);
    assert forall w :: Get(r.counts, w) == ExpectedCount(text, tag, w) by {
      forall w ensures Get(r.counts, w) == ExpectedCount(text, tag, w) {
        assert Get(single.counts, w) == |Hits(tag(lowered), w)|;
      }
    }
    assert r.counts != map[] ==> exists w :: ExpectedCount(text, tag, w) > 0 by {
      if r.counts != map[] {
        var k :| k in r.counts;
        assert Get(r.counts, k) == ExpectedCount(text, tag, k);
        assert ExpectedCount(text, tag, k) > 0;
      }
    }
    r
  }

  /** `p` is `count` as a percentage of `total`. */
  predicate IsPercentage(p: real, count: nat, total: nat) {
    p * total as real == count as real * 100.0
  }

  /** `(count / total) * 100`, unrounded. */
  function Percent(count: nat, total: nat): (p: real)
    requires total > 0
    ensures IsPercentage(p, count, total)
  {
    var q := count as real / total as real;
    assert q * total as real == count as real;
    q * 100.0
  }

  /** `round(count / total_words * 100, 2)` for every counted term, without the
      rounding. */
  function Percentages(counts: Counter, totalWords: nat): (r: map<string, real>)
    requires counts == map[] || totalWords > 0
    ensures r.Keys == counts.Keys
    ensures forall w :: w in r ==> IsPercentage(r[w], counts[w], totalWords)
  {
    map w | w in counts :: Percent(counts[w], totalWords)
  }

  /** The dictionary `analyze_filler_words` returns. */
  datatype Analysis = Analysis(
    totalWords: nat,
    fillerCounts: Counter,
    fillerPercentages: map<string, real>,
    totalFillerWords: nat)

  /** `analyze_filler_words`. It raises `ZeroDivisionError` when a filler is
      counted in a text with no words, since the percentages then divide by zero. */
  function AnalyzeFillerWords(text: string, tag: Tagger): (r: Result<Analysis, PyError>)
    ensures r.Failure? <==> CountWordsSpacy(text, tag) == 0 && exists w :: ExpectedCount(text, tag, w) > 0
    ensures r.Failure? ==> r.error == ZeroDivisionError
    ensures r.Success? ==> r.value.totalWords == CountWordsSpacy(text, tag)
    ensures r.Success? ==> forall w :: Get(r.value.fillerCounts, w) == ExpectedCount(text, tag, w)
    ensures r.Success? ==> AllPositive(r.value.fillerCounts) && r.value.fillerCounts.Keys <= FillerWords
    ensures r.Success? ==> r.value.totalFillerWords == Sum(r.value.fillerCounts)
    ensures r.Success? ==> r.value.fillerPercentages.Keys == r.value.fillerCounts.Keys
    ensures r.Success? ==> forall w :: w in r.value.fillerPercentages ==>
              IsPercentage(r.value.fillerPercentages[w], r.value.fillerCounts[w], r.value.totalWords)
  {
    var totalWords := CountWordsSpacy(text, tag);
    var tally := FillerTally(text, tag);
    if tally.counts != map[] && totalWords == 0 then
      Failure(ZeroDivisionError)
    else
      var percentages := Percentages(tally.counts, totalWords);
      var analysis := Analysis(totalWords, tally.counts, percentages, tally.total);
      assert analysis.fillerPercentages == percentages && analysis.fillerCounts == tally.counts;
      Success(analysis)
  }

  /** When no term is found, the counts and the percentages are empty, the total
      is zero, and no division happens, whatever the word count. */
  lemma NoFillersMeansEmptyResult(text: string, tag: Tagger)
    requires forall w :: ExpectedCount(text, tag, w) == 0
    ensures AnalyzeFillerWords(text, tag) == Success(Analysis(CountWordsSpacy(text, tag), map[], map[], 0))
  {
  }

  /** A tagger that never marks a counted filler token as punctuation yields at
      most one single-token filler per word. */
  lemma {:induction false} SingleFillersWithinWords(doc: seq<Token>)
    requires forall i :: 0 <= i < |doc| && IsCountedFiller(doc[i]) ==> !doc[i].isPunct
    ensures CountSingleTokens(doc).total <= WordCount(doc)
  {
    if |doc| > 0 {
      var prev := doc[..|doc| - 1];
      assert forall i :: 0 <= i < |prev| ==> prev[i] == doc[i];
      SingleFillersWithinWords(prev);
    }
  }
}
