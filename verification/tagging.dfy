/** The tagged tokens the analysis reads, the filler vocabulary, and the per-word
    disambiguation predicate `is_probable_filler` (transcript.py:83-102). */
module Tagging {

  /** One token of the tagger's output: its text, its coarse part-of-speech tag
      (`pos_`), its dependency label (`dep_`) and whether it is punctuation. */
  datatype Token = Token(text: string, pos: string, dep: string, isPunct: bool)

  const ADV := "ADV"
  const INTJ := "INTJ"
  const VERB := "VERB"
  const DISCOURSE := "discourse"

  /** The fifteen filler terms, single words and phrases alike (transcript.py:67-70). */
  const FillerWords: set<string> := {
    "um", "uh", "like", "you know", "sort of", "kind of", "basically",
    "actually", "literally", "just", "really", "so", "well", "right", "i mean"
  }

  /** The vocabulary's entries that contain a space, in one fixed order. */
  const MultiWordFillers: seq<string> := ["you know", "sort of", "kind of", "i mean"]

  /** `is_probable_filler`: the if/elif chain, tested in the source's order. Only
      vocabulary words are accepted, and the entries with no tag condition are
      accepted whatever their tags. */
  function IsProbableFiller(t: Token): (r: bool)
    ensures r ==> t.text in FillerWords
    ensures t.text in {"um", "uh", "basically", "literally", "you know", "i mean", "sort of", "kind of"} ==> r
  {
    if t.text == "just" then t.pos == ADV
    else if t.text == "like" then t.pos == INTJ || (t.pos == VERB && t.dep == DISCOURSE)
    else if t.text == "so" then t.pos == ADV && t.dep == DISCOURSE
    else if t.text == "well" then t.pos == INTJ
    else if t.text == "right" then t.pos in {INTJ, ADV}
    else if t.text == "really" then t.pos == ADV
    else if t.text == "actually" then t.pos == ADV
    else if t.text in {"um", "uh"} then true
    else if t.text in {"you know", "i mean", "sort of", "kind of", "basically", "literally"} then true
    else false
  }

  /** The guard of the single-token pass (transcript.py:111). */
  predicate IsCountedFiller(t: Token) {
    t.text in FillerWords && IsProbableFiller(t)
  }

  /** A disambiguation rule, as a row of a decision table. */
  datatype Rule =
    | Always
    | PosIs(pos: string)
    | PosAndDep(pos: string, dep: string)
    | Either(left: Rule, right: Rule)

  predicate Holds(rule: Rule, t: Token) {
    match rule
    case Always => true
    case PosIs(p) => t.pos == p
    case PosAndDep(p, d) => t.pos == p && t.dep == d
    case Either(a, b) => Holds(a, t) || Holds(b, t)
  }

  /** The filler table as a word-to-rule map; a word absent from it is never a filler. */
  const FillerTable: map<string, Rule> := map[
    "just" := PosIs(ADV),
    "like" := Either(PosIs(INTJ), PosAndDep(VERB, DISCOURSE)),
    "so" := PosAndDep(ADV, DISCOURSE),
    "well" := PosIs(INTJ),
    "right" := Either(PosIs(INTJ), PosIs(ADV)),
    "really" := PosIs(ADV),
    "actually" := PosIs(ADV),
    "um" := Always,
    "uh" := Always,
    "basically" := Always,
    "literally" := Always,
    "you know" := Always,
    "i mean" := Always,
    "sort of" := Always,
    "kind of" := Always
  ]

  /** The if/elif chain decides every token exactly as the table does. */
  lemma PredicateFollowsTable(t: Token)
    ensures IsProbableFiller(t) <==> t.text in FillerTable && Holds(FillerTable[t.text], t)
  {
  }

  /** The table has a row for each vocabulary entry and for nothing else. */
  lemma TableCoversVocabulary()
    ensures FillerTable.Keys == FillerWords
  {
  }

  /** The predicate accepts only vocabulary words, so the membership test that
      guards it in the single-token pass never changes the outcome. */
  lemma VocabularyGuardIsRedundant(t: Token)
    ensures IsCountedFiller(t) == IsProbableFiller(t)
  {
  }

  /** Every vocabulary entry is accepted for some tagging, and every entry with a
      tag-dependent rule is also rejected for some tagging. */
  lemma EveryEntryIsReachable(w: string)
    requires w in FillerWords
    ensures exists pos, dep :: IsProbableFiller(Token(w, pos, dep, false))
    ensures FillerTable[w] != Always ==> exists pos, dep :: !IsProbableFiller(Token(w, pos, dep, false))
  {
    assert IsProbableFiller(Token(w, if w == "so" then ADV else if w in {"like", "well", "right"} then INTJ else ADV,
                                   DISCOURSE, false));
    assert !IsProbableFiller(Token(w, "NOUN", "nsubj", false)) || FillerTable[w] == Always;
  }

  /** Outside the seven disambiguated words the tags play no part. */
  lemma TagsMatterOnlyForDisambiguatedWords(t: Token, u: Token)
    requires t.text == u.text
    requires t.text !in {"just", "like", "so", "well", "right", "really", "actually"}
    ensures IsProbableFiller(t) == IsProbableFiller(u)
  {
  }

  /** A vocabulary entry contains a space exactly when it is in the phrase list
      (transcript.py:116). */
  lemma SpacedEntriesAreThePhrases(w: string)
    requires w in FillerWords
    ensures ' ' in w <==> w in MultiWordFillers
  {
    if w in MultiWordFillers {
      assert w == "you know" || w == "sort of" || w == "kind of" || w == "i mean";
      assert "you know"[3] == ' ' && "sort of"[4] == ' ' && "kind of"[4] == ' ' && "i mean"[1] == ' ';
    } else {
      assert w in {"um", "uh", "like", "basically", "actually", "literally", "just", "really", "so", "well", "right"};
    }
  }

  /** The phrase list names each phrase once, and only vocabulary entries. */
  lemma MultiWordFillersAreDistinctEntries()
    ensures forall a, b :: 0 <= a < b < |MultiWordFillers| ==> MultiWordFillers[a] != MultiWordFillers[b]
    ensures forall w :: w in MultiWordFillers ==> w in FillerWords
  {
  }
}
