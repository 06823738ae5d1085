/** The two Python string operations the analysis relies on: `str.lower()` and
    `str.count(sub)`, the number of non-overlapping occurrences of `sub`. */
module Strings {

  predicate IsUpper(c: char) {
    'A' <= c <= 'Z'
  }

  /** Text with no capital letter. */
  predicate NoUpper(s: string) {
    forall i :: 0 <= i < |s| ==> !IsUpper(s[i])
  }

  /** `c` and `d` are the same letter up to ASCII case, `d` being lower case. */
  predicate SameIgnoringCase(c: char, d: char) {
    c == d || (IsUpper(c) && d as int - 'a' as int == c as int - 'A' as int)
  }

  function LowerChar(c: char): char {
    if IsUpper(c) then (c as int + 32) as char else c
  }

  /** `s.lower()`, restricted to the ASCII letters: capitals become the matching
      small letter, every other character is kept, and no capital remains. */
  function Lower(s: string): (r: string)
    ensures |r| == |s|
    ensures NoUpper(r)
    ensures forall i :: 0 <= i < |s| && !IsUpper(s[i]) ==> r[i] == s[i]
    ensures forall i :: 0 <= i < |s| && IsUpper(s[i]) ==> r[i] as int - 'a' as int == s[i] as int - 'A' as int
  {
    seq(|s|, i requires 0 <= i < |s| => LowerChar(s[i]))
  }

  /** A pattern without capitals occurs in the lowered text exactly where it
      occurs in the original up to ASCII case, which is how the phrase pass finds
      "You know" as "you know". */
  lemma OccursInLowerIff(s: string, pat: string, j: int)
    requires NoUpper(pat)
    ensures OccursAt(Lower(s), pat, j) <==>
              0 <= j && j + |pat| <= |s| && forall k :: 0 <= k < |pat| ==> SameIgnoringCase(s[j + k], pat[k])
  {
    var r := Lower(s);
    if 0 <= j && j + |pat| <= |s| {
      if forall k :: 0 <= k < |pat| ==> SameIgnoringCase(s[j + k], pat[k]) {
        forall k | 0 <= k < |pat| ensures r[j + k] == pat[k] {
          assert SameIgnoringCase(s[j + k], pat[k]);
          assert !IsUpper(pat[k]);
        }
        assert r[j..j + |pat|] == pat;
      }
      if r[j..j + |pat|] == pat {
        forall k | 0 <= k < |pat| ensures SameIgnoringCase(s[j + k], pat[k]) {
          assert r[j + k] == pat[k];
        }
      }
    }
  }

  /** `pat` occurs in `s` starting at index `i`. */
  predicate OccursAt(s: string, pat: string, i: int) {
    0 <= i && i + |pat| <= |s| && s[i..i + |pat|] == pat
  }

  /** A sequence of start positions of `pat` in `s` is non-overlapping when any two
      of them, in order, lie at least `|pat|` apart. */
  predicate NonOverlapping(ps: seq<int>, width: nat) {
    forall a, b :: 0 <= a < b < |ps| ==> ps[a] + width <= ps[b]
  }

  /** The left-to-right scan of `str.count` from index `i`: on a match at `i` it
      counts one and resumes after the match, otherwise it advances by one. */
  function CountFrom(s: string, pat: string, i: nat): nat
    requires |pat| > 0
    decreases |s| - i
  {
    if i + |pat| > |s| then 0
    else if s[i..i + |pat|] == pat then 1 + CountFrom(s, pat, i + |pat|)
    else CountFrom(s, pat, i + 1)
  }

  /** `s.count(pat)`. The empty pattern occurs at each of the `|s| + 1` positions;
      a non-empty one is counted once per match of the left-to-right scan, and the
      matches fit in the text. */
  function Count(s: string, pat: string): (n: nat)
    ensures |pat| > 0 ==> n == |MatchPositions(s, pat, 0)|
    ensures |pat| > 0 ==> n * |pat| <= |s|
  {
    if |pat| == 0 then |s| + 1
    else
      CountFromBound(s, pat, 0);
      CountFrom(s, pat, 0)
  }

  /** The positions at which the scan of `CountFrom` finds its matches. */
  function MatchPositions(s: string, pat: string, i: nat): (ps: seq<int>)
    requires |pat| > 0
    ensures |ps| == CountFrom(s, pat, i)
    ensures forall k :: 0 <= k < |ps| ==> i <= ps[k] && OccursAt(s, pat, ps[k])
    ensures NonOverlapping(ps, |pat|)
    decreases |s| - i
  {
    if i + |pat| > |s| then []
    else if s[i..i + |pat|] == pat then [i] + MatchPositions(s, pat, i + |pat|)
    else MatchPositions(s, pat, i + 1)
  }

  /** The count is positive exactly when the pattern occurs at or after `i`. */
  lemma {:induction false} CountFromPositiveIff(s: string, pat: string, i: nat)
    requires |pat| > 0
    ensures CountFrom(s, pat, i) > 0 <==> exists j :: i <= j && OccursAt(s, pat, j)
    decreases |s| - i
  {
    if i + |pat| > |s| {
      assert forall j :: i <= j ==> !OccursAt(s, pat, j);
    } else if s[i..i + |pat|] == pat {
      assert OccursAt(s, pat, i);
    } else {
      CountFromPositiveIff(s, pat, i + 1);
      assert forall j :: i <= j && OccursAt(s, pat, j) ==> i + 1 <= j;
    }
  }

  /** No non-overlapping family of occurrences at or after `i` is larger than the
      count: the greedy scan finds the maximum number of non-overlapping matches. */
  lemma {:induction false} CountFromIsMaximal(s: string, pat: string, i: nat, ps: seq<int>)
    requires |pat| > 0
    requires forall k :: 0 <= k < |ps| ==> i <= ps[k] && OccursAt(s, pat, ps[k])
    requires NonOverlapping(ps, |pat|)
    ensures |ps| <= CountFrom(s, pat, i)
    decreases |s| - i
  {
    if |ps| > 0 {
      assert OccursAt(s, pat, ps[0]);
      if s[i..i + |pat|] == pat {
        var rest := ps[1..];
        assert forall k :: 0 <= k < |rest| ==> rest[k] == ps[k + 1];
        assert forall k :: 0 <= k < |rest| ==> i + |pat| <= rest[k] by {
          forall k | 0 <= k < |rest|
            ensures i + |pat| <= rest[k]
          {
            assert ps[0] + |pat| <= ps[k + 1];
          }
        }
        CountFromIsMaximal(s, pat, i + |pat|, rest);
      } else {
        assert forall k :: 0 <= k < |ps| ==> i + 1 <= ps[k] by {
          forall k | 0 <= k < |ps|
            ensures i + 1 <= ps[k]
          {
            assert ps[k] != i;
          }
        }
        CountFromIsMaximal(s, pat, i + 1, ps);
      }
    }
  }

  /** `s.count(pat)` for a non-empty pattern is positive exactly when `pat` is a
      substring of `s`. */
  lemma CountPositiveIffOccurs(s: string, pat: string)
    requires |pat| > 0
    ensures Count(s, pat) > 0 <==> exists j :: OccursAt(s, pat, j)
  {
    CountFromPositiveIff(s, pat, 0);
  }

  /** `s.count(pat)` for a non-empty pattern is the largest number of
      non-overlapping occurrences: one such family of that size exists, and no
      family is larger. */
  lemma CountIsMaximumNonOverlapping(s: string, pat: string, ps: seq<int>)
    requires |pat| > 0
    requires forall k :: 0 <= k < |ps| ==> OccursAt(s, pat, ps[k])
    requires NonOverlapping(ps, |pat|)
    ensures |ps| <= Count(s, pat)
    ensures |MatchPositions(s, pat, 0)| == Count(s, pat)
  {
    CountFromIsMaximal(s, pat, 0, ps);
  }

  /** Non-overlapping matches of a non-empty pattern fit in the text. */
  lemma {:induction false} CountFromBound(s: string, pat: string, i: nat)
    requires |pat| > 0
    requires i <= |s|
    ensures CountFrom(s, pat, i) * |pat| <= |s| - i
    decreases |s| - i
  {
    if i + |pat| > |s| {
    } else if s[i..i + |pat|] == pat {
      CountFromBound(s, pat, i + |pat|);
    } else {
      CountFromBound(s, pat, i + 1);
    }
  }
}
