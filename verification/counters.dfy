/** A Python `collections.Counter` keyed by strings: a finite map whose missing
    keys read as zero, and `c[k] += n` creates the key when it is absent. */
module Counters {

  type Counter = map<string, nat>

  /** `c[k]` on a Counter: zero for a key it does not hold. */
  function Get(c: Counter, k: string): nat {
    if k in c then c[k] else 0
  }

  /** `c[k] += n`: key `k` gains `n`, it becomes a key, and no other key changes. */
  function Add(c: Counter, k: string, n: nat): (r: Counter)
    ensures Get(r, k) == Get(c, k) + n
    ensures forall j :: j != k ==> Get(r, j) == Get(c, j)
    ensures r.Keys == c.Keys + {k}
  {
    c[k := Get(c, k) + n]
  }

  /** Every key holds a positive count, as when keys are only ever created by a
      positive increment. */
  predicate AllPositive(c: Counter) {
    forall k :: k in c ==> c[k] > 0
  }

  /** The sum of the counts, `sum(c.values())`. */
  ghost function Sum(c: Counter): nat
    decreases |c|
  {
    if c == map[] then 0
    else
      var k :| k in c;
      assert |c - {k}| < |c| by { assert (c - {k}).Keys == c.Keys - {k}; }
      c[k] + Sum(c - {k})
  }

  /** The sum does not depend on which key is taken out first. */
  lemma {:induction false} SumRemove(c: Counter, k: string)
    requires k in c
    ensures Sum(c) == c[k] + Sum(c - {k})
    decreases |c|
  {
    var k' :| k' in c && Sum(c) == c[k'] + Sum(c - {k'});
    if k' != k {
      var c1 := c - {k'};
      var c2 := c - {k};
      assert (c1 - {k}) == (c2 - {k'});
      assert |c1| < |c| by { assert c1.Keys == c.Keys - {k'}; }
      assert |c2| < |c| by { assert c2.Keys == c.Keys - {k}; }
      SumRemove(c1, k);
      SumRemove(c2, k');
    }
  }

  /** `c[k] += n` raises the sum of the counts by exactly `n`. */
  lemma SumAdd(c: Counter, k: string, n: nat)
    ensures Sum(Add(c, k, n)) == Sum(c) + n
  {
    var r := Add(c, k, n);
    SumRemove(r, k);
    if k in c {
      SumRemove(c, k);
      assert r - {k} == c - {k};
    } else {
      assert r - {k} == c;
    }
  }
}
