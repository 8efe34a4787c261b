/**
 * Counting by key, as the dashboard does with
 * `list.reduce((acc, x) => { acc[k(x)] = (acc[k(x)] || 0) + 1; return acc; }, {})`
 * followed by `Object.entries(acc)`: one counter per distinct key, the keys
 * in the order they were first seen.
 */
module Tally {

  /** The keys in order of first appearance, each once. */
  function Distinct(keys: seq<string>): (order: seq<string>)
    ensures forall k :: k in order <==> k in keys
    ensures NoDuplicates(order)
    ensures |order| <= |keys|
    decreases |keys|
  {
    if |keys| == 0 then []
    else
      var d := Distinct(keys[..|keys| - 1]);
      var last := keys[|keys| - 1];
      assert keys == keys[..|keys| - 1] + [last];
      if last in d then d else d + [last]
  }

  predicate NoDuplicates(s: seq<string>) {
    forall i, j :: 0 <= i < j < |s| ==> s[i] != s[j]
  }

  /** How many times `k` occurs in `keys`. */
  function Occurrences(keys: seq<string>, k: string): (n: nat)
    ensures n <= |keys|
    ensures n == 0 <==> k !in keys
    decreases |keys|
  {
    if |keys| == 0 then 0
    else
      var init := keys[..|keys| - 1];
      assert keys == init + [keys[|keys| - 1]];
      Occurrences(init, k) + (if keys[|keys| - 1] == k then 1 else 0)
  }

  /** The sum of the counters of the keys in `order`. */
  function SumCounts(order: seq<string>, keys: seq<string>): nat
    decreases |order|
  {
    if |order| == 0 then 0 else Occurrences(keys, order[0]) + SumCounts(order[1..], keys)
  }

  /** `order` and `counts` are the result of counting `keys`. */
  ghost predicate Counted(order: seq<string>, counts: map<string, nat>, keys: seq<string>) {
    order == Distinct(keys)
    && (forall k :: k in counts <==> k in keys)
    && (forall k :: k in counts ==> counts[k] == Occurrences(keys, k))
  }

  /**
   * The counting loop: `order` lists the keys as `Object.entries` does
   * (insertion order) and `counts` holds the counter of each.
   */
  method Count(keys: seq<string>) returns (order: seq<string>, counts: map<string, nat>)
    ensures order == Distinct(keys)
    ensures forall k :: k in counts <==> k in keys
    ensures forall k :: k in counts ==> counts[k] == Occurrences(keys, k)
  {
    order := [];
    counts := map[];
    var i := 0;
    while i < |keys|
      invariant 0 <= i <= |keys|
      invariant Counted(order, counts, keys[..i])
    {
      var k := keys[i];
      CountStep(order, counts, keys, i);
      if k in counts {
        counts := counts[k := counts[k] + 1];
      } else {
        order := order + [k];
        counts := counts[k := 1];
      }
      i := i + 1;
    }
    assert keys[..|keys|] == keys;
  }

  /** Counting one more key: a known key's counter grows; a new key joins the order with counter 1. */
  lemma CountStep(order: seq<string>, counts: map<string, nat>, keys: seq<string>, i: nat)
    requires i < |keys| && Counted(order, counts, keys[..i])
    ensures keys[i] in counts ==> Counted(order, counts[keys[i] := counts[keys[i]] + 1], keys[..i + 1])
    ensures keys[i] !in counts ==> Counted(order + [keys[i]], counts[keys[i] := 1], keys[..i + 1])
  {
    var prefix := keys[..i + 1];
    assert prefix == keys[..i] + [keys[i]];
  }

  lemma {:induction false} SumCountsAppend(order: seq<string>, k: string, keys: seq<string>)
    ensures SumCounts(order + [k], keys) == SumCounts(order, keys) + Occurrences(keys, k)
    decreases |order|
  {
    if |order| > 0 {
      assert (order + [k])[1..] == order[1..] + [k];
      SumCountsAppend(order[1..], k, keys);
    }
  }

  /** One more key raises the sum by one exactly when that key is among the counted ones. */
  lemma {:induction false} SumCountsExtend(order: seq<string>, keys: seq<string>, x: string)
    requires NoDuplicates(order)
    ensures SumCounts(order, keys + [x]) == SumCounts(order, keys) + (if x in order then 1 else 0)
    decreases |order|
  {
    if |order| > 0 {
      var init := keys + [x];
      assert init[..|init| - 1] == keys;
      assert NoDuplicates(order[1..]) by {
        forall i, j | 0 <= i < j < |order[1..]| ensures order[1..][i] != order[1..][j] {
          assert order[1..][i] == order[i + 1] && order[1..][j] == order[j + 1];
        }
      }
      SumCountsExtend(order[1..], keys, x);
      if order[0] == x {
        assert x !in order[1..] by {
          forall j | 0 <= j < |order[1..]| ensures order[1..][j] != x {
            assert order[1..][j] == order[j + 1];
          }
        }
      } else {
        assert x in order ==> x in order[1..];
      }
    }
  }

  /** The counters add up to the number of keys counted. */
  lemma {:induction false} CountsSumToTotal(keys: seq<string>)
    ensures SumCounts(Distinct(keys), keys) == |keys|
    decreases |keys|
  {
    if |keys| > 0 {
      var init := keys[..|keys| - 1];
      var x := keys[|keys| - 1];
      assert keys == init + [x];
      CountsSumToTotal(init);
      var d := Distinct(init);
      SumCountsExtend(d, init, x);
      if x !in d {
        SumCountsAppend(d, x, keys);
        assert Occurrences(keys, x) == 1;
      }
    }
  }
}
