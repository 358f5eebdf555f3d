/**
 * `argmax_i8`: the index of the largest of the first `n` logits, the lowest
 * such index when several share the maximum. This is the `pred` the console
 * reports after an inference.
 */
module ArgMax {
  /** `int8_t`. */
  type I8 = x: int | -128 <= x < 128

  /** `k` holds the maximum of `s`, and no earlier position does. */
  predicate IsFirstMax(s: seq<int>, k: int)
  {
    0 <= k < |s| &&
    (forall i :: 0 <= i < |s| ==> s[i] <= s[k]) &&
    (forall i :: 0 <= i < k ==> s[i] < s[k])
  }

  /** A sequence has at most one first maximum. */
  lemma FirstMaxUnique(s: seq<int>, j: int, k: int)
    requires IsFirstMax(s, j) && IsFirstMax(s, k)
    ensures j == k
  {
    assert s[j] == s[k];
  }

  /** Every non-empty sequence has a first maximum. */
  lemma {:induction false} FirstMaxExists(s: seq<int>) returns (k: int)
    requires |s| > 0
    ensures IsFirstMax(s, k)
    decreases |s|
  {
    if |s| == 1 {
      k := 0;
    } else {
      var j := FirstMaxExists(s[..|s| - 1]);
      assert forall i :: 0 <= i < |s| - 1 ==> s[..|s| - 1][i] == s[i];
      k := if s[|s| - 1] > s[j] then |s| - 1 else j;
    }
  }

  /**
   * The loop of `argmax_i8`: `best` moves only on a strictly larger value, so
   * a tie keeps the earlier index.
   */
  method ArgMaxI8(v: array<I8>, n: int) returns (best: int)
    requires 1 <= n <= v.Length
    ensures IsFirstMax(v[..n], best)
  {
    best := 0;
    var bestv := v[0];
    var i := 1;
    while i < n
      invariant 1 <= i <= n
      invariant 0 <= best < i && bestv == v[best]
      invariant forall k :: 0 <= k < i ==> v[k] <= bestv
      invariant forall k :: 0 <= k < best ==> v[k] < bestv
    {
      if v[i] > bestv {
        bestv := v[i];
        best := i;
      }
      i := i + 1;
    }
  }
}
