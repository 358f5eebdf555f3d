/**
 * The ranking part of `show_results`: the ten (digit, probability) pairs are
 * bubble-sorted in place, most probable first, and the first of them is
 * compared with the true label for the OK/ERR verdict. The sort swaps only
 * on a strictly smaller probability, so equal probabilities stay in digit
 * order.
 */
module Ranking {
  import opened Basics
  import opened ArgMax

  /** Ten digit classes. */
  const NumClasses: nat := 10

  /** `prediction_t`. Probabilities are only compared, so an `int` stands for the `float`. */
  datatype Prediction = Prediction(digit: int, prob: int)

  /** `a` is listed before `b`: it is more probable, or as probable and a lower digit. */
  predicate RanksBefore(a: Prediction, b: Prediction)
  {
    a.prob > b.prob || (a.prob == b.prob && a.digit < b.digit)
  }

  /** Among equal probabilities the lower digit comes first. */
  predicate TiesInDigitOrder(s: seq<Prediction>)
  {
    forall i, j :: 0 <= i < j < |s| && s[i].prob == s[j].prob ==> s[i].digit < s[j].digit
  }

  /** Every entry is listed before every later one. */
  predicate StrictlyRanked(s: seq<Prediction>)
  {
    forall i, j :: 0 <= i < j < |s| ==> RanksBefore(s[i], s[j])
  }

  /**
   * The table `show_results` fills before sorting: entry `i` is digit `i`
   * with `probs[i]`, so every entry carries its own digit's probability and
   * the digits ascend.
   */
  function Indexed(probs: seq<int>): (t: seq<Prediction>)
    ensures |t| == |probs|
    ensures forall i :: 0 <= i < |t| ==> 0 <= t[i].digit < |probs| && t[i].prob == probs[t[i].digit]
    ensures forall i, j :: 0 <= i < j < |t| ==> t[i].digit < t[j].digit
  {
    seq(|probs|, i requires 0 <= i < |probs| => Prediction(i, probs[i]))
  }

  /** `r` is the table of `probs`, reordered most probable first with ties in digit order. */
  predicate IsRanking(probs: seq<int>, r: seq<Prediction>)
  {
    multiset(r) == multiset(Indexed(probs)) && StrictlyRanked(r)
  }

  // ---------------------------------------------------------------------
  // The bubble sort

  /** Positions `m..` hold their final entries: they are sorted and no earlier entry is less probable. */
  ghost predicate SortedFrom(s: seq<Prediction>, m: int)
    requires 0 <= m <= |s|
  {
    (forall i, j :: m <= i < j < |s| ==> s[i].prob >= s[j].prob) &&
    (forall i, j :: 0 <= i < m <= j < |s| ==> s[i].prob >= s[j].prob)
  }

  /** Exchanging two neighbours of different probability keeps equal probabilities in digit order. */
  lemma SwapKeepsTies(s: seq<Prediction>, j: nat)
    requires j + 1 < |s| && s[j].prob != s[j + 1].prob
    requires TiesInDigitOrder(s)
    ensures TiesInDigitOrder(s[j := s[j + 1]][j + 1 := s[j]])
  {
    var t := s[j := s[j + 1]][j + 1 := s[j]];
    forall a, b | 0 <= a < b < |t| && t[a].prob == t[b].prob
      ensures t[a].digit < t[b].digit
    {
      var a' := if a == j then j + 1 else if a == j + 1 then j else a;
      var b' := if b == j then j + 1 else if b == j + 1 then j else b;
      assert t[a] == s[a'] && t[b] == s[b'];
      assert a' < b';
    }
  }

  /** One comparison of the inner loop at `j`: the neighbours are exchanged when `s[j]` is less probable. */
  function Bubbled(s: seq<Prediction>, j: nat): (t: seq<Prediction>)
    requires j + 1 < |s|
    ensures |t| == |s| && t[..j] == s[..j] && t[j + 2..] == s[j + 2..]
    ensures (t[j], t[j + 1]) == (s[j], s[j + 1]) || (t[j], t[j + 1]) == (s[j + 1], s[j])
    ensures t[j].prob >= t[j + 1].prob
    ensures s[j].prob >= s[j + 1].prob ==> t == s
  {
    if s[j].prob < s[j + 1].prob then s[j := s[j + 1]][j + 1 := s[j]] else s
  }

  /** No entry before `j` is less probable than `s[j]`. */
  ghost predicate LeastAt(s: seq<Prediction>, j: nat)
    requires j < |s|
  {
    forall k :: 0 <= k < j ==> s[k].prob >= s[j].prob
  }

  /**
   * A comparison inside the unsorted prefix `..m` keeps the sorted suffix and
   * carries the least probable entry seen so far one place on.
   */
  lemma BubbleStep(s: seq<Prediction>, m: nat, j: nat)
    requires j + 1 < m <= |s| && SortedFrom(s, m)
    requires LeastAt(s, j)
    ensures SortedFrom(Bubbled(s, j), m) && LeastAt(Bubbled(s, j), j + 1)
  {
  }

  /** After a full pass the least probable entry of the prefix joins the sorted suffix. */
  lemma PassDone(s: seq<Prediction>, m: nat)
    requires 0 < m <= |s| && SortedFrom(s, m)
    requires LeastAt(s, m - 1)
    ensures SortedFrom(s, m - 1)
  {
  }

  /** Sorted by probability with ties in digit order is strictly ranked. */
  lemma SortDone(s: seq<Prediction>)
    requires |s| > 0 && SortedFrom(s, 1) && TiesInDigitOrder(s)
    ensures StrictlyRanked(s)
  {
  }

  /** One comparison of the inner loop: swap `a[j]` and `a[j+1]` when `a[j]` is less probable. */
  method CompareAndSwap(a: array<Prediction>, j: nat)
    requires j + 1 < a.Length
    requires TiesInDigitOrder(a[..])
    modifies a
    ensures a[..] == Bubbled(old(a[..]), j)
    ensures multiset(a[..]) == multiset(old(a[..])) && TiesInDigitOrder(a[..])
  {
    if a[j].prob < a[j + 1].prob {
      SwapKeepsTies(a[..], j);
      var temp := a[j];
      a[j] := a[j + 1];
      a[j + 1] := temp;
    }
  }

  /** Pass `i` of the outer loop: the inner loop over `j < 9-i`. */
  method BubblePass(a: array<Prediction>, i: nat)
    requires i < NumClasses - 1 && a.Length == NumClasses
    requires TiesInDigitOrder(a[..]) && SortedFrom(a[..], NumClasses - i)
    modifies a
    ensures multiset(a[..]) == multiset(old(a[..]))
    ensures TiesInDigitOrder(a[..]) && SortedFrom(a[..], NumClasses - 1 - i)
  {
    var j := 0;
    while j < NumClasses - 1 - i
      invariant 0 <= j <= NumClasses - 1 - i
      invariant multiset(a[..]) == multiset(old(a[..]))
      invariant TiesInDigitOrder(a[..])
      invariant SortedFrom(a[..], NumClasses - i)
      invariant LeastAt(a[..], j)
    {
      ghost var before := a[..];
      BubbleStep(before, NumClasses - i, j);
      CompareAndSwap(a, j);
      j := j + 1;
    }
    PassDone(a[..], NumClasses - i);
  }

  /**
   * The nested loops of `show_results`: pass `i` bubbles the least probable
   * of `a[0..9-i]` to position `9-i`. Sorting a table whose equal
   * probabilities are in digit order ranks it.
   */
  method SortByProbability(a: array<Prediction>)
    requires a.Length == NumClasses
    requires TiesInDigitOrder(a[..])
    modifies a
    ensures multiset(a[..]) == multiset(old(a[..]))
    ensures StrictlyRanked(a[..])
  {
    var i := 0;
    while i < NumClasses - 1
      invariant 0 <= i <= NumClasses - 1
      invariant multiset(a[..]) == multiset(old(a[..]))
      invariant TiesInDigitOrder(a[..])
      invariant SortedFrom(a[..], NumClasses - i)
    {
      BubblePass(a, i);
      i := i + 1;
    }
    SortDone(a[..]);
  }

  // ---------------------------------------------------------------------
  // The ranking and the verdict

  /** What the display shows: the real label, the ranked table (its first three lines) and OK/ERR. */
  datatype Report = Report(realLabel: Byte, ranked: seq<Prediction>, correct: bool)

  /**
   * The sort and verdict of `show_results`. The table is ranked, and the
   * verdict is OK exactly when the true label is the first digit of highest
   * probability.
   */
  method ShowResults(probs: seq<int>, trueLabel: Byte) returns (report: Report)
    requires |probs| == NumClasses
    ensures report.realLabel == trueLabel && IsRanking(probs, report.ranked)
    ensures report.correct <==> IsFirstMax(probs, trueLabel)
  {
    var preds := new Prediction[NumClasses];
    var i := 0;
    while i < NumClasses
      invariant 0 <= i <= NumClasses
      invariant forall k :: 0 <= k < i ==> preds[k] == Prediction(k, probs[k])
    {
      preds[i] := Prediction(i, probs[i]);
      i := i + 1;
    }
    assert preds[..] == Indexed(probs);
    SortByProbability(preds);
    var correct := preds[0].digit == trueLabel;
    LeaderIsFirstMax(probs, preds[..]);
    if IsFirstMax(probs, trueLabel) {
      FirstMaxUnique(probs, preds[0].digit, trueLabel);
    }
    report := Report(trueLabel, preds[..], correct);
  }

  /** Every entry of a ranking is one of the table's entries, and every table entry is in it. */
  lemma RankingEntries(probs: seq<int>, r: seq<Prediction>)
    requires IsRanking(probs, r)
    ensures |r| == |probs|
    ensures forall p :: 0 <= p < |r| ==> 0 <= r[p].digit < |probs| && r[p].prob == probs[r[p].digit]
    ensures forall d :: 0 <= d < |probs| ==> Prediction(d, probs[d]) in r
  {
    var t := Indexed(probs);
    assert |r| == |multiset(r)| == |multiset(t)| == |t|;
    forall p | 0 <= p < |r|
      ensures 0 <= r[p].digit < |probs| && r[p].prob == probs[r[p].digit]
    {
      assert r[p] in multiset(t);
    }
    forall d | 0 <= d < |probs|
      ensures Prediction(d, probs[d]) in r
    {
      assert t[d] in multiset(r);
    }
  }

  /** The first entry of the ranking is the first digit of highest probability. */
  lemma LeaderIsFirstMax(probs: seq<int>, r: seq<Prediction>)
    requires IsRanking(probs, r) && |probs| > 0
    ensures IsFirstMax(probs, r[0].digit)
  {
    RankingEntries(probs, r);
    var lead := r[0];
    forall d | 0 <= d < |probs|
      ensures probs[d] <= probs[lead.digit] && (d < lead.digit ==> probs[d] < probs[lead.digit])
    {
      var p :| 0 <= p < |r| && r[p] == Prediction(d, probs[d]);
      if p > 0 {
        assert RanksBefore(r[0], r[p]);
      }
    }
  }

  /** Two strictly ranked sequences with the same entries are equal. */
  lemma {:induction false} StrictlyRankedUnique(a: seq<Prediction>, b: seq<Prediction>)
    requires StrictlyRanked(a) && StrictlyRanked(b) && multiset(a) == multiset(b)
    ensures a == b
    decreases |a|
  {
    assert |a| == |multiset(a)| == |multiset(b)| == |b|;
    if |a| > 0 {
      SameLeader(a, b);
      HeadAndTail(a);
      HeadAndTail(b);
      assert StrictlyRanked(a[1..]) && StrictlyRanked(b[1..]);
      StrictlyRankedUnique(a[1..], b[1..]);
    }
  }

  /** The entry listed first is the one that ranks before all the others. */
  lemma SameLeader(a: seq<Prediction>, b: seq<Prediction>)
    requires StrictlyRanked(a) && StrictlyRanked(b) && multiset(a) == multiset(b) && |a| > 0 && |b| > 0
    ensures a[0] == b[0]
  {
    var x, y := a[0], b[0];
    assert x in multiset(b) && y in multiset(a);
    var p :| 0 <= p < |b| && b[p] == x;
    var q :| 0 <= q < |a| && a[q] == y;
    assert x == y || RanksBefore(y, x);
    assert x == y || RanksBefore(x, y);
  }

  lemma HeadAndTail(s: seq<Prediction>)
    requires |s| > 0
    ensures s == [s[0]] + s[1..] && multiset(s[1..]) == multiset(s) - multiset{s[0]}
  {
    assert s == [s[0]] + s[1..];
  }

  /** The ranking of a table is unique, so the sort's result does not depend on how it got there. */
  lemma RankingUnique(probs: seq<int>, r1: seq<Prediction>, r2: seq<Prediction>)
    requires IsRanking(probs, r1) && IsRanking(probs, r2)
    ensures r1 == r2
  {
    StrictlyRankedUnique(r1, r2);
  }

  /** A table whose probabilities already do not increase is its own ranking: the sort moves nothing. */
  lemma SortedTableStays(probs: seq<int>)
    requires forall i, j :: 0 <= i < j < |probs| ==> probs[i] >= probs[j]
    ensures IsRanking(probs, Indexed(probs))
    ensures forall r :: IsRanking(probs, r) ==> r == Indexed(probs)
  {
    forall r | IsRanking(probs, r)
      ensures r == Indexed(probs)
    {
      RankingUnique(probs, r, Indexed(probs));
    }
  }

  /** `x` and `y` order their positions alike: a monotone map such as softmax relates them. */
  predicate SameOrder(x: seq<int>, y: seq<int>)
  {
    |x| == |y| && forall i, j :: 0 <= i < |x| && 0 <= j < |x| ==> (x[i] < x[j] <==> y[i] < y[j])
  }

  /** Sequences in the same order have the same first maximum. */
  lemma FirstMaxTransfers(x: seq<int>, y: seq<int>, k: int)
    requires SameOrder(x, y)
    ensures IsFirstMax(x, k) <==> IsFirstMax(y, k)
  {
  }

  /**
   * The console's `pred` (`argmax_i8` of the logits) and the display's first
   * line (the ranking of the probabilities) name the same digit, as long as
   * the probabilities keep the order of the logits.
   */
  lemma ConsoleMatchesDisplay(logits: seq<int>, probs: seq<int>, pred: int, r: seq<Prediction>)
    requires SameOrder(logits, probs) && IsFirstMax(logits, pred) && IsRanking(probs, r)
    ensures r[0].digit == pred
  {
    FirstMaxTransfers(logits, probs, pred);
    LeaderIsFirstMax(probs, r);
    FirstMaxUnique(probs, r[0].digit, pred);
  }
}
