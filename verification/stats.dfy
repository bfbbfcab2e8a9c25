/** The mean of a sequence of star values, as every average in the system
    computes it: the sum over the count, or 0 for no values. */
module Stats {
  function Sum(vs: seq<int>): int
  {
    if |vs| == 0 then 0 else vs[0] + Sum(vs[1..])
  }

  /** Appending a value adds it to the sum. */
  lemma {:induction false} SumSnoc(vs: seq<int>, x: int)
    ensures Sum(vs + [x]) == Sum(vs) + x
  {
    if |vs| > 0 {
      assert (vs + [x])[1..] == vs[1..] + [x];
      SumSnoc(vs[1..], x);
    }
  }

  /** The mean rating: `sum / count`, or 0 when there are no ratings. */
  function Average(vs: seq<int>): (avg: real)
    ensures |vs| == 0 ==> avg == 0.0
    ensures |vs| > 0 ==> avg * (|vs| as real) == Sum(vs) as real
  {
    if |vs| == 0 then 0.0 else Sum(vs) as real / (|vs| as real)
  }

  /** Values all in `lo..hi` sum to between `lo` and `hi` times their count. */
  lemma {:induction false} SumBounds(vs: seq<int>, lo: int, hi: int)
    requires forall i :: 0 <= i < |vs| ==> lo <= vs[i] <= hi
    ensures lo * |vs| <= Sum(vs) <= hi * |vs|
  {
    if |vs| > 0 {
      SumBounds(vs[1..], lo, hi);
    }
  }

  /** An average of 1–5 star values lies within 1..5. */
  lemma AverageInStarRange(vs: seq<int>)
    requires |vs| > 0
    requires forall i :: 0 <= i < |vs| ==> 1 <= vs[i] <= 5
    ensures 1.0 <= Average(vs) <= 5.0
  {
    SumBounds(vs, 1, 5);
    var n := |vs| as real;
    var a := Average(vs);
    assert (a - 1.0) * n == Sum(vs) as real - n >= 0.0;
    PositiveFactor(a - 1.0, n);
    assert (5.0 - a) * n == 5.0 * n - Sum(vs) as real >= 0.0;
    PositiveFactor(5.0 - a, n);
  }

  lemma PositiveFactor(x: real, n: real)
    requires n > 0.0 && x * n >= 0.0
    ensures x >= 0.0
  {
  }

  /** The average of `[5, 3, 4]` is 4, and of no rows 0. */
  lemma AverageExamples()
    ensures Average([5, 3, 4]) == 4.0
    ensures Average([]) == 0.0
  {
    assert Sum([5, 3, 4]) == 12 by {
      assert [5, 3, 4][1..] == [3, 4];
      assert [3, 4][1..] == [4];
      assert [4][1..] == [];
    }
  }

}
