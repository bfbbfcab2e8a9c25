/** The store owner's rating distribution: for each star from 5 down to 1,
    how many ratings have it and what share of all ratings that is. */
module RatingAnalytics {
  import opened Seqs
  import opened AuthContext
  import StoreStats

  datatype Bucket = Bucket(star: int, count: nat, percentage: real)

  function CountStars(rs: seq<Rating>, star: int): (n: nat)
    ensures n <= |rs|
  {
    Count(rs, (r: Rating) => r.rating == star)
  }

  /** `(count / total) * 100`, or 0 with no ratings. */
  function Percentage(count: nat, total: nat): (p: real)
    ensures total == 0 ==> p == 0.0
    ensures total > 0 ==> p * (total as real) == 100.0 * (count as real)
  {
    if total > 0 then (count as real / total as real) * 100.0 else 0.0
  }

  /** `ratingDistribution`: five buckets in star order 5, 4, 3, 2, 1. */
  function Distribution(rs: seq<Rating>): (d: seq<Bucket>)
    ensures |d| == 5
    ensures forall i :: 0 <= i < 5 ==> d[i].star == 5 - i
    ensures forall i :: 0 <= i < 5 ==> d[i].count == CountStars(rs, d[i].star)
    ensures forall i :: 0 <= i < 5 ==> d[i].percentage == Percentage(d[i].count, |rs|)
  {
    seq(5, i requires 0 <= i < 5 => Bucket(5 - i, CountStars(rs, 5 - i), Percentage(CountStars(rs, 5 - i), |rs|)))
  }

  /** With every value a star count, each rating lands in exactly one bucket. */
  lemma {:induction false} StarCountsCoverAll(rs: seq<Rating>)
    requires InRange(rs)
    ensures CountStars(rs, 5) + CountStars(rs, 4) + CountStars(rs, 3) + CountStars(rs, 2) + CountStars(rs, 1) == |rs|
    decreases |rs|
  {
    if |rs| > 0 {
      StarCountsCoverAll(rs[1..]);
    }
  }

  /** Each share is the count times one hundredth of the total's inverse. */
  lemma PercentageScales(count: nat, total: nat)
    requires total > 0
    ensures Percentage(count, total) == (count as real) * (100.0 / total as real)
  {
  }

  /** Shares of counts that make up the total add up to 100. */
  lemma SharesAddUp(a: nat, b: nat, c: nat, d: nat, e: nat, total: nat)
    requires total > 0 && a + b + c + d + e == total
    ensures Percentage(a, total) + Percentage(b, total) + Percentage(c, total) + Percentage(d, total)
            + Percentage(e, total) == 100.0
  {
    var k := 100.0 / total as real;
    PercentageScales(a, total);
    PercentageScales(b, total);
    PercentageScales(c, total);
    PercentageScales(d, total);
    PercentageScales(e, total);
    assert (a as real) * k + (b as real) * k + (c as real) * k + (d as real) * k + (e as real) * k
        == (total as real) * k;
  }

  /** The counts add up to the total and, with any ratings, the percentages
      to 100. */
  lemma DistributionTotals(rs: seq<Rating>)
    requires InRange(rs)
    ensures var d := Distribution(rs);
            d[0].count + d[1].count + d[2].count + d[3].count + d[4].count == |rs|
    ensures var d := Distribution(rs);
            |rs| > 0 ==> d[0].percentage + d[1].percentage + d[2].percentage + d[3].percentage + d[4].percentage == 100.0
  {
    StarCountsCoverAll(rs);
    var d := Distribution(rs);
    if |rs| > 0 {
      SharesAddUp(d[0].count, d[1].count, d[2].count, d[3].count, d[4].count, |rs|);
    }
  }

  /** The card renders only for an owned store that has ratings. */
  predicate Renders(st: State)
  {
    StoreStats.OwnedStore(st).Some? && |StoreStats.StoreRatings(st)| > 0
  }
}
