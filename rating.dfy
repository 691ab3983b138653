/** The rating aggregation behind `Listing.update_rating`: the `Avg('rating')`
    aggregate over a listing's reviews, rounded to two decimals, and the
    consistency of a listing row's derived columns with its reviews. */
module Rating {
  import opened Wrappers
  import opened Entities

  /** Sum of the review ratings. */
  function RatingSum(rs: seq<Review>): nat {
    if rs == [] then 0 else RatingSum(rs[..|rs| - 1]) + rs[|rs| - 1].rating
  }

  /** With every rating in 1..5, the sum lies between one and five per review. */
  lemma {:induction false} SumBounds(rs: seq<Review>)
    requires RatingsInRange(rs)
    ensures |rs| <= RatingSum(rs) <= 5 * |rs|
  {
    if rs != [] {
      var init := rs[..|rs| - 1];
      assert RatingsInRange(init) by {
        forall i | 0 <= i < |init| ensures 1 <= init[i].rating <= 5 { assert init[i] == rs[i]; }
      }
      SumBounds(init);
    }
  }

  /** A zero sum means every rating is zero. */
  lemma {:induction false} ZeroSum(rs: seq<Review>)
    requires RatingSum(rs) == 0
    ensures forall i :: 0 <= i < |rs| ==> rs[i].rating == 0
  {
    if rs != [] {
      var init := rs[..|rs| - 1];
      ZeroSum(init);
      forall i | 0 <= i < |rs| ensures rs[i].rating == 0 {
        if i < |rs| - 1 { assert rs[i] == init[i]; }
      }
    }
  }

  /** A non-zero sum has a non-zero rating in it. */
  lemma {:induction false} NonZeroSumWitness(rs: seq<Review>)
    requires RatingSum(rs) != 0
    ensures exists i :: 0 <= i < |rs| && rs[i].rating != 0
  {
    var k := |rs| - 1;
    if rs[k].rating == 0 {
      var init := rs[..k];
      NonZeroSumWitness(init);
      var i :| 0 <= i < |init| && init[i].rating != 0;
      assert rs[i] == init[i];
    }
  }

  /** An exact non-negative fraction `num / den` (with `den > 0` where used). */
  datatype Fraction = Fraction(num: nat, den: nat)

  /** The `Avg('rating')` aggregate, kept exact: no value over no rows, otherwise
      the ratio of the rating sum to the review count. */
  function AverageRating(rs: seq<Review>): (avg: Option<Fraction>)
    ensures avg.None? <==> rs == []
    ensures avg.Some? ==> avg.value.den == |rs| > 0 && avg.value.num == RatingSum(rs)
  {
    if rs == [] then None else Some(Fraction(RatingSum(rs), |rs|))
  }

  /** Truth value of the aggregate in `if avg_rating:`: false for no value and for 0. */
  predicate Truthy(avg: Option<Fraction>) {
    avg.Some? && avg.value.num != 0
  }

  /** The aggregate is false exactly when there is no review or every stored
      rating is 0; with ratings in 1..5 it is true exactly when there is a review. */
  lemma TruthyIffSomeRating(rs: seq<Review>)
    ensures Truthy(AverageRating(rs)) <==> exists i :: 0 <= i < |rs| && rs[i].rating != 0
    ensures RatingsInRange(rs) ==> (Truthy(AverageRating(rs)) <==> rs != [])
  {
    if RatingSum(rs) == 0 {
      ZeroSum(rs);
    } else {
      NonZeroSumWitness(rs);
    }
    if RatingsInRange(rs) && rs != [] {
      assert rs[0].rating != 0;
    }
  }

  /** `round(avg, 2)`, in hundredths: h is within half a hundredth of the
      fraction, that is 100 * num / den - 1/2 < h <= 100 * num / den + 1/2.
      Ties are resolved upwards here; Python's binary-float tie-breaking is not
      modelled. */
  function RoundHundredths(f: Fraction): (h: Hundredths)
    requires f.den > 0
    ensures 200 * f.num - f.den < (2 * f.den) * h <= 200 * f.num + f.den
  {
    var a, d := 200 * f.num + f.den, 2 * f.den;
    var q := a / d;
    assert a == d * q + a % d;
    q
  }

  /** A fraction between 1 and 5 rounds to 1.00 .. 5.00. */
  lemma RoundedInRange(f: Fraction)
    requires f.den > 0 && f.den <= f.num <= 5 * f.den
    ensures 100 <= RoundHundredths(f) <= 500
  {
    RoundedBetween(RoundHundredths(f), f.num, f.den);
  }

  /** The arithmetic behind RoundedInRange: a value within half a unit of
      100 * num / den (either tie included, so half-to-even rounding is
      covered as well), for num / den in [1, 5], lies in 100..500. */
  lemma RoundedBetween(h: int, num: nat, den: nat)
    requires den > 0 && den <= num <= 5 * den
    requires 200 * num - den <= (2 * den) * h <= 200 * num + den
    ensures 100 <= h <= 500
  {
    var d := 2 * den;
    if h < 100 {
      ScaleLe(h, 99, d);
    }
    if h > 500 {
      ScaleLe(501, h, d);
    }
  }

  /** Multiplying by a non-negative factor keeps the order. */
  lemma ScaleLe(a: int, b: int, d: nat)
    requires a <= b
    ensures d * a <= d * b
  {
    assert d * b - d * a == d * (b - a);
  }

  /** The rating a listing shows for the reviews `rs`: 0 before any review, the
      rounded mean after. */
  function DerivedRating(rs: seq<Review>): Hundredths {
    if rs == [] then 0 else RoundHundredths(AverageRating(rs).value)
  }

  /** The derived rating is the mean to within 0.005 and stays in [0, 5]:
      in hundredths, |2n * h - 200 * sum| <= n, and h in 0..500. */
  lemma DerivedRatingBounds(rs: seq<Review>)
    requires RatingsInRange(rs)
    ensures 0 <= DerivedRating(rs) <= 500
    ensures rs != [] ==> 100 <= DerivedRating(rs)
    ensures rs != [] ==>
      var h, n, sum := DerivedRating(rs), |rs|, RatingSum(rs);
      200 * sum - n < (2 * n) * h <= 200 * sum + n
  {
    if rs != [] {
      SumBounds(rs);
      RoundedInRange(AverageRating(rs).value);
    }
  }

  /** The derived columns of `row` agree with the reviews `rs`. */
  predicate Consistent(row: ListingRow, rs: seq<Review>) {
    row.totalReviews == |rs| && row.rating == DerivedRating(rs)
  }

  /** Ratings 4 and 2 give a listing rating of 3.00 over two reviews. */
  lemma TwoReviewsExample()
    ensures DerivedRating([Review(1, 10, 4, ""), Review(2, 11, 2, "")]) == 300
  {
    var rs := [Review(1, 10, 4, ""), Review(2, 11, 2, "")];
    assert rs[..1] == [Review(1, 10, 4, "")];
    assert RatingSum(rs) == 6;
    assert AverageRating(rs) == Some(Fraction(6, 2));
  }
}
