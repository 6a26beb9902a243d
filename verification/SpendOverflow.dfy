/**
What `spend_classifier.rs` makes of amounts whose middles overflow, in a build that wraps: when more than
half of a category's own postings become extraordinary.
*/
module SpendOverflow {
  import opened Common
  import opened Integers
  import opened Ordering
  import opened SpendClassifier

  const TWO_62 := 0x4000_0000_0000_0000
  const TWO_64 := 0x1_0000_0000_0000_0000

  /** The middle amounts, when there are two. */
  predicate Middles(amounts: seq<int>, lo: int, hi: int) {
    var t := Sort(amounts, IntLe);
    t != [] && |t| % 2 == 0 && lo == t[|t| / 2 - 1] && hi == t[|t| / 2]
  }

  /** The median of middles that overflow, in a build that wraps. */
  function WrappedMean(lo: int, hi: int): int { -((TWO_64 - (lo + hi)) / 2) }

  ghost predicate Overflowing(lo: int, hi: int) { 0 <= lo <= hi <= I64_MAX && lo + hi > I64_MAX }

  lemma WrappedMeanOf(lo: int, hi: int)
    requires Overflowing(lo, hi)
    ensures HalvedSum(Fit(Release, lo + hi)) == Some(WrappedMean(lo, hi)) && -TWO_62 <= WrappedMean(lo, hi) <= -1
  {
  }

  lemma ReleaseNeverPanics(amounts: seq<int>)
    ensures FromAmounts(Release, amounts).Some?
  {
  }

  // ---------------------------------------------------------------------------------------------
  // The fence over a wrapped median
  // ---------------------------------------------------------------------------------------------

  /** Unless the middles are neighbours, the lower one and everything above it deviate by 2^62 or more. */
  lemma DeviationIsLarge(x: int, lo: int, hi: int)
    requires Overflowing(lo, hi) && hi >= lo + 2 && (x == lo || hi <= x <= I64_MAX)
    ensures TWO_62 <= DeviationFrom(Release, WrappedMean(lo, hi))(x) <= I64_MAX
  {
  }

  /** Two such deviations overflow again, and their mean is negative. */
  lemma LargeMiddlesWrap(d: seq<int>)
    requires d != [] && |d| % 2 == 0 && TWO_62 <= d[|d| / 2 - 1] && TWO_62 <= d[|d| / 2]
    requires d[|d| / 2 - 1] <= I64_MAX && d[|d| / 2] <= I64_MAX
    ensures Middle(Release, d).Some? && Middle(Release, d).value < 0
  {
  }

  lemma UpperHalfIsApart(t: seq<int>, lo: int, hi: int, x: int)
    requires Sorted(t, IntLe) && t != [] && |t| % 2 == 0 && lo == t[|t| / 2 - 1] && hi == t[|t| / 2]
    requires x in t && x >= lo
    ensures x == lo || x >= hi
  {
    var j :| 0 <= j < |t| && t[j] == x;
    var h := |t| / 2;
    assert j < h - 1 ==> IntLe(t[j], t[h - 1]);
    assert j > h ==> IntLe(t[h], t[j]);
  }

  lemma DeviationsAreReleased(amounts: seq<int>, m: int)
    ensures Deviations(Release, amounts, m) == Some(Map(DeviationFrom(Release, m), amounts))
    ensures forall a :: a in amounts ==> DeviationFrom(Release, m)(a) <= I64_MAX
  {
  }

  /** More than half of the amounts are at or above the lower middle. */
  lemma MostReachTheLowerMiddle(amounts: seq<int>, lo: int, hi: int)
    requires Middles(amounts, lo, hi)
    ensures 2 * Tally(amounts, AtLeast(lo)) > |amounts|
  {
    var t := Sort(amounts, IntLe);
    SortsInts(amounts);
    var l := |t| / 2 - 1;
    forall j | l <= j < |t| ensures t[j] >= lo { assert j == l || IntLe(t[l], t[j]); }
    TopCount(t, lo, l);
    TallyReordered(amounts, t, AtLeast(lo));
  }

  lemma ManyDeviationsAreLarge(amounts: seq<int>, lo: int, hi: int)
    requires Magnitudes(amounts) && Middles(amounts, lo, hi) && Overflowing(lo, hi) && hi >= lo + 2
    ensures 2 * Tally(Map(DeviationFrom(Release, WrappedMean(lo, hi)), amounts), AtLeast(TWO_62)) > |amounts|
  {
    var t := Sort(amounts, IntLe);
    SortsInts(amounts);
    MostReachTheLowerMiddle(amounts, lo, hi);
    var f := DeviationFrom(Release, WrappedMean(lo, hi));
    forall x | x in amounts && AtLeast(lo)(x) ensures AtLeast(TWO_62)(f(x)) {
      assert x in multiset(t);
      UpperHalfIsApart(t, lo, hi, x);
      DeviationIsLarge(x, lo, hi);
    }
    TallyOfMap(f, amounts, AtLeast(lo), AtLeast(TWO_62));
  }

  lemma MostlyLargeWraps(t: seq<int>)
    requires Sorted(t, IntLe) && t != [] && |t| % 2 == 0 && forall x :: x in t ==> x <= I64_MAX
    requires 2 * Tally(t, AtLeast(TWO_62)) > |t|
    ensures Middle(Release, t).Some? && Middle(Release, t).value < 0
  {
    var h := |t| / 2;
    TopRank(t, TWO_62, h + 1);
    assert IntLe(t[h - 1], t[h]) && t[h - 1] in t && t[h] in t;
    LargeMiddlesWrap(t);
  }

  lemma SortKeepsElements(d: seq<int>)
    ensures forall x :: x in Sort(d, IntLe) ==> x in d
  {
    var t := Sort(d, IntLe);
    SortsInts(d);
    forall x | x in t ensures x in d {
      assert x in multiset(t);
      assert x in multiset(d);
    }
  }

  lemma MedianOfMostlyLarge(d: seq<int>)
    requires d != [] && |d| % 2 == 0 && forall x :: x in d ==> x <= I64_MAX
    requires 2 * Tally(d, AtLeast(TWO_62)) > |d|
    ensures MedianOf(Release, d).Some? && MedianOf(Release, d).value < 0
  {
    var t := Sort(d, IntLe);
    SortsInts(d);
    TallyReordered(d, t, AtLeast(TWO_62));
    SortKeepsElements(d);
    MostlyLargeWraps(t);
  }

  lemma MadIsNegative(amounts: seq<int>, lo: int, hi: int)
    requires Magnitudes(amounts) && Middles(amounts, lo, hi) && Overflowing(lo, hi) && hi >= lo + 2
    ensures Mad(Release, Deviations(Release, amounts, WrappedMean(lo, hi))).Some?
    ensures Mad(Release, Deviations(Release, amounts, WrappedMean(lo, hi))).value < 0
  {
    var d := Map(DeviationFrom(Release, WrappedMean(lo, hi)), amounts);
    DeviationsAreReleased(amounts, WrappedMean(lo, hi));
    ManyDeviationsAreLarge(amounts, lo, hi);
    SortsInts(amounts);
    forall x | x in d ensures x <= I64_MAX {
      var i :| 0 <= i < |d| && d[i] == x;
      assert amounts[i] in amounts;
    }
    MedianOfMostlyLarge(d);
  }

  /** The fence stays below the lower middle, but for neighbouring middles and a saturated deviation. */
  lemma FenceUnderTheMiddles(amounts: seq<int>, lo: int, hi: int, p: Profile)
    requires Magnitudes(amounts) && Middles(amounts, lo, hi) && Overflowing(lo, hi)
    requires FromAmounts(Release, amounts) == Some(p)
    ensures p.median == WrappedMean(lo, hi) < 0
    ensures Fence(p) < lo <==> (hi == lo + 1 ==> MAD_K * p.mad < I64_MAX)
  {
    WrappedMeanOf(lo, hi);
    if hi >= lo + 2 { MadIsNegative(amounts, lo, hi); }
  }

  // ---------------------------------------------------------------------------------------------
  // When most postings are extraordinary
  // ---------------------------------------------------------------------------------------------

  /**
  The middles overflow, the lower one is over the floor, and they are not neighbours under a deviation
  that saturates.
  */
  predicate Misjudges(amounts: seq<int>) {
    var t := Sort(amounts, IntLe);
    && MiddlesOverflow(amounts)
    && t[|t| / 2 - 1] >= ABSOLUTE_FLOOR
    && (t[|t| / 2] == t[|t| / 2 - 1] + 1 ==>
          FromAmounts(Release, amounts).Some? && MAD_K * FromAmounts(Release, amounts).value.mad < I64_MAX)
  }

  lemma NegativeMedianFlags(x: i64, occurrences: nat, p: Profile)
    requires p.median < 0 && occurrences < RECUR_MIN && x >= 0
    ensures Flags(Release, x, occurrences, p) <==> x >= ABSOLUTE_FLOOR && x > Fence(p)
  {
  }

  lemma MiddlesOf(amounts: seq<int>) returns (lo: int, hi: int)
    requires Magnitudes(amounts) && MiddlesOverflow(amounts)
    ensures Middles(amounts, lo, hi) && Overflowing(lo, hi) && LowerHalf(amounts, lo)
  {
    var t := Sort(amounts, IntLe);
    SortsInts(amounts);
    SortedAreWithin(amounts, 0, I64_MAX);
    var h := |t| / 2;
    lo, hi := t[h - 1], t[h];
    assert IntLe(t[h - 1], t[h]);
    UpToTheLowerMiddle(t, h - 1, lo);
  }

  lemma OverflowCounts(amounts: seq<int>, occurrences: nat, p: Profile)
    requires Magnitudes(amounts) && occurrences < RECUR_MIN && MiddlesOverflow(amounts)
    requires FromAmounts(Release, amounts) == Some(p)
    ensures 2 * Tally(amounts, Flagged(Release, occurrences, p)) <= |amounts| <==> !Misjudges(amounts)
  {
    var flagged := Flagged(Release, occurrences, p);
    var lo, hi := MiddlesOf(amounts);
    FenceUnderTheMiddles(amounts, lo, hi, p);
    forall x | x in amounts ensures flagged(x) <==> x >= ABSOLUTE_FLOOR && x > Fence(p) {
      NegativeMedianFlags(x, occurrences, p);
    }
    if Misjudges(amounts) {
      MostReachTheLowerMiddle(amounts, lo, hi);
      TallyBounds(amounts, AtLeast(lo), flagged);
    } else {
      TallyBounds(amounts, flagged, Above(lo));
      HalfAtMostAbove(amounts, lo);
    }
  }

  /**
  In a build that wraps, more than half of a category's own postings are extraordinary exactly when the
  merchant does not recur and the amounts are misjudged.
  */
  lemma HalfAtMostExtraordinaryExactly(amounts: seq<int>, occurrences: nat)
    requires Magnitudes(amounts)
    ensures FromAmounts(Release, amounts).Some?
    ensures 2 * Extraordinary(Release, amounts, occurrences) <= |amounts| <==>
      occurrences >= RECUR_MIN || !Misjudges(amounts)
  {
    ReleaseNeverPanics(amounts);
    var p := FromAmounts(Release, amounts).value;
    if occurrences >= RECUR_MIN {
      TallyNone(amounts, Flagged(Release, occurrences, p));
    } else if MiddlesOverflow(amounts) {
      OverflowCounts(amounts, occurrences, p);
    } else {
      HalfAtMostExtraordinary(Release, amounts, occurrences);
    }
  }

  lemma FourOfAKind(x: int)
    ensures Sort([x, x, x, x], IntLe) == [x, x, x, x]
  {
    var t := Sort([x, x, x, x], IntLe);
    SortedAreWithin([x, x, x, x], x, x);
    assert t == [x, x, x, x];
  }

  /** Their deviations wrap to the least integer, and the sum of those to 0. */
  lemma FourWrappedDeviations()
    ensures Mad(Release, Deviations(Release, [TWO_62, TWO_62, TWO_62, TWO_62], -TWO_62)) == Some(0)
  {
    var amounts: seq<int> := [TWO_62, TWO_62, TWO_62, TWO_62];
    DeviationsAreReleased(amounts, -TWO_62);
    assert DeviationFrom(Release, -TWO_62)(TWO_62) == I64_MIN;
    assert Map(DeviationFrom(Release, -TWO_62), amounts) == [I64_MIN, I64_MIN, I64_MIN, I64_MIN];
    FourOfAKind(I64_MIN);
  }

  /** Four equal postings of 2^62: a panic in a debug build, and in a release build all four are extraordinary. */
  lemma FourLargePostings() returns (amounts: seq<int>)
    ensures Magnitudes(amounts) && |amounts| == 4
    ensures FromAmounts(Debug, amounts).None? && FromAmounts(Release, amounts) == Some(Profile(-TWO_62, 0))
    ensures Extraordinary(Release, amounts, 0) == 4
  {
    amounts := [TWO_62, TWO_62, TWO_62, TWO_62];
    FourOfAKind(TWO_62);
    FourWrappedDeviations();
    assert MedianOf(Release, amounts) == Some(-TWO_62);
    TallyAll(amounts, Flagged(Release, 0, Profile(-TWO_62, 0)));
  }
}
