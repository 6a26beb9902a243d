/** Ordinary and extraordinary spend, crates/categorization/src/spend_classifier.rs. */
module SpendClassifier {
  import opened Common
  import opened Integers
  import opened Ordering

  const MAD_K := 5
  const RATIO_NUM := 5
  const RATIO_DEN := 2
  const ABSOLUTE_FLOOR := 20_000
  const RECUR_MIN := 3

  datatype Reason = RecurringMerchant | BelowFloor | WithinCategoryRange | AmountOutlier

  datatype Classification = Classification(extraordinary: bool, confidence: int, reason: Reason)

  datatype Profile = Profile(median: int, mad: int) {
    /** As of amounts that are magnitudes, while nothing overflows. */
    predicate Sound() { median >= 0 && mad >= 0 }
  }

  // ---------------------------------------------------------------------------------------------
  // Overflow
  // ---------------------------------------------------------------------------------------------

  /** How the program was built: an overflowing `+`, `-` or `abs` panics in a debug build, wraps in a release build. */
  datatype Build = Debug | Release

  /** What a plain operation gives; None is the panic. */
  function Fit(build: Build, x: int): Option<i64> {
    if IsI64(x) then Some(x) else if build.Debug? then None else Some(Wrap(x))
  }

  // ---------------------------------------------------------------------------------------------
  // Medians
  // ---------------------------------------------------------------------------------------------

  /** Integer division as the original does it, toward zero. */
  function Halved(x: int): int { if x < 0 then -(-x / 2) else x / 2 }

  function HalvedSum(sum: Option<i64>): Option<int> {
    match sum
    case Some(s) => Some(Halved(s))
    case None => None
  }

  /** The middle of a sorted sequence, or the mean of the two middles. */
  function Middle(build: Build, sorted: seq<int>): Option<int> {
    var n := |sorted|;
    if n == 0 then Some(0)
    else if n % 2 == 1 then Some(sorted[n / 2])
    else HalvedSum(Fit(build, sorted[n / 2 - 1] + sorted[n / 2]))
  }

  function MedianOf(build: Build, values: seq<int>): Option<int> { Middle(build, Sort(values, IntLe)) }

  /** `(a - median).abs()`. */
  function Deviation(build: Build, a: int, median: int): Option<int> {
    match Fit(build, a - median)
    case None => None
    case Some(d) =>
      var away: int := d;
      Fit(build, if away < 0 then -away else away)
  }

  function DeviationFrom(build: Build, median: int): int -> int {
    (a: int) => match Deviation(build, a, median) case Some(d) => d case None => 0
  }

  function Deviations(build: Build, amounts: seq<int>, median: int): Option<seq<int>> {
    if exists a :: a in amounts && Deviation(build, a, median).None? then None
    else Some(Map(DeviationFrom(build, median), amounts))
  }

  function Mad(build: Build, deviations: Option<seq<int>>): Option<int> {
    match deviations
    case Some(d) => MedianOf(build, d)
    case None => None
  }

  /** `from_amounts`. */
  function FromAmounts(build: Build, amounts: seq<int>): Option<Profile> {
    match MedianOf(build, amounts)
    case None => None
    case Some(median) =>
      match Mad(build, Deviations(build, amounts, median))
      case None => None
      case Some(mad) => Some(Profile(median, mad))
  }

  lemma SortedAreWithin(values: seq<int>, lo: int, hi: int)
    requires forall i :: 0 <= i < |values| ==> lo <= values[i] <= hi
    ensures |Sort(values, IntLe)| == |values| && forall i :: 0 <= i < |values| ==> lo <= Sort(values, IntLe)[i] <= hi
  {
    var t := Sort(values, IntLe);
    SortSorts(values, IntLe);
    forall i | 0 <= i < |t| ensures lo <= t[i] <= hi {
      assert t[i] in multiset(values);
    }
  }

  /** The amounts are magnitudes. */
  ghost predicate Magnitudes(amounts: seq<int>) { forall i :: 0 <= i < |amounts| ==> 0 <= amounts[i] <= I64_MAX }

  /** `sort_unstable`, which keeps the elements and orders them. */
  method SortInPlace(values: array<int>)
    modifies values
    ensures values[..] == Sort(old(values[..]), IntLe)
  {
    var sorted := Sort(values[..], IntLe);
    SortSorts(values[..], IntLe);
    for n := 0 to values.Length
      invariant values[..n] == sorted[..n]
    {
      values[n] := sorted[n];
    }
  }

  /** `median_of` sorts its slice in place. */
  method MedianInPlace(build: Build, values: array<int>) returns (median: Option<int>)
    modifies values
    ensures values[..] == Sort(old(values[..]), IntLe) && median == MedianOf(build, old(values[..]))
  {
    SortInPlace(values);
    var n := values.Length;
    if n == 0 {
      return Some(0);
    }
    assert |values[..]| == n;
    if n % 2 == 1 {
      return Some(values[n / 2]);
    }
    median := HalvedSum(Fit(build, values[n / 2 - 1] + values[n / 2]));
  }

  // ---------------------------------------------------------------------------------------------
  // When a profile overflows
  // ---------------------------------------------------------------------------------------------

  /** There are two middle amounts, and their sum leaves 64 bits. */
  predicate MiddlesOverflow(amounts: seq<int>) {
    var t := Sort(amounts, IntLe);
    t != [] && |t| % 2 == 0 && t[|t| / 2 - 1] + t[|t| / 2] > I64_MAX
  }

  /** The lower half of the sorted values, the middle one included, is at most `m`. */
  predicate LowerHalf(values: seq<int>, m: int) {
    var t := Sort(values, IntLe);
    forall j :: 0 <= j < |t| - |t| / 2 ==> t[j] <= m
  }

  lemma UpToTheLowerMiddle(t: seq<int>, l: nat, m: int)
    requires Sorted(t, IntLe) && l < |t| && t[l] <= m
    ensures forall j :: 0 <= j <= l ==> t[j] <= m
  {
    forall j | 0 <= j <= l ensures t[j] <= m { assert j == l || IntLe(t[j], t[l]); }
  }

  lemma MeanOfMiddles(build: Build, a: int, b: int)
    requires 0 <= a <= b && a + b <= I64_MAX
    ensures HalvedSum(Fit(build, a + b)) == Some((a + b) / 2) && a <= (a + b) / 2
  {
  }

  lemma MiddleOfSorted(build: Build, t: seq<int>) returns (m: i64)
    requires t != [] && Sorted(t, IntLe) && Magnitudes(t)
    requires |t| % 2 == 0 ==> t[|t| / 2 - 1] + t[|t| / 2] <= I64_MAX
    ensures Middle(build, t) == Some(m) && 0 <= m && (|t| % 2 == 0 ==> 2 * m <= I64_MAX)
    ensures forall j :: 0 <= j < |t| - |t| / 2 ==> t[j] <= m
  {
    var h := |t| / 2;
    if |t| % 2 == 1 {
      m := t[h];
    } else {
      assert IntLe(t[h - 1], t[h]);
      MeanOfMiddles(build, t[h - 1], t[h]);
      m := (t[h - 1] + t[h]) / 2;
    }
    UpToTheLowerMiddle(t, |t| - h - 1, m);
  }

  /** The median, while the sum of the middles fits, is a magnitude at or above the lower half. */
  lemma MedianFits(build: Build, amounts: seq<int>) returns (m: i64)
    requires Magnitudes(amounts) && !MiddlesOverflow(amounts)
    ensures MedianOf(build, amounts) == Some(m) && 0 <= m
    ensures |amounts| % 2 == 0 ==> 2 * m <= I64_MAX
    ensures LowerHalf(amounts, m)
  {
    var t := Sort(amounts, IntLe);
    SortsInts(amounts);
    SortedAreWithin(amounts, 0, I64_MAX);
    m := 0;
    if t != [] {
      m := MiddleOfSorted(build, t);
    }
  }

  lemma DeviationFits(build: Build, a: int, m: int)
    requires 0 <= a <= I64_MAX && 0 <= m <= I64_MAX
    ensures Deviation(build, a, m) == Some(if a < m then m - a else a - m)
  {
  }

  lemma DeviationsFit(build: Build, amounts: seq<int>, m: int)
    requires Magnitudes(amounts) && 0 <= m <= I64_MAX
    ensures Deviations(build, amounts, m) == Some(Map(DeviationFrom(build, m), amounts))
    ensures forall a :: a in amounts ==> DeviationFrom(build, m)(a) == if a < m then m - a else a - m
  {
    forall a | a in amounts ensures Deviation(build, a, m) == Some(if a < m then m - a else a - m) {
      DeviationFits(build, a, m);
    }
  }

  /** Half of the deviations are at most `m`, and all at most `m` or what is above it. */
  ghost predicate Spread(d: seq<int>, m: i64)
    requires m >= 0
  {
    && (forall i :: 0 <= i < |d| ==> 0 <= d[i] <= Max(m, I64_MAX - m))
    && Tally(d, AtMost(m)) >= |d| - |d| / 2
  }

  lemma DeviationsSpread(build: Build, amounts: seq<int>, m: i64)
    requires Magnitudes(amounts) && 0 <= m && LowerHalf(amounts, m)
    ensures Spread(Map(DeviationFrom(build, m), amounts), m)
  {
    var f := DeviationFrom(build, m);
    DeviationsFit(build, amounts, m);
    var t := Sort(amounts, IntLe);
    SortsInts(amounts);
    BottomCount(t, m, |t| - |t| / 2);
    TallyReordered(amounts, t, AtMost(m));
    TallyOfMap(f, amounts, AtMost(m), AtMost(m));
    forall i | 0 <= i < |amounts| ensures 0 <= f(amounts[i]) <= Max(m, I64_MAX - m) {
      assert amounts[i] in amounts;
    }
  }

  lemma MiddleFits(build: Build, t: seq<int>, m: i64)
    requires m >= 0 && Sorted(t, IntLe) && Spread(t, m) && (|t| % 2 == 0 ==> 2 * m <= I64_MAX)
    ensures Middle(build, t).Some? && Middle(build, t) == Middle(Debug, t) && Middle(build, t).value >= 0
  {
    if t != [] { BottomRank(t, m, |t| - |t| / 2); }
  }

  /** So the sum of the middle deviations fits wherever that of the middle amounts does. */
  lemma MadFits(build: Build, d: seq<int>, m: i64)
    requires m >= 0 && (|d| % 2 == 0 ==> 2 * m <= I64_MAX) && Spread(d, m)
    ensures MedianOf(build, d).Some? && MedianOf(build, d) == MedianOf(Debug, d) && MedianOf(build, d).value >= 0
  {
    var t := Sort(d, IntLe);
    SortsInts(d);
    SortedAreWithin(d, 0, Max(m, I64_MAX - m));
    TallyReordered(d, t, AtMost(m));
    MiddleFits(build, t, m);
  }

  /**
  A profile of magnitudes comes about exactly when its middle amounts can be added; then the build does
  not matter.
  */
  lemma ProfileFitsExactly(amounts: seq<int>)
    requires Magnitudes(amounts)
    ensures FromAmounts(Debug, amounts).None? <==> MiddlesOverflow(amounts)
    ensures !MiddlesOverflow(amounts) ==>
      FromAmounts(Release, amounts) == FromAmounts(Debug, amounts) && FromAmounts(Debug, amounts).value.Sound()
  {
    if !MiddlesOverflow(amounts) {
      var m := MedianFits(Debug, amounts);
      var m' := MedianFits(Release, amounts);
      SameWhenItFits(amounts);
      DeviationsFit(Debug, amounts, m);
      DeviationsFit(Release, amounts, m);
      DeviationsSpread(Debug, amounts, m);
      var d := Map(DeviationFrom(Debug, m), amounts);
      SameDeviations(amounts, m);
      MadFits(Debug, d, m);
      MadFits(Release, d, m);
    }
  }

  lemma SameDeviations(amounts: seq<int>, m: int)
    requires Magnitudes(amounts) && 0 <= m <= I64_MAX
    ensures Map(DeviationFrom(Release, m), amounts) == Map(DeviationFrom(Debug, m), amounts)
  {
    forall i | 0 <= i < |amounts| ensures DeviationFrom(Release, m)(amounts[i]) == DeviationFrom(Debug, m)(amounts[i]) {
      DeviationFits(Debug, amounts[i], m);
      DeviationFits(Release, amounts[i], m);
    }
  }

  lemma SameWhenItFits(amounts: seq<int>)
    requires MedianOf(Debug, amounts).Some?
    ensures MedianOf(Release, amounts) == MedianOf(Debug, amounts)
  {
  }

  // ---------------------------------------------------------------------------------------------
  // Classification
  // ---------------------------------------------------------------------------------------------

  /** `extraordinary_fence`. */
  function Fence(p: Profile): i64 { Saturate(p.median + Saturate(MAD_K * p.mad)) }

  function Clamp(x: int): int { if x < 0 then 0 else if x > 10_000 then 10_000 else x }

  /** The distance from the fence as a share of it; the divisor is positive, and what is negative clamps to 0. */
  function Distance(d: i64, fence: i64): int { Clamp(Saturate(d * 10_000) / Max(fence, 1)) }

  predicate IsOutlier(amount: i64, p: Profile) {
    amount > Fence(p) && Saturate(amount * RATIO_DEN) >= Saturate(p.median * RATIO_NUM)
  }

  /** `classify`. */
  function Classify(build: Build, amount: i64, occurrences: nat, p: Profile): Option<Classification> {
    if occurrences >= RECUR_MIN then Some(Classification(false, 10_000, RecurringMerchant))
    else if amount < ABSOLUTE_FLOOR then Some(Classification(false, 10_000, BelowFloor))
    else if IsOutlier(amount, p) then
      match Fit(build, amount - Fence(p))
      case Some(over) => Some(Classification(true, Distance(over, Fence(p)), AmountOutlier))
      case None => None
    else
      match Fit(build, Fence(p) - amount)
      case Some(under) => Some(Classification(false, Distance(Max(under, 0), Fence(p)), WithinCategoryRange))
      case None => None
  }

  /** Over a sound profile the plain subtractions fit. */
  lemma ClassifyNeverOverflows(build: Build, amount: i64, occurrences: nat, p: Profile)
    requires p.Sound()
    ensures Classify(build, amount, occurrences, p).Some?
  {
  }

  lemma MulLe(a: nat, b: nat, d: nat)
    ensures a <= b ==> a * d <= b * d
  {
    assert a <= b ==> (b - a) * d >= 0;
  }

  lemma DivisionGrows(a: nat, b: nat, d: nat)
    requires a <= b && d > 0
    ensures a / d <= b / d
  {
    var q, r := a / d, b / d;
    assert a == q * d + a % d && b == r * d + b % d;
    MulLe(r + 1, q, d);
    assert (r + 1) * d == r * d + d;
  }

  /** Whether an amount is extraordinary. */
  predicate Flags(build: Build, amount: i64, occurrences: nat, p: Profile) {
    Classify(build, amount, occurrences, p).Some? && Classify(build, amount, occurrences, p).value.extraordinary
  }

  lemma DistanceGrows(a: i64, b: i64, fence: i64)
    requires 0 <= a <= b
    ensures 0 <= Distance(a, fence) <= Distance(b, fence) <= 10_000
  {
    DivisionGrows(Saturate(a * 10_000), Saturate(b * 10_000), Max(fence, 1));
  }

  /** A larger amount is never less extraordinary: the label and its confidence only grow with the amount. */
  lemma ClassifyIsMonotone(build: Build, a: i64, b: i64, occurrences: nat, p: Profile)
    requires a <= b && Flags(build, a, occurrences, p)
    ensures Classify(build, b, occurrences, p).Some? ==> Flags(build, b, occurrences, p)
    ensures p.Sound() ==>
      && Flags(build, b, occurrences, p)
      && 0 <= Classify(build, a, occurrences, p).value.confidence
      && Classify(build, a, occurrences, p).value.confidence <= Classify(build, b, occurrences, p).value.confidence
      && Classify(build, b, occurrences, p).value.confidence <= 10_000
  {
    if p.Sound() { DistanceGrows(a - Fence(p), b - Fence(p), Fence(p)); }
  }

  /** Among ordinary amounts over the floor, one nearer the fence is never the surer one. */
  lemma OrdinaryConfidenceFalls(build: Build, a: i64, b: i64, occurrences: nat, p: Profile)
    requires a <= b && p.Sound() && !Flags(build, b, occurrences, p)
    requires Classify(build, a, occurrences, p).Some?
      && Classify(build, a, occurrences, p).value.reason.WithinCategoryRange?
    ensures !Flags(build, a, occurrences, p) && Classify(build, b, occurrences, p).Some?
    ensures 0 <= Classify(build, b, occurrences, p).value.confidence
    ensures Classify(build, b, occurrences, p).value.confidence <= Classify(build, a, occurrences, p).value.confidence
    ensures Classify(build, a, occurrences, p).value.confidence <= 10_000
  {
    ClassifyNeverOverflows(build, b, occurrences, p);
    DistanceGrows(Max(Fence(p) - b, 0), Max(Fence(p) - a, 0), Fence(p));
  }

  function Least(a: int, b: int): int { if a < b then a else b }

  /** Basis points of `of` in `d`, at most all; past 64 bits the share is that of the largest integer. */
  predicate IsShare(confidence: int, d: int, of: int) {
    var scaled := Least(10_000 * d, 0x7FFF_FFFF_FFFF_FFFF);
    && 0 <= confidence <= 10_000 && confidence * of <= scaled
    && (confidence < 10_000 ==> scaled < (confidence + 1) * of)
  }

  lemma ClampedQuotient(scaled: nat, of: nat)
    requires of > 0
    ensures var q := Clamp(scaled / of);
      0 <= q <= 10_000 && q * of <= scaled && (q < 10_000 ==> scaled < (q + 1) * of)
  {
    var q := scaled / of;
    assert scaled == q * of + scaled % of;
    if q > 10_000 { MulLe(10_000, q, of); } else { assert (q + 1) * of == q * of + of; }
  }

  lemma DistanceIsShare(d: i64, fence: i64)
    requires d >= 0
    ensures IsShare(Distance(d, fence), d, Max(fence, 1))
  {
    ClampedQuotient(Saturate(d * 10_000), Max(fence, 1));
  }

  /**
  The rule in figures, over a sound profile: extraordinary are amounts of 200 in the major unit or more, above the
  median by more than five deviations and two and a half times it, whose merchant was met less than three times.
  */
  lemma ClassifyExactly(build: Build, amount: i64, occurrences: nat, p: Profile)
    requires p.Sound() && Classify(build, amount, occurrences, p).Some?
    ensures var c := Classify(build, amount, occurrences, p).value;
      && (c.reason == RecurringMerchant <==> occurrences >= 3)
      && (c.reason == BelowFloor <==> occurrences < 3 && amount < 20_000)
      && (c.reason == AmountOutlier <==>
            && occurrences < 3 && amount >= 20_000 && amount > p.median + 5 * p.mad
            && (2 * amount >= 5 * p.median || (2 * amount > I64_MAX && 5 * p.median > I64_MAX)))
      && (c.extraordinary <==> c.reason == AmountOutlier)
    ensures var c := Classify(build, amount, occurrences, p).value;
      var fence := Least(p.median + 5 * p.mad, 0x7FFF_FFFF_FFFF_FFFF);
      && (c.reason in {RecurringMerchant, BelowFloor} ==> c.confidence == 10_000)
      && (c.reason == AmountOutlier ==> IsShare(c.confidence, amount - fence, if fence < 1 then 1 else fence))
      && (c.reason == WithinCategoryRange ==>
            IsShare(c.confidence, if amount > fence then 0 else fence - amount, if fence < 1 then 1 else fence))
  {
    var fence := Fence(p);
    if amount > fence { DistanceIsShare(amount - fence, fence); }
    DistanceIsShare(if amount > fence then 0 else if amount >= 0 then fence - amount else 0, fence);
  }

  // ---------------------------------------------------------------------------------------------
  // A category's own postings
  // ---------------------------------------------------------------------------------------------

  function Flagged(build: Build, occurrences: nat, p: Profile): int -> bool {
    (x: int) => IsI64(x) && Flags(build, x, occurrences, p)
  }

  /** How many of a category's own postings are extraordinary. */
  function Extraordinary(build: Build, amounts: seq<int>, occurrences: nat): nat
    requires FromAmounts(build, amounts).Some?
  {
    Tally(amounts, Flagged(build, occurrences, FromAmounts(build, amounts).value))
  }

  /** At most half of the values lie above the middle of the sorted ones, or above anything over their lower half. */
  lemma HalfAtMostAbove(values: seq<int>, m: int)
    requires LowerHalf(values, m)
    ensures 2 * Tally(values, Above(m)) <= |values|
  {
    var t := Sort(values, IntLe);
    SortsInts(values);
    BottomCount(t, m, |t| - |t| / 2);
    TallyReordered(values, t, Above(m));
  }

  /** At most half of a category's own postings are extraordinary, where the profile does not overflow. */
  lemma HalfAtMostExtraordinary(build: Build, amounts: seq<int>, occurrences: nat)
    requires Magnitudes(amounts) && !MiddlesOverflow(amounts)
    ensures FromAmounts(build, amounts).Some? && 2 * Extraordinary(build, amounts, occurrences) <= |amounts|
  {
    ProfileFitsExactly(amounts);
    var m := MedianFits(build, amounts);
    var p := FromAmounts(build, amounts).value;
    TallyBounds(amounts, Flagged(build, occurrences, p), Above(m));
    HalfAtMostAbove(amounts, m);
  }

  lemma MedianReordered(build: Build, a: seq<int>, b: seq<int>)
    requires multiset(a) == multiset(b)
    ensures MedianOf(build, a) == MedianOf(build, b)
  {
    IntOrder();
    SortSorts(a, IntLe);
    SortSorts(b, IntLe);
    SortedIsUnique(Sort(a, IntLe), Sort(b, IntLe), IntLe);
  }

  /** A profile does not depend on the order of the amounts. */
  lemma ProfileReordered(build: Build, a: seq<int>, b: seq<int>)
    requires multiset(a) == multiset(b)
    ensures FromAmounts(build, a) == FromAmounts(build, b)
  {
    MedianReordered(build, a, b);
    if MedianOf(build, a).Some? {
      var m := MedianOf(build, a).value;
      forall x ensures x in a <==> x in b { assert x in multiset(a) <==> x in a; }
      MapReordered(DeviationFrom(build, m), a, b);
      MedianReordered(build, Map(DeviationFrom(build, m), a), Map(DeviationFrom(build, m), b));
    }
  }
}
