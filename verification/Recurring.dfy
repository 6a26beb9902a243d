/** Recurring-charge detection, crates/categorization/src/recurring_detection.rs. */
module Recurring {
  import opened Common
  import opened Ordering

  /** A realized outflow; dates are day numbers, amounts the magnitudes in minor units. */
  datatype Observation = Observation(key: string, currency: string, display: string, date: int, amount: nat)

  datatype Charge = Charge(date: int, amount: nat)

  datatype Frequency = Weekly | Biweekly | Monthly | Quarterly | Annual

  datatype Cadence = Cadence(token: Frequency, lo: int, hi: int, interval: int)

  const CADENCES := [
    Cadence(Weekly, 6, 8, 7), Cadence(Biweekly, 12, 16, 14), Cadence(Monthly, 26, 35, 30),
    Cadence(Quarterly, 82, 100, 91), Cadence(Annual, 350, 380, 365)
  ]

  const MIN_OCCURRENCES := 3
  const MIN_CADENCE_REGULARITY_BPS := 5000
  const AMOUNT_BAND_BPS := 1000
  const AMOUNT_BAND_FLOOR := 500

  /** A merchant and a currency. */
  type Key = (string, string)

  datatype Facts = Facts(amount: nat, amountMin: nat, amountMax: nat, frequency: Frequency,
                         lastSeen: int, nextDate: int, occurrences: nat, confidence: int)

  datatype Candidate = Candidate(key: string, currency: string, display: string, facts: Facts)

  // ---------------------------------------------------------------------------------------------
  // One merchant
  // ---------------------------------------------------------------------------------------------

  predicate ChargeLe(a: Charge, b: Charge) { a.date < b.date || (a.date == b.date && a.amount <= b.amount) }

  function ChargeOf(o: Observation): Charge { Charge(o.date, o.amount) }

  predicate ObservationLe(a: Observation, b: Observation) { ChargeLe(ChargeOf(a), ChargeOf(b)) }

  function Charges(group: seq<Observation>): (c: seq<Charge>)
    ensures |c| == |group|
  {
    seq(|group|, i requires 0 <= i < |group| => ChargeOf(group[i]))
  }

  function Intervals(sorted: seq<Charge>): seq<int>
    requires sorted != []
  {
    seq(|sorted| - 1, i requires 0 <= i < |sorted| - 1 => sorted[i + 1].date - sorted[i].date)
  }

  function Amounts(charges: seq<Charge>): (a: seq<int>)
    ensures |a| == |charges|
    ensures forall i :: 0 <= i < |a| ==> a[i] >= 0
  {
    seq(|charges|, i requires 0 <= i < |charges| => charges[i].amount as int)
  }

  /** `median_i64`: the lower middle. */
  function Median(sorted: seq<int>): int
    requires sorted != []
  {
    sorted[(|sorted| - 1) / 2]
  }

  function FindCadence(gap: int, cadences: seq<Cadence>): Option<Cadence> {
    if cadences == [] then None
    else if cadences[0].lo <= gap <= cadences[0].hi then Some(cadences[0])
    else FindCadence(gap, cadences[1..])
  }

  /** `amount_band_minor`. */
  function AmountBand(reference: nat): nat {
    var scaled := reference * AMOUNT_BAND_BPS / 10_000;
    if scaled < AMOUNT_BAND_FLOOR then AMOUNT_BAND_FLOOR else scaled
  }

  function Distance(a: int, b: int): nat { if a < b then b - a else a - b }

  function Share(part: nat, whole: nat): nat
    requires whole > 0
  {
    part * 10_000 / whole
  }

  function CountBps(n: nat): nat { if n <= 2 then 0 else if (n - 2) * 2500 > 10_000 then 10_000 else (n - 2) * 2500 }

  function Confidence(n: nat, cadenceBps: nat, amountBps: nat): nat {
    (CountBps(n) * cadenceBps / 10_000) * (5_000 + amountBps / 2) / 10_000
  }

  /** `roll_forward`. */
  function RollForward(date: int, today: int, interval: int): int {
    if date >= today || interval <= 0 then date
    else date + (today - date + interval - 1) / interval * interval
  }

  /** The share of the gaps that fall in the cadence's band. */
  function CadenceBps(gaps: seq<int>, c: Cadence): nat
    requires gaps != []
  {
    Share(Tally(gaps, (d: int) => c.lo <= d <= c.hi), |gaps|)
  }

  /** The share of the amounts within the band around the median. */
  function AmountBps(amounts: seq<int>, median: nat): nat
    requires amounts != []
  {
    Share(Tally(amounts, (a: int) => Distance(a, median) <= AmountBand(median)), |amounts|)
  }

  function SortInts(s: seq<int>): (t: seq<int>)
    ensures |t| == |s| && Sorted(t, IntLe) && multiset(t) == multiset(s)
    ensures forall i :: 0 <= i < |t| ==> t[i] in s
  {
    SortSorts(s, IntLe);
    assert forall x :: x in multiset(Sort(s, IntLe)) ==> x in s;
    Sort(s, IntLe)
  }

  /** What is found in a merchant's charges in order of date and amount. */
  function Detect(sorted: seq<Charge>, today: int): Option<Facts> {
    if |sorted| < MIN_OCCURRENCES then None
    else
      var gaps := Intervals(sorted);
      var cadence := FindCadence(Median(SortInts(gaps)), CADENCES);
      if cadence.None? || CadenceBps(gaps, cadence.value) < MIN_CADENCE_REGULARITY_BPS then None
      else
        Some(FactsOf(sorted, cadence.value, today))
  }

  /** The fields of a candidate of this cadence. */
  function FactsOf(sorted: seq<Charge>, c: Cadence, today: int): Facts
    requires |sorted| >= MIN_OCCURRENCES
  {
    var amounts := SortInts(Amounts(sorted));
    var median: nat := Median(amounts);
    var last := sorted[|sorted| - 1].date;
    Facts(median, amounts[0], amounts[|amounts| - 1], c.token, last, RollForward(last + c.interval, today, c.interval),
          |sorted|, Confidence(|sorted|, CadenceBps(Intervals(sorted), c), AmountBps(amounts, median)))
  }

  /** The candidate of one group, which keeps the order the observations came in. */
  function CandidateOf(key: Key, group: seq<Observation>, today: int): Option<Candidate> {
    SortSortsObservations(group);
    var sorted := Sort(group, ObservationLe);
    match Detect(Charges(sorted), today)
    case None => None
    case Some(facts) => Some(Candidate(key.0, key.1, sorted[|sorted| - 1].display, facts))
  }

  lemma SortSortsObservations(group: seq<Observation>)
    ensures |Sort(group, ObservationLe)| == |group| && Sorted(Sort(group, ObservationLe), ObservationLe)
    ensures multiset(Sort(group, ObservationLe)) == multiset(group)
  {
    SortSorts(group, ObservationLe);
  }

  // ---------------------------------------------------------------------------------------------
  // What a candidate says
  // ---------------------------------------------------------------------------------------------

  /** The bands do not overlap, so the one found is the only one. */
  lemma CadenceIsTheOnlyOne(gap: int, c: Cadence)
    requires c in CADENCES
    ensures FindCadence(gap, CADENCES) == Some(c) <==> c.lo <= gap <= c.hi
    ensures 0 < c.lo <= c.interval <= c.hi
  {
    assert CADENCES[1..] == [CADENCES[1], CADENCES[2], CADENCES[3], CADENCES[4]];
    assert CADENCES[2..] == CADENCES[1..][1..] && CADENCES[3..] == CADENCES[2..][1..]
      && CADENCES[4..] == CADENCES[3..][1..];
    assert CADENCES[5..] == CADENCES[4..][1..] && CADENCES[5..] == [];
    assert FindCadence(gap, CADENCES[5..]) == None;
    assert FindCadence(gap, CADENCES[4..]) == if 350 <= gap <= 380 then Some(CADENCES[4]) else None;
    assert FindCadence(gap, CADENCES[3..]) == if 82 <= gap <= 100 then Some(CADENCES[3])
      else FindCadence(gap, CADENCES[4..]);
    assert FindCadence(gap, CADENCES[2..]) == if 26 <= gap <= 35 then Some(CADENCES[2])
      else FindCadence(gap, CADENCES[3..]);
    assert FindCadence(gap, CADENCES[1..]) == if 12 <= gap <= 16 then Some(CADENCES[1])
      else FindCadence(gap, CADENCES[2..]);
  }

  lemma {:induction false} FoundIsListed(gap: int, cadences: seq<Cadence>)
    ensures FindCadence(gap, cadences).Some? ==>
      FindCadence(gap, cadences).value in cadences
        && FindCadence(gap, cadences).value.lo <= gap <= FindCadence(gap, cadences).value.hi
  {
    if cadences != [] { FoundIsListed(gap, cadences[1..]); }
  }

  lemma FewBelow(t: seq<int>, i: nat, m: int)
    requires i < |t| && Sorted(t, IntLe) && m == t[i]
    ensures Tally(t, (x: int) => x < m) <= i
  {
    var front, back := t[..i], t[i..];
    var below := (x: int) => x < m;
    forall x | x in back ensures m <= x {
      var j :| 0 <= j < |back| && back[j] == x;
      assert j > 0 ==> IntLe(t[i], t[i + j]);
    }
    assert t == front + back;
    TallyAdds(front, back, below);
    TallyBounds(front, below, below);
    TallyNone(back, below);
  }

  lemma ManyUpTo(t: seq<int>, i: nat, m: int)
    requires i < |t| && Sorted(t, IntLe) && m == t[i]
    ensures Tally(t, (x: int) => x <= m) > i
  {
    var front, back := t[..i + 1], t[i + 1..];
    var upTo := (x: int) => x <= m;
    forall x | x in front ensures x <= m {
      var j :| 0 <= j < |front| && front[j] == x;
      assert j < i ==> IntLe(t[j], t[i]);
    }
    assert t == front + back;
    TallyAdds(front, back, upTo);
    TallyAll(front, upTo);
  }

  /** Fewer than half lie below the median, at least half at or below it; in whatever order they are given. */
  lemma MedianSplits(s: seq<int>, m: int)
    requires s != [] && m == Median(SortInts(s))
    ensures 2 * Tally(s, (x: int) => x < m) < |s| <= 2 * Tally(s, (x: int) => x <= m)
  {
    var t := SortInts(s);
    FewBelow(t, (|t| - 1) / 2, m);
    ManyUpTo(t, (|t| - 1) / 2, m);
    TallyReordered(s, t, (x: int) => x < m);
    TallyReordered(s, t, (x: int) => x <= m);
  }

  lemma MulLe(a: nat, b: nat, d: nat)
    requires a <= b
    ensures a * d <= b * d
  {
    assert (b - a) * d >= 0;
  }

  lemma QuotientBounds(x: nat, d: nat, q: nat)
    requires d > 0 && q == x / d
    ensures q * d <= x < q * d + d
  {
  }

  lemma ShareBounds(part: nat, whole: nat)
    requires 0 < whole && part <= whole
    ensures Share(part, whole) <= 10_000
    ensures Share(part, whole) >= MIN_CADENCE_REGULARITY_BPS <==> 2 * part >= whole
  {
    var q := Share(part, whole);
    QuotientBounds(part * 10_000, whole, q);
    if q > 10_000 { MulLe(10_001, q, whole); }
    if q >= 5000 { MulLe(5000, q, whole); } else { MulLe(q, 4999, whole); }
  }

  lemma ProductBounds(a: nat, b: nat, lo: nat, hi: nat, lo': nat, hi': nat)
    requires lo <= a <= hi && lo' <= b <= hi'
    ensures lo * lo' <= a * b <= hi * hi'
  {
    assert lo * lo' <= a * lo' by { assert (a - lo) * lo' >= 0; }
    assert a * lo' <= a * b by { assert a * (b - lo') >= 0; }
    assert a * b <= hi * b by { assert (hi - a) * b >= 0; }
    assert hi * b <= hi * hi' by { assert hi * (hi' - b) >= 0; }
  }

  /** The confidence of a candidate: never outside basis points, and never nothing. */
  lemma ConfidenceBounds(n: nat, cadenceBps: nat, amountBps: nat)
    requires n >= MIN_OCCURRENCES && MIN_CADENCE_REGULARITY_BPS <= cadenceBps <= 10_000 && amountBps <= 10_000
    ensures 625 <= Confidence(n, cadenceBps, amountBps) <= 10_000
  {
    ProductBounds(CountBps(n), cadenceBps, 2500, 10_000, 5000, 10_000);
    ProductBounds(CountBps(n) * cadenceBps / 10_000, 5_000 + amountBps / 2, 1250, 10_000, 5000, 10_000);
  }

  lemma StepsAreLeast(gap: nat, interval: nat, steps: nat)
    requires interval > 0 && gap > 0 && steps == (gap + interval - 1) / interval
    ensures steps >= 1 && (steps - 1) * interval < gap <= steps * interval
  {
    var r := (gap + interval - 1) % interval;
    assert gap + interval - 1 == steps * interval + r;
    assert (steps - 1) * interval == steps * interval - interval;
    assert steps == 0 ==> steps * interval == 0;
  }

  /** The next date is the first one after `last`, by whole intervals, that is not before today. */
  lemma NextDateIsLeast(last: int, today: int, interval: int, next: int) returns (k: nat)
    requires interval > 0 && next == RollForward(last + interval, today, interval)
    ensures k >= 1 && next == last + k * interval && next >= today
    ensures k == 1 || last + (k - 1) * interval < today
  {
    var date := last + interval;
    if date >= today {
      k := 1;
    } else {
      var steps := (today - date + interval - 1) / interval;
      StepsAreLeast(today - date, interval, steps);
      k := steps + 1;
      assert k * interval == steps * interval + interval;
      assert (k - 1) * interval == (steps - 1) * interval + interval;
    }
  }

  lemma DetectedCadence(sorted: seq<Charge>, today: int, f: Facts) returns (c: Cadence)
    requires Detect(sorted, today) == Some(f)
    ensures |sorted| >= MIN_OCCURRENCES && FindCadence(Median(SortInts(Intervals(sorted))), CADENCES) == Some(c)
    ensures CadenceBps(Intervals(sorted), c) >= MIN_CADENCE_REGULARITY_BPS && f == FactsOf(sorted, c, today)
  {
    c := FindCadence(Median(SortInts(Intervals(sorted))), CADENCES).value;
  }

  /** Where the fields come from. */
  lemma DetectedFrom(sorted: seq<Charge>, today: int, f: Facts) returns (c: Cadence)
    requires Detect(sorted, today) == Some(f)
    ensures |sorted| >= MIN_OCCURRENCES && FindCadence(Median(SortInts(Intervals(sorted))), CADENCES) == Some(c)
    ensures CadenceBps(Intervals(sorted), c) >= MIN_CADENCE_REGULARITY_BPS
    ensures f.amount == Median(SortInts(Amounts(sorted)))
    ensures f.amountMin == SortInts(Amounts(sorted))[0] && f.amountMax == SortInts(Amounts(sorted))[|sorted| - 1]
    ensures f.frequency == c.token && f.lastSeen == sorted[|sorted| - 1].date && f.occurrences == |sorted|
    ensures f.nextDate == RollForward(f.lastSeen + c.interval, today, c.interval)
    ensures f.confidence ==
      Confidence(|sorted|, CadenceBps(Intervals(sorted), c), AmountBps(SortInts(Amounts(sorted)), f.amount))
  {
    c := DetectedCadence(sorted, today, f);
  }

  lemma ConfidenceIsBounded(gaps: seq<int>, amounts: seq<int>, c: Cadence, median: nat, n: nat)
    requires gaps != [] && amounts != [] && n >= MIN_OCCURRENCES && CadenceBps(gaps, c) >= MIN_CADENCE_REGULARITY_BPS
    ensures 2 * Tally(gaps, (d: int) => c.lo <= d <= c.hi) >= |gaps|
    ensures 625 <= Confidence(n, CadenceBps(gaps, c), AmountBps(amounts, median)) <= 10_000
  {
    var inBand := (d: int) => c.lo <= d <= c.hi;
    var near := (a: int) => Distance(a, median) <= AmountBand(median);
    TallyBounds(gaps, inBand, inBand);
    TallyBounds(amounts, near, near);
    ShareBounds(Tally(gaps, inBand), |gaps|);
    ShareBounds(Tally(amounts, near), |amounts|);
    ConfidenceBounds(n, CadenceBps(gaps, c), AmountBps(amounts, median));
  }

  lemma EndsBound(s: seq<int>, x: int)
    requires x in s
    ensures SortInts(s)[0] <= x <= SortInts(s)[|s| - 1]
  {
    var t := SortInts(s);
    assert x in multiset(t);
    var j :| 0 <= j < |t| && t[j] == x;
    var n := |t| - 1;
    assert j > 0 ==> IntLe(t[0], t[j]);
    assert j < n ==> IntLe(t[j], t[n]);
  }

  lemma NoneIsLater(sorted: seq<Charge>, i: nat)
    requires Sorted(sorted, ChargeLe) && i < |sorted|
    ensures sorted[i].date <= sorted[|sorted| - 1].date
  {
    var n := |sorted| - 1;
    assert i < n ==> ChargeLe(sorted[i], sorted[n]);
  }

  /** Every charge is no later than the last and no smaller or larger than the range. */
  lemma ChargesAreBounded(sorted: seq<Charge>, i: nat)
    requires Sorted(sorted, ChargeLe) && i < |sorted|
    ensures sorted[i].date <= sorted[|sorted| - 1].date
    ensures SortInts(Amounts(sorted))[0] <= sorted[i].amount <= SortInts(Amounts(sorted))[|sorted| - 1]
  {
    NoneIsLater(sorted, i);
    var a := Amounts(sorted);
    assert a[i] == sorted[i].amount && a[i] in a;
    EndsBound(a, a[i]);
  }

  /** A candidate has three charges or more, and a confidence in basis points that is never nothing. */
  lemma CandidateIsRegular(sorted: seq<Charge>, today: int, f: Facts) returns (c: Cadence)
    requires Detect(sorted, today) == Some(f)
    ensures f.occurrences == |sorted| >= MIN_OCCURRENCES && 625 <= f.confidence <= 10_000
    ensures c in CADENCES && f.frequency == c.token
    ensures 2 * Tally(Intervals(sorted), (d: int) => c.lo <= d <= c.hi) >= |sorted| - 1
  {
    c := DetectedFrom(sorted, today, f);
    FoundIsListed(Median(SortInts(Intervals(sorted))), CADENCES);
    ConfidenceIsBounded(Intervals(sorted), SortInts(Amounts(sorted)), c, f.amount, |sorted|);
  }

  /** The range holds every charge, and the last date is the latest. */
  lemma CandidateHoldsItsCharges(sorted: seq<Charge>, today: int, f: Facts, i: nat)
    requires Sorted(sorted, ChargeLe) && Detect(sorted, today) == Some(f) && i < |sorted|
    ensures sorted[i].date <= f.lastSeen && f.amountMin <= sorted[i].amount <= f.amountMax
  {
    var c := DetectedFrom(sorted, today, f);
    ChargesAreBounded(sorted, i);
  }

  /** The next date is the first one by whole intervals after the last charge that is not before today. */
  lemma CandidateIsDueNext(sorted: seq<Charge>, today: int, f: Facts) returns (c: Cadence, k: nat)
    requires Detect(sorted, today) == Some(f)
    ensures c in CADENCES && f.frequency == c.token
    ensures k >= 1 && f.nextDate == f.lastSeen + k * c.interval >= today
    ensures k == 1 || f.lastSeen + (k - 1) * c.interval < today
  {
    c := DetectedFrom(sorted, today, f);
    FoundIsListed(Median(SortInts(Intervals(sorted))), CADENCES);
    CadenceIsTheOnlyOne(0, c);
    k := NextDateIsLeast(f.lastSeen, today, c.interval, f.nextDate);
  }

  // ---------------------------------------------------------------------------------------------
  // All merchants
  // ---------------------------------------------------------------------------------------------

  predicate InGroup(o: Observation, key: Key) { o.key == key.0 && o.currency == key.1 }

  /** The observations of one merchant and currency, in the order given. */
  function Group(observations: seq<Observation>, key: Key): seq<Observation> {
    if observations == [] then []
    else
      var n := |observations| - 1;
      Group(observations[..n], key) + (if InGroup(observations[n], key) then [observations[n]] else [])
  }

  function Found(observations: seq<Observation>, today: int, key: Key): Option<Candidate> {
    CandidateOf(key, Group(observations, key), today)
  }

  predicate Precedes(a: Candidate, b: Candidate) {
    || a.facts.confidence > b.facts.confidence
    || (a.facts.confidence == b.facts.confidence
        && (if a.key == b.key then a.currency != b.currency && TextLe(a.currency, b.currency)
            else TextLe(a.key, b.key)))
  }

  /** The order of the final sort. */
  predicate CandidateLe(a: Candidate, b: Candidate) {
    || a.facts.confidence > b.facts.confidence
    || (a.facts.confidence == b.facts.confidence
        && (if a.key == b.key then TextLe(a.currency, b.currency) else TextLe(a.key, b.key)))
  }

  function KeyOf(c: Candidate): Key { (c.key, c.currency) }

  /** What each key's group comes to. */
  type Finder = Key -> Option<Candidate>

  function FinderOf(observations: seq<Observation>, today: int): Finder { (k: Key) => Found(observations, today, k) }

  /** Exactly what is found, each once, in order. */
  ghost predicate Lists(find: Finder, out: seq<Candidate>) {
    && (forall c :: c in out <==> find(KeyOf(c)) == Some(c))
    && Ascending(out, Precedes)
  }

  /** The candidates of the groups of the observations, in order. */
  ghost predicate IsDetection(observations: seq<Observation>, today: int, out: seq<Candidate>) {
    Lists(FinderOf(observations, today), out)
  }

  lemma CandidateOrder()
    ensures WeakOrder(CandidateLe)
    ensures forall x, y :: !(Precedes(x, y) && Precedes(y, x))
  {
    TextOrder();
  }

  /** The groups of `detect_recurring`. */
  method GroupAll(observations: seq<Observation>) returns (groups: map<Key, seq<Observation>>)
    ensures forall k :: Group(observations, k) == if k in groups then groups[k] else []
  {
    groups := map[];
    for n := 0 to |observations|
      invariant forall k :: Group(observations[..n], k) == if k in groups then groups[k] else []
    {
      var o := observations[n];
      var key := (o.key, o.currency);
      assert observations[..n + 1][..n] == observations[..n];
      ghost var before := groups;
      groups := groups[key := (if key in groups then groups[key] else []) + [o]];
      forall k ensures Group(observations[..n + 1], k) == if k in groups then groups[k] else [] {
        assert Group(observations[..n], k) == if k in before then before[k] else [];
      }
    }
    assert observations[..|observations|] == observations;
  }

  /** The candidates of the groups, in whatever order they are walked. */
  method Collect(groups: map<Key, seq<Observation>>, evaluate: (Key, seq<Observation>) -> Option<Candidate>,
                 ghost find: Finder)
    returns (found: seq<Candidate>)
    requires forall k :: k in groups ==> find(k) == evaluate(k, groups[k])
    requires forall k :: find(k).Some? ==> k in groups && KeyOf(find(k).value) == k
    ensures forall c :: c in found <==> find(KeyOf(c)) == Some(c)
    ensures forall i, j :: 0 <= i < j < |found| ==> KeyOf(found[i]) != KeyOf(found[j])
  {
    found := [];
    var left := groups.Keys;
    while left != {}
      invariant left <= groups.Keys
      invariant forall c :: c in found <==> KeyOf(c) in groups && KeyOf(c) !in left && find(KeyOf(c)) == Some(c)
      invariant forall i, j :: 0 <= i < j < |found| ==> KeyOf(found[i]) != KeyOf(found[j])
      decreases |left|
    {
      var key :| key in left;
      var candidate := evaluate(key, groups[key]);
      assert candidate == find(key);
      if candidate.Some? {
        found := found + [candidate.value];
      }
      left := left - {key};
    }
  }

  /** `detect_recurring`. */
  method DetectRecurring(observations: seq<Observation>, today: int) returns (out: seq<Candidate>)
    ensures IsDetection(observations, today, out)
  {
    var groups := GroupAll(observations);
    ghost var find := FinderOf(observations, today);
    forall k | find(k).Some? ensures k in groups && KeyOf(find(k).value) == k {
      NothingFoundInNothing(k, today);
    }
    var found := Collect(groups, (k: Key, g: seq<Observation>) => CandidateOf(k, g, today), find);
    SortedIsDetection(find, found);
    out := Sort(found, CandidateLe);
  }

  lemma NothingFoundInNothing(key: Key, today: int)
    ensures CandidateOf(key, [], today) == None
  {
  }

  lemma SortedIsDetection(find: Finder, found: seq<Candidate>)
    requires forall c :: c in found <==> find(KeyOf(c)) == Some(c)
    requires forall i, j :: 0 <= i < j < |found| ==> KeyOf(found[i]) != KeyOf(found[j])
    ensures Lists(find, Sort(found, CandidateLe))
  {
    var out := Sort(found, CandidateLe);
    CandidateOrder();
    SortSorts(found, CandidateLe);
    DistinctReordered(found, out);
    forall c ensures c in out <==> c in found { assert c in out <==> c in multiset(found); }
    forall i, j | 0 <= i < j < |out| ensures Precedes(out[i], out[j]) {
      assert out[i] in found && out[j] in found && out[i] != out[j];
      assert CandidateLe(out[i], out[j]);
    }
  }

  // ---------------------------------------------------------------------------------------------
  // The order of the observations
  // ---------------------------------------------------------------------------------------------

  lemma ChargeOrder()
    ensures TotalOrder(ChargeLe)
  {
  }

  lemma ChargesCons(o: Observation, s: seq<Observation>)
    ensures Charges([o] + s) == [ChargeOf(o)] + Charges(s)
  {
  }

  lemma {:induction false} InsertCharges(o: Observation, s: seq<Observation>)
    ensures Charges(Insert(o, s, ObservationLe)) == Insert(ChargeOf(o), Charges(s), ChargeLe)
  {
    if s != [] {
      assert Charges(s)[1..] == Charges(s[1..]);
      if ObservationLe(o, s[0]) {
        ChargesCons(o, s);
      } else {
        InsertCharges(o, s[1..]);
        ChargesCons(s[0], Insert(o, s[1..], ObservationLe));
      }
    }
  }

  lemma {:induction false} SortCharges(s: seq<Observation>)
    ensures Charges(Sort(s, ObservationLe)) == Sort(Charges(s), ChargeLe)
  {
    if s != [] {
      SortCharges(s[1..]);
      InsertCharges(s[0], Sort(s[1..], ObservationLe));
      assert Charges(s)[1..] == Charges(s[1..]);
    }
  }

  lemma CountOfPush(s: seq<Observation>, last: Observation, o: Observation)
    ensures multiset(s + [last])[o] == multiset(s)[o] + (if o == last then 1 else 0)
  {
  }

  lemma {:induction false} CountInGroup(observations: seq<Observation>, key: Key, o: Observation)
    ensures multiset(Group(observations, key))[o] == if InGroup(o, key) then multiset(observations)[o] else 0
  {
    if observations != [] {
      var front, last := observations[..|observations| - 1], observations[|observations| - 1];
      assert observations == front + [last];
      CountInGroup(front, key, o);
      CountOfPush(front, last, o);
      CountOfPush(Group(front, key), last, o);
    }
  }

  lemma GroupReordered(a: seq<Observation>, b: seq<Observation>, key: Key)
    requires multiset(a) == multiset(b)
    ensures multiset(Group(a, key)) == multiset(Group(b, key))
  {
    forall o ensures multiset(Group(a, key))[o] == multiset(Group(b, key))[o] {
      CountInGroup(a, key, o);
      CountInGroup(b, key, o);
    }
  }

  function Undisplayed(c: Candidate): Candidate { c.(display := "") }

  /** A group's candidate, but for the display name, does not depend on the order of its observations. */
  lemma FoundReordered(a: seq<Observation>, b: seq<Observation>, today: int, key: Key)
    requires multiset(a) == multiset(b)
    ensures Found(a, today, key).Some? <==> Found(b, today, key).Some?
    ensures Found(a, today, key).Some? ==>
      Undisplayed(Found(a, today, key).value) == Undisplayed(Found(b, today, key).value)
  {
    var g, h := Group(a, key), Group(b, key);
    GroupReordered(a, b, key);
    MapReordered(ChargeOf, g, h);
    assert Charges(g) == Map(ChargeOf, g) && Charges(h) == Map(ChargeOf, h);
    SortCharges(g);
    SortCharges(h);
    ChargeOrder();
    SortSorts(Charges(g), ChargeLe);
    SortSorts(Charges(h), ChargeLe);
    SortedIsUnique(Sort(Charges(g), ChargeLe), Sort(Charges(h), ChargeLe), ChargeLe);
  }

  function AllUndisplayed(out: seq<Candidate>): (u: seq<Candidate>)
    ensures |u| == |out|
  {
    seq(|out|, i requires 0 <= i < |out| => Undisplayed(out[i]))
  }

  predicate SameButDisplay(a: Option<Candidate>, b: Option<Candidate>) {
    if a.Some? && b.Some? then Undisplayed(a.value) == Undisplayed(b.value) else a.None? && b.None?
  }

  lemma UndisplayedAre(find: Finder, out: seq<Candidate>, u: Candidate)
    requires Lists(find, out) && forall k :: find(k).Some? ==> KeyOf(find(k).value) == k
    ensures u in AllUndisplayed(out) <==> find(KeyOf(u)).Some? && Undisplayed(find(KeyOf(u)).value) == u
  {
    if u in AllUndisplayed(out) {
      var i :| 0 <= i < |out| && Undisplayed(out[i]) == u;
      assert out[i] in out && KeyOf(out[i]) == KeyOf(u);
    }
    var found := find(KeyOf(u));
    if found.Some? && Undisplayed(found.value) == u {
      assert found.value in out;
      var i :| 0 <= i < |out| && out[i] == found.value;
      assert AllUndisplayed(out)[i] == u;
    }
  }

  lemma SameFindersSameLists(f: Finder, g: Finder, p: seq<Candidate>, q: seq<Candidate>)
    requires Lists(f, p) && Lists(g, q) && forall k :: SameButDisplay(f(k), g(k))
    requires forall k :: f(k).Some? ==> KeyOf(f(k).value) == k
    requires forall k :: g(k).Some? ==> KeyOf(g(k).value) == k
    ensures AllUndisplayed(p) == AllUndisplayed(q)
  {
    CandidateOrder();
    forall u ensures u in AllUndisplayed(p) <==> u in AllUndisplayed(q) {
      UndisplayedAre(f, p, u);
      UndisplayedAre(g, q, u);
      assert SameButDisplay(f(KeyOf(u)), g(KeyOf(u)));
    }
    AscendingIsUnique(AllUndisplayed(p), AllUndisplayed(q), Precedes);
  }

  // ---------------------------------------------------------------------------------------------
  // What every candidate says of its observations
  // ---------------------------------------------------------------------------------------------

  /** The charges of one merchant and currency, in order. */
  function ChargesOf(observations: seq<Observation>, key: Key): seq<Charge> {
    Sort(Charges(Group(observations, key)), ChargeLe)
  }

  lemma DetectedInOrder(observations: seq<Observation>, today: int, out: seq<Candidate>, c: Candidate)
    requires IsDetection(observations, today, out) && c in out
    ensures Detect(ChargesOf(observations, KeyOf(c)), today) == Some(c.facts)
    ensures Sorted(ChargesOf(observations, KeyOf(c)), ChargeLe)
    ensures |ChargesOf(observations, KeyOf(c))| == |Group(observations, KeyOf(c))|
    ensures multiset(ChargesOf(observations, KeyOf(c))) == multiset(Charges(Group(observations, KeyOf(c))))
  {
    var g := Group(observations, KeyOf(c));
    assert FinderOf(observations, today)(KeyOf(c)) == Some(c);
    SortCharges(g);
    ChargeOrder();
    SortSorts(Charges(g), ChargeLe);
  }

  /**
  Every candidate returned has three observations or more in its group, at least half of their gaps in its
  cadence's band, a confidence between 625 and 10000, and the first date by whole intervals after its last
  that is not before today.
  */
  lemma EveryCandidateIsRegular(observations: seq<Observation>, today: int, out: seq<Candidate>, c: Candidate)
    returns (cadence: Cadence, k: nat)
    requires IsDetection(observations, today, out) && c in out
    ensures c.facts.occurrences == |Group(observations, KeyOf(c))| == |ChargesOf(observations, KeyOf(c))|
    ensures c.facts.occurrences >= MIN_OCCURRENCES && 625 <= c.facts.confidence <= 10_000
    ensures cadence in CADENCES && c.facts.frequency == cadence.token
    ensures 2 * Tally(Intervals(ChargesOf(observations, KeyOf(c))), (d: int) => cadence.lo <= d <= cadence.hi)
      >= c.facts.occurrences - 1
    ensures k >= 1 && c.facts.nextDate == c.facts.lastSeen + k * cadence.interval >= today
    ensures k == 1 || c.facts.lastSeen + (k - 1) * cadence.interval < today
  {
    DetectedInOrder(observations, today, out, c);
    var sorted := ChargesOf(observations, KeyOf(c));
    cadence := CandidateIsRegular(sorted, today, c.facts);
    var same;
    same, k := CandidateIsDueNext(sorted, today, c.facts);
    TokensAreApart(cadence, same);
  }

  lemma TokensAreApart(a: Cadence, b: Cadence)
    requires a in CADENCES && b in CADENCES && a.token == b.token
    ensures a == b
  {
  }

  /** Every observation of its group lies in its range and is no later than its last date, which one of them has. */
  lemma EveryCandidateHoldsItsGroup(observations: seq<Observation>, today: int, out: seq<Candidate>, c: Candidate)
    requires IsDetection(observations, today, out) && c in out
    ensures forall o :: o in observations && InGroup(o, KeyOf(c)) ==>
      o.date <= c.facts.lastSeen && c.facts.amountMin <= o.amount <= c.facts.amountMax
    ensures exists o :: o in observations && InGroup(o, KeyOf(c)) && o.date == c.facts.lastSeen
  {
    var g, sorted := Group(observations, KeyOf(c)), ChargesOf(observations, KeyOf(c));
    DetectedInOrder(observations, today, out, c);
    forall o | o in observations && InGroup(o, KeyOf(c))
      ensures o.date <= c.facts.lastSeen && c.facts.amountMin <= o.amount <= c.facts.amountMax
    {
      var i := ChargeIsSorted(observations, KeyOf(c), o);
      CandidateHoldsItsCharges(sorted, today, c.facts, i);
    }
    var cadence := DetectedFrom(sorted, today, c.facts);
    var o := SortedIsCharge(observations, KeyOf(c), sorted[|sorted| - 1]);
  }

  lemma ChargeIsSorted(observations: seq<Observation>, key: Key, o: Observation) returns (i: nat)
    requires o in observations && InGroup(o, key)
    ensures i < |ChargesOf(observations, key)| && ChargesOf(observations, key)[i] == ChargeOf(o)
  {
    var g, sorted := Group(observations, key), ChargesOf(observations, key);
    CountInGroup(observations, key, o);
    assert o in multiset(observations) && o in multiset(g);
    var j :| 0 <= j < |g| && g[j] == o;
    assert Charges(g)[j] == ChargeOf(o);
    ChargeOrder();
    SortSorts(Charges(g), ChargeLe);
    assert ChargeOf(o) in multiset(sorted);
    i :| 0 <= i < |sorted| && sorted[i] == ChargeOf(o);
  }

  lemma SortedIsCharge(observations: seq<Observation>, key: Key, charge: Charge) returns (o: Observation)
    requires charge in ChargesOf(observations, key)
    ensures o in observations && InGroup(o, key) && ChargeOf(o) == charge
  {
    var g, sorted := Group(observations, key), ChargesOf(observations, key);
    ChargeOrder();
    SortSorts(Charges(g), ChargeLe);
    assert charge in multiset(sorted) && charge in multiset(Charges(g));
    var j :| 0 <= j < |g| && Charges(g)[j] == charge;
    o := g[j];
    CountInGroup(observations, key, o);
    assert o in multiset(g) && o in multiset(observations);
  }

  /**
  Reordering the observations changes nothing but display names: not which candidates, their fields or
  their order.
  */
  lemma OrderDoesNotMatter(a: seq<Observation>, b: seq<Observation>, today: int, p: seq<Candidate>, q: seq<Candidate>)
    requires multiset(a) == multiset(b) && IsDetection(a, today, p) && IsDetection(b, today, q)
    ensures AllUndisplayed(p) == AllUndisplayed(q)
  {
    forall k ensures SameButDisplay(FinderOf(a, today)(k), FinderOf(b, today)(k)) { FoundReordered(a, b, today, k); }
    SameFindersSameLists(FinderOf(a, today), FinderOf(b, today), p, q);
  }

  lemma LastIsLatest(sorted: seq<Observation>, x: Observation)
    requires Sorted(sorted, ObservationLe) && x in sorted
    ensures ChargeLe(ChargeOf(x), ChargeOf(sorted[|sorted| - 1]))
  {
    var n := |sorted| - 1;
    var i :| 0 <= i < |sorted| && sorted[i] == x;
    assert i < n ==> ObservationLe(sorted[i], sorted[n]);
  }

  lemma LatestOfGroup(g: seq<Observation>) returns (o: Observation)
    requires g != []
    ensures |Sort(g, ObservationLe)| == |g| && o == Sort(g, ObservationLe)[|g| - 1]
    ensures o in multiset(g) && forall x :: x in multiset(g) ==> ChargeLe(ChargeOf(x), ChargeOf(o))
  {
    var sorted := Sort(g, ObservationLe);
    SortSortsObservations(g);
    o := sorted[|sorted| - 1];
    assert o in multiset(sorted);
    forall x | x in multiset(g) ensures ChargeLe(ChargeOf(x), ChargeOf(o)) {
      assert x in multiset(sorted);
      LastIsLatest(sorted, x);
    }
  }

  lemma DisplayOfFound(g: seq<Observation>, key: Key, today: int)
    requires CandidateOf(key, g, today).Some?
    ensures g != [] && |Sort(g, ObservationLe)| == |g|
    ensures CandidateOf(key, g, today).value.display == Sort(g, ObservationLe)[|g| - 1].display
  {
    SortSortsObservations(g);
  }

  /** And the display name is that of some observation with the latest date and, on it, the largest amount. */
  lemma DisplayIsOfTheLatest(observations: seq<Observation>, today: int, key: Key) returns (o: Observation)
    requires Found(observations, today, key).Some?
    ensures o in observations && InGroup(o, key) && Found(observations, today, key).value.display == o.display
    ensures forall x :: x in observations && InGroup(x, key) ==> ChargeLe(ChargeOf(x), ChargeOf(o))
  {
    var g := Group(observations, key);
    DisplayOfFound(g, key, today);
    o := LatestOfGroup(g);
    forall x ensures x in multiset(g) <==> x in observations && InGroup(x, key) {
      CountInGroup(observations, key, x);
    }
  }
}
