/**
Which series of charges crates/categorization/src/recurring_detection.rs returns, and what it says of them, by the
observations alone.
*/
module RecurringExactly {
  import opened Common
  import opened Ordering
  import opened Recurring

  // ---------------------------------------------------------------------------------------------
  // The rule
  // ---------------------------------------------------------------------------------------------

  predicate InBand(f: Frequency, gap: int) {
    match f
    case Weekly => 6 <= gap <= 8
    case Biweekly => 12 <= gap <= 16
    case Monthly => 26 <= gap <= 35
    case Quarterly => 82 <= gap <= 100
    case Annual => 350 <= gap <= 380
  }

  function Days(f: Frequency): int {
    match f
    case Weekly => 7
    case Biweekly => 14
    case Monthly => 30
    case Quarterly => 91
    case Annual => 365
  }

  function Banded(f: Frequency): int -> bool { (gap: int) => InBand(f, gap) }

  function Near(median: int, width: int): int -> bool { (a: int) => -width <= a - median <= width }

  function Below(m: int): int -> bool { (x: int) => x < m }

  /** `m` is the lower one of the middle values. */
  ghost predicate LowerMiddle(values: seq<int>, m: int) {
    m in values && 2 * Tally(values, Below(m)) < |values| <= 2 * Tally(values, AtMost(m))
  }

  /** `s` are the observations of one merchant and currency, by date and then amount. */
  ghost predicate IsSeries(observations: seq<Observation>, key: string, currency: string, s: seq<Observation>) {
    && (forall o :: multiset(s)[o] ==
          if o.key == key && o.currency == currency then multiset(observations)[o] else 0)
    && (forall i, j :: 0 <= i < j < |s| ==>
          s[i].date < s[j].date || (s[i].date == s[j].date && s[i].amount <= s[j].amount))
  }

  function Gaps(s: seq<Observation>): seq<int>
    requires s != []
  {
    seq(|s| - 1, i requires 0 <= i < |s| - 1 => s[i + 1].date - s[i].date)
  }

  function AmountsOf(s: seq<Observation>): seq<int> { seq(|s|, i requires 0 <= i < |s| => s[i].amount as int) }

  /** Three charges or more, the middle gap in a band, and at least half of the gaps in that band. */
  ghost predicate Recurs(s: seq<Observation>, f: Frequency) {
    && |s| >= 3
    && (exists gap :: LowerMiddle(Gaps(s), gap) && InBand(f, gap))
    && 2 * Tally(Gaps(s), Banded(f)) >= |s| - 1
  }

  /** Basis points: by how often, how regular and how even the charges are. */
  function Trust(n: nat, banded: nat, near: nat): int
    requires n >= 3
  {
    var count := if n >= 6 then 10_000 else (n - 2) * 2_500;
    (count * (banded * 10_000 / (n - 1)) / 10_000) * (5_000 + near * 10_000 / n / 2) / 10_000
  }

  /** A tenth of the amount, or 5 in the major unit. */
  function Width(median: int): int { if median / 10 < 500 then 500 else median / 10 }

  /** The amount is the middle one and the range is that of the charges. */
  ghost predicate DescribesAmounts(facts: Facts, s: seq<Observation>) {
    && LowerMiddle(AmountsOf(s), facts.amount)
    && facts.amountMin in AmountsOf(s) && facts.amountMax in AmountsOf(s)
    && forall i :: 0 <= i < |s| ==> facts.amountMin <= s[i].amount <= facts.amountMax
  }

  ghost predicate DescribesDates(facts: Facts, s: seq<Observation>, f: Frequency, today: int)
    requires s != []
  {
    && facts.occurrences == |s| && facts.frequency == f && facts.lastSeen == s[|s| - 1].date
    && exists k: nat :: IsDueAfter(facts, k, Days(f), today)
  }

  ghost predicate DescribesTrust(facts: Facts, s: seq<Observation>, f: Frequency)
    requires |s| >= 3
  {
    var near := Near(facts.amount, Width(facts.amount));
    facts.confidence == Trust(|s|, Tally(Gaps(s), Banded(f)), Tally(AmountsOf(s), near))
  }

  /** The name is that of an observation equal to the last in date and amount. */
  ghost predicate DescribesName(display: string, s: seq<Observation>)
    requires s != []
  {
    exists o :: o in s && ChargeOf(o) == ChargeOf(s[|s| - 1]) && display == o.display
  }

  ghost predicate Describes(c: Candidate, s: seq<Observation>, f: Frequency, today: int) {
    && |s| >= 3
    && DescribesAmounts(c.facts, s) && DescribesDates(c.facts, s, f, today) && DescribesTrust(c.facts, s, f)
    && DescribesName(c.display, s)
  }

  /** `k` intervals, one or more, after the last charge, and the first such day that is not before today. */
  predicate IsDueAfter(facts: Facts, k: nat, days: int, today: int) {
    && k >= 1 && facts.nextDate == facts.lastSeen + k * days >= today
    && (k == 1 || facts.nextDate - days < today)
  }

  // ---------------------------------------------------------------------------------------------
  // Medians and shares
  // ---------------------------------------------------------------------------------------------

  lemma SameTally<T>(s: seq<T>, p: T -> bool, q: T -> bool)
    requires forall x :: p(x) <==> q(x)
    ensures Tally(s, p) == Tally(s, q)
  {
    TallyBounds(s, p, q);
    TallyBounds(s, q, p);
  }

  lemma MedianIsLowerMiddle(values: seq<int>)
    requires values != []
    ensures LowerMiddle(values, Median(SortInts(values)))
  {
    var m := Median(SortInts(values));
    MedianSplits(values, m);
    SameTally(values, Below(m), (x: int) => x < m);
    SameTally(values, AtMost(m), (x: int) => x <= m);
  }

  lemma OneLowerMiddle(values: seq<int>, a: int, b: int)
    requires LowerMiddle(values, a) && LowerMiddle(values, b)
    ensures a == b
  {
    if a < b { TallyBounds(values, AtMost(a), Below(b)); }
    if b < a { TallyBounds(values, AtMost(b), Below(a)); }
  }

  lemma HalfInBasisPoints(part: nat, whole: nat)
    requires whole > 0
    ensures part * 10_000 / whole >= 5_000 <==> 2 * part >= whole
  {
    var q := part * 10_000 / whole;
    QuotientBounds(part * 10_000, whole, q);
    if q >= 5_000 { MulLe(5_000, q, whole); }
    if q < 5_000 { MulLe(q + 1, 5_000, whole); }
  }

  lemma CadencesSpelled(c: Cadence)
    requires c in CADENCES
    ensures c.interval == Days(c.token)
    ensures forall gap :: c.lo <= gap <= c.hi <==> InBand(c.token, gap)
  {
  }

  lemma BandIsFound(f: Frequency, gap: int)
    requires InBand(f, gap)
    ensures FindCadence(gap, CADENCES).Some? && FindCadence(gap, CADENCES).value.token == f
  {
    var c := match f
      case Weekly => CADENCES[0]
      case Biweekly => CADENCES[1]
      case Monthly => CADENCES[2]
      case Quarterly => CADENCES[3]
      case Annual => CADENCES[4];
    CadenceIsTheOnlyOne(gap, c);
  }

  // ---------------------------------------------------------------------------------------------
  // One series
  // ---------------------------------------------------------------------------------------------

  lemma SeriesShape(s: seq<Observation>)
    requires s != []
    ensures Charges(s) != [] && Intervals(Charges(s)) == Gaps(s) && Amounts(Charges(s)) == AmountsOf(s)
  {
  }

  lemma CadenceShare(s: seq<Observation>, c: Cadence)
    requires |s| >= 2 && c in CADENCES
    ensures Intervals(Charges(s)) == Gaps(s)
    ensures CadenceBps(Gaps(s), c) == Tally(Gaps(s), Banded(c.token)) * 10_000 / (|s| - 1)
    ensures CadenceBps(Gaps(s), c) >= 5_000 <==> 2 * Tally(Gaps(s), Banded(c.token)) >= |s| - 1
  {
    SeriesShape(s);
    CadencesSpelled(c);
    SameTally(Gaps(s), Banded(c.token), (d: int) => c.lo <= d <= c.hi);
    HalfInBasisPoints(Tally(Gaps(s), Banded(c.token)), |s| - 1);
  }

  lemma RecursIsDetected(s: seq<Observation>, f: Frequency, today: int)
    requires Recurs(s, f)
    ensures Detect(Charges(s), today).Some?
  {
    SeriesShape(s);
    var gap :| LowerMiddle(Gaps(s), gap) && InBand(f, gap);
    MedianIsLowerMiddle(Gaps(s));
    OneLowerMiddle(Gaps(s), gap, Median(SortInts(Gaps(s))));
    BandIsFound(f, gap);
    var c := FindCadence(gap, CADENCES).value;
    FoundIsListed(gap, CADENCES);
    CadenceShare(s, c);
  }

  lemma DetectedRecurs(s: seq<Observation>, today: int, facts: Facts) returns (c: Cadence)
    requires Detect(Charges(s), today) == Some(facts)
    ensures c in CADENCES && Recurs(s, c.token) && facts == FactsOf(Charges(s), c, today)
  {
    c := DetectedCadence(Charges(s), today, facts);
    SeriesShape(s);
    var gap := Median(SortInts(Gaps(s)));
    FoundIsListed(gap, CADENCES);
    MedianIsLowerMiddle(Gaps(s));
    CadencesSpelled(c);
    CadenceShare(s, c);
  }

  lemma AmountShare(s: seq<Observation>, median: nat)
    requires s != []
    ensures AmountBps(SortInts(AmountsOf(s)), median) ==
      Tally(AmountsOf(s), Near(median, Width(median))) * 10_000 / |s|
  {
    var sorted := SortInts(AmountsOf(s));
    var near := (a: int) => Recurring.Distance(a, median) <= AmountBand(median);
    assert AmountBand(median) == Width(median);
    SameTally(sorted, near, Near(median, Width(median)));
    TallyReordered(AmountsOf(s), sorted, Near(median, Width(median)));
  }

  lemma ConfidenceIsTrust(s: seq<Observation>, c: Cadence, median: nat)
    requires |s| >= 3 && c in CADENCES
    ensures Confidence(|s|, CadenceBps(Gaps(s), c), AmountBps(SortInts(AmountsOf(s)), median)) ==
      Trust(|s|, Tally(Gaps(s), Banded(c.token)), Tally(AmountsOf(s), Near(median, Width(median))))
  {
    CadenceShare(s, c);
    AmountShare(s, median);
  }

  lemma AmountsAreRight(s: seq<Observation>, c: Cadence, today: int)
    requires |s| >= 3
    ensures DescribesAmounts(FactsOf(Charges(s), c, today), s)
  {
    SeriesShape(s);
    var a := AmountsOf(s);
    MedianIsLowerMiddle(a);
    forall i | 0 <= i < |s| ensures SortInts(a)[0] <= s[i].amount <= SortInts(a)[|a| - 1] {
      assert a[i] in a;
      EndsBound(a, a[i]);
    }
  }

  lemma DatesAreRight(s: seq<Observation>, c: Cadence, today: int)
    requires |s| >= 3 && c in CADENCES
    ensures DescribesDates(FactsOf(Charges(s), c, today), s, c.token, today)
  {
    CadencesSpelled(c);
    CadenceIsTheOnlyOne(0, c);
    DueIsRight(FactsOf(Charges(s), c, today), c.interval, today);
  }

  lemma DueIsRight(facts: Facts, days: int, today: int)
    requires days > 0 && facts.nextDate == RollForward(facts.lastSeen + days, today, days)
    ensures exists k: nat :: IsDueAfter(facts, k, days, today)
  {
    var k := NextDateIsLeast(facts.lastSeen, today, days, facts.nextDate);
    StepBack(facts.lastSeen, k, days);
    assert IsDueAfter(facts, k, days, today);
  }

  lemma TrustIsRight(s: seq<Observation>, c: Cadence, today: int)
    requires |s| >= 3 && c in CADENCES
    ensures DescribesTrust(FactsOf(Charges(s), c, today), s, c.token)
  {
    var facts := FactsOf(Charges(s), c, today);
    SeriesShape(s);
    ConfidenceIsTrust(s, c, facts.amount);
  }

  lemma StepBack(last: int, k: int, days: int)
    ensures last + (k - 1) * days == last + k * days - days
  {
  }

  // ---------------------------------------------------------------------------------------------
  // All series
  // ---------------------------------------------------------------------------------------------

  lemma OrderedCharges(s: seq<Observation>, g: seq<Observation>)
    requires multiset(s) == multiset(g)
    requires Sorted(Charges(s), ChargeLe)
    ensures Charges(s) == Charges(Sort(g, ObservationLe))
  {
    MapReordered(ChargeOf, s, g);
    assert Charges(s) == Map(ChargeOf, s) && Charges(g) == Map(ChargeOf, g);
    SortCharges(g);
    ChargeOrder();
    SortSorts(Charges(g), ChargeLe);
    SortedIsUnique(Charges(s), Sort(Charges(g), ChargeLe), ChargeLe);
  }

  /** A series is the group in the order of its charges. */
  lemma SeriesIsGroup(observations: seq<Observation>, key: Key, s: seq<Observation>)
    requires IsSeries(observations, key.0, key.1, s)
    ensures Charges(s) == Charges(Sort(Group(observations, key), ObservationLe))
  {
    var g := Group(observations, key);
    forall o ensures multiset(s)[o] == multiset(g)[o] { CountInGroup(observations, key, o); }
    assert multiset(s) == multiset(g);
    OrderedCharges(s, g);
  }

  /** Every merchant and currency has its series. */
  lemma SeriesExists(observations: seq<Observation>, key: string, currency: string) returns (s: seq<Observation>)
    ensures IsSeries(observations, key, currency, s)
  {
    var g := Group(observations, (key, currency));
    s := Sort(g, ObservationLe);
    SortSortsObservations(g);
    forall o ensures multiset(s)[o] ==
      if o.key == key && o.currency == currency then multiset(observations)[o] else 0
    {
      CountInGroup(observations, (key, currency), o);
    }
    forall i, j | 0 <= i < j < |s|
      ensures s[i].date < s[j].date || (s[i].date == s[j].date && s[i].amount <= s[j].amount)
    {
      assert ObservationLe(s[i], s[j]);
    }
  }

  /** A candidate is returned for a merchant and a currency exactly when their charges recur. */
  lemma ReturnedExactlyIfRecurring(observations: seq<Observation>, today: int, out: seq<Candidate>,
                                   key: string, currency: string, s: seq<Observation>)
    requires IsDetection(observations, today, out) && IsSeries(observations, key, currency, s)
    ensures (exists c :: c in out && c.key == key && c.currency == currency) <==> exists f :: Recurs(s, f)
  {
    var k := (key, currency);
    SeriesIsGroup(observations, k, s);
    var found := FinderOf(observations, today)(k);
    assert found == CandidateOf(k, Group(observations, k), today);
    if f :| Recurs(s, f) {
      RecursIsDetected(s, f, today);
      assert found.Some? && found.value in out;
    }
    if c :| c in out && c.key == key && c.currency == currency {
      assert found == Some(c);
      var cadence := DetectedRecurs(s, today, c.facts);
      assert Recurs(s, cadence.token);
    }
  }

  lemma LastDisplays(observations: seq<Observation>, today: int, key: Key, s: seq<Observation>)
    returns (o: Observation)
    requires IsSeries(observations, key.0, key.1, s) && s != [] && Found(observations, today, key).Some?
    ensures o in s && ChargeOf(o) == ChargeOf(s[|s| - 1]) && Found(observations, today, key).value.display == o.display
  {
    o := DisplayIsOfTheLatest(observations, today, key);
    var last := s[|s| - 1];
    InSeries(observations, key, s, o);
    InSeries(observations, key, s, last);
    NoneAfterLast(s, o);
  }

  lemma InSeries(observations: seq<Observation>, key: Key, s: seq<Observation>, o: Observation)
    requires IsSeries(observations, key.0, key.1, s)
    ensures o in s <==> o in observations && InGroup(o, key)
  {
    assert o in s <==> o in multiset(s);
    assert o in observations <==> o in multiset(observations);
  }

  lemma NoneAfterLast(s: seq<Observation>, o: Observation)
    requires o in s && Sorted(Charges(s), ChargeLe)
    ensures ChargeLe(ChargeOf(o), ChargeOf(s[|s| - 1]))
  {
    var n := |s| - 1;
    var i := IndexOf(s, o);
    assert i < n ==> ChargeLe(Charges(s)[i], Charges(s)[n]);
  }

  lemma IndexOf(s: seq<Observation>, o: Observation) returns (i: nat)
    requires o in s
    ensures i < |s| && s[i] == o
  {
    i :| 0 <= i < |s| && s[i] == o;
  }

  /** At most one candidate for each, and it says of the charges what they are. */
  lemma ReturnedIsDescribed(observations: seq<Observation>, today: int, out: seq<Candidate>, c: Candidate,
                            s: seq<Observation>)
    requires IsDetection(observations, today, out) && c in out && IsSeries(observations, c.key, c.currency, s)
    ensures exists f :: Recurs(s, f) && Describes(c, s, f, today)
    ensures forall d :: d in out && d.key == c.key && d.currency == c.currency ==> d == c
  {
    var k := (c.key, c.currency);
    SeriesIsGroup(observations, k, s);
    assert FinderOf(observations, today)(k) == Some(c);
    var cadence := DetectedRecurs(s, today, c.facts);
    var o := LastDisplays(observations, today, k, s);
    AmountsAreRight(s, cadence, today);
    DatesAreRight(s, cadence, today);
    TrustIsRight(s, cadence, today);
    forall d | d in out && d.key == c.key && d.currency == c.currency ensures d == c {
      assert FinderOf(observations, today)(KeyOf(d)) == Some(d);
    }
  }

  /** By falling confidence, then key, then currency. */
  lemma ReturnedInOrder(observations: seq<Observation>, today: int, out: seq<Candidate>, i: nat, j: nat)
    requires IsDetection(observations, today, out) && i < j < |out|
    ensures out[i].facts.confidence >= out[j].facts.confidence
    ensures out[i].facts.confidence == out[j].facts.confidence ==> TextLe(out[i].key, out[j].key)
    ensures out[i].facts.confidence == out[j].facts.confidence && out[i].key == out[j].key ==>
      out[i].currency != out[j].currency && TextLe(out[i].currency, out[j].currency)
  {
    assert Precedes(out[i], out[j]);
    TextOrder();
  }
}
