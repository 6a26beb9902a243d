/** The merchant-memory planner of crates/db-worker/src/merchant_memory.rs. */
module Memory {
  import opened Common
  import opened Ordering
  import opened Aliases

  /** `id:` and `k:` keys: an identity, or a normalized text no alias resolves. */
  datatype GroupKey = ById(identity: nat) | ByText(key: string)

  /** A categorization the user made: the counterparty and the category. */
  datatype Learned = Learned(counterparty: string, category: nat)

  /** A live transaction with a counterparty and no categorization. */
  datatype Candidate = Candidate(txn: nat, counterparty: string)

  datatype Assignment = Assignment(txn: nat, category: nat, confidence: nat)

  const MIN_AGREEMENT_BPS := 6000

  /** `group_key`. An ambiguous identity receives no automatic category. */
  function KeyOf(index: AliasIndex, normalize: string -> string, counterparty: string): Option<GroupKey> {
    var text := normalize(counterparty);
    if text == "" then None
    else
      match Get(index, text)
      case Some(r) => if r.ambiguous then None else Some(ById(r.identity))
      case None => Some(ByText(text))
  }

  /**
  By the table alone: an empty text and an ambiguous identity are passed over, an identity groups what its alias
  resolves, and a text that no alias resolves is a group of its own.
  */
  lemma KeyByTheTable(index: AliasIndex, table: AliasTable, normalize: string -> string, counterparty: string)
    requires Indexes(index, table)
    ensures var text, key := normalize(counterparty), KeyOf(index, normalize, counterparty);
      && (key.None? <==> text == [] || exists r :: Answer(table, text, Some(r)) && r.ambiguous)
      && (forall i :: key == Some(ById(i)) <==>
            text != [] && exists r :: Answer(table, text, Some(r)) && !r.ambiguous && r.identity == i)
      && (forall t :: key == Some(ByText(t)) <==> t == text && text != [] && Answer(table, text, None))
  {
    var text := normalize(counterparty);
    GetAnswersByTheTable(index, table, text);
    forall r | Answer(table, text, r) ensures r == Get(index, text) { OneAnswer(table, text, r, Get(index, text)); }
  }

  /** What the planner reads: the alias index and the normalizer. */
  datatype Reader = Reader(index: AliasIndex, normalize: string -> string) {
    function Key(counterparty: string): Option<GroupKey> { KeyOf(index, normalize, counterparty) }
  }

  function Votes(reader: Reader, learned: seq<Learned>, key: GroupKey, category: nat): nat {
    Tally(learned, (l: Learned) => reader.Key(l.counterparty) == Some(key) && l.category == category)
  }

  function AllVotes(reader: Reader, learned: seq<Learned>, key: GroupKey): nat {
    Tally(learned, (l: Learned) => reader.Key(l.counterparty) == Some(key))
  }

  /** Agreement of a category within its merchant, in basis points. */
  function Agreement(reader: Reader, learned: seq<Learned>, key: GroupKey, category: nat): nat {
    if AllVotes(reader, learned, key) == 0 then 0
    else Votes(reader, learned, key, category) * 10_000 / AllVotes(reader, learned, key)
  }

  predicate Wins(reader: Reader, learned: seq<Learned>, key: GroupKey, category: nat) {
    Agreement(reader, learned, key, category) >= MIN_AGREEMENT_BPS
  }

  lemma {:induction false} TwoCategoriesShareTheVotes(reader: Reader, learned: seq<Learned>, key: GroupKey, a: nat,
                                                      b: nat)
    requires a != b
    ensures Votes(reader, learned, key, a) + Votes(reader, learned, key, b) <= AllVotes(reader, learned, key)
  {
    if learned != [] { TwoCategoriesShareTheVotes(reader, learned[..|learned| - 1], key, a, b); }
  }

  lemma SixtyPercentIsAMajority(votes: nat, all: nat)
    requires all > 0 && votes * 10_000 / all >= MIN_AGREEMENT_BPS
    ensures 2 * votes > all
  {
    var q := votes * 10_000 / all;
    assert q * all <= votes * 10_000;
    assert MIN_AGREEMENT_BPS * all <= q * all;
  }

  lemma MinorityFallsShort(votes: nat, all: nat)
    requires all > 0 && 2 * votes <= all
    ensures votes * 10_000 / all < MIN_AGREEMENT_BPS
  {
    if votes * 10_000 / all >= MIN_AGREEMENT_BPS { SixtyPercentIsAMajority(votes, all); }
  }

  /** The threshold makes a winner a strict majority, so no other category reaches even its count. */
  lemma WinnerIsAStrictMajority(reader: Reader, learned: seq<Learned>, key: GroupKey, a: nat, b: nat)
    requires Wins(reader, learned, key, a)
    ensures 2 * Votes(reader, learned, key, a) > AllVotes(reader, learned, key)
    ensures b != a ==> Votes(reader, learned, key, b) < Votes(reader, learned, key, a) && !Wins(reader, learned, key, b)
  {
    var all := AllVotes(reader, learned, key);
    SixtyPercentIsAMajority(Votes(reader, learned, key, a), all);
    if b != a {
      TwoCategoriesShareTheVotes(reader, learned, key, a, b);
      MinorityFallsShort(Votes(reader, learned, key, b), all);
    }
  }

  /** What is assigned, by the tables alone. */
  ghost predicate Planned(reader: Reader, learned: seq<Learned>, open: seq<Candidate>, a: Assignment) {
    exists c, key :: c in open && c.txn == a.txn && reader.Key(c.counterparty) == Some(key)
      && Wins(reader, learned, key, a.category) && a.confidence == Agreement(reader, learned, key, a.category)
  }

  predicate TxnLe(a: Assignment, b: Assignment) { a.txn <= b.txn }

  ghost predicate IsPlan(reader: Reader, learned: seq<Learned>, open: seq<Candidate>, plan: seq<Assignment>) {
    && (forall a :: a in plan <==> Planned(reader, learned, open, a))
    && (forall i, j :: 0 <= i < j < |plan| ==> plan[i].txn < plan[j].txn)
  }

  type Counts = map<GroupKey, map<nat, nat>>

  function CountOf(counts: Counts, key: GroupKey, category: nat): nat {
    if key in counts && category in counts[key] then counts[key][category] else 0
  }

  /** Step 1 of `plan_assignments`: count the user's categorizations. */
  method BuildMemory(reader: Reader, learned: seq<Learned>) returns (memory: Counts)
    ensures forall k, c :: CountOf(memory, k, c) == Votes(reader, learned, k, c)
    ensures forall k :: k in memory ==> memory[k] != map[]
    ensures forall k :: k in memory ==> forall c :: c in memory[k] ==> memory[k][c] > 0
  {
    memory := map[];
    for n := 0 to |learned|
      invariant forall k, c :: CountOf(memory, k, c) == Votes(reader, learned[..n], k, c)
      invariant forall k :: k in memory ==> memory[k] != map[]
      invariant forall k :: k in memory ==> forall c :: c in memory[k] ==> memory[k][c] > 0
    {
      var l := learned[n];
      var key := reader.Key(l.counterparty);
      assert learned[..n + 1][..n] == learned[..n];
      ghost var before := memory;
      if key.Some? {
        var counts: map<nat, nat> := if key.value in memory then memory[key.value] else map[];
        var count := if l.category in counts then counts[l.category] else 0;
        memory := memory[key.value := counts[l.category := count + 1]];
      }
      forall k, c ensures CountOf(memory, k, c) == Votes(reader, learned[..n + 1], k, c) {
        assert CountOf(before, k, c) == Votes(reader, learned[..n], k, c);
      }
    }
    assert learned[..|learned|] == learned;
  }

  /** The votes a merchant's categories in `categories` have together. */
  function VotesAmong(reader: Reader, learned: seq<Learned>, key: GroupKey, categories: set<nat>): nat {
    if learned == [] then 0
    else
      var l := learned[|learned| - 1];
      VotesAmong(reader, learned[..|learned| - 1], key, categories)
      + (if reader.Key(l.counterparty) == Some(key) && l.category in categories then 1 else 0)
  }

  lemma {:induction false} VotesAmongAdd(reader: Reader, learned: seq<Learned>, key: GroupKey, categories: set<nat>,
                                         c: nat)
    requires c !in categories
    ensures VotesAmong(reader, learned, key, categories + {c})
      == VotesAmong(reader, learned, key, categories) + Votes(reader, learned, key, c)
  {
    if learned != [] { VotesAmongAdd(reader, learned[..|learned| - 1], key, categories, c); }
  }

  lemma {:induction false} VotesAmongAll(reader: Reader, learned: seq<Learned>, key: GroupKey, categories: set<nat>)
    requires forall c :: Votes(reader, learned, key, c) > 0 ==> c in categories
    ensures VotesAmong(reader, learned, key, categories) == AllVotes(reader, learned, key)
  {
    if learned != [] {
      var rest, l := learned[..|learned| - 1], learned[|learned| - 1];
      assert Votes(reader, learned, key, l.category) >= (if reader.Key(l.counterparty) == Some(key) then 1 else 0);
      forall c | Votes(reader, rest, key, c) > 0 ensures c in categories {
        assert Votes(reader, learned, key, c) >= Votes(reader, rest, key, c);
      }
      VotesAmongAll(reader, rest, key, categories);
    }
  }

  lemma {:induction false} NoVotesAmongNone(reader: Reader, learned: seq<Learned>, key: GroupKey)
    ensures VotesAmong(reader, learned, key, {}) == 0
  {
    if learned != [] { NoVotesAmongNone(reader, learned[..|learned| - 1], key); }
  }

  ghost predicate Counted(reader: Reader, learned: seq<Learned>, key: GroupKey, counts: map<nat, nat>) {
    && counts != map[]
    && (forall c :: c in counts ==> counts[c] > 0)
    && (forall c :: Votes(reader, learned, key, c) == if c in counts then counts[c] else 0)
  }

  /** What the walk over the counts keeps, for the categories seen. */
  ghost predicate Walked(reader: Reader, learned: seq<Learned>, key: GroupKey, seen: set<nat>, total: nat, best: nat,
                         most: nat) {
    && total == VotesAmong(reader, learned, key, seen)
    && (forall c :: c in seen ==> Votes(reader, learned, key, c) <= most)
    && (if seen == {} then most == 0 else best in seen && Votes(reader, learned, key, best) == most > 0)
  }

  lemma WalkOne(reader: Reader, learned: seq<Learned>, key: GroupKey, seen: set<nat>, total: nat, best: nat, most: nat,
                c: nat)
    requires Walked(reader, learned, key, seen, total, best, most) && c !in seen && Votes(reader, learned, key, c) > 0
    ensures var v := Votes(reader, learned, key, c);
      Walked(reader, learned, key, seen + {c}, total + v, if v >= most then c else best, if v >= most then v else most)
  {
    VotesAmongAdd(reader, learned, key, seen, c);
  }

  /** The total and the largest count, in whatever order the map gives them. */
  method SumAndMost(reader: Reader, ghost learned: seq<Learned>, ghost key: GroupKey, counts: map<nat, nat>)
    returns (total: nat, best: nat, most: nat)
    requires Counted(reader, learned, key, counts)
    ensures total == AllVotes(reader, learned, key) > 0
    ensures most == Votes(reader, learned, key, best)
    ensures forall c :: Votes(reader, learned, key, c) <= most
  {
    total, best, most := 0, 0, 0;
    var left := counts.Keys;
    ghost var seen: set<nat> := {};
    NoVotesAmongNone(reader, learned, key);
    while left != {}
      invariant seen + left == counts.Keys && seen !! left && Walked(reader, learned, key, seen, total, best, most)
      decreases |left|
    {
      var c :| c in left;
      assert c in counts.Keys && Votes(reader, learned, key, c) == counts[c];
      WalkOne(reader, learned, key, seen, total, best, most, c);
      total := total + counts[c];
      if counts[c] >= most {
        best, most := c, counts[c];
      }
      left, seen := left - {c}, seen + {c};
    }
    assert seen == counts.Keys;
    SomeCounted(reader, learned, key, counts);
    VotesAmongAll(reader, learned, key, seen);
    AllIncludes(reader, learned, key, best);
  }

  lemma AllIncludes(reader: Reader, learned: seq<Learned>, key: GroupKey, c: nat)
    ensures Votes(reader, learned, key, c) <= AllVotes(reader, learned, key)
  {
    TallyBounds(learned, (l: Learned) => reader.Key(l.counterparty) == Some(key) && l.category == c,
                (l: Learned) => reader.Key(l.counterparty) == Some(key));
  }

  lemma SomeCounted(reader: Reader, learned: seq<Learned>, key: GroupKey, counts: map<nat, nat>)
    requires Counted(reader, learned, key, counts)
    ensures counts.Keys != {}
    ensures forall c :: Votes(reader, learned, key, c) > 0 ==> c in counts.Keys
  {
    assert exists c :: c in counts;
  }

  lemma NoneWinsBelowTheMost(reader: Reader, learned: seq<Learned>, key: GroupKey, best: nat, c: nat)
    requires !Wins(reader, learned, key, best)
    requires Votes(reader, learned, key, c) <= Votes(reader, learned, key, best)
    ensures !Wins(reader, learned, key, c)
  {
    if Wins(reader, learned, key, c) { WinnerIsAStrictMajority(reader, learned, key, c, best); }
  }

  /** Step 2 for one merchant: the largest count wins if it reaches the threshold. */
  method PickWinner(reader: Reader, ghost learned: seq<Learned>, ghost key: GroupKey, counts: map<nat, nat>)
    returns (winner: Option<(nat, nat)>)
    requires Counted(reader, learned, key, counts)
    ensures winner.None? ==> forall c :: !Wins(reader, learned, key, c)
    ensures winner.Some? ==>
      Wins(reader, learned, key, winner.value.0) && winner.value.1 == Agreement(reader, learned, key, winner.value.0)
  {
    var total, best, most := SumAndMost(reader, learned, key, counts);
    var agreement := most * 10_000 / total;
    assert agreement == Agreement(reader, learned, key, best);
    if agreement < MIN_AGREEMENT_BPS {
      forall c ensures !Wins(reader, learned, key, c) { NoneWinsBelowTheMost(reader, learned, key, best, c); }
      return None;
    }
    return Some((best, agreement));
  }

  /** Step 2 of `plan_assignments`. */
  method PickWinners(reader: Reader, learned: seq<Learned>) returns (winners: map<GroupKey, (nat, nat)>)
    ensures forall k :: k in winners ==>
      Wins(reader, learned, k, winners[k].0) && winners[k].1 == Agreement(reader, learned, k, winners[k].0)
    ensures forall k, c :: Wins(reader, learned, k, c) ==> k in winners
  {
    var memory := BuildMemory(reader, learned);
    winners := map[];
    var left := memory.Keys;
    while left != {}
      invariant left <= memory.Keys
      invariant forall k :: k in winners ==>
        Wins(reader, learned, k, winners[k].0) && winners[k].1 == Agreement(reader, learned, k, winners[k].0)
      invariant forall k, c :: k in memory && k !in left && Wins(reader, learned, k, c) ==> k in winners
      decreases |left|
    {
      var key :| key in left;
      forall c ensures Votes(reader, learned, key, c) == if c in memory[key] then memory[key][c] else 0 {
        assert CountOf(memory, key, c) == Votes(reader, learned, key, c);
      }
      var winner := PickWinner(reader, learned, key, memory[key]);
      if winner.Some? {
        winners := winners[key := winner.value];
      }
      left := left - {key};
    }
    forall k, c | Wins(reader, learned, k, c) ensures k in memory {
      assert CountOf(memory, k, c) == Votes(reader, learned, k, c);
      WinnerIsAStrictMajority(reader, learned, k, c, c);
    }
  }

  /** `plan_assignments`. */
  method PlanAssignments(reader: Reader, learned: seq<Learned>, open: seq<Candidate>) returns (plan: seq<Assignment>)
    requires forall i, j :: 0 <= i < j < |open| ==> open[i].txn != open[j].txn
    ensures IsPlan(reader, learned, open, plan)
  {
    var winners := PickWinners(reader, learned);
    plan := [];
    for n := 0 to |open|
      invariant forall a :: a in plan <==> Planned(reader, learned, open[..n], a)
      invariant Distinct(plan)
    {
      var key := reader.Key(open[n].counterparty);
      ghost var before := plan;
      if key.Some? && key.value in winners {
        plan := plan + [Assignment(open[n].txn, winners[key.value].0, winners[key.value].1)];
      }
      OneMore(reader, learned, open, n, winners, before, plan);
    }
    assert open[..|open|] == open;
    SortedIsThePlan(reader, learned, open, plan);
    plan := Sort(plan, TxnLe);
  }

  lemma SortedIsThePlan(reader: Reader, learned: seq<Learned>, open: seq<Candidate>, unsorted: seq<Assignment>)
    requires forall i, j :: 0 <= i < j < |open| ==> open[i].txn != open[j].txn
    requires forall a :: a in unsorted <==> Planned(reader, learned, open, a)
    requires Distinct(unsorted)
    ensures IsPlan(reader, learned, open, Sort(unsorted, TxnLe))
  {
    var plan := Sort(unsorted, TxnLe);
    SortSorts(unsorted, TxnLe);
    DistinctReordered(unsorted, plan);
    forall a ensures a in plan <==> a in unsorted { assert a in plan <==> a in multiset(plan); }
    forall i, j | 0 <= i < j < |plan| ensures plan[i].txn < plan[j].txn {
      assert plan[i] in unsorted && plan[j] in unsorted;
      if plan[i].txn == plan[j].txn { OnePerTransaction(reader, learned, open, plan[i], plan[j]); }
    }
  }

  lemma OneMore(reader: Reader, learned: seq<Learned>, open: seq<Candidate>, n: nat, winners: map<GroupKey, (nat, nat)>,
                before: seq<Assignment>, plan: seq<Assignment>)
    requires n < |open| && (forall i, j :: 0 <= i < j < |open| ==> open[i].txn != open[j].txn)
    requires forall k :: k in winners ==>
      Wins(reader, learned, k, winners[k].0) && winners[k].1 == Agreement(reader, learned, k, winners[k].0)
    requires forall k, c :: Wins(reader, learned, k, c) ==> k in winners
    requires forall a :: a in before <==> Planned(reader, learned, open[..n], a)
    requires Distinct(before)
    requires var key := reader.Key(open[n].counterparty);
      plan == if key.Some? && key.value in winners
              then before + [Assignment(open[n].txn, winners[key.value].0, winners[key.value].1)] else before
    ensures forall a :: a in plan <==> Planned(reader, learned, open[..n + 1], a)
    ensures Distinct(plan)
  {
    var c, key := open[n], reader.Key(open[n].counterparty);
    assert open[..n + 1] == open[..n] + [c];
    forall a | a in before ensures a.txn != c.txn {
      var d, k :| d in open[..n] && d.txn == a.txn && reader.Key(d.counterparty) == Some(k)
        && Wins(reader, learned, k, a.category) && a.confidence == Agreement(reader, learned, k, a.category);
    }
    forall a | Planned(reader, learned, open[..n + 1], a) ensures a in plan {
      var d, k :| d in open[..n + 1] && d.txn == a.txn && reader.Key(d.counterparty) == Some(k)
        && Wins(reader, learned, k, a.category) && a.confidence == Agreement(reader, learned, k, a.category);
      if d in open[..n] {
        assert Planned(reader, learned, open[..n], a);
      } else {
        assert k in winners;
        WinnerIsAStrictMajority(reader, learned, k, a.category, winners[k].0);
      }
    }
    forall a | a in plan ensures Planned(reader, learned, open[..n + 1], a) {
      if a in before {
        var d, k :| d in open[..n] && d.txn == a.txn && reader.Key(d.counterparty) == Some(k)
          && Wins(reader, learned, k, a.category) && a.confidence == Agreement(reader, learned, k, a.category);
        assert d in open[..n + 1];
      } else {
        assert c in open[..n + 1];
      }
    }
  }

  lemma OnePerTransaction(reader: Reader, learned: seq<Learned>, open: seq<Candidate>, a: Assignment, b: Assignment)
    requires forall i, j :: 0 <= i < j < |open| ==> open[i].txn != open[j].txn
    requires Planned(reader, learned, open, a) && Planned(reader, learned, open, b) && a.txn == b.txn
    ensures a == b
  {
    var c, k :| c in open && c.txn == a.txn && reader.Key(c.counterparty) == Some(k)
      && Wins(reader, learned, k, a.category) && a.confidence == Agreement(reader, learned, k, a.category);
    var d, l :| d in open && d.txn == b.txn && reader.Key(d.counterparty) == Some(l)
      && Wins(reader, learned, l, b.category) && b.confidence == Agreement(reader, learned, l, b.category);
    assert c == d && k == l;
    WinnerIsAStrictMajority(reader, learned, k, a.category, b.category);
  }

  lemma ShareInBasisPoints(votes: nat, all: nat, share: nat)
    requires all > 0
    ensures share == votes * 10_000 / all <==> share * all <= 10_000 * votes < (share + 1) * all
    ensures votes * 10_000 / all >= MIN_AGREEMENT_BPS <==> 3 * all <= 5 * votes
  {
    var q := votes * 10_000 / all;
    QuotientIsBetween(votes * 10_000, all, q);
    if share < q { TimesAll(share + 1, q, all); }
    if share > q { TimesAll(q + 1, share, all); }
    if q >= 6000 { TimesAll(6000, q, all); } else { TimesAll(q + 1, 6000, all); }
  }

  lemma TimesAll(a: nat, b: nat, all: nat)
    requires a <= b
    ensures a * all <= b * all
  {
    assert (b - a) * all >= 0;
  }

  lemma QuotientIsBetween(x: nat, d: nat, q: nat)
    requires d > 0 && q == x / d
    ensures q * d <= x < (q + 1) * d
  {
    assert x == q * d + x % d;
  }

  /** A category has three fifths or more of the votes of the group of a counterparty, and that share. */
  ghost predicate ThreeFifths(reader: Reader, learned: seq<Learned>, counterparty: string, category: nat, share: nat) {
    var votes := Tally(learned, (l: Learned) =>
      reader.Key(l.counterparty) == reader.Key(counterparty) && l.category == category);
    var all := Tally(learned, (l: Learned) => reader.Key(l.counterparty) == reader.Key(counterparty));
    all > 0 && 3 * all <= 5 * votes && share * all <= 10_000 * votes < (share + 1) * all
  }

  /**
  What is assigned: the open transactions with a group of which one category has three fifths or more of what the
  user chose for it, that category, and its share in basis points.
  */
  lemma PlanExactly(reader: Reader, learned: seq<Learned>, open: seq<Candidate>, plan: seq<Assignment>, a: Assignment)
    requires IsPlan(reader, learned, open, plan)
    ensures a in plan <==>
      exists c :: c in open && c.txn == a.txn && reader.Key(c.counterparty).Some?
                  && ThreeFifths(reader, learned, c.counterparty, a.category, a.confidence)
  {
    forall c | c in open && reader.Key(c.counterparty).Some?
      ensures ThreeFifths(reader, learned, c.counterparty, a.category, a.confidence) <==>
        var key := reader.Key(c.counterparty).value;
        Wins(reader, learned, key, a.category) && a.confidence == Agreement(reader, learned, key, a.category)
    {
      WinsExactly(reader, learned, c.counterparty, a.category, a.confidence);
    }
  }

  lemma WinsExactly(reader: Reader, learned: seq<Learned>, counterparty: string, category: nat, share: nat)
    requires reader.Key(counterparty).Some?
    ensures ThreeFifths(reader, learned, counterparty, category, share) <==>
      var key := reader.Key(counterparty).value;
      Wins(reader, learned, key, category) && share == Agreement(reader, learned, key, category)
  {
    var key := reader.Key(counterparty).value;
    var mine := (l: Learned) => reader.Key(l.counterparty) == reader.Key(counterparty) && l.category == category;
    var same := (l: Learned) => reader.Key(l.counterparty) == reader.Key(counterparty);
    var votes := (l: Learned) => reader.Key(l.counterparty) == Some(key) && l.category == category;
    var all := (l: Learned) => reader.Key(l.counterparty) == Some(key);
    TallyBounds(learned, mine, votes);
    TallyBounds(learned, votes, mine);
    TallyBounds(learned, same, all);
    TallyBounds(learned, all, same);
    if Tally(learned, all) > 0 { ShareInBasisPoints(Tally(learned, votes), Tally(learned, all), share); }
  }

  /**
  The plan is a function of the tables' contents: neither the order of the rows, nor the order in which
  the maps are walked, nor the order of the alias rows can change it.
  */
  lemma PlanIsAFunctionOfTheTables(table: AliasTable, r1: Reader, r2: Reader, l1: seq<Learned>, l2: seq<Learned>,
                                   o1: seq<Candidate>, o2: seq<Candidate>, p1: seq<Assignment>, p2: seq<Assignment>)
    requires Indexes(r1.index, table) && Indexes(r2.index, table) && r1.normalize == r2.normalize
    requires multiset(l1) == multiset(l2) && multiset(o1) == multiset(o2)
    requires IsPlan(r1, l1, o1, p1) && IsPlan(r2, l2, o2, p2)
    ensures p1 == p2
  {
    forall c ensures r1.Key(c) == r2.Key(c) {
      GetIsAFunctionOfTheTable(r1.index, r2.index, table, r1.normalize(c));
    }
    forall k, c ensures Agreement(r1, l1, k, c) == Agreement(r2, l2, k, c) {
      AgreementReordered(r1, r2, l1, l2, k, c);
    }
    forall c ensures c in o1 <==> c in o2 { assert c in o1 <==> c in multiset(o2); }
    forall a ensures Planned(r1, l1, o1, a) <==> Planned(r2, l2, o2, a) {
    }
    AscendingIsUnique(p1, p2, (a: Assignment, b: Assignment) => a.txn < b.txn);
  }

  lemma {:induction false} SameReaderSameVotes(r1: Reader, r2: Reader, learned: seq<Learned>, key: GroupKey,
                                               category: nat)
    requires forall c :: r1.Key(c) == r2.Key(c)
    ensures Votes(r1, learned, key, category) == Votes(r2, learned, key, category)
    ensures AllVotes(r1, learned, key) == AllVotes(r2, learned, key)
  {
    if learned != [] { SameReaderSameVotes(r1, r2, learned[..|learned| - 1], key, category); }
  }

  lemma AgreementReordered(r1: Reader, r2: Reader, l1: seq<Learned>, l2: seq<Learned>, key: GroupKey, category: nat)
    requires forall c :: r1.Key(c) == r2.Key(c)
    requires multiset(l1) == multiset(l2)
    ensures Agreement(r1, l1, key, category) == Agreement(r2, l2, key, category)
  {
    SameReaderSameVotes(r1, r2, l2, key, category);
    TallyReordered(l1, l2, (l: Learned) => r1.Key(l.counterparty) == Some(key) && l.category == category);
    TallyReordered(l1, l2, (l: Learned) => r1.Key(l.counterparty) == Some(key));
  }
}
