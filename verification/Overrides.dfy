/**
How the active assumption events of base and of the selected scenarios compose into the amount, the
anchor and the exclusion of one entity: crates/db-worker/src/forecast_overrides.rs.
*/
module Overrides {
  import opened Common
  import opened Ordering

  type Day = int

  /** An optional date field of `params_json`: missing or not a string, not a date, or a date. */
  datatype DateField = Absent | Invalid | On(day: Day)

  datatype Params =
    | Unparsable
    | Params(amount: Option<int>, effective: DateField, end: DateField, anchor: DateField)

  datatype Kind = BillAmount | IncomeAmount | BillDate | IncomeDate | Exclusion | OtherKind

  /** An active row of `forecast_assumption_events` that has a target. */
  datatype Event = Event(id: nat, createdAt: int, scenario: Option<nat>, kind: Kind, target: nat, params: Params)

  // ---------------------------------------------------------------------------------------------
  // Precedence: selection rank, then creation, then id
  // ---------------------------------------------------------------------------------------------

  /** The 1-based position of a scenario in the selection; base ranks 0, an unselected scenario not at all. */
  function Rank(scenarios: seq<nat>, scenario: Option<nat>): Option<nat> {
    if scenario.None? then Some(0) else Position(scenarios, scenario.value, 1)
  }

  function Position(scenarios: seq<nat>, id: nat, from: nat): (r: Option<nat>)
    ensures r.Some? <==> id in scenarios
    ensures r.Some? ==> from <= r.value < from + |scenarios| && scenarios[r.value - from] == id
    ensures r.Some? ==> forall k :: 0 <= k < r.value - from ==> scenarios[k] != id
  {
    if scenarios == [] then None
    else if scenarios[0] == id then Some(from)
    else Position(scenarios[1..], id, from + 1)
  }

  predicate Selected(scenarios: seq<nat>, e: Event) { Rank(scenarios, e.scenario).Some? }

  /** The order of the query: creation time, then id. */
  predicate CreatedBefore(a: Event, b: Event) {
    a.createdAt < b.createdAt || (a.createdAt == b.createdAt && a.id < b.id)
  }

  /** `b` outranks `a`. */
  predicate Before(scenarios: seq<nat>, a: Event, b: Event)
    requires Selected(scenarios, a) && Selected(scenarios, b)
  {
    var ra, rb := Rank(scenarios, a.scenario).value, Rank(scenarios, b.scenario).value;
    ra < rb || (ra == rb && CreatedBefore(a, b))
  }

  /** What the query returns before the WHERE clause picks scenarios: strictly in creation order. */
  predicate InQueryOrder(events: seq<Event>) {
    forall i, j :: 0 <= i < j < |events| ==> CreatedBefore(events[i], events[j])
  }

  // ---------------------------------------------------------------------------------------------
  // What an event says
  // ---------------------------------------------------------------------------------------------

  predicate SetsAmount(e: Event) {
    (e.kind.BillAmount? || e.kind.IncomeAmount?) && e.params.Params? && e.params.amount.Some?
  }

  predicate SetsAnchor(e: Event) { (e.kind.BillDate? || e.kind.IncomeDate?) && e.params.Params? && e.params.anchor.On? }

  predicate Excludes(e: Event) { e.kind.Exclusion? && e.params.Params? }

  /** An event whose reading fails, and with it the whole composition. */
  predicate Bad(e: Event) {
    || e.params.Unparsable?
    || (SetsAmount(e) && (e.params.effective.Invalid? || e.params.end.Invalid?))
    || ((e.kind.BillDate? || e.kind.IncomeDate?) && e.params.anchor.Invalid?)
    || (e.kind.Exclusion? && e.params.effective.Invalid?)
  }

  /** In the terms of its kind: no object, or a date field it reads that is no date. */
  predicate Malformed(e: Event) {
    match e.params
    case Unparsable => true
    case Params(amount, effective, end, anchor) =>
      match e.kind
      case BillAmount | IncomeAmount => amount.Some? && (effective == Invalid || end == Invalid)
      case BillDate | IncomeDate => anchor == Invalid
      case Exclusion => effective == Invalid
      case OtherKind => false
  }

  lemma BadIsMalformed(e: Event)
    ensures Bad(e) <==> Malformed(e)
  {
  }

  predicate CoversDay(e: Event, date: Day)
    requires e.params.Params?
  {
    (e.params.effective.On? ==> e.params.effective.day <= date) && (e.params.end.On? ==> date <= e.params.end.day)
  }

  predicate ExcludesDay(e: Event, date: Day)
    requires e.params.Params?
  {
    e.params.effective.On? ==> e.params.effective.day <= date
  }

  // ---------------------------------------------------------------------------------------------
  // The code: segments, anchor and exclusion of one entity
  // ---------------------------------------------------------------------------------------------

  datatype ExcludeFrom = All | From(day: Day)

  datatype AmountSegment = AmountSegment(start: Option<Day>, end: Option<Day>, amount: int, rank: nat)

  predicate Covers(s: AmountSegment, date: Day) {
    (s.start.Some? ==> s.start.value <= date) && (s.end.Some? ==> date <= s.end.value)
  }

  datatype EntityOverride = EntityOverride(segments: seq<AmountSegment>, newAnchor: Option<Day>,
                                           exclude: Option<ExcludeFrom>)

  const NO_OVERRIDE := EntityOverride([], None, None)

  /** The covering segment with the greatest composition index. */
  function Winner(segments: seq<AmountSegment>, date: Day): Option<AmountSegment> {
    if segments == [] then None
    else
      var last, best := segments[|segments| - 1], Winner(segments[..|segments| - 1], date);
      if Covers(last, date) && (best.None? || best.value.rank <= last.rank) then Some(last) else best
  }

  function AmountFor(o: EntityOverride, date: Day, base: int): Option<int> {
    if o.exclude.Some? && o.exclude.value.From? && o.exclude.value.day <= date then None
    else if o.exclude == Some(All) then None
    else
      var winner := Winner(o.segments, date);
      Some(if winner.None? then base else winner.value.amount)
  }

  function AnchorOr(o: EntityOverride, base: Day): Day {
    if o.newAnchor.Some? then o.newAnchor.value else base
  }

  function DayOf(f: DateField): Option<Day> { if f.On? then Some(f.day) else None }

  /** One event's effect on its target; `rank` is its composition index. */
  function Apply(o: EntityOverride, e: Event, rank: nat): EntityOverride
    requires !Bad(e)
  {
    match e.kind
    case BillAmount | IncomeAmount =>
      if e.params.amount.None? then o
      else
        var segment := AmountSegment(DayOf(e.params.effective), DayOf(e.params.end), e.params.amount.value, rank);
        o.(segments := o.segments + [segment])
    case BillDate | IncomeDate => if e.params.anchor.On? then o.(newAnchor := Some(e.params.anchor.day)) else o
    case Exclusion => o.(exclude := Some(if e.params.effective.On? then From(e.params.effective.day) else All))
    case OtherKind => o
  }

  /** What the events of `order` make of one entity. */
  function OverrideOf(order: seq<Event>, target: nat): EntityOverride
    requires forall e :: e in order ==> !Bad(e)
  {
    if order == [] then NO_OVERRIDE
    else
      var last, before := order[|order| - 1], OverrideOf(order[..|order| - 1], target);
      if last.target == target then Apply(before, last, |order| - 1) else before
  }

  function Lookup(overrides: map<nat, EntityOverride>, target: nat): EntityOverride {
    if target in overrides then overrides[target] else NO_OVERRIDE
  }

  datatype Pending = Pending(rank: nat, arrival: nat, event: Event)

  predicate PendingLe(a: Pending, b: Pending) {
    a.rank < b.rank || (a.rank == b.rank && a.arrival <= b.arrival)
  }

  function PendingOf(events: seq<Event>, scenarios: seq<nat>): seq<Pending> {
    if events == [] then []
    else
      var last, before := events[|events| - 1], PendingOf(events[..|events| - 1], scenarios);
      if Selected(scenarios, last) then before + [Pending(Rank(scenarios, last.scenario).value, |before|, last)]
      else before
  }

  function EventsOf(pending: seq<Pending>): (events: seq<Event>)
    ensures |events| == |pending| && forall i :: 0 <= i < |pending| ==> events[i] == pending[i].event
  {
    if pending == [] then [] else EventsOf(pending[..|pending| - 1]) + [pending[|pending| - 1].event]
  }

  /** The composition order of the selected events. */
  function Composition(events: seq<Event>, scenarios: seq<nat>): seq<Event> {
    EventsOf(Sort(PendingOf(events, scenarios), PendingLe))
  }

  /** `entity_overrides`: collect, sort by rank and arrival, then apply one by one. */
  method EntityOverrides(events: seq<Event>, scenarios: seq<nat>) returns (r: Result<map<nat, EntityOverride>, Event>)
    requires InQueryOrder(events)
    ensures r.Err? <==> exists e :: e in events && (e.scenario.None? || e.scenario.value in scenarios) && Malformed(e)
    ensures r.Ok? ==> forall e :: e in Composition(events, scenarios) ==> !Bad(e)
    ensures r.Ok? ==> forall t :: Lookup(r.value, t) == OverrideOf(Composition(events, scenarios), t)
  {
    var pending: seq<Pending> := [];
    for n := 0 to |events|
      invariant pending == PendingOf(events[..n], scenarios)
    {
      var e := events[n];
      assert events[..n + 1][..n] == events[..n];
      var rank := Rank(scenarios, e.scenario);
      if rank.Some? {
        pending := pending + [Pending(rank.value, |pending|, e)];
      }
    }
    assert events[..|events|] == events;
    pending := Sort(pending, PendingLe);
    forall e { BadIsMalformed(e); }
    ghost var order := Composition(events, scenarios);
    CompositionIsPrecedence(events, scenarios);
    var overrides: map<nat, EntityOverride> := map[];
    for n := 0 to |pending|
      invariant forall k :: 0 <= k < n ==> !Bad(order[k])
      invariant forall t :: Lookup(overrides, t) == OverrideOf(order[..n], t)
    {
      var e := pending[n].event;
      assert e == order[n] && e in order;
      if Bad(e) {
        return Err(e);
      }
      ghost var before := overrides;
      overrides := overrides[e.target := Apply(Lookup(overrides, e.target), e, n)];
      forall t ensures Lookup(overrides, t) == OverrideOf(order[..n + 1], t) {
        assert order[..n + 1][..n] == order[..n];
        assert Lookup(before, t) == OverrideOf(order[..n], t);
      }
    }
    assert order[..|order|] == order;
    return Ok(overrides);
  }

  // ---------------------------------------------------------------------------------------------
  // The composition order is the precedence
  // ---------------------------------------------------------------------------------------------

  lemma {:induction false} PendingFacts(events: seq<Event>, scenarios: seq<nat>)
    requires InQueryOrder(events)
    ensures var p := PendingOf(events, scenarios);
      && |p| <= |events|
      && (forall i :: 0 <= i < |p| ==>
            p[i].arrival == i && p[i].event in events && Selected(scenarios, p[i].event)
            && p[i].rank == Rank(scenarios, p[i].event.scenario).value)
      && (forall i, j :: 0 <= i < j < |p| ==> CreatedBefore(p[i].event, p[j].event))
      && (forall e :: e in events && Selected(scenarios, e) ==> exists i :: 0 <= i < |p| && p[i].event == e)
  {
    if events != [] {
      var rest, last := events[..|events| - 1], events[|events| - 1];
      PendingFacts(rest, scenarios);
      var p, q := PendingOf(events, scenarios), PendingOf(rest, scenarios);
      forall i | 0 <= i < |q| ensures CreatedBefore(q[i].event, last) {
        assert q[i].event in rest;
      }
      forall e | e in events && Selected(scenarios, e) ensures exists i :: 0 <= i < |p| && p[i].event == e {
        if e in rest {
          var i :| 0 <= i < |q| && q[i].event == e;
          assert p[i].event == e;
        } else {
          assert e == last && p[|q|].event == e;
        }
      }
    }
  }

  lemma PendingOrder()
    ensures WeakOrder(PendingLe)
  {
  }

  lemma CompositionElements(events: seq<Event>, scenarios: seq<nat>)
    requires InQueryOrder(events)
    ensures forall e :: e in Composition(events, scenarios) <==> e in events && Selected(scenarios, e)
  {
    var p := PendingOf(events, scenarios);
    var sorted, order := Sort(p, PendingLe), Composition(events, scenarios);
    PendingFacts(events, scenarios);
    PendingOrder();
    SortSorts(p, PendingLe);
    forall e | e in order ensures e in events && Selected(scenarios, e) {
      var j :| 0 <= j < |order| && order[j] == e;
      assert sorted[j] in multiset(p);
    }
    forall e | e in events && Selected(scenarios, e) ensures e in order {
      var i :| 0 <= i < |p| && p[i].event == e;
      assert p[i] in multiset(sorted);
      var j :| 0 <= j < |sorted| && sorted[j] == p[i];
      assert order[j] == e;
    }
  }

  /** The composition runs through exactly the selected events, from the lowest precedence to the highest. */
  lemma CompositionIsPrecedence(events: seq<Event>, scenarios: seq<nat>)
    requires InQueryOrder(events)
    ensures var order := Composition(events, scenarios);
      && (forall e :: e in order <==> e in events && Selected(scenarios, e))
      && (forall i, j :: 0 <= i < j < |order| ==> Before(scenarios, order[i], order[j]))
  {
    CompositionElements(events, scenarios);
    var p := PendingOf(events, scenarios);
    var sorted, order := Sort(p, PendingLe), Composition(events, scenarios);
    PendingFacts(events, scenarios);
    PendingOrder();
    SortSorts(p, PendingLe);
    DistinctReordered(p, sorted);
    forall i, j | 0 <= i < j < |order| ensures Before(scenarios, order[i], order[j]) {
      assert sorted[i] in multiset(p) && sorted[j] in multiset(p);
      var a, b := sorted[i], sorted[j];
      assert p[a.arrival] == a && p[b.arrival] == b;
      assert PendingLe(a, b) && a != b;
    }
  }

  // ---------------------------------------------------------------------------------------------
  // What is projected, by precedence alone
  // ---------------------------------------------------------------------------------------------

  /** The question an event may answer for one entity. */
  datatype Question = Amount(target: nat, date: Day) | Excluded(target: nat) | Anchor(target: nat)

  predicate Answers(e: Event, q: Question) {
    match q
    case Amount(target, date) => e.target == target && SetsAmount(e) && CoversDay(e, date)
    case Excluded(target) => e.target == target && Excludes(e)
    case Anchor(target) => e.target == target && SetsAnchor(e)
  }

  /** `e` is the selected event of the highest precedence that answers `q`. */
  ghost predicate Decides(events: seq<Event>, scenarios: seq<nat>, q: Question, e: Event) {
    && e in events && Selected(scenarios, e) && Answers(e, q)
    && forall f :: f in events && Selected(scenarios, f) && Answers(f, q) && f != e ==> Before(scenarios, f, e)
  }

  ghost predicate Unanswered(events: seq<Event>, scenarios: seq<nat>, q: Question) {
    forall f :: f in events && Selected(scenarios, f) ==> !Answers(f, q)
  }

  /**
  The amount projected on a date: nothing if the deciding exclusion excludes the date; otherwise that of
  the deciding covering amount event, or the base amount when none covers.
  */
  ghost predicate Projects(events: seq<Event>, scenarios: seq<nat>, target: nat, date: Day, base: int,
                           amount: Option<int>) {
    && ((exists x :: Decides(events, scenarios, Excluded(target), x) && ExcludesDay(x, date)) ==> amount.None?)
    && (!(exists x :: Decides(events, scenarios, Excluded(target), x) && ExcludesDay(x, date)) ==> amount.Some?)
    && (amount.Some? ==>
        && (forall e :: Decides(events, scenarios, Amount(target, date), e) ==> amount.value == e.params.amount.value)
        && (Unanswered(events, scenarios, Amount(target, date)) ==> amount.value == base))
  }

  /** The index of the last event in the order that answers, or -1. */
  function LastAnswer(order: seq<Event>, q: Question): (k: int)
    ensures -1 <= k < |order|
    ensures k >= 0 ==> Answers(order[k], q)
    ensures forall i :: k < i < |order| ==> !Answers(order[i], q)
  {
    if order == [] then -1
    else if Answers(order[|order| - 1], q) then |order| - 1
    else LastAnswer(order[..|order| - 1], q)
  }

  lemma WinnerOfPush(before: seq<AmountSegment>, last: AmountSegment, date: Day)
    requires forall s :: s in before ==> s.rank <= last.rank
    ensures Winner(before + [last], date) == if Covers(last, date) then Some(last) else Winner(before, date)
  {
    var all := before + [last];
    assert all[..|all| - 1] == before;
    WinnerIsListed(before, date);
  }

  lemma {:induction false} WinnerIsListed(segments: seq<AmountSegment>, date: Day)
    ensures Winner(segments, date).Some? ==> Winner(segments, date).value in segments
  {
    if segments != [] { WinnerIsListed(segments[..|segments| - 1], date); }
  }

  lemma {:induction false} RanksAreIndices(order: seq<Event>, target: nat)
    requires forall e :: e in order ==> !Bad(e)
    ensures forall s :: s in OverrideOf(order, target).segments ==> s.rank < |order|
  {
    if order != [] { RanksAreIndices(order[..|order| - 1], target); }
  }

  /** The segments after one more event. */
  lemma SegmentsOfPush(order: seq<Event>, target: nat, rest: seq<Event>, last: Event)
    requires (forall e :: e in order ==> !Bad(e)) && order == rest + [last]
    ensures !Bad(last) && (forall e :: e in rest ==> !Bad(e))
    ensures OverrideOf(order, target).segments == OverrideOf(rest, target).segments
      + (if last.target == target && SetsAmount(last)
         then [AmountSegment(DayOf(last.params.effective), DayOf(last.params.end), last.params.amount.value, |rest|)]
         else [])
  {
    assert order[..|order| - 1] == rest && last in order;
  }

  /** What the last event does to the amount of a date. */
  lemma LastEventDecidesAmount(order: seq<Event>, target: nat, date: Day, rest: seq<Event>, last: Event)
    requires (forall e :: e in order ==> !Bad(e)) && order == rest + [last]
    ensures (forall e :: e in rest ==> !Bad(e))
    ensures var w := Winner(OverrideOf(order, target).segments, date);
      var v := Winner(OverrideOf(rest, target).segments, date);
      if Answers(last, Amount(target, date))
      then w.Some? && w.value.amount == last.params.amount.value && w.value.rank == |rest| else w == v
  {
    SegmentsOfPush(order, target, rest, last);
    RanksAreIndices(rest, target);
    var before := OverrideOf(rest, target).segments;
    if last.target == target && SetsAmount(last) {
      var segment := AmountSegment(DayOf(last.params.effective), DayOf(last.params.end), last.params.amount.value,
                                   |rest|);
      WinnerOfPush(before, segment, date);
      assert Covers(segment, date) <==> CoversDay(last, date);
    }
  }

  lemma {:induction false} FoldKeepsTheLastAmount(order: seq<Event>, target: nat, date: Day)
    requires forall e :: e in order ==> !Bad(e)
    ensures var w := Winner(OverrideOf(order, target).segments, date);
      && var a := LastAnswer(order, Amount(target, date));
      && (w.None? <==> a < 0)
      && (w.Some? ==> w.value.amount == order[a].params.amount.value && w.value.rank < |order|)
  {
    if order != [] {
      var rest, last := order[..|order| - 1], order[|order| - 1];
      LastEventDecidesAmount(order, target, date, rest, last);
      FoldKeepsTheLastAmount(rest, target, date);
    }
  }

  lemma {:induction false} FoldKeepsTheLastExclusion(order: seq<Event>, target: nat)
    requires forall e :: e in order ==> !Bad(e)
    ensures var x := LastAnswer(order, Excluded(target));
      OverrideOf(order, target).exclude ==
        (if x < 0 then None
         else Some(if order[x].params.effective.On? then From(order[x].params.effective.day) else All))
  {
    if order != [] {
      FoldKeepsTheLastExclusion(order[..|order| - 1], target);
      assert !Bad(order[|order| - 1]);
    }
  }

  lemma {:induction false} FoldKeepsTheLastAnchor(order: seq<Event>, target: nat)
    requires forall e :: e in order ==> !Bad(e)
    ensures var n := LastAnswer(order, Anchor(target));
      OverrideOf(order, target).newAnchor == (if n < 0 then None else Some(order[n].params.anchor.day))
  {
    if order != [] {
      FoldKeepsTheLastAnchor(order[..|order| - 1], target);
      assert !Bad(order[|order| - 1]);
    }
  }

  lemma LastDecides(events: seq<Event>, scenarios: seq<nat>, q: Question)
    requires InQueryOrder(events)
    ensures var order := Composition(events, scenarios);
      && var k := LastAnswer(order, q);
      && (k < 0 ==> Unanswered(events, scenarios, q))
      && (k >= 0 ==> Decides(events, scenarios, q, order[k]))
  {
    var order := Composition(events, scenarios);
    var k := LastAnswer(order, q);
    CompositionIsPrecedence(events, scenarios);
    forall f | f in events && Selected(scenarios, f) && Answers(f, q)
      ensures k >= 0 && (f == order[k] || Before(scenarios, f, order[k]))
    {
      assert f in order;
    }
  }

  lemma OneDecides(events: seq<Event>, scenarios: seq<nat>, q: Question, a: Event, b: Event)
    requires Decides(events, scenarios, q, a) && Decides(events, scenarios, q, b)
    ensures a == b
  {
  }

  /** What comes first: base before any scenario, then as selected, then as created, then by id. */
  ghost predicate Yields(scenarios: seq<nat>, a: Event, b: Event) {
    if a.scenario != b.scenario then
      a.scenario.None? || (b.scenario.Some? && SelectedBefore(scenarios, a.scenario.value, b.scenario.value))
    else a.createdAt < b.createdAt || (a.createdAt == b.createdAt && a.id < b.id)
  }

  /** The first mention of `x` comes before any of `y`. */
  ghost predicate SelectedBefore(scenarios: seq<nat>, x: nat, y: nat) {
    exists i :: 0 <= i < |scenarios| && scenarios[i] == x && y in scenarios[i..] && y !in scenarios[..i]
  }

  lemma NotSelectedBefore(scenarios: seq<nat>, x: nat, y: nat, i: nat, j: nat)
    requires j < i < |scenarios| && scenarios[j] == y && forall k :: 0 <= k < i ==> scenarios[k] != x
    ensures !SelectedBefore(scenarios, x, y)
  {
    forall k | 0 <= k < |scenarios| && scenarios[k] == x ensures y in scenarios[..k] {
      assert scenarios[..k][j] == y;
    }
  }

  lemma BeforeIsYields(scenarios: seq<nat>, a: Event, b: Event)
    requires Selected(scenarios, a) && Selected(scenarios, b)
    ensures Before(scenarios, a, b) <==> Yields(scenarios, a, b)
  {
    if a.scenario.Some? && b.scenario.Some? {
      var i, j := Rank(scenarios, a.scenario).value - 1, Rank(scenarios, b.scenario).value - 1;
      assert scenarios[i] == a.scenario.value && scenarios[j] == b.scenario.value;
      if i < j { assert scenarios[i..][j - i] == b.scenario.value; }
      if i > j { NotSelectedBefore(scenarios, a.scenario.value, b.scenario.value, i, j); }
    }
  }

  /** Every other event that answers yields to the one that decides. */
  lemma TheRestYields(events: seq<Event>, scenarios: seq<nat>, q: Question, e: Event, f: Event)
    requires Decides(events, scenarios, q, e) && f in events && f != e && Answers(f, q)
    requires f.scenario.None? || f.scenario.value in scenarios
    ensures Yields(scenarios, f, e)
  {
    BeforeIsYields(scenarios, f, e);
  }

  /** The composed override answers every date of every entity as the precedence says. */
  lemma OverridesProjectByPrecedence(events: seq<Event>, scenarios: seq<nat>, target: nat, date: Day, base: int)
    requires InQueryOrder(events)
    requires forall e :: e in Composition(events, scenarios) ==> !Bad(e)
    ensures Projects(events, scenarios, target, date, base,
                     AmountFor(OverrideOf(Composition(events, scenarios), target), date, base))
  {
    var order := Composition(events, scenarios);
    FoldKeepsTheLastAmount(order, target, date);
    FoldKeepsTheLastExclusion(order, target);
    LastDecides(events, scenarios, Amount(target, date));
    LastDecides(events, scenarios, Excluded(target));
    var a, x := LastAnswer(order, Amount(target, date)), LastAnswer(order, Excluded(target));
    forall e | Decides(events, scenarios, Amount(target, date), e) ensures a >= 0 && e == order[a] {
      if a >= 0 { OneDecides(events, scenarios, Amount(target, date), e, order[a]); }
    }
    forall e | Decides(events, scenarios, Excluded(target), e) ensures x >= 0 && e == order[x] {
      if x >= 0 { OneDecides(events, scenarios, Excluded(target), e, order[x]); }
    }
  }

  /** The anchor is the deciding date event's, or the base anchor. */
  lemma AnchorByPrecedence(events: seq<Event>, scenarios: seq<nat>, target: nat, base: Day)
    requires InQueryOrder(events)
    requires forall e :: e in Composition(events, scenarios) ==> !Bad(e)
    ensures var anchor := AnchorOr(OverrideOf(Composition(events, scenarios), target), base);
      && (forall e :: Decides(events, scenarios, Anchor(target), e) ==> anchor == e.params.anchor.day)
      && (Unanswered(events, scenarios, Anchor(target)) ==> anchor == base)
  {
    var order := Composition(events, scenarios);
    FoldKeepsTheLastAnchor(order, target);
    LastDecides(events, scenarios, Anchor(target));
    var n := LastAnswer(order, Anchor(target));
    forall e | Decides(events, scenarios, Anchor(target), e) ensures n >= 0 && e == order[n] {
      if n >= 0 { OneDecides(events, scenarios, Anchor(target), e, order[n]); }
    }
  }

  // ---------------------------------------------------------------------------------------------
  // A base event never beats a selected scenario's
  // ---------------------------------------------------------------------------------------------

  /** `more` is `events` and one base amount event, wherever its creation time puts it. */
  ghost predicate AddsBaseAmount(events: seq<Event>, more: seq<Event>, b: Event) {
    && b.scenario.None? && SetsAmount(b)
    && forall e :: e in more <==> e in events || e == b
  }

  /** On a date a selected scenario's amount event covers, a base amount event changes nothing. */
  lemma BaseAmountNeverOverridesAScenario(events: seq<Event>, more: seq<Event>, scenarios: seq<nat>, b: Event, c: Event,
                                         date: Day, base: int, before: Option<int>, after: Option<int>)
    requires InQueryOrder(events) && InQueryOrder(more) && AddsBaseAmount(events, more, b)
    requires c in events && c.scenario.Some? && Selected(scenarios, c) && Answers(c, Amount(c.target, date))
    requires Projects(events, scenarios, c.target, date, base, before)
    requires Projects(more, scenarios, c.target, date, base, after)
    ensures before == after
  {
    var t := c.target;
    var order := Composition(events, scenarios);
    LastDecides(events, scenarios, Amount(t, date));
    var e := order[LastAnswer(order, Amount(t, date))];
    assert Decides(more, scenarios, Amount(t, date), e) by {
      assert e == c || Before(scenarios, c, e);
      assert Rank(scenarios, c.scenario).value >= 1;
      assert Rank(scenarios, b.scenario).value == 0;
    }
    forall x ensures Decides(events, scenarios, Excluded(t), x) <==> Decides(more, scenarios, Excluded(t), x) {
      assert !Answers(b, Excluded(t));
    }
  }
}
