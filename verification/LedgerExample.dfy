/** A vault from its first account to a reversed transaction, step by step, and what the read model shows of it. */
module LedgerExample {
  import opened Common
  import opened Projection

  const USD := 1
  const ACCOUNT := 1
  const EQUITY := 2

  /** An account is created with an opening balance of 999. */
  const OPENING := [
    CreateAccount(ACCOUNT, 10), EnsureSystem(EQUITY, 20), EnsureSystem(EQUITY, 30),
    Book(7, Some(100), User(ACCOUNT), System(EQUITY), 999, Some(USD))
  ]

  const VOIDING := [Reverse(8, 7, Some(200), Some(USD))]

  const OPENED := Tables(
    [Operation(1, 50)], map[7 := Header(50, Some(100))],
    {Posting(7, 10, 999, Some(USD)), Posting(7, 20, -999, Some(USD))}, {10, 20}, map[ACCOUNT := 10], map[EQUITY := 20])

  const VOIDED := Tables(
    [Operation(1, 50), Operation(2, 51)], map[7 := Header(50, Some(100)), 8 := Header(51, Some(200))],
    {Posting(7, 10, 999, Some(USD)), Posting(7, 20, -999, Some(USD)),
     Posting(8, 10, -999, Some(USD)), Posting(8, 20, 999, Some(USD))}, {10, 20}, map[ACCOUNT := 10], map[EQUITY := 20])

  lemma OpeningIsPerformed()
    ensures PerformAll(Logged(EMPTY_TABLES, Operation(1, 50)), 50, OPENING) == Some(OPENED)
  {
    var t0 := Logged(EMPTY_TABLES, Operation(1, 50));
    var t1 := Perform(t0, 50, OPENING[0]);
    var t2 := Perform(t1, 50, OPENING[1]);
    var t3 := Perform(t2, 50, OPENING[2]);
    assert PerformAll(t0, 50, OPENING[..0]) == Some(t0);
    assert OPENING[..1][..0] == OPENING[..0];
    assert PerformAll(t0, 50, OPENING[..1]) == Some(t1);
    assert OPENING[..2][..1] == OPENING[..1];
    assert PerformAll(t0, 50, OPENING[..2]) == Some(t2);
    assert OPENING[..3][..2] == OPENING[..2];
    assert PerformAll(t0, 50, OPENING[..3]) == Some(t3);
    assert OPENING[..4] == OPENING;
    assert Perform(t3, 50, OPENING[3]) == OPENED;
  }

  lemma VoidingIsPerformed()
    ensures PerformAll(Logged(OPENED, Operation(2, 51)), 51, VOIDING) == Some(VOIDED)
  {
    var t := Logged(OPENED, Operation(2, 51));
    assert PerformAll(t, 51, VOIDING[..0]) == Some(t);
    assert Legs(t, VOIDING[0]) == {Posting(8, 10, -999, Some(USD)), Posting(8, 20, 999, Some(USD))};
    assert Perform(t, 51, VOIDING[0]) == VOIDED;
  }

  /** Both commands are accepted: a run that ends with their tables. */
  lemma Vault() returns (trace: seq<State>)
    ensures Run(trace) && |trace| == 3 && trace[2] == State(VOIDED, map[], 0)
  {
    var s0, s1, s2 := State(EMPTY_TABLES, map[], 0), State(OPENED, map[], 0), State(VOIDED, map[], 0);
    OpeningIsPerformed();
    VoidingIsPerformed();
    assert IsCommand(s0, s1, Operation(1, 50), OPENING);
    assert IsCommand(s1, s2, Operation(2, 51), VOIDING);
    trace := [s0, s1, s2];
    assert trace[..2] == [s0, s1] && [s0, s1][..1] == [s0];
    assert Run([s0]) && Run([s0, s1]);
  }

  /** Once projected, in one way or the other, the account shows 999 and then -999. */
  lemma VaultIsShown(trace: seq<State>, s: State)
    requires Run(trace) && trace != [] && trace[|trace| - 1] == State(VOIDED, map[], 0)
    requires IsIncremental(trace[|trace| - 1], s) || IsRebuild(trace[|trace| - 1], s)
    ensures (7, ACCOUNT) in s.model && (8, ACCOUNT) in s.model
    ensures s.model[(7, ACCOUNT)].minorUnits == 999 && s.model[(7, ACCOUNT)].occurredAt == 100
    ensures s.model[(8, ACCOUNT)].minorUnits == -999 && s.model[(8, ACCOUNT)].lastProjected == 2
    ensures s.cursor == 2
  {
    var more := trace + [s];
    assert more[..|more| - 1] == trace;
    assert more[|more| - 2] == trace[|trace| - 1];
    ProjectedShowsEverything(more, Posting(7, 10, 999, Some(USD)), ACCOUNT, Operation(1, 50));
    ProjectedShowsEverything(more, Posting(8, 10, -999, Some(USD)), ACCOUNT, Operation(2, 51));
  }
}
