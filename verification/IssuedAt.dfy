/** The command clock of crates/core-ids/src/issued_at.rs: a compare-and-swap loop any thread may be in. */
module IssuedAtClock {
  import opened Integers

  /** Microseconds since the Unix epoch. */
  type IssuedAt = i64

  const MIN_SUPPORTED_MICROS := 0
  const MAX_SUPPORTED_MICROS := 253_402_300_799_999_999

  predicate IsSupported(t: IssuedAt) { MIN_SUPPORTED_MICROS <= t <= MAX_SUPPORTED_MICROS }

  /** `as_unix_millis`: rounded toward negative infinity. */
  function Millis(t: IssuedAt): int { t / 1_000 }

  /** Every supported instant fits the 48 bits of a UUIDv7 timestamp, and no later one has fewer milliseconds. */
  lemma MillisFit(t: IssuedAt, u: IssuedAt)
    ensures IsSupported(t) ==> 0 <= Millis(t) < 0x1_0000_0000_0000
    ensures t <= u ==> Millis(t) <= Millis(u)
  {
  }

  /** The value a call tries to install over `previous`. */
  function Next(clock: i64, previous: i64): i64 { Max(clock, Saturate(previous + 1)) }

  /** The least value that is above the last one and no less than the clock, while there is one. */
  lemma NextIsLeast(clock: i64, previous: i64, x: i64)
    ensures clock <= Next(clock, previous)
    ensures previous < I64_MAX ==> previous < Next(clock, previous)
    ensures clock <= x && previous < x ==> Next(clock, previous) <= x
    ensures previous == I64_MAX ==> Next(clock, previous) == I64_MAX
  {
  }

  /** Where a call stands: its clock reading, the value it believes is the last one, how many calls had returned. */
  datatype Call = Trying(clock: i64, previous: i64, after: nat) | Returned(clock: i64, value: i64, after: nat)

  /** `LAST_ISSUED`, the calls begun so far, and the values returned, in the order they were installed. */
  datatype State = State(last: i64, calls: seq<Call>, issued: seq<i64>)

  function Init(): State { State(I64_MIN, [], []) }

  /**
  Begin: read a clock (any value) and load the last value with no ordering, so possibly a stale one.
  Swap: the compare-and-swap of call `c`. It may fail though the values agree, and a failure may
  observe a stale value too.
  */
  datatype Step = Begin(clock: i64, loaded: i64) | SwapOk(c: nat) | SwapFail(c: nat, observed: i64)

  predicate Enabled(s: State, e: Step) {
    match e
    case Begin(_, _) => true
    case SwapOk(c) => c < |s.calls| && s.calls[c].Trying? && s.calls[c].previous == s.last
    case SwapFail(c, _) => c < |s.calls| && s.calls[c].Trying?
  }

  function Apply(s: State, e: Step): State
    requires Enabled(s, e)
  {
    match e
    case Begin(clock, loaded) => s.(calls := s.calls + [Trying(clock, loaded, |s.issued|)])
    case SwapOk(c) =>
      var next := Next(s.calls[c].clock, s.calls[c].previous);
      State(next, s.calls[c := Returned(s.calls[c].clock, next, s.calls[c].after)], s.issued + [next])
    case SwapFail(c, observed) => s.(calls := s.calls[c := s.calls[c].(previous := observed)])
  }

  ghost predicate Run(steps: seq<Step>, s: State)
    decreases |steps|
  {
    if steps == [] then s == Init()
    else
      var n := |steps| - 1;
      exists before :: Run(steps[..n], before) && Enabled(before, steps[n]) && s == Apply(before, steps[n])
  }

  ghost predicate Increasing(issued: seq<i64>) {
    forall i, j :: 0 <= i < j < |issued| ==> issued[i] < issued[j] || issued[i] == issued[j] == I64_MAX
  }

  ghost predicate Inv(s: State) {
    && Increasing(s.issued)
    && (if s.issued == [] then s.last == I64_MIN else s.last == s.issued[|s.issued| - 1])
    && (forall c :: 0 <= c < |s.calls| ==> s.calls[c].after <= |s.issued|)
    && (forall c :: 0 <= c < |s.calls| && s.calls[c].Returned? ==>
          s.calls[c].clock <= s.calls[c].value && s.calls[c].value in s.issued[s.calls[c].after..])
  }

  lemma SwapKeeps(s: State, c: nat)
    requires Inv(s) && Enabled(s, SwapOk(c))
    ensures Inv(Apply(s, SwapOk(c)))
  {
    var t := Apply(s, SwapOk(c));
    var k := |s.issued|;
    forall i, j | 0 <= i < j < |t.issued| ensures t.issued[i] < t.issued[j] || t.issued[i] == t.issued[j] == I64_MAX {
      if j == k && i < k - 1 { assert s.issued[i] < s.issued[k - 1] || s.issued[i] == s.issued[k - 1] == I64_MAX; }
    }
    forall d | 0 <= d < |t.calls| && t.calls[d].Returned? ensures t.calls[d].value in t.issued[t.calls[d].after..] {
      var a := t.calls[d].after;
      assert t.issued[a..] == s.issued[a..] + [t.last];
    }
  }

  lemma BeginKeeps(s: State, clock: i64, loaded: i64)
    requires Inv(s)
    ensures Inv(Apply(s, Begin(clock, loaded)))
  {
  }

  lemma FailKeeps(s: State, c: nat, observed: i64)
    requires Inv(s) && Enabled(s, SwapFail(c, observed))
    ensures Inv(Apply(s, SwapFail(c, observed)))
  {
  }

  lemma StepKeeps(s: State, e: Step)
    requires Inv(s) && Enabled(s, e)
    ensures Inv(Apply(s, e))
  {
    match e
    case Begin(clock, loaded) => BeginKeeps(s, clock, loaded);
    case SwapOk(c) => SwapKeeps(s, c);
    case SwapFail(c, observed) => FailKeeps(s, c, observed);
  }

  lemma {:induction false} RunsKeep(steps: seq<Step>, s: State)
    requires Run(steps, s)
    ensures Inv(s)
    decreases |steps|
  {
    if steps != [] {
      var n := |steps| - 1;
      var before :| Run(steps[..n], before) && Enabled(before, steps[n]) && s == Apply(before, steps[n]);
      RunsKeep(steps[..n], before);
      StepKeeps(before, steps[n]);
    }
  }

  /**
  Under any interleaving, any clock readings and any stale loads: values come out in increasing order,
  and two are equal exactly when the counter has reached its end.
  */
  lemma IssuedAreDistinctUntilTheEnd(steps: seq<Step>, s: State, i: nat, j: nat)
    requires Run(steps, s) && i < j < |s.issued|
    ensures s.issued[i] <= s.issued[j]
    ensures s.issued[i] == s.issued[j] <==> s.issued[i] == I64_MAX
    ensures s.last < I64_MAX ==> s.issued[i] < s.issued[j]
  {
    RunsKeep(steps, s);
    var k := |s.issued| - 1;
    if i < k { assert s.issued[i] < s.issued[k] || s.issued[i] == s.issued[k] == I64_MAX; }
  }

  /** A call begun after others returned gets a value above all of theirs, and no less than its own clock. */
  lemma LaterCallsGetLarger(steps: seq<Step>, s: State, c: nat, k: nat)
    requires Run(steps, s) && c < |s.calls| && s.calls[c].Returned? && k < s.calls[c].after
    requires s.last < I64_MAX
    ensures k < |s.issued| && s.issued[k] < s.calls[c].value && s.calls[c].clock <= s.calls[c].value
  {
    RunsKeep(steps, s);
    var a := s.calls[c].after;
    var m :| 0 <= m < |s.issued[a..]| && s.issued[a..][m] == s.calls[c].value;
    assert s.issued[a + m] == s.calls[c].value;
    IssuedAreDistinctUntilTheEnd(steps, s, k, a + m);
  }

  /** One thread with the latest clock there is, and then another: both get the largest integer. */
  lemma TheEndIsIssuedTwice() returns (steps: seq<Step>, s: State)
    ensures Run(steps, s) && s.issued == [I64_MAX, I64_MAX]
  {
    steps, s := [], Init();
    steps, s := OneMore(steps, s, Begin(I64_MAX, I64_MIN));
    steps, s := OneMore(steps, s, SwapOk(0));
    steps, s := OneMore(steps, s, Begin(0, I64_MAX));
    steps, s := OneMore(steps, s, SwapOk(1));
  }

  lemma OneMore(steps: seq<Step>, s: State, e: Step) returns (steps': seq<Step>, s': State)
    requires Run(steps, s) && Enabled(s, e)
    ensures Run(steps', s') && s' == Apply(s, e)
  {
    steps', s' := steps + [e], Apply(s, e);
    assert steps'[..|steps|] == steps;
  }

  /** The shared counter and the threads in its loop. */
  class Clock {
    var last: i64
    var calls: seq<Call>
    /** What the calls have returned; only the proofs look at it. */
    var issued: seq<i64>

    function View(): State
      reads this
    {
      State(last, calls, issued)
    }

    constructor ()
      ensures View() == Init()
    {
      last, calls, issued := I64_MIN, [], [];
    }

    /** A thread enters `now`. */
    method BeginCall(clock: i64, loaded: i64) returns (c: nat)
      modifies this
      ensures c == old(|calls|) && View() == Apply(old(View()), Begin(clock, loaded))
    {
      c := |calls|;
      calls := calls + [Trying(clock, loaded, |issued|)];
    }

    /** One turn of the loop: `spurious` and `observed` are what the weak exchange may do. */
    method TryOnce(c: nat, spurious: bool, observed: i64) returns (done: bool)
      requires c < |calls| && calls[c].Trying?
      modifies this
      ensures done <==> !spurious && old(calls[c].previous == last)
      ensures done ==> View() == Apply(old(View()), SwapOk(c)) && calls[c].Returned? && calls[c].value == last
      ensures !done ==> View() == Apply(old(View()), SwapFail(c, observed))
    {
      var next := Next(calls[c].clock, calls[c].previous);
      if !spurious && calls[c].previous == last {
        last := next;
        calls := calls[c := Returned(calls[c].clock, next, calls[c].after)];
        issued := issued + [next];
        return true;
      }
      calls := calls[c := calls[c].(previous := observed)];
      return false;
    }
  }
}
