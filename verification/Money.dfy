/** Integer division of money, crates/core-money/src/lib.rs. */
module MoneyArithmetic {
  import opened Common
  import opened Integers

  datatype RoundingMode = HalfEven | HalfUp | HalfDown | Ceil | Floor | TowardZero | AwayFromZero

  datatype MoneyError = CurrencyMismatch | Overflow | DivisionByZero

  datatype Currency = Usd | Eur

  datatype Money = Money(minorUnits: i64, currency: Currency)

  function Abs(x: int): nat { if x < 0 then -x else x }

  function RoundsUp(mode: RoundingMode, negative: bool, quotient: nat, remainder: nat, divisor: nat): bool {
    if remainder == 0 then false
    else
      match mode
      case TowardZero => false
      case AwayFromZero => true
      case Floor => negative
      case Ceil => !negative
      case HalfUp => 2 * remainder >= divisor
      case HalfDown => 2 * remainder > divisor
      case HalfEven => 2 * remainder > divisor || (2 * remainder == divisor && quotient % 2 == 1)
  }

  /** The size of the result. */
  function Magnitude(n: nat, d: nat, negative: bool, mode: RoundingMode): nat
    requires d > 0
  {
    var quotient: nat := n / d;
    if RoundsUp(mode, negative, quotient, n % d, d) then quotient + 1 else quotient
  }

  /** The division itself, before it is narrowed to 64 bits. */
  function Divide(n: int, d: int, mode: RoundingMode): int
    requires d != 0
  {
    var negative := (n < 0) != (d < 0);
    var magnitude: int := Magnitude(Abs(n), Abs(d), negative, mode);
    if negative then -magnitude else magnitude
  }

  /** `checked_div_int`. */
  function CheckedDivInt(m: Money, divisor: i64, mode: RoundingMode): Result<Money, MoneyError> {
    if divisor == 0 then Err(DivisionByZero)
    else
      var r := Divide(m.minorUnits, divisor, mode);
      if IsI64(r) then Ok(Money(r, m.currency)) else Err(Overflow)
  }

  // ---------------------------------------------------------------------------------------------
  // What each mode promises
  // ---------------------------------------------------------------------------------------------

  function RealAbs(x: real): real { if x < 0.0 then -x else x }

  /** `r` is what the mode makes of the exact quotient `q`. */
  ghost predicate Rounds(mode: RoundingMode, q: real, r: int) {
    var x := r as real;
    match mode
    case Floor => x <= q < x + 1.0
    case Ceil => x - 1.0 < q <= x
    case TowardZero => if q < 0.0 then x - 1.0 < q <= x else x <= q < x + 1.0
    case AwayFromZero => if q < 0.0 then x <= q < x + 1.0 else x - 1.0 < q <= x
    case HalfUp => RealAbs(q - x) <= 0.5 && (RealAbs(q - x) == 0.5 ==> RealAbs(x) > RealAbs(q))
    case HalfDown => RealAbs(q - x) <= 0.5 && (RealAbs(q - x) == 0.5 ==> RealAbs(x) < RealAbs(q))
    case HalfEven => RealAbs(q - x) <= 0.5 && (RealAbs(q - x) == 0.5 ==> r % 2 == 0)
  }

  lemma NeighboursShareOnlyTheTie(mode: RoundingMode, q: real, r: int, s: int)
    requires Rounds(mode, q, r) && Rounds(mode, q, s)
    ensures r >= s
  {
    assert r < s ==> r as real + 1.0 <= s as real;
    assert r < s && (mode.HalfEven? || mode.HalfUp? || mode.HalfDown?) ==> q == r as real + 0.5 && s == r + 1;
  }

  /** A mode leaves no choice. */
  lemma RoundsOneWay(mode: RoundingMode, q: real, r: int, s: int)
    requires Rounds(mode, q, r) && Rounds(mode, q, s)
    ensures r == s
  {
    NeighboursShareOnlyTheTie(mode, q, r, s);
    NeighboursShareOnlyTheTie(mode, q, s, r);
  }

  lemma QuotientAndRest(n: real, d: real, q: real, r: real)
    requires d > 0.0 && n == q * d + r
    ensures n / d == q + r / d
  {
    assert (q + r / d) * d == q * d + r;
  }

  lemma MulOrder(x: real, y: real, d: real, xd: real, yd: real)
    requires d > 0.0 && xd == x * d && yd == y * d
    ensures x < y <==> xd < yd
    ensures x == y <==> xd == yd
  {
    if x < y { assert (y - x) * d > 0.0; }
    if x > y { assert (x - y) * d > 0.0; }
  }

  lemma Product(r: real, d: real)
    requires d != 0.0
    ensures (r / d) * d == r
  {
  }

  lemma FractionOf(r: real, d: real, f: real)
    requires 0.0 <= r < d && f * d == r
    ensures 0.0 <= f < 1.0
    ensures r == 0.0 <==> f == 0.0
    ensures 2.0 * r < d <==> f < 0.5
    ensures 2.0 * r == d <==> f == 0.5
  {
    MulOrder(f, 0.0, d, r, 0.0);
    MulOrder(f, 1.0, d, r, d);
    MulOrder(f, 0.5, d, r, 0.5 * d);
  }

  lemma Fraction(r: nat, d: nat, f: real)
    requires r < d && f == r as real / d as real
    ensures 0.0 <= f < 1.0
    ensures r == 0 <==> f == 0.0
    ensures 2 * r < d <==> f < 0.5
    ensures 2 * r == d <==> f == 0.5
  {
    Product(r as real, d as real);
    FractionOf(r as real, d as real, f);
  }

  lemma {:induction false} ProductIsExact(q: nat, d: nat)
    ensures (q * d) as real == q as real * d as real
  {
    if q > 0 {
      ProductIsExact(q - 1, d);
      assert q * d == (q - 1) * d + d;
      assert q as real * d as real == (q - 1) as real * d as real + d as real;
    }
  }

  /** A quotient of naturals, as its whole part and a fraction. */
  lemma WholeAndFraction(n: nat, d: nat, q: nat, r: nat)
    requires d > 0 && n == q * d + r
    ensures n as real / d as real == q as real + r as real / d as real
  {
    ProductIsExact(q, d);
    QuotientAndRest(n as real, d as real, q as real, r as real);
  }

  lemma ExactQuotient(n: int, d: int, q: nat, r: nat, f: real)
    requires d != 0 && q == Abs(n) / Abs(d) && r == Abs(n) % Abs(d) && f == r as real / Abs(d) as real
    ensures n as real / d as real == if (n < 0) != (d < 0) then -(q as real + f) else q as real + f
  {
    WholeAndFraction(Abs(n), Abs(d), q, r);
    Signs(n as real, d as real);
    assert RealAbs(n as real) == Abs(n) as real && RealAbs(d as real) == Abs(d) as real;
  }

  lemma QuotientIs(n: real, d: real, x: real)
    requires d != 0.0 && x * d == n
    ensures n / d == x
  {
    Product(n, d);
    if d > 0.0 { MulOrder(n / d, x, d, n, n); } else { MulOrder(n / d, x, -d, -n, -n); }
  }

  lemma Negated(n: real, d: real)
    requires d != 0.0
    ensures -n / d == -(n / d) && n / -d == -(n / d)
  {
    Product(n, d);
    assert -(n / d) * d == -((n / d) * d) && -(n / d) * -d == (n / d) * d;
    QuotientIs(-n, d, -(n / d));
    QuotientIs(n, -d, -(n / d));
  }

  lemma Signs(n: real, d: real)
    requires d != 0.0
    ensures n / d == if (n < 0.0) != (d < 0.0) then -(RealAbs(n) / RealAbs(d)) else RealAbs(n) / RealAbs(d)
  {
    Negated(RealAbs(n), RealAbs(d));
    Negated(-RealAbs(n), RealAbs(d));
  }

  /** The rounding of a whole part and a fraction. */
  lemma RoundsFraction(mode: RoundingMode, negative: bool, quotient: nat, remainder: nat, d: nat, f: real)
    requires remainder < d && f == remainder as real / d as real
    ensures var up := RoundsUp(mode, negative, quotient, remainder, d);
      var magnitude := if up then quotient + 1 else quotient;
      var q := quotient as real + f;
      Rounds(mode, if negative then -q else q, if negative then -magnitude else magnitude)
  {
    Fraction(remainder, d, f);
  }

  lemma RoundsExact(mode: RoundingMode, negative: bool, q: nat, r: nat, d: nat, f: real, exact: real, result: int)
    requires r < d && f == r as real / d as real
    requires exact == if negative then -(q as real + f) else q as real + f
    requires var up := RoundsUp(mode, negative, q, r, d);
      result == if negative then -(if up then q + 1 else q) else if up then q + 1 else q
    ensures Rounds(mode, exact, result)
  {
    RoundsFraction(mode, negative, q, r, d, f);
  }

  lemma DivideParts(n: int, d: int, mode: RoundingMode, q: nat, r: nat)
    requires d != 0 && q == Abs(n) / Abs(d) && r == Abs(n) % Abs(d)
    ensures var negative, up := (n < 0) != (d < 0), RoundsUp(mode, (n < 0) != (d < 0), q, r, Abs(d));
      Divide(n, d, mode) == if negative then -(if up then q + 1 else q) else if up then q + 1 else q
  {
  }

  /** Division gives what the mode makes of the exact quotient. */
  lemma DivideRounds(n: int, d: int, mode: RoundingMode, exact: real, result: int)
    requires d != 0 && exact == n as real / d as real && result == Divide(n, d, mode)
    ensures Rounds(mode, exact, result)
  {
    var q: nat, r: nat := Abs(n) / Abs(d), Abs(n) % Abs(d);
    var f := r as real / Abs(d) as real;
    ExactQuotient(n, d, q, r, f);
    DivideParts(n, d, mode, q, r);
    RoundsExact(mode, (n < 0) != (d < 0), q, r, Abs(d), f, exact, result);
  }

  lemma TwiceFits(q: nat, d: nat, r: nat)
    requires d >= 2
    ensures 2 * q <= q * d + r
  {
    var more: nat := d - 2;
    assert q * d == q * more + q * 2;
  }

  lemma HalvedOrMore(n: nat, d: nat)
    requires d > 1
    ensures 2 * (n / d) <= n
  {
    TwiceFits(n / d, d, n % d);
  }

  /** Only one quotient does not fit 64 bits. */
  lemma DivideFits(n: i64, d: i64, mode: RoundingMode)
    requires d != 0
    ensures IsI64(Divide(n, d, mode)) <==> !(n == I64_MIN && d == -1)
  {
    if d == 1 || d == -1 {
      assert Abs(n) / 1 == Abs(n) && Abs(n) % 1 == 0;
    } else {
      HalvedOrMore(Abs(n), Abs(d));
    }
  }

  /** It fails exactly for a zero divisor and for the one quotient past 64 bits, in every mode. */
  lemma DivisionFailsExactly(m: Money, divisor: i64, mode: RoundingMode)
    ensures CheckedDivInt(m, divisor, mode).Err? <==> divisor == 0 || (m.minorUnits == I64_MIN && divisor == -1)
    ensures CheckedDivInt(m, divisor, mode) == Err(DivisionByZero) <==> divisor == 0
  {
    if divisor != 0 { DivideFits(m.minorUnits, divisor, mode); }
  }

  /** When it succeeds, it is the one integer the mode defines for the exact quotient, in the same currency. */
  lemma DivisionIsTheRounding(m: Money, divisor: i64, mode: RoundingMode, x: Money)
    requires divisor != 0 && !(m.minorUnits == I64_MIN && divisor == -1)
    ensures CheckedDivInt(m, divisor, mode) == Ok(x)
      <==> x.currency == m.currency && Rounds(mode, m.minorUnits as real / divisor as real, x.minorUnits)
  {
    DivisionFailsExactly(m, divisor, mode);
    DivideRounds(m.minorUnits, divisor, mode, m.minorUnits as real / divisor as real,
                 Divide(m.minorUnits, divisor, mode));
    var r := CheckedDivInt(m, divisor, mode).value;
    if Rounds(mode, m.minorUnits as real / divisor as real, x.minorUnits) {
      RoundsOneWay(mode, m.minorUnits as real / divisor as real, r.minorUnits, x.minorUnits);
    }
  }

  function Mirror(mode: RoundingMode): RoundingMode {
    match mode
    case Floor => Ceil
    case Ceil => Floor
    case other => other
  }

  /** Negating the amount negates the result; only floor and ceiling trade places. */
  lemma DivisionMirrors(n: int, d: int, mode: RoundingMode)
    requires d != 0
    ensures Divide(-n, d, mode) == -Divide(n, d, Mirror(mode))
  {
    var q := n as real / d as real;
    Negated(n as real, d as real);
    assert (-n) as real == -(n as real);
    DivideRounds(n, d, Mirror(mode), q, Divide(n, d, Mirror(mode)));
    DivideRounds(-n, d, mode, -q, Divide(-n, d, mode));
    MirrorsMatch(mode, q, Divide(n, d, Mirror(mode)), Divide(-n, d, mode));
  }

  lemma MirrorsMatch(mode: RoundingMode, q: real, r: int, s: int)
    requires Rounds(Mirror(mode), q, r) && Rounds(mode, -q, s)
    ensures s == -r
  {
    MirrorRounds(mode, q, r);
    RoundsOneWay(mode, -q, s, -r);
  }

  lemma MirrorRounds(mode: RoundingMode, q: real, r: int)
    requires Rounds(Mirror(mode), q, r)
    ensures Rounds(mode, -q, -r)
  {
    if q == 0.0 { assert r == 0; }
  }

  /** Every mode lies between floor and ceiling, which differ exactly when the division is not even. */
  lemma ModesLieBetween(n: int, d: int, mode: RoundingMode)
    requires d != 0
    ensures Divide(n, d, Floor) <= Divide(n, d, mode) <= Divide(n, d, Ceil)
    ensures Divide(n, d, Ceil) == Divide(n, d, Floor) + (if Abs(n) % Abs(d) == 0 then 0 else 1)
  {
  }
}
