/** Dates and identifiers as the text of JSON fields: chrono's `%Y-%m-%d` and hyphenated UUIDs. */
module DatesAndIds {
  import opened Bits
  import opened CivilDate
  import opened Common
  import opened Json
  import opened Text

  const MIN_YEAR := -262_143
  const MAX_YEAR := 262_142

  predicate IsNaive(d: Date) { IsDate(d) && MIN_YEAR <= d.year <= MAX_YEAR }

  type NaiveDate = d: Date | IsNaive(d) witness Date(1970, 1, 1)

  // ---------------------------------------------------------------------------------------------
  // Numbers of a width
  // ---------------------------------------------------------------------------------------------

  predicate AllDigits(s: string) { forall i :: 0 <= i < |s| ==> IsDigit(s[i]) }

  /** At least `width` digits, zeros in front. */
  function Padded(n: nat, width: nat): (s: string)
    ensures s != [] && AllDigits(s)
  {
    if |Digits(n)| >= width then Digits(n) else "0" + Padded(n, width - 1)
  }

  /** The value of the digits read after `acc`. */
  function Value(digits: string, acc: nat): nat
    requires AllDigits(digits)
  {
    if digits == [] then acc else Value(digits[1..], acc * 10 + (digits[0] - '0') as nat)
  }

  /** One to `max` digits. */
  function TakeDigits(s: string, max: nat, acc: nat): (nat, string) {
    if max > 0 && s != [] && IsDigit(s[0]) then TakeDigits(s[1..], max - 1, acc * 10 + (s[0] - '0') as nat)
    else (acc, s)
  }

  function ReadUpTo(s: string, max: nat): Read<nat> {
    if s == [] || !IsDigit(s[0]) then Failed
    else
      var t := TakeDigits(s, max, 0);
      Read(t.0, t.1)
  }

  lemma {:induction false} TakesAll(digits: string, rest: string, max: nat, acc: nat)
    requires AllDigits(digits) && |digits| <= max && (|digits| == max || rest == [] || !IsDigit(rest[0]))
    ensures TakeDigits(digits + rest, max, acc) == (Value(digits, acc), rest)
  {
    if digits == [] {
      assert digits + rest == rest;
    } else {
      assert (digits + rest)[1..] == digits[1..] + rest;
      TakesAll(digits[1..], rest, max - 1, acc * 10 + (digits[0] - '0') as nat);
    }
  }

  lemma {:induction false} ValuePush(digits: string, c: char, acc: nat)
    requires AllDigits(digits) && IsDigit(c)
    ensures Value(digits + [c], acc) == Value(digits, acc) * 10 + (c - '0') as nat
  {
    if digits == [] {
      assert [c][1..] == [];
    } else {
      assert (digits + [c])[1..] == digits[1..] + [c];
      ValuePush(digits[1..], c, acc * 10 + (digits[0] - '0') as nat);
    }
  }

  lemma {:induction false} DigitsValue(n: nat)
    ensures Value(Digits(n), 0) == n
  {
    if n < 10 {
      assert Digits(n)[1..] == [];
    } else {
      DigitsValue(n / 10);
      ValuePush(Digits(n / 10), '0' + (n % 10) as char, 0);
    }
  }

  lemma {:induction false} PaddedValue(n: nat, width: nat)
    ensures Value(Padded(n, width), 0) == n
    ensures |Padded(n, width)| == if |Digits(n)| >= width then |Digits(n)| else width
  {
    if |Digits(n)| >= width {
      DigitsValue(n);
    } else {
      PaddedValue(n, width - 1);
      assert Padded(n, width)[1..] == Padded(n, width - 1);
    }
  }

  lemma DigitCount(n: nat)
    ensures n < 100 ==> |Digits(n)| <= 2
    ensures n < 10_000 ==> |Digits(n)| <= 4
  {
    if n < 10_000 {
      assert n < 1000 ==> |Digits(n / 10)| <= 2;
      assert |Digits(n / 10)| <= 3;
    }
  }

  lemma PaddedReads(n: nat, width: nat, rest: string, max: nat)
    requires |Digits(n)| <= max && width <= max && (width == max || rest == [] || !IsDigit(rest[0]))
    ensures ReadUpTo(Padded(n, width) + rest, max) == Read(n, rest)
  {
    var digits := Padded(n, width);
    PaddedValue(n, width);
    TakesAll(digits, rest, max, 0);
    assert (digits + rest)[0] == digits[0];
  }

  // ---------------------------------------------------------------------------------------------
  // Dates
  // ---------------------------------------------------------------------------------------------

  function YearText(year: int): string {
    if 0 <= year <= 9999 then Padded(year, 4)
    else if year < 0 then "-" + Padded(-year, 4)
    else "+" + Padded(year, 4)
  }

  /** `NaiveDate::to_string`. */
  function DateText(d: NaiveDate): string { YearText(d.year) + "-" + Padded(d.month, 2) + "-" + Padded(d.day, 2) }

  /** White space may stand before each number. */
  function SkipBlanks(s: string): string {
    if s != [] && IsSpace(s[0]) then SkipBlanks(s[1..]) else s
  }

  /** A year: a sign and any number of digits, or up to four digits. */
  function ReadYear(s: string): Read<int> {
    var t := SkipBlanks(s);
    if t != [] && (t[0] == '-' || t[0] == '+') then
      match ReadUpTo(t[1..], |t|)
      case Failed => Failed
      case Read(n, rest) => var magnitude: int := n; Read(if t[0] == '-' then -magnitude else magnitude, rest)
    else
      match ReadUpTo(t, 4)
      case Failed => Failed
      case Read(n, rest) => Read(n, rest)
  }

  /** A hyphen and up to two digits. */
  function ReadPart(s: string): Read<nat> {
    if s == [] || s[0] != '-' then Failed else ReadUpTo(SkipBlanks(s[1..]), 2)
  }

  /** `NaiveDate::parse_from_str` with `%Y-%m-%d`. */
  function ReadDate(s: string): Option<NaiveDate> {
    match ReadYear(s)
    case Failed => None
    case Read(year, afterYear) =>
      match ReadPart(afterYear)
      case Failed => None
      case Read(month, afterMonth) =>
        match ReadPart(afterMonth)
        case Failed => None
        case Read(day, rest) =>
          if rest == [] && IsNaive(Date(year, month, day)) then Some(Date(year, month, day)) else None
  }

  lemma SignedYearReads(sign: char, n: nat, rest: string)
    requires (sign == '-' || sign == '+') && rest != [] && !IsDigit(rest[0])
    ensures ReadYear([sign] + Padded(n, 4) + rest) == Read(if sign == '-' then -(n as int) else n, rest)
  {
    var s := [sign] + Padded(n, 4) + rest;
    PaddedValue(n, 4);
    assert s[1..] == Padded(n, 4) + rest;
    PaddedReads(n, 4, rest, |s|);
    assert SkipBlanks(s) == s;
  }

  lemma PlainYearReads(n: nat, rest: string)
    requires n <= 9999 && rest != [] && !IsDigit(rest[0])
    ensures ReadYear(Padded(n, 4) + rest) == Read(n, rest)
  {
    var s := Padded(n, 4) + rest;
    DigitCount(n);
    PaddedReads(n, 4, rest, 4);
    assert s[0] == Padded(n, 4)[0] && IsDigit(s[0]);
    assert SkipBlanks(s) == s;
  }

  lemma YearReads(year: int, rest: string)
    requires rest != [] && !IsDigit(rest[0])
    ensures ReadYear(YearText(year) + rest) == Read(year, rest)
  {
    if 0 <= year <= 9999 { PlainYearReads(year, rest); }
    else if year < 0 { SignedYearReads('-', -year, rest); }
    else { SignedYearReads('+', year, rest); }
  }

  lemma PartReads(n: nat, rest: string)
    requires n < 100
    ensures ReadPart("-" + Padded(n, 2) + rest) == Read(n, rest)
  {
    var s := "-" + Padded(n, 2) + rest;
    DigitCount(n);
    PaddedReads(n, 2, rest, 2);
    assert s[1..] == Padded(n, 2) + rest && IsDigit(s[1..][0]);
  }

  lemma DateOfParts(s: string, d: NaiveDate, afterYear: string, afterMonth: string)
    requires ReadYear(s) == Read(d.year, afterYear) && ReadPart(afterYear) == Read(d.month, afterMonth)
    requires ReadPart(afterMonth) == Read(d.day, [])
    ensures ReadDate(s) == Some(d)
  {
  }

  lemma DateShape(y: string, m: string, d: string)
    ensures y + "-" + m + "-" + d == y + ("-" + m + ("-" + d + []))
  {
  }

  /** Every date reads back, in years before 0 and after 9999 too. */
  lemma DateReads(d: NaiveDate)
    ensures ReadDate(DateText(d)) == Some(d)
  {
    var day := "-" + Padded(d.day, 2) + [];
    var month := "-" + Padded(d.month, 2) + day;
    DateShape(YearText(d.year), Padded(d.month, 2), Padded(d.day, 2));
    PartReads(d.day, []);
    PartReads(d.month, day);
    YearReads(d.year, month);
    DateOfParts(YearText(d.year) + month, d, month, day);
  }

  // ---------------------------------------------------------------------------------------------
  // Identifiers
  // ---------------------------------------------------------------------------------------------

  function HexText(bytes: seq<byte>): (s: string)
    ensures |s| == 2 * |bytes|
  {
    if bytes == [] then [] else [Hex(bytes[0] / 16), Hex(bytes[0] % 16)] + HexText(bytes[1..])
  }

  /** `Uuid::to_string`. */
  function UuidText(id: Uuid): string {
    HexText(id[..4]) + "-" + HexText(id[4..6]) + "-" + HexText(id[6..8]) + "-" + HexText(id[8..10]) + "-"
      + HexText(id[10..])
  }

  function ReadHex(s: string): (r: Option<seq<byte>>)
    ensures r.Some? ==> 2 * |r.value| == |s|
  {
    if s == [] then Some([])
    else if |s| == 1 then None
    else
      match (HexValue(s[0]), HexValue(s[1]), ReadHex(s[2..]))
      case (Some(a), Some(b), Some(more)) =>
        assert a < 16 && b < 16;
        Some([a * 16 + b] + more)
      case _ => None
  }

  /** `Uuid::parse_str` on the hyphenated form, in either case. */
  function ReadUuid(s: string): Option<Uuid> {
    if |s| == 36 && s[8] == '-' && s[13] == '-' && s[18] == '-' && s[23] == '-'
    then ReadHex(s[..8] + s[9..13] + s[14..18] + s[19..23] + s[24..])
    else None
  }

  lemma {:induction false} HexTextReads(bytes: seq<byte>)
    ensures ReadHex(HexText(bytes)) == Some(bytes)
  {
    if bytes != [] {
      var s := HexText(bytes);
      HexTextReads(bytes[1..]);
      HexReads(bytes[0] / 16);
      HexReads(bytes[0] % 16);
      assert s[2..] == HexText(bytes[1..]);
      assert bytes == [bytes[0]] + bytes[1..];
    }
  }

  lemma {:induction false} HexTextJoins(a: seq<byte>, b: seq<byte>)
    ensures HexText(a + b) == HexText(a) + HexText(b)
  {
    if a == [] {
      assert a + b == b;
    } else {
      HexTextJoins(a[1..], b);
      assert (a + b)[1..] == a[1..] + b;
    }
  }

  lemma Hyphenated(a: string, b: string, c: string, d: string, e: string, s: string)
    requires |a| == 8 && |b| == 4 && |c| == 4 && |d| == 4 && |e| == 12
    requires s == a + "-" + b + "-" + c + "-" + d + "-" + e
    ensures |s| == 36 && s[8] == '-' && s[13] == '-' && s[18] == '-' && s[23] == '-'
    ensures s[..8] == a && s[9..13] == b && s[14..18] == c && s[19..23] == d && s[24..] == e
  {
  }

  lemma HexOfParts(id: Uuid)
    ensures HexText(id)
      == HexText(id[..4]) + HexText(id[4..6]) + HexText(id[6..8]) + HexText(id[8..10]) + HexText(id[10..])
  {
    HexTextJoins(id[..4], id[4..6]);
    HexTextJoins(id[..6], id[6..8]);
    HexTextJoins(id[..8], id[8..10]);
    HexTextJoins(id[..10], id[10..]);
    assert id[..4] + id[4..6] == id[..6] && id[..6] + id[6..8] == id[..8];
    assert id[..8] + id[8..10] == id[..10] && id[..10] + id[10..] == id;
  }

  lemma UuidReads(id: Uuid)
    ensures ReadUuid(UuidText(id)) == Some(id)
  {
    Hyphenated(HexText(id[..4]), HexText(id[4..6]), HexText(id[6..8]), HexText(id[8..10]), HexText(id[10..]),
               UuidText(id));
    HexOfParts(id);
    HexTextReads(id);
  }
}
