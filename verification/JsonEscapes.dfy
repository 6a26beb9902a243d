/** The reader of `Json` is one of section 7 of RFC 8259: it reads every form in which a character may be written. */
module JsonEscapes {
  import opened Common
  import opened Json

  const SMALL_HEX := "0123456789abcdef"
  const CAPITAL_HEX := "0123456789ABCDEF"

  lemma HexReadsExactly(c: char, v: nat)
    requires v < 16
    ensures |SMALL_HEX| == |CAPITAL_HEX| == 16
    ensures HexValue(c) == Some(v) <==> c == SMALL_HEX[v] || c == CAPITAL_HEX[v]
  {
    if v < 10 {
      assert SMALL_HEX[v] == CAPITAL_HEX[v] == '0' + v as char;
    } else {
      assert SMALL_HEX[v] == 'a' + (v - 10) as char && CAPITAL_HEX[v] == 'A' + (v - 10) as char;
    }
  }

  /** The digit of a value, in either case. */
  function Digit(v: nat, capital: bool): char
    requires v < 16
  {
    if capital then CAPITAL_HEX[v] else SMALL_HEX[v]
  }

  /** Four digits of a UTF-16 unit. */
  function Digits(unit: nat, capital: bool): string
    requires unit < 0x1_0000
  {
    [Digit(unit / 0x1000, capital), Digit(unit / 0x100 % 16, capital), Digit(unit / 16 % 16, capital),
     Digit(unit % 16, capital)]
  }

  /** The Unicode escape of a character: one unit, or for what is past the first plane the two of its surrogate pair. */
  function Escape(c: char, capital: bool): string {
    var n := c as nat;
    if n < 0x1_0000 then "\\u" + Digits(n, capital)
    else
      "\\u" + Digits(0xD800 + (n - 0x1_0000) / 0x400, capital)
      + "\\u" + Digits(0xDC00 + (n - 0x1_0000) % 0x400, capital)
  }

  lemma FourDigits(unit: nat)
    requires unit < 0x1_0000
    ensures ((unit / 0x1000 * 16 + unit / 0x100 % 16) * 16 + unit / 16 % 16) * 16 + unit % 16 == unit
  {
  }

  lemma UnitReads(s: string, a: nat, b: nat, c: nat, d: nat)
    requires |s| >= 4 && a < 16 && b < 16 && c < 16 && d < 16
    requires HexValue(s[0]) == Some(a) && HexValue(s[1]) == Some(b)
    requires HexValue(s[2]) == Some(c) && HexValue(s[3]) == Some(d)
    ensures ReadUnit(s) == Some(((a * 16 + b) * 16 + c) * 16 + d)
  {
  }

  lemma DigitReads(v: nat, capital: bool)
    requires v < 16
    ensures HexValue(Digit(v, capital)) == Some(v)
  {
    HexReadsExactly(Digit(v, capital), v);
  }

  lemma DigitsRead(unit: nat, capital: bool, rest: string)
    requires unit < 0x1_0000
    ensures ReadUnit(Digits(unit, capital) + rest) == Some(unit)
  {
    var a, b, c, d := unit / 0x1000, unit / 0x100 % 16, unit / 16 % 16, unit % 16;
    DigitReads(a, capital);
    DigitReads(b, capital);
    DigitReads(c, capital);
    DigitReads(d, capital);
    UnitReads(Digits(unit, capital) + rest, a, b, c, d);
    FourDigits(unit);
  }

  lemma OneUnitReads(c: char, capital: bool, rest: string)
    requires c as nat < 0x1_0000
    ensures ReadUnicode(Digits(c as nat, capital) + rest) == Read(c, rest)
  {
    DigitsRead(c as nat, capital, rest);
    assert (Digits(c as nat, capital) + rest)[4..] == rest;
  }

  /** The units of a surrogate pair. */
  lemma PairReads(high: string, low: string, h: nat, l: nat, c: char, rest: string)
    requires |high| == 4 && |low| == 4 && 0xD800 <= h < 0xDC00 <= l < 0xE000
    requires ReadUnit(high + ("\\u" + low + rest)) == Some(h) && ReadUnit(low + rest) == Some(l)
    requires c as nat == 0x1_0000 + (h - 0xD800) * 0x400 + (l - 0xDC00)
    ensures ReadUnicode(high + ("\\u" + low + rest)) == Read(c, rest)
  {
    var s := high + ("\\u" + low + rest);
    assert s[4..6] == "\\u" && s[6..] == low + rest && s[10..] == rest;
  }

  lemma SurrogatesRead(c: char, capital: bool, rest: string)
    requires c as nat >= 0x1_0000
    ensures var n := c as nat - 0x1_0000;
      var high, low := Digits(0xD800 + n / 0x400, capital), Digits(0xDC00 + n % 0x400, capital);
      ReadUnicode(high + ("\\u" + low + rest)) == Read(c, rest)
  {
    var n := c as nat - 0x1_0000;
    var h, l := 0xD800 + n / 0x400, 0xDC00 + n % 0x400;
    DigitsRead(h, capital, "\\u" + Digits(l, capital) + rest);
    DigitsRead(l, capital, rest);
    PairReads(Digits(h, capital), Digits(l, capital), h, l, c, rest);
  }

  lemma EscapedReads(t: string, c: char, rest: string)
    requires ReadUnicode(t) == Read(c, rest)
    ensures ReadChar("\\u" + t) == Read(c, rest)
  {
    assert ("\\u" + t)[1..][1..] == t;
  }

  /** Every character reads back from its Unicode escape, in small or capital digits. */
  lemma EscapeReads(c: char, capital: bool, rest: string)
    ensures ReadChar(Escape(c, capital) + rest) == Read(c, rest)
  {
    var n := c as nat;
    if n < 0x1_0000 {
      OneUnitReads(c, capital, rest);
      EscapedReads(Digits(n, capital) + rest, c, rest);
      assert Escape(c, capital) + rest == "\\u" + (Digits(n, capital) + rest);
    } else {
      SurrogatesRead(c, capital, rest);
      var high := Digits(0xD800 + (n - 0x1_0000) / 0x400, capital);
      var low := Digits(0xDC00 + (n - 0x1_0000) % 0x400, capital);
      EscapedReads(high + ("\\u" + low + rest), c, rest);
      FourPieces("\\u", high, low, rest);
    }
  }

  lemma FourPieces(u: string, high: string, low: string, rest: string)
    ensures u + high + u + low + rest == u + (high + (u + low + rest))
  {
  }

  /** And the eight characters with a short escape from that; no other letter may follow a backslash. */
  lemma ShortEscapesRead(rest: string, c: char)
    ensures ReadChar("\\\"" + rest) == Read('\"', rest) && ReadChar("\\\\" + rest) == Read('\\', rest)
    ensures ReadChar("\\/" + rest) == Read('/', rest) && ReadChar("\\n" + rest) == Read('\n', rest)
    ensures ReadChar("\\r" + rest) == Read('\r', rest) && ReadChar("\\t" + rest) == Read('\t', rest)
    ensures ReadChar("\\b" + rest) == Read(0x08 as char, rest) && ReadChar("\\f" + rest) == Read(0x0C as char, rest)
    ensures c !in "\"\\/nrtbfu" ==> ReadChar(['\\', c] + rest) == Failed
  {
    assert ("\\\"" + rest)[1..][1..] == rest && ("\\\\" + rest)[1..][1..] == rest && ("\\/" + rest)[1..][1..] == rest;
    assert ("\\n" + rest)[1..][1..] == rest && ("\\r" + rest)[1..][1..] == rest && ("\\t" + rest)[1..][1..] == rest;
    assert ("\\b" + rest)[1..][1..] == rest && ("\\f" + rest)[1..][1..] == rest;
  }

  /** A character stands for itself exactly if it is no quote, no backslash and no control character. */
  lemma PlainReadsExactly(c: char, rest: string)
    ensures ReadChar([c] + rest) == Read(c, rest) <==> c != '\"' && c != '\\' && c as nat >= 0x20
  {
    if c == '\\' && ReadChar([c] + rest).Read? { assert |ReadChar([c] + rest).rest| < |rest|; }
  }

  lemma LiteralsRead(rest: string)
    ensures ReadValue("true" + rest) == Read(Literal("true"), rest)
    ensures ReadValue("false" + rest) == Read(Literal("false"), rest)
    ensures ReadValue("null" + rest) == Read(Literal("null"), rest)
  {
    assert ("true" + rest)[4..] == rest && ("false" + rest)[5..] == rest && ("null" + rest)[4..] == rest;
  }
}
