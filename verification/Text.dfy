/** White space, words and UTF-8 widths, as far as the merchant keys need them. */
module Text {

  /** The Unicode White_Space characters, which both `trim` and the regex class for white space use. */
  predicate IsSpace(c: char) {
    var n := c as int;
    || 0x09 <= n <= 0x0D || n == 0x20 || n == 0x85 || n == 0xA0 || n == 0x1680
    || 0x2000 <= n <= 0x200A || n == 0x2028 || n == 0x2029 || n == 0x202F || n == 0x205F || n == 0x3000
  }

  function Utf8Width(c: char): (n: nat)
    ensures 1 <= n <= 4
  {
    var n := c as int;
    if n < 0x80 then 1 else if n < 0x800 then 2 else if n < 0x10000 then 3 else 4
  }

  /** `str::len`. */
  function Bytes(s: string): nat {
    if s == [] then 0 else Utf8Width(s[0]) + Bytes(s[1..])
  }

  /** The white space characters of Unicode. */
  const WHITE_SPACE: set<int> :=
    {0x09, 0x0A, 0x0B, 0x0C, 0x0D, 0x20, 0x85, 0xA0, 0x1680, 0x2000, 0x2001, 0x2002, 0x2003, 0x2004, 0x2005, 0x2006,
     0x2007, 0x2008, 0x2009, 0x200A, 0x2028, 0x2029, 0x202F, 0x205F, 0x3000}

  lemma SpacesExactly(c: char)
    ensures IsSpace(c) <==> c as int in WHITE_SPACE
  {
  }

  /** UTF-8 takes one byte for 7 bits, two for 11, three for 16. */
  lemma WidthsExactly(c: char)
    ensures Utf8Width(c) == 1 <==> c as int <= 0x7F
    ensures Utf8Width(c) == 2 <==> 0x80 <= c as int <= 0x7FF
    ensures Utf8Width(c) == 3 <==> 0x800 <= c as int <= 0xFFFF
    ensures Utf8Width(c) == 4 <==> 0x1_0000 <= c as int
  {
  }

  lemma {:induction false} BytesAdd(a: string, b: string)
    ensures Bytes(a + b) == Bytes(a) + Bytes(b)
  {
    if a == [] {
      assert a + b == b;
    } else {
      BytesAdd(a[1..], b);
      assert (a + b)[1..] == a[1..] + b;
    }
  }

  lemma {:induction false} LongerIsWider(a: string, b: string)
    requires a <= b && |a| < |b|
    ensures Bytes(a) < Bytes(b)
  {
    BytesAdd(a, b[|a|..]);
    assert b == a + b[|a|..];
    assert b[|a|..] != [] && Bytes(b[|a|..]) >= 1;
  }

  // ---------------------------------------------------------------------------------------------
  // Trimming
  // ---------------------------------------------------------------------------------------------

  function TrimStart(s: string, p: char -> bool): string {
    if s != [] && p(s[0]) then TrimStart(s[1..], p) else s
  }

  function TrimEnd(s: string, p: char -> bool): string {
    if s != [] && p(s[|s| - 1]) then TrimEnd(s[..|s| - 1], p) else s
  }

  function Trim(s: string, p: char -> bool): string { TrimEnd(TrimStart(s, p), p) }

  /** White space only as single spaces. */
  predicate SingleSpaced(s: string) {
    forall i :: 0 <= i < |s| && IsSpace(s[i]) ==> s[i] == ' ' && (i + 1 < |s| ==> !IsSpace(s[i + 1]))
  }

  /** And none at the ends: the form of every merchant key. */
  predicate Tidied(s: string) {
    SingleSpaced(s) && (s != [] ==> !IsSpace(s[0]) && !IsSpace(s[|s| - 1]))
  }

  /** The regex replacement of every run of white space by one space. */
  function CollapseSpaces(s: string): string
    decreases |s|, 1
  {
    if s == [] then []
    else if IsSpace(s[0]) then AfterSpace(s[1..])
    else [s[0]] + CollapseSpaces(s[1..])
  }

  function AfterSpace(s: string): string
    decreases |s|, 2
  {
    if s != [] && IsSpace(s[0]) then AfterSpace(s[1..]) else [' '] + CollapseSpaces(s)
  }

  predicate IsEdgePunctuation(c: char) { c in "-*.,#/&" }

  /** The last four steps of `normalize_merchant`. */
  function Tidy(s: string): string {
    Trim(Trim(Trim(CollapseSpaces(s), IsSpace), IsEdgePunctuation), IsSpace)
  }

  lemma {:induction false} CollapsedIsSingleSpaced(s: string)
    ensures SingleSpaced(CollapseSpaces(s))
    ensures s != [] && !IsSpace(s[0]) ==> CollapseSpaces(s) != [] && CollapseSpaces(s)[0] == s[0]
    decreases |s|, 1
  {
    if s != [] {
      if IsSpace(s[0]) {
        AfterSpaceIsSingleSpaced(s[1..]);
      } else {
        CollapsedIsSingleSpaced(s[1..]);
        Prepend(s[0], CollapseSpaces(s[1..]));
      }
    }
  }

  lemma {:induction false} AfterSpaceIsSingleSpaced(s: string)
    ensures SingleSpaced(AfterSpace(s))
    decreases |s|, 2
  {
    if s != [] && IsSpace(s[0]) {
      AfterSpaceIsSingleSpaced(s[1..]);
    } else {
      CollapsedIsSingleSpaced(s);
      Prepend(' ', CollapseSpaces(s));
    }
  }

  lemma Prepend(c: char, s: string)
    requires SingleSpaced(s) && (IsSpace(c) ==> c == ' ' && (s != [] ==> !IsSpace(s[0])))
    ensures SingleSpaced([c] + s)
  {
    var t := [c] + s;
    forall i | 0 <= i < |t| && IsSpace(t[i]) ensures t[i] == ' ' && (i + 1 < |t| ==> !IsSpace(t[i + 1])) {
      if i > 0 { assert t[i] == s[i - 1]; }
    }
  }

  lemma {:induction false} TrimStartIsSuffix(s: string, p: char -> bool) returns (k: nat)
    ensures k <= |s| && TrimStart(s, p) == s[k..]
    ensures TrimStart(s, p) != [] ==> !p(TrimStart(s, p)[0])
  {
    k := 0;
    if s != [] && p(s[0]) {
      var j := TrimStartIsSuffix(s[1..], p);
      k := j + 1;
    }
  }

  lemma {:induction false} TrimEndIsPrefix(s: string, p: char -> bool) returns (k: nat)
    ensures k <= |s| && TrimEnd(s, p) == s[..k]
    ensures TrimEnd(s, p) != [] ==> !p(TrimEnd(s, p)[k - 1])
  {
    k := |s|;
    if s != [] && p(s[|s| - 1]) {
      k := TrimEndIsPrefix(s[..|s| - 1], p);
    }
  }

  lemma TrimKeepsSingleSpacing(s: string, p: char -> bool)
    requires SingleSpaced(s)
    ensures SingleSpaced(Trim(s, p))
    ensures Trim(s, p) != [] ==> !p(Trim(s, p)[0]) && !p(Trim(s, p)[|Trim(s, p)| - 1])
  {
    var i := TrimStartIsSuffix(s, p);
    var j := TrimEndIsPrefix(s[i..], p);
    assert Trim(s, p) == s[i..][..j] == s[i..i + j];
  }

  lemma TidyTidies(s: string)
    ensures Tidied(Tidy(s))
  {
    CollapsedIsSingleSpaced(s);
    TrimKeepsSingleSpacing(CollapseSpaces(s), IsSpace);
    TrimKeepsSingleSpacing(Trim(CollapseSpaces(s), IsSpace), IsEdgePunctuation);
    TrimKeepsSingleSpacing(Trim(Trim(CollapseSpaces(s), IsSpace), IsEdgePunctuation), IsSpace);
  }

  // ---------------------------------------------------------------------------------------------
  // Words
  // ---------------------------------------------------------------------------------------------

  /** The length of the first word. */
  function WordEnd(s: string): (n: nat)
    ensures n <= |s|
    ensures forall i :: 0 <= i < n ==> !IsSpace(s[i])
    ensures n < |s| ==> IsSpace(s[n])
  {
    if s == [] || IsSpace(s[0]) then 0 else 1 + WordEnd(s[1..])
  }

  /** `split_whitespace`. */
  function Words(s: string): seq<string>
    decreases |s|
  {
    if s == [] then []
    else if IsSpace(s[0]) then Words(s[1..])
    else [s[..WordEnd(s)]] + Words(s[WordEnd(s)..])
  }

  /** `join(" ")`. */
  function Join(words: seq<string>): string {
    if words == [] then []
    else if |words| == 1 then words[0]
    else words[0] + " " + Join(words[1..])
  }

  lemma SuffixIsSingleSpaced(s: string, k: nat)
    requires SingleSpaced(s) && k <= |s|
    ensures SingleSpaced(s[k..])
  {
    var t := s[k..];
    forall i | 0 <= i < |t| && IsSpace(t[i]) ensures t[i] == ' ' && (i + 1 < |t| ==> !IsSpace(t[i + 1])) {
      var j := k + i;
      assert IsSpace(s[j]) && (i + 1 < |t| ==> t[i + 1] == s[j + 1]);
    }
  }

  lemma SplitAt(s: string, n: nat)
    requires n < |s| && s[n] == ' '
    ensures s == s[..n] + " " + s[n + 1..]
  {
  }

  /** Past the first word of a tidied text come one space and a tidied rest. */
  lemma FirstWord(s: string, n: nat, rest: string)
    requires Tidied(s) && s != [] && n == WordEnd(s) < |s| && rest == s[n + 1..]
    ensures n > 0 && rest != [] && Tidied(rest) && s == s[..n] + " " + rest
  {
    var last := |s| - 1;
    assert s[n] == ' ' && n < last;
    assert rest[0] == s[n + 1] && rest[|rest| - 1] == s[last];
    SuffixIsSingleSpaced(s, n + 1);
    SplitAt(s, n);
  }

  lemma WordsAfterFirst(s: string, n: nat, rest: string)
    requires s != [] && 0 < n == WordEnd(s) < |s| && rest == s[n + 1..]
    ensures Words(s) == [s[..n]] + Words(rest)
  {
    assert !IsSpace(s[0]) && IsSpace(s[n]);
    assert s[n..][1..] == rest && Words(s[n..]) == Words(rest);
  }

  lemma OneWord(s: string)
    requires s != [] && WordEnd(s) == |s|
    ensures Words(s) == [s]
  {
    assert s[|s|..] == [] && s[..|s|] == s;
  }

  /** A tidied text is its words with single spaces between. */
  lemma {:induction false} JoinWords(s: string)
    requires Tidied(s)
    ensures Join(Words(s)) == s
    ensures forall w :: w in Words(s) ==> w != []
    ensures s != [] ==> Words(s) != []
    decreases |s|
  {
    if s != [] {
      var n := WordEnd(s);
      if n == |s| {
        OneWord(s);
      } else {
        var rest := s[n + 1..];
        FirstWord(s, n, rest);
        WordsAfterFirst(s, n, rest);
        JoinWords(rest);
        assert Words(s)[1..] == Words(rest);
      }
    }
  }

  lemma {:induction false} JoinAppend(a: seq<string>, b: seq<string>)
    requires a != [] && b != []
    ensures Join(a + b) == Join(a) + " " + Join(b)
  {
    if |a| > 1 {
      JoinAppend(a[1..], b);
      assert (a + b)[1..] == a[1..] + b;
    } else {
      assert (a + b)[1..] == b && a == [a[0]];
    }
  }

  /** `key` begins with `prefix` and goes on at a word boundary. */
  predicate WordPrefix(prefix: string, key: string) {
    |prefix| < |key| && prefix <= key && key[|prefix|] == ' '
  }

  lemma JoinedPrefix(words: seq<string>, k: nat)
    requires 0 < k < |words|
    ensures WordPrefix(Join(words[..k]), Join(words))
  {
    var a, b := words[..k], words[k..];
    JoinAppend(a, b);
    assert words == a + b;
    assert Join(words)[..|Join(a)|] == Join(a);
  }
}
