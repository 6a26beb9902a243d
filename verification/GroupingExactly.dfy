/**
What crates/categorization/src/merchant_grouping.rs peels, anchors and holds for one series, by the word lists alone.
*/
module GroupingExactly {
  import opened Common
  import opened Ordering
  import opened Text
  import opened Aliases
  import opened Grouping

  // ---------------------------------------------------------------------------------------------
  // What is peeled
  // ---------------------------------------------------------------------------------------------

  /** A listed location, or a number of one to three digits. */
  predicate IsPlace(lex: Lexicon, token: string) {
    token in lex.locations || (1 <= |token| <= 3 && forall i :: 0 <= i < |token| ==> '0' <= token[i] <= '9')
  }

  /** A row of listed cities. */
  ghost predicate Cities(lex: Lexicon, tail: seq<string>)
    decreases |tail|
  {
    tail == [] || exists k :: 0 <= k < |tail| && tail[k..] in lex.cities && Cities(lex, tail[..k])
  }

  /** No listed city ends the tokens but for the first of them. */
  predicate NoCityEnds(lex: Lexicon, tokens: seq<string>) {
    forall c :: c in lex.cities && |c| < |tokens| ==> tokens[|tokens| - |c|..] != c
  }

  /** What is left once cities and then places are dropped from the end, as long as one token is left. */
  ghost predicate PeeledTo(lex: Lexicon, tokens: seq<string>, brand: seq<string>) {
    && brand <= tokens && (tokens != [] ==> brand != [])
    && (|brand| > 1 ==> !IsPlace(lex, brand[|brand| - 1]))
    && exists m :: |brand| <= m <= |tokens| && CitiesFrom(lex, tokens, m)
                   && forall i :: |brand| <= i < m ==> IsPlace(lex, tokens[i])
  }

  ghost predicate CitiesFrom(lex: Lexicon, tokens: seq<string>, m: nat)
    requires m <= |tokens|
  {
    NoCityEnds(lex, tokens[..m]) && Cities(lex, tokens[m..])
  }

  lemma {:induction false} DigitsAreNarrow(token: string)
    requires forall i :: 0 <= i < |token| ==> '0' <= token[i] <= '9'
    ensures Bytes(token) == |token|
  {
    if token != [] { DigitsAreNarrow(token[1..]); }
  }

  lemma PlacesArePeeled(lex: Lexicon, token: string)
    ensures Peels(lex, token) <==> IsPlace(lex, token)
  {
    if forall i :: 0 <= i < |token| ==> '0' <= token[i] <= '9' { DigitsAreNarrow(token); }
  }

  lemma NoneTrails(lex: ProperLexicon, tokens: seq<string>)
    requires TrailingCity(lex.cities, tokens).None?
    ensures PeelCities(lex, tokens) == tokens && NoCityEnds(lex, tokens)
  {
    forall c | c in lex.cities && |c| < |tokens| ensures tokens[|tokens| - |c|..] != c {
      assert !EndsWith(tokens, c);
    }
  }

  lemma {:induction false} NoneTrailsPeeled(lex: ProperLexicon, tokens: seq<string>)
    ensures NoCityEnds(lex, PeelCities(lex, tokens))
    decreases |tokens|
  {
    var city := TrailingCity(lex.cities, tokens);
    if city.Some? { NoneTrailsPeeled(lex, tokens[..|tokens| - |city.value|]); } else { NoneTrails(lex, tokens); }
  }

  /** The peeled tail, city by city from the end. */
  lemma {:induction false} PeelCitiesDropsCities(lex: ProperLexicon, tokens: seq<string>, n: nat)
    requires tokens != [] && n == |PeelCities(lex, tokens)|
    ensures n <= |tokens| && Cities(lex, tokens[n..])
    decreases |tokens|
  {
    PeelCitiesIsPrefix(lex, tokens);
    var city := TrailingCity(lex.cities, tokens);
    if city.Some? {
      var m := |tokens| - |city.value|;
      PeelCitiesDropsCities(lex, tokens[..m], n);
      TailOfTail(tokens, n, m);
      OneMoreCity(lex, tokens[..m][n..], city.value);
    } else {
      assert tokens[n..] == [];
    }
  }

  lemma TailOfTail(tokens: seq<string>, n: nat, m: nat)
    requires n <= m <= |tokens|
    ensures tokens[n..] == tokens[..m][n..] + tokens[m..]
  {
  }

  lemma OneMoreCity(lex: Lexicon, cities: seq<string>, city: seq<string>)
    requires Cities(lex, cities) && city in lex.cities && city != []
    ensures Cities(lex, cities + city)
  {
    var tail := cities + city;
    assert tail[|cities|..] == city && tail[..|cities|] == cities;
  }

  lemma {:induction false} PeelTokensDropsPlaces(lex: Lexicon, tokens: seq<string>)
    ensures var rest := PeelTokens(lex, tokens);
      && rest <= tokens && (tokens != [] ==> rest != [])
      && (forall i :: |rest| <= i < |tokens| ==> IsPlace(lex, tokens[i]))
      && (|rest| > 1 ==> !IsPlace(lex, rest[|rest| - 1]))
    decreases |tokens|
  {
    if |tokens| > 1 {
      PlacesArePeeled(lex, tokens[|tokens| - 1]);
      if Peels(lex, tokens[|tokens| - 1]) { PeelTokensDropsPlaces(lex, tokens[..|tokens| - 1]); }
    }
  }

  /** `peel` drops cities and then places, and stops only where none is left to drop. */
  lemma PeelDropsPlaces(lex: ProperLexicon, tokens: seq<string>)
    ensures PeeledTo(lex, tokens, Spine(lex, tokens))
  {
    var rest := PeelCities(lex, tokens);
    NoneTrailsPeeled(lex, tokens);
    PeelTokensDropsPlaces(lex, rest);
    if tokens == [] {
      assert tokens[|rest|..] == [];
    } else {
      PeelCitiesIsPrefix(lex, tokens);
      PeelCitiesDropsCities(lex, tokens, |rest|);
    }
    assert tokens[..|rest|] == rest;
    assert CitiesFrom(lex, tokens, |rest|);
  }

  // ---------------------------------------------------------------------------------------------
  // What is an anchor
  // ---------------------------------------------------------------------------------------------

  /** Two tokens or more of which one is no generic head, or one of six bytes or more that is in no list. */
  predicate IsBrand(lex: Lexicon, brand: seq<string>) {
    if |brand| == 1 then Bytes(brand[0]) >= 6 && brand[0] !in lex.heads + lex.industry
    else exists t :: t in brand && t !in lex.heads
  }

  /** A key has an anchor exactly when what is left of it is a brand, and then it is that brand. */
  lemma AnchorExactly(lex: ProperLexicon, key: string, anchor: string)
    ensures var brand := Spine(lex, Words(key));
      PeeledTo(lex, Words(key), brand)
      && (BrandAnchor(lex, key) == Some(anchor) <==> IsBrand(lex, brand) && anchor == Join(brand))
  {
    PeelDropsPlaces(lex, Words(key));
  }

  // ---------------------------------------------------------------------------------------------
  // What belongs to one series
  // ---------------------------------------------------------------------------------------------

  /**
  `long` goes on where `short` was cut: `short` has ten bytes and a space, and what follows it is a new word, or one
  or two bytes that complete a last word of a single letter.
  */
  predicate CutOff(short: string, long: string) {
    && |short| < |long| && short <= long && Bytes(short) >= 10 && ' ' in short
    && (long[|short|] == ' '
        || (Bytes(long[|short|..]) <= 2 && ' ' !in long[|short|..]
            && |short| >= 2 && short[|short| - 2] == ' '
            && ('a' <= short[|short| - 1] <= 'z' || 'A' <= short[|short| - 1] <= 'Z')))
  }

  lemma SpacesAreNotAlone(short: string)
    requires ' ' in short && Bytes(short) >= 10
    ensures |short| >= 2
  {
  }

  lemma LastTokenOfOne(s: string)
    requires |s| >= 2
    ensures |LastToken(s)| == 1 <==> s[|s| - 1] != ' ' && s[|s| - 2] == ' '
    ensures |LastToken(s)| == 1 ==> LastToken(s)[0] == s[|s| - 1]
  {
    var t := s[..|s| - 1];
    assert t[|t| - 1] == s[|s| - 2];
    assert s[|s| - 1] != ' ' ==> LastToken(s) == LastToken(t) + [s[|s| - 1]];
  }

  lemma TruncatesIsCutOff(short: string, long: string)
    ensures Truncates(short, long) <==> CutOff(short, long)
  {
    if Bytes(short) >= 10 && ' ' in short {
      SpacesAreNotAlone(short);
      LastTokenOfOne(short);
      if short <= long && |short| == |long| { assert short == long; }
      if short <= long && |short| < |long| { assert ' ' !in long[|short|..] ==> long[|short|..][0] != ' '; }
    }
  }

  /**
  Keys belong to one series exactly when they are equal, have the same anchor, or one is the other cut off.
  */
  lemma ConflictsExactly(lex: ProperLexicon, a: string, b: string)
    ensures KeysConflict(lex, a, b) <==>
      || a == b
      || (BrandAnchor(lex, a).Some? && BrandAnchor(lex, a) == BrandAnchor(lex, b))
      || CutOff(a, b)
      || CutOff(b, a)
  {
    TruncationIsSymmetric(a, b);
    TruncatesIsCutOff(a, b);
    TruncatesIsCutOff(b, a);
  }

  // ---------------------------------------------------------------------------------------------
  // What is planned
  // ---------------------------------------------------------------------------------------------

  /** A counterparty text that says where a brand was met: no alias answers it, and more than the brand is in it. */
  ghost predicate Meets(rules: Rules, table: AliasTable, raw: string, anchor: string, key: string) {
    && key == Tidy(rules.clean(raw)) && key != [] && LookupAnswer(table, key, None)
    && BrandAnchor(rules.lex, key) == Some(anchor) && key != anchor
  }

  ghost predicate IsMet(rules: Rules, table: AliasTable, raw: set<string>, anchor: string, key: string) {
    exists r :: r in raw && Meets(rules, table, r, anchor, key)
  }

  /** A name with something to show, of 128 bytes at most. */
  ghost predicate Shows(name: string) { (exists i :: 0 <= i < |name| && !IsSpace(name[i])) && Bytes(name) <= 128 }

  /** Met under two keys at least, no wider than a key may be, not an alias yet, and with a name to show. */
  ghost predicate Earned(rules: Rules, table: AliasTable, raw: set<string>, anchor: string) {
    && (exists k, m :: k != m && IsMet(rules, table, raw, anchor, k) && IsMet(rules, table, raw, anchor, m))
    && Bytes(anchor) <= 251 && (forall a :: a in table ==> a.key != anchor) && Shows(rules.display(anchor))
  }

  lemma MeetsIsSights(rules: Rules, index: AliasIndex, table: AliasTable, raw: string, anchor: string, key: string)
    requires Indexes(index, table)
    ensures Meets(rules, table, raw, anchor, key) <==> Sights(rules, index, raw, anchor, key)
  {
    LookupAnswersByTheTable(index, table, key);
    if LookupAnswer(table, key, None) { OneLookupAnswer(table, key, None, Lookup(index, key)); }
  }

  lemma OneLookupAnswer(table: AliasTable, key: string, r: Option<Resolved>, s: Option<Resolved>)
    requires LookupAnswer(table, key, r) && LookupAnswer(table, key, s)
    ensures r == s
  {
    if a :| a in table && a.key == key {
    } else {
      if r.Some? { var a :| LongestPrefix(table, key, a); }
      if s.Some? { var a :| LongestPrefix(table, key, a); }
    }
  }

  lemma {:induction false} BlankIsTrimmed(name: string)
    ensures TrimStart(name, IsSpace) == [] <==> forall i :: 0 <= i < |name| ==> IsSpace(name[i])
    ensures TrimStart(name, IsSpace) != [] ==> !IsSpace(TrimStart(name, IsSpace)[0])
  {
    if name != [] && IsSpace(name[0]) {
      BlankIsTrimmed(name[1..]);
      assert forall i :: 0 < i < |name| ==> name[i] == name[1..][i - 1];
    }
  }

  lemma {:induction false} EndIsTrimmedTo(name: string)
    requires name != [] && !IsSpace(name[0])
    ensures TrimEnd(name, IsSpace) != []
  {
    if IsSpace(name[|name| - 1]) { EndIsTrimmedTo(name[..|name| - 1]); }
  }

  lemma ShowsIsValid(name: string)
    ensures DisplayNameIsValid(name) <==> Shows(name)
  {
    BlankIsTrimmed(name);
    var start := TrimStart(name, IsSpace);
    if start == [] { assert Trim(name, IsSpace) == []; } else { EndIsTrimmedTo(start); }
  }

  lemma TwoOrMore(s: set<string>)
    ensures |s| >= 2 <==> exists x, y :: x in s && y in s && x != y
  {
    if |s| >= 2 {
      var x :| x in s;
      assert |s - {x}| >= 1;
      var y :| y in s - {x};
      assert y in s && x != y;
    }
    if x, y :| x in s && y in s && x != y {
      assert {x, y} <= s;
      SubsetIsSmaller({x, y}, s);
    }
  }

  lemma {:induction false} SubsetIsSmaller(a: set<string>, b: set<string>)
    requires a <= b
    ensures |a| <= |b|
  {
    if a != {} {
      var x :| x in a;
      SubsetIsSmaller(a - {x}, b - {x});
    }
  }

  lemma IsMetIsSighted(rules: Rules, index: AliasIndex, table: AliasTable, raw: set<string>, anchor: string,
                       key: string)
    requires Indexes(index, table)
    ensures IsMet(rules, table, raw, anchor, key) <==> key in Sightings(rules, index, raw, anchor)
  {
    if r :| r in raw && Meets(rules, table, r, anchor, key) { MeetsIsSights(rules, index, table, r, anchor, key); }
    if r :| r in raw && Sights(rules, index, r, anchor, key) { MeetsIsSights(rules, index, table, r, anchor, key); }
  }

  lemma EarnedIsMinted(rules: Rules, index: AliasIndex, table: AliasTable, raw: set<string>, anchor: string)
    requires Indexes(index, table)
    ensures Minted(rules, index, raw, anchor) <==> Earned(rules, table, raw, anchor)
  {
    forall k ensures IsMet(rules, table, raw, anchor, k) <==> k in Sightings(rules, index, raw, anchor) {
      IsMetIsSighted(rules, index, table, raw, anchor, k);
    }
    TwoOrMore(Sightings(rules, index, raw, anchor));
    LookupFinds(index, table, anchor);
    ShowsIsValid(rules.display(anchor));
  }

  /** The plan holds exactly the anchors that are earned, whatever the order of rows and counterparties. */
  lemma PlanExactly(rules: Rules, index: AliasIndex, table: AliasTable, raw: seq<string>, plan: seq<MerchantAnchor>,
                    a: MerchantAnchor)
    requires Indexes(index, table)
    requires forall x :: x in plan <==>
      Minted(rules, index, Elements(raw), x.key) && x.displayName == rules.display(x.key)
    ensures a in plan <==> Earned(rules, table, Elements(raw), a.key) && a.displayName == rules.display(a.key)
  {
    EarnedIsMinted(rules, index, table, Elements(raw), a.key);
  }

  /** A command is accepted exactly with 1 to 5000 anchors in strict key order, each within its bounds. */
  lemma AcceptedExactly(anchors: seq<MerchantAnchor>)
    ensures Accepted(anchors) <==>
      && 1 <= |anchors| <= 5_000
      && (forall i, j :: 0 <= i < j < |anchors| && j == i + 1 ==>
            TextLe(anchors[i].key, anchors[j].key) && anchors[i].key != anchors[j].key)
      && (forall a :: a in anchors ==> a.key != [] && Bytes(a.key) <= 251 && Shows(a.displayName))
  {
    forall a | a in anchors ensures DisplayNameIsValid(a.displayName) <==> Shows(a.displayName) {
      ShowsIsValid(a.displayName);
    }
  }
}
