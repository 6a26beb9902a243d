/**
The anchor planner: `brand_anchor` of crates/categorization/src/merchant_grouping.rs and `plan_anchors`
of crates/db-worker/src/merchant_grouping.rs, with the lexicons and the regex passes left open.
*/
module Grouping {
  import opened Common
  import opened Ordering
  import opened Text
  import opened Aliases

  /** The word lists, in any content. */
  datatype Lexicon = Lexicon(cities: seq<seq<string>>, locations: set<string>, heads: set<string>,
                             industry: set<string>)

  /** No listed city is an empty phrase. */
  type ProperLexicon = lex: Lexicon | forall c :: c in lex.cities ==> c != [] witness Lexicon([], {}, {}, {})

  predicate IsDigit(c: char) { '0' <= c <= '9' }

  predicate IsStoreResidue(token: string) {
    token != [] && Bytes(token) <= 3 && forall i :: 0 <= i < |token| ==> IsDigit(token[i])
  }

  predicate Peels(lex: Lexicon, token: string) {
    token in lex.locations || IsStoreResidue(token)
  }

  predicate EndsWith(tokens: seq<string>, tail: seq<string>) {
    |tail| <= |tokens| && tokens[|tokens| - |tail|..] == tail
  }

  /** The first listed city the tokens properly end with. */
  function TrailingCity(cities: seq<seq<string>>, tokens: seq<string>): (r: Option<seq<string>>)
    ensures r.Some? ==> r.value in cities && |r.value| < |tokens| && EndsWith(tokens, r.value)
    ensures r.None? ==> forall c :: c in cities && |c| < |tokens| ==> !EndsWith(tokens, c)
  {
    if cities == [] then None
    else if |cities[0]| < |tokens| && EndsWith(tokens, cities[0]) then Some(cities[0])
    else TrailingCity(cities[1..], tokens)
  }

  function PeelCities(lex: ProperLexicon, tokens: seq<string>): seq<string>
    decreases |tokens|
  {
    var city := TrailingCity(lex.cities, tokens);
    if city.None? then tokens else PeelCities(lex, tokens[..|tokens| - |city.value|])
  }

  function PeelTokens(lex: Lexicon, tokens: seq<string>): seq<string> {
    if |tokens| > 1 && Peels(lex, tokens[|tokens| - 1]) then PeelTokens(lex, tokens[..|tokens| - 1]) else tokens
  }

  function Spine(lex: ProperLexicon, tokens: seq<string>): seq<string> { PeelTokens(lex, PeelCities(lex, tokens)) }

  /** A shorter form of the tokens, never empty unless they are. */
  predicate Shortened(tokens: seq<string>, brand: seq<string>, peeled: bool) {
    brand <= tokens && (tokens != [] ==> brand != []) && (peeled <==> brand != tokens)
  }

  lemma ShortenedMore(tokens: seq<string>, brand: seq<string>, peeled: bool, k: nat)
    requires Shortened(tokens, brand, peeled) && 0 < k < |brand|
    ensures Shortened(tokens, brand[..|brand| - k], true)
  {
    var shorter := brand[..|brand| - k];
    assert shorter <= tokens && |shorter| < |tokens|;
  }

  /** The first loop of `peel`: truncate trailing cities. */
  method PeelTrailingCities(lex: ProperLexicon, tokens: seq<string>) returns (brand: seq<string>, peeled: bool)
    ensures brand == PeelCities(lex, tokens) && Shortened(tokens, brand, peeled)
  {
    brand, peeled := tokens, false;
    var city := TrailingCity(lex.cities, brand);
    while city.Some?
      invariant Shortened(tokens, brand, peeled)
      invariant city == TrailingCity(lex.cities, brand)
      invariant PeelCities(lex, brand) == PeelCities(lex, tokens)
      decreases |brand|
    {
      ShortenedMore(tokens, brand, peeled, |city.value|);
      brand, peeled := brand[..|brand| - |city.value|], true;
      city := TrailingCity(lex.cities, brand);
    }
  }

  /** `peel`: truncate trailing cities, then pop trailing locations and store numbers, never the last token. */
  method Peel(lex: ProperLexicon, tokens: seq<string>) returns (brand: seq<string>, peeled: bool)
    ensures brand == Spine(lex, tokens)
    ensures peeled <==> brand != tokens
    ensures brand <= tokens && (tokens != [] ==> brand != [])
    ensures |brand| > 1 ==> !Peels(lex, brand[|brand| - 1])
  {
    brand, peeled := PeelTrailingCities(lex, tokens);
    ghost var cityless := brand;
    while |brand| > 1 && Peels(lex, brand[|brand| - 1])
      invariant Shortened(tokens, brand, peeled)
      invariant PeelTokens(lex, brand) == PeelTokens(lex, cityless)
    {
      ShortenedMore(tokens, brand, peeled, 1);
      brand, peeled := brand[..|brand| - 1], true;
    }
  }

  /** `MIN_SINGLE_TOKEN_BRAND_LEN`. */
  const MIN_SINGLE_TOKEN := 6

  predicate Distinctive(lex: Lexicon, brand: seq<string>) {
    if |brand| == 1 then Bytes(brand[0]) >= MIN_SINGLE_TOKEN && brand[0] !in lex.heads && brand[0] !in lex.industry
    else exists i :: 0 <= i < |brand| && brand[i] !in lex.heads
  }

  function BrandAnchor(lex: ProperLexicon, key: string): Option<string> {
    var brand := Spine(lex, Words(key));
    if brand != [] && Distinctive(lex, brand) then Some(Join(brand)) else None
  }

  lemma {:induction false} PeelCitiesIsPrefix(lex: ProperLexicon, tokens: seq<string>)
    requires tokens != []
    ensures PeelCities(lex, tokens) != [] && PeelCities(lex, tokens) <= tokens
    decreases |tokens|
  {
    var city := TrailingCity(lex.cities, tokens);
    if city.Some? { PeelCitiesIsPrefix(lex, tokens[..|tokens| - |city.value|]); }
  }

  lemma {:induction false} PeelTokensIsPrefix(lex: Lexicon, tokens: seq<string>)
    requires tokens != []
    ensures PeelTokens(lex, tokens) != [] && PeelTokens(lex, tokens) <= tokens
    decreases |tokens|
  {
    if |tokens| > 1 && Peels(lex, tokens[|tokens| - 1]) { PeelTokensIsPrefix(lex, tokens[..|tokens| - 1]); }
  }

  /** A key is its own anchor, or extends it at a word boundary: what lets a prefix alias resolve it. */
  lemma KeyExtendsItsAnchor(lex: ProperLexicon, key: string)
    requires Tidied(key) && BrandAnchor(lex, key).Some? && BrandAnchor(lex, key).value != key
    ensures WordPrefix(BrandAnchor(lex, key).value, key)
  {
    JoinWords(key);
    var words := Words(key);
    assert words != [];
    PeelCitiesIsPrefix(lex, words);
    PeelTokensIsPrefix(lex, PeelCities(lex, words));
    var brand := Spine(lex, words);
    assert brand == words[..|brand|];
    assert |brand| == |words| ==> brand == words;
    if |brand| < |words| { JoinedPrefix(words, |brand|); }
  }

  // ---------------------------------------------------------------------------------------------
  // Keys of one series
  // ---------------------------------------------------------------------------------------------

  /** `same_merchant`. */
  predicate SameMerchant(lex: ProperLexicon, a: string, b: string) {
    var x, y := BrandAnchor(lex, a), BrandAnchor(lex, b);
    x.Some? && y.Some? && x.value == y.value && (x.value != a || y.value != b)
  }

  const MIN_TRUNCATION_PREFIX := 10

  predicate IsLetter(c: char) { 'a' <= c <= 'z' || 'A' <= c <= 'Z' }

  /** The text after the last space. */
  function LastToken(s: string): string {
    if s == [] || s[|s| - 1] == ' ' then [] else LastToken(s[..|s| - 1]) + [s[|s| - 1]]
  }

  /** The longer key finishes a last token of one letter, with two bytes at most. */
  predicate Completes(short: string, rest: string) {
    Bytes(rest) <= 2 && ' ' !in rest && |LastToken(short)| == 1 && IsLetter(LastToken(short)[0])
  }

  predicate Truncates(short: string, long: string) {
    && Bytes(short) >= MIN_TRUNCATION_PREFIX && short != long && ' ' in short && short <= long
    && (WordPrefix(short, long) || Completes(short, long[|short|..]))
  }

  /** `truncation_variant`. */
  predicate TruncationVariant(a: string, b: string) {
    if Bytes(a) <= Bytes(b) then Truncates(a, b) else Truncates(b, a)
  }

  /** `keys_conflict`. */
  predicate KeysConflict(lex: ProperLexicon, a: string, b: string) {
    a == b || SameMerchant(lex, a, b) || TruncationVariant(a, b)
  }

  lemma TruncationIsSymmetric(a: string, b: string)
    ensures TruncationVariant(a, b) <==> TruncationVariant(b, a)
    ensures TruncationVariant(a, b) <==> Truncates(a, b) || Truncates(b, a)
  {
    if Truncates(a, b) { LongerIsWider(a, b); }
    if Truncates(b, a) { LongerIsWider(b, a); }
  }

  /** Which key is asked about first does not matter. */
  lemma ConflictIsSymmetric(lex: ProperLexicon, a: string, b: string)
    ensures KeysConflict(lex, a, b) <==> KeysConflict(lex, b, a)
  {
    TruncationIsSymmetric(a, b);
  }

  /** `key` is the stem, or extends it at a word boundary. */
  predicate HasStem(stem: string, key: string) { key == stem || WordPrefix(stem, key) }

  /**
  Keys conflict only over a common stem that both are or extend at a word boundary; the one exception
  is a key that finishes the other's last, one-letter token.
  */
  lemma ConflictNeedsAStem(lex: ProperLexicon, a: string, b: string) returns (stem: string)
    requires Tidied(a) && Tidied(b) && KeysConflict(lex, a, b)
    ensures a != [] || b != [] ==> stem != []
    ensures || (HasStem(stem, a) && HasStem(stem, b))
            || (Truncates(stem, a) && stem == b && Completes(b, a[|b|..]))
            || (Truncates(stem, b) && stem == a && Completes(a, b[|a|..]))
  {
    if a == b {
      stem := a;
    } else if SameMerchant(lex, a, b) {
      stem := BrandAnchor(lex, a).value;
      if stem != a { KeyExtendsItsAnchor(lex, a); }
      if stem != b { KeyExtendsItsAnchor(lex, b); }
      AnchorIsNotEmpty(lex, a);
    } else {
      TruncationIsSymmetric(a, b);
      stem := if Truncates(a, b) then a else b;
    }
  }

  // ---------------------------------------------------------------------------------------------
  // Planning
  // ---------------------------------------------------------------------------------------------

  /** What the planner reads besides the tables: the lexicon, the regex passes, the display names. */
  datatype Rules = Rules(lex: ProperLexicon, clean: string -> string, display: string -> string)

  datatype MerchantAnchor = MerchantAnchor(displayName: string, key: string)

  const MIN_LOCATIONS := 2
  const MAX_ALIAS_KEY_BYTES := 251
  const MAX_DISPLAY_NAME_BYTES := 128

  /** `normalize_merchant`. */
  function Normalize(rules: Rules, raw: string): string { Tidy(rules.clean(raw)) }

  predicate DisplayNameIsValid(name: string) {
    Trim(name, IsSpace) != [] && Bytes(name) <= MAX_DISPLAY_NAME_BYTES
  }

  /** A raw counterparty that counts as a sighting of `anchor` under `key`. */
  predicate Sights(rules: Rules, index: AliasIndex, raw: string, anchor: string, key: string) {
    && key == Normalize(rules, raw) && key != "" && Lookup(index, key).None?
    && BrandAnchor(rules.lex, key) == Some(anchor) && key != anchor
  }

  /** The distinct keys sighted for an anchor. */
  ghost function Sightings(rules: Rules, index: AliasIndex, raw: set<string>, anchor: string): set<string> {
    set r | r in raw && Sights(rules, index, r, anchor, Normalize(rules, r)) :: Normalize(rules, r)
  }

  ghost predicate Minted(rules: Rules, index: AliasIndex, raw: set<string>, anchor: string) {
    && |Sightings(rules, index, raw, anchor)| >= MIN_LOCATIONS
    && Bytes(anchor) <= MAX_ALIAS_KEY_BYTES
    && !HoldsKey(index, anchor)
    && DisplayNameIsValid(rules.display(anchor))
  }

  predicate KeyLe(a: MerchantAnchor, b: MerchantAnchor) { TextLe(a.key, b.key) }

  lemma KeyOrder()
    ensures WeakOrder(KeyLe)
  {
    TextOrder();
  }

  lemma SightingsAdd(rules: Rules, index: AliasIndex, raw: set<string>, r: string, anchor: string)
    ensures Sightings(rules, index, raw + {r}, anchor) == Sightings(rules, index, raw, anchor)
      + (if Sights(rules, index, r, anchor, Normalize(rules, r)) then {Normalize(rules, r)} else {})
  {
  }

  /** The anchor a raw counterparty is a sighting of. */
  function SightedAnchor(rules: Rules, index: AliasIndex, key: string): Option<string> {
    if key == "" || Lookup(index, key).Some? then None
    else
      var anchor := BrandAnchor(rules.lex, key);
      if anchor.Some? && key != anchor.value then anchor else None
  }

  lemma SightsOneAnchor(rules: Rules, index: AliasIndex, raw: string, anchor: string)
    ensures Sights(rules, index, raw, anchor, Normalize(rules, raw)) <==>
      SightedAnchor(rules, index, Normalize(rules, raw)) == Some(anchor)
  {
  }

  /** `groups` holds exactly the sightings in `raw`. */
  ghost predicate Groups(rules: Rules, index: AliasIndex, raw: set<string>, groups: map<string, set<string>>) {
    forall a :: Sightings(rules, index, raw, a) == if a in groups then groups[a] else {}
  }

  /** One more counterparty grouped. */
  lemma GroupsGrow(rules: Rules, index: AliasIndex, seen: set<string>, r: string, before: map<string, set<string>>,
                   after: map<string, set<string>>)
    requires Groups(rules, index, seen, before)
    requires var key := Normalize(rules, r);
      var anchor := SightedAnchor(rules, index, key);
      after == if anchor.Some?
               then before[anchor.value := (if anchor.value in before then before[anchor.value] else {}) + {key}]
               else before
    ensures Groups(rules, index, seen + {r}, after)
  {
    forall a ensures Sightings(rules, index, seen + {r}, a) == if a in after then after[a] else {} {
      SightingsAdd(rules, index, seen, r, a);
      SightsOneAnchor(rules, index, r, a);
      assert Sightings(rules, index, seen, a) == if a in before then before[a] else {};
    }
  }

  ghost function Elements(s: seq<string>): set<string> { set r | r in s }

  lemma ElementsPush(s: seq<string>, n: nat)
    requires n < |s|
    ensures Elements(s[..n + 1]) == Elements(s[..n]) + {s[n]}
  {
    assert s[..n + 1] == s[..n] + [s[n]];
  }

  /** The first loop of `plan_anchors`: group the unresolved, location-bearing keys by anchor. */
  method GroupSightings(rules: Rules, index: AliasIndex, raw: seq<string>) returns (groups: map<string, set<string>>)
    ensures Groups(rules, index, Elements(raw), groups)
  {
    groups := map[];
    for n := 0 to |raw|
      invariant Groups(rules, index, Elements(raw[..n]), groups)
    {
      var key := Normalize(rules, raw[n]);
      var anchor := SightedAnchor(rules, index, key);
      ghost var before := groups;
      if anchor.Some? {
        groups := groups[anchor.value := (if anchor.value in groups then groups[anchor.value] else {}) + {key}];
      }
      GroupsGrow(rules, index, Elements(raw[..n]), raw[n], before, groups);
      ElementsPush(raw, n);
    }
    assert raw[..|raw|] == raw;
  }

  /** `plan_anchors`: group, filter, and sort by key. */
  method PlanAnchors(rules: Rules, index: AliasIndex, raw: seq<string>) returns (plan: seq<MerchantAnchor>)
    ensures forall a :: a in plan <==>
      Minted(rules, index, Elements(raw), a.key) && a.displayName == rules.display(a.key)
    ensures forall i, j :: 0 <= i < j < |plan| ==> TextLe(plan[i].key, plan[j].key) && plan[i].key != plan[j].key
  {
    var groups := GroupSightings(rules, index, raw);
    var kept := Filter(rules, index, groups, Elements(raw));
    plan := Sort(kept, KeyLe);
    KeyOrder();
    SortSorts(kept, KeyLe);
    DistinctReordered(kept, plan);
    forall a ensures a in plan <==> a in kept {
      assert a in plan <==> a in multiset(plan);
    }
    forall i, j | 0 <= i < j < |plan| ensures TextLe(plan[i].key, plan[j].key) && plan[i].key != plan[j].key {
      assert plan[i] in kept && plan[j] in kept;
    }
  }

  /** The groups that are minted, in whatever order the map gives them. */
  method Filter(rules: Rules, index: AliasIndex, groups: map<string, set<string>>, ghost raw: set<string>)
    returns (plan: seq<MerchantAnchor>)
    requires Groups(rules, index, raw, groups)
    ensures forall a :: a in plan <==> Minted(rules, index, raw, a.key) && a.displayName == rules.display(a.key)
    ensures Distinct(plan)
  {
    plan := [];
    var left := groups.Keys;
    while left != {}
      invariant left <= groups.Keys && Distinct(plan)
      invariant forall a :: a in plan <==>
        a.key in groups && a.key !in left && Minted(rules, index, raw, a.key) && a.displayName == rules.display(a.key)
      decreases |left|
    {
      var anchor :| anchor in left;
      assert Sightings(rules, index, raw, anchor) == groups[anchor];
      if |groups[anchor]| >= MIN_LOCATIONS && Bytes(anchor) <= MAX_ALIAS_KEY_BYTES && !HoldsKey(index, anchor) {
        var name := rules.display(anchor);
        if DisplayNameIsValid(name) {
          plan := plan + [MerchantAnchor(name, anchor)];
        }
      }
      left := left - {anchor};
    }
  }

  /** The table after `MintMerchantAnchors`: a key some alias holds is skipped, the rest become prefix aliases. */
  ghost function AfterMint(table: AliasTable, plan: set<string>, identities: string -> nat): set<AliasRow> {
    table + set k | k in plan && (forall a :: a in table ==> a.key != k) ::
      AliasRow(k, Resolved(identities(k), false), true)
  }

  lemma LookupGrows(table: AliasTable, before: AliasIndex, more: AliasTable, after: AliasIndex, key: string)
    requires Indexes(before, table) && Indexes(after, more) && table <= more
    ensures Lookup(before, key).Some? ==> Lookup(after, key).Some?
  {
    LookupFinds(before, table, key);
    LookupFinds(after, more, key);
  }

  /**
  Planning is a one-step fixpoint: once everything planned is held as a prefix alias, planning again on
  the same transactions mints nothing.
  */
  lemma ReplanMintsNothing(rules: Rules, raw: set<string>, table: AliasTable, before: AliasIndex,
                           minted: AliasTable, after: AliasIndex, plan: set<string>, identities: string -> nat,
                           anchor: string)
    requires Indexes(before, table) && Indexes(after, minted)
    requires forall k :: k in plan <==> Minted(rules, before, raw, k)
    requires minted == AfterMint(table, plan, identities)
    ensures !Minted(rules, after, raw, anchor)
  {
    var first, now := Sightings(rules, before, raw, anchor), Sightings(rules, after, raw, anchor);
    assert now <= first by {
      forall r | r in raw { LookupGrows(table, before, minted, after, Normalize(rules, r)); }
    }
    LookupFinds(before, table, anchor);
    LookupFinds(after, minted, anchor);
    if anchor in plan {
      assert AliasRow(anchor, Resolved(identities(anchor), false), true) in minted;
    } else {
      SubsetIsSmaller(now, first);
      if HoldsKey(before, anchor) {
        var a :| a in table && a.key == anchor;
        assert a in minted;
      }
    }
  }

  lemma SubsetIsSmaller(a: set<string>, b: set<string>)
    requires a <= b
    ensures |a| <= |b|
  {
    assert b == a + (b - a);
  }

  /** Once minted, every key sighted for the anchor resolves through it. */
  lemma MintedAnchorResolvesItsKeys(rules: Rules, raw: set<string>, table: AliasTable, before: AliasIndex,
                                    minted: AliasTable, after: AliasIndex, plan: set<string>, identities: string -> nat,
                                    anchor: string, key: string)
    requires Indexes(before, table) && Indexes(after, minted)
    requires forall k :: k in plan <==> Minted(rules, before, raw, k)
    requires minted == AfterMint(table, plan, identities)
    requires anchor in plan && key in Sightings(rules, before, raw, anchor)
    ensures Lookup(after, key).Some? && Get(after, key).Some? && WordPrefix(anchor, key)
  {
    var r :| r in raw && Sights(rules, before, r, anchor, Normalize(rules, r)) && Normalize(rules, r) == key;
    TidyTidies(rules.clean(r));
    KeyExtendsItsAnchor(rules.lex, key);
    LookupFinds(before, table, anchor);
    var row := AliasRow(anchor, Resolved(identities(anchor), false), true);
    assert row in minted;
    LookupFinds(after, minted, key);
    FindPrefixFindsAny(after.prefixes, key);
    assert row in after.prefixes;
  }

  // ---------------------------------------------------------------------------------------------
  // The plan is one the command accepts
  // ---------------------------------------------------------------------------------------------

  const MAX_MERCHANT_COMMAND_ENTRIES := 5_000

  predicate ValidAnchor(anchor: MerchantAnchor) {
    anchor.key != "" && Bytes(anchor.key) <= MAX_ALIAS_KEY_BYTES && DisplayNameIsValid(anchor.displayName)
  }

  /** `write_merchant_anchors` refuses none of its checks. */
  predicate Accepted(anchors: seq<MerchantAnchor>) {
    && 1 <= |anchors| <= MAX_MERCHANT_COMMAND_ENTRIES
    && (forall i :: 0 <= i < |anchors| - 1 ==>
          TextLe(anchors[i].key, anchors[i + 1].key) && anchors[i].key != anchors[i + 1].key)
    && (forall i :: 0 <= i < |anchors| ==> ValidAnchor(anchors[i]))
  }

  /** `chunks`: pieces of `size`, the last one possibly shorter. */
  function Chunks<T>(s: seq<T>, size: nat): seq<seq<T>>
    requires size > 0
  {
    if s == [] then [] else if |s| <= size then [s] else [s[..size]] + Chunks(s[size..], size)
  }

  function Joined<T>(chunks: seq<seq<T>>): seq<T> {
    if chunks == [] then [] else chunks[0] + Joined(chunks[1..])
  }

  /** `c` is the piece of `s` from `k` on. */
  predicate PieceAt<T(==)>(c: seq<T>, s: seq<T>, k: nat) {
    k + |c| <= |s| && c == s[k..k + |c|]
  }

  lemma {:induction false} ChunksJoin<T>(s: seq<T>, size: nat)
    requires size > 0
    ensures Joined(Chunks(s, size)) == s
  {
    if 0 < |s| <= size {
      assert Joined([s]) == s + Joined([]);
    } else if |s| > size {
      ChunksJoin(s[size..], size);
      assert Chunks(s, size)[1..] == Chunks(s[size..], size);
    }
  }

  lemma {:induction false} ChunksArePieces<T(!new)>(s: seq<T>, size: nat, c: seq<T>) returns (k: nat)
    requires size > 0 && c in Chunks(s, size)
    ensures 1 <= |c| <= size && PieceAt(c, s, k)
  {
    k := 0;
    if |s| > size && c != s[..size] {
      var before := ChunksArePieces(s[size..], size, c);
      k := size + before;
    }
  }

  /**
  The plan goes out in commands of at most 5000 anchors: together they carry the whole plan, and none is
  refused. Sent whole it is accepted exactly when it is neither empty nor longer than that.
  */
  lemma PlanIsAccepted(rules: Rules, index: AliasIndex, raw: set<string>, plan: seq<MerchantAnchor>)
    requires forall a :: a in plan <==> Minted(rules, index, raw, a.key) && a.displayName == rules.display(a.key)
    requires forall i, j :: 0 <= i < j < |plan| ==> TextLe(plan[i].key, plan[j].key) && plan[i].key != plan[j].key
    ensures forall c :: c in Chunks(plan, MAX_MERCHANT_COMMAND_ENTRIES) ==> Accepted(c)
    ensures Joined(Chunks(plan, MAX_MERCHANT_COMMAND_ENTRIES)) == plan
    ensures Accepted(plan) <==> 1 <= |plan| <= MAX_MERCHANT_COMMAND_ENTRIES
  {
    forall i | 0 <= i < |plan| ensures ValidAnchor(plan[i]) {
      assert plan[i] in plan;
      MintedIsValid(rules, index, raw, plan[i]);
    }
    ChunksJoin(plan, MAX_MERCHANT_COMMAND_ENTRIES);
    forall c | c in Chunks(plan, MAX_MERCHANT_COMMAND_ENTRIES) ensures Accepted(c) {
      var k := ChunksArePieces(plan, MAX_MERCHANT_COMMAND_ENTRIES, c);
      PieceIsAccepted(c, plan, k);
    }
    if 1 <= |plan| <= MAX_MERCHANT_COMMAND_ENTRIES {
      assert Chunks(plan, MAX_MERCHANT_COMMAND_ENTRIES) == [plan];
    }
  }

  lemma PieceIsAccepted(c: seq<MerchantAnchor>, plan: seq<MerchantAnchor>, k: nat)
    requires PieceAt(c, plan, k) && 1 <= |c| <= MAX_MERCHANT_COMMAND_ENTRIES
    requires forall i :: 0 <= i < |plan| ==> ValidAnchor(plan[i])
    requires forall i, j :: 0 <= i < j < |plan| ==> TextLe(plan[i].key, plan[j].key) && plan[i].key != plan[j].key
    ensures Accepted(c)
  {
    assert forall i :: 0 <= i < |c| ==> c[i] == plan[k + i];
  }

  lemma MintedIsValid(rules: Rules, index: AliasIndex, raw: set<string>, a: MerchantAnchor)
    requires Minted(rules, index, raw, a.key) && a.displayName == rules.display(a.key)
    ensures ValidAnchor(a)
  {
    assert Sightings(rules, index, raw, a.key) != {};
    var key :| key in Sightings(rules, index, raw, a.key);
    var r :| r in raw && Sights(rules, index, r, a.key, Normalize(rules, r)) && Normalize(rules, r) == key;
    TidyTidies(rules.clean(r));
    AnchorIsNotEmpty(rules.lex, key);
  }

  lemma AnchorIsNotEmpty(lex: ProperLexicon, key: string)
    requires Tidied(key) && BrandAnchor(lex, key).Some?
    ensures BrandAnchor(lex, key).value != ""
  {
    JoinWords(key);
    var words := Words(key);
    assert words != [];
    PeelCitiesIsPrefix(lex, words);
    PeelTokensIsPrefix(lex, PeelCities(lex, words));
    assert Spine(lex, words)[0] in words;
  }
}
