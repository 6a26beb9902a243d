/** The alias index of crates/db-worker/src/merchant_identity.rs. */
module Aliases {
  import opened Common
  import opened Ordering
  import opened Text

  /** A row of `merchant_aliases` joined to its identity. The key is the table's primary key. */
  datatype AliasRow = AliasRow(key: string, resolved: Resolved, isPrefix: bool)

  datatype Resolved = Resolved(identity: nat, ambiguous: bool)

  type AliasTable = rows: set<AliasRow> | forall a, b :: a in rows && b in rows && a.key == b.key ==> a == b witness {}

  datatype AliasIndex = AliasIndex(exact: map<string, Resolved>, prefixes: seq<AliasRow>)

  /** Longest key first, ties by key. */
  predicate MoreSpecific(a: AliasRow, b: AliasRow) {
    Bytes(a.key) > Bytes(b.key) || (Bytes(a.key) == Bytes(b.key) && TextLe(a.key, b.key))
  }

  lemma MoreSpecificOrders()
    ensures WeakOrder(MoreSpecific)
  {
    TextOrder();
  }

  /** `index` holds exactly the rows of the table, its prefixes in order. */
  ghost predicate Indexes(index: AliasIndex, table: AliasTable) {
    && (forall k :: k in index.exact <==> exists a :: a in table && !a.isPrefix && a.key == k)
    && (forall a :: a in table && !a.isPrefix ==> a.key in index.exact && index.exact[a.key] == a.resolved)
    && (forall a :: a in index.prefixes <==> a in table && a.isPrefix)
    && Sorted(index.prefixes, MoreSpecific)
  }

  /** `AliasIndex::load`, over the rows in whatever order the query returns them. */
  method Load(rows: seq<AliasRow>, ghost table: AliasTable) returns (index: AliasIndex)
    requires forall a :: a in rows <==> a in table
    ensures Indexes(index, table)
  {
    var exact: map<string, Resolved> := map[];
    var prefixes: seq<AliasRow> := [];
    for n := 0 to |rows|
      invariant forall k :: k in exact ==> exists a :: a in table && !a.isPrefix && a.key == k
      invariant forall a :: a in rows[..n] && !a.isPrefix ==> a.key in exact && exact[a.key] == a.resolved
      invariant forall a :: a in prefixes <==> a in rows[..n] && a.isPrefix
    {
      var row := rows[n];
      assert rows[..n + 1] == rows[..n] + [row] && row in table;
      if row.isPrefix {
        prefixes := prefixes + [row];
      } else {
        exact := exact[row.key := row.resolved];
      }
    }
    assert rows[..|rows|] == rows;
    MoreSpecificOrders();
    SortSorts(prefixes, MoreSpecific);
    var sorted := Sort(prefixes, MoreSpecific);
    forall a ensures a in sorted <==> a in prefixes {
      assert a in sorted <==> a in multiset(sorted);
    }
    index := AliasIndex(exact, sorted);
  }

  /** The first prefix the key extends at a word boundary. */
  function FindPrefix(prefixes: seq<AliasRow>, key: string): Option<Resolved> {
    if prefixes == [] then None
    else if WordPrefix(prefixes[0].key, key) then Some(prefixes[0].resolved)
    else FindPrefix(prefixes[1..], key)
  }

  function FindKey(prefixes: seq<AliasRow>, key: string): Option<Resolved> {
    if prefixes == [] then None
    else if prefixes[0].key == key then Some(prefixes[0].resolved)
    else FindKey(prefixes[1..], key)
  }

  /** `AliasIndex::get`. */
  function Get(index: AliasIndex, key: string): Option<Resolved> {
    if key in index.exact then Some(index.exact[key]) else FindPrefix(index.prefixes, key)
  }

  /** `AliasIndex::lookup`. */
  function Lookup(index: AliasIndex, key: string): Option<Resolved> {
    if key in index.exact then Some(index.exact[key])
    else if FindKey(index.prefixes, key).Some? then FindKey(index.prefixes, key)
    else Get(index, key)
  }

  /** `AliasIndex::holds_key`. */
  predicate HoldsKey(index: AliasIndex, key: string) {
    key in index.exact || FindKey(index.prefixes, key).Some?
  }

  /** `a` is the longest prefix alias that `key` extends at a word boundary. */
  ghost predicate LongestPrefix(table: AliasTable, key: string, a: AliasRow) {
    && a in table && a.isPrefix && WordPrefix(a.key, key)
    && forall b :: b in table && b.isPrefix && WordPrefix(b.key, key) && b != a ==> |b.key| < |a.key|
  }

  /** What `get` answers, by the table alone. */
  ghost predicate Answer(table: AliasTable, key: string, r: Option<Resolved>) {
    && (forall a :: a in table && !a.isPrefix && a.key == key ==> r == Some(a.resolved))
    && ((forall a :: a in table && !a.isPrefix ==> a.key != key) ==>
        && (forall a :: LongestPrefix(table, key, a) ==> r == Some(a.resolved))
        && (r.Some? ==> exists a :: LongestPrefix(table, key, a)))
  }

  lemma {:induction false} FirstPrefixIsLongest(prefixes: seq<AliasRow>, key: string) returns (k: nat)
    requires Sorted(prefixes, MoreSpecific) && FindPrefix(prefixes, key).Some?
    ensures k < |prefixes| && WordPrefix(prefixes[k].key, key)
      && FindPrefix(prefixes, key) == Some(prefixes[k].resolved)
    ensures forall b :: b in prefixes && WordPrefix(b.key, key) ==> |b.key| <= |prefixes[k].key|
  {
    if WordPrefix(prefixes[0].key, key) {
      k := 0;
      var a := prefixes[0];
      forall b | b in prefixes && WordPrefix(b.key, key) ensures |b.key| <= |a.key| {
        var j :| 0 <= j < |prefixes| && prefixes[j] == b;
        assert a == b || MoreSpecific(a, b);
        assert a.key == key[..|a.key|] && b.key == key[..|b.key|];
        if |a.key| < |b.key| { LongerIsWider(a.key, b.key); }
      }
    } else {
      var j := FirstPrefixIsLongest(prefixes[1..], key);
      k := j + 1;
    }
  }

  lemma {:induction false} FindPrefixFindsAny(prefixes: seq<AliasRow>, key: string)
    ensures FindPrefix(prefixes, key).Some? <==> exists a :: a in prefixes && WordPrefix(a.key, key)
  {
    if prefixes != [] { FindPrefixFindsAny(prefixes[1..], key); }
  }

  lemma {:induction false} FindKeyFindsAny(prefixes: seq<AliasRow>, key: string)
    ensures FindKey(prefixes, key).Some? <==> exists a :: a in prefixes && a.key == key
  {
    if prefixes != [] { FindKeyFindsAny(prefixes[1..], key); }
  }

  /** The exact alias, or else the one longest word-boundary prefix; whatever order the rows came in. */
  lemma GetAnswersByTheTable(index: AliasIndex, table: AliasTable, key: string)
    requires Indexes(index, table)
    ensures Answer(table, key, Get(index, key))
  {
    FindPrefixFindsAny(index.prefixes, key);
    if key !in index.exact && FindPrefix(index.prefixes, key).Some? {
      var k := FirstPrefixIsLongest(index.prefixes, key);
      var a := index.prefixes[k];
      forall b | b in table && b.isPrefix && WordPrefix(b.key, key) && b != a ensures |b.key| < |a.key| {
        assert b in index.prefixes;
        assert b.key == key[..|b.key|] && a.key == key[..|a.key|];
      }
      assert LongestPrefix(table, key, a);
    }
    forall a | LongestPrefix(table, key, a) ensures key in index.exact || Get(index, key) == Some(a.resolved) {
      assert a in index.prefixes;
    }
  }

  /** Two indexes of one table answer every key alike. */
  lemma GetIsAFunctionOfTheTable(a: AliasIndex, b: AliasIndex, table: AliasTable, key: string)
    requires Indexes(a, table) && Indexes(b, table)
    ensures Get(a, key) == Get(b, key)
  {
    GetAnswersByTheTable(a, table, key);
    GetAnswersByTheTable(b, table, key);
    if Get(a, key).Some? && key !in a.exact {
      var x :| LongestPrefix(table, key, x);
    }
  }

  /** At most one answer fits a table. */
  lemma OneAnswer(table: AliasTable, key: string, r: Option<Resolved>, s: Option<Resolved>)
    requires Answer(table, key, r) && Answer(table, key, s)
    ensures r == s
  {
    if r.Some? && forall a :: a in table && !a.isPrefix ==> a.key != key { var a :| LongestPrefix(table, key, a); }
    if s.Some? && forall a :: a in table && !a.isPrefix ==> a.key != key { var a :| LongestPrefix(table, key, a); }
  }

  /** What `lookup` answers, by the table alone: a row of that very key, exact or prefix, comes first. */
  ghost predicate LookupAnswer(table: AliasTable, key: string, r: Option<Resolved>) {
    && (forall a :: a in table && a.key == key ==> r == Some(a.resolved))
    && ((forall a :: a in table ==> a.key != key) ==>
        && (forall a :: LongestPrefix(table, key, a) ==> r == Some(a.resolved))
        && (r.Some? ==> exists a :: LongestPrefix(table, key, a)))
  }

  lemma {:induction false} FindKeyFinds(prefixes: seq<AliasRow>, a: AliasRow)
    requires a in prefixes && forall b :: b in prefixes && b.key == a.key ==> b == a
    ensures FindKey(prefixes, a.key) == Some(a.resolved)
  {
    if prefixes[0].key != a.key { FindKeyFinds(prefixes[1..], a); }
  }

  /** The row of the key, or else the one longest word-boundary prefix; whatever order the rows came in. */
  lemma LookupAnswersByTheTable(index: AliasIndex, table: AliasTable, key: string)
    requires Indexes(index, table)
    ensures LookupAnswer(table, key, Lookup(index, key))
  {
    GetAnswersByTheTable(index, table, key);
    FindKeyFindsAny(index.prefixes, key);
    forall a | a in table && a.key == key ensures Lookup(index, key) == Some(a.resolved) {
      if a.isPrefix {
        assert key !in index.exact;
        FindKeyFinds(index.prefixes, a);
      }
    }
  }

  /** Two indexes of one table look up every key alike. */
  lemma LookupIsAFunctionOfTheTable(a: AliasIndex, b: AliasIndex, table: AliasTable, key: string)
    requires Indexes(a, table) && Indexes(b, table)
    ensures Lookup(a, key) == Lookup(b, key)
  {
    LookupAnswersByTheTable(a, table, key);
    LookupAnswersByTheTable(b, table, key);
    if x :| x in table && x.key == key {
    } else if x :| LongestPrefix(table, key, x) {
    }
  }

  /** `lookup` finds something exactly for the keys an alias holds or a prefix alias is extended by. */
  lemma LookupFinds(index: AliasIndex, table: AliasTable, key: string)
    requires Indexes(index, table)
    ensures Lookup(index, key).Some? <==>
      exists a :: a in table && (a.key == key || (a.isPrefix && WordPrefix(a.key, key)))
    ensures HoldsKey(index, key) <==> exists a :: a in table && a.key == key
  {
    FindKeyFindsAny(index.prefixes, key);
    FindPrefixFindsAny(index.prefixes, key);
  }
}
