/** Sorting by a total order, and the byte order of text. */
module Ordering {

  /** An order that may not tell different elements apart, as a sort key does. */
  ghost predicate WeakOrder<T(!new)>(le: (T, T) -> bool) {
    && (forall x, y :: le(x, y) || le(y, x))
    && (forall x, y, z :: le(x, y) && le(y, z) ==> le(x, z))
  }

  ghost predicate TotalOrder<T(!new)>(le: (T, T) -> bool) {
    WeakOrder(le) && forall x, y :: le(x, y) && le(y, x) ==> x == y
  }

  ghost predicate Sorted<T>(s: seq<T>, le: (T, T) -> bool) {
    forall i, j :: 0 <= i < j < |s| ==> le(s[i], s[j])
  }

  function Insert<T>(x: T, s: seq<T>, le: (T, T) -> bool): seq<T> {
    if s == [] then [x]
    else if le(x, s[0]) then [x] + s
    else [s[0]] + Insert(x, s[1..], le)
  }

  function Sort<T>(s: seq<T>, le: (T, T) -> bool): seq<T> {
    if s == [] then [] else Insert(s[0], Sort(s[1..], le), le)
  }

  lemma {:induction false} InsertElements<T>(x: T, s: seq<T>, le: (T, T) -> bool)
    ensures multiset(Insert(x, s, le)) == multiset{x} + multiset(s)
  {
    if s != [] {
      assert s == [s[0]] + s[1..];
      if !le(x, s[0]) { InsertElements(x, s[1..], le); }
    }
  }

  lemma {:induction false} InsertSorted<T(!new)>(x: T, s: seq<T>, le: (T, T) -> bool)
    requires WeakOrder(le) && Sorted(s, le)
    ensures Sorted(Insert(x, s, le), le)
  {
    if s != [] {
      if le(x, s[0]) {
        forall i | 0 <= i < |s| ensures le(x, s[i]) { assert i > 0 ==> le(s[0], s[i]); }
      } else {
        InsertSorted(x, s[1..], le);
        var rest := Insert(x, s[1..], le);
        InsertElements(x, s[1..], le);
        forall i | 0 <= i < |rest| ensures le(s[0], rest[i]) {
          assert rest[i] in multiset(rest);
          assert rest[i] == x || rest[i] in s[1..];
        }
      }
    }
  }

  /** Sorting orders the elements and keeps them. */
  lemma {:induction false} SortSorts<T(!new)>(s: seq<T>, le: (T, T) -> bool)
    requires WeakOrder(le)
    ensures Sorted(Sort(s, le), le)
    ensures multiset(Sort(s, le)) == multiset(s)
    ensures |Sort(s, le)| == |s|
  {
    if s != [] {
      SortSorts(s[1..], le);
      InsertSorted(s[0], Sort(s[1..], le), le);
      InsertElements(s[0], Sort(s[1..], le), le);
      assert s == [s[0]] + s[1..];
    }
    assert |multiset(Sort(s, le))| == |multiset(s)|;
  }

  /** The first element of a sorted sequence is below all of them. */
  lemma FirstIsLeast<T(!new)>(a: seq<T>, x: T, le: (T, T) -> bool)
    requires WeakOrder(le) && Sorted(a, le) && x in a
    ensures le(a[0], x)
  {
    var k :| 0 <= k < |a| && a[k] == x;
    assert k > 0 ==> le(a[0], a[k]);
    assert le(x, x);
  }

  /** A sorted sequence is determined by its elements. */
  lemma {:induction false} SortedIsUnique<T(!new)>(a: seq<T>, b: seq<T>, le: (T, T) -> bool)
    requires TotalOrder(le) && Sorted(a, le) && Sorted(b, le)
    requires multiset(a) == multiset(b)
    ensures a == b
  {
    assert |multiset(a)| == |a| && |multiset(b)| == |b|;
    if a != [] {
      assert a[0] in multiset(b) && b[0] in multiset(a);
      FirstIsLeast(a, b[0], le);
      FirstIsLeast(b, a[0], le);
      TailsMatch(a, b);
      SortedIsUnique(a[1..], b[1..], le);
      assert a == [a[0]] + a[1..] && b == [b[0]] + b[1..];
    }
  }

  lemma TailsMatch<T>(a: seq<T>, b: seq<T>)
    requires a != [] && b != [] && a[0] == b[0] && multiset(a) == multiset(b)
    ensures multiset(a[1..]) == multiset(b[1..])
  {
    assert a == [a[0]] + a[1..] && b == [b[0]] + b[1..];
    assert multiset(a[1..]) == multiset(a) - multiset{a[0]};
    assert multiset(b[1..]) == multiset(b) - multiset{b[0]};
  }

  ghost predicate Ascending<T>(s: seq<T>, lt: (T, T) -> bool) {
    forall i, j :: 0 <= i < j < |s| ==> lt(s[i], s[j])
  }

  /** A strictly ascending sequence is determined by which elements it has. */
  lemma {:induction false} AscendingIsUnique<T(!new)>(p: seq<T>, q: seq<T>, lt: (T, T) -> bool)
    requires forall x, y :: !(lt(x, y) && lt(y, x))
    requires Ascending(p, lt) && Ascending(q, lt)
    requires forall x :: x in p <==> x in q
    ensures p == q
  {
    assert q != [] ==> q[0] in q;
    if p != [] {
      assert p[0] in q && q[0] in p;
      assert p[0] == q[0];
      forall x ensures x in p[1..] <==> x in q[1..] {
        assert x in p[1..] <==> x in p && x != p[0];
        assert x in q[1..] <==> x in q && x != q[0];
      }
      AscendingIsUnique(p[1..], q[1..], lt);
      assert p == [p[0]] + p[1..] && q == [q[0]] + q[1..];
    }
  }

  ghost predicate Distinct<T>(s: seq<T>) {
    forall i, j :: 0 <= i < j < |s| ==> s[i] != s[j]
  }

  lemma {:induction false} DistinctCountsOne<T>(s: seq<T>, x: T)
    requires Distinct(s)
    ensures multiset(s)[x] <= 1
  {
    if s != [] {
      assert s == [s[0]] + s[1..];
      DistinctCountsOne(s[1..], x);
      if s[0] == x {
        assert x !in s[1..];
        assert multiset(s[1..])[x] == 0;
      }
    }
  }

  lemma RepeatedCountsTwo<T>(s: seq<T>, i: nat, j: nat)
    requires i < j < |s| && s[i] == s[j]
    ensures multiset(s)[s[i]] >= 2
  {
    assert s == s[..i] + [s[i]] + s[i + 1..j] + [s[j]] + s[j + 1..];
  }

  /** Reordering repeats nothing. */
  lemma DistinctReordered<T>(a: seq<T>, b: seq<T>)
    requires Distinct(a) && multiset(a) == multiset(b)
    ensures Distinct(b)
  {
    forall i, j | 0 <= i < j < |b| ensures b[i] != b[j] {
      DistinctCountsOne(a, b[i]);
      if b[i] == b[j] { RepeatedCountsTwo(b, i, j); }
    }
  }

  /** How many elements satisfy `p`. */
  function Tally<T>(s: seq<T>, p: T -> bool): nat {
    if s == [] then 0 else Tally(s[..|s| - 1], p) + (if p(s[|s| - 1]) then 1 else 0)
  }

  lemma {:induction false} TallyAdds<T>(a: seq<T>, b: seq<T>, p: T -> bool)
    ensures Tally(a + b, p) == Tally(a, p) + Tally(b, p)
  {
    if b == [] {
      assert a + b == a;
    } else {
      TallyAdds(a, b[..|b| - 1], p);
      assert (a + b)[..|a + b| - 1] == a + b[..|b| - 1];
    }
  }

  lemma {:induction false} TallyBounds<T>(s: seq<T>, p: T -> bool, q: T -> bool)
    requires forall x :: x in s && p(x) ==> q(x)
    ensures Tally(s, p) <= Tally(s, q) <= |s|
  {
    if s != [] { TallyBounds(s[..|s| - 1], p, q); }
  }

  /** One occurrence of `x` taken out. */
  lemma TakeOut<T>(s: seq<T>, x: T, p: T -> bool) returns (rest: seq<T>)
    requires x in s
    ensures multiset(rest) == multiset(s) - multiset{x} && |rest| == |s| - 1
    ensures Tally(s, p) == Tally(rest, p) + (if p(x) then 1 else 0)
  {
    var k :| 0 <= k < |s| && s[k] == x;
    var a, b := s[..k], s[k + 1..];
    rest := a + b;
    assert s == a + [x] + b;
    assert multiset(s) == multiset(a) + multiset{x} + multiset(b);
    TallyAdds(a, b, p);
    TallyAdds(a + [x], b, p);
    assert (a + [x])[..k] == a;
  }

  lemma {:induction false} TallyNone<T>(s: seq<T>, p: T -> bool)
    requires forall x :: x in s ==> !p(x)
    ensures Tally(s, p) == 0
  {
    if s != [] { TallyNone(s[..|s| - 1], p); }
  }

  lemma {:induction false} TallyAll<T>(s: seq<T>, p: T -> bool)
    requires forall x :: x in s ==> p(x)
    ensures Tally(s, p) == |s|
  {
    if s != [] { TallyAll(s[..|s| - 1], p); }
  }

  lemma LastOne<T>(s: seq<T>, front: seq<T>, x: T, p: T -> bool)
    requires s == front + [x]
    ensures x in multiset(s) && multiset(s) - multiset{x} == multiset(front)
    ensures Tally(s, p) == Tally(front, p) + (if p(x) then 1 else 0)
  {
    assert s[..|front|] == front;
  }

  /** Counting does not depend on the order. */
  lemma {:induction false} TallyReordered<T>(a: seq<T>, b: seq<T>, p: T -> bool)
    requires multiset(a) == multiset(b)
    ensures Tally(a, p) == Tally(b, p)
  {
    if a == [] {
      assert |multiset(b)| == |b|;
    } else {
      var front, x := a[..|a| - 1], a[|a| - 1];
      LastOne(a, front, x, p);
      var rest := TakeOut(b, x, p);
      TallyReordered(front, rest, p);
    }
  }

  /** The counts below and above a value of a sorted sequence, and what they say of its ranks. */
  function AtMost(v: int): int -> bool { (x: int) => x <= v }

  function AtLeast(v: int): int -> bool { (x: int) => x >= v }

  function Above(v: int): int -> bool { (x: int) => x > v }

  lemma TallySplit<T>(t: seq<T>, i: nat, p: T -> bool)
    requires i <= |t|
    ensures Tally(t, p) == Tally(t[..i], p) + Tally(t[i..], p)
    ensures Tally(t[..i], p) <= i && Tally(t[i..], p) <= |t| - i
  {
    assert t == t[..i] + t[i..];
    TallyAdds(t[..i], t[i..], p);
    TallyBounds(t[..i], p, p);
    TallyBounds(t[i..], p, p);
  }

  lemma BottomCount(t: seq<int>, v: int, i: nat)
    requires i <= |t| && forall j :: 0 <= j < i ==> t[j] <= v
    ensures Tally(t, AtMost(v)) >= i && Tally(t, Above(v)) <= |t| - i
  {
    TallySplit(t, i, AtMost(v));
    TallySplit(t, i, Above(v));
    TallyAll(t[..i], AtMost(v));
    TallyNone(t[..i], Above(v));
  }

  lemma TopCount(t: seq<int>, v: int, i: nat)
    requires i <= |t| && forall j :: i <= j < |t| ==> t[j] >= v
    ensures Tally(t, AtLeast(v)) >= |t| - i
  {
    TallySplit(t, i, AtLeast(v));
    TallyAll(t[i..], AtLeast(v));
  }

  lemma BottomRank(t: seq<int>, v: int, k: nat)
    requires Sorted(t, IntLe) && 1 <= k <= Tally(t, AtMost(v))
    ensures k <= |t| && t[k - 1] <= v
  {
    TallyBounds(t, AtMost(v), AtMost(v));
    if t[k - 1] > v {
      var high := t[k - 1..];
      forall x | x in high ensures x > v {
        var j :| k - 1 <= j < |t| && t[j] == x;
        assert j == k - 1 || IntLe(t[k - 1], t[j]);
      }
      TallySplit(t, k - 1, AtMost(v));
      TallyNone(high, AtMost(v));
    }
  }

  lemma TopRank(t: seq<int>, v: int, k: nat)
    requires Sorted(t, IntLe) && 1 <= k <= Tally(t, AtLeast(v))
    ensures k <= |t| && t[|t| - k] >= v
  {
    TallyBounds(t, AtLeast(v), AtLeast(v));
    var i := |t| - k;
    if t[i] < v {
      var low := t[..i + 1];
      forall x | x in low ensures x < v {
        var j :| 0 <= j < i + 1 && t[j] == x;
        assert j == i || IntLe(t[j], t[i]);
      }
      TallySplit(t, i + 1, AtLeast(v));
      TallyNone(low, AtLeast(v));
    }
  }

  function Map<A, B>(f: A -> B, s: seq<A>): (t: seq<B>)
    ensures |t| == |s|
  {
    seq(|s|, i requires 0 <= i < |s| => f(s[i]))
  }

  lemma MapOfSplit<A, B>(f: A -> B, a: seq<A>, x: A, b: seq<A>)
    ensures multiset(Map(f, a + [x] + b)) == multiset(Map(f, a + b)) + multiset{f(x)}
  {
    assert Map(f, a + [x] + b) == Map(f, a) + [f(x)] + Map(f, b);
    assert Map(f, a + b) == Map(f, a) + Map(f, b);
  }

  lemma MapTakeOut<A, B>(f: A -> B, s: seq<A>, x: A) returns (rest: seq<A>)
    requires x in s
    ensures multiset(rest) == multiset(s) - multiset{x}
    ensures multiset(Map(f, s)) == multiset(Map(f, rest)) + multiset{f(x)}
  {
    var k :| 0 <= k < |s| && s[k] == x;
    rest := s[..k] + s[k + 1..];
    assert s == s[..k] + [x] + s[k + 1..];
    assert multiset(s) == multiset(s[..k]) + multiset{x} + multiset(s[k + 1..]);
    MapOfSplit(f, s[..k], x, s[k + 1..]);
  }

  lemma MapLast<A, B>(f: A -> B, s: seq<A>, front: seq<A>, x: A)
    requires s == front + [x]
    ensures multiset(s) - multiset{x} == multiset(front) && x in multiset(s)
    ensures multiset(Map(f, s)) == multiset(Map(f, front)) + multiset{f(x)}
  {
    assert Map(f, s) == Map(f, front) + [f(x)];
  }

  /** Mapping a reordering reorders what is mapped. */
  lemma {:induction false} MapReordered<A, B>(f: A -> B, a: seq<A>, b: seq<A>)
    requires multiset(a) == multiset(b)
    ensures multiset(Map(f, a)) == multiset(Map(f, b))
  {
    if a == [] {
      assert |multiset(b)| == |b|;
    } else {
      var front, x := a[..|a| - 1], a[|a| - 1];
      MapLast(f, a, front, x);
      var rest := MapTakeOut(f, b, x);
      MapReordered(f, front, rest);
    }
  }

  /** Mapping keeps a count, if it keeps what is counted. */
  lemma {:induction false} TallyOfMap<A, B>(f: A -> B, s: seq<A>, q: A -> bool, p: B -> bool)
    requires forall x :: x in s && q(x) ==> p(f(x))
    ensures Tally(s, q) <= Tally(Map(f, s), p)
  {
    if s != [] {
      var front := s[..|s| - 1];
      TallyOfMap(f, front, q, p);
      assert Map(f, s)[..|s| - 1] == Map(f, front);
    }
  }

  predicate IntLe(a: int, b: int) { a <= b }

  lemma IntOrder()
    ensures TotalOrder(IntLe)
  {
  }

  lemma SortsInts(values: seq<int>)
    ensures Sorted(Sort(values, IntLe), IntLe)
    ensures multiset(Sort(values, IntLe)) == multiset(values) && |Sort(values, IntLe)| == |values|
  {
    IntOrder();
    SortSorts(values, IntLe);
  }

  /** The order of two texts: by the first character that differs, a proper prefix first. */
  predicate TextLe(a: string, b: string) {
    a == [] || (b != [] && (a[0] < b[0] || (a[0] == b[0] && TextLe(a[1..], b[1..]))))
  }

  lemma {:induction false} TextLeTotal(a: string, b: string)
    ensures TextLe(a, b) || TextLe(b, a)
    ensures TextLe(a, b) && TextLe(b, a) ==> a == b
  {
    if a != [] && b != [] && a[0] == b[0] {
      TextLeTotal(a[1..], b[1..]);
      assert a == [a[0]] + a[1..] && b == [b[0]] + b[1..];
    }
  }

  lemma {:induction false} TextLeTransitive(a: string, b: string, c: string)
    requires TextLe(a, b) && TextLe(b, c)
    ensures TextLe(a, c)
  {
    if a != [] && a[0] == b[0] && b[0] == c[0] {
      TextLeTransitive(a[1..], b[1..], c[1..]);
    }
  }

  lemma TextOrder()
    ensures TotalOrder(TextLe)
  {
    forall a, b ensures TextLe(a, b) || TextLe(b, a) { TextLeTotal(a, b); }
    forall a, b | TextLe(a, b) && TextLe(b, a) ensures a == b { TextLeTotal(a, b); }
    forall a, b, c | TextLe(a, b) && TextLe(b, c) ensures TextLe(a, c) { TextLeTransitive(a, b, c); }
  }
}
