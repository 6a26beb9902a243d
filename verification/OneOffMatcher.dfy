/**
The one-off entry matcher of crates/db-worker/src/manual_entry.rs (`rebuild_links`): each entry, oldest
first, takes the nearest candidate transaction nobody has taken.
*/
module OneOffMatcher {
  import opened Common

  type Txn = nat
  type Day = int

  /** `RECURRING_MATCH_WINDOW_DAYS`. */
  const WINDOW := 7

  datatype Entry = Entry(account: Option<nat>, minor: int, currency: string, occursOn: Day)

  datatype Account = Account(ledger: nat, currency: string)

  datatype Posting = Posting(txn: Txn, ledger: nat, minor: int, date: Day)

  datatype Ledger = Ledger(
    accounts: map<nat, Account>,
    postings: seq<Posting>,                // in the query's order: posting date, then transaction id
    voided: set<Txn>,
    recurring: set<Txn>)                   // transactions a recurring instance is linked to

  /** A row the candidate query may return for an entry. */
  predicate IsCandidate(l: Ledger, e: Entry, p: Posting) {
    && e.account.Some? && e.account.value in l.accounts
    && var a := l.accounts[e.account.value];
    && p.ledger == a.ledger && p.minor == e.minor && a.currency == e.currency
    && p.txn !in l.voided && p.txn !in l.recurring
    && e.occursOn - WINDOW <= p.date <= e.occursOn + WINDOW
  }

  function Distance(e: Entry, p: Posting): nat {
    if p.date < e.occursOn then e.occursOn - p.date else p.date - e.occursOn
  }

  /** The preference of an entry: the nearer date, then the smaller transaction id. */
  predicate Nearer(e: Entry, p: Posting, q: Posting) {
    Distance(e, p) < Distance(e, q) || (Distance(e, p) == Distance(e, q) && p.txn < q.txn)
  }

  /** The links of the first entries, in entry order. */
  type Links = seq<Option<Posting>>

  /** The transactions the first `n` links take. */
  ghost function Claimed(links: Links, n: nat): set<Txn>
    requires n <= |links|
  {
    set i | 0 <= i < n && links[i].Some? :: links[i].value.txn
  }

  /** The linked entries. */
  ghost function Linked(links: Links): set<nat> { set i | 0 <= i < |links| && links[i].Some? }

  /** A one-to-one matching inside the rules. */
  ghost predicate IsMatching(l: Ledger, entries: seq<Entry>, links: Links) {
    && |links| == |entries|
    && (forall i :: 0 <= i < |links| && links[i].Some? ==>
          links[i].value in l.postings && IsCandidate(l, entries[i], links[i].value))
    && (forall i, j :: 0 <= i < j < |links| && links[i].Some? && links[j].Some? ==>
          links[i].value.txn != links[j].value.txn)
  }

  /** Entry `i` prefers its link in `a` to its link in `b`; any link is better than none. */
  ghost predicate Better(entries: seq<Entry>, a: Links, b: Links, i: nat)
    requires i < |entries| && |a| == |b| == |entries|
  {
    a[i].Some? && (b[i].None? || Nearer(entries[i], a[i].value, b[i].value))
  }

  /** The candidates left for entry `i` when the entries before it have taken theirs. */
  ghost predicate Free(l: Ledger, entries: seq<Entry>, links: Links, i: nat, p: Posting)
    requires i < |entries| && i <= |links|
  {
    p in l.postings && IsCandidate(l, entries[i], p) && p.txn !in Claimed(links, i)
  }

  /** Every entry got the best of what the entries before it left. */
  ghost predicate Serial(l: Ledger, entries: seq<Entry>, links: Links)
    requires |links| <= |entries|
  {
    forall i :: 0 <= i < |links| ==> BestFree(l, entries, links, i)
  }

  ghost predicate BestFree(l: Ledger, entries: seq<Entry>, links: Links, i: nat)
    requires i < |links| <= |entries|
  {
    && (links[i].None? ==> forall p :: !Free(l, entries, links, i, p))
    && (links[i].Some? ==>
        && Free(l, entries, links, i, links[i].value)
        && forall p :: Free(l, entries, links, i, p) ==> !Nearer(entries[i], p, links[i].value))
  }

  /** `min_by_key` over the unclaimed candidates: the first of the nearest. */
  method Nearest(l: Ledger, e: Entry, claimed: set<Txn>) returns (best: Option<Posting>)
    ensures best.None? ==> forall p :: p in l.postings && IsCandidate(l, e, p) ==> p.txn in claimed
    ensures best.Some? ==>
      && best.value in l.postings && IsCandidate(l, e, best.value) && best.value.txn !in claimed
      && forall p :: p in l.postings && IsCandidate(l, e, p) && p.txn !in claimed ==> !Nearer(e, p, best.value)
  {
    best := None;
    for k := 0 to |l.postings|
      invariant best.None? ==> forall p :: p in l.postings[..k] && IsCandidate(l, e, p) ==> p.txn in claimed
      invariant best.Some? ==>
        && best.value in l.postings[..k] && IsCandidate(l, e, best.value) && best.value.txn !in claimed
        && forall p :: p in l.postings[..k] && IsCandidate(l, e, p) && p.txn !in claimed ==> !Nearer(e, p, best.value)
    {
      var p := l.postings[k];
      assert l.postings[..k + 1] == l.postings[..k] + [p];
      if IsCandidate(l, e, p) && p.txn !in claimed {
        if best.None? || Nearer(e, p, best.value) {
          best := Some(p);
        }
      }
    }
    assert l.postings[..|l.postings|] == l.postings;
  }

  /** The best of what is left, put last, keeps the links serial. */
  lemma SerialPush(l: Ledger, entries: seq<Entry>, before: Links, best: Option<Posting>)
    requires |before| < |entries| && Serial(l, entries, before)
    requires BestFree(l, entries, before + [best], |before|)
    ensures Serial(l, entries, before + [best])
  {
    var links := before + [best];
    forall i | 0 <= i < |before| ensures BestFree(l, entries, links, i) {
      SameClaims(links, before, i);
      assert BestFree(l, entries, before, i);
      assert forall p :: Free(l, entries, links, i, p) == Free(l, entries, before, i, p);
    }
  }

  lemma BestIsFree(l: Ledger, entries: seq<Entry>, before: Links, best: Option<Posting>)
    requires |before| < |entries|
    requires best.None? ==> forall p :: !Free(l, entries, before, |before|, p)
    requires best.Some? ==> Free(l, entries, before, |before|, best.value)
    requires best.Some? ==> forall p :: Free(l, entries, before, |before|, p) ==>
      !Nearer(entries[|before|], p, best.value)
    ensures BestFree(l, entries, before + [best], |before|)
  {
    var links, n := before + [best], |before|;
    SameClaims(links, before, n);
    assert forall p :: Free(l, entries, links, n, p) == Free(l, entries, before, n, p);
  }

  lemma ClaimedPush(before: Links, best: Option<Posting>)
    ensures Claimed(before + [best], |before| + 1) == Claimed(before, |before|)
      + (if best.Some? then {best.value.txn} else {})
  {
    var links, n := before + [best], |before|;
    forall t | t in Claimed(before, n) ensures t in Claimed(links, n + 1) {
      var i :| 0 <= i < n && before[i].Some? && before[i].value.txn == t;
      assert links[i] == before[i];
    }
    assert best.Some? ==> links[n].value.txn in Claimed(links, n + 1);
  }

  lemma LinkedPush(before: Links, best: Option<Posting>)
    ensures |Linked(before + [best])| == |Linked(before)| + (if best.Some? then 1 else 0)
  {
    var links, n := before + [best], |before|;
    assert Linked(links) == Linked(before) + (if best.Some? then {n} else {});
  }

  /** What the loop of `rebuild_links` keeps. */
  ghost predicate Rebuilt(l: Ledger, entries: seq<Entry>, n: nat, links: Links, claimed: set<Txn>, linked: nat)
    requires n <= |entries|
  {
    && |links| == n && IsMatching(l, entries[..n], links) && Serial(l, entries, links)
    && claimed == Claimed(links, n) && linked == |Linked(links)|
  }

  lemma RebuiltStep(l: Ledger, entries: seq<Entry>, n: nat, links: Links, claimed: set<Txn>, linked: nat,
                    best: Option<Posting>)
    requires n < |entries| && Rebuilt(l, entries, n, links, claimed, linked)
    requires best.None? ==> forall p :: !Free(l, entries, links, n, p)
    requires best.Some? ==> Free(l, entries, links, n, best.value)
    requires best.Some? ==> forall p :: Free(l, entries, links, n, p) ==> !Nearer(entries[n], p, best.value)
    ensures Rebuilt(l, entries, n + 1, links + [best], claimed + (if best.Some? then {best.value.txn} else {}),
                    linked + (if best.Some? then 1 else 0))
  {
    BestIsFree(l, entries, links, best);
    SerialPush(l, entries, links, best);
    ClaimedPush(links, best);
    MatchingPush(l, entries, links, best);
    LinkedPush(links, best);
  }

  /** `rebuild_links`: the links, and how many there are. */
  method RebuildLinks(l: Ledger, entries: seq<Entry>) returns (links: Links, linked: nat)
    ensures IsMatching(l, entries, links)
    ensures Serial(l, entries, links)
    ensures linked == |Linked(links)|
  {
    links, linked := [], 0;
    var claimed: set<Txn> := {};
    for n := 0 to |entries|
      invariant Rebuilt(l, entries, n, links, claimed, linked)
    {
      var best: Option<Posting> := None;
      if entries[n].account.Some? {
        best := Nearest(l, entries[n], claimed);
      }
      RebuiltStep(l, entries, n, links, claimed, linked, best);
      links := links + [best];
      if best.Some? {
        claimed := claimed + {best.value.txn};
        linked := linked + 1;
      }
    }
    assert entries[..|entries|] == entries;
  }

  lemma MatchingPush(l: Ledger, entries: seq<Entry>, before: Links, best: Option<Posting>)
    requires |before| < |entries| && IsMatching(l, entries[..|before|], before)
    requires best.Some? ==> Free(l, entries, before, |before|, best.value)
    ensures IsMatching(l, entries[..|before| + 1], before + [best])
  {
    var n := |before|;
    forall i | 0 <= i < n && before[i].Some? ensures best.Some? ==> before[i].value.txn != best.value.txn {
      assert before[i].value.txn in Claimed(before, n);
    }
  }

  /** While two matchings agree on the transactions of the first entries, they claim the same ones. */
  lemma SameClaims(a: Links, b: Links, n: nat)
    requires n <= |a| && n <= |b|
    requires forall i :: 0 <= i < n ==>
      (a[i].Some? <==> b[i].Some?) && (a[i].Some? ==> a[i].value.txn == b[i].value.txn)
    ensures Claimed(a, n) == Claimed(b, n)
  {
    forall t | t in Claimed(a, n) ensures t in Claimed(b, n) {
      var i :| 0 <= i < n && a[i].Some? && a[i].value.txn == t;
      assert b[i].Some? && b[i].value.txn == t;
    }
    forall t | t in Claimed(b, n) ensures t in Claimed(a, n) {
      var i :| 0 <= i < n && b[i].Some? && b[i].value.txn == t;
      assert a[i].Some? && a[i].value.txn == t;
    }
  }

  /** Entry `i` is as well off with either matching. */
  ghost predicate Indifferent(entries: seq<Entry>, a: Links, b: Links, i: nat)
    requires i < |entries| && |a| == |b| == |entries|
  {
    !Better(entries, a, b, i) && !Better(entries, b, a, i)
  }

  lemma IndifferentMeansSameTransaction(entries: seq<Entry>, a: Links, b: Links, i: nat)
    requires i < |entries| && |a| == |b| == |entries| && Indifferent(entries, a, b, i)
    ensures (a[i].Some? <==> b[i].Some?) && (a[i].Some? ==> a[i].value.txn == b[i].value.txn)
  {
  }

  /** An entry and a transaction may be linked: same account, amount and currency, at most a week apart. */
  predicate MayLink(l: Ledger, e: Entry, p: Posting) {
    && e.account.Some? && e.account.value in l.accounts
    && l.accounts[e.account.value] == Account(p.ledger, e.currency) && e.minor == p.minor
    && !(p.txn in l.voided || p.txn in l.recurring)
    && -7 <= p.date - e.occursOn <= 7
  }

  function DaysApart(e: Entry, p: Posting): int {
    if p.date - e.occursOn >= 0 then p.date - e.occursOn else e.occursOn - p.date
  }

  /** Entry `i` may be linked to the posting, and no entry before it is. */
  ghost predicate LeftFor(l: Ledger, entries: seq<Entry>, links: Links, i: nat, p: Posting)
    requires i < |entries| && i <= |links|
  {
    && p in l.postings && MayLink(l, entries[i], p)
    && forall j :: 0 <= j < i && links[j].Some? ==> links[j].value.txn != p.txn
  }

  /**
  Each entry is linked to the transaction it may be linked to that is nearest in days, and on equal days has the
  smallest id, of those no entry before it is linked to; and it is linked to none only if there is none.
  */
  lemma LinksFollowTheRules(l: Ledger, entries: seq<Entry>, links: Links, i: nat, p: Posting)
    requires IsMatching(l, entries, links) && Serial(l, entries, links) && i < |entries|
    ensures links[i].Some? ==> links[i].value in l.postings && MayLink(l, entries[i], links[i].value)
    ensures LeftFor(l, entries, links, i, p) ==>
      && links[i].Some?
      && DaysApart(entries[i], links[i].value) <= DaysApart(entries[i], p)
      && (DaysApart(entries[i], links[i].value) == DaysApart(entries[i], p) ==> links[i].value.txn <= p.txn)
  {
    assert BestFree(l, entries, links, i);
    if LeftFor(l, entries, links, i, p) { assert Free(l, entries, links, i, p); }
  }

  /**
  Pareto optimality: whatever other one-to-one matching betters some entry, it worsens another; the
  first entry the two treat differently is worse off in it.
  */
  lemma {:induction false} NoMatchingBettersAll(l: Ledger, entries: seq<Entry>, links: Links, other: Links, n: nat)
    requires IsMatching(l, entries, links) && Serial(l, entries, links) && IsMatching(l, entries, other)
    requires n < |entries| && Better(entries, other, links, n)
    ensures exists i :: 0 <= i < n && Better(entries, links, other, i)
  {
    if forall i :: 0 <= i < n ==> Indifferent(entries, links, other, i) {
      forall i | 0 <= i < n
        ensures (links[i].Some? <==> other[i].Some?) && (links[i].Some? ==> links[i].value.txn == other[i].value.txn)
      {
        IndifferentMeansSameTransaction(entries, links, other, i);
      }
      SameClaims(links, other, n);
      assert BestFree(l, entries, links, n);
      assert Free(l, entries, links, n, other[n].value);
      assert false;
    } else {
      var i :| 0 <= i < n && !Indifferent(entries, links, other, i);
      if Better(entries, other, links, i) {
        NoMatchingBettersAll(l, entries, links, other, i);
      }
    }
  }

  /** An entry left without a link has no candidate that is free in the final matching. */
  lemma UnlinkedHasNoFreeCandidate(l: Ledger, entries: seq<Entry>, links: Links, n: nat, p: Posting)
    requires IsMatching(l, entries, links) && Serial(l, entries, links)
    requires n < |entries| && links[n].None? && p in l.postings && IsCandidate(l, entries[n], p)
    ensures exists i :: 0 <= i < n && links[i].Some? && links[i].value.txn == p.txn
  {
    assert BestFree(l, entries, links, n);
    assert !Free(l, entries, links, n, p);
  }

  /** The matching is a function of the data: two serial matchings link the same transactions. */
  lemma {:induction false} SerialIsUnique(l: Ledger, entries: seq<Entry>, a: Links, b: Links, n: nat)
    requires |a| == |b| == |entries| && Serial(l, entries, a) && Serial(l, entries, b) && n <= |entries|
    ensures forall i :: 0 <= i < n ==> (a[i].Some? <==> b[i].Some?) && (a[i].Some? ==> a[i].value.txn == b[i].value.txn)
  {
    if n > 0 {
      var k := n - 1;
      SerialIsUnique(l, entries, a, b, k);
      SameClaims(a, b, k);
      assert BestFree(l, entries, a, k) && BestFree(l, entries, b, k);
      assert forall p :: Free(l, entries, a, k, p) ==> Free(l, entries, b, k, p);
      assert forall p :: Free(l, entries, b, k, p) ==> Free(l, entries, a, k, p);
    }
  }
}
