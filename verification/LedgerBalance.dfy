/** What every run of commands keeps in the ledger tables that crates/db-worker/src/projection.rs reads. */
module LedgerBalance {
  import opened Common
  import opened Projection

  /** The signed sum of some postings. */
  ghost function SumOf(postings: set<Posting>): int
    decreases postings
  {
    if postings == {} then 0
    else
      var p :| p in postings;
      p.minorUnits + SumOf(postings - {p})
  }

  /** Whichever posting is taken out first. */
  lemma {:induction false} SumTakesOut(postings: set<Posting>, p: Posting)
    requires p in postings
    ensures SumOf(postings) == p.minorUnits + SumOf(postings - {p})
    decreases postings
  {
    var q :| q in postings && SumOf(postings) == q.minorUnits + SumOf(postings - {q});
    if q != p {
      SumTakesOut(postings - {q}, p);
      SumTakesOut(postings - {p}, q);
      assert postings - {q} - {p} == postings - {p} - {q};
    }
  }

  function PostingsOf(t: Tables, txn: nat): set<Posting> { set p | p in t.postings && p.txn == txn }

  /** Double entry: the postings of each transaction add up to nothing. */
  ghost predicate Balanced(t: Tables) { forall x :: x in t.headers ==> SumOf(PostingsOf(t, x)) == 0 }

  ghost predicate OnePerLedger(postings: set<Posting>) {
    forall p, q :: p in postings && q in postings && p.ledger == q.ledger ==> p == q
  }

  function Negated(postings: set<Posting>, txn: nat, currency: Option<nat>): set<Posting> {
    set p | p in postings :: Posting(txn, p.ledger, -p.minorUnits, currency)
  }

  lemma {:induction false} NegatedSum(postings: set<Posting>, txn: nat, currency: Option<nat>)
    requires OnePerLedger(postings)
    ensures SumOf(Negated(postings, txn, currency)) == -SumOf(postings)
    decreases postings
  {
    if postings == {} {
      assert Negated(postings, txn, currency) == {};
    } else {
      var p :| p in postings;
      var n := Posting(txn, p.ledger, -p.minorUnits, currency);
      NegatedSum(postings - {p}, txn, currency);
      NegatedWithout(postings, p, txn, currency);
      SumTakesOut(postings, p);
      SumTakesOut(Negated(postings, txn, currency), n);
    }
  }

  lemma NegatedWithout(postings: set<Posting>, p: Posting, txn: nat, currency: Option<nat>)
    requires OnePerLedger(postings) && p in postings
    ensures var n := Posting(txn, p.ledger, -p.minorUnits, currency);
      && n in Negated(postings, txn, currency)
      && Negated(postings, txn, currency) - {n} == Negated(postings - {p}, txn, currency)
  {
    var n := Posting(txn, p.ledger, -p.minorUnits, currency);
    var all, rest := Negated(postings, txn, currency), Negated(postings - {p}, txn, currency);
    forall x ensures x in all - {n} <==> x in rest {
      if x in all - {n} {
        var q :| q in postings && x == Posting(txn, q.ledger, -q.minorUnits, currency);
        assert q in postings - {p};
      }
      if x in rest {
        var q :| q in postings - {p} && x == Posting(txn, q.ledger, -q.minorUnits, currency);
        assert q.ledger != p.ledger;
      }
    }
  }

  lemma SumOfTwo(p: Posting, q: Posting)
    requires p != q
    ensures SumOf({p, q}) == p.minorUnits + q.minorUnits
  {
    SumTakesOut({p, q}, p);
    assert {p, q} - {p} == {q};
    SumTakesOut({q}, q);
    assert {q} - {q} == {};
  }

  lemma LegsBalance(t: Tables, w: Write)
    requires t.OwnLedgers() && t.Booked() && Balanced(t) && Accepts(t, w)
    ensures SumOf(Legs(t, w)) == 0
  {
    match w
    case Book(txn, _, debit, credit, minorUnits, currency) =>
      assert LedgerOf(t, debit) != LedgerOf(t, credit);
      SumOfTwo(Posting(txn, LedgerOf(t, debit), minorUnits, currency),
               Posting(txn, LedgerOf(t, credit), -minorUnits, currency));
    case Reverse(txn, original, _, currency) =>
      NegatedSum(PostingsOf(t, original), txn, currency);
      assert Legs(t, w) == Negated(PostingsOf(t, original), txn, currency);
    case _ =>
  }

  lemma PerformBalances(t: Tables, command: nat, w: Write)
    requires t.OwnLedgers() && t.Booked() && Balanced(t) && Accepts(t, w)
    ensures Balanced(Perform(t, command, w))
  {
    var u := Perform(t, command, w);
    LegsBalance(t, w);
    LegsAreApart(t, w);
    forall x | x in u.headers ensures SumOf(PostingsOf(u, x)) == 0 {
      if x in t.headers {
        assert PostingsOf(u, x) == PostingsOf(t, x);
      } else {
        assert PostingsOf(u, x) == Legs(t, w);
      }
    }
  }

  lemma {:induction false} AllBalance(t: Tables, op: Operation, writes: seq<Write>)
    requires t.OwnLedgers() && t.Booked() && Balanced(t) && op in t.log && PerformAll(t, op.command, writes).Some?
    ensures var after := PerformAll(t, op.command, writes).value;
      after.log == t.log && after.OwnLedgers() && after.Booked() && Balanced(after)
  {
    if writes != [] {
      var front, last := writes[..|writes| - 1], writes[|writes| - 1];
      AllBalance(t, op, front);
      var before := PerformAll(t, op.command, front).value;
      PerformKeepsOwnLedgers(before, op.command, last);
      PerformKeepsBooked(before, op, last);
      PerformBalances(before, op.command, last);
    }
  }

  lemma CommandBalances(s: State, t: State, op: Operation, writes: seq<Write>)
    requires s.tables.OwnLedgers() && s.tables.Booked() && Balanced(s.tables) && IsCommand(s, t, op, writes)
    ensures Balanced(t.tables)
  {
    var logged := Logged(s.tables, op);
    LogRowKeepsBooked(s.tables, op);
    assert logged.log[|s.tables.log|] == op;
    forall x | x in logged.headers ensures SumOf(PostingsOf(logged, x)) == 0 {
      assert PostingsOf(logged, x) == PostingsOf(s.tables, x);
    }
    AllBalance(logged, op, writes);
  }

  /** In every run of commands, incremental runs and rebuilds, every transaction balances. */
  lemma {:induction false} BooksAlwaysBalance(trace: seq<State>)
    requires Run(trace)
    ensures Balanced(trace[|trace| - 1].tables)
  {
    var n := |trace| - 1;
    if n > 0 {
      BooksAlwaysBalance(trace[..n]);
      RunsAgree(trace[..n]);
      var s, t := trace[n - 1], trace[n];
      if op, writes :| IsCommand(s, t, op, writes) {
        CommandBalances(s, t, op, writes);
      } else {
        assert t.tables == s.tables;
      }
    }
  }

  /** A transaction is posted on the two parties it names, the amount on one and its negation on the other. */
  lemma BookPostsBothLegs(t: Tables, command: nat, w: Write, p: Posting)
    requires t.OwnLedgers() && t.Booked() && w.Book? && Accepts(t, w)
    ensures var u := Perform(t, command, w);
      p in u.postings && p.txn == w.txn <==>
        && p.txn == w.txn && p.currency == w.currency
        && ((w.debit.User? && p.ledger == t.accounts[w.debit.account] && p.minorUnits == w.minorUnits)
            || (w.debit.System? && p.ledger == t.systems[w.debit.key] && p.minorUnits == w.minorUnits)
            || (w.credit.User? && p.ledger == t.accounts[w.credit.account] && p.minorUnits == -w.minorUnits)
            || (w.credit.System? && p.ledger == t.systems[w.credit.key] && p.minorUnits == -w.minorUnits))
    ensures Perform(t, command, w).headers[w.txn] == Header(command, w.occurredAt)
  {
  }

  /** A reversal takes back exactly what its original posted, ledger account by ledger account. */
  lemma ReversalCancels(t: Tables, command: nat, w: Write, ledger: nat)
    requires t.OwnLedgers() && t.Booked() && w.Reverse? && Accepts(t, w)
    ensures var u := Perform(t, command, w);
      && (forall p :: p in u.postings && p.txn == w.original && p.ledger == ledger ==>
            exists q :: q in u.postings && q.txn == w.txn && q.ledger == ledger && q.minorUnits == -p.minorUnits)
      && (forall q :: q in u.postings && q.txn == w.txn && q.ledger == ledger ==>
            exists p :: p in u.postings && p.txn == w.original && p.ledger == ledger && q.minorUnits == -p.minorUnits)
  {
    var u := Perform(t, command, w);
    forall p | p in u.postings && p.txn == w.original && p.ledger == ledger
      ensures exists q :: q in u.postings && q.txn == w.txn && q.ledger == ledger && q.minorUnits == -p.minorUnits
    {
      assert Posting(w.txn, p.ledger, -p.minorUnits, w.currency) in Legs(t, w);
    }
  }

  lemma CreateAccountOpens(t: Tables, command: nat, w: Write)
    requires w.CreateAccount? && Accepts(t, w)
    ensures var u := Perform(t, command, w);
      && w.account in u.accounts && u.accounts[w.account] == w.ledger && w.ledger in u.ledgers
      && (forall a :: a in t.accounts ==> a in u.accounts && u.accounts[a] == t.accounts[a])
      && u.postings == t.postings && u.headers == t.headers && u.systems == t.systems
  {
  }
}
