/** The transaction-display read model of crates/db-worker/src/projection.rs. */
module Projection {
  import opened Common

  // ---------------------------------------------------------------------------------------------
  // The canonical tables
  // ---------------------------------------------------------------------------------------------

  /** A row of `operation_log`; `op_seq` is its AUTOINCREMENT key. */
  datatype Operation = Operation(opSeq: int, command: nat)

  /** A row of `ledger_transactions`; `occurredAt` is None when the stored text is not a timestamp. */
  datatype Header = Header(command: nat, occurredAt: Option<int>)

  /** A row of `ledger_postings`; `currency` is None when the stored code is not a currency. */
  datatype Posting = Posting(txn: nat, ledger: nat, minorUnits: int, currency: Option<nat>)

  /**
  `ledgers` are the keys of `ledger_accounts`; `accounts` and `systems` give the ledger account of each
  user account and of each pair of a system role and a currency.
  */
  datatype Tables = Tables(log: seq<Operation>, headers: map<nat, Header>, postings: set<Posting>,
                           ledgers: set<nat>, accounts: map<nat, nat>, systems: map<nat, nat>)
  {
    /** `max_op_seq`. */
    function Head(): int { if log == [] then 0 else log[|log| - 1].opSeq }

    ghost predicate WellFormed() {
      && (forall i :: 0 <= i < |log| ==> log[i].opSeq >= 1)
      && (forall i, j :: 0 <= i < j < |log| ==> log[i].opSeq < log[j].opSeq && log[i].command != log[j].command)
    }

    /** Every ledger account belongs to one user account or one system role. */
    predicate OwnLedgers() {
      && (forall a :: a in accounts ==> accounts[a] in ledgers)
      && (forall k :: k in systems ==> systems[k] in ledgers)
      && (forall a, b :: a in accounts && b in accounts && accounts[a] == accounts[b] ==> a == b)
      && (forall k, m :: k in systems && m in systems && systems[k] == systems[m] ==> k == m)
      && (forall a, k :: a in accounts && k in systems ==> accounts[a] != systems[k])
    }

    /** Headers are logged; a posting has its header and its ledger account, on which its transaction has no other. */
    ghost predicate Booked() {
      && (forall x :: x in headers ==> exists op :: op in log && op.command == headers[x].command)
      && (forall p :: p in postings ==> p.txn in headers && p.ledger in ledgers)
      && (forall p, q :: p in postings && q in postings && p.txn == q.txn && p.ledger == q.ledger ==> p == q)
    }
  }

  /** A joined row of `read_inputs`. */
  datatype Input = Input(txn: nat, account: nat, occurredAt: Option<int>, minorUnits: int, currency: Option<nat>,
                         opSeq: int) {
    predicate Readable() { occurredAt.Some? && currency.Some? }
    function Key(): (nat, nat) { (txn, account) }
  }

  ghost predicate Joins(t: Tables, p: Posting, account: nat, op: Operation) {
    && p in t.postings && account in t.accounts && op in t.log && p.txn in t.headers
    && t.accounts[account] == p.ledger && p.ledger in t.ledgers && t.headers[p.txn].command == op.command
  }

  function JoinedRow(t: Tables, p: Posting, account: nat, op: Operation): Input
    requires p.txn in t.headers
  {
    Input(p.txn, account, t.headers[p.txn].occurredAt, p.minorUnits, p.currency, op.opSeq)
  }

  ghost predicate IsInput(t: Tables, i: Input) {
    exists p, a, op :: Joins(t, p, a, op) && i == JoinedRow(t, p, a, op)
  }

  predicate InputLe(a: Input, b: Input) {
    || a.opSeq < b.opSeq
    || (a.opSeq == b.opSeq && (a.txn < b.txn || (a.txn == b.txn && a.account <= b.account)))
  }

  /** What the query may return: every joined row after `since`, in the ORDER BY order; ties in any order. */
  ghost predicate Selects(t: Tables, since: Option<int>, rows: seq<Input>) {
    && (forall i :: i in rows <==> IsInput(t, i) && (since.None? || i.opSeq > since.value))
    && (forall m, n :: 0 <= m < n < |rows| ==> InputLe(rows[m], rows[n]))
  }

  // ---------------------------------------------------------------------------------------------
  // The read model
  // ---------------------------------------------------------------------------------------------

  datatype CategorySource = Uncategorized | Manual | Rule | Model
  datatype ReviewStatus = NeedsReview | Reviewed | AutoCleared

  datatype DisplayRow = DisplayRow(txn: nat, account: nat, occurredAt: int, minorUnits: int, currency: nat,
                                   merchant: Option<nat>, category: Option<nat>, confidence: int,
                                   source: CategorySource, recurringEvent: Option<nat>, review: ReviewStatus,
                                   lastProjected: int)

  /** `project_transaction_display` on one input. */
  function Display(i: Input): DisplayRow
    requires i.Readable()
  {
    DisplayRow(i.txn, i.account, i.occurredAt.value, i.minorUnits, i.currency.value,
               None, None, 0, Uncategorized, None, NeedsReview, i.opSeq)
  }

  type ReadModel = map<(nat, nat), DisplayRow>

  /** Writing the rows in order, each replacing what its key held. */
  function WriteAll(model: ReadModel, rows: seq<Input>): ReadModel
    requires forall i :: i in rows ==> i.Readable()
  {
    if rows == [] then model
    else
      var last := rows[|rows| - 1];
      WriteAll(model, rows[..|rows| - 1])[last.Key() := Display(last)]
  }

  datatype State = State(tables: Tables, model: ReadModel, cursor: int)

  ghost predicate Readable(rows: seq<Input>) { forall i :: i in rows ==> i.Readable() }

  ghost predicate IsRebuild(s: State, t: State) {
    exists rows :: Selects(s.tables, None, rows) && Readable(rows)
      && t == State(s.tables, WriteAll(map[], rows), s.tables.Head())
  }

  ghost predicate IsIncremental(s: State, t: State) {
    exists rows :: Selects(s.tables, Some(s.cursor), rows) && Readable(rows)
      && t == State(s.tables, WriteAll(s.model, rows), s.tables.Head())
  }

  // ---------------------------------------------------------------------------------------------
  // Commands
  // ---------------------------------------------------------------------------------------------

  /** Whom a transaction is booked on. */
  datatype Party = User(account: nat) | System(key: nat)

  /** What applying a command does to these tables, statement group by statement group. */
  datatype Write =
    | CreateAccount(account: nat, ledger: nat)
    | EnsureSystem(key: nat, ledger: nat)  // `ledger`: the derived id inserted on a miss
    | Book(txn: nat, occurredAt: Option<int>, debit: Party, credit: Party, minorUnits: int, currency: Option<nat>)
    | Reverse(txn: nat, original: nat, occurredAt: Option<int>, currency: Option<nat>)

  predicate Known(t: Tables, party: Party) {
    match party
    case User(account) => account in t.accounts
    case System(key) => key in t.systems
  }

  function LedgerOf(t: Tables, party: Party): nat
    requires Known(t, party)
  {
    match party
    case User(account) => t.accounts[account]
    case System(key) => t.systems[key]
  }

  /** Neither a primary key nor a check of the command refuses the write. */
  predicate Accepts(t: Tables, w: Write) {
    match w
    case CreateAccount(account, ledger) => ledger !in t.ledgers && account !in t.accounts
    case EnsureSystem(key, ledger) => key in t.systems || ledger !in t.ledgers
    case Book(txn, _, debit, credit, _, _) =>
      txn !in t.headers && Known(t, debit) && Known(t, credit) && debit != credit
    case Reverse(txn, original, _, _) => txn !in t.headers && original in t.headers
  }

  /** The postings a write adds: two legs that cancel, or the original's legs negated. */
  function Legs(t: Tables, w: Write): set<Posting>
    requires Accepts(t, w)
  {
    match w
    case Book(txn, _, debit, credit, minorUnits, currency) =>
      {Posting(txn, LedgerOf(t, debit), minorUnits, currency), Posting(txn, LedgerOf(t, credit), -minorUnits, currency)}
    case Reverse(txn, original, _, currency) =>
      set p | p in t.postings && p.txn == original :: Posting(txn, p.ledger, -p.minorUnits, currency)
    case _ => {}
  }

  function Perform(t: Tables, command: nat, w: Write): Tables
    requires Accepts(t, w)
  {
    match w
    case CreateAccount(account, ledger) =>
      t.(ledgers := t.ledgers + {ledger}, accounts := t.accounts[account := ledger])
    case EnsureSystem(key, ledger) =>
      if key in t.systems then t else t.(ledgers := t.ledgers + {ledger}, systems := t.systems[key := ledger])
    case _ =>
      t.(headers := t.headers[w.txn := Header(command, w.occurredAt)], postings := t.postings + Legs(t, w))
  }

  /** All writes of a command, or None when one of them is refused. */
  function PerformAll(t: Tables, command: nat, writes: seq<Write>): Option<Tables> {
    if writes == [] then Some(t)
    else
      var last := writes[|writes| - 1];
      match PerformAll(t, command, writes[..|writes| - 1])
      case Some(before) => if Accepts(before, last) then Some(Perform(before, command, last)) else None
      case None => None
  }

  function Logged(t: Tables, op: Operation): Tables { t.(log := t.log + [op]) }

  /** A command commits in one database transaction: its log row, with a fresh key and id, and its writes. */
  ghost predicate IsCommand(s: State, t: State, op: Operation, writes: seq<Write>) {
    && op.opSeq > s.tables.Head()
    && (forall o :: o in s.tables.log ==> o.command != op.command)
    && var after := PerformAll(Logged(s.tables, op), op.command, writes);
       after.Some? && t == s.(tables := after.value)
  }

  // ---------------------------------------------------------------------------------------------
  // What the read model is
  // ---------------------------------------------------------------------------------------------

  ghost predicate Projected(t: Tables, upTo: int, i: Input) { IsInput(t, i) && i.opSeq <= upTo }

  /** The model holds the projection of exactly the inputs up to `upTo`. */
  ghost predicate Projects(t: Tables, upTo: int, model: ReadModel) {
    && (forall i :: Projected(t, upTo, i) ==> i.Key() in model)
    && (forall k :: k in model ==>
          exists i :: Projected(t, upTo, i) && i.Readable() && i.Key() == k && model[k] == Display(i))
  }

  ghost predicate Agrees(s: State) {
    s.tables.WellFormed() && s.tables.OwnLedgers() && s.tables.Booked() && 0 <= s.cursor <= s.tables.Head()
      && Projects(s.tables, s.cursor, s.model)
  }

  lemma HeadIsGreatest(t: Tables, op: Operation)
    requires t.WellFormed() && op in t.log
    ensures 1 <= op.opSeq <= t.Head()
  {
    var k :| 0 <= k < |t.log| && t.log[k] == op;
    var last := |t.log| - 1;
    if k < last { assert t.log[k].opSeq < t.log[last].opSeq; }
  }

  lemma InputsAreLogged(t: Tables, i: Input)
    requires t.WellFormed() && IsInput(t, i)
    ensures 1 <= i.opSeq <= t.Head()
  {
    var p, a, op :| Joins(t, p, a, op) && i == JoinedRow(t, p, a, op);
    HeadIsGreatest(t, op);
  }

  lemma {:induction false} WriteAllHolds(model: ReadModel, rows: seq<Input>)
    requires Readable(rows)
    ensures forall i :: i in rows ==> i.Key() in WriteAll(model, rows)
    ensures forall k :: k in model ==> k in WriteAll(model, rows)
    ensures forall k :: k in WriteAll(model, rows) ==>
      || (exists i :: i in rows && i.Key() == k && WriteAll(model, rows)[k] == Display(i))
      || (k in model && WriteAll(model, rows)[k] == model[k])
  {
    if rows != [] {
      var n := |rows| - 1;
      var front, last := rows[..n], rows[n];
      assert rows == front + [last];
      WriteAllHolds(model, front);
      var after := WriteAll(model, rows);
      forall k | k in after
        ensures (exists i :: i in rows && i.Key() == k && after[k] == Display(i))
          || (k in model && after[k] == model[k])
      {
        if k == last.Key() {
          assert last in rows && after[k] == Display(last);
        } else if i :| i in front && i.Key() == k && WriteAll(model, front)[k] == Display(i) {
          assert i in rows;
        }
      }
    }
  }

  /** Writing the rows after the cursor brings the projection to the head. */
  lemma CatchingUp(t: Tables, upTo: int, model: ReadModel, rows: seq<Input>)
    requires t.WellFormed() && Projects(t, upTo, model) && upTo <= t.Head()
    requires Selects(t, Some(upTo), rows) && Readable(rows)
    ensures Projects(t, t.Head(), WriteAll(model, rows))
  {
    var after := WriteAll(model, rows);
    WriteAllHolds(model, rows);
    forall i | Projected(t, t.Head(), i) ensures i.Key() in after {
      if i.opSeq <= upTo { assert Projected(t, upTo, i); } else { assert i in rows; }
    }
    forall k | k in after
      ensures exists i :: Projected(t, t.Head(), i) && i.Readable() && i.Key() == k && after[k] == Display(i)
    {
      if i :| i in rows && i.Key() == k && after[k] == Display(i) {
        InputsAreLogged(t, i);
        assert Projected(t, t.Head(), i);
      } else {
        var i :| Projected(t, upTo, i) && i.Readable() && i.Key() == k && model[k] == Display(i);
        assert Projected(t, t.Head(), i);
      }
    }
  }

  lemma IncrementalAgrees(s: State, t: State)
    requires Agrees(s) && IsIncremental(s, t)
    ensures Agrees(t) && t.cursor == t.tables.Head()
  {
    var rows :| Selects(s.tables, Some(s.cursor), rows) && Readable(rows)
      && t == State(s.tables, WriteAll(s.model, rows), s.tables.Head());
    CatchingUp(s.tables, s.cursor, s.model, rows);
  }

  /** A rebuild agrees whatever the model held before. */
  lemma RebuildAgrees(s: State, t: State)
    requires s.tables.WellFormed() && s.tables.OwnLedgers() && s.tables.Booked() && IsRebuild(s, t)
    ensures Agrees(t) && t.cursor == t.tables.Head()
  {
    var rows :| Selects(s.tables, None, rows) && Readable(rows)
      && t == State(s.tables, WriteAll(map[], rows), s.tables.Head());
    forall i ensures !Projected(s.tables, 0, i) {
      if IsInput(s.tables, i) { InputsAreLogged(s.tables, i); }
    }
    forall i: Input | i in rows ensures i.opSeq > 0 { InputsAreLogged(s.tables, i); }
    forall i | IsInput(s.tables, i) ensures i in rows { }
    if s.tables.log != [] { HeadIsGreatest(s.tables, s.tables.log[|s.tables.log| - 1]); }
    CatchingUp(s.tables, 0, map[], rows);
  }

  // ---------------------------------------------------------------------------------------------
  // Commands keep the agreement
  // ---------------------------------------------------------------------------------------------

  /** A log row alone joins nothing: no header names its command yet. */
  lemma LogRowAddsNothing(t: Tables, op: Operation, i: Input)
    requires t.Booked() && forall o :: o in t.log ==> o.command != op.command
    ensures IsInput(Logged(t, op), i) <==> IsInput(t, i)
  {
    var u := Logged(t, op);
    if IsInput(t, i) {
      var p, a, o :| Joins(t, p, a, o) && i == JoinedRow(t, p, a, o);
      assert Joins(u, p, a, o) && i == JoinedRow(u, p, a, o);
    }
    if IsInput(u, i) {
      var p, a, o :| Joins(u, p, a, o) && i == JoinedRow(u, p, a, o);
      assert Joins(t, p, a, o) && i == JoinedRow(t, p, a, o);
    }
  }

  lemma LogRowKeepsBooked(t: Tables, op: Operation)
    requires t.Booked()
    ensures Logged(t, op).Booked()
  {
    var u := Logged(t, op);
    forall x | x in u.headers ensures exists o :: o in u.log && o.command == u.headers[x].command {
      var o :| o in t.log && o.command == t.headers[x].command;
      assert o in u.log;
    }
  }

  lemma LogRowKeepsWellFormed(t: Tables, op: Operation)
    requires t.WellFormed() && op.opSeq > t.Head() && forall o :: o in t.log ==> o.command != op.command
    ensures Logged(t, op).WellFormed()
  {
    forall o | o in t.log ensures o.opSeq < op.opSeq { HeadIsGreatest(t, o); }
  }

  lemma LogRowAgrees(s: State, op: Operation)
    requires Agrees(s) && op.opSeq > s.tables.Head()
    requires forall o :: o in s.tables.log ==> o.command != op.command
    ensures Agrees(s.(tables := Logged(s.tables, op)))
  {
    LogRowKeepsBooked(s.tables, op);
    LogRowKeepsWellFormed(s.tables, op);
    forall i ensures IsInput(Logged(s.tables, op), i) <==> IsInput(s.tables, i) { LogRowAddsNothing(s.tables, op, i); }
  }

  lemma PerformKeepsOwnLedgers(t: Tables, command: nat, w: Write)
    requires t.OwnLedgers() && Accepts(t, w)
    ensures Perform(t, command, w).OwnLedgers()
  {
  }

  lemma LegsAreApart(t: Tables, w: Write)
    requires t.OwnLedgers() && t.Booked() && Accepts(t, w)
    ensures forall p :: p in Legs(t, w) ==> p.txn == w.txn && p.ledger in t.ledgers
    ensures forall p, q :: p in Legs(t, w) && q in Legs(t, w) && p.ledger == q.ledger ==> p == q
  {
    if w.Book? { assert LedgerOf(t, w.debit) != LedgerOf(t, w.credit); }
  }

  lemma PerformKeepsBooked(t: Tables, op: Operation, w: Write)
    requires t.OwnLedgers() && t.Booked() && op in t.log && Accepts(t, w)
    ensures Perform(t, op.command, w).Booked()
  {
    LegsAreApart(t, w);
  }

  lemma BookingKeepsInputs(t: Tables, command: nat, w: Write, i: Input)
    requires t.Booked() && Accepts(t, w) && (w.Book? || w.Reverse?) && IsInput(t, i)
    ensures IsInput(Perform(t, command, w), i)
  {
    var u := Perform(t, command, w);
    var p, a, o :| Joins(t, p, a, o) && i == JoinedRow(t, p, a, o);
    assert Joins(u, p, a, o) && i == JoinedRow(u, p, a, o);
  }

  /** The inputs a transaction adds all carry its command's sequence number. */
  lemma BookingAddsLater(t: Tables, op: Operation, w: Write, i: Input)
    requires t.WellFormed() && t.OwnLedgers() && t.Booked() && op in t.log && Accepts(t, w) && (w.Book? || w.Reverse?)
    requires IsInput(Perform(t, op.command, w), i)
    ensures IsInput(t, i) || i.opSeq == op.opSeq
  {
    var u := Perform(t, op.command, w);
    var p, a, o :| Joins(u, p, a, o) && i == JoinedRow(u, p, a, o);
    LegsAreApart(t, w);
    if p.txn == w.txn {
      assert o == op;
    } else {
      assert Joins(t, p, a, o) && i == JoinedRow(t, p, a, o);
    }
  }

  /** A user account put over a ledger account, new or not. */
  function Over(t: Tables, account: nat, ledger: nat): Tables {
    t.(ledgers := t.ledgers + {ledger}, accounts := t.accounts[account := ledger])
  }

  /** A posting on the ledger account, of an operation up to `upTo`. */
  ghost predicate Passed(t: Tables, upTo: int, ledger: nat, p: Posting, op: Operation) {
    && p in t.postings && p.ledger == ledger && p.txn in t.headers
    && op in t.log && t.headers[p.txn].command == op.command && op.opSeq <= upTo
  }

  lemma NewAccountAdds(t: Tables, account: nat, ledger: nat, i: Input)
    requires t.Booked() && account !in t.accounts
    ensures IsInput(Over(t, account, ledger), i) && i.account != account <==> IsInput(t, i)
    ensures IsInput(Over(t, account, ledger), i) && i.account == account <==>
      exists p, op :: Passed(t, i.opSeq, ledger, p, op) && i == JoinedRow(t, p, account, op)
  {
    var u := Over(t, account, ledger);
    if IsInput(t, i) {
      var p, a, o :| Joins(t, p, a, o) && i == JoinedRow(t, p, a, o);
      assert Joins(u, p, a, o) && i == JoinedRow(u, p, a, o);
    }
    if IsInput(u, i) {
      var p, a, o :| Joins(u, p, a, o) && i == JoinedRow(u, p, a, o);
      if a != account {
        assert p.ledger in t.ledgers;
        assert Joins(t, p, a, o) && i == JoinedRow(t, p, a, o);
      } else {
        assert Passed(t, i.opSeq, ledger, p, o) && i == JoinedRow(t, p, account, o);
      }
    }
    if p, op :| Passed(t, i.opSeq, ledger, p, op) && i == JoinedRow(t, p, account, op) {
      assert Joins(u, p, account, op) && i == JoinedRow(u, p, account, op);
    }
  }

  /**
  Putting an account over a ledger account keeps the projection exactly when that ledger account has no
  posting of an operation the cursor has already passed: the next incremental run would never read it.
  */
  lemma NewAccountAgrees(t: Tables, upTo: int, model: ReadModel, account: nat, ledger: nat)
    requires t.Booked() && account !in t.accounts && Projects(t, upTo, model)
    ensures Projects(Over(t, account, ledger), upTo, model) <==> forall p, op :: !Passed(t, upTo, ledger, p, op)
  {
    var u := Over(t, account, ledger);
    forall i ensures IsInput(u, i) && i.account != account <==> IsInput(t, i) {
      NewAccountAdds(t, account, ledger, i);
    }
    if p, op :| Passed(t, upTo, ledger, p, op) {
      var i := JoinedRow(t, p, account, op);
      assert Joins(u, p, account, op) && i == JoinedRow(u, p, account, op);
      assert Projected(u, upTo, i);
      forall j | Projected(t, upTo, j) ensures j.account != account { assert IsInput(t, j); }
      assert i.Key() !in model;
    } else {
      forall i ensures Projected(u, upTo, i) <==> Projected(t, upTo, i) {
        NewAccountAdds(t, account, ledger, i);
        forall p, op | Passed(t, i.opSeq, ledger, p, op) ensures i.opSeq > upTo || i != JoinedRow(t, p, account, op) {
          assert !Passed(t, upTo, ledger, p, op);
        }
      }
    }
  }

  lemma SameInputsProject(t: Tables, u: Tables, upTo: int, model: ReadModel)
    requires Projects(t, upTo, model) && forall i :: Projected(u, upTo, i) <==> Projected(t, upTo, i)
    ensures Projects(u, upTo, model)
  {
  }

  lemma WriteProjects(t: Tables, upTo: int, model: ReadModel, op: Operation, w: Write)
    requires t.WellFormed() && t.OwnLedgers() && t.Booked() && Projects(t, upTo, model)
    requires op in t.log && op.opSeq > upTo && Accepts(t, w)
    ensures Projects(Perform(t, op.command, w), upTo, model)
  {
    var u := Perform(t, op.command, w);
    if w.CreateAccount? {
      NewAccountAgrees(t, upTo, model, w.account, w.ledger);
    } else {
      forall i ensures Projected(u, upTo, i) <==> Projected(t, upTo, i) {
        if w.EnsureSystem? {
          SystemAddsNothing(t, op.command, w, i);
        } else {
          if IsInput(t, i) { BookingKeepsInputs(t, op.command, w, i); }
          if IsInput(u, i) { BookingAddsLater(t, op, w, i); }
        }
      }
      SameInputsProject(t, u, upTo, model);
    }
  }

  lemma PerformKeepsLog(t: Tables, command: nat, w: Write)
    requires t.WellFormed() && Accepts(t, w)
    ensures Perform(t, command, w).WellFormed() && Perform(t, command, w).Head() == t.Head()
  {
    assert Perform(t, command, w).log == t.log;
  }

  /** A command's write keeps the agreement, as its row is after the cursor and its ledger accounts are its own. */
  lemma WriteAgrees(s: State, op: Operation, w: Write)
    requires Agrees(s) && op in s.tables.log && op.opSeq > s.cursor && Accepts(s.tables, w)
    ensures Agrees(s.(tables := Perform(s.tables, op.command, w)))
  {
    PerformKeepsOwnLedgers(s.tables, op.command, w);
    PerformKeepsBooked(s.tables, op, w);
    WriteProjects(s.tables, s.cursor, s.model, op, w);
    PerformKeepsLog(s.tables, op.command, w);
  }

  lemma SystemAddsNothing(t: Tables, command: nat, w: Write, i: Input)
    requires t.OwnLedgers() && w.EnsureSystem? && Accepts(t, w)
    ensures IsInput(Perform(t, command, w), i) <==> IsInput(t, i)
  {
    var u := Perform(t, command, w);
    if IsInput(t, i) {
      var p, a, o :| Joins(t, p, a, o) && i == JoinedRow(t, p, a, o);
      assert Joins(u, p, a, o) && i == JoinedRow(u, p, a, o);
    }
    if IsInput(u, i) {
      var p, a, o :| Joins(u, p, a, o) && i == JoinedRow(u, p, a, o);
      assert Joins(t, p, a, o) && i == JoinedRow(t, p, a, o);
    }
  }

  lemma {:induction false} WritesAgree(s: State, op: Operation, writes: seq<Write>)
    requires Agrees(s) && op in s.tables.log && op.opSeq > s.cursor && PerformAll(s.tables, op.command, writes).Some?
    ensures var after := PerformAll(s.tables, op.command, writes).value;
      after.log == s.tables.log && Agrees(s.(tables := after))
  {
    if writes != [] {
      var front := writes[..|writes| - 1];
      WritesAgree(s, op, front);
      var before := s.(tables := PerformAll(s.tables, op.command, front).value);
      WriteAgrees(before, op, writes[|writes| - 1]);
    }
  }

  lemma CommandAgrees(s: State, t: State, op: Operation, writes: seq<Write>)
    requires Agrees(s) && IsCommand(s, t, op, writes)
    ensures Agrees(t)
  {
    LogRowAgrees(s, op);
    var logged := s.(tables := Logged(s.tables, op));
    assert logged.tables.log[|s.tables.log|] == op;
    WritesAgree(logged, op, writes);
  }

  // ---------------------------------------------------------------------------------------------
  // Every run
  // ---------------------------------------------------------------------------------------------

  ghost predicate Step(s: State, t: State) {
    || IsRebuild(s, t)
    || IsIncremental(s, t)
    || (exists op, writes :: IsCommand(s, t, op, writes))
  }

  const EMPTY_TABLES := Tables([], map[], {}, {}, map[], map[])

  ghost predicate Run(trace: seq<State>) {
    var n := |trace| - 1;
    if n <= 0 then trace == [State(EMPTY_TABLES, map[], 0)]
    else Run(trace[..n]) && Step(trace[n - 1], trace[n])
  }

  lemma StepAgrees(s: State, t: State)
    requires Agrees(s) && Step(s, t)
    ensures Agrees(t)
  {
    if IsRebuild(s, t) {
      RebuildAgrees(s, t);
    } else if IsIncremental(s, t) {
      IncrementalAgrees(s, t);
    } else {
      var op, writes :| IsCommand(s, t, op, writes);
      CommandAgrees(s, t, op, writes);
    }
  }

  /** After any interleaving, the model is the projection of the inputs up to the cursor. */
  lemma {:induction false} RunsAgree(trace: seq<State>)
    requires Run(trace)
    ensures Agrees(trace[|trace| - 1])
  {
    var n := |trace| - 1;
    if n > 0 {
      RunsAgree(trace[..n]);
      StepAgrees(trace[n - 1], trace[n]);
    }
  }

  /** No transaction posts twice to one account: its legs are on different ledger accounts, each with one owner. */
  lemma OneInputPerKey(t: Tables, i: Input, j: Input)
    requires t.WellFormed() && t.OwnLedgers() && t.Booked()
    requires IsInput(t, i) && IsInput(t, j) && i.Key() == j.Key()
    ensures i == j
  {
    var p, a, o :| Joins(t, p, a, o) && i == JoinedRow(t, p, a, o);
    var q, b, m :| Joins(t, q, b, m) && j == JoinedRow(t, q, b, m);
    assert o.command == m.command;
  }

  ghost predicate OnePostingPerKey(t: Tables) {
    forall i, j :: IsInput(t, i) && IsInput(t, j) && i.Key() == j.Key() ==> i == j
  }

  lemma NeverPostsTwice(t: Tables)
    requires t.WellFormed() && t.OwnLedgers() && t.Booked()
    ensures OnePostingPerKey(t)
  {
    forall i, j | IsInput(t, i) && IsInput(t, j) && i.Key() == j.Key() ensures i == j { OneInputPerKey(t, i, j); }
  }

  lemma SameRow(t: Tables, upTo: int, a: ReadModel, b: ReadModel, k: (nat, nat))
    requires OnePostingPerKey(t) && Projects(t, upTo, a) && Projects(t, upTo, b) && k in a
    ensures k in b && a[k] == b[k]
  {
    var i :| Projected(t, upTo, i) && i.Readable() && i.Key() == k && a[k] == Display(i);
    assert k in b;
    var j :| Projected(t, upTo, j) && j.Readable() && j.Key() == k && b[k] == Display(j);
    assert i == j;
  }

  lemma ModelIsDetermined(t: Tables, upTo: int, a: ReadModel, b: ReadModel)
    requires OnePostingPerKey(t) && Projects(t, upTo, a) && Projects(t, upTo, b)
    ensures a == b
  {
    forall k | k in a ensures k in b && a[k] == b[k] { SameRow(t, upTo, a, b, k); }
    forall k | k in b ensures k in a { SameRow(t, upTo, b, a, k); }
    assert a.Keys == b.Keys;
  }

  /** After any run, one more incremental projection gives what a full rebuild gives. */
  lemma IncrementalIsRebuild(trace: seq<State>, incremental: State, rebuilt: State)
    requires Run(trace)
    requires IsIncremental(trace[|trace| - 1], incremental) && IsRebuild(trace[|trace| - 1], rebuilt)
    ensures incremental == rebuilt
  {
    var s := trace[|trace| - 1];
    RunsAgree(trace);
    IncrementalAgrees(s, incremental);
    RebuildAgrees(s, rebuilt);
    NeverPostsTwice(s.tables);
    ModelIsDetermined(s.tables, s.tables.Head(), incremental.model, rebuilt.model);
  }

  /** What was projected could be read. */
  lemma ProjectedIsReadable(s: State, i: Input)
    requires Agrees(s) && Projected(s.tables, s.cursor, i)
    ensures i.Readable()
  {
    assert i.Key() in s.model;
    var j :| Projected(s.tables, s.cursor, j) && j.Readable() && j.Key() == i.Key() && s.model[i.Key()] == Display(j);
    OneInputPerKey(s.tables, i, j);
  }

  /** After any run an incremental projection succeeds exactly when a full rebuild does. */
  lemma IncrementalSucceedsIffRebuildDoes(trace: seq<State>, all: seq<Input>, rest: seq<Input>)
    requires Run(trace)
    requires Selects(trace[|trace| - 1].tables, None, all)
    requires Selects(trace[|trace| - 1].tables, Some(trace[|trace| - 1].cursor), rest)
    ensures Readable(rest) <==> Readable(all)
  {
    var s := trace[|trace| - 1];
    RunsAgree(trace);
    if Readable(rest) {
      forall i: Input | i in all ensures i.Readable() {
        if i.opSeq > s.cursor { assert i in rest; } else { ProjectedIsReadable(s, i); }
      }
    }
    if Readable(all) {
      forall i: Input | i in rest ensures i.Readable() { assert i in all; }
    }
  }

  // ---------------------------------------------------------------------------------------------
  // What the display shows, by the tables alone
  // ---------------------------------------------------------------------------------------------

  /** `p` is posted on the ledger account of the user account, by the logged operation `op`. */
  ghost predicate PostedOn(t: Tables, p: Posting, account: nat, op: Operation) {
    && p in t.postings && account in t.accounts && p.ledger == t.accounts[account]
    && p.txn in t.headers && op in t.log && op.command == t.headers[p.txn].command
  }

  /** The row shows that posting, not yet categorized and to be reviewed. */
  ghost predicate Shows(t: Tables, row: DisplayRow, p: Posting, account: nat, op: Operation)
    requires p.txn in t.headers
  {
    && row.txn == p.txn && row.account == account
    && row.minorUnits == p.minorUnits && Some(row.currency) == p.currency
    && Some(row.occurredAt) == t.headers[p.txn].occurredAt && row.lastProjected == op.opSeq
    && row.merchant.None? && row.category.None? && row.confidence == 0 && row.source == Uncategorized
    && row.recurringEvent.None? && row.review == NeedsReview
  }

  /** After every run each entry of the read model shows a posting of its transaction on its account. */
  lemma EntriesShowPostings(trace: seq<State>, k: (nat, nat)) returns (p: Posting, op: Operation)
    requires Run(trace) && k in trace[|trace| - 1].model
    ensures var s := trace[|trace| - 1];
      && PostedOn(s.tables, p, k.1, op) && p.txn == k.0 && op.opSeq <= s.cursor
      && Shows(s.tables, s.model[k], p, k.1, op)
  {
    var s := trace[|trace| - 1];
    RunsAgree(trace);
    var i :| Projected(s.tables, s.cursor, i) && i.Readable() && i.Key() == k && s.model[k] == Display(i);
    var q, a, o :| Joins(s.tables, q, a, o) && i == JoinedRow(s.tables, q, a, o);
    p, op := q, o;
  }

  /** And each posting on a user account, up to the cursor, is shown by the entry of its transaction and account. */
  lemma PostingsAreShown(trace: seq<State>, p: Posting, account: nat, op: Operation)
    requires Run(trace)
    requires PostedOn(trace[|trace| - 1].tables, p, account, op) && op.opSeq <= trace[|trace| - 1].cursor
    ensures var s := trace[|trace| - 1];
      (p.txn, account) in s.model && Shows(s.tables, s.model[(p.txn, account)], p, account, op)
  {
    var s := trace[|trace| - 1];
    RunsAgree(trace);
    var i := JoinedRow(s.tables, p, account, op);
    assert Joins(s.tables, p, account, op);
    assert Projected(s.tables, s.cursor, i);
    var q, o := EntriesShowPostings(trace, (p.txn, account));
    assert q == p && o.command == op.command;
  }

  /** Once projected or rebuilt, nothing in the log is past the cursor: every posting on a user account is shown. */
  lemma ProjectedShowsEverything(trace: seq<State>, p: Posting, account: nat, op: Operation)
    requires Run(trace) && |trace| > 1
    requires IsIncremental(trace[|trace| - 2], trace[|trace| - 1]) || IsRebuild(trace[|trace| - 2], trace[|trace| - 1])
    requires PostedOn(trace[|trace| - 1].tables, p, account, op)
    ensures var s := trace[|trace| - 1];
      (p.txn, account) in s.model && Shows(s.tables, s.model[(p.txn, account)], p, account, op)
  {
    var s := trace[|trace| - 1];
    RunsAgree(trace);
    HeadIsGreatest(s.tables, op);
    PostingsAreShown(trace, p, account, op);
  }

  /** A run leaves the cursor at the last log row, or at 0 when there is none. */
  lemma CursorReachesTheEnd(s: State, t: State)
    requires IsIncremental(s, t) || IsRebuild(s, t)
    ensures t.tables == s.tables
    ensures s.tables.log == [] ==> t.cursor == 0
    ensures s.tables.log != [] ==> t.cursor == s.tables.log[|s.tables.log| - 1].opSeq
  {
  }

  /** Projecting again with nothing new in the log changes nothing. */
  lemma IncrementalIsIdempotent(s: State, t: State)
    requires Agrees(s) && s.cursor == s.tables.Head() && IsIncremental(s, t)
    ensures t == s
  {
    var rows :| Selects(s.tables, Some(s.cursor), rows) && Readable(rows)
      && t == State(s.tables, WriteAll(s.model, rows), s.tables.Head());
    if rows != [] {
      InputsAreLogged(s.tables, rows[0]);
      assert rows[0] in rows;
    }
  }

  // ---------------------------------------------------------------------------------------------
  // The store
  // ---------------------------------------------------------------------------------------------

  datatype Error = BadStoredValue

  class ReadModelStore {
    var tables: Tables
    var model: ReadModel
    /** `last_applied_op_seq`; the cursor row is absent before the first projection. */
    var cursorRow: Option<int>

    function Cursor(): int
      reads this
    {
      if cursorRow.Some? then cursorRow.value else 0
    }

    function View(): State
      reads this
    {
      State(tables, model, Cursor())
    }

    constructor (t: Tables)
      ensures View() == State(t, map[], 0)
    {
      tables, model, cursorRow := t, map[], None;
    }

    /** `write_row` for each of `rows`. */
    method WriteRows(rows: seq<Input>)
      requires Readable(rows)
      modifies this`model
      ensures model == WriteAll(old(model), rows)
    {
      for n := 0 to |rows|
        invariant model == WriteAll(old(model), rows[..n])
      {
        model := model[rows[n].Key() := Display(rows[n])];
        assert rows[..n + 1][..n] == rows[..n];
      }
      assert rows[..|rows|] == rows;
    }

    /** Whether every stored value of `rows` parses. */
    method AllReadable(rows: seq<Input>) returns (ok: bool)
      ensures ok <==> Readable(rows)
    {
      for n := 0 to |rows|
        invariant Readable(rows[..n])
      {
        if !rows[n].Readable() {
          assert rows[n] in rows;
          return false;
        }
        assert rows[..n + 1] == rows[..n] + [rows[n]];
      }
      assert rows[..|rows|] == rows;
      return true;
    }

    /** `rebuild`, in one database transaction; `rows` is what its query returns. */
    method Rebuild(rows: seq<Input>) returns (r: Result<nat, Error>)
      requires Selects(tables, None, rows)
      modifies this
      ensures r.Ok? <==> Readable(rows)
      ensures r.Ok? ==> r.value == |rows| && IsRebuild(old(View()), View())
      ensures r.Err? ==> View() == old(View())
    {
      var ok := AllReadable(rows);
      if !ok {
        return Err(BadStoredValue);
      }
      model := map[];
      WriteRows(rows);
      cursorRow := Some(tables.Head());
      return Ok(|rows|);
    }

    /** `incremental`. */
    method Incremental(rows: seq<Input>) returns (r: Result<nat, Error>)
      requires Selects(tables, Some(Cursor()), rows)
      modifies this
      ensures r.Ok? <==> Readable(rows)
      ensures r.Ok? ==> r.value == |rows| && IsIncremental(old(View()), View())
      ensures r.Err? ==> View() == old(View())
    {
      var ok := AllReadable(rows);
      if !ok {
        return Err(BadStoredValue);
      }
      WriteRows(rows);
      cursorRow := Some(tables.Head());
      return Ok(|rows|);
    }
  }
}
