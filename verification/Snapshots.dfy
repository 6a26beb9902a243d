/**
The content-addressed forecast inputs of crates/db-worker/src/forecast_persist.rs: the canonical JSON of
the tables, the text that is hashed, the capture of a snapshot, and the balances of a run's rows.
*/
module Snapshots {
  import opened Bits
  import opened Common
  import opened DatesAndIds
  import opened Integers
  import opened Json
  import opened Ordering

  datatype RecurringRow = RecurringRow(id: Uuid, name: string, amount: int, currency: string, frequency: string,
                                       nextDate: Option<string>, billType: Option<string>, loan: Option<Uuid>)

  datatype IncomeRow = IncomeRow(id: Uuid, name: string, net: int, currency: string, frequency: string, anchor: string)

  datatype AssumptionRow = AssumptionRow(id: Uuid, kind: string, targetType: Option<string>, targetId: Option<Uuid>,
                                         params: string, source: string)

  /** What `gather_inputs` reads, each table in order of id. */
  datatype Inputs = Inputs(opSeq: int, timezone: string, recurring: seq<RecurringRow>, income: seq<IncomeRow>,
                           assumptions: seq<AssumptionRow>)

  // ---------------------------------------------------------------------------------------------
  // Canonical texts
  // ---------------------------------------------------------------------------------------------

  function IdText(id: Uuid): Scalar { Text(UuidText(id)) }

  /** `json_opt`. */
  function OptText(s: Option<string>): Scalar { match s case Some(t) => Text(t) case None => Null }

  function OptId(id: Option<Uuid>): Scalar { match id case Some(u) => IdText(u) case None => Null }

  /** The link to a loan is written only when there is one. */
  function RecurringFields(r: RecurringRow): seq<Field> {
    [Field("id", IdText(r.id)), Field("name", Text(r.name)), Field("amount_expected_minor", Int(r.amount)),
     Field("currency", Text(r.currency)), Field("frequency", Text(r.frequency)),
     Field("next_expected_date", OptText(r.nextDate)), Field("bill_type", OptText(r.billType))]
    + (match r.loan case Some(loan) => [Field("linked_loan_account_id", IdText(loan))] case None => [])
  }

  function IncomeFields(r: IncomeRow): seq<Field> {
    [Field("id", IdText(r.id)), Field("name", Text(r.name)), Field("net_minor_units", Int(r.net)),
     Field("currency", Text(r.currency)), Field("frequency", Text(r.frequency)), Field("anchor_date", Text(r.anchor))]
  }

  function AssumptionFields(r: AssumptionRow): seq<Field> {
    [Field("id", IdText(r.id)), Field("kind", Text(r.kind)), Field("target_entity_type", OptText(r.targetType)),
     Field("target_entity_id", OptId(r.targetId)), Field("params_json", Text(r.params)),
     Field("source", Text(r.source))]
  }

  function RecurringText(rows: seq<RecurringRow>): string { ArrayText(Map(RecurringFields, rows)) }

  function IncomeText(rows: seq<IncomeRow>): string { ArrayText(Map(IncomeFields, rows)) }

  function AssumptionsText(rows: seq<AssumptionRow>): string { ArrayText(Map(AssumptionFields, rows)) }

  lemma ItemsOfOneMore<T>(fieldsOf: T -> seq<Field>, front: seq<T>, row: T)
    ensures ItemsText(Map(fieldsOf, front + [row]))
      == if front == [] then Render(fieldsOf(row)) else ItemsText(Map(fieldsOf, front)) + "," + Render(fieldsOf(row))
  {
    assert Map(fieldsOf, front + [row]) == Map(fieldsOf, front) + [fieldsOf(row)];
    ItemsPush(Map(fieldsOf, front), fieldsOf(row));
  }

  /** The loop the three canonical writers share: an object text per row, then one join. */
  method CanonicalArray<T>(rows: seq<T>, fieldsOf: T -> seq<Field>) returns (out: string)
    ensures out == ArrayText(Map(fieldsOf, rows))
  {
    var items := "";
    for n := 0 to |rows|
      invariant items == ItemsText(Map(fieldsOf, rows[..n]))
    {
      ItemsOfOneMore(fieldsOf, rows[..n], rows[n]);
      assert rows[..n + 1] == rows[..n] + [rows[n]];
      var item := Render(fieldsOf(rows[n]));
      items := if n == 0 then item else items + "," + item;
    }
    assert rows[..|rows|] == rows;
    out := "[" + items + "]";
  }

  /** The text whose hash addresses a snapshot. */
  function Basis(i: Inputs): string {
    "op_seq=" + IntText(i.opSeq) + "\ntz=" + i.timezone + "\nrecurring=" + RecurringText(i.recurring)
    + "\nincome=" + IncomeText(i.income) + "\nassumptions=" + AssumptionsText(i.assumptions) + "\nscenarios=[]"
  }

  // ---------------------------------------------------------------------------------------------
  // No two inputs share a text
  // ---------------------------------------------------------------------------------------------

  lemma Names()
    ensures PlainKey("id") && PlainKey("name") && PlainKey("amount_expected_minor") && PlainKey("currency")
    ensures PlainKey("frequency") && PlainKey("next_expected_date") && PlainKey("bill_type")
      && PlainKey("linked_loan_account_id")
    ensures PlainKey("net_minor_units") && PlainKey("anchor_date") && PlainKey("kind") && PlainKey("target_entity_type")
    ensures PlainKey("target_entity_id") && PlainKey("params_json") && PlainKey("source")
  {
  }

  lemma RecurringArePlain(rows: seq<RecurringRow>)
    ensures AllPlain(Map(RecurringFields, rows))
  {
    forall r ensures PlainKeys(RecurringFields(r)) { Names(); }
    forall i | 0 <= i < |rows| ensures PlainKeys(Map(RecurringFields, rows)[i]) {
      assert PlainKeys(RecurringFields(rows[i]));
    }
  }

  lemma IncomeArePlain(rows: seq<IncomeRow>)
    ensures AllPlain(Map(IncomeFields, rows))
  {
    forall r ensures PlainKeys(IncomeFields(r)) { Names(); }
    forall i | 0 <= i < |rows| ensures PlainKeys(Map(IncomeFields, rows)[i]) {
      assert PlainKeys(IncomeFields(rows[i]));
    }
  }

  lemma AssumptionsArePlain(rows: seq<AssumptionRow>)
    ensures AllPlain(Map(AssumptionFields, rows))
  {
    forall r ensures PlainKeys(AssumptionFields(r)) { Names(); }
    forall i | 0 <= i < |rows| ensures PlainKeys(Map(AssumptionFields, rows)[i]) {
      assert PlainKeys(AssumptionFields(rows[i]));
    }
  }

  lemma IdsDiffer(a: Uuid, b: Uuid)
    requires UuidText(a) == UuidText(b)
    ensures a == b
  {
    UuidReads(a);
    UuidReads(b);
  }

  lemma RecurringRowsDiffer(a: RecurringRow, b: RecurringRow)
    requires RecurringFields(a) == RecurringFields(b)
    ensures a == b
  {
    var f, g := RecurringFields(a), RecurringFields(b);
    assert f[0] == g[0] && f[1] == g[1] && f[2] == g[2] && f[3] == g[3] && f[4] == g[4] && f[5] == g[5] && f[6] == g[6];
    IdsDiffer(a.id, b.id);
    assert |f| == |g|;
    if a.loan.Some? {
      assert f[7] == g[7];
      IdsDiffer(a.loan.value, b.loan.value);
    }
  }

  lemma IncomeRowsDiffer(a: IncomeRow, b: IncomeRow)
    requires IncomeFields(a) == IncomeFields(b)
    ensures a == b
  {
    var f, g := IncomeFields(a), IncomeFields(b);
    assert f[0] == g[0] && f[1] == g[1] && f[2] == g[2] && f[3] == g[3] && f[4] == g[4] && f[5] == g[5];
    IdsDiffer(a.id, b.id);
  }

  lemma AssumptionRowsDiffer(a: AssumptionRow, b: AssumptionRow)
    requires AssumptionFields(a) == AssumptionFields(b)
    ensures a == b
  {
    var f, g := AssumptionFields(a), AssumptionFields(b);
    assert f[0] == g[0] && f[1] == g[1] && f[2] == g[2] && f[3] == g[3] && f[4] == g[4] && f[5] == g[5];
    IdsDiffer(a.id, b.id);
    if a.targetId.Some? { IdsDiffer(a.targetId.value, b.targetId.value); }
  }

  lemma MapIsInjective<T(!new)>(f: T -> seq<Field>, a: seq<T>, b: seq<T>)
    requires forall x, y :: f(x) == f(y) ==> x == y
    requires Map(f, a) == Map(f, b)
    ensures a == b
  {
    assert |Map(f, a)| == |Map(f, b)|;
    forall i | 0 <= i < |a| ensures a[i] == b[i] {
      assert Map(f, a)[i] == Map(f, b)[i];
    }
  }

  lemma RecurringTextIsInjective(a: seq<RecurringRow>, b: seq<RecurringRow>)
    requires RecurringText(a) == RecurringText(b)
    ensures a == b
  {
    RecurringArePlain(a);
    RecurringArePlain(b);
    ArrayTextIsInjective(Map(RecurringFields, a), Map(RecurringFields, b));
    forall x, y | RecurringFields(x) == RecurringFields(y) ensures x == y { RecurringRowsDiffer(x, y); }
    MapIsInjective(RecurringFields, a, b);
  }

  lemma IncomeTextIsInjective(a: seq<IncomeRow>, b: seq<IncomeRow>)
    requires IncomeText(a) == IncomeText(b)
    ensures a == b
  {
    IncomeArePlain(a);
    IncomeArePlain(b);
    ArrayTextIsInjective(Map(IncomeFields, a), Map(IncomeFields, b));
    forall x, y | IncomeFields(x) == IncomeFields(y) ensures x == y { IncomeRowsDiffer(x, y); }
    MapIsInjective(IncomeFields, a, b);
  }

  lemma AssumptionsTextIsInjective(a: seq<AssumptionRow>, b: seq<AssumptionRow>)
    requires AssumptionsText(a) == AssumptionsText(b)
    ensures a == b
  {
    AssumptionsArePlain(a);
    AssumptionsArePlain(b);
    ArrayTextIsInjective(Map(AssumptionFields, a), Map(AssumptionFields, b));
    forall x, y | AssumptionFields(x) == AssumptionFields(y) ensures x == y { AssumptionRowsDiffer(x, y); }
    MapIsInjective(AssumptionFields, a, b);
  }

  lemma NoBreakAfter(a: string, b: string, k: nat)
    requires OneLine(b) && |a| < k < |a + "\n" + b|
    ensures (a + "\n" + b)[k] != '\n'
  {
    assert (a + "\n" + b)[k] == b[k - |a| - 1];
  }

  lemma NoBreakBefore(a: string, b: string, k: nat)
    requires OneLine(a) && k < |a|
    ensures (a + "\n" + b)[k] != '\n'
  {
    assert (a + "\n" + b)[k] == a[k];
  }

  lemma SplitAtBreak(a: string, b: string, c: string, d: string)
    requires a + "\n" + b == c + "\n" + d && |a| == |c|
    ensures a == c && b == d
  {
    var s := a + "\n" + b;
    assert a == s[..|a|] && c == s[..|c|] && b == s[|a| + 1..] && d == s[|c| + 1..];
  }

  /** Two texts that end in a line of their own agree in it and before it. */
  lemma LastLine(a: string, b: string, c: string, d: string)
    requires a + "\n" + b == c + "\n" + d && OneLine(b) && OneLine(d)
    ensures a == c && b == d
  {
    var s := a + "\n" + b;
    assert s[|a|] == '\n' && (c + "\n" + d)[|c|] == '\n';
    forall k | |a| < k < |s| ensures s[k] != '\n' { NoBreakAfter(a, b, k); }
    forall k | |c| < k < |s| ensures s[k] != '\n' { NoBreakAfter(c, d, k); }
    assert |a| == |c|;
    SplitAtBreak(a, b, c, d);
  }

  lemma FirstLine(a: string, b: string, c: string, d: string)
    requires a + "\n" + b == c + "\n" + d && OneLine(a) && OneLine(c)
    ensures a == c && b == d
  {
    var s := a + "\n" + b;
    assert s[|a|] == '\n' && (c + "\n" + d)[|c|] == '\n';
    forall k | 0 <= k < |a| ensures s[k] != '\n' { NoBreakBefore(a, b, k); }
    forall k | 0 <= k < |c| ensures s[k] != '\n' { NoBreakBefore(c, d, k); }
    assert |a| == |c|;
    SplitAtBreak(a, b, c, d);
  }

  lemma PrefixedLine(prefix: string, a: string, b: string)
    requires prefix + a == prefix + b
    ensures a == b
  {
    assert a == (prefix + a)[|prefix|..] && b == (prefix + b)[|prefix|..];
  }

  lemma LineOf(prefix: string, text: string)
    requires OneLine(prefix) && OneLine(text)
    ensures OneLine(prefix + text)
  {
    OneLineJoins(prefix, text);
  }

  /** The basis as lines. */
  function Head(i: Inputs): string { "op_seq=" + IntText(i.opSeq) + "\n" + ("tz=" + i.timezone) }

  function UpToRecurring(i: Inputs): string { Head(i) + "\n" + ("recurring=" + RecurringText(i.recurring)) }

  function UpToIncome(i: Inputs): string { UpToRecurring(i) + "\n" + ("income=" + IncomeText(i.income)) }

  function UpToAssumptions(i: Inputs): string {
    UpToIncome(i) + "\n" + ("assumptions=" + AssumptionsText(i.assumptions))
  }

  lemma LineJoins(head: string, name: string, broken: string, text: string)
    requires broken == "\n" + name
    ensures head + "\n" + (name + text) == head + broken + text
  {
  }

  lemma Breaks()
    ensures "\ntz=" == "\n" + "tz=" && "\nrecurring=" == "\n" + "recurring="
    ensures "\nincome=" == "\n" + "income=" && "\nassumptions=" == "\n" + "assumptions="
  {
  }

  lemma BasisInLines(i: Inputs)
    ensures Basis(i) == UpToAssumptions(i) + "\nscenarios=[]"
  {
    Breaks();
    LineJoins("op_seq=" + IntText(i.opSeq), "tz=", "\ntz=", i.timezone);
    LineJoins(Head(i), "recurring=", "\nrecurring=", RecurringText(i.recurring));
    LineJoins(UpToRecurring(i), "income=", "\nincome=", IncomeText(i.income));
    LineJoins(UpToIncome(i), "assumptions=", "\nassumptions=", AssumptionsText(i.assumptions));
  }

  lemma RecurringIsALine(rows: seq<RecurringRow>)
    ensures OneLine("recurring=" + RecurringText(rows))
  {
    RecurringArePlain(rows);
    ArrayIsOneLine(Map(RecurringFields, rows));
    LineOf("recurring=", RecurringText(rows));
  }

  lemma IncomeIsALine(rows: seq<IncomeRow>)
    ensures OneLine("income=" + IncomeText(rows))
  {
    IncomeArePlain(rows);
    ArrayIsOneLine(Map(IncomeFields, rows));
    LineOf("income=", IncomeText(rows));
  }

  lemma AssumptionsAreALine(rows: seq<AssumptionRow>)
    ensures OneLine("assumptions=" + AssumptionsText(rows))
  {
    AssumptionsArePlain(rows);
    ArrayIsOneLine(Map(AssumptionFields, rows));
    LineOf("assumptions=", AssumptionsText(rows));
  }

  lemma OpSeqIsALine(opSeq: int)
    ensures OneLine("op_seq=" + IntText(opSeq))
  {
    LineOf("op_seq=", IntText(opSeq));
  }

  lemma LinesAreLines(i: Inputs)
    ensures OneLine("recurring=" + RecurringText(i.recurring)) && OneLine("income=" + IncomeText(i.income))
    ensures OneLine("assumptions=" + AssumptionsText(i.assumptions)) && OneLine("op_seq=" + IntText(i.opSeq))
  {
    RecurringIsALine(i.recurring);
    IncomeIsALine(i.income);
    AssumptionsAreALine(i.assumptions);
    OpSeqIsALine(i.opSeq);
  }

  lemma {:induction false} IntTextIsInjective(a: int, b: int)
    requires IntText(a) == IntText(b)
    ensures a == b
  {
    IntReads(a, ",");
    IntReads(b, ",");
  }

  lemma HeadIsInjective(a: Inputs, b: Inputs)
    requires Head(a) == Head(b)
    ensures a.opSeq == b.opSeq && a.timezone == b.timezone
  {
    LinesAreLines(a);
    LinesAreLines(b);
    FirstLine("op_seq=" + IntText(a.opSeq), "tz=" + a.timezone, "op_seq=" + IntText(b.opSeq), "tz=" + b.timezone);
    PrefixedLine("op_seq=", IntText(a.opSeq), IntText(b.opSeq));
    PrefixedLine("tz=", a.timezone, b.timezone);
    IntTextIsInjective(a.opSeq, b.opSeq);
  }

  lemma LinesMatch(a: Inputs, b: Inputs)
    requires UpToAssumptions(a) == UpToAssumptions(b)
    ensures Head(a) == Head(b) && RecurringText(a.recurring) == RecurringText(b.recurring)
    ensures IncomeText(a.income) == IncomeText(b.income)
      && AssumptionsText(a.assumptions) == AssumptionsText(b.assumptions)
  {
    LinesAreLines(a);
    LinesAreLines(b);
    LastLine(UpToIncome(a), "assumptions=" + AssumptionsText(a.assumptions), UpToIncome(b),
             "assumptions=" + AssumptionsText(b.assumptions));
    LastLine(UpToRecurring(a), "income=" + IncomeText(a.income), UpToRecurring(b), "income=" + IncomeText(b.income));
    LastLine(Head(a), "recurring=" + RecurringText(a.recurring), Head(b), "recurring=" + RecurringText(b.recurring));
    PrefixedLine("assumptions=", AssumptionsText(a.assumptions), AssumptionsText(b.assumptions));
    PrefixedLine("income=", IncomeText(a.income), IncomeText(b.income));
    PrefixedLine("recurring=", RecurringText(a.recurring), RecurringText(b.recurring));
  }

  lemma SuffixedText(a: string, b: string, suffix: string)
    requires a + suffix == b + suffix
    ensures a == b
  {
    assert |a| == |b|;
    assert a == (a + suffix)[..|a|] && b == (b + suffix)[..|b|];
  }

  /** The hashed text tells any two inputs apart, whatever names, time zone or labels they hold. */
  lemma BasisIsInjective(a: Inputs, b: Inputs)
    requires Basis(a) == Basis(b)
    ensures a == b
  {
    BasisInLines(a);
    BasisInLines(b);
    SuffixedText(UpToAssumptions(a), UpToAssumptions(b), "\nscenarios=[]");
    LinesMatch(a, b);
    HeadIsInjective(a, b);
    RecurringTextIsInjective(a.recurring, b.recurring);
    IncomeTextIsInjective(a.income, b.income);
    AssumptionsTextIsInjective(a.assumptions, b.assumptions);
  }

  // ---------------------------------------------------------------------------------------------
  // Capturing a snapshot
  // ---------------------------------------------------------------------------------------------

  /** The content hash, as an injective function of the text. */
  datatype Hash = Sha256(of: string)

  datatype Snapshot = Snapshot(id: nat, hash: Hash)

  class SnapshotStore {
    /** The rows of `forecast_input_snapshots`, oldest first. */
    var snapshots: seq<Snapshot>
    /** The inputs each was captured from; only the proofs look at them. */
    ghost var captured: seq<Inputs>

    ghost predicate Valid()
      reads this
    {
      && |captured| == |snapshots|
      && (forall i :: 0 <= i < |snapshots| ==> snapshots[i].hash == Sha256(Basis(captured[i])))
      && (forall i, j :: 0 <= i < j < |captured| ==> captured[i] != captured[j])
    }

    constructor ()
      ensures Valid() && snapshots == []
    {
      snapshots, captured := [], [];
    }

    /** `capture_snapshot`: the snapshot of these very inputs if there is one, and only then; else a new row. */
    method CaptureSnapshot(inputs: Inputs, newId: nat) returns (id: nat)
      requires Valid()
      modifies this
      ensures Valid()
      ensures inputs in old(captured) ==> snapshots == old(snapshots) && captured == old(captured)
      ensures inputs in old(captured) ==>
        exists k :: 0 <= k < |snapshots| && captured[k] == inputs && id == snapshots[k].id
      ensures inputs !in old(captured) ==>
        id == newId && snapshots == old(snapshots) + [Snapshot(newId, Sha256(Basis(inputs)))]
          && captured == old(captured) + [inputs]
    {
      var hash := Sha256(Basis(inputs));
      if k :| 0 <= k < |snapshots| && snapshots[k].hash == hash {
        BasisIsInjective(captured[k], inputs);
        return snapshots[k].id;
      }
      forall k | 0 <= k < |captured| ensures captured[k] != inputs { assert snapshots[k].hash != hash; }
      snapshots, captured := snapshots + [Snapshot(newId, hash)], captured + [inputs];
      return newId;
    }
  }

  // ---------------------------------------------------------------------------------------------
  // The rows of a run
  // ---------------------------------------------------------------------------------------------

  datatype RunError = BalanceOverflow

  function Sum(amounts: seq<i64>): int {
    if amounts == [] then 0 else Sum(amounts[..|amounts| - 1]) + amounts[|amounts| - 1]
  }

  /** The sum of a list is that of its pieces, and of one amount that amount. */
  lemma {:induction false} SumJoins(a: seq<i64>, b: seq<i64>)
    ensures Sum(a + b) == Sum(a) + Sum(b)
    ensures |b| == 1 ==> Sum(b) == b[0]
  {
    if b == [] {
      assert a + b == a;
    } else {
      var n := |b| - 1;
      SumJoins(a, b[..n]);
      assert (a + b)[..|a| + n] == a + b[..n];
    }
  }

  /** The loop of `persist_run_and_rows`: each row carries the balance after it; none is written past 64 bits. */
  method RunningBalances(starting: i64, amounts: seq<i64>) returns (r: Result<seq<i64>, RunError>)
    ensures r.Ok? ==> |r.value| == |amounts| + 1
    ensures r.Ok? ==> forall k :: 0 <= k <= |amounts| ==> r.value[k] == starting + Sum(amounts[..k])
    ensures r.Err? <==> exists k :: 0 <= k <= |amounts| && !IsI64(starting + Sum(amounts[..k]))
  {
    var rows: seq<i64> := [starting];
    var running := starting;
    for n := 0 to |amounts|
      invariant |rows| == n + 1 && running == rows[n]
      invariant forall k :: 0 <= k <= n ==> rows[k] == starting + Sum(amounts[..k])
    {
      assert amounts[..n + 1][..n] == amounts[..n];
      var next: int := running + amounts[n];
      assert next == starting + Sum(amounts[..n + 1]);
      if !IsI64(next) {
        return Err(BalanceOverflow);
      }
      running := next;
      rows := rows + [running];
    }
    return Ok(rows);
  }
}
