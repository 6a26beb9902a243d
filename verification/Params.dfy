/**
The parameters of forecast assumptions, written by hand and read back:
crates/db-worker/src/forecast_events.rs, manual_entry.rs, recurring_debt.rs and forecast_overrides.rs.
*/
module AssumptionParameters {
  import opened Bits
  import opened CivilDate
  import opened Common
  import opened DatesAndIds
  import opened Integers
  import opened Json
  import opened MoneyArithmetic

  datatype AssumptionParams =
    | OneTimeEvent(amount: Money, date: NaiveDate, name: string)
    | IncomeAmount(newAmount: i64, effective: Option<NaiveDate>, end: Option<NaiveDate>)
    | BillAmount(newAmount: i64, effective: Option<NaiveDate>, end: Option<NaiveDate>)
    | IncomeDate(newAnchor: NaiveDate)
    | BillDate(newAnchor: NaiveDate)
    | Exclusion(effective: Option<NaiveDate>)
    | RecurringDebtPayment(amount: Money, anchor: NaiveDate, end: Option<NaiveDate>, name: string)
    | VariableSpendOverride(delta: i64, effective: Option<NaiveDate>, end: Option<NaiveDate>)

  datatype Kind = OneTimeEventKind | IncomeAmountKind | BillAmountKind | IncomeDateKind | BillDateKind
    | ExclusionKind | RecurringDebtPaymentKind | VariableSpendOverrideKind

  function KindOf(p: AssumptionParams): Kind {
    match p
    case OneTimeEvent(_, _, _) => OneTimeEventKind
    case IncomeAmount(_, _, _) => IncomeAmountKind
    case BillAmount(_, _, _) => BillAmountKind
    case IncomeDate(_) => IncomeDateKind
    case BillDate(_) => BillDateKind
    case Exclusion(_) => ExclusionKind
    case RecurringDebtPayment(_, _, _, _) => RecurringDebtPaymentKind
    case VariableSpendOverride(_, _, _) => VariableSpendOverrideKind
  }

  function Code(c: Currency): string { match c case Usd => "USD" case Eur => "EUR" }

  /** `currency_from_code`. */
  function FromCode(code: string): Option<Currency> {
    if code == "USD" then Some(Usd) else if code == "EUR" then Some(Eur) else None
  }

  // ---------------------------------------------------------------------------------------------
  // The writers
  // ---------------------------------------------------------------------------------------------

  function DateField(key: string, d: NaiveDate): Field { Field(key, Text(DateText(d))) }

  function OptDateField(key: string, d: Option<NaiveDate>): seq<Field> {
    match d case Some(date) => [DateField(key, date)] case None => []
  }

  /** The four fields manual entries and debt payments share but for the name of one. */
  function BaseFields(dateKey: string, amount: Money, date: NaiveDate, name: string): seq<Field> {
    [Field("amount_minor", Int(amount.minorUnits)), Field("currency", Text(Code(amount.currency))),
     DateField(dateKey, date), Field("label", Text(name))]
  }

  function AccountFields(account: Option<Uuid>): seq<Field> {
    match account case Some(id) => [Field("account_id", Text(UuidText(id)))] case None => []
  }

  function ManualFields(amount: Money, date: NaiveDate, name: string, account: Option<Uuid>): seq<Field> {
    BaseFields("date", amount, date, name) + AccountFields(account)
  }

  function DebtFields(amount: Money, anchor: NaiveDate, end: Option<NaiveDate>, name: string): seq<Field> {
    BaseFields("anchor_date", amount, anchor, name) + OptDateField("end_date", end)
  }

  function WindowFields(key: string, n: i64, effective: Option<NaiveDate>, end: Option<NaiveDate>): seq<Field> {
    [Field(key, Int(n))] + OptDateField("effective_date", effective) + OptDateField("end_date", end)
  }

  /** The fields of each kind, in the order they are written. */
  function FieldsOf(p: AssumptionParams): seq<Field> {
    match p
    case OneTimeEvent(amount, date, name) => ManualFields(amount, date, name, None)
    case IncomeAmount(n, effective, end) => WindowFields("new_amount_minor", n, effective, end)
    case BillAmount(n, effective, end) => WindowFields("new_amount_minor", n, effective, end)
    case IncomeDate(anchor) => [DateField("new_anchor_date", anchor)]
    case BillDate(anchor) => [DateField("new_anchor_date", anchor)]
    case Exclusion(effective) => OptDateField("effective_date", effective)
    case RecurringDebtPayment(amount, anchor, end, name) => DebtFields(amount, anchor, end, name)
    case VariableSpendOverride(delta, effective, end) => WindowFields("delta_minor_per_month", delta, effective, end)
  }

  /** One more text field, after a comma. */
  method PushText(parts: string, key: string, text: string, ghost fields: seq<Field>) returns (longer: string)
    requires fields != [] && parts == Members(fields)
    ensures longer == Members(fields + [Field(key, Text(text))])
  {
    var quoted := JsonStr(text);
    longer := parts + "," + (KeyText(key) + quoted);
    MembersPush(fields, Field(key, Text(text)));
  }

  method PushOptDate(parts: string, key: string, d: Option<NaiveDate>, ghost fields: seq<Field>)
    returns (longer: string)
    requires fields != [] && parts == Members(fields)
    ensures longer == Members(fields + OptDateField(key, d))
  {
    longer := parts;
    if d.Some? {
      longer := PushText(parts, key, DateText(d.value), fields);
    } else {
      assert fields + [] == fields;
    }
  }

  /** The four shared fields, one after the other. */
  method BaseJson(dateKey: string, amount: Money, date: NaiveDate, name: string) returns (parts: string)
    ensures parts == Members(BaseFields(dateKey, amount, date, name))
  {
    ghost var f0 := [Field("amount_minor", Int(amount.minorUnits))];
    ghost var f1 := f0 + [Field("currency", Text(Code(amount.currency)))];
    ghost var f2 := f1 + [DateField(dateKey, date)];
    parts := KeyText("amount_minor") + IntText(amount.minorUnits);
    parts := PushText(parts, "currency", Code(amount.currency), f0);
    parts := PushText(parts, dateKey, DateText(date), f1);
    parts := PushText(parts, "label", name, f2);
    assert f2 + [Field("label", Text(name))] == BaseFields(dateKey, amount, date, name);
  }

  /** `build_params_json`. */
  method BuildParamsJson(amount: Money, date: NaiveDate, name: string, account: Option<Uuid>) returns (out: string)
    ensures out == Render(ManualFields(amount, date, name, account))
  {
    var parts := BaseJson("date", amount, date, name);
    if account.Some? {
      parts := PushText(parts, "account_id", UuidText(account.value), BaseFields("date", amount, date, name));
    } else {
      assert BaseFields("date", amount, date, name) + [] == BaseFields("date", amount, date, name);
    }
    out := "{" + parts + "}";
  }

  method DebtJson(amount: Money, anchor: NaiveDate, end: Option<NaiveDate>, name: string) returns (out: string)
    ensures out == Render(DebtFields(amount, anchor, end, name))
  {
    var parts := BaseJson("anchor_date", amount, anchor, name);
    parts := PushOptDate(parts, "end_date", end, BaseFields("anchor_date", amount, anchor, name));
    out := "{" + parts + "}";
  }

  method WindowJson(key: string, n: i64, effective: Option<NaiveDate>, end: Option<NaiveDate>) returns (out: string)
    ensures out == Render(WindowFields(key, n, effective, end))
  {
    ghost var f0 := [Field(key, Int(n))];
    out := KeyText(key) + IntText(n);
    out := PushOptDate(out, "effective_date", effective, f0);
    out := PushOptDate(out, "end_date", end, f0 + OptDateField("effective_date", effective));
    out := "{" + out + "}";
  }

  method OneDateJson(key: string, d: NaiveDate) returns (out: string)
    ensures out == Render([DateField(key, d)])
  {
    var quoted := JsonStr(DateText(d));
    out := "{" + (KeyText(key) + quoted) + "}";
  }

  /** `params_json`. */
  method ParamsJson(p: AssumptionParams) returns (out: string)
    ensures out == Render(FieldsOf(p))
  {
    match p
    case OneTimeEvent(amount, date, name) => out := BuildParamsJson(amount, date, name, None);
    case IncomeAmount(n, effective, end) => out := WindowJson("new_amount_minor", n, effective, end);
    case BillAmount(n, effective, end) => out := WindowJson("new_amount_minor", n, effective, end);
    case IncomeDate(anchor) => out := OneDateJson("new_anchor_date", anchor);
    case BillDate(anchor) => out := OneDateJson("new_anchor_date", anchor);
    case Exclusion(Some(date)) => out := OneDateJson("effective_date", date);
    case Exclusion(None) => out := "{}";
    case RecurringDebtPayment(amount, anchor, end, name) => out := DebtJson(amount, anchor, end, name);
    case VariableSpendOverride(delta, effective, end) =>
      out := WindowJson("delta_minor_per_month", delta, effective, end);
  }

  // ---------------------------------------------------------------------------------------------
  // The readers
  // ---------------------------------------------------------------------------------------------

  datatype ParamError = BadJson | Missing(key: string) | UnknownCurrency | BadDate(key: string)

  /** `as_i64` of a member. */
  function GetInt(o: Object, key: string): Option<i64> {
    if key in o && o[key].Num? && IsI64(o[key].n) then Some(o[key].n) else None
  }

  /** `as_str` of a member. */
  function GetText(o: Object, key: string): Option<string> {
    if key in o && o[key].Str? then Some(o[key].s) else None
  }

  /** `parse_opt_date`. */
  function GetDate(o: Object, key: string): Result<Option<NaiveDate>, ParamError> {
    match GetText(o, key)
    case None => Ok(None)
    case Some(text) => match ReadDate(text) case Some(d) => Ok(Some(d)) case None => Err(BadDate(key))
  }

  datatype ManualEntry = ManualEntry(amount: Money, date: NaiveDate, name: string, account: Option<Uuid>)

  function LabelOf(o: Object): string { match GetText(o, "label") case Some(t) => t case None => "" }

  /** `from_params` of a manual entry: a bad account is no account, anything else bad is an error. */
  function ReadManual(o: Object): Result<ManualEntry, ParamError> {
    var amount, code, text := GetInt(o, "amount_minor"), GetText(o, "currency"), GetText(o, "date");
    if amount.None? then Err(Missing("amount_minor"))
    else if code.None? then Err(Missing("currency"))
    else if text.None? then Err(Missing("date"))
    else if FromCode(code.value).None? then Err(UnknownCurrency)
    else if ReadDate(text.value).None? then Err(BadDate("date"))
    else
      var account := match GetText(o, "account_id") case Some(t) => ReadUuid(t) case None => None;
      Ok(ManualEntry(Money(amount.value, FromCode(code.value).value), ReadDate(text.value).value, LabelOf(o), account))
  }

  /** `from_params` of a recurring debt payment. */
  function ReadDebt(o: Object): Result<AssumptionParams, ParamError> {
    var amount, code, text := GetInt(o, "amount_minor"), GetText(o, "currency"), GetText(o, "anchor_date");
    if amount.None? then Err(Missing("amount_minor"))
    else if code.None? then Err(Missing("currency"))
    else if text.None? then Err(Missing("anchor_date"))
    else if GetDate(o, "end_date").Err? then Err(BadDate("end_date"))
    else if FromCode(code.value).None? then Err(UnknownCurrency)
    else if ReadDate(text.value).None? then Err(BadDate("anchor_date"))
    else Ok(RecurringDebtPayment(Money(amount.value, FromCode(code.value).value), ReadDate(text.value).value,
                                 GetDate(o, "end_date").value, LabelOf(o)))
  }

  /** A number and a window of dates; an event without its number is passed over. */
  function ReadWindow(o: Object, key: string): Result<Option<(i64, Option<NaiveDate>, Option<NaiveDate>)>, ParamError> {
    if GetInt(o, key).None? then Ok(None)
    else if GetDate(o, "effective_date").Err? then Err(BadDate("effective_date"))
    else if GetDate(o, "end_date").Err? then Err(BadDate("end_date"))
    else Ok(Some((GetInt(o, key).value, GetDate(o, "effective_date").value, GetDate(o, "end_date").value)))
  }

  /** What the reader of each kind makes of a stored object; None when it passes the event over. */
  function ReadFields(kind: Kind, o: Object): Result<Option<AssumptionParams>, ParamError> {
    match kind
    case OneTimeEventKind =>
      (match ReadManual(o)
       case Ok(m) => Ok(Some(OneTimeEvent(m.amount, m.date, m.name)))
       case Err(e) => Err(e))
    case IncomeAmountKind =>
      (match ReadWindow(o, "new_amount_minor")
       case Ok(Some(w)) => Ok(Some(IncomeAmount(w.0, w.1, w.2)))
       case Ok(None) => Ok(None)
       case Err(e) => Err(e))
    case BillAmountKind =>
      (match ReadWindow(o, "new_amount_minor")
       case Ok(Some(w)) => Ok(Some(BillAmount(w.0, w.1, w.2)))
       case Ok(None) => Ok(None)
       case Err(e) => Err(e))
    case IncomeDateKind =>
      (match GetDate(o, "new_anchor_date")
       case Ok(Some(d)) => Ok(Some(IncomeDate(d)))
       case Ok(None) => Ok(None)
       case Err(e) => Err(e))
    case BillDateKind =>
      (match GetDate(o, "new_anchor_date")
       case Ok(Some(d)) => Ok(Some(BillDate(d)))
       case Ok(None) => Ok(None)
       case Err(e) => Err(e))
    case ExclusionKind =>
      (match GetDate(o, "effective_date")
       case Ok(d) => Ok(Some(Exclusion(d)))
       case Err(e) => Err(e))
    case RecurringDebtPaymentKind =>
      (match ReadDebt(o)
       case Ok(p) => Ok(Some(p))
       case Err(e) => Err(e))
    case VariableSpendOverrideKind =>
      (match ReadWindow(o, "delta_minor_per_month")
       case Ok(Some(w)) => Ok(Some(VariableSpendOverride(w.0, w.1, w.2)))
       case Ok(None) => Ok(None)
       case Err(e) => Err(e))
  }

  /** The same of a stored text. */
  function ReadAs(kind: Kind, json: string): Result<Option<AssumptionParams>, ParamError> {
    match ReadObject(json) case None => Err(BadJson) case Some(o) => ReadFields(kind, o)
  }

  function ReadManualJson(json: string): Result<ManualEntry, ParamError> {
    match ReadObject(json) case None => Err(BadJson) case Some(o) => ReadManual(o)
  }

  // ---------------------------------------------------------------------------------------------
  // Round trips
  // ---------------------------------------------------------------------------------------------

  lemma {:induction false} WrittenPush(fields: seq<Field>, f: Field)
    ensures Written(fields + [f]) == Written(fields) + [(f.key, ValueOf(f.value))]
  {
    if fields == [] {
      assert fields + [f] == [f] && [f][1..] == [];
    } else {
      WrittenPush(fields[1..], f);
      assert (fields + [f])[1..] == fields[1..] + [f];
    }
  }

  lemma ObjectPush(fields: seq<Field>, f: Field)
    ensures ObjectOf(Written(fields + [f])) == ObjectOf(Written(fields))[f.key := ValueOf(f.value)]
  {
    WrittenPush(fields, f);
    var w := Written(fields) + [(f.key, ValueOf(f.value))];
    assert w[..|w| - 1] == Written(fields);
  }

  /** The object built up by one optional date. */
  lemma ObjectPushOptDate(fields: seq<Field>, key: string, d: Option<NaiveDate>)
    ensures ObjectOf(Written(fields + OptDateField(key, d)))
      == (if d.Some? then ObjectOf(Written(fields))[key := Str(DateText(d.value))] else ObjectOf(Written(fields)))
  {
    match d
    case Some(date) => ObjectPush(fields, DateField(key, date));
    case None => assert fields + [] == fields;
  }

  lemma CodeReads(c: Currency)
    ensures FromCode(Code(c)) == Some(c)
  {
  }

  /** What a rendered object reads back as. */
  ghost function Stored(fields: seq<Field>): Object { ObjectOf(Written(fields)) }

  /** The first four fields, which manual entries and debt payments share but for one name. */
  function Base(dateKey: string, amount: Money, date: NaiveDate, name: string): Object {
    map["amount_minor" := Num(amount.minorUnits)]["currency" := Str(Code(amount.currency))]
       [dateKey := Str(DateText(date))]["label" := Str(name)]
  }

  lemma BaseObject(dateKey: string, amount: Money, date: NaiveDate, name: string)
    ensures Stored(BaseFields(dateKey, amount, date, name)) == Base(dateKey, amount, date, name)
  {
    var a, c := Field("amount_minor", Int(amount.minorUnits)), Field("currency", Text(Code(amount.currency)));
    var d, l := DateField(dateKey, date), Field("label", Text(name));
    ObjectPush([], a);
    ObjectPush([a], c);
    ObjectPush([a, c], d);
    ObjectPush([a, c, d], l);
    assert [] + [a] == [a] && [a] + [c] == [a, c] && [a, c] + [d] == [a, c, d] && [a, c, d] + [l] == [a, c, d, l];
  }

  lemma BaseGets(dateKey: string, amount: Money, date: NaiveDate, name: string, o: Object)
    requires |dateKey| != 12 && |dateKey| != 8 && |dateKey| != 5
    requires forall k :: k in Base(dateKey, amount, date, name) ==>
      k in o && o[k] == Base(dateKey, amount, date, name)[k]
    ensures GetInt(o, "amount_minor") == Some(amount.minorUnits)
      && GetText(o, "currency") == Some(Code(amount.currency))
    ensures GetText(o, dateKey) == Some(DateText(date)) && GetText(o, "label") == Some(name)
  {
    assert |"amount_minor"| == 12 && |"currency"| == 8 && |"label"| == 5;
    assert "amount_minor" in Base(dateKey, amount, date, name) && "currency" in Base(dateKey, amount, date, name);
    assert dateKey in Base(dateKey, amount, date, name) && "label" in Base(dateKey, amount, date, name);
  }

  lemma NotInBase(dateKey: string, amount: Money, date: NaiveDate, name: string, key: string)
    requires key == "account_id" || key == "end_date"
    requires dateKey == "date" || dateKey == "anchor_date"
    ensures key !in Base(dateKey, amount, date, name)
  {
    assert |"amount_minor"| == 12 && |"label"| == 5 && |"date"| == 4 && |"anchor_date"| == 11;
    assert |"account_id"| == 10 && |"end_date"| == 8 && |"currency"| == 8 && "currency"[0] == 'c'
      && "end_date"[0] == 'e';
  }

  lemma ManualOf(amount: Money, date: NaiveDate, name: string, account: Option<Uuid>, o: Object)
    requires GetInt(o, "amount_minor") == Some(amount.minorUnits)
      && GetText(o, "currency") == Some(Code(amount.currency))
    requires GetText(o, "date") == Some(DateText(date)) && GetText(o, "label") == Some(name)
    requires GetText(o, "account_id") == if account.Some? then Some(UuidText(account.value)) else None
    ensures ReadManual(o) == Ok(ManualEntry(amount, date, name, account))
  {
    CodeReads(amount.currency);
    DateReads(date);
    if account.Some? { UuidReads(account.value); }
  }

  lemma ManualReads(amount: Money, date: NaiveDate, name: string, account: Option<Uuid>)
    ensures ReadManual(Stored(ManualFields(amount, date, name, account))) ==
      Ok(ManualEntry(amount, date, name, account))
  {
    var base := BaseFields("date", amount, date, name);
    var o := Stored(ManualFields(amount, date, name, account));
    BaseObject("date", amount, date, name);
    NotInBase("date", amount, date, name, "account_id");
    if account.Some? {
      ObjectPush(base, Field("account_id", Text(UuidText(account.value))));
    } else {
      assert base + [] == base;
    }
    assert |"date"| == 4;
    BaseGets("date", amount, date, name, o);
    ManualOf(amount, date, name, account, o);
  }

  lemma DebtOf(amount: Money, anchor: NaiveDate, end: Option<NaiveDate>, name: string, o: Object)
    requires GetInt(o, "amount_minor") == Some(amount.minorUnits)
      && GetText(o, "currency") == Some(Code(amount.currency))
    requires GetText(o, "anchor_date") == Some(DateText(anchor)) && GetText(o, "label") == Some(name)
    requires GetDate(o, "end_date") == Ok(end)
    ensures ReadDebt(o) == Ok(RecurringDebtPayment(amount, anchor, end, name))
  {
    CodeReads(amount.currency);
    DateReads(anchor);
  }

  /** An optional date is found where it was put, if it was. */
  lemma OptDateGets(o: Object, key: string, d: Option<NaiveDate>, p: Object)
    requires key !in o && p == (match d case Some(date) => o[key := Str(DateText(date))] case None => o)
    ensures GetDate(p, key) == Ok(d)
    ensures forall k :: k != key ==> GetInt(p, k) == GetInt(o, k) && GetText(p, k) == GetText(o, k)
  {
    if d.Some? { DateReads(d.value); }
  }

  lemma DebtReads(amount: Money, anchor: NaiveDate, end: Option<NaiveDate>, name: string)
    ensures ReadDebt(Stored(DebtFields(amount, anchor, end, name))) ==
      Ok(RecurringDebtPayment(amount, anchor, end, name))
  {
    var base := BaseFields("anchor_date", amount, anchor, name);
    var o := Stored(DebtFields(amount, anchor, end, name));
    BaseObject("anchor_date", amount, anchor, name);
    NotInBase("anchor_date", amount, anchor, name, "end_date");
    ObjectPushOptDate(base, "end_date", end);
    OptDateGets(Stored(base), "end_date", end, o);
    assert |"anchor_date"| == 11;
    BaseGets("anchor_date", amount, anchor, name, o);
    DebtOf(amount, anchor, end, name, o);
  }

  lemma WindowNames(key: string)
    requires key == "new_amount_minor" || key == "delta_minor_per_month"
    ensures key != "effective_date" && key != "end_date" && "effective_date" != "end_date"
  {
    assert |"new_amount_minor"| == 16 && |"delta_minor_per_month"| == 21 && |"effective_date"| == 14
      && |"end_date"| == 8;
  }

  lemma StoredNumber(key: string, n: i64)
    ensures Stored([Field(key, Int(n))]) == map[key := Num(n)]
  {
    ObjectPush([], Field(key, Int(n)));
    assert [] + [Field(key, Int(n))] == [Field(key, Int(n))];
  }

  lemma WindowOf(o: Object, key: string, n: i64, effective: Option<NaiveDate>, end: Option<NaiveDate>)
    requires GetInt(o, key) == Some(n) && GetDate(o, "effective_date") == Ok(effective)
      && GetDate(o, "end_date") == Ok(end)
    ensures ReadWindow(o, key) == Ok(Some((n, effective, end)))
  {
  }

  /** `p` is `o` with the date, if there is one. */
  predicate WithDate(o: Object, key: string, d: Option<NaiveDate>, p: Object) {
    p == (match d case Some(date) => o[key := Str(DateText(date))] case None => o)
  }

  lemma WindowGets(key: string, n: i64, effective: Option<NaiveDate>, end: Option<NaiveDate>, dated: Object, o: Object)
    requires key == "new_amount_minor" || key == "delta_minor_per_month"
    requires WithDate(map[key := Num(n)], "effective_date", effective, dated) && WithDate(dated, "end_date", end, o)
    ensures ReadWindow(o, key) == Ok(Some((n, effective, end)))
  {
    WindowNames(key);
    OptDateGets(map[key := Num(n)], "effective_date", effective, dated);
    OptDateGets(dated, "end_date", end, o);
    WindowOf(o, key, n, effective, end);
  }

  lemma WindowReads(key: string, n: i64, effective: Option<NaiveDate>, end: Option<NaiveDate>)
    requires key == "new_amount_minor" || key == "delta_minor_per_month"
    ensures ReadWindow(Stored(WindowFields(key, n, effective, end)), key) == Ok(Some((n, effective, end)))
  {
    var f0 := [Field(key, Int(n))];
    var f1 := f0 + OptDateField("effective_date", effective);
    StoredNumber(key, n);
    ObjectPushOptDate(f0, "effective_date", effective);
    ObjectPushOptDate(f1, "end_date", end);
    WindowGets(key, n, effective, end, Stored(f1), Stored(WindowFields(key, n, effective, end)));
  }

  lemma OneDateReads(key: string, d: Option<NaiveDate>)
    ensures GetDate(Stored(OptDateField(key, d)), key) == Ok(d)
  {
    ObjectPushOptDate([], key, d);
    assert [] + OptDateField(key, d) == OptDateField(key, d);
    OptDateGets(map[], key, d, Stored(OptDateField(key, d)));
  }

  /** The names of the fields need no escaping. */
  lemma Names()
    ensures PlainKey("amount_minor") && PlainKey("currency") && PlainKey("date") && PlainKey("label")
      && PlainKey("account_id")
    ensures PlainKey("anchor_date") && PlainKey("end_date") && PlainKey("effective_date") && PlainKey("new_anchor_date")
    ensures PlainKey("new_amount_minor") && PlainKey("delta_minor_per_month")
  {
  }

  lemma SpendOverrideIsRead(o: Object, p: AssumptionParams)
    requires p.VariableSpendOverride?
    requires ReadWindow(o, "delta_minor_per_month") == Ok(Some((p.delta, p.effective, p.end)))
    ensures ReadFields(KindOf(p), o) == Ok(Some(p))
  {
  }

  lemma AmountIsRead(o: Object, p: AssumptionParams)
    requires p.IncomeAmount? || p.BillAmount?
    requires ReadWindow(o, "new_amount_minor") == Ok(Some((p.newAmount, p.effective, p.end)))
    ensures ReadFields(KindOf(p), o) == Ok(Some(p))
  {
  }

  lemma IncomeAmountReadsBack(p: AssumptionParams)
    requires p.IncomeAmount?
    ensures ReadFields(KindOf(p), Stored(FieldsOf(p))) == Ok(Some(p))
  {
    WindowReads("new_amount_minor", p.newAmount, p.effective, p.end);
    AmountIsRead(Stored(WindowFields("new_amount_minor", p.newAmount, p.effective, p.end)), p);
  }

  lemma BillAmountReadsBack(p: AssumptionParams)
    requires p.BillAmount?
    ensures ReadFields(KindOf(p), Stored(FieldsOf(p))) == Ok(Some(p))
  {
    WindowReads("new_amount_minor", p.newAmount, p.effective, p.end);
    AmountIsRead(Stored(WindowFields("new_amount_minor", p.newAmount, p.effective, p.end)), p);
  }

  lemma SpendOverrideReadsBack(p: AssumptionParams)
    requires p.VariableSpendOverride?
    ensures ReadFields(KindOf(p), Stored(FieldsOf(p))) == Ok(Some(p))
  {
    WindowReads("delta_minor_per_month", p.delta, p.effective, p.end);
    SpendOverrideIsRead(Stored(WindowFields("delta_minor_per_month", p.delta, p.effective, p.end)), p);
  }

  lemma DatesReadBack(p: AssumptionParams)
    requires p.IncomeDate? || p.BillDate? || p.Exclusion?
    ensures ReadFields(KindOf(p), Stored(FieldsOf(p))) == Ok(Some(p))
  {
    match p
    case IncomeDate(anchor) => OneDateReads("new_anchor_date", Some(anchor));
    case BillDate(anchor) => OneDateReads("new_anchor_date", Some(anchor));
    case Exclusion(effective) => OneDateReads("effective_date", effective);
  }

  lemma OneTimeReadsBack(p: AssumptionParams)
    requires p.OneTimeEvent?
    ensures ReadFields(KindOf(p), Stored(FieldsOf(p))) == Ok(Some(p))
  {
    ManualReads(p.amount, p.date, p.name, None);
  }

  lemma DebtReadsBack(p: AssumptionParams)
    requires p.RecurringDebtPayment?
    ensures ReadFields(KindOf(p), Stored(FieldsOf(p))) == Ok(Some(p))
  {
    DebtReads(p.amount, p.anchor, p.end, p.name);
  }

  lemma FieldsReadBack(p: AssumptionParams)
    ensures ReadFields(KindOf(p), Stored(FieldsOf(p))) == Ok(Some(p))
  {
    if p.OneTimeEvent? { OneTimeReadsBack(p); }
    else if p.RecurringDebtPayment? { DebtReadsBack(p); }
    else if p.IncomeDate? || p.BillDate? || p.Exclusion? { DatesReadBack(p); }
    else if p.IncomeAmount? { IncomeAmountReadsBack(p); }
    else if p.BillAmount? { BillAmountReadsBack(p); }
    else { SpendOverrideReadsBack(p); }
  }

  lemma ManualFieldsArePlain(amount: Money, date: NaiveDate, name: string, account: Option<Uuid>)
    ensures PlainKeys(ManualFields(amount, date, name, account))
  {
    Names();
  }

  lemma FieldsArePlain(p: AssumptionParams)
    ensures PlainKeys(FieldsOf(p))
  {
    Names();
  }

  /** Every assumption reads back from its text as it was written, whatever its label, amounts and dates. */
  lemma ParamsReadBack(p: AssumptionParams, json: string)
    requires json == Render(FieldsOf(p))
    ensures ReadAs(KindOf(p), json) == Ok(Some(p))
  {
    FieldsArePlain(p);
    ObjectReads(FieldsOf(p));
    FieldsReadBack(p);
  }

  /** A manual entry reads back with its account. */
  lemma ManualEntryReadsBack(amount: Money, date: NaiveDate, name: string, account: Option<Uuid>, json: string)
    requires json == Render(ManualFields(amount, date, name, account))
    ensures ReadManualJson(json) == Ok(ManualEntry(amount, date, name, account))
  {
    ManualFieldsArePlain(amount, date, name, account);
    ObjectReads(ManualFields(amount, date, name, account));
    ManualReads(amount, date, name, account);
  }

  /** So no two different assumptions of one kind share a text. */
  lemma ParamsAreInjective(p: AssumptionParams, q: AssumptionParams)
    requires KindOf(p) == KindOf(q) && Render(FieldsOf(p)) == Render(FieldsOf(q))
    ensures p == q
  {
    ParamsReadBack(p, Render(FieldsOf(p)));
    ParamsReadBack(q, Render(FieldsOf(q)));
  }
}
