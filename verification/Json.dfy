/**
The hand-built JSON of crates/db-worker/src/forecast_persist.rs, and a reader of flat objects after
RFC 8259: white space (section 2), members (section 4), integers (section 6), strings (section 7).
*/
module Json {
  import opened Common

  // ---------------------------------------------------------------------------------------------
  // The writer
  // ---------------------------------------------------------------------------------------------

  function Hex(d: nat): char
    requires d < 16
  {
    if d < 10 then '0' + d as char else 'a' + (d - 10) as char
  }

  /** What `json_str` pushes for one character. */
  function Escape(c: char): (e: string)
    ensures e != []
  {
    if c == '"' then "\\\""
    else if c == '\\' then "\\\\"
    else if c == '\n' then "\\n"
    else if c == '\r' then "\\r"
    else if c == '\t' then "\\t"
    else if c as int < 0x20 then "\\u00" + [Hex(c as int / 16), Hex(c as int % 16)]
    else [c]
  }

  function Escaped(s: string): string {
    if s == [] then [] else Escape(s[0]) + Escaped(s[1..])
  }

  function Quoted(s: string): string { "\"" + Escaped(s) + "\"" }

  lemma {:induction false} EscapedPush(s: string, c: char)
    ensures Escaped(s + [c]) == Escaped(s) + Escape(c)
  {
    if s == [] {
      assert [c][1..] == [];
    } else {
      EscapedPush(s[1..], c);
      assert (s + [c])[1..] == s[1..] + [c];
    }
  }

  /** `json_str`. */
  method JsonStr(s: string) returns (out: string)
    ensures out == Quoted(s)
  {
    out := "\"";
    for n := 0 to |s|
      invariant out == "\"" + Escaped(s[..n])
    {
      EscapedPush(s[..n], s[n]);
      assert s[..n + 1] == s[..n] + [s[n]];
      out := out + Escape(s[n]);
    }
    assert s[..|s|] == s;
    out := out + "\"";
  }

  function Digits(n: nat): (d: string)
    ensures d != [] && forall i :: 0 <= i < |d| ==> IsDigit(d[i])
    ensures n > 0 ==> d[0] != '0'
  {
    if n < 10 then ['0' + n as char] else Digits(n / 10) + ['0' + (n % 10) as char]
  }

  /** An integer as `format!` writes it. */
  function IntText(n: int): string { if n < 0 then "-" + Digits(-n) else Digits(n) }

  datatype Scalar = Int(n: int) | Text(s: string) | Null

  datatype Field = Field(key: string, value: Scalar)

  function ScalarText(v: Scalar): string {
    match v case Int(n) => IntText(n) case Text(s) => Quoted(s) case Null => "null"
  }

  function KeyText(key: string): string { "\"" + key + "\":" }

  function FieldText(f: Field): string { KeyText(f.key) + ScalarText(f.value) }

  function Members(fields: seq<Field>): string {
    if fields == [] then []
    else if |fields| == 1 then FieldText(fields[0])
    else FieldText(fields[0]) + "," + Members(fields[1..])
  }

  function Render(fields: seq<Field>): string { "{" + Members(fields) + "}" }

  /** Appending a field appends its text, after a comma. */
  lemma {:induction false} MembersPush(fields: seq<Field>, f: Field)
    ensures Members(fields + [f]) == if fields == [] then FieldText(f) else Members(fields) + "," + FieldText(f)
  {
    if fields == [] {
      assert fields + [f] == [f];
    } else {
      MembersPush(fields[1..], f);
      assert (fields + [f])[1..] == fields[1..] + [f];
    }
  }

  // ---------------------------------------------------------------------------------------------
  // The reader
  // ---------------------------------------------------------------------------------------------

  datatype Value = Str(s: string) | Num(n: int) | Literal(name: string)

  type Object = map<string, Value>

  predicate IsDigit(c: char) { '0' <= c <= '9' }

  predicate IsJsonSpace(c: char) { c == ' ' || c == '\t' || c == '\n' || c == '\r' }

  function SkipSpace(s: string): (r: string)
    ensures |r| <= |s|
  {
    if s != [] && IsJsonSpace(s[0]) then SkipSpace(s[1..]) else s
  }

  function HexValue(c: char): Option<nat> {
    if IsDigit(c) then Some((c - '0') as nat)
    else if 'a' <= c <= 'f' then Some((c - 'a') as nat + 10)
    else if 'A' <= c <= 'F' then Some((c - 'A') as nat + 10)
    else None
  }

  /** Four hexadecimal digits. */
  function ReadUnit(s: string): (r: Option<nat>)
    ensures r.Some? ==> |s| >= 4 && r.value < 0x1_0000
  {
    if |s| < 4 then None
    else
      match (HexValue(s[0]), HexValue(s[1]), HexValue(s[2]), HexValue(s[3]))
      case (Some(a), Some(b), Some(c), Some(d)) =>
        assert a < 16 && b < 16 && c < 16 && d < 16;
        Some(((a * 16 + b) * 16 + c) * 16 + d)
      case _ => None
  }

  datatype Read<T> = Failed | Read(value: T, rest: string)

  /** After a backslash and a `u`: one unit, or the two of a surrogate pair. */
  function ReadUnicode(s: string): (r: Read<char>)
    ensures r.Read? ==> |r.rest| < |s|
  {
    var unit := ReadUnit(s);
    if unit.None? then Failed
    else if !(0xD800 <= unit.value < 0xE000) then Read(unit.value as char, s[4..])
    else if unit.value >= 0xDC00 || |s| < 10 || s[4..6] != "\\u" then Failed
    else
      var low := ReadUnit(s[6..]);
      if low.None? || !(0xDC00 <= low.value < 0xE000) then Failed
      else Read((0x1_0000 + (unit.value - 0xD800) * 0x400 + (low.value - 0xDC00)) as char, s[10..])
  }

  /** After a backslash. */
  function ReadEscape(s: string): (r: Read<char>)
    ensures r.Read? ==> |r.rest| < |s|
  {
    if s == [] then Failed
    else if s[0] == '"' || s[0] == '\\' || s[0] == '/' then Read(s[0], s[1..])
    else if s[0] == 'b' then Read(8 as char, s[1..])
    else if s[0] == 'f' then Read(12 as char, s[1..])
    else if s[0] == 'n' then Read('\n', s[1..])
    else if s[0] == 'r' then Read('\r', s[1..])
    else if s[0] == 't' then Read('\t', s[1..])
    else if s[0] == 'u' then ReadUnicode(s[1..])
    else Failed
  }

  /** One character of a string, escaped or not; neither the closing quote nor a raw control character. */
  function ReadChar(s: string): (r: Read<char>)
    ensures r.Read? ==> |r.rest| < |s|
  {
    if s == [] || s[0] == '"' || s[0] as int < 0x20 then Failed
    else if s[0] == '\\' then ReadEscape(s[1..])
    else Read(s[0], s[1..])
  }

  /** A string after its opening quote. */
  function ReadString(s: string): (r: Read<string>)
    ensures r.Read? ==> |r.rest| < |s|
    decreases |s|
  {
    if s == [] then Failed
    else if s[0] == '"' then Read([], s[1..])
    else
      var c := ReadChar(s);
      if c.Failed? then Failed
      else
        var t := ReadString(c.rest);
        if t.Failed? then Failed else Read([c.value] + t.value, t.rest)
  }

  function ReadDigits(s: string, acc: nat): (r: Read<nat>)
    ensures r.Read? && |r.rest| <= |s|
  {
    if s != [] && IsDigit(s[0]) then ReadDigits(s[1..], acc * 10 + (s[0] - '0') as nat) else Read(acc, s)
  }

  /** An integer. A fraction, an exponent and `-0` make other numbers, which no field here holds. */
  function ReadNumber(s: string): (r: Read<int>)
    ensures r.Read? ==> |r.rest| < |s|
  {
    var negative := s != [] && s[0] == '-';
    var t := if negative then s[1..] else s;
    if t == [] || !IsDigit(t[0]) then Failed
    else
      var n := if t[0] == '0' then Read(0, t[1..]) else ReadDigits(t[1..], (t[0] - '0') as nat);
      if n.rest != [] && (n.rest[0] == '.' || n.rest[0] == 'e' || n.rest[0] == 'E') then Failed
      else if negative && n.value == 0 then Failed
      else
        var magnitude: int := n.value;
        Read(if negative then -magnitude else magnitude, n.rest)
  }

  function ReadValue(s: string): (r: Read<Value>)
    ensures r.Read? ==> |r.rest| < |s|
  {
    if s == [] then Failed
    else if s[0] == '"' then
      var t := ReadString(s[1..]);
      if t.Failed? then Failed else Read(Str(t.value), t.rest)
    else if s[0] == '-' || IsDigit(s[0]) then
      var n := ReadNumber(s);
      if n.Failed? then Failed else Read(Num(n.value), n.rest)
    else if "true" <= s then Read(Literal("true"), s[4..])
    else if "false" <= s then Read(Literal("false"), s[5..])
    else if "null" <= s then Read(Literal("null"), s[4..])
    else Failed
  }

  /** One member, with the white space around its parts. */
  function ReadMember(s: string): (r: Read<(string, Value)>)
    ensures r.Read? ==> |r.rest| < |s|
  {
    if s == [] || s[0] != '"' then Failed
    else
      var key := ReadString(s[1..]);
      if key.Failed? then Failed
      else
        var colon := SkipSpace(key.rest);
        if colon == [] || colon[0] != ':' then Failed
        else
          var value := ReadValue(SkipSpace(colon[1..]));
          if value.Failed? then Failed else Read((key.value, value.value), SkipSpace(value.rest))
  }

  function ReadMembers(s: string): Read<seq<(string, Value)>>
    decreases |s|
  {
    var m := ReadMember(s);
    if m.Failed? || m.rest == [] then Failed
    else if m.rest[0] == '}' then Read([m.value], m.rest[1..])
    else if m.rest[0] == ',' then
      var more := ReadMembers(SkipSpace(m.rest[1..]));
      if more.Failed? then Failed else Read([m.value] + more.value, more.rest)
    else Failed
  }

  /** Of members with one name, the last counts. */
  function ObjectOf(members: seq<(string, Value)>): Object {
    if members == [] then map[]
    else
      var last := members[|members| - 1];
      ObjectOf(members[..|members| - 1])[last.0 := last.1]
  }

  function ReadObject(s: string): Option<Object> {
    var open := SkipSpace(s);
    if open == [] || open[0] != '{' then None
    else
      var first := SkipSpace(open[1..]);
      if first != [] && first[0] == '}' then (if SkipSpace(first[1..]) == [] then Some(map[]) else None)
      else
        var members := ReadMembers(first);
        if members.Failed? || SkipSpace(members.rest) != [] then None else Some(ObjectOf(members.value))
  }

  /** A flat object inside an array, as its members. */
  function ReadItem(s: string): (r: Read<seq<(string, Value)>>)
    ensures r.Read? ==> |r.rest| < |s|
  {
    if s == [] || s[0] != '{' then Failed
    else
      var first := SkipSpace(s[1..]);
      if first != [] && first[0] == '}' then Read([], first[1..])
      else
        var members := ReadMembers(first);
        if members.Failed? || |members.rest| >= |s| then Failed else members
  }

  /** Items up to the closing bracket. */
  function ReadItems(s: string): Read<seq<seq<(string, Value)>>>
    decreases |s|
  {
    var item := ReadItem(s);
    if item.Failed? then Failed
    else
      var next := SkipSpace(item.rest);
      if next == [] then Failed
      else if next[0] == ']' then Read([item.value], next[1..])
      else if next[0] == ',' then
        var more := ReadItems(SkipSpace(next[1..]));
        if more.Failed? then Failed else Read([item.value] + more.value, more.rest)
      else Failed
  }

  /** An array of flat objects. */
  function ReadArray(s: string): Option<seq<seq<(string, Value)>>> {
    var open := SkipSpace(s);
    if open == [] || open[0] != '[' then None
    else
      var first := SkipSpace(open[1..]);
      if first != [] && first[0] == ']' then (if SkipSpace(first[1..]) == [] then Some([]) else None)
      else
        var items := ReadItems(first);
        if items.Failed? || SkipSpace(items.rest) != [] then None else Some(items.value)
  }

  // ---------------------------------------------------------------------------------------------
  // Reading what was written
  // ---------------------------------------------------------------------------------------------

  lemma HexReads(d: nat)
    requires d < 16
    ensures HexValue(Hex(d)) == Some(d)
  {
  }

  lemma ControlReads(c: char, tail: string)
    requires c as int < 0x20
    ensures ReadUnicode("00" + [Hex(c as int / 16), Hex(c as int % 16)] + tail) == Read(c, tail)
  {
    var s := "00" + [Hex(c as int / 16), Hex(c as int % 16)] + tail;
    HexReads(c as int / 16);
    HexReads(c as int % 16);
    assert s[0] == '0' && s[1] == '0' && s[2] == Hex(c as int / 16) && s[3] == Hex(c as int % 16);
    assert ReadUnit(s) == Some(c as nat);
    assert s[4..] == tail;
  }

  /** Whatever the character, its escaped form reads back as it. */
  lemma CharReads(c: char, tail: string)
    ensures ReadChar(Escape(c) + tail) == Read(c, tail) && (Escape(c) + tail)[0] != '"'
  {
    var s := Escape(c) + tail;
    if c as int < 0x20 && c != '\n' && c != '\r' && c != '\t' {
      var t := "00" + [Hex(c as int / 16), Hex(c as int % 16)] + tail;
      ControlReads(c, tail);
      assert s[0] == '\\' && s[1..][0] == 'u' && s[1..][1..] == t;
    } else if s[0] == '\\' {
      assert s[1..] == Escape(c)[1..] + tail && s[1..][1..] == tail;
    } else {
      assert s[1..] == tail;
    }
  }

  lemma StringStep(text: string, c: char, tail: string, more: string, rest: string)
    requires text != [] && text[0] != '"' && ReadChar(text) == Read(c, tail) && ReadString(tail) == Read(more, rest)
    ensures ReadString(text) == Read([c] + more, rest)
  {
  }

  lemma EscapedShape(s: string, end: string)
    requires s != []
    ensures Escaped(s) + end == Escape(s[0]) + (Escaped(s[1..]) + end)
  {
  }

  /** Every text, with its quotes, backslashes and control characters, reads back exactly. */
  lemma {:induction false} StringReads(s: string, rest: string, end: string)
    requires end == "\"" + rest
    ensures ReadString(Escaped(s) + end) == Read(s, rest)
  {
    if s == [] {
      assert Escaped(s) + end == end && end[1..] == rest;
    } else {
      var tail := Escaped(s[1..]) + end;
      StringReads(s[1..], rest, end);
      CharReads(s[0], tail);
      EscapedShape(s, end);
      StringStep(Escaped(s) + end, s[0], tail, s[1..], rest);
      assert s == [s[0]] + s[1..];
    }
  }

  lemma {:induction false} DigitsRead(n: nat, rest: string)
    ensures ReadDigits(Digits(n) + rest, 0) == ReadDigits(rest, n)
  {
    if n < 10 {
      assert (Digits(n) + rest)[1..] == rest;
    } else {
      var tail := ['0' + (n % 10) as char] + rest;
      DigitsRead(n / 10, tail);
      assert Digits(n) + rest == Digits(n / 10) + tail;
      assert tail[1..] == rest;
    }
  }

  /** A character that ends a number. */
  predicate EndsValue(rest: string) { rest != [] && (rest[0] == ',' || rest[0] == '}') }

  lemma NaturalReads(n: nat, rest: string)
    requires EndsValue(rest)
    ensures var t := Digits(n) + rest;
      (if t[0] == '0' then Read(0, t[1..]) else ReadDigits(t[1..], (t[0] - '0') as nat)) == Read(n, rest)
  {
    var t := Digits(n) + rest;
    DigitsRead(n, rest);
    assert ReadDigits(t, 0) == ReadDigits(t[1..], (t[0] - '0') as nat);
    if n == 0 { assert t[1..] == rest; }
  }

  lemma NegativeReads(n: nat, rest: string)
    requires n > 0 && EndsValue(rest)
    ensures ReadNumber("-" + Digits(n) + rest) == Read(-(n as int), rest)
  {
    NaturalReads(n, rest);
    assert ("-" + Digits(n) + rest)[1..] == Digits(n) + rest;
  }

  lemma IntReads(n: int, rest: string)
    requires EndsValue(rest)
    ensures ReadNumber(IntText(n) + rest) == Read(n, rest)
  {
    if n < 0 {
      NegativeReads(-n, rest);
    } else {
      NaturalReads(n, rest);
      assert IsDigit((Digits(n) + rest)[0]);
    }
  }

  function ValueOf(v: Scalar): Value {
    match v
    case Int(n) => Num(n)
    case Text(s) => Str(s)
    case Null => Literal("null")
  }

  lemma IntValueReads(n: int, rest: string, s: string)
    requires EndsValue(rest) && s == IntText(n) + rest
    ensures ReadValue(s) == Read(Num(n), rest) && SkipSpace(s) == s
  {
    IntReads(n, rest);
    assert s[0] == '-' || IsDigit(s[0]);
  }

  lemma TextValueReads(t: string, rest: string, s: string)
    requires s == Quoted(t) + rest
    ensures ReadValue(s) == Read(Str(t), rest) && SkipSpace(s) == s
  {
    var end := "\"" + rest;
    assert s[1..] == Escaped(t) + end;
    StringReads(t, rest, end);
  }

  lemma NullReads(rest: string, s: string)
    requires s == "null" + rest
    ensures ReadValue(s) == Read(Literal("null"), rest) && SkipSpace(s) == s
  {
    assert s[0] == 'n' && s[4..] == rest && "null" <= s;
  }

  lemma ScalarReads(v: Scalar, rest: string, s: string)
    requires EndsValue(rest) && s == ScalarText(v) + rest
    ensures ReadValue(s) == Read(ValueOf(v), rest) && SkipSpace(s) == s
  {
    match v
    case Int(n) => IntValueReads(n, rest, s);
    case Text(t) => TextValueReads(t, rest, s);
    case Null => NullReads(rest, s);
  }

  predicate Plain(c: char) { c as int >= 0x20 && c != '"' && c != '\\' }

  predicate PlainKey(key: string) { forall i :: 0 <= i < |key| ==> Plain(key[i]) }

  lemma {:induction false} PlainEscapes(key: string)
    requires PlainKey(key)
    ensures Escaped(key) == key
  {
    if key != [] {
      assert Plain(key[0]);
      assert PlainKey(key[1..]) by {
        forall i | 0 <= i < |key| - 1 ensures Plain(key[1..][i]) { assert Plain(key[i + 1]); }
      }
      PlainEscapes(key[1..]);
    }
  }

  lemma KeyReads(key: string, tail: string, end: string)
    requires PlainKey(key) && end == "\"" + tail
    ensures ReadString(key + end) == Read(key, tail)
  {
    PlainEscapes(key);
    StringReads(key, tail, end);
  }

  /** A member is read once its key and its value are. */
  lemma MemberOf(s: string, key: string, value: string, v: Value, rest: string)
    requires s != [] && s[0] == '"' && ReadString(s[1..]) == Read(key, ":" + value)
    requires SkipSpace(value) == value && ReadValue(value) == Read(v, rest) && EndsValue(rest)
    ensures ReadMember(s) == Read((key, v), rest)
  {
    assert (":" + value)[1..] == value;
  }

  lemma FieldShape(key: string, v: string, rest: string, end: string)
    requires end == "\"" + (":" + (v + rest))
    ensures (("\"" + key + "\":" + v) + rest)[1..] == key + end
  {
  }

  lemma FieldReads(f: Field, rest: string)
    requires PlainKey(f.key) && EndsValue(rest)
    ensures ReadMember(FieldText(f) + rest) == Read((f.key, ValueOf(f.value)), rest)
  {
    var value := ScalarText(f.value) + rest;
    var end := "\"" + (":" + value);
    FieldShape(f.key, ScalarText(f.value), rest, end);
    KeyReads(f.key, ":" + value, end);
    ScalarReads(f.value, rest, value);
    MemberOf(FieldText(f) + rest, f.key, value, ValueOf(f.value), rest);
  }

  function Written(fields: seq<Field>): seq<(string, Value)> {
    if fields == [] then [] else [(fields[0].key, ValueOf(fields[0].value))] + Written(fields[1..])
  }

  ghost predicate PlainKeys(fields: seq<Field>) { forall i :: 0 <= i < |fields| ==> PlainKey(fields[i].key) }

  lemma LastMember(s: string, m: (string, Value), end: string, rest: string)
    requires ReadMember(s) == Read(m, end) && end == "}" + rest
    ensures ReadMembers(s) == Read([m], rest)
  {
    assert end[1..] == rest;
  }

  lemma MoreMembers(s: string, m: (string, Value), more: string, members: seq<(string, Value)>, rest: string)
    requires ReadMember(s) == Read(m, "," + more) && SkipSpace(more) == more && ReadMembers(more) == Read(members, rest)
    ensures ReadMembers(s) == Read([m] + members, rest)
  {
    assert ("," + more)[1..] == more;
  }

  lemma Regroup(a: string, b: string, c: string)
    ensures (a + "," + b) + c == a + ("," + (b + c))
  {
  }

  lemma FieldStarts(f: Field)
    ensures FieldText(f) != [] && FieldText(f)[0] == '"'
  {
  }

  lemma MembersStart(fields: seq<Field>)
    requires fields != []
    ensures Members(fields) != [] && Members(fields)[0] == '"'
  {
    FieldStarts(fields[0]);
  }

  lemma OneWritten(fields: seq<Field>)
    requires |fields| == 1
    ensures Written(fields) == [(fields[0].key, ValueOf(fields[0].value))] && Members(fields) == FieldText(fields[0])
  {
    assert fields[1..] == [];
  }

  lemma {:induction false} MembersRead(fields: seq<Field>, end: string, rest: string)
    requires fields != [] && PlainKeys(fields) && end == "}" + rest
    ensures ReadMembers(Members(fields) + end) == Read(Written(fields), rest)
  {
    var m := (fields[0].key, ValueOf(fields[0].value));
    assert PlainKey(fields[0].key);
    if |fields| == 1 {
      FieldReads(fields[0], end);
      LastMember(FieldText(fields[0]) + end, m, end, rest);
      OneWritten(fields);
    } else {
      var more := Members(fields[1..]) + end;
      MembersStart(fields[1..]);
      MembersRead(fields[1..], end, rest);
      FieldReads(fields[0], "," + more);
      assert more != [] && SkipSpace(more) == more;
      MoreMembers(FieldText(fields[0]) + ("," + more), m, more, Written(fields[1..]), rest);
      Regroup(FieldText(fields[0]), Members(fields[1..]), end);
    }
  }

  lemma ObjectOfMembers(s: string, text: string, members: seq<(string, Value)>)
    requires s == "{" + text && text != [] && text[0] == '"' && ReadMembers(text) == Read(members, [])
    ensures ReadObject(s) == Some(ObjectOf(members))
  {
    assert s[1..] == text;
  }

  lemma EmptyObject(s: string)
    requires s == "{" + [] + "}"
    ensures ReadObject(s) == Some(map[])
  {
    assert s[1..] == "}" && s[1..][1..] == [] && SkipSpace(s) == s && SkipSpace("}") == "}";
  }

  /** A rendered object reads back as its fields. */
  lemma ObjectReads(fields: seq<Field>)
    requires PlainKeys(fields)
    ensures ReadObject(Render(fields)) == Some(ObjectOf(Written(fields)))
  {
    var s := Render(fields);
    if fields == [] {
      EmptyObject(s);
    } else {
      MembersRead(fields, "}", []);
      MembersStart(fields);
      assert s == "{" + (Members(fields) + "}");
      ObjectOfMembers(s, Members(fields) + "}", Written(fields));
    }
  }

  // ---------------------------------------------------------------------------------------------
  // Arrays of objects
  // ---------------------------------------------------------------------------------------------

  /** The rendered items with commas between. */
  function ItemsText(items: seq<seq<Field>>): string {
    if items == [] then []
    else if |items| == 1 then Render(items[0])
    else Render(items[0]) + "," + ItemsText(items[1..])
  }

  function ArrayText(items: seq<seq<Field>>): string { "[" + ItemsText(items) + "]" }

  lemma {:induction false} ItemsPush(items: seq<seq<Field>>, item: seq<Field>)
    ensures ItemsText(items + [item]) == if items == [] then Render(item) else ItemsText(items) + "," + Render(item)
  {
    if items == [] {
      assert items + [item] == [item];
    } else {
      ItemsPush(items[1..], item);
      assert (items + [item])[1..] == items[1..] + [item];
    }
  }

  function AllWritten(items: seq<seq<Field>>): seq<seq<(string, Value)>> {
    if items == [] then [] else [Written(items[0])] + AllWritten(items[1..])
  }

  ghost predicate AllPlain(items: seq<seq<Field>>) { forall i :: 0 <= i < |items| ==> PlainKeys(items[i]) }

  lemma ItemOfMembers(s: string, text: string, members: seq<(string, Value)>, rest: string)
    requires s == "{" + text && text != [] && text[0] == '"' && ReadMembers(text) == Read(members, rest) && |rest| < |s|
    ensures ReadItem(s) == Read(members, rest)
  {
    assert s[1..] == text;
  }

  lemma RenderShape(m: string, rest: string)
    ensures ("{" + m + "}") + rest == "{" + (m + ("}" + rest))
  {
  }

  lemma EmptyItem(rest: string, s: string)
    requires s == "{" + ("}" + rest)
    ensures ReadItem(s) == Read([], rest)
  {
    assert s[1..] == "}" + rest && s[1..][1..] == rest;
  }

  lemma ItemReads(fields: seq<Field>, rest: string, s: string)
    requires PlainKeys(fields) && s == Render(fields) + rest
    ensures ReadItem(s) == Read(Written(fields), rest)
  {
    var end := "}" + rest;
    RenderShape(Members(fields), rest);
    if fields == [] {
      assert [] + end == end;
      EmptyItem(rest, s);
    } else {
      MembersRead(fields, end, rest);
      MembersStart(fields);
      ItemOfMembers(s, Members(fields) + end, Written(fields), rest);
    }
  }

  lemma LastItem(s: string, item: seq<(string, Value)>, end: string, rest: string)
    requires ReadItem(s) == Read(item, end) && end == "]" + rest
    ensures ReadItems(s) == Read([item], rest)
  {
    assert end[1..] == rest;
  }

  lemma MoreItems(s: string, item: seq<(string, Value)>, more: string, items: seq<seq<(string, Value)>>, rest: string)
    requires ReadItem(s) == Read(item, "," + more) && SkipSpace(more) == more && ReadItems(more) == Read(items, rest)
    ensures ReadItems(s) == Read([item] + items, rest)
  {
    assert ("," + more)[1..] == more;
  }

  lemma ItemsStart(items: seq<seq<Field>>)
    requires items != []
    ensures ItemsText(items) != [] && ItemsText(items)[0] == '{'
  {
    assert Render(items[0])[0] == '{';
  }

  lemma OneItem(items: seq<seq<Field>>)
    requires |items| == 1
    ensures AllWritten(items) == [Written(items[0])] && ItemsText(items) == Render(items[0])
  {
    assert items[1..] == [];
  }

  lemma {:induction false} ItemsRead(items: seq<seq<Field>>, end: string, rest: string)
    requires items != [] && AllPlain(items) && end == "]" + rest
    ensures ReadItems(ItemsText(items) + end) == Read(AllWritten(items), rest)
  {
    assert PlainKeys(items[0]);
    if |items| == 1 {
      OneItem(items);
      ItemReads(items[0], end, Render(items[0]) + end);
      LastItem(Render(items[0]) + end, Written(items[0]), end, rest);
    } else {
      var more := ItemsText(items[1..]) + end;
      ItemsStart(items[1..]);
      ItemsRead(items[1..], end, rest);
      ItemReads(items[0], "," + more, Render(items[0]) + ("," + more));
      assert more != [] && SkipSpace(more) == more;
      MoreItems(Render(items[0]) + ("," + more), Written(items[0]), more, AllWritten(items[1..]), rest);
      Regroup(Render(items[0]), ItemsText(items[1..]), end);
    }
  }

  lemma ArrayOfItems(s: string, text: string, items: seq<seq<(string, Value)>>)
    requires s == "[" + text && text != [] && text[0] == '{' && ReadItems(text) == Read(items, [])
    ensures ReadArray(s) == Some(items)
  {
    assert s[1..] == text;
  }

  lemma EmptyArray(s: string)
    requires s == "[" + [] + "]"
    ensures ReadArray(s) == Some([])
  {
    assert s[1..] == "]" && s[1..][1..] == [] && SkipSpace(s) == s && SkipSpace("]") == "]";
  }

  /** A rendered array reads back as its items. */
  lemma ArrayReads(items: seq<seq<Field>>)
    requires AllPlain(items)
    ensures ReadArray(ArrayText(items)) == Some(AllWritten(items))
  {
    var s := ArrayText(items);
    if items == [] {
      EmptyArray(s);
    } else {
      ItemsRead(items, "]", []);
      ItemsStart(items);
      assert s == "[" + (ItemsText(items) + "]");
      ArrayOfItems(s, ItemsText(items) + "]", AllWritten(items));
    }
  }

  lemma {:induction false} WrittenIsInjective(a: seq<Field>, b: seq<Field>)
    requires Written(a) == Written(b)
    ensures a == b
  {
    if a == [] {
      assert b == [];
    } else {
      assert b != [];
      assert Written(a)[0] == Written(b)[0] && Written(a)[1..] == Written(a[1..]) && Written(b)[1..] == Written(b[1..]);
      assert a[0] == b[0];
      WrittenIsInjective(a[1..], b[1..]);
      assert a == [a[0]] + a[1..] && b == [b[0]] + b[1..];
    }
  }

  lemma {:induction false} AllWrittenIsInjective(a: seq<seq<Field>>, b: seq<seq<Field>>)
    requires AllWritten(a) == AllWritten(b)
    ensures a == b
  {
    if a == [] {
      assert b == [];
    } else {
      assert b != [];
      assert AllWritten(a)[0] == AllWritten(b)[0];
      assert AllWritten(a)[1..] == AllWritten(a[1..]) && AllWritten(b)[1..] == AllWritten(b[1..]);
      WrittenIsInjective(a[0], b[0]);
      AllWrittenIsInjective(a[1..], b[1..]);
      assert a == [a[0]] + a[1..] && b == [b[0]] + b[1..];
    }
  }

  /** Two lists of items share a text only if they are the same. */
  lemma ArrayTextIsInjective(a: seq<seq<Field>>, b: seq<seq<Field>>)
    requires AllPlain(a) && AllPlain(b) && ArrayText(a) == ArrayText(b)
    ensures a == b
  {
    ArrayReads(a);
    ArrayReads(b);
    AllWrittenIsInjective(a, b);
  }

  // ---------------------------------------------------------------------------------------------
  // No line breaks
  // ---------------------------------------------------------------------------------------------

  /** Whatever the texts in it, what is written is one line. */
  ghost predicate OneLine(s: string) { forall i :: 0 <= i < |s| ==> s[i] != '\n' }

  lemma OneLineJoins(a: string, b: string)
    ensures OneLine(a + b) <==> OneLine(a) && OneLine(b)
  {
    forall i | 0 <= i < |a| ensures (a + b)[i] == a[i] { }
    forall i | 0 <= i < |b| ensures (a + b)[|a| + i] == b[i] { }
    if OneLine(a + b) {
      forall i | 0 <= i < |b| ensures b[i] != '\n' { assert (a + b)[|a| + i] != '\n'; }
      forall i | 0 <= i < |a| ensures a[i] != '\n' { assert (a + b)[i] != '\n'; }
    }
  }

  lemma {:induction false} EscapedIsOneLine(s: string)
    ensures OneLine(Escaped(s))
  {
    if s != [] {
      EscapedIsOneLine(s[1..]);
      OneLineJoins(Escape(s[0]), Escaped(s[1..]));
    }
  }

  lemma ScalarIsOneLine(v: Scalar)
    ensures OneLine(ScalarText(v))
  {
    match v
    case Int(n) =>
    case Text(s) => EscapedIsOneLine(s); OneLineJoins("\"", Escaped(s)); OneLineJoins("\"" + Escaped(s), "\"");
    case Null =>
  }

  lemma FieldIsOneLine(f: Field)
    requires PlainKey(f.key)
    ensures OneLine(FieldText(f))
  {
    forall i | 0 <= i < |f.key| ensures f.key[i] != '\n' { assert Plain(f.key[i]); }
    ScalarIsOneLine(f.value);
    OneLineJoins("\"", f.key);
    OneLineJoins("\"" + f.key, "\":");
    OneLineJoins(KeyText(f.key), ScalarText(f.value));
  }

  lemma {:induction false} MembersAreOneLine(fields: seq<Field>)
    requires PlainKeys(fields)
    ensures OneLine(Members(fields))
  {
    if fields != [] {
      FieldIsOneLine(fields[0]);
      if |fields| > 1 {
        MembersAreOneLine(fields[1..]);
        OneLineJoins(FieldText(fields[0]), ",");
        OneLineJoins(FieldText(fields[0]) + ",", Members(fields[1..]));
      }
    }
  }

  lemma RenderIsOneLine(fields: seq<Field>)
    requires PlainKeys(fields)
    ensures OneLine(Render(fields))
  {
    MembersAreOneLine(fields);
    OneLineJoins("{", Members(fields));
    OneLineJoins("{" + Members(fields), "}");
  }

  lemma {:induction false} ItemsAreOneLine(items: seq<seq<Field>>)
    requires AllPlain(items)
    ensures OneLine(ItemsText(items))
  {
    if items != [] {
      RenderIsOneLine(items[0]);
      if |items| > 1 {
        ItemsAreOneLine(items[1..]);
        OneLineJoins(Render(items[0]), ",");
        OneLineJoins(Render(items[0]) + ",", ItemsText(items[1..]));
      }
    }
  }

  lemma ArrayIsOneLine(items: seq<seq<Field>>)
    requires AllPlain(items)
    ensures OneLine(ArrayText(items))
  {
    ItemsAreOneLine(items);
    OneLineJoins("[", ItemsText(items));
    OneLineJoins("[" + ItemsText(items), "]");
  }
}
