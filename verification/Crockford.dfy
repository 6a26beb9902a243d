/** The display codes of crates/core-ids/src/lib.rs: 128 bits as Crockford base32. */
module Crockford {
  import opened Bits
  import opened Common

  /** The value of a symbol. */
  type Five = n: nat | n < 32

  /** The bits of a byte and of a symbol. */
  const BYTE_WIDTH: nat := 8
  const SYMBOL_WIDTH: nat := 5

  datatype IdError = BadLength | BadDisplayId

  // ---------------------------------------------------------------------------------------------
  // The alphabet
  // ---------------------------------------------------------------------------------------------

  const CROCKFORD := "0123456789ABCDEFGHJKMNPQRSTVWXYZ"

  /** `CROCKFORD[p]`, spelled out by its runs. */
  function Symbol(p: Five): char {
    if p < 10 then '0' + p as char
    else if p < 18 then 'A' + (p - 10) as char
    else if p < 20 then 'J' + (p - 18) as char
    else if p < 22 then 'M' + (p - 20) as char
    else if p < 27 then 'P' + (p - 22) as char
    else 'V' + (p - 27) as char
  }

  lemma SymbolsSpellTheAlphabet(p: Five)
    ensures p < |CROCKFORD| && Symbol(p) == CROCKFORD[p]
  {
  }

  /** The position of a character in the alphabet. */
  function Position(c: char): (p: Option<Five>)
    ensures p.Some? ==> Symbol(p.value) == c
    ensures p.None? ==> forall q: Five :: Symbol(q) != c
  {
    if '0' <= c <= '9' then Some((c - '0') as nat)
    else if 'A' <= c <= 'H' then Some((c - 'A') as nat + 10)
    else if 'J' <= c <= 'K' then Some((c - 'J') as nat + 18)
    else if 'M' <= c <= 'N' then Some((c - 'M') as nat + 20)
    else if 'P' <= c <= 'T' then Some((c - 'P') as nat + 22)
    else if 'V' <= c <= 'Z' then Some((c - 'V') as nat + 27)
    else None
  }

  function Upper(c: char): char {
    if 'a' <= c <= 'z' then (c as int - 32) as char else c
  }

  /** `decode_char`. */
  function Value(c: char): Option<Five> {
    var u := Upper(c);
    Position(if u == 'O' then '0' else if u == 'I' || u == 'L' then '1' else u)
  }

  const SMALL := "0123456789abcdefghjkmnpqrstvwxyz"

  /** The whole table: the alphabet in either case, and O, I and L as the digits they look like. */
  lemma ReadsExactly(c: char, p: Five)
    ensures |SMALL| == |CROCKFORD| == 32
    ensures Value(c) == Some(p) <==>
      || c == CROCKFORD[p] || c == SMALL[p]
      || (p == 0 && (c == 'O' || c == 'o'))
      || (p == 1 && (c == 'I' || c == 'i' || c == 'L' || c == 'l'))
  {
    SymbolsSpellTheAlphabet(p);
    SmallIsUpper(p);
    if Value(c) == Some(p) { OneSymbolFor(c, p); }
  }

  /** A character in small or capital form of the symbol, or one read as 0 or 1. */
  lemma OneSymbolFor(c: char, p: Five)
    requires Value(c) == Some(p)
    ensures c == Symbol(p) || c == Small(p) || (p == 0 && (c == 'O' || c == 'o'))
      || (p == 1 && (c == 'I' || c == 'i' || c == 'L' || c == 'l'))
  {
  }

  function Small(p: Five): char { if p < 10 then Symbol(p) else (Symbol(p) as int + 32) as char }

  lemma SmallIsUpper(p: Five)
    ensures p < |SMALL| && Small(p) == SMALL[p] && Value(Small(p)) == Some(p) && Value(Symbol(p)) == Some(p)
  {
  }

  /** `d` is another spelling of the symbol `c`: either case, and the letters Crockford reads as digits. */
  predicate Respells(c: char, d: char) {
    Upper(d) == c || (c == '0' && d in "Oo") || (c == '1' && d in "IiLl")
  }

  predicate Respelled(s: string, t: string) {
    |s| == |t| && forall i :: 0 <= i < |s| ==> Respells(s[i], t[i])
  }

  /** Exactly the spellings of a symbol have its value. */
  lemma SpellingsHaveTheValue(p: Five, d: char)
    ensures Value(d) == Some(p) <==> Respells(Symbol(p), d)
  {
  }

  /** The values of a string of symbols, if they all are. */
  function Values(s: string): (v: Option<seq<Five>>)
    ensures v.Some? ==> |v.value| == |s|
  {
    if s == [] then Some([])
    else
      var front, last := Values(s[..|s| - 1]), Value(s[|s| - 1]);
      if front.Some? && last.Some? then Some(front.value + [last.value]) else None
  }

  function Spell(fives: seq<Five>): (s: string)
    ensures |s| == |fives|
  {
    if fives == [] then [] else Spell(fives[..|fives| - 1]) + [Symbol(fives[|fives| - 1])]
  }

  lemma RespelledPush(s: string, c: char, t: string, d: char)
    ensures Respelled(s + [c], t + [d]) <==> Respelled(s, t) && Respells(c, d)
  {
    if Respelled(s + [c], t + [d]) {
      forall i | 0 <= i < |s| ensures Respells(s[i], t[i]) { assert Respells((s + [c])[i], (t + [d])[i]); }
      assert Respells((s + [c])[|s|], (t + [d])[|s|]);
    }
  }

  lemma {:induction false} ValuesOfSpellings(fives: seq<Five>, s: string)
    ensures Values(s) == Some(fives) <==> Respelled(Spell(fives), s)
  {
    if s != [] && |s| == |fives| {
      var n := |s| - 1;
      assert fives == fives[..n] + [fives[n]] && s == s[..n] + [s[n]];
      ValuesOfSpellings(fives[..n], s[..n]);
      SpellingsHaveTheValue(fives[n], s[n]);
      RespelledPush(Spell(fives[..n]), Symbol(fives[n]), s[..n], s[n]);
    }
  }

  lemma {:induction false} ValuesExactly(s: string)
    ensures Values(s).Some? <==> forall i :: 0 <= i < |s| ==> Value(s[i]).Some?
  {
    if s != [] {
      var n := |s| - 1;
      ValuesExactly(s[..n]);
      assert forall i :: 0 <= i < n ==> s[..n][i] == s[i];
    }
  }

  // ---------------------------------------------------------------------------------------------
  // What the codes mean
  // ---------------------------------------------------------------------------------------------

  function ByteBits(bytes: seq<byte>): (b: seq<bool>)
    ensures |b| == 8 * |bytes|
  {
    if bytes == [] then [] else ByteBits(bytes[..|bytes| - 1]) + BitsOf(bytes[|bytes| - 1], BYTE_WIDTH)
  }

  function FiveBits(fives: seq<Five>): (b: seq<bool>)
    ensures |b| == 5 * |fives|
  {
    if fives == [] then [] else FiveBits(fives[..|fives| - 1]) + BitsOf(fives[|fives| - 1], SYMBOL_WIDTH)
  }

  function ByteAt(bits: seq<bool>): byte
    requires |bits| == 8
  {
    BitsOfFromBits(bits); WordIsPow2();
    FromBits(bits)
  }

  function FiveAt(bits: seq<bool>): Five
    requires |bits| == 5
  {
    BitsOfFromBits(bits); WordIsPow2();
    FromBits(bits)
  }

  lemma ByteAtBits(b: byte, bits: seq<bool>)
    requires |bits| == 8
    ensures b == ByteAt(bits) <==> BitsOf(b, BYTE_WIDTH) == bits
  {
    BitsOfFromBits(bits);
    WordIsPow2();
    FromBitsOf(b, BYTE_WIDTH);
  }

  lemma FiveAtBits(f: Five, bits: seq<bool>)
    requires |bits| == 5
    ensures f == FiveAt(bits) <==> BitsOf(f, SYMBOL_WIDTH) == bits
  {
    BitsOfFromBits(bits);
    WordIsPow2();
    FromBitsOf(f, SYMBOL_WIDTH);
  }

  /** The bytes a bit string is made of. */
  function BytesOf(bits: seq<bool>): seq<byte>
    requires |bits| % 8 == 0
  {
    if bits == [] then [] else BytesOf(bits[..|bits| - 8]) + [ByteAt(bits[|bits| - 8..])]
  }

  /** The symbol values a bit string is made of. */
  function FivesOf(bits: seq<bool>): seq<Five>
    requires |bits| % 5 == 0
  {
    if bits == [] then [] else FivesOf(bits[..|bits| - 5]) + [FiveAt(bits[|bits| - 5..])]
  }

  /** The code of 16 bytes: their 128 bits and two zeros, five bits to a symbol. */
  function Encoded(bytes: seq<byte>): string
    requires |bytes| == 16
  {
    Spell(FivesOf(ByteBits(bytes) + [false, false]))
  }

  /** The bytes a code stands for: its first whole bytes, when they are sixteen. */
  function Decoded(s: string): Result<seq<byte>, IdError> {
    if Values(s).Some? && 5 * |s| / 8 == 16 then Ok(BytesOf(FiveBits(Values(s).value)[..128])) else Err(BadDisplayId)
  }

  lemma ByteBitsPush(bytes: seq<byte>, b: byte)
    ensures ByteBits(bytes + [b]) == ByteBits(bytes) + BitsOf(b, BYTE_WIDTH)
  {
    assert (bytes + [b])[..|bytes|] == bytes;
  }

  lemma FiveBitsPush(fives: seq<Five>, f: Five)
    ensures FiveBits(fives + [f]) == FiveBits(fives) + BitsOf(f, SYMBOL_WIDTH)
  {
    assert (fives + [f])[..|fives|] == fives;
  }

  lemma BytesOfPush(front: seq<bool>, last: seq<bool>)
    requires |front| % 8 == 0 && |last| == 8
    ensures BytesOf(front + last) == BytesOf(front) + [ByteAt(last)]
  {
    var n := |front|;
    assert (front + last)[..n] == front && (front + last)[n..] == last;
  }

  lemma FivesOfPush(front: seq<bool>, last: seq<bool>)
    requires |front| % 5 == 0 && |last| == 5
    ensures FivesOf(front + last) == FivesOf(front) + [FiveAt(last)]
  {
    var n := |front|;
    assert (front + last)[..n] == front && (front + last)[n..] == last;
  }

  lemma {:induction false} BytesOfByteBits(bytes: seq<byte>)
    ensures BytesOf(ByteBits(bytes)) == bytes
  {
    if bytes != [] {
      var front, last := bytes[..|bytes| - 1], bytes[|bytes| - 1];
      assert bytes == front + [last];
      BytesOfByteBits(front);
      BytesOfPush(ByteBits(front), BitsOf(last, BYTE_WIDTH));
      ByteAtBits(last, BitsOf(last, BYTE_WIDTH));
    }
  }

  lemma {:induction false} ByteBitsOf(bits: seq<bool>)
    requires |bits| % 8 == 0
    ensures ByteBits(BytesOf(bits)) == bits
  {
    if bits != [] {
      var n := |bits| - 8;
      var front, last := bits[..n], bits[n..];
      assert bits == front + last;
      ByteBitsOf(front);
      ByteAtBits(ByteAt(last), last);
      ByteBitsPush(BytesOf(front), ByteAt(last));
    }
  }

  lemma {:induction false} FivesOfFiveBits(fives: seq<Five>)
    ensures FivesOf(FiveBits(fives)) == fives
  {
    if fives != [] {
      var front, last := fives[..|fives| - 1], fives[|fives| - 1];
      assert fives == front + [last];
      FivesOfFiveBits(front);
      FivesOfPush(FiveBits(front), BitsOf(last, SYMBOL_WIDTH));
      FiveAtBits(last, BitsOf(last, SYMBOL_WIDTH));
    }
  }

  lemma {:induction false} FiveBitsOf(bits: seq<bool>)
    requires |bits| % 5 == 0
    ensures FiveBits(FivesOf(bits)) == bits
  {
    if bits != [] {
      var n := |bits| - 5;
      var front, last := bits[..n], bits[n..];
      assert bits == front + last;
      FiveBitsOf(front);
      FiveAtBits(FiveAt(last), last);
      FiveBitsPush(FivesOf(front), FiveAt(last));
    }
  }

  // ---------------------------------------------------------------------------------------------
  // The two loops
  // ---------------------------------------------------------------------------------------------

  /** The bits above the low `bits` of the buffer come out as one symbol or byte. */
  lemma Emit(buffer: nat, bits: nat, width: nat, n: nat, shifted: nat, word: nat)
    requires shifted == buffer / Pow2(bits) && word == shifted % Pow2(width) && n == width + bits
    ensures BitsOf(buffer, n) == BitsOf(word, width) + BitsOf(buffer, bits)
  {
    SplitBits(buffer, width, bits, shifted);
    LowBits(shifted, width, width);
  }

  /** The symbols out and the bits still in the buffer are the bits read. */
  ghost predicate Buffered(out: seq<bool>, buffer: nat, bits: nat, read: seq<bool>) {
    out + BitsOf(buffer, bits) == read
  }

  /** Shifting a word in. The buffer is a `u32`: shifting drops what leaves its 32 bits. */
  lemma Shift(out: seq<bool>, buffer: nat, bits: nat, read: seq<bool>, word: nat, width: nat, factor: nat)
    requires Buffered(out, buffer, bits, read) && factor == Pow2(width) && word < factor && bits + width <= 32
    ensures Buffered(out, (buffer * factor + word) % WORD, bits + width, read + BitsOf(word, width))
  {
    ShiftIn(buffer, bits, word, width);
  }

  lemma ShiftByte(out: seq<bool>, buffer: nat, bits: nat, read: seq<bool>, b: byte)
    requires Buffered(out, buffer, bits, read) && bits < 5
    ensures Buffered(out, (buffer * 256 + b) % WORD, bits + 8, read + BitsOf(b, BYTE_WIDTH))
  {
    WordIsPow2();
    Shift(out, buffer, bits, read, b, BYTE_WIDTH, 256);
  }

  lemma ShiftSymbol(out: seq<bool>, buffer: nat, bits: nat, read: seq<bool>, f: Five)
    requires Buffered(out, buffer, bits, read) && bits < 8
    ensures Buffered(out, (buffer * 32 + f) % WORD, bits + 5, read + BitsOf(f, SYMBOL_WIDTH))
  {
    WordIsPow2();
    Shift(out, buffer, bits, read, f, SYMBOL_WIDTH, 32);
  }

  lemma EmitWord(out: seq<bool>, longer: seq<bool>, buffer: nat, bits: nat, width: nat, n: nat, read: seq<bool>,
                 shifted: nat, word: nat)
    requires Buffered(out, buffer, n, read) && n == width + bits
    requires shifted == buffer / Pow2(bits) && word == shifted % Pow2(width)
    requires longer == out + BitsOf(word, width)
    ensures Buffered(longer, buffer, bits, read)
  {
    Emit(buffer, bits, width, n, shifted, word);
  }

  lemma EmitFive(fives: seq<Five>, buffer: nat, bits: nat, n: nat, read: seq<bool>, shifted: nat, symbol: Five)
    requires Buffered(FiveBits(fives), buffer, n, read) && n == SYMBOL_WIDTH + bits
    requires shifted == buffer / Pow2(bits) && symbol == shifted % Pow2(SYMBOL_WIDTH)
    ensures Buffered(FiveBits(fives + [symbol]), buffer, bits, read)
  {
    FiveBitsPush(fives, symbol);
    EmitWord(FiveBits(fives), FiveBits(fives + [symbol]), buffer, bits, SYMBOL_WIDTH, n, read, shifted, symbol);
  }

  lemma EmitEight(bytes: seq<byte>, buffer: nat, bits: nat, n: nat, read: seq<bool>, shifted: nat, low: byte)
    requires Buffered(ByteBits(bytes), buffer, n, read) && n == BYTE_WIDTH + bits
    requires shifted == buffer / Pow2(bits) && low == shifted % Pow2(BYTE_WIDTH)
    ensures Buffered(ByteBits(bytes + [low]), buffer, bits, read)
  {
    ByteBitsPush(bytes, low);
    EmitWord(ByteBits(bytes), ByteBits(bytes + [low]), buffer, bits, BYTE_WIDTH, n, read, shifted, low);
  }

  lemma SpellPush(fives: seq<Five>, f: Five)
    ensures Spell(fives + [f]) == Spell(fives) + [Symbol(f)]
  {
    assert (fives + [f])[..|fives|] == fives;
  }

  /** One turn of the inner loop of `encode_crockford`: the symbol above the low `bits` bits. */
  method EmitSymbol(out: string, ghost fives: seq<Five>, buffer: nat, bits: nat, ghost read: seq<bool>)
    returns (longer: string, ghost more: seq<Five>)
    requires out == Spell(fives) && Buffered(FiveBits(fives), buffer, bits + 5, read)
    ensures longer == Spell(more) && |more| == |fives| + 1 && Buffered(FiveBits(more), buffer, bits, read)
  {
    var symbol := buffer / Pow2(bits) % 32;
    WordIsPow2();
    EmitFive(fives, buffer, bits, bits + 5, read, buffer / Pow2(bits), symbol);
    SpellPush(fives, symbol);
    SymbolsSpellTheAlphabet(symbol);
    longer, more := out + [CROCKFORD[symbol]], fives + [symbol];
  }

  /** The inner loop: symbols go out while there are five bits or more. */
  method EmitSymbols(out: string, ghost fives: seq<Five>, buffer: nat, bits: nat, ghost read: seq<bool>)
    returns (longer: string, ghost more: seq<Five>, bits': nat)
    requires out == Spell(fives) && Buffered(FiveBits(fives), buffer, bits, read)
    ensures bits' < 5 && longer == Spell(more) && Buffered(FiveBits(more), buffer, bits', read)
  {
    longer, more, bits' := out, fives, bits;
    while bits' >= 5
      invariant longer == Spell(more) && Buffered(FiveBits(more), buffer, bits', read)
    {
      bits' := bits' - 5;
      longer, more := EmitSymbol(longer, more, buffer, bits', read);
    }
  }

  /** A byte is read, and the symbols it completes go out. */
  method EncodeByte(out: string, ghost fives: seq<Five>, buffer: nat, bits: nat, ghost read: seq<bool>, b: byte)
    returns (longer: string, ghost more: seq<Five>, buffer': nat, bits': nat)
    requires bits < 5 && out == Spell(fives) && Buffered(FiveBits(fives), buffer, bits, read)
    ensures bits' < 5 && longer == Spell(more)
      && Buffered(FiveBits(more), buffer', bits', read + BitsOf(b, BYTE_WIDTH))
  {
    ShiftByte(FiveBits(fives), buffer, bits, read, b);
    buffer' := (buffer * 256 + b) % WORD;
    longer, more, bits' := EmitSymbols(out, fives, buffer', bits + 8, read + BitsOf(b, BYTE_WIDTH));
  }

  /** The loop of `encode_crockford`. */
  method EncodeBytes(bytes: seq<byte>) returns (out: string, ghost fives: seq<Five>, buffer: nat, bits: nat)
    ensures bits < 5 && out == Spell(fives) && Buffered(FiveBits(fives), buffer, bits, ByteBits(bytes))
  {
    out, fives, buffer, bits := [], [], 0, 0;
    for k := 0 to |bytes|
      invariant bits < 5 && out == Spell(fives) && Buffered(FiveBits(fives), buffer, bits, ByteBits(bytes[..k]))
    {
      assert bytes[..k + 1][..k] == bytes[..k];
      out, fives, buffer, bits := EncodeByte(out, fives, buffer, bits, ByteBits(bytes[..k]), bytes[k]);
    }
    assert bytes[..|bytes|] == bytes;
  }

  /** `encode_crockford`. */
  method EncodeCrockford(bytes: seq<byte>) returns (out: string)
    requires |bytes| == 16
    ensures out == Encoded(bytes)
  {
    ghost var fives: seq<Five>;
    var buffer: nat, bits: nat;
    out, fives, buffer, bits := EncodeBytes(bytes);
    ghost var read := ByteBits(bytes);
    PadsWithZeros(FiveBits(fives), buffer, bits, read);
    if bits > 0 {
      out, fives := EmitSymbol(out, fives, buffer * 4 % WORD, 0, read + [false, false]);
    }
    assert FiveBits(fives) == read + [false, false];
    FivesOfFiveBits(fives);
  }

  /** The last shift, left by `5 - bits`, pads the three bits left over to a symbol. */
  lemma PadsWithZeros(out: seq<bool>, buffer: nat, bits: nat, read: seq<bool>)
    requires bits < 5 && |out| % 5 == 0 && |read| == 128 && Buffered(out, buffer, bits, read)
    ensures bits == 3 && Buffered(out, buffer * 4 % WORD, 5, read + [false, false])
  {
    assert Pow2(2) == 4 && BitsOf(0, 2) == [false, false];
    Shift(out, buffer, 3, read, 0, 2, 4);
  }

  method EmitByte(out: seq<byte>, buffer: nat, bits: nat, ghost read: seq<bool>) returns (longer: seq<byte>)
    requires Buffered(ByteBits(out), buffer, bits + 8, read)
    ensures Buffered(ByteBits(longer), buffer, bits, read)
  {
    var low := buffer / Pow2(bits) % 256;
    WordIsPow2();
    EmitEight(out, buffer, bits, bits + 8, read, buffer / Pow2(bits), low);
    longer := out + [low];
  }

  /** One turn of the loop of `decode_crockford`: a symbol is read, and a byte goes out if there is one. */
  method DecodeSymbol(out: seq<byte>, buffer: nat, bits: nat, ghost read: seq<bool>, value: Five)
    returns (longer: seq<byte>, buffer': nat, bits': nat)
    requires bits < 8 && Buffered(ByteBits(out), buffer, bits, read)
    ensures bits' < 8 && Buffered(ByteBits(longer), buffer', bits', read + BitsOf(value, SYMBOL_WIDTH))
  {
    ghost var target := read + BitsOf(value, SYMBOL_WIDTH);
    ShiftSymbol(ByteBits(out), buffer, bits, read, value);
    longer, buffer', bits' := out, (buffer * 32 + value) % WORD, bits + 5;
    if bits' >= 8 {
      bits' := bits' - 8;
      longer := EmitByte(out, buffer', bits', target);
    }
  }

  /** `decode_crockford`. */
  method DecodeCrockford(s: string) returns (r: Result<seq<byte>, IdError>)
    ensures r == Decoded(s)
  {
    var buffer: nat, bits: nat := 0, 0;
    var out: seq<byte> := [];
    ghost var fives: seq<Five> := [];
    for k := 0 to |s|
      invariant bits < 8 && Values(s[..k]) == Some(fives) && Buffered(ByteBits(out), buffer, bits, FiveBits(fives))
    {
      var value := Value(s[k]);
      assert s[..k + 1][..k] == s[..k];
      if value.None? {
        ValuesExactly(s);
        return Err(BadDisplayId);
      }
      out, buffer, bits := DecodeSymbol(out, buffer, bits, FiveBits(fives), value.value);
      assert (fives + [value.value])[..|fives|] == fives;
      fives := fives + [value.value];
    }
    assert s[..|s|] == s;
    if |out| != 16 {
      return Err(BadDisplayId);
    }
    assert FiveBits(fives)[..128] == ByteBits(out);
    BytesOfByteBits(out);
    return Ok(out);
  }

  // ---------------------------------------------------------------------------------------------
  // Round trips
  // ---------------------------------------------------------------------------------------------

  /** Decoding undoes encoding, in any case and with O, I and L for the digits they resemble. */
  lemma DecodeUndoesEncode(bytes: seq<byte>, t: string)
    requires |bytes| == 16 && Respelled(Encoded(bytes), t)
    ensures |t| == 26 && Decoded(t) == Ok(bytes)
  {
    var bits := ByteBits(bytes) + [false, false];
    FiveBitsOf(bits);
    ValuesOfSpellings(FivesOf(bits), t);
    assert bits[..128] == ByteBits(bytes);
    BytesOfByteBits(bytes);
  }

  lemma EncodedSpellsItself(bytes: seq<byte>)
    requires |bytes| == 16
    ensures Respelled(Encoded(bytes), Encoded(bytes))
  {
    SymbolsAreUpper(FivesOf(ByteBits(bytes) + [false, false]));
  }

  lemma {:induction false} SymbolsAreUpper(fives: seq<Five>)
    ensures forall i :: 0 <= i < |fives| ==> Upper(Spell(fives)[i]) == Spell(fives)[i]
  {
    if fives != [] { SymbolsAreUpper(fives[..|fives| - 1]); }
  }

  /** Two ids never share a code. */
  lemma EncodedIsInjective(a: seq<byte>, b: seq<byte>)
    requires |a| == 16 && |b| == 16 && Encoded(a) == Encoded(b)
    ensures a == b
  {
    EncodedSpellsItself(a);
    DecodeUndoesEncode(a, Encoded(a));
    DecodeUndoesEncode(b, Encoded(b));
  }

  /** Exactly the strings of 26 or 27 symbols decode, not only those of the documented 26. */
  lemma DecodesExactly(s: string)
    ensures Decoded(s).Ok? <==> (|s| == 26 || |s| == 27) && forall i :: 0 <= i < |s| ==> Value(s[i]).Some?
  {
    ValuesExactly(s);
  }

  lemma SameBytesSameBits(bytes: seq<byte>, bits: seq<bool>)
    requires |bits| % 8 == 0
    ensures BytesOf(bits) == bytes <==> bits == ByteBits(bytes)
  {
    BytesOfByteBits(bytes);
    ByteBitsOf(bits);
  }

  /** Of what decodes, only the first 128 bits matter: neither padding bits nor a last symbol is looked at. */
  lemma DecodesToTheFirstBits(bytes: seq<byte>, s: string)
    requires |bytes| == 16 && Decoded(s).Ok?
    ensures Decoded(s) == Ok(bytes) <==> FiveBits(Values(s).value)[..128] == ByteBits(bytes)
  {
    SameBytesSameBits(bytes, FiveBits(Values(s).value)[..128]);
  }

  /** So a code with any symbol after it still decodes to its id. */
  lemma ExtraSymbolIsIgnored(bytes: seq<byte>, c: char)
    requires |bytes| == 16 && Value(c).Some?
    ensures |Encoded(bytes) + [c]| == 27 && Decoded(Encoded(bytes) + [c]) == Ok(bytes)
  {
    var s := Encoded(bytes);
    EncodedSpellsItself(bytes);
    DecodeUndoesEncode(bytes, s);
    var longer := s + [c];
    assert longer[..26] == s;
    var v := Values(s).value;
    assert Values(longer) == Some(v + [Value(c).value]);
    assert (v + [Value(c).value])[..26] == v;
    assert FiveBits(v + [Value(c).value])[..128] == FiveBits(v)[..128];
  }
}
