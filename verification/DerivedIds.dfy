/** The identifiers of crates/core-ids/src/derived.rs, minted while a command is applied. */
module DerivedIdentifiers {
  import opened Bits
  import opened Common
  import opened IssuedAtClock

  type Bytes = seq<byte>
  type Digest = b: seq<byte> | |b| == 32 witness seq(32, _ => 0)

  /** HMAC-SHA256, as any function of a key and a message. */
  type Hmac = (Digest, Bytes) -> Digest

  const MAX_ORDINALS := 4096
  const MAX_TAG_LEN := 255
  const MAX_UNIX_MILLIS := 0xFFFF_FFFF_FFFF
  const MAX_PART_LEN := 0xFFFF_FFFF

  datatype Error = EmptyTag | TagTooLong(len: nat) | TagNotPrintableAscii
    | OrdinalOverflow(command: Uuid, attempted: nat) | IssuedAtOutOfRange

  // ---------------------------------------------------------------------------------------------
  // Big-endian numbers
  // ---------------------------------------------------------------------------------------------

  /** The `k` low bytes of `n`. */
  function BigEndian(n: nat, k: nat): (b: Bytes)
    ensures |b| == k
  {
    if k == 0 then [] else BigEndian(n / 256, k - 1) + [n % 256]
  }

  function Number(b: Bytes): nat {
    if b == [] then 0 else 256 * Number(b[..|b| - 1]) + b[|b| - 1]
  }

  lemma Push(b: Bytes, x: byte)
    ensures Number(b + [x]) == 256 * Number(b) + x
  {
    assert (b + [x])[..|b|] == b;
  }

  lemma {:induction false} BigEndianRoundTrip(n: nat, k: nat)
    ensures n < Pow2(8 * k) ==> Number(BigEndian(n, k)) == n
  {
    if k > 0 && n < Pow2(8 * k) {
      Eight(k);
      BigEndianRoundTrip(n / 256, k - 1);
      Push(BigEndian(n / 256, k - 1), n % 256);
    }
  }

  lemma FourDoublings(m: nat)
    ensures Pow2(m + 4) == 16 * Pow2(m)
  {
    assert Pow2(m + 1) == 2 * Pow2(m);
    assert Pow2(m + 2) == 2 * Pow2(m + 1);
    assert Pow2(m + 3) == 2 * Pow2(m + 2);
  }

  lemma EightDoublings(m: nat, n: nat)
    requires n == m + 8
    ensures Pow2(n) == 256 * Pow2(m)
  {
    var half := m + 4;
    FourDoublings(m);
    FourDoublings(half);
  }

  lemma Eight(k: nat)
    requires k > 0
    ensures Pow2(8 * k) == 256 * Pow2(8 * (k - 1))
  {
    EightDoublings(8 * (k - 1), 8 * k);
  }

  lemma {:induction false} NumberRoundTrip(b: Bytes)
    ensures BigEndian(Number(b), |b|) == b
    ensures Number(b) < Pow2(8 * |b|)
  {
    if b != [] {
      var k := |b|;
      NumberRoundTrip(b[..k - 1]);
      Eight(k);
      assert Number(b) / 256 == Number(b[..k - 1]) && Number(b) % 256 == b[k - 1];
      assert b == b[..k - 1] + [b[k - 1]];
    }
  }

  // ---------------------------------------------------------------------------------------------
  // The UUIDv7 layout
  // ---------------------------------------------------------------------------------------------

  predicate Printable(b: byte) { 0x21 <= b <= 0x7e }

  function ValidateTag(tag: Bytes): Result<bool, Error> {
    if tag == [] then Err(EmptyTag)
    else if |tag| > MAX_TAG_LEN then Err(TagTooLong(|tag|))
    else if exists i :: 0 <= i < |tag| && !Printable(tag[i]) then Err(TagNotPrintableAscii)
    else Ok(true)
  }

  /**
  `from_unix_timestamp_millis` (section 5.7 of RFC 9562): 48 bits of time, version 7, 12 bits,
  variant 2, 62 bits.
  */
  function PackV7(millis: nat, counterRandom: Bytes): Uuid
    requires |counterRandom| == 10
  {
    BigEndian(millis, 6)
    + [0x70 + counterRandom[0] % 16, counterRandom[1], 0x80 + counterRandom[2] % 64]
    + counterRandom[3..]
  }

  function OrdinalMessage(command: Uuid, tag: Bytes, ordinal: nat): Bytes
    requires 0 < |tag| <= MAX_TAG_LEN
  {
    command + [|tag|] + tag + BigEndian(ordinal, 2)
  }

  /** The high 62 bits of the digest. */
  function RandB(digest: Digest): nat { Number(digest[..8]) / 4 }

  /** `derive_id`. */
  function DeriveId(hmac: Hmac, key: Digest, issuedAt: IssuedAt, command: Uuid, tag: Bytes, ordinal: nat)
    : Result<Uuid, Error>
  {
    if ValidateTag(tag).Err? then Err(ValidateTag(tag).error)
    else if ordinal >= MAX_ORDINALS then Err(OrdinalOverflow(command, ordinal))
    else if !IsSupported(issuedAt) || !(0 <= Millis(issuedAt) <= MAX_UNIX_MILLIS) then Err(IssuedAtOutOfRange)
    else
      var digest := hmac(key, OrdinalMessage(command, tag, ordinal));
      Ok(PackV7(Millis(issuedAt), [ordinal / 256 % 16, ordinal % 256] + BigEndian(RandB(digest), 8)))
  }

  /** Deriving fails only for a bad tag, a spent ordinal or an unsupported instant: the 48-bit check never decides. */
  lemma DerivesExactly(hmac: Hmac, key: Digest, issuedAt: IssuedAt, command: Uuid, tag: Bytes, ordinal: nat)
    ensures DeriveId(hmac, key, issuedAt, command, tag, ordinal).Ok? <==>
      ValidateTag(tag).Ok? && ordinal < MAX_ORDINALS && IsSupported(issuedAt)
  {
    MillisFit(issuedAt, issuedAt);
  }

  const TWO_62 := 0x4000_0000_0000_0000

  /** The 128-bit value of an id with these fields. */
  function Layout(millis: nat, ordinal: nat, rand: nat): nat {
    (((millis * 16 + 7) * 4096 + ordinal) * 4 + 2) * TWO_62 + rand
  }

  lemma RandBFits(digest: Digest)
    ensures RandB(digest) < TWO_62
  {
    NumberRoundTrip(digest[..8]);
    SixtyFour();
  }

  lemma SixtyFour()
    ensures Pow2(64) == 4 * TWO_62 && Pow2(48) == MAX_UNIX_MILLIS + 1
  {
    WordIsPow2();
    assert Pow2(36) == 16 * WORD;
    assert Pow2(40) == 256 * WORD;
    assert Pow2(44) == 4096 * WORD;
    assert Pow2(48) == 0x1_0000 * WORD;
    assert Pow2(52) == 0x10_0000 * WORD;
    assert Pow2(56) == 0x100_0000 * WORD;
    assert Pow2(60) == 0x1000_0000 * WORD;
    assert Pow2(64) == WORD * WORD;
  }

  /** Eight bytes spelled out. */
  lemma PushAt(r: Bytes, k: nat)
    requires k < |r|
    ensures Number(r[..k + 1]) == 256 * Number(r[..k]) + r[k]
  {
    assert r[..k + 1] == r[..k] + [r[k]];
    Push(r[..k], r[k]);
  }

  lemma NumberOfFour(r: Bytes)
    requires |r| >= 4
    ensures Number(r[..4]) == ((r[0] as int * 256 + r[1]) * 256 + r[2]) * 256 + r[3]
  {
    PushAt(r, 0);
    PushAt(r, 1);
    PushAt(r, 2);
    PushAt(r, 3);
  }

  lemma NumberOfEight(r: Bytes)
    requires |r| == 8
    ensures Number(r) ==
      ((((((r[0] as int * 256 + r[1]) * 256 + r[2]) * 256 + r[3]) * 256 + r[4]) * 256 + r[5]) * 256 + r[6]) * 256 + r[7]
  {
    NumberOfFour(r);
    PushAt(r, 4);
    PushAt(r, 5);
    PushAt(r, 6);
    PushAt(r, 7);
    assert r[..8] == r;
  }

  lemma {:induction false} NumberOfJoin(a: Bytes, b: Bytes)
    ensures Number(a + b) == Number(a) * Pow2(8 * |b|) + Number(b)
  {
    if b == [] {
      assert a + b == a;
    } else {
      var k := |b|;
      NumberOfJoin(a, b[..k - 1]);
      Eight(k);
      Push(a + b[..k - 1], b[k - 1]);
      assert a + b == a + b[..k - 1] + [b[k - 1]];
      Regroup(Number(a), Pow2(8 * (k - 1)), Number(b[..k - 1]), b[k - 1]);
    }
  }

  lemma Regroup(a: nat, p: nat, b: nat, x: nat)
    ensures 256 * (a * p + b) + x == a * (256 * p) + (256 * b + x)
  {
    assert a * (256 * p) == 256 * (a * p);
  }

  lemma VariantBits(r: Bytes)
    requires |r| == 8 && Number(r) < TWO_62
    ensures r[0] < 64 && Number([0x80 + r[0] % 64] + r[1..]) == 2 * TWO_62 + Number(r)
  {
    NumberOfEight(r);
    var s := [0x80 + r[0] % 64] + r[1..];
    NumberOfEight(s);
    assert s[1] == r[1] && s[2] == r[2] && s[3] == r[3] && s[4] == r[4] && s[5] == r[5] && s[6] == r[6] && s[7] == r[7];
  }

  /** The last eight bytes: the variant bits over 62 random ones. */
  lemma VariantOver(rand: nat) returns (r: Bytes)
    requires rand < TWO_62
    ensures r == BigEndian(rand, 8) && r[0] < 64
    ensures Number([0x80 + r[0] % 64] + r[1..]) == 2 * TWO_62 + rand
  {
    r := BigEndian(rand, 8);
    SixtyFour();
    BigEndianRoundTrip(rand, 8);
    VariantBits(r);
  }

  /** The first eight bytes: the time, the version, the ordinal. */
  lemma TimeAndOrdinal(millis: nat, ordinal: nat)
    requires millis <= MAX_UNIX_MILLIS && ordinal < MAX_ORDINALS
    ensures Number(BigEndian(millis, 6) + [0x70 + ordinal / 256 % 16, ordinal % 256])
      == (millis * 16 + 7) * 4096 + ordinal
  {
    var time, version := BigEndian(millis, 6), 0x70 + ordinal / 256 % 16;
    SixtyFour();
    BigEndianRoundTrip(millis, 6);
    Push(time, version);
    Push(time + [version], ordinal % 256);
    assert time + [version, ordinal % 256] == time + [version] + [ordinal % 256];
  }

  lemma PackedBytes(millis: nat, ordinal: nat, r: Bytes)
    requires ordinal < MAX_ORDINALS && |r| == 8
    ensures PackV7(millis, [ordinal / 256 % 16, ordinal % 256] + r)
      == (BigEndian(millis, 6) + [0x70 + ordinal / 256 % 16, ordinal % 256]) + ([0x80 + r[0] % 64] + r[1..])
  {
    var counterRandom := [ordinal / 256 % 16, ordinal % 256] + r;
    assert counterRandom[3..] == r[1..];
  }

  lemma LayoutOfHalves(millis: nat, ordinal: nat, rand: nat, high: nat, low: nat)
    requires high == (millis * 16 + 7) * 4096 + ordinal && low == 2 * TWO_62 + rand
    ensures high * (4 * TWO_62) + low == Layout(millis, ordinal, rand)
  {
  }

  lemma NumberOfHalves(high: Bytes, low: Bytes)
    requires |low| == 8
    ensures Number(high + low) == Number(high) * (4 * TWO_62) + Number(low)
  {
    NumberOfJoin(high, low);
    SixtyFour();
  }

  /** The bytes of an id, as a number, are its fields in order. */
  lemma PackedNumber(millis: nat, ordinal: nat, rand: nat)
    requires millis <= MAX_UNIX_MILLIS && ordinal < MAX_ORDINALS && rand < TWO_62
    ensures Number(PackV7(millis, [ordinal / 256 % 16, ordinal % 256] + BigEndian(rand, 8))) ==
      Layout(millis, ordinal, rand)
  {
    var r := VariantOver(rand);
    var high := BigEndian(millis, 6) + [0x70 + ordinal / 256 % 16, ordinal % 256];
    var low := [0x80 + r[0] % 64] + r[1..];
    TimeAndOrdinal(millis, ordinal);
    PackedBytes(millis, ordinal, r);
    NumberOfHalves(high, low);
    LayoutOfHalves(millis, ordinal, rand, Number(high), Number(low));
  }

  /** What an id is as a number. */
  lemma IdNumber(hmac: Hmac, key: Digest, issuedAt: IssuedAt, command: Uuid, tag: Bytes, ordinal: nat)
    returns (rand: nat)
    requires DeriveId(hmac, key, issuedAt, command, tag, ordinal).Ok?
    ensures rand < TWO_62 && ordinal < MAX_ORDINALS && 0 <= Millis(issuedAt) <= MAX_UNIX_MILLIS
    ensures rand == RandB(hmac(key, OrdinalMessage(command, tag, ordinal)))
    ensures Number(DeriveId(hmac, key, issuedAt, command, tag, ordinal).value) ==
      Layout(Millis(issuedAt), ordinal, rand)
  {
    rand := RandB(hmac(key, OrdinalMessage(command, tag, ordinal)));
    RandBFits(hmac(key, OrdinalMessage(command, tag, ordinal)));
    PackedNumber(Millis(issuedAt), ordinal, rand);
  }

  /** Ids compare by millisecond, then by ordinal, then by digest. */
  lemma LayoutOrder(m1: nat, o1: nat, r1: nat, m2: nat, o2: nat, r2: nat)
    requires o1 < MAX_ORDINALS && o2 < MAX_ORDINALS && r1 < TWO_62 && r2 < TWO_62
    ensures Layout(m1, o1, r1) < Layout(m2, o2, r2) <==> m1 < m2 || (m1 == m2 && (o1 < o2 || (o1 == o2 && r1 < r2)))
  {
  }

  /** The 62 bits an id ends in, which come from the digest. */
  function RandomBits(id: Uuid): nat { Number(id) % TWO_62 }

  lemma LayoutEndsInRandom(m: nat, o: nat, r: nat)
    requires r < TWO_62
    ensures Layout(m, o, r) % TWO_62 == r
  {
  }

  // ---------------------------------------------------------------------------------------------
  // The allocator
  // ---------------------------------------------------------------------------------------------

  /** What a sequence of `next` calls returns, starting from an ordinal. */
  datatype Minter = Minter(hmac: Hmac, key: Digest, issuedAt: IssuedAt, command: Uuid) {
    function Derive(tag: Bytes, ordinal: nat): Result<Uuid, Error> {
      DeriveId(hmac, key, issuedAt, command, tag, ordinal)
    }

    /** The ordinal left after the calls. */
    function Consumed(tags: seq<Bytes>): nat {
      if tags == [] then 0
      else
        var n := |tags| - 1;
        var before := Consumed(tags[..n]);
        if Derive(tags[n], before).Ok? then before + 1 else before
    }

    /** The ids the calls return. */
    function Ids(tags: seq<Bytes>): seq<Uuid> {
      if tags == [] then []
      else
        var n := |tags| - 1;
        var r := Derive(tags[n], Consumed(tags[..n]));
        Ids(tags[..n]) + (if r.Ok? then [r.value] else [])
    }
  }

  class DerivedIds {
    const minter: Minter
    var nextOrdinal: nat
    /** The calls so far; only the proofs look at it. */
    ghost var tags: seq<Bytes>

    ghost predicate Valid()
      reads this
    {
      nextOrdinal == minter.Consumed(tags)
    }

    constructor (m: Minter)
      ensures Valid() && minter == m && tags == []
    {
      minter, nextOrdinal, tags := m, 0, [];
    }

    /** `next`: one ordinal is used up exactly when an id comes back. */
    method Next(tag: Bytes) returns (r: Result<Uuid, Error>)
      requires Valid()
      modifies this
      ensures Valid() && tags == old(tags) + [tag]
      ensures r == minter.Derive(tag, old(nextOrdinal))
      ensures minter.Ids(tags) == minter.Ids(old(tags)) + (if r.Ok? then [r.value] else [])
      ensures nextOrdinal == old(nextOrdinal) + (if r.Ok? then 1 else 0)
    {
      r := minter.Derive(tag, nextOrdinal);
      if r.Ok? {
        nextOrdinal := nextOrdinal + 1;
      }
      tags := tags + [tag];
      assert tags[..|tags| - 1] == old(tags);
    }

    function Minted(): nat
      reads this
    {
      nextOrdinal
    }

    /** `remaining`: never below zero, as `MintedIsBounded` shows. */
    function Remaining(): (r: int)
      reads this
      ensures nextOrdinal + r == 4096
    {
      MAX_ORDINALS - nextOrdinal
    }
  }

  /** As many ordinals are used up as ids came back, never more than 4096. */
  lemma {:induction false} MintedIsBounded(m: Minter, tags: seq<Bytes>)
    ensures m.Consumed(tags) == |m.Ids(tags)| <= MAX_ORDINALS
  {
    if tags != [] { MintedIsBounded(m, tags[..|tags| - 1]); }
  }

  /** Each id carries the command's millisecond and its own place in the order of minting. */
  lemma {:induction false} IdFields(m: Minter, tags: seq<Bytes>, i: nat) returns (rand: nat)
    requires i < |m.Ids(tags)|
    ensures i < MAX_ORDINALS && rand < TWO_62 && 0 <= Millis(m.issuedAt) <= MAX_UNIX_MILLIS
    ensures Number(m.Ids(tags)[i]) == Layout(Millis(m.issuedAt), i, rand) && rand == RandomBits(m.Ids(tags)[i])
  {
    var n := |tags| - 1;
    var ordinal := m.Consumed(tags[..n]);
    MintedIsBounded(m, tags[..n]);
    if i < |m.Ids(tags[..n])| {
      rand := IdFields(m, tags[..n], i);
    } else {
      rand := IdNumber(m.hmac, m.key, m.issuedAt, m.command, tags[n], ordinal);
      LayoutEndsInRandom(Millis(m.issuedAt), ordinal, rand);
    }
  }

  /** The ids of a command are strictly increasing, whatever the tags, the failures and the HMAC. */
  lemma IdsIncrease(m: Minter, tags: seq<Bytes>, i: nat, j: nat)
    requires i < j < |m.Ids(tags)|
    ensures Number(m.Ids(tags)[i]) < Number(m.Ids(tags)[j])
  {
    var r := IdFields(m, tags, i);
    var s := IdFields(m, tags, j);
    LayoutOrder(Millis(m.issuedAt), i, r, Millis(m.issuedAt), j, s);
  }

  /** Every id of a command precedes every id of a command issued in a later millisecond, under any keys. */
  lemma EarlierCommandsPrecede(a: Minter, b: Minter, s: seq<Bytes>, t: seq<Bytes>, i: nat, j: nat)
    requires i < |a.Ids(s)| && j < |b.Ids(t)|
    ensures Millis(a.issuedAt) < Millis(b.issuedAt) ==> Number(a.Ids(s)[i]) < Number(b.Ids(t)[j])
    ensures Millis(a.issuedAt) == Millis(b.issuedAt) && i < j ==> Number(a.Ids(s)[i]) < Number(b.Ids(t)[j])
  {
    var p := IdFields(a, s, i);
    var q := IdFields(b, t, j);
    LayoutOrder(Millis(a.issuedAt), i, p, Millis(b.issuedAt), j, q);
  }

  /** Any two ids compare by millisecond, then by place in their command, then by the bits of their digests. */
  lemma IdsCompare(a: Minter, b: Minter, s: seq<Bytes>, t: seq<Bytes>, i: nat, j: nat)
    requires i < |a.Ids(s)| && j < |b.Ids(t)|
    ensures Number(a.Ids(s)[i]) < Number(b.Ids(t)[j]) <==>
      || Millis(a.issuedAt) < Millis(b.issuedAt)
      || (Millis(a.issuedAt) == Millis(b.issuedAt)
          && (i < j || (i == j && RandomBits(a.Ids(s)[i]) < RandomBits(b.Ids(t)[j]))))
  {
    var p := IdFields(a, s, i);
    var q := IdFields(b, t, j);
    LayoutOrder(Millis(a.issuedAt), i, p, Millis(b.issuedAt), j, q);
  }

  /** A tag is one to 255 printable characters other than the space. */
  lemma ValidTagExactly(tag: Bytes)
    ensures ValidateTag(tag).Ok? <==> 1 <= |tag| <= 255 && forall b :: b in tag ==> 0x21 <= b <= 0x7E
    ensures ValidateTag(tag) == Err(EmptyTag) <==> |tag| == 0
    ensures ValidateTag(tag) == Err(TagTooLong(|tag|)) <==> |tag| > 255
  {
    if ValidateTag(tag).Ok? {
      forall b | b in tag ensures 0x21 <= b <= 0x7E {
        var i :| 0 <= i < |tag| && tag[i] == b;
        assert Printable(tag[i]);
      }
    } else if 1 <= |tag| <= 255 {
      var i :| 0 <= i < |tag| && !Printable(tag[i]);
      assert tag[i] in tag;
    }
  }

  /**
  The id in figures: the millisecond, version 7, the ordinal, variant 2, and the first 62 bits of the digest of
  command, tag after its length, and ordinal.
  */
  lemma DerivedExactly(hmac: Hmac, key: Digest, issuedAt: IssuedAt, command: Uuid, tag: Bytes, ordinal: nat)
    returns (millis: nat, random: nat)
    requires DeriveId(hmac, key, issuedAt, command, tag, ordinal).Ok?
    ensures ordinal < 4096 && millis * 1000 <= issuedAt < (millis + 1) * 1000
    ensures var digest := hmac(key, command + [|tag|] + tag + BigEndian(ordinal, 2));
      4 * random <= Number(digest[..8]) < 4 * random + 4
    ensures Number(DeriveId(hmac, key, issuedAt, command, tag, ordinal).value) ==
      (((millis * 16 + 7) * 4096 + ordinal) * 4 + 2) * 0x4000_0000_0000_0000 + random
  {
    millis := Millis(issuedAt);
    random := IdNumber(hmac, key, issuedAt, command, tag, ordinal);
  }

  /** The tag is checked first, then the ordinal, then the instant. */
  lemma DeriveFails(hmac: Hmac, key: Digest, issuedAt: IssuedAt, command: Uuid, tag: Bytes, ordinal: nat)
    ensures var r := DeriveId(hmac, key, issuedAt, command, tag, ordinal);
      && (ValidateTag(tag).Err? ==> r == Err(ValidateTag(tag).error))
      && (r == Err(OrdinalOverflow(command, ordinal)) <==> ValidateTag(tag).Ok? && ordinal >= 4096)
      && (r == Err(IssuedAtOutOfRange) <==> ValidateTag(tag).Ok? && ordinal < 4096 && !IsSupported(issuedAt))
  {
    MillisFit(issuedAt, issuedAt);
  }

  /** All ids of the first command precede all ids of the second. */
  ghost predicate AllPrecede(a: Minter, s: seq<Bytes>, b: Minter, t: seq<Bytes>) {
    forall i, j :: 0 <= i < |a.Ids(s)| && 0 <= j < |b.Ids(t)| ==> Number(a.Ids(s)[i]) < Number(b.Ids(t)[j])
  }

  /**
  The documentation's order of creation across commands holds exactly between milliseconds: a second
  command of the same millisecond starts over at ordinal 0, below the first command's second id. Only a
  first command of a single id may still precede, if its digest happens to have the smaller bits.
  */
  lemma SameMillisecondStartsOver(a: Minter, b: Minter, s: seq<Bytes>, t: seq<Bytes>)
    requires |a.Ids(s)| >= 1 && |b.Ids(t)| >= 1
    requires Millis(a.issuedAt) <= Millis(b.issuedAt)
    ensures AllPrecede(a, s, b, t) <==>
      || Millis(a.issuedAt) < Millis(b.issuedAt)
      || (|a.Ids(s)| == 1 && RandomBits(a.Ids(s)[0]) < RandomBits(b.Ids(t)[0]))
  {
    forall i: nat, j: nat | i < |a.Ids(s)| && j < |b.Ids(t)|
      ensures Number(a.Ids(s)[i]) < Number(b.Ids(t)[j]) <==>
        || Millis(a.issuedAt) < Millis(b.issuedAt)
        || (Millis(a.issuedAt) == Millis(b.issuedAt)
            && (i < j || (i == j && RandomBits(a.Ids(s)[i]) < RandomBits(b.Ids(t)[j]))))
    {
      IdsCompare(a, b, s, t, i, j);
    }
    assert AllPrecede(a, s, b, t) ==> Number(a.Ids(s)[0]) < Number(b.Ids(t)[0]);
    assert |a.Ids(s)| > 1 && AllPrecede(a, s, b, t) ==> Number(a.Ids(s)[1]) < Number(b.Ids(t)[0]);
  }

  /** Two commands at 0 and 1 microseconds: the later one's first id is below the earlier one's second. */
  lemma LaterCommandCanMintLower() returns (a: Minter, b: Minter, s: seq<Bytes>)
    ensures a.issuedAt < b.issuedAt && |a.Ids(s)| == |b.Ids(s)| == 2
    ensures Number(b.Ids(s)[0]) < Number(a.Ids(s)[1])
  {
    var zero: Digest := seq(32, _ => 0);
    var id: Uuid := seq(16, _ => 0);
    var hmac: Hmac := (_, _) => zero;
    a, b := Minter(hmac, zero, 0, id), Minter(hmac, zero, 1, id);
    var tag: Bytes := [0x61];
    s := [tag, tag];
    TwoIds(a, tag);
    TwoIds(b, tag);
    EarlierCommandsPrecede(b, a, s, s, 0, 1);
  }

  lemma TwoIds(m: Minter, tag: Bytes)
    requires ValidateTag(tag).Ok? && IsSupported(m.issuedAt)
    ensures |m.Ids([tag, tag])| == 2
  {
    DerivesExactly(m.hmac, m.key, m.issuedAt, m.command, tag, 0);
    DerivesExactly(m.hmac, m.key, m.issuedAt, m.command, tag, 1);
    OneMoreCall(m, [], tag);
    OneMoreCall(m, [tag], tag);
    assert [] + [tag] == [tag] && [tag] + [tag] == [tag, tag];
  }

  /**
  The clock and the ids together: whichever threads issued them, of two commands the one issued first
  never has the later millisecond, its ids precede the other's wherever the milliseconds differ, and
  within a millisecond the ids go by their place in their own command.
  */
  lemma IdsFollowTheClock(steps: seq<Step>, clock: State, i: nat, j: nat,
                          a: Minter, b: Minter, s: seq<Bytes>, t: seq<Bytes>, x: nat, y: nat)
    requires Run(steps, clock) && i < j < |clock.issued|
    requires a.issuedAt == clock.issued[i] && b.issuedAt == clock.issued[j]
    requires x < |a.Ids(s)| && y < |b.Ids(t)|
    ensures Millis(a.issuedAt) <= Millis(b.issuedAt)
    ensures Millis(a.issuedAt) < Millis(b.issuedAt) || x < y ==> Number(a.Ids(s)[x]) < Number(b.Ids(t)[y])
    ensures Millis(a.issuedAt) == Millis(b.issuedAt) && y < x ==> Number(b.Ids(t)[y]) < Number(a.Ids(s)[x])
  {
    IssuedAreDistinctUntilTheEnd(steps, clock, i, j);
    MillisFit(a.issuedAt, b.issuedAt);
    EarlierCommandsPrecede(a, b, s, t, x, y);
    EarlierCommandsPrecede(b, a, t, s, y, x);
  }

  lemma OneMoreCall(m: Minter, tags: seq<Bytes>, tag: Bytes)
    ensures var r := m.Derive(tag, m.Consumed(tags));
      m.Ids(tags + [tag]) == m.Ids(tags) + (if r.Ok? then [r.value] else [])
      && m.Consumed(tags + [tag]) == m.Consumed(tags) + (if r.Ok? then 1 else 0)
  {
    assert (tags + [tag])[..|tags|] == tags;
  }

  /** Calls that fail leave no trace: without them the same ids come back. */
  lemma {:induction false} FailuresLeaveNoTrace(m: Minter, tags: seq<Bytes>, bad: Bytes, rest: seq<Bytes>)
    requires m.Derive(bad, m.Consumed(tags)).Err?
    ensures m.Ids(tags + [bad] + rest) == m.Ids(tags + rest)
    ensures m.Consumed(tags + [bad] + rest) == m.Consumed(tags + rest)
  {
    if rest == [] {
      OneMoreCall(m, tags, bad);
      assert tags + [bad] + rest == tags + [bad] && tags + rest == tags;
    } else {
      var front, last := rest[..|rest| - 1], rest[|rest| - 1];
      FailuresLeaveNoTrace(m, tags, bad, front);
      OneMoreCall(m, tags + [bad] + front, last);
      OneMoreCall(m, tags + front, last);
      assert rest == front + [last];
      assert tags + [bad] + rest == tags + [bad] + front + [last] && tags + rest == tags + front + [last];
    }
  }

  // ---------------------------------------------------------------------------------------------
  // Framing of the keyed, content and singleton messages
  // ---------------------------------------------------------------------------------------------

  function Ascii(s: string): Bytes
    requires forall i :: 0 <= i < |s| ==> s[i] < 128 as char
    ensures |Ascii(s)| == |s|
  {
    seq(|s|, i requires 0 <= i < |s| => s[i] as nat)
  }

  const KEYED := "dohflow/keyed-id/v1"
  const CONTENT := "dohflow/content-id/v1"
  const SINGLETON := "dohflow/singleton-id/v1"

  /** Each part after its length in four bytes; None when a part is too long for them. */
  function Parts(parts: seq<Bytes>): Option<Bytes> {
    if parts == [] then Some([])
    else if |parts[0]| > MAX_PART_LEN then None
    else
      match Parts(parts[1..])
      case Some(rest) => Some(BigEndian(|parts[0]|, 4) + parts[0] + rest)
      case None => None
  }

  function KeyedMessage(command: Uuid, tag: Bytes, parts: seq<Bytes>): Option<Bytes> {
    if ValidateTag(tag).Ok? && Parts(parts).Some?
    then Some(Ascii(KEYED) + command + [|tag|] + tag + Parts(parts).value) else None
  }

  function ContentMessage(tag: Bytes, parts: seq<Bytes>): Option<Bytes> {
    if ValidateTag(tag).Ok? && Parts(parts).Some?
    then Some(Ascii(CONTENT) + [|tag|] + tag + Parts(parts).value) else None
  }

  function SingletonMessage(name: Bytes): Option<Bytes> {
    if ValidateTag(name).Ok? then Some(Ascii(SINGLETON) + [|name|] + name) else None
  }

  /** The UUIDv8 layout over a digest. */
  function PackV8(digest: Digest): Uuid {
    digest[..16][6 := 0x80 + digest[6] % 16][8 := 0x80 + digest[8] % 64]
  }

  lemma {:induction false} PartsAreRecovered(a: seq<Bytes>, b: seq<Bytes>)
    requires Parts(a).Some? && Parts(a) == Parts(b)
    ensures a == b
  {
    if a == [] || b == [] {
      assert Parts(a) == Some([]) <==> a == [];
      assert Parts(b) == Some([]) <==> b == [];
    } else {
      var m := Parts(a).value;
      var x, y := BigEndian(|a[0]|, 4), BigEndian(|b[0]|, 4);
      assert m[..4] == x && m[..4] == y;
      WordIsPow2();
      BigEndianRoundTrip(|a[0]|, 4);
      BigEndianRoundTrip(|b[0]|, 4);
      var n := 4 + |a[0]|;
      assert m[4..n] == a[0] && m[4..n] == b[0];
      assert m[n..] == Parts(a[1..]).value && m[n..] == Parts(b[1..]).value;
      PartsAreRecovered(a[1..], b[1..]);
      assert a == [a[0]] + a[1..] && b == [b[0]] + b[1..];
    }
  }

  lemma TagIsRecovered(a: Bytes, b: Bytes, restA: Bytes, restB: Bytes)
    requires 0 < |a| <= MAX_TAG_LEN && 0 < |b| <= MAX_TAG_LEN
    requires [|a|] + a + restA == [|b|] + b + restB
    ensures a == b && restA == restB
  {
    var m := [|a|] + a + restA;
    assert m[0] == |a| && m[0] == |b|;
    var n := |a|;
    assert m[1..n + 1] == a && m[1..n + 1] == b && m[n + 1..] == restA && m[n + 1..] == restB;
  }

  /** Equal keyed messages come from equal commands, tags and natural keys: no two keys run together. */
  lemma KeyedMessageIsInjective(c1: Uuid, t1: Bytes, p1: seq<Bytes>, c2: Uuid, t2: Bytes, p2: seq<Bytes>)
    requires KeyedMessage(c1, t1, p1).Some? && KeyedMessage(c1, t1, p1) == KeyedMessage(c2, t2, p2)
    ensures c1 == c2 && t1 == t2 && p1 == p2
  {
    var rest1, rest2 := [|t1|] + t1 + Parts(p1).value, [|t2|] + t2 + Parts(p2).value;
    assert KeyedMessage(c1, t1, p1).value == Ascii(KEYED) + c1 + rest1;
    assert KeyedMessage(c2, t2, p2).value == Ascii(KEYED) + c2 + rest2;
    AfterTheCommand(Ascii(KEYED), c1, rest1, c2, rest2);
    TagIsRecovered(t1, t2, Parts(p1).value, Parts(p2).value);
    PartsAreRecovered(p1, p2);
  }

  lemma AfterTheCommand(start: Bytes, c1: Uuid, rest1: Bytes, c2: Uuid, rest2: Bytes)
    requires start + c1 + rest1 == start + c2 + rest2
    ensures c1 == c2 && rest1 == rest2
  {
    var m, n := start + c1 + rest1, |start|;
    assert m[n..n + 16] == c1 && m[n..n + 16] == c2;
    assert m[n + 16..] == rest1 && m[n + 16..] == rest2;
  }

  lemma ContentMessageIsInjective(t1: Bytes, p1: seq<Bytes>, t2: Bytes, p2: seq<Bytes>)
    requires ContentMessage(t1, p1).Some? && ContentMessage(t1, p1) == ContentMessage(t2, p2)
    ensures t1 == t2 && p1 == p2
  {
    var m := ContentMessage(t1, p1).value;
    var n := |CONTENT|;
    assert m[n..] == [|t1|] + t1 + Parts(p1).value;
    assert m[n..] == [|t2|] + t2 + Parts(p2).value;
    TagIsRecovered(t1, t2, Parts(p1).value, Parts(p2).value);
    PartsAreRecovered(p1, p2);
  }

  lemma OrdinalMessageIsInjective(c1: Uuid, t1: Bytes, o1: nat, c2: Uuid, t2: Bytes, o2: nat)
    requires 0 < |t1| <= MAX_TAG_LEN && 0 < |t2| <= MAX_TAG_LEN && o1 < MAX_ORDINALS && o2 < MAX_ORDINALS
    requires OrdinalMessage(c1, t1, o1) == OrdinalMessage(c2, t2, o2)
    ensures c1 == c2 && t1 == t2 && o1 == o2
  {
    var m := OrdinalMessage(c1, t1, o1);
    assert m[..16] == c1 && m[..16] == c2;
    assert m[16..] == [|t1|] + t1 + BigEndian(o1, 2) && m[16..] == [|t2|] + t2 + BigEndian(o2, 2);
    TagIsRecovered(t1, t2, BigEndian(o1, 2), BigEndian(o2, 2));
    Eight(2);
    Eight(1);
    BigEndianRoundTrip(o1, 2);
    BigEndianRoundTrip(o2, 2);
  }

  /** The three labels part the three kinds of message, whatever follows them. */
  lemma KindsAreApart(command: Uuid, tag: Bytes, parts: seq<Bytes>, tag2: Bytes, parts2: seq<Bytes>, name: Bytes)
    ensures KeyedMessage(command, tag, parts).Some? ==>
      KeyedMessage(command, tag, parts) != ContentMessage(tag2, parts2)
    ensures KeyedMessage(command, tag, parts).Some? ==> KeyedMessage(command, tag, parts) != SingletonMessage(name)
    ensures ContentMessage(tag2, parts2).Some? ==> ContentMessage(tag2, parts2) != SingletonMessage(name)
  {
    var k, c, s := KeyedMessage(command, tag, parts), ContentMessage(tag2, parts2), SingletonMessage(name);
    if k.Some? { assert k.value[8] == 'k' as nat; }
    if c.Some? { assert c.value[8] == 'c' as nat; }
    if s.Some? { assert s.value[8] == 's' as nat; }
  }

  /** A natural key can be framed exactly when none of its parts needs more than four bytes for its length. */
  lemma {:induction false} PartsFitExactly(parts: seq<Bytes>)
    ensures Parts(parts).Some? <==> forall p :: p in parts ==> |p| <= 0xFFFF_FFFF
  {
    if parts != [] {
      PartsFitExactly(parts[1..]);
      assert parts == [parts[0]] + parts[1..];
    }
  }

  /** A hashed id is the first half of its digest but for version and variant. */
  lemma HashedIdKeepsItsDigest(digest: Digest, i: nat)
    requires i < 16
    ensures var id := PackV8(digest);
      && (i != 6 && i != 8 ==> id[i] == digest[i])
      && id[6] % 16 == digest[6] % 16 && id[8] % 64 == digest[8] % 64
  {
  }

  /** Ordinal ids and hashed ids never meet: their version nibbles are 7 and 8. */
  lemma VersionsAreApart(m: Minter, tag: Bytes, ordinal: nat, digest: Digest)
    ensures PackV8(digest)[6] / 16 == 8 && PackV8(digest)[8] / 64 == 2
    ensures m.Derive(tag, ordinal).Ok? ==>
      m.Derive(tag, ordinal).value[6] / 16 == 7 && m.Derive(tag, ordinal).value[8] / 64 == 2
      && m.Derive(tag, ordinal).value != PackV8(digest)
  {
  }
}
