/** Bit strings, most significant bit first, and the shifts and masks of unsigned words. */
module Bits {

  type byte = n: nat | n < 256

  type Uuid = b: seq<byte> | |b| == 16 witness seq(16, _ => 0)

  function Pow2(n: nat): (p: nat)
    ensures p > 0
  {
    if n == 0 then 1 else 2 * Pow2(n - 1)
  }

  const WORD := 0x1_0000_0000

  lemma WordIsPow2()
    ensures Pow2(32) == WORD && Pow2(5) == 32 && Pow2(8) == 256
  {
    assert Pow2(8) == 256;
    assert Pow2(16) == 0x1_0000;
    assert Pow2(24) == 0x100_0000;
  }

  /** The low `n` bits of `v`. */
  function BitsOf(v: nat, n: nat): (b: seq<bool>)
    ensures |b| == n
  {
    if n == 0 then [] else BitsOf(v / 2, n - 1) + [v % 2 == 1]
  }

  function FromBits(bits: seq<bool>): nat {
    if bits == [] then 0 else 2 * FromBits(bits[..|bits| - 1]) + (if bits[|bits| - 1] then 1 else 0)
  }

  lemma {:induction false} BitsOfFromBits(bits: seq<bool>)
    ensures BitsOf(FromBits(bits), |bits|) == bits
    ensures FromBits(bits) < Pow2(|bits|)
  {
    if bits != [] {
      var n := |bits| - 1;
      BitsOfFromBits(bits[..n]);
      assert FromBits(bits) / 2 == FromBits(bits[..n]);
      assert bits == bits[..n] + [bits[n]];
    }
  }

  lemma {:induction false} FromBitsOf(v: nat, n: nat)
    requires v < Pow2(n)
    ensures FromBits(BitsOf(v, n)) == v
  {
    if n > 0 {
      FromBitsOf(v / 2, n - 1);
      assert BitsOf(v, n)[..n - 1] == BitsOf(v / 2, n - 1);
    }
  }

  lemma HalfOfRemainder(v: nat, half: nat)
    requires half > 0
    ensures v % (2 * half) / 2 == v / 2 % half && v % (2 * half) % 2 == v % 2
  {
    var m := 2 * half;
    var q, r := v / m, v % m;
    assert v == q * m + r && q * m == 2 * (q * half);
    assert v / 2 == q * half + r / 2 && 0 <= r / 2 < half;
    Remainder(v / 2, half, q, r / 2);
  }

  lemma Distributes(a: nat, b: nat, d: nat)
    ensures (a + b) * d == a * d + b * d
  {
  }

  lemma Below(q: nat, p: nat, d: nat)
    requires q < p
    ensures q * d + d <= p * d
  {
    var more: nat := p - q - 1;
    Distributes(q + 1, more, d);
    Distributes(q, 1, d);
    assert more * d >= 0;
  }

  lemma Remainder(v: nat, d: nat, q: nat, r: nat)
    requires d > 0 && v == q * d + r && r < d
    ensures v / d == q && v % d == r
  {
    var p, s := v / d, v % d;
    assert v == p * d + s;
    if q < p { Below(q, p, d); } else if p < q { Below(p, q, d); }
  }

  /** Masking away higher bits leaves the low ones. */
  lemma {:induction false} LowBits(v: nat, m: nat, n: nat)
    requires n <= m
    ensures BitsOf(v % Pow2(m), n) == BitsOf(v, n)
  {
    if n > 0 {
      HalfOfRemainder(v, Pow2(m - 1));
      LowBits(v / 2, m - 1, n - 1);
    }
  }

  lemma HalfThenShift(v: nat, p: nat)
    requires p > 0
    ensures v / 2 / p == v / (2 * p)
  {
    var q, r := v / 2 / p, v / 2 % p;
    assert v / 2 == q * p + r;
    assert v == q * (2 * p) + (2 * r + v % 2) by { assert q * (2 * p) == 2 * (q * p); }
    Remainder(v, 2 * p, q, 2 * r + v % 2);
  }

  lemma HalfThenShiftBy(v: nat, low: nat)
    requires low > 0
    ensures v / 2 / Pow2(low - 1) == v / Pow2(low)
  {
    HalfThenShift(v, Pow2(low - 1));
  }

  /** Shifting right by `low` splits off the low bits. */
  lemma {:induction false} SplitBits(v: nat, high: nat, low: nat, shifted: nat)
    requires shifted == v / Pow2(low)
    ensures BitsOf(v, high + low) == BitsOf(shifted, high) + BitsOf(v, low)
  {
    if low > 0 {
      HalfThenShiftBy(v, low);
      SplitBits(v / 2, high, low - 1, shifted);
      var n := high + low;
      assert BitsOf(v, n) == BitsOf(v / 2, n - 1) + [v % 2 == 1];
    }
  }

  lemma ShiftedIn(buffer: nat, w: nat, p: nat)
    requires w < p
    ensures (buffer * p + w) / p == buffer && (buffer * p + w) % p == w
  {
    Remainder(buffer * p + w, p, buffer, w);
  }

  /** Shifting a word left by `k` and putting `w` in, when the bits that matter fit the word. */
  lemma ShiftIn(buffer: nat, bits: nat, w: nat, k: nat)
    requires w < Pow2(k) && bits + k <= 32
    ensures BitsOf((buffer * Pow2(k) + w) % WORD, bits + k) == BitsOf(buffer, bits) + BitsOf(w, k)
  {
    var v := buffer * Pow2(k) + w;
    WordIsPow2();
    LowBits(v, 32, bits + k);
    ShiftedIn(buffer, w, Pow2(k));
    SplitBits(v, bits, k, buffer);
    LowBits(v, k, k);
  }
}
