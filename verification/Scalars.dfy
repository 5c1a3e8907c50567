/** The little-endian scalar codec of flat composite bodies: low bytes of a two's-complement word out,
    sign extension from the top bit back in. */
module Scalars {
  type byte = x: int | 0 <= x < 0x100

  /** The value range of the runtime's own word. */
  type int64 = x: int | -0x8000_0000_0000_0000 <= x < 0x8000_0000_0000_0000

  function Pow256(w: nat): nat {
    if w == 0 then 1 else 0x100 * Pow256(w - 1)
  }

  function Pow2(n: nat): (p: nat)
    ensures p > 0
  {
    if n == 0 then 1 else 2 * Pow2(n - 1)
  }

  /** The `w` low bytes of `n`, least significant first. */
  function LeBytes(n: nat, w: nat): (b: seq<byte>)
    ensures |b| == w
  {
    if w == 0 then [] else [n % 0x100] + LeBytes(n / 0x100, w - 1)
  }

  function LeValue(b: seq<byte>): nat {
    if b == [] then 0 else b[0] + 0x100 * LeValue(b[1..])
  }

  /** What the eight bytes of a word are, as an unsigned number. */
  function Unsigned(i: int64): nat {
    if i < 0 then i + 0x1_0000_0000_0000_0000 else i
  }

  /** Encode: the low `w` of the word's eight bytes. */
  function IntBytes(i: int64, w: nat): (b: seq<byte>)
    requires w <= 8
    ensures |b| == w
  {
    LeBytes(Unsigned(i), 8)[..w]
  }

  /** Decode: widen `w` bytes with zeros, then sign-extend from their top bit. */
  function ReadInt(b: seq<byte>): (i: int)
    requires 0 < |b| <= 8
  {
    var n := LeValue(b);
    if n >= Pow256(|b|) / 2 then n - Pow256(|b|) else n
  }

  // ----- the codec -----

  lemma PowPositive(w: nat)
    ensures Pow256(w) > 0
  {}

  lemma {:induction false} LeBound(b: seq<byte>)
    ensures LeValue(b) < Pow256(|b|)
    decreases |b|
  {
    if b != [] {
      LeBound(b[1..]);
    }
  }

  lemma ModStep(n: nat, p: nat)
    requires p > 0
    ensures n % (0x100 * p) == n % 0x100 + 0x100 * ((n / 0x100) % p)
  {
    var q, r := n / 0x100, n % 0x100;
    var k, m := q / p, q % p;
    assert n == k * (0x100 * p) + (r + 0x100 * m) by {
      assert q == p * k + m;
    }
    ModUnique(n, 0x100 * p, k, r + 0x100 * m);
  }

  lemma ZeroMultiple(x: int, d: int)
    requires -d < x * d < d
    ensures x == 0
  {}

  lemma ModUnique(n: int, d: int, k: int, r: int)
    requires d > 0 && n == k * d + r && 0 <= r < d
    ensures n % d == r && n / d == k
  {
    var q := n / d;
    assert n == q * d + n % d;
    assert (q - k) * d == r - n % d;
    ZeroMultiple(q - k, d);
  }

  lemma {:induction false} LeRound(n: nat, w: nat)
    ensures Pow256(w) > 0 && LeValue(LeBytes(n, w)) == n % Pow256(w)
    decreases w
  {
    PowPositive(w);
    if w > 0 {
      LeRound(n / 0x100, w - 1);
      ModStep(n, Pow256(w - 1));
      assert LeBytes(n, w)[1..] == LeBytes(n / 0x100, w - 1);
    }
  }

  lemma {:induction false} LePrefix(n: nat, v: nat, w: nat)
    requires w <= v
    ensures LeBytes(n, v)[..w] == LeBytes(n, w)
    decreases w
  {
    if w > 0 {
      LePrefix(n / 0x100, v - 1, w - 1);
      assert LeBytes(n, v)[..w] == [n % 0x100] + LeBytes(n / 0x100, v - 1)[..w - 1];
    }
  }

  // ----- what comes back -----

  /** Wrap to the signed range `[-half, half)`. */
  function Wrap(x: int, half: nat): int
    requires half > 0
  {
    (x + half) % (2 * half) - half
  }

  const HALF_WORD := 0x8000_0000_0000_0000

  /** Cut to the declared width by shifting left and arithmetically back: the left shift wraps at the
      word, the right shift rounds down. */
  function TruncateToDeclared(value: int64, bitsLog2: nat): int {
    if bitsLog2 >= 6 then value
    else
      var scale := Pow2(64 - BitsOf(bitsLog2));
      Wrap(value * scale, HALF_WORD) / scale
  }

  /** The declared width in bits. */
  function BitsOf(bitsLog2: nat): (b: nat)
    ensures bitsLog2 <= 6 ==> b <= 64
  {
    if bitsLog2 == 0 then 1 else if bitsLog2 == 1 then 2 else if bitsLog2 == 2 then 4 else
    if bitsLog2 == 3 then 8 else if bitsLog2 == 4 then 16 else if bitsLog2 == 5 then 32 else Pow2(bitsLog2 - 6) * 64
  }

  /** Half the range of `w` bytes. */
  function HalfRange(w: nat): nat {
    match w
    case 1 => 0x80
    case 2 => 0x8000
    case 4 => 0x8000_0000
    case _ => HALF_WORD
  }

  predicate IsWidth(w: nat) {
    w == 1 || w == 2 || w == 4 || w == 8
  }

  lemma WidthConstants(w: nat)
    requires IsWidth(w)
    ensures Pow256(w) == 2 * HalfRange(w)
    ensures w < 8 ==> HalfRange(w) * Pow2(64 - 8 * w) == HALF_WORD
  {
    assert Pow2(8) == 0x100;
    assert Pow2(16) == 0x1_0000;
    assert Pow2(24) == 0x100_0000;
    assert Pow2(32) == 0x1_0000_0000;
    assert Pow2(40) == 0x100_0000_0000;
    assert Pow2(48) == 0x1_0000_0000_0000;
    assert Pow2(56) == 0x100_0000_0000_0000;
    assert Pow256(4) == 0x1_0000_0000;
    assert Pow256(6) == 0x1_0000_0000_0000;
    assert Pow256(8) == 0x1_0000_0000_0000_0000;
  }

  lemma ModScales(x: int, m: nat, k: nat)
    requires m > 0 && k > 0
    ensures m * k > 0 && (x * k) % (m * k) == (x % m) * k
  {
    var q, r := x / m, x % m;
    Scaled(q, m, r, k);
    Bounded(r, m, k);
    ModUnique(x * k, m * k, q, r * k);
  }

  lemma Scaled(q: int, m: int, r: int, k: int)
    ensures (q * m + r) * k == q * (m * k) + r * k
  {}

  lemma Bounded(r: nat, m: nat, k: nat)
    requires r < m && k > 0
    ensures 0 <= r * k < m * k
  {}

  /** Shifting up and back is wrapping to the narrow range. */
  lemma WrapScales(value: int, half: nat, scale: nat)
    requires half > 0 && scale > 0
    ensures half * scale > 0 && Wrap(value * scale, half * scale) / scale == Wrap(value, half)
  {
    var x := Wrap(value, half);
    ModScales(value + half, 2 * half, scale);
    assert value * scale + half * scale == (value + half) * scale;
    assert 2 * (half * scale) == (2 * half) * scale;
    assert Wrap(value * scale, half * scale) == x * scale;
    ModUnique(x * scale, scale, x, 0);
  }

  /** Decoding wraps the encoded word to the width. */
  lemma ReadWraps(i: int64, w: nat)
    requires IsWidth(w)
    ensures ReadInt(IntBytes(i, w)) == Wrap(i, HalfRange(w))
  {
    WidthConstants(w);
    LePrefix(Unsigned(i), 8, w);
    LeRound(Unsigned(i), w);
    WrapCases(i, w, LeValue(IntBytes(i, w)));
  }

  /** Two's complement does not change a word's low bytes. */
  lemma UnsignedLow(i: int64, m: nat, q: nat)
    requires m > 0 && q * m == 0x1_0000_0000_0000_0000
    ensures Unsigned(i) % m == i % m
  {
    if i < 0 {
      assert i == (i / m) * m + i % m;
      assert Unsigned(i) == (i / m + q) * m + i % m;
      ModUnique(Unsigned(i), m, i / m + q, i % m);
    }
  }

  lemma WrapHalf(i: int, half: nat)
    requires half > 0
    ensures Wrap(i, half) == if i % (2 * half) >= half then i % (2 * half) - 2 * half else i % (2 * half)
  {
    var m := 2 * half;
    var k, n := i / m, i % m;
    assert i == k * m + n;
    if n >= half {
      assert i + half == (k + 1) * m + (n + half - m);
      ModUnique(i + half, m, k + 1, n + half - m);
    } else {
      ModUnique(i + half, m, k, n + half);
    }
  }

  lemma WrapCases(i: int64, w: nat, n: nat)
    requires IsWidth(w) && n == Unsigned(i) % (2 * HalfRange(w))
    ensures Wrap(i, HalfRange(w)) == if n >= HalfRange(w) then n - 2 * HalfRange(w) else n
  {
    var q := if w == 1 then 0x100_0000_0000_0000 else if w == 2 then 0x1_0000_0000_0000 else if w == 4 then 0x1_0000_0000 else 1;
    UnsignedLow(i, 2 * HalfRange(w), q);
    WrapHalf(i, HalfRange(w));
  }

  lemma HalfPositive(w: nat)
    ensures HalfRange(w) > 0
  {}

  lemma WholeWord(i: int64)
    ensures Wrap(i, HalfRange(8)) == i
  {
    ModUnique(i + HALF_WORD, 2 * HALF_WORD, 0, i + HALF_WORD);
  }

  /** A round trip at a declared width gives the word cut to that width. */
  lemma ScalarRoundTrip(i: int64, bitsLog2: nat)
    requires 3 <= bitsLog2 <= 6
    ensures var w := BitsOf(bitsLog2) / 8;
      IsWidth(w) && ReadInt(IntBytes(i, w)) == TruncateToDeclared(i, bitsLog2)
  {
    var w := BitsOf(bitsLog2) / 8;
    assert BitsOf(6) == 64 by {
      assert Pow2(0) == 1;
    }
    hide Wrap, ReadInt, IntBytes, HalfRange, Pow2, Pow256;
    assert IsWidth(w) && 8 * w == BitsOf(bitsLog2);
    ReadWraps(i, w);
    WidthConstants(w);
    if bitsLog2 < 6 {
      HalfPositive(w);
      WrapScales(i, HalfRange(w), Pow2(64 - 8 * w));
    } else {
      WholeWord(i);
    }
  }

  /** A word comes back unchanged exactly when it fits the width. */
  lemma FittingWordReturns(i: int64, w: nat)
    requires IsWidth(w)
    ensures ReadInt(IntBytes(i, w)) == i <==> 0 - HalfRange(w) <= i < HalfRange(w)
  {
    ReadWraps(i, w);
    var half := HalfRange(w);
    if 0 - half <= i < half {
      ModUnique(i + half, 2 * half, 0, i + half);
    }
  }
}
