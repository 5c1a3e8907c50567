/** The CRC-32 that frames a module: reflected polynomial, all-ones start, complemented result. The
    loader checks one residue over the framed buffer, which rests on `SelfInclusion`. */
module Crc {
  const POLY: bv32 := 0xEDB88320
  const ONES: bv32 := 0xFFFFFFFF

  /** The checksum of any buffer that ends with its own checksum. */
  const RESIDUE: bv32 := 0x2144DF1C

  // Named bit operations, so that proofs can use their laws without their bits.

  function Xor(a: bv32, b: bv32): bv32 {
    a ^ b
  }

  function Half(a: bv32): bv32 {
    a >> 1
  }

  predicate Odd(a: bv32) {
    a & 1 != 0
  }

  function Shift(crc: bv32): bv32 {
    if Odd(crc) then Xor(Half(crc), POLY) else Half(crc)
  }

  function Shifts(crc: bv32, n: nat): bv32 {
    if n == 0 then crc else Shift(Shifts(crc, n - 1))
  }

  /** Take in one byte. */
  function Absorb(crc: bv32, b: bv8): bv32 {
    Shifts(Xor(crc, b as bv32), 8)
  }

  function State(start: bv32, bytes: seq<bv8>): bv32 {
    if bytes == [] then start else Absorb(State(start, bytes[..|bytes| - 1]), bytes[|bytes| - 1])
  }

  function Checksum(bytes: seq<bv8>): bv32 {
    Xor(State(ONES, bytes), ONES)
  }

  method Crc32(bytes: seq<bv8>) returns (sum: bv32)
    ensures sum == Checksum(bytes)
  {
    var crc := ONES;
    for i := 0 to |bytes|
      invariant crc == State(ONES, bytes[..i])
    {
      assert bytes[..i + 1][..i] == bytes[..i];
      crc := crc ^ (bytes[i] as bv32);
      ghost var before := crc;
      for k := 0 to 8
        invariant crc == Shifts(before, k)
      {
        crc := if crc & 1 != 0 then (crc >> 1) ^ POLY else crc >> 1;
      }
    }
    assert bytes[..|bytes|] == bytes;
    sum := crc ^ ONES;
  }

  // ----- laws of the bits -----

  lemma XorCommutes(a: bv32, b: bv32)
    ensures Xor(a, b) == Xor(b, a)
  {}

  lemma XorAssociates(a: bv32, b: bv32, c: bv32)
    ensures Xor(Xor(a, b), c) == Xor(a, Xor(b, c))
  {}

  lemma XorCancels(a: bv32)
    ensures Xor(a, 0) == a && Xor(0, a) == a && Xor(a, a) == 0
  {}

  /** Combining with the same word twice changes nothing. */
  lemma XorTwice(a: bv32, b: bv32)
    ensures Xor(Xor(a, b), b) == a
  {
    hide Xor;
    XorAssociates(a, b, b);
    XorCancels(b);
    XorCancels(a);
  }

  lemma XorSwaps(a: bv32, b: bv32, c: bv32)
    ensures Xor(Xor(a, b), c) == Xor(Xor(a, c), b)
  {
    hide Xor;
    XorAssociates(a, b, c);
    XorAssociates(a, c, b);
    XorCommutes(b, c);
  }

  lemma HalfXor(a: bv32, b: bv32)
    ensures Half(Xor(a, b)) == Xor(Half(a), Half(b))
  {}

  lemma OddXor(a: bv32, b: bv32)
    ensures Odd(Xor(a, b)) <==> Odd(a) != Odd(b)
  {}

  lemma XorInjective(a: bv32, b: bv32, c: bv32)
    requires Xor(a, c) == Xor(b, c)
    ensures a == b
  {
    hide Xor;
    XorTwice(a, c);
    XorTwice(b, c);
  }

  // ----- one shift, then many -----

  lemma ShiftLinear(a: bv32, b: bv32)
    ensures Shift(Xor(a, b)) == Xor(Shift(a), Shift(b))
  {
    hide Xor, Half, Odd;
    var x, y := Half(a), Half(b);
    HalfXor(a, b);
    OddXor(a, b);
    XorSwaps(x, POLY, y);
    XorAssociates(x, y, POLY);
    XorAssociates(Xor(x, POLY), y, POLY);
    XorTwice(Xor(x, y), POLY);
  }

  lemma {:induction false} ShiftsLinear(a: bv32, b: bv32, n: nat)
    ensures Shifts(Xor(a, b), n) == Xor(Shifts(a, n), Shifts(b, n))
  {
    hide Shift, Xor;
    if n > 0 {
      ShiftsLinear(a, b, n - 1);
      ShiftLinear(Shifts(a, n - 1), Shifts(b, n - 1));
    }
  }

  lemma ShiftInjective(a: bv32, b: bv32)
    requires Shift(a) == Shift(b)
    ensures a == b
  {}

  lemma {:induction false} ShiftsInjective(a: bv32, b: bv32, n: nat)
    requires Shifts(a, n) == Shifts(b, n)
    ensures a == b
  {
    hide Shift;
    if n > 0 {
      ShiftInjective(Shifts(a, n - 1), Shifts(b, n - 1));
      ShiftsInjective(a, b, n - 1);
    }
  }

  lemma {:induction false} ShiftsCompose(a: bv32, m: nat, n: nat)
    ensures Shifts(Shifts(a, m), n) == Shifts(a, m + n)
  {
    hide Shift;
    if n > 0 {
      ShiftsCompose(a, m, n - 1);
    }
  }

  // ----- any single changed byte changes the checksum -----

  lemma {:induction false} StateInjective(s: bv32, t: bv32, bytes: seq<bv8>)
    requires State(s, bytes) == State(t, bytes)
    ensures s == t
    decreases |bytes|
  {
    hide Xor, Shifts;
    if bytes != [] {
      var init, last := bytes[..|bytes| - 1], bytes[|bytes| - 1] as bv32;
      ShiftsInjective(Xor(State(s, init), last), Xor(State(t, init), last), 8);
      XorInjective(State(s, init), State(t, init), last);
      StateInjective(s, t, init);
    }
  }

  lemma {:induction false} StateSplit(start: bv32, a: seq<bv8>, b: seq<bv8>)
    ensures State(start, a + b) == State(State(start, a), b)
    decreases |b|
  {
    hide Absorb;
    if b == [] {
      assert a + b == a;
    } else {
      StateSplit(start, a, b[..|b| - 1]);
      assert (a + b)[..|a + b| - 1] == a + b[..|b| - 1];
    }
  }

  lemma ByteWidens(x: bv8, y: bv8)
    requires x as bv32 == y as bv32
    ensures x == y
  {}

  /** Two buffers that differ in exactly one byte never have the same checksum. */
  lemma OneByteDetected(before: seq<bv8>, x: bv8, y: bv8, after: seq<bv8>)
    requires x != y
    ensures Checksum(before + [x] + after) != Checksum(before + [y] + after)
  {
    hide Xor, Shifts, State;
    var s := State(ONES, before);
    StateSplit(ONES, before + [x], after);
    StateSplit(ONES, before + [y], after);
    StateSplit(ONES, before, [x]);
    StateSplit(ONES, before, [y]);
    OneByte(s, x);
    OneByte(s, y);
    if Checksum(before + [x] + after) == Checksum(before + [y] + after) {
      XorInjective(State(ONES, before + [x] + after), State(ONES, before + [y] + after), ONES);
      StateInjective(Absorb(s, x), Absorb(s, y), after);
      ShiftsInjective(Xor(s, x as bv32), Xor(s, y as bv32), 8);
      XorCommutes(s, x as bv32);
      XorCommutes(s, y as bv32);
      XorInjective(x as bv32, y as bv32, s);
      ByteWidens(x, y);
    }
  }

  lemma OneByte(s: bv32, x: bv8)
    ensures State(s, [x]) == Absorb(s, x)
  {
    hide Absorb;
    assert State(s, [x][..0]) == s;
  }

  // ----- a buffer that ends with its own checksum -----

  function Low(w: bv32): bv8 {
    (w & 0xFF) as bv8
  }

  function Top(w: bv32): bv32 {
    w >> 8
  }

  /** The bytes of a word, least significant first. */
  function LittleEndian(w: bv32): seq<bv8> {
    [Low(w), Low(Top(w)), Low(Top(Top(w))), Low(Top(Top(Top(w))))]
  }

  lemma HighPart(w: bv32)
    ensures Xor(Low(w) as bv32, w & 0xFFFFFF00) == w
  {}

  lemma ClearHalves(w: bv32)
    ensures w & 0xFF == 0 ==> !Odd(w) && Half(w) & 0x7F == 0
    ensures w & 0x7F == 0 ==> !Odd(w) && Half(w) & 0x3F == 0
    ensures w & 0x3F == 0 ==> !Odd(w) && Half(w) & 0x1F == 0
    ensures w & 0x1F == 0 ==> !Odd(w) && Half(w) & 0x0F == 0
  {}

  lemma ClearQuarters(w: bv32)
    ensures w & 0x0F == 0 ==> !Odd(w) && Half(w) & 0x07 == 0
    ensures w & 0x07 == 0 ==> !Odd(w) && Half(w) & 0x03 == 0
    ensures w & 0x03 == 0 ==> !Odd(w) && Half(w) & 0x01 == 0
    ensures w & 0x01 == 0 ==> !Odd(w)
  {}

  lemma EightHalves(w: bv32)
    ensures Half(Half(Half(Half(Half(Half(Half(Half(w & 0xFFFFFF00)))))))) == Top(w)
    ensures (w & 0xFFFFFF00) & 0xFF == 0
  {}

  /** Eight shifts of a word whose low byte is clear only move it. */
  lemma HighMoves(w: bv32)
    ensures Shifts(w & 0xFFFFFF00, 8) == Top(w)
  {
    EightHalves(w);
    var h0 := w & 0xFFFFFF00;
    hide Half, Xor, Odd, Top;
    var h1 := Half(h0);
    var h2 := Half(h1);
    var h3 := Half(h2);
    var h4 := Half(h3);
    var h5 := Half(h4);
    var h6 := Half(h5);
    var h7 := Half(h6);
    ClearHalves(h0);
    ClearHalves(h1);
    ClearHalves(h2);
    ClearHalves(h3);
    assert Shifts(h0, 0) == h0 && Shifts(h0, 1) == h1 && Shifts(h0, 2) == h2 && Shifts(h0, 3) == h3 && Shifts(h0, 4) == h4;
    ClearQuarters(h4);
    ClearQuarters(h5);
    ClearQuarters(h6);
    ClearQuarters(h7);
    assert Shifts(h0, 5) == h5 && Shifts(h0, 6) == h6 && Shifts(h0, 7) == h7 && Shifts(h0, 8) == Half(h7);
  }

  /** Taking in the low byte of a word leaves the rest of the word still to be taken in. */
  lemma AbsorbLow(s: bv32, w: bv32)
    ensures Shifts(Xor(s, w), 8) == Xor(Absorb(s, Low(w)), Top(w))
  {
    hide Shift, Xor, Shifts, Low, Top;
    HighPart(w);
    HighMoves(w);
    XorAssociates(s, Low(w) as bv32, w & 0xFFFFFF00);
    ShiftsLinear(Xor(s, Low(w) as bv32), w & 0xFFFFFF00, 8);
  }

  lemma FourTops(w: bv32)
    ensures Top(Top(Top(Top(w)))) == 0
  {}

  /** Taking in all four bytes of a word. */
  lemma AbsorbWord(s: bv32, w: bv32)
    ensures State(s, LittleEndian(w)) == Shifts(Xor(s, w), 32)
  {
    hide Shift, Xor, Shifts, Low, Top, Absorb;
    var w1, w2, w3 := Top(w), Top(Top(w)), Top(Top(Top(w)));
    var s1 := Absorb(s, Low(w));
    var s2 := Absorb(s1, Low(w1));
    var s3 := Absorb(s2, Low(w2));
    var s4 := Absorb(s3, Low(w3));
    AbsorbLow(s, w);
    AbsorbLow(s1, w1);
    AbsorbLow(s2, w2);
    AbsorbLow(s3, w3);
    FourTops(w);
    XorCancels(s4);
    ShiftsCompose(Xor(s, w), 8, 8);
    ShiftsCompose(Xor(s, w), 16, 8);
    ShiftsCompose(Xor(s, w), 24, 8);
    var le := LittleEndian(w);
    assert le == [Low(w)] + [Low(w1)] + [Low(w2)] + [Low(w3)];
    OneByte(s, Low(w));
    StateSplit(s, [Low(w)], [Low(w1)]);
    OneByte(s1, Low(w1));
    StateSplit(s, [Low(w)] + [Low(w1)], [Low(w2)]);
    OneByte(s2, Low(w2));
    StateSplit(s, [Low(w)] + [Low(w1)] + [Low(w2)], [Low(w3)]);
    OneByte(s3, Low(w3));
  }

  /** The residue, computed. */
  lemma OnesShifted()
    ensures Xor(Shifts(ONES, 32), ONES) == RESIDUE
  {
    assert Shifts(ONES, 4) == 0xb2420de3;
    assert Shifts(ONES, 8) == 0x2dfd1072;
    assert Shifts(ONES, 12) == 0x39b1f1cf;
    assert Shifts(ONES, 16) == 0xbe26ed00;
    assert Shifts(ONES, 20) == 0xbe26ed0;
    assert Shifts(ONES, 24) == 0xbe26ed;
    assert Shifts(ONES, 28) == 0x86d830ba;
    assert Shifts(ONES, 32) == 0xdebb20e3;
  }

  /** The single-pass integrity check is exact: a framed buffer has the residue for a checksum exactly
      when the word behind its body is the body's checksum. */
  lemma ResidueExactly(body: seq<bv8>, w: bv32)
    ensures Checksum(body + LittleEndian(w)) == RESIDUE <==> w == Checksum(body)
  {
    hide Shift, Xor, Shifts, State, LittleEndian;
    var s := State(ONES, body);
    StateSplit(ONES, body, LittleEndian(w));
    AbsorbWord(s, w);
    OnesShifted();
    if Checksum(body + LittleEndian(w)) == RESIDUE {
      XorInjective(Shifts(Xor(s, w), 32), Shifts(ONES, 32), ONES);
      ShiftsInjective(Xor(s, w), ONES, 32);
      XorCommutes(s, w);
      XorTwice(w, s);
      XorCommutes(s, ONES);
    }
    if w == Checksum(body) {
      XorCommutes(s, w);
      XorCommutes(s, ONES);
      XorTwice(ONES, s);
    }
  }

  /** A buffer that ends with its own checksum has one fixed checksum, whatever it holds. */
  lemma SelfInclusion(bytes: seq<bv8>)
    ensures Checksum(bytes + LittleEndian(Checksum(bytes))) == RESIDUE
  {
    hide *;
    ResidueExactly(bytes, Checksum(bytes));
  }
}
