/** Composite values and their flat byte bodies: what a value packs to, what reads back from the
    packed bytes, when two enum bodies are equal, and the independent packer for constants. */
module FlatValue {
  import opened Options
  import opened Scalars

  /** Module widths in bytes of a word and of an address. */
  datatype Widths = Widths(word: nat, addr: nat)

  datatype Shape =
    | TupleShape
    | ArrayShape
    | StructShape(typeName: string, fieldNames: seq<string>)
    | EnumShape(enumName: string, variant: string, disc: int64, minPayload: nat)

  /** Where a flat body lies in the arena; an empty body lies nowhere. */
  datatype Body = Body(start: nat, len: nat)

  datatype Kind = TupleKind | ArrayKind | StructKind | EnumKind

  datatype Value =
    | Unit
    | Bool(b: bool)
    | Byte(x: byte)
    | Int(i: int64)
    | Fixed(raw: int64)
    | OpaqueRef(index: nat)
    | Nothing
    | Text(s: string)
    | Boxed(shape: Shape, elems: seq<Value>)
    | Flat(kind: Kind, body: Body)

  const MAX_BODY := 0xFFFF

  function KindOf(shape: Shape): Kind {
    match shape
    case TupleShape => TupleKind
    case ArrayShape => ArrayKind
    case StructShape(_, _) => StructKind
    case EnumShape(_, _, _, _) => EnumKind
  }

  predicate IsScalar(v: Value) {
    v.Unit? || v.Bool? || v.Byte? || v.Int? || v.Fixed?
  }

  function ScalarSize(v: Value, w: Widths): nat
    requires IsScalar(v)
  {
    match v
    case Unit => 0
    case Bool(_) | Byte(_) => 1
    case _ => w.word
  }

  function ScalarBytes(v: Value, w: Widths): (b: seq<byte>)
    requires IsScalar(v) && w.word <= 8
    ensures |b| == ScalarSize(v, w)
  {
    match v
    case Unit => []
    case Bool(b) => [if b then 1 else 0]
    case Byte(x) => [x]
    case Int(i) => IntBytes(i, w.word)
    case Fixed(i) => IntBytes(i, w.word)
  }

  /** An index any of whose bytes lies beyond the address field is refused, not cut. */
  predicate OpaqueFits(index: nat, w: Widths) {
    w.addr <= 8 && forall k :: w.addr <= k < 8 ==> LeBytes(index, 8)[k] == 0
  }

  /** A registry index is stored exactly, or refused exactly when the field cannot hold it. */
  lemma OpaqueExactOrRefused(index: nat, w: Widths)
    requires index < Pow256(8)
    ensures OpaqueFits(index, w) <==> w.addr <= 8 && index < Pow256(w.addr)
    ensures OpaqueFits(index, w) ==> LeValue(LeBytes(index, w.addr)) == index
  {
    hide LeBytes, LeValue, Pow256;
    if w.addr <= 8 {
      var all := LeBytes(index, 8);
      var low, high := all[..w.addr], all[w.addr..];
      assert all == low + high;
      LeRound(index, 8);
      SmallMod(index, Pow256(8));
      LePrefix(index, 8, w.addr);
      LeAppend(low, high);
      LeBound(low);
      ZeroValue(high);
      assert forall j :: 0 <= j < |high| ==> high[j] == all[j + w.addr];
      assert forall k :: w.addr <= k < 8 ==> all[k] == high[k - w.addr];
      Leading(LeValue(low), Pow256(w.addr), LeValue(high), index);
    }
  }

  lemma Leading(low: nat, p: nat, high: nat, n: nat)
    requires low < p && n == low + p * high
    ensures n < p <==> high == 0
  {
    if high > 0 {
      assert p * high >= p;
    }
  }

  lemma SmallMod(n: nat, p: nat)
    requires n < p
    ensures n % p == n
  {}

  lemma Carry(d: nat, t: nat, p: nat, v: nat)
    ensures d + 0x100 * (t + p * v) == (d + 0x100 * t) + (0x100 * p) * v
  {}

  lemma {:induction false} LeAppend(a: seq<byte>, b: seq<byte>)
    ensures LeValue(a + b) == LeValue(a) + Pow256(|a|) * LeValue(b)
    decreases |a|
  {
    if a == [] {
      assert a + b == b;
    } else {
      LeAppend(a[1..], b);
      assert (a + b)[1..] == a[1..] + b;
      Carry(a[0], LeValue(a[1..]), Pow256(|a| - 1), LeValue(b));
    }
  }

  lemma {:induction false} ZeroValue(b: seq<byte>)
    ensures LeValue(b) == 0 <==> forall j :: 0 <= j < |b| ==> b[j] == 0
    decreases |b|
  {
    if b != [] {
      ZeroValue(b[1..]);
      assert (forall j :: 0 <= j < |b| ==> b[j] == 0) <==> b[0] == 0 && (forall j :: 0 <= j < |b[1..]| ==> b[1..][j] == 0) by {
        if b[0] == 0 && forall j :: 0 <= j < |b[1..]| ==> b[1..][j] == 0 {
          assert forall j :: 1 <= j < |b| ==> b[j] == b[1..][j - 1];
        }
      }
    }
  }

  // ----- values that flatten -----

  /** The values packed for a composite: an enum's discriminant leads. The built-in `Option` always
      packs with the discriminant of `Some`. */
  function Discriminant(shape: Shape): int64
    requires shape.EnumShape?
  {
    if shape.enumName == "Option" then 1 else shape.disc
  }

  function MinBytes(shape: Shape, w: Widths): nat {
    if shape.EnumShape? then w.word + shape.minPayload else 0
  }

  function LeadSize(shape: Shape, w: Widths): nat {
    if shape.EnumShape? then w.word else 0
  }

  function Max(a: nat, b: nat): nat {
    if a < b then b else a
  }

  /** The flat size of a value built of boxed composites and fixed scalars. */
  function Size(v: Value, w: Widths): nat
    decreases v, 1
  {
    if IsScalar(v) then ScalarSize(v, w)
    else if v.Boxed? then Max(LeadSize(v.shape, w) + SizeUpto(v, w, |v.elems|), MinBytes(v.shape, w))
    else 0
  }

  function SizeUpto(v: Value, w: Widths, n: nat): nat
    requires v.Boxed? && n <= |v.elems|
    decreases v, 0, n
  {
    if n == 0 then 0 else SizeUpto(v, w, n - 1) + Size(v.elems[n - 1], w)
  }

  /** Only boxed composites and fixed scalars, at any depth. */
  predicate Plain(v: Value) {
    IsScalar(v) || (v.Boxed? && forall i :: 0 <= i < |v.elems| ==> Plain(v.elems[i]))
  }

  /** What a plain value's body holds. */
  function Packed(v: Value, w: Widths): (b: seq<byte>)
    requires Plain(v) && w.word <= 8
    ensures |b| == Size(v, w)
    decreases v, 1
  {
    if IsScalar(v) then ScalarBytes(v, w)
    else
      var fields := Lead(v.shape, w) + PackedUpto(v, w, |v.elems|);
      fields + Zeros(Size(v, w) - |fields|)
  }

  function Lead(shape: Shape, w: Widths): (b: seq<byte>)
    requires w.word <= 8
    ensures |b| == LeadSize(shape, w)
  {
    if shape.EnumShape? then IntBytes(Discriminant(shape), w.word) else []
  }

  function PackedUpto(v: Value, w: Widths, n: nat): (b: seq<byte>)
    requires v.Boxed? && Plain(v) && n <= |v.elems| && w.word <= 8
    ensures |b| == SizeUpto(v, w, n)
    decreases v, 0, n
  {
    if n == 0 then [] else PackedUpto(v, w, n - 1) + Packed(v.elems[n - 1], w)
  }

  function Zeros(n: nat): (b: seq<byte>)
    ensures |b| == n && forall k :: 0 <= k < n ==> b[k] == 0
  {
    seq(n, _ => 0)
  }

  // ----- reading back -----

  /** The offset access instructions bake for field `i`. */
  function FieldOffset(v: Value, w: Widths, i: nat): nat
    requires v.Boxed? && i <= |v.elems|
  {
    LeadSize(v.shape, w) + SizeUpto(v, w, i)
  }

  lemma SliceLeft(a: seq<byte>, b: seq<byte>, i: nat, j: nat)
    requires i <= j <= |a|
    ensures (a + b)[i..j] == a[i..j]
  {}

  lemma SliceRight(a: seq<byte>, b: seq<byte>, i: nat, j: nat)
    requires i <= j <= |b|
    ensures (a + b)[|a| + i..|a| + j] == b[i..j]
  {}

  lemma SliceAll(a: seq<byte>, n: nat)
    requires n == |a|
    ensures a[0..n] == a
  {}

  lemma {:induction false} PackedPrefix(v: Value, w: Widths, i: nat, n: nat)
    requires v.Boxed? && Plain(v) && i < n <= |v.elems| && w.word <= 8
    ensures SizeUpto(v, w, i) + Size(v.elems[i], w) <= SizeUpto(v, w, n)
    ensures PackedUpto(v, w, n)[SizeUpto(v, w, i)..SizeUpto(v, w, i) + Size(v.elems[i], w)] == Packed(v.elems[i], w)
    decreases n
  {
    hide Packed, Size, Plain;
    assert Plain(v.elems[n - 1]) && Plain(v.elems[i]) by { PlainElems(v); }
    var at, init, last := SizeUpto(v, w, i), PackedUpto(v, w, n - 1), Packed(v.elems[n - 1], w);
    if i < n - 1 {
      PackedPrefix(v, w, i, n - 1);
      SliceLeft(init, last, at, at + Size(v.elems[i], w));
    } else {
      SliceRight(init, last, 0, |last|);
      SliceAll(last, |last|);
    }
  }

  lemma PlainElems(v: Value)
    requires v.Boxed? && Plain(v)
    ensures forall i :: 0 <= i < |v.elems| ==> Plain(v.elems[i])
  {}

  lemma PackedOpen(v: Value, w: Widths)
    requires v.Boxed? && Plain(v) && w.word <= 8
    ensures var fields := Lead(v.shape, w) + PackedUpto(v, w, |v.elems|);
      && |fields| == FieldOffset(v, w, |v.elems|) <= Size(v, w) == Max(FieldOffset(v, w, |v.elems|), MinBytes(v.shape, w))
      && Packed(v, w) == fields + Zeros(Size(v, w) - |fields|)
  {}

  /** A body whose fields start at `at` and end at `end`: an enum's start behind the word of its discriminant, which
      is 1 for an `Option`, and its body is at least that word and the widest payload; any other starts with them
      and is no longer. */
  predicate Leads(shape: Shape, w: Widths, at: nat, body: seq<byte>, end: nat)
    requires w.word <= 8
  {
    match shape
    case EnumShape(name, _, disc, minPayload) =>
      && at == w.word <= |body| && body[..w.word] == IntBytes(if name == "Option" then 1 else disc, w.word)
      && end <= |body| && w.word + minPayload <= |body| && (|body| == end || |body| == w.word + minPayload)
    case _ => at == 0 && |body| == end
  }

  lemma LeadExactly(shape: Shape, w: Widths)
    requires w.word <= 8
    ensures match shape
      case EnumShape(name, _, disc, minPayload) =>
        && Lead(shape, w) == IntBytes(if name == "Option" then 1 else disc, w.word)
        && LeadSize(shape, w) == w.word && MinBytes(shape, w) == w.word + minPayload
      case _ => Lead(shape, w) == [] && LeadSize(shape, w) == 0 && MinBytes(shape, w) == 0
  {}

  /** A packed body is the discriminant if there is one, the fields at their running offsets, nested
      children byte for byte, and zeros behind them up to the size the shape asks for. */
  lemma PackedLayout(v: Value, w: Widths)
    requires v.Boxed? && Plain(v) && w.word <= 8
    ensures |Packed(v, w)| == Max(FieldOffset(v, w, |v.elems|), MinBytes(v.shape, w))
    ensures LeadSize(v.shape, w) <= |Packed(v, w)| && Packed(v, w)[..LeadSize(v.shape, w)] == Lead(v.shape, w)
    ensures forall k :: FieldOffset(v, w, |v.elems|) <= k < |Packed(v, w)| ==> Packed(v, w)[k] == 0
    ensures Leads(v.shape, w, FieldOffset(v, w, 0), Packed(v, w), FieldOffset(v, w, |v.elems|))
  {
    LeadExactly(v.shape, w);
    hide Packed, PackedUpto, SizeUpto, Plain, Lead, LeadSize, Max, MinBytes;
    PackedOpen(v, w);
    var lead, all := Lead(v.shape, w), PackedUpto(v, w, |v.elems|);
    var fields, zeros := lead + all, Zeros(Size(v, w) - |lead + all|);
    SliceLeft(fields, zeros, 0, |lead|);
    SliceLeft(lead, all, 0, |lead|);
    SliceAll(lead, |lead|);
    assert forall k :: |fields| <= k < |fields + zeros| ==> (fields + zeros)[k] == zeros[k - |fields|];
  }

  /** Field `i` of a packed body lies at its running offset. */
  lemma PackedField(v: Value, w: Widths, i: nat)
    requires v.Boxed? && Plain(v) && w.word <= 8 && i < |v.elems|
    ensures FieldOffset(v, w, i) + Size(v.elems[i], w) <= |Packed(v, w)|
    ensures Plain(v.elems[i])
    ensures Packed(v, w)[FieldOffset(v, w, i)..FieldOffset(v, w, i) + Size(v.elems[i], w)] == Packed(v.elems[i], w)
  {
    hide Packed, PackedUpto, SizeUpto, Plain, Lead, LeadSize, Max, MinBytes, Size;
    PackedOpen(v, w);
    PackedPrefix(v, w, i, |v.elems|);
    PlainElems(v);
    var lead, all := Lead(v.shape, w), PackedUpto(v, w, |v.elems|);
    var at, n := SizeUpto(v, w, i), Size(v.elems[i], w);
    SliceRight(lead, all, at, at + n);
    SliceLeft(lead + all, Zeros(Size(v, w) - |lead + all|), |lead| + at, |lead| + at + n);
  }

  datatype ScalarKind = UnitKind | BoolKind | ByteKind | IntKind | FixedKind | TextKind | OpaqueKind

  datatype ScalarError = OutOfBounds | ReferenceKind | UnsupportedWidth

  datatype Result<+T, +E> = Ok(value: T) | Err(error: E)

  /** Read a scalar of the kind the compiler baked. */
  function ReadScalar(src: seq<byte>, offset: nat, kind: ScalarKind, w: Widths): Result<Value, ScalarError>
    requires w.word > 0
  {
    match kind
    case UnitKind => Ok(Unit)
    case BoolKind => if offset < |src| then Ok(Bool(src[offset] != 0)) else Err(OutOfBounds)
    case ByteKind => if offset < |src| then Ok(Byte(src[offset])) else Err(OutOfBounds)
    case IntKind =>
      if w.word > 8 then Err(UnsupportedWidth)
      else if offset + w.word > |src| then Err(OutOfBounds)
      else Ok(Int(Word(src[offset..offset + w.word])))
    case FixedKind =>
      if w.word > 8 then Err(UnsupportedWidth)
      else if offset + w.word > |src| then Err(OutOfBounds)
      else Ok(Fixed(Word(src[offset..offset + w.word])))
    case _ => Err(ReferenceKind)
  }

  function Word(b: seq<byte>): int64
    requires 0 < |b| <= 8
  {
    ReadIntRange(b);
    ReadInt(b)
  }

  lemma ReadIntRange(b: seq<byte>)
    requires 0 < |b| <= 8
    ensures -0x8000_0000_0000_0000 <= ReadInt(b) < 0x8000_0000_0000_0000
  {
    LeBound(b);
    assert Pow256(2) == 0x1_0000;
    assert Pow256(4) == 0x1_0000_0000;
    assert Pow256(6) == 0x1_0000_0000_0000;
    assert Pow256(8) == 0x1_0000_0000_0000_0000;
    PowMono(|b|, 8);
  }

  lemma {:induction false} PowMono(a: nat, b: nat)
    requires a <= b
    ensures 0 < Pow256(a) <= Pow256(b)
    decreases b
  {
    PowPositive(a);
    if a < b {
      PowMono(a, b - 1);
    }
  }

  function KindOfScalar(v: Value): ScalarKind
    requires IsScalar(v)
  {
    match v
    case Unit => UnitKind
    case Bool(_) => BoolKind
    case Byte(_) => ByteKind
    case Int(_) => IntKind
    case _ => FixedKind
  }

  /** A read fails by the kind first, then by the width of a word, then where the bytes are not there; otherwise it
      is what those bytes say. */
  lemma ReadsExactly(src: seq<byte>, at: nat, kind: ScalarKind, w: Widths)
    requires w.word > 0
    ensures var r, worded := ReadScalar(src, at, kind, w), kind.IntKind? || kind.FixedKind?;
      && (r == Err(ReferenceKind) <==> kind.TextKind? || kind.OpaqueKind?)
      && (r == Err(UnsupportedWidth) <==> worded && w.word > 8)
      && (r == Err(OutOfBounds) <==>
            if worded then at + w.word > |src| && w.word <= 8 else at >= |src| && (kind.BoolKind? || kind.ByteKind?))
      && (r.Ok? && kind.UnitKind? ==> r.value == Unit)
      && (r.Ok? && kind.BoolKind? ==> r.value == Bool(src[at] != 0))
      && (r.Ok? && kind.ByteKind? ==> r.value == Byte(src[at]))
      && (r.Ok? && kind.IntKind? ==> r.value.Int? && r.value.i == ReadInt(src[at..at + w.word]))
      && (r.Ok? && kind.FixedKind? ==> r.value.Fixed? && r.value.raw == ReadInt(src[at..at + w.word]))
  {}

  /** A scalar field reads back as itself, a word as the word cut to the declared width. */
  lemma FieldReadsBack(v: Value, bitsLog2: nat, addr: nat, i: nat)
    requires 3 <= bitsLog2 <= 6 && v.Boxed? && Plain(v) && i < |v.elems| && IsScalar(v.elems[i])
    ensures var w := Widths(BitsOf(bitsLog2) / 8, addr);
      && 0 < w.word <= 8
      && var r := ReadScalar(Packed(v, w), FieldOffset(v, w, i), KindOfScalar(v.elems[i]), w);
        && r.Ok?
        && match v.elems[i]
           case Int(n) => r.value.Int? && r.value.i == TruncateToDeclared(n, bitsLog2)
           case Fixed(n) => r.value.Fixed? && r.value.raw == TruncateToDeclared(n, bitsLog2)
           case x => r.value == x
  {
    var w := Widths(BitsOf(bitsLog2) / 8, addr);
    var x := v.elems[i];
    ScalarRoundTrip(if x.Int? then x.i else if x.Fixed? then x.raw else 0, bitsLog2);
    PackedField(v, w, i);
    ScalarReadsBack(x, Packed(v, w), FieldOffset(v, w, i), w);
  }

  /** A scalar's bytes, wherever they lie, read back as the scalar, a word as what its bytes say. */
  lemma ScalarReadsBack(x: Value, src: seq<byte>, at: nat, w: Widths)
    requires IsScalar(x) && 0 < w.word <= 8
    requires at + ScalarSize(x, w) <= |src| && src[at..at + ScalarSize(x, w)] == ScalarBytes(x, w)
    ensures ReadScalar(src, at, KindOfScalar(x), w) == Ok(match x
      case Int(n) => Int(Word(IntBytes(n, w.word)))
      case Fixed(n) => Fixed(Word(IntBytes(n, w.word)))
      case _ => x)
  {
    if x.Bool? || x.Byte? {
      assert src[at] == src[at..at + 1][0];
    }
  }

  // ----- padding-tolerant equality -----

  /** The overlapping prefix agrees and both remainders are zero. */
  predicate EnumBytesEq(a: seq<byte>, b: seq<byte>) {
    var m := if |a| < |b| then |a| else |b|;
    a[..m] == b[..m] && (forall k :: m <= k < |a| ==> a[k] == 0) && (forall k :: m <= k < |b| ==> b[k] == 0)
  }

  /** Byte `k` of a body continued with zeros. */
  function ByteAt(a: seq<byte>, k: nat): byte {
    if k < |a| then a[k] else 0
  }

  /** Two bodies are equal exactly when they agree byte by byte once continued with zeros. */
  lemma EqIsZeroExtension(a: seq<byte>, b: seq<byte>)
    ensures EnumBytesEq(a, b) <==> forall k: nat :: ByteAt(a, k) == ByteAt(b, k)
  {
    var m := if |a| < |b| then |a| else |b|;
    if EnumBytesEq(a, b) {
      forall k: nat
        ensures ByteAt(a, k) == ByteAt(b, k)
      {
        if k < m {
          assert a[k] == a[..m][k] == b[..m][k] == b[k];
        }
      }
    }
    if forall k: nat :: ByteAt(a, k) == ByteAt(b, k) {
      assert forall k :: 0 <= k < m ==> a[k] == ByteAt(a, k) == ByteAt(b, k) == b[k];
      assert forall k :: m <= k < |a| ==> a[k] == ByteAt(a, k) == ByteAt(b, k);
      assert forall k :: m <= k < |b| ==> b[k] == ByteAt(b, k) == ByteAt(a, k);
    }
  }

  lemma EqIsEquivalence(a: seq<byte>, b: seq<byte>, c: seq<byte>)
    ensures EnumBytesEq(a, a)
    ensures EnumBytesEq(a, b) <==> EnumBytesEq(b, a)
    ensures EnumBytesEq(a, b) && EnumBytesEq(b, c) ==> EnumBytesEq(a, c)
  {
    EqIsZeroExtension(a, b);
    EqIsZeroExtension(b, a);
    EqIsZeroExtension(b, c);
    EqIsZeroExtension(a, c);
  }

  /** The same enum value packed with and without padding: equal. */
  lemma PaddingTolerated(v: Value, padded: nat, w: Widths)
    requires v.Boxed? && v.shape.EnumShape? && Plain(v) && w.word <= 8 && v.shape.minPayload <= padded
    ensures var wide := v.(shape := v.shape.(minPayload := padded));
      Plain(wide) && EnumBytesEq(Packed(v, w), Packed(wide, w))
  {
    var wide := v.(shape := v.shape.(minPayload := padded));
    assert Plain(wide);
    hide Packed, PackedUpto, SizeUpto, Size, Plain;
    PackedOpen(v, w);
    PackedOpen(wide, w);
    UptoSame(v, wide, w, |v.elems|);
    PaddedEq(Lead(v.shape, w) + PackedUpto(v, w, |v.elems|), Size(v, w) - FieldOffset(v, w, |v.elems|),
      Size(wide, w) - FieldOffset(v, w, |v.elems|));
  }

  lemma PaddedEq(fields: seq<byte>, m: nat, n: nat)
    ensures EnumBytesEq(fields + Zeros(m), fields + Zeros(n))
  {
    var a, b := fields + Zeros(m), fields + Zeros(n);
    EqIsZeroExtension(a, b);
    assert forall k: nat :: ByteAt(a, k) == (if k < |fields| then fields[k] else 0);
    assert forall k: nat :: ByteAt(b, k) == (if k < |fields| then fields[k] else 0);
  }

  lemma {:induction false} UptoSame(v: Value, u: Value, w: Widths, n: nat)
    requires v.Boxed? && u.Boxed? && v.elems == u.elems && Plain(v) && Plain(u) && n <= |v.elems| && w.word <= 8
    ensures PackedUpto(v, w, n) == PackedUpto(u, w, n) && SizeUpto(v, w, n) == SizeUpto(u, w, n)
    decreases n
  {
    if n > 0 {
      UptoSame(v, u, w, n - 1);
    }
  }

  /** Bodies whose encoded discriminants differ are never equal; with one discriminant and one payload
      size, equality is payload equality. */
  lemma EqTellsVariants(a: seq<byte>, b: seq<byte>, w: Widths)
    requires w.word <= |a| && w.word <= |b|
    ensures a[..w.word] != b[..w.word] ==> !EnumBytesEq(a, b)
    ensures |a| == |b| && a[..w.word] == b[..w.word] ==> (EnumBytesEq(a, b) <==> a[w.word..] == b[w.word..])
  {
    var m := if |a| < |b| then |a| else |b|;
    assert a[..m][..w.word] == a[..w.word] && b[..m][..w.word] == b[..w.word];
    if |a| == |b| && a[..w.word] == b[..w.word] {
      assert a == a[..w.word] + a[w.word..] && b == b[..w.word] + b[w.word..];
      assert a[..m] == a && b[..m] == b;
    }
  }
}
