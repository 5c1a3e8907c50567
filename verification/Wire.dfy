/** The debug pool's byte form, position by position, and the order its records come in. */
module Wire {
  import opened Scalars
  import opened ByteCodec
  import opened DebugPool

  /** The little-endian number in the `w` bytes at `at`. */
  function NumberAt(b: seq<byte>, at: nat, w: nat): nat
    requires at + w <= |b|
  {
    LeValue(b[at..at + w])
  }

  const KINDS := [
    CallSite, SourceSpan, LineNumber, VariableName, TypeAnnotation, AssertionContext,
    BreakpointCandidate, GenericInstantiation, IfcLabelAnnotation, WcetMarker, OptimisationMarker, VerifierWitness]

  /** The wire byte of a kind is its place in the catalogue. */
  lemma KindNumbers(k: Kind)
    ensures KindByte(k) as int < |KINDS| && KINDS[KindByte(k)] == k
  {}

  /** A length and as many bytes. */
  predicate IsBlob(b: seq<byte>, s: seq<byte>) {
    |b| == 4 + |s| && NumberAt(b, 0, 4) == |s| && b[4..] == s
  }

  predicate IsSpan(b: seq<byte>, s: Span) {
    |b| == 10 && NumberAt(b, 0, 2) == s.file && NumberAt(b, 2, 4) == s.offset && NumberAt(b, 6, 4) == s.length
  }

  predicate IsRecord(b: seq<byte>, r: Record) {
    && |b| == 7 + 2 * |r.operands|
    && NumberAt(b, 0, 4) == r.opIndex && b[4] == KindByte(r.kind) && NumberAt(b, 5, 2) == |r.operands|
    && forall k :: 0 <= k < |r.operands| ==> NumberAt(b, 7 + 2 * k, 2) == r.operands[k]
  }

  type Item<!T> = (seq<byte>, T) -> bool

  predicate ItemIn<T>(b: seq<byte>, item: Item<T>, x: T, lo: nat, hi: nat) {
    lo <= hi <= |b| && item(b[lo..hi], x)
  }

  predicate ItemAt<T>(b: seq<byte>, item: Item<T>, xs: seq<T>, at: seq<nat>, k: nat) {
    k < |xs| && k + 1 < |at| && ItemIn(b, item, xs[k], at[k], at[k + 1])
  }

  /** The items fill `b` from `lo` on, one behind the other. */
  predicate ItemsAt<T>(b: seq<byte>, lo: nat, item: Item<T>, xs: seq<T>, at: seq<nat>) {
    && |at| == |xs| + 1 && at[0] == lo && at[|xs|] == |b|
    && forall k :: 0 <= k < |xs| ==> ItemAt(b, item, xs, at, k)
  }

  /** A count, then the items. */

  ghost predicate IsSection<T(!new)>(b: seq<byte>, item: Item<T>, xs: seq<T>) {
    |b| >= 4 && NumberAt(b, 0, 4) == |xs| && exists at :: ItemsAt(b, 4, item, xs, at)
  }

  // ----- items -----

  lemma NumberReads(before: seq<byte>, n: nat, w: nat, after: seq<byte>)
    requires n < Pow256(w)
    ensures NumberAt(before + LeBytes(n, w) + after, |before|, w) == n
  {
    LeRound(n, w);
    assert (before + LeBytes(n, w) + after)[|before|..|before| + w] == LeBytes(n, w);
  }

  lemma BlobLayout(s: seq<byte>)
    requires BlobFits(s)
    ensures IsBlob(BlobBytes(s), s)
  {
    NumberReads([], |s|, 4, s);
    assert [] + LeBytes(|s|, 4) + s == BlobBytes(s);
  }

  lemma SpanLayout(s: Span)
    requires SpanFits(s)
    ensures IsSpan(SpanBytes(s), s)
  {
    var a, b, c := LeBytes(s.file, 2), LeBytes(s.offset, 4), LeBytes(s.length, 4);
    NumberReads([], s.file, 2, b + c);
    assert [] + a + (b + c) == SpanBytes(s);
    NumberReads(a, s.offset, 4, c);
    assert a + b + c == SpanBytes(s);
    NumberReads(a + b, s.length, 4, []);
    assert a + b + c + [] == SpanBytes(s);
  }

  lemma {:induction false} ShortsLayout(ns: seq<nat>, k: nat)
    requires AllFit(ShortFits, ns) && k < |ns|
    ensures |ManyBytes(ShortBytes, ns)| == 2 * |ns| && NumberAt(ManyBytes(ShortBytes, ns), 2 * k, 2) == ns[k]
    decreases |ns|
  {
    var first, tail := ShortBytes(ns[0]), ManyBytes(ShortBytes, ns[1..]);
    NumberReads([], ns[0], 2, tail);
    assert [] + first + tail == first + tail;
    if |ns| > 1 {
      ShortsLayout(ns[1..], if k > 0 then k - 1 else 0);
      assert k > 0 ==> (first + tail)[2 * k..2 * k + 2] == tail[2 * (k - 1)..2 * (k - 1) + 2];
    }
  }

  lemma RecordLayout(r: Record)
    requires RecordFits(r)
    ensures IsRecord(RecordBytes(r), r)
  {
    hide LeBytes, LeValue, ManyBytes, KindByte, Pow256;
    var a, kind, n, ops := LeBytes(r.opIndex, 4), [KindByte(r.kind)], LeBytes(|r.operands|, 2), ManyBytes(ShortBytes, r.operands);
    var b := RecordBytes(r);
    NumberReads([], r.opIndex, 4, kind + (n + ops));
    assert [] + a + (kind + (n + ops)) == b;
    NumberReads(a + kind, |r.operands|, 2, ops);
    assert a + kind + n + ops == b;
    assert |ops| == 2 * |r.operands| by {
      if r.operands == [] {
        NoneBytes(ShortBytes);
      } else {
        ShortsLayout(r.operands, 0);
      }
    }
    forall k | 0 <= k < |r.operands|
      ensures NumberAt(b, 7 + 2 * k, 2) == r.operands[k]
    {
      ShortsLayout(r.operands, k);
      assert b[7 + 2 * k..7 + 2 * k + 2] == ops[2 * k..2 * k + 2];
    }
  }

  lemma NoneBytes<T>(enc: Encoder<T>)
    ensures ManyBytes(enc, []) == []
  {}

  // ----- sections -----

  lemma {:induction false} ItemsLayout<T(!new)>(enc: Encoder<T>, item: Item<T>, fits: Carried<T>, xs: seq<T>) returns (at: seq<nat>)
    requires AllFit(fits, xs) && forall x :: fits(x) ==> item(enc(x), x)
    ensures ItemsAt(ManyBytes(enc, xs), 0, item, xs, at)
    decreases |xs|
  {
    at := [0];
    if xs != [] {
      var first := enc(xs[0]);
      var tail := ManyBytes(enc, xs[1..]);
      assert AllFit(fits, xs[1..]) && fits(xs[0]);
      var rest := ItemsLayout(enc, item, fits, xs[1..]);
      ItemsBehind(first, tail, 0, item, xs[1..], rest);
      at := [0] + Shifted(rest, |first|);
      assert (first + tail)[0..|first|] == first;
      hide AllFit;
      forall k | 0 <= k < |xs|
        ensures ItemAt(first + tail, item, xs, at, k)
      {
        if k > 0 {
          assert ItemAt(first + tail, item, xs[1..], Shifted(rest, |first|), k - 1);
        }
      }
    }
  }

  function Shifted(at: seq<nat>, n: nat): (r: seq<nat>)
    ensures |r| == |at| && forall k :: 0 <= k < |at| ==> r[k] == at[k] + n
  {
    seq(|at|, k requires 0 <= k < |at| => at[k] + n)
  }

  /** Items stay items with something put in front. */
  lemma ItemsBehind<T(!new)>(front: seq<byte>, b: seq<byte>, lo: nat, item: Item<T>, xs: seq<T>, at: seq<nat>)
    requires ItemsAt(b, lo, item, xs, at)
    ensures ItemsAt(front + b, lo + |front|, item, xs, Shifted(at, |front|))
  {
    hide Shifted;
    forall k | 0 <= k < |xs|
      ensures ItemAt(front + b, item, xs, Shifted(at, |front|), k)
    {
      assert ItemAt(b, item, xs, at, k);
      assert (front + b)[at[k] + |front|..at[k + 1] + |front|] == b[at[k]..at[k + 1]];
    }
  }

  lemma SectionLayout<T(!new)>(enc: Encoder<T>, item: Item<T>, fits: Carried<T>, xs: seq<T>)
    requires ListFits(4, fits, xs) && forall x :: fits(x) ==> item(enc(x), x)
    ensures IsSection(ListBytes(4, enc, xs), item, xs)
  {
    hide ManyBytes, LeBytes, LeValue, Pow256, ItemsAt;
    var count, many := LeBytes(|xs|, 4), ManyBytes(enc, xs);
    NumberReads([], |xs|, 4, many);
    assert [] + count + many == ListBytes(4, enc, xs);
    var at := ItemsLayout(enc, item, fits, xs);
    ItemsBehind(count, many, 0, item, xs, at);
  }

  /** An encoding is its four sections, in this order and nothing else, each a count and its items. */
  lemma PoolLayout(p: Pool) returns (i: nat, j: nat, k: nat)
    requires PoolFits(p)
    ensures i <= j <= k <= |Encode(p)|
    ensures IsSection(Encode(p)[..i], IsBlob, p.strings) && IsSection(Encode(p)[i..j], IsSpan, p.spans)
    ensures IsSection(Encode(p)[j..k], IsBlob, p.types) && IsSection(Encode(p)[k..], IsRecord, Canonical(p).records)
  {
    CanonicalFits(p);
    hide StringFits, BlobFits, SpanFits, RecordFits, BlobBytes, SpanBytes, RecordBytes, IsBlob, IsSpan, IsRecord, Sort;
    var c := Canonical(p);
    AllLaid();
    SectionLayout(BlobBytes, IsBlob, StringFits, c.strings);
    SectionLayout(SpanBytes, IsSpan, SpanFits, c.spans);
    SectionLayout(BlobBytes, IsBlob, BlobFits, c.types);
    SectionLayout(RecordBytes, IsRecord, RecordFits, c.records);
    hide ListBytes, IsSection;
    i, j, k := FourCuts(ListBytes(4, BlobBytes, c.strings), ListBytes(4, SpanBytes, c.spans),
      ListBytes(4, BlobBytes, c.types), ListBytes(4, RecordBytes, c.records));
  }

  lemma AllLaid()
    ensures forall s :: StringFits(s) ==> IsBlob(BlobBytes(s), s)
    ensures forall s :: BlobFits(s) ==> IsBlob(BlobBytes(s), s)
    ensures forall s :: SpanFits(s) ==> IsSpan(SpanBytes(s), s)
    ensures forall r :: RecordFits(r) ==> IsRecord(RecordBytes(r), r)
  {
    forall s | BlobFits(s)
      ensures IsBlob(BlobBytes(s), s)
    {
      BlobLayout(s);
    }
    forall s | SpanFits(s)
      ensures IsSpan(SpanBytes(s), s)
    {
      SpanLayout(s);
    }
    forall r | RecordFits(r)
      ensures IsRecord(RecordBytes(r), r)
    {
      RecordLayout(r);
    }
  }

  lemma FourCuts(a: seq<byte>, b: seq<byte>, c: seq<byte>, d: seq<byte>) returns (i: nat, j: nat, k: nat)
    ensures i <= j <= k <= |a + (b + (c + d))|
    ensures var e := a + (b + (c + d)); e[..i] == a && e[i..j] == b && e[j..k] == c && e[k..] == d
  {
    i, j, k := |a|, |a| + |b|, |a| + |b| + |c|;
  }

  // ----- the order of records -----

  /** Position, kind byte, operands. */
  function Key(r: Record): seq<nat> {
    [r.opIndex, KindByte(r.kind)] + r.operands
  }

  /** `x` ends within `y`, or is smaller where they first differ, which is at `k`. */
  predicate SmallerAt(x: seq<nat>, y: seq<nat>, k: nat) {
    k <= |x| && k <= |y| && x[..k] == y[..k] && (k == |x| || (k < |y| && x[k] < y[k]))
  }

  lemma {:induction false} LexExactly(x: seq<nat>, y: seq<nat>)
    ensures LexLeq(x, y) <==> exists k: nat :: SmallerAt(x, y, k)
    decreases |x|
  {
    if x == [] {
      assert SmallerAt(x, y, 0);
    } else if y != [] && x[0] == y[0] {
      LexExactly(x[1..], y[1..]);
      if k: nat :| SmallerAt(x[1..], y[1..], k) {
        assert x[..k + 1] == [x[0]] + x[1..][..k] && y[..k + 1] == [y[0]] + y[1..][..k];
        assert SmallerAt(x, y, k + 1);
      }
      if k: nat :| SmallerAt(x, y, k) {
        assert k > 0;
        assert x[1..][..k - 1] == x[..k][1..] && y[1..][..k - 1] == y[..k][1..];
        assert SmallerAt(x[1..], y[1..], k - 1);
      }
    } else if y != [] && x[0] < y[0] {
      assert SmallerAt(x, y, 0);
    } else if y != [] {
      if k: nat :| SmallerAt(x, y, k) {
        HeadsFirst(x, y, k);
      }
    }
  }

  lemma HeadsFirst(x: seq<nat>, y: seq<nat>, k: nat)
    requires SmallerAt(x, y, k) && x != [] && y != []
    ensures x[0] <= y[0]
  {
    if k > 0 {
      assert x[..k][0] == y[..k][0];
    }
  }

  /** Records compare by position, then kind byte, then operands, each before the next. */
  lemma LeqExactly(a: Record, b: Record)
    ensures Leq(a, b) <==> exists k: nat :: SmallerAt(Key(a), Key(b), k)
  {
    hide KindByte;
    var x, y := Key(a), Key(b);
    LexExactly(x, y);
    assert x[1..][0] == KindByte(a.kind) && y[1..][0] == KindByte(b.kind);
    assert x[1..][1..] == a.operands && y[1..][1..] == b.operands;
    assert LexLeq(x, y) <==> x[0] < y[0] || (x[0] == y[0] && LexLeq(x[1..], y[1..]));
    if KindByte(a.kind) == KindByte(b.kind) {
      KindsDiffer(a.kind, b.kind);
    }
  }

  /** The records of an encoding are the pool's, each as often, in that order. */
  lemma RecordsInOrder(p: Pool, i: nat, j: nat)
    requires i < j < |Canonical(p).records|
    ensures multiset(Canonical(p).records) == multiset(p.records)
    ensures exists k: nat :: SmallerAt(Key(Canonical(p).records[i]), Key(Canonical(p).records[j]), k)
  {
    SortSorts(p.records);
    LeqExactly(Canonical(p).records[i], Canonical(p).records[j]);
  }
}
