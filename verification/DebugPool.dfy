/** The debug metadata pool and its canonical byte form. */
module DebugPool {
  import opened Options
  import opened Scalars
  import opened ByteCodec

  datatype Kind =
    | CallSite | SourceSpan | LineNumber | VariableName | TypeAnnotation | AssertionContext | BreakpointCandidate
    | GenericInstantiation | IfcLabelAnnotation | WcetMarker | OptimisationMarker | VerifierWitness

  function KindByte(k: Kind): byte {
    match k
    case CallSite => 0
    case SourceSpan => 1
    case LineNumber => 2
    case VariableName => 3
    case TypeAnnotation => 4
    case AssertionContext => 5
    case BreakpointCandidate => 6
    case GenericInstantiation => 7
    case IfcLabelAnnotation => 8
    case WcetMarker => 9
    case OptimisationMarker => 10
    case VerifierWitness => 11
  }

  function KindOf(b: byte): Option<Kind> {
    match b
    case 0 => Some(CallSite)
    case 1 => Some(SourceSpan)
    case 2 => Some(LineNumber)
    case 3 => Some(VariableName)
    case 4 => Some(TypeAnnotation)
    case 5 => Some(AssertionContext)
    case 6 => Some(BreakpointCandidate)
    case 7 => Some(GenericInstantiation)
    case 8 => Some(IfcLabelAnnotation)
    case 9 => Some(WcetMarker)
    case 10 => Some(OptimisationMarker)
    case 11 => Some(VerifierWitness)
    case _ => None
  }

  datatype Span = Span(file: nat, offset: nat, length: nat)

  datatype Record = Record(opIndex: nat, kind: Kind, operands: seq<nat>)

  /** Strings are held as their bytes. */
  datatype Pool = Pool(strings: seq<seq<byte>>, spans: seq<Span>, types: seq<seq<byte>>, records: seq<Record>)

  // ----- UTF-8, by the byte-range table of section 4 of RFC 3629 -----

  predicate Tail(b: seq<byte>, k: nat, lo: int, hi: int) {
    k < |b| && lo <= b[k] <= hi
  }

  /** The length of the well-formed sequence at the front; 0 when there is none. */
  function SequenceLength(b: seq<byte>): (n: nat)
    requires b != []
    ensures n <= |b|
  {
    var c := b[0];
    if c <= 0x7F then 1
    else if 0xC2 <= c <= 0xDF && Tail(b, 1, 0x80, 0xBF) then 2
    else if c == 0xE0 && Tail(b, 1, 0xA0, 0xBF) && Tail(b, 2, 0x80, 0xBF) then 3
    else if 0xE1 <= c <= 0xEF && c != 0xED && Tail(b, 1, 0x80, 0xBF) && Tail(b, 2, 0x80, 0xBF) then 3
    else if c == 0xED && Tail(b, 1, 0x80, 0x9F) && Tail(b, 2, 0x80, 0xBF) then 3
    else if c == 0xF0 && Tail(b, 1, 0x90, 0xBF) && Tail(b, 2, 0x80, 0xBF) && Tail(b, 3, 0x80, 0xBF) then 4
    else if 0xF1 <= c <= 0xF3 && Tail(b, 1, 0x80, 0xBF) && Tail(b, 2, 0x80, 0xBF) && Tail(b, 3, 0x80, 0xBF) then 4
    else if c == 0xF4 && Tail(b, 1, 0x80, 0x8F) && Tail(b, 2, 0x80, 0xBF) && Tail(b, 3, 0x80, 0xBF) then 4
    else 0
  }

  predicate ValidUtf8(b: seq<byte>)
    decreases |b|
  {
    b == [] || (SequenceLength(b) > 0 && ValidUtf8(b[SequenceLength(b)..]))
  }

  // ----- items -----

  function GetString(b: seq<byte>): Result<seq<byte>> {
    match GetBlob(b)
    case Err(e) => Err(e)
    case Ok(s, rest) => if ValidUtf8(s) then Ok(s, rest) else Err(InvalidUtf8)
  }

  predicate StringFits(s: seq<byte>) {
    BlobFits(s) && ValidUtf8(s)
  }

  function SpanBytes(s: Span): seq<byte> {
    LeBytes(s.file, 2) + (LeBytes(s.offset, 4) + LeBytes(s.length, 4))
  }

  function GetSpan(b: seq<byte>): Result<Span> {
    match GetInt(2, b)
    case Err(e) => Err(e)
    case Ok(file, b1) =>
      match GetInt(4, b1)
      case Err(e) => Err(e)
      case Ok(offset, b2) =>
        match GetInt(4, b2)
        case Err(e) => Err(e)
        case Ok(length, b3) => Ok(Span(file, offset, length), b3)
  }

  predicate SpanFits(s: Span) {
    s.file < Pow256(2) && s.offset < Pow256(4) && s.length < Pow256(4)
  }

  function ShortBytes(n: nat): seq<byte> {
    LeBytes(n, 2)
  }

  function GetShort(b: seq<byte>): Result<nat> {
    GetInt(2, b)
  }

  predicate ShortFits(n: nat) {
    n < Pow256(2)
  }

  function RecordBytes(r: Record): seq<byte> {
    LeBytes(r.opIndex, 4) + ([KindByte(r.kind)] + ListBytes(2, ShortBytes, r.operands))
  }

  function GetRecord(b: seq<byte>): Result<Record> {
    match GetInt(4, b)
    case Err(e) => Err(e)
    case Ok(opIndex, b1) =>
      match Take(1, b1)
      case Err(e) => Err(e)
      case Ok(kind, b2) =>
        if KindOf(kind[0]).None? then Err(UnknownRecordKind(kind[0]))
        else
          match GetList(2, GetShort, b2)
          case Err(e) => Err(e)
          case Ok(operands, b3) => Ok(Record(opIndex, KindOf(kind[0]).value, operands), b3)
  }

  predicate RecordFits(r: Record) {
    r.opIndex < Pow256(4) && ListFits(2, ShortFits, r.operands)
  }

  lemma KindRound(k: Kind, b: byte)
    ensures KindOf(KindByte(k)) == Some(k)
    ensures KindOf(b).Some? ==> KindByte(KindOf(b).value) == b
  {}

  lemma StringFaithful()
    ensures Faithful(BlobBytes, GetString, StringFits)
  {
    forall s: seq<byte>, rest: seq<byte> | StringFits(s)
      ensures GetString(BlobBytes(s) + rest) == Ok(s, rest)
    {
      BlobDecodes(s, rest);
    }
    forall b: seq<byte> | GetString(b).Ok?
      ensures StringFits(GetString(b).value) && b == BlobBytes(GetString(b).value) + GetString(b).rest
    {
      BlobInverts(b);
    }
    forall s: seq<byte>, k: nat | StringFits(s) && k < |BlobBytes(s)|
      ensures GetString(BlobBytes(s)[..k]) == Err(Truncated)
    {
      BlobStarves(s, k);
    }
  }

  lemma ShortFaithful()
    ensures Faithful(ShortBytes, GetShort, ShortFits)
  {
    forall n: nat, rest: seq<byte> | ShortFits(n)
      ensures GetShort(ShortBytes(n) + rest) == Ok(n, rest)
    {
      IntDecodes(2, n, rest);
    }
    forall b: seq<byte> | GetShort(b).Ok?
      ensures ShortFits(GetShort(b).value) && b == ShortBytes(GetShort(b).value) + GetShort(b).rest
    {
      IntInverts(2, b);
    }
  }

  lemma SpanDecodes(s: Span, rest: seq<byte>)
    requires SpanFits(s)
    ensures GetSpan(SpanBytes(s) + rest) == Ok(s, rest)
  {
    var c := LeBytes(s.length, 4) + rest;
    var b := LeBytes(s.offset, 4) + c;
    assert SpanBytes(s) + rest == LeBytes(s.file, 2) + b;
    IntDecodes(2, s.file, b);
    IntDecodes(4, s.offset, c);
    IntDecodes(4, s.length, rest);
  }

  lemma SpanInverts(b: seq<byte>)
    requires GetSpan(b).Ok?
    ensures SpanFits(GetSpan(b).value) && b == SpanBytes(GetSpan(b).value) + GetSpan(b).rest
  {
    IntInverts(2, b);
    var b1 := GetInt(2, b).rest;
    IntInverts(4, b1);
    var b2 := GetInt(4, b1).rest;
    IntInverts(4, b2);
    var r := GetSpan(b);
    assert b == LeBytes(r.value.file, 2) + (LeBytes(r.value.offset, 4) + (LeBytes(r.value.length, 4) + r.rest));
  }

  lemma SpanStarves(s: Span, k: nat)
    requires SpanFits(s) && k < |SpanBytes(s)|
    ensures GetSpan(SpanBytes(s)[..k]) == Err(Truncated)
  {
    var a, b, c := LeBytes(s.file, 2), LeBytes(s.offset, 4), LeBytes(s.length, 4);
    AppendStarves(a, b + c, k);
    if k >= 2 {
      IntDecodes(2, s.file, (b + c)[..k - 2]);
      AppendStarves(b, c, k - 2);
      if k >= 6 {
        IntDecodes(4, s.offset, c[..k - 6]);
      }
    }
  }

  lemma SpanFaithful()
    ensures Faithful(SpanBytes, GetSpan, SpanFits)
  {
    forall s: Span, rest: seq<byte> | SpanFits(s)
      ensures GetSpan(SpanBytes(s) + rest) == Ok(s, rest)
    {
      SpanDecodes(s, rest);
    }
    forall b: seq<byte> | GetSpan(b).Ok?
      ensures SpanFits(GetSpan(b).value) && b == SpanBytes(GetSpan(b).value) + GetSpan(b).rest
    {
      SpanInverts(b);
    }
    forall s: Span, k: nat | SpanFits(s) && k < |SpanBytes(s)|
      ensures GetSpan(SpanBytes(s)[..k]) == Err(Truncated)
    {
      SpanStarves(s, k);
    }
  }

  lemma RecordDecodes(r: Record, rest: seq<byte>)
    requires RecordFits(r)
    ensures GetRecord(RecordBytes(r) + rest) == Ok(r, rest)
  {
    ShortFaithful();
    var c := ListBytes(2, ShortBytes, r.operands) + rest;
    var b := [KindByte(r.kind)] + c;
    assert RecordBytes(r) + rest == LeBytes(r.opIndex, 4) + b;
    IntDecodes(4, r.opIndex, b);
    KindRound(r.kind, 0);
    assert Take(1, b) == Ok([KindByte(r.kind)], c);
    ListDecodes(2, ShortBytes, GetShort, ShortFits, r.operands, rest);
  }

  lemma RecordInverts(b: seq<byte>)
    requires GetRecord(b).Ok?
    ensures RecordFits(GetRecord(b).value) && b == RecordBytes(GetRecord(b).value) + GetRecord(b).rest
  {
    hide LeBytes, ListBytes, GetList, KindByte, KindOf, Faithful, ListFits;
    ShortFaithful();
    IntInverts(4, b);
    var b1 := GetInt(4, b).rest;
    var kind, b2 := Take(1, b1).value, Take(1, b1).rest;
    KindRound(CallSite, kind[0]);
    ListInverts(2, ShortBytes, GetShort, ShortFits, b2);
    var r := GetRecord(b);
    assert b1 == kind + b2 && kind == [KindByte(r.value.kind)];
    assert b == LeBytes(r.value.opIndex, 4) + ([KindByte(r.value.kind)] + (ListBytes(2, ShortBytes, r.value.operands) + r.rest));
  }

  lemma RecordStarves(r: Record, k: nat)
    requires RecordFits(r) && k < |RecordBytes(r)|
    ensures GetRecord(RecordBytes(r)[..k]) == Err(Truncated)
  {
    ShortFaithful();
    var a, b, c := LeBytes(r.opIndex, 4), [KindByte(r.kind)], ListBytes(2, ShortBytes, r.operands);
    AppendStarves(a, b + c, k);
    if k >= 4 {
      IntDecodes(4, r.opIndex, (b + c)[..k - 4]);
      AppendStarves(b, c, k - 4);
      if k >= 5 {
        KindRound(r.kind, 0);
        assert Take(1, b + c[..k - 5]) == Ok(b, c[..k - 5]);
        ListStarves(2, ShortBytes, GetShort, ShortFits, r.operands, k - 5);
      }
    }
  }

  lemma RecordFaithful()
    ensures Faithful(RecordBytes, GetRecord, RecordFits)
  {
    forall r: Record, rest: seq<byte> | RecordFits(r)
      ensures GetRecord(RecordBytes(r) + rest) == Ok(r, rest)
    {
      RecordDecodes(r, rest);
    }
    forall b: seq<byte> | GetRecord(b).Ok?
      ensures RecordFits(GetRecord(b).value) && b == RecordBytes(GetRecord(b).value) + GetRecord(b).rest
    {
      RecordInverts(b);
    }
    forall r: Record, k: nat | RecordFits(r) && k < |RecordBytes(r)|
      ensures GetRecord(RecordBytes(r)[..k]) == Err(Truncated)
    {
      RecordStarves(r, k);
    }
  }

  // ----- the pool -----

  function RawBytes(p: Pool): seq<byte> {
    ListBytes(4, BlobBytes, p.strings) + (ListBytes(4, SpanBytes, p.spans)
      + (ListBytes(4, BlobBytes, p.types) + ListBytes(4, RecordBytes, p.records)))
  }

  predicate PoolFits(p: Pool) {
    && ListFits(4, StringFits, p.strings) && ListFits(4, SpanFits, p.spans)
    && ListFits(4, BlobFits, p.types) && ListFits(4, RecordFits, p.records)
  }

  /** Decode; what follows the pool is left over. */
  function Decode(b: seq<byte>): Result<Pool> {
    match GetList(4, GetString, b)
    case Err(e) => Err(e)
    case Ok(strings, b1) =>
      match GetList(4, GetSpan, b1)
      case Err(e) => Err(e)
      case Ok(spans, b2) =>
        match GetList(4, GetBlob, b2)
        case Err(e) => Err(e)
        case Ok(types, b3) =>
          match GetList(4, GetRecord, b3)
          case Err(e) => Err(e)
          case Ok(records, b4) => Ok(Pool(strings, spans, types, records), b4)
  }

  lemma AllFaithful()
    ensures Faithful(BlobBytes, GetString, StringFits) && Faithful(SpanBytes, GetSpan, SpanFits)
    ensures Faithful(BlobBytes, GetBlob, BlobFits) && Faithful(RecordBytes, GetRecord, RecordFits)
  {
    StringFaithful();
    SpanFaithful();
    BlobFaithful();
    RecordFaithful();
  }

  lemma RawDecodes(p: Pool, rest: seq<byte>)
    requires PoolFits(p)
    ensures Decode(RawBytes(p) + rest) == Ok(p, rest)
  {
    AllFaithful();
    hide Faithful, GetList, ListBytes;
    var d := ListBytes(4, RecordBytes, p.records) + rest;
    var c := ListBytes(4, BlobBytes, p.types) + d;
    var b := ListBytes(4, SpanBytes, p.spans) + c;
    assert RawBytes(p) + rest == ListBytes(4, BlobBytes, p.strings) + b;
    ListDecodes(4, BlobBytes, GetString, StringFits, p.strings, b);
    ListDecodes(4, SpanBytes, GetSpan, SpanFits, p.spans, c);
    ListDecodes(4, BlobBytes, GetBlob, BlobFits, p.types, d);
    ListDecodes(4, RecordBytes, GetRecord, RecordFits, p.records, rest);
  }

  lemma RawInverts(b: seq<byte>)
    requires Decode(b).Ok?
    ensures PoolFits(Decode(b).value) && b == RawBytes(Decode(b).value) + Decode(b).rest
  {
    hide Faithful, GetList, ListBytes, ListFits;
    AllFaithful();
    var p, rest := Decode(b).value, Decode(b).rest;
    var b1 := GetList(4, GetString, b).rest;
    var b2 := GetList(4, GetSpan, b1).rest;
    var b3 := GetList(4, GetBlob, b2).rest;
    ListInverts(4, BlobBytes, GetString, StringFits, b);
    ListInverts(4, SpanBytes, GetSpan, SpanFits, b1);
    ListInverts(4, BlobBytes, GetBlob, BlobFits, b2);
    ListInverts(4, RecordBytes, GetRecord, RecordFits, b3);
    FourParts(ListBytes(4, BlobBytes, p.strings), ListBytes(4, SpanBytes, p.spans),
      ListBytes(4, BlobBytes, p.types), ListBytes(4, RecordBytes, p.records), rest);
  }

  lemma FourParts(a: seq<byte>, b: seq<byte>, c: seq<byte>, d: seq<byte>, rest: seq<byte>)
    ensures a + (b + (c + (d + rest))) == (a + (b + (c + d))) + rest
  {}

  /** Decoding accepts exactly the raw encodings of pools that fit their fields, in whatever record
      order, and ignores what follows. */
  lemma DecodesExactly(b: seq<byte>, p: Pool, rest: seq<byte>)
    ensures Decode(b) == Ok(p, rest) <==> PoolFits(p) && b == RawBytes(p) + rest
  {
    hide Decode, RawBytes, PoolFits;
    if PoolFits(p) && b == RawBytes(p) + rest {
      RawDecodes(p, rest);
    }
    if Decode(b) == Ok(p, rest) {
      RawInverts(b);
    }
  }

  /** Every encoding cut short is reported as truncated. */
  lemma RawStarves(p: Pool, k: nat)
    requires PoolFits(p) && k < |RawBytes(p)|
    ensures Decode(RawBytes(p)[..k]) == Err(Truncated)
  {
    AllFaithful();
    hide Faithful, GetList, ListBytes;
    var sa, sb, sc, sd := ListBytes(4, BlobBytes, p.strings), ListBytes(4, SpanBytes, p.spans),
      ListBytes(4, BlobBytes, p.types), ListBytes(4, RecordBytes, p.records);
    AppendStarves(sa, sb + (sc + sd), k);
    if k < |sa| {
      ListStarves(4, BlobBytes, GetString, StringFits, p.strings, k);
    } else {
      var k1 := k - |sa|;
      ListDecodes(4, BlobBytes, GetString, StringFits, p.strings, (sb + (sc + sd))[..k1]);
      AppendStarves(sb, sc + sd, k1);
      if k1 < |sb| {
        ListStarves(4, SpanBytes, GetSpan, SpanFits, p.spans, k1);
      } else {
        var k2 := k1 - |sb|;
        ListDecodes(4, SpanBytes, GetSpan, SpanFits, p.spans, (sc + sd)[..k2]);
        AppendStarves(sc, sd, k2);
        if k2 < |sc| {
          ListStarves(4, BlobBytes, GetBlob, BlobFits, p.types, k2);
        } else {
          ListDecodes(4, BlobBytes, GetBlob, BlobFits, p.types, sd[..k2 - |sc|]);
          ListStarves(4, RecordBytes, GetRecord, RecordFits, p.records, k2 - |sc|);
        }
      }
    }
  }

  // ----- canonical record order -----

  /** Lexicographic order; a prefix comes first. */
  predicate LexLeq(x: seq<nat>, y: seq<nat>) {
    x == [] || (y != [] && (x[0] < y[0] || (x[0] == y[0] && LexLeq(x[1..], y[1..]))))
  }

  predicate Leq(a: Record, b: Record) {
    a.opIndex < b.opIndex ||
    (a.opIndex == b.opIndex &&
      (KindByte(a.kind) < KindByte(b.kind) || (a.kind == b.kind && LexLeq(a.operands, b.operands))))
  }

  lemma {:induction false} LexOrder(x: seq<nat>, y: seq<nat>, z: seq<nat>)
    ensures LexLeq(x, x)
    ensures LexLeq(x, y) || LexLeq(y, x)
    ensures LexLeq(x, y) && LexLeq(y, x) ==> x == y
    ensures LexLeq(x, y) && LexLeq(y, z) ==> LexLeq(x, z)
    decreases |x| + |y| + |z|
  {
    if x != [] && y != [] && z != [] {
      LexOrder(x[1..], y[1..], z[1..]);
    } else if x != [] && y != [] {
      LexOrder(x[1..], y[1..], []);
    } else if x != [] {
      LexOrder(x[1..], [], []);
    }
    if x != [] && y != [] && x[0] == y[0] && x[1..] == y[1..] {
      assert x == [x[0]] + x[1..] && y == [y[0]] + y[1..];
    }
  }

  lemma KindsDiffer(a: Kind, b: Kind)
    requires KindByte(a) == KindByte(b)
    ensures a == b
  {
    KindRound(a, 0);
    KindRound(b, 0);
  }

  lemma RecordOrder(a: Record, b: Record, c: Record)
    ensures Leq(a, a) && (Leq(a, b) || Leq(b, a))
    ensures Leq(a, b) && Leq(b, a) ==> a == b
    ensures Leq(a, b) && Leq(b, c) ==> Leq(a, c)
  {
    hide KindByte, LexLeq;
    LexOrder(a.operands, b.operands, c.operands);
    if KindByte(a.kind) == KindByte(b.kind) {
      KindsDiffer(a.kind, b.kind);
    }
  }

  predicate Sorted(rs: seq<Record>) {
    forall i, j :: 0 <= i < j < |rs| ==> Leq(rs[i], rs[j])
  }

  function Insert(rs: seq<Record>, r: Record): seq<Record> {
    if rs == [] || Leq(r, rs[0]) then [r] + rs else [rs[0]] + Insert(rs[1..], r)
  }

  function Sort(rs: seq<Record>): seq<Record> {
    if rs == [] then [] else Insert(Sort(rs[..|rs| - 1]), rs[|rs| - 1])
  }

  lemma {:induction false} InsertSorts(rs: seq<Record>, r: Record)
    requires Sorted(rs)
    ensures Sorted(Insert(rs, r)) && multiset(Insert(rs, r)) == multiset(rs) + multiset{r}
    decreases |rs|
  {
    hide Leq;
    if rs != [] {
      assert rs == [rs[0]] + rs[1..];
      if Leq(r, rs[0]) {
        forall j | 0 <= j < |rs|
          ensures Leq(r, rs[j])
        {
          RecordOrder(r, rs[0], rs[j]);
        }
      } else {
        InsertSorts(rs[1..], r);
        RecordOrder(r, rs[0], r);
        var tail := Insert(rs[1..], r);
        forall x | x in tail
          ensures Leq(rs[0], x)
        {
          assert x in multiset(tail);
          assert x in rs[1..] || x == r;
        }
      }
    }
  }

  lemma {:induction false} SortSorts(rs: seq<Record>)
    ensures Sorted(Sort(rs)) && multiset(Sort(rs)) == multiset(rs)
    decreases |rs|
  {
    if rs != [] {
      SortSorts(rs[..|rs| - 1]);
      InsertSorts(Sort(rs[..|rs| - 1]), rs[|rs| - 1]);
      assert rs == rs[..|rs| - 1] + [rs[|rs| - 1]];
    }
  }

  /** There is one sorted arrangement of a bag of records. */
  lemma {:induction false} SortedUnique(x: seq<Record>, y: seq<Record>)
    requires Sorted(x) && Sorted(y) && multiset(x) == multiset(y)
    ensures x == y
    decreases |x|
  {
    if x == [] {
      assert |multiset(y)| == |multiset(x)| == 0;
    } else {
      assert x[0] in multiset(y) && y != [] by {
        assert x[0] in multiset(x);
      }
      HeadLeast(x, y);
      HeadLeast(y, x);
      RecordOrder(x[0], y[0], x[0]);
      assert x == [x[0]] + x[1..] && y == [y[0]] + y[1..];
      assert multiset(x[1..]) == multiset(x) - multiset{x[0]};
      assert multiset(y[1..]) == multiset(y) - multiset{y[0]};
      SortedUnique(x[1..], y[1..]);
    }
  }

  lemma HeadLeast(x: seq<Record>, y: seq<Record>)
    requires Sorted(x) && multiset(x) == multiset(y) && x != [] && y != []
    ensures Leq(x[0], y[0])
  {
    assert y[0] in multiset(x) by {
      assert y[0] in multiset(y);
    }
    RecordOrder(x[0], x[0], x[0]);
  }

  // ----- the canonical form -----

  function Canonical(p: Pool): Pool {
    p.(records := Sort(p.records))
  }

  function Encode(p: Pool): seq<byte> {
    RawBytes(Canonical(p))
  }

  lemma CanonicalFits(p: Pool)
    ensures PoolFits(p) <==> PoolFits(Canonical(p))
  {
    hide RecordFits;
    SortSorts(p.records);
    var s := Sort(p.records);
    assert |s| == |p.records| by {
      assert |multiset(s)| == |multiset(p.records)|;
    }
    if AllFit(RecordFits, p.records) {
      forall i | 0 <= i < |s|
        ensures RecordFits(s[i])
      {
        assert s[i] in multiset(s);
        assert s[i] in p.records;
      }
    }
    if AllFit(RecordFits, s) {
      forall i | 0 <= i < |p.records|
        ensures RecordFits(p.records[i])
      {
        assert p.records[i] in multiset(p.records);
        assert p.records[i] in s;
      }
    }
  }

  /** A pool that fits its fields decodes from its encoding, records in canonical order; trailing bytes
      are ignored. */
  lemma RoundTrip(p: Pool, rest: seq<byte>)
    requires PoolFits(p)
    ensures Decode(Encode(p) + rest) == Ok(Canonical(p), rest)
  {
    CanonicalFits(p);
    hide Decode, RawBytes, PoolFits, Sort;
    DecodesExactly(Encode(p) + rest, Canonical(p), rest);
  }

  /** The encoding does not depend on the order of the records. */
  lemma EncodeIgnoresOrder(p: Pool, q: Pool)
    requires p.strings == q.strings && p.spans == q.spans && p.types == q.types && multiset(p.records) == multiset(q.records)
    ensures Encode(p) == Encode(q)
  {
    SortSorts(p.records);
    SortSorts(q.records);
    SortedUnique(Sort(p.records), Sort(q.records));
  }

  /** Re-encoding what an encoding decodes to gives the same bytes. */
  lemma ReencodesIdentically(p: Pool)
    requires PoolFits(p)
    ensures Decode(Encode(p)).Ok? && Encode(Decode(Encode(p)).value) == Encode(p)
  {
    RoundTrip(p, []);
    assert Encode(p) + [] == Encode(p);
    SortSorts(p.records);
    hide Decode, RawBytes, PoolFits, Sort;
    EncodeIgnoresOrder(Canonical(p), p);
  }

  /** Every strict prefix of an encoding decodes to `Truncated`. */
  lemma PrefixTruncated(p: Pool, k: nat)
    requires PoolFits(p) && k < |Encode(p)|
    ensures Decode(Encode(p)[..k]) == Err(Truncated)
  {
    CanonicalFits(p);
    hide Decode, RawBytes, PoolFits, Sort;
    RawStarves(Canonical(p), k);
  }
}
