/** The debug pool's codec as it runs: a writer that appends to its output, and a reader that moves a
    cursor over its input. */
module DebugReader {
  import opened Options
  import opened Scalars
  import opened ByteCodec
  import opened DebugPool

  // ----- encoding -----

  class Writer {
    var out: seq<byte>

    constructor ()
      ensures out == []
    {
      out := [];
    }

    method PutInt(n: nat, w: nat)
      modifies this
      ensures out == old(out) + LeBytes(n, w)
    {
      out := out + LeBytes(n, w);
    }

    method PutBlob(blob: seq<byte>)
      modifies this
      ensures out == old(out) + BlobBytes(blob)
    {
      hide LeBytes;
      PutInt(|blob|, 4);
      out := out + blob;
      Associates(old(out), LeBytes(|blob|, 4), blob);
    }

    method PutSpan(span: Span)
      modifies this
      ensures out == old(out) + SpanBytes(span)
    {
      hide LeBytes;
      PutInt(span.file, 2);
      PutInt(span.offset, 4);
      PutInt(span.length, 4);
      Associates(old(out), LeBytes(span.file, 2), LeBytes(span.offset, 4));
      Associates(old(out) + LeBytes(span.file, 2), LeBytes(span.offset, 4), LeBytes(span.length, 4));
      Associates(old(out), LeBytes(span.file, 2), LeBytes(span.offset, 4) + LeBytes(span.length, 4));
    }

    method PutBlobs(blobs: seq<seq<byte>>)
      modifies this
      ensures out == old(out) + ListBytes(4, BlobBytes, blobs)
    {
      hide LeBytes, ManyBytes, BlobBytes;
      PutInt(|blobs|, 4);
      ghost var head := out;
      ManyNone(BlobBytes, blobs);
      for i := 0 to |blobs|
        invariant out == head + ManyBytes(BlobBytes, blobs[..i])
      {
        ManyLast(BlobBytes, blobs, i);
        ghost var so := ManyBytes(BlobBytes, blobs[..i]);
        PutBlob(blobs[i]);
        Associates(head, so, BlobBytes(blobs[i]));
      }
      assert blobs[..|blobs|] == blobs;
      Associates(old(out), LeBytes(|blobs|, 4), ManyBytes(BlobBytes, blobs));
    }

    method PutSpans(spans: seq<Span>)
      modifies this
      ensures out == old(out) + ListBytes(4, SpanBytes, spans)
    {
      hide LeBytes, ManyBytes, SpanBytes;
      PutInt(|spans|, 4);
      ghost var head := out;
      ManyNone(SpanBytes, spans);
      for i := 0 to |spans|
        invariant out == head + ManyBytes(SpanBytes, spans[..i])
      {
        ManyLast(SpanBytes, spans, i);
        ghost var so := ManyBytes(SpanBytes, spans[..i]);
        PutSpan(spans[i]);
        Associates(head, so, SpanBytes(spans[i]));
      }
      assert spans[..|spans|] == spans;
      Associates(old(out), LeBytes(|spans|, 4), ManyBytes(SpanBytes, spans));
    }

    method PutOperands(operands: seq<nat>)
      modifies this
      ensures out == old(out) + ListBytes(2, ShortBytes, operands)
    {
      hide LeBytes, ManyBytes;
      PutInt(|operands|, 2);
      ghost var head := out;
      ManyNone(ShortBytes, operands);
      for i := 0 to |operands|
        invariant out == head + ManyBytes(ShortBytes, operands[..i])
      {
        ManyLast(ShortBytes, operands, i);
        ghost var so := ManyBytes(ShortBytes, operands[..i]);
        PutInt(operands[i], 2);
        Associates(head, so, ShortBytes(operands[i]));
      }
      assert operands[..|operands|] == operands;
      Associates(old(out), LeBytes(|operands|, 2), ManyBytes(ShortBytes, operands));
    }

    method PutRecord(r: Record)
      modifies this
      ensures out == old(out) + RecordBytes(r)
    {
      hide LeBytes, ListBytes;
      PutInt(r.opIndex, 4);
      out := out + [KindByte(r.kind)];
      PutOperands(r.operands);
      var operands := ListBytes(2, ShortBytes, r.operands);
      Associates(old(out) + LeBytes(r.opIndex, 4), [KindByte(r.kind)], operands);
      Associates(old(out), LeBytes(r.opIndex, 4), [KindByte(r.kind)] + operands);
    }

    method PutRecords(records: seq<Record>)
      modifies this
      ensures out == old(out) + ListBytes(4, RecordBytes, records)
    {
      hide LeBytes, ManyBytes, RecordBytes;
      PutInt(|records|, 4);
      ghost var head := out;
      ManyNone(RecordBytes, records);
      for i := 0 to |records|
        invariant out == head + ManyBytes(RecordBytes, records[..i])
      {
        ManyLast(RecordBytes, records, i);
        ghost var so := ManyBytes(RecordBytes, records[..i]);
        PutRecord(records[i]);
        Associates(head, so, RecordBytes(records[i]));
      }
      assert records[..|records|] == records;
      Associates(old(out), LeBytes(|records|, 4), ManyBytes(RecordBytes, records));
    }
  }

  lemma Associates(a: seq<byte>, b: seq<byte>, c: seq<byte>)
    ensures (a + b) + c == a + (b + c)
  {}

  lemma ManyNone<T(!new)>(enc: Encoder<T>, xs: seq<T>)
    ensures ManyBytes(enc, xs[..0]) == []
  {}

  lemma {:induction false} ManyAppend<T(!new)>(enc: Encoder<T>, xs: seq<T>, ys: seq<T>)
    ensures ManyBytes(enc, xs + ys) == ManyBytes(enc, xs) + ManyBytes(enc, ys)
    decreases |xs|
  {
    if xs == [] {
      assert xs + ys == ys;
    } else {
      ManyAppend(enc, xs[1..], ys);
      assert (xs + ys)[1..] == xs[1..] + ys;
    }
  }

  lemma ManyLast<T(!new)>(enc: Encoder<T>, xs: seq<T>, i: nat)
    requires i < |xs|
    ensures ManyBytes(enc, xs[..i + 1]) == ManyBytes(enc, xs[..i]) + enc(xs[i])
  {
    assert xs[..i + 1] == xs[..i] + [xs[i]];
    ManyAppend(enc, xs[..i], [xs[i]]);
    assert ManyBytes(enc, [xs[i]]) == enc(xs[i]) + [];
  }

  method SortRecords(rs: seq<Record>) returns (records: seq<Record>)
    ensures records == Sort(rs)
  {
    records := [];
    for i := 0 to |rs|
      invariant records == Sort(rs[..i])
    {
      assert rs[..i + 1][..i] == rs[..i];
      records := Insert(records, rs[i]);
    }
    assert rs[..|rs|] == rs;
  }

  /** Sort the records into canonical order; then every section behind its count. */
  method EncodePool(p: Pool) returns (bytes: seq<byte>)
    ensures bytes == Encode(p)
  {
    hide ListBytes, Sort;
    var records := SortRecords(p.records);
    var w := new Writer();
    w.PutBlobs(p.strings);
    w.PutSpans(p.spans);
    w.PutBlobs(p.types);
    w.PutRecords(records);
    bytes := w.out;
    FourSections(ListBytes(4, BlobBytes, p.strings), ListBytes(4, SpanBytes, p.spans), ListBytes(4, BlobBytes, p.types),
      ListBytes(4, RecordBytes, records));
  }

  lemma FourSections(a: seq<byte>, b: seq<byte>, c: seq<byte>, d: seq<byte>)
    ensures [] + a + b + c + d == a + (b + (c + d))
  {}

  // ----- decoding -----

  datatype Got<+T> = Got(value: T) | Failed(error: DecodeError)

  /** A cursor over a byte string; after a failure its position means nothing. */
  class Reader {
    const bytes: seq<byte>
    var pos: nat

    ghost predicate Valid()
      reads this
    {
      pos <= |bytes|
    }

    ghost function Left(): seq<byte>
      requires Valid()
      reads this
    {
      bytes[pos..]
    }

    constructor (bytes: seq<byte>)
      ensures Valid() && this.bytes == bytes && Left() == bytes
    {
      this.bytes, pos := bytes, 0;
    }

    method TakeBytes(n: nat) returns (r: Got<seq<byte>>)
      requires Valid()
      modifies this
      ensures Valid() && Answers(r, Take(n, old(Left())), Left())
    {
      var end := pos + n;
      if end > |bytes| {
        return Failed(Truncated);
      }
      r := Got(bytes[pos..end]);
      assert bytes[pos..][..n] == bytes[pos..end] && bytes[pos..][n..] == bytes[end..];
      pos := end;
    }

    method Number(w: nat) returns (r: Got<nat>)
      requires Valid()
      modifies this
      ensures Valid() && Answers(r, GetInt(w, old(Left())), Left())
    {
      var raw := TakeBytes(w);
      r := if raw.Failed? then Failed(raw.error) else Got(LeValue(raw.value));
    }

    method Blob() returns (r: Got<seq<byte>>)
      requires Valid()
      modifies this
      ensures Valid() && Answers(r, GetBlob(old(Left())), Left())
    {
      var len := Number(4);
      if len.Failed? {
        return Failed(len.error);
      }
      r := TakeBytes(len.value);
    }

    method Strings() returns (r: Got<seq<seq<byte>>>)
      requires Valid()
      modifies this
      ensures Valid() && Answers(r, GetList(4, GetString, old(Left())), Left())
    {
      hide Many, GetInt, Behind;
      var count := Number(4);
      if count.Failed? {
        return Failed(count.error);
      }
      ghost var goal := Many(GetString, count.value, Left());
      BehindNothing(goal);
      var strings: seq<seq<byte>> := [];
      for i := 0 to count.value
        invariant Valid() && goal == Behind(strings, Many(GetString, count.value - i, Left()))
      {
        BehindMore(strings, GetString, count.value - i, Left());
        var raw := Blob();
        if raw.Failed? {
          return Failed(raw.error);
        }
        if !ValidUtf8(raw.value) {
          return Failed(InvalidUtf8);
        }
        strings := strings + [raw.value];
      }
      BehindEnd(strings, GetString, Left());
      r := Got(strings);
    }

    method Spans() returns (r: Got<seq<Span>>)
      requires Valid()
      modifies this
      ensures Valid() && Answers(r, GetList(4, GetSpan, old(Left())), Left())
    {
      hide Many, GetInt, Behind;
      var count := Number(4);
      if count.Failed? {
        return Failed(count.error);
      }
      ghost var goal := Many(GetSpan, count.value, Left());
      BehindNothing(goal);
      var spans: seq<Span> := [];
      for i := 0 to count.value
        invariant Valid() && goal == Behind(spans, Many(GetSpan, count.value - i, Left()))
      {
        BehindMore(spans, GetSpan, count.value - i, Left());
        var file := Number(2);
        if file.Failed? {
          return Failed(file.error);
        }
        var offset := Number(4);
        if offset.Failed? {
          return Failed(offset.error);
        }
        var length := Number(4);
        if length.Failed? {
          return Failed(length.error);
        }
        spans := spans + [Span(file.value, offset.value, length.value)];
      }
      BehindEnd(spans, GetSpan, Left());
      r := Got(spans);
    }

    method Types() returns (r: Got<seq<seq<byte>>>)
      requires Valid()
      modifies this
      ensures Valid() && Answers(r, GetList(4, GetBlob, old(Left())), Left())
    {
      hide Many, GetInt, Behind;
      var count := Number(4);
      if count.Failed? {
        return Failed(count.error);
      }
      ghost var goal := Many(GetBlob, count.value, Left());
      BehindNothing(goal);
      var types: seq<seq<byte>> := [];
      for i := 0 to count.value
        invariant Valid() && goal == Behind(types, Many(GetBlob, count.value - i, Left()))
      {
        BehindMore(types, GetBlob, count.value - i, Left());
        var blob := Blob();
        if blob.Failed? {
          return Failed(blob.error);
        }
        types := types + [blob.value];
      }
      BehindEnd(types, GetBlob, Left());
      r := Got(types);
    }

    method OneRecord() returns (r: Got<Record>)
      requires Valid()
      modifies this
      ensures Valid() && Answers(r, GetRecord(old(Left())), Left())
    {
      hide Many, GetInt, Behind, KindOf;
      var opIndex := Number(4);
      if opIndex.Failed? {
        return Failed(opIndex.error);
      }
      var kindByte := TakeBytes(1);
      if kindByte.Failed? {
        return Failed(kindByte.error);
      }
      var kind := KindOf(kindByte.value[0]);
      if kind.None? {
        return Failed(UnknownRecordKind(kindByte.value[0]));
      }
      var count := Number(2);
      if count.Failed? {
        return Failed(count.error);
      }
      ghost var goal := Many(GetShort, count.value, Left());
      BehindNothing(goal);
      var operands: seq<nat> := [];
      for i := 0 to count.value
        invariant Valid() && goal == Behind(operands, Many(GetShort, count.value - i, Left()))
      {
        BehindMore(operands, GetShort, count.value - i, Left());
        var operand := Number(2);
        if operand.Failed? {
          return Failed(operand.error);
        }
        operands := operands + [operand.value];
      }
      BehindEnd(operands, GetShort, Left());
      r := Got(Record(opIndex.value, kind.value, operands));
    }

    method Records() returns (r: Got<seq<Record>>)
      requires Valid()
      modifies this
      ensures Valid() && Answers(r, GetList(4, GetRecord, old(Left())), Left())
    {
      hide Many, GetInt, Behind, GetRecord;
      var count := Number(4);
      if count.Failed? {
        return Failed(count.error);
      }
      ghost var goal := Many(GetRecord, count.value, Left());
      BehindNothing(goal);
      var records: seq<Record> := [];
      for i := 0 to count.value
        invariant Valid() && goal == Behind(records, Many(GetRecord, count.value - i, Left()))
      {
        BehindMore(records, GetRecord, count.value - i, Left());
        var record := OneRecord();
        if record.Failed? {
          return Failed(record.error);
        }
        records := records + [record.value];
      }
      BehindEnd(records, GetRecord, Left());
      r := Got(records);
    }
  }

  /** A reading answers what the function on what was left answers, and leaves what it leaves. */
  ghost predicate Answers<T(!new)>(r: Got<T>, spec: Result<T>, left: seq<byte>) {
    match spec
    case Err(e) => r == Failed(e)
    case Ok(x, rest) => r == Got(x) && left == rest
  }

  /** Items read so far in front of those still to come. */
  function Behind<T>(xs: seq<T>, r: Result<seq<T>>): Result<seq<T>> {
    match r
    case Err(e) => Err(e)
    case Ok(ys, rest) => Ok(xs + ys, rest)
  }

  lemma BehindNothing<T>(r: Result<seq<T>>)
    ensures Behind([], r) == r
  {
    if r.Ok? {
      assert [] + r.value == r.value;
    }
  }

  lemma BehindEnd<T(!new)>(xs: seq<T>, dec: Decoder<T>, b: seq<byte>)
    ensures Behind(xs, Many(dec, 0, b)) == Ok(xs, b)
  {
    assert xs + [] == xs;
  }

  lemma BehindMore<T(!new)>(xs: seq<T>, dec: Decoder<T>, n: nat, b: seq<byte>)
    requires n > 0
    ensures dec(b).Err? ==> Behind(xs, Many(dec, n, b)) == Err(dec(b).error)
    ensures dec(b).Ok? ==> Behind(xs, Many(dec, n, b)) == Behind(xs + [dec(b).value], Many(dec, n - 1, dec(b).rest))
  {
    if dec(b).Ok? {
      var others := Many(dec, n - 1, dec(b).rest);
      if others.Ok? {
        assert xs + ([dec(b).value] + others.value) == (xs + [dec(b).value]) + others.value;
      }
    }
  }

  /** Read the four sections in order; what follows is not looked at. */
  method DecodePool(bytes: seq<byte>) returns (r: Got<Pool>)
    ensures match Decode(bytes) case Ok(p, _) => r == Got(p) case Err(e) => r == Failed(e)
  {
    hide GetList, Decode, GetString, GetSpan, GetBlob, GetRecord;
    var reader := new Reader(bytes);
    DecodeSteps(bytes);
    var strings := reader.Strings();
    if strings.Failed? {
      return Failed(strings.error);
    }
    var spans := reader.Spans();
    if spans.Failed? {
      return Failed(spans.error);
    }
    var types := reader.Types();
    if types.Failed? {
      return Failed(types.error);
    }
    var records := reader.Records();
    if records.Failed? {
      return Failed(records.error);
    }
    r := Got(Pool(strings.value, spans.value, types.value, records.value));
  }

  /** Decoding, section by section. */
  lemma DecodeSteps(b: seq<byte>)
    ensures var s := GetList(4, GetString, b);
      if s.Err? then Decode(b) == Err(s.error)
      else
        var t := GetList(4, GetSpan, s.rest);
        if t.Err? then Decode(b) == Err(t.error)
        else
          var u := GetList(4, GetBlob, t.rest);
          if u.Err? then Decode(b) == Err(u.error)
          else
            var v := GetList(4, GetRecord, u.rest);
            if v.Err? then Decode(b) == Err(v.error) else Decode(b) == Ok(Pool(s.value, t.value, u.value, v.value), v.rest)
  {}
}
