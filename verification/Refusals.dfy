/** Which bytes are no debug pool, and why: the first item that is not as its section asks decides. */
module Refusals {
  import opened Options
  import opened Scalars
  import opened ByteCodec
  import opened DebugPool

  // ----- runs of items -----

  /** Fewer than `n` items are there as they should be, and the next is refused. */
  predicate FailsBehind<T>(enc: Encoder<T>, dec: Decoder<T>, fits: Carried<T>, n: nat, b: seq<byte>, e: DecodeError, xs: seq<T>, rest: seq<byte>) {
    |xs| < n && AllFit(fits, xs) && b == ManyBytes(enc, xs) + rest && dec(rest) == Err(e)
  }

  ghost predicate FailsWithin<T(!new)>(enc: Encoder<T>, dec: Decoder<T>, fits: Carried<T>, n: nat, b: seq<byte>, e: DecodeError) {
    exists xs, rest :: FailsBehind(enc, dec, fits, n, b, e, xs, rest)
  }

  lemma {:induction false} ManyFails<T(!new)>(enc: Encoder<T>, dec: Decoder<T>, fits: Carried<T>, n: nat, b: seq<byte>, e: DecodeError)
    requires Faithful(enc, dec, fits)
    ensures Many(dec, n, b) == Err(e) <==> FailsWithin(enc, dec, fits, n, b, e)
    decreases n
  {
    if n > 0 {
      if dec(b).Err? {
        FirstFails(enc, dec, fits, n, b, e);
      } else {
        ManyFails(enc, dec, fits, n - 1, dec(b).rest, e);
        LaterFails(enc, dec, fits, n, b, e);
      }
    }
  }

  lemma FirstFails<T(!new)>(enc: Encoder<T>, dec: Decoder<T>, fits: Carried<T>, n: nat, b: seq<byte>, e: DecodeError)
    requires Faithful(enc, dec, fits) && n > 0 && dec(b).Err?
    ensures FailsWithin(enc, dec, fits, n, b, e) <==> dec(b) == Err(e)
  {
    if dec(b) == Err(e) {
      assert b == ManyBytes(enc, []) + b;
      assert FailsBehind(enc, dec, fits, n, b, e, [], b);
    }
    if xs, rest :| FailsBehind(enc, dec, fits, n, b, e, xs, rest) {
      if xs == [] {
        assert b == rest;
      } else {
        ItemFirst(enc, dec, fits, b, xs, rest);
      }
    }
  }

  lemma SomeFirst<T(!new)>(enc: Encoder<T>, dec: Decoder<T>, fits: Carried<T>, n: nat, b: seq<byte>, e: DecodeError, xs: seq<T>, rest: seq<byte>)
    requires FailsBehind(enc, dec, fits, n, b, e, xs, rest) && dec(b).Ok?
    ensures xs != []
  {
    assert ManyBytes(enc, []) + rest == rest;
  }

  lemma ItemFirst<T(!new)>(enc: Encoder<T>, dec: Decoder<T>, fits: Carried<T>, b: seq<byte>, xs: seq<T>, rest: seq<byte>)
    requires Decodes(enc, dec, fits) && AllFit(fits, xs) && xs != [] && b == ManyBytes(enc, xs) + rest
    ensures dec(b) == Ok(xs[0], ManyBytes(enc, xs[1..]) + rest)
  {
    assert fits(xs[0]) && b == enc(xs[0]) + (ManyBytes(enc, xs[1..]) + rest);
  }

  lemma LaterFails<T(!new)>(enc: Encoder<T>, dec: Decoder<T>, fits: Carried<T>, n: nat, b: seq<byte>, e: DecodeError)
    requires Faithful(enc, dec, fits) && n > 0 && dec(b).Ok?
    ensures FailsWithin(enc, dec, fits, n, b, e) <==> FailsWithin(enc, dec, fits, n - 1, dec(b).rest, e)
  {
    var x, left, m: nat := dec(b).value, dec(b).rest, n - 1;
    assert fits(x) && b == enc(x) + left;
    if xs, rest :| FailsBehind(enc, dec, fits, n, b, e, xs, rest) {
      SomeFirst(enc, dec, fits, n, b, e, xs, rest);
      ItemFirst(enc, dec, fits, b, xs, rest);
      assert FailsBehind(enc, dec, fits, m, left, e, xs[1..], rest);
    }
    if xs, rest :| FailsBehind(enc, dec, fits, m, left, e, xs, rest) {
      assert ([x] + xs)[1..] == xs && b == (enc(x) + ManyBytes(enc, xs)) + rest;
      assert FailsBehind(enc, dec, fits, n, b, e, [x] + xs, rest);
    }
  }

  /** A counted section is refused for its count or for one of its items. */
  lemma ListFails<T(!new)>(enc: Encoder<T>, dec: Decoder<T>, fits: Carried<T>, b: seq<byte>, e: DecodeError)
    requires Faithful(enc, dec, fits)
    ensures GetList(4, dec, b) == Err(e) <==>
      if |b| < 4 then e == Truncated else FailsWithin(enc, dec, fits, LeValue(b[..4]), b[4..], e)
  {
    if |b| >= 4 {
      ManyFails(enc, dec, fits, LeValue(b[..4]), b[4..], e);
    }
  }

  // ----- items -----

  /** A whole string is there, and is no text. */
  predicate NoText(b: seq<byte>) {
    && |b| >= 4 && 4 + LeValue(b[..4]) <= |b|
    && !ValidUtf8(b[4..4 + LeValue(b[..4])])
  }

  lemma StringFails(b: seq<byte>)
    ensures GetString(b) == Err(InvalidUtf8) <==> NoText(b)
    ensures GetString(b).Err? ==> GetString(b).error in {Truncated, InvalidUtf8}
  {
    if |b| >= 4 && 4 + LeValue(b[..4]) <= |b| {
      var n := LeValue(b[..4]);
      assert b[4..][..n] == b[4..4 + n];
    }
  }

  /** A record gets as far as its kind, which is none of the twelve. */
  predicate NoKind(b: seq<byte>, kind: byte) {
    |b| >= 5 && b[4] == kind && kind > 11
  }

  lemma RecordFails(b: seq<byte>, kind: byte)
    ensures GetRecord(b) == Err(UnknownRecordKind(kind)) <==> NoKind(b, kind)
    ensures GetRecord(b) != Err(InvalidUtf8)
  {
    hide LeValue;
    if |b| >= 5 {
      assert b[4..][..1][0] == b[4];
      ShortsFail(b[5..]);
      assert b[4..][1..] == b[5..];
    }
  }

  lemma ShortsFail(b: seq<byte>)
    ensures GetList(2, GetShort, b).Err? ==> GetList(2, GetShort, b).error == Truncated
  {
    if |b| >= 2 {
      ManyShortsFail(LeValue(b[..2]), b[2..]);
    }
  }

  lemma {:induction false} ManyShortsFail(n: nat, b: seq<byte>)
    ensures Many(GetShort, n, b).Err? ==> Many(GetShort, n, b).error == Truncated
    decreases n
  {
    if n > 0 && GetShort(b).Ok? {
      ManyShortsFail(n - 1, GetShort(b).rest);
    }
  }

  lemma {:induction false} SpansFail(n: nat, b: seq<byte>)
    ensures Many(GetSpan, n, b).Err? ==> Many(GetSpan, n, b).error == Truncated
    decreases n
  {
    if n > 0 && GetSpan(b).Ok? {
      SpansFail(n - 1, GetSpan(b).rest);
    }
  }

  lemma {:induction false} BlobsFail(n: nat, b: seq<byte>)
    ensures Many(GetBlob, n, b).Err? ==> Many(GetBlob, n, b).error == Truncated
    decreases n
  {
    if n > 0 && GetBlob(b).Ok? {
      BlobsFail(n - 1, GetBlob(b).rest);
    }
  }

  // ----- pools -----

  /** Whole strings that are text, and then one that is not. */
  predicate BadText(b: seq<byte>, xs: seq<seq<byte>>, rest: seq<byte>) {
    && |b| >= 4 && |xs| < LeValue(b[..4]) && AllFit(StringFits, xs)
    && b[4..] == ManyBytes(BlobBytes, xs) + rest && NoText(rest)
  }

  /** A pool is refused as no text if and only if a string behind strings in order is there and is no text. */
  lemma TextRefused(b: seq<byte>)
    ensures Decode(b) == Err(InvalidUtf8) <==> exists xs, rest :: BadText(b, xs, rest)
  {
    hide ManyBytes, LeValue, ValidUtf8, GetSpan, GetBlob, GetRecord, StringFits, BlobBytes, GetString;
    AllFaithful();
    hide Faithful;
    NotText(b);
    ListFails(BlobBytes, GetString, StringFits, b, InvalidUtf8);
    if xs, rest :| BadText(b, xs, rest) {
      StringFails(rest);
      assert FailsBehind(BlobBytes, GetString, StringFits, LeValue(b[..4]), b[4..], InvalidUtf8, xs, rest);
    }
    if |b| >= 4 && FailsWithin(BlobBytes, GetString, StringFits, LeValue(b[..4]), b[4..], InvalidUtf8) {
      var xs, rest :| FailsBehind(BlobBytes, GetString, StringFits, LeValue(b[..4]), b[4..], InvalidUtf8, xs, rest);
      StringFails(rest);
      assert BadText(b, xs, rest);
    }
  }

  /** Only a string is refused as no text. */
  lemma NotText(b: seq<byte>)
    ensures Decode(b) == Err(InvalidUtf8) <==> GetList(4, GetString, b) == Err(InvalidUtf8)
  {
    hide LeValue, ValidUtf8, GetString, GetSpan, GetBlob, GetRecord, Many;
    if GetList(4, GetString, b).Ok? {
      var b1 := GetList(4, GetString, b).rest;
      NotTextSpans(b1);
      if GetList(4, GetSpan, b1).Ok? {
        var b2 := GetList(4, GetSpan, b1).rest;
        NotTextBlobs(b2);
        if GetList(4, GetBlob, b2).Ok? {
          NotTextRecords(GetList(4, GetBlob, b2).rest);
        }
      }
    }
  }

  lemma NotTextSpans(b: seq<byte>)
    ensures GetList(4, GetSpan, b).Err? ==> GetList(4, GetSpan, b).error == Truncated
  {
    if |b| >= 4 {
      SpansFail(LeValue(b[..4]), b[4..]);
    }
  }

  lemma NotTextBlobs(b: seq<byte>)
    ensures GetList(4, GetBlob, b).Err? ==> GetList(4, GetBlob, b).error == Truncated
  {
    if |b| >= 4 {
      BlobsFail(LeValue(b[..4]), b[4..]);
    }
  }

  lemma NotTextRecords(b: seq<byte>)
    ensures GetList(4, GetRecord, b) != Err(InvalidUtf8)
  {
    if |b| >= 4 {
      RecordsNotText(LeValue(b[..4]), b[4..]);
    }
  }

  lemma {:induction false} RecordsNotText(n: nat, b: seq<byte>)
    ensures Many(GetRecord, n, b) != Err(InvalidUtf8)
    decreases n
  {
    if n > 0 {
      RecordFails(b, 0);
      if GetRecord(b).Ok? {
        RecordsNotText(n - 1, GetRecord(b).rest);
      }
    }
  }

  lemma {:induction false} StringsOfNoKind(n: nat, b: seq<byte>)
    ensures Many(GetString, n, b).Err? ==> Many(GetString, n, b).error in {Truncated, InvalidUtf8}
    decreases n
  {
    if n > 0 {
      StringFails(b);
      if GetString(b).Ok? {
        StringsOfNoKind(n - 1, GetString(b).rest);
      }
    }
  }

  lemma NoKindStrings(b: seq<byte>)
    ensures GetList(4, GetString, b).Err? ==> GetList(4, GetString, b).error in {Truncated, InvalidUtf8}
  {
    if |b| >= 4 {
      StringsOfNoKind(LeValue(b[..4]), b[4..]);
    }
  }

  /** What the first three sections leave, if they are in order. */
  function BeforeRecords(b: seq<byte>): Option<seq<byte>> {
    match GetList(4, GetString, b)
    case Err(_) => None
    case Ok(_, b1) =>
      match GetList(4, GetSpan, b1)
      case Err(_) => None
      case Ok(_, b2) =>
        match GetList(4, GetBlob, b2)
        case Err(_) => None
        case Ok(_, b3) => Some(b3)
  }

  lemma KindAt(b: seq<byte>, kind: byte)
    ensures Decode(b) == Err(UnknownRecordKind(kind)) <==>
      BeforeRecords(b).Some? && GetList(4, GetRecord, BeforeRecords(b).value) == Err(UnknownRecordKind(kind))
  {
    hide GetList, GetString, GetSpan, GetBlob, GetRecord;
    NoKindStrings(b);
    if GetList(4, GetString, b).Ok? {
      var b1 := GetList(4, GetString, b).rest;
      NotTextSpans(b1);
      if GetList(4, GetSpan, b1).Ok? {
        NotTextBlobs(GetList(4, GetSpan, b1).rest);
      }
    }
  }

  predicate ThreeSections(b: seq<byte>, strings: seq<seq<byte>>, spans: seq<Span>, types: seq<seq<byte>>, tail: seq<byte>) {
    && ListFits(4, StringFits, strings) && ListFits(4, SpanFits, spans) && ListFits(4, BlobFits, types)
    && b == ListBytes(4, BlobBytes, strings) + (ListBytes(4, SpanBytes, spans) + (ListBytes(4, BlobBytes, types) + tail))
  }

  lemma SectionsBefore(b: seq<byte>, tail: seq<byte>)
    ensures BeforeRecords(b) == Some(tail) <==> exists strings, spans, types :: ThreeSections(b, strings, spans, types, tail)
  {
    hide GetList, GetString, GetSpan, GetBlob, ListFits, ListBytes;
    AllFaithful();
    hide Faithful;
    if BeforeRecords(b) == Some(tail) {
      var b1 := GetList(4, GetString, b).rest;
      var b2 := GetList(4, GetSpan, b1).rest;
      ListInverts(4, BlobBytes, GetString, StringFits, b);
      ListInverts(4, SpanBytes, GetSpan, SpanFits, b1);
      ListInverts(4, BlobBytes, GetBlob, BlobFits, b2);
      assert ThreeSections(b, GetList(4, GetString, b).value, GetList(4, GetSpan, b1).value, GetList(4, GetBlob, b2).value, tail);
    }
    if strings, spans, types :| ThreeSections(b, strings, spans, types, tail) {
      var b2 := ListBytes(4, BlobBytes, types) + tail;
      var b1 := ListBytes(4, SpanBytes, spans) + b2;
      ListDecodes(4, BlobBytes, GetString, StringFits, strings, b1);
      ListDecodes(4, SpanBytes, GetSpan, SpanFits, spans, b2);
      ListDecodes(4, BlobBytes, GetBlob, BlobFits, types, tail);
    }
  }

  predicate BadRecord(tail: seq<byte>, records: seq<Record>, rest: seq<byte>, kind: byte) {
    && |tail| >= 4 && |records| < LeValue(tail[..4]) && AllFit(RecordFits, records)
    && tail[4..] == ManyBytes(RecordBytes, records) + rest && NoKind(rest, kind)
  }

  lemma RecordRefused(tail: seq<byte>, kind: byte)
    ensures GetList(4, GetRecord, tail) == Err(UnknownRecordKind(kind)) <==> exists records, rest :: BadRecord(tail, records, rest, kind)
  {
    hide ManyBytes, LeValue, GetRecord, RecordFits, RecordBytes, GetList;
    RecordFaithful();
    hide Faithful;
    ListFails(RecordBytes, GetRecord, RecordFits, tail, UnknownRecordKind(kind));
    if records, rest :| BadRecord(tail, records, rest, kind) {
      RecordFails(rest, kind);
      assert FailsBehind(RecordBytes, GetRecord, RecordFits, LeValue(tail[..4]), tail[4..], UnknownRecordKind(kind), records, rest);
    }
    if |tail| >= 4 && FailsWithin(RecordBytes, GetRecord, RecordFits, LeValue(tail[..4]), tail[4..], UnknownRecordKind(kind)) {
      var records, rest :|
        FailsBehind(RecordBytes, GetRecord, RecordFits, LeValue(tail[..4]), tail[4..], UnknownRecordKind(kind), records, rest);
      RecordFails(rest, kind);
      assert BadRecord(tail, records, rest, kind);
    }
  }

  /** A pool is refused for a record's kind if and only if the sections before are in order, and so are some
      records, and the next is of no known kind. */
  lemma KindRefused(b: seq<byte>, kind: byte)
    ensures Decode(b) == Err(UnknownRecordKind(kind)) <==>
      exists tail, strings, spans, types, records, rest ::
        ThreeSections(b, strings, spans, types, tail) && BadRecord(tail, records, rest, kind)
  {
    hide *;
    KindAt(b, kind);
    if BeforeRecords(b).Some? {
      var tail := BeforeRecords(b).value;
      SectionsBefore(b, tail);
      RecordRefused(tail, kind);
    }
    if tail, strings, spans, types, records, rest :|
      ThreeSections(b, strings, spans, types, tail) && BadRecord(tail, records, rest, kind)
    {
      SectionsBefore(b, tail);
      RecordRefused(tail, kind);
    }
  }
}
