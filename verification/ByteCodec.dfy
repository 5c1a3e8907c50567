/** Codecs of bytes: an encoder, a decoder that consumes a front part of its input, and the values the
    encoding can carry. What holds of the items of a counted list holds of the list. */
module ByteCodec {
  import opened Scalars

  datatype DecodeError = Truncated | UnknownRecordKind(kind: byte) | InvalidUtf8

  datatype Result<+T> = Ok(value: T, rest: seq<byte>) | Err(error: DecodeError)

  type Encoder<!T> = T -> seq<byte>
  type Decoder<!T> = seq<byte> -> Result<T>
  type Carried<!T> = T -> bool

  /** What is encoded is decoded, with whatever follows left over. */
  ghost predicate Decodes<T(!new)>(enc: Encoder<T>, dec: Decoder<T>, fits: Carried<T>) {
    forall x: T, rest: seq<byte> :: fits(x) ==> dec(enc(x) + rest) == Ok(x, rest)
  }

  /** What is decoded was encoded. */
  ghost predicate Inverts<T(!new)>(enc: Encoder<T>, dec: Decoder<T>, fits: Carried<T>) {
    forall b: seq<byte> :: dec(b).Ok? ==> fits(dec(b).value) && b == enc(dec(b).value) + dec(b).rest
  }

  /** Any input cut short is reported as such. */
  ghost predicate Starves<T(!new)>(enc: Encoder<T>, dec: Decoder<T>, fits: Carried<T>) {
    forall x: T, k: nat :: fits(x) && k < |enc(x)| ==> dec(enc(x)[..k]) == Err(Truncated)
  }

  ghost predicate Faithful<T(!new)>(enc: Encoder<T>, dec: Decoder<T>, fits: Carried<T>) {
    Decodes(enc, dec, fits) && Inverts(enc, dec, fits) && Starves(enc, dec, fits)
  }

  // ----- many items -----

  function ManyBytes<T>(enc: Encoder<T>, xs: seq<T>): seq<byte> {
    if xs == [] then [] else enc(xs[0]) + ManyBytes(enc, xs[1..])
  }

  function Many<T>(dec: Decoder<T>, n: nat, b: seq<byte>): Result<seq<T>>
    decreases n
  {
    if n == 0 then Ok([], b)
    else
      match dec(b)
      case Err(e) => Err(e)
      case Ok(x, rest) =>
        match Many(dec, n - 1, rest)
        case Err(e) => Err(e)
        case Ok(xs, left) => Ok([x] + xs, left)
  }

  predicate AllFit<T>(fits: Carried<T>, xs: seq<T>) {
    forall i :: 0 <= i < |xs| ==> fits(xs[i])
  }

  lemma {:induction false} ManyDecodes<T(!new)>(enc: Encoder<T>, dec: Decoder<T>, fits: Carried<T>, xs: seq<T>, rest: seq<byte>)
    requires Decodes(enc, dec, fits) && AllFit(fits, xs)
    ensures Many(dec, |xs|, ManyBytes(enc, xs) + rest) == Ok(xs, rest)
    decreases |xs|
  {
    if xs == [] {
      assert ManyBytes(enc, xs) + rest == rest;
    } else {
      var tail := ManyBytes(enc, xs[1..]);
      assert ManyBytes(enc, xs) + rest == enc(xs[0]) + (tail + rest);
      assert AllFit(fits, xs[1..]);
      ManyDecodes(enc, dec, fits, xs[1..], rest);
      assert [xs[0]] + xs[1..] == xs;
    }
  }

  lemma {:induction false} ManyInverts<T(!new)>(enc: Encoder<T>, dec: Decoder<T>, fits: Carried<T>, n: nat, b: seq<byte>)
    requires Inverts(enc, dec, fits) && Many(dec, n, b).Ok?
    ensures var r := Many(dec, n, b); |r.value| == n && AllFit(fits, r.value) && b == ManyBytes(enc, r.value) + r.rest
    decreases n
  {
    if n > 0 {
      var first := dec(b);
      ManyInverts(enc, dec, fits, n - 1, first.rest);
      var others := Many(dec, n - 1, first.rest);
      var r := Many(dec, n, b);
      assert r.value[1..] == others.value;
      assert b == enc(first.value) + (ManyBytes(enc, others.value) + r.rest);
    }
  }

  lemma {:induction false} ManyStarves<T(!new)>(enc: Encoder<T>, dec: Decoder<T>, fits: Carried<T>, xs: seq<T>, k: nat)
    requires Decodes(enc, dec, fits) && Starves(enc, dec, fits) && AllFit(fits, xs) && k < |ManyBytes(enc, xs)|
    ensures Many(dec, |xs|, ManyBytes(enc, xs)[..k]) == Err(Truncated)
    decreases |xs|
  {
    var first, tail := enc(xs[0]), ManyBytes(enc, xs[1..]);
    assert AllFit(fits, xs[1..]);
    if k < |first| {
      assert (first + tail)[..k] == first[..k];
    } else {
      assert (first + tail)[..k] == first + tail[..k - |first|];
      ManyStarves(enc, dec, fits, xs[1..], k - |first|);
    }
  }

  // ----- one after the other -----

  /** The second part of a record, decoded behind the first. */
  lemma AppendStarves(a: seq<byte>, b: seq<byte>, k: nat)
    requires k < |a + b|
    ensures k < |a| ==> (a + b)[..k] == a[..k]
    ensures k >= |a| ==> (a + b)[..k] == a + b[..k - |a|]
  {}

  // ----- numbers and blobs -----

  function GetInt(w: nat, b: seq<byte>): Result<nat> {
    if |b| < w then Err(Truncated) else Ok(LeValue(b[..w]), b[w..])
  }

  lemma IntDecodes(w: nat, n: nat, rest: seq<byte>)
    requires n < Pow256(w)
    ensures GetInt(w, LeBytes(n, w) + rest) == Ok(n, rest)
  {
    LeRound(n, w);
    assert (LeBytes(n, w) + rest)[..w] == LeBytes(n, w);
  }

  lemma IntInverts(w: nat, b: seq<byte>)
    requires w <= |b|
    ensures GetInt(w, b).value < Pow256(w) && b == LeBytes(GetInt(w, b).value, w) + GetInt(w, b).rest
  {
    LeBound(b[..w]);
    LeOfValue(b[..w]);
    assert b == b[..w] + b[w..];
  }

  lemma {:induction false} LeOfValue(b: seq<byte>)
    ensures LeBytes(LeValue(b), |b|) == b
    decreases |b|
  {
    if b != [] {
      LeOfValue(b[1..]);
      var n := LeValue(b);
      assert n % 0x100 == b[0] && n / 0x100 == LeValue(b[1..]);
    }
  }

  function Take(n: nat, b: seq<byte>): Result<seq<byte>> {
    if |b| < n then Err(Truncated) else Ok(b[..n], b[n..])
  }

  function BlobBytes(s: seq<byte>): seq<byte> {
    LeBytes(|s|, 4) + s
  }

  function GetBlob(b: seq<byte>): Result<seq<byte>> {
    match GetInt(4, b)
    case Err(e) => Err(e)
    case Ok(n, rest) => Take(n, rest)
  }

  predicate BlobFits(s: seq<byte>) {
    |s| < Pow256(4)
  }

  lemma BlobDecodes(s: seq<byte>, rest: seq<byte>)
    requires BlobFits(s)
    ensures GetBlob(BlobBytes(s) + rest) == Ok(s, rest)
  {
    IntDecodes(4, |s|, s + rest);
    assert BlobBytes(s) + rest == LeBytes(|s|, 4) + (s + rest);
  }

  lemma BlobInverts(b: seq<byte>)
    requires GetBlob(b).Ok?
    ensures BlobFits(GetBlob(b).value) && b == BlobBytes(GetBlob(b).value) + GetBlob(b).rest
  {
    IntInverts(4, b);
    var n, rest := GetInt(4, b).value, GetInt(4, b).rest;
    assert rest == rest[..n] + rest[n..];
  }

  lemma BlobStarves(s: seq<byte>, k: nat)
    requires BlobFits(s) && k < |BlobBytes(s)|
    ensures GetBlob(BlobBytes(s)[..k]) == Err(Truncated)
  {
    AppendStarves(LeBytes(|s|, 4), s, k);
    if k >= 4 {
      IntDecodes(4, |s|, s[..k - 4]);
    }
  }

  lemma BlobFaithful()
    ensures Faithful(BlobBytes, GetBlob, BlobFits)
  {
    forall s: seq<byte>, rest: seq<byte> | BlobFits(s)
      ensures GetBlob(BlobBytes(s) + rest) == Ok(s, rest)
    {
      BlobDecodes(s, rest);
    }
    forall b: seq<byte> | GetBlob(b).Ok?
      ensures BlobFits(GetBlob(b).value) && b == BlobBytes(GetBlob(b).value) + GetBlob(b).rest
    {
      BlobInverts(b);
    }
    forall s: seq<byte>, k: nat | BlobFits(s) && k < |BlobBytes(s)|
      ensures GetBlob(BlobBytes(s)[..k]) == Err(Truncated)
    {
      BlobStarves(s, k);
    }
  }

  // ----- counted lists -----

  function ListBytes<T>(w: nat, enc: Encoder<T>, xs: seq<T>): seq<byte> {
    LeBytes(|xs|, w) + ManyBytes(enc, xs)
  }

  function GetList<T>(w: nat, dec: Decoder<T>, b: seq<byte>): Result<seq<T>> {
    match GetInt(w, b)
    case Err(e) => Err(e)
    case Ok(n, rest) => Many(dec, n, rest)
  }

  predicate ListFits<T>(w: nat, fits: Carried<T>, xs: seq<T>) {
    |xs| < Pow256(w) && AllFit(fits, xs)
  }

  lemma ListDecodes<T(!new)>(w: nat, enc: Encoder<T>, dec: Decoder<T>, fits: Carried<T>, xs: seq<T>, rest: seq<byte>)
    requires Faithful(enc, dec, fits) && ListFits(w, fits, xs)
    ensures GetList(w, dec, ListBytes(w, enc, xs) + rest) == Ok(xs, rest)
  {
    var all := ManyBytes(enc, xs);
    IntDecodes(w, |xs|, all + rest);
    assert ListBytes(w, enc, xs) + rest == LeBytes(|xs|, w) + (all + rest);
    ManyDecodes(enc, dec, fits, xs, rest);
  }

  lemma ListInverts<T(!new)>(w: nat, enc: Encoder<T>, dec: Decoder<T>, fits: Carried<T>, b: seq<byte>)
    requires Faithful(enc, dec, fits) && GetList(w, dec, b).Ok?
    ensures var r := GetList(w, dec, b); ListFits(w, fits, r.value) && b == ListBytes(w, enc, r.value) + r.rest
  {
    IntInverts(w, b);
    ManyInverts(enc, dec, fits, GetInt(w, b).value, GetInt(w, b).rest);
    var r := GetList(w, dec, b);
    assert LeBytes(|r.value|, w) + (ManyBytes(enc, r.value) + r.rest) == ListBytes(w, enc, r.value) + r.rest;
  }

  lemma ListStarves<T(!new)>(w: nat, enc: Encoder<T>, dec: Decoder<T>, fits: Carried<T>, xs: seq<T>, k: nat)
    requires Faithful(enc, dec, fits) && ListFits(w, fits, xs) && k < |ListBytes(w, enc, xs)|
    ensures GetList(w, dec, ListBytes(w, enc, xs)[..k]) == Err(Truncated)
  {
    var all := ManyBytes(enc, xs);
    AppendStarves(LeBytes(|xs|, w), all, k);
    if k >= w {
      IntDecodes(w, |xs|, all[..k - w]);
      ManyStarves(enc, dec, fits, xs, k - w);
    }
  }
}
