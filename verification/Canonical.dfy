/** What canonicalisation makes of a value, apart from where in the arena its bodies lie and what room it
    takes: which composites become bodies and with which bytes, which stay boxed and over what. */
module Canonical {
  import opened Options
  import opened Scalars
  import opened FlatValue

  /** What a value comes to, wherever its bodies lie: what is no composite stays as it is, a composite becomes a
      body with these bytes, or stays a node over what its elements come to. */
  datatype Form = Atom(v: Value) | Bytes(kind: Kind, bytes: seq<byte>) | Node(shape: Shape, elems: seq<Form>)

  /** The length it contributes as a field; None when it is no field. */
  function Extent(k: Form, w: Widths): Option<nat> {
    match k
    case Atom(v) => if v.OpaqueRef? then Some(w.addr) else if IsScalar(v) then Some(ScalarSize(v, w)) else None
    case Bytes(_, bytes) => Some(|bytes|)
    case Node(_, _) => None
  }

  /** The bytes it contributes; None when they are refused: an index beyond the address field. */
  function Content(k: Form, w: Widths): (r: Option<seq<byte>>)
    requires w.word <= 8 && Extent(k, w).Some?
    ensures r.Some? ==> |r.value| == Extent(k, w).value
  {
    match k
    case Atom(v) =>
      if v.OpaqueRef? then if OpaqueFits(v.index, w) then Some(LeBytes(v.index, w.addr)) else None
      else Some(ScalarBytes(v, w))
    case Bytes(_, bytes) => Some(bytes)
  }

  predicate AreFields(ks: seq<Form>, w: Widths) {
    forall i {:trigger ks[i]} :: 0 <= i < |ks| ==> Extent(ks[i], w).Some?
  }

  predicate AreTaken(ks: seq<Form>, w: Widths)
    requires w.word <= 8 && AreFields(ks, w)
  {
    forall i {:trigger ks[i]} :: 0 <= i < |ks| ==> Content(ks[i], w).Some?
  }

  function ExtentUpto(ks: seq<Form>, w: Widths, n: nat): nat
    requires n <= |ks| && AreFields(ks, w)
  {
    if n == 0 then 0 else ExtentUpto(ks, w, n - 1) + Extent(ks[n - 1], w).value
  }

  function ContentUpto(ks: seq<Form>, w: Widths, n: nat): (b: seq<byte>)
    requires w.word <= 8 && n <= |ks| && AreFields(ks, w) && AreTaken(ks, w)
    ensures |b| == ExtentUpto(ks, w, n)
  {
    if n == 0 then [] else ContentUpto(ks, w, n - 1) + Content(ks[n - 1], w).value
  }

  /** The size of a node over fields, padding included. */
  function NodeSize(shape: Shape, ks: seq<Form>, w: Widths): nat
    requires AreFields(ks, w)
  {
    Max(LeadSize(shape, w) + ExtentUpto(ks, w, |ks|), MinBytes(shape, w))
  }

  /** Room is taken for the node: every element is a field and the whole is addressable. */
  predicate TakesRoom(shape: Shape, ks: seq<Form>, w: Widths) {
    AreFields(ks, w) && NodeSize(shape, ks, w) <= MAX_BODY
  }

  /** The node packs: besides, no field is refused, if there is anything to write. */
  predicate Packs(shape: Shape, ks: seq<Form>, w: Widths)
    requires w.word <= 8
  {
    TakesRoom(shape, ks, w) && (NodeSize(shape, ks, w) == 0 || AreTaken(ks, w))
  }

  function NodeContent(shape: Shape, ks: seq<Form>, w: Widths): (b: seq<byte>)
    requires w.word <= 8 && Packs(shape, ks, w)
    ensures |b| == NodeSize(shape, ks, w)
  {
    var n := NodeSize(shape, ks, w);
    if n == 0 then []
    else
      var fields := Lead(shape, w) + ContentUpto(ks, w, |ks|);
      fields + Zeros(n - |fields|)
  }

  /** The shape a node keeps: an enum's discriminant is the one it packs with. */
  function KeptShape(shape: Shape): Shape {
    if shape.EnumShape? then shape.(disc := Discriminant(shape)) else shape
  }

  function Canon(v: Value, w: Widths): Form
    requires w.word <= 8
    decreases v
  {
    if !v.Boxed? then Atom(v)
    else
      var ks := seq(|v.elems|, i requires 0 <= i < |v.elems| => Canon(v.elems[i], w));
      if Packs(v.shape, ks, w) then Bytes(KindOf(v.shape), NodeContent(v.shape, ks, w)) else Node(KeptShape(v.shape), ks)
  }

  function CanonAll(v: Value, w: Widths): seq<Form>
    requires w.word <= 8 && v.Boxed?
  {
    seq(|v.elems|, i requires 0 <= i < |v.elems| => Canon(v.elems[i], w))
  }

  lemma CanonOpen(v: Value, w: Widths)
    requires w.word <= 8 && v.Boxed?
    ensures Canon(v, w) ==
      if Packs(v.shape, CanonAll(v, w), w) then Bytes(KindOf(v.shape), NodeContent(v.shape, CanonAll(v, w), w))
      else Node(KeptShape(v.shape), CanonAll(v, w))
    ensures |CanonAll(v, w)| == |v.elems| && forall i :: 0 <= i < |v.elems| ==> CanonAll(v, w)[i] == Canon(v.elems[i], w)
  {
    assert CanonAll(v, w) == seq(|v.elems|, i requires 0 <= i < |v.elems| => Canon(v.elems[i], w));
  }

  /** Is the value a field once it has been canonicalised? */
  predicate NoField(v: Value, w: Widths)
    requires w.word <= 8
  {
    v.Nothing? || v.Text? || v.Flat? || (v.Boxed? && Canon(v, w).Node?)
  }

  /** A composite stays boxed if and only if an element is no field, or the whole is too large to address, or an
      index does not fit its field; and then it keeps its shape and every element, as that comes out. */
  lemma StaysExactly(v: Value, w: Widths)
    requires w.word <= 8 && v.Boxed?
    ensures var k, ks := Canon(v, w), CanonAll(v, w);
      && (k.Node? <==>
            || (exists i :: 0 <= i < |v.elems| && NoField(v.elems[i], w))
            || (AreFields(ks, w) && NodeSize(v.shape, ks, w) > MAX_BODY)
            || (AreFields(ks, w) && NodeSize(v.shape, ks, w) > 0 &&
                exists i :: 0 <= i < |v.elems| && v.elems[i].OpaqueRef? && !OpaqueFits(v.elems[i].index, w)))
      && (k.Node? ==>
            && k.shape == KeptShape(v.shape) && |k.elems| == |v.elems|
            && forall i :: 0 <= i < |v.elems| ==> k.elems[i] == Canon(v.elems[i], w))
  {
    CanonOpen(v, w);
    var ks := CanonAll(v, w);
    forall i | 0 <= i < |v.elems|
      ensures Extent(ks[i], w).None? <==> NoField(v.elems[i], w)
      ensures Extent(ks[i], w).Some? ==> (Content(ks[i], w).None? <==> v.elems[i].OpaqueRef? && !OpaqueFits(v.elems[i].index, w))
    {
      FieldsOf(v.elems[i], w);
    }
  }

  lemma FieldsOf(v: Value, w: Widths)
    requires w.word <= 8
    ensures var k := Canon(v, w);
      && (Extent(k, w).None? <==> NoField(v, w))
      && (Extent(k, w).Some? ==> (Content(k, w).None? <==> v.OpaqueRef? && !OpaqueFits(v.index, w)))
  {
    if v.Boxed? {
      CanonOpen(v, w);
    }
  }

  /** A composite that becomes a body has its own kind; element `i` lies at its running offset, byte for byte what
      it contributes; an enum's discriminant leads, and zeros fill what the shape asks for beyond. */
  lemma BodyLayout(v: Value, w: Widths, i: nat)
    requires w.word <= 8 && v.Boxed? && Canon(v, w).Bytes? && i < |v.elems| && Canon(v, w).bytes != []
    ensures var k, ks := Canon(v, w), CanonAll(v, w);
      && k.kind == KindOf(v.shape) && ks[i] == Canon(v.elems[i], w)
      && AreFields(ks, w) && |k.bytes| == NodeSize(v.shape, ks, w) && Content(ks[i], w).Some?
      && var at := LeadSize(v.shape, w) + ExtentUpto(ks, w, i);
        && at + Extent(ks[i], w).value <= LeadSize(v.shape, w) + ExtentUpto(ks, w, |ks|) <= |k.bytes|
        && k.bytes[at..at + Extent(ks[i], w).value] == Content(ks[i], w).value
        && k.bytes[..LeadSize(v.shape, w)] == Lead(v.shape, w)
        && forall j :: LeadSize(v.shape, w) + ExtentUpto(ks, w, |ks|) <= j < |k.bytes| ==> k.bytes[j] == 0
  {
    CanonOpen(v, w);
    hide Content, Extent, AreFields, AreTaken, Packs, NodeSize, NodeContent;
    NodeLayout(v.shape, CanonAll(v, w), w, i);
  }

  /** Such a body is of the shape's own kind, its fields start behind an enum's discriminant or at once, and it is
      no longer than they and the shape's minimum ask for. */
  lemma BodyStarts(v: Value, w: Widths)
    requires w.word <= 8 && v.Boxed? && Canon(v, w).Bytes?
    ensures AreFields(CanonAll(v, w), w) && IsOf(Canon(v, w).kind, v.shape)
    ensures Leads(v.shape, w, LeadSize(v.shape, w), Canon(v, w).bytes, LeadSize(v.shape, w) + ExtentUpto(CanonAll(v, w), w, |v.elems|))
  {
    hide *;
    var ks := CanonAll(v, w);
    CanonOpen(v, w);
    BodyPacks(v, w);
    OwnKind(v.shape);
    NodeStarts(v.shape, ks, w);
  }

  lemma BodyPacks(v: Value, w: Widths)
    requires w.word <= 8 && v.Boxed? && Canon(v, w).Bytes?
    ensures |CanonAll(v, w)| == |v.elems| && Packs(v.shape, CanonAll(v, w), w) && AreFields(CanonAll(v, w), w)
    ensures Canon(v, w) == Bytes(KindOf(v.shape), NodeContent(v.shape, CanonAll(v, w), w))
  {
    CanonOpen(v, w);
  }

  lemma OwnKind(shape: Shape)
    ensures IsOf(KindOf(shape), shape)
  {}

  lemma NodeStarts(shape: Shape, ks: seq<Form>, w: Widths)
    requires w.word <= 8 && AreFields(ks, w) && Packs(shape, ks, w)
    ensures Leads(shape, w, LeadSize(shape, w), NodeContent(shape, ks, w), LeadSize(shape, w) + ExtentUpto(ks, w, |ks|))
  {
    hide NodeContent, NodeSize, ExtentUpto, ContentUpto, Extent, Content, Packs, AreFields, AreTaken;
    LeadExactly(shape, w);
    SizeExactly(shape, ks, w);
    var b := NodeContent(shape, ks, w);
    if b != [] {
      NodeOpen(shape, ks, w);
    }
  }

  predicate IsOf(kind: Kind, shape: Shape) {
    match shape
    case TupleShape => kind.TupleKind?
    case ArrayShape => kind.ArrayKind?
    case StructShape(_, _) => kind.StructKind?
    case EnumShape(_, _, _, _) => kind.EnumKind?
  }

  lemma SizeExactly(shape: Shape, ks: seq<Form>, w: Widths)
    requires AreFields(ks, w)
    ensures var end, least := LeadSize(shape, w) + ExtentUpto(ks, w, |ks|), MinBytes(shape, w);
      NodeSize(shape, ks, w) == if end < least then least else end
  {}

  lemma NodeLayout(shape: Shape, ks: seq<Form>, w: Widths, i: nat)
    requires w.word <= 8 && Packs(shape, ks, w) && NodeContent(shape, ks, w) != [] && i < |ks|
    ensures AreFields(ks, w) && |NodeContent(shape, ks, w)| == NodeSize(shape, ks, w) && Content(ks[i], w).Some?
    ensures var bytes, at, end := NodeContent(shape, ks, w), LeadSize(shape, w) + ExtentUpto(ks, w, i), LeadSize(shape, w) + ExtentUpto(ks, w, |ks|);
      && at + Extent(ks[i], w).value <= end <= |bytes|
      && bytes[at..at + Extent(ks[i], w).value] == Content(ks[i], w).value
      && bytes[..LeadSize(shape, w)] == Lead(shape, w)
      && forall j :: end <= j < |bytes| ==> bytes[j] == 0
  {
    hide *;
    NodeOpen(shape, ks, w);
    ContentAt(ks, w, i, |ks|);
    var lead, all := Lead(shape, w), ContentUpto(ks, w, |ks|);
    Slices(lead, all, NodeSize(shape, ks, w) - |lead + all|, ExtentUpto(ks, w, i), Extent(ks[i], w).value);
  }

  lemma NodeOpen(shape: Shape, ks: seq<Form>, w: Widths)
    requires w.word <= 8 && Packs(shape, ks, w) && NodeContent(shape, ks, w) != []
    ensures AreFields(ks, w) && AreTaken(ks, w) && |NodeContent(shape, ks, w)| == NodeSize(shape, ks, w)
    ensures var fields := Lead(shape, w) + ContentUpto(ks, w, |ks|);
      && |Lead(shape, w)| == LeadSize(shape, w) && |fields| == LeadSize(shape, w) + ExtentUpto(ks, w, |ks|) <= NodeSize(shape, ks, w)
      && NodeContent(shape, ks, w) == fields + Zeros(NodeSize(shape, ks, w) - |fields|)
  {
    hide Content, Extent, ContentUpto, ExtentUpto, MinBytes, AreFields, AreTaken;
  }

  lemma Slices(lead: seq<byte>, all: seq<byte>, slack: nat, at: nat, n: nat)
    requires at + n <= |all|
    ensures var bytes := lead + all + Zeros(slack);
      && bytes[|lead| + at..|lead| + at + n] == all[at..at + n] && bytes[..|lead|] == lead
      && forall j :: |lead| + |all| <= j < |bytes| ==> bytes[j] == 0
  {
    SliceRight(lead, all, at, at + n);
    SliceLeft(lead + all, Zeros(slack), |lead| + at, |lead| + at + n);
  }

  lemma {:induction false} ContentAt(ks: seq<Form>, w: Widths, i: nat, n: nat)
    requires w.word <= 8 && AreFields(ks, w) && AreTaken(ks, w) && i < n <= |ks|
    ensures Extent(ks[i], w).Some?
    ensures ExtentUpto(ks, w, i) + Extent(ks[i], w).value <= ExtentUpto(ks, w, n)
    ensures Content(ks[i], w).Some?
    ensures ContentUpto(ks, w, n)[ExtentUpto(ks, w, i)..ExtentUpto(ks, w, i) + Extent(ks[i], w).value] == Content(ks[i], w).value
    decreases n
  {
    hide Content, Extent;
    assert Content(ks[i], w).Some? && Content(ks[n - 1], w).Some?;
    var at, init, last := ExtentUpto(ks, w, i), ContentUpto(ks, w, n - 1), Content(ks[n - 1], w).value;
    if i < n - 1 {
      ContentAt(ks, w, i, n - 1);
      SliceLeft(init, last, at, at + Extent(ks[i], w).value);
    } else {
      SliceRight(init, last, 0, |last|);
      SliceAll(last, |last|);
    }
  }

  // ----- plain values -----

  /** A value of boxed composites and fixed scalars of addressable size comes to exactly its packed bytes. */
  lemma {:induction false} PlainCanon(v: Value, w: Widths)
    requires w.word <= 8 && Plain(v) && Size(v, w) <= MAX_BODY
    ensures Canon(v, w) == if IsScalar(v) then Atom(v) else Bytes(KindOf(v.shape), Packed(v, w))
    decreases v
  {
    if v.Boxed? {
      PlainElems(v);
      CanonOpen(v, w);
      var ks := CanonAll(v, w);
      forall i | 0 <= i < |v.elems|
        ensures ks[i] == if IsScalar(v.elems[i]) then Atom(v.elems[i]) else Bytes(KindOf(v.elems[i].shape), Packed(v.elems[i], w))
      {
        SizeSteps(v, w, i, |v.elems|);
        PlainCanon(v.elems[i], w);
      }
      PlainContent(v, w, ks);
    }
  }

  lemma PlainContent(v: Value, w: Widths, ks: seq<Form>)
    requires w.word <= 8 && v.Boxed? && Plain(v) && Size(v, w) <= MAX_BODY && |ks| == |v.elems|
    requires forall i :: 0 <= i < |ks| ==>
      Plain(v.elems[i]) && ks[i] == if IsScalar(v.elems[i]) then Atom(v.elems[i]) else Bytes(KindOf(v.elems[i].shape), Packed(v.elems[i], w))
    ensures Packs(v.shape, ks, w) && NodeContent(v.shape, ks, w) == Packed(v, w)
  {
    forall i | 0 <= i < |ks|
      ensures Extent(ks[i], w) == Some(Size(v.elems[i], w)) && Content(ks[i], w) == Some(Packed(v.elems[i], w))
    {}
    PlainUpto(v, w, ks, |ks|);
    PackedOpen(v, w);
    if NodeSize(v.shape, ks, w) == 0 {
      assert Packed(v, w) == [];
    }
  }

  lemma {:induction false} PlainUpto(v: Value, w: Widths, ks: seq<Form>, n: nat)
    requires w.word <= 8 && v.Boxed? && Plain(v) && |ks| == |v.elems| && n <= |ks| && AreFields(ks, w) && AreTaken(ks, w)
    requires forall i :: 0 <= i < |ks| ==>
      Plain(v.elems[i]) && Extent(ks[i], w) == Some(Size(v.elems[i], w)) && Content(ks[i], w) == Some(Packed(v.elems[i], w))
    ensures ExtentUpto(ks, w, n) == SizeUpto(v, w, n) && ContentUpto(ks, w, n) == PackedUpto(v, w, n)
    decreases n
  {
    hide Packed, Size, Plain, Content, Extent;
    if n > 0 {
      PlainUpto(v, w, ks, n - 1);
    }
  }

  lemma {:induction false} SizeSteps(v: Value, w: Widths, i: nat, n: nat)
    requires v.Boxed? && i < n <= |v.elems|
    ensures SizeUpto(v, w, i + 1) == SizeUpto(v, w, i) + Size(v.elems[i], w) && SizeUpto(v, w, i + 1) <= SizeUpto(v, w, n)
    ensures Size(v.elems[i], w) <= Size(v, w)
    decreases n
  {
    hide Plain;
    if i + 1 < n {
      SizeSteps(v, w, i, n - 1);
    }
    SizeMono(v, w, n, |v.elems|);
  }

  lemma {:induction false} SizeMono(v: Value, w: Widths, i: nat, n: nat)
    requires v.Boxed? && i <= n <= |v.elems|
    ensures SizeUpto(v, w, i) <= SizeUpto(v, w, n)
    decreases n
  {
    if i < n {
      SizeMono(v, w, i, n - 1);
    }
  }

  // ----- room -----

  /** The bytes a canonicalised value keeps: its body's, or what its elements keep and what was taken for a body
      that was then refused. */
  function Held(v: Value, w: Widths): nat
    requires w.word <= 8
    decreases v, 1
  {
    if !v.Boxed? then 0
    else
      match Canon(v, w)
      case Bytes(_, bytes) => |bytes|
      case _ => HeldUpto(v, w, |v.elems|) + Room(v, w)
  }

  function HeldUpto(v: Value, w: Widths, n: nat): nat
    requires w.word <= 8 && v.Boxed? && n <= |v.elems|
    decreases v, 0, n
  {
    if n == 0 then 0 else HeldUpto(v, w, n - 1) + Held(v.elems[n - 1], w)
  }

  /** The bytes taken for the node itself. */
  function Room(v: Value, w: Widths): nat
    requires w.word <= 8 && v.Boxed?
  {
    var ks := CanonAll(v, w);
    if TakesRoom(v.shape, ks, w) then NodeSize(v.shape, ks, w) else 0
  }

  /** The most bytes in use at once on the way: elements are canonicalised in order, the node lies below them all. */
  function Peak(v: Value, w: Widths): nat
    requires w.word <= 8
    decreases v, 1
  {
    if !v.Boxed? then 0 else Max(PeakUpto(v, w, |v.elems|), HeldUpto(v, w, |v.elems|) + Room(v, w))
  }

  function PeakUpto(v: Value, w: Widths, n: nat): nat
    requires w.word <= 8 && v.Boxed? && n <= |v.elems|
    decreases v, 0, n
  {
    if n == 0 then 0 else Max(PeakUpto(v, w, n - 1), HeldUpto(v, w, n - 1) + Peak(v.elems[n - 1], w))
  }

  lemma {:induction false} PeakSteps(v: Value, w: Widths, i: nat, n: nat)
    requires w.word <= 8 && v.Boxed? && i < n <= |v.elems|
    ensures HeldUpto(v, w, i) + Peak(v.elems[i], w) <= PeakUpto(v, w, n)
    decreases n
  {
    if i + 1 < n {
      PeakSteps(v, w, i, n - 1);
    }
  }

  /** Elements that are all fields keep what they contribute at most: a scalar keeps nothing. */
  lemma {:induction false} HeldWithin(v: Value, w: Widths, n: nat)
    requires w.word <= 8 && v.Boxed? && n <= |v.elems| && AreFields(CanonAll(v, w), w)
    ensures HeldUpto(v, w, n) <= ExtentUpto(CanonAll(v, w), w, n)
    decreases n
  {
    hide Held, Canon, CanonAll, Extent, Content;
    if n > 0 {
      HeldWithin(v, w, n - 1);
      CanonOpen(v, w);
      assert Extent(CanonAll(v, w)[n - 1], w).Some?;
      FieldHeld(v.elems[n - 1], w);
    }
  }

  lemma FieldHeld(v: Value, w: Widths)
    requires w.word <= 8 && Extent(Canon(v, w), w).Some?
    ensures Held(v, w) <= Extent(Canon(v, w), w).value
  {
    if v.Boxed? {
      CanonOpen(v, w);
    }
  }

  /** A composite that becomes a body keeps its length and nothing else. */
  lemma BodyHeld(v: Value, w: Widths)
    requires w.word <= 8 && v.Boxed? && Canon(v, w).Bytes?
    ensures Held(v, w) == |Canon(v, w).bytes| == Room(v, w) && HeldUpto(v, w, |v.elems|) <= Room(v, w)
  {
    CanonOpen(v, w);
    HeldWithin(v, w, |v.elems|);
  }

  /** A plain composite of addressable size keeps exactly its length and never needs more than twice that. */
  lemma {:induction false} PlainCosts(v: Value, w: Widths)
    requires w.word <= 8 && Plain(v) && Size(v, w) <= MAX_BODY
    ensures Held(v, w) == (if v.Boxed? then Size(v, w) else 0) && Peak(v, w) <= 2 * Size(v, w)
    decreases v, 2
  {
    PlainCanon(v, w);
    if v.Boxed? {
      BodyHeld(v, w);
      PlainUptoCosts(v, w, |v.elems|);
    }
  }

  lemma SizeLead(v: Value, w: Widths)
    requires v.Boxed?
    ensures SizeUpto(v, w, |v.elems|) <= Size(v, w)
  {}

  lemma {:induction false} PlainUptoCosts(v: Value, w: Widths, n: nat)
    requires w.word <= 8 && v.Boxed? && Plain(v) && Size(v, w) <= MAX_BODY && n <= |v.elems|
    ensures HeldUpto(v, w, n) <= SizeUpto(v, w, n) && PeakUpto(v, w, n) <= 2 * SizeUpto(v, w, n) <= 2 * Size(v, w)
    decreases v, 1, n
  {
    hide *;
    SizeMono(v, w, n, |v.elems|);
    SizeLead(v, w);
    if n == 0 {
      NoCosts(v, w);
    } else {
      PlainElem(v, w, n - 1);
      PlainUptoCosts(v, w, n - 1);
      PlainCosts(v.elems[n - 1], w);
      OneMoreCosts(v, w, n);
    }
  }

  lemma PlainElem(v: Value, w: Widths, i: nat)
    requires v.Boxed? && Plain(v) && i < |v.elems| && Size(v, w) <= MAX_BODY
    ensures Plain(v.elems[i]) && Size(v.elems[i], w) <= MAX_BODY
  {
    SizeSteps(v, w, i, |v.elems|);
  }

  lemma NoCosts(v: Value, w: Widths)
    requires w.word <= 8 && v.Boxed?
    ensures HeldUpto(v, w, 0) == PeakUpto(v, w, 0) == SizeUpto(v, w, 0) == 0
  {}

  lemma OneMoreCosts(v: Value, w: Widths, n: nat)
    requires w.word <= 8 && v.Boxed? && 0 < n <= |v.elems|
    requires HeldUpto(v, w, n - 1) <= SizeUpto(v, w, n - 1) && PeakUpto(v, w, n - 1) <= 2 * SizeUpto(v, w, n - 1)
    requires var last := v.elems[n - 1];
      Held(last, w) == (if last.Boxed? then Size(last, w) else 0) && Peak(last, w) <= 2 * Size(last, w)
    ensures HeldUpto(v, w, n) <= SizeUpto(v, w, n) && PeakUpto(v, w, n) <= 2 * SizeUpto(v, w, n)
  {
    hide Held, Peak, Size;
  }
}
