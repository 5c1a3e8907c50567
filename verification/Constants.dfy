/** Constants, packed two ways: directly into pool bytes, and lifted to a value that is packed like
    any other. */
module Constants {
  import opened Options
  import opened Scalars
  import opened FlatValue
  import opened FlatArena
  import Canonical

  datatype Form =
    | TupleForm
    | ArrayForm
    | StructForm(typeName: string, fieldNames: seq<string>)
    | EnumForm(enumName: string, variant: string, discriminant: Option<int64>)

  datatype Const =
    | UnitConst
    | BoolConst(b: bool)
    | ByteConst(x: byte)
    | IntConst(i: int64)
    | FixedConst(raw: int64)
    | StringConst(s: string)
    | NothingConst
    | Group(form: Form, items: seq<Const>)

  // ----- lifting -----

  function ShapeOf(form: Form): Shape {
    match form
    case TupleForm => TupleShape
    case ArrayForm => ArrayShape
    case StructForm(n, f) => StructShape(n, f)
    case EnumForm(n, v, d) => EnumShape(n, v, if d.Some? then d.value else 0, 0)
  }

  /** The value a constant is lifted to: every composite boxed. */
  function FromConst(c: Const): Value {
    match c
    case UnitConst => Unit
    case BoolConst(b) => Bool(b)
    case ByteConst(x) => Byte(x)
    case IntConst(i) => Int(i)
    case FixedConst(i) => Fixed(i)
    case StringConst(s) => Text(s)
    case NothingConst => Nothing
    case Group(form, items) => Boxed(ShapeOf(form), seq(|items|, k requires 0 <= k < |items| => FromConst(items[k])))
  }

  /** The value holds the constant: a leaf its own kind of value with its content, a group a boxed composite of
      its form over one value for each item, in order. */
  predicate Holds(v: Value, c: Const)
    decreases c
  {
    match c
    case UnitConst => v.Unit?
    case BoolConst(b) => v.Bool? && v.b == b
    case ByteConst(x) => v.Byte? && v.x == x
    case IntConst(i) => v.Int? && v.i == i
    case FixedConst(raw) => v.Fixed? && v.raw == raw
    case StringConst(s) => v.Text? && v.s == s
    case NothingConst => v.Nothing?
    case Group(form, items) =>
      v.Boxed? && OfForm(v.shape, form) && |v.elems| == |items| && forall k :: 0 <= k < |items| ==> Holds(v.elems[k], items[k])
  }

  /** Constants carry no padding, and an unresolved discriminant counts as zero. */
  predicate OfForm(shape: Shape, form: Form) {
    match form
    case TupleForm => shape.TupleShape?
    case ArrayForm => shape.ArrayShape?
    case StructForm(name, fields) => shape.StructShape? && shape.typeName == name && shape.fieldNames == fields
    case EnumForm(name, variant, d) =>
      shape.EnumShape? && shape.enumName == name && shape.variant == variant && shape.minPayload == 0
      && Some(shape.disc) == if d == None then Some(0) else d
  }

  /** Lifting gives the one value that holds the constant. */
  lemma {:induction false} LiftsExactly(c: Const, v: Value)
    ensures v == FromConst(c) <==> Holds(v, c)
    decreases c
  {
    if c.Group? {
      if v == FromConst(c) {
        forall k | 0 <= k < |c.items|
          ensures Holds(v.elems[k], c.items[k])
        {
          LiftsExactly(c.items[k], v.elems[k]);
        }
      }
      if Holds(v, c) {
        forall k | 0 <= k < |c.items|
          ensures v.elems[k] == FromConst(c.items[k])
        {
          LiftsExactly(c.items[k], v.elems[k]);
        }
        assert v.shape == ShapeOf(c.form) && v.elems == FromConst(c).elems;
      }
    }
  }

  // ----- pool bytes -----

  /** The position-independent bytes of a constant; None for a string, a bare none, or an enum whose
      discriminant is not resolved. */
  function ConstBytes(c: Const, w: Widths): Option<seq<byte>>
    requires w.word <= 8
    decreases c, 1
  {
    match c
    case UnitConst => Some([])
    case BoolConst(b) => Some([if b then 1 else 0])
    case ByteConst(x) => Some([x])
    case IntConst(i) => Some(IntBytes(i, w.word))
    case FixedConst(i) => Some(IntBytes(i, w.word))
    case StringConst(_) => None
    case NothingConst => None
    case Group(form, items) =>
      if form.EnumForm? && form.discriminant.None? then None
      else
        var rest := ItemBytes(c, w, |items|);
        if rest.None? then None else Some(ConstLead(form, w) + rest.value)
  }

  function ConstLead(form: Form, w: Widths): seq<byte>
    requires w.word <= 8 && (form.EnumForm? ==> form.discriminant.Some?)
  {
    if form.EnumForm? then IntBytes(form.discriminant.value, w.word) else []
  }

  function ItemBytes(c: Const, w: Widths, n: nat): Option<seq<byte>>
    requires c.Group? && n <= |c.items| && w.word <= 8
    decreases c, 0, n
  {
    if n == 0 then Some([])
    else
      var before, last := ItemBytes(c, w, n - 1), ConstBytes(c.items[n - 1], w);
      if before.None? || last.None? then None else Some(before.value + last.value)
  }

  /** No string, no bare none and no enum without a discriminant, at any depth. */
  predicate Poolable(c: Const) {
    match c
    case StringConst(_) => false
    case NothingConst => false
    case Group(form, items) =>
      (form.EnumForm? ==> form.discriminant != None) && forall k :: 0 <= k < |items| ==> Poolable(items[k])
    case _ => true
  }

  lemma {:induction false} PoolsExactly(c: Const, w: Widths)
    requires w.word <= 8
    ensures ConstBytes(c, w).Some? <==> Poolable(c)
    decreases c, 1
  {
    if c.Group? {
      ItemsPool(c, w, |c.items|);
    }
  }

  lemma {:induction false} ItemsPool(c: Const, w: Widths, n: nat)
    requires c.Group? && n <= |c.items| && w.word <= 8
    ensures ItemBytes(c, w, n).Some? <==> forall k :: 0 <= k < n ==> Poolable(c.items[k])
    decreases c, 0, n
  {
    if n > 0 {
      ItemsPool(c, w, n - 1);
      PoolsExactly(c.items[n - 1], w);
    }
  }

  /** A group's bytes are its discriminant's, for an enum, then each item's where the items before it end. */
  lemma GroupLayout(c: Const, w: Widths, k: nat)
    requires w.word <= 8 && c.Group? && ConstBytes(c, w).Some? && k < |c.items|
    ensures ItemBytes(c, w, k).Some? && ItemBytes(c, w, |c.items|).Some? && ConstBytes(c.items[k], w).Some?
    ensures var b, one := ConstBytes(c, w).value, ConstBytes(c.items[k], w).value;
      var lead := if c.form.EnumForm? then w.word else 0;
      var at := lead + |ItemBytes(c, w, k).value|;
      && |b| == lead + |ItemBytes(c, w, |c.items|).value|
      && at + |one| <= |b| && b[at..at + |one|] == one
      && (c.form.EnumForm? ==> b[..lead] == IntBytes(c.form.discriminant.value, w.word))
      && (k == 0 ==> at == lead) && (k + 1 == |c.items| ==> at + |one| == |b|)
  {
    hide *;
    GroupResolved(c, w);
    GroupOpen(c, w);
    LeadBytes(c.form, w);
    ItemsCut(c, w, k, |c.items|);
    NoItems(c, w);
    Behind(ConstLead(c.form, w), ItemBytes(c, w, |c.items|).value, |ItemBytes(c, w, k).value|, ConstBytes(c.items[k], w).value);
  }

  lemma GroupResolved(c: Const, w: Widths)
    requires w.word <= 8 && c.Group? && ConstBytes(c, w).Some?
    ensures c.form.EnumForm? ==> c.form.discriminant.Some?
  {}

  lemma LeadBytes(form: Form, w: Widths)
    requires w.word <= 8 && (form.EnumForm? ==> form.discriminant.Some?)
    ensures ConstLead(form, w) == if form.EnumForm? then IntBytes(form.discriminant.value, w.word) else []
  {}

  lemma Behind(lead: seq<byte>, all: seq<byte>, at: nat, one: seq<byte>)
    requires at + |one| <= |all| && all[at..at + |one|] == one
    ensures (lead + all)[|lead| + at..|lead| + at + |one|] == one && (lead + all)[..|lead|] == lead
  {
    SliceRight(lead, all, at, at + |one|);
  }

  lemma {:induction false} ItemsCut(c: Const, w: Widths, k: nat, n: nat)
    requires w.word <= 8 && c.Group? && k < n <= |c.items| && ItemBytes(c, w, n).Some?
    ensures ItemBytes(c, w, k).Some? && ConstBytes(c.items[k], w).Some?
    ensures var at, one := |ItemBytes(c, w, k).value|, ConstBytes(c.items[k], w).value;
      && at + |one| <= |ItemBytes(c, w, n).value| && ItemBytes(c, w, n).value[at..at + |one|] == one
      && (k + 1 == n ==> at + |one| == |ItemBytes(c, w, n).value|)
    decreases n
  {
    hide ConstBytes;
    if k + 1 < n {
      ItemsCut(c, w, k, n - 1);
    }
  }

  /** The bytes under construction. */
  class Buffer {
    var data: seq<byte>

    constructor ()
      ensures data == []
    {
      data := [];
    }

    /** Append the constant's bytes; false when it has none, with the buffer spoiled. */
    method Append(c: Const, w: Widths) returns (ok: bool)
      requires w.word <= 8
      modifies this
      ensures ok == ConstBytes(c, w).Some?
      ensures ok ==> data == old(data) + ConstBytes(c, w).value
      decreases c
    {
      match c
      case UnitConst =>
        assert data + [] == data;
        ok := true;
      case BoolConst(b) =>
        data := data + [if b then 1 else 0];
        ok := true;
      case ByteConst(x) =>
        data := data + [x];
        ok := true;
      case IntConst(i) =>
        data := data + IntBytes(i, w.word);
        ok := true;
      case FixedConst(i) =>
        data := data + IntBytes(i, w.word);
        ok := true;
      case StringConst(_) => ok := false;
      case NothingConst => ok := false;
      case Group(form, items) =>
        if form.EnumForm? && form.discriminant.None? {
          return false;
        }
        data := data + ConstLead(form, w);
        for k := 0 to |items|
          invariant ItemBytes(c, w, k).Some?
          invariant data == old(data) + (ConstLead(form, w) + ItemBytes(c, w, k).value)
        {
          var packed := Append(items[k], w);
          if !packed {
            ItemMissing(c, w, k, |items|);
            return false;
          }
        }
        ok := true;
    }
  }

  lemma {:induction false} ItemMissing(c: Const, w: Widths, k: nat, n: nat)
    requires c.Group? && k < n <= |c.items| && w.word <= 8 && ConstBytes(c.items[k], w).None?
    ensures ItemBytes(c, w, n).None?
    decreases n
  {
    if k < n - 1 {
      ItemMissing(c, w, k, n - 1);
    }
  }

  // ----- the two agree -----

  /** At every depth, an enum named `Option` carries the bytes of discriminant 1. */
  predicate OptionsAreSome(c: Const, w: Widths)
    requires w.word <= 8
  {
    c.Group? ==>
      && (c.form.EnumForm? && c.form.enumName == "Option" && c.form.discriminant.Some? ==>
            IntBytes(c.form.discriminant.value, w.word) == IntBytes(1, w.word))
      && forall k :: 0 <= k < |c.items| ==> OptionsAreSome(c.items[k], w)
  }

  lemma ConcatEq(a: seq<byte>, b: seq<byte>, x: seq<byte>, y: seq<byte>)
    requires |a| == |x|
    ensures a + b == x + y <==> a == x && b == y
  {
    if a + b == x + y {
      assert a == (a + b)[..|a|] && x == (x + y)[..|x|];
      assert b == (a + b)[|a|..] && y == (x + y)[|x|..];
    }
  }

  /** Whenever a constant has pool bytes, the value it is lifted to flattens to as many; and to exactly
      those bytes if and only if every `Option` in it has the bytes of discriminant 1. */
  lemma {:induction false} PathsAgree(c: Const, w: Widths)
    requires w.word <= 8 && ConstBytes(c, w).Some?
    ensures Plain(FromConst(c)) && Size(FromConst(c), w) == |ConstBytes(c, w).value|
    ensures Packed(FromConst(c), w) == ConstBytes(c, w).value <==> OptionsAreSome(c, w)
    decreases c, 1
  {
    if c.Group? {
      var v := FromConst(c);
      GroupPlain(c, w);
      ItemsAgree(c, w, |c.items|);
      var lead, items := Lead(v.shape, w), PackedUpto(v, w, |v.elems|);
      PackedOpen(v, w);
      hide Packed, PackedUpto, FromConst, ConstBytes;
      assert Size(v, w) == |lead + items|;
      assert Zeros(0) == [] && lead + items + [] == lead + items;
      ConcatEq(lead, items, ConstLead(c.form, w), ItemBytes(c, w, |c.items|).value);
      GroupOpen(c, w);
    }
  }

  lemma GroupOpen(c: Const, w: Widths)
    requires w.word <= 8 && c.Group? && ConstBytes(c, w).Some?
    ensures ItemBytes(c, w, |c.items|).Some?
    ensures ConstBytes(c, w).value == ConstLead(c.form, w) + ItemBytes(c, w, |c.items|).value
  {}

  lemma {:induction false} GroupPlain(c: Const, w: Widths)
    requires w.word <= 8 && c.Group? && ConstBytes(c, w).Some?
    ensures Plain(FromConst(c)) && FromConst(c).Boxed? && |FromConst(c).elems| == |c.items|
    ensures ItemBytes(c, w, |c.items|).Some?
    decreases c, 0
  {
    forall k | 0 <= k < |c.items|
      ensures Plain(FromConst(c.items[k]))
    {
      ItemThere(c, w, k);
      PathsAgree(c.items[k], w);
    }
  }

  lemma ItemThere(c: Const, w: Widths, k: nat)
    requires c.Group? && k < |c.items| && w.word <= 8 && ItemBytes(c, w, |c.items|).Some?
    ensures ConstBytes(c.items[k], w).Some?
  {
    if ConstBytes(c.items[k], w).None? {
      ItemMissing(c, w, k, |c.items|);
    }
  }

  lemma {:induction false} ItemsAgree(c: Const, w: Widths, n: nat)
    requires w.word <= 8 && c.Group? && ConstBytes(c, w).Some? && n <= |c.items|
    requires Plain(FromConst(c)) && |FromConst(c).elems| == |c.items|
    ensures ItemBytes(c, w, n).Some? && SizeUpto(FromConst(c), w, n) == |ItemBytes(c, w, n).value|
    ensures PackedUpto(FromConst(c), w, n) == ItemBytes(c, w, n).value
      <==> forall k :: 0 <= k < n ==> OptionsAreSome(c.items[k], w)
    decreases c, 0, n
  {
    hide ConstBytes, FromConst, Packed, Size, Plain, OptionsAreSome, ItemBytes;
    var v := FromConst(c);
    GroupOpen(c, w);
    if n == 0 {
      NoItems(c, w);
    } else {
      var k := n - 1;
      ItemThere(c, w, k);
      ItemLast(c, w, n);
      LiftedItem(c, k);
      ItemsAgree(c, w, k);
      PathsAgree(c.items[k], w);
      ConcatEq(PackedUpto(v, w, k), Packed(v.elems[k], w), ItemBytes(c, w, k).value, ConstBytes(c.items[k], w).value);
    }
  }

  lemma NoItems(c: Const, w: Widths)
    requires w.word <= 8 && c.Group?
    ensures ItemBytes(c, w, 0) == Some([]) && FromConst(c).Boxed?
  {}

  lemma LiftedItem(c: Const, k: nat)
    requires c.Group? && k < |c.items|
    ensures FromConst(c).Boxed? && |FromConst(c).elems| == |c.items| && FromConst(c).elems[k] == FromConst(c.items[k])
  {}

  lemma ItemLast(c: Const, w: Widths, n: nat)
    requires w.word <= 8 && c.Group? && ConstBytes(c, w).Some? && 0 < n <= |c.items| && ConstBytes(c.items[n - 1], w).Some?
    ensures ItemBytes(c, w, n - 1).Some? ==>
      ItemBytes(c, w, n) == Some(ItemBytes(c, w, n - 1).value + ConstBytes(c.items[n - 1], w).value)
  {}

  lemma LiftedNoFlat(c: Const)
    ensures NoFlat(FromConst(c))
  {}

  lemma LeafLifts(c: Const, w: Widths)
    requires w.word <= 8 && !c.Group?
    ensures Holds(FromConst(c), c) && Canonical.Canon(FromConst(c), w) == Canonical.Atom(FromConst(c))
    ensures Canonical.Peak(FromConst(c), w) == Canonical.Held(FromConst(c), w) == 0
  {
    LiftsExactly(c, FromConst(c));
  }

  lemma LeafStands(mem: seq<byte>, v: Value, now: Value, lo: nat)
    requires Stands(mem, Canonical.Atom(v), now, lo)
    ensures now == v
  {}

  /** Lift a constant and canonicalise it. What is no group comes out as it was lifted; a group comes to what
      canonicalising makes of it, or there was no room; a group with pool bytes of addressable length whose options
      are all `Some` ends up as a flat body of exactly those bytes. */
  method LiftConstant(a: Arena, c: Const, w: Widths) returns (r: Outcome<Value>)
    requires a.Valid() && w.word <= 8
    modifies a`top, a`low, a.buffer
    ensures a.Valid() && a.top <= old(a.top)
    ensures forall k :: old(a.top) <= k < a.buffer.Length ==> a.buffer[k] == old(a.buffer[k])
    ensures !c.Group? ==> r.Done? && Holds(r.value, c) && a.top == old(a.top)
    ensures r.AllocError? <==> old(a.top) - a.bottom < Canonical.Peak(FromConst(c), w)
    ensures r.Done? ==> Stands(a.buffer[..], Canonical.Canon(FromConst(c), w), r.value, a.top)
    ensures c.Group? && ConstBytes(c, w).Some? && |ConstBytes(c, w).value| <= MAX_BODY && r.Done? ==>
      && r.value.Flat? && r.value.body.len == |ConstBytes(c, w).value| == old(a.top) - a.top
      && (OptionsAreSome(c, w) <==> a.buffer[a.top..old(a.top)] == ConstBytes(c, w).value)
  {
    LiftedNoFlat(c);
    if ConstBytes(c, w).Some? {
      PathsAgree(c, w);
    }
    if !c.Group? {
      LeafLifts(c, w);
    }
    hide ConstBytes, OptionsAreSome, NoFlat, Plain, Packed, Size, FromConst, Holds, Canonical.Canon, Canonical.Peak, Canonical.Held, Stands;
    r := Canonicalise(a, FromConst(c), w);
    if !c.Group? {
      assert r.value == FromConst(c) by {
        LeafStands(a.buffer[..], FromConst(c), r.value, a.top);
      }
    }
    assert a.buffer[..][a.top..old(a.top)] == a.buffer[a.top..old(a.top)];
  }
}
