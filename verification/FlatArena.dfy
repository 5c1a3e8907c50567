/** Flat bodies in the arena: the top head allocates downward, bodies are packed in place, and
    canonicalisation packs a nested value bottom-up, reclaiming the dead bodies beneath each node. */
module FlatArena {
  import opened Options
  import opened Scalars
  import opened FlatValue
  import opened Canonical

  // ----- what one pack writes -----

  /** The length a value contributes as a field; None when it cannot be a field of a flat body. */
  function FieldSize(v: Value, w: Widths): Option<nat> {
    if v.OpaqueRef? then Some(w.addr)
    else if IsScalar(v) then Some(ScalarSize(v, w))
    else if v.Flat? then Some(v.body.len)
    else None
  }

  function FieldSizes(values: seq<Value>, w: Widths, n: nat): Option<nat>
    requires n <= |values|
  {
    if n == 0 then Some(0)
    else
      var before, last := FieldSizes(values, w, n - 1), FieldSize(values[n - 1], w);
      if before.None? || last.None? then None else Some(before.value + last.value)
  }

  predicate Resolves(v: Value, lo: nat, hi: nat) {
    v.Flat? && v.body.len > 0 ==> lo <= v.body.start && v.body.start + v.body.len <= hi
  }

  predicate AllResolve(values: seq<Value>, lo: nat, hi: nat) {
    forall i {:trigger values[i]} :: 0 <= i < |values| ==> Resolves(values[i], lo, hi)
  }

  /** The bytes a value contributes; None when they are refused. */
  function FieldBytes(mem: seq<byte>, v: Value, w: Widths): (r: Option<seq<byte>>)
    requires FieldSize(v, w).Some? && Resolves(v, 0, |mem|)
    ensures r.Some? ==> |r.value| == FieldSize(v, w).value
  {
    if v.OpaqueRef? then if OpaqueFits(v.index, w) then Some(LeBytes(v.index, w.addr)) else None
    else if IsScalar(v) then
      if (v.Int? || v.Fixed?) && w.word > 8 then None else Some(PlainBytes(v, w))
    else if v.body.len == 0 then Some([])
    else Some(mem[v.body.start..v.body.start + v.body.len])
  }

  function PlainBytes(v: Value, w: Widths): (b: seq<byte>)
    requires IsScalar(v) && (v.Int? || v.Fixed? ==> w.word <= 8)
    ensures |b| == ScalarSize(v, w)
  {
    match v
    case Unit => []
    case Bool(b) => [if b then 1 else 0]
    case Byte(x) => [x]
    case Int(i) => IntBytes(i, w.word)
    case Fixed(i) => IntBytes(i, w.word)
  }

  function AllBytes(mem: seq<byte>, values: seq<Value>, w: Widths, n: nat): (r: Option<seq<byte>>)
    requires n <= |values| && FieldSizes(values, w, n).Some? && AllResolve(values, 0, |mem|)
    ensures r.Some? ==> |r.value| == FieldSizes(values, w, n).value
  {
    if n == 0 then Some([])
    else
      var before, last := AllBytes(mem, values, w, n - 1), FieldBytes(mem, values[n - 1], w);
      if before.None? || last.None? then None else Some(before.value + last.value)
  }

  lemma {:induction false} SizesThere(values: seq<Value>, w: Widths, k: nat, n: nat)
    requires k <= n <= |values| && FieldSizes(values, w, n).Some?
    ensures FieldSizes(values, w, k).Some? && FieldSizes(values, w, k).value <= FieldSizes(values, w, n).value
    ensures k < n ==> FieldSize(values[k], w).Some?
    ensures k < n ==> FieldSizes(values, w, k).value + FieldSize(values[k], w).value <= FieldSizes(values, w, n).value
    decreases n
  {
    if k < n {
      SizesThere(values, w, k, n - 1);
    }
  }

  lemma {:induction false} BytesMissing(mem: seq<byte>, values: seq<Value>, w: Widths, k: nat, n: nat)
    requires k < n <= |values| && FieldSizes(values, w, n).Some? && AllResolve(values, 0, |mem|)
    requires FieldSize(values[k], w).Some? && FieldBytes(mem, values[k], w).None?
    ensures AllBytes(mem, values, w, n).None?
    decreases n
  {
    if k < n - 1 {
      SizesThere(values, w, n - 1, n);
      BytesMissing(mem, values, w, k, n - 1);
    }
  }

  // ----- the arena -----

  datatype Outcome<+T> = Done(value: T) | AllocError

  class Arena {
    const buffer: array<byte>
    var bottom: nat
    var top: nat
    /** The lowest the top head has been. */
    var low: nat

    ghost predicate Valid()
      reads this
    {
      bottom <= low <= top <= buffer.Length
    }

    constructor (capacity: nat)
      ensures Valid() && fresh(buffer) && buffer.Length == capacity && bottom == 0 && top == low == capacity
    {
      buffer := new byte[capacity];
      bottom, top, low := 0, capacity, capacity;
    }

    /** Take `n` bytes from the top end; one-byte alignment, no header. */
    method AllocTop(n: nat) returns (r: Outcome<nat>)
      requires Valid()
      modifies this`top, this`low
      ensures Valid()
      ensures r.AllocError? <==> old(top) - bottom < n
      ensures r.AllocError? ==> top == old(top) && low == old(low)
      ensures r.Done? ==> r.value == top == old(top) - n && low == if old(low) < top then old(low) else top
    {
      if top - bottom < n {
        return AllocError;
      }
      top := top - n;
      if top < low {
        low := top;
      }
      r := Done(top);
    }

    /** Release everything taken from the top end since it was at `mark`. */
    method RewindTop(mark: nat)
      requires Valid() && mark <= buffer.Length
      modifies this`top
      ensures Valid() && top == if mark < old(top) then old(top) else mark
    {
      top := if mark < top then top else mark;
    }

    method Write(at: nat, bytes: seq<byte>)
      requires at + |bytes| <= buffer.Length
      modifies buffer
      ensures buffer[at..at + |bytes|] == bytes
      ensures forall k :: 0 <= k < buffer.Length && !(at <= k < at + |bytes|) ==> buffer[k] == old(buffer[k])
    {
      for i := 0 to |bytes|
        invariant forall k :: 0 <= k < i ==> buffer[at + k] == bytes[k]
        invariant forall k :: 0 <= k < buffer.Length && !(at <= k < at + i) ==> buffer[k] == old(buffer[k])
      {
        buffer[at + i] := bytes[i];
      }
    }

    /** Move `len` bytes up from `src` to `dst`, which may overlap. */
    method MoveUp(src: nat, dst: nat, len: nat)
      requires src <= dst && dst + len <= buffer.Length
      modifies buffer
      ensures buffer[dst..dst + len] == old(buffer[src..src + len])
      ensures forall k :: dst + len <= k < buffer.Length ==> buffer[k] == old(buffer[k])
    {
      ghost var mem := buffer[..];
      var i := len;
      while i > 0
        invariant 0 <= i <= len
        invariant forall k :: dst + i <= k < dst + len ==> buffer[k] == mem[k - (dst - src)]
        invariant forall k :: src <= k < dst + i ==> buffer[k] == mem[k]
        invariant forall k :: dst + len <= k < buffer.Length ==> buffer[k] == mem[k]
      {
        i := i - 1;
        buffer[dst + i] := buffer[src + i];
      }
      assert buffer[dst..dst + len] == mem[src..src + len];
    }

    /** Pack the values, padded to `minBytes`, into one new body. None when a value cannot be a field,
        the body is too large to address, or a field is refused. */
    method PackFlat(values: seq<Value>, minBytes: nat, w: Widths) returns (r: Outcome<Option<Body>>)
      requires Valid() && AllResolve(values, top, buffer.Length)
      modifies this`top, this`low, buffer
      ensures Valid() && forall k :: old(top) <= k < buffer.Length ==> buffer[k] == old(buffer[k])
      ensures var sizes := FieldSizes(values, w, |values|);
        if sizes.None? || Max(sizes.value, minBytes) > MAX_BODY
        then r == Done(None) && top == old(top) && low == old(low)
        else
          var size := Max(sizes.value, minBytes);
          if size == 0 then r == Done(Some(Body(0, 0))) && top == old(top) && low == old(low)
          else if old(top) - bottom < size then r.AllocError? && top == old(top) && low == old(low)
          else
            && top == old(top) - size && low == (if old(low) < top then old(low) else top)
            && var bytes := AllBytes(old(buffer[..]), values, w, |values|);
              if bytes.None? then r == Done(None)
              else r == Done(Some(Body(top, size))) && buffer[top..top + size] == bytes.value + Zeros(size - |bytes.value|)
    {
      var size := 0;
      for i := 0 to |values|
        invariant FieldSizes(values, w, i) == Some(size)
      {
        var n := FieldSize(values[i], w);
        if n.None? {
          SizeMissing(values, w, i, |values|);
          return Done(None);
        }
        size := size + n.value;
      }
      ghost var packed := size;
      size := Max(size, minBytes);
      if size > MAX_BODY {
        return Done(None);
      }
      if size == 0 {
        return Done(Some(Body(0, 0)));
      }
      var start := AllocTop(size);
      if start.AllocError? {
        return AllocError;
      }
      var filled := Fill(values, w, top, size);
      r := Done(if filled then Some(Body(top, size)) else None);
    }

    /** Write every field at its running offset, then zeros; false as soon as a field is refused. */
    method Fill(values: seq<Value>, w: Widths, start: nat, size: nat) returns (ok: bool)
      requires start + size <= buffer.Length
      requires FieldSizes(values, w, |values|).Some? && FieldSizes(values, w, |values|).value <= size
      requires AllResolve(values, start + size, buffer.Length)
      modifies buffer
      ensures forall k :: 0 <= k < buffer.Length && !(start <= k < start + size) ==> buffer[k] == old(buffer[k])
      ensures var bytes := AllBytes(old(buffer[..]), values, w, |values|);
        ok == bytes.Some? && (ok ==> buffer[start..start + size] == bytes.value + Zeros(size - |bytes.value|))
    {
      hide FieldBytes, FieldSize;
      ghost var mem := buffer[..];
      var off := 0;
      for i := 0 to |values|
        invariant FieldSizes(values, w, i) == Some(off) && off <= size
        invariant AllBytes(mem, values, w, i).Some? && buffer[start..start + off] == AllBytes(mem, values, w, i).value
        invariant forall k :: 0 <= k < buffer.Length && !(start <= k < start + size) ==> buffer[k] == mem[k]
      {
        SizesThere(values, w, i, |values|);
        var v := values[i];
        FieldKept(mem, buffer[..], v, w, start + size);
        var bytes := FieldBytes(buffer[..], v, w);
        if bytes.None? {
          BytesMissing(mem, values, w, i, |values|);
          return false;
        }
        Extend(start, off, bytes.value, AllBytes(mem, values, w, i).value);
        off := off + |bytes.value|;
      }
      Extend(start, off, Zeros(size - off), AllBytes(mem, values, w, |values|).value);
      ok := true;
    }

    /** Write behind what is written already. */
    method Extend(start: nat, off: nat, bytes: seq<byte>, ghost before: seq<byte>)
      requires start + off + |bytes| <= buffer.Length && buffer[start..start + off] == before
      modifies buffer
      ensures buffer[start..start + off + |bytes|] == before + bytes
      ensures forall k :: 0 <= k < buffer.Length && !(start + off <= k < start + off + |bytes|) ==> buffer[k] == old(buffer[k])
    {
      Write(start + off, bytes);
      assert buffer[start..start + off + |bytes|] == buffer[start..start + off] + buffer[start + off..start + off + |bytes|];
      assert buffer[start..start + off] == before;
    }

    /** Move the newest body up to `mark` and release everything else taken since. */
    method CompactAfter(body: Body, mark: nat, usedAtMark: nat) returns (r: Body)
      requires Valid() && top <= mark <= buffer.Length && usedAtMark == buffer.Length - mark
      requires body.len > 0 ==> body.start == top && body.start + body.len <= mark
      modifies this`top, this`low, buffer
      ensures Valid() && low == old(low) && r.len == body.len
      ensures forall k :: mark <= k < buffer.Length ==> buffer[k] == old(buffer[k])
      ensures body.len == 0 ==> r == body && top == old(top)
      ensures body.len > 0 ==>
        r.start == top == mark - body.len && buffer[top..mark] == old(buffer[body.start..body.start + body.len])
    {
      var len := body.len;
      var since := (buffer.Length - top) - usedAtMark;
      if len == 0 || since <= len {
        return body;
      }
      var src := body.start;
      RewindTop(mark);
      var start := AllocTop(len);
      MoveUp(src, start.value, len);
      r := Body(start.value, len);
    }
  }

  lemma {:induction false} SizeMissing(values: seq<Value>, w: Widths, k: nat, n: nat)
    requires k < n <= |values| && FieldSize(values[k], w).None?
    ensures FieldSizes(values, w, n).None?
    decreases n
  {
    if k < n - 1 {
      SizeMissing(values, w, k, n - 1);
    }
  }

  lemma FieldKept(mem: seq<byte>, now: seq<byte>, v: Value, w: Widths, lo: nat)
    requires |mem| == |now| && Resolves(v, lo, |mem|) && FieldSize(v, w).Some?
    requires forall k :: lo <= k < |mem| ==> now[k] == mem[k]
    ensures Resolves(v, 0, |mem|) && FieldBytes(mem, v, w) == FieldBytes(now, v, w)
  {
    if v.Flat? && v.body.len > 0 {
      assert mem[v.body.start..v.body.start + v.body.len] == now[v.body.start..v.body.start + v.body.len];
    }
  }

  // ----- canonicalisation -----

  /** No flat body anywhere in the value. */
  predicate NoFlat(v: Value) {
    !v.Flat? && (v.Boxed? ==> forall i :: 0 <= i < |v.elems| ==> NoFlat(v.elems[i]))
  }

  /** The values a composite packs: an enum's discriminant leads. */
  function PackedValues(shape: Shape, elems: seq<Value>): seq<Value> {
    if shape.EnumShape? then [Int(Discriminant(shape))] + elems else elems
  }

  /** `now` is what a value came to, every body it refers to live at or above `lo`. */
  predicate Stands(mem: seq<byte>, k: Form, now: Value, lo: nat)
    decreases k
  {
    match k
    case Atom(v) => now == v && !now.Flat?
    case Bytes(kind, bytes) =>
      && now.Flat? && now.kind == kind && now.body.len == |bytes|
      && (now.body.len > 0 ==>
            && lo <= now.body.start && now.body.start + now.body.len <= |mem|
            && mem[now.body.start..now.body.start + now.body.len] == bytes)
    case Node(shape, ks) =>
      && now.Boxed? && now.shape == shape && |now.elems| == |ks|
      && forall i :: 0 <= i < |ks| ==> Stands(mem, ks[i], now.elems[i], lo)
  }

  predicate AllStand(mem: seq<byte>, ks: seq<Form>, now: seq<Value>, lo: nat) {
    |now| == |ks| && forall i :: 0 <= i < |ks| ==> Stands(mem, ks[i], now[i], lo)
  }

  /** Writing below leaves what stands. */
  lemma {:induction false} StandsKept(mem: seq<byte>, later: seq<byte>, k: Form, now: Value, lo: nat, lower: nat)
    requires Stands(mem, k, now, lo) && lower <= lo && |later| == |mem| && forall i :: lo <= i < |mem| ==> later[i] == mem[i]
    ensures Stands(later, k, now, lower)
    decreases k
  {
    match k
    case Atom(_) =>
    case Bytes(_, bytes) =>
      if now.body.len > 0 {
        assert later[now.body.start..now.body.start + now.body.len] == mem[now.body.start..now.body.start + now.body.len];
      }
    case Node(_, ks) =>
      forall i | 0 <= i < |ks|
        ensures Stands(later, ks[i], now.elems[i], lower)
      {
        StandsKept(mem, later, ks[i], now.elems[i], lo, lower);
      }
  }

  lemma AllStandKept(mem: seq<byte>, later: seq<byte>, ks: seq<Form>, now: seq<Value>, lo: nat, lower: nat)
    requires AllStand(mem, ks, now, lo) && lower <= lo && |later| == |mem| && forall i :: lo <= i < |mem| ==> later[i] == mem[i]
    ensures AllStand(later, ks, now, lower)
  {
    forall i | 0 <= i < |ks|
      ensures Stands(later, ks[i], now[i], lower)
    {
      StandsKept(mem, later, ks[i], now[i], lo, lower);
    }
  }

  /** What stands is a field of the extent and content it came to. */
  lemma FieldStands(mem: seq<byte>, k: Form, now: Value, w: Widths, lo: nat)
    requires w.word <= 8 && Stands(mem, k, now, lo)
    ensures FieldSize(now, w) == Extent(k, w) && Resolves(now, lo, |mem|)
    ensures Extent(k, w).Some? ==> FieldBytes(mem, now, w) == Content(k, w)
  {}

  lemma {:induction false} FieldsStand(mem: seq<byte>, ks: seq<Form>, now: seq<Value>, w: Widths, lo: nat, n: nat)
    requires w.word <= 8 && AllStand(mem, ks, now, lo) && n <= |ks| && AreFields(ks, w)
    ensures AllResolve(now, 0, |mem|) && FieldSizes(now, w, n) == Some(ExtentUpto(ks, w, n))
    ensures AreTaken(ks, w) ==> AllBytes(mem, now, w, n) == Some(ContentUpto(ks, w, n))
    decreases n
  {
    AllFields(mem, ks, now, w, lo);
    hide Stands, FieldSize, FieldBytes, Extent, Content;
    if n > 0 {
      FieldsStand(mem, ks, now, w, lo, n - 1);
      assert Extent(ks[n - 1], w).Some?;
    }
  }

  lemma AllFields(mem: seq<byte>, ks: seq<Form>, now: seq<Value>, w: Widths, lo: nat)
    requires w.word <= 8 && AllStand(mem, ks, now, lo)
    ensures AllResolve(now, lo, |mem|) && AllResolve(now, 0, |mem|)
    ensures forall i :: 0 <= i < |ks| ==> FieldSize(now[i], w) == Extent(ks[i], w)
    ensures forall i :: 0 <= i < |ks| && Extent(ks[i], w).Some? ==> FieldBytes(mem, now[i], w) == Content(ks[i], w)
  {
    forall i | 0 <= i < |ks|
      ensures FieldSize(now[i], w) == Extent(ks[i], w) && Resolves(now[i], lo, |mem|)
      ensures Extent(ks[i], w).Some? ==> FieldBytes(mem, now[i], w) == Content(ks[i], w)
    {
      FieldStands(mem, ks[i], now[i], w, lo);
    }
  }

  lemma {:induction false} LeadingInt(mem: seq<byte>, x: int64, now: seq<Value>, w: Widths, n: nat)
    requires w.word <= 8 && n <= |now| && AllResolve(now, 0, |mem|) && FieldSizes(now, w, n).Some?
    ensures AllResolve([Int(x)] + now, 0, |mem|)
    ensures FieldSizes([Int(x)] + now, w, n + 1) == Some(w.word + FieldSizes(now, w, n).value)
    ensures AllBytes(mem, now, w, n).Some? ==>
      AllBytes(mem, [Int(x)] + now, w, n + 1) == Some(IntBytes(x, w.word) + AllBytes(mem, now, w, n).value)
    decreases n
  {
    var values := [Int(x)] + now;
    assert forall i :: 0 < i < |values| ==> values[i] == now[i - 1];
    if n == 0 {
      assert FieldSizes(values, w, 0) == Some(0) && AllBytes(mem, values, w, 0) == Some([]);
      assert [] + IntBytes(x, w.word) == IntBytes(x, w.word) + [] == IntBytes(x, w.word);
    } else {
      SizesThere(now, w, n - 1, n);
      LeadingInt(mem, x, now, w, n - 1);
      assert values[n] == now[n - 1];
      if AllBytes(mem, now, w, n).Some? {
        var a, b := AllBytes(mem, now, w, n - 1).value, FieldBytes(mem, now[n - 1], w).value;
        assert IntBytes(x, w.word) + (a + b) == (IntBytes(x, w.word) + a) + b;
      }
    }
  }

  /** The values of a node over what its elements came to: their sizes are the node's, or there is none; their
      bytes are the node's, or they are refused. */
  lemma NodeBytes(mem: seq<byte>, shape: Shape, ks: seq<Form>, now: seq<Value>, w: Widths, lo: nat)
    requires w.word <= 8 && AllStand(mem, ks, now, lo)
    ensures var values := PackedValues(shape, now);
      && AllResolve(values, lo, |mem|) && AllResolve(values, 0, |mem|)
      && FieldSizes(values, w, |values|) == (if AreFields(ks, w) then Some(LeadSize(shape, w) + ExtentUpto(ks, w, |ks|)) else None)
      && (AreFields(ks, w) ==>
            AllBytes(mem, values, w, |values|) ==
              if AreTaken(ks, w) then Some(Lead(shape, w) + ContentUpto(ks, w, |ks|)) else None)
  {
    hide *;
    AllFields(mem, ks, now, w, lo);
    LeadResolves(shape, now, lo, |mem|);
    LeadResolves(shape, now, 0, |mem|);
    if AreFields(ks, w) {
      FieldsStand(mem, ks, now, w, lo, |ks|);
      SameLength(mem, ks, now, lo);
      NodeTaken(mem, shape, now, w);
      if !AreTaken(ks, w) {
        RefusedNode(mem, shape, ks, now, w, lo);
      }
    } else {
      NoNode(mem, shape, ks, now, w, lo);
    }
  }

  lemma SameLength(mem: seq<byte>, ks: seq<Form>, now: seq<Value>, lo: nat)
    requires AllStand(mem, ks, now, lo)
    ensures |now| == |ks|
  {}

  lemma RefusedNode(mem: seq<byte>, shape: Shape, ks: seq<Form>, now: seq<Value>, w: Widths, lo: nat)
    requires w.word <= 8 && AllStand(mem, ks, now, lo) && AreFields(ks, w) && !AreTaken(ks, w)
    requires AllResolve(now, 0, |mem|) && AllResolve(PackedValues(shape, now), 0, |mem|)
    requires var values := PackedValues(shape, now); FieldSizes(values, w, |values|).Some?
    ensures var values := PackedValues(shape, now); AllBytes(mem, values, w, |values|).None?
  {
    AllFields(mem, ks, now, w, lo);
    hide Stands, FieldBytes, FieldSize, Extent, Content, FieldSizes, AllBytes, PackedValues;
    var k :| 0 <= k < |ks| && Content(ks[k], w).None?;
    NodeRefused(mem, shape, now, w, k);
  }

  lemma NoNode(mem: seq<byte>, shape: Shape, ks: seq<Form>, now: seq<Value>, w: Widths, lo: nat)
    requires w.word <= 8 && AllStand(mem, ks, now, lo) && !AreFields(ks, w)
    ensures var values := PackedValues(shape, now); FieldSizes(values, w, |values|).None?
  {
    AllFields(mem, ks, now, w, lo);
    hide Stands, FieldBytes, FieldSize, Extent, Content, FieldSizes, PackedValues;
    var k :| 0 <= k < |ks| && Extent(ks[k], w).None?;
    NodeNone(shape, now, w, k);
  }

  /** An enum's discriminant in front of its fields. */
  lemma NodeTaken(mem: seq<byte>, shape: Shape, now: seq<Value>, w: Widths)
    requires w.word <= 8 && AllResolve(now, 0, |mem|) && AllResolve(PackedValues(shape, now), 0, |mem|)
    requires FieldSizes(now, w, |now|).Some?
    ensures var values := PackedValues(shape, now);
      && FieldSizes(values, w, |values|) == Some(LeadSize(shape, w) + FieldSizes(now, w, |now|).value)
      && (AllBytes(mem, now, w, |now|).Some? ==>
            AllBytes(mem, values, w, |values|) == Some(Lead(shape, w) + AllBytes(mem, now, w, |now|).value))
  {
    if shape.EnumShape? {
      LeadingInt(mem, Discriminant(shape), now, w, |now|);
    } else if AllBytes(mem, now, w, |now|).Some? {
      var b := AllBytes(mem, now, w, |now|).value;
      assert [] + b == b;
    }
  }

  lemma NodeRefused(mem: seq<byte>, shape: Shape, now: seq<Value>, w: Widths, k: nat)
    requires k < |now| && AllResolve(now, 0, |mem|) && AllResolve(PackedValues(shape, now), 0, |mem|)
    requires var values := PackedValues(shape, now); FieldSizes(values, w, |values|).Some?
    requires FieldSize(now[k], w).Some? && FieldBytes(mem, now[k], w).None?
    ensures var values := PackedValues(shape, now); AllBytes(mem, values, w, |values|).None?
  {
    var values, at := PackedValues(shape, now), if shape.EnumShape? then k + 1 else k;
    assert values[at] == now[k];
    hide FieldSize, FieldBytes;
    BytesMissing(mem, values, w, at, |values|);
  }

  lemma NodeNone(shape: Shape, now: seq<Value>, w: Widths, k: nat)
    requires k < |now| && FieldSize(now[k], w).None?
    ensures var values := PackedValues(shape, now); FieldSizes(values, w, |values|).None?
  {
    var values, at := PackedValues(shape, now), if shape.EnumShape? then k + 1 else k;
    assert values[at] == now[k];
    hide FieldSize;
    SizeMissing(values, w, at, |values|);
  }

  lemma LeadResolves(shape: Shape, now: seq<Value>, lo: nat, hi: nat)
    requires AllResolve(now, lo, hi)
    ensures AllResolve(PackedValues(shape, now), lo, hi)
  {
    var values := PackedValues(shape, now);
    forall i {:trigger values[i]} | 0 <= i < |values|
      ensures Resolves(values[i], lo, hi)
    {
      if shape.EnumShape? && i > 0 {
        assert values[i] == now[i - 1];
      }
    }
  }

  /** A plain node after packing, given where the top head was before. */
  ghost predicate PackedNode(v: Value, now: Value, w: Widths, before: nat, top: nat, mem: seq<byte>)
    requires w.word <= 8 && Plain(v)
  {
    if IsScalar(v) then now == v && top == before
    else
      && top + Size(v, w) == before <= |mem|
      && now.Flat? && now.kind == KindOf(v.shape) && now.body.len == Size(v, w)
      && (now.body.len > 0 ==> now.body.start == top)
      && mem[top..before] == Packed(v, w)
  }

  function Lowest(a: int, b: int): int {
    if a < b then a else b
  }

  /** The built-in text promotion does not concern these values; packing itself goes bottom-up. */
  method Canonicalise(a: Arena, v: Value, w: Widths) returns (r: Outcome<Value>)
    requires a.Valid() && NoFlat(v) && w.word <= 8
    modifies a`top, a`low, a.buffer
    ensures a.Valid() && a.top <= old(a.top) && forall k :: old(a.top) <= k < a.buffer.Length ==> a.buffer[k] == old(a.buffer[k])
    ensures r.AllocError? <==> old(a.top) - a.bottom < Peak(v, w)
    ensures r.Done? ==>
      && Stands(a.buffer[..], Canon(v, w), r.value, a.top)
      && a.top == old(a.top) - Held(v, w) && a.low == Lowest(old(a.low), old(a.top) - Peak(v, w))
    ensures Plain(v) && Size(v, w) <= MAX_BODY ==>
      && (r.AllocError? ==> old(a.top) - a.bottom < 2 * Size(v, w))
      && (r.Done? ==> PackedNode(v, r.value, w, old(a.top), a.top, a.buffer[..]) && a.low >= Lowest(old(a.low), old(a.top) - 2 * Size(v, w)))
    decreases v, 1
  {
    hide Packed, Size, Plain, NoFlat, Canon, Held, Peak, HeldUpto, PeakUpto, Room, Stands, PackedNode;
    if !v.Boxed? {
      AtomStands(a.buffer[..], v, w, a.top);
      return Done(v);
    }
    var mark := a.top;
    var usedAtMark := a.buffer.Length - a.top;
    var packed := PackNode(a, v, w);
    if Plain(v) && Size(v, w) <= MAX_BODY {
      PlainCosts(v, w);
    }
    if packed.AllocError? {
      return AllocError;
    }
    ghost var mem, lo := a.buffer[..], a.top;
    if !packed.value.Flat? {
      NodeKept(mem, v, packed.value, w, a.top);
      return packed;
    }
    BodyThere(mem, v, packed.value, w, a.top);
    var body := a.CompactAfter(packed.value.body, mark, usedAtMark);
    r := Done(Flat(packed.value.kind, body));
    BodyMoved(mem, a.buffer[..], v, packed.value, r.value, w, lo, old(a.top), a.top);
  }

  lemma AtomStands(mem: seq<byte>, v: Value, w: Widths, top: nat)
    requires w.word <= 8 && NoFlat(v) && !v.Boxed?
    ensures Stands(mem, Canon(v, w), v, top) && Held(v, w) == 0 && Peak(v, w) == 0
    ensures Plain(v) ==> PackedNode(v, v, w, top, top, mem)
  {}

  /** A composite that stayed boxed keeps all that was taken. */
  lemma NodeKept(mem: seq<byte>, v: Value, now: Value, w: Widths, top: nat)
    requires w.word <= 8 && v.Boxed? && Stands(mem, Canon(v, w), now, top) && !now.Flat?
    ensures Held(v, w) == HeldUpto(v, w, |v.elems|) + Room(v, w)
    ensures !(Plain(v) && Size(v, w) <= MAX_BODY)
  {
    CanonOpen(v, w);
    if Plain(v) && Size(v, w) <= MAX_BODY {
      PlainCanon(v, w);
    }
  }

  lemma BodyThere(mem: seq<byte>, v: Value, now: Value, w: Widths, top: nat)
    requires w.word <= 8 && v.Boxed? && Stands(mem, Canon(v, w), now, top) && now.Flat?
    ensures Canon(v, w).Bytes? && now.body.len == |Canon(v, w).bytes| == Held(v, w) == Room(v, w)
    ensures HeldUpto(v, w, |v.elems|) <= Room(v, w)
  {
    CanonOpen(v, w);
    BodyHeld(v, w);
  }

  /** A body moved up to the mark stands there. */
  lemma BodyMoved(mem: seq<byte>, later: seq<byte>, v: Value, now: Value, moved: Value, w: Widths, lo: nat, mark: nat, top: nat)
    requires w.word <= 8 && v.Boxed? && Stands(mem, Canon(v, w), now, lo) && now.Flat? && moved.Flat? && moved.kind == now.kind
    requires moved.body.len == now.body.len && |later| == |mem| && mark <= |mem| && top + now.body.len == mark
    requires now.body.len > 0 ==> moved.body.start == top && later[top..mark] == mem[now.body.start..now.body.start + now.body.len]
    ensures Stands(later, Canon(v, w), moved, top)
    ensures Plain(v) && Size(v, w) <= MAX_BODY ==> PackedNode(v, moved, w, mark, top, later)
  {
    CanonOpen(v, w);
    if Plain(v) && Size(v, w) <= MAX_BODY {
      PlainCanon(v, w);
      if moved.body.len == 0 {
        assert later[top..mark] == [] == Packed(v, w);
      }
    }
  }

  /** Pack the elements, then the node over them, without reclaiming. */
  method PackNode(a: Arena, v: Value, w: Widths) returns (r: Outcome<Value>)
    requires a.Valid() && NoFlat(v) && w.word <= 8 && v.Boxed?
    modifies a`top, a`low, a.buffer
    ensures a.Valid() && a.top <= old(a.top) && forall k :: old(a.top) <= k < a.buffer.Length ==> a.buffer[k] == old(a.buffer[k])
    ensures r.AllocError? <==> old(a.top) - a.bottom < Peak(v, w)
    ensures r.Done? ==>
      && Stands(a.buffer[..], Canon(v, w), r.value, a.top)
      && a.top == old(a.top) - HeldUpto(v, w, |v.elems|) - Room(v, w)
      && a.low == Lowest(old(a.low), old(a.top) - Peak(v, w))
      && (r.value.Flat? && r.value.body.len > 0 ==> r.value.body.start == a.top && a.top + r.value.body.len <= old(a.top))
    decreases v, 0
  {
    hide Stands, Canon, CanonAll, NoFlat, FieldSizes, AllBytes, Held, Peak, HeldUpto, PeakUpto, Room, PackedNode, Plain, Size;
    var elems: seq<Value> := [];
    ghost var ks := CanonAll(v, w);
    CanonOpen(v, w);
    NoFlatElems(v);
    NothingYet(v, w);
    for i := 0 to |v.elems|
      invariant |elems| == i && a.Valid() && a.top == old(a.top) - HeldUpto(v, w, i)
      invariant forall k :: old(a.top) <= k < a.buffer.Length ==> a.buffer[k] == old(a.buffer[k])
      invariant AllStand(a.buffer[..], ks[..i], elems, a.top)
      invariant a.low == Lowest(old(a.low), old(a.top) - PeakUpto(v, w, i)) && PeakUpto(v, w, i) <= old(a.top) - a.bottom
    {
      ghost var before, mem := a.top, a.buffer[..];
      PeakThere(v, w, i);
      var child := Canonicalise(a, v.elems[i], w);
      if child.AllocError? {
        return AllocError;
      }
      AllStandKept(mem, a.buffer[..], ks[..i], elems, before, a.top);
      OneMoreStands(a.buffer[..], ks, elems, child.value, i, a.top);
      elems := elems + [child.value];
    }
    assert ks[..|v.elems|] == ks;
    PeakOpen(v, w);
    r := PackOver(a, v, w, elems);
  }

  /** Pack the node over what its elements came to. */
  method PackOver(a: Arena, v: Value, w: Widths, elems: seq<Value>) returns (r: Outcome<Value>)
    requires a.Valid() && w.word <= 8 && v.Boxed? && AllStand(a.buffer[..], CanonAll(v, w), elems, a.top)
    modifies a`top, a`low, a.buffer
    ensures a.Valid() && forall k :: old(a.top) <= k < a.buffer.Length ==> a.buffer[k] == old(a.buffer[k])
    ensures r.AllocError? <==> old(a.top) - a.bottom < Room(v, w)
    ensures r.AllocError? ==> a.top == old(a.top)
    ensures r.Done? ==>
      && Stands(a.buffer[..], Canon(v, w), r.value, a.top)
      && a.top == old(a.top) - Room(v, w) && a.low == Lowest(old(a.low), a.top)
      && (r.value.Flat? && r.value.body.len > 0 ==> r.value.body.start == a.top && a.top + r.value.body.len == old(a.top))
  {
    hide Stands, Canon, CanonAll, FieldSizes, AllBytes, Extent, Content, ExtentUpto, ContentUpto, FieldSize, FieldBytes;
    ghost var ks, mem, before := CanonAll(v, w), a.buffer[..], a.top;
    var values := PackedValues(v.shape, elems);
    NodeBytes(mem, v.shape, ks, elems, w, a.top);
    var body := a.PackFlat(values, MinBytes(v.shape, w), w);
    if body.AllocError? {
      r := AllocError;
    } else if body.value.Some? {
      r := Done(Flat(KindOf(v.shape), body.value.value));
      BodyStands(a.buffer[..], v, ks, body.value.value, w, a.top);
    } else {
      var shape := if v.shape.EnumShape? then v.shape.(disc := Discriminant(v.shape)) else v.shape;
      r := Done(Boxed(shape, elems));
      AllStandKept(mem, a.buffer[..], ks, elems, before, a.top);
      NodeStands(a.buffer[..], v, ks, elems, w, a.top);
    }
  }

  lemma NothingYet(v: Value, w: Widths)
    requires w.word <= 8 && v.Boxed?
    ensures HeldUpto(v, w, 0) == 0 && PeakUpto(v, w, 0) == 0
  {}

  /** What one more element keeps and needs. */
  lemma PeakThere(v: Value, w: Widths, i: nat)
    requires w.word <= 8 && v.Boxed? && i < |v.elems|
    ensures HeldUpto(v, w, i + 1) == HeldUpto(v, w, i) + Held(v.elems[i], w)
    ensures PeakUpto(v, w, i + 1) == Max(PeakUpto(v, w, i), HeldUpto(v, w, i) + Peak(v.elems[i], w))
    ensures HeldUpto(v, w, i) + Peak(v.elems[i], w) <= Peak(v, w)
  {
    hide Held, Peak;
    PeakSteps(v, w, i, |v.elems|);
    PeakOpen(v, w);
  }

  lemma PeakOpen(v: Value, w: Widths)
    requires w.word <= 8 && v.Boxed?
    ensures Peak(v, w) == Max(PeakUpto(v, w, |v.elems|), HeldUpto(v, w, |v.elems|) + Room(v, w))
    ensures Room(v, w) == if TakesRoom(v.shape, CanonAll(v, w), w) then NodeSize(v.shape, CanonAll(v, w), w) else 0
  {}

  lemma OneMoreStands(mem: seq<byte>, ks: seq<Form>, elems: seq<Value>, now: Value, i: nat, lo: nat)
    requires i < |ks| && AllStand(mem, ks[..i], elems, lo) && Stands(mem, ks[i], now, lo)
    ensures AllStand(mem, ks[..i + 1], elems + [now], lo)
  {
    hide Stands;
  }

  lemma NoFlatElems(v: Value)
    requires v.Boxed? && NoFlat(v)
    ensures forall i :: 0 <= i < |v.elems| ==> NoFlat(v.elems[i])
  {}

  lemma BodyStands(mem: seq<byte>, v: Value, ks: seq<Form>, body: Body, w: Widths, top: nat)
    requires w.word <= 8 && v.Boxed? && ks == CanonAll(v, w) && TakesRoom(v.shape, ks, w)
    requires var size := NodeSize(v.shape, ks, w);
      if size == 0 then body == Body(0, 0)
      else
        && AreTaken(ks, w) && body == Body(top, size) && top + size <= |mem|
        && var bytes := Lead(v.shape, w) + ContentUpto(ks, w, |ks|);
          mem[top..top + size] == bytes + Zeros(size - |bytes|)
    ensures Stands(mem, Canon(v, w), Flat(KindOf(v.shape), body), top)
  {
    hide Content, Extent, Canon, CanonAll, NodeSize, ContentUpto, Lead, AreTaken, AreFields;
    CanonOpen(v, w);
  }

  lemma NodeStands(mem: seq<byte>, v: Value, ks: seq<Form>, elems: seq<Value>, w: Widths, top: nat)
    requires w.word <= 8 && v.Boxed? && ks == CanonAll(v, w) && !Packs(v.shape, ks, w) && AllStand(mem, ks, elems, top)
    ensures Stands(mem, Canon(v, w), Boxed(KeptShape(v.shape), elems), top)
  {
    hide Content, Extent;
    CanonOpen(v, w);
  }
}
