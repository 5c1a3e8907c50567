/** The instruction set as the confinement analysis reads it: every opcode, its operand-stack
    effect, its escape route, and the structural rules a verified chunk obeys.

    Opcodes that agree in both route and effect are grouped under one constructor that carries
    the particular operation; nothing in the analysis or the machine distinguishes them. */
module Bytecode {
  import opened Options

  /** A flat read of a scalar copies a word; a flat read of a nested composite is a view; the
      boxed form carries no shape. */
  datatype FieldShape = FlatScalar | FlatNested | BoxedField

  /** `Int` and `Byte` elements answer with the bounds outcome, other scalars with one value. */
  datatype ElemShape = FlatWord | FlatOther | NestedElem | BoxedElem

  datatype Part = StructPart | TuplePart | EnumPart

  /** How a composite is built: packed, as flat structs and enums are; packed if every element packs
      and boxed otherwise, as flat tuples and arrays are, which the values decide; or boxed. */
  datatype CompositeForm = FlatForm(bytes: nat) | LooseForm(bytes: nat) | BoxedForm(meta: nat)

  datatype TrapKind = IndexOutOfBounds | HostError | OtherTrap(code: nat)

  datatype UnaryOp =
    Neg | Not | IntToFloat | FloatToInt | WordToByte | ByteToWord | WordToFixed | FixedToWord | Len

  datatype BinaryOp =
    | Add | Sub | Mul | CmpEq | CmpNe | CmpLt | CmpGt | CmpLe | CmpGe
    | BitAnd | BitOr | BitXor | Shl | Shr | FixedMul

  /** Two operands in; low, high and flag out. */
  datatype OutcomeOp =
    Div | Mod | FixedDiv | CheckedAdd | CheckedSub | CheckedMod | CheckedMul | CheckedDiv

  /** `keeps`: may a data slot stored to keep the value itself? It does where it is private and the
      module's layout has no place for a composite body in it; other slots are given a copy. */
  datatype Op =
    | Const(index: nat)
    | PushImmediate(code: nat)
    | GetLocal(slot: nat)
    | SetLocal(slot: nat)
    | GetData(data: nat)
    | SetData(data: nat, keeps: bool)
    | GetDataIndexed(base: nat, len: nat)
    | SetDataIndexed(base: nat, len: nat, keeps: bool)
    | BoundsCheck(bound: nat)
    | Unary(unary: UnaryOp)
    | Binary(binary: BinaryOp)
    | Outcome(outcome: OutcomeOp)
    | CheckedNeg
    | If(target: nat)
    | Else(target: nat)
    | EndIf
    | Loop(target: nat)
    | EndLoop(target: nat)
    | Break(target: nat)
    | BreakIf(target: nat)
    | Stream
    | Reset
    | Call(callee: nat, argc: nat)
    | Return
    | Yield
    | Dup
    | NewComposite(form: CompositeForm, count: nat)
    | GetPart(part: Part, shape: FieldShape)
    | GetIndex(elem: ElemShape)
    | IsEnum
    | IsStruct
    | Trap(kind: TrapKind)
    | PopN(n: nat)
    | CallNative(verified: bool, native: nat, argByte: nat)

  datatype Chunk = Chunk(ops: seq<Op>, localCount: nat, paramCount: nat)

  // ----- operand-stack effect -----

  /** `(required, net)`, the verifier's depth table. */
  function DepthEffect(op: Op): (int, int) {
    match op
    case Const(_) | GetLocal(_) | GetData(_) | PushImmediate(_) => (0, 1)
    case Dup => (1, 1)
    case SetLocal(_) | SetData(_, _) => (1, -1)
    case GetDataIndexed(_, _) => (2, 5)
    case SetDataIndexed(_, _, _) => (2, 4)
    case BoundsCheck(_) => (1, 5)
    case GetIndex(e) => if e == FlatOther then (2, -1) else (2, 5)
    case Binary(_) => (2, -1)
    case Unary(_) | GetPart(_, _) | Yield => (1, 0)
    case IsEnum | IsStruct => (1, 1)
    case Call(_, n) => (n, 1 - n)
    case CallNative(_, _, b) =>
      var m := b % 0x80;
      (m, (if b / 0x80 % 2 == 1 then 2 else 1) - m)
    case NewComposite(_, n) => (n, 1 - n)
    case Outcome(_) => (2, 1)
    case CheckedNeg => (1, 2)
    case PopN(n) => (n, 0 - n)
    case Trap(IndexOutOfBounds) => (5, -5)
    case Trap(HostError) => (1, -1)
    case If(_) | BreakIf(_) => (1, -1)
    case Else(_) | EndIf | Loop(_) | EndLoop(_) | Break(_) | Stream | Reset | Trap(_) | Return => (0, 0)
  }

  /** Operands an instruction takes off the stack, as the transfer function splits the effect. */
  function Pops(op: Op): nat {
    DepthEffect(op).0
  }

  function Pushes(op: Op): nat {
    DepthEffect(op).0 + DepthEffect(op).1
  }

  // ----- escape routes -----

  datatype Route = NoRegion | WithinIteration | CopiesOut | Escapes

  function RouteOf(op: Op): Route {
    match op
    case Yield | SetLocal(_) | Return | CallNative(_, _, _) => Escapes
    case SetData(_, _) | SetDataIndexed(_, _, _) | NewComposite(_, _) => CopiesOut
    case Call(_, _) | Dup | GetLocal(_) | GetData(_) | GetDataIndexed(_, _) | PopN(_) => WithinIteration
    case GetPart(_, _) | GetIndex(_) => WithinIteration
    case Break(_) | BreakIf(_) => WithinIteration
    case Const(_) | PushImmediate(_) | BoundsCheck(_) => NoRegion
    case Unary(_) | Binary(_) | Outcome(_) | CheckedNeg => NoRegion
    case If(_) | Else(_) | EndIf | Loop(_) | EndLoop(_) => NoRegion
    case Stream | Reset => NoRegion
    case IsEnum | IsStruct | Trap(_) => NoRegion
  }

  // ----- control flow -----

  /** Addresses control may reach next within the frame. `Reset` leaves through the host and is
      treated separately. */
  function Successors(ops: seq<Op>, ip: nat): set<nat>
    requires ip < |ops|
  {
    match ops[ip]
    case If(t) => {ip + 1, t}
    case BreakIf(t) => {ip + 1, t}
    case Else(t) => {t}
    case EndLoop(t) => {t}
    case Break(t) => {t}
    case Return | Trap(_) | Reset => {}
    case _ => {ip + 1}
  }

  // ----- block structure -----

  /** Structured code, each instruction with its address. A `Step` is any instruction that opens
      no block; a `Branch` holds both arms, the second empty when there is no `Else`. */
  datatype Block =
    | End
    | Step(ip: nat, op: Op, rest: Block)
    | Branch(ip: nat, target: nat, arms: Arms, first: Block, second: Block, rest: Block)
    | Cycle(ip: nat, exit: nat, body: Block, rest: Block)

  /** Where the arms of an `If` lie. */
  datatype Arms = Arms(thenEnd: nat, elseStart: nat, endIf: nat)

  function ArmsOf(ops: seq<Op>, ip: nat): Arms
    requires ip < |ops| && ops[ip].If?
  {
    var t := ops[ip].target;
    if 0 < t <= |ops| && ops[t - 1].Else? then Arms(t - 1, t, ops[t - 1].target) else Arms(t, t, t)
  }

  predicate Delimiter(op: Op) {
    op.If? || op.Else? || op.EndIf? || op.Loop? || op.EndLoop?
  }

  /** The block structure of `[lo, hi)`: blocks close where their targets say, every target is
      forward. None when the range is not well nested. */
  function BlockOf(ops: seq<Op>, lo: nat, hi: nat): (r: Option<Block>)
    requires lo <= hi <= |ops|
    ensures r.Some? ==> Laid(ops, lo, hi, r.value)
    decreases hi - lo, 1
  {
    if lo == hi then Some(End)
    else if ops[lo].If? then BranchOf(ops, lo, hi)
    else if ops[lo].Loop? then CycleOf(ops, lo, hi)
    else if Delimiter(ops[lo]) then None
    else
      match BlockOf(ops, lo + 1, hi)
      case Some(r) => Some(Step(lo, ops[lo], r))
      case None => None
  }

  function BranchOf(ops: seq<Op>, lo: nat, hi: nat): (r: Option<Block>)
    requires lo < hi <= |ops| && ops[lo].If?
    ensures r.Some? ==> Laid(ops, lo, hi, r.value)
    decreases hi - lo, 0
  {
    var a := ArmsOf(ops, lo);
    if lo < a.thenEnd <= a.elseStart <= a.endIf < hi && ops[a.endIf] == EndIf then
      var first, second, rest := BlockOf(ops, lo + 1, a.thenEnd), BlockOf(ops, a.elseStart, a.endIf), BlockOf(ops, a.endIf + 1, hi);
      if first.Some? && second.Some? && rest.Some? then
        Some(Branch(lo, ops[lo].target, a, first.value, second.value, rest.value))
      else None
    else None
  }

  function CycleOf(ops: seq<Op>, lo: nat, hi: nat): (r: Option<Block>)
    requires lo < hi <= |ops| && ops[lo].Loop?
    ensures r.Some? ==> Laid(ops, lo, hi, r.value)
    decreases hi - lo, 0
  {
    var t := ops[lo].target;
    if lo + 2 <= t <= hi && ops[t - 1] == EndLoop(lo + 1) then
      var body, rest := BlockOf(ops, lo + 1, t - 1), BlockOf(ops, t, hi);
      if body.Some? && rest.Some? then Some(Cycle(lo, t, body.value, rest.value)) else None
    else None
  }

  /** `b` is what `[lo, hi)` spells. */
  predicate Laid(ops: seq<Op>, lo: nat, hi: nat, b: Block)
    decreases b
  {
    && lo <= hi <= |ops|
    && match b
       case End => lo == hi
       case Step(ip, op, rest) =>
         ip == lo < hi && ops[lo] == op && !Delimiter(op) && Laid(ops, lo + 1, hi, rest)
       case Branch(ip, target, a, first, second, rest) =>
         && ip == lo < hi && ops[lo] == If(target) && a == ArmsOf(ops, lo)
         && lo < a.thenEnd <= a.elseStart <= a.endIf < hi && ops[a.endIf] == EndIf
         && Laid(ops, lo + 1, a.thenEnd, first)
         && Laid(ops, a.elseStart, a.endIf, second)
         && Laid(ops, a.endIf + 1, hi, rest)
       case Cycle(ip, exit, body, rest) =>
         && ip == lo && lo + 2 <= exit <= hi && ops[lo] == Loop(exit)
         && ops[exit - 1] == EndLoop(lo + 1)
         && Laid(ops, lo + 1, exit - 1, body)
         && Laid(ops, exit, hi, rest)
  }

  /** The layout of a block, one level deep. */
  predicate LaidParts(ops: seq<Op>, lo: nat, hi: nat, b: Block) {
    && lo <= hi <= |ops|
    && match b
       case End => lo == hi
       case Step(ip, op, rest) => ip == lo < hi && ops[lo] == op && !Delimiter(op) && Laid(ops, lo + 1, hi, rest)
       case Branch(ip, target, a, first, second, rest) =>
         && ip == lo < hi && ops[lo] == If(target) && a == ArmsOf(ops, lo)
         && lo < a.thenEnd <= a.elseStart <= a.endIf < hi && ops[a.endIf] == EndIf
         && (a.thenEnd == a.elseStart ==> a.thenEnd == a.endIf)
         && (a.thenEnd < a.elseStart ==> a.elseStart == a.thenEnd + 1 && ops[a.thenEnd] == Else(a.endIf))
         && Laid(ops, lo + 1, a.thenEnd, first)
         && Laid(ops, a.elseStart, a.endIf, second)
         && Laid(ops, a.endIf + 1, hi, rest)
       case Cycle(ip, exit, body, rest) =>
         && ip == lo && lo + 2 <= exit <= hi && ops[lo] == Loop(exit)
         && ops[exit - 1] == EndLoop(lo + 1)
         && Laid(ops, lo + 1, exit - 1, body)
         && Laid(ops, exit, hi, rest)
  }

  lemma LaidOpen(ops: seq<Op>, lo: nat, hi: nat, b: Block)
    requires Laid(ops, lo, hi, b)
    ensures LaidParts(ops, lo, hi, b)
  {}

  lemma {:induction false} LaidUnique(ops: seq<Op>, lo: nat, hi: nat, b: Block)
    requires Laid(ops, lo, hi, b)
    ensures lo <= hi <= |ops| && BlockOf(ops, lo, hi) == Some(b)
    decreases b
  {
    hide Laid, BlockOf, ArmsOf, Delimiter;
    LaidOpen(ops, lo, hi, b);
    match b
    case End => BlockOfOpen(ops, lo, hi, b);
    case Step(_, _, rest) =>
      LaidUnique(ops, lo + 1, hi, rest);
      BlockOfOpen(ops, lo, hi, b);
    case Branch(_, _, a, first, second, rest) =>
      LaidUnique(ops, lo + 1, a.thenEnd, first);
      LaidUnique(ops, a.elseStart, a.endIf, second);
      LaidUnique(ops, a.endIf + 1, hi, rest);
      BlockOfOpen(ops, lo, hi, b);
    case Cycle(_, exit, body, rest) =>
      LaidUnique(ops, lo + 1, exit - 1, body);
      LaidUnique(ops, exit, hi, rest);
      BlockOfOpen(ops, lo, hi, b);
  }

  /** A block is read back as soon as its parts are. */
  lemma BlockOfOpen(ops: seq<Op>, lo: nat, hi: nat, b: Block)
    requires LaidParts(ops, lo, hi, b)
    requires match b
      case End => true
      case Step(_, _, rest) => BlockOf(ops, lo + 1, hi) == Some(rest)
      case Branch(_, _, a, first, second, rest) =>
        && BlockOf(ops, lo + 1, a.thenEnd) == Some(first)
        && BlockOf(ops, a.elseStart, a.endIf) == Some(second)
        && BlockOf(ops, a.endIf + 1, hi) == Some(rest)
      case Cycle(_, exit, body, rest) => BlockOf(ops, lo + 1, exit - 1) == Some(body) && BlockOf(ops, exit, hi) == Some(rest)
    ensures BlockOf(ops, lo, hi) == Some(b)
  {
    hide Laid;
  }

  /** Every break leaves its innermost loop, `exit` being the exit of the loop around `b`, if any. */
  predicate BreaksLeave(b: Block, exit: Option<nat>) {
    match b
    case End => true
    case Step(_, op, rest) => ((op.Break? || op.BreakIf?) ==> exit == Some(op.target)) && BreaksLeave(rest, exit)
    case Branch(_, _, _, first, second, rest) =>
      BreaksLeave(first, exit) && BreaksLeave(second, exit) && BreaksLeave(rest, exit)
    case Cycle(_, x, body, rest) => BreaksLeave(body, Some(x)) && BreaksLeave(rest, exit)
  }

  // ----- operand-stack discipline -----

  /** Heights a block can end with: falling through, and at the breaks that leave it. */
  datatype Heights = Unbalanced | Balanced(fall: Option<nat>, brk: Option<nat>)

  predicate Agree(a: Option<nat>, b: Option<nat>) {
    a.Some? && b.Some? ==> a == b
  }

  function Either(a: Option<nat>, b: Option<nat>): Option<nat> {
    if a.Some? then a else b
  }

  /** Two arms must agree wherever both continue and wherever both break. */
  function MeetHeights(x: Heights, y: Heights): Heights {
    if x.Balanced? && y.Balanced? && Agree(x.fall, y.fall) && Agree(x.brk, y.brk)
    then Balanced(Either(x.fall, y.fall), Either(x.brk, y.brk))
    else Unbalanced
  }

  /** Continue after a prefix: its break height must agree with the rest's. */
  function WithBreak(brk: Option<nat>, rest: Heights): Heights {
    if rest.Balanced? && Agree(brk, rest.brk) then Balanced(rest.fall, Either(brk, rest.brk)) else Unbalanced
  }

  /** The height after a loop: that of its breaks, or its entry's when the body falls through. */
  function AfterHeight(body: Heights, h: nat): Option<nat>
    requires body.Balanced?
  {
    if body.brk.Some? then body.brk else if body.fall.Some? then Some(h) else None
  }

  /** The height skeleton of the typed operand-stack pass: no underflow, arms of a branch meet at
      one height, a loop body restores its entry height and never reaches below it. */
  function Depth(b: Block, h: nat, floor: nat): Heights {
    match b
    case End => Balanced(Some(h), None)
    case Step(_, op, rest) =>
      if op.Trap? then Balanced(None, None)
      else if op.Return? then Balanced(None, None)
      else if op.Break? then Balanced(None, Some(h))
      else if h < floor + Pops(op) then Unbalanced
      else
        var h' := h - Pops(op) + Pushes(op);
        WithBreak(if op.BreakIf? then Some(h') else None, Depth(rest, h', floor))
    case Branch(_, _, _, first, second, rest) =>
      if h < floor + 1 then Unbalanced
      else
        var m := MeetHeights(Depth(first, h - 1, floor), Depth(second, h - 1, floor));
        if m.Unbalanced? || m.fall.None? then m
        else WithBreak(m.brk, Depth(rest, m.fall.value, floor))
    case Cycle(_, _, body, rest) =>
      var d := Depth(body, h, h);
      if d.Unbalanced? || !Agree(d.fall, Some(h)) then Unbalanced
      else
        var after := AfterHeight(d, h);
        if after.None? then Balanced(None, None) else Depth(rest, after.value, floor)
  }

  predicate SlotInRange(op: Op, n: nat) {
    (op.GetLocal? || op.SetLocal?) ==> op.slot < n
  }

  /** Structural verification of a chunk: nesting, break targets, slot indices and the operand
      stack. */
  predicate Verified(c: Chunk) {
    var b := BlockOf(c.ops, 0, |c.ops|);
    && b.Some?
    && BreaksLeave(b.value, None)
    && (forall i :: 0 <= i < |c.ops| ==> SlotInRange(c.ops[i], c.localCount))
    && Depth(b.value, 0, 0).Balanced?
  }
}
