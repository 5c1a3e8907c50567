/** The operand-stack machine, seen only as far as regions go. A value is the set of regions it
    gives access to: nothing for a scalar or a value built elsewhere, its own region for a flat
    composite or a view of one, and for a boxed composite whatever its children give access to.
    Data slots that keep values are part of what the host holds.

    Everything the analysis does not decide is a choice: conditions, what the host answers, which
    part of a container a projection reads. Frames carry two history fields the machine itself
    never reads: the arguments they were entered with and what the host held then. */
module Machine {
  import opened Options
  import opened Bytecode

  type Value = set<nat>

  /** Where a region was built: chunk, frame, address. */
  datatype Origin = Origin(chunk: nat, frame: nat, site: nat)

  datatype Frame = Frame(
    id: nat, chunk: nat, ip: nat, locals: seq<Value>, stack: seq<Value>,
    args: seq<Value>, hostAtEntry: Value)

  /** `frames` is the call stack, innermost last; region `r` was built as `regions[r]` says. */
  datatype Vm = Vm(frames: seq<Frame>, host: Value, regions: seq<Origin>, nextFrame: nat)

  const INITIAL := Vm([], {}, [], 0)

  /** `Proceed`: execute the innermost frame's instruction, `branch` deciding a condition and
      `results` the values pushed. `Enter`: the host starts a chunk. `Feed`: resuming, the host puts
      its input into the parameter of the running stream. `Abandon`: the call is over, because it
      trapped or because the host gave it up. */
  datatype Choice =
    | Proceed(branch: bool, results: seq<Value>)
    | Enter(chunk: nat, args: seq<Value>)
    | Feed(input: Value)
    | Abandon

  function Regions(vs: seq<Value>): (u: Value)
    ensures forall r :: r in u <==> exists i :: 0 <= i < |vs| && r in vs[i]
  {
    set i, r | 0 <= i < |vs| && r in vs[i] :: r
  }

  function Blank(n: nat): seq<Value> {
    seq(n, _ => {})
  }

  /** Instructions that pop, push and go on. */
  predicate Straight(op: Op) {
    && !op.If? && !op.Else? && !op.EndLoop? && !op.Break? && !op.BreakIf?
    && !op.Reset? && !op.Call? && !op.Return? && !op.Trap?
  }

  /** May result number `i` of a straight instruction be `v`? */
  predicate Result(op: Op, taken: seq<Value>, locals: seq<Value>, host: Value, newId: nat, i: nat, v: Value)
    requires |taken| == Pops(op) && SlotInRange(op, |locals|)
  {
    match op
    case Dup => v == taken[0]
    case GetLocal(slot) => v == locals[slot]
    case NewComposite(form, _) =>
      (!form.BoxedForm? && v == {newId}) || (!form.FlatForm? && v == {newId} + Regions(taken))
    case Yield | CallNative(_, _, _) => v <= host
    case GetData(_) | GetDataIndexed(_, _) => v <= host
    case GetPart(_, shape) => if shape.FlatScalar? then v == {} else v <= Regions(taken)
    case GetIndex(e) => if e.FlatWord? || e.FlatOther? || i > 0 then v == {} else v <= Regions(taken)
    case IsEnum | IsStruct => v == if i == 0 then taken[0] else {}
    case _ => v == {}
  }

  predicate Results(op: Op, taken: seq<Value>, locals: seq<Value>, host: Value, newId: nat, results: seq<Value>)
    requires |taken| == Pops(op) && SlotInRange(op, |locals|)
  {
    |results| == Pushes(op) &&
    forall i :: 0 <= i < |results| ==> Result(op, taken, locals, host, newId, i, results[i])
  }

  function TakenOf(op: Op, stack: seq<Value>): seq<Value>
    requires Pops(op) <= |stack|
  {
    stack[|stack| - Pops(op)..]
  }

  function LeftOf(op: Op, stack: seq<Value>): seq<Value>
    requires Pops(op) <= |stack|
  {
    stack[..|stack| - Pops(op)]
  }

  /** What `op` gives to the host, or to a data slot, for good. */
  function HandedOver(op: Op, taken: seq<Value>): Value {
    match op
    case Yield | CallNative(_, _, _) => Regions(taken)
    case SetData(_, keeps) => if keeps && taken != [] then taken[0] else {}
    case SetDataIndexed(_, _, keeps) => if keeps && taken != [] then taken[0] else {}
    case _ => {}
  }

  /** What the host holds once `op` has taken its operands. */
  function HostAfter(op: Op, taken: seq<Value>, host: Value): Value {
    host + HandedOver(op, taken)
  }

  function WithTop(v: Vm, f: Frame): Vm
    requires v.frames != []
  {
    v.(frames := v.frames[..|v.frames| - 1] + [f])
  }

  function Top(v: Vm): Frame
    requires v.frames != []
  {
    v.frames[|v.frames| - 1]
  }

  function StreamAt(ops: seq<Op>, n: nat): (r: Option<nat>)
    requires n <= |ops|
    ensures r.Some? ==> r.value < |ops| && ops[r.value] == Stream
    decreases |ops| - n
  {
    if n == |ops| then None else if ops[n] == Stream then Some(n) else StreamAt(ops, n + 1)
  }

  /** The innermost of the first `n` frames that runs a stream. */
  function StreamFrame(m: seq<Chunk>, frames: seq<Frame>, n: nat): (k: Option<nat>)
    requires n <= |frames|
    ensures k.Some? ==> k.value < n && frames[k.value].chunk < |m|
  {
    if n == 0 then None
    else if frames[n - 1].chunk < |m| && StreamAt(m[frames[n - 1].chunk].ops, 0).Some? then Some(n - 1)
    else StreamFrame(m, frames, n - 1)
  }

  /** Does the innermost frame stand where a call resumes: behind a yield, or behind the start of its
      stream? */
  predicate Suspended(m: seq<Chunk>, v: Vm) {
    && v.frames != [] && Top(v).chunk < |m| && 0 < Top(v).ip <= |m[Top(v).chunk].ops|
    && var last := m[Top(v).chunk].ops[Top(v).ip - 1]; last.Yield? || last.Stream?
  }

  function Fed(v: Vm, k: nat, input: Value): Vm
    requires k < |v.frames| && v.frames[k].locals != []
  {
    v.(frames := v.frames[k := v.frames[k].(locals := v.frames[k].locals[0 := input])])
  }

  function FeedStep(m: seq<Chunk>, v: Vm, input: Value): Option<Vm> {
    match StreamFrame(m, v.frames, |v.frames|)
    case Some(k) =>
      if Suspended(m, v) && input <= v.host && v.frames[k].locals != [] && m[v.frames[k].chunk].paramCount > 0
      then Some(Fed(v, k, input))
      else None
    case None => None
  }

  /** One step; None when the choice does not fit, the machine faults, or there is nothing to do. */
  function Next(m: seq<Chunk>, v: Vm, ch: Choice): Option<Vm> {
    if ch.Abandon? then
      if v.frames != [] then Some(v.(frames := [])) else None
    else if ch.Feed? then FeedStep(m, v, ch.input)
    else if ch.Enter? then
      if v.frames == [] && ch.chunk < |m| && |ch.args| <= m[ch.chunk].localCount
         && Regions(ch.args) <= v.host
      then Some(v.(frames := [Entered(m, v, ch.chunk, ch.args)], nextFrame := v.nextFrame + 1))
      else None
    else if v.frames == [] || Top(v).chunk >= |m| || Top(v).ip >= |m[Top(v).chunk].ops| then None
    else
      var f := Top(v);
      var op := m[f.chunk].ops[f.ip];
      if |f.stack| < Pops(op) || !SlotInRange(op, |f.locals|) then None
      else if Straight(op) then StraightStep(v, f, op, ch)
      else if op.Call? then CallStep(m, v, f, op)
      else if op.Return? then ReturnStep(v, f)
      else if op.Reset? then
        match StreamAt(m[f.chunk].ops, 0)
        case Some(s) => Some(WithTop(v, f.(ip := s + 1, locals := Blank(|f.locals|), stack := [])))
        case None => None
      else if op.Trap? then None
      else
        Some(WithTop(v, f.(ip := JumpTo(op, f.ip, ch.branch), stack := LeftOf(op, f.stack))))
  }

  function JumpTo(op: Op, ip: nat, branch: bool): nat
    requires op.If? || op.BreakIf? || op.Else? || op.EndLoop? || op.Break?
  {
    match op
    case If(t) => if branch then ip + 1 else t
    case BreakIf(t) => if branch then t else ip + 1
    case Else(t) => t
    case EndLoop(t) => t
    case Break(t) => t
  }

  function StraightStep(v: Vm, f: Frame, op: Op, ch: Choice): Option<Vm>
    requires v.frames != [] && Pops(op) <= |f.stack| && SlotInRange(op, |f.locals|) && ch.Proceed?
  {
    var taken := TakenOf(op, f.stack);
    var host := HostAfter(op, taken, v.host);
    if Results(op, taken, f.locals, host, |v.regions|, ch.results) then
      var locals := if op.SetLocal? then f.locals[op.slot := taken[0]] else f.locals;
      var next := f.(ip := f.ip + 1, locals := locals, stack := LeftOf(op, f.stack) + ch.results);
      var regions := if op.NewComposite? then v.regions + [Origin(f.chunk, f.id, f.ip)] else v.regions;
      Some(WithTop(v, next).(host := host, regions := regions))
    else None
  }

  function Entered(m: seq<Chunk>, v: Vm, chunk: nat, args: seq<Value>): Frame
    requires chunk < |m| && |args| <= m[chunk].localCount
  {
    Frame(v.nextFrame, chunk, 0, args + Blank(m[chunk].localCount - |args|), [], args, v.host)
  }

  /** Arguments become the callee's first locals; the caller waits at its `Call`. */
  function CallStep(m: seq<Chunk>, v: Vm, f: Frame, op: Op): Option<Vm>
    requires v.frames != [] && op.Call? && Pops(op) <= |f.stack|
  {
    if op.callee < |m| && op.argc <= m[op.callee].localCount then
      var callee := Entered(m, v, op.callee, TakenOf(op, f.stack));
      var waiting := WithTop(v, f.(stack := LeftOf(op, f.stack)));
      Some(waiting.(frames := waiting.frames + [callee], nextFrame := v.nextFrame + 1))
    else None
  }

  /** The top of the frame's slots: an operand if there is one, else its last local. */
  function Returned(f: Frame): Option<Value> {
    if f.stack != [] then Some(f.stack[|f.stack| - 1])
    else if f.locals != [] then Some(f.locals[|f.locals| - 1])
    else None
  }

  /** All frames' slots and operands lie on one stack. */
  function Slots(frames: seq<Frame>): seq<Value> {
    if frames == [] then []
    else var n := |frames| - 1; Slots(frames[..n]) + frames[n].locals + frames[n].stack
  }

  /** What a return pops: the frame's own, or, where it has nothing, what lies on top below it. */
  function GivenUp(f: Frame, below: seq<Value>): Option<Value> {
    if Returned(f).Some? then Returned(f)
    else if below != [] then Some(below[|below| - 1])
    else None
  }

  /** The popped value is pushed for the caller. A frame without slot or operand pops it off the
      frames below and puts it back. */
  function ReturnStep(v: Vm, f: Frame): Option<Vm>
    requires v.frames != []
  {
    var n := |v.frames| - 1;
    match GivenUp(f, Slots(v.frames[..n]))
    case None => None
    case Some(r) =>
      if n == 0 then Some(v.(frames := [], host := v.host + r))
      else
        var caller := v.frames[n - 1];
        var stack := if Returned(f).Some? then caller.stack + [r] else caller.stack;
        Some(v.(frames := v.frames[..n - 1] + [caller.(ip := caller.ip + 1, stack := stack)]))
  }

  ghost predicate StepTo(m: seq<Chunk>, a: Vm, b: Vm) {
    exists ch :: Next(m, a, ch) == Some(b)
  }

  /** A run from the beginning. */
  ghost predicate IsRun(m: seq<Chunk>, run: seq<Vm>) {
    && |run| > 0 && run[0] == INITIAL
    && forall i :: 0 <= i < |run| - 1 ==> StepTo(m, run[i], run[i + 1])
  }
}
