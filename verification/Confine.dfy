/** The composite-confinement analysis as functions: what one walk of a chunk observes, and what
    the observations mean for a construction site and for a parameter. */
module Confine {
  import opened Options
  import opened Bytecode

  // ----- abstract state -----

  /** What a tracked region originates from. */
  datatype Token = Site(ip: nat) | Param(index: nat)

  type Alias = set<Token>

  datatype State = State(stack: seq<Alias>, locals: seq<Alias>)

  function Union(xs: seq<Alias>): (u: Alias)
    ensures forall t :: t in u <==> exists i :: 0 <= i < |xs| && t in xs[i]
  {
    set i, t | 0 <= i < |xs| && t in xs[i] :: t
  }

  function Unite(x: seq<Alias>, y: seq<Alias>): (z: seq<Alias>)
    ensures |z| == if |x| < |y| then |y| else |x|
    ensures forall i :: 0 <= i < |z| ==>
      z[i] == (if i < |x| then x[i] else {}) + (if i < |y| then y[i] else {})
  {
    seq(if |x| < |y| then |y| else |x|, i requires i >= 0 =>
      (if i < |x| then x[i] else {}) + (if i < |y| then y[i] else {}))
  }

  function JoinStates(a: State, b: State): State {
    State(Unite(a.stack, b.stack), Unite(a.locals, b.locals))
  }

  function Join(a: Option<State>, b: Option<State>): Option<State> {
    match (a, b)
    case (Some(x), Some(y)) => Some(JoinStates(x, y))
    case (Some(x), None) => Some(x)
    case (None, Some(y)) => Some(y)
    case (None, None) => None
  }

  function JoinAll(a: Option<State>, bs: seq<State>): Option<State> {
    if bs == [] then a else Join(JoinAll(a, bs[..|bs| - 1]), Some(bs[|bs| - 1]))
  }

  // ----- events -----

  datatype Event =
    | Yielded(ip: nat)
    | Returned(ip: nat)
    | HandedToNative(ip: nat)
    | StoredToLocal(ip: nat, slot: nat)
    | PassedToCall(ip: nat)
    | UnmodelledRoute(ip: nat)

  /** One event, reported for every token of a set. The callback receives the tokens one by one;
      no two tokens interact, so the order within a notice carries no information. */
  datatype Notice = Notice(tokens: Alias, event: Event)

  predicate Logged(log: seq<Notice>, t: Token, e: Event) {
    exists n :: n in log && t in n.tokens && n.event == e
  }

  // ----- summaries -----

  datatype Summary = Summary(leaks: seq<bool>, returned: seq<bool>)

  datatype Summaries = Summaries(perChunk: seq<Option<Summary>>)

  const NO_SUMMARIES := Summaries([])

  function OpaqueSummary(params: nat): Summary {
    Summary(seq(params, _ => true), seq(params, _ => true))
  }

  /** May argument `arg` of a call to `callee` leak? Unknown means yes. */
  predicate Leaks(sums: Summaries, callee: nat, arg: nat) {
    if callee < |sums.perChunk| && sums.perChunk[callee].Some? then
      var s := sums.perChunk[callee].value;
      arg < |s.leaks| ==> s.leaks[arg]
    else true
  }

  /** May the result of a call to `callee` alias argument `arg`? Unknown means yes. */
  predicate Returns(sums: Summaries, callee: nat, arg: nat) {
    if callee < |sums.perChunk| && sums.perChunk[callee].Some? then
      var s := sums.perChunk[callee].value;
      arg < |s.returned| ==> s.returned[arg]
    else true
  }

  // ----- transfer of one instruction -----

  function NoticesOf(sums: Summaries, ip: nat, op: Op, taken: seq<Alias>): seq<Notice> {
    match op
    case Yield => [Notice(Union(taken), Yielded(ip))]
    case CallNative(_, _, _) => [Notice(Union(taken), HandedToNative(ip))]
    case Call(callee, _) =>
      seq(|taken|, i requires 0 <= i < |taken| =>
        Notice(if Leaks(sums, callee, i) then taken[i] else {}, PassedToCall(ip)))
    case SetLocal(slot) => [Notice(Union(taken), StoredToLocal(ip, slot))]
    case Return => []
    case _ => if RouteOf(op) == Escapes then [Notice(Union(taken), UnmodelledRoute(ip))] else []
  }

  function Project(parent: Alias, scalar: bool): Alias {
    if scalar then {} else parent
  }

  /** What the results of an instruction may alias. */
  function Produced(sums: Summaries, ip: nat, op: Op, taken: seq<Alias>, locals: seq<Alias>): Alias
    requires op.GetLocal? ==> op.slot < |locals|
  {
    if RouteOf(op) == NoRegion then {}
    else
      match op
      case NewComposite(_, _) => {Site(ip)}
      case SetData(_, _) | SetDataIndexed(_, _, _) => {}
      case GetLocal(slot) => locals[slot]
      case Yield => {}
      case Call(callee, _) =>
        set i, t | 0 <= i < |taken| && Returns(sums, callee, i) && t in taken[i] :: t
      case CallNative(_, _, _) => {}
      case GetPart(_, shape) => Project(Union(taken), shape.FlatScalar?)
      case GetIndex(e) => Project(Union(taken), e.FlatWord? || e.FlatOther?)
      case _ => Union(taken)
  }

  datatype Applied = Fault | Applied(state: State, log: seq<Notice>)

  function Taken(op: Op, stack: seq<Alias>): seq<Alias>
    requires Pops(op) <= |stack|
  {
    stack[|stack| - Pops(op)..]
  }

  function Apply(sums: Summaries, ip: nat, op: Op, s: State): Applied {
    if |s.stack| < Pops(op) || !SlotInRange(op, |s.locals|) then Fault
    else
      var taken := Taken(op, s.stack);
      var produced := Produced(sums, ip, op, taken, s.locals);
      var locals := if op.SetLocal? then s.locals[op.slot := Union(taken)] else s.locals;
      Applied(
        State(s.stack[..|s.stack| - Pops(op)] + seq(Pushes(op), _ => produced), locals),
        NoticesOf(sums, ip, op, taken))
  }

  /** `Return` reads the top of the stack without popping it; an empty stack carries no region. */
  function ReturnNotice(ip: nat, s: State): Notice {
    Notice(if s.stack == [] then {} else s.stack[|s.stack| - 1], Returned(ip))
  }

  // ----- the walk -----

  datatype Walked = Derailed | Walked(fall: Option<State>, breaks: seq<State>, log: seq<Notice>)

  /** Put what a prefix observed in front of what the rest observes. */
  function Then(breaks: seq<State>, log: seq<Notice>, rest: Walked): Walked {
    if rest.Derailed? then Derailed else Walked(rest.fall, breaks + rest.breaks, log + rest.log)
  }

  /** Both arms of a branch, met. */
  function Meet(log: seq<Notice>, x: Walked, y: Walked): Walked {
    if x.Derailed? || y.Derailed? then Derailed
    else Walked(Join(x.fall, y.fall), x.breaks + y.breaks, log + x.log + y.log)
  }

  datatype Fixed = Runaway | Fixed(head: State, bodyEnd: Option<State>, breaks: seq<State>, log: seq<Notice>)

  function RoundCap(size: nat, locals: nat): nat {
    (locals + 1) * (size + 1) + 2
  }

  /** Interpret block `b` of a chunk of `size` instructions from `s`: the fall-through state if some
      path falls through, the states at the breaks that leave the block, every notice in order. */
  function Walk(size: nat, sums: Summaries, b: Block, s: State): Walked
    decreases b, 0
  {
    match b
    case End => Walked(Some(s), [], [])
    case Step(ip, op, rest) =>
      if op.Trap? then Walked(None, [], [])
      else if op.Return? then Walked(None, [], [ReturnNotice(ip, s)])
      else if op.Break? then Walked(None, [s], [])
      else
        var r := Apply(sums, ip, op, s);
        if r.Fault? then Derailed
        else Then(if op.BreakIf? then [r.state] else [], r.log, Walk(size, sums, rest, r.state))
    case Branch(ip, target, _, first, second, rest) =>
      var r := Apply(sums, ip, If(target), s);
      if r.Fault? then Derailed
      else
        var m := Meet(r.log, Walk(size, sums, first, r.state), Walk(size, sums, second, r.state));
        if m.Derailed? || m.fall.None? then m
        else Then(m.breaks, m.log, Walk(size, sums, rest, m.fall.value))
    case Cycle(_, _, body, rest) =>
      var f := Fix(size, sums, body, s, RoundCap(size, |s.locals|));
      if f.Runaway? then Derailed
      else
        var after := JoinAll(f.bodyEnd, f.breaks);
        if after.None? then Walked(None, [], f.log)
        else Then([], f.log, Walk(size, sums, rest, after.value))
  }

  /** The ascending fixpoint of a loop body from head `head`, allowed `budget` widenings. */
  function Fix(size: nat, sums: Summaries, body: Block, head: State, budget: nat): Fixed
    decreases body, 1, budget
  {
    var r := Walk(size, sums, body, head);
    if r.Derailed? then Runaway
    else if r.fall.None? then Fixed(head, None, r.breaks, r.log)
    else
      var widened := JoinStates(head, r.fall.value);
      if widened == head then Fixed(head, r.fall, r.breaks, r.log)
      else if budget == 0 then Runaway
      else
        var f := Fix(size, sums, body, widened, budget - 1);
        if f.Runaway? then Runaway else f.(log := r.log + f.log)
  }

  function EmptyLocals(c: Chunk): seq<Alias> {
    seq(c.localCount, _ => {})
  }

  /** The walk of a whole chunk; `Derailed` when its blocks do not nest. */
  function Interpret(c: Chunk, seed: seq<Alias>, sums: Summaries): Walked {
    match BlockOf(c.ops, 0, |c.ops|)
    case Some(b) => Walk(|c.ops|, sums, b, State([], seed))
    case None => Derailed
  }

  // ----- what a summary run reports of its parameters -----

  predicate IsLeak(e: Event) {
    !e.StoredToLocal? && !e.Returned?
  }

  predicate LeakLogged(log: seq<Notice>, t: Token) {
    exists n :: n in log && t in n.tokens && IsLeak(n.event)
  }

  predicate ReturnLogged(log: seq<Notice>, t: Token) {
    exists n :: n in log && t in n.tokens && n.event.Returned?
  }

  /** Parameter `i` is slot `i`. */
  function SeededLocals(c: Chunk): seq<Alias> {
    seq(c.localCount, i requires i >= 0 => if i < c.paramCount then {Param(i)} else {})
  }

  /** What one chunk does with each of its parameters, given what is known of its callees. */
  function Summarize(c: Chunk, sums: Summaries): Summary {
    if c.paramCount == 0 then Summary([], [])
    else if c.localCount < c.paramCount then OpaqueSummary(c.paramCount)
    else
      var r := Interpret(c, SeededLocals(c), sums);
      if r.Derailed? then OpaqueSummary(c.paramCount)
      else
        Summary(seq(c.paramCount, i requires i >= 0 => LeakLogged(r.log, Param(i))),
                seq(c.paramCount, i requires i >= 0 => ReturnLogged(r.log, Param(i))))
  }

  // ----- scopes -----

  datatype Scope = Iteration(loopIp: nat) | Invocation

  /** A loop scope holding an unconditional break to its own exit is taken for dispatch. */
  predicate IsDispatch(ops: seq<Op>, i: nat, end: nat, exit: nat)
    requires i < end <= |ops|
  {
    exists k :: i < k < end && ops[k] == Break(exit)
  }

  function LoopEnd(ops: seq<Op>, i: nat): nat
    requires i < |ops| && ops[i].Loop?
  {
    if ops[i].target <= |ops| then ops[i].target else |ops|
  }

  /** Is the loop at `i` an iterating scope around `ip`? */
  predicate Encloses(ops: seq<Op>, i: nat, ip: nat)
    requires i < |ops|
  {
    && ops[i].Loop?
    && i < ip < LoopEnd(ops, i)
    && i + 1 < LoopEnd(ops, i)
    && !IsDispatch(ops, i, LoopEnd(ops, i), ops[i].target)
  }

  /** The last of the first `n` instructions that is an iterating loop around `ip`. */
  function EnclosingUpTo(ops: seq<Op>, n: nat, ip: nat): (r: Option<nat>)
    requires n <= |ops|
    ensures r.Some? ==> r.value < n && Encloses(ops, r.value, ip)
    ensures forall i :: 0 <= i < n && Encloses(ops, i, ip) ==> r.Some? && i <= r.value
  {
    if n == 0 then None
    else if Encloses(ops, n - 1, ip) then Some(n - 1)
    else EnclosingUpTo(ops, n - 1, ip)
  }

  function ScopeOf(ops: seq<Op>, ip: nat): Scope {
    match EnclosingUpTo(ops, |ops|, ip)
    case Some(l) => Iteration(l)
    case None => Invocation
  }

  /** The address range a scope's body occupies, as `[start, end)`. */
  function ScopeRange(ops: seq<Op>, scope: Scope): (r: (nat, nat))
    ensures r.0 <= r.1 <= |ops|
  {
    match scope
    case Invocation => (0, |ops|)
    case Iteration(l) =>
      if l < |ops| && ops[l].Loop? then
        var end := LoopEnd(ops, l);
        (l + 1, if end <= l + 1 then l + 1 else end - 1)
      else (0, |ops|)
  }

  // ----- slot liveness -----

  /** `bad`: some path reads the slot before writing it. `out`: whether every path that falls
      through has written it, if any does. */
  datatype Rbw = Rbw(bad: bool, out: Option<bool>)

  function MergeOut(a: Option<bool>, b: Option<bool>): Option<bool> {
    match (a, b)
    case (Some(x), Some(y)) => Some(x && y)
    case (Some(x), None) => Some(x)
    case (None, Some(y)) => Some(y)
    case (None, None) => None
  }

  function ReadsBeforeWrite(b: Block, slot: nat, defined: bool): Rbw {
    match b
    case End => Rbw(false, Some(defined))
    case Step(_, op, rest) =>
      if op == GetLocal(slot) && !defined then Rbw(true, None)
      else if op.Trap? || op.Return? || op.Break? then Rbw(false, None)
      else ReadsBeforeWrite(rest, slot, defined || op == SetLocal(slot))
    case Branch(_, _, _, first, second, rest) =>
      var x := ReadsBeforeWrite(first, slot, defined);
      var y := ReadsBeforeWrite(second, slot, defined);
      if x.bad || y.bad then Rbw(true, None)
      else
        var out := MergeOut(x.out, y.out);
        if out.None? then Rbw(false, None) else ReadsBeforeWrite(rest, slot, out.value)
    case Cycle(_, _, body, rest) =>
      if ReadsBeforeWrite(body, slot, defined).bad then Rbw(true, None)
      else ReadsBeforeWrite(rest, slot, defined)
  }

  predicate ReadOutside(ops: seq<Op>, start: nat, end: nat, slot: nat) {
    exists i :: 0 <= i < |ops| && ops[i] == GetLocal(slot) && !(start <= i < end)
  }

  /** Is `slot` dead at the boundary of the scope `[start, end)`? */
  predicate BoundaryDead(ops: seq<Op>, start: nat, end: nat, slot: nat)
    requires start <= end <= |ops|
  {
    && !ReadOutside(ops, start, end, slot)
    && BlockOf(ops, start, end).Some?
    && !ReadsBeforeWrite(BlockOf(ops, start, end).value, slot, false).bad
  }
}
