/** Where the transfer function can be relied on: a condition on the states of the walk itself, which
    whoever runs the analysis can check as it goes. */
module Guard {
  import opened Options
  import opened Bytecode
  import opened Confine
  import opened ConfineShape

  /** A type test leaves its operand where it is, so the operand must alias nothing; a composite that may
      end boxed may keep its children, so they may alias its own site only; a data slot that keeps the
      value itself must be given one that aliases nothing; and a return without an operand hands over the
      last local, which must be there and alias nothing. */
  predicate Clear(ip: nat, op: Op, s: State) {
    match op
    case IsEnum | IsStruct => s.stack != [] ==> s.stack[|s.stack| - 1] == {}
    case NewComposite(form, n) => !form.FlatForm? && n <= |s.stack| ==> Union(Taken(op, s.stack)) <= {Site(ip)}
    case SetData(_, keeps) => keeps && s.stack != [] ==> s.stack[|s.stack| - 1] == {}
    case SetDataIndexed(_, _, keeps) => keeps && |s.stack| >= 2 ==> s.stack[|s.stack| - 2] == {}
    case Return => s.stack != [] || (s.locals != [] && s.locals[|s.locals| - 1] == {})
    case _ => true
  }

  /** Every instruction the walk of `b` settles on is clear at the state it settles on. */
  predicate Benign(size: nat, sums: Summaries, b: Block, s: State) {
    match b
    case End => true
    case Step(ip, op, rest) =>
      Clear(ip, op, s) && (Ordinary(op) ==>
        var r := Apply(sums, ip, op, s); r.Applied? ==> Benign(size, sums, rest, r.state))
    case Branch(ip, target, _, first, second, rest) =>
      var r, m := Apply(sums, ip, If(target), s), ArmsMet(size, sums, b, s);
      && (r.Applied? ==> Benign(size, sums, first, r.state) && Benign(size, sums, second, r.state))
      && (m.Walked? && m.fall.Some? ==> Benign(size, sums, rest, m.fall.value))
    case Cycle(_, _, body, rest) =>
      var f := LoopFix(size, sums, b, s);
      f.Fixed? ==>
        && Benign(size, sums, body, f.head)
        && (AfterLoop(f).Some? ==> Benign(size, sums, rest, AfterLoop(f).value))
  }

  /** The walk of the chunk from `seed` is benign. */
  predicate BenignFrom(c: Chunk, sums: Summaries, seed: seq<Alias>) {
    var b := BlockOf(c.ops, 0, |c.ops|);
    b.Some? ==> Benign(|c.ops|, sums, b.value, State([], seed))
  }
}
