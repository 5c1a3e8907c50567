/** From one completed walk to an invariant of the flat code: an abstract state at every address
    control can reach, closed under every edge, whose notices the walk reported. */
module Annotation {
  import opened Options
  import opened Bytecode
  import opened Confine
  import opened ConfineShape
  import opened ConfineOrder
  import opened Guard
  import opened Loops

  type Ann = map<nat, State>

  /** `s` is what holds before address `ip`: the transfer goes through, what it reports is in
      `log`, and every address control may reach next is described by `t`, no less. The walk also
      goes on behind a reset, and behind a loop from its end, below the height its breaks leave at. */
  ghost predicate Flows(c: Chunk, sums: Summaries, log: seq<Notice>, ip: nat, s: State, t: Ann) {
    && ip < |c.ops|
    && (c.ops[ip].Trap? ||
        var r := Apply(sums, ip, c.ops[ip], s);
        && r.Applied?
        && LogLeq(r.log, log)
        && (c.ops[ip].Return? ==> LogLeq([ReturnNotice(ip, s)], log))
        && (forall k :: k in Successors(c.ops, ip) ==> k in t && Leq(r.state, t[k]))
        && (c.ops[ip].Reset? ==> ip + 1 in t && Leq(r.state, t[ip + 1]))
        && (c.ops[ip].EndLoop? ==> EndsUnder(c.ops, ip, s, t)))
  }

  /** Behind the loop that ends at `ip` lies at least what holds at its end, at the height the loop leaves. */
  predicate EndsUnder(ops: seq<Op>, ip: nat, s: State, t: Ann)
    requires ip < |ops| && ops[ip].EndLoop?
  {
    && ip + 1 in t && Under(s, t[ip + 1])
    && ExitHeight(ops, ip, |s.stack|) == Some(|t[ip + 1].stack|) && |t[ip + 1].locals| == |s.locals|
  }

  /** The height behind the loop that ends at `ip`, entered with `h` operands. */
  function ExitHeight(ops: seq<Op>, ip: nat, h: nat): Option<nat>
    requires ip < |ops| && ops[ip].EndLoop?
  {
    var top := ops[ip].target;
    if top <= ip && BlockOf(ops, top, ip).Some? then
      var d := Depth(BlockOf(ops, top, ip).value, h, h);
      if d.Balanced? then AfterHeight(d, h) else None
    else None
  }

  /** The frame keeps its size, no operand below `floor` is taken, and the instruction is clear where the
      walk is `calm`. */
  predicate Sized(c: Chunk, ip: nat, s: State, floor: nat, locals: nat, calm: bool) {
    && ip < |c.ops|
    && |s.locals| == locals && floor <= |s.stack|
    && (!c.ops[ip].Trap? ==> floor + Pops(c.ops[ip]) <= |s.stack|)
    && (calm ==> Clear(ip, c.ops[ip], s))
  }

  /** Inside a loop no operand from before the loop is taken. */
  predicate FloorsKept(c: Chunk, a: Ann) {
    forall l, k :: l in a && k in a && l < |c.ops| && k < |c.ops| && c.ops[l].Loop? && l < k < c.ops[l].target ==>
      |a[l].stack| <= |a[k].stack| && (!c.ops[k].Trap? ==> |a[l].stack| + Pops(c.ops[k]) <= |a[k].stack|)
  }

  ghost predicate Describes(c: Chunk, sums: Summaries, log: seq<Notice>, a: Ann, t: Ann, floor: nat, locals: nat, calm: bool) {
    && (forall k :: k in a ==> Flows(c, sums, log, k, a[k], t))
    && (forall k :: k in a ==> Sized(c, k, a[k], floor, locals, calm))
    && FloorsKept(c, a)
  }

  predicate Extends(t: Ann, u: Ann) {
    forall k :: k in t ==> k in u && u[k] == t[k]
  }

  lemma FlowsExtend(c: Chunk, sums: Summaries, log: seq<Notice>, ip: nat, s: State, t: Ann, u: Ann)
    requires Flows(c, sums, log, ip, s, t) && Extends(t, u)
    ensures Flows(c, sums, log, ip, s, u)
  {}

  predicate LoopsEndBy(ops: seq<Op>, lo: nat, hi: nat, limit: nat)
    requires hi <= |ops|
  {
    forall l :: lo <= l < hi && ops[l].Loop? ==> ops[l].target <= limit
  }

  lemma LoopsEndInside(ops: seq<Op>, lo: nat, hi: nat, b: Block)
    requires Laid(ops, lo, hi, b)
    ensures LoopsEndBy(ops, lo, hi, hi)
  {
    forall l | lo <= l < hi && ops[l].Loop?
      ensures ops[l].target <= hi
    {
      LoopEndsInside(ops, lo, hi, b, l);
    }
  }

  /** Two described ranges, one after the other, seen from a common description. */
  lemma Glue(c: Chunk, sums: Summaries, log: seq<Notice>, lo: nat, mid: nat, hi: nat, a: Ann, ta: Ann, b: Ann, tb: Ann, t: Ann,
             floor: nat, locals: nat, calm: bool)
    requires lo <= mid <= hi <= |c.ops|
    requires LoopsEndBy(c.ops, lo, mid, mid)
    requires forall k :: k in a ==> lo <= k < mid
    requires forall k :: k in b ==> mid <= k < hi
    requires Describes(c, sums, log, a, ta, floor, locals, calm) && Extends(ta, t)
    requires Describes(c, sums, log, b, tb, floor, locals, calm) && Extends(tb, t)
    ensures Describes(c, sums, log, a + b, t, floor, locals, calm)
  {
    forall k | k in a + b
      ensures Flows(c, sums, log, k, (a + b)[k], t)
    {
      if k in b {
        FlowsExtend(c, sums, log, k, b[k], tb, t);
      } else {
        FlowsExtend(c, sums, log, k, a[k], ta, t);
      }
    }
    FloorsAppend(c, lo, mid, hi, a, b);
  }

  lemma DescribesNothing(c: Chunk, sums: Summaries, log: seq<Notice>, t: Ann, floor: nat, locals: nat, calm: bool)
    ensures Describes(c, sums, log, map[], t, floor, locals, calm)
  {}

  /** An ordinary instruction with its successors described. */
  lemma DescribesOne(c: Chunk, sums: Summaries, log: seq<Notice>, ip: nat, s: State, t: Ann, floor: nat, calm: bool)
    requires ip < |c.ops| && Ordinary(c.ops[ip]) && (calm ==> Clear(ip, c.ops[ip], s))
    requires Apply(sums, ip, c.ops[ip], s).Applied? && LogLeq(Apply(sums, ip, c.ops[ip], s).log, log)
    requires forall k :: k in Successors(c.ops, ip) ==> k in t && Leq(Apply(sums, ip, c.ops[ip], s).state, t[k])
    requires floor + Pops(c.ops[ip]) <= |s.stack| && !c.ops[ip].EndLoop?
    requires c.ops[ip].Reset? ==> ip + 1 in t && Leq(Apply(sums, ip, c.ops[ip], s).state, t[ip + 1])
    ensures Describes(c, sums, log, map[ip := s], t, floor, |s.locals|, calm)
  {}

  /** A delimiter or jump with its one successor described. */
  lemma DescribesOn(c: Chunk, sums: Summaries, log: seq<Notice>, ip: nat, s: State, t: Ann, next: nat, floor: nat, calm: bool)
    requires ip < |c.ops|
    requires var op := c.ops[ip]; op.Else? || op.EndIf? || op.Loop? || op.EndLoop? || op.Break?
    requires Successors(c.ops, ip) == {next} && next in t && Leq(s, t[next]) && floor <= |s.stack|
    requires c.ops[ip].EndLoop? ==> EndsUnder(c.ops, ip, s, t)
    ensures Describes(c, sums, log, map[ip := s], t, floor, |s.locals|, calm)
  {
    FlowsOn(c, sums, log, ip, s, t, next);
  }

  /** A loop in front of its described body. */
  lemma GlueLoop(c: Chunk, sums: Summaries, log: seq<Notice>, lo: nat, s: State, body: Ann, tb: Ann, t: Ann, floor: nat, calm: bool)
    requires lo < |c.ops| && c.ops[lo].Loop? && floor <= |s.stack|
    requires forall k :: k in body ==> lo < k < c.ops[lo].target
    requires lo + 1 in t && Leq(s, t[lo + 1])
    requires Describes(c, sums, log, body, tb, |s.stack|, |s.locals|, calm) && Extends(tb, t)
    ensures Describes(c, sums, log, map[lo := s] + body, t, floor, |s.locals|, calm)
  {
    FlowsOn(c, sums, log, lo, s, t, lo + 1);
    forall k | k in body
      ensures Flows(c, sums, log, k, body[k], t)
    {
      FlowsExtend(c, sums, log, k, body[k], tb, t);
    }
  }

  /** Floors of two annotations of ranges that follow one another. */
  lemma FloorsAppend(c: Chunk, lo: nat, mid: nat, hi: nat, a: Ann, b: Ann)
    requires lo <= mid <= hi <= |c.ops|
    requires LoopsEndBy(c.ops, lo, mid, mid)
    requires forall k :: k in a ==> lo <= k < mid
    requires forall k :: k in b ==> mid <= k < hi
    requires FloorsKept(c, a) && FloorsKept(c, b)
    ensures FloorsKept(c, a + b)
  {}

  /** A block delimiter or jump leaves the state as it is. */
  lemma ApplyIdentity(sums: Summaries, ip: nat, op: Op, s: State)
    requires op.Else? || op.EndIf? || op.Loop? || op.EndLoop? || op.Break?
    ensures Apply(sums, ip, op, s) == Applied(s, [])
  {
    hide Produced;
    assert s.stack[..|s.stack|] + [] == s.stack;
  }

  /** A delimiter or jump passes its state on to its one successor. */
  lemma FlowsOn(c: Chunk, sums: Summaries, log: seq<Notice>, ip: nat, s: State, t: Ann, next: nat)
    requires ip < |c.ops|
    requires var op := c.ops[ip]; op.Else? || op.EndIf? || op.Loop? || op.EndLoop? || op.Break?
    requires Successors(c.ops, ip) == {next} && next in t && Leq(s, t[next])
    requires c.ops[ip].EndLoop? ==> EndsUnder(c.ops, ip, s, t)
    ensures Flows(c, sums, log, ip, s, t)
  {
    ApplyIdentity(sums, ip, c.ops[ip], s);
  }

  lemma JoinAbove(a: State, b: State)
    requires |a.stack| == |b.stack| && |a.locals| == |b.locals|
    ensures Leq(a, JoinStates(a, b)) && Leq(b, JoinStates(a, b))
  {}

  lemma {:induction false} JoinAllCovers(a: Option<State>, bs: seq<State>, b: State)
    requires b in bs
    ensures JoinAll(a, bs).Some? && Under(b, JoinAll(a, bs).value)
    decreases |bs|
  {
    var init, last := bs[..|bs| - 1], bs[|bs| - 1];
    var prev := JoinAll(a, init);
    if prev.Some? {
      UnderJoin(prev.value, last);
    }
    if b != last {
      assert bs == init + [last];
      JoinAllCovers(a, init, b);
      UnderTransitive(b, prev.value, JoinAll(a, bs).value);
    }
  }

  ghost predicate Outgoing(r: Walked, hi: nat, exit: Option<nat>, outs: Ann, log: seq<Notice>) {
    && r.Walked?
    && (r.fall.Some? ==> hi in outs && Leq(r.fall.value, outs[hi]))
    && BreaksReach(r.breaks, exit, outs)
    && LogLeq(r.log, log)
  }

  /** Every break state is described at the exit it leaves to. */
  predicate BreaksReach(bs: seq<State>, exit: Option<nat>, t: Ann) {
    bs != [] ==> exit.Some? && exit.value in t && forall b :: b in bs ==> Leq(b, t[exit.value])
  }

  lemma OutgoingThen(breaks: seq<State>, lg: seq<Notice>, rest: Walked, hi: nat, exit: Option<nat>, outs: Ann, log: seq<Notice>)
    requires Outgoing(Then(breaks, lg, rest), hi, exit, outs, log)
    ensures Outgoing(rest, hi, exit, outs, log)
    ensures LogLeq(lg, log)
    ensures BreaksReach(breaks, exit, outs)
  {
    var whole := Then(breaks, lg, rest);
    assert whole.breaks == breaks + rest.breaks;
    LogLeqPart(lg, rest.log);
    LogLeqTransitive(lg, whole.log, log);
    LogLeqTransitive(rest.log, whole.log, log);
  }

  lemma LogLeqTransitive(a: seq<Notice>, b: seq<Notice>, c: seq<Notice>)
    requires LogLeq(a, b) && LogLeq(b, c)
    ensures LogLeq(a, c)
  {}

  lemma OutgoingMeet(lg: seq<Notice>, x: Walked, y: Walked, hi: nat, exit: Option<nat>, outs: Ann, log: seq<Notice>)
    requires Outgoing(Meet(lg, x, y), hi, exit, outs, log)
    requires x.Walked? && y.Walked? && x.fall.Some? && y.fall.Some? ==>
      |x.fall.value.stack| == |y.fall.value.stack| && |x.fall.value.locals| == |y.fall.value.locals|
    ensures LogLeq(lg, log) && Outgoing(x, hi, exit, outs, log) && Outgoing(y, hi, exit, outs, log)
  {
    var whole := Meet(lg, x, y);
    assert whole.breaks == x.breaks + y.breaks;
    LogLeqPart(lg, x.log);
    LogLeqPart(lg + x.log, y.log);
    LogLeqTransitive(lg + x.log, whole.log, log);
    LogLeqTransitive(lg, lg + x.log, log);
    LogLeqTransitive(x.log, lg + x.log, log);
    LogLeqTransitive(y.log, whole.log, log);
    if x.fall.Some? && y.fall.Some? {
      JoinAbove(x.fall.value, y.fall.value);
      LeqTransitive(x.fall.value, whole.fall.value, outs[hi]);
      LeqTransitive(y.fall.value, whole.fall.value, outs[hi]);
    }
  }

  /** The walk of `[lo, hi)` from `s`, laid out address by address. `outs` describes the addresses
      control may leave to. */
  lemma {:induction false} Annotate(c: Chunk, sums: Summaries, lo: nat, hi: nat, b: Block, s: State, floor: nat,
                                    exit: Option<nat>, outs: Ann, log: seq<Notice>, calm: bool)
    returns (a: Ann)
    requires Laid(c.ops, lo, hi, b) && BreaksLeave(b, exit)
    requires floor <= |s.stack| && Depth(b, |s.stack|, floor).Balanced?
    requires calm ==> Benign(|c.ops|, sums, b, s)
    requires Outgoing(Walk(|c.ops|, sums, b, s), hi, exit, outs, log)
    requires forall k :: k in outs ==> hi <= k
    ensures forall k :: k in a ==> lo <= k < hi
    ensures lo < hi ==> lo in a && a[lo] == s
    ensures Describes(c, sums, log, a, outs + a, floor, |s.locals|, calm)
    decreases b, 2
  {
    match b
    case End => a := map[];
    case Step(_, op, _) =>
      if Ordinary(op) {
        a := AnnotateStep(c, sums, lo, hi, b, s, floor, exit, outs, log, calm);
      } else {
        a := map[lo := s];
        ExitFlows(c, sums, lo, hi, b, s, exit, outs, log);
      }
    case Branch(_, _, _, _, _, _) => a := AnnotateBranch(c, sums, lo, hi, b, s, floor, exit, outs, log, calm);
    case Cycle(_, _, _, _) => a := AnnotateCycle(c, sums, lo, hi, b, s, floor, exit, outs, log, calm);
  }

  lemma ExitFlows(c: Chunk, sums: Summaries, lo: nat, hi: nat, b: Block, s: State, exit: Option<nat>, outs: Ann, log: seq<Notice>)
    requires Laid(c.ops, lo, hi, b) && b.Step? && !Ordinary(b.op) && BreaksLeave(b, exit)
    requires Outgoing(Walk(|c.ops|, sums, b, s), hi, exit, outs, log)
    requires lo !in outs
    ensures Flows(c, sums, log, lo, s, outs + map[lo := s])
  {
    if b.op.Break? {
      assert s in Walk(|c.ops|, sums, b, s).breaks;
      FlowsOn(c, sums, log, lo, s, outs + map[lo := s], b.op.target);
    }
  }

  /** The rest after an ordinary instruction meets what the whole met. */
  lemma StepParts(c: Chunk, sums: Summaries, lo: nat, hi: nat, b: Block, s: State, floor: nat,
                  exit: Option<nat>, outs: Ann, log: seq<Notice>, calm: bool)
    requires Laid(c.ops, lo, hi, b) && BreaksLeave(b, exit) && b.Step? && Ordinary(b.op)
    requires floor <= |s.stack| && Depth(b, |s.stack|, floor).Balanced?
    requires Outgoing(Walk(|c.ops|, sums, b, s), hi, exit, outs, log)
    requires calm ==> Benign(|c.ops|, sums, b, s)
    ensures lo < hi <= |c.ops| && c.ops[lo] == b.op && Laid(c.ops, lo + 1, hi, b.rest) && BreaksLeave(b.rest, exit)
    ensures floor + Pops(b.op) <= |s.stack| && !Delimiter(b.op) && (calm ==> Clear(lo, b.op, s))
    ensures var r := Apply(sums, lo, b.op, s);
      && r.Applied? && LogLeq(r.log, log)
      && |r.state.locals| == |s.locals| && floor <= |r.state.stack| && Depth(b.rest, |r.state.stack|, floor).Balanced?
      && Outgoing(Walk(|c.ops|, sums, b.rest, r.state), hi, exit, outs, log) && (calm ==> Benign(|c.ops|, sums, b.rest, r.state))
      && (b.op.BreakIf? ==> b.op.target in outs && Leq(r.state, outs[b.op.target]))
      && (b.rest == End ==> hi in outs && Leq(r.state, outs[hi]))
  {
    hide *;
    StepLayout(c.ops, lo, hi, b, exit);
    StepHeights(sums, lo, b, s, floor);
    StepWalk(|c.ops|, sums, lo, hi, b, s, exit, outs, log);
    if calm { StepBenign(|c.ops|, sums, lo, b, s); }
  }

  lemma StepLayout(ops: seq<Op>, lo: nat, hi: nat, b: Block, exit: Option<nat>)
    requires Laid(ops, lo, hi, b) && BreaksLeave(b, exit) && b.Step?
    ensures lo < hi <= |ops| && ops[lo] == b.op && b.ip == lo && Laid(ops, lo + 1, hi, b.rest) && !Delimiter(b.op)
    ensures BreaksLeave(b.rest, exit) && (b.op.BreakIf? ==> exit == Some(b.op.target))
  {}

  lemma StepHeights(sums: Summaries, lo: nat, b: Block, s: State, floor: nat)
    requires b.Step? && b.ip == lo && Ordinary(b.op) && floor <= |s.stack| && Depth(b, |s.stack|, floor).Balanced?
    ensures floor + Pops(b.op) <= |s.stack|
    ensures var r := Apply(sums, lo, b.op, s);
      r.Applied? ==> |r.state.locals| == |s.locals| && floor <= |r.state.stack| && Depth(b.rest, |r.state.stack|, floor).Balanced?
  {
    hide Produced, NoticesOf;
    ApplyShape(sums, lo, b.op, s, floor);
  }

  lemma StepWalk(size: nat, sums: Summaries, lo: nat, hi: nat, b: Block, s: State, exit: Option<nat>, outs: Ann, log: seq<Notice>)
    requires b.Step? && b.ip == lo && Ordinary(b.op) && (b.op.BreakIf? ==> exit == Some(b.op.target))
    requires Outgoing(Walk(size, sums, b, s), hi, exit, outs, log)
    ensures var r := Apply(sums, lo, b.op, s);
      && r.Applied? && LogLeq(r.log, log)
      && Outgoing(Walk(size, sums, b.rest, r.state), hi, exit, outs, log)
      && (b.op.BreakIf? ==> b.op.target in outs && Leq(r.state, outs[b.op.target]))
      && (b.rest == End ==> hi in outs && Leq(r.state, outs[hi]))
  {
    hide Apply, LogLeq, Leq;
    var r := Apply(sums, lo, b.op, s);
    OutgoingThen(BreakHere(b.op, r.state), r.log, Walk(size, sums, b.rest, r.state), hi, exit, outs, log);
    assert b.op.BreakIf? ==> r.state in BreakHere(b.op, r.state);
  }

  lemma StepBenign(size: nat, sums: Summaries, lo: nat, b: Block, s: State)
    requires b.Step? && b.ip == lo && Ordinary(b.op) && Benign(size, sums, b, s)
    ensures Clear(lo, b.op, s)
    ensures var r := Apply(sums, lo, b.op, s); r.Applied? ==> Benign(size, sums, b.rest, r.state)
  {
    hide Apply, Clear;
  }

  lemma {:induction false} AnnotateStep(c: Chunk, sums: Summaries, lo: nat, hi: nat, b: Block, s: State, floor: nat,
                                        exit: Option<nat>, outs: Ann, log: seq<Notice>, calm: bool)
    returns (a: Ann)
    requires Laid(c.ops, lo, hi, b) && BreaksLeave(b, exit) && b.Step? && Ordinary(b.op)
    requires floor <= |s.stack| && Depth(b, |s.stack|, floor).Balanced?
    requires calm ==> Benign(|c.ops|, sums, b, s)
    requires Outgoing(Walk(|c.ops|, sums, b, s), hi, exit, outs, log)
    requires forall k :: k in outs ==> hi <= k
    ensures forall k :: k in a ==> lo <= k < hi
    ensures lo in a && a[lo] == s
    ensures Describes(c, sums, log, a, outs + a, floor, |s.locals|, calm)
    decreases b, 1
  {
    var r := Apply(sums, lo, b.op, s);
    StepParts(c, sums, lo, hi, b, s, floor, exit, outs, log, calm);
    var rest: Ann;
    { hide *; rest := Annotate(c, sums, lo + 1, hi, b.rest, r.state, floor, exit, outs, log, calm); }
    assert lo + 1 == hi ==> b.rest == End;
    a := GlueStep(c, sums, lo, hi, s, r.state, floor, outs, log, rest, calm);
  }

  lemma GlueStep(c: Chunk, sums: Summaries, lo: nat, hi: nat, s: State, next: State, floor: nat,
                 outs: Ann, log: seq<Notice>, rest: Ann, calm: bool)
    returns (a: Ann)
    requires lo < hi <= |c.ops| && Ordinary(c.ops[lo]) && !Delimiter(c.ops[lo]) && floor + Pops(c.ops[lo]) <= |s.stack|
    requires calm ==> Clear(lo, c.ops[lo], s)
    requires Apply(sums, lo, c.ops[lo], s).Applied? && Apply(sums, lo, c.ops[lo], s).state == next && |next.locals| == |s.locals|
    requires LogLeq(Apply(sums, lo, c.ops[lo], s).log, log)
    requires c.ops[lo].BreakIf? ==> c.ops[lo].target in outs && Leq(next, outs[c.ops[lo].target])
    requires lo + 1 == hi ==> hi in outs && Leq(next, outs[hi])
    requires lo + 1 < hi ==> lo + 1 in rest && rest[lo + 1] == next
    requires forall k :: k in outs ==> hi <= k
    requires forall k :: k in rest ==> lo + 1 <= k < hi
    requires Describes(c, sums, log, rest, outs + rest, floor, |s.locals|, calm)
    ensures forall k :: k in a ==> lo <= k < hi
    ensures lo in a && a[lo] == s
    ensures Describes(c, sums, log, a, outs + a, floor, |s.locals|, calm)
  {
    hide Describes, LogLeq, Apply;
    a := map[lo := s] + rest;
    var t := outs + a;
    assert Extends(outs + rest, t);
    assert lo + 1 in t && Leq(next, t[lo + 1]);
    DescribesOne(c, sums, log, lo, s, t, floor, calm);
    Glue(c, sums, log, lo, lo + 1, hi, map[lo := s], t, rest, outs + rest, t, floor, |s.locals|, calm);
  }

  // ----- loops -----

  ghost predicate Continues(after: Option<State>, ip: nat, t: Ann) {
    after.Some? ==> ip in t && Leq(after.value, t[ip])
  }

  /** What a loop's body and the code after it meet. */
  lemma CycleParts(c: Chunk, sums: Summaries, lo: nat, hi: nat, b: Block, s: State, floor: nat,
                   exit: Option<nat>, outs: Ann, log: seq<Notice>, calm: bool)
    requires Laid(c.ops, lo, hi, b) && BreaksLeave(b, exit) && b.Cycle?
    requires floor <= |s.stack| && Depth(b, |s.stack|, floor).Balanced?
    requires Outgoing(Walk(|c.ops|, sums, b, s), hi, exit, outs, log)
    requires calm ==> Benign(|c.ops|, sums, b, s)
    ensures lo + 2 <= b.exit <= hi <= |c.ops| && c.ops[lo] == Loop(b.exit) && c.ops[b.exit - 1] == EndLoop(lo + 1)
    ensures Laid(c.ops, lo + 1, b.exit - 1, b.body) && BreaksLeave(b.body, Some(b.exit))
    ensures Laid(c.ops, b.exit, hi, b.rest) && BreaksLeave(b.rest, exit)
    ensures (b.exit == hi ==> b.rest == End) && LoopsEndBy(c.ops, lo + 1, b.exit - 1, b.exit - 1)
    ensures LoopBalanced(Depth(b.body, |s.stack|, |s.stack|), |s.stack|)
    ensures var f := LoopFix(|c.ops|, sums, b, s);
      && f.Fixed? && LogLeq(f.log, log) && (calm ==> Benign(|c.ops|, sums, b.body, f.head))
      && (AfterLoop(f).Some? ==>
            var after := AfterLoop(f).value;
            && (calm ==> Benign(|c.ops|, sums, b.rest, after))
            && |after.locals| == |s.locals| && floor <= |after.stack| && Depth(b.rest, |after.stack|, floor).Balanced?
            && Outgoing(Walk(|c.ops|, sums, b.rest, after), hi, exit, outs, log)
            && (b.rest == End ==> hi in outs && Leq(after, outs[hi])))
  {
    hide *;
    CycleShape(c.ops, lo, hi, b, exit);
    CycleHeights(|c.ops|, sums, b, s, floor);
    CycleWalk(|c.ops|, sums, b, s, hi, exit, outs, log);
    if calm { CycleBenign(|c.ops|, sums, b, s); }
    LoopsEndInside(c.ops, lo + 1, b.exit - 1, b.body);
  }

  lemma CycleHeights(size: nat, sums: Summaries, b: Block, s: State, floor: nat)
    requires b.Cycle? && floor <= |s.stack| && Depth(b, |s.stack|, floor).Balanced?
    ensures LoopBalanced(Depth(b.body, |s.stack|, |s.stack|), |s.stack|)
    ensures var f := LoopFix(size, sums, b, s);
      f.Fixed? && AfterLoop(f).Some? ==>
        var after := AfterLoop(f).value;
        |after.locals| == |s.locals| && floor <= |after.stack| && Depth(b.rest, |after.stack|, floor).Balanced?
  {
    hide LoopFix, AfterLoop;
    AfterLoopHeight(size, sums, b, s, floor);
  }

  lemma CycleWalk(size: nat, sums: Summaries, b: Block, s: State, hi: nat, exit: Option<nat>, outs: Ann, log: seq<Notice>)
    requires b.Cycle? && Outgoing(Walk(size, sums, b, s), hi, exit, outs, log)
    ensures var f := LoopFix(size, sums, b, s);
      && f.Fixed? && LogLeq(f.log, log)
      && (AfterLoop(f).Some? ==>
            && Outgoing(Walk(size, sums, b.rest, AfterLoop(f).value), hi, exit, outs, log)
            && (b.rest == End ==> hi in outs && Leq(AfterLoop(f).value, outs[hi])))
  {
    hide Leq, LogLeq;
    var f := LoopFix(size, sums, b, s);
    if f.Fixed? && AfterLoop(f).Some? {
      OutgoingThen([], f.log, Walk(size, sums, b.rest, AfterLoop(f).value), hi, exit, outs, log);
    }
  }

  lemma CycleBenign(size: nat, sums: Summaries, b: Block, s: State)
    requires b.Cycle? && Benign(size, sums, b, s)
    ensures var f := LoopFix(size, sums, b, s);
      f.Fixed? ==> Benign(size, sums, b.body, f.head) && (AfterLoop(f).Some? ==> Benign(size, sums, b.rest, AfterLoop(f).value))
  {}

  lemma CycleShape(ops: seq<Op>, lo: nat, hi: nat, b: Block, exit: Option<nat>)
    requires Laid(ops, lo, hi, b) && BreaksLeave(b, exit) && b.Cycle?
    ensures lo + 2 <= b.exit <= hi <= |ops| && ops[lo] == Loop(b.exit) && ops[b.exit - 1] == EndLoop(lo + 1)
    ensures Laid(ops, lo + 1, b.exit - 1, b.body) && BreaksLeave(b.body, Some(b.exit))
    ensures Laid(ops, b.exit, hi, b.rest) && BreaksLeave(b.rest, exit)
    ensures b.exit == hi ==> b.rest == End
  {
    LaidOpen(ops, lo, hi, b);
  }

  lemma {:induction false} AnnotateCycle(c: Chunk, sums: Summaries, lo: nat, hi: nat, b: Block, s: State, floor: nat,
                                         exit: Option<nat>, outs: Ann, log: seq<Notice>, calm: bool)
    returns (a: Ann)
    requires Laid(c.ops, lo, hi, b) && BreaksLeave(b, exit) && b.Cycle?
    requires floor <= |s.stack| && Depth(b, |s.stack|, floor).Balanced?
    requires calm ==> Benign(|c.ops|, sums, b, s)
    requires Outgoing(Walk(|c.ops|, sums, b, s), hi, exit, outs, log)
    requires forall k :: k in outs ==> hi <= k
    ensures forall k :: k in a ==> lo <= k < hi
    ensures lo in a && a[lo] == s
    ensures Describes(c, sums, log, a, outs + a, floor, |s.locals|, calm)
    decreases b, 1
  {
    hide *;
    var f := LoopFix(|c.ops|, sums, b, s);
    var after := AfterLoop(f);
    CycleParts(c, sums, lo, hi, b, s, floor, exit, outs, log, calm);
    var rest: Ann := map[];
    if after.Some? {
      rest := Annotate(c, sums, b.exit, hi, b.rest, after.value, floor, exit, outs, log, calm);
    } else {
      DescribesNothing(c, sums, log, outs + rest, floor, |s.locals|, calm);
    }
    ContinuesAt(after, b.exit, outs + rest);
    var body := AnnotateBody(c, sums, lo, hi, b, s, outs + rest, log, calm);
    a := GlueCycle(c, sums, lo, hi, b.exit, s, floor, outs, log, rest, body, calm);
  }

  lemma ContinuesAt(after: Option<State>, ip: nat, t: Ann)
    requires after.Some? ==> ip in t && (t[ip] == after.value || Leq(after.value, t[ip]))
    ensures Continues(after, ip, t)
  {}

  lemma CycleExtends(lo: nat, exit: nat, hi: nat, s: State, outs: Ann, rest: Ann, body: Ann)
    requires lo < exit <= hi
    requires forall k :: k in outs ==> hi <= k
    requires forall k :: k in rest ==> exit <= k < hi
    requires forall k :: k in body ==> lo < k < exit
    ensures var t := outs + (map[lo := s] + body + rest);
      && Extends(outs + rest + body, t) && Extends(outs + rest, t) && Extends(t, t)
      && (lo + 1 in body ==> lo + 1 in t && t[lo + 1] == body[lo + 1])
  {}

  lemma CycleLoopsEnd(ops: seq<Op>, lo: nat, exit: nat)
    requires lo + 2 <= exit <= |ops| && ops[lo] == Loop(exit) && ops[exit - 1] == EndLoop(lo + 1)
    requires LoopsEndBy(ops, lo + 1, exit - 1, exit - 1)
    ensures LoopsEndBy(ops, lo, exit, exit)
  {}

  lemma GlueCycle(c: Chunk, sums: Summaries, lo: nat, hi: nat, exit: nat, s: State, floor: nat,
                  outs: Ann, log: seq<Notice>, rest: Ann, body: Ann, calm: bool)
    returns (a: Ann)
    requires lo + 2 <= exit <= hi <= |c.ops| && c.ops[lo] == Loop(exit) && c.ops[exit - 1] == EndLoop(lo + 1)
    requires floor <= |s.stack| && LoopsEndBy(c.ops, lo + 1, exit - 1, exit - 1)
    requires forall k :: k in outs ==> hi <= k
    requires forall k :: k in rest ==> exit <= k < hi
    requires forall k :: k in body ==> lo < k < exit
    requires lo + 1 in body && Leq(s, body[lo + 1])
    requires Describes(c, sums, log, rest, outs + rest, floor, |s.locals|, calm)
    requires Describes(c, sums, log, body, outs + rest + body, |s.stack|, |s.locals|, calm)
    ensures forall k :: k in a ==> lo <= k < hi
    ensures lo in a && a[lo] == s
    ensures Describes(c, sums, log, a, outs + a, floor, |s.locals|, calm)
  {
    hide Describes, Leq, LoopsEndBy, Extends;
    var inside := map[lo := s] + body;
    a := inside + rest;
    var t := outs + a;
    CycleExtends(lo, exit, hi, s, outs, rest, body);
    CycleLoopsEnd(c.ops, lo, exit);
    GlueLoop(c, sums, log, lo, s, body, outs + rest + body, t, floor, calm);
    Glue(c, sums, log, lo, exit, hi, inside, t, rest, outs + rest, t, floor, |s.locals|, calm);
  }

  /** The body of a loop with its `EndLoop`, entered with the fixpoint. */
  lemma {:induction false} AnnotateBody(c: Chunk, sums: Summaries, lo: nat, hi: nat, b: Block, s: State,
                                        beyond: Ann, log: seq<Notice>, calm: bool)
    returns (a: Ann)
    requires b.Cycle? && lo + 2 <= b.exit <= hi <= |c.ops| && c.ops[b.exit - 1] == EndLoop(lo + 1)
    requires Laid(c.ops, lo + 1, b.exit - 1, b.body) && BreaksLeave(b.body, Some(b.exit))
    requires LoopBalanced(Depth(b.body, |s.stack|, |s.stack|), |s.stack|)
    requires LoopFix(|c.ops|, sums, b, s).Fixed? && LogLeq(LoopFix(|c.ops|, sums, b, s).log, log)
    requires calm ==> Benign(|c.ops|, sums, b.body, LoopFix(|c.ops|, sums, b, s).head)
    requires Continues(AfterLoop(LoopFix(|c.ops|, sums, b, s)), b.exit, beyond)
    requires forall k :: k in beyond ==> b.exit <= k
    ensures forall k :: k in a ==> lo < k < b.exit
    ensures lo + 1 in a && Leq(s, a[lo + 1])
    ensures Describes(c, sums, log, a, beyond + a, |s.stack|, |s.locals|, calm)
    decreases b, 0
  {
    hide *;
    BodyOutgoing(c, sums, b, s, beyond, log);
    BodyEnds(c, sums, lo, b, s, beyond);
    BodyLayout(c, lo, b);
    var out, f := b.exit, LoopFix(|c.ops|, sums, b, s);
    var bottom := BottomOf(b, f);
    var body := Annotate(c, sums, lo + 1, out - 1, b.body, f.head, |s.stack|, Some(out), beyond + bottom, log, calm);
    a := GlueBody(c, sums, lo, out, f, s, beyond, log, bottom, body, calm);
  }

  lemma BodyLayout(c: Chunk, lo: nat, b: Block)
    requires b.Cycle? && lo + 2 <= b.exit <= |c.ops| && Laid(c.ops, lo + 1, b.exit - 1, b.body)
    ensures lo + 1 == b.exit - 1 ==> b.body == End
    ensures LoopsEndBy(c.ops, lo + 1, b.exit - 1, b.exit - 1)
  {
    LoopsEndInside(c.ops, lo + 1, b.exit - 1, b.body);
  }

  lemma GlueBody(c: Chunk, sums: Summaries, lo: nat, out: nat, f: Fixed, s: State, beyond: Ann, log: seq<Notice>,
                 bottom: Ann, body: Ann, calm: bool)
    returns (a: Ann)
    requires lo + 2 <= out <= |c.ops| && c.ops[out - 1] == EndLoop(lo + 1) && LoopsEndBy(c.ops, lo + 1, out - 1, out - 1)
    requires f.Fixed? && Leq(s, f.head) && f.head.stack == s.stack
    requires f.bodyEnd.Some? ==> Leq(f.bodyEnd.value, f.head)
    requires bottom == if f.bodyEnd.Some? then map[out - 1 := f.bodyEnd.value] else map[]
    requires lo + 1 < out - 1 ==> lo + 1 in body && body[lo + 1] == f.head
    requires lo + 1 == out - 1 ==> f.bodyEnd == Some(f.head)
    requires f.bodyEnd.Some? ==> EndsUnder(c.ops, out - 1, f.bodyEnd.value, beyond)
    requires forall k :: k in beyond ==> out <= k
    requires forall k :: k in body ==> lo + 1 <= k < out - 1
    requires Describes(c, sums, log, body, beyond + bottom + body, |s.stack|, |f.head.locals|, calm)
    ensures forall k :: k in a ==> lo < k < out
    ensures lo + 1 in a && Leq(s, a[lo + 1])
    ensures Describes(c, sums, log, a, beyond + a, |s.stack|, |s.locals|, calm)
  {
    hide *;
    a := body + bottom;
    var t := beyond + a;
    BodyExtends(lo, out, f, beyond, bottom, body);
    LocalsSame(s, f.head);
    LeqReflexive(Some(f.head));
    BottomDescribed(c, sums, log, lo, out, f, s, beyond, bottom, t, calm);
    Glue(c, sums, log, lo + 1, out - 1, out, body, beyond + bottom + body, bottom, t, t, |s.stack|, |s.locals|, calm);
  }

  lemma LocalsSame(a: State, b: State)
    requires Leq(a, b)
    ensures |a.locals| == |b.locals|
  {}

  lemma BodyExtends(lo: nat, out: nat, f: Fixed, beyond: Ann, bottom: Ann, body: Ann)
    requires lo + 2 <= out && f.Fixed?
    requires bottom == if f.bodyEnd.Some? then map[out - 1 := f.bodyEnd.value] else map[]
    requires lo + 1 < out - 1 ==> lo + 1 in body && body[lo + 1] == f.head
    requires lo + 1 == out - 1 ==> f.bodyEnd == Some(f.head)
    requires forall k :: k in beyond ==> out <= k
    requires forall k :: k in body ==> lo + 1 <= k < out - 1
    ensures var t := beyond + (body + bottom);
      && Extends(beyond + bottom + body, t) && Extends(t, t) && lo + 1 in body + bottom && (body + bottom)[lo + 1] == f.head
      && lo + 1 in t && t[lo + 1] == f.head && (out in beyond ==> out in t && t[out] == beyond[out])
    ensures (forall k :: k in body + bottom ==> lo < k < out) && (forall k :: k in bottom ==> out - 1 <= k < out)
  {}

  lemma BottomDescribed(c: Chunk, sums: Summaries, log: seq<Notice>, lo: nat, out: nat, f: Fixed, s: State, beyond: Ann,
                        bottom: Ann, t: Ann, calm: bool)
    requires lo + 2 <= out <= |c.ops| && c.ops[out - 1] == EndLoop(lo + 1) && f.Fixed? && Leq(s, f.head) && f.head.stack == s.stack
    requires f.bodyEnd.Some? ==> Leq(f.bodyEnd.value, f.head) && EndsUnder(c.ops, out - 1, f.bodyEnd.value, beyond)
    requires bottom == if f.bodyEnd.Some? then map[out - 1 := f.bodyEnd.value] else map[]
    requires lo + 1 in t && t[lo + 1] == f.head && (out in beyond ==> out in t && t[out] == beyond[out])
    ensures Describes(c, sums, log, bottom, t, |s.stack|, |s.locals|, calm)
  {
    hide Describes, EndsUnder;
    if f.bodyEnd.Some? {
      EndsSame(c.ops, out - 1, f.bodyEnd.value, beyond, t);
      DescribesOn(c, sums, log, out - 1, f.bodyEnd.value, t, lo + 1, |s.stack|, calm);
    } else {
      DescribesNothing(c, sums, log, t, |s.stack|, |s.locals|, calm);
    }
  }

  lemma EndsSame(ops: seq<Op>, ip: nat, s: State, t: Ann, u: Ann)
    requires ip < |ops| && ops[ip].EndLoop? && EndsUnder(ops, ip, s, t)
    requires ip + 1 in t ==> ip + 1 in u && u[ip + 1] == t[ip + 1]
    ensures EndsUnder(ops, ip, s, u)
  {}

  /** What holds at the `EndLoop`. */
  function BottomOf(b: Block, f: Fixed): Ann
    requires b.Cycle? && 0 < b.exit && f.Fixed?
  {
    if f.bodyEnd.Some? then map[b.exit - 1 := f.bodyEnd.value] else map[]
  }

  lemma JoinedBelow(head: State, b: State)
    requires JoinStates(head, b) == head && |b.stack| == |head.stack| && |b.locals| == |head.locals|
    ensures Leq(b, head)
  {
    JoinAbove(head, b);
  }

  lemma BodyOutgoing(c: Chunk, sums: Summaries, b: Block, s: State, beyond: Ann, log: seq<Notice>)
    requires b.Cycle? && 0 < b.exit
    requires LoopBalanced(Depth(b.body, |s.stack|, |s.stack|), |s.stack|)
    requires LoopFix(|c.ops|, sums, b, s).Fixed? && LogLeq(LoopFix(|c.ops|, sums, b, s).log, log)
    requires Continues(AfterLoop(LoopFix(|c.ops|, sums, b, s)), b.exit, beyond)
    requires forall k :: k in beyond ==> b.exit <= k
    ensures var f := LoopFix(|c.ops|, sums, b, s);
      && Outgoing(Walk(|c.ops|, sums, b.body, f.head), b.exit - 1, Some(b.exit), beyond + BottomOf(b, f), log)
      && (forall k :: k in beyond + BottomOf(b, f) ==> b.exit - 1 <= k)
      && f.bodyEnd == Walk(|c.ops|, sums, b.body, f.head).fall
      && (b.body == End ==> f.bodyEnd == Some(f.head))
      && BottomOf(b, f) == (if f.bodyEnd.Some? then map[b.exit - 1 := f.bodyEnd.value] else map[])
      && LoopBalanced(Depth(b.body, |f.head.stack|, |f.head.stack|), |f.head.stack|)
      && Depth(b.body, |f.head.stack|, |f.head.stack|).Balanced?
      && Leq(s, f.head) && f.head.stack == s.stack
      && (f.bodyEnd.Some? ==> Leq(f.bodyEnd.value, f.head))
  {
    var f := LoopFix(|c.ops|, sums, b, s);
    FixIsClosed(|c.ops|, sums, b.body, s, RoundCap(|c.ops|, |s.locals|));
    FixFits(|c.ops|, sums, b.body, s, RoundCap(|c.ops|, |s.locals|));
    LogLeqTransitive(Walk(|c.ops|, sums, b.body, f.head).log, f.log, log);
    LoopBreaksReach(|c.ops|, sums, b, s, beyond);
    if f.bodyEnd.Some? {
      JoinedBelow(f.head, f.bodyEnd.value);
    }
  }

  /** The end of a loop's body lies under what goes on behind the loop. */
  lemma EndUnder(f: Fixed, exit: nat, beyond: Ann)
    requires Continues(AfterLoop(f), exit, beyond) && f.Fixed? && f.bodyEnd.Some?
    ensures exit in beyond && Under(f.bodyEnd.value, beyond[exit])
  {
    JoinAllUnder(f.bodyEnd, f.breaks);
    UnderTransitive(f.bodyEnd.value, AfterLoop(f).value, beyond[exit]);
  }

  lemma BodyEnds(c: Chunk, sums: Summaries, lo: nat, b: Block, s: State, beyond: Ann)
    requires b.Cycle? && lo + 2 <= b.exit <= |c.ops| && c.ops[b.exit - 1] == EndLoop(lo + 1)
    requires Laid(c.ops, lo + 1, b.exit - 1, b.body) && LoopBalanced(Depth(b.body, |s.stack|, |s.stack|), |s.stack|)
    requires LoopFix(|c.ops|, sums, b, s).Fixed? && Continues(AfterLoop(LoopFix(|c.ops|, sums, b, s)), b.exit, beyond)
    ensures var f := LoopFix(|c.ops|, sums, b, s); f.bodyEnd.Some? ==> EndsUnder(c.ops, b.exit - 1, f.bodyEnd.value, beyond)
  {
    hide Laid, BlockOf, Depth, Walk;
    var f, h := LoopFix(|c.ops|, sums, b, s), |s.stack|;
    LaidUnique(c.ops, lo + 1, b.exit - 1, b.body);
    FixFits(|c.ops|, sums, b.body, s, RoundCap(|c.ops|, |s.locals|));
    AfterLoopHeight(|c.ops|, sums, b, s, h);
    if f.bodyEnd.Some? {
      EndUnder(f, b.exit, beyond);
      assert |f.bodyEnd.value.stack| == h;
    }
  }

  lemma {:induction false} JoinAllUnder(a: Option<State>, bs: seq<State>)
    requires a.Some?
    ensures JoinAll(a, bs).Some? && Under(a.value, JoinAll(a, bs).value)
  {
    if bs != [] {
      var init := bs[..|bs| - 1];
      JoinAllUnder(a, init);
      UnderJoin(JoinAll(a, init).value, bs[|bs| - 1]);
      UnderTransitive(a.value, JoinAll(a, init).value, JoinAll(a, bs).value);
    }
  }

  lemma LoopBreaksReach(size: nat, sums: Summaries, b: Block, s: State, beyond: Ann)
    requires b.Cycle?
    requires LoopBalanced(Depth(b.body, |s.stack|, |s.stack|), |s.stack|)
    requires LoopFix(size, sums, b, s).Fixed?
    requires Continues(AfterLoop(LoopFix(size, sums, b, s)), b.exit, beyond)
    ensures BreaksReach(LoopFix(size, sums, b, s).breaks, Some(b.exit), beyond)
  {
    var f := LoopFix(size, sums, b, s);
    var after := AfterLoop(f);
    AfterLoopHeight(size, sums, b, s, |s.stack|);
    forall x | x in f.breaks
      ensures b.exit in beyond && Leq(x, beyond[b.exit])
    {
      var i :| 0 <= i < |f.breaks| && f.breaks[i] == x;
      JoinAllCovers(f.bodyEnd, f.breaks, x);
      assert Leq(x, after.value);
      LeqTransitive(x, after.value, beyond[b.exit]);
    }
  }

  // ----- branches -----

  lemma BranchLayout(c: Chunk, lo: nat, hi: nat, b: Block, exit: Option<nat>)
    requires Laid(c.ops, lo, hi, b) && BreaksLeave(b, exit) && b.Branch?
    ensures lo < hi <= |c.ops| && c.ops[lo].If? && Armed(c, lo, hi, b)
    ensures BreaksLeave(b.first, exit) && BreaksLeave(b.second, exit)
    ensures BreaksLeave(b.rest, exit)
    ensures var endIf := b.arms.endIf;
      && lo < endIf < hi && c.ops[endIf] == EndIf
      && Laid(c.ops, endIf + 1, hi, b.rest) && (endIf + 1 == hi ==> b.rest == End)
  {}

  lemma BranchLoops(c: Chunk, lo: nat, hi: nat, b: Block)
    requires Armed(c, lo, hi, b)
    ensures LoopsEndBy(c.ops, lo, b.arms.endIf, b.arms.endIf)
  {
    hide Laid;
    var arms := b.arms;
    LoopsEndInside(c.ops, lo + 1, arms.thenEnd, b.first);
    LoopsEndInside(c.ops, arms.elseStart, arms.endIf, b.second);
  }

  predicate ArmsBenign(size: nat, sums: Summaries, b: Block, s: State)
    requires b.Branch?
  {
    var r := Apply(sums, b.ip, If(b.target), s);
    r.Applied? ==> Benign(size, sums, b.first, r.state) && Benign(size, sums, b.second, r.state)
  }

  /** What the arms of a branch and the code after it meet. */
  lemma BranchParts(c: Chunk, sums: Summaries, hi: nat, b: Block, s: State, floor: nat,
                    exit: Option<nat>, outs: Ann, log: seq<Notice>, calm: bool)
    requires b.Branch?
    requires floor <= |s.stack| && Depth(b, |s.stack|, floor).Balanced?
    requires Outgoing(Walk(|c.ops|, sums, b, s), hi, exit, outs, log)
    requires calm ==> Benign(|c.ops|, sums, b, s)
    ensures ArmHeights(b, |s.stack|, floor).Balanced? && (calm ==> ArmsBenign(|c.ops|, sums, b, s))
    ensures var m := ArmsMet(|c.ops|, sums, b, s);
      && m.Walked? && LogLeq(m.log, log) && BreaksReach(m.breaks, exit, outs)
      && (m.fall.Some? ==>
            && |m.fall.value.locals| == |s.locals| && floor <= |m.fall.value.stack|
            && Depth(b.rest, |m.fall.value.stack|, floor).Balanced?
            && Outgoing(Walk(|c.ops|, sums, b.rest, m.fall.value), hi, exit, outs, log)
            && (calm ==> Benign(|c.ops|, sums, b.rest, m.fall.value))
            && (b.rest == End ==> hi in outs && Leq(m.fall.value, outs[hi])))
  {
    var m := ArmsMet(|c.ops|, sums, b, s);
    ArmsFit(|c.ops|, sums, b, s, floor);
    if m.fall.Some? {
      OutgoingThen(m.breaks, m.log, Walk(|c.ops|, sums, b.rest, m.fall.value), hi, exit, outs, log);
    }
  }

  /** Where a branch and its parts lie. */
  predicate Armed(c: Chunk, lo: nat, hi: nat, b: Block) {
    b.Branch? && LaidParts(c.ops, lo, hi, b)
  }

  lemma {:induction false} AnnotateBranch(c: Chunk, sums: Summaries, lo: nat, hi: nat, b: Block, s: State, floor: nat,
                                          exit: Option<nat>, outs: Ann, log: seq<Notice>, calm: bool)
    returns (a: Ann)
    requires Laid(c.ops, lo, hi, b) && BreaksLeave(b, exit) && b.Branch?
    requires floor <= |s.stack| && Depth(b, |s.stack|, floor).Balanced?
    requires calm ==> Benign(|c.ops|, sums, b, s)
    requires Outgoing(Walk(|c.ops|, sums, b, s), hi, exit, outs, log)
    requires forall k :: k in outs ==> hi <= k
    ensures forall k :: k in a ==> lo <= k < hi
    ensures lo in a && a[lo] == s
    ensures Describes(c, sums, log, a, outs + a, floor, |s.locals|, calm)
    decreases b, 1
  {
    hide *;
    BranchLayout(c, lo, hi, b, exit);
    BranchLoops(c, lo, hi, b);
    BranchParts(c, sums, hi, b, s, floor, exit, outs, log, calm);
    var m, met := b.arms, ArmsMet(|c.ops|, sums, b, s);
    var joined: Ann := map[];
    if met.fall.Some? {
      var rest := Annotate(c, sums, m.endIf + 1, hi, b.rest, met.fall.value, floor, exit, outs, log, calm);
      joined := GlueJoined(c, sums, m.endIf, hi, met.fall.value, floor, outs, log, rest, calm);
    } else {
      DescribesNothing(c, sums, log, outs + joined, floor, |s.locals|, calm);
    }
    ArmsLeave(met, m.endIf, hi, exit, outs, joined, log);
    var arms := AnnotateArms(c, sums, lo, hi, b, s, floor, exit, outs + joined, log, calm);
    a := GlueBranch(c, sums, lo, m.endIf, hi, s, floor, outs, log, arms, joined, calm);
  }

  lemma ArmsLeave(met: Walked, endIf: nat, hi: nat, exit: Option<nat>, outs: Ann, joined: Ann, log: seq<Notice>)
    requires met.Walked? && LogLeq(met.log, log) && BreaksReach(met.breaks, exit, outs)
    requires met.fall.Some? ==> endIf in joined && joined[endIf] == met.fall.value
    requires forall k :: k in joined ==> k < hi
    requires forall k :: k in outs ==> hi <= k
    ensures Outgoing(met, endIf, exit, outs + joined, log)
  {}

  lemma GlueJoined(c: Chunk, sums: Summaries, endIf: nat, hi: nat, j: State, floor: nat,
                   outs: Ann, log: seq<Notice>, rest: Ann, calm: bool)
    returns (a: Ann)
    requires endIf < hi <= |c.ops| && c.ops[endIf] == EndIf && floor <= |j.stack|
    requires endIf + 1 < hi ==> endIf + 1 in rest && rest[endIf + 1] == j
    requires endIf + 1 == hi ==> hi in outs && Leq(j, outs[hi])
    requires forall k :: k in outs ==> hi <= k
    requires forall k :: k in rest ==> endIf + 1 <= k < hi
    requires Describes(c, sums, log, rest, outs + rest, floor, |j.locals|, calm)
    ensures forall k :: k in a ==> endIf <= k < hi
    ensures endIf in a && a[endIf] == j
    ensures Describes(c, sums, log, a, outs + a, floor, |j.locals|, calm)
  {
    hide Describes;
    a := map[endIf := j] + rest;
    var t := outs + a;
    assert Extends(outs + rest, t);
    assert endIf + 1 in t && Leq(j, t[endIf + 1]);
    DescribesOn(c, sums, log, endIf, j, t, endIf + 1, floor, calm);
    Glue(c, sums, log, endIf, endIf + 1, hi, map[endIf := j], t, rest, outs + rest, t, floor, |j.locals|, calm);
  }

  lemma GlueBranch(c: Chunk, sums: Summaries, lo: nat, endIf: nat, hi: nat, s: State, floor: nat,
                   outs: Ann, log: seq<Notice>, arms: Ann, joined: Ann, calm: bool)
    returns (a: Ann)
    requires lo < endIf < hi <= |c.ops| && LoopsEndBy(c.ops, lo, endIf, endIf)
    requires forall k :: k in outs ==> hi <= k
    requires forall k :: k in arms ==> lo <= k < endIf
    requires forall k :: k in joined ==> endIf <= k < hi
    requires lo in arms && arms[lo] == s
    requires Describes(c, sums, log, arms, outs + joined + arms, floor, |s.locals|, calm)
    requires Describes(c, sums, log, joined, outs + joined, floor, |s.locals|, calm)
    ensures forall k :: k in a ==> lo <= k < hi
    ensures lo in a && a[lo] == s
    ensures Describes(c, sums, log, a, outs + a, floor, |s.locals|, calm)
  {
    hide Describes;
    a := arms + joined;
    var t := outs + a;
    assert Extends(outs + joined + arms, t);
    assert Extends(outs + joined, t);
    Glue(c, sums, log, lo, endIf, hi, arms, outs + joined + arms, joined, outs + joined, t, floor, |s.locals|, calm);
  }

  /** The branch and both its arms, up to the `EndIf`. */
  lemma {:induction false} AnnotateArms(c: Chunk, sums: Summaries, lo: nat, hi: nat, b: Block, s: State, floor: nat,
                                        exit: Option<nat>, beyond: Ann, log: seq<Notice>, calm: bool)
    returns (a: Ann)
    requires Armed(c, lo, hi, b)
    requires BreaksLeave(b.first, exit) && BreaksLeave(b.second, exit)
    requires floor <= |s.stack| && ArmHeights(b, |s.stack|, floor).Balanced?
    requires calm ==> ArmsBenign(|c.ops|, sums, b, s)
    requires Outgoing(ArmsMet(|c.ops|, sums, b, s), b.arms.endIf, exit, beyond, log)
    requires forall k :: k in beyond ==> b.arms.endIf <= k
    ensures forall k :: k in a ==> lo <= k < b.arms.endIf
    ensures lo in a && a[lo] == s
    ensures Describes(c, sums, log, a, beyond + a, floor, |s.locals|, calm)
    decreases b, 0
  {
    hide *;
    ArmsLayout(c, lo, hi, b);
    ArmsOutgoing(c, sums, lo, b, s, floor, exit, beyond, log, calm);
    var m, r := b.arms, Apply(sums, lo, If(b.target), s);
    var x := Walk(|c.ops|, sums, b.first, r.state);
    var jump := JumpOf(m, x);
    var second := Annotate(c, sums, m.elseStart, m.endIf, b.second, r.state, floor, exit, beyond, log, calm);
    var first := Annotate(c, sums, lo + 1, m.thenEnd, b.first, r.state, floor, exit, beyond + jump, log, calm);
    a := GlueArms(c, sums, lo, m, s, r, x, floor, beyond, log, first, second, calm);
  }

  lemma ArmsLayout(c: Chunk, lo: nat, hi: nat, b: Block)
    requires Armed(c, lo, hi, b)
    ensures b.Branch? && b.ip == lo < hi <= |c.ops| && c.ops[lo] == If(b.target) && b.arms == ArmsOf(c.ops, lo)
    ensures lo < b.arms.thenEnd <= b.arms.elseStart <= b.arms.endIf < hi
    ensures b.arms.thenEnd == b.arms.elseStart ==> b.arms.thenEnd == b.arms.endIf
    ensures Laid(c.ops, lo + 1, b.arms.thenEnd, b.first) && Laid(c.ops, b.arms.elseStart, b.arms.endIf, b.second)
    ensures lo + 1 == b.arms.thenEnd ==> b.first == End
    ensures b.arms.elseStart == b.arms.endIf ==> b.second == End
    ensures LoopsEndBy(c.ops, lo + 1, b.arms.thenEnd, b.arms.thenEnd)
  {
    LoopsEndInside(c.ops, lo + 1, b.arms.thenEnd, b.first);
  }

  /** What holds at the `Else`, if there is one and it is reached. */
  function JumpOf(m: Arms, x: Walked): Ann {
    if m.thenEnd < m.elseStart && x.Walked? && x.fall.Some? then map[m.thenEnd := x.fall.value] else map[]
  }

  lemma ArmsOutgoing(c: Chunk, sums: Summaries, lo: nat, b: Block, s: State, floor: nat,
                     exit: Option<nat>, beyond: Ann, log: seq<Notice>, calm: bool)
    requires b.Branch? && b.ip == lo < |c.ops| && c.ops[lo] == If(b.target) && If(b.target).If?
    requires floor <= |s.stack| && ArmHeights(b, |s.stack|, floor).Balanced?
    requires b.arms.thenEnd <= b.arms.elseStart <= b.arms.endIf < |c.ops|
    requires b.arms.thenEnd == b.arms.elseStart ==> b.arms.thenEnd == b.arms.endIf
    requires calm ==> ArmsBenign(|c.ops|, sums, b, s)
    requires Outgoing(ArmsMet(|c.ops|, sums, b, s), b.arms.endIf, exit, beyond, log)
    requires forall k :: k in beyond ==> b.arms.endIf <= k
    ensures var m, r := b.arms, Apply(sums, lo, If(b.target), s);
      && r.Applied? && LogLeq(r.log, log) && floor + 1 <= |s.stack|
      && |r.state.locals| == |s.locals| && floor <= |r.state.stack|
      && Depth(b.first, |r.state.stack|, floor).Balanced? && Depth(b.second, |r.state.stack|, floor).Balanced?
      && (calm ==> Benign(|c.ops|, sums, b.first, r.state) && Benign(|c.ops|, sums, b.second, r.state))
      && Outgoing(Walk(|c.ops|, sums, b.second, r.state), m.endIf, exit, beyond, log)
      && (b.second == End ==> m.endIf in beyond && Leq(r.state, beyond[m.endIf]))
      && var x := Walk(|c.ops|, sums, b.first, r.state);
        && x.Walked? && Continues(x.fall, m.endIf, beyond)
        && Outgoing(x, m.thenEnd, exit, beyond + JumpOf(m, x), log)
        && (forall k :: k in beyond + JumpOf(m, x) ==> m.thenEnd <= k)
        && (b.first == End ==> x.fall == Some(r.state))
        && (x.fall.Some? ==> |x.fall.value.locals| == |s.locals| && floor <= |x.fall.value.stack|)
  {
    var m, r := b.arms, Apply(sums, lo, If(b.target), s);
    var x, y := Walk(|c.ops|, sums, b.first, r.state), Walk(|c.ops|, sums, b.second, r.state);
    ApplyShape(sums, lo, If(b.target), s, floor);
    WalkFits(|c.ops|, sums, b.first, r.state, floor);
    WalkFits(|c.ops|, sums, b.second, r.state, floor);
    OutgoingMeet(r.log, x, y, m.endIf, exit, beyond, log);
    OutgoingJump(m, x, exit, beyond, log);
  }

  lemma OutgoingJump(m: Arms, x: Walked, exit: Option<nat>, beyond: Ann, log: seq<Notice>)
    requires m.thenEnd <= m.elseStart <= m.endIf && (m.thenEnd == m.elseStart ==> m.thenEnd == m.endIf)
    requires Outgoing(x, m.endIf, exit, beyond, log)
    requires forall k :: k in beyond ==> m.endIf <= k
    ensures Outgoing(x, m.thenEnd, exit, beyond + JumpOf(m, x), log)
  {}

  lemma GlueArms(c: Chunk, sums: Summaries, lo: nat, m: Arms, s: State, r: Applied, x: Walked, floor: nat,
                 beyond: Ann, log: seq<Notice>, first: Ann, second: Ann, calm: bool)
    returns (a: Ann)
    requires lo < m.thenEnd <= m.elseStart <= m.endIf < |c.ops| && c.ops[lo].If? && m == ArmsOf(c.ops, lo)
    requires r == Apply(sums, lo, c.ops[lo], s) && r.Applied? && LogLeq(r.log, log) && floor + 1 <= |s.stack|
    requires x.Walked? && Continues(x.fall, m.endIf, beyond)
    requires x.fall.Some? ==> |x.fall.value.locals| == |s.locals| && floor <= |x.fall.value.stack|
    requires lo + 1 == m.thenEnd ==> x.fall == Some(r.state)
    requires m.elseStart == m.endIf ==> m.endIf in beyond && Leq(r.state, beyond[m.endIf])
    requires LoopsEndBy(c.ops, lo + 1, m.thenEnd, m.thenEnd)
    requires forall k :: k in first ==> lo < k < m.thenEnd
    requires forall k :: k in second ==> m.elseStart <= k < m.endIf
    requires lo + 1 < m.thenEnd ==> lo + 1 in first && first[lo + 1] == r.state
    requires m.elseStart < m.endIf ==> m.elseStart in second && second[m.elseStart] == r.state
    requires Describes(c, sums, log, first, beyond + JumpOf(m, x) + first, floor, |s.locals|, calm)
    requires Describes(c, sums, log, second, beyond + second, floor, |s.locals|, calm)
    requires forall k :: k in beyond ==> m.endIf <= k
    ensures forall k :: k in a ==> lo <= k < m.endIf
    ensures lo in a && a[lo] == s
    ensures Describes(c, sums, log, a, beyond + a, floor, |s.locals|, calm)
  {
    hide *;
    var jump := JumpOf(m, x);
    a := map[lo := s] + first + jump + second;
    var t := beyond + a;
    LoopsBeforeArms(c.ops, lo, m);
    ArmsEntered(lo, m, s, r.state, x, beyond, first, second);
    DescribesIf(c, sums, log, lo, s, t, floor, calm);
    if m.thenEnd < m.elseStart && x.fall.Some? {
      ElseJumps(c.ops, m);
      DescribesOn(c, sums, log, m.thenEnd, x.fall.value, t, m.endIf, floor, calm);
    } else {
      DescribesNothing(c, sums, log, t, floor, |s.locals|, calm);
    }
    GlueArmParts(c, sums, log, lo, m, s, first, jump, second, beyond + jump + first, beyond + second, t, floor, calm);
  }

  lemma ElseJumps(ops: seq<Op>, m: Arms)
    requires m.thenEnd < |ops| && ops[m.thenEnd] == Else(m.endIf)
    ensures Successors(ops, m.thenEnd) == {m.endIf}
  {}

  lemma GlueArmParts(c: Chunk, sums: Summaries, log: seq<Notice>, lo: nat, m: Arms, s: State, first: Ann, jump: Ann, second: Ann,
                     t1: Ann, t2: Ann, t: Ann, floor: nat, calm: bool)
    requires lo < m.thenEnd <= m.elseStart <= m.endIf < |c.ops|
    requires LoopsEndBy(c.ops, lo, lo + 1, lo + 1) && LoopsEndBy(c.ops, lo, m.thenEnd, m.thenEnd)
    requires LoopsEndBy(c.ops, lo, m.elseStart, m.elseStart)
    requires forall k :: k in first ==> lo < k < m.thenEnd
    requires forall k :: k in jump ==> m.thenEnd <= k < m.elseStart
    requires forall k :: k in second ==> m.elseStart <= k < m.endIf
    requires Describes(c, sums, log, map[lo := s], t, floor, |s.locals|, calm) && Extends(t, t)
    requires Describes(c, sums, log, first, t1, floor, |s.locals|, calm) && Extends(t1, t)
    requires Describes(c, sums, log, jump, t, floor, |s.locals|, calm)
    requires Describes(c, sums, log, second, t2, floor, |s.locals|, calm) && Extends(t2, t)
    ensures var a := map[lo := s] + first + jump + second;
      && Describes(c, sums, log, a, t, floor, |s.locals|, calm)
      && (forall k :: k in a ==> lo <= k < m.endIf)
      && lo in a && a[lo] == s
  {
    hide *;
    Glue(c, sums, log, lo, lo + 1, m.thenEnd, map[lo := s], t, first, t1, t, floor, |s.locals|, calm);
    Glue(c, sums, log, lo, m.thenEnd, m.elseStart, map[lo := s] + first, t, jump, t, t, floor, |s.locals|, calm);
    Glue(c, sums, log, lo, m.elseStart, m.endIf, map[lo := s] + first + jump, t, second, t2, t, floor, |s.locals|, calm);
  }

  lemma LoopsBeforeArms(ops: seq<Op>, lo: nat, m: Arms)
    requires lo < m.thenEnd <= m.elseStart <= m.endIf < |ops| && ops[lo].If? && m == ArmsOf(ops, lo)
    requires LoopsEndBy(ops, lo + 1, m.thenEnd, m.thenEnd)
    ensures LoopsEndBy(ops, lo, lo + 1, lo + 1) && LoopsEndBy(ops, lo, m.thenEnd, m.thenEnd)
    ensures LoopsEndBy(ops, lo, m.elseStart, m.elseStart)
    ensures m.thenEnd == m.elseStart || (m.elseStart == m.thenEnd + 1 && ops[m.thenEnd] == Else(m.endIf))
    ensures m.thenEnd == m.elseStart ==> m.thenEnd == m.endIf
  {}

  lemma DescribesIf(c: Chunk, sums: Summaries, log: seq<Notice>, lo: nat, s: State, t: Ann, floor: nat, calm: bool)
    requires lo < |c.ops| && c.ops[lo].If?
    requires Apply(sums, lo, c.ops[lo], s).Applied? && LogLeq(Apply(sums, lo, c.ops[lo], s).log, log) && floor + 1 <= |s.stack|
    requires var next, m := Apply(sums, lo, c.ops[lo], s).state, ArmsOf(c.ops, lo);
      && lo + 1 in t && Leq(next, t[lo + 1])
      && m.elseStart in t && Leq(next, t[m.elseStart])
    ensures Describes(c, sums, log, map[lo := s], t, floor, |s.locals|, calm)
  {
    hide LogLeq, Leq, Apply;
    DescribesOne(c, sums, log, lo, s, t, floor, calm);
  }

  lemma ArmsEntered(lo: nat, m: Arms, s: State, entered: State, x: Walked, beyond: Ann, first: Ann, second: Ann)
    requires lo < m.thenEnd <= m.elseStart <= m.endIf && (m.thenEnd == m.elseStart ==> m.thenEnd == m.endIf)
    requires x.Walked? && Continues(x.fall, m.endIf, beyond)
    requires lo + 1 == m.thenEnd ==> x.fall == Some(entered)
    requires m.elseStart == m.endIf ==> m.endIf in beyond && Leq(entered, beyond[m.endIf])
    requires forall k :: k in first ==> lo < k < m.thenEnd
    requires forall k :: k in second ==> m.elseStart <= k < m.endIf
    requires lo + 1 < m.thenEnd ==> lo + 1 in first && first[lo + 1] == entered
    requires m.elseStart < m.endIf ==> m.elseStart in second && second[m.elseStart] == entered
    requires forall k :: k in beyond ==> m.endIf <= k
    ensures var t := beyond + (map[lo := s] + first + JumpOf(m, x) + second);
      && lo + 1 in t && Leq(entered, t[lo + 1])
      && m.elseStart in t && Leq(entered, t[m.elseStart])
      && Extends(beyond + JumpOf(m, x) + first, t)
      && Extends(beyond + second, t)
      && (x.fall.Some? ==> m.endIf in t && Leq(x.fall.value, t[m.endIf]))
      && Extends(t, t)
      && JumpOf(m, x) == (if m.thenEnd < m.elseStart && x.fall.Some? then map[m.thenEnd := x.fall.value] else map[])
  {
    hide Leq, Extends;
    var t := beyond + (map[lo := s] + first + JumpOf(m, x) + second);
    LeqReflexive(Some(entered));
    LeqReflexive(x.fall);
    ExtendsMore(beyond + JumpOf(m, x) + first, t);
    ExtendsMore(beyond + second, t);
    ExtendsMore(t, t);
  }

  lemma ExtendsMore(a: Ann, b: Ann)
    requires forall k :: k in a ==> k in b && b[k] == a[k]
    ensures Extends(a, b)
  {}

  // ----- the whole chunk -----

  /** A completed run of a verified chunk describes every address its code can reach; a benign one by a
      state that is clear there. */
  lemma AnnotateChunk(c: Chunk, sums: Summaries, seed: seq<Alias>) returns (a: Ann)
    requires Verified(c) && |seed| == c.localCount
    requires Interpret(c, seed, sums).Walked?
    ensures 0 in a && a[0] == State([], seed)
    ensures forall k :: k in a ==> k <= |c.ops|
    ensures forall k :: k in a && k < |c.ops| ==> Flows(c, sums, Interpret(c, seed, sums).log, k, a[k], a)
    ensures forall k :: k in a && k < |c.ops| ==> Sized(c, k, a[k], 0, c.localCount, BenignFrom(c, sums, seed))
    ensures FloorsKept(c, a)
  {
    hide BlockOf, Depth, Walk, Laid, BreaksLeave, SlotInRange, Benign, Outgoing, Describes, Flows, Sized, FloorsKept;
    var b, r := BlockOf(c.ops, 0, |c.ops|).value, Interpret(c, seed, sums);
    var outs: Ann := if r.fall.Some? then map[|c.ops| := r.fall.value] else map[];
    ChunkOutgoing(c, sums, b, seed, outs);
    var inner: Ann;
    { hide *; inner := Annotate(c, sums, 0, |c.ops|, b, State([], seed), 0, None, outs, r.log, BenignFrom(c, sums, seed)); }
    a := outs + inner;
    ChunkDescribed(c, sums, r.log, outs, inner, BenignFrom(c, sums, seed));
  }

  lemma ChunkOutgoing(c: Chunk, sums: Summaries, b: Block, seed: seq<Alias>, outs: Ann)
    requires Laid(c.ops, 0, |c.ops|, b) && BreaksLeave(b, None) && Depth(b, 0, 0).Balanced?
    requires Walk(|c.ops|, sums, b, State([], seed)).Walked?
    requires var r := Walk(|c.ops|, sums, b, State([], seed));
      outs == if r.fall.Some? then map[|c.ops| := r.fall.value] else map[]
    ensures Outgoing(Walk(|c.ops|, sums, b, State([], seed)), |c.ops|, None, outs, Walk(|c.ops|, sums, b, State([], seed)).log)
    ensures |c.ops| == 0 ==> 0 in outs && outs[0] == State([], seed)
  {
    LaidOpen(c.ops, 0, |c.ops|, b);
    BreakFree(c, sums, b, seed);
    LeqReflexive(Walk(|c.ops|, sums, b, State([], seed)).fall);
  }

  lemma ChunkDescribed(c: Chunk, sums: Summaries, log: seq<Notice>, outs: Ann, inner: Ann, calm: bool)
    requires forall k :: k in outs ==> k == |c.ops|
    requires forall k :: k in inner ==> k < |c.ops|
    requires Describes(c, sums, log, inner, outs + inner, 0, c.localCount, calm)
    ensures forall k :: k in outs + inner && k < |c.ops| ==> Flows(c, sums, log, k, (outs + inner)[k], outs + inner)
    ensures forall k :: k in outs + inner && k < |c.ops| ==> Sized(c, k, (outs + inner)[k], 0, c.localCount, calm)
    ensures FloorsKept(c, outs + inner)
  {
    hide Flows;
  }

  lemma LeqReflexive(s: Option<State>)
    ensures s.Some? ==> Leq(s.value, s.value)
  {}

  /** No break leaves the outermost code. */
  lemma {:induction false} BreakFree(c: Chunk, sums: Summaries, b: Block, seed: seq<Alias>)
    requires BreaksLeave(b, None) && Depth(b, 0, 0).Balanced?
    requires Walk(|c.ops|, sums, b, State([], seed)).Walked?
    ensures Walk(|c.ops|, sums, b, State([], seed)).breaks == []
  {
    WalkFits(|c.ops|, sums, b, State([], seed), 0);
    NoBreakHeight(b, 0, 0);
  }

  lemma {:induction false} NoBreakHeight(b: Block, h: nat, floor: nat)
    requires BreaksLeave(b, None) && Depth(b, h, floor).Balanced?
    ensures Depth(b, h, floor).brk.None?
    decreases b
  {
    match b
    case End =>
    case Step(_, op, rest) =>
      if Ordinary(op) {
        NoBreakHeight(rest, h - Pops(op) + Pushes(op), floor);
      }
    case Branch(_, _, _, first, second, rest) =>
      NoBreakHeight(first, h - 1, floor);
      NoBreakHeight(second, h - 1, floor);
      var m := ArmHeights(b, h, floor);
      if m.fall.Some? {
        NoBreakHeight(rest, m.fall.value, floor);
      }
    case Cycle(_, _, body, rest) =>
      var after := AfterHeight(Depth(body, h, h), h);
      if after.Some? {
        NoBreakHeight(rest, after.value, floor);
      }
  }
}
