/** Shape facts about the walk of a chunk whose operand stack is disciplined: heights agree with
    the verifier's, the stack below a loop's entry height is untouched, the frame keeps its size. */
module ConfineShape {
  import opened Options
  import opened Bytecode
  import opened Confine

  /** `s` ends a range entered with `entry`: the given height, the frame's size, the floor kept. */
  predicate Reaches(entry: State, s: State, h: nat, floor: nat) {
    && |s.stack| == h && |s.locals| == |entry.locals|
    && floor <= h && floor <= |entry.stack|
    && s.stack[..floor] == entry.stack[..floor]
  }

  predicate ReachesAll(entry: State, bs: seq<State>, h: Option<nat>, floor: nat) {
    && (h.None? <==> bs == [])
    && forall i :: 0 <= i < |bs| ==> Reaches(entry, bs[i], h.value, floor)
  }

  predicate Fits(entry: State, r: Walked, d: Heights, floor: nat) {
    r.Walked? ==>
      && d.Balanced?
      && (r.fall.None? <==> d.fall.None?)
      && (r.fall.Some? ==> Reaches(entry, r.fall.value, d.fall.value, floor))
      && ReachesAll(entry, r.breaks, d.brk, floor)
  }

  lemma ApplyShape(sums: Summaries, ip: nat, op: Op, s: State, floor: nat)
    requires floor + Pops(op) <= |s.stack|
    ensures Apply(sums, ip, op, s).Applied? ==>
      Reaches(s, Apply(sums, ip, op, s).state, |s.stack| - Pops(op) + Pushes(op), floor)
  {
    var r := Apply(sums, ip, op, s);
    if r.Applied? {
      assert r.state.stack[..floor] == s.stack[..floor];
    }
  }

  lemma JoinReaches(e: State, a: State, b: State, h: nat, floor: nat)
    requires Reaches(e, a, h, floor) && Reaches(e, b, h, floor)
    ensures Reaches(e, JoinStates(a, b), h, floor)
  {
    var j := JoinStates(a, b);
    forall i | 0 <= i < floor
      ensures j.stack[i] == e.stack[i]
    {
      assert a.stack[..floor][i] == e.stack[..floor][i] == b.stack[..floor][i];
    }
  }

  lemma ThenFits(e: State, s: State, h: nat, breaks: seq<State>, brk: Option<nat>, log: seq<Notice>,
                 rest: Walked, d: Heights, floor: nat)
    requires Reaches(e, s, h, floor) && ReachesAll(e, breaks, brk, floor) && Fits(s, rest, d, floor)
    requires WithBreak(brk, d).Balanced?
    ensures Fits(e, Then(breaks, log, rest), WithBreak(brk, d), floor)
  {}

  lemma MeetFits(e: State, s: State, h: nat, log: seq<Notice>, x: Walked, y: Walked, dx: Heights, dy: Heights, floor: nat)
    requires Reaches(e, s, h, floor) && Fits(s, x, dx, floor) && Fits(s, y, dy, floor)
    requires MeetHeights(dx, dy).Balanced?
    ensures Fits(e, Meet(log, x, y), MeetHeights(dx, dy), floor)
  {
    if x.Walked? && y.Walked? {
      if x.fall.Some? && y.fall.Some? {
        JoinReaches(s, x.fall.value, y.fall.value, dx.fall.value, floor);
      }
    }
  }

  /** `s` keeps the floor at a height of at most `h`. */
  predicate ReachesBelow(e: State, s: State, h: nat, floor: nat) {
    |s.stack| <= h && Reaches(e, s, |s.stack|, floor)
  }

  lemma JoinPadded(e: State, a: State, b: State, h: nat, floor: nat)
    requires ReachesBelow(e, a, h, floor) && Reaches(e, b, h, floor)
    ensures Reaches(e, JoinStates(a, b), h, floor)
  {
    var j := JoinStates(a, b);
    forall i | 0 <= i < floor
      ensures j.stack[i] == e.stack[i]
    {
      assert a.stack[..floor][i] == e.stack[..floor][i] == b.stack[..floor][i];
    }
  }

  /** The breaks of a loop joined over its body end, which lies no higher than they do. */
  lemma JoinAllReaches(e: State, a: Option<State>, bs: seq<State>, h: nat, floor: nat)
    requires a.Some? ==> ReachesBelow(e, a.value, h, floor)
    requires forall i :: 0 <= i < |bs| ==> Reaches(e, bs[i], h, floor)
    ensures JoinAll(a, bs).None? <==> a.None? && bs == []
    ensures JoinAll(a, bs).Some? ==>
      if bs == [] then ReachesBelow(e, JoinAll(a, bs).value, h, floor) else Reaches(e, JoinAll(a, bs).value, h, floor)
  {
    if bs != [] {
      var n := |bs| - 1;
      JoinAllReaches(e, a, bs[..n], h, floor);
      var prev := JoinAll(a, bs[..n]);
      if prev.Some? {
        JoinPadded(e, prev.value, bs[n], h, floor);
      }
    }
  }

  // ----- the pieces of a walk -----

  /** What a branch amounts to once both arms are met. */
  function ArmsMet(size: nat, sums: Summaries, b: Block, s: State): Walked
    requires b.Branch?
  {
    var r := Apply(sums, b.ip, If(b.target), s);
    if r.Fault? then Derailed
    else Meet(r.log, Walk(size, sums, b.first, r.state), Walk(size, sums, b.second, r.state))
  }

  function ArmHeights(b: Block, h: nat, floor: nat): Heights
    requires b.Branch?
  {
    if h < floor + 1 then Unbalanced
    else MeetHeights(Depth(b.first, h - 1, floor), Depth(b.second, h - 1, floor))
  }

  function LoopFix(size: nat, sums: Summaries, b: Block, s: State): Fixed
    requires b.Cycle?
  {
    Fix(size, sums, b.body, s, RoundCap(size, |s.locals|))
  }

  function AfterLoop(f: Fixed): Option<State> {
    if f.Runaway? then None else JoinAll(f.bodyEnd, f.breaks)
  }

  predicate LoopBalanced(d: Heights, h: nat) {
    d.Balanced? && Agree(d.fall, Some(h))
  }

  /** The one instruction that is an ordinary transfer. */
  predicate Ordinary(op: Op) {
    !op.Trap? && !op.Return? && !op.Break?
  }

  function BreakHere(op: Op, s: State): seq<State> {
    if op.BreakIf? then [s] else []
  }

  // ----- heights -----

  /** The walk ends every way the verifier's height pass says it ends. */
  lemma {:induction false} WalkFits(size: nat, sums: Summaries, b: Block, s: State, floor: nat)
    requires floor <= |s.stack| && Depth(b, |s.stack|, floor).Balanced?
    ensures Fits(s, Walk(size, sums, b, s), Depth(b, |s.stack|, floor), floor)
    decreases b, 2
  {
    match b
    case End =>
    case Step(_, op, _) =>
      if Ordinary(op) {
        WalkFitsStep(size, sums, b, s, floor);
      }
    case Branch(_, _, _, _, _, _) => WalkFitsBranch(size, sums, b, s, floor);
    case Cycle(_, _, _, _) => WalkFitsCycle(size, sums, b, s, floor);
  }

  lemma {:induction false} WalkFitsStep(size: nat, sums: Summaries, b: Block, s: State, floor: nat)
    requires b.Step? && Ordinary(b.op)
    requires floor <= |s.stack| && Depth(b, |s.stack|, floor).Balanced?
    ensures Fits(s, Walk(size, sums, b, s), Depth(b, |s.stack|, floor), floor)
    decreases b, 1
  {
    var r := Apply(sums, b.ip, b.op, s);
    ApplyShape(sums, b.ip, b.op, s, floor);
    if r.Applied? {
      var h := |r.state.stack|;
      WalkFits(size, sums, b.rest, r.state, floor);
      ThenFits(s, r.state, h, BreakHere(b.op, r.state), if b.op.BreakIf? then Some(h) else None, r.log,
        Walk(size, sums, b.rest, r.state), Depth(b.rest, h, floor), floor);
    }
  }

  lemma {:induction false} ArmsFit(size: nat, sums: Summaries, b: Block, s: State, floor: nat)
    requires b.Branch? && floor <= |s.stack| && ArmHeights(b, |s.stack|, floor).Balanced?
    ensures Fits(s, ArmsMet(size, sums, b, s), ArmHeights(b, |s.stack|, floor), floor)
    decreases b, 0
  {
    var h, r := |s.stack|, Apply(sums, b.ip, If(b.target), s);
    ApplyShape(sums, b.ip, If(b.target), s, floor);
    if r.Applied? {
      WalkFits(size, sums, b.first, r.state, floor);
      WalkFits(size, sums, b.second, r.state, floor);
      MeetFits(s, r.state, h - 1, r.log, Walk(size, sums, b.first, r.state), Walk(size, sums, b.second, r.state),
        Depth(b.first, h - 1, floor), Depth(b.second, h - 1, floor), floor);
    }
  }

  lemma {:induction false} WalkFitsBranch(size: nat, sums: Summaries, b: Block, s: State, floor: nat)
    requires b.Branch? && floor <= |s.stack| && Depth(b, |s.stack|, floor).Balanced?
    ensures Fits(s, Walk(size, sums, b, s), Depth(b, |s.stack|, floor), floor)
    decreases b, 1
  {
    var m, d := ArmsMet(size, sums, b, s), ArmHeights(b, |s.stack|, floor);
    ArmsFit(size, sums, b, s, floor);
    if m.Walked? && m.fall.Some? {
      WalkFits(size, sums, b.rest, m.fall.value, floor);
      ThenFits(s, m.fall.value, d.fall.value, m.breaks, d.brk, m.log,
        Walk(size, sums, b.rest, m.fall.value), Depth(b.rest, d.fall.value, floor), floor);
    }
  }

  /** The state after a loop has the height its breaks agree on. */
  lemma {:induction false} AfterLoopHeight(size: nat, sums: Summaries, b: Block, s: State, floor: nat)
    requires b.Cycle? && floor <= |s.stack| && LoopBalanced(Depth(b.body, |s.stack|, |s.stack|), |s.stack|)
    ensures var f, h := LoopFix(size, sums, b, s), AfterHeight(Depth(b.body, |s.stack|, |s.stack|), |s.stack|);
      f.Fixed? ==>
        && (AfterLoop(f).None? <==> h.None?)
        && (h.Some? ==> Reaches(s, AfterLoop(f).value, h.value, floor))
        && (forall i :: 0 <= i < |f.breaks| ==> h.Some? && Reaches(s, f.breaks[i], h.value, |s.stack|))
    decreases b, 0
  {
    var f, h, d := LoopFix(size, sums, b, s), |s.stack|, Depth(b.body, |s.stack|, |s.stack|);
    FixFits(size, sums, b.body, s, RoundCap(size, |s.locals|));
    if f.Fixed? && AfterHeight(d, h).Some? {
      var ha := AfterHeight(d, h).value;
      assert f.breaks != [] ==> Reaches(s, f.breaks[0], ha, h);
      assert f.bodyEnd.Some? ==> ReachesBelow(s, f.bodyEnd.value, ha, floor);
      forall i | 0 <= i < |f.breaks|
        ensures Reaches(s, f.breaks[i], ha, floor)
      {
        assert f.breaks[i].stack[..floor] == f.breaks[i].stack[..h][..floor];
        assert s.stack[..h][..floor] == s.stack[..floor];
      }
      JoinAllReaches(s, f.bodyEnd, f.breaks, ha, floor);
    }
  }

  lemma {:induction false} WalkFitsCycle(size: nat, sums: Summaries, b: Block, s: State, floor: nat)
    requires b.Cycle? && floor <= |s.stack| && Depth(b, |s.stack|, floor).Balanced?
    ensures Fits(s, Walk(size, sums, b, s), Depth(b, |s.stack|, floor), floor)
    decreases b, 1
  {
    var f := LoopFix(size, sums, b, s);
    var h := AfterHeight(Depth(b.body, |s.stack|, |s.stack|), |s.stack|);
    AfterLoopHeight(size, sums, b, s, floor);
    if f.Fixed? && h.Some? {
      var after := AfterLoop(f).value;
      WalkFits(size, sums, b.rest, after, floor);
      ThenFits(s, after, h.value, [], None, f.log, Walk(size, sums, b.rest, after), Depth(b.rest, h.value, floor), floor);
    }
  }

  lemma WideningStack(head: State, be: State)
    requires Reaches(head, be, |head.stack|, |head.stack|)
    ensures be.stack == head.stack && JoinStates(head, be).stack == head.stack
  {
    assert be.stack == be.stack[..|head.stack|] == head.stack[..|head.stack|] == head.stack;
    var wide := JoinStates(head, be);
    assert forall i :: 0 <= i < |head.stack| ==> wide.stack[i] == head.stack[i] + head.stack[i] == head.stack[i];
  }

  /** The operand stack at the loop head never changes: only locals widen. */
  lemma {:induction false} FixFits(size: nat, sums: Summaries, body: Block, head: State, budget: nat)
    requires LoopBalanced(Depth(body, |head.stack|, |head.stack|), |head.stack|)
    ensures var f, d := Fix(size, sums, body, head, budget), Depth(body, |head.stack|, |head.stack|);
      f.Fixed? ==>
        && f.head.stack == head.stack && |f.head.locals| == |head.locals|
        && (f.bodyEnd.None? <==> d.fall.None?)
        && (f.bodyEnd.Some? ==> f.bodyEnd.value.stack == head.stack && |f.bodyEnd.value.locals| == |head.locals|)
        && ReachesAll(head, f.breaks, d.brk, |head.stack|)
    decreases body, 3, budget
  {
    var r := Walk(size, sums, body, head);
    WalkFits(size, sums, body, head, |head.stack|);
    if r.Walked? && r.fall.Some? {
      WideningStack(head, r.fall.value);
      var w := JoinStates(head, r.fall.value);
      if w != head && budget > 0 {
        FixFits(size, sums, body, w, budget - 1);
      }
    }
  }
}
