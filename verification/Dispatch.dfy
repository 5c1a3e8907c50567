/** The scope rule for dispatch loops: a loop that holds an unconditional break to its own exit is
    taken to run its body once. When that is so, and a loop for which it is not. */
module Dispatch {
  import opened Options
  import opened Bytecode
  import opened Confine
  import opened ConfineShape
  import opened ConfineTotal
  import opened Liveness
  import opened Loops

  // ----- which ends of a block control can reach -----

  predicate Stops(op: Op) {
    op.Trap? || op.Return? || op.Reset?
  }

  /** Can control run off the end of the block? */
  predicate Falls(b: Block) {
    match b
    case End => true
    case Step(_, op, rest) => !Stops(op) && !op.Break? && Falls(rest)
    case Branch(_, _, _, first, second, rest) => (Falls(first) || Falls(second)) && Falls(rest)
    case Cycle(_, _, body, rest) => Breaks(body) && Falls(rest)
  }

  /** Can control leave the block through a break of the loop around it? */
  predicate Breaks(b: Block) {
    match b
    case End => false
    case Step(_, op, rest) => op.Break? || op.BreakIf? || (!Stops(op) && Breaks(rest))
    case Branch(_, _, _, first, second, rest) => Breaks(first) || Breaks(second) || ((Falls(first) || Falls(second)) && Breaks(rest))
    case Cycle(_, _, body, rest) => Breaks(body) && Breaks(rest)
  }

  /** Can control be at address `k` of the block? */
  predicate Live(b: Block, k: nat) {
    match b
    case End => false
    case Step(ip, op, rest) => k == ip || (!Stops(op) && !op.Break? && Live(rest, k))
    case Branch(ip, _, a, first, second, rest) =>
      var falls := Falls(first) || Falls(second);
      if k <= ip then k == ip
      else if k < a.thenEnd then Live(first, k)
      else if k < a.elseStart then Falls(first)
      else if k < a.endIf then Live(second, k)
      else if k == a.endIf then falls
      else falls && Live(rest, k)
    case Cycle(ip, exit, body, rest) =>
      if k <= ip then k == ip
      else if k < exit - 1 then Live(body, k)
      else if k == exit - 1 then Falls(body)
      else Breaks(body) && Live(rest, k)
  }

  /** Can control go on at `n`, inside the block, behind it, or at the exit of the loop around it? */
  predicate GoesTo(b: Block, lo: nat, hi: nat, exit: Option<nat>, n: nat) {
    if lo <= n < hi then Live(b, n) else if n == hi then Falls(b) else exit == Some(n) && Breaks(b)
  }

  lemma EntryLive(ops: seq<Op>, lo: nat, hi: nat, b: Block, exit: Option<nat>)
    requires Laid(ops, lo, hi, b)
    ensures GoesTo(b, lo, hi, exit, lo)
  {
    LaidOpen(ops, lo, hi, b);
  }

  /** Whatever control reaches from a live address is live. */
  lemma {:induction false} EdgeLive(ops: seq<Op>, lo: nat, hi: nat, b: Block, exit: Option<nat>, k: nat, n: nat)
    requires Laid(ops, lo, hi, b) && BreaksLeave(b, exit) && (exit.Some? ==> hi < exit.value)
    requires lo <= k < hi && n in Successors(ops, k) && Live(b, k)
    ensures GoesTo(b, lo, hi, exit, n)
    decreases b, 2
  {
    LaidOpen(ops, lo, hi, b);
    hide Laid;
    match b
    case Step(_, op, rest) =>
      if k == lo {
        if !Stops(op) && !op.Break? {
          EntryLive(ops, lo + 1, hi, rest, exit);
        }
      } else {
        EdgeLive(ops, lo + 1, hi, rest, exit, k, n);
        EdgeInside(ops, lo + 1, hi, rest, exit, k, n);
      }
    case Branch(_, _, _, _, _, _) => EdgeLiveBranch(ops, lo, hi, b, exit, k, n);
    case Cycle(_, _, _, _) => EdgeLiveCycle(ops, lo, hi, b, exit, k, n);
  }

  lemma {:induction false} EdgeLiveCycle(ops: seq<Op>, lo: nat, hi: nat, b: Block, exit: Option<nat>, k: nat, n: nat)
    requires b.Cycle? && LaidParts(ops, lo, hi, b) && BreaksLeave(b, exit) && (exit.Some? ==> hi < exit.value)
    requires lo <= k < hi && n in Successors(ops, k) && Live(b, k)
    ensures GoesTo(b, lo, hi, exit, n)
    decreases b, 1
  {
    hide Laid;
    var x := b.exit;
    if k < x {
      EntryLive(ops, lo + 1, x - 1, b.body, Some(x));
      EntryLive(ops, x, hi, b.rest, exit);
    }
    if lo < k < x - 1 {
      EdgeLive(ops, lo + 1, x - 1, b.body, Some(x), k, n);
      EdgeInside(ops, lo + 1, x - 1, b.body, Some(x), k, n);
    } else if x <= k {
      EdgeLive(ops, x, hi, b.rest, exit, k, n);
      EdgeInside(ops, x, hi, b.rest, exit, k, n);
    }
  }

  lemma {:induction false} EdgeLiveBranch(ops: seq<Op>, lo: nat, hi: nat, b: Block, exit: Option<nat>, k: nat, n: nat)
    requires b.Branch? && LaidParts(ops, lo, hi, b) && BreaksLeave(b, exit) && (exit.Some? ==> hi < exit.value)
    requires lo <= k < hi && n in Successors(ops, k) && Live(b, k)
    ensures GoesTo(b, lo, hi, exit, n)
    decreases b, 1
  {
    hide Laid;
    var a := b.arms;
    if k == lo {
      EntryLive(ops, lo + 1, a.thenEnd, b.first, exit);
      EntryLive(ops, a.elseStart, a.endIf, b.second, exit);
    } else if k < a.thenEnd {
      EdgeLive(ops, lo + 1, a.thenEnd, b.first, exit, k, n);
      EdgeInside(ops, lo + 1, a.thenEnd, b.first, exit, k, n);
    } else if a.elseStart <= k < a.endIf {
      EdgeLive(ops, a.elseStart, a.endIf, b.second, exit, k, n);
      EdgeInside(ops, a.elseStart, a.endIf, b.second, exit, k, n);
    } else if k == a.endIf {
      EntryLive(ops, a.endIf + 1, hi, b.rest, exit);
    } else if a.endIf < k {
      EdgeLive(ops, a.endIf + 1, hi, b.rest, exit, k, n);
      EdgeInside(ops, a.endIf + 1, hi, b.rest, exit, k, n);
    }
  }

  // ----- paths through a block -----

  /** A path from the start of a range that stays in it and ends with an edge to `n`. */
  predicate Passes(ops: seq<Op>, lo: nat, hi: nat, p: seq<nat>, n: nat)
    requires hi <= |ops|
  {
    |p| > 0 && p[0] == lo && PathWithin(ops, lo, hi, p) && n in Successors(ops, p[|p| - 1])
  }

  lemma {:induction false} PathLive(ops: seq<Op>, lo: nat, hi: nat, b: Block, exit: Option<nat>, p: seq<nat>, j: nat)
    requires Laid(ops, lo, hi, b) && BreaksLeave(b, exit) && (exit.Some? ==> hi < exit.value)
    requires PathWithin(ops, lo, hi, p) && j < |p| && p[0] == lo
    ensures Live(b, p[j])
  {
    if j == 0 {
      EntryLive(ops, lo, hi, b, exit);
    } else {
      PathLive(ops, lo, hi, b, exit, p, j - 1);
      EdgeLive(ops, lo, hi, b, exit, p[j - 1], p[j]);
    }
  }

  /** Two pieces of a path, the second inside a larger range. */
  lemma Joined(ops: seq<Op>, lo: nat, hi: nat, p: seq<nat>, q: seq<nat>)
    requires hi <= |ops| && |p| > 0 && |q| > 0 && PathWithin(ops, lo, hi, p) && PathWithin(ops, lo, hi, q)
    requires q[0] in Successors(ops, p[|p| - 1])
    ensures PathWithin(ops, lo, hi, p + q)
  {}

  lemma Widened(ops: seq<Op>, lo: nat, hi: nat, from: nat, to: nat, p: seq<nat>)
    requires lo <= from && to <= hi <= |ops| && PathWithin(ops, from, to, p)
    ensures PathWithin(ops, lo, hi, p)
  {}

  /** What follows `at`: nothing if the range behind it is empty, else a path through it. */
  predicate Follows(ops: seq<Op>, lo: nat, hi: nat, p: seq<nat>, n: nat)
    requires hi <= |ops|
  {
    if lo == hi then p == [] && n == hi else Passes(ops, lo, hi, p, n)
  }

  /** Put one address in front of a path. */
  lemma Prepend(ops: seq<Op>, at: nat, lo: nat, hi: nat, p: seq<nat>, n: nat)
    requires at < lo <= hi <= |ops| && lo in Successors(ops, at) && Follows(ops, lo, hi, p, n)
    ensures Passes(ops, at, hi, [at] + p, n)
  {
    if p != [] {
      Widened(ops, at, hi, lo, hi, p);
      Joined(ops, at, hi, [at], p);
      assert ([at] + p)[|[at] + p| - 1] == p[|p| - 1];
    }
  }

  /** Put a path that ends with an edge to `lo` in front of another. */
  lemma Chain(ops: seq<Op>, start: nat, mid: nat, lo: nat, hi: nat, p: seq<nat>, q: seq<nat>, n: nat)
    requires start < mid <= lo <= hi <= |ops| && Passes(ops, start, mid, p, lo) && Follows(ops, lo, hi, q, n)
    ensures Passes(ops, start, hi, p + q, n)
  {
    Widened(ops, start, hi, start, mid, p);
    if q == [] {
      assert p + q == p;
    } else {
      Widened(ops, start, hi, lo, hi, q);
      Joined(ops, start, hi, p, q);
      assert (p + q)[|p + q| - 1] == q[|q| - 1];
    }
  }

  lemma PassesWider(ops: seq<Op>, lo: nat, mid: nat, hi: nat, p: seq<nat>, n: nat)
    requires mid <= hi <= |ops| && Passes(ops, lo, mid, p, n)
    ensures Passes(ops, lo, hi, p, n)
  {}

  /** From the `If` through an arm that falls through to the `EndIf`. */
  lemma {:induction false} ArmPath(ops: seq<Op>, lo: nat, hi: nat, b: Block, exit: Option<nat>) returns (p: seq<nat>)
    requires b.Branch? && LaidParts(ops, lo, hi, b) && BreaksLeave(b, exit) && (Falls(b.first) || Falls(b.second))
    ensures Passes(ops, lo, b.arms.endIf, p, b.arms.endIf)
    decreases b, 0
  {
    hide Laid;
    var a := b.arms;
    if Falls(b.first) {
      var q := PathFalls(ops, lo + 1, a.thenEnd, b.first, exit);
      Prepend(ops, lo, lo + 1, a.thenEnd, q, a.thenEnd);
      p := [lo] + q;
      if a.thenEnd < a.elseStart {
        Chain(ops, lo, a.thenEnd, a.thenEnd, a.elseStart, p, [a.thenEnd], a.endIf);
        p := p + [a.thenEnd];
        PassesWider(ops, lo, a.elseStart, a.endIf, p, a.endIf);
      }
    } else {
      var q := PathFalls(ops, a.elseStart, a.endIf, b.second, exit);
      Chain(ops, lo, lo + 1, a.elseStart, a.endIf, [lo], q, a.endIf);
      p := [lo] + q;
    }
  }

  /** A block that falls has a path that falls. */
  lemma {:induction false} PathFalls(ops: seq<Op>, lo: nat, hi: nat, b: Block, exit: Option<nat>) returns (p: seq<nat>)
    requires Laid(ops, lo, hi, b) && BreaksLeave(b, exit) && Falls(b)
    ensures Follows(ops, lo, hi, p, hi)
    decreases b, 2
  {
    LaidOpen(ops, lo, hi, b);
    hide Laid;
    match b
    case End => p := [];
    case Step(_, op, rest) =>
      var q := PathFalls(ops, lo + 1, hi, rest, exit);
      Prepend(ops, lo, lo + 1, hi, q, hi);
      p := [lo] + q;
    case Branch(_, _, _, _, _, _) => p := BranchFalls(ops, lo, hi, b, exit);
    case Cycle(_, x, body, rest) =>
      var q := PathBreaks(ops, lo + 1, x - 1, body, x);
      Prepend(ops, lo, lo + 1, x - 1, q, x);
      var r := PathFalls(ops, x, hi, rest, exit);
      Chain(ops, lo, x - 1, x, hi, [lo] + q, r, hi);
      p := [lo] + q + r;
  }

  lemma {:induction false} BranchFalls(ops: seq<Op>, lo: nat, hi: nat, b: Block, exit: Option<nat>) returns (p: seq<nat>)
    requires b.Branch? && LaidParts(ops, lo, hi, b) && BreaksLeave(b, exit) && Falls(b)
    ensures Passes(ops, lo, hi, p, hi)
    decreases b, 1
  {
    hide Laid;
    var at := b.arms.endIf;
    var q := ArmPath(ops, lo, hi, b, exit);
    var r := PathFalls(ops, at + 1, hi, b.rest, exit);
    Prepend(ops, at, at + 1, hi, r, hi);
    Chain(ops, lo, at, at, hi, q, [at] + r, hi);
    p := q + ([at] + r);
  }

  /** A block that breaks has a path that breaks. */
  lemma {:induction false} PathBreaks(ops: seq<Op>, lo: nat, hi: nat, b: Block, exit: nat) returns (p: seq<nat>)
    requires Laid(ops, lo, hi, b) && BreaksLeave(b, Some(exit)) && Breaks(b)
    ensures lo < hi && Passes(ops, lo, hi, p, exit)
    decreases b, 3
  {
    LaidOpen(ops, lo, hi, b);
    hide Laid;
    match b
    case Step(_, op, rest) =>
      if op.Break? || op.BreakIf? {
        p := [lo];
      } else {
        var q := PathBreaks(ops, lo + 1, hi, rest, exit);
        Prepend(ops, lo, lo + 1, hi, q, exit);
        p := [lo] + q;
      }
    case Branch(_, _, _, _, _, _) => p := BranchBreaks(ops, lo, hi, b, exit);
    case Cycle(_, x, body, rest) =>
      var q := PathBreaks(ops, lo + 1, x - 1, body, x);
      Prepend(ops, lo, lo + 1, x - 1, q, x);
      var r := PathBreaks(ops, x, hi, rest, exit);
      Chain(ops, lo, x - 1, x, hi, [lo] + q, r, exit);
      p := [lo] + q + r;
  }

  lemma {:induction false} BranchBreaks(ops: seq<Op>, lo: nat, hi: nat, b: Block, exit: nat) returns (p: seq<nat>)
    requires b.Branch? && LaidParts(ops, lo, hi, b) && BreaksLeave(b, Some(exit)) && Breaks(b)
    ensures Passes(ops, lo, hi, p, exit)
    decreases b, 1
  {
    hide Laid;
    var a := b.arms;
    if Breaks(b.first) {
      var q := PathBreaks(ops, lo + 1, a.thenEnd, b.first, exit);
      Prepend(ops, lo, lo + 1, a.thenEnd, q, exit);
      p := [lo] + q;
      PassesWider(ops, lo, a.thenEnd, hi, p, exit);
    } else if Breaks(b.second) {
      var q := PathBreaks(ops, a.elseStart, a.endIf, b.second, exit);
      Chain(ops, lo, lo + 1, a.elseStart, a.endIf, [lo], q, exit);
      p := [lo] + q;
      PassesWider(ops, lo, a.endIf, hi, p, exit);
    } else {
      var q := ArmPath(ops, lo, hi, b, Some(exit));
      var r := PathBreaks(ops, a.endIf + 1, hi, b.rest, exit);
      Prepend(ops, a.endIf, a.endIf + 1, hi, r, exit);
      Chain(ops, lo, a.endIf, a.endIf, hi, q, [a.endIf] + r, exit);
      p := q + ([a.endIf] + r);
    }
  }

  // ----- the rule -----

  /** A path through the loop's body from its top to its end. */
  predicate Turns(ops: seq<Op>, l: nat, p: seq<nat>) {
    && l < |ops| && ops[l].Loop? && l + 2 <= ops[l].target <= |ops|
    && Passes(ops, l + 1, ops[l].target - 1, p, ops[l].target - 1)
  }

  /** Can a pass of the loop at `l` come round to its end? */
  ghost predicate ComesRound(ops: seq<Op>, l: nat)
    requires l < |ops| && ops[l].Loop?
  {
    l + 2 == ops[l].target || exists p :: Turns(ops, l, p)
  }

  lemma TurnFalls(ops: seq<Op>, l: nat, body: Block, p: seq<nat>)
    requires Turns(ops, l, p) && Laid(ops, l + 1, ops[l].target - 1, body) && BreaksLeave(body, Some(ops[l].target))
    ensures Falls(body)
  {
    hide Laid, BreaksLeave, Live, Falls;
    var x := ops[l].target;
    PathLive(ops, l + 1, x - 1, body, Some(x), p, |p| - 1);
    EdgeLive(ops, l + 1, x - 1, body, Some(x), p[|p| - 1], x - 1);
  }

  /** A loop can iterate exactly when its body can fall through, whatever breaks it holds: that its
      body holds an unconditional break does not make it run once. */
  lemma IteratesExactly(c: Chunk, l: nat)
    requires Verified(c) && l < |c.ops| && c.ops[l].Loop?
    ensures l + 2 <= c.ops[l].target <= |c.ops| && BlockOf(c.ops, l + 1, c.ops[l].target - 1).Some?
    ensures ComesRound(c.ops, l) <==> Falls(BlockOf(c.ops, l + 1, c.ops[l].target - 1).value)
  {
    hide BlockOf, Laid, Depth, BreaksLeave, SlotInRange;
    var ops, x := c.ops, c.ops[l].target;
    var body := LoopBody(ops, 0, |ops|, BlockOf(ops, 0, |ops|).value, None, l);
    LaidUnique(ops, l + 1, x - 1, body);
    LaidOpen(ops, l + 1, x - 1, body);
    if Falls(body) {
      var p := PathFalls(ops, l + 1, x - 1, body, Some(x));
      assert p != [] ==> Turns(ops, l, p);
    } else if exists p :: Turns(ops, l, p) {
      var p :| Turns(ops, l, p);
      TurnFalls(ops, l, body, p);
    }
  }
}
