/** Where edges of well-nested code can go around a loop. */
module Loops {
  import opened Options
  import opened Bytecode
  import opened Liveness

  /** The body of a loop, found in the block around it. */
  lemma {:induction false} LoopBody(ops: seq<Op>, lo: nat, hi: nat, b: Block, exit: Option<nat>, l: nat) returns (body: Block)
    requires Laid(ops, lo, hi, b) && BreaksLeave(b, exit) && lo <= l < hi && ops[l].Loop?
    ensures l + 2 <= ops[l].target <= hi && ops[ops[l].target - 1] == EndLoop(l + 1)
    ensures Laid(ops, l + 1, ops[l].target - 1, body) && BreaksLeave(body, Some(ops[l].target))
    decreases b
  {
    LaidOpen(ops, lo, hi, b);
    hide Laid;
    match b
    case Step(_, _, rest) => body := LoopBody(ops, lo + 1, hi, rest, exit, l);
    case Branch(_, _, _, _, _, _) => body := LoopBodyBranch(ops, lo, hi, b, exit, l);
    case Cycle(_, x, inner, rest) =>
      if l == lo {
        body := inner;
      } else if l < x - 1 {
        body := LoopBody(ops, lo + 1, x - 1, inner, Some(x), l);
      } else {
        body := LoopBody(ops, x, hi, rest, exit, l);
      }
  }

  /** Control enters a loop only at its top. */
  lemma {:induction false} LoopEntered(ops: seq<Op>, lo: nat, hi: nat, b: Block, exit: Option<nat>, l: nat, k: nat, n: nat)
    requires Laid(ops, lo, hi, b) && BreaksLeave(b, exit) && (exit.Some? ==> hi < exit.value)
    requires lo <= l < hi && ops[l].Loop? && lo <= k < hi && n in Successors(ops, k)
    requires l < n < ops[l].target && !(l < k < ops[l].target)
    ensures k == l
    decreases b
  {
    LaidOpen(ops, lo, hi, b);
    LoopEndsInside(ops, lo, hi, b, l);
    hide Laid;
    match b
    case Step(_, _, rest) =>
      if k > lo {
        LoopEntered(ops, lo + 1, hi, rest, exit, l, k, n);
      }
    case Branch(_, _, a, first, second, rest) => LoopEnteredBranch(ops, lo, hi, b, exit, l, k, n);
    case Cycle(_, x, body, rest) =>
      if lo < l < x - 1 {
        LoopEndsInside(ops, lo + 1, x - 1, body, l);
      }
      if lo < k < x - 1 {
        EdgeInside(ops, lo + 1, x - 1, body, Some(x), k, n);
        if l < x - 1 {
          LoopEntered(ops, lo + 1, x - 1, body, Some(x), l, k, n);
        }
      } else if x <= k {
        EdgeInside(ops, x, hi, rest, exit, k, n);
        if x <= l {
          LoopEntered(ops, x, hi, rest, exit, l, k, n);
        }
      }
  }

  /** Every loop inside a nested range ends inside it. */
  lemma {:induction false} LoopEndsInside(ops: seq<Op>, lo: nat, hi: nat, b: Block, l: nat)
    requires Laid(ops, lo, hi, b) && lo <= l < hi && ops[l].Loop?
    ensures l + 2 <= ops[l].target <= hi
    decreases b
  {
    LaidOpen(ops, lo, hi, b);
    hide Laid;
    match b
    case Step(_, _, rest) => LoopEndsInside(ops, lo + 1, hi, rest, l);
    case Branch(_, _, a, first, second, rest) =>
      if l < a.thenEnd {
        LoopEndsInside(ops, lo + 1, a.thenEnd, first, l);
      } else if a.elseStart <= l < a.endIf {
        LoopEndsInside(ops, a.elseStart, a.endIf, second, l);
      } else if a.endIf < l {
        LoopEndsInside(ops, a.endIf + 1, hi, rest, l);
      }
    case Cycle(_, x, body, rest) =>
      if lo < l < x - 1 {
        LoopEndsInside(ops, lo + 1, x - 1, body, l);
      } else if x <= l {
        LoopEndsInside(ops, x, hi, rest, l);
      }
  }

  /** Where control goes from the delimiters of a branch. */
  lemma JointEdge(ops: seq<Op>, lo: nat, hi: nat, b: Block, k: nat, n: nat)
    requires b.Branch? && LaidParts(ops, lo, hi, b) && k < |ops| && n in Successors(ops, k)
    ensures k == lo ==> n == lo + 1 || n == b.arms.elseStart
    ensures b.arms.thenEnd <= k < b.arms.elseStart ==> n == b.arms.endIf
    ensures k == b.arms.endIf ==> n == k + 1
  {
    hide Laid;
  }

  lemma {:induction false} LoopEnteredBranch(ops: seq<Op>, lo: nat, hi: nat, b: Block, exit: Option<nat>, l: nat, k: nat, n: nat)
    requires b.Branch? && LaidParts(ops, lo, hi, b) && BreaksLeave(b, exit) && (exit.Some? ==> hi < exit.value)
    requires lo <= l < hi && ops[l].Loop? && lo <= k < hi && n in Successors(ops, k)
    requires l < n < ops[l].target <= hi && !(l < k < ops[l].target)
    ensures k == l
    decreases b, 0
  {
    var a := b.arms;
    hide Laid;
    if l < a.thenEnd {
      LoopEndsInside(ops, lo + 1, a.thenEnd, b.first, l);
    } else if l < a.endIf {
      LoopEndsInside(ops, a.elseStart, a.endIf, b.second, l);
    }
    if k == lo || a.thenEnd <= k < a.elseStart || k == a.endIf {
      JointEdge(ops, lo, hi, b, k, n);
    }
    hide Successors, ArmsOf;
    if lo < k < a.thenEnd {
      EdgeInside(ops, lo + 1, a.thenEnd, b.first, exit, k, n);
      if l < a.thenEnd {
        LoopEntered(ops, lo + 1, a.thenEnd, b.first, exit, l, k, n);
      }
    } else if a.elseStart <= k < a.endIf {
      EdgeInside(ops, a.elseStart, a.endIf, b.second, exit, k, n);
      if a.elseStart <= l < a.endIf {
        LoopEntered(ops, a.elseStart, a.endIf, b.second, exit, l, k, n);
      }
    } else if a.endIf < k {
      EdgeInside(ops, a.endIf + 1, hi, b.rest, exit, k, n);
      if a.endIf < l {
        LoopEntered(ops, a.endIf + 1, hi, b.rest, exit, l, k, n);
      }
    }
  }

  /** The only edges that lead back are those from the end of a loop to its top. */
  lemma {:induction false} EdgeBack(ops: seq<Op>, lo: nat, hi: nat, b: Block, exit: Option<nat>, k: nat, n: nat)
    requires Laid(ops, lo, hi, b) && BreaksLeave(b, exit) && (exit.Some? ==> hi < exit.value)
    requires lo <= k < hi && n in Successors(ops, k)
    ensures n > k || (ops[k] == EndLoop(n) && lo < n && ops[n - 1] == Loop(k + 1))
    decreases b
  {
    LaidOpen(ops, lo, hi, b);
    hide Laid;
    match b
    case Step(_, _, rest) =>
      if k > lo {
        EdgeBack(ops, lo + 1, hi, rest, exit, k, n);
      }
    case Branch(_, _, _, _, _, _) => EdgeBackBranch(ops, lo, hi, b, exit, k, n);
    case Cycle(_, x, body, rest) =>
      if lo < k < x - 1 {
        EdgeBack(ops, lo + 1, x - 1, body, Some(x), k, n);
      } else if x <= k {
        EdgeBack(ops, x, hi, rest, exit, k, n);
      }
  }

  lemma {:induction false} EdgeBackBranch(ops: seq<Op>, lo: nat, hi: nat, b: Block, exit: Option<nat>, k: nat, n: nat)
    requires b.Branch? && LaidParts(ops, lo, hi, b) && BreaksLeave(b, exit) && (exit.Some? ==> hi < exit.value)
    requires lo <= k < hi && n in Successors(ops, k)
    ensures n > k || (ops[k] == EndLoop(n) && lo < n && ops[n - 1] == Loop(k + 1))
    decreases b, 0
  {
    hide Laid;
    var a := b.arms;
    if lo < k < a.thenEnd {
      EdgeBack(ops, lo + 1, a.thenEnd, b.first, exit, k, n);
    } else if a.elseStart <= k < a.endIf {
      EdgeBack(ops, a.elseStart, a.endIf, b.second, exit, k, n);
    } else if a.endIf < k {
      EdgeBack(ops, a.endIf + 1, hi, b.rest, exit, k, n);
    }
  }

  lemma {:induction false} LoopBodyBranch(ops: seq<Op>, lo: nat, hi: nat, b: Block, exit: Option<nat>, l: nat) returns (body: Block)
    requires b.Branch? && LaidParts(ops, lo, hi, b) && BreaksLeave(b, exit) && lo <= l < hi && ops[l].Loop?
    ensures l + 2 <= ops[l].target <= hi && ops[ops[l].target - 1] == EndLoop(l + 1)
    ensures Laid(ops, l + 1, ops[l].target - 1, body) && BreaksLeave(body, Some(ops[l].target))
    decreases b, 0
  {
    hide Laid;
    var a := b.arms;
    if l < a.thenEnd {
      body := LoopBody(ops, lo + 1, a.thenEnd, b.first, exit, l);
    } else if a.elseStart <= l < a.endIf {
      body := LoopBody(ops, a.elseStart, a.endIf, b.second, exit, l);
    } else {
      body := LoopBody(ops, a.endIf + 1, hi, b.rest, exit, l);
    }
  }
}
