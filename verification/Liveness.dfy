/** Slot liveness: what the must-define pass says of a range of structured code holds of every path
    through it, branches, loops run any number of times, and early exits included. */
module Liveness {
  import opened Options
  import opened Bytecode
  import opened Confine

  /** Whether the slot is sure to have been written since the block was entered, at address `k`; None
      where the pass finds that control does not arrive. */
  function MarkAt(b: Block, slot: nat, defined: bool, k: nat): Option<bool> {
    match b
    case End => None
    case Step(ip, op, rest) =>
      if k == ip then Some(defined)
      else if op.Trap? || op.Return? || op.Break? then None
      else MarkAt(rest, slot, defined || op == SetLocal(slot), k)
    case Branch(ip, _, a, first, second, rest) =>
      var x, y := ReadsBeforeWrite(first, slot, defined).out, ReadsBeforeWrite(second, slot, defined).out;
      var out := MergeOut(x, y);
      if k == ip then Some(defined)
      else if k < a.thenEnd then MarkAt(first, slot, defined, k)
      else if k < a.elseStart then x
      else if k < a.endIf then MarkAt(second, slot, defined, k)
      else if k == a.endIf then out
      else if out.Some? then MarkAt(rest, slot, out.value, k)
      else None
    case Cycle(ip, exit, body, rest) =>
      if k == ip then Some(defined)
      else if k < exit - 1 then MarkAt(body, slot, defined, k)
      else if k == exit - 1 then ReadsBeforeWrite(body, slot, defined).out
      else MarkAt(rest, slot, defined, k)
  }

  /** The mark control meets at `n`, inside the block, behind it, or at the exit of the loop around
      it. */
  function MarkTo(b: Block, lo: nat, hi: nat, slot: nat, defined: bool, exit: Option<nat>, n: nat): Option<bool> {
    if lo <= n < hi then MarkAt(b, slot, defined, n)
    else if n == hi then ReadsBeforeWrite(b, slot, defined).out
    else if exit == Some(n) then Some(defined)
    else None
  }

  /** A mark promises no more than what arrives with `v`. */
  predicate Met(mark: Option<bool>, v: bool) {
    mark.Some? && (mark.value ==> v)
  }

  /** The pass only ever learns that the slot is written. */
  lemma {:induction false} OutAtLeast(b: Block, slot: nat, defined: bool)
    ensures var r := ReadsBeforeWrite(b, slot, defined); r.out.Some? && defined ==> r.out.value
    decreases b
  {
    match b
    case End =>
    case Step(_, op, rest) => OutAtLeast(rest, slot, defined || op == SetLocal(slot));
    case Branch(_, _, _, first, second, rest) =>
      var x, y := ReadsBeforeWrite(first, slot, defined), ReadsBeforeWrite(second, slot, defined);
      OutAtLeast(first, slot, defined);
      OutAtLeast(second, slot, defined);
      var out := MergeOut(x.out, y.out);
      if out.Some? {
        OutAtLeast(rest, slot, out.value);
      }
    case Cycle(_, _, body, rest) => OutAtLeast(rest, slot, defined);
  }

  lemma {:induction false} MarkAtLeast(b: Block, slot: nat, defined: bool, k: nat)
    ensures MarkAt(b, slot, defined, k).Some? && defined ==> MarkAt(b, slot, defined, k).value
    decreases b
  {
    match b
    case End =>
    case Step(ip, op, rest) => MarkAtLeast(rest, slot, defined || op == SetLocal(slot), k);
    case Branch(_, _, a, first, second, rest) =>
      OutAtLeast(first, slot, defined);
      OutAtLeast(second, slot, defined);
      MarkAtLeast(first, slot, defined, k);
      MarkAtLeast(second, slot, defined, k);
      var out := MergeOut(ReadsBeforeWrite(first, slot, defined).out, ReadsBeforeWrite(second, slot, defined).out);
      if out.Some? {
        MarkAtLeast(rest, slot, out.value, k);
      }
    case Cycle(_, _, body, rest) =>
      OutAtLeast(body, slot, defined);
      MarkAtLeast(body, slot, defined, k);
      MarkAtLeast(rest, slot, defined, k);
  }

  /** The first address of a block carries what the block was entered with. */
  lemma EntryMarked(ops: seq<Op>, lo: nat, hi: nat, b: Block, slot: nat, defined: bool, exit: Option<nat>)
    requires Laid(ops, lo, hi, b)
    ensures MarkTo(b, lo, hi, slot, defined, exit, lo) == Some(defined) || (lo < hi && ReadsBeforeWrite(b, slot, defined).bad)
  {
    LaidOpen(ops, lo, hi, b);
  }

  /** Every read of the slot that the pass lets through finds it written. */
  lemma {:induction false} ReadMarked(ops: seq<Op>, lo: nat, hi: nat, b: Block, slot: nat, defined: bool, k: nat)
    requires Laid(ops, lo, hi, b) && !ReadsBeforeWrite(b, slot, defined).bad
    requires lo <= k < hi && ops[k] == GetLocal(slot)
    ensures MarkAt(b, slot, defined, k) != Some(false)
    decreases b, 1
  {
    LaidOpen(ops, lo, hi, b);
    hide Laid;
    match b
    case Step(_, op, rest) =>
      if k > lo && !op.Trap? && !op.Return? && !op.Break? {
        ReadMarked(ops, lo + 1, hi, rest, slot, defined || op == SetLocal(slot), k);
      }
    case Branch(_, _, _, _, _, _) => ReadMarkedBranch(ops, lo, hi, b, slot, defined, k);
    case Cycle(_, exit, body, rest) =>
      if lo < k < exit - 1 {
        ReadMarked(ops, lo + 1, exit - 1, body, slot, defined, k);
      } else if exit <= k {
        ReadMarked(ops, exit, hi, rest, slot, defined, k);
      }
  }

  lemma {:induction false} ReadMarkedBranch(ops: seq<Op>, lo: nat, hi: nat, b: Block, slot: nat, defined: bool, k: nat)
    requires b.Branch? && LaidParts(ops, lo, hi, b) && !ReadsBeforeWrite(b, slot, defined).bad
    requires lo <= k < hi && ops[k] == GetLocal(slot)
    ensures MarkAt(b, slot, defined, k) != Some(false)
    decreases b, 0
  {
    hide Laid;
    var a := b.arms;
    var out := MergeOut(ReadsBeforeWrite(b.first, slot, defined).out, ReadsBeforeWrite(b.second, slot, defined).out);
    if lo < k < a.thenEnd {
      ReadMarked(ops, lo + 1, a.thenEnd, b.first, slot, defined, k);
    } else if a.elseStart <= k < a.endIf {
      ReadMarked(ops, a.elseStart, a.endIf, b.second, slot, defined, k);
    } else if a.endIf < k && out.Some? {
      ReadMarked(ops, a.endIf + 1, hi, b.rest, slot, out.value, k);
    }
  }

  /** Along every edge, what is promised at the target is delivered. */
  lemma {:induction false} EdgeMarked(ops: seq<Op>, lo: nat, hi: nat, b: Block, slot: nat, defined: bool, exit: Option<nat>, k: nat, n: nat)
    requires Laid(ops, lo, hi, b) && BreaksLeave(b, exit) && (exit.Some? ==> hi < exit.value)
    requires !ReadsBeforeWrite(b, slot, defined).bad
    requires lo <= k < hi && n in Successors(ops, k)
    requires MarkAt(b, slot, defined, k).Some?
    ensures Met(MarkTo(b, lo, hi, slot, defined, exit, n), MarkAt(b, slot, defined, k).value || ops[k] == SetLocal(slot))
    decreases b, 2
  {
    LaidOpen(ops, lo, hi, b);
    hide Laid;
    match b
    case Step(_, op, rest) => EdgeStep(ops, lo, hi, b, slot, defined, exit, k, n);
    case Branch(_, _, _, _, _, _) => EdgeBranch(ops, lo, hi, b, slot, defined, exit, k, n);
    case Cycle(_, _, _, _) => EdgeCycle(ops, lo, hi, b, slot, defined, exit, k, n);
  }

  lemma {:induction false} EdgeStep(ops: seq<Op>, lo: nat, hi: nat, b: Block, slot: nat, defined: bool, exit: Option<nat>, k: nat, n: nat)
    requires b.Step? && Laid(ops, lo, hi, b) && BreaksLeave(b, exit) && (exit.Some? ==> hi < exit.value)
    requires !ReadsBeforeWrite(b, slot, defined).bad
    requires lo <= k < hi && n in Successors(ops, k) && MarkAt(b, slot, defined, k).Some?
    ensures Met(MarkTo(b, lo, hi, slot, defined, exit, n), MarkAt(b, slot, defined, k).value || ops[k] == SetLocal(slot))
    decreases b, 1
  {
    LaidOpen(ops, lo, hi, b);
    hide Laid;
    var op := b.op;
    if !op.Trap? && !op.Return? && !op.Break? {
      var next := defined || op == SetLocal(slot);
      if k == lo {
        EntryMarked(ops, lo + 1, hi, b.rest, slot, next, exit);
      } else {
        EdgeMarked(ops, lo + 1, hi, b.rest, slot, next, exit, k, n);
        MarkAtLeast(b.rest, slot, next, k);
        EdgeInside(ops, lo + 1, hi, b.rest, exit, k, n);
      }
    }
  }

  /** Edges stay in the block they start in, lead right behind it, or leave the loop around it. */
  lemma {:induction false} EdgeInside(ops: seq<Op>, lo: nat, hi: nat, b: Block, exit: Option<nat>, k: nat, n: nat)
    requires Laid(ops, lo, hi, b) && BreaksLeave(b, exit)
    requires lo <= k < hi && n in Successors(ops, k)
    ensures lo <= n <= hi || exit == Some(n)
    decreases b, 1
  {
    LaidOpen(ops, lo, hi, b);
    hide Laid;
    match b
    case Step(_, op, rest) =>
      if k > lo {
        EdgeInside(ops, lo + 1, hi, rest, exit, k, n);
      }
    case Branch(_, _, _, _, _, _) => EdgeInsideBranch(ops, lo, hi, b, exit, k, n);
    case Cycle(_, x, body, rest) =>
      if lo < k < x - 1 {
        EdgeInside(ops, lo + 1, x - 1, body, Some(x), k, n);
      } else if x <= k {
        EdgeInside(ops, x, hi, rest, exit, k, n);
      }
  }

  lemma {:induction false} EdgeInsideBranch(ops: seq<Op>, lo: nat, hi: nat, b: Block, exit: Option<nat>, k: nat, n: nat)
    requires b.Branch? && LaidParts(ops, lo, hi, b) && BreaksLeave(b, exit)
    requires lo <= k < hi && n in Successors(ops, k)
    ensures lo <= n <= hi || exit == Some(n)
    decreases b, 0
  {
    hide Laid;
    var a := b.arms;
    if lo < k < a.thenEnd {
      EdgeInside(ops, lo + 1, a.thenEnd, b.first, exit, k, n);
    } else if a.elseStart <= k < a.endIf {
      EdgeInside(ops, a.elseStart, a.endIf, b.second, exit, k, n);
    } else if a.endIf < k {
      EdgeInside(ops, a.endIf + 1, hi, b.rest, exit, k, n);
    }
  }

  /** What a branch merges to. */
  function ArmsOut(b: Block, slot: nat, defined: bool): Option<bool>
    requires b.Branch?
  {
    MergeOut(ReadsBeforeWrite(b.first, slot, defined).out, ReadsBeforeWrite(b.second, slot, defined).out)
  }

  /** The marks of a branch, arm by arm. */
  lemma BranchMark(b: Block, lo: nat, hi: nat, slot: nat, defined: bool, exit: Option<nat>, k: nat)
    requires b.Branch? && b.ip == lo < b.arms.thenEnd <= b.arms.elseStart <= b.arms.endIf < hi
    requires lo <= k <= hi || exit == Some(k)
    requires !ReadsBeforeWrite(b, slot, defined).bad && (exit.Some? ==> hi < exit.value)
    ensures var a, out := b.arms, ArmsOut(b, slot, defined);
      && !ReadsBeforeWrite(b.first, slot, defined).bad && !ReadsBeforeWrite(b.second, slot, defined).bad
      && (out.Some? ==> !ReadsBeforeWrite(b.rest, slot, out.value).bad)
      && MarkTo(b, lo, hi, slot, defined, exit, k) ==
           if k == lo then Some(defined)
           else if k < a.thenEnd then MarkAt(b.first, slot, defined, k)
           else if k < a.elseStart then ReadsBeforeWrite(b.first, slot, defined).out
           else if k < a.endIf then MarkAt(b.second, slot, defined, k)
           else if k == a.endIf then out
           else if k > hi then Some(defined)
           else if out.Some? then MarkTo(b.rest, a.endIf + 1, hi, slot, out.value, exit, k) else None
  {}

  lemma {:induction false} EdgeBranch(ops: seq<Op>, lo: nat, hi: nat, b: Block, slot: nat, defined: bool, exit: Option<nat>, k: nat, n: nat)
    requires b.Branch? && Laid(ops, lo, hi, b) && BreaksLeave(b, exit) && (exit.Some? ==> hi < exit.value)
    requires !ReadsBeforeWrite(b, slot, defined).bad
    requires lo <= k < hi && n in Successors(ops, k) && MarkAt(b, slot, defined, k).Some?
    ensures Met(MarkTo(b, lo, hi, slot, defined, exit, n), MarkAt(b, slot, defined, k).value || ops[k] == SetLocal(slot))
    decreases b, 1
  {
    hide Laid, BreaksLeave, MarkAt, ReadsBeforeWrite, BlockOf;
    EdgeInside(ops, lo, hi, b, exit, k, n);
    LaidOpen(ops, lo, hi, b);
    BranchLeaves(b, exit);
    BranchMark(b, lo, hi, slot, defined, exit, k);
    BranchMark(b, lo, hi, slot, defined, exit, n);
    assert MarkTo(b, lo, hi, slot, defined, exit, k) == MarkAt(b, slot, defined, k);
    var a := b.arms;
    if k < a.elseStart {
      EdgeThen(ops, lo, hi, b, slot, defined, exit, k, n);
    } else if k < a.endIf {
      OutAtLeast(b.second, slot, defined);
      EdgeMarked(ops, a.elseStart, a.endIf, b.second, slot, defined, exit, k, n);
      EdgeInside(ops, a.elseStart, a.endIf, b.second, exit, k, n);
    } else {
      EdgeAfter(ops, lo, hi, b, slot, defined, exit, k, n);
    }
  }

  lemma {:induction false} EdgeThen(ops: seq<Op>, lo: nat, hi: nat, b: Block, slot: nat, defined: bool, exit: Option<nat>, k: nat, n: nat)
    requires b.Branch? && LaidParts(ops, lo, hi, b) && BreaksLeave(b.first, exit) && (exit.Some? ==> hi < exit.value)
    requires !ReadsBeforeWrite(b, slot, defined).bad
    requires lo <= k < b.arms.elseStart && n in Successors(ops, k) && MarkTo(b, lo, hi, slot, defined, exit, k).Some?
    ensures Met(MarkTo(b, lo, hi, slot, defined, exit, n), MarkTo(b, lo, hi, slot, defined, exit, k).value || ops[k] == SetLocal(slot))
    decreases b, 0
  {
    hide Laid, BreaksLeave, MarkAt, ReadsBeforeWrite, BlockOf;
    var a := b.arms;
    OutAtLeast(b.first, slot, defined);
    OutAtLeast(b.second, slot, defined);
    if lo < k < a.thenEnd {
      EdgeInside(ops, lo + 1, a.thenEnd, b.first, exit, k, n);
    }
    BranchMark(b, lo, hi, slot, defined, exit, k);
    BranchMark(b, lo, hi, slot, defined, exit, n);
    if k == lo {
      EntryMarked(ops, lo + 1, a.thenEnd, b.first, slot, defined, exit);
      EntryMarked(ops, a.elseStart, a.endIf, b.second, slot, defined, exit);
    } else if k < a.thenEnd {
      EdgeMarked(ops, lo + 1, a.thenEnd, b.first, slot, defined, exit, k, n);
    }
  }

  lemma {:induction false} EdgeAfter(ops: seq<Op>, lo: nat, hi: nat, b: Block, slot: nat, defined: bool, exit: Option<nat>, k: nat, n: nat)
    requires b.Branch? && LaidParts(ops, lo, hi, b) && BreaksLeave(b.rest, exit) && (exit.Some? ==> hi < exit.value)
    requires !ReadsBeforeWrite(b, slot, defined).bad
    requires b.arms.endIf <= k < hi && n in Successors(ops, k) && MarkTo(b, lo, hi, slot, defined, exit, k).Some?
    ensures Met(MarkTo(b, lo, hi, slot, defined, exit, n), MarkTo(b, lo, hi, slot, defined, exit, k).value || ops[k] == SetLocal(slot))
    decreases b, 0
  {
    hide Laid, BreaksLeave, MarkAt, ReadsBeforeWrite, BlockOf;
    var a, out := b.arms, ArmsOut(b, slot, defined);
    OutAtLeast(b.first, slot, defined);
    OutAtLeast(b.second, slot, defined);
    if k > a.endIf {
      EdgeInside(ops, a.endIf + 1, hi, b.rest, exit, k, n);
    }
    BranchMark(b, lo, hi, slot, defined, exit, k);
    BranchMark(b, lo, hi, slot, defined, exit, n);
    if k == a.endIf {
      EntryMarked(ops, a.endIf + 1, hi, b.rest, slot, out.value, exit);
    } else {
      EdgeMarked(ops, a.endIf + 1, hi, b.rest, slot, out.value, exit, k, n);
      MarkAtLeast(b.rest, slot, out.value, k);
    }
  }

  lemma BranchLeaves(b: Block, exit: Option<nat>)
    requires b.Branch? && BreaksLeave(b, exit)
    ensures BreaksLeave(b.first, exit) && BreaksLeave(b.second, exit) && BreaksLeave(b.rest, exit)
  {}

  /** The marks of a loop. */
  lemma CycleMark(b: Block, lo: nat, hi: nat, slot: nat, defined: bool, exit: Option<nat>, k: nat)
    requires b.Cycle? && b.ip == lo && lo + 2 <= b.exit <= hi
    requires lo <= k <= hi || exit == Some(k)
    requires !ReadsBeforeWrite(b, slot, defined).bad && (exit.Some? ==> hi < exit.value)
    ensures
      && !ReadsBeforeWrite(b.body, slot, defined).bad && !ReadsBeforeWrite(b.rest, slot, defined).bad
      && MarkTo(b, lo, hi, slot, defined, exit, k) ==
           if k == lo then Some(defined)
           else if k < b.exit - 1 then MarkAt(b.body, slot, defined, k)
           else if k == b.exit - 1 then ReadsBeforeWrite(b.body, slot, defined).out
           else MarkTo(b.rest, b.exit, hi, slot, defined, exit, k)
  {}

  lemma {:induction false} EdgeCycle(ops: seq<Op>, lo: nat, hi: nat, b: Block, slot: nat, defined: bool, exit: Option<nat>, k: nat, n: nat)
    requires b.Cycle? && Laid(ops, lo, hi, b) && BreaksLeave(b, exit) && (exit.Some? ==> hi < exit.value)
    requires !ReadsBeforeWrite(b, slot, defined).bad
    requires lo <= k < hi && n in Successors(ops, k) && MarkAt(b, slot, defined, k).Some?
    ensures Met(MarkTo(b, lo, hi, slot, defined, exit, n), MarkAt(b, slot, defined, k).value || ops[k] == SetLocal(slot))
    decreases b, 1
  {
    hide Laid, BreaksLeave, MarkAt, ReadsBeforeWrite, BlockOf;
    EdgeInside(ops, lo, hi, b, exit, k, n);
    LaidOpen(ops, lo, hi, b);
    CycleLeaves(b, exit);
    CycleMark(b, lo, hi, slot, defined, exit, k);
    CycleMark(b, lo, hi, slot, defined, exit, n);
    assert MarkTo(b, lo, hi, slot, defined, exit, k) == MarkAt(b, slot, defined, k);
    var x := b.exit;
    EntryMarked(ops, x, hi, b.rest, slot, defined, exit);
    if k < x {
      EdgeLoop(ops, lo, hi, b, slot, defined, exit, k, n);
    } else {
      EdgeInside(ops, x, hi, b.rest, exit, k, n);
      EdgeMarked(ops, x, hi, b.rest, slot, defined, exit, k, n);
    }
  }

  lemma CycleLeaves(b: Block, exit: Option<nat>)
    requires b.Cycle? && BreaksLeave(b, exit)
    ensures BreaksLeave(b.body, Some(b.exit)) && BreaksLeave(b.rest, exit)
  {}

  lemma {:induction false} EdgeLoop(ops: seq<Op>, lo: nat, hi: nat, b: Block, slot: nat, defined: bool, exit: Option<nat>, k: nat, n: nat)
    requires b.Cycle? && LaidParts(ops, lo, hi, b) && BreaksLeave(b.body, Some(b.exit)) && (exit.Some? ==> hi < exit.value)
    requires !ReadsBeforeWrite(b, slot, defined).bad
    requires lo <= k < b.exit && n in Successors(ops, k) && MarkTo(b, lo, hi, slot, defined, exit, k).Some?
    ensures Met(MarkTo(b, lo, hi, slot, defined, exit, n), MarkTo(b, lo, hi, slot, defined, exit, k).value || ops[k] == SetLocal(slot))
    decreases b, 0
  {
    hide Laid, BreaksLeave, MarkAt, ReadsBeforeWrite, BlockOf;
    var x := b.exit;
    OutAtLeast(b.body, slot, defined);
    if lo < k < x - 1 {
      EdgeInside(ops, lo + 1, x - 1, b.body, Some(x), k, n);
    }
    CycleMark(b, lo, hi, slot, defined, exit, k);
    CycleMark(b, lo, hi, slot, defined, exit, n);
    EntryMarked(ops, x, hi, b.rest, slot, defined, exit);
    EntryMarked(ops, lo + 1, x - 1, b.body, slot, defined, Some(x));
    if lo < k < x - 1 {
      EdgeMarked(ops, lo + 1, x - 1, b.body, slot, defined, Some(x), k, n);
      MarkAtLeast(b.body, slot, defined, k);
    }
  }

  // ----- paths -----

  /** A path of the control flow that stays inside `[start, end)`. */
  predicate PathWithin(ops: seq<Op>, start: nat, end: nat, path: seq<nat>)
    requires end <= |ops|
  {
    && (forall j :: 0 <= j < |path| ==> start <= path[j] < end)
    && (forall j :: 0 <= j < |path| - 1 ==> path[j + 1] in Successors(ops, path[j]))
  }

  /** A scope's range closes its own loop, if it is one: breaks in it leave to behind its end. */
  predicate ScopeRangeOk(ops: seq<Op>, start: nat, end: nat, exit: Option<nat>) {
    && start <= end <= |ops| && BlockOf(ops, start, end).Some?
    && BreaksLeave(BlockOf(ops, start, end).value, exit) && (exit.Some? ==> end < exit.value)
  }

  function ScopeMark(ops: seq<Op>, start: nat, end: nat, slot: nat, k: nat): Option<bool>
    requires start <= end <= |ops| && BlockOf(ops, start, end).Some?
  {
    MarkAt(BlockOf(ops, start, end).value, slot, false, k)
  }

  /** Marks along an edge inside a scope at whose boundary the slot is dead. */
  lemma ScopeEdge(ops: seq<Op>, start: nat, end: nat, slot: nat, exit: Option<nat>, k: nat, n: nat)
    requires ScopeRangeOk(ops, start, end, exit) && BoundaryDead(ops, start, end, slot)
    requires start <= k < end && start <= n < end && n in Successors(ops, k) && ScopeMark(ops, start, end, slot, k).Some?
    ensures Met(ScopeMark(ops, start, end, slot, n), ScopeMark(ops, start, end, slot, k).value || ops[k] == SetLocal(slot))
  {
    EdgeMarked(ops, start, end, BlockOf(ops, start, end).value, slot, false, exit, k, n);
  }

  lemma ScopeEntry(ops: seq<Op>, start: nat, end: nat, slot: nat)
    requires start < end <= |ops| && BoundaryDead(ops, start, end, slot)
    ensures ScopeMark(ops, start, end, slot, start) == Some(false)
  {
    EntryMarked(ops, start, end, BlockOf(ops, start, end).value, slot, false, None);
  }

  lemma ScopeRead(ops: seq<Op>, start: nat, end: nat, slot: nat, k: nat)
    requires start <= end <= |ops| && BoundaryDead(ops, start, end, slot)
    requires k < |ops| && ops[k] == GetLocal(slot)
    ensures start <= k < end && ScopeMark(ops, start, end, slot, k) != Some(false)
  {
    assert start <= k < end;
    ReadMarked(ops, start, end, BlockOf(ops, start, end).value, slot, false, k);
  }

  /** Liveness is sound: on every path from the start of the scope, a read of a slot dead at the
      scope's boundary comes after a write of it on the same pass. */
  lemma DeadSlotReadsOwnPass(ops: seq<Op>, start: nat, end: nat, slot: nat, exit: Option<nat>, path: seq<nat>, j: nat)
    requires ScopeRangeOk(ops, start, end, exit) && BoundaryDead(ops, start, end, slot)
    requires PathWithin(ops, start, end, path) && |path| > 0 && path[0] == start
    requires j < |path| && ops[path[j]] == GetLocal(slot)
    ensures exists i :: 0 <= i < j && ops[path[i]] == SetLocal(slot)
  {
    MarkedPath(ops, start, end, slot, exit, path, j);
    ScopeRead(ops, start, end, slot, path[j]);
  }

  lemma {:induction false} MarkedPath(ops: seq<Op>, start: nat, end: nat, slot: nat, exit: Option<nat>, path: seq<nat>, j: nat)
    requires ScopeRangeOk(ops, start, end, exit) && BoundaryDead(ops, start, end, slot)
    requires PathWithin(ops, start, end, path) && j < |path| && path[0] == start
    ensures ScopeMark(ops, start, end, slot, path[j]).Some?
    ensures ScopeMark(ops, start, end, slot, path[j]).value ==> exists i :: 0 <= i < j && ops[path[i]] == SetLocal(slot)
  {
    if j == 0 {
      ScopeEntry(ops, start, end, slot);
    } else {
      MarkedPath(ops, start, end, slot, exit, path, j - 1);
      ScopeEdge(ops, start, end, slot, exit, path[j - 1], path[j]);
    }
  }
}
