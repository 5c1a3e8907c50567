/** Slot liveness against paths. The test goes through a range once: it enters a loop or passes it by, and
    never comes round. It finds a slot read before it is written exactly when some such path reads it so. */
module Unwritten {
  import opened Options
  import opened Bytecode
  import opened Confine

  // ----- one pass through a range -----

  /** Where one pass goes on: into both arms, into a loop or behind it, never round it or out of it. */
  predicate PassesTo(ops: seq<Op>, ip: nat, n: nat)
    requires ip < |ops|
  {
    match ops[ip]
    case Trap(_) | Return | Break(_) | EndLoop(_) => false
    case If(t) => n == ip + 1 || n == t
    case Loop(t) => n == ip + 1 || n == t
    case Else(t) => n == t
    case _ => n == ip + 1
  }

  /** A pass inside the range that has not written the slot. */
  predicate Unset(ops: seq<Op>, lo: nat, hi: nat, slot: nat, p: seq<nat>)
    requires hi <= |ops|
  {
    && (forall j :: 0 <= j < |p| ==> lo <= p[j] < hi && ops[p[j]] != SetLocal(slot))
    && (forall j :: 0 <= j < |p| - 1 ==> PassesTo(ops, p[j], p[j + 1]))
  }

  /** Such a pass from `k` that goes on at `n`. */
  predicate LeadsUnset(ops: seq<Op>, lo: nat, hi: nat, slot: nat, p: seq<nat>, k: nat, n: nat)
    requires hi <= |ops|
  {
    p != [] && p[0] == k && Unset(ops, lo, hi, slot, p) && PassesTo(ops, p[|p| - 1], n)
  }

  /** Can a pass get from `k` to `n` without writing the slot? */
  ghost predicate GetsTo(ops: seq<Op>, lo: nat, hi: nat, slot: nat, k: nat, n: nat)
    requires hi <= |ops|
  {
    k == n || exists p :: LeadsUnset(ops, lo, hi, slot, p, k, n)
  }

  /** Some pass through the range reads the slot before it writes it. */
  ghost predicate ReadFirst(ops: seq<Op>, lo: nat, hi: nat, slot: nat)
    requires hi <= |ops|
  {
    exists k :: lo <= k < hi && ops[k] == GetLocal(slot) && GetsTo(ops, lo, hi, slot, lo, k)
  }

  // ----- where the slot can be unwritten -----

  predicate Halts(op: Op) {
    op.Trap? || op.Return? || op.Break?
  }

  predicate EndsUnset(b: Block, slot: nat) {
    match b
    case End => true
    case Step(_, op, rest) => !Halts(op) && op != SetLocal(slot) && EndsUnset(rest, slot)
    case Branch(_, _, _, first, second, rest) => (EndsUnset(first, slot) || EndsUnset(second, slot)) && EndsUnset(rest, slot)
    case Cycle(_, _, _, rest) => EndsUnset(rest, slot)
  }

  predicate UnsetAt(b: Block, slot: nat, k: nat) {
    match b
    case End => false
    case Step(ip, op, rest) => k == ip || (!Halts(op) && op != SetLocal(slot) && UnsetAt(rest, slot, k))
    case Branch(ip, _, a, first, second, rest) =>
      var ends := EndsUnset(first, slot) || EndsUnset(second, slot);
      if k <= ip then k == ip
      else if k < a.thenEnd then UnsetAt(first, slot, k)
      else if k < a.elseStart then EndsUnset(first, slot)
      else if k < a.endIf then UnsetAt(second, slot, k)
      else if k == a.endIf then ends
      else ends && UnsetAt(rest, slot, k)
    case Cycle(ip, exit, body, rest) =>
      if k <= ip then k == ip
      else if k < exit - 1 then UnsetAt(body, slot, k)
      else if k == exit - 1 then EndsUnset(body, slot)
      else UnsetAt(rest, slot, k)
  }

  lemma {:induction false} WrittenReads(b: Block, slot: nat)
    ensures !ReadsBeforeWrite(b, slot, true).bad && ReadsBeforeWrite(b, slot, true).out != Some(false)
  {
    match b
    case End =>
    case Step(_, _, rest) => WrittenReads(rest, slot);
    case Branch(_, _, _, first, second, rest) =>
      WrittenReads(first, slot);
      WrittenReads(second, slot);
      WrittenReads(rest, slot);
    case Cycle(_, _, body, rest) =>
      WrittenReads(body, slot);
      WrittenReads(rest, slot);
  }

  ghost predicate ReadUnset(ops: seq<Op>, b: Block, slot: nat) {
    exists k :: 0 <= k < |ops| && UnsetAt(b, slot, k) && ops[k] == GetLocal(slot)
  }

  /** The test's answers, by address. */
  lemma {:induction false} ReadsWhereUnset(ops: seq<Op>, lo: nat, hi: nat, b: Block, slot: nat)
    requires Laid(ops, lo, hi, b)
    ensures var r := ReadsBeforeWrite(b, slot, false);
      && (r.bad <==> ReadUnset(ops, b, slot))
      && (!r.bad ==> (r.out == Some(false) <==> EndsUnset(b, slot)))
    ensures forall k: nat :: UnsetAt(b, slot, k) ==> lo <= k < hi
    decreases b, 1
  {
    LaidOpen(ops, lo, hi, b);
    hide Laid;
    match b
    case End =>
    case Step(_, op, rest) =>
      WrittenReads(rest, slot);
      ReadsWhereUnset(ops, lo + 1, hi, rest, slot);
      if op == GetLocal(slot) {
        assert UnsetAt(b, slot, lo);
      } else if ReadUnset(ops, rest, slot) && !Halts(op) && op != SetLocal(slot) {
        var k :| 0 <= k < |ops| && UnsetAt(rest, slot, k) && ops[k] == GetLocal(slot);
        assert UnsetAt(b, slot, k);
      }
    case Branch(_, _, _, _, _, _) => BranchUnset(ops, lo, hi, b, slot);
    case Cycle(_, _, _, _) => CycleUnset(ops, lo, hi, b, slot);
  }

  /** What a part of a block reads unset, the block does. */
  lemma ReadUp(ops: seq<Op>, part: Block, b: Block, slot: nat)
    requires ReadUnset(ops, part, slot) && forall k: nat :: UnsetAt(part, slot, k) ==> UnsetAt(b, slot, k)
    ensures ReadUnset(ops, b, slot)
  {
    var k :| 0 <= k < |ops| && UnsetAt(part, slot, k) && ops[k] == GetLocal(slot);
    assert UnsetAt(b, slot, k);
  }

  lemma {:induction false} CycleUnset(ops: seq<Op>, lo: nat, hi: nat, b: Block, slot: nat)
    requires b.Cycle? && LaidParts(ops, lo, hi, b)
    ensures var r := ReadsBeforeWrite(b, slot, false);
      && (r.bad <==> ReadUnset(ops, b, slot))
      && (!r.bad ==> (r.out == Some(false) <==> EndsUnset(b, slot)))
    ensures forall k: nat :: UnsetAt(b, slot, k) ==> lo <= k < hi
    decreases b, 0
  {
    hide Laid;
    ReadsWhereUnset(ops, lo + 1, b.exit - 1, b.body, slot);
    ReadsWhereUnset(ops, b.exit, hi, b.rest, slot);
    if ReadUnset(ops, b.body, slot) {
      ReadUp(ops, b.body, b, slot);
    } else if ReadUnset(ops, b.rest, slot) {
      ReadUp(ops, b.rest, b, slot);
    }
  }

  lemma {:induction false} BranchUnset(ops: seq<Op>, lo: nat, hi: nat, b: Block, slot: nat)
    requires b.Branch? && LaidParts(ops, lo, hi, b)
    ensures var r := ReadsBeforeWrite(b, slot, false);
      && (r.bad <==> ReadUnset(ops, b, slot))
      && (!r.bad ==> (r.out == Some(false) <==> EndsUnset(b, slot)))
    ensures forall k: nat :: UnsetAt(b, slot, k) ==> lo <= k < hi
    decreases b, 0
  {
    hide Laid;
    var a := b.arms;
    ReadsWhereUnset(ops, lo + 1, a.thenEnd, b.first, slot);
    ReadsWhereUnset(ops, a.elseStart, a.endIf, b.second, slot);
    ReadsWhereUnset(ops, a.endIf + 1, hi, b.rest, slot);
    WrittenReads(b.rest, slot);
    if ReadUnset(ops, b.first, slot) {
      ReadUp(ops, b.first, b, slot);
    } else if ReadUnset(ops, b.second, slot) {
      ReadUp(ops, b.second, b, slot);
    } else if ReadUnset(ops, b.rest, slot) && (EndsUnset(b.first, slot) || EndsUnset(b.second, slot)) {
      ReadUp(ops, b.rest, b, slot);
    }
    if ReadUnset(ops, b, slot) {
      var k :| 0 <= k < |ops| && UnsetAt(b, slot, k) && ops[k] == GetLocal(slot);
      assert k < a.thenEnd ==> ReadUnset(ops, b.first, slot);
      assert a.elseStart <= k < a.endIf ==> ReadUnset(ops, b.second, slot);
      assert a.endIf < k ==> ReadUnset(ops, b.rest, slot);
    }
  }

  // ----- along an edge -----

  predicate UnsetThere(b: Block, slot: nat, lo: nat, hi: nat, n: nat) {
    if n == hi then EndsUnset(b, slot) else lo <= n < hi && UnsetAt(b, slot, n)
  }

  lemma EntryUnset(ops: seq<Op>, lo: nat, hi: nat, b: Block, slot: nat)
    requires Laid(ops, lo, hi, b)
    ensures UnsetThere(b, slot, lo, hi, lo) && lo <= hi
  {
    LaidOpen(ops, lo, hi, b);
  }

  /** From an address the pass may be at without having written the slot it goes on at such an address. */
  lemma {:induction false} UnsetOn(ops: seq<Op>, lo: nat, hi: nat, b: Block, slot: nat, k: nat, n: nat)
    requires Laid(ops, lo, hi, b) && lo <= k < hi <= |ops| && UnsetAt(b, slot, k)
    requires ops[k] != SetLocal(slot) && PassesTo(ops, k, n)
    ensures UnsetThere(b, slot, lo, hi, n)
    decreases b, 1
  {
    LaidOpen(ops, lo, hi, b);
    hide Laid;
    match b
    case Step(_, op, rest) =>
      EntryUnset(ops, lo + 1, hi, rest, slot);
      if k > lo {
        UnsetOn(ops, lo + 1, hi, rest, slot, k, n);
      }
    case Branch(_, _, _, _, _, _) => UnsetOnBranch(ops, lo, hi, b, slot, k, n);
    case Cycle(_, _, _, _) => UnsetOnCycle(ops, lo, hi, b, slot, k, n);
  }

  lemma {:induction false} UnsetOnCycle(ops: seq<Op>, lo: nat, hi: nat, b: Block, slot: nat, k: nat, n: nat)
    requires b.Cycle? && LaidParts(ops, lo, hi, b) && lo <= k < hi <= |ops| && UnsetAt(b, slot, k)
    requires ops[k] != SetLocal(slot) && PassesTo(ops, k, n)
    ensures UnsetThere(b, slot, lo, hi, n)
    decreases b, 0
  {
    hide Laid;
    var x := b.exit;
    EntryUnset(ops, lo + 1, x - 1, b.body, slot);
    EntryUnset(ops, x, hi, b.rest, slot);
    if lo < k < x - 1 {
      UnsetOn(ops, lo + 1, x - 1, b.body, slot, k, n);
    } else if x <= k {
      UnsetOn(ops, x, hi, b.rest, slot, k, n);
    }
  }

  lemma {:induction false} UnsetOnBranch(ops: seq<Op>, lo: nat, hi: nat, b: Block, slot: nat, k: nat, n: nat)
    requires b.Branch? && LaidParts(ops, lo, hi, b) && lo <= k < hi <= |ops| && UnsetAt(b, slot, k)
    requires ops[k] != SetLocal(slot) && PassesTo(ops, k, n)
    ensures UnsetThere(b, slot, lo, hi, n)
    decreases b, 0
  {
    hide Laid;
    var a := b.arms;
    EntryUnset(ops, lo + 1, a.thenEnd, b.first, slot);
    EntryUnset(ops, a.elseStart, a.endIf, b.second, slot);
    EntryUnset(ops, a.endIf + 1, hi, b.rest, slot);
    if lo < k < a.thenEnd {
      UnsetOn(ops, lo + 1, a.thenEnd, b.first, slot, k, n);
    } else if a.elseStart <= k < a.endIf {
      UnsetOn(ops, a.elseStart, a.endIf, b.second, slot, k, n);
    } else if a.endIf < k {
      UnsetOn(ops, a.endIf + 1, hi, b.rest, slot, k, n);
    }
  }

  lemma {:induction false} PassUnset(ops: seq<Op>, lo: nat, hi: nat, b: Block, slot: nat, p: seq<nat>, j: nat)
    requires Laid(ops, lo, hi, b) && hi <= |ops| && Unset(ops, lo, hi, slot, p) && j < |p| && p[0] == lo
    ensures UnsetAt(b, slot, p[j])
  {
    hide Laid;
    if j == 0 {
      EntryUnset(ops, lo, hi, b, slot);
    } else {
      PassUnset(ops, lo, hi, b, slot, p, j - 1);
      UnsetOn(ops, lo, hi, b, slot, p[j - 1], p[j]);
    }
  }

  // ----- ways there -----

  lemma OneOn(ops: seq<Op>, lo: nat, hi: nat, slot: nat, k: nat, n: nat)
    requires lo <= k < hi <= |ops| && ops[k] != SetLocal(slot) && PassesTo(ops, k, n)
    ensures GetsTo(ops, lo, hi, slot, k, n)
  {
    assert LeadsUnset(ops, lo, hi, slot, [k], k, n);
  }

  lemma GetsOn(ops: seq<Op>, lo: nat, hi: nat, slot: nat, k: nat, m: nat, n: nat)
    requires hi <= |ops| && GetsTo(ops, lo, hi, slot, k, m) && GetsTo(ops, lo, hi, slot, m, n)
    ensures GetsTo(ops, lo, hi, slot, k, n)
  {
    if k != m && m != n {
      var p :| LeadsUnset(ops, lo, hi, slot, p, k, m);
      var q :| LeadsUnset(ops, lo, hi, slot, q, m, n);
      assert (p + q)[|p + q| - 1] == q[|q| - 1];
      assert LeadsUnset(ops, lo, hi, slot, p + q, k, n);
    }
  }

  lemma GetsWider(ops: seq<Op>, from: nat, to: nat, lo: nat, hi: nat, slot: nat, k: nat, n: nat)
    requires lo <= from && to <= hi <= |ops| && GetsTo(ops, from, to, slot, k, n)
    ensures GetsTo(ops, lo, hi, slot, k, n)
  {
    if k != n {
      var p :| LeadsUnset(ops, from, to, slot, p, k, n);
      assert LeadsUnset(ops, lo, hi, slot, p, k, n);
    }
  }

  /** On over a sub-range that ends unwritten, or to an unwritten address in it. */
  lemma {:induction false} OverUnset(ops: seq<Op>, lo: nat, hi: nat, slot: nat, from: nat, to: nat, b: Block, n: nat)
    requires lo <= from && to <= hi <= |ops| && Laid(ops, from, to, b) && UnsetThere(b, slot, from, to, n)
    requires GetsTo(ops, lo, hi, slot, lo, from)
    ensures GetsTo(ops, lo, hi, slot, lo, n)
    decreases b, 2
  {
    hide Laid, GetsTo;
    UnsetReached(ops, from, to, b, slot, n);
    GetsWider(ops, from, to, lo, hi, slot, from, n);
    GetsOn(ops, lo, hi, slot, lo, from, n);
  }

  /** A pass gets to every address the slot can be unwritten at, and off the end where it can be so there. */
  lemma {:induction false} UnsetReached(ops: seq<Op>, lo: nat, hi: nat, b: Block, slot: nat, n: nat)
    requires Laid(ops, lo, hi, b) && hi <= |ops| && UnsetThere(b, slot, lo, hi, n)
    ensures GetsTo(ops, lo, hi, slot, lo, n)
    decreases b, 1
  {
    LaidOpen(ops, lo, hi, b);
    hide Laid, GetsTo;
    if n == lo {
      Stays(ops, lo, hi, slot, n);
    } else {
      match b
      case Step(_, op, rest) =>
        OneOn(ops, lo, hi, slot, lo, lo + 1);
        OverUnset(ops, lo, hi, slot, lo + 1, hi, rest, n);
      case Branch(_, _, _, _, _, _) => BranchReached(ops, lo, hi, b, slot, n);
      case Cycle(_, x, body, rest) =>
        if n < x {
          OneOn(ops, lo, hi, slot, lo, lo + 1);
          OverUnset(ops, lo, hi, slot, lo + 1, x - 1, body, n);
        } else {
          OneOn(ops, lo, hi, slot, lo, x);
          OverUnset(ops, lo, hi, slot, x, hi, rest, n);
        }
    }
  }

  lemma Stays(ops: seq<Op>, lo: nat, hi: nat, slot: nat, n: nat)
    requires hi <= |ops|
    ensures GetsTo(ops, lo, hi, slot, n, n)
  {}

  lemma {:induction false} BranchReached(ops: seq<Op>, lo: nat, hi: nat, b: Block, slot: nat, n: nat)
    requires b.Branch? && LaidParts(ops, lo, hi, b) && hi <= |ops| && n != lo && UnsetThere(b, slot, lo, hi, n)
    ensures GetsTo(ops, lo, hi, slot, lo, n)
    decreases b, 0
  {
    hide Laid, GetsTo;
    var a := b.arms;
    OneOn(ops, lo, hi, slot, lo, lo + 1);
    OneOn(ops, lo, hi, slot, lo, a.elseStart);
    if n < a.thenEnd {
      OverUnset(ops, lo, hi, slot, lo + 1, a.thenEnd, b.first, n);
    } else if n < a.elseStart {
      OverUnset(ops, lo, hi, slot, lo + 1, a.thenEnd, b.first, a.thenEnd);
    } else if n < a.endIf {
      OverUnset(ops, lo, hi, slot, a.elseStart, a.endIf, b.second, n);
    } else {
      if EndsUnset(b.first, slot) {
        OverUnset(ops, lo, hi, slot, lo + 1, a.thenEnd, b.first, a.thenEnd);
        if a.thenEnd < a.elseStart {
          OneOn(ops, lo, hi, slot, a.thenEnd, a.endIf);
          GetsOn(ops, lo, hi, slot, lo, a.thenEnd, a.endIf);
        }
      } else {
        OverUnset(ops, lo, hi, slot, a.elseStart, a.endIf, b.second, a.endIf);
      }
      if n > a.endIf {
        OneOn(ops, lo, hi, slot, a.endIf, a.endIf + 1);
        GetsOn(ops, lo, hi, slot, lo, a.endIf, a.endIf + 1);
        OverUnset(ops, lo, hi, slot, a.endIf + 1, hi, b.rest, n);
      }
    }
  }

  // ----- the test -----

  /** The test finds a slot read before it is written if and only if some pass through the range reads it so. */
  lemma ReadsExactly(ops: seq<Op>, lo: nat, hi: nat, b: Block, slot: nat)
    requires Laid(ops, lo, hi, b) && hi <= |ops|
    ensures ReadsBeforeWrite(b, slot, false).bad <==> ReadFirst(ops, lo, hi, slot)
  {
    hide Laid, GetsTo, ReadsBeforeWrite;
    ReadsWhereUnset(ops, lo, hi, b, slot);
    if ReadUnset(ops, b, slot) {
      var k :| 0 <= k < |ops| && UnsetAt(b, slot, k) && ops[k] == GetLocal(slot);
      UnsetReached(ops, lo, hi, b, slot, k);
    }
    if k :| lo <= k < hi && ops[k] == GetLocal(slot) && GetsTo(ops, lo, hi, slot, lo, k) {
      GotUnset(ops, lo, hi, b, slot, k);
    }
  }

  lemma GotUnset(ops: seq<Op>, lo: nat, hi: nat, b: Block, slot: nat, k: nat)
    requires Laid(ops, lo, hi, b) && lo <= k < hi <= |ops| && GetsTo(ops, lo, hi, slot, lo, k)
    ensures UnsetAt(b, slot, k)
  {
    hide Laid;
    EntryUnset(ops, lo, hi, b, slot);
    if k != lo {
      var p :| LeadsUnset(ops, lo, hi, slot, p, lo, k);
      PassUnset(ops, lo, hi, b, slot, p, |p| - 1);
      UnsetOn(ops, lo, hi, b, slot, p[|p| - 1], k);
    }
  }

  /** A slot is dead at the boundary of a range if and only if it is read nowhere else, the range nests, and no
      pass through it reads the slot before writing it. */
  lemma BoundaryExactly(ops: seq<Op>, start: nat, end: nat, slot: nat)
    requires start <= end <= |ops|
    ensures BoundaryDead(ops, start, end, slot) <==>
      && (forall i :: 0 <= i < |ops| && ops[i] == GetLocal(slot) ==> start <= i < end)
      && BlockOf(ops, start, end).Some? && !ReadFirst(ops, start, end, slot)
  {
    hide BlockOf, Laid, ReadFirst, ReadsBeforeWrite;
    if BlockOf(ops, start, end).Some? {
      ReadsExactly(ops, start, end, BlockOf(ops, start, end).value, slot);
    }
  }
}
