/** The transfer function against the machine, place by place: what it tracks behind an instruction, and what
    it says of a token, some execution the state in front allows needs. */
module Exact {
  import opened Options
  import opened Bytecode
  import opened Confine
  import opened Guard
  import opened Machine
  import opened Cover
  import opened Trails

  /** The callee's summary clears the argument of coming back. */
  predicate KeptBack(sums: Summaries, callee: nat, arg: nat) {
    callee < |sums.perChunk| &&
    match sums.perChunk[callee]
    case Some(s) => arg < |s.returned| && !s.returned[arg]
    case None => false
  }

  /** Values of the slots and operands an instruction meets, as the state allows them; region `r` is
      tracked by `t` alone. */
  predicate Met(op: Op, s: State, t: Token, locals: seq<Value>, taken: seq<Value>, tags: Tags, r: nat) {
    && Pops(op) <= |s.stack| && SlotInRange(op, |s.locals|) && |taken| == Pops(op)
    && CoverSeq(locals, s.locals, tags) && CoverSeq(taken, Taken(op, s.stack), tags)
    && r in tags && tags[r] == {t}
  }

  // ----- what leaves -----

  /** Executed, the instruction lets go of region `r`: to the host, to a data slot, or to a callee whose summary
      does not clear the argument. */
  predicate Leaving(sums: Summaries, op: Op, taken: seq<Value>, r: nat) {
    if op.Call? then exists i :: 0 <= i < |taken| && r in taken[i] && !Cleared(sums, op.callee, i)
    else r in HandedOver(op, taken)
  }

  ghost predicate MayLeave(sums: Summaries, op: Op, s: State, t: Token) {
    exists locals, taken, tags, r :: Met(op, s, t, locals, taken, tags, r) && Leaving(sums, op, taken, r)
  }

  /** Where the state is clear, a token is said to leave at a straight instruction or a call if and only if some
      execution the state allows lets go of a region only that token tracks. */
  lemma SaysExactly(sums: Summaries, ip: nat, op: Op, s: State, t: Token)
    requires (Straight(op) || op.Call?) && Clear(ip, op, s) && Pops(op) <= |s.stack| && SlotInRange(op, |s.locals|)
    ensures (exists e: Event :: !e.StoredToLocal? && Says(sums, ip, op, s, t, e)) <==> MayLeave(sums, op, s, t)
  {
    hide Says, Leaving, Clear, DepthEffect;
    if e: Event :| !e.StoredToLocal? && Says(sums, ip, op, s, t, e) {
      SaidLeaves(sums, ip, op, s, t, e);
    }
    if locals, taken, tags, r :| Met(op, s, t, locals, taken, tags, r) && Leaving(sums, op, taken, r) {
      LeavesSaid(sums, ip, op, s, t, taken, tags, r);
    }
  }

  lemma SaidLeaves(sums: Summaries, ip: nat, op: Op, s: State, t: Token, e: Event)
    requires Straight(op) || op.Call?
    requires Pops(op) <= |s.stack| && SlotInRange(op, |s.locals|) && !e.StoredToLocal? && Says(sums, ip, op, s, t, e)
    ensures MayLeave(sums, op, s, t)
  {
    hide DepthEffect;
    var locals, taken, n := Following(t, s.locals), Following(t, Taken(op, s.stack)), |s.stack| - Pops(op);
    var i: nat;
    if op.Yield? {
      i := YieldTop(op, s, t);
    } else if op.CallNative? {
      var k :| n <= k < |s.stack| && t in s.stack[k];
      i := k - n;
    } else {
      i := CallArg(sums, ip, op, s, t, e);
    }
    assert Taken(op, s.stack)[i] == s.stack[n + i] && 0 in taken[i];
    assert Leaving(sums, op, taken, 0);
    assert Met(op, s, t, locals, taken, map[0 := {t}], 0);
  }

  lemma YieldTop(op: Op, s: State, t: Token) returns (i: nat)
    requires op.Yield? && OnTop(s, t)
    ensures i < Pops(op) <= |s.stack| && t in s.stack[|s.stack| - Pops(op) + i]
  {
    i := 0;
  }

  lemma CallArg(sums: Summaries, ip: nat, op: Op, s: State, t: Token, e: Event) returns (i: nat)
    requires op.Call? && Says(sums, ip, op, s, t, e)
    ensures i < Pops(op) <= |s.stack| && t in s.stack[|s.stack| - Pops(op) + i] && !Cleared(sums, op.callee, i)
  {
    i :| 0 <= i < op.argc && t in s.stack[|s.stack| - op.argc + i] && !Cleared(sums, op.callee, i);
  }

  lemma LeavesSaid(sums: Summaries, ip: nat, op: Op, s: State, t: Token, taken: seq<Value>, tags: Tags, r: nat)
    requires (Straight(op) || op.Call?) && Clear(ip, op, s) && Pops(op) <= |s.stack| && |taken| == Pops(op)
    requires CoverSeq(taken, Taken(op, s.stack), tags) && r in tags && tags[r] == {t} && Leaving(sums, op, taken, r)
    ensures exists e: Event :: !e.StoredToLocal? && Says(sums, ip, op, s, t, e)
  {
    var xs, n := Taken(op, s.stack), |s.stack| - Pops(op);
    if op.Call? {
      var i :| 0 <= i < |taken| && r in taken[i] && !Cleared(sums, op.callee, i);
      assert t in xs[i] && xs[i] == s.stack[n + i];
      assert Says(sums, ip, op, s, t, PassedToCall(ip));
    } else if op.Yield? {
      var i :| 0 <= i < |taken| && r in taken[i];
      assert t in xs[i] && xs[i] == s.stack[n + i];
      assert Says(sums, ip, op, s, t, Yielded(ip));
    } else if op.CallNative? {
      var i :| 0 <= i < |taken| && r in taken[i];
      assert t in xs[i] && xs[i] == s.stack[n + i];
      assert Says(sums, ip, op, s, t, HandedToNative(ip));
    } else {
      KeptUntracked(ip, op, s, tags, taken, r);
    }
  }

  // ----- what stays -----

  /** Executed, the instruction leaves region `r` in slot `k`. */
  ghost predicate MayStay(op: Op, s: State, k: nat, t: Token) {
    exists locals, taken, tags, r ::
      Met(op, s, t, locals, taken, tags, r) && k < |locals| && r in LocalsAfter(op, locals, taken)[k]
  }

  /** A slot tracks a token behind an instruction if and only if some execution the state allows leaves a region
      there that only the token tracks: a store replaces what was in the slot. */
  lemma SlotsExactly(sums: Summaries, ip: nat, op: Op, s: State, k: nat, t: Token)
    requires Apply(sums, ip, op, s).Applied? && k < |s.locals|
    ensures |Apply(sums, ip, op, s).state.locals| == |s.locals|
    ensures t in Apply(sums, ip, op, s).state.locals[k] <==> MayStay(op, s, k, t)
  {
    hide Produced, NoticesOf, DepthEffect, MayStay, Following;
    if op == SetLocal(k) {
      StoredExactly(op, s, k, t);
    } else {
      UntouchedExactly(op, s, k, t);
    }
  }

  lemma StoredExactly(op: Op, s: State, k: nat, t: Token)
    requires Pops(op) <= |s.stack| && op == SetLocal(k) && k < |s.locals|
    ensures t in Union(Taken(op, s.stack)) <==> MayStay(op, s, k, t)
  {
    StoredOne(op, s);
    hide DepthEffect;
    var xs := Taken(op, s.stack);
    if t in xs[0] {
      var locals, taken := Following(t, s.locals), Following(t, xs);
      assert 0 in LocalsAfter(op, locals, taken)[k];
      assert Met(op, s, t, locals, taken, map[0 := {t}], 0);
    }
  }

  lemma UntouchedExactly(op: Op, s: State, k: nat, t: Token)
    requires Pops(op) <= |s.stack| && SlotInRange(op, |s.locals|) && op != SetLocal(k) && k < |s.locals|
    ensures t in s.locals[k] <==> MayStay(op, s, k, t)
  {
    hide DepthEffect;
    if t in s.locals[k] {
      var locals, taken := Following(t, s.locals), Following(t, Taken(op, s.stack));
      assert 0 in LocalsAfter(op, locals, taken)[k];
      assert Met(op, s, t, locals, taken, map[0 := {t}], 0);
    }
  }

  lemma StoredOne(op: Op, s: State)
    requires op.SetLocal? && Pops(op) <= |s.stack|
    ensures Pops(op) == 1 && Union(Taken(op, s.stack)) == Taken(op, s.stack)[0]
  {}

  /** Operands an instruction does not take stay as they are, and those it leaves are given one alias set. */
  lemma OperandsExactly(sums: Summaries, ip: nat, op: Op, s: State, i: nat)
    requires Apply(sums, ip, op, s).Applied?
    ensures var next := Apply(sums, ip, op, s).state;
      && |next.stack| == |s.stack| - Pops(op) + Pushes(op)
      && (i < |s.stack| - Pops(op) ==> next.stack[i] == s.stack[i])
      && (|s.stack| - Pops(op) <= i < |next.stack| ==> next.stack[i] == Produced(sums, ip, op, Taken(op, s.stack), s.locals))
  {
    hide Produced, NoticesOf, DepthEffect;
  }

  // ----- what a call gives back -----

  /** Executed, the call may give back region `r`: it came in at an argument the summary does not clear of
      coming back. */
  predicate ComingBack(sums: Summaries, op: Op, taken: seq<Value>, r: nat) {
    op.Call? && exists i :: 0 <= i < |taken| && r in taken[i] && !KeptBack(sums, op.callee, i)
  }

  ghost predicate MayComeBack(sums: Summaries, op: Op, s: State, t: Token) {
    exists locals, taken, tags, r :: Met(op, s, t, locals, taken, tags, r) && ComingBack(sums, op, taken, r)
  }

  /** The result of a call may alias a token if and only if some execution the state allows gives back a region
      only the token tracks. */
  lemma CallExactly(sums: Summaries, ip: nat, op: Op, s: State, t: Token)
    requires op.Call? && Pops(op) <= |s.stack|
    ensures t in Produced(sums, ip, op, Taken(op, s.stack), s.locals) <==> MayComeBack(sums, op, s, t)
  {
    hide DepthEffect;
    var xs := Taken(op, s.stack);
    if t in Produced(sums, ip, op, xs, s.locals) {
      var i :| 0 <= i < |xs| && Returns(sums, op.callee, i) && t in xs[i];
      var locals, taken := Following(t, s.locals), Following(t, xs);
      assert 0 in taken[i] && !KeptBack(sums, op.callee, i);
      assert ComingBack(sums, op, taken, 0) && Met(op, s, t, locals, taken, map[0 := {t}], 0);
    }
    if locals, taken, tags, r :| Met(op, s, t, locals, taken, tags, r) && ComingBack(sums, op, taken, r) {
      var i :| 0 <= i < |taken| && r in taken[i] && !KeptBack(sums, op.callee, i);
      assert t in xs[i] && Returns(sums, op.callee, i);
    }
  }

  /** An indexed read of a data slot passes on what its operands may alias, an index never being a region. */
  lemma IndexedReadExactly(sums: Summaries, ip: nat, op: Op, s: State, t: Token)
    requires op.GetDataIndexed? && Pops(op) <= |s.stack|
    ensures t in Produced(sums, ip, op, Taken(op, s.stack), s.locals) <==> AmongTop(s, Pops(op), t)
  {
    TopTaken(s.stack, Pops(op), t);
  }
}
