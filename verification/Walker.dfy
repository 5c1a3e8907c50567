/** The analysis as it runs: loops over flat code that update one state, one list of breaks and one
    record of notices in place, each proved to compute what the functions over blocks define. */
module Walker {
  import opened Options
  import opened Bytecode
  import opened Confine
  import opened ConfineShape
  import opened Verdict
  import opened Judged
  import opened SummaryPass

  /** One run over one chunk. `notices` stands for the callback: what it was told so far. */
  class Run {
    const chunk: Chunk
    const sums: Summaries
    var notices: seq<Notice>

    constructor (chunk: Chunk, sums: Summaries)
      ensures this.chunk == chunk && this.sums == sums && notices == []
    {
      this.chunk, this.sums, this.notices := chunk, sums, [];
    }

    /** The tokens of all operands taken. */
    method Gather(taken: seq<Alias>) returns (union: Alias)
      ensures union == Union(taken)
    {
      union := {};
      for i := 0 to |taken|
        invariant union == Union(taken[..i])
      {
        assert taken[..i + 1] == taken[..i] + [taken[i]];
        union := union + taken[i];
      }
      assert taken[..|taken|] == taken;
    }

    /** Report what an instruction lets its operands reach. */
    method Report(ip: nat, op: Op, taken: seq<Alias>, union: Alias)
      requires union == Union(taken)
      modifies this`notices
      ensures notices == old(notices) + NoticesOf(sums, ip, op, taken)
    {
      match op
      case Yield => notices := notices + [Notice(union, Yielded(ip))];
      case CallNative(_, _, _) => notices := notices + [Notice(union, HandedToNative(ip))];
      case Call(callee, _) =>
        ghost var all := NoticesOf(sums, ip, op, taken);
        for arg := 0 to |taken|
          invariant notices == old(notices) + all[..arg]
        {
          var tokens := if Leaks(sums, callee, arg) then taken[arg] else {};
          assert all[..arg + 1] == all[..arg] + [Notice(tokens, PassedToCall(ip))];
          notices := notices + [Notice(tokens, PassedToCall(ip))];
        }
        assert all[..|taken|] == all;
      case SetLocal(slot) => notices := notices + [Notice(union, StoredToLocal(ip, slot))];
      case Return =>
        assert notices + [] == notices;
      case _ =>
        // The backstop: an escaping route without a handler above would be reported here.
        notices := notices + (if RouteOf(op) == Escapes then [Notice(union, UnmodelledRoute(ip))] else []);
    }

    /** Take the operands, report them, push the results. None when the chunk is corrupt. */
    method Transfer(ip: nat, op: Op, state: State) returns (next: Option<State>)
      modifies this`notices
      ensures next.None? <==> Apply(sums, ip, op, state).Fault?
      ensures next.Some? ==>
        && next.value == Apply(sums, ip, op, state).state
        && notices == old(notices) + Apply(sums, ip, op, state).log
    {
      hide NoticesOf, Produced, DepthEffect;
      if |state.stack| < Pops(op) {
        return None;
      }
      var taken := state.stack[|state.stack| - Pops(op)..];
      var stack := state.stack[..|state.stack| - Pops(op)];
      ghost var kept := stack;
      var union := Gather(taken);
      Report(ip, op, taken, union);
      if !SlotInRange(op, |state.locals|) {
        return None;
      }
      var produced := Produced(sums, ip, op, taken, state.locals);
      var locals := if op.SetLocal? then state.locals[op.slot := union] else state.locals;
      for i := 0 to Pushes(op)
        invariant stack == kept + seq(i, _ => produced)
      {
        stack := stack + [produced];
      }
      next := Some(State(stack, locals));
    }

    /** Interpret `[start, end)` from `entry`, appending to `before` the states that break out. */
    method Walk(start: nat, end: nat, entry: State, before: seq<State>)
      returns (ok: bool, fall: Option<State>, breaks: seq<State>)
      requires start <= end <= |chunk.ops| && BlockOf(chunk.ops, start, end).Some?
      modifies this`notices
      ensures Told(ok, fall, breaks, notices) ==
        Then(before, old(notices), Confine.Walk(|chunk.ops|, sums, BlockOf(chunk.ops, start, end).value, entry))
      decreases end - start, 1
    {
      var ops, size := chunk.ops, |chunk.ops|;
      var ip, state := start, entry;
      ok, breaks, fall := true, before, None;
      hide Laid, BlockOf, Confine.Walk, Fix, Apply, Then;
      ghost var left := BlockOf(ops, start, end).value;
      ghost var goal := Then(before, old(notices), Confine.Walk(size, sums, left, entry));
      while ip < end
        invariant ok && fall == None && start <= ip <= end && Laid(ops, ip, end, left)
        invariant goal == Then(breaks, notices, Confine.Walk(size, sums, left, state))
      {
        LaidOpen(ops, ip, end, left);
        Continues(size, sums, left, state, breaks, notices);
        var op := ops[ip];
        if op.Trap? {
          return;
        } else if op.Return? {
          notices := notices + [ReturnNotice(ip, state)];
          return;
        } else if op.Break? {
          breaks := breaks + [state];
          return;
        } else if op.Loop? {
          LaidUnique(ops, ip + 1, op.target - 1, left.body);
          var after: Option<State>;
          ok, after := Iterate(ip + 1, op.target - 1, state, RoundCap(size, |state.locals|));
          if !ok || after.None? {
            return;
          }
          state, ip, left := after.value, op.target, left.rest;
        } else {
          var next := Transfer(ip, op, state);
          if next.None? {
            ok := false;
            return;
          }
          if op.If? {
            var joined: Option<State>, endIf: nat;
            ok, joined, breaks, endIf := Arms(ip, end, state, next.value, breaks, left);
            if !ok || joined.None? {
              return;
            }
            state, ip, left := joined.value, endIf + 1, left.rest;
          } else {
            state := next.value;
            breaks := breaks + (if op.BreakIf? then [state] else []);
            ip, left := ip + 1, left.rest;
          }
        }
      }
      fall := Some(state);
      LaidOpen(ops, ip, end, left);
      EndTold(size, sums, left, state, breaks, notices);
    }

    /** Both arms of the `If` at `ip`, joined; an arm that is not there passes the state on. */
    method Arms(ip: nat, end: nat, ghost entry: State, entered: State, before: seq<State>, ghost b: Block)
      returns (ok: bool, joined: Option<State>, breaks: seq<State>, endIf: nat)
      requires b.Branch? && ip < end <= |chunk.ops| && chunk.ops[ip].If? && LaidParts(chunk.ops, ip, end, b)
      requires Apply(sums, ip, chunk.ops[ip], entry).Applied? && entered == Apply(sums, ip, chunk.ops[ip], entry).state
      modifies this`notices
      ensures Told(ok, joined, breaks, notices) ==
        Then(before, old(notices), Met(Confine.Walk(|chunk.ops|, sums, b.first, entered), Confine.Walk(|chunk.ops|, sums, b.second, entered)))
      ensures endIf == b.arms.endIf
      decreases end - ip, 0
    {
      hide Laid, BlockOf, Confine.Walk, Apply, Confine.Join, Then;
      var ops := chunk.ops;
      LaidUnique(ops, ip + 1, b.arms.thenEnd, b.first);
      LaidUnique(ops, b.arms.elseStart, b.arms.endIf, b.second);
      var target := ops[ip].target;
      var thenFall: Option<State>, elseFall: Option<State>;
      joined, elseFall, breaks := None, None, before;
      if ops[target - 1].Else? {
        endIf := ops[target - 1].target;
        ok, thenFall, breaks := Walk(ip + 1, target - 1, entered, breaks);
        if ok {
          ok, elseFall, breaks := Walk(target, endIf, entered, breaks);
        }
      } else {
        endIf := target;
        ok, thenFall, breaks := Walk(ip + 1, target, entered, breaks);
        elseFall := Some(entered);
        LaidOpen(ops, b.arms.elseStart, b.arms.endIf, b.second);
        EndTold(|ops|, sums, b.second, entered, breaks, notices);
      }
      joined := Join(thenFall, elseFall);
      MetInTurn(before, old(notices), Confine.Walk(|ops|, sums, b.first, entered), Confine.Walk(|ops|, sums, b.second, entered));
    }

    /** The ascending fixpoint of the loop body `[start, end)`: walk it until its end adds nothing to
        its head, or the rounds run out; then what its end and its breaks leave behind the loop. */
    method Iterate(start: nat, end: nat, entry: State, cap: nat) returns (ok: bool, after: Option<State>)
      requires start <= end <= |chunk.ops| && BlockOf(chunk.ops, start, end).Some?
      modifies this`notices
      ensures (if ok then Some((after, notices)) else None) ==
        FixTold(Fix(|chunk.ops|, sums, BlockOf(chunk.ops, start, end).value, entry, cap), old(notices))
      decreases end - start, 2
    {
      hide BlockOf, Confine.Walk, Fix, AfterLoop;
      var size := |chunk.ops|;
      ghost var body := BlockOf(chunk.ops, start, end).value;
      ghost var whole := Fix(size, sums, body, entry, cap);
      var head, round := entry, 0;
      while true
        invariant 0 <= round <= cap
        invariant FixTold(whole, old(notices)) == FixTold(Fix(size, sums, body, head, cap - round), notices)
        decreases cap - round
      {
        ghost var before := notices;
        var bodyEnd: Option<State>, inner: seq<State>;
        FixRound(size, sums, body, head, cap - round, before);
        ok, bodyEnd, inner := Walk(start, end, head, []);
        if !ok {
          return ok, None;
        }
        if bodyEnd.None? || JoinStates(head, bodyEnd.value) == head {
          after := JoinBreaks(bodyEnd, inner);
          return;
        }
        if round == cap {
          return false, None;
        }
        head, round := JoinStates(head, bodyEnd.value), round + 1;
      }
    }

    /** Breaks out of a loop end it: their states continue behind it. */
    method JoinBreaks(bodyEnd: Option<State>, inner: seq<State>) returns (after: Option<State>)
      ensures after == JoinAll(bodyEnd, inner)
    {
      after := bodyEnd;
      for i := 0 to |inner|
        invariant after == JoinAll(bodyEnd, inner[..i])
      {
        assert inner[..i + 1][..i] == inner[..i];
        after := Join(after, Some(inner[i]));
      }
      assert inner[..|inner|] == inner;
    }
  }

  /** What a walk was told, as one value. */
  function Told(ok: bool, fall: Option<State>, breaks: seq<State>, notices: seq<Notice>): Walked {
    if ok then Walked(fall, breaks, notices) else Derailed
  }

  /** What a fixpoint leaves and reports, behind what was reported before. */
  function FixTold(f: Fixed, notices: seq<Notice>): Option<(Option<State>, seq<Notice>)> {
    if f.Runaway? then None else Some((AfterLoop(f), notices + f.log))
  }

  /** One round of a fixpoint. */
  lemma FixRound(size: nat, sums: Summaries, body: Block, head: State, budget: nat, notices: seq<Notice>)
    ensures var r := Then([], notices, Confine.Walk(size, sums, body, head));
      FixTold(Fix(size, sums, body, head, budget), notices) ==
        if r.Derailed? then None
        else if r.fall.None? || JoinStates(head, r.fall.value) == head then Some((JoinAll(r.fall, r.breaks), r.log))
        else if budget == 0 then None
        else FixTold(Fix(size, sums, body, JoinStates(head, r.fall.value), budget - 1), r.log)
  {
    var r := Confine.Walk(size, sums, body, head);
    if r.Walked? {
      assert [] + r.breaks == r.breaks;
      if r.fall.Some? && JoinStates(head, r.fall.value) != head && budget > 0 {
        var f := Fix(size, sums, body, JoinStates(head, r.fall.value), budget - 1);
        if f.Fixed? {
          Associates(notices, r.log, f.log);
        }
      }
    }
  }

  lemma Associates<T>(a: seq<T>, b: seq<T>, c: seq<T>)
    ensures a + (b + c) == (a + b) + c
  {}

  function Met(x: Walked, y: Walked): Walked {
    if x.Derailed? || y.Derailed? then Derailed else Walked(Join(x.fall, y.fall), x.breaks + y.breaks, x.log + y.log)
  }

  /** Two walks, one after the other, into the same breaks and notices. */
  lemma MetInTurn(breaks: seq<State>, notices: seq<Notice>, x: Walked, y: Walked)
    ensures var first := Then(breaks, notices, x);
      Then(breaks, notices, Met(x, y)) ==
        if first.Derailed? then Derailed
        else
          var second := Then(first.breaks, first.log, y);
          if second.Derailed? then Derailed else Walked(Join(first.fall, second.fall), second.breaks, second.log)
  {
    if x.Walked? && y.Walked? {
      Associates(breaks, x.breaks, y.breaks);
      Associates(notices, x.log, y.log);
    }
  }

  lemma EndTold(size: nat, sums: Summaries, b: Block, s: State, breaks: seq<State>, log: seq<Notice>)
    requires b.End?
    ensures Then(breaks, log, Confine.Walk(size, sums, b, s)) == Walked(Some(s), breaks, log)
  {
    assert breaks + [] == breaks && log + [] == log;
  }

  /** What is left to observe, with one more instruction taken in. */
  function Continued(size: nat, sums: Summaries, b: Block, s: State, breaks: seq<State>, log: seq<Notice>): Walked {
    match b
    case End => Walked(Some(s), breaks, log)
    case Step(ip, op, rest) =>
      if op.Trap? then Walked(None, breaks, log)
      else if op.Return? then Walked(None, breaks, log + [ReturnNotice(ip, s)])
      else if op.Break? then Walked(None, breaks + [s], log)
      else
        var r := Apply(sums, ip, op, s);
        if r.Fault? then Derailed
        else Then(breaks + BreakHere(op, r.state), log + r.log, Confine.Walk(size, sums, rest, r.state))
    case Branch(ip, target, _, first, second, rest) =>
      var r := Apply(sums, ip, If(target), s);
      if r.Fault? then Derailed
      else
        var m := Then(breaks, log + r.log, Met(Confine.Walk(size, sums, first, r.state), Confine.Walk(size, sums, second, r.state)));
        if m.Derailed? || m.fall.None? then m
        else Then(m.breaks, m.log, Confine.Walk(size, sums, rest, m.fall.value))
    case Cycle(_, _, _, rest) =>
      var f := LoopFix(size, sums, b, s);
      if f.Runaway? then Derailed
      else if AfterLoop(f).None? then Walked(None, breaks, log + f.log)
      else Then(breaks, log + f.log, Confine.Walk(size, sums, rest, AfterLoop(f).value))
  }

  lemma ThenNothing(w: Walked)
    ensures Then([], [], w) == w
  {
    if w.Walked? {
      assert [] + w.breaks == w.breaks && [] + w.log == w.log;
    }
  }

  lemma ThenThen(a: seq<State>, l: seq<Notice>, b: seq<State>, k: seq<Notice>, w: Walked)
    ensures Then(a, l, Then(b, k, w)) == Then(a + b, l + k, w)
  {
    if w.Walked? {
      Associates(a, b, w.breaks);
      Associates(l, k, w.log);
    }
  }

  lemma Continues(size: nat, sums: Summaries, b: Block, s: State, breaks: seq<State>, log: seq<Notice>)
    ensures Then(breaks, log, Confine.Walk(size, sums, b, s)) == Continued(size, sums, b, s, breaks, log)
  {
    match b
    case End => assert breaks + [] == breaks && log + [] == log;
    case Step(ip, op, rest) =>
      assert breaks + [] == breaks && log + [] == log;
      var r := Apply(sums, ip, op, s);
      if Ordinary(op) && r.Applied? {
        ThenThen(breaks, log, BreakHere(op, r.state), r.log, Confine.Walk(size, sums, rest, r.state));
      }
    case Branch(ip, target, _, first, second, rest) =>
      var m := ArmsMet(size, sums, b, s);
      if m.Walked? {
        ArmsMetIs(size, sums, b, s, breaks, log);
        if m.fall.Some? {
          ThenThen(breaks, log, m.breaks, m.log, Confine.Walk(size, sums, rest, m.fall.value));
        }
      }
    case Cycle(_, _, _, rest) =>
      assert breaks + [] == breaks;
      var f := LoopFix(size, sums, b, s);
      if f.Fixed? && AfterLoop(f).Some? {
        ThenThen(breaks, log, [], f.log, Confine.Walk(size, sums, rest, AfterLoop(f).value));
      }
  }

  lemma ArmsMetIs(size: nat, sums: Summaries, b: Block, s: State, breaks: seq<State>, log: seq<Notice>)
    requires b.Branch? && ArmsMet(size, sums, b, s).Walked?
    ensures var r, m := Apply(sums, b.ip, If(b.target), s), ArmsMet(size, sums, b, s);
      Then(breaks, log + r.log, Met(Confine.Walk(size, sums, b.first, r.state), Confine.Walk(size, sums, b.second, r.state)))
        == Walked(m.fall, breaks + m.breaks, log + m.log)
  {
    var r := Apply(sums, b.ip, If(b.target), s);
    var x, y := Confine.Walk(size, sums, b.first, r.state), Confine.Walk(size, sums, b.second, r.state);
    hide Confine.Walk, Apply;
    Associates(log, r.log, x.log + y.log);
    Associates(r.log, x.log, y.log);
  }

  // ----- the must-define pass -----

  /** Does some path through `[start, end)` read the slot before writing it, and is the slot written on
      every path that falls through? */
  method ReadsBefore(ops: seq<Op>, start: nat, end: nat, slot: nat, entry: bool) returns (bad: bool, out: Option<bool>)
    requires start <= end <= |ops| && BlockOf(ops, start, end).Some?
    ensures Rbw(bad, out) == ReadsBeforeWrite(BlockOf(ops, start, end).value, slot, entry)
    decreases end - start, 1
  {
    hide Laid, BlockOf, ReadsBeforeWrite;
    var ip, defined := start, entry;
    bad, out := false, None;
    ghost var left := BlockOf(ops, start, end).value;
    ghost var goal := ReadsBeforeWrite(left, slot, entry);
    while ip < end
      invariant !bad && start <= ip <= end && Laid(ops, ip, end, left) && out == None
      invariant goal == ReadsBeforeWrite(left, slot, defined)
    {
      LaidOpen(ops, ip, end, left);
      ReadsOneMore(left, slot, defined);
      var op := ops[ip];
      if op == GetLocal(slot) && !defined {
        return true, None;
      } else if op == SetLocal(slot) {
        defined := true;
        ip, left := ip + 1, left.rest;
      } else if op.Trap? || op.Return? || op.Break? {
        return bad, None;
      } else if op.If? {
        var endIf: nat, merged: Option<bool>;
        bad, merged, endIf := ReadsArms(ops, ip, end, slot, defined, left);
        if bad || merged.None? {
          return bad, None;
        }
        defined, ip, left := merged.value, endIf + 1, left.rest;
      } else if op.Loop? {
        LaidUnique(ops, ip + 1, op.target - 1, left.body);
        var inner: Option<bool>;
        bad, inner := ReadsBefore(ops, ip + 1, op.target - 1, slot, defined);
        if bad {
          return true, None;
        }
        ip, left := op.target, left.rest;
      } else {
        ip, left := ip + 1, left.rest;
      }
    }
    LaidOpen(ops, ip, end, left);
    ReadsOneMore(left, slot, defined);
    out := Some(defined);
  }

  method ReadsArms(ops: seq<Op>, ip: nat, end: nat, slot: nat, defined: bool, ghost b: Block)
    returns (bad: bool, merged: Option<bool>, endIf: nat)
    requires b.Branch? && ip < end <= |ops| && ops[ip].If? && LaidParts(ops, ip, end, b)
    ensures var x, y := ReadsBeforeWrite(b.first, slot, defined), ReadsBeforeWrite(b.second, slot, defined);
      bad == (x.bad || y.bad) && (!bad ==> merged == MergeOut(x.out, y.out)) && endIf == b.arms.endIf
    decreases end - ip, 0
  {
    hide Laid, BlockOf, ReadsBeforeWrite;
    LaidUnique(ops, ip + 1, b.arms.thenEnd, b.first);
    LaidUnique(ops, b.arms.elseStart, b.arms.endIf, b.second);
    var target := ops[ip].target;
    var a: bool, ad: Option<bool>;
    if ops[target - 1].Else? {
      endIf := ops[target - 1].target;
      a, ad := ReadsBefore(ops, ip + 1, target - 1, slot, defined);
      var c, cd := ReadsBefore(ops, target, endIf, slot, defined);
      bad, merged := a || c, MergeOut(ad, cd);
    } else {
      endIf := target;
      a, ad := ReadsBefore(ops, ip + 1, target, slot, defined);
      LaidOpen(ops, b.arms.elseStart, b.arms.endIf, b.second);
      ReadsOneMore(b.second, slot, defined);
      // The skip path keeps what was written, so the join is that and the arm's.
      bad, merged := a, Some(defined && (ad.None? || ad.value));
    }
  }

  lemma ReadsOneMore(b: Block, slot: nat, defined: bool)
    ensures ReadsBeforeWrite(b, slot, defined) == match b
      case End => Rbw(false, Some(defined))
      case Step(_, op, rest) =>
        if op == GetLocal(slot) && !defined then Rbw(true, None)
        else if op.Trap? || op.Return? || op.Break? then Rbw(false, None)
        else ReadsBeforeWrite(rest, slot, defined || op == SetLocal(slot))
      case Branch(_, _, _, first, second, rest) =>
        (var x, y := ReadsBeforeWrite(first, slot, defined), ReadsBeforeWrite(second, slot, defined);
         if x.bad || y.bad then Rbw(true, None)
         else if MergeOut(x.out, y.out).None? then Rbw(false, None)
         else ReadsBeforeWrite(rest, slot, MergeOut(x.out, y.out).value))
      case Cycle(_, _, body, rest) =>
        if ReadsBeforeWrite(body, slot, defined).bad then Rbw(true, None) else ReadsBeforeWrite(rest, slot, defined)
  {}

  // ----- scopes -----

  /** The innermost iterating loop around every address, filled in loop by loop; then the scope of
      every site. */
  method SiteScopes(ops: seq<Op>) returns (scopes: map<nat, Scope>)
    ensures forall k :: k in scopes <==> 0 <= k < |ops| && ops[k].NewComposite?
    ensures forall k :: k in scopes ==> scopes[k] == ScopeOf(ops, k)
    ensures forall k, l: nat :: k in scopes && scopes[k] == Iteration(l) ==>
      Iterating(ops, l, k) && forall j :: l < j < k ==> !Iterating(ops, j, k)
    ensures forall k, l: nat :: k in scopes && scopes[k] == Invocation && l < k ==> !Iterating(ops, l, k)
  {
    var enclosing := new Option<nat>[|ops|](_ => None);
    for i := 0 to |ops|
      invariant forall k :: 0 <= k < |ops| ==> enclosing[k] == EnclosingUpTo(ops, i, k)
    {
      if ops[i].Loop? {
        var end := LoopEnd(ops, i);
        if i + 1 < end && !IsDispatch(ops, i, end, ops[i].target) {
          for k := i + 1 to end
            invariant forall j :: i < j < k ==> enclosing[j] == Some(i)
            invariant forall j :: 0 <= j < |ops| && !(i < j < k) ==> enclosing[j] == EnclosingUpTo(ops, i, j)
          {
            enclosing[k] := Some(i);
          }
        }
      }
    }
    scopes := map[];
    for ip := 0 to |ops|
      invariant forall k :: k in scopes <==> 0 <= k < ip && ops[k].NewComposite?
      invariant forall k :: k in scopes ==> scopes[k] == ScopeOf(ops, k)
    {
      if ops[ip].NewComposite? {
        scopes := scopes[ip := if enclosing[ip].Some? then Iteration(enclosing[ip].value) else Invocation];
      }
    }
    forall k, l: nat | k in scopes
      ensures scopes[k] == Iteration(l) ==> Iterating(ops, l, k) && forall j :: l < j < k ==> !Iterating(ops, j, k)
      ensures scopes[k] == Invocation && l < k ==> !Iterating(ops, l, k)
    {
      ScopeExactly(ops, k, l);
    }
  }

  // ----- summaries and verdicts -----

  /** A summary run: seed the parameters, walk, and sort what was reported. */
  method SummarizeChunk(c: Chunk, sums: Summaries) returns (s: Summary)
    ensures s == Summarize(c, sums)
  {
    hide BlockOf, Confine.Walk;
    if c.paramCount == 0 {
      return Summary([], []);
    }
    if c.localCount < c.paramCount || BlockOf(c.ops, 0, |c.ops|).None? {
      return OpaqueSummary(c.paramCount);
    }
    var run := new Run(c, sums);
    var ok, fall, breaks := run.Walk(0, |c.ops|, State([], SeededLocals(c)), []);
    ThenNothing(Interpret(c, SeededLocals(c), sums));
    if !ok {
      return OpaqueSummary(c.paramCount);
    }
    var leaks, returned := seq(c.paramCount, _ => false), seq(c.paramCount, _ => false);
    for n := 0 to |run.notices|
      invariant |leaks| == |returned| == c.paramCount
      invariant forall i: nat :: i < c.paramCount ==> leaks[i] == LeakLogged(run.notices[..n], Param(i))
      invariant forall i: nat :: i < c.paramCount ==> returned[i] == ReturnLogged(run.notices[..n], Param(i))
    {
      var last := run.notices[n];
      assert run.notices[..n + 1] == run.notices[..n] + [last];
      leaks := seq(c.paramCount, i requires 0 <= i < c.paramCount => leaks[i] || (Param(i) in last.tokens && IsLeak(last.event)));
      returned := seq(c.paramCount, i requires 0 <= i < c.paramCount => returned[i] || (Param(i) in last.tokens && last.event.Returned?));
    }
    assert run.notices[..|run.notices|] == run.notices;
    s := Summary(leaks, returned);
    assert s.leaks == Summarize(c, sums).leaks && s.returned == Summarize(c, sums).returned;
  }

  /** The rounds over all chunks, recording summaries in place until one adds nothing. */
  method SummarizeModule(m: seq<Chunk>) returns (sums: Summaries)
    ensures sums == ModuleSummaries(m)
  {
    hide Summarize, Callees;
    var n := |m|;
    var perChunk := seq(n, _ => None);
    var round, progressed := 0, true;
    while round < n && progressed
      invariant round <= n && |perChunk| == n
      invariant ModuleSummaries(m) ==
        if progressed then Rounds(m, Summaries(perChunk), Upto(n), n - round) else Summaries(perChunk)
    {
      progressed := false;
      ghost var before := Summaries(perChunk);
      for i := 0 to n
        invariant |perChunk| == n
        invariant Summaries(perChunk) == Round(m, before, Upto(i))
        invariant progressed <==> Summaries(perChunk) != before
      {
        RoundCounts(m, before, Upto(i));
        if IsReady(m, Summaries(perChunk), i) {
          var summary := SummarizeChunk(m[i], Summaries(perChunk));
          CountOneMore(perChunk, i, summary);
          perChunk := perChunk[i := Some(summary)];
          progressed := true;
        }
      }
      round := round + 1;
    }
    sums := Summaries(perChunk);
  }

  /** Each site's most severe finding among the notices; sites nothing was found of have no entry. */
  method Findings(ops: seq<Op>, scopes: map<nat, Scope>, notices: seq<Notice>) returns (findings: map<nat, Finding>)
    ensures forall k :: k in scopes ==>
      (if k in findings then findings[k] else NO_FINDING) == FindingOf(ops, scopes[k], k, notices)
  {
    hide SiteMeaning;
    findings := map[];
    for n := 0 to |notices|
      invariant forall k :: k in scopes ==>
        (if k in findings then findings[k] else NO_FINDING) == FindingOf(ops, scopes[k], k, notices[..n])
    {
      var last := notices[n];
      assert notices[..n + 1][..n] == notices[..n];
      findings := map k | k in scopes :: Worse(ops, scopes[k], k, last, if k in findings then findings[k] else NO_FINDING);
    }
    assert notices[..|notices|] == notices;
  }

  /** Walk once; keep each site's most severe finding; answer site by site. */
  method JudgeChunk(c: Chunk, sums: Summaries) returns (verdicts: seq<SiteVerdict>)
    ensures verdicts == ChunkConfinement(c, sums)
  {
    hide BlockOf, Confine.Walk, SiteMeaning, ScopeOf, FindingOf;
    var scopes := SiteScopes(c.ops);
    var run := new Run(c, sums);
    var ok := BlockOf(c.ops, 0, |c.ops|).Some?;
    if ok {
      var fall, breaks;
      ok, fall, breaks := run.Walk(0, |c.ops|, State([], EmptyLocals(c)), []);
      ThenNothing(Interpret(c, EmptyLocals(c), sums));
    }
    var findings := Findings(c.ops, scopes, run.notices);
    var sites := Sites(c.ops, |c.ops|);
    verdicts := [];
    for i := 0 to |sites|
      invariant |verdicts| == i && forall k :: 0 <= k < i ==> verdicts[k] == VerdictOf(c, sums, sites[k])
    {
      var site := sites[i];
      assert site in sites;
      var finding := if !ok then Finding(CannotEstablish, NotAnalysed) else if site in findings then findings[site] else NO_FINDING;
      verdicts := verdicts + [SiteVerdict(site, scopes[site], finding)];
    }
  }

  /** The more severe of what a site has and what a notice means for it; the older one if equal. */
  function Worse(ops: seq<Op>, scope: Scope, site: nat, last: Notice, before: Finding): Finding {
    var meaning := SiteMeaning(ops, scope, last.event);
    if Site(site) in last.tokens && meaning.Some? && Severity(meaning.value.verdict) > Severity(before.verdict)
    then meaning.value
    else before
  }
}
