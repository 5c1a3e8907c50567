/** The ways one step of the machine can change it, with where every pushed region comes from. */
module Steps {
  import opened Options
  import opened Bytecode
  import opened Machine
  import opened Cover
  import opened Tracking
  import opened Soundness
  import opened Runs

  /** Where a pushed region comes from: an operand taken, the slot read, the host, or this very
      construction. */
  predicate Sourced(op: Op, taken: seq<Value>, locals: seq<Value>, host: Value, newId: nat, results: seq<Value>) {
    forall r :: r in Regions(results) ==>
      || r in Regions(taken)
      || (op.GetLocal? && op.slot < |locals| && r in locals[op.slot])
      || r in host
      || (op.NewComposite? && r == newId)
  }

  /** The innermost frame goes on along an edge of its code. */
  ghost predicate Advances(w: Facts, v: Vm, v': Vm, results: seq<Value>)
    requires Established(w)
  {
    && v.frames != [] && v'.frames != []
    && Active(w, Top(v), v.host, v.regions)
    && var f, g, op := Top(v), Top(v'), OpAt(w, Top(v));
      && !op.Trap? && !op.Reset? && !op.Return? && !op.Call?
      && SameFrame(f, g) && g.ip in Successors(w.m[f.chunk].ops, f.ip)
      && g.locals == LocalsAfter(op, f.locals, TakenOf(op, f.stack))
      && |results| == Pushes(op) && g.stack == LeftOf(op, f.stack) + results
      && Sourced(op, TakenOf(op, f.stack), f.locals, v'.host, |v.regions|, results)
      && v'.host == HostAfter(op, TakenOf(op, f.stack), v.host)
      && v'.regions == RegionsAfter(op, f, v.regions)
      && v'.frames == v.frames[..|v.frames| - 1] + [g]
      && v'.nextFrame == v.nextFrame
  }

  ghost predicate Resets(w: Facts, v: Vm, v': Vm)
    requires Established(w)
  {
    && v.frames != [] && Active(w, Top(v), v.host, v.regions) && OpAt(w, Top(v)).Reset?
    && var f := Top(v);
      && StreamAt(w.m[f.chunk].ops, 0).Some?
      && v' == WithTop(v, f.(ip := StreamAt(w.m[f.chunk].ops, 0).value + 1, locals := Blank(|f.locals|), stack := []))
  }

  /** The innermost frame waits and a callee starts. */
  ghost predicate Calls(w: Facts, v: Vm, v': Vm)
    requires Established(w)
  {
    && v.frames != [] && Active(w, Top(v), v.host, v.regions) && OpAt(w, Top(v)).Call?
    && var f, op := Top(v), OpAt(w, Top(v));
      && op.callee < |w.m| && |TakenOf(op, f.stack)| <= w.m[op.callee].localCount
      && v' == v.(frames := v.frames[..|v.frames| - 1] + [f.(stack := LeftOf(op, f.stack))]
                            + [Entered(w.m, v, op.callee, TakenOf(op, f.stack))],
                  nextFrame := v.nextFrame + 1)
  }

  /** The innermost frame ends and its caller goes on with what it handed over. */
  ghost predicate ComesBack(w: Facts, v: Vm, v': Vm)
    requires Established(w)
  {
    && |v.frames| >= 2 && Active(w, Top(v), v.host, v.regions) && OpAt(w, Top(v)).Return? && Machine.Returned(Top(v)).Some?
    && var f, g := Top(v), v.frames[|v.frames| - 2];
      && Returning(w, g, f, v.host, v.regions)
      && v' == v.(frames := v.frames[..|v.frames| - 2] + [g.(ip := g.ip + 1, stack := g.stack + [Handed(f)])])
  }

  /** The outermost frame ends. */
  ghost predicate Ends(w: Facts, v: Vm, v': Vm)
    requires Established(w)
  {
    && |v.frames| == 1 && Active(w, Top(v), v.host, v.regions) && OpAt(w, Top(v)).Return? && Machine.Returned(Top(v)).Some?
    && v' == v.(frames := [], host := v.host + Handed(Top(v)))
  }

  ghost predicate Starts(w: Facts, v: Vm, v': Vm) {
    exists chunk: nat, args: seq<Value> ::
      && v.frames == [] && chunk < |w.m| && |args| <= w.m[chunk].localCount && Regions(args) <= v.host
      && v' == v.(frames := [Entered(w.m, v, chunk, args)], nextFrame := v.nextFrame + 1)
  }

  /** The host put its input into a slot of some frame. */
  ghost predicate Feeds(v: Vm, v': Vm) {
    exists k: nat, input: Value {:trigger Fed(v, k, input)} ::
      k < |v.frames| && v.frames[k].locals != [] && input <= v.host && v' == Fed(v, k, input)
  }

  predicate Abandons(v: Vm, v': Vm) {
    v.frames != [] && v' == v.(frames := [])
  }

  lemma ResultSourced(op: Op, taken: seq<Value>, locals: seq<Value>, host: Value, newId: nat, i: nat, v: Value)
    requires |taken| == Pops(op) && SlotInRange(op, |locals|)
    requires Result(op, taken, locals, host, newId, i, v)
    ensures forall r :: r in v ==>
      r in Regions(taken) || (op.GetLocal? && r in locals[op.slot]) || r in host || (op.NewComposite? && r == newId)
  {
    match op
    case Dup => assert forall r :: r in v ==> r in taken[0];
    case _ =>
  }

  lemma ResultsSourced(op: Op, taken: seq<Value>, locals: seq<Value>, host: Value, newId: nat, results: seq<Value>)
    requires |taken| == Pops(op) && SlotInRange(op, |locals|)
    requires Results(op, taken, locals, host, newId, results)
    ensures Sourced(op, taken, locals, host, newId, results)
  {
    forall r | r in Regions(results)
      ensures r in Regions(taken) || (op.GetLocal? && r in locals[op.slot]) || r in host || (op.NewComposite? && r == newId)
    {
      var i :| 0 <= i < |results| && r in results[i];
      ResultSourced(op, taken, locals, host, newId, i, results[i]);
    }
  }

  lemma StraightAdvances(w: Facts, v: Vm, ch: Choice, v': Vm)
    requires Established(w) && Ready(w, v) && Straight(OpAt(w, Top(v))) && ch.Proceed?
    requires StraightStep(v, Top(v), OpAt(w, Top(v)), ch) == Some(v')
    ensures Advances(w, v, v', ch.results)
  {
    hide Inv, Promised, Established, Sound, StraightStep;
    TopOf(w, v);
    var f, op := Top(v), OpAt(w, Top(v));
    StraightShape(v, op, ch, v');
    StraightGoesOn(w.m[f.chunk].ops, f.ip);
    ResultsSourced(op, TakenOf(op, f.stack), f.locals, v'.host, |v.regions|, ch.results);
  }

  lemma JumpAdvances(w: Facts, v: Vm, branch: bool, v': Vm)
    requires Established(w) && Ready(w, v) && Jump(OpAt(w, Top(v)))
    requires var f, op := Top(v), OpAt(w, Top(v)); v' == WithTop(v, f.(ip := JumpTo(op, f.ip, branch), stack := LeftOf(op, f.stack)))
    ensures Advances(w, v, v', [])
  {
    hide Inv, Promised, Established, Sound;
    TopOf(w, v);
    var f, op := Top(v), OpAt(w, Top(v));
    assert Regions([]) == {};
    assert Top(v').stack == LeftOf(op, f.stack) + [];
  }

  /** Every step is one of these. */
  lemma StepCases(w: Facts, v: Vm, ch: Choice, v': Vm)
    requires Established(w) && Inv(w, v) && Promised(w, v) && Next(w.m, v, ch) == Some(v')
    ensures (exists results :: Advances(w, v, v', results))
      || Resets(w, v, v') || Calls(w, v, v') || ComesBack(w, v, v') || Ends(w, v, v') || Starts(w, v, v')
      || Feeds(v, v') || Abandons(v, v')
  {
    hide Inv, Promised, Established, StraightStep, CallStep, ReturnStep, FeedStep, Active, Advances, Returning;
    if ch.Feed? {
      var k := FeedShape(w.m, v, ch.input, v');
    } else if ch.Proceed? {
      ActiveTop(w, v);
      var f, op := Top(v), OpAt(w, Top(v));
      if Straight(op) {
        StraightAdvances(w, v, ch, v');
      } else if op.Call? {
        TopOf(w, v);
        CallShape(w.m, v, f, op, v');
      } else if op.Return? {
        if |v.frames| == 1 {
          ReturnEndsShape(v, f, v');
        } else {
          ReturnHas(w, f, v.host, v.regions);
          ReturnShape(v, f, v');
          CallerWaits(w, v);
        }
      } else if !op.Reset? {
        JumpAdvances(w, v, ch.branch, v');
      }
    }
  }

  lemma ReturnEndsShape(v: Vm, f: Frame, v': Vm)
    requires |v.frames| == 1 && f == Top(v) && ReturnStep(v, f) == Some(v')
    ensures Machine.Returned(f).Some?
    ensures v' == v.(frames := [], host := v.host + Handed(f))
  {}
}
