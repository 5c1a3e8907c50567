/** A region of an earlier pass, once the next pass has begun: it may linger in slots that are dead at
    the boundary of the loop, and nowhere else, for the rest of the run. */
module Retired {
  import opened Options
  import opened Bytecode
  import opened Confine
  import opened Liveness
  import opened Loops
  import opened Machine
  import opened Cover
  import opened Tracking
  import opened Soundness
  import opened Runs
  import opened Steps
  import opened Verdict
  import opened Reuse

  /** Slot `k` is dead at the loop's boundary, and at `ip` this pass has not written it. */
  predicate DeadSlot(w: Facts, t: Target, ip: nat, k: nat)
    requires t.chunk < |w.m|
  {
    var ops, start, x := Code(w, t), t.loop + 1, ExitOf(w, t);
    && start < x <= |ops| && BoundaryDead(ops, start, x - 1, k)
    && (start <= ip < x - 1 ==> ScopeMark(ops, start, x - 1, k, ip) == Some(false))
  }

  predicate FrameRetired(w: Facts, t: Target, f: Frame, r: nat)
    requires t.chunk < |w.m|
  {
    && r !in Regions(f.stack) && r !in Regions(f.args)
    && forall k :: 0 <= k < |f.locals| && r in f.locals[k] ==> f.chunk == t.chunk && DeadSlot(w, t, f.ip, k)
  }

  /** Region `r` of the watched site is out of reach. */
  predicate IsRetired(w: Facts, t: Target, v: Vm, r: nat)
    requires t.chunk < |w.m|
  {
    && r < |v.regions| && v.regions[r].chunk == t.chunk && v.regions[r].site == t.site
    && r !in v.host
    && forall k :: 0 <= k < |v.frames| ==> FrameRetired(w, t, v.frames[k], r)
  }

  /** A slot dead at the boundary and not yet written stays so along an edge that does not write it. */
  lemma DeadMove(w: Facts, t: Target, ip: nat, n: nat, k: nat)
    requires Established(w) && Watched(w, t) && ip < |Code(w, t)| && n in Successors(Code(w, t), ip)
    requires DeadSlot(w, t, ip, k) && Code(w, t)[ip] != SetLocal(k)
    ensures DeadSlot(w, t, n, k)
  {
    hide Established, Watched, BoundaryDead, ScopeMark, ScopeRangeOk, Successors, ExitOf, ScopeRange;
    WatchedChunk(w, t);
    WatchedLoop(w, t);
    var ops, start, end := Code(w, t), t.loop + 1, ExitOf(w, t) - 1;
    if start <= n < end {
      if start <= ip < end {
        ScopeEdge(ops, start, end, k, Some(end + 1), ip, n);
      } else {
        EntersAtTop(w, t, ip, n);
        ScopeEntry(ops, start, end, k);
      }
    }
  }

  /** The loop's body is entered at its first address. */
  lemma EntersAtTop(w: Facts, t: Target, ip: nat, n: nat)
    requires Established(w) && t.chunk < |w.m| && ip < |Code(w, t)| && n in Successors(Code(w, t), ip)
    requires t.loop < ExitOf(w, t) <= |Code(w, t)| && Code(w, t)[t.loop] == Loop(ExitOf(w, t))
    requires Code(w, t)[ExitOf(w, t) - 1] == EndLoop(t.loop + 1)
    requires t.loop < n < ExitOf(w, t) - 1 && !(t.loop < ip < ExitOf(w, t) - 1)
    ensures n == t.loop + 1
  {
    hide Established;
    if ip != ExitOf(w, t) - 1 {
      InsideFrom(w, t, t.loop, ip, n);
    }
  }

  /** No instruction loads a retired region. */
  lemma NotLoaded(w: Facts, t: Target, f: Frame, slot: nat, r: nat)
    requires t.chunk < |w.m| && FrameRetired(w, t, f, r)
    requires f.chunk == t.chunk ==> f.ip < |Code(w, t)| && Code(w, t)[f.ip] == GetLocal(slot)
    requires slot < |f.locals|
    ensures r !in f.locals[slot]
  {
    hide BoundaryDead, ScopeMark;
    if r in f.locals[slot] {
      ReadInside(w, t, slot, f.ip);
    }
  }

  /** A region of a watched site is never with the host. */
  lemma StaysInside(w: Facts, t: Target, v: Vm, r: nat)
    requires Established(w) && Watched(w, t) && Inv(w, v)
    requires r < |v.regions| && v.regions[r].chunk == t.chunk && v.regions[r].site == t.site
    ensures r !in v.host
  {
    HostIn(w, v);
    hide Established, Watched, Inv, Exposed;
    WatchedQuiet(w, t, v.regions[r]);
  }

  lemma AdvanceRetired(w: Facts, t: Target, v: Vm, v': Vm, results: seq<Value>, r: nat)
    requires Established(w) && Watched(w, t) && Advances(w, v, v', results) && t.chunk < |w.m|
    requires FrameRetired(w, t, Top(v), r) && r < |v.regions| && r !in v'.host
    ensures FrameRetired(w, t, Top(v'), r)
  {
    hide Established, Watched, DeadSlot, Active;
    var f, g := Top(v), Top(v');
    TopInRange(w, f, v.host, v.regions);
    var op := OpAt(w, f);
    RegionsWithin(TakenOf(op, f.stack), f.stack, |LeftOf(op, f.stack)|);
    RegionsWithin(LeftOf(op, f.stack), f.stack, 0);
    if op.GetLocal? {
      NotLoaded(w, t, f, op.slot, r);
    }
    assert r !in Regions(results);
    RegionsAppend(LeftOf(op, f.stack), results);
    if op.SetLocal? {
      assert TakenOf(op, f.stack)[0] <= Regions(TakenOf(op, f.stack));
    }
    forall k | 0 <= k < |g.locals| && r in g.locals[k]
      ensures g.chunk == t.chunk && DeadSlot(w, t, g.ip, k)
    {
      assert r in f.locals[k];
      DeadMove(w, t, f.ip, g.ip, k);
    }
  }

  lemma RegionsAppend(a: seq<Value>, b: seq<Value>)
    ensures Regions(a + b) <= Regions(a) + Regions(b)
  {
    forall r | r in Regions(a + b)
      ensures r in Regions(a) || r in Regions(b)
    {
      var i :| 0 <= i < |a + b| && r in (a + b)[i];
      if i >= |a| {
        assert r in b[i - |a|];
      }
    }
  }

  lemma BlankRetired(w: Facts, t: Target, f: Frame, r: nat)
    requires t.chunk < |w.m| && f.stack == [] && r !in Regions(f.locals) && r !in Regions(f.args)
    ensures FrameRetired(w, t, f, r)
  {}

  lemma EntryRetired(w: Facts, t: Target, v: Vm, chunk: nat, args: seq<Value>, r: nat)
    requires t.chunk < |w.m| && chunk < |w.m| && |args| <= w.m[chunk].localCount && r !in Regions(args)
    ensures FrameRetired(w, t, Entered(w.m, v, chunk, args), r)
  {
    EntryHeld(args, w.m[chunk].localCount - |args|);
    BlankRetired(w, t, Entered(w.m, v, chunk, args), r);
  }

  /** Popping operands keeps a frame clear. */
  lemma PoppedRetired(w: Facts, t: Target, f: Frame, n: nat, r: nat)
    requires t.chunk < |w.m| && FrameRetired(w, t, f, r) && n <= |f.stack|
    ensures FrameRetired(w, t, f.(stack := f.stack[..n]), r) && r !in Regions(f.stack[n..])
  {
    hide DeadSlot;
    RegionsWithin(f.stack[..n], f.stack, 0);
    RegionsWithin(f.stack[n..], f.stack, n);
  }

  lemma CallerRetired(w: Facts, t: Target, g: Frame, v: Value, r: nat)
    requires Established(w) && Watched(w, t) && t.chunk < |w.m| && FrameRetired(w, t, g, r) && r !in v
    requires g.chunk == t.chunk ==> g.ip < |Code(w, t)| && Code(w, t)[g.ip].Call?
    ensures FrameRetired(w, t, g.(ip := g.ip + 1, stack := g.stack + [v]), r)
  {
    hide DeadSlot, Established, Watched;
    RegionsAppend(g.stack, [v]);
    forall k | 0 <= k < |g.locals| && r in g.locals[k]
      ensures DeadSlot(w, t, g.ip + 1, k)
    {
      DeadMove(w, t, g.ip, g.ip + 1, k);
    }
  }

  /** A retired region stays retired. */
  lemma StepRetired(w: Facts, t: Target, v: Vm, ch: Choice, v': Vm, r: nat)
    requires Established(w) && Watched(w, t) && t.chunk < |w.m| && Inv(w, v) && Promised(w, v) && Inv(w, v') && IsRetired(w, t, v, r)
    requires Next(w.m, v, ch) == Some(v')
    ensures IsRetired(w, t, v', r)
  {
    hide Next, Inv, Promised, Established, Watched, Advances, IsRetired, Resets, Calls, ComesBack, Feeds, Ends;
    StepCases(w, v, ch, v');
    if Resets(w, v, v') {
      ResetRetired(w, t, v, v', r);
    } else if Calls(w, v, v') {
      CallRetired(w, t, v, v', r);
    } else if ComesBack(w, v, v') {
      ComesBackRetired(w, t, v, v', r);
    } else if Ends(w, v, v') {
      EndRetired(w, t, v, v', r);
    } else if Starts(w, v, v') {
      StartRetired(w, t, v, v', r);
    } else if Feeds(v, v') {
      FeedRetired(w, t, v, v', r);
    } else if Abandons(v, v') {
      AbandonRetired(w, t, v, v', r);
    } else {
      var results :| Advances(w, v, v', results);
      AdvancesRetired(w, t, v, v', results, r);
    }
  }

  lemma ResetRetired(w: Facts, t: Target, v: Vm, v': Vm, r: nat)
    requires Established(w) && t.chunk < |w.m| && IsRetired(w, t, v, r) && Resets(w, v, v')
    ensures IsRetired(w, t, v', r)
  {
    hide Established, Active, DeadSlot, Blank, StreamAt;
    assert FrameRetired(w, t, Top(v), r);
    BlankHolds(|Top(v).locals|);
    BlankRetired(w, t, Top(v'), r);
  }

  lemma EndRetired(w: Facts, t: Target, v: Vm, v': Vm, r: nat)
    requires Established(w) && Watched(w, t) && t.chunk < |w.m| && Inv(w, v') && IsRetired(w, t, v, r) && Ends(w, v, v')
    ensures IsRetired(w, t, v', r)
  {
    hide Established, Active, FrameRetired, Watched, Inv;
    StaysInside(w, t, v', r);
  }

  lemma StartRetired(w: Facts, t: Target, v: Vm, v': Vm, r: nat)
    requires t.chunk < |w.m| && Starts(w, v, v') && IsRetired(w, t, v, r)
    ensures IsRetired(w, t, v', r)
  {
    var chunk: nat, args: seq<Value> :|
      && v.frames == [] && chunk < |w.m| && |args| <= w.m[chunk].localCount && Regions(args) <= v.host
      && v' == v.(frames := [Entered(w.m, v, chunk, args)], nextFrame := v.nextFrame + 1);
    hide FrameRetired, Starts;
    EntryRetired(w, t, v, chunk, args, r);
  }

  lemma FeedRetired(w: Facts, t: Target, v: Vm, v': Vm, r: nat)
    requires t.chunk < |w.m| && Feeds(v, v') && IsRetired(w, t, v, r)
    ensures IsRetired(w, t, v', r)
  {
    hide DeadSlot;
    forall k | 0 <= k < |v'.frames|
      ensures FrameRetired(w, t, v'.frames[k], r)
    {
      assert FrameRetired(w, t, v.frames[k], r);
    }
  }

  lemma AbandonRetired(w: Facts, t: Target, v: Vm, v': Vm, r: nat)
    requires t.chunk < |w.m| && Abandons(v, v') && IsRetired(w, t, v, r)
    ensures IsRetired(w, t, v', r)
  {}

  lemma AdvancesRetired(w: Facts, t: Target, v: Vm, v': Vm, results: seq<Value>, r: nat)
    requires Established(w) && Watched(w, t) && t.chunk < |w.m| && Inv(w, v) && Inv(w, v') && IsRetired(w, t, v, r)
    requires Advances(w, v, v', results)
    ensures IsRetired(w, t, v', r)
  {
    hide Established, Watched, Inv, Advances, FrameRetired, SameFrame;
    AdvanceShape(w, v, v', results);
    StaysInside(w, t, v', r);
    AdvanceRetired(w, t, v, v', results, r);
  }

  lemma CallRetired(w: Facts, t: Target, v: Vm, v': Vm, r: nat)
    requires Established(w) && t.chunk < |w.m| && IsRetired(w, t, v, r) && Calls(w, v, v')
    ensures IsRetired(w, t, v', r)
  {
    hide Established, Active, FrameRetired, Blank;
    TopInRange(w, Top(v), v.host, v.regions);
    var f, op := Top(v), OpAt(w, Top(v));
    PoppedRetired(w, t, f, |f.stack| - Pops(op), r);
    EntryRetired(w, t, v, op.callee, TakenOf(op, f.stack), r);
  }

  lemma ComesBackRetired(w: Facts, t: Target, v: Vm, v': Vm, r: nat)
    requires Established(w) && Watched(w, t) && t.chunk < |w.m| && IsRetired(w, t, v, r) && ComesBack(w, v, v')
    ensures IsRetired(w, t, v', r)
  {
    hide Established, Watched, Active, Sound, FrameRetired;
    var f, g := Top(v), v.frames[|v.frames| - 2];
    assert FrameRetired(w, t, f, r) && FrameRetired(w, t, g, r);
    NotHanded(w, t, f, v.host, v.regions, r);
    CallerRetired(w, t, g, Handed(f), r);
  }

  /** A return does not hand over a retired region. */
  lemma NotHanded(w: Facts, t: Target, f: Frame, host: Value, regions: seq<Origin>, r: nat)
    requires Established(w) && Watched(w, t) && t.chunk < |w.m| && FrameRetired(w, t, f, r)
    requires r < |regions| && regions[r].chunk == t.chunk && regions[r].site == t.site && r !in host
    requires Active(w, f, host, regions) && OpAt(w, f).Return? && Machine.Returned(f).Some?
    ensures r !in Handed(f)
  {
    hide Established, Watched, Active, DeadSlot, Exposed;
    if r in Handed(f) {
      WatchedQuiet(w, t, regions[r]);
      HandedKnown(w, f, host, regions, r);
      ReturnedOwn(w, f, host, regions, r);
    }
  }

  /** From the state where it is retired to any later state of the run. */
  lemma {:induction false} RunRetired(w: Facts, t: Target, run: seq<Vm>, i: nat, j: nat, r: nat)
    requires Established(w) && Watched(w, t) && t.chunk < |w.m| && IsRun(w.m, run) && i <= j < |run| && IsRetired(w, t, run[i], r)
    ensures IsRetired(w, t, run[j], r)
  {
    hide Inv, Promised, Established, Watched, IsRetired, Next;
    if i < j {
      RunRetired(w, t, run, i, j - 1, r);
      RunKeeps(w, run, j - 1);
      RunKeeps(w, run, j);
      assert StepTo(w.m, run[j - 1], run[j]);
      var ch :| Next(w.m, run[j - 1], ch) == Some(run[j]);
      StepRetired(w, t, run[j - 1], ch, run[j], r);
    }
  }

  // ----- the verdict -----

  /** The innermost frame begins a pass of the watched loop, from its top or from its end. */
  predicate BeginsPass(m: seq<Chunk>, t: Target, v: Vm, v': Vm)
    requires t.chunk < |m|
  {
    && v.frames != [] && v'.frames != []
    && Top(v).chunk == t.chunk && Top(v').id == Top(v).id && Top(v').chunk == t.chunk
    && (Top(v).ip == t.loop || Top(v).ip == ExitAt(m[t.chunk].ops, t.loop) - 1) && Top(v').ip == t.loop + 1
  }

  /** When a pass begins, no operand of its frame holds a region of the site. */
  lemma PassStartsFree(w: Facts, t: Target, v: Vm)
    requires Established(w) && Watched(w, t) && t.chunk < |w.m| && Inv(w, v) && AllContained(w, t, v) && v.frames != []
    requires Top(v).chunk == t.chunk && (Top(v).ip == t.loop || Top(v).ip == ExitOf(w, t) - 1)
    ensures Free(t, Top(v), v.regions, Top(v).stack)
  {
    hide Established, Watched, Inv, Contained, ScopeRangeOk, Free;
    var f := Top(v);
    WatchedLoop(w, t);
    FrameAt(w, v, |v.frames| - 1);
    assert Operands(v.frames, |v.frames| - 1) == f.stack;
    assert Contained(w, t, f, f.stack, v.regions);
    FrameIsAt(w, t, f, f.stack, v.host, v.regions);
    if f.ip == t.loop {
      FreeHere(w, t, f, f.stack, v.regions);
    } else {
      BackFree(w, t, f, f.stack, v.regions, t.loop + 1);
    }
  }

  lemma FreeHere(w: Facts, t: Target, f: Frame, operands: seq<Value>, regions: seq<Origin>)
    requires Established(w) && t.chunk < |w.m| && Contained(w, t, f, operands, regions)
    requires f.chunk == t.chunk && f.ip == t.loop
    ensures Free(t, f, regions, operands)
  {}

  /** Frames below the builder's hold nothing it built, unless it was exposed. */
  lemma BelowBuilder(w: Facts, v: Vm, k: nat, j: nat, r: nat)
    requires Established(w) && Inv(w, v) && k < j < |v.frames|
    requires r < |v.regions| && v.regions[r].frame == v.frames[j].id && !Exposed(w, v.regions[r])
    ensures r !in Regions(v.frames[k].locals) && r !in Regions(v.frames[k].stack) && r !in Regions(v.frames[k].args)
  {
    HostBounds(w, v, r);
    IdsRise(w, v, k, j);
    FrameAt(w, v, k);
    hide Inv, Established, Exposed, Charted;
    var f := v.frames[k];
    RegionsWithin(f.stack, Operands(v.frames, k), 0);
    assert forall x :: x in Regions(f.locals) || x in Regions(Operands(v.frames, k)) ==> Known(w, f, v.host, v.regions, x);
  }

  /** The frame that begins a pass, as far as its own earlier regions go. */
  lemma BuilderRetires(w: Facts, t: Target, v: Vm, g: Frame, r: nat)
    requires Established(w) && Watched(w, t) && t.chunk < |w.m| && Inv(w, v) && AllContained(w, t, v) && v.frames != []
    requires Top(v).chunk == t.chunk && (Top(v).ip == t.loop || Top(v).ip == ExitOf(w, t) - 1)
    requires Mine(t, Top(v), v.regions, r) && r !in v.host
    requires g == Top(v).(ip := t.loop + 1)
    ensures FrameRetired(w, t, g, r)
  {
    hide Inv, Established, Exposed, Charted, Holdings, DeadSlot, AllContained, Watched, Operands;
    PassStartsFree(w, t, v);
    FrameAt(w, v, |v.frames| - 1);
    var f := Top(v);
    OwnNotPassed(w, f, Operands(v.frames, |v.frames| - 1), v.host, v.regions, r);
    forall k | 0 <= k < |f.locals| && r in f.locals[k]
      ensures DeadSlot(w, t, t.loop + 1, k)
    {
      SlotDead(w, t, f, Operands(v.frames, |v.frames| - 1), v.host, v.regions, k, r);
      DeadAtTop(w, t, k);
    }
  }

  lemma OwnNotPassed(w: Facts, f: Frame, operands: seq<Value>, host: Value, regions: seq<Origin>, r: nat)
    requires Holdings(w, f, operands, host, regions) && r < |regions| && regions[r].frame == f.id
    ensures r !in Regions(f.args)
  {}

  lemma DeadAtTop(w: Facts, t: Target, k: nat)
    requires t.chunk < |w.m| && t.loop + 1 < ExitOf(w, t) <= |Code(w, t)|
    requires BoundaryDead(Code(w, t), t.loop + 1, ExitOf(w, t) - 1, k)
    ensures DeadSlot(w, t, t.loop + 1, k)
  {
    hide BoundaryDead, ScopeMark;
    if t.loop + 1 < ExitOf(w, t) - 1 {
      ScopeEntry(Code(w, t), t.loop + 1, ExitOf(w, t) - 1, k);
    }
  }

  /** When a pass begins, every region the same frame built at the site before is retired. */
  lemma PassRetires(w: Facts, t: Target, v: Vm, ch: Choice, v': Vm, r: nat)
    requires Established(w) && Watched(w, t) && t.chunk < |w.m| && Inv(w, v) && Promised(w, v) && Inv(w, v') && AllContained(w, t, v)
    requires Next(w.m, v, ch) == Some(v') && BeginsPass(w.m, t, v, v')
    requires r < |v.regions| && v.regions[r] == Origin(t.chunk, Top(v).id, t.site)
    ensures IsRetired(w, t, v', r)
  {
    hide Inv, Promised, Established, Watched, Next, FrameRetired, Exposed, AllContained, ExitAt;
    PassStep(w, t, v, ch, v');
    StaysInside(w, t, v, r);
    WatchedQuiet(w, t, v.regions[r]);
    BuilderRetires(w, t, v, Top(v'), r);
    forall k | 0 <= k < |v'.frames| - 1
      ensures FrameRetired(w, t, v'.frames[k], r)
    {
      BelowBuilder(w, v, k, |v.frames| - 1, r);
      UnheldRetired(w, t, v.frames[k], r);
    }
  }

  lemma UnheldRetired(w: Facts, t: Target, f: Frame, r: nat)
    requires t.chunk < |w.m| && r !in Regions(f.locals) && r !in Regions(f.stack) && r !in Regions(f.args)
    ensures FrameRetired(w, t, f, r)
  {}

  /** Beginning a pass only moves the frame. */
  lemma PassStep(w: Facts, t: Target, v: Vm, ch: Choice, v': Vm)
    requires Established(w) && Watched(w, t) && t.chunk < |w.m| && Inv(w, v) && Promised(w, v)
    requires Next(w.m, v, ch) == Some(v') && BeginsPass(w.m, t, v, v')
    ensures v' == WithTop(v, Top(v).(ip := t.loop + 1))
  {
    hide Inv, Promised, Established, Watched, Next, ScopeRangeOk, Active, Sourced, Advances, ScopeRange, Feeds;
    WatchedLoop(w, t);
    WatchedBody(w, t);
    StepCases(w, v, ch, v');
    if Feeds(v, v') {
      FeedStays(v, v');
    }
    var results :| Advances(w, v, v', results);
    StandsStill(w, v, v', results);
  }

  /** The site lies between the loop and its end. */
  lemma WatchedBody(w: Facts, t: Target)
    requires Established(w) && Watched(w, t)
    ensures t.site < ExitOf(w, t) - 1
  {
    hide Established, ScopeRangeOk, ScopeRange, VerdictOf, ScopeOf;
    WatchedLoop(w, t);
  }

  lemma FeedStays(v: Vm, v': Vm)
    requires Feeds(v, v')
    ensures v'.frames != [] && Top(v').ip == Top(v).ip
  {}

  lemma StandsStill(w: Facts, v: Vm, v': Vm, results: seq<Value>)
    requires Established(w) && Advances(w, v, v', results) && (OpAt(w, Top(v)).Loop? || OpAt(w, Top(v)).EndLoop?)
    ensures v' == WithTop(v, Top(v).(ip := Top(v').ip))
  {
    hide Established, Active, Sourced;
    assert Top(v').stack == Top(v).stack;
  }

  /** Reuse is safe: the site's verdict is `Confined` for one pass of its loop; a frame begins a pass
      at some step of a run; then for the rest of the run no operand stack and not the host ever hold
      a region that frame built at the site before, and no instruction obtains one. */
  lemma ConfinedReuseIsSafe(m: seq<Chunk>, sums: Summaries, run: seq<Vm>, t: Target, i: nat, j: nat, r: nat)
    requires Consistent(m, sums) && (forall k :: 0 <= k < |m| ==> Admitted(m[k], sums)) && IsRun(m, run)
    requires t.chunk < |m| && t.site < |m[t.chunk].ops| && m[t.chunk].ops[t.site].NewComposite?
    requires var verdict := VerdictOf(m[t.chunk], sums, t.site);
      verdict.finding.verdict == Confined && verdict.scope == Iteration(t.loop)
    requires i < j < |run|
    requires BeginsPass(m, t, run[i], run[i + 1])
    requires r < |run[i].regions| && run[i].regions[r] == Origin(t.chunk, Top(run[i]).id, t.site)
    ensures r !in run[j].host
    ensures forall k :: 0 <= k < |run[j].frames| ==> r !in Regions(run[j].frames[k].stack)
  {
    var w := Establish(m, sums);
    hide Established, Admitted, Consistent, Inv, Promised, AllContained, Next, VerdictOf, IsRetired;
    RunContained(w, t, run, i);
    RunKeeps(w, run, i);
    RunKeeps(w, run, i + 1);
    assert StepTo(m, run[i], run[i + 1]);
    var ch :| Next(m, run[i], ch) == Some(run[i + 1]);
    PassRetires(w, t, run[i], ch, run[i + 1], r);
    RunRetired(w, t, run, i + 1, j, r);
    RetiredMeans(w, t, run[j], r);
  }

  lemma RetiredMeans(w: Facts, t: Target, v: Vm, r: nat)
    requires t.chunk < |w.m| && IsRetired(w, t, v, r)
    ensures r !in v.host
    ensures forall k :: 0 <= k < |v.frames| ==> r !in Regions(v.frames[k].stack)
  {
    assert forall k :: 0 <= k < |v.frames| ==> FrameRetired(w, t, v.frames[k], r);
  }
}
