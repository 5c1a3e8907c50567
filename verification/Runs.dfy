/** The invariant holds along every run. */
module Runs {
  import opened Options
  import opened Bytecode
  import opened Confine
  import opened ConfineOrder
  import opened Annotation
  import opened Machine
  import opened Guard
  import opened Cover
  import opened Tracking
  import opened Soundness

  // ----- returning to a caller -----

  /** Caller `g` waits for callee `f`, which is about to return an operand. */
  ghost predicate Returning(w: Facts, g: Frame, f: Frame, host: Value, regions: seq<Origin>)
    requires Established(w)
  {
    && Waits(w.m, g, f) && Sound(w, g, g.stack + f.args, host, regions)
    && Active(w, f, host, regions) && OpAt(w, f).Return? && Machine.Returned(f).Some?
  }

  lemma HandedKnown(w: Facts, f: Frame, host: Value, regions: seq<Origin>, r: nat)
    requires Established(w) && Active(w, f, host, regions) && Machine.Returned(f).Some? && r in Handed(f)
    ensures Known(w, f, host, regions, r)
  {
    if f.stack != [] {
      assert r in f.stack[|f.stack| - 1];
    } else {
      assert r in f.locals[|f.locals| - 1];
    }
  }

  /** Everything the caller tracks that comes back came back through an argument the summary lets
      out. */
  lemma HandedBack(w: Facts, g: Frame, f: Frame, host: Value, regions: seq<Origin>, tags: Tags, r: nat)
    requires Established(w) && Returning(w, g, f, host, regions)
    requires r in Handed(f) && r in tags
    requires tags == SiteTags(g.id, regions, host) || tags == ParamTags(g.args, w.m[g.chunk].paramCount, host)
    ensures exists i :: 0 <= i < |f.args| && r in f.args[i] && Returns(w.sums, f.chunk, i)
  {
    HandedKnown(w, f, host, regions, r);
    ReturnedArg(w, f, host, regions, r);
  }

  lemma ReturnHoldings(w: Facts, g: Frame, f: Frame, host: Value, regions: seq<Origin>, g': Frame)
    requires Established(w) && Returning(w, g, f, host, regions)
    requires g' == g.(ip := g.ip + 1, stack := g.stack + [Handed(f)])
    ensures Holdings(w, g', g'.stack, host, regions)
  {
    forall r | r in Regions(g'.locals) || r in Regions(g'.stack)
      ensures Known(w, g', host, regions, r)
    {
      if r in Handed(f) {
        HandedKnown(w, f, host, regions, r);
        if r !in host && regions[r].frame == f.id {
          ReturnedOwn(w, f, host, regions, r);
        }
        RegionsWithin(f.args, g.stack + f.args, |g.stack|);
      } else {
        StackKept(g.stack, f.args, Handed(f), r);
      }
    }
    forall k, r | 0 <= k < |g'.locals| && r in g'.locals[k] && r < |regions| && regions[r].frame == g'.id && r !in host
      ensures StoreLogged(w, g', regions, k, r)
    {
      assert StoreLogged(w, g, regions, k, r);
    }
  }

  lemma StackKept(stack: seq<Value>, args: seq<Value>, v: Value, r: nat)
    requires r !in v
    ensures r in Regions(stack + [v]) ==> r in Regions(stack + args)
  {
    if r in Regions(stack + [v]) {
      var i :| 0 <= i < |stack + [v]| && r in (stack + [v])[i];
      assert r in (stack + args)[i];
    }
  }

  lemma ReturnCovered(c: Chunk, sums: Summaries, log: seq<Notice>, a: Ann, g: Frame, f: Frame, tags: Tags, g': Frame)
    requires g.ip in a && g.ip < |c.ops| && Flows(c, sums, log, g.ip, a[g.ip], a)
    requires c.ops[g.ip] == Call(f.chunk, |f.args|) && Machine.Returned(f).Some?
    requires Covered(a, g, g.stack + f.args, tags)
    requires g' == g.(ip := g.ip + 1, stack := g.stack + [Handed(f)])
    requires forall r :: r in Handed(f) && r in tags ==>
      exists i :: 0 <= i < |f.args| && r in f.args[i] && Returns(sums, f.chunk, i)
    ensures Covered(a, g', g'.stack, tags)
  {
    var op, s, operands := c.ops[g.ip], a[g.ip], g.stack + f.args;
    assert TakenOf(op, operands) == f.args && LeftOf(op, operands) == g.stack;
    TakenCovered(op, s.stack, operands, tags);
    CallProduces(sums, g.ip, op, s, tags, f.args, Handed(f));
    MoveCovered(c, sums, log, a, g, operands, tags, g', [Handed(f)], tags);
  }

  /** The charts of a frame that waits at a call. */
  lemma CallerCharted(w: Facts, g: Frame, f: Frame, host: Value, regions: seq<Origin>)
    requires Established(w) && Returning(w, g, f, host, regions)
    ensures g.chunk < |w.m| == |w.site| == |w.par|
    ensures var c, a, b := w.m[g.chunk], w.site[g.chunk], w.par[g.chunk];
      && g.ip in a && g.ip in b && g.ip < |c.ops|
      && Flows(c, w.sums, SiteLog(c, w.sums), g.ip, a[g.ip], a) && Flows(c, w.sums, ParamLog(c, w.sums), g.ip, b[g.ip], b)
      && c.ops[g.ip] == Call(f.chunk, |f.args|) && Machine.Returned(f).Some?
      && Covered(a, g, g.stack + f.args, SiteTags(g.id, regions, host))
      && Covered(b, g, g.stack + f.args, ParamTags(g.args, c.paramCount, host))
  {
    hide Flows, Sized, FloorsKept, SiteLog, ParamLog, CoverSeq, Holdings;
    assert ChunkCharted(w, g.chunk);
  }

  lemma ReturnSound(w: Facts, g: Frame, f: Frame, host: Value, regions: seq<Origin>, g': Frame)
    requires Established(w) && Returning(w, g, f, host, regions)
    requires g' == g.(ip := g.ip + 1, stack := g.stack + [Handed(f)])
    ensures Sound(w, g', g'.stack, host, regions)
  {
    hide Holdings, Covered, Returns, Returning, Flows, SiteLog, ParamLog, SiteTags, ParamTags, Established;
    CallerCharted(w, g, f, host, regions);
    var c := w.m[g.chunk];
    ReturnHoldings(w, g, f, host, regions, g');
    forall tags, r | r in Handed(f) && r in tags &&
        (tags == SiteTags(g.id, regions, host) || tags == ParamTags(g.args, c.paramCount, host))
      ensures exists i :: 0 <= i < |f.args| && r in f.args[i] && Returns(w.sums, f.chunk, i)
    {
      HandedBack(w, g, f, host, regions, tags, r);
    }
    ReturnCovered(c, w.sums, SiteLog(c, w.sums), w.site[g.chunk], g, f, SiteTags(g.id, regions, host), g');
    ReturnCovered(c, w.sums, ParamLog(c, w.sums), w.par[g.chunk], g, f, ParamTags(g.args, c.paramCount, host), g');
  }

  // ----- handing over to the host -----

  /** Region `r` came in where the summary says it may leak. */
  predicate LeakingArg(w: Facts, f: Frame, r: nat) {
    exists i :: 0 <= i < |f.args| && r in f.args[i] && Leaks(w.sums, f.chunk, i)
  }

  /** Does `op`, taking these operands, let go of region `r`: to the host, to a data slot, or to a callee
      that may? */
  predicate LetsGo(sums: Summaries, op: Op, taken: seq<Value>, r: nat) {
    if op.Call? then exists i :: 0 <= i < |taken| && r in taken[i] && Leaks(sums, op.callee, i) else r in HandedOver(op, taken)
  }

  lemma NoticesLogged(c: Chunk, sums: Summaries, log: seq<Notice>, ip: nat, s: State, t: Ann)
    requires Flows(c, sums, log, ip, s, t) && !c.ops[ip].Trap?
    ensures Pops(c.ops[ip]) <= |s.stack| && LogLeq(NoticesOf(sums, ip, c.ops[ip], Taken(c.ops[ip], s.stack)), log)
  {}

  lemma LeavingReported(c: Chunk, sums: Summaries, log: seq<Notice>, a: Ann, f: Frame, operands: seq<Value>, tags: Tags, r: nat)
    requires f.ip in a && f.ip < |c.ops| && Flows(c, sums, log, f.ip, a[f.ip], a)
    requires Covered(a, f, operands, tags) && r in tags && Clear(f.ip, c.ops[f.ip], a[f.ip])
    requires Pops(c.ops[f.ip]) <= |operands| && LetsGo(sums, c.ops[f.ip], TakenOf(c.ops[f.ip], operands), r)
    ensures exists e :: IsLeak(e) && Reported(log, tags, r, e)
  {
    var op, s := c.ops[f.ip], a[f.ip];
    assert !op.Trap?;
    NoticesLogged(c, sums, log, f.ip, s, a);
    hide Flows, Reported, NoticesOf, Clear, Meets;
    var taken, xs := TakenOf(op, operands), Taken(op, s.stack);
    TakenCovered(op, s.stack, operands, tags);
    var e := if op.Call? then PassedToCall(f.ip) else if op.Yield? then Yielded(f.ip) else HandedToNative(f.ip);
    if op.Call? {
      var i :| 0 <= i < |taken| && r in taken[i] && Leaks(sums, op.callee, i);
      PassReported(sums, f.ip, op, s, tags, taken, i, r);
    } else if op.Yield? || op.CallNative? {
      HandOverReported(sums, f.ip, op, s, tags, taken, r);
    } else {
      KeptUntracked(f.ip, op, s, tags, taken, r);
    }
    ReportedMore(NoticesOf(sums, f.ip, op, xs), log, tags, r, e);
  }

  /** A region a frame lets go was exposed where it was built, or came in where the frame's own
      summary says it may leak. */
  lemma LeavingOnce(w: Facts, f: Frame, operands: seq<Value>, host: Value, regions: seq<Origin>, r: nat)
    requires Established(w) && Sound(w, f, operands, host, regions) && f.ip < |w.m[f.chunk].ops|
    requires Pops(OpAt(w, f)) <= |operands| && LetsGo(w.sums, OpAt(w, f), TakenOf(OpAt(w, f), operands), r)
    requires r !in host && r in Regions(operands)
    ensures r < |regions|
    ensures regions[r].frame >= f.id ==> Exposed(w, regions[r])
    ensures regions[r].frame < f.id ==> LeakingArg(w, f, r)
  {
    var c := w.m[f.chunk];
    assert ChunkCharted(w, f.chunk);
    assert Known(w, f, host, regions, r);
    hide Flows, Covered, Reported, Leaks;
    if regions[r].frame == f.id {
      var tags := SiteTags(f.id, regions, host);
      LeavingReported(c, w.sums, SiteLog(c, w.sums), w.site[f.chunk], f, operands, tags, r);
      var e :| IsLeak(e) && Reported(SiteLog(c, w.sums), tags, r, e);
      SiteReported(w, f.id, f.chunk, host, regions, r, e);
    } else if regions[r].frame < f.id {
      LeavingArg(w, f, operands, host, regions, r);
    }
  }

  lemma LeavingArg(w: Facts, f: Frame, operands: seq<Value>, host: Value, regions: seq<Origin>, r: nat)
    requires Established(w) && Sound(w, f, operands, host, regions) && f.ip < |w.m[f.chunk].ops|
    requires Pops(OpAt(w, f)) <= |operands| && LetsGo(w.sums, OpAt(w, f), TakenOf(OpAt(w, f), operands), r)
    requires r !in host && r in Regions(f.args)
    ensures LeakingArg(w, f, r)
  {
    var c := w.m[f.chunk];
    assert ChunkCharted(w, f.chunk);
    var tags := ParamTags(f.args, c.paramCount, host);
    hide Flows, Covered, Reported, Leaks, Holdings;
    if r in tags {
      LeavingReported(c, w.sums, ParamLog(c, w.sums), w.par[f.chunk], f, operands, tags, r);
      var e :| IsLeak(e) && Reported(ParamLog(c, w.sums), tags, r, e);
      LeakSummarized(w, f.chunk, f.args, host, r, e);
    } else {
      UndeclaredReturns(w, f.chunk, f.args, host, r);
    }
  }

  /** The innermost frame hands `r` to the host: every frame below either built it after it was
      entered, and then it was reported, or let it go through a parameter its summary admits. */
  lemma {:induction false} LeavesAlong(w: Facts, v: Vm, k: nat, r: nat)
    requires Established(w) && Inv(w, v) && k < |v.frames| && HandsOver(w, v, r) && r !in v.host
    ensures r < |v.regions|
    ensures v.regions[r].frame >= v.frames[k].id ==> Exposed(w, v.regions[r])
    ensures v.regions[r].frame < v.frames[k].id ==> LeakingArg(w, v.frames[k], r)
    decreases |v.frames| - k
  {
    hide *;
    if k + 1 == |v.frames| {
      TopIsLast(v);
      LeavesTop(w, v, r);
    } else {
      LeavesAlong(w, v, k + 1, r);
      LeavesNext(w, v, k, r);
    }
  }

  lemma TopIsLast(v: Vm)
    requires v.frames != []
    ensures Top(v) == v.frames[|v.frames| - 1] && Operands(v.frames, |v.frames| - 1) == Top(v).stack
  {}

  lemma FrameAt(w: Facts, v: Vm, k: nat)
    requires Established(w) && Inv(w, v) && k < |v.frames|
    ensures Sound(w, v.frames[k], Operands(v.frames, k), v.host, v.regions)
    ensures v.frames[k].chunk < |w.m| && v.frames[k].id < v.nextFrame
    ensures k + 1 < |v.frames| ==> Waits(w.m, v.frames[k], v.frames[k + 1])
  {}

  lemma LeavesTop(w: Facts, v: Vm, r: nat)
    requires Established(w) && Inv(w, v) && HandsOver(w, v, r) && r !in v.host
    ensures r < |v.regions|
    ensures v.regions[r].frame >= Top(v).id ==> Exposed(w, v.regions[r])
    ensures v.regions[r].frame < Top(v).id ==> LeakingArg(w, Top(v), r)
  {
    hide Sound, LeakingArg, Exposed, Established, Inv, Known;
    var f := Top(v);
    FrameAt(w, v, |v.frames| - 1);
    assert Operands(v.frames, |v.frames| - 1) == f.stack;
    HandedTaken(OpAt(w, f), TakenOf(OpAt(w, f), f.stack));
    TakenHeld(w, f, r);
    LeavingOnce(w, f, f.stack, v.host, v.regions, r);
  }

  lemma LeavesNext(w: Facts, v: Vm, k: nat, r: nat)
    requires Established(w) && Inv(w, v) && k + 1 < |v.frames| && r !in v.host && r < |v.regions|
    requires v.regions[r].frame >= v.frames[k + 1].id ==> Exposed(w, v.regions[r])
    requires v.regions[r].frame < v.frames[k + 1].id ==> LeakingArg(w, v.frames[k + 1], r)
    ensures v.regions[r].frame >= v.frames[k].id ==> Exposed(w, v.regions[r])
    ensures v.regions[r].frame < v.frames[k].id ==> LeakingArg(w, v.frames[k], r)
  {
    hide Sound, LeakingArg, Exposed, Established, Inv, Known;
    var f, g := v.frames[k], v.frames[k + 1];
    FrameAt(w, v, k);
    if v.regions[r].frame < g.id {
      PassedOn(w, f, g, r);
      LeavingOnce(w, f, f.stack + g.args, v.host, v.regions, r);
    }
  }

  ghost predicate HandsOver(w: Facts, v: Vm, r: nat)
    requires Established(w) && Inv(w, v)
  {
    && v.frames != []
    && Active(w, Top(v), v.host, v.regions)
    && r in HandedOver(OpAt(w, Top(v)), TakenOf(OpAt(w, Top(v)), Top(v).stack))
  }

  lemma TakenHeld(w: Facts, f: Frame, r: nat)
    requires f.chunk < |w.m| && f.ip < |w.m[f.chunk].ops| && Pops(OpAt(w, f)) <= |f.stack|
    requires r in Regions(TakenOf(OpAt(w, f), f.stack))
    ensures r in Regions(f.stack)
  {
    RegionsWithin(TakenOf(OpAt(w, f), f.stack), f.stack, |LeftOf(OpAt(w, f), f.stack)|);
  }

  lemma HandedTaken(op: Op, taken: seq<Value>)
    ensures HandedOver(op, taken) <= Regions(taken)
    ensures op.Call? ==> HandedOver(op, taken) == {}
  {}

  lemma PassedOn(w: Facts, f: Frame, g: Frame, r: nat)
    requires Waits(w.m, f, g) && LeakingArg(w, g, r)
    ensures var op := OpAt(w, f); op == Call(g.chunk, |g.args|) && TakenOf(op, f.stack + g.args) == g.args
    ensures r in Regions(f.stack + g.args) && LetsGo(w.sums, OpAt(w, f), g.args, r)
  {
    RegionsWithin(g.args, f.stack + g.args, |f.stack|);
  }

  // ----- the invariant along a run -----

  /** What a frame's summary promises of the regions it was passed: those the host has come to hold
      came in where the summary says they may leak. */
  ghost predicate Promised(w: Facts, v: Vm) {
    forall k, r :: 0 <= k < |v.frames| && r in Regions(v.frames[k].args) && r in v.host && r !in v.frames[k].hostAtEntry ==>
      LeakingArg(w, v.frames[k], r)
  }

  /** Same frame, moved. */
  predicate SameFrame(f: Frame, g: Frame) {
    g.id == f.id && g.chunk == f.chunk && g.args == f.args && g.hostAtEntry == f.hostAtEntry
  }

  /** The innermost frame moves and everything else stays, but for what the host gains and what the
      frame builds. */
  lemma TopMoves(w: Facts, v: Vm, g: Frame, host': Value, regions': seq<Origin>, v': Vm)
    requires Established(w) && Inv(w, v) && v.frames != [] && SameFrame(Top(v), g)
    requires v' == WithTop(v, g).(host := host', regions := regions')
    requires v.host <= host' && v.regions <= regions'
    requires forall r: nat :: |v.regions| <= r < |regions'| ==> regions'[r].frame == g.id
    requires Sound(w, g, g.stack, host', regions')
    requires forall r :: r in host' ==> r < |regions'| && Exposed(w, regions'[r])
    ensures Inv(w, v')
  {
    hide Sound, Exposed, Waits;
    forall k | 0 <= k < |v'.frames|
      ensures Sound(w, v'.frames[k], Operands(v'.frames, k), host', regions')
    {
      if k + 1 < |v'.frames| {
        IdsRise(w, v, k, |v.frames| - 1);
        assert Operands(v'.frames, k) == Operands(v.frames, k);
        SoundKept(w, v.frames[k], Operands(v.frames, k), v.host, v.regions, host', regions');
      }
    }
    forall k | 0 <= k < |v'.frames| - 1
      ensures Waits(w.m, v'.frames[k], v'.frames[k + 1])
    {
      assert Waits(w.m, v.frames[k], v.frames[k + 1]);
      if k + 2 == |v'.frames| {
        WaitsSame(w.m, v.frames[k], Top(v), g);
      }
    }
  }

  lemma WaitsSame(m: seq<Chunk>, f: Frame, g: Frame, g': Frame)
    requires Waits(m, f, g) && SameFrame(g, g')
    ensures Waits(m, f, g')
  {}

  lemma {:induction false} IdsRise(w: Facts, v: Vm, j: nat, k: nat)
    requires Established(w) && Inv(w, v) && j < k < |v.frames|
    ensures v.frames[j].id < v.frames[k].id
    decreases k - j
  {
    hide Sound, Exposed;
    assert Waits(w.m, v.frames[j], v.frames[j + 1]);
    if j + 1 < k {
      IdsRise(w, v, j + 1, k);
    }
  }

  /** What the host holds after a straight step was exposed. */
  lemma HostExposed(w: Facts, v: Vm, r: nat)
    requires Established(w) && Inv(w, v) && HandsOver(w, v, r)
    ensures r < |v.regions| && Exposed(w, v.regions[r])
  {
    hide *;
    HostBounds(w, v, r);
    if r !in v.host {
      HandsOverNeedsFrame(w, v, r);
      LeavesAlong(w, v, 0, r);
    }
  }

  lemma HandsOverNeedsFrame(w: Facts, v: Vm, r: nat)
    requires Established(w) && Inv(w, v) && HandsOver(w, v, r)
    ensures v.frames != []
  {}

  /** What the host has was exposed, and the outermost frame was passed nothing else. */
  lemma HostBounds(w: Facts, v: Vm, r: nat)
    requires Established(w) && Inv(w, v)
    ensures r in v.host ==> r < |v.regions| && Exposed(w, v.regions[r])
    ensures v.frames != [] && LeakingArg(w, v.frames[0], r) ==> r in v.host
  {
    hide Sound, Exposed;
    if v.frames != [] && LeakingArg(w, v.frames[0], r) {
      assert r in Regions(v.frames[0].args);
    }
  }

  /** The host keeps to what summaries promise. */
  lemma PromiseKept(w: Facts, v: Vm, k: nat, r: nat)
    requires Established(w) && Inv(w, v) && HandsOver(w, v, r) && r !in v.host
    requires k < |v.frames| && r in Regions(v.frames[k].args)
    ensures LeakingArg(w, v.frames[k], r)
  {
    FrameAt(w, v, k);
    LeavesAlong(w, v, k, r);
    hide Inv, LeakingArg, Exposed, HandsOver, Charted;
  }

  lemma ActiveTop(w: Facts, v: Vm)
    requires Established(w) && Inv(w, v) && v.frames != []
    requires Top(v).ip < |w.m[Top(v).chunk].ops|
    requires var op := OpAt(w, Top(v)); Pops(op) <= |Top(v).stack| && SlotInRange(op, |Top(v).locals|)
    ensures Active(w, Top(v), v.host, v.regions)
  {
    hide Sound;
    FrameAt(w, v, |v.frames| - 1);
  }

  /** The instruction the innermost frame is at, with its operands there. */
  ghost predicate Ready(w: Facts, v: Vm)
    requires Established(w)
  {
    && Inv(w, v) && Promised(w, v)
    && v.frames != [] && Active(w, Top(v), v.host, v.regions)
  }

  function Moved(op: Op, f: Frame, results: seq<Value>): Frame
    requires Pops(op) <= |f.stack| && SlotInRange(op, |f.locals|)
  {
    f.(ip := f.ip + 1, locals := LocalsAfter(op, f.locals, TakenOf(op, f.stack)), stack := LeftOf(op, f.stack) + results)
  }

  lemma StraightShape(v: Vm, op: Op, ch: Choice, v': Vm)
    requires v.frames != [] && Straight(op) && ch.Proceed?
    requires Pops(op) <= |Top(v).stack| && SlotInRange(op, |Top(v).locals|)
    requires StraightStep(v, Top(v), op, ch) == Some(v')
    ensures var f, g := Top(v), Moved(op, Top(v), ch.results);
      var host', regions' := HostAfter(op, TakenOf(op, f.stack), v.host), RegionsAfter(op, f, v.regions);
      && StraightTo(op, f, host', |v.regions|, ch.results, g) && SameFrame(f, g)
      && v' == WithTop(v, g).(host := host', regions := regions')
      && v.host <= host' && v.regions <= regions'
      && (forall r: nat :: |v.regions| <= r < |regions'| ==> regions'[r].frame == g.id)
  {}

  lemma HostStaysExposed(w: Facts, v: Vm, op: Op, r: nat)
    requires Established(w) && Ready(w, v) && op == OpAt(w, Top(v))
    requires r in HostAfter(op, TakenOf(op, Top(v).stack), v.host)
    ensures r < |v.regions| && Exposed(w, v.regions[r])
  {
    hide Inv, Promised, Active, Exposed, HandsOver, Established;
    HostBounds(w, v, r);
    if r !in v.host {
      StraightHandsOver(w, v, r);
      HostExposed(w, v, r);
    }
  }

  lemma StraightKeeps(w: Facts, v: Vm, ch: Choice, v': Vm)
    requires Established(w) && Ready(w, v) && Straight(OpAt(w, Top(v))) && ch.Proceed?
    requires StraightStep(v, Top(v), OpAt(w, Top(v)), ch) == Some(v')
    ensures Inv(w, v') && Promised(w, v')
  {
    var f, op := Top(v), OpAt(w, Top(v));
    var g := Moved(op, f, ch.results);
    hide Inv, Promised, Active, Exposed, HandsOver, Established, StraightStep, StraightTo, WithTop, Top, Sound, HostAfter, Moved, TakenOf;
    StraightShape(v, op, ch, v');
    HostWithin(w, v);
    StraightSound(w, f, v.host, v.regions, ch.results, g);
    forall r | r in v'.host
      ensures r < |v'.regions| && Exposed(w, v'.regions[r])
    {
      HostStaysExposed(w, v, op, r);
    }
    TopMoves(w, v, g, v'.host, v'.regions, v');
    forall r | r in v'.host && r !in v.host
      ensures HandsOver(w, v, r)
    {
      StraightHandsOver(w, v, r);
    }
    PromisesMove(w, v, g, v');
  }

  lemma HostWithin(w: Facts, v: Vm)
    requires Established(w) && Inv(w, v)
    ensures forall r :: r in v.host ==> r < |v.regions|
  {}

  lemma StraightHandsOver(w: Facts, v: Vm, r: nat)
    requires Established(w) && Ready(w, v)
    requires var op := OpAt(w, Top(v)); r in HostAfter(op, TakenOf(op, Top(v).stack), v.host) && r !in v.host
    ensures HandsOver(w, v, r)
  {
    hide Inv, Promised;
  }

  lemma PromisesMove(w: Facts, v: Vm, g: Frame, v': Vm)
    requires Established(w) && Ready(w, v) && SameFrame(Top(v), g)
    requires v'.frames == WithTop(v, g).frames
    requires forall r :: r in v'.host && r !in v.host ==> HandsOver(w, v, r)
    ensures Promised(w, v')
  {
    hide Inv, Active, LeakingArg, HandsOver;
    forall k, r | 0 <= k < |v'.frames| && r in Regions(v'.frames[k].args) && r in v'.host && r !in v'.frames[k].hostAtEntry
      ensures LeakingArg(w, v'.frames[k], r)
    {
      assert SameFrame(v.frames[k], v'.frames[k]);
      if r !in v.host {
        PromiseKept(w, v, k, r);
      }
      LeakingSame(w, v.frames[k], v'.frames[k], r);
    }
  }

  lemma LeakingSame(w: Facts, f: Frame, g: Frame, r: nat)
    requires SameFrame(f, g)
    ensures LeakingArg(w, f, r) == LeakingArg(w, g, r)
  {}

  lemma JumpKeeps(w: Facts, v: Vm, branch: bool, v': Vm)
    requires Established(w) && Ready(w, v) && Jump(OpAt(w, Top(v)))
    requires var f, op := Top(v), OpAt(w, Top(v)); v' == WithTop(v, f.(ip := JumpTo(op, f.ip, branch), stack := LeftOf(op, f.stack)))
    ensures Inv(w, v') && Promised(w, v')
  {
    var f, op := Top(v), OpAt(w, Top(v));
    var g := f.(ip := JumpTo(op, f.ip, branch), stack := LeftOf(op, f.stack));
    HostIn(w, v);
    hide Inv, Promised, Active, Exposed, HandsOver, Established, Sound;
    JumpSound(w, f, v.host, v.regions, branch, g);
    TopMoves(w, v, g, v.host, v.regions, v');
    PromisesMove(w, v, g, v');
  }

  lemma HostIn(w: Facts, v: Vm)
    requires Established(w) && Inv(w, v)
    ensures forall r :: r in v.host ==> r < |v.regions| && Exposed(w, v.regions[r])
  {}

  lemma ResetKeeps(w: Facts, v: Vm, v': Vm)
    requires Established(w) && Ready(w, v) && OpAt(w, Top(v)).Reset?
    requires StreamAt(w.m[Top(v).chunk].ops, 0).Some?
    requires var f := Top(v);
      v' == WithTop(v, f.(ip := StreamAt(w.m[f.chunk].ops, 0).value + 1, locals := Blank(|f.locals|), stack := []))
    ensures Inv(w, v') && Promised(w, v')
  {
    hide Inv, Promised, Active, Exposed, HandsOver, Established, Sound, Ready, OpAt, StreamAt;
    TopOf(w, v);
    HostIn(w, v);
    var f := Top(v);
    var g := f.(ip := StreamAt(w.m[f.chunk].ops, 0).value + 1, locals := Blank(|f.locals|), stack := []);
    ResetSound(w, f, v.host, v.regions, g);
    TopMoves(w, v, g, v.host, v.regions, v');
    PromisesMove(w, v, g, v');
  }

  // ----- frames come and go -----

  /** Dropping the innermost frame, its caller moved on. */
  lemma FrameLeft(w: Facts, v: Vm, g: Frame, v': Vm)
    requires Established(w) && Inv(w, v) && |v.frames| >= 2 && SameFrame(v.frames[|v.frames| - 2], g)
    requires v' == v.(frames := v.frames[..|v.frames| - 2] + [g])
    requires Sound(w, g, g.stack, v.host, v.regions)
    ensures Inv(w, v')
  {
    hide Sound, Exposed, Waits, Established;
    var n := |v.frames| - 1;
    forall k | 0 <= k < n
      ensures Sound(w, v'.frames[k], Operands(v'.frames, k), v.host, v.regions)
    {
      if k + 1 < n {
        assert Operands(v'.frames, k) == Operands(v.frames, k);
      }
    }
    forall k | 0 <= k < n - 1
      ensures Waits(w.m, v'.frames[k], v'.frames[k + 1])
    {
      assert Waits(w.m, v.frames[k], v.frames[k + 1]);
      WaitsSame(w.m, v.frames[k], v.frames[k + 1], v'.frames[k + 1]);
    }
  }

  lemma PromisesLeft(w: Facts, v: Vm, g: Frame, v': Vm)
    requires Promised(w, v) && |v.frames| >= 2 && SameFrame(v.frames[|v.frames| - 2], g)
    requires v' == v.(frames := v.frames[..|v.frames| - 2] + [g])
    ensures Promised(w, v')
  {
    hide LeakingArg;
    forall k, r | 0 <= k < |v'.frames| && r in Regions(v'.frames[k].args) && r in v'.host && r !in v'.frames[k].hostAtEntry
      ensures LeakingArg(w, v'.frames[k], r)
    {
      LeakingSame(w, v.frames[k], v'.frames[k], r);
    }
  }

  lemma CallerWaits(w: Facts, v: Vm)
    requires Established(w) && Ready(w, v) && OpAt(w, Top(v)).Return? && |v.frames| >= 2 && Machine.Returned(Top(v)).Some?
    ensures Returning(w, v.frames[|v.frames| - 2], Top(v), v.host, v.regions)
  {
    hide Inv, Promised, Active, Established, Sound, Waits;
    FrameAt(w, v, |v.frames| - 2);
  }

  lemma ReturnShape(v: Vm, f: Frame, v': Vm)
    requires |v.frames| >= 2 && f == Top(v) && Machine.Returned(f).Some? && ReturnStep(v, f) == Some(v')
    ensures var g := v.frames[|v.frames| - 2];
      var g' := g.(ip := g.ip + 1, stack := g.stack + [Handed(f)]);
      v' == v.(frames := v.frames[..|v.frames| - 2] + [g']) && SameFrame(g, g')
  {}

  lemma ReturnKeeps(w: Facts, v: Vm, v': Vm)
    requires Established(w) && Ready(w, v) && OpAt(w, Top(v)).Return? && |v.frames| >= 2
    requires ReturnStep(v, Top(v)) == Some(v')
    ensures Inv(w, v') && Promised(w, v')
  {
    hide Inv, Promised, Active, Established, Sound, Waits, OpAt, Top, ReturnStep;
    var f, g := Top(v), v.frames[|v.frames| - 2];
    ReturnHas(w, f, v.host, v.regions);
    ReturnShape(v, f, v');
    CallerWaits(w, v);
    var g' := g.(ip := g.ip + 1, stack := g.stack + [Handed(f)]);
    ReturnSound(w, g, f, v.host, v.regions, g');
    FrameLeft(w, v, g', v');
    PromisesLeft(w, v, g', v');
  }

  /** The outermost frame returns to the host. */
  lemma ReturnEnds(w: Facts, v: Vm, v': Vm)
    requires Established(w) && Ready(w, v) && OpAt(w, Top(v)).Return? && |v.frames| == 1
    requires ReturnStep(v, Top(v)) == Some(v')
    ensures Inv(w, v') && Promised(w, v')
  {
    var f := Top(v);
    hide Active, Established, Sound, Exposed;
    forall r | r in v'.host
      ensures r < |v.regions| && Exposed(w, v.regions[r])
    {
      if r !in v.host {
        HandedKnown(w, f, v.host, v.regions, r);
        if v.regions[r].frame == f.id {
          ReturnedOwn(w, f, v.host, v.regions, r);
        }
      }
    }
  }

  /** A frame joins on top. */
  lemma FrameJoins(w: Facts, v: Vm, g: Frame, f: Frame, v': Vm)
    requires Established(w) && Inv(w, v) && v.frames != [] && SameFrame(Top(v), g)
    requires v' == v.(frames := v.frames[..|v.frames| - 1] + [g] + [f], nextFrame := v.nextFrame + 1)
    requires f.id == v.nextFrame && Waits(w.m, g, f)
    requires Sound(w, g, g.stack + f.args, v.host, v.regions) && Sound(w, f, f.stack, v.host, v.regions)
    ensures Inv(w, v')
  {
    hide Sound, Exposed, Waits, Established;
    var n := |v.frames|;
    forall k | 0 <= k < n + 1
      ensures Sound(w, v'.frames[k], Operands(v'.frames, k), v.host, v.regions)
    {
      if k + 1 < n {
        assert Operands(v'.frames, k) == Operands(v.frames, k);
      }
    }
    JoinedWaits(w.m, v.frames, g, f);
  }

  /** The call stack with its innermost frame waiting for a new one. */
  lemma JoinedWaits(m: seq<Chunk>, frames: seq<Frame>, g: Frame, f: Frame)
    requires frames != [] && SameFrame(frames[|frames| - 1], g) && Waits(m, g, f)
    requires forall k :: 0 <= k < |frames| - 1 ==> Waits(m, frames[k], frames[k + 1])
    ensures var now := frames[..|frames| - 1] + [g] + [f];
      forall k :: 0 <= k < |now| - 1 ==> Waits(m, now[k], now[k + 1])
  {
    hide Waits;
    var now := frames[..|frames| - 1] + [g] + [f];
    forall k | 0 <= k < |now| - 1
      ensures Waits(m, now[k], now[k + 1])
    {
      if k + 2 < |now| {
        assert Waits(m, frames[k], frames[k + 1]);
        WaitsSame(m, frames[k], frames[k + 1], now[k + 1]);
      }
    }
  }

  lemma PromisesJoin(w: Facts, v: Vm, g: Frame, f: Frame, v': Vm)
    requires Promised(w, v) && v.frames != [] && SameFrame(Top(v), g) && f.hostAtEntry == v.host
    requires v' == v.(frames := v.frames[..|v.frames| - 1] + [g] + [f], nextFrame := v.nextFrame + 1)
    ensures Promised(w, v')
  {
    hide LeakingArg;
    forall k, r | 0 <= k < |v'.frames| && r in Regions(v'.frames[k].args) && r in v'.host && r !in v'.frames[k].hostAtEntry
      ensures LeakingArg(w, v'.frames[k], r)
    {
      LeakingSame(w, v.frames[k], v'.frames[k], r);
    }
  }

  lemma CallKeeps(w: Facts, v: Vm, v': Vm)
    requires Established(w) && Ready(w, v) && OpAt(w, Top(v)).Call?
    requires CallStep(w.m, v, Top(v), OpAt(w, Top(v))) == Some(v')
    ensures Inv(w, v') && Promised(w, v')
  {
    hide Inv, Promised, Established, Sound, Active, Ready, CallStep, OpAt, Top, Waits, Entered, SameFrame;
    TopOf(w, v);
    var f, op := Top(v), OpAt(w, Top(v));
    CallShape(w.m, v, f, op, v');
    var args := TakenOf(op, f.stack);
    var g, e := f.(stack := LeftOf(op, f.stack)), Entered(w.m, v, op.callee, args);
    ArgsKnown(w, v);
    EntrySound(w, v, op.callee, args);
    WaitingSound(w, f, v.host, v.regions, g);
    FrameJoins(w, v, g, e, v');
    PromisesJoin(w, v, g, e, v');
  }

  lemma ArgsKnown(w: Facts, v: Vm)
    requires Established(w) && Ready(w, v)
    ensures forall r: nat :: r < |v.regions| ==> v.regions[r].frame < v.nextFrame
    ensures forall r :: r in Regions(TakenOf(OpAt(w, Top(v)), Top(v).stack)) ==> r < |v.regions|
  {
    forall r | r in Regions(TakenOf(OpAt(w, Top(v)), Top(v).stack))
      ensures r < |v.regions|
    {
      TakenHeld(w, Top(v), r);
      assert Known(w, Top(v), v.host, v.regions, r);
    }
  }

  lemma CallShape(m: seq<Chunk>, v: Vm, f: Frame, op: Op, v': Vm)
    requires v.frames != [] && f == Top(v) && op.Call? && Pops(op) <= |f.stack|
    requires f.chunk < |m| && f.ip < |m[f.chunk].ops| && m[f.chunk].ops[f.ip] == op && f.id < v.nextFrame
    requires CallStep(m, v, f, op) == Some(v')
    ensures op.callee < |m| && |TakenOf(op, f.stack)| == op.argc <= m[op.callee].localCount
    ensures var g, e := f.(stack := LeftOf(op, f.stack)), Entered(m, v, op.callee, TakenOf(op, f.stack));
      && v' == v.(frames := v.frames[..|v.frames| - 1] + [g] + [e], nextFrame := v.nextFrame + 1)
      && e.args == TakenOf(op, f.stack) && e.hostAtEntry == v.host && e.id == v.nextFrame
      && Waits(m, g, e) && SameFrame(f, g)
  {}

  lemma TopOf(w: Facts, v: Vm)
    requires Established(w) && Ready(w, v)
    ensures v.frames != [] && Top(v).chunk < |w.m| && Top(v).ip < |w.m[Top(v).chunk].ops| && Top(v).id < v.nextFrame
    ensures OpAt(w, Top(v)) == w.m[Top(v).chunk].ops[Top(v).ip] && Pops(OpAt(w, Top(v))) <= |Top(v).stack|
    ensures Inv(w, v) && Promised(w, v) && Active(w, Top(v), v.host, v.regions)
  {
    FrameAt(w, v, |v.frames| - 1);
  }

  lemma EnterKeeps(w: Facts, v: Vm, ch: Choice, v': Vm)
    requires Established(w) && Inv(w, v) && ch.Enter? && Next(w.m, v, ch) == Some(v')
    ensures Inv(w, v') && Promised(w, v')
  {
    assert forall r :: r in Regions(ch.args) ==> r < |v.regions|;
    EntrySound(w, v, ch.chunk, ch.args);
    hide Sound, Exposed, Established;
    assert v'.frames == [Entered(w.m, v, ch.chunk, ch.args)];
  }

  // ----- resuming and giving up -----

  /** The host's input in a slot is nothing the analysis tracks. */
  lemma FedSound(w: Facts, f: Frame, operands: seq<Value>, host: Value, regions: seq<Origin>, input: Value)
    requires Established(w) && Sound(w, f, operands, host, regions) && f.locals != [] && input <= host
    requires forall r :: r in host ==> r < |regions|
    ensures Sound(w, f.(locals := f.locals[0 := input]), operands, host, regions)
  {
    var g := f.(locals := f.locals[0 := input]);
    hide Established;
    forall r | r in Regions(g.locals) || r in Regions(operands)
      ensures Known(w, g, host, regions, r)
    {
      assert r in input || r in Regions(f.locals) || r in Regions(operands);
      assert r !in host ==> Known(w, f, host, regions, r);
    }
    forall k, r | 0 <= k < |g.locals| && r in g.locals[k] && r < |regions| && regions[r].frame == g.id && r !in host
      ensures StoreLogged(w, g, regions, k, r)
    {
      assert StoreLogged(w, f, regions, k, r);
    }
  }

  /** Only the one frame's slots change. */
  lemma FedShape(v: Vm, k: nat, input: Value, v': Vm, i: nat)
    requires k < |v.frames| && v.frames[k].locals != [] && v' == Fed(v, k, input) && i < |v.frames|
    ensures |v'.frames| == |v.frames| && v'.host == v.host && v'.regions == v.regions && v'.nextFrame == v.nextFrame
    ensures SameFrame(v.frames[i], v'.frames[i]) && Operands(v'.frames, i) == Operands(v.frames, i)
    ensures v'.frames[i] == if i == k then v.frames[k].(locals := v.frames[k].locals[0 := input]) else v.frames[i]
  {}

  lemma FeedKeeps(w: Facts, v: Vm, k: nat, input: Value, v': Vm)
    requires Established(w) && Inv(w, v) && Promised(w, v) && k < |v.frames| && v.frames[k].locals != [] && input <= v.host
    requires v' == Fed(v, k, input)
    ensures Inv(w, v') && Promised(w, v')
  {
    hide Sound, Exposed, Established, Promised, Operands, Fed, Waits, SameFrame;
    HostWithin(w, v);
    FedShape(v, k, input, v', k);
    forall i | 0 <= i < |v.frames|
      ensures Sound(w, v'.frames[i], Operands(v'.frames, i), v'.host, v'.regions)
      ensures v'.frames[i].id == v.frames[i].id && v'.frames[i].args == v.frames[i].args
    {
      FedShape(v, k, input, v', i);
      if i == k {
        FedSound(w, v.frames[k], Operands(v.frames, k), v.host, v.regions, input);
      }
    }
    forall i | 0 <= i < |v.frames| - 1
      ensures Waits(w.m, v'.frames[i], v'.frames[i + 1])
    {
      FedShape(v, k, input, v', i);
      FedShape(v, k, input, v', i + 1);
      FedWaits(w.m, v.frames[i], v.frames[i + 1], v'.frames[i], v'.frames[i + 1], input);
    }
    FeedPromises(w, v, k, input, v');
  }

  lemma FedWaits(m: seq<Chunk>, f: Frame, g: Frame, f': Frame, g': Frame, input: Value)
    requires Waits(m, f, g) && SameFrame(g, g')
    requires f' == f || (f.locals != [] && f' == f.(locals := f.locals[0 := input]))
    ensures Waits(m, f', g')
  {}

  lemma FeedPromises(w: Facts, v: Vm, k: nat, input: Value, v': Vm)
    requires Promised(w, v) && k < |v.frames| && v.frames[k].locals != [] && v' == Fed(v, k, input)
    ensures Promised(w, v')
  {
    hide LeakingArg;
    forall i, r | 0 <= i < |v'.frames| && r in Regions(v'.frames[i].args) && r in v'.host && r !in v'.frames[i].hostAtEntry
      ensures LeakingArg(w, v'.frames[i], r)
    {
      LeakingSame(w, v.frames[i], v'.frames[i], r);
    }
  }

  lemma FeedShape(m: seq<Chunk>, v: Vm, input: Value, v': Vm) returns (k: nat)
    requires FeedStep(m, v, input) == Some(v')
    ensures k < |v.frames| && v.frames[k].locals != [] && input <= v.host && v' == Fed(v, k, input)
  {
    k := StreamFrame(m, v.frames, |v.frames|).value;
  }

  lemma AbandonKeeps(w: Facts, v: Vm)
    requires Established(w) && Inv(w, v)
    ensures Inv(w, v.(frames := [])) && Promised(w, v.(frames := []))
  {
    hide Sound, Exposed, Established;
  }

  /** One step of the machine keeps the invariant. */
  lemma StepKeeps(w: Facts, v: Vm, ch: Choice, v': Vm)
    requires Established(w) && Inv(w, v) && Promised(w, v) && Next(w.m, v, ch) == Some(v')
    ensures Inv(w, v') && Promised(w, v')
  {
    hide Inv, Promised, Established, StraightStep, CallStep, ReturnStep, FeedStep, Active;
    if ch.Enter? {
      EnterKeeps(w, v, ch, v');
    } else if ch.Feed? {
      var k := FeedShape(w.m, v, ch.input, v');
      FeedKeeps(w, v, k, ch.input, v');
    } else if ch.Abandon? {
      AbandonKeeps(w, v);
    } else {
      ActiveTop(w, v);
      var op := OpAt(w, Top(v));
      if Straight(op) {
        StraightKeeps(w, v, ch, v');
      } else if op.Call? {
        CallKeeps(w, v, v');
      } else if op.Return? {
        if |v.frames| == 1 {
          ReturnEnds(w, v, v');
        } else {
          ReturnKeeps(w, v, v');
        }
      } else if op.Reset? {
        ResetKeeps(w, v, v');
      } else {
        JumpKeeps(w, v, ch.branch, v');
      }
    }
  }

  /** Every state of every run satisfies the invariant. */
  lemma {:induction false} RunKeeps(w: Facts, run: seq<Vm>, i: nat)
    requires Established(w) && IsRun(w.m, run) && i < |run|
    ensures Inv(w, run[i]) && Promised(w, run[i])
  {
    if i > 0 {
      RunKeeps(w, run, i - 1);
      assert StepTo(w.m, run[i - 1], run[i]);
      var ch :| Next(w.m, run[i - 1], ch) == Some(run[i]);
      hide *;
      StepKeeps(w, run[i - 1], ch, run[i]);
    }
  }
}
