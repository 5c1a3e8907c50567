/** A region nothing gives access to any more stays out of reach for the rest of the run. */
module Gone {
  import opened Options
  import opened Bytecode
  import opened Confine
  import opened Machine
  import opened Cover
  import opened Tracking
  import opened Soundness
  import opened Runs
  import opened Steps
  import opened Reuse
  import opened Retired

  /** The frame gives no access to the region. */
  predicate Without(f: Frame, r: nat) {
    r !in Regions(f.locals) && r !in Regions(f.stack) && r !in Regions(f.args)
  }

  /** Nothing gives access to the region. */
  predicate IsGone(v: Vm, r: nat) {
    r < |v.regions| && r !in v.host && forall k :: 0 <= k < |v.frames| ==> Without(v.frames[k], r)
  }

  lemma StepGone(w: Facts, v: Vm, ch: Choice, v': Vm, r: nat)
    requires Established(w) && Inv(w, v) && Promised(w, v) && Next(w.m, v, ch) == Some(v') && Inv(w, v')
    requires IsGone(v, r) && !Exposed(w, v.regions[r])
    ensures IsGone(v', r) && v'.regions[r] == v.regions[r]
  {
    hide Next, Inv, Promised, Established, Advances, IsGone, Resets, Calls, ComesBack, Feeds, Ends, Starts, Exposed;
    StepCases(w, v, ch, v');
    if Resets(w, v, v') {
      ResetGone(w, v, v', r);
    } else if Calls(w, v, v') {
      CallGone(w, v, v', r);
    } else if ComesBack(w, v, v') {
      BackGone(w, v, v', r);
    } else if Ends(w, v, v') || Abandons(v, v') {
      EndGone(w, v, v', r);
    } else if Starts(w, v, v') {
      StartGone(w, v, v', r);
    } else if Feeds(v, v') {
      FeedGone(v, v', r);
    } else {
      var results :| Advances(w, v, v', results);
      AdvanceGone(w, v, v', results, r);
    }
  }

  lemma ResetGone(w: Facts, v: Vm, v': Vm, r: nat)
    requires Established(w) && IsGone(v, r) && Resets(w, v, v')
    ensures IsGone(v', r) && v'.regions == v.regions
  {
    hide Established, Active, Blank, StreamAt;
    BlankHolds(|Top(v).locals|);
    assert Without(Top(v), r);
  }

  lemma EndGone(w: Facts, v: Vm, v': Vm, r: nat)
    requires Established(w) && Inv(w, v') && IsGone(v, r) && !Exposed(w, v.regions[r]) && (Ends(w, v, v') || Abandons(v, v'))
    ensures IsGone(v', r) && v'.regions == v.regions
  {
    HostIn(w, v');
    hide Established, Active, Inv, Exposed;
  }

  lemma StartGone(w: Facts, v: Vm, v': Vm, r: nat)
    requires IsGone(v, r) && Starts(w, v, v')
    ensures IsGone(v', r) && v'.regions == v.regions
  {
    var chunk: nat, args: seq<Value> :|
      && v.frames == [] && chunk < |w.m| && |args| <= w.m[chunk].localCount && Regions(args) <= v.host
      && v' == v.(frames := [Entered(w.m, v, chunk, args)], nextFrame := v.nextFrame + 1);
    EntryWithout(w, v, chunk, args, r);
  }

  lemma EntryWithout(w: Facts, v: Vm, chunk: nat, args: seq<Value>, r: nat)
    requires chunk < |w.m| && |args| <= w.m[chunk].localCount && r !in Regions(args)
    ensures Without(Entered(w.m, v, chunk, args), r)
  {
    EntryHeld(args, w.m[chunk].localCount - |args|);
  }

  lemma FeedGone(v: Vm, v': Vm, r: nat)
    requires IsGone(v, r) && Feeds(v, v')
    ensures IsGone(v', r) && v'.regions == v.regions
  {
    forall k | 0 <= k < |v'.frames|
      ensures Without(v'.frames[k], r)
    {
      assert Without(v.frames[k], r);
    }
  }

  lemma CallGone(w: Facts, v: Vm, v': Vm, r: nat)
    requires Established(w) && IsGone(v, r) && Calls(w, v, v')
    ensures IsGone(v', r) && v'.regions == v.regions
  {
    hide Established, Active, Blank;
    TopInRange(w, Top(v), v.host, v.regions);
    var f, op := Top(v), OpAt(w, Top(v));
    assert Without(f, r);
    RegionsWithin(LeftOf(op, f.stack), f.stack, 0);
    RegionsWithin(TakenOf(op, f.stack), f.stack, |LeftOf(op, f.stack)|);
    EntryWithout(w, v, op.callee, TakenOf(op, f.stack), r);
  }

  lemma BackGone(w: Facts, v: Vm, v': Vm, r: nat)
    requires Established(w) && IsGone(v, r) && ComesBack(w, v, v')
    ensures IsGone(v', r) && v'.regions == v.regions
  {
    hide Established, Active, Sound, Returning;
    var f, g := Top(v), v.frames[|v.frames| - 2];
    assert Without(f, r) && Without(g, r);
    HandedFrom(f, r);
    RegionsAppend(g.stack, [Handed(f)]);
  }

  lemma HandedFrom(f: Frame, r: nat)
    requires Machine.Returned(f).Some? && Without(f, r)
    ensures r !in Handed(f)
  {
    if f.stack != [] {
      assert f.stack[|f.stack| - 1] <= Regions(f.stack);
    } else {
      assert f.locals[|f.locals| - 1] <= Regions(f.locals);
    }
  }

  lemma AdvanceGone(w: Facts, v: Vm, v': Vm, results: seq<Value>, r: nat)
    requires Established(w) && Inv(w, v') && Advances(w, v, v', results)
    requires IsGone(v, r) && !Exposed(w, v.regions[r])
    ensures IsGone(v', r) && v'.regions[r] == v.regions[r]
  {
    AdvanceShape(w, v, v', results);
    HostIn(w, v');
    hide Established, Inv, Exposed, Advances, Without, SameFrame;
    assert v'.regions[r] == v.regions[r];
    AdvanceWithout(w, v, v', results, r);
  }

  lemma AdvanceWithout(w: Facts, v: Vm, v': Vm, results: seq<Value>, r: nat)
    requires Established(w) && Advances(w, v, v', results) && r < |v.regions| && r !in v'.host && Without(Top(v), r)
    ensures Without(Top(v'), r)
  {
    hide Established, Active;
    var f, g := Top(v), Top(v');
    TopInRange(w, f, v.host, v.regions);
    var op := OpAt(w, f);
    RegionsWithin(TakenOf(op, f.stack), f.stack, |LeftOf(op, f.stack)|);
    RegionsWithin(LeftOf(op, f.stack), f.stack, 0);
    assert op.GetLocal? ==> f.locals[op.slot] <= Regions(f.locals);
    assert r !in Regions(results);
    RegionsAppend(LeftOf(op, f.stack), results);
    if op.SetLocal? {
      assert TakenOf(op, f.stack)[0] <= Regions(TakenOf(op, f.stack));
    }
    assert forall k :: 0 <= k < |g.locals| ==> g.locals[k] == f.locals[k] || (op.SetLocal? && g.locals[k] == TakenOf(op, f.stack)[0]);
    assert forall k :: 0 <= k < |f.locals| ==> f.locals[k] <= Regions(f.locals);
  }

  lemma {:induction false} RunGone(w: Facts, run: seq<Vm>, i: nat, j: nat, r: nat)
    requires Established(w) && IsRun(w.m, run) && i <= j < |run| && IsGone(run[i], r) && !Exposed(w, run[i].regions[r])
    ensures IsGone(run[j], r) && run[j].regions[r] == run[i].regions[r]
    decreases j - i
  {
    hide Inv, Promised, Established, Next, Exposed;
    if i < j {
      RunGone(w, run, i, j - 1, r);
      RunKeeps(w, run, j - 1);
      RunKeeps(w, run, j);
      assert StepTo(w.m, run[j - 1], run[j]);
      var ch :| Next(w.m, run[j - 1], ch) == Some(run[j]);
      StepGone(w, run[j - 1], ch, run[j], r);
    }
  }

  // ----- at a restart -----

  /** The innermost frame restarts its stream. */
  predicate Restarts(m: seq<Chunk>, v: Vm, v': Vm) {
    && v.frames != [] && Top(v).chunk < |m| && Top(v).ip < |m[Top(v).chunk].ops| && m[Top(v).chunk].ops[Top(v).ip].Reset?
    && Next(m, v, Proceed(false, [])) == Some(v')
  }

  /** A region the restarting frame built before, and that was never reported but for stores, is gone. */
  lemma RestartClears(w: Facts, v: Vm, v': Vm, r: nat)
    requires Established(w) && Inv(w, v) && Promised(w, v) && Restarts(w.m, v, v')
    requires r < |v.regions| && v.regions[r].frame == Top(v).id && !Exposed(w, v.regions[r])
    ensures IsGone(v', r) && v'.regions == v.regions
  {
    hide Inv, Promised, Established, Exposed, Next, Charted, Holdings, Restarts;
    RestartShape(w.m, v, v');
    HostIn(w, v);
    FrameAt(w, v, |v.frames| - 1);
    var n := |v.frames| - 1;
    OwnNotPassed(w, Top(v), Operands(v.frames, n), v.host, v.regions, r);
    BlankHolds(|Top(v).locals|);
    forall k | 0 <= k < n
      ensures Without(v'.frames[k], r)
    {
      BelowBuilder(w, v, k, n, r);
    }
  }

  lemma RestartShape(m: seq<Chunk>, v: Vm, v': Vm)
    requires Restarts(m, v, v')
    ensures v' == WithTop(v, Top(v').(locals := Blank(|Top(v).locals|), stack := [], args := Top(v).args)) && |v'.frames| == |v.frames|
  {}
}
