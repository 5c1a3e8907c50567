/** What a `Confined` verdict permits: once a later pass of the site's loop begins, no instruction
    ever again obtains a region the site built in an earlier pass. */
module Reuse {
  import opened Options
  import opened Bytecode
  import opened Confine
  import opened ConfineOrder
  import opened Annotation
  import opened Liveness
  import opened Loops
  import opened Machine
  import opened Cover
  import opened Tracking
  import opened Soundness
  import opened Runs
  import opened Steps
  import opened Verdict

  /** A construction site and the loop its verdict is judged against. */
  datatype Target = Target(chunk: nat, site: nat, loop: nat)

  /** The site is confined to one pass of the loop. */
  ghost predicate Watched(w: Facts, t: Target) {
    && t.chunk < |w.m| && t.site < |w.m[t.chunk].ops| && w.m[t.chunk].ops[t.site].NewComposite?
    && VerdictOf(w.m[t.chunk], w.sums, t.site).finding.verdict == Confined
    && ScopeOf(w.m[t.chunk].ops, t.site) == Iteration(t.loop)
  }

  function Code(w: Facts, t: Target): seq<Op>
    requires t.chunk < |w.m|
  {
    w.m[t.chunk].ops
  }

  /** The exit of the loop at `l`, if there is one. */
  function ExitAt(ops: seq<Op>, l: nat): nat {
    if l < |ops| && ops[l].Loop? then ops[l].target else 0
  }

  function ExitOf(w: Facts, t: Target): nat
    requires t.chunk < |w.m|
  {
    ExitAt(Code(w, t), t.loop)
  }

  /** Layout of the loop around a watched site. */
  lemma WatchedLoop(w: Facts, t: Target)
    requires Established(w) && Watched(w, t)
    ensures t.loop < t.site < ExitOf(w, t) <= |Code(w, t)| && t.loop + 2 <= ExitOf(w, t)
    ensures Code(w, t)[t.loop] == Loop(ExitOf(w, t)) && Code(w, t)[ExitOf(w, t) - 1] == EndLoop(t.loop + 1)
    ensures ScopeRangeOk(Code(w, t), t.loop + 1, ExitOf(w, t) - 1, Some(ExitOf(w, t)))
    ensures ScopeRange(Code(w, t), Iteration(t.loop)) == (t.loop + 1, ExitOf(w, t) - 1)
  {
    hide Verified, ScopeRangeOk, VerdictOf, Established, ScopeOf, ScopeRange, EnclosingUpTo;
    VerifiedAt(w, t.chunk);
    LoopScope(w.m[t.chunk], t.site, t.loop);
  }

  lemma VerifiedAt(w: Facts, i: nat)
    requires Established(w) && i < |w.m|
    ensures Verified(w.m[i])
  {
    assert ChunkCharted(w, i);
  }

  /** The loop a site is judged against is a loop around it, and closed. */
  lemma LoopScope(c: Chunk, site: nat, l: nat)
    requires Verified(c) && ScopeOf(c.ops, site) == Iteration(l)
    ensures l < |c.ops| && c.ops[l].Loop? && l < site < c.ops[l].target <= |c.ops| && l + 2 <= c.ops[l].target
    ensures c.ops[c.ops[l].target - 1] == EndLoop(l + 1)
    ensures ScopeRangeOk(c.ops, l + 1, c.ops[l].target - 1, Some(c.ops[l].target))
    ensures ScopeRange(c.ops, Iteration(l)) == (l + 1, c.ops[l].target - 1)
  {
    hide Laid, BreaksLeave;
    var ops := c.ops;
    var b := BlockOf(ops, 0, |ops|).value;
    hide BlockOf;
    var body := LoopBody(ops, 0, |ops|, b, None, l);
    LaidUnique(ops, l + 1, ops[l].target - 1, body);
  }

  /** Nothing but harmless stores was reported of a watched site. */
  lemma WatchedQuiet(w: Facts, t: Target, o: Origin)
    requires Established(w) && Watched(w, t) && o.chunk == t.chunk && o.site == t.site
    ensures !Exposed(w, o)
  {
    ConfinedMeans(w.m[t.chunk], w.sums, t.site);
    hide VerdictOf, Interpret;
    forall e: Event | Logged(SiteLog(w.m[t.chunk], w.sums), Site(t.site), e)
      ensures e.StoredToLocal?
    {
      assert SiteMeaning(w.m[t.chunk].ops, ScopeOf(w.m[t.chunk].ops, t.site), e).None?;
    }
  }

  /** A slot a watched region was stored in is dead at the boundary of the loop. */
  lemma WatchedStore(w: Facts, t: Target, f: Frame, regions: seq<Origin>, k: nat, r: nat)
    requires Established(w) && Watched(w, t) && f.chunk == t.chunk && r < |regions| && regions[r].site == t.site
    requires StoreLogged(w, f, regions, k, r)
    ensures t.loop + 1 < ExitOf(w, t) <= |Code(w, t)|
    ensures BoundaryDead(Code(w, t), t.loop + 1, ExitOf(w, t) - 1, k)
  {
    hide VerdictOf, Interpret, BoundaryDead, ScopeRangeOk, Established, ScopeOf, ScopeRange;
    WatchedLoop(w, t);
    ConfinedMeans(w.m[t.chunk], w.sums, t.site);
    var ip :| Logged(SiteLog(w.m[f.chunk], w.sums), Site(regions[r].site), StoredToLocal(ip, k));
    assert SiteMeaning(w.m[t.chunk].ops, ScopeOf(w.m[t.chunk].ops, t.site), StoredToLocal(ip, k)).None?;
  }

  // ----- where watched regions can be on the operand stack -----

  /** Region `r` was built by frame `f` at the watched site. */
  predicate Mine(t: Target, f: Frame, regions: seq<Origin>, r: nat) {
    r < |regions| && regions[r] == Origin(t.chunk, f.id, t.site)
  }

  predicate Free(t: Target, f: Frame, regions: seq<Origin>, vs: seq<Value>) {
    forall r :: r in Regions(vs) ==> !Mine(t, f, regions, r)
  }

  /** Below the height at which loop `l` was entered, no operand holds a watched region. */
  ghost predicate FreeBelow(w: Facts, t: Target, f: Frame, operands: seq<Value>, regions: seq<Origin>, l: nat)
    requires Established(w) && t.chunk < |w.m|
  {
    var a := w.site[t.chunk];
    l in a && |a[l].stack| <= |operands| && Free(t, f, regions, operands[..|a[l].stack|])
  }

  predicate InsideLoop(ops: seq<Op>, l: nat, ip: nat) {
    l < |ops| && ops[l].Loop? && l < ip < ops[l].target
  }

  predicate OutsideLoops(ops: seq<Op>, ip: nat) {
    forall l :: 0 <= l < |ops| && ops[l].Loop? ==> !(l < ip < ops[l].target)
  }

  /** Before the loop no operand holds a watched region; inside it and the loops around it, none of
      the operands from before does. */
  ghost predicate Contained(w: Facts, t: Target, f: Frame, operands: seq<Value>, regions: seq<Origin>)
    requires Established(w) && t.chunk < |w.m|
  {
    f.chunk == t.chunk ==>
      && (f.ip <= t.loop ==> Free(t, f, regions, operands))
      && (forall l :: 0 <= l <= t.loop && InsideLoop(Code(w, t), l, f.ip) ==> FreeBelow(w, t, f, operands, regions, l))
  }

  /** What an instruction pushes holds a watched region only if it took it, read it from a slot
      inside the loop, or is the site. */
  predicate Brings(t: Target, f: Frame, op: Op, operands: seq<Value>, regions: seq<Origin>, results: seq<Value>)
    requires Pops(op) <= |operands|
  {
    forall r :: r in Regions(results) && Mine(t, f, regions, r) ==> r in Regions(TakenOf(op, operands)) || t.loop < f.ip
  }

  /** Operand heights agree at both ends of a loop. */
  lemma LoopHeights(c: Chunk, sums: Summaries, seed: seq<Alias>, log: seq<Notice>, a: Ann, l: nat, k: nat)
    requires Charts(c, sums, seed, log, a) && l in a && k in a && l < |c.ops| && k < |c.ops|
    requires c.ops[l] == Loop(k + 1) && c.ops[k] == EndLoop(l + 1)
    ensures |a[l].stack| == |a[k].stack|
  {
    ApplyIdentity(sums, l, c.ops[l], a[l]);
    ApplyIdentity(sums, k, c.ops[k], a[k]);
    assert l + 1 in Successors(c.ops, l) && l + 1 in Successors(c.ops, k);
  }

  /** Where frame `f` is and what its chart says there. */
  ghost predicate At(w: Facts, t: Target, f: Frame, operands: seq<Value>)
    requires Established(w) && t.chunk < |w.m|
  {
    && f.chunk == t.chunk && f.ip < |Code(w, t)|
    && f.ip in w.site[t.chunk] && |operands| == |w.site[t.chunk][f.ip].stack|
  }

  lemma FreeParts(t: Target, f: Frame, regions: seq<Origin>, op: Op, operands: seq<Value>, results: seq<Value>, n: nat)
    requires Pops(op) <= |operands| && n <= |operands| - Pops(op) && Free(t, f, regions, operands[..n])
    ensures (LeftOf(op, operands) + results)[..n] == operands[..n]
    ensures Free(t, f, regions, (LeftOf(op, operands) + results)[..n])
  {
    assert (LeftOf(op, operands) + results)[..n] == operands[..n];
  }

  /** From free operands, free operands. */
  lemma FreeAfter(t: Target, f: Frame, regions: seq<Origin>, op: Op, operands: seq<Value>, results: seq<Value>)
    requires Pops(op) <= |operands| && Free(t, f, regions, operands) && Brings(t, f, op, operands, regions, results)
    requires f.ip <= t.loop
    ensures Free(t, f, regions, LeftOf(op, operands) + results)
  {
    var after := LeftOf(op, operands) + results;
    RegionsWithin(LeftOf(op, operands), operands, 0);
    RegionsWithin(TakenOf(op, operands), operands, |LeftOf(op, operands)|);
    forall r | r in Regions(after)
      ensures !Mine(t, f, regions, r)
    {
      var i :| 0 <= i < |after| && r in after[i];
      assert i < |LeftOf(op, operands)| ==> r in LeftOf(op, operands)[i];
      assert i >= |LeftOf(op, operands)| ==> r in results[i - |LeftOf(op, operands)|];
    }
  }

  /** An edge back to or before the loop starts from a stack free of watched regions. */
  lemma BackFree(w: Facts, t: Target, f: Frame, operands: seq<Value>, regions: seq<Origin>, n: nat)
    requires Established(w) && Watched(w, t) && At(w, t, f, operands) && Contained(w, t, f, operands, regions)
    requires n in Successors(Code(w, t), f.ip) && n <= t.loop + 1 && n <= f.ip
    ensures Free(t, f, regions, operands) && Code(w, t)[f.ip].EndLoop?
  {
    hide Established, Watched, Free, InsideLoop;
    WatchedChunk(w, t);
    CodeBack(w, t, f.ip, n);
    assert FreeBelow(w, t, f, operands, regions, n - 1) by {
      assert InsideLoop(Code(w, t), n - 1, f.ip);
    }
    ChartHeights(w, t, n - 1, f.ip);
    assert operands[..|operands|] == operands;
  }

  /** An edge of a chunk that does not lead forward is the edge from the end of a loop to its top. */
  lemma CodeBack(w: Facts, t: Target, k: nat, n: nat)
    requires Established(w) && t.chunk < |w.m| && k < |Code(w, t)| && n in Successors(Code(w, t), k) && n <= k
    ensures 0 < n && Code(w, t)[k] == EndLoop(n) && Code(w, t)[n - 1] == Loop(k + 1) && InsideLoop(Code(w, t), n - 1, k)
  {
    VerifiedAt(w, t.chunk);
    var ops := Code(w, t);
    EdgeBack(ops, 0, |ops|, BlockOf(ops, 0, |ops|).value, None, k, n);
  }

  lemma ChartHeights(w: Facts, t: Target, l: nat, k: nat)
    requires Established(w) && t.chunk < |w.m| && l < |Code(w, t)| && k < |Code(w, t)|
    requires l in w.site[t.chunk] && k in w.site[t.chunk]
    requires Code(w, t)[l] == Loop(k + 1) && Code(w, t)[k] == EndLoop(l + 1)
    ensures |w.site[t.chunk][l].stack| == |w.site[t.chunk][k].stack|
  {
    assert ChunkCharted(w, t.chunk);
    hide Charts;
    LoopHeights(w.m[t.chunk], w.sums, EmptyLocals(w.m[t.chunk]), SiteLog(w.m[t.chunk], w.sums), w.site[t.chunk], l, k);
  }

  /** Inside a loop that starts no later than the watched one: operands from before it are left
      alone. */
  lemma InsideStays(w: Facts, t: Target, f: Frame, operands: seq<Value>, regions: seq<Origin>, l: nat)
    requires Established(w) && t.chunk < |w.m| && At(w, t, f, operands)
    requires InsideLoop(Code(w, t), l, f.ip) && FreeBelow(w, t, f, operands, regions, l)
    requires !Code(w, t)[f.ip].Trap?
    ensures |w.site[t.chunk][l].stack| + Pops(Code(w, t)[f.ip]) <= |operands|
  {
    assert ChunkCharted(w, t.chunk);
    hide Flows, Sized;
    assert FloorsKept(w.m[t.chunk], w.site[t.chunk]);
  }

  /** A loop is entered from its own `Loop`. */
  lemma InsideFrom(w: Facts, t: Target, l: nat, k: nat, n: nat)
    requires Established(w) && t.chunk < |w.m| && l < |Code(w, t)| && k < |Code(w, t)| && n in Successors(Code(w, t), k)
    requires InsideLoop(Code(w, t), l, n) && !InsideLoop(Code(w, t), l, k)
    ensures k == l && Code(w, t)[k].Loop?
  {
    VerifiedAt(w, t.chunk);
    var ops := Code(w, t);
    LoopEntered(ops, 0, |ops|, BlockOf(ops, 0, |ops|).value, None, l, k, n);
  }

  /** One edge keeps the watched regions contained. */
  lemma MoveContained(w: Facts, t: Target, f: Frame, operands: seq<Value>, regions: seq<Origin>, g: Frame, results: seq<Value>)
    requires Established(w) && Watched(w, t) && At(w, t, f, operands) && Contained(w, t, f, operands, regions)
    requires !Code(w, t)[f.ip].Trap? && g.ip in Successors(Code(w, t), f.ip)
    requires Pops(Code(w, t)[f.ip]) <= |operands| && |results| == Pushes(Code(w, t)[f.ip])
    requires Brings(t, f, Code(w, t)[f.ip], operands, regions, results)
    requires g.id == f.id && g.chunk == f.chunk && g.stack == LeftOf(Code(w, t)[f.ip], operands) + results
    ensures Contained(w, t, g, g.stack, regions)
  {
    var op := Code(w, t)[f.ip];
    WatchedLoop(w, t);
    hide Watched, Established, Free, Brings, Successors, ScopeRangeOk;
    if g.ip <= t.loop {
      if f.ip < g.ip {
        FreeAfter(t, f, regions, op, operands, results);
      } else {
        BackFree(w, t, f, operands, regions, g.ip);
        assert LeftOf(op, operands) + results == operands;
      }
      FreeSame(t, f, g, regions, g.stack);
    }
    forall l | 0 <= l <= t.loop && InsideLoop(Code(w, t), l, g.ip)
      ensures FreeBelow(w, t, g, g.stack, regions, l)
    {
      if InsideLoop(Code(w, t), l, f.ip) {
        assert FreeBelow(w, t, f, operands, regions, l);
        InsideStays(w, t, f, operands, regions, l);
        FreeParts(t, f, regions, op, operands, results, |w.site[t.chunk][l].stack|);
        FreeSame(t, f, g, regions, g.stack[..|w.site[t.chunk][l].stack|]);
      } else {
        InsideFrom(w, t, l, f.ip, g.ip);
        assert LeftOf(op, operands) + results == operands;
        assert operands[..|operands|] == operands;
        FreeSame(t, f, g, regions, operands);
      }
    }
  }

  lemma FreeSame(t: Target, f: Frame, g: Frame, regions: seq<Origin>, vs: seq<Value>)
    requires Free(t, f, regions, vs) && f.id == g.id
    ensures Free(t, g, regions, vs)
  {}

  // ----- containment along a run -----

  ghost predicate AllContained(w: Facts, t: Target, v: Vm)
    requires Established(w) && t.chunk < |w.m|
  {
    forall k :: 0 <= k < |v.frames| ==> Contained(w, t, v.frames[k], Operands(v.frames, k), v.regions)
  }

  /** Regions built later do not make old operands watched. */
  lemma ContainedKept(w: Facts, t: Target, f: Frame, operands: seq<Value>, host: Value, regions: seq<Origin>, regions': seq<Origin>)
    requires Established(w) && t.chunk < |w.m| && Sound(w, f, operands, host, regions)
    requires Contained(w, t, f, operands, regions) && regions <= regions'
    ensures Contained(w, t, f, operands, regions')
  {
    hide Charted;
    assert forall r :: r in Regions(operands) ==> r < |regions|;
    forall l | 0 <= l <= t.loop && InsideLoop(Code(w, t), l, f.ip) && f.chunk == t.chunk
      ensures FreeBelow(w, t, f, operands, regions', l)
    {
      assert FreeBelow(w, t, f, operands, regions, l);
      RegionsWithin(operands[..|w.site[t.chunk][l].stack|], operands, 0);
    }
  }

  lemma FrameIsAt(w: Facts, t: Target, f: Frame, operands: seq<Value>, host: Value, regions: seq<Origin>)
    requires Established(w) && t.chunk < |w.m| && Sound(w, f, operands, host, regions)
    requires f.chunk == t.chunk && f.ip < |Code(w, t)|
    ensures At(w, t, f, operands)
  {
    hide Holdings, Established;
  }

  /** What the innermost frame pushes brings no watched region from outside the loop. */
  lemma AdvanceBrings(w: Facts, t: Target, v: Vm, v': Vm, results: seq<Value>)
    requires Established(w) && Watched(w, t) && Inv(w, v) && Inv(w, v') && Advances(w, v, v', results) && Top(v).chunk == t.chunk
    ensures Pops(OpAt(w, Top(v))) <= |Top(v).stack|
    ensures Brings(t, Top(v), OpAt(w, Top(v)), Top(v).stack, v'.regions, results)
  {
    var f, op := Top(v), OpAt(w, Top(v));
    WatchedLoop(w, t);
    HostIn(w, v');
    hide Watched, Established, Inv, Charted, Exposed, ScopeRangeOk;
    forall r | r in Regions(results) && Mine(t, f, v'.regions, r)
      ensures r in Regions(TakenOf(op, f.stack)) || t.loop < f.ip
    {
      WatchedQuiet(w, t, v'.regions[r]);
      if op.GetLocal? && op.slot < |f.locals| && r in f.locals[op.slot] {
        SlotRead(w, t, v, op.slot, r);
      }
    }
  }

  /** A slot that holds a watched region is dead at the boundary of its loop. */
  lemma SlotDead(w: Facts, t: Target, f: Frame, operands: seq<Value>, host: Value, regions: seq<Origin>, slot: nat, r: nat)
    requires Established(w) && Watched(w, t) && Holdings(w, f, operands, host, regions) && f.chunk == t.chunk
    requires slot < |f.locals| && r in f.locals[slot] && r !in host && Mine(t, f, regions, r)
    ensures t.loop + 1 < ExitOf(w, t) <= |Code(w, t)|
    ensures BoundaryDead(Code(w, t), t.loop + 1, ExitOf(w, t) - 1, slot)
  {
    hide Established, Watched, Exposed, BoundaryDead;
    assert StoreLogged(w, f, regions, slot, r);
    WatchedStore(w, t, f, regions, slot, r);
  }

  /** A watched region is only ever read from a slot inside its loop. */
  lemma SlotRead(w: Facts, t: Target, v: Vm, slot: nat, r: nat)
    requires Established(w) && Watched(w, t) && Inv(w, v) && v.frames != []
    requires Active(w, Top(v), v.host, v.regions) && Top(v).chunk == t.chunk && OpAt(w, Top(v)) == GetLocal(slot)
    requires slot < |Top(v).locals| && r in Top(v).locals[slot] && (r < |v.regions| ==> Mine(t, Top(v), v.regions, r))
    ensures t.loop < Top(v).ip
  {
    var f := Top(v);
    hide Established, Inv, Charted, Watched, Exposed, BoundaryDead, ScopeMark, Holdings, Pops, DepthEffect;
    NotHosted(w, t, v, f, r);
    SlotHeld(w, f, f.stack, v.host, v.regions, slot, r);
    SlotDead(w, t, f, f.stack, v.host, v.regions, slot, r);
    assert f.ip < |Code(w, t)| && Code(w, t)[f.ip] == GetLocal(slot);
    ReadInside(w, t, slot, f.ip);
  }

  lemma ReadInside(w: Facts, t: Target, slot: nat, ip: nat)
    requires t.chunk < |w.m| && t.loop + 1 < ExitOf(w, t) <= |Code(w, t)|
    requires BoundaryDead(Code(w, t), t.loop + 1, ExitOf(w, t) - 1, slot)
    requires ip < |Code(w, t)| && Code(w, t)[ip] == GetLocal(slot)
    ensures t.loop < ip < ExitOf(w, t) - 1 && ScopeMark(Code(w, t), t.loop + 1, ExitOf(w, t) - 1, slot, ip) != Some(false)
  {
    hide BoundaryDead, ScopeMark;
    ScopeRead(Code(w, t), t.loop + 1, ExitOf(w, t) - 1, slot, ip);
  }

  lemma SlotHeld(w: Facts, f: Frame, operands: seq<Value>, host: Value, regions: seq<Origin>, slot: nat, r: nat)
    requires Holdings(w, f, operands, host, regions) && slot < |f.locals| && r in f.locals[slot]
    ensures r < |regions|
  {
    assert r in Regions(f.locals);
    assert Known(w, f, host, regions, r);
  }

  /** The host never holds a watched region. */
  lemma NotHosted(w: Facts, t: Target, v: Vm, f: Frame, r: nat)
    requires Established(w) && Watched(w, t) && Inv(w, v) && (r < |v.regions| ==> Mine(t, f, v.regions, r))
    ensures r !in v.host
  {
    HostIn(w, v);
    hide Established, Watched, Inv, Exposed;
    if r < |v.regions| {
      WatchedQuiet(w, t, v.regions[r]);
    }
  }

  /** The frames below the innermost stay contained. */
  lemma BelowContained(w: Facts, t: Target, v: Vm, v': Vm, k: nat)
    requires Established(w) && t.chunk < |w.m| && Inv(w, v) && AllContained(w, t, v)
    requires k < |v.frames| && k < |v'.frames| && v'.frames[k] == v.frames[k] && v.regions <= v'.regions
    requires Operands(v'.frames, k) == Operands(v.frames, k)
    ensures Contained(w, t, v'.frames[k], Operands(v'.frames, k), v'.regions)
  {
    FrameAt(w, v, k);
    hide Established, Sound, Inv, Contained;
    ContainedKept(w, t, v.frames[k], Operands(v.frames, k), v.host, v.regions, v'.regions);
  }

  lemma WatchedChunk(w: Facts, t: Target)
    requires Watched(w, t)
    ensures t.chunk < |w.m|
  {}

  /** Only the innermost frame and what lies on it changes. */
  lemma AdvanceShape(w: Facts, v: Vm, v': Vm, results: seq<Value>)
    requires Established(w) && Advances(w, v, v', results)
    ensures v.frames != [] && |v'.frames| == |v.frames| && SameFrame(Top(v), Top(v')) && v.regions <= v'.regions
    ensures forall k :: 0 <= k < |v.frames| - 1 ==>
      v'.frames[k] == v.frames[k] && Operands(v'.frames, k) == Operands(v.frames, k)
    ensures Operands(v'.frames, |v.frames| - 1) == Top(v').stack && Operands(v.frames, |v.frames| - 1) == Top(v).stack
    ensures v'.frames[|v.frames| - 1] == Top(v')
  {
    hide Established, Active;
  }

  lemma AdvanceContained(w: Facts, t: Target, v: Vm, v': Vm, results: seq<Value>)
    requires Established(w) && Watched(w, t) && Inv(w, v) && Inv(w, v') && AllContained(w, t, v) && Advances(w, v, v', results)
    ensures AllContained(w, t, v')
  {
    hide Established, Inv, Contained, Watched, Advances, SameFrame;
    WatchedChunk(w, t);
    AdvanceShape(w, v, v', results);
    forall k | 0 <= k < |v'.frames|
      ensures Contained(w, t, v'.frames[k], Operands(v'.frames, k), v'.regions)
    {
      if k < |v.frames| - 1 {
        BelowContained(w, t, v, v', k);
      } else {
        AdvanceTop(w, t, v, v', results);
      }
    }
  }

  lemma AdvanceMove(w: Facts, t: Target, v: Vm, v': Vm, results: seq<Value>)
    requires Established(w) && Advances(w, v, v', results) && t.chunk < |w.m| && Top(v).chunk == t.chunk
    ensures var f, g := Top(v), Top(v');
      && f.ip < |Code(w, t)| && !Code(w, t)[f.ip].Trap? && g.ip in Successors(Code(w, t), f.ip)
      && OpAt(w, f) == Code(w, t)[f.ip] && Pops(OpAt(w, f)) <= |f.stack| && |results| == Pushes(OpAt(w, f))
      && g.id == f.id && g.chunk == f.chunk && g.stack == LeftOf(OpAt(w, f), f.stack) + results
      && Sound(w, f, f.stack, v.host, v.regions)
  {
    hide Established, Sound;
  }

  lemma AdvanceTop(w: Facts, t: Target, v: Vm, v': Vm, results: seq<Value>)
    requires Established(w) && Watched(w, t) && Inv(w, v) && Inv(w, v') && AllContained(w, t, v) && Advances(w, v, v', results)
    ensures t.chunk < |w.m| && v'.frames != [] && Contained(w, t, Top(v'), Top(v').stack, v'.regions)
  {
    hide Established, Inv, Contained, Watched, Brings, Advances, Sound, At, Successors, SameFrame;
    WatchedChunk(w, t);
    AdvanceShape(w, v, v', results);
    var f, g := Top(v), Top(v');
    if f.chunk == t.chunk {
      AdvanceMove(w, t, v, v', results);
      ContainedKept(w, t, f, f.stack, v.host, v.regions, v'.regions);
      FrameIsAt(w, t, f, f.stack, v.host, v.regions);
      AdvanceBrings(w, t, v, v', results);
      MoveContained(w, t, f, f.stack, v'.regions, g, results);
    } else {
      Elsewhere(w, t, f, g, v'.regions);
    }
  }

  lemma Elsewhere(w: Facts, t: Target, f: Frame, g: Frame, regions: seq<Origin>)
    requires Established(w) && t.chunk < |w.m| && f.chunk != t.chunk && SameFrame(f, g)
    ensures Contained(w, t, g, g.stack, regions)
  {}

  /** No loop holds the address a reset resumes at. */
  lemma {:induction false} PrologueLoopFree(ops: seq<Op>, n: nat, l: nat)
    requires n <= |ops| && PrologueHeight(ops, n).Some? && l < n
    ensures !ops[l].Loop?
  {
    if l < n - 1 {
      PrologueLoopFree(ops, n - 1, l);
    }
  }

  lemma ResetContained(w: Facts, t: Target, v: Vm, v': Vm)
    requires Established(w) && Watched(w, t) && Inv(w, v) && AllContained(w, t, v) && Resets(w, v, v')
    ensures AllContained(w, t, v')
  {
    hide Established, Active, Inv, Contained, Watched, StreamAt, Blank, OutsideLoops;
    var n, f := |v.frames| - 1, Top(v);
    WatchedChunk(w, t);
    TopInRange(w, f, v.host, v.regions);
    ResumesOutside(w, f);
    forall k | 0 <= k < |v'.frames|
      ensures Contained(w, t, v'.frames[k], Operands(v'.frames, k), v'.regions)
    {
      if k < n {
        assert Operands(v'.frames, k) == Operands(v.frames, k);
        BelowContained(w, t, v, v', k);
      } else {
        EmptyContained(w, t, Top(v'), v'.regions);
      }
    }
  }

  lemma TopInRange(w: Facts, f: Frame, host: Value, regions: seq<Origin>)
    requires Established(w) && Active(w, f, host, regions)
    ensures f.chunk < |w.m| && f.ip < |w.m[f.chunk].ops|
    ensures Pops(OpAt(w, f)) <= |f.stack| && SlotInRange(OpAt(w, f), |f.locals|)
  {}

  lemma EmptyContained(w: Facts, t: Target, f: Frame, regions: seq<Origin>)
    requires Established(w) && t.chunk < |w.m|
    requires f.chunk == t.chunk ==> OutsideLoops(Code(w, t), f.ip)
    ensures Contained(w, t, f, [], regions)
  {}

  lemma ResumesOutside(w: Facts, f: Frame)
    requires Established(w) && f.chunk < |w.m| && f.ip < |w.m[f.chunk].ops| && OpAt(w, f).Reset?
    requires StreamAt(w.m[f.chunk].ops, 0).Some?
    ensures OutsideLoops(w.m[f.chunk].ops, StreamAt(w.m[f.chunk].ops, 0).value + 1)
  {
    RestartableAt(w, f.chunk);
    hide Established;
    RestartOutside(w.m[f.chunk], f.ip);
  }

  lemma RestartableAt(w: Facts, i: nat)
    requires Established(w) && i < |w.m|
    ensures Restartable(w.m[i])
  {
    assert ChunkCharted(w, i);
  }

  lemma RestartOutside(c: Chunk, ip: nat)
    requires Restartable(c) && ip < |c.ops| && c.ops[ip] == Reset && StreamAt(c.ops, 0).Some?
    ensures OutsideLoops(c.ops, StreamAt(c.ops, 0).value + 1)
  {
    var s := StreamAt(c.ops, 0).value;
    hide StreamAt;
    forall l | 0 <= l < s
      ensures !c.ops[l].Loop?
    {
      PrologueLoopFree(c.ops, s, l);
    }
  }

  lemma CallContained(w: Facts, t: Target, v: Vm, v': Vm)
    requires Established(w) && Watched(w, t) && Inv(w, v) && AllContained(w, t, v) && Calls(w, v, v')
    ensures AllContained(w, t, v')
  {
    hide Established, Inv, Watched, Blank, Active, Contained;
    WatchedChunk(w, t);
    TopInRange(w, Top(v), v.host, v.regions);
    var n, f, op := |v.frames| - 1, Top(v), OpAt(w, Top(v));
    forall k | 0 <= k < |v'.frames|
      ensures Contained(w, t, v'.frames[k], Operands(v'.frames, k), v'.regions)
    {
      if k < n {
        assert Operands(v'.frames, k) == Operands(v.frames, k);
        BelowContained(w, t, v, v', k);
      } else if k == n {
        assert v'.frames[k + 1].args == TakenOf(op, f.stack);
        assert Operands(v'.frames, k) == LeftOf(op, f.stack) + TakenOf(op, f.stack) == f.stack == Operands(v.frames, k);
        SamePlace(w, t, f, v'.frames[k], f.stack, v.regions);
      } else {
        EmptyContained(w, t, v'.frames[k], v'.regions);
      }
    }
  }

  /** Containment looks only at where the frame is. */
  lemma SamePlace(w: Facts, t: Target, f: Frame, g: Frame, operands: seq<Value>, regions: seq<Origin>)
    requires Established(w) && t.chunk < |w.m| && Contained(w, t, f, operands, regions)
    requires g.id == f.id && g.chunk == f.chunk && g.ip == f.ip
    ensures Contained(w, t, g, operands, regions)
  {
    forall l: nat | l <= t.loop && InsideLoop(Code(w, t), l, g.ip) && g.chunk == t.chunk
      ensures FreeBelow(w, t, g, operands, regions, l)
    {
      assert FreeBelow(w, t, f, operands, regions, l);
    }
  }

  lemma ComesBackContained(w: Facts, t: Target, v: Vm, v': Vm)
    requires Established(w) && Watched(w, t) && Inv(w, v) && AllContained(w, t, v) && ComesBack(w, v, v')
    ensures AllContained(w, t, v')
  {
    hide Established, Inv, Contained, Watched, Active, Returning;
    WatchedChunk(w, t);
    var n := |v.frames| - 2;
    forall k | 0 <= k < |v'.frames|
      ensures Contained(w, t, v'.frames[k], Operands(v'.frames, k), v'.regions)
    {
      if k < n {
        assert Operands(v'.frames, k) == Operands(v.frames, k);
        BelowContained(w, t, v, v', k);
      } else {
        assert Operands(v.frames, n) == v.frames[n].stack + Top(v).args;
        CallerContained(w, t, v, v.frames[n], Top(v), Top(v'));
      }
    }
  }

  lemma CallerContained(w: Facts, t: Target, v: Vm, g: Frame, f: Frame, g': Frame)
    requires Established(w) && Watched(w, t) && Inv(w, v) && Returning(w, g, f, v.host, v.regions)
    requires Contained(w, t, g, g.stack + f.args, v.regions)
    requires g' == g.(ip := g.ip + 1, stack := g.stack + [Handed(f)])
    ensures Contained(w, t, g', g'.stack, v.regions)
  {
    hide Established, Inv, Contained, Watched, Holdings, Active, Charted;
    WatchedChunk(w, t);
    if g.chunk == t.chunk {
      var op, operands := Code(w, t)[g.ip], g.stack + f.args;
      assert TakenOf(op, operands) == f.args && LeftOf(op, operands) == g.stack;
      assert Regions([Handed(f)]) == Handed(f) by {
        assert [Handed(f)][0] == Handed(f);
      }
      FrameIsAt(w, t, g, operands, v.host, v.regions);
      forall r | r in Handed(f) && Mine(t, g, v.regions, r)
        ensures r in Regions(f.args)
      {
        NotHosted(w, t, v, g, r);
        HandedKnown(w, f, v.host, v.regions, r);
      }
      MoveContained(w, t, g, operands, v.regions, g', [Handed(f)]);
    } else {
      Elsewhere(w, t, g, g', v.regions);
    }
  }

  lemma GoneContained(w: Facts, t: Target, v: Vm, v': Vm)
    requires Established(w) && t.chunk < |w.m| && (Ends(w, v, v') || Abandons(v, v'))
    ensures AllContained(w, t, v')
  {
    hide Established, Contained, Active;
  }

  lemma FeedContained(w: Facts, t: Target, v: Vm, v': Vm)
    requires Established(w) && t.chunk < |w.m| && AllContained(w, t, v) && Feeds(v, v')
    ensures AllContained(w, t, v')
  {
    hide Established, Contained;
    forall k | 0 <= k < |v'.frames|
      ensures Contained(w, t, v'.frames[k], Operands(v'.frames, k), v'.regions)
    {
      assert Operands(v'.frames, k) == Operands(v.frames, k);
      SamePlace(w, t, v.frames[k], v'.frames[k], Operands(v.frames, k), v.regions);
    }
  }

  lemma StepContained(w: Facts, t: Target, v: Vm, ch: Choice, v': Vm)
    requires Established(w) && Watched(w, t) && Inv(w, v) && Promised(w, v) && Inv(w, v') && AllContained(w, t, v)
    requires Next(w.m, v, ch) == Some(v')
    ensures AllContained(w, t, v')
  {
    hide Next, Inv, Promised, Established, Watched, Advances, Resets, Calls, ComesBack, Feeds, Ends;
    WatchedChunk(w, t);
    StepCases(w, v, ch, v');
    if Resets(w, v, v') {
      ResetContained(w, t, v, v');
    } else if Calls(w, v, v') {
      CallContained(w, t, v, v');
    } else if ComesBack(w, v, v') {
      ComesBackContained(w, t, v, v');
    } else if Ends(w, v, v') || Abandons(v, v') {
      GoneContained(w, t, v, v');
    } else if Feeds(v, v') {
      FeedContained(w, t, v, v');
    } else if Starts(w, v, v') {
      EmptyContained(w, t, v'.frames[0], v'.regions);
    } else {
      var results :| Advances(w, v, v', results);
      AdvanceContained(w, t, v, v', results);
    }
  }

  lemma StartContained(w: Facts, t: Target)
    requires Established(w) && t.chunk < |w.m|
    ensures AllContained(w, t, INITIAL)
  {}

  lemma {:induction false} RunContained(w: Facts, t: Target, run: seq<Vm>, i: nat)
    requires Established(w) && Watched(w, t) && IsRun(w.m, run) && i < |run|
    ensures t.chunk < |w.m| && AllContained(w, t, run[i])
  {
    hide Inv, Promised, Established, Watched, AllContained, Next;
    WatchedChunk(w, t);
    if i == 0 {
      StartContained(w, t);
    } else {
      RunContained(w, t, run, i - 1);
      RunKeeps(w, run, i - 1);
      RunKeeps(w, run, i);
      assert StepTo(w.m, run[i - 1], run[i]);
      var ch :| Next(w.m, run[i - 1], ch) == Some(run[i]);
      StepContained(w, t, run[i - 1], ch, run[i]);
    }
  }
}
