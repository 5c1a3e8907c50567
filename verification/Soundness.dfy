/** The invariant of whole runs: where a region can be, and what must have been reported for it to
    get there. Regions the host holds are out of the analysis's hands; every other region held by a
    frame was built by it, came in as an argument, or came back from a call and was reported where it
    was built. */
module Soundness {
  import opened Options
  import opened Bytecode
  import opened Confine
  import opened ConfineOrder
  import opened Annotation
  import opened Guard
  import opened Machine
  import opened Cover
  import opened Tracking

  // ----- what is tracked -----

  /** The regions frame `id` built and the host does not hold, each tagged with its site. */
  function SiteTags(id: nat, regions: seq<Origin>, host: Value): Tags {
    map r: nat | r < |regions| && regions[r].frame == id && r !in host :: {Site(regions[r].site)}
  }

  function ParamsHolding(args: seq<Value>, params: nat, r: nat): Alias {
    set i: nat | i < |args| && i < params && r in args[i] :: Param(i)
  }

  /** The regions that came in at declared parameters only, each tagged with all of those. */
  function ParamTags(args: seq<Value>, params: nat, host: Value): Tags {
    map r: nat | r in Regions(args) && r !in host && (forall i :: params <= i < |args| ==> r !in args[i])
      :: ParamsHolding(args, params, r)
  }

  ghost predicate Covered(a: Ann, f: Frame, operands: seq<Value>, tags: Tags) {
    && f.ip in a
    && CoverSeq(f.locals, a[f.ip].locals, tags)
    && CoverSeq(operands, a[f.ip].stack, tags)
  }

  // ----- the invariant -----

  /** Some event other than a store to a local was reported of the site that built the region. */
  ghost predicate Exposed(w: Facts, o: Origin) {
    o.chunk < |w.m| &&
    exists e: Event :: !e.StoredToLocal? && Logged(SiteLog(w.m[o.chunk], w.sums), Site(o.site), e)
  }

  /** Why frame `f` may hold region `r`. */
  ghost predicate Known(w: Facts, f: Frame, host: Value, regions: seq<Origin>, r: nat) {
    && r < |regions|
    && (r in host || r in Regions(f.args) || regions[r].frame == f.id || (regions[r].frame > f.id && Exposed(w, regions[r])))
  }

  /** A region of the frame's own in slot `k` was reported stored there. */
  ghost predicate StoreLogged(w: Facts, f: Frame, regions: seq<Origin>, k: nat, r: nat)
    requires f.chunk < |w.m| && r < |regions|
  {
    exists ip :: Logged(SiteLog(w.m[f.chunk], w.sums), Site(regions[r].site), StoredToLocal(ip, k))
  }

  ghost predicate Holdings(w: Facts, f: Frame, operands: seq<Value>, host: Value, regions: seq<Origin>) {
    && f.chunk < |w.m|
    && (forall r :: r in Regions(f.locals) || r in Regions(operands) ==> Known(w, f, host, regions, r))
    && (forall r :: r in Regions(f.args) ==> r < |regions| && regions[r].frame < f.id)
    && (forall r: nat :: r < |regions| && regions[r].frame == f.id ==> regions[r].chunk == f.chunk)
    && (forall k, r :: 0 <= k < |f.locals| && r in f.locals[k] && r < |regions| && regions[r].frame == f.id && r !in host ==>
          StoreLogged(w, f, regions, k, r))
  }

  ghost predicate Charted(w: Facts, f: Frame, operands: seq<Value>, host: Value, regions: seq<Origin>)
    requires Established(w) && f.chunk < |w.m|
  {
    && Covered(w.site[f.chunk], f, operands, SiteTags(f.id, regions, host))
    && Covered(w.par[f.chunk], f, operands, ParamTags(f.args, w.m[f.chunk].paramCount, host))
  }

  ghost predicate Sound(w: Facts, f: Frame, operands: seq<Value>, host: Value, regions: seq<Origin>)
    requires Established(w)
  {
    Holdings(w, f, operands, host, regions) && Charted(w, f, operands, host, regions)
  }

  /** A waiting frame's operands include the arguments its callee took. */
  function Operands(frames: seq<Frame>, k: nat): seq<Value>
    requires k < |frames|
  {
    if k + 1 < |frames| then frames[k].stack + frames[k + 1].args else frames[k].stack
  }

  predicate Waits(m: seq<Chunk>, caller: Frame, callee: Frame) {
    && caller.chunk < |m| && caller.ip < |m[caller.chunk].ops|
    && m[caller.chunk].ops[caller.ip] == Call(callee.chunk, |callee.args|)
    && caller.id < callee.id
  }

  ghost predicate Inv(w: Facts, v: Vm)
    requires Established(w)
  {
    && (forall k :: 0 <= k < |v.frames| ==> Sound(w, v.frames[k], Operands(v.frames, k), v.host, v.regions))
    && (forall k :: 0 <= k < |v.frames| - 1 ==> Waits(w.m, v.frames[k], v.frames[k + 1]))
    && (v.frames != [] ==> Regions(v.frames[0].args) <= v.host)
    && (forall k :: 0 <= k < |v.frames| ==> v.frames[k].id < v.nextFrame)
    && (forall r: nat :: r < |v.regions| ==> v.regions[r].frame < v.nextFrame)
    && (forall r :: r in v.host ==> r < |v.regions| && Exposed(w, v.regions[r]))
  }

  // ----- one instruction of the innermost frame, seen from one chart -----

  /** Moving along an edge keeps the cover, given results the transfer accounts for. */
  lemma MoveCovered(c: Chunk, sums: Summaries, log: seq<Notice>, a: Ann, f: Frame, operands: seq<Value>, tags: Tags,
                    g: Frame, results: seq<Value>, fewer: Tags)
    requires f.ip in a && f.ip < |c.ops| && Flows(c, sums, log, f.ip, a[f.ip], a)
    requires !c.ops[f.ip].Trap? && |results| == Pushes(c.ops[f.ip])
    requires Covered(a, f, operands, tags)
    requires forall r :: r in fewer && (r in Regions(f.locals) || r in Regions(operands)) ==> r in tags && fewer[r] == tags[r]
    requires forall i :: 0 <= i < |results| ==>
      Meets(results[i], Produced(sums, f.ip, c.ops[f.ip], Taken(c.ops[f.ip], a[f.ip].stack), a[f.ip].locals), fewer)
    requires g.ip in Successors(c.ops, f.ip)
    requires g.locals == LocalsAfter(c.ops[f.ip], f.locals, TakenOf(c.ops[f.ip], operands))
    requires g.stack == LeftOf(c.ops[f.ip], operands) + results
    ensures Covered(a, g, g.stack, fewer)
  {
    var op, s := c.ops[f.ip], a[f.ip];
    CoverWeaken(f.locals, s.locals, tags, s.locals, fewer);
    CoverWeaken(operands, s.stack, tags, s.stack, fewer);
    StepCovers(sums, f.ip, op, s, fewer, f.locals, operands, results);
    var next := Apply(sums, f.ip, op, s).state;
    CoverWeaken(g.locals, next.locals, fewer, a[g.ip].locals, fewer);
    CoverWeaken(g.stack, next.stack, fewer, a[g.ip].stack, fewer);
  }

  /** The results of a straight instruction are accounted for. */
  lemma ResultsMeet(c: Chunk, sums: Summaries, log: seq<Notice>, a: Ann, f: Frame, tags: Tags, host: Value, newId: nat, results: seq<Value>)
    requires f.ip in a && f.ip < |c.ops| && Flows(c, sums, log, f.ip, a[f.ip], a)
    requires Straight(c.ops[f.ip]) && Clear(f.ip, c.ops[f.ip], a[f.ip])
    requires Covered(a, f, f.stack, tags)
    requires Results(c.ops[f.ip], TakenOf(c.ops[f.ip], f.stack), f.locals, host, newId, results)
    requires forall r :: r in host ==> r !in tags
    requires c.ops[f.ip].NewComposite? && newId in tags ==> tags[newId] == {Site(f.ip)}
    ensures |results| == Pushes(c.ops[f.ip])
    ensures forall i :: 0 <= i < |results| ==>
      Meets(results[i], Produced(sums, f.ip, c.ops[f.ip], Taken(c.ops[f.ip], a[f.ip].stack), a[f.ip].locals), tags)
  {
    var op, s := c.ops[f.ip], a[f.ip];
    TakenCovered(op, s.stack, f.stack, tags);
    forall i | 0 <= i < |results|
      ensures Meets(results[i], Produced(sums, f.ip, op, Taken(op, s.stack), s.locals), tags)
    {
      ResultMeets(sums, f.ip, op, s, tags, f.locals, TakenOf(op, f.stack), host, newId, i, results[i]);
    }
  }

  // ----- what growth elsewhere leaves alone -----

  /** The host gains regions, and others may build some that frame `id` did not. */
  predicate Grown(id: nat, host: Value, regions: seq<Origin>, host': Value, regions': seq<Origin>) {
    && host <= host' && regions <= regions'
    && forall r: nat :: |regions| <= r < |regions'| ==> regions'[r].frame != id
  }

  lemma KnownKept(w: Facts, f: Frame, host: Value, regions: seq<Origin>, host': Value, regions': seq<Origin>, r: nat)
    requires Known(w, f, host, regions, r) && host <= host' && regions <= regions'
    ensures Known(w, f, host', regions', r)
  {}

  lemma HoldingsKept(w: Facts, f: Frame, operands: seq<Value>, host: Value, regions: seq<Origin>, host': Value, regions': seq<Origin>)
    requires Holdings(w, f, operands, host, regions) && Grown(f.id, host, regions, host', regions')
    ensures Holdings(w, f, operands, host', regions')
  {
    forall r | r in Regions(f.locals) || r in Regions(operands)
      ensures Known(w, f, host', regions', r)
    {
      KnownKept(w, f, host, regions, host', regions', r);
    }
    forall k, r | 0 <= k < |f.locals| && r in f.locals[k] && r < |regions'| && regions'[r].frame == f.id && r !in host'
      ensures StoreLogged(w, f, regions', k, r)
    {
      assert r in Regions(f.locals);
      assert StoreLogged(w, f, regions, k, r);
    }
  }

  lemma TagsShrink(w: Facts, f: Frame, operands: seq<Value>, host: Value, regions: seq<Origin>, host': Value, regions': seq<Origin>)
    requires Holdings(w, f, operands, host, regions) && host <= host' && regions <= regions'
    ensures forall r :: r in SiteTags(f.id, regions', host') && (r in Regions(f.locals) || r in Regions(operands)) ==>
      r in SiteTags(f.id, regions, host) && SiteTags(f.id, regions', host')[r] == SiteTags(f.id, regions, host)[r]
    ensures forall n, r :: r in ParamTags(f.args, n, host') ==>
      r in ParamTags(f.args, n, host) && ParamTags(f.args, n, host')[r] == ParamTags(f.args, n, host)[r]
  {
    forall r | r in SiteTags(f.id, regions', host') && (r in Regions(f.locals) || r in Regions(operands))
      ensures r in SiteTags(f.id, regions, host)
    {
      assert Known(w, f, host, regions, r);
    }
  }

  lemma CoveredKept(a: Ann, f: Frame, operands: seq<Value>, tags: Tags, fewer: Tags)
    requires Covered(a, f, operands, tags)
    requires forall r :: r in fewer && (r in Regions(f.locals) || r in Regions(operands)) ==> r in tags && fewer[r] == tags[r]
    ensures Covered(a, f, operands, fewer)
  {
    CoverWeaken(f.locals, a[f.ip].locals, tags, a[f.ip].locals, fewer);
    CoverWeaken(operands, a[f.ip].stack, tags, a[f.ip].stack, fewer);
  }

  /** A frame that does not move stays sound. */
  lemma SoundKept(w: Facts, f: Frame, operands: seq<Value>, host: Value, regions: seq<Origin>, host': Value, regions': seq<Origin>)
    requires Established(w) && Sound(w, f, operands, host, regions) && Grown(f.id, host, regions, host', regions')
    ensures Sound(w, f, operands, host', regions')
  {
    HoldingsKept(w, f, operands, host, regions, host', regions');
    TagsShrink(w, f, operands, host, regions, host', regions');
    var n := w.m[f.chunk].paramCount;
    CoveredKept(w.site[f.chunk], f, operands, SiteTags(f.id, regions, host), SiteTags(f.id, regions', host'));
    CoveredKept(w.par[f.chunk], f, operands, ParamTags(f.args, n, host), ParamTags(f.args, n, host'));
  }

  // ----- a straight instruction -----

  /** Where a result can come from. */
  lemma ResultFrom(op: Op, taken: seq<Value>, locals: seq<Value>, host: Value, newId: nat, i: nat, v: Value)
    requires |taken| == Pops(op) && SlotInRange(op, |locals|)
    requires Result(op, taken, locals, host, newId, i, v)
    ensures forall r :: r in v ==> r in Regions(taken) || r in Regions(locals) || r in host || (op.NewComposite? && r == newId)
  {
    match op
    case Dup => assert forall r :: r in v ==> r in taken[0];
    case GetLocal(slot) => assert forall r :: r in v ==> r in locals[slot];
    case _ =>
  }

  /** What the frame holds after a straight instruction it held before, the host had, or is new. */
  lemma HeldAfter(op: Op, f: Frame, host: Value, newId: nat, results: seq<Value>, r: nat)
    requires Pops(op) <= |f.stack| && SlotInRange(op, |f.locals|)
    requires Results(op, TakenOf(op, f.stack), f.locals, host, newId, results)
    requires r in Regions(LeftOf(op, f.stack) + results) || r in Regions(LocalsAfter(op, f.locals, TakenOf(op, f.stack)))
    ensures r in Regions(f.stack) || r in Regions(f.locals) || r in host || (op.NewComposite? && r == newId)
  {
    var taken, left := TakenOf(op, f.stack), LeftOf(op, f.stack);
    RegionsWithin(left, f.stack, 0);
    RegionsWithin(taken, f.stack, |left|);
    if r in Regions(left + results) {
      var i :| 0 <= i < |left + results| && r in (left + results)[i];
      if i >= |left| {
        assert r in results[i - |left|];
        ResultFrom(op, taken, f.locals, host, newId, i - |left|, results[i - |left|]);
      } else {
        assert r in left[i];
      }
    } else {
      var after := LocalsAfter(op, f.locals, taken);
      var k :| 0 <= k < |after| && r in after[k];
      assert r in f.locals[k] || r in taken[0];
    }
  }

  lemma RegionsWithin(part: seq<Value>, whole: seq<Value>, at: nat)
    requires at + |part| <= |whole| && part == whole[at..at + |part|]
    ensures Regions(part) <= Regions(whole)
  {
    forall r | r in Regions(part)
      ensures r in Regions(whole)
    {
      var i :| 0 <= i < |part| && r in part[i];
      assert r in whole[at + i];
    }
  }

  /** The state of the innermost frame as `Next` finds it. */
  ghost predicate Active(w: Facts, f: Frame, host: Value, regions: seq<Origin>)
    requires Established(w)
  {
    && Sound(w, f, f.stack, host, regions)
    && f.ip < |w.m[f.chunk].ops|
    && Pops(w.m[f.chunk].ops[f.ip]) <= |f.stack|
    && SlotInRange(w.m[f.chunk].ops[f.ip], |f.locals|)
  }

  function OpAt(w: Facts, f: Frame): Op
    requires f.chunk < |w.m| && f.ip < |w.m[f.chunk].ops|
  {
    w.m[f.chunk].ops[f.ip]
  }

  /** `regions` once `op` has run. */
  function RegionsAfter(op: Op, f: Frame, regions: seq<Origin>): seq<Origin> {
    if op.NewComposite? then regions + [Origin(f.chunk, f.id, f.ip)] else regions
  }

  /** A straight step of frame `f` gives `g`. */
  predicate StraightTo(op: Op, f: Frame, host': Value, newId: nat, results: seq<Value>, g: Frame) {
    && Straight(op) && Pops(op) <= |f.stack| && SlotInRange(op, |f.locals|)
    && Results(op, TakenOf(op, f.stack), f.locals, host', newId, results)
    && g == f.(ip := f.ip + 1, locals := LocalsAfter(op, f.locals, TakenOf(op, f.stack)), stack := LeftOf(op, f.stack) + results)
  }

  lemma StraightHoldings(w: Facts, f: Frame, host: Value, regions: seq<Origin>, results: seq<Value>, g: Frame)
    requires Established(w) && Active(w, f, host, regions) && forall r :: r in host ==> r < |regions|
    requires var op := OpAt(w, f); StraightTo(op, f, HostAfter(op, TakenOf(op, f.stack), host), |regions|, results, g)
    ensures var op := OpAt(w, f);
      forall r :: r in Regions(g.locals) || r in Regions(g.stack) ==>
        Known(w, g, HostAfter(op, TakenOf(op, f.stack), host), RegionsAfter(op, f, regions), r)
  {
    var op := OpAt(w, f);
    var host', regions' := HostAfter(op, TakenOf(op, f.stack), host), RegionsAfter(op, f, regions);
    HandOverWithin(op, f, host);
    forall r | r in Regions(g.locals) || r in Regions(g.stack)
      ensures Known(w, g, host', regions', r)
    {
      HeldAfter(op, f, host', |regions|, results, r);
      if r in Regions(f.stack) || r in Regions(f.locals) {
        KnownKept(w, f, host, regions, host', regions', r);
      }
    }
  }

  lemma HandOverWithin(op: Op, f: Frame, host: Value)
    requires Pops(op) <= |f.stack|
    ensures HostAfter(op, TakenOf(op, f.stack), host) <= host + Regions(f.stack)
  {
    RegionsWithin(TakenOf(op, f.stack), f.stack, |LeftOf(op, f.stack)|);
  }

  /** Stores of the frame's own regions stay reported. */
  lemma StraightStores(w: Facts, f: Frame, host: Value, regions: seq<Origin>, results: seq<Value>, g: Frame, k: nat, r: nat)
    requires Established(w) && Active(w, f, host, regions)
    requires var op := OpAt(w, f); StraightTo(op, f, HostAfter(op, TakenOf(op, f.stack), host), |regions|, results, g)
    requires k < |g.locals| && r in g.locals[k] && r < |regions| && regions[r].frame == f.id && r !in host
    ensures StoreLogged(w, f, regions, k, r)
  {
    var op := OpAt(w, f);
    if op == SetLocal(k) {
      assert ChunkCharted(w, f.chunk);
      var s, tags := w.site[f.chunk][f.ip], SiteTags(f.id, regions, host);
      TakenCovered(op, s.stack, f.stack, tags);
      StoreReported(w.sums, f.ip, op, s, tags, TakenOf(op, f.stack), r);
      ReportedMore(NoticesOf(w.sums, f.ip, op, Taken(op, s.stack)), SiteLog(w.m[f.chunk], w.sums), tags, r, StoredToLocal(f.ip, k));
    } else {
      assert r in f.locals[k];
    }
  }

  lemma NewRegionIsOld(op: Op, f: Frame, regions: seq<Origin>, r: nat)
    requires r < |RegionsAfter(op, f, regions)|
    ensures r < |regions| ==> RegionsAfter(op, f, regions)[r] == regions[r]
    ensures r >= |regions| ==> op.NewComposite? && r == |regions| && RegionsAfter(op, f, regions)[r] == Origin(f.chunk, f.id, f.ip)
  {}

  lemma StraightHolds(w: Facts, f: Frame, host: Value, regions: seq<Origin>, results: seq<Value>, g: Frame)
    requires Established(w) && Active(w, f, host, regions) && forall r :: r in host ==> r < |regions|
    requires var op := OpAt(w, f); StraightTo(op, f, HostAfter(op, TakenOf(op, f.stack), host), |regions|, results, g)
    ensures var op := OpAt(w, f); Holdings(w, g, g.stack, HostAfter(op, TakenOf(op, f.stack), host), RegionsAfter(op, f, regions))
  {
    var op := OpAt(w, f);
    var host', regions' := HostAfter(op, TakenOf(op, f.stack), host), RegionsAfter(op, f, regions);
    StraightHoldings(w, f, host, regions, results, g);
    forall k, r | 0 <= k < |g.locals| && r in g.locals[k] && r < |regions'| && regions'[r].frame == g.id && r !in host'
      ensures StoreLogged(w, g, regions', k, r)
    {
      if op.NewComposite? {
        assert r in Regions(f.locals);
      }
      NewRegionIsOld(op, f, regions, r);
      StraightStores(w, f, host, regions, results, g, k, r);
    }
    forall r | r in Regions(g.args)
      ensures r < |regions'| && regions'[r].frame < g.id
    {
      NewRegionIsOld(op, f, regions, r);
    }
    forall r: nat | r < |regions'| && regions'[r].frame == g.id
      ensures regions'[r].chunk == g.chunk
    {
      NewRegionIsOld(op, f, regions, r);
    }
  }

  lemma StraightCharted(w: Facts, f: Frame, host: Value, regions: seq<Origin>, results: seq<Value>, g: Frame)
    requires Established(w) && Active(w, f, host, regions) && forall r :: r in host ==> r < |regions|
    requires var op := OpAt(w, f); StraightTo(op, f, HostAfter(op, TakenOf(op, f.stack), host), |regions|, results, g)
    ensures var op := OpAt(w, f); Charted(w, g, g.stack, HostAfter(op, TakenOf(op, f.stack), host), RegionsAfter(op, f, regions))
  {
    var op, c := OpAt(w, f), w.m[f.chunk];
    var host', regions' := HostAfter(op, TakenOf(op, f.stack), host), RegionsAfter(op, f, regions);
    assert ChunkCharted(w, f.chunk);
    TagsShrink(w, f, f.stack, host, regions, host', regions');
    assert |regions| !in Regions(f.args);
    StraightCoveredBy(c, w.sums, SiteLog(c, w.sums), w.site[f.chunk], f,
      SiteTags(f.id, regions, host), SiteTags(f.id, regions', host'), host', |regions|, results, g);
    StraightCoveredBy(c, w.sums, ParamLog(c, w.sums), w.par[f.chunk], f,
      ParamTags(f.args, c.paramCount, host), ParamTags(f.args, c.paramCount, host'), host', |regions|, results, g);
  }

  lemma StraightCoveredBy(c: Chunk, sums: Summaries, log: seq<Notice>, a: Ann, f: Frame, tags: Tags, fewer: Tags,
                          host': Value, newId: nat, results: seq<Value>, g: Frame)
    requires f.ip in a && f.ip < |c.ops| && Flows(c, sums, log, f.ip, a[f.ip], a)
    requires Clear(f.ip, c.ops[f.ip], a[f.ip])
    requires Covered(a, f, f.stack, tags) && StraightTo(c.ops[f.ip], f, host', newId, results, g)
    requires forall r :: r in fewer && (r in Regions(f.locals) || r in Regions(f.stack)) ==> r in tags && fewer[r] == tags[r]
    requires forall r :: r in host' ==> r !in fewer
    requires c.ops[f.ip].NewComposite? && newId in fewer ==> fewer[newId] == {Site(f.ip)}
    ensures Covered(a, g, g.stack, fewer)
  {
    CoveredKept(a, f, f.stack, tags, fewer);
    ResultsMeet(c, sums, log, a, f, fewer, host', newId, results);
    StraightGoesOn(c.ops, f.ip);
    MoveCovered(c, sums, log, a, f, f.stack, fewer, g, results, fewer);
  }

  lemma StraightGoesOn(ops: seq<Op>, ip: nat)
    requires ip < |ops| && Straight(ops[ip])
    ensures Successors(ops, ip) == {ip + 1}
  {}

  lemma StraightSound(w: Facts, f: Frame, host: Value, regions: seq<Origin>, results: seq<Value>, g: Frame)
    requires Established(w) && Active(w, f, host, regions) && forall r :: r in host ==> r < |regions|
    requires var op := OpAt(w, f); StraightTo(op, f, HostAfter(op, TakenOf(op, f.stack), host), |regions|, results, g)
    ensures var op := OpAt(w, f); Sound(w, g, g.stack, HostAfter(op, TakenOf(op, f.stack), host), RegionsAfter(op, f, regions))
  {
    hide Holdings, Charted, StraightTo, Established;
    StraightHolds(w, f, host, regions, results, g);
    StraightCharted(w, f, host, regions, results, g);
  }

  // ----- jumps and resets -----

  predicate Jump(op: Op) {
    op.If? || op.BreakIf? || op.Else? || op.EndLoop? || op.Break?
  }

  /** The frame moved, keeping its slots and holding no more. */
  lemma HoldsLess(w: Facts, f: Frame, operands: seq<Value>, host: Value, regions: seq<Origin>, g: Frame, fewer: seq<Value>)
    requires Holdings(w, f, operands, host, regions) && Regions(fewer) <= Regions(operands)
    requires g.id == f.id && g.chunk == f.chunk && g.args == f.args
    requires g.locals == f.locals || Regions(g.locals) == {}
    ensures Holdings(w, g, fewer, host, regions)
  {
    forall r | r in Regions(g.locals) || r in Regions(fewer)
      ensures Known(w, g, host, regions, r)
    {
      assert Known(w, f, host, regions, r);
    }
    forall k, r | 0 <= k < |g.locals| && r in g.locals[k] && r < |regions| && regions[r].frame == g.id && r !in host
      ensures StoreLogged(w, g, regions, k, r)
    {
      assert r in Regions(g.locals);
      assert StoreLogged(w, f, regions, k, r);
    }
  }

  lemma JumpCovered(c: Chunk, sums: Summaries, log: seq<Notice>, a: Ann, f: Frame, tags: Tags, branch: bool, g: Frame)
    requires f.ip in a && f.ip < |c.ops| && Flows(c, sums, log, f.ip, a[f.ip], a) && Jump(c.ops[f.ip])
    requires Covered(a, f, f.stack, tags) && Pops(c.ops[f.ip]) <= |f.stack|
    requires g == f.(ip := JumpTo(c.ops[f.ip], f.ip, branch), stack := LeftOf(c.ops[f.ip], f.stack))
    ensures Covered(a, g, g.stack, tags)
  {
    assert g.stack == LeftOf(c.ops[f.ip], f.stack) + [];
    MoveCovered(c, sums, log, a, f, f.stack, tags, g, [], tags);
  }

  lemma CoveredThere(w: Facts, f: Frame, host: Value, regions: seq<Origin>)
    requires Established(w) && Sound(w, f, f.stack, host, regions)
    ensures f.chunk < |w.m| == |w.site| == |w.par| && f.ip in w.site[f.chunk] && f.ip in w.par[f.chunk]
  {
    hide CoverSeq, ChunkCharted;
  }

  lemma JumpSound(w: Facts, f: Frame, host: Value, regions: seq<Origin>, branch: bool, g: Frame)
    requires Established(w) && Active(w, f, host, regions) && Jump(OpAt(w, f))
    requires g == f.(ip := JumpTo(OpAt(w, f), f.ip, branch), stack := LeftOf(OpAt(w, f), f.stack))
    ensures Sound(w, g, g.stack, host, regions)
  {
    hide Holdings, Covered, Flows, Sized, FloorsKept, Restartable, Verified, JumpTo, SiteLog, ParamLog, Jump, DepthEffect;
    CoveredThere(w, f, host, regions);
    var c := w.m[f.chunk];
    assert ChunkCharted(w, f.chunk);
    RegionsWithin(g.stack, f.stack, 0);
    HoldsLess(w, f, f.stack, host, regions, g, g.stack);
    JumpCovered(c, w.sums, SiteLog(c, w.sums), w.site[f.chunk], f, SiteTags(f.id, regions, host), branch, g);
    JumpCovered(c, w.sums, ParamLog(c, w.sums), w.par[f.chunk], f, ParamTags(f.args, c.paramCount, host), branch, g);
  }

  lemma BlankHolds(n: nat)
    ensures Regions(Blank(n)) == {}
  {}

  lemma ResetCovered(c: Chunk, sums: Summaries, seed: seq<Alias>, log: seq<Notice>, a: Ann, f: Frame, tags: Tags, g: Frame)
    requires Charts(c, sums, seed, log, a) && Restartable(c)
    requires f.ip < |c.ops| && c.ops[f.ip] == Reset && StreamAt(c.ops, 0).Some?
    requires Covered(a, f, f.stack, tags)
    requires g == f.(ip := StreamAt(c.ops, 0).value + 1, locals := Blank(|f.locals|), stack := [])
    ensures Covered(a, g, [], tags)
  {
    hide Flows, FloorsKept, Clear, PrologueHeight, StreamAt;
    ResetCharted(c, sums, seed, log, a, StreamAt(c.ops, 0).value);
  }

  lemma ResetSound(w: Facts, f: Frame, host: Value, regions: seq<Origin>, g: Frame)
    requires Established(w) && Active(w, f, host, regions) && OpAt(w, f).Reset?
    requires StreamAt(w.m[f.chunk].ops, 0).Some?
    requires g == f.(ip := StreamAt(w.m[f.chunk].ops, 0).value + 1, locals := Blank(|f.locals|), stack := [])
    ensures Sound(w, g, g.stack, host, regions)
  {
    var c := w.m[f.chunk];
    assert ChunkCharted(w, f.chunk);
    hide Holdings, Covered, Charts;
    BlankHolds(|f.locals|);
    HoldsLess(w, f, f.stack, host, regions, g, []);
    ResetCovered(c, w.sums, EmptyLocals(c), SiteLog(c, w.sums), w.site[f.chunk], f, SiteTags(f.id, regions, host), g);
    ResetCovered(c, w.sums, SeededLocals(c), ParamLog(c, w.sums), w.par[f.chunk], f, ParamTags(f.args, c.paramCount, host), g);
  }

  // ----- entering a chunk, waiting for it, and coming back -----

  lemma EntryCovered(c: Chunk, args: seq<Value>, host: Value)
    requires |args| <= c.localCount
    ensures CoverSeq(args + Blank(c.localCount - |args|), SeededLocals(c), ParamTags(args, c.paramCount, host))
  {
    var locals, tags := args + Blank(c.localCount - |args|), ParamTags(args, c.paramCount, host);
    forall i, r | 0 <= i < |locals| && r in locals[i] && r in tags
      ensures tags[r] * SeededLocals(c)[i] != {}
    {
      assert Param(i) in tags[r] * SeededLocals(c)[i];
    }
  }

  /** A frame just entered is sound: it built nothing, and what it holds came in. */
  lemma EntrySound(w: Facts, v: Vm, chunk: nat, args: seq<Value>)
    requires Established(w) && chunk < |w.m| && |args| <= w.m[chunk].localCount
    requires forall r :: r in Regions(args) ==> r < |v.regions|
    requires forall r: nat :: r < |v.regions| ==> v.regions[r].frame < v.nextFrame
    ensures var f := Entered(w.m, v, chunk, args); Sound(w, f, f.stack, v.host, v.regions)
  {
    var f, c := Entered(w.m, v, chunk, args), w.m[chunk];
    assert ChunkCharted(w, chunk);
    assert w.site[chunk][0] == State([], EmptyLocals(c)) && w.par[chunk][0] == State([], SeededLocals(c));
    hide ChunkCharted, Charts, Established, Holdings;
    EntryCovered(c, args, v.host);
    assert SiteTags(f.id, v.regions, v.host) == map[];
    EntryHoldings(w, v, chunk, args);
  }

  lemma EntryHoldings(w: Facts, v: Vm, chunk: nat, args: seq<Value>)
    requires chunk < |w.m| && |args| <= w.m[chunk].localCount
    requires forall r :: r in Regions(args) ==> r < |v.regions|
    requires forall r: nat :: r < |v.regions| ==> v.regions[r].frame < v.nextFrame
    ensures var f := Entered(w.m, v, chunk, args); Holdings(w, f, f.stack, v.host, v.regions)
  {
    var f := Entered(w.m, v, chunk, args);
    EntryHeld(args, w.m[chunk].localCount - |args|);
    assert forall r :: r in Regions(f.locals) ==> Known(w, f, v.host, v.regions, r);
  }

  lemma EntryHeld(args: seq<Value>, n: nat)
    ensures Regions(args + Blank(n)) == Regions(args)
  {
    var locals := args + Blank(n);
    assert forall i :: 0 <= i < |args| ==> locals[i] == args[i];
    assert forall i :: |args| <= i < |locals| ==> locals[i] == {};
  }

  /** Waiting at a call changes neither what the frame holds nor where it is. */
  lemma WaitingSound(w: Facts, f: Frame, host: Value, regions: seq<Origin>, g: Frame)
    requires Established(w) && Active(w, f, host, regions)
    requires g == f.(stack := LeftOf(OpAt(w, f), f.stack))
    ensures Sound(w, g, g.stack + TakenOf(OpAt(w, f), f.stack), host, regions)
  {
    var c := w.m[f.chunk];
    assert g.stack + TakenOf(OpAt(w, f), f.stack) == f.stack;
    hide Holdings;
    HoldsLess(w, f, f.stack, host, regions, g, f.stack);
  }

  // ----- coming back -----

  /** What a return hands over: an operand, or the last local. */
  function Handed(f: Frame): Value
    requires Machine.Returned(f).Some?
  {
    Machine.Returned(f).value
  }

  lemma ReturnNoticed(c: Chunk, sums: Summaries, log: seq<Notice>, a: Ann, f: Frame, tags: Tags, r: nat)
    requires f.ip in a && f.ip < |c.ops| && Flows(c, sums, log, f.ip, a[f.ip], a) && c.ops[f.ip].Return?
    requires Clear(f.ip, c.ops[f.ip], a[f.ip])
    requires Covered(a, f, f.stack, tags) && Machine.Returned(f).Some? && r in Handed(f) && r in tags
    ensures Reported(log, tags, r, Event.Returned(f.ip))
  {
    assert f.stack != [];
    ReturnReported(f.ip, a[f.ip], tags, f.stack, r);
    ReportedMore([ReturnNotice(f.ip, a[f.ip])], log, tags, r, Event.Returned(f.ip));
  }

  /** What was reported of a region tracked by its site makes the region exposed. */
  lemma SiteReported(w: Facts, id: nat, chunk: nat, host: Value, regions: seq<Origin>, r: nat, e: Event)
    requires r < |regions| && regions[r].chunk == chunk < |w.m| && !e.StoredToLocal?
    requires Reported(SiteLog(w.m[chunk], w.sums), SiteTags(id, regions, host), r, e)
    ensures Exposed(w, regions[r])
  {}

  /** Where the walk is clear, a return finds a value in its own frame. */
  lemma ReturnHas(w: Facts, f: Frame, host: Value, regions: seq<Origin>)
    requires Established(w) && Active(w, f, host, regions) && OpAt(w, f).Return?
    ensures Machine.Returned(f).Some?
  {
    assert ChunkCharted(w, f.chunk);
    var c := w.m[f.chunk];
    hide Charts, Holdings, Covered, Restartable, Verified;
    ReturnCharted(c, w.sums, EmptyLocals(c), SiteLog(c, w.sums), w.site[f.chunk], f, SiteTags(f.id, regions, host));
  }

  lemma ReturnCharted(c: Chunk, sums: Summaries, seed: seq<Alias>, log: seq<Notice>, a: Ann, f: Frame, tags: Tags)
    requires Charts(c, sums, seed, log, a) && f.ip < |c.ops| && c.ops[f.ip] == Return && Covered(a, f, f.stack, tags)
    ensures Machine.Returned(f).Some?
  {
    hide Flows, FloorsKept;
    var s := a[f.ip];
    assert Sized(c, f.ip, s, 0, c.localCount, true);
    assert Clear(f.ip, Return, s) && |f.stack| == |s.stack| && |f.locals| == |s.locals|;
  }

  /** A region of the frame's own that it returns was reported. */
  lemma ReturnedOwn(w: Facts, f: Frame, host: Value, regions: seq<Origin>, r: nat)
    requires Established(w) && Active(w, f, host, regions) && OpAt(w, f).Return? && Machine.Returned(f).Some?
    requires r in Handed(f) && r < |regions| && regions[r].frame == f.id && r !in host
    ensures Exposed(w, regions[r])
  {
    assert ChunkCharted(w, f.chunk);
    var c, tags := w.m[f.chunk], SiteTags(f.id, regions, host);
    hide Flows, Covered, Reported, Exposed;
    ReturnNoticed(c, w.sums, SiteLog(c, w.sums), w.site[f.chunk], f, tags, r);
    SiteReported(w, f.id, f.chunk, host, regions, r, Event.Returned(f.ip));
  }

  /** A region that came in and goes out through the result came in where the summary says so. */
  lemma ReturnedArg(w: Facts, f: Frame, host: Value, regions: seq<Origin>, r: nat)
    requires Established(w) && Active(w, f, host, regions) && OpAt(w, f).Return? && Machine.Returned(f).Some?
    requires r in Handed(f) && r in Regions(f.args) && r !in host
    ensures exists i :: 0 <= i < |f.args| && r in f.args[i] && Returns(w.sums, f.chunk, i)
  {
    assert ChunkCharted(w, f.chunk);
    var c, tags := w.m[f.chunk], ParamTags(f.args, w.m[f.chunk].paramCount, host);
    hide Flows, Covered, Reported;
    if r in tags {
      ReturnNoticed(c, w.sums, ParamLog(c, w.sums), w.par[f.chunk], f, tags, r);
      ReturnSummarized(w, f.chunk, f.args, host, r, Event.Returned(f.ip));
    } else {
      UndeclaredReturns(w, f.chunk, f.args, host, r);
    }
  }

  /** What a summary run reported, the summary repeats; without a summary the answer is yes. */
  lemma ReturnSummarized(w: Facts, chunk: nat, args: seq<Value>, host: Value, r: nat, e: Event)
    requires Established(w) && chunk < |w.m| && e.Returned?
    requires Reported(ParamLog(w.m[chunk], w.sums), ParamTags(args, w.m[chunk].paramCount, host), r, e)
    ensures exists i :: 0 <= i < |args| && r in args[i] && Returns(w.sums, chunk, i)
  {
    var c, sums := w.m[chunk], w.sums;
    var t :| t in ParamTags(args, c.paramCount, host)[r] && Logged(ParamLog(c, sums), t, e);
    assert ReturnLogged(ParamLog(c, sums), Param(t.index));
    assert r in args[t.index] && Returns(sums, chunk, t.index);
  }

  /** An argument no parameter declares is never cleared. */
  lemma UndeclaredReturns(w: Facts, chunk: nat, args: seq<Value>, host: Value, r: nat)
    requires Established(w) && chunk < |w.m|
    requires r in Regions(args) && r !in host && r !in ParamTags(args, w.m[chunk].paramCount, host)
    ensures exists i :: 0 <= i < |args| && r in args[i] && Returns(w.sums, chunk, i) && Leaks(w.sums, chunk, i)
  {
    var i :| w.m[chunk].paramCount <= i < |args| && r in args[i];
    SummaryLength(w.m[chunk], w.sums);
    assert Returns(w.sums, chunk, i) && Leaks(w.sums, chunk, i);
  }

  lemma SummaryLength(c: Chunk, sums: Summaries)
    ensures |Summarize(c, sums).leaks| == |Summarize(c, sums).returned| == c.paramCount
  {}

  lemma LeakSummarized(w: Facts, chunk: nat, args: seq<Value>, host: Value, r: nat, e: Event)
    requires Established(w) && chunk < |w.m| && IsLeak(e)
    requires Reported(ParamLog(w.m[chunk], w.sums), ParamTags(args, w.m[chunk].paramCount, host), r, e)
    ensures exists i :: 0 <= i < |args| && r in args[i] && Leaks(w.sums, chunk, i)
  {
    var c, sums := w.m[chunk], w.sums;
    var t :| t in ParamTags(args, c.paramCount, host)[r] && Logged(ParamLog(c, sums), t, e);
    assert LeakLogged(ParamLog(c, sums), Param(t.index));
    assert r in args[t.index] && Leaks(sums, chunk, t.index);
  }
}
