/** How often one invocation builds at a site, on whole runs of any module whose chunk is verified. */
module Builds {
  import opened Options
  import opened Bytecode
  import opened Liveness
  import opened Machine
  import opened Soundness
  import opened Runs
  import opened Again

  /** Every caller waits at its call, and frames are numbered as they come. */
  predicate Stacked(m: seq<Chunk>, v: Vm) {
    && (forall k :: 0 <= k < |v.frames| - 1 ==> Waits(m, v.frames[k], v.frames[k + 1]))
    && (forall k :: 0 <= k < |v.frames| ==> v.frames[k].id < v.nextFrame)
  }

  /** Does the innermost frame, of this number, stand at this instruction? */
  predicate StandsAt(m: seq<Chunk>, v: Vm, chunk: nat, frame: nat, ip: nat) {
    && v.frames != [] && Top(v).id == frame && Top(v).chunk == chunk < |m| && Top(v).ip == ip < |m[chunk].ops|
  }

  /** Does the frame restart in this state? */
  predicate RestartsAt(m: seq<Chunk>, v: Vm, frame: nat) {
    && v.frames != [] && Top(v).id == frame && Top(v).chunk < |m| && Top(v).ip < |m[Top(v).chunk].ops|
    && m[Top(v).chunk].ops[Top(v).ip].Reset?
  }

  /** A frame after a step, told by the frame before it. */
  predicate Follows(m: seq<Chunk>, f: Frame, g: Frame) {
    && g.id == f.id && g.chunk == f.chunk && g.args == f.args
    && (g.ip == f.ip || (f.chunk < |m| && f.ip < |m[f.chunk].ops| && g.ip in Successors(m[f.chunk].ops, f.ip)))
  }

  /** What a step makes of the call stack: frame by frame it follows or, if innermost, restarts; and
      frames go, or one new one comes. */
  predicate Followed(m: seq<Chunk>, v: Vm, v': Vm) {
    && |v'.frames| <= |v.frames| + 1 && v.nextFrame <= v'.nextFrame
    && (forall k :: 0 <= k < |v.frames| && k < |v'.frames| ==>
          v'.frames[k].id == v.frames[k].id && (Follows(m, v.frames[k], v'.frames[k]) || RestartsAt(m, v, v.frames[k].id)))
    && (|v'.frames| > |v.frames| ==> v'.frames[|v.frames|].id == v.nextFrame < v'.nextFrame)
  }

  lemma StepFollows(m: seq<Chunk>, v: Vm, ch: Choice, v': Vm)
    requires Stacked(m, v) && Next(m, v, ch) == Some(v')
    ensures Followed(m, v, v')
  {
    hide Results, HostAfter, Suspended, Regions, StreamFrame, ReturnStep, CallStep, SlotInRange, DepthEffect;
    if ch.Proceed? && m[Top(v).chunk].ops[Top(v).ip].Return? {
      ReturnFollows(m, v, v');
    } else if ch.Proceed? && m[Top(v).chunk].ops[Top(v).ip].Call? {
      CallFollows(m, v, v');
    }
  }

  lemma ReturnFollows(m: seq<Chunk>, v: Vm, v': Vm)
    requires Stacked(m, v) && v.frames != [] && ReturnStep(v, Top(v)) == Some(v')
    ensures Followed(m, v, v')
  {
    if |v.frames| >= 2 {
      assert Waits(m, v.frames[|v.frames| - 2], Top(v));
    }
  }

  lemma CallFollows(m: seq<Chunk>, v: Vm, v': Vm)
    requires v.frames != [] && Top(v).chunk < |m| && Top(v).ip < |m[Top(v).chunk].ops|
    requires var op := m[Top(v).chunk].ops[Top(v).ip];
      op.Call? && Pops(op) <= |Top(v).stack| && CallStep(m, v, Top(v), op) == Some(v')
    ensures Followed(m, v, v')
  {}

  lemma StepStacked(m: seq<Chunk>, v: Vm, ch: Choice, v': Vm)
    requires Stacked(m, v) && Next(m, v, ch) == Some(v')
    ensures Stacked(m, v')
  {
    hide Results, SlotInRange, DepthEffect, Successors, HostAfter, StreamFrame, StreamAt, Suspended, Regions, CallStep, Waits;
    if ch.Proceed? && m[Top(v).chunk].ops[Top(v).ip].Call? {
      CallStacked(m, v, v');
    } else {
      forall k | 0 <= k < |v'.frames| - 1
        ensures Waits(m, v'.frames[k], v'.frames[k + 1])
      {
        assert Waits(m, v.frames[k], v.frames[k + 1]);
        StillWaits(m, v.frames[k], v.frames[k + 1], v'.frames[k], v'.frames[k + 1]);
      }
    }
  }

  lemma StillWaits(m: seq<Chunk>, f: Frame, g: Frame, f': Frame, g': Frame)
    requires Waits(m, f, g) && f'.ip == f.ip && f'.id == f.id && f'.chunk == f.chunk
    requires g'.id == g.id && g'.chunk == g.chunk && g'.args == g.args
    ensures Waits(m, f', g')
  {}

  lemma CallStacked(m: seq<Chunk>, v: Vm, v': Vm)
    requires Stacked(m, v) && v.frames != [] && Top(v).chunk < |m| && Top(v).ip < |m[Top(v).chunk].ops|
    requires var op := m[Top(v).chunk].ops[Top(v).ip];
      op.Call? && Pops(op) <= |Top(v).stack| && CallStep(m, v, Top(v), op) == Some(v')
    ensures Stacked(m, v')
  {
    hide Waits, CallStep, SameFrame;
    var f, op := Top(v), m[Top(v).chunk].ops[Top(v).ip];
    CallShape(m, v, f, op, v');
    JoinedWaits(m, v.frames, f.(stack := LeftOf(op, f.stack)), Entered(m, v, op.callee, TakenOf(op, f.stack)));
  }

  // ----- what a frame can still get to -----

  /** A frame of this number, if it is there, runs this chunk and stands where a path from `site` leads. */
  ghost predicate Ahead(m: seq<Chunk>, v: Vm, chunk: nat, frame: nat, site: nat)
    requires chunk < |m|
  {
    forall k :: 0 <= k < |v.frames| && v.frames[k].id == frame ==>
      v.frames[k].chunk == chunk && Reaches(m[chunk].ops, 0, |m[chunk].ops|, site, v.frames[k].ip)
  }

  lemma FollowsOn(m: seq<Chunk>, f: Frame, g: Frame, chunk: nat, site: nat)
    requires chunk < |m| && f.chunk == chunk && Follows(m, f, g)
    requires Reaches(m[chunk].ops, 0, |m[chunk].ops|, site, f.ip)
    ensures Reaches(m[chunk].ops, 0, |m[chunk].ops|, site, g.ip)
  {
    hide Reaches, Successors;
    var ops := m[chunk].ops;
    if g.ip != f.ip {
      ByEdge(ops, 0, |ops|, f.ip, g.ip);
      OnTo(ops, 0, |ops|, site, f.ip, g.ip);
    }
  }

  lemma StepAhead(m: seq<Chunk>, v: Vm, ch: Choice, v': Vm, chunk: nat, frame: nat, site: nat)
    requires chunk < |m| && frame < v.nextFrame && Stacked(m, v) && Next(m, v, ch) == Some(v')
    requires Ahead(m, v, chunk, frame, site) && !RestartsAt(m, v, frame)
    ensures frame < v'.nextFrame && Ahead(m, v', chunk, frame, site)
  {
    hide Next, Reaches, Stacked, Successors;
    StepFollows(m, v, ch, v');
    hide Follows;
    forall k | 0 <= k < |v'.frames| && v'.frames[k].id == frame
      ensures v'.frames[k].chunk == chunk && Reaches(m[chunk].ops, 0, |m[chunk].ops|, site, v'.frames[k].ip)
    {
      FollowsOn(m, v.frames[k], v'.frames[k], chunk, site);
    }
  }

  // ----- one invocation -----

  lemma {:induction false} RunStacked(m: seq<Chunk>, run: seq<Vm>, i: nat)
    requires IsRun(m, run) && i < |run|
    ensures Stacked(m, run[i])
  {
    hide Stacked, Next;
    if i > 0 {
      RunStacked(m, run, i - 1);
      assert StepTo(m, run[i - 1], run[i]);
      var ch :| Next(m, run[i - 1], ch) == Some(run[i]);
      StepStacked(m, run[i - 1], ch, run[i]);
    } else {
      NoneStacked(m);
    }
  }

  lemma NoneStacked(m: seq<Chunk>)
    ensures Stacked(m, INITIAL)
  {}

  /** Executing the site once, the frame stands right behind it. */
  lemma BuiltAhead(m: seq<Chunk>, v: Vm, ch: Choice, v': Vm, chunk: nat, frame: nat, site: nat)
    requires StandsAt(m, v, chunk, frame, site) && m[chunk].ops[site].NewComposite? && Stacked(m, v)
    requires Next(m, v, ch) == Some(v') && |v'.regions| > |v.regions|
    ensures frame < v'.nextFrame && Ahead(m, v', chunk, frame, site)
  {
    var ops := m[chunk].ops;
    ByEdge(ops, 0, |ops|, site, site + 1);
    hide Reaches, Results, DepthEffect;
    forall k | 0 <= k < |v'.frames| && v'.frames[k].id == frame
      ensures v'.frames[k].chunk == chunk && v'.frames[k].ip == site + 1
    {
      if k < |v.frames| - 1 {
        Numbered(m, v, k, |v.frames| - 1);
      }
    }
  }

  lemma {:induction false} Numbered(m: seq<Chunk>, v: Vm, j: nat, k: nat)
    requires Stacked(m, v) && j < k < |v.frames|
    ensures v.frames[j].id < v.frames[k].id
    decreases k - j
  {
    assert Waits(m, v.frames[j], v.frames[j + 1]);
    if j + 1 < k {
      Numbered(m, v, j + 1, k);
    }
  }

  /** As long as the frame does not restart, it stands where a path from the site leads. */
  lemma {:induction false} RunAhead(m: seq<Chunk>, run: seq<Vm>, i: nat, j: nat, chunk: nat, frame: nat, site: nat)
    requires IsRun(m, run) && i <= j < |run| && chunk < |m| && frame < run[i].nextFrame && Ahead(m, run[i], chunk, frame, site)
    requires forall k :: i <= k < j ==> !RestartsAt(m, run[k], frame)
    ensures frame < run[j].nextFrame && Ahead(m, run[j], chunk, frame, site)
    decreases j - i
  {
    hide Stacked, Next, Ahead, RestartsAt;
    if i < j {
      RunAhead(m, run, i, j - 1, chunk, frame, site);
      RunStacked(m, run, j - 1);
      assert StepTo(m, run[j - 1], run[j]);
      var ch :| Next(m, run[j - 1], ch) == Some(run[j]);
      StepAhead(m, run[j - 1], ch, run[j], chunk, frame, site);
    }
  }

  /** A path from the site back to it makes the site one that control comes back to. */
  lemma BackComes(c: Chunk, site: nat)
    requires Verified(c) && site < |c.ops| && !Delimiter(c.ops[site]) && Reaches(c.ops, 0, |c.ops|, site, site)
    ensures ComesBack(c.ops, site)
  {
    hide BlockOf, Laid, Depth, BreaksLeave, ComesBack, Delimiter;
    var p :| Leads(c.ops, 0, |c.ops|, p, site, site);
    if !ComesBack(c.ops, site) {
      StaysPast(c, site, p + [site], |p|);
    }
  }

  /** The step that made region `r`, and what it executed. */
  lemma {:induction false} RegionBuilt(m: seq<Chunk>, run: seq<Vm>, i: nat, j: nat, r: nat) returns (k: nat)
    requires IsRun(m, run) && i <= j < |run| && |run[i].regions| <= r < |run[j].regions|
    ensures i <= k < j && |run[k].regions| == r && |run[k + 1].regions| == r + 1
    ensures run[k + 1].regions <= run[j].regions
    ensures var o := run[j].regions[r]; StandsAt(m, run[k], o.chunk, o.frame, o.site) && m[o.chunk].ops[o.site].NewComposite?
    decreases j - i
  {
    hide Next, StandsAt;
    assert StepTo(m, run[j - 1], run[j]);
    var ch :| Next(m, run[j - 1], ch) == Some(run[j]);
    StepRegions(m, run[j - 1], ch, run[j]);
    if r < |run[j - 1].regions| {
      k := RegionBuilt(m, run, i, j - 1, r);
    } else {
      k := j - 1;
    }
  }

  lemma {:induction false} RegionsGrow(m: seq<Chunk>, run: seq<Vm>, i: nat, j: nat)
    requires IsRun(m, run) && i <= j < |run|
    ensures run[i].regions <= run[j].regions
    decreases j - i
  {
    hide Next;
    if i < j {
      RegionsGrow(m, run, i, j - 1);
      assert StepTo(m, run[j - 1], run[j]);
      var ch :| Next(m, run[j - 1], ch) == Some(run[j]);
      StepRegions(m, run[j - 1], ch, run[j]);
    }
  }

  lemma StepRegions(m: seq<Chunk>, v: Vm, ch: Choice, v': Vm)
    requires Next(m, v, ch) == Some(v')
    ensures v.regions <= v'.regions && |v'.regions| <= |v.regions| + 1
    ensures |v'.regions| > |v.regions| ==>
      var o := v'.regions[|v.regions|]; StandsAt(m, v, o.chunk, o.frame, o.site) && m[o.chunk].ops[o.site].NewComposite?
  {
    hide Results, DepthEffect, StreamAt, StreamFrame;
  }

  /** An invocation builds at most once at a site between two restarts, unless control can come back to
      the site: two regions one frame built there are separated by a restart of that frame. */
  lemma BuiltOnce(m: seq<Chunk>, run: seq<Vm>, i: nat, q: nat, r: nat)
    requires IsRun(m, run) && i < |run| && q < r < |run[i].regions| && run[i].regions[q] == run[i].regions[r]
    requires var o := run[i].regions[r];
      o.chunk < |m| && Verified(m[o.chunk]) && (o.site < |m[o.chunk].ops| ==> !ComesBack(m[o.chunk].ops, o.site))
    ensures exists k :: 0 <= k < i && q < |run[k].regions| <= r && RestartsAt(m, run[k], run[i].regions[r].frame)
  {
    hide Next, StandsAt, Stacked, ComesBack, Verified, Ahead, RestartsAt;
    var o := run[i].regions[r];
    var a := RegionBuilt(m, run, 0, i, q);
    var b := RegionBuilt(m, run, 0, i, r);
    if b <= a {
      RegionsGrow(m, run, b + 1, a + 1);
    }
    if forall k :: a < k < b ==> !RestartsAt(m, run[k], o.frame) {
      RunStacked(m, run, a);
      assert StepTo(m, run[a], run[a + 1]);
      var ch :| Next(m, run[a], ch) == Some(run[a + 1]);
      BuiltAhead(m, run[a], ch, run[a + 1], o.chunk, o.frame, o.site);
      RunAhead(m, run, a + 1, b, o.chunk, o.frame, o.site);
      AheadThere(m, run[b], o.chunk, o.frame, o.site);
      BackComes(m[o.chunk], o.site);
    } else {
      var k :| a < k < b && RestartsAt(m, run[k], o.frame);
      RegionsGrow(m, run, a + 1, k);
      RegionsGrow(m, run, k, b);
    }
  }

  lemma AheadThere(m: seq<Chunk>, v: Vm, chunk: nat, frame: nat, site: nat)
    requires StandsAt(m, v, chunk, frame, site) && Ahead(m, v, chunk, frame, site)
    ensures Reaches(m[chunk].ops, 0, |m[chunk].ops|, site, site)
  {}
}
