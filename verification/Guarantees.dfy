/** What the analysis guarantees of runs, in terms of verdicts and summaries. */
module Guarantees {
  import opened Options
  import opened Bytecode
  import opened Confine
  import opened ConfineOrder
  import opened Annotation
  import opened Machine
  import opened Cover
  import opened Tracking
  import opened Soundness
  import opened Runs
  import opened Steps
  import opened Verdict
  import opened Reuse
  import opened Retired
  import opened Gone
  import opened SummaryPass

  /** A module the guarantees speak of, with summaries that agree with themselves. */
  predicate Trusted(m: seq<Chunk>, sums: Summaries) {
    Consistent(m, sums) && forall k :: 0 <= k < |m| ==> Admitted(m[k], sums)
  }

  /** Alias soundness: at every state of every run, an operand or slot through which a frame can reach
      a region it built itself, and that the host does not hold, has the region's site in its alias
      set. */
  lemma AliasesSound(w: Facts, run: seq<Vm>, i: nat, k: nat, r: nat)
    requires Established(w) && IsRun(w.m, run) && i < |run| && k < |run[i].frames|
    requires r < |run[i].regions| && run[i].regions[r].frame == run[i].frames[k].id && r !in run[i].host
    ensures var f := run[i].frames[k];
      && f.chunk < |w.m| && f.ip in w.site[f.chunk]
      && var s, operands := w.site[f.chunk][f.ip], Operands(run[i].frames, k);
        && |s.stack| == |operands| && |s.locals| == |f.locals|
        && (forall j :: 0 <= j < |operands| && r in operands[j] ==> Site(run[i].regions[r].site) in s.stack[j])
        && (forall j :: 0 <= j < |f.locals| && r in f.locals[j] ==> Site(run[i].regions[r].site) in s.locals[j])
  {
    hide Inv, Promised, Holdings, Established, IsRun;
    RunKeeps(w, run, i);
    FrameAt(w, run[i], k);
    var v, f := run[i], run[i].frames[k];
    assert SiteTags(f.id, v.regions, v.host)[r] == {Site(v.regions[r].site)};
  }

  /** A region gets to the host only if something other than a store was reported of its site, so a
      region of a confined site never does. */
  lemma ConfinedStaysInside(m: seq<Chunk>, sums: Summaries, run: seq<Vm>, i: nat, r: nat)
    requires Trusted(m, sums) && IsRun(m, run) && i < |run| && r in run[i].host
    ensures r < |run[i].regions| && run[i].regions[r].chunk < |m|
    ensures VerdictOf(m[run[i].regions[r].chunk], sums, run[i].regions[r].site).finding.verdict != Confined
  {
    var w := Establish(m, sums);
    RunKeeps(w, run, i);
    HostIn(w, run[i]);
    hide Inv, Promised, Established, Admitted, Consistent;
    ExposedUnconfined(w, run[i].regions[r]);
  }

  lemma ExposedUnconfined(w: Facts, o: Origin)
    requires Exposed(w, o)
    ensures VerdictOf(w.m[o.chunk], w.sums, o.site).finding.verdict != Confined
  {
    ConfinedMeans(w.m[o.chunk], w.sums, o.site);
    hide VerdictOf, Interpret;
    var e: Event :| !e.StoredToLocal? && Logged(SiteLog(w.m[o.chunk], w.sums), Site(o.site), e);
    assert SiteMeaning(w.m[o.chunk].ops, ScopeOf(w.m[o.chunk].ops, o.site), e).Some?;
  }

  /** Leaks: while an invocation lasts, a region passed to it only at parameters its summary clears
      does not get to the host, whatever the callee and everything it calls do. */
  lemma ClearedArgumentStays(m: seq<Chunk>, sums: Summaries, run: seq<Vm>, i: nat, k: nat, r: nat)
    requires Trusted(m, sums) && IsRun(m, run) && i < |run| && k < |run[i].frames|
    requires var f := run[i].frames[k];
      && r in Regions(f.args) && r !in f.hostAtEntry
      && forall j :: 0 <= j < |f.args| && r in f.args[j] ==> !Leaks(sums, f.chunk, j)
    ensures r !in run[i].host
  {
    var w := Establish(m, sums);
    RunKeeps(w, run, i);
    hide Inv, Established, Admitted, Consistent, Leaks;
  }

  /** Returns: an invocation that returns to a caller hands back a region it was passed, other than by
      way of the host, only if it was passed at a parameter the summary says may be returned. */
  lemma ReturnedWhereAdmitted(m: seq<Chunk>, sums: Summaries, run: seq<Vm>, i: nat, r: nat)
    requires Trusted(m, sums) && IsRun(m, run) && i < |run| && run[i].frames != []
    requires var f := Top(run[i]);
      && f.chunk < |m| && f.ip < |m[f.chunk].ops| && m[f.chunk].ops[f.ip].Return?
      && Machine.Returned(f).Some? && r in Machine.Returned(f).value
      && r in Regions(f.args) && r !in run[i].host
    ensures var f := Top(run[i]); exists j :: 0 <= j < |f.args| && r in f.args[j] && Returns(sums, f.chunk, j)
  {
    var w := Establish(m, sums);
    RunKeeps(w, run, i);
    hide Inv, Established, Admitted, Consistent, Returns, Promised;
    ReturnActive(w, run[i], Top(run[i]));
    hide Active;
    ReturnedArg(w, Top(run[i]), run[i].host, run[i].regions, r);
  }

  lemma ReturnActive(w: Facts, v: Vm, f: Frame)
    requires Established(w) && Inv(w, v) && v.frames != [] && f == Top(v)
    requires f.chunk < |w.m| && f.ip < |w.m[f.chunk].ops| && w.m[f.chunk].ops[f.ip].Return?
    ensures Active(w, f, v.host, v.regions) && OpAt(w, f).Return?
  {
    hide Inv, Established, Active;
    ActiveTop(w, v);
  }

  // ----- one invocation -----

  /** Everything a frame holds that was never exposed was built by it or by a frame below. */
  lemma {:induction false} BuilderIsLive(w: Facts, v: Vm, k: nat, r: nat)
    requires Established(w) && Inv(w, v) && k < |v.frames|
    requires r in Regions(v.frames[k].locals) || r in Regions(Operands(v.frames, k))
    requires r < |v.regions| ==> !Exposed(w, v.regions[r])
    ensures r < |v.regions| && exists j :: 0 <= j <= k && v.frames[j].id == v.regions[r].frame
    decreases k
  {
    hide Inv, Established, Exposed, Sound;
    HostBounds(w, v, r);
    FrameAt(w, v, k);
    BuilderHere(w, v, k, r);
    if v.regions[r].frame != v.frames[k].id {
      ArgsBelow(w, v, k, r);
      BuilderIsLive(w, v, k - 1, r);
    }
  }

  lemma BuilderHere(w: Facts, v: Vm, k: nat, r: nat)
    requires Established(w) && k < |v.frames| && Sound(w, v.frames[k], Operands(v.frames, k), v.host, v.regions)
    requires r in Regions(v.frames[k].locals) || r in Regions(Operands(v.frames, k))
    requires r < |v.regions| ==> !Exposed(w, v.regions[r])
    requires r in v.host ==> r < |v.regions| && Exposed(w, v.regions[r])
    ensures r < |v.regions| && r !in v.host && (v.regions[r].frame == v.frames[k].id || r in Regions(v.frames[k].args))
  {
    hide Established, Charted, Exposed;
    assert Known(w, v.frames[k], v.host, v.regions, r);
  }

  lemma BottomArgs(w: Facts, v: Vm, r: nat)
    requires Established(w) && Inv(w, v) && v.frames != [] && r in Regions(v.frames[0].args)
    ensures r in v.host
  {
    hide Established, Sound, Exposed;
  }

  lemma ArgsBelow(w: Facts, v: Vm, k: nat, r: nat)
    requires Established(w) && Inv(w, v) && k < |v.frames| && r in Regions(v.frames[k].args) && r !in v.host
    ensures k > 0 && r in Regions(Operands(v.frames, k - 1))
  {
    hide Established, Inv;
    if k == 0 {
      BottomArgs(w, v, r);
    } else {
      RegionsWithin(v.frames[k].args, Operands(v.frames, k - 1), |v.frames[k - 1].stack|);
    }
  }

  /** A region of a confined site is out of reach once the invocation that built it is over: no frame
      holds it in an operand or a slot, and the host does not hold it. */
  lemma ConfinedDiesWithInvocation(m: seq<Chunk>, sums: Summaries, run: seq<Vm>, i: nat, r: nat)
    requires Trusted(m, sums) && IsRun(m, run) && i < |run| && r < |run[i].regions|
    requires run[i].regions[r].chunk < |m|
    requires VerdictOf(m[run[i].regions[r].chunk], sums, run[i].regions[r].site).finding.verdict == Confined
    requires forall k :: 0 <= k < |run[i].frames| ==> run[i].frames[k].id != run[i].regions[r].frame
    ensures r !in run[i].host
    ensures forall k :: 0 <= k < |run[i].frames| ==>
      r !in Regions(run[i].frames[k].locals) && r !in Regions(run[i].frames[k].stack)
  {
    hide Inv, Promised, Established, Admitted, Consistent, VerdictOf, Exposed;
    var w := Establish(m, sums);
    RunKeeps(w, run, i);
    var v := run[i];
    if Exposed(w, v.regions[r]) {
      ExposedUnconfined(w, v.regions[r]);
    }
    HostBounds(w, v, r);
    forall k | 0 <= k < |v.frames|
      ensures r !in Regions(v.frames[k].locals) && r !in Regions(v.frames[k].stack)
    {
      NotHeldBy(w, v, k, r);
    }
  }

  lemma NotHeldBy(w: Facts, v: Vm, k: nat, r: nat)
    requires Established(w) && Inv(w, v) && k < |v.frames| && r < |v.regions| && !Exposed(w, v.regions[r])
    requires forall j :: 0 <= j < |v.frames| ==> v.frames[j].id != v.regions[r].frame
    ensures r !in Regions(v.frames[k].locals) && r !in Regions(v.frames[k].stack)
  {
    hide Inv, Established, Exposed;
    RegionsWithin(v.frames[k].stack, Operands(v.frames, k), 0);
    if r in Regions(v.frames[k].locals) || r in Regions(v.frames[k].stack) {
      BuilderIsLive(w, v, k, r);
    }
  }

  /** A restart ends the window: for the rest of the run no operand, no slot and not the host gives access
      to a region of a confined site that the restarting frame had built. */
  lemma ConfinedDiesAtReset(m: seq<Chunk>, sums: Summaries, run: seq<Vm>, i: nat, j: nat, r: nat)
    requires Trusted(m, sums) && IsRun(m, run) && i < j < |run| && Restarts(m, run[i], run[i + 1])
    requires r < |run[i].regions| && run[i].regions[r].frame == Top(run[i]).id && run[i].regions[r].chunk < |m|
    requires VerdictOf(m[run[i].regions[r].chunk], sums, run[i].regions[r].site).finding.verdict == Confined
    ensures r !in run[j].host
    ensures forall k :: 0 <= k < |run[j].frames| ==>
      r !in Regions(run[j].frames[k].locals) && r !in Regions(run[j].frames[k].stack)
  {
    hide Inv, Promised, Established, Admitted, Consistent, VerdictOf, Exposed, Restarts, Next;
    var w := Establish(m, sums);
    RunKeeps(w, run, i);
    if Exposed(w, run[i].regions[r]) {
      ExposedUnconfined(w, run[i].regions[r]);
    }
    RestartClears(w, run[i], run[i + 1], r);
    RunGone(w, run, i + 1, j, r);
    assert forall k :: 0 <= k < |run[j].frames| ==> Without(run[j].frames[k], r);
  }

  // ----- the module's own answer -----

  /** End to end: the verdicts of the module, computed with the summaries the module pass computes.
      A site reported confined to one pass of a loop may reuse its slot once the next pass begins. */
  lemma ModuleReuseIsSafe(m: seq<Chunk>, run: seq<Vm>, t: Target, i: nat, j: nat, r: nat)
    requires (forall k :: 0 <= k < |m| ==> Admitted(m[k], ModuleSummaries(m))) && IsRun(m, run)
    requires t.chunk < |m| && t.site < |m[t.chunk].ops| && m[t.chunk].ops[t.site].NewComposite?
    requires var verdict := VerdictOf(m[t.chunk], ModuleSummaries(m), t.site);
      verdict.finding.verdict == Confined && verdict.scope == Iteration(t.loop)
    requires i < j < |run| && BeginsPass(m, t, run[i], run[i + 1])
    requires r < |run[i].regions| && run[i].regions[r] == Origin(t.chunk, Top(run[i]).id, t.site)
    ensures r !in run[j].host
    ensures forall k :: 0 <= k < |run[j].frames| ==> r !in Regions(run[j].frames[k].stack)
  {
    hide *;
    ModuleSummariesConsistent(m);
    ConfinedReuseIsSafe(m, ModuleSummaries(m), run, t, i, j, r);
  }

  /** Summaries never cost a verdict: the module's answer is at most as severe as the answer in which
      every call leaks and returns everything. */
  lemma ModuleAnswerBounded(m: seq<Chunk>, k: nat, site: nat)
    requires k < |m| && Verified(m[k])
    ensures Severity(VerdictOf(m[k], ModuleSummaries(m), site).finding.verdict)
      <= Severity(VerdictOf(m[k], NO_SUMMARIES, site).finding.verdict)
  {
    hide ModuleSummaries, Verified, VerdictOf;
    SummaryFreeIsWorst(m[k], ModuleSummaries(m), site);
  }
}
