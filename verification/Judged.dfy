/** What a scope, a summary and a verdict say, spelled out on the flat code and its trails. */
module Judged {
  import opened Options
  import opened Bytecode
  import opened Confine
  import opened ConfineOrder
  import opened ConfineTotal
  import opened Verdict
  import opened Rebuilt
  import opened Trails

  // ----- scopes -----

  /** The loop at `l` is around `ip` and holds no unconditional break to its own exit. */
  predicate Iterating(ops: seq<Op>, l: nat, ip: nat) {
    && l < ip < |ops| && ops[l].Loop? && ip < ops[l].target
    && forall k :: l < k < |ops| && k < ops[l].target ==> ops[k] != Break(ops[l].target)
  }

  /** A site is judged against the last of the loops around it that hold no unconditional break to their own
      exit, and against the whole invocation if and only if every loop around it holds one. A conditional
      break does not count. */
  lemma ScopeExactly(ops: seq<Op>, ip: nat, l: nat)
    requires ip < |ops|
    ensures ScopeOf(ops, ip) == Iteration(l) <==> Iterating(ops, l, ip) && forall k :: l < k < ip ==> !Iterating(ops, k, ip)
    ensures ScopeOf(ops, ip) == Invocation <==> forall k :: 0 <= k < ip ==> !Iterating(ops, k, ip)
  {
    forall k: nat | k < |ops|
      ensures Encloses(ops, k, ip) <==> Iterating(ops, k, ip)
    {
      EnclosesIterates(ops, k, ip);
    }
  }

  lemma EnclosesIterates(ops: seq<Op>, l: nat, ip: nat)
    requires l < |ops| && ip < |ops|
    ensures Encloses(ops, l, ip) <==> Iterating(ops, l, ip)
  {
    if ops[l].Loop? && !Iterating(ops, l, ip) && l < ip < LoopEnd(ops, l) {
      var k :| l < k < |ops| && k < ops[l].target && ops[k] == Break(ops[l].target);
      assert IsDispatch(ops, l, LoopEnd(ops, l), ops[l].target);
    }
  }

  // ----- summaries -----

  /** Yields, native calls, calls and unmodelled routes carry a token out of the invocation, whatever the caller
      does; stores do not, and a return hands it to the caller. */
  predicate Carries(e: Event) {
    match e
    case Yielded(_) | HandedToNative(_) | PassedToCall(_) | UnmodelledRoute(_) => true
    case Returned(_) | StoredToLocal(_, _) => false
  }

  /** A completed run of a chunk with slots for its parameters marks a parameter leaking by an event that
      carries it out, and coming back by a return, and by nothing else. */
  lemma SummaryByEvent(c: Chunk, sums: Summaries, i: nat)
    requires i < c.paramCount <= c.localCount && Interpret(c, SeededLocals(c), sums).Walked?
    ensures var s, log := Summarize(c, sums), Interpret(c, SeededLocals(c), sums).log;
      && |s.leaks| == |s.returned| == c.paramCount
      && (s.leaks[i] <==> exists e: Event :: Carries(e) && Logged(log, Param(i), e))
      && (s.returned[i] <==> exists ip :: Logged(log, Param(i), Event.Returned(ip)))
  {
    hide Interpret;
    var log := Interpret(c, SeededLocals(c), sums).log;
    if LeakLogged(log, Param(i)) {
      var n :| n in log && Param(i) in n.tokens && IsLeak(n.event);
      assert Logged(log, Param(i), n.event);
    }
    if ReturnLogged(log, Param(i)) {
      var n :| n in log && Param(i) in n.tokens && n.event.Returned?;
      assert Logged(log, Param(i), n.event) && n.event == Event.Returned(n.event.ip);
    }
  }

  /** A chunk without parameters has an empty summary; one without slots for them, or whose walk derails, has
      every parameter leak and come back. */
  lemma SummaryOtherwise(c: Chunk, sums: Summaries)
    requires c.paramCount == 0 || c.localCount < c.paramCount || Interpret(c, SeededLocals(c), sums).Derailed?
    ensures var s := Summarize(c, sums);
      |s.leaks| == |s.returned| == c.paramCount && forall i :: 0 <= i < c.paramCount ==> s.leaks[i] && s.returned[i]
  {}

  /** At the end of the trail the token is yielded, handed to a native, or passed where the callee's summary does
      not clear it. */
  predicate LeavesOn(c: Chunk, sums: Summaries, seed: seq<Alias>, d: map<nat, nat>, p: seq<nat>, t: Token) {
    && p != [] && TrailTo(c.ops, p, p[|p| - 1]) && p[|p| - 1] < |c.ops|
    && var op, s := c.ops[p[|p| - 1]], Along(c.ops, sums, seed, d, p);
      match op
      case Yield => OnTop(s, t)
      case CallNative(_, _, _) => AmongTop(s, Pops(op), t)
      case Call(callee, argc) =>
        argc <= |s.stack| && exists i :: 0 <= i < argc && t in s.stack[|s.stack| - argc + i] && !Cleared(sums, callee, i)
      case _ => false
  }

  /** At the end of the trail the token is on top where the chunk returns. */
  predicate ReturnedOn(c: Chunk, sums: Summaries, seed: seq<Alias>, d: map<nat, nat>, p: seq<nat>, t: Token) {
    && p != [] && TrailTo(c.ops, p, p[|p| - 1]) && p[|p| - 1] < |c.ops|
    && c.ops[p[|p| - 1]].Return? && OnTop(Along(c.ops, sums, seed, d, p), t)
  }

  ghost predicate LeavesSomewhere(c: Chunk, sums: Summaries, d: map<nat, nat>, i: nat) {
    exists p :: LeavesOn(c, sums, SeededLocals(c), d, p, Param(i))
  }

  ghost predicate ReturnedSomewhere(c: Chunk, sums: Summaries, d: map<nat, nat>, i: nat) {
    exists p :: ReturnedOn(c, sums, SeededLocals(c), d, p, Param(i))
  }

  /** Parameter `i` of a verified chunk is marked leaking if and only if on some trail it is yielded, handed to a
      native, or passed on where the callee's summary does not clear it; and marked coming back if and only if
      on some trail it is on top at a return. */
  lemma SummaryExactly(c: Chunk, sums: Summaries, i: nat) returns (d: map<nat, nat>)
    requires Verified(c) && i < c.paramCount <= c.localCount
    ensures Leveled(c, d)
    ensures |Summarize(c, sums).leaks| == |Summarize(c, sums).returned| == c.paramCount
    ensures Summarize(c, sums).leaks[i] <==> LeavesSomewhere(c, sums, d, i)
    ensures Summarize(c, sums).returned[i] <==> ReturnedSomewhere(c, sums, d, i)
  {
    hide Verified, Leveled, Interpret, LeavesOn, ReturnedOn, SaidOnTrail;
    SeedBounded(c);
    d := WalkExactly(c, sums, SeededLocals(c));
    SummaryByEvent(c, sums, i);
    LeavesSaid(c, sums, SeededLocals(c), d, Param(i));
    ReturnedSaid(c, sums, SeededLocals(c), d, Param(i));
  }

  lemma SeedBounded(c: Chunk)
    requires c.paramCount <= c.localCount
    ensures |SeededLocals(c)| == c.localCount
    ensures forall k :: 0 <= k < c.localCount ==> SeededLocals(c)[k] <= ParamTokens(c.localCount)
  {}

  lemma LeavesSaid(c: Chunk, sums: Summaries, seed: seq<Alias>, d: map<nat, nat>, t: Token)
    ensures (exists p :: LeavesOn(c, sums, seed, d, p, t)) <==>
      exists e: Event :: Carries(e) && SaidOnTrail(c, sums, seed, d, t, e)
  {
    hide Along, TrailTo;
    if p :| LeavesOn(c, sums, seed, d, p, t) {
      var ip := p[|p| - 1];
      var op := c.ops[ip];
      var e := if op.Yield? then Yielded(ip) else if op.CallNative? then HandedToNative(ip) else PassedToCall(ip);
      assert SaidAt(c, sums, seed, d, p, t, e);
      assert Carries(e) && SaidOnTrail(c, sums, seed, d, t, e);
    }
    if e: Event :| Carries(e) && SaidOnTrail(c, sums, seed, d, t, e) {
      var p :| SaidAt(c, sums, seed, d, p, t, e);
      assert LeavesOn(c, sums, seed, d, p, t);
    }
  }

  lemma ReturnedSaid(c: Chunk, sums: Summaries, seed: seq<Alias>, d: map<nat, nat>, t: Token)
    ensures (exists p :: ReturnedOn(c, sums, seed, d, p, t)) <==> exists ip :: SaidOnTrail(c, sums, seed, d, t, Event.Returned(ip))
  {
    hide Along, TrailTo;
    if p :| ReturnedOn(c, sums, seed, d, p, t) {
      assert SaidAt(c, sums, seed, d, p, t, Event.Returned(p[|p| - 1]));
      assert SaidOnTrail(c, sums, seed, d, t, Event.Returned(p[|p| - 1]));
    }
    if ip :| SaidOnTrail(c, sums, seed, d, t, Event.Returned(ip)) {
      var p :| SaidAt(c, sums, seed, d, p, t, Event.Returned(ip));
      assert ReturnedOn(c, sums, seed, d, p, t);
    }
  }

  // ----- verdicts -----

  /** At the end of the trail the site's region is yielded, returned or handed to a native. */
  predicate EscapesOn(c: Chunk, sums: Summaries, d: map<nat, nat>, p: seq<nat>, site: nat) {
    && p != [] && TrailTo(c.ops, p, p[|p| - 1]) && p[|p| - 1] < |c.ops|
    && var op, s := c.ops[p[|p| - 1]], Along(c.ops, sums, EmptyLocals(c), d, p);
      match op
      case Yield | Return => OnTop(s, Site(site))
      case CallNative(_, _, _) => AmongTop(s, Pops(op), Site(site))
      case _ => false
  }

  /** At the end of the trail it is passed where the callee's summary does not clear it, or stored to a slot that
      is not dead at the boundary of the site's scope. */
  predicate DoubtfulOn(c: Chunk, sums: Summaries, d: map<nat, nat>, p: seq<nat>, site: nat) {
    && p != [] && TrailTo(c.ops, p, p[|p| - 1]) && p[|p| - 1] < |c.ops|
    && var op, s := c.ops[p[|p| - 1]], Along(c.ops, sums, EmptyLocals(c), d, p);
      match op
      case Call(callee, argc) =>
        argc <= |s.stack| && exists i :: 0 <= i < argc && Site(site) in s.stack[|s.stack| - argc + i] && !Cleared(sums, callee, i)
      case SetLocal(slot) => OnTop(s, Site(site)) && !DeadFor(c, site, slot)
      case _ => false
  }

  /** The slot is dead at the boundary of the scope the site is judged against. */
  predicate DeadFor(c: Chunk, site: nat, slot: nat) {
    var range := ScopeRange(c.ops, ScopeOf(c.ops, site));
    BoundaryDead(c.ops, range.0, range.1, slot)
  }

  /** A site of a verified chunk escapes if and only if some trail yields, returns or hands over its region; it is
      confined if and only if none does and none passes it uncleared or stores it to a slot live at the boundary
      of its scope; otherwise nothing is established. */
  lemma VerdictExactly(c: Chunk, sums: Summaries, site: nat) returns (d: map<nat, nat>)
    requires Verified(c)
    ensures Leveled(c, d)
    ensures var v := VerdictOf(c, sums, site).finding.verdict;
      && (v == Escaped <==> exists p :: EscapesOn(c, sums, d, p, site))
      && (v == Confined <==> (forall p :: !EscapesOn(c, sums, d, p, site)) && (forall p :: !DoubtfulOn(c, sums, d, p, site)))
  {
    hide Verified, Leveled, Interpret, EscapesOn, DoubtfulOn, SaidOnTrail, ScopeOf, SiteMeaning, BoundaryDead;
    d := WalkExactly(c, sums, EmptyLocals(c));
    var log, scope := Interpret(c, EmptyLocals(c), sums).log, ScopeOf(c.ops, site);
    FindingIsWorst(c.ops, scope, site, log);
    hide FindingOf;
    EscapesSaid(c, sums, d, site);
    DoubtfulSaid(c, sums, d, site);
    var v := VerdictOf(c, sums, site).finding.verdict;
    assert v == Escaped <==> Found(c.ops, scope, site, log, 2);
    assert v == Confined <==> !Found(c.ops, scope, site, log, 1);
    FoundSaid(c, sums, d, site, log);
  }

  /** What was found is what some trail says. */
  lemma FoundSaid(c: Chunk, sums: Summaries, d: map<nat, nat>, site: nat, log: seq<Notice>)
    requires forall t, e :: Logged(log, t, e) <==> SaidOnTrail(c, sums, EmptyLocals(c), d, t, e)
    ensures Found(c.ops, ScopeOf(c.ops, site), site, log, 2) <==>
      exists e: Event :: Escaping(e) && SaidOnTrail(c, sums, EmptyLocals(c), d, Site(site), e)
    ensures Found(c.ops, ScopeOf(c.ops, site), site, log, 1) <==>
      (exists e: Event :: Escaping(e) && SaidOnTrail(c, sums, EmptyLocals(c), d, Site(site), e))
      || (exists e: Event :: Doubtful(c, site, e) && SaidOnTrail(c, sums, EmptyLocals(c), d, Site(site), e))
  {
    hide SaidOnTrail, ScopeOf, BoundaryDead, Logged;
    var scope := ScopeOf(c.ops, site);
    forall e: Event
      ensures SiteMeaning(c.ops, scope, e).Some? && Severity(SiteMeaning(c.ops, scope, e).value.verdict) >= 2 <==> Escaping(e)
      ensures SiteMeaning(c.ops, scope, e).Some? && Severity(SiteMeaning(c.ops, scope, e).value.verdict) >= 1 <==>
        Escaping(e) || Doubtful(c, site, e)
    {}
    hide SiteMeaning, Severity;
  }

  predicate Escaping(e: Event) {
    e.Yielded? || e.Returned? || e.HandedToNative?
  }

  predicate Doubtful(c: Chunk, site: nat, e: Event) {
    e.PassedToCall? || e.UnmodelledRoute? || (e.StoredToLocal? && !DeadFor(c, site, e.slot))
  }

  lemma EscapesSaid(c: Chunk, sums: Summaries, d: map<nat, nat>, site: nat)
    ensures (exists p :: EscapesOn(c, sums, d, p, site)) <==>
      exists e: Event :: Escaping(e) && SaidOnTrail(c, sums, EmptyLocals(c), d, Site(site), e)
  {
    hide Along, TrailTo;
    if p :| EscapesOn(c, sums, d, p, site) {
      var ip := p[|p| - 1];
      var op := c.ops[ip];
      var e := if op.Yield? then Yielded(ip) else if op.CallNative? then HandedToNative(ip) else Event.Returned(ip);
      assert SaidAt(c, sums, EmptyLocals(c), d, p, Site(site), e);
      assert Escaping(e) && SaidOnTrail(c, sums, EmptyLocals(c), d, Site(site), e);
    }
    if e: Event :| Escaping(e) && SaidOnTrail(c, sums, EmptyLocals(c), d, Site(site), e) {
      var p :| SaidAt(c, sums, EmptyLocals(c), d, p, Site(site), e);
      assert EscapesOn(c, sums, d, p, site);
    }
  }

  lemma DoubtfulSaid(c: Chunk, sums: Summaries, d: map<nat, nat>, site: nat)
    ensures (exists p :: DoubtfulOn(c, sums, d, p, site)) <==>
      exists e: Event :: Doubtful(c, site, e) && SaidOnTrail(c, sums, EmptyLocals(c), d, Site(site), e)
  {
    hide Along, TrailTo, DeadFor;
    if p :| DoubtfulOn(c, sums, d, p, site) {
      var ip := p[|p| - 1];
      var op := c.ops[ip];
      var e := if op.SetLocal? then StoredToLocal(ip, op.slot) else PassedToCall(ip);
      assert SaidAt(c, sums, EmptyLocals(c), d, p, Site(site), e);
      assert Doubtful(c, site, e) && SaidOnTrail(c, sums, EmptyLocals(c), d, Site(site), e);
    }
    if e: Event :| Doubtful(c, site, e) && SaidOnTrail(c, sums, EmptyLocals(c), d, Site(site), e) {
      var p :| SaidAt(c, sums, EmptyLocals(c), d, p, Site(site), e);
      assert DoubtfulOn(c, sums, d, p, site);
    }
  }

  // ----- reasons -----

  /** What a reason claims of the chunk: the instruction at its address, and what some trail brings there. */
  ghost predicate ReasonHolds(c: Chunk, sums: Summaries, d: map<nat, nat>, site: nat, f: Finding) {
    match f.reason
    case Nothing => f.verdict == Confined
    case YieldedAt(ip) => f.verdict == Escaped && Arrives(c, sums, d, site, ip) && c.ops[ip].Yield?
    case ReturnedAt(ip) => f.verdict == Escaped && Arrives(c, sums, d, site, ip) && c.ops[ip].Return?
    case NativeAt(ip) => f.verdict == Escaped && Arrives(c, sums, d, site, ip) && c.ops[ip].CallNative?
    case CalledAt(ip) => f.verdict == CannotEstablish && Arrives(c, sums, d, site, ip) && c.ops[ip].Call?
    case StoredToLiveSlot(ip, slot) =>
      f.verdict == CannotEstablish && Arrives(c, sums, d, site, ip) && c.ops[ip] == SetLocal(slot) && !DeadFor(c, site, slot)
    case UnmodelledAt(_) | NotAnalysed => false
  }

  /** Some trail brings the site's region to the instruction as something it lets go of or stores. */
  ghost predicate Arrives(c: Chunk, sums: Summaries, d: map<nat, nat>, site: nat, ip: nat) {
    ip < |c.ops| && exists p, e ::
      SaidAt(c, sums, EmptyLocals(c), d, p, Site(site), e) && p[|p| - 1] == ip
  }

  /** Nothing was reported that means anything for the site. */
  predicate Harmless(ops: seq<Op>, scope: Scope, site: nat, log: seq<Notice>) {
    forall n :: 0 <= n < |log| && Site(site) in log[n].tokens ==> SiteMeaning(ops, scope, log[n].event).None?
  }

  /** The finding is the first of the most severe meanings of what was reported. */
  lemma {:induction false} FindingIsFirst(ops: seq<Op>, scope: Scope, site: nat, log: seq<Notice>)
    ensures var f := FindingOf(ops, scope, site, log);
      if Harmless(ops, scope, site, log) then f == NO_FINDING else exists n: nat :: FirstWorst(ops, scope, site, log, n, f)
  {
    if log != [] {
      var init := log[..|log| - 1];
      FindingIsFirst(ops, scope, site, init);
      if Harmless(ops, scope, site, init) {
        FirstOne(ops, scope, site, log);
      } else {
        var n: nat :| FirstWorst(ops, scope, site, init, n, FindingOf(ops, scope, site, init));
        FirstMore(ops, scope, site, log, n);
      }
    }
  }

  lemma FirstOne(ops: seq<Op>, scope: Scope, site: nat, log: seq<Notice>)
    requires log != [] && Harmless(ops, scope, site, log[..|log| - 1])
    requires FindingOf(ops, scope, site, log[..|log| - 1]) == NO_FINDING
    ensures var f := FindingOf(ops, scope, site, log);
      if Harmless(ops, scope, site, log) then f == NO_FINDING else exists n: nat :: FirstWorst(ops, scope, site, log, n, f)
  {
    MeaningIsSevere(ops, scope);
    LastFound(ops, scope, site, log);
    hide SiteMeaning, FindingOf, Harmless;
    var init, k, f := log[..|log| - 1], |log| - 1, FindingOf(ops, scope, site, log);
    HarmlessInit(ops, scope, site, log);
    if Site(site) in log[k].tokens && SiteMeaning(ops, scope, log[k].event).Some? {
      assert FirstWorst(ops, scope, site, log, k, f);
    }
  }

  lemma LastFound(ops: seq<Op>, scope: Scope, site: nat, log: seq<Notice>)
    requires log != []
    ensures var before, last := FindingOf(ops, scope, site, log[..|log| - 1]), log[|log| - 1];
      var meaning := SiteMeaning(ops, scope, last.event);
      FindingOf(ops, scope, site, log) ==
        if Site(site) in last.tokens && meaning.Some? && Severity(meaning.value.verdict) > Severity(before.verdict) then meaning.value
        else before
  {
    hide SiteMeaning;
  }

  lemma HarmlessInit(ops: seq<Op>, scope: Scope, site: nat, log: seq<Notice>)
    requires log != [] && Harmless(ops, scope, site, log[..|log| - 1])
    ensures var last := log[|log| - 1];
      Harmless(ops, scope, site, log) <==> (Site(site) in last.tokens ==> SiteMeaning(ops, scope, last.event).None?)
    ensures forall j :: 0 <= j < |log| - 1 && Site(site) in log[j].tokens ==> SiteMeaning(ops, scope, log[j].event).None?
  {
    hide SiteMeaning;
    assert forall n :: 0 <= n < |log| - 1 ==> log[n] == log[..|log| - 1][n];
  }

  lemma FirstMore(ops: seq<Op>, scope: Scope, site: nat, log: seq<Notice>, n: nat)
    requires log != [] && FirstWorst(ops, scope, site, log[..|log| - 1], n, FindingOf(ops, scope, site, log[..|log| - 1]))
    ensures !Harmless(ops, scope, site, log)
    ensures exists n: nat :: FirstWorst(ops, scope, site, log, n, FindingOf(ops, scope, site, log))
  {
    LastFound(ops, scope, site, log);
    hide SiteMeaning, FindingOf;
    var init, k := log[..|log| - 1], |log| - 1;
    var before, f := FindingOf(ops, scope, site, init), FindingOf(ops, scope, site, log);
    assert forall j :: 0 <= j < k ==> log[j] == init[j];
    assert Site(site) in log[n].tokens && SiteMeaning(ops, scope, log[n].event) == Some(before);
    if f == before && !(Site(site) in log[k].tokens && SiteMeaning(ops, scope, log[k].event).Some?
                        && Severity(SiteMeaning(ops, scope, log[k].event).value.verdict) > Severity(before.verdict)) {
      assert FirstWorst(ops, scope, site, log, n, f);
    } else {
      assert FirstWorst(ops, scope, site, log, k, f);
    }
  }

  /** Notice `n` means `f`; earlier ones mean less, later ones no more. */
  predicate FirstWorst(ops: seq<Op>, scope: Scope, site: nat, log: seq<Notice>, n: nat, f: Finding) {
    && n < |log| && Site(site) in log[n].tokens && SiteMeaning(ops, scope, log[n].event) == Some(f)
    && (forall j :: 0 <= j < |log| && Site(site) in log[j].tokens && SiteMeaning(ops, scope, log[j].event).Some? ==>
          var s := Severity(SiteMeaning(ops, scope, log[j].event).value.verdict);
          if j < n then s < Severity(f.verdict) else s <= Severity(f.verdict))
  }

  /** The reason given with a verdict names an instruction of its kind that some trail brings the region to. */
  lemma ReasonExactly(c: Chunk, sums: Summaries, site: nat) returns (d: map<nat, nat>)
    requires Verified(c)
    ensures Leveled(c, d) && ReasonHolds(c, sums, d, site, VerdictOf(c, sums, site).finding)
  {
    hide Verified, Leveled, Interpret, SaidOnTrail, ScopeOf, SiteMeaning, FindingOf, FirstWorst, Harmless, ReasonHolds;
    d := WalkExactly(c, sums, EmptyLocals(c));
    var log, scope, f := Interpret(c, EmptyLocals(c), sums).log, ScopeOf(c.ops, site), VerdictOf(c, sums, site).finding;
    FindingIsFirst(c.ops, scope, site, log);
    if !Harmless(c.ops, scope, site, log) {
      var n: nat :| FirstWorst(c.ops, scope, site, log, n, f);
      WorstLogged(c.ops, scope, site, log, n, f);
      MeaningHolds(c, sums, d, site, log[n].event, f);
    } else {
      NothingHolds(c, sums, d, site);
    }
  }

  lemma NothingHolds(c: Chunk, sums: Summaries, d: map<nat, nat>, site: nat)
    ensures ReasonHolds(c, sums, d, site, NO_FINDING)
  {}

  lemma WorstLogged(ops: seq<Op>, scope: Scope, site: nat, log: seq<Notice>, n: nat, f: Finding)
    requires FirstWorst(ops, scope, site, log, n, f)
    ensures n < |log| && SiteMeaning(ops, scope, log[n].event) == Some(f) && Logged(log, Site(site), log[n].event)
  {
    hide SiteMeaning;
  }

  lemma MeaningHolds(c: Chunk, sums: Summaries, d: map<nat, nat>, site: nat, e: Event, f: Finding)
    requires SiteMeaning(c.ops, ScopeOf(c.ops, site), e) == Some(f)
    requires SaidOnTrail(c, sums, EmptyLocals(c), d, Site(site), e)
    ensures ReasonHolds(c, sums, d, site, f)
  {
    hide Along, TrailTo, ScopeOf, BoundaryDead;
    var p :| SaidAt(c, sums, EmptyLocals(c), d, p, Site(site), e);
    assert Arrives(c, sums, d, site, p[|p| - 1]);
  }

  // ----- which reason is given -----

  predicate LoopFree(b: Block) {
    match b
    case End => true
    case Step(_, _, rest) => LoopFree(rest)
    case Branch(_, _, _, first, second, rest) => LoopFree(first) && LoopFree(second) && LoopFree(rest)
    case Cycle(_, _, _, _) => false
  }

  /** Notices come in address order, all of them of `[lo, hi)`. */
  predicate InOrder(log: seq<Notice>, lo: nat, hi: nat) {
    && (forall i :: 0 <= i < |log| ==> lo <= log[i].event.ip < hi)
    && forall i, j :: 0 <= i < j < |log| ==> log[i].event.ip <= log[j].event.ip
  }

  lemma OneBehind(a: seq<Notice>, b: seq<Notice>, lo: nat, mid: nat, from: nat, hi: nat)
    requires InOrder(a, lo, mid) && InOrder(b, from, hi) && lo <= mid <= from <= hi
    ensures InOrder(a + b, lo, hi)
  {
    var log := a + b;
    forall i, j | 0 <= i < j < |log|
      ensures log[i].event.ip <= log[j].event.ip
    {
      if i < |a| <= j {
        assert log[i] == a[i] && log[j] == b[j - |a|];
      }
    }
  }

  lemma OwnAddress(sums: Summaries, ip: nat, op: Op, s: State)
    requires Apply(sums, ip, op, s).Applied?
    ensures InOrder(Apply(sums, ip, op, s).log, ip, ip + 1)
  {}

  lemma Narrower(log: seq<Notice>, lo: nat, mid: nat, hi: nat)
    requires InOrder(log, lo, mid) && mid <= hi
    ensures InOrder(log, lo, hi)
  {}

  /** Where no loop is, the walk reports in address order: the first arm of a branch before the second. */
  lemma {:induction false} WalkInOrder(size: nat, sums: Summaries, ops: seq<Op>, lo: nat, hi: nat, b: Block, s: State)
    requires Laid(ops, lo, hi, b) && LoopFree(b) && Walk(size, sums, b, s).Walked?
    ensures lo <= hi && InOrder(Walk(size, sums, b, s).log, lo, hi)
    decreases b
  {
    LaidOpen(ops, lo, hi, b);
    hide Laid, Apply, InOrder, Join;
    match b
    case End => Silent(lo, hi);
    case Step(ip, op, rest) => StepInOrder(size, sums, ops, lo, hi, b, s);
    case Branch(_, _, _, _, _, _) => BranchInOrder(size, sums, ops, lo, hi, b, s);
  }

  lemma {:induction false} BranchInOrder(size: nat, sums: Summaries, ops: seq<Op>, lo: nat, hi: nat, b: Block, s: State)
    requires b.Branch? && LaidParts(ops, lo, hi, b) && LoopFree(b) && Walk(size, sums, b, s).Walked?
    ensures InOrder(Walk(size, sums, b, s).log, lo, hi)
    decreases b, 0
  {
    hide Laid, Apply, InOrder, Join;
    var a, r := b.arms, Apply(sums, b.ip, If(b.target), s);
    OwnAddress(sums, b.ip, If(b.target), s);
    var x, y := Walk(size, sums, b.first, r.state), Walk(size, sums, b.second, r.state);
    WalkInOrder(size, sums, ops, lo + 1, a.thenEnd, b.first, r.state);
    WalkInOrder(size, sums, ops, a.elseStart, a.endIf, b.second, r.state);
    OneBehind(r.log, x.log, lo, lo + 1, lo + 1, a.thenEnd);
    OneBehind(r.log + x.log, y.log, lo, a.thenEnd, a.elseStart, a.endIf);
    var m := Meet(r.log, x, y);
    Narrower(m.log, lo, a.endIf, hi);
    if m.fall.Some? {
      WalkInOrder(size, sums, ops, a.endIf + 1, hi, b.rest, m.fall.value);
      OneBehind(m.log, Walk(size, sums, b.rest, m.fall.value).log, lo, a.endIf, a.endIf + 1, hi);
    }
  }

  lemma Silent(lo: nat, hi: nat)
    ensures InOrder([], lo, hi)
  {}

  lemma {:induction false} StepInOrder(size: nat, sums: Summaries, ops: seq<Op>, lo: nat, hi: nat, b: Block, s: State)
    requires b.Step? && LaidParts(ops, lo, hi, b) && LoopFree(b) && Walk(size, sums, b, s).Walked?
    ensures InOrder(Walk(size, sums, b, s).log, lo, hi)
    decreases b, 0
  {
    hide Laid, Apply;
    if b.op.Trap? || b.op.Return? || b.op.Break? {
      Silent(lo, hi);
    } else {
      hide InOrder;
      var r := Apply(sums, lo, b.op, s);
      OwnAddress(sums, lo, b.op, s);
      WalkInOrder(size, sums, ops, lo + 1, hi, b.rest, r.state);
      OneBehind(r.log, Walk(size, sums, b.rest, r.state).log, lo, lo + 1, lo + 1, hi);
    }
  }

  /** An event reported of the site that means `f`, at the lowest address among those as severe. */
  predicate LowestWorst(ops: seq<Op>, scope: Scope, site: nat, log: seq<Notice>, e: Event, f: Finding) {
    && Logged(log, Site(site), e) && SiteMeaning(ops, scope, e) == Some(f)
    && forall k :: 0 <= k < |log| && Site(site) in log[k].tokens ==> MeansNoMore(ops, scope, log[k].event, e, f)
  }

  predicate MeansNoMore(ops: seq<Op>, scope: Scope, other: Event, e: Event, f: Finding) {
    var m := SiteMeaning(ops, scope, other);
    m.Some? ==> Severity(m.value.verdict) < Severity(f.verdict) || (Severity(m.value.verdict) == Severity(f.verdict) && e.ip <= other.ip)
  }

  /** Where no loop is, the reason given is the one at the lowest address among the most severe. */
  lemma ReasonIsLowest(c: Chunk, sums: Summaries, site: nat)
    requires Verified(c) && forall k :: 0 <= k < |c.ops| ==> !c.ops[k].Loop?
    requires Interpret(c, EmptyLocals(c), sums).Walked?
    ensures var f, log := VerdictOf(c, sums, site).finding, Interpret(c, EmptyLocals(c), sums).log;
      f == NO_FINDING || exists e :: LowestWorst(c.ops, ScopeOf(c.ops, site), site, log, e, f)
  {
    var b := BlockOf(c.ops, 0, |c.ops|).value;
    var log, scope, f := Interpret(c, EmptyLocals(c), sums).log, ScopeOf(c.ops, site), VerdictOf(c, sums, site).finding;
    BlockOfLaid(c.ops);
    NoLoops(c.ops, 0, |c.ops|, b);
    WalkInOrder(|c.ops|, sums, c.ops, 0, |c.ops|, b, State([], EmptyLocals(c)));
    hide Interpret, Verified, ScopeOf, SiteMeaning, FindingOf, FirstWorst, Harmless, InOrder, LowestWorst, Laid, LoopFree;
    FindingIsFirst(c.ops, scope, site, log);
    if !Harmless(c.ops, scope, site, log) {
      var n: nat :| FirstWorst(c.ops, scope, site, log, n, f);
      FirstIsLowest(c.ops, scope, site, log, n, f);
    }
  }

  lemma BlockOfLaid(ops: seq<Op>)
    requires BlockOf(ops, 0, |ops|).Some?
    ensures Laid(ops, 0, |ops|, BlockOf(ops, 0, |ops|).value)
  {}

  lemma {:induction false} NoLoops(ops: seq<Op>, lo: nat, hi: nat, b: Block)
    requires Laid(ops, lo, hi, b) && forall k :: 0 <= k < |ops| ==> !ops[k].Loop?
    ensures LoopFree(b)
    decreases b
  {
    LaidOpen(ops, lo, hi, b);
    hide Laid;
    match b
    case End =>
    case Step(_, _, rest) => NoLoops(ops, lo + 1, hi, rest);
    case Branch(_, _, a, first, second, rest) =>
      NoLoops(ops, lo + 1, a.thenEnd, first);
      NoLoops(ops, a.elseStart, a.endIf, second);
      NoLoops(ops, a.endIf + 1, hi, rest);
    case Cycle(_, _, _, _) =>
      assert false;
  }

  lemma FirstIsLowest(ops: seq<Op>, scope: Scope, site: nat, log: seq<Notice>, n: nat, f: Finding)
    requires FirstWorst(ops, scope, site, log, n, f) && InOrder(log, 0, |ops|)
    ensures exists e :: LowestWorst(ops, scope, site, log, e, f)
  {
    hide SiteMeaning;
    assert LowestWorst(ops, scope, site, log, log[n].event, f);
  }

  /** A site is reported as not analysed if and only if the walk derailed, and then as not established. */
  lemma NotAnalysedExactly(c: Chunk, sums: Summaries, site: nat)
    ensures var f := VerdictOf(c, sums, site).finding;
      && (f.reason == NotAnalysed <==> Interpret(c, EmptyLocals(c), sums).Derailed?)
      && (f.reason == NotAnalysed ==> f.verdict == CannotEstablish)
  {
    var r, scope := Interpret(c, EmptyLocals(c), sums), ScopeOf(c.ops, site);
    hide Interpret, ScopeOf, BoundaryDead;
    if r.Walked? {
      FindingIsFirst(c.ops, scope, site, r.log);
      hide FindingOf;
    }
  }
}
