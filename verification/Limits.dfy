/** Where the analysis falls short of its promise on chunks structural verification admits:
    regions that get out although their site is reported confined, one way after the other, and what
    separates these chunks from the ones the guarantees cover. */
module Limits {
  import opened Options
  import opened Bytecode
  import opened Confine
  import opened ConfineShape
  import opened ConfineTotal
  import opened Guard
  import opened Verdict
  import opened Machine
  import opened Cover
  import opened Tracking
  import opened Dispatch
  import opened Lines

  // ----- when the transfer function accounts for an instruction -----

  /** The transfer function accounts for a type test in every execution the state allows if and only if
      the operand tested aliases nothing. */
  lemma PeekCoveredExactly(sums: Summaries, ip: nat, op: Op, s: State)
    requires (op.IsEnum? || op.IsStruct?) && Pops(op) <= |s.stack|
    ensures (forall c: Scene :: Allowed(c, ip, op, s) ==> Accounted(sums, ip, op, s, c)) <==> Taken(op, s.stack)[0] == {}
  {
    hide Allowed, Accounted;
    ClearExactly(sums, ip, op, s);
  }

  /** For a new composite: if and only if it is a flat struct or enum, or its children alias nothing but
      its own site. */
  lemma CompositeCoveredExactly(sums: Summaries, ip: nat, op: Op, s: State)
    requires op.NewComposite? && Pops(op) <= |s.stack|
    ensures (forall c: Scene :: Allowed(c, ip, op, s) ==> Accounted(sums, ip, op, s, c))
      <==> op.form.FlatForm? || Union(Taken(op, s.stack)) <= {Site(ip)}
  {
    hide Allowed, Accounted;
    ClearExactly(sums, ip, op, s);
  }

  /** For a store to a data slot: if and only if the slot is given a copy, or the value stored aliases
      nothing. */
  lemma StoreCoveredExactly(sums: Summaries, ip: nat, op: Op, s: State)
    requires (op.SetData? || op.SetDataIndexed?) && Pops(op) <= |s.stack|
    ensures (forall c: Scene :: Allowed(c, ip, op, s) ==> Accounted(sums, ip, op, s, c))
      <==> !op.keeps || Taken(op, s.stack)[0] == {}
  {
    hide Allowed, Accounted;
    ClearExactly(sums, ip, op, s);
  }

  /** What a return hands over is covered by what is reported there, in every frame the state allows and
      whatever lies below it, if and only if there is an operand, or a last local that aliases nothing. */
  lemma ReturnCoveredExactly(ip: nat, s: State)
    ensures (forall f: Frame, below: seq<Value>, tags: Tags :: Stands(f, s, tags) ==>
              (GivenUp(f, below).Some? ==> Meets(GivenUp(f, below).value, ReturnNotice(ip, s).tokens, tags)))
      <==> s.stack != [] || (s.locals != [] && s.locals[|s.locals| - 1] == {})
  {
    hide Stands, GivenUp, ReturnNotice;
    ReturnClearExactly(ip, s);
  }

  // ----- the peeked operand that gets out -----

  const PEEK_OPS := [Const(0), NewComposite(FlatForm(8), 1), IsEnum, PopN(1), Yield, Return]
  const PEEK := Chunk(PEEK_OPS, 0, 0)
  const BUILT_FIRST := [Origin(0, 0, 1)]
  const PEEK_RUN := [
    INITIAL, Solo(0, [], [], {}, []), Solo(1, [], [{}], {}, []), Solo(2, [], [{0}], {}, BUILT_FIRST),
    Solo(3, [], [{0}, {}], {}, BUILT_FIRST), Solo(4, [], [{0}], {}, BUILT_FIRST), Solo(5, [], [{}], {0}, BUILT_FIRST)]

  lemma PeekRuns()
    ensures IsRun([PEEK], PEEK_RUN)
  {
    hide Next, StepTo;
    SoloEnters([PEEK]);
    assert Machine.Blank(0) == [];
    var none: seq<Value>, built: seq<Origin>, first: Value, nothing: Value := [], [], {0}, {};
    assert none + [first] == [first] && built + BUILT_FIRST == BUILT_FIRST && none + [first, nothing] == [first, nothing];
    assert [first] + none == [first] && [first] + [nothing] == [first, nothing] && none + [nothing] == [nothing] && nothing + first == first;
    SoloPush([PEEK], 0, [], [], {}, {}, []);
    SoloNew([PEEK], 1, 8, [], [], {}, {}, []);
    SoloOn([PEEK], 2, [], [], {0}, {}, BUILT_FIRST, [{0}, {}]);
    SoloOn([PEEK], 3, [], [{0}], {}, {}, BUILT_FIRST, []);
    SoloOn([PEEK], 4, [], [], {0}, {}, BUILT_FIRST, [{}]);
  }

  lemma PeekWalks()
    ensures Ended(PEEK, 0, 0, State([], []), PEEK_LOG)
  {
    hide Ended;
    var none: seq<Alias>, x: Alias, e: Alias := [], {Site(1)}, {};
    assert none + [x] == [x] && none + [e] == [e] && none + [e, e] == [e] + [e];
    LineReturn(PEEK, 5, 1, State([e], []));
    StepYield(PEEK, 4, none, e, [], 0, [ReturnNotice(5, State([e], []))]);
    StepDrop(PEEK, 3, [e], e, [], 1, PEEK_LOG);
    StepPeek(PEEK, 2, none, x, [], 0, PEEK_LOG);
    StepNew(PEEK, 1, 8, none, e, [], 0, PEEK_LOG);
    StepPush(PEEK, 0, State([], []), 0, PEEK_LOG);
  }

  const PEEK_LOG := [Notice({}, Yielded(4))] + [ReturnNotice(5, State([{}], []))]

  /** The region of site 1 is yielded while its alias set was wiped by the type test: verified and
      reported confined, it reaches the host. */
  lemma PeekEscapes()
    ensures Verified(PEEK) && VerdictOf(PEEK, NO_SUMMARIES, 1).finding.verdict == Confined
    ensures IsRun([PEEK], PEEK_RUN) && 0 in PEEK_RUN[6].host && PEEK_RUN[6].regions[0] == Origin(0, 0, 1)
  {
    PeekRuns();
    hide Ended, Interpret, VerdictOf, SiteMeaning, ScopeOf, Verified, BlockOf, Line, Depth, BreaksLeave, IsRun;
    PeekWalks();
    assert EmptyLocals(PEEK) == [];
    LineBlock(PEEK_OPS);
    LineAnswer(PEEK, PEEK_LOG);
    LineVerified(PEEK);
    SilentConfined(PEEK, 1, PEEK_LOG);
  }

  /** A site no harmful event mentions is confined. */
  lemma SilentConfined(c: Chunk, site: nat, log: seq<Notice>)
    requires Interpret(c, EmptyLocals(c), NO_SUMMARIES) == Walked(None, [], log)
    requires forall n :: n in log && Site(site) in n.tokens ==> SiteMeaning(c.ops, ScopeOf(c.ops, site), n.event).None?
    ensures VerdictOf(c, NO_SUMMARIES, site).finding.verdict == Confined
  {
    ConfinedMeans(c, NO_SUMMARIES, site);
  }

  // ----- a boxed composite keeps its children -----

  const BOX_OPS := [Const(0), NewComposite(FlatForm(8), 1), NewComposite(BoxedForm(0), 1), Yield, Return]
  const BOX := Chunk(BOX_OPS, 0, 0)
  const BUILT_BOTH := BUILT_FIRST + [Origin(0, 0, 2)]
  const BOX_RUN := [
    INITIAL, Solo(0, [], [], {}, []), Solo(1, [], [{}], {}, []), Solo(2, [], [{0}], {}, BUILT_FIRST),
    Solo(3, [], [{0, 1}], {}, BUILT_BOTH), Solo(4, [], [{}], {0, 1}, BUILT_BOTH)]
  const BOX_LOG := [Notice({Site(2)}, Yielded(3))] + [ReturnNotice(4, State([{}], []))]

  lemma BoxRuns()
    ensures IsRun([BOX], BOX_RUN)
  {
    hide Next, StepTo;
    SoloEnters([BOX]);
    assert Machine.Blank(0) == [];
    var none: seq<Value>, built: seq<Origin>, first: Value, both: Value, nothing: Value := [], [], {0}, {0, 1}, {};
    assert none + [first] == [first] && built + BUILT_FIRST == BUILT_FIRST && none + [both] == [both];
    assert none + [nothing] == [nothing] && {1} + first == both && nothing + both == both;
    SoloPush([BOX], 0, [], [], {}, {}, []);
    SoloNew([BOX], 1, 8, [], [], {}, {}, []);
    SoloBox([BOX], 2, 0, [], [], {0}, {}, BUILT_FIRST);
    SoloOn([BOX], 3, [], [], {0, 1}, {}, BUILT_BOTH, [{}]);
  }

  lemma BoxWalks()
    ensures Ended(BOX, 0, 0, State([], []), BOX_LOG)
  {
    hide Ended;
    var none: seq<Alias>, x: Alias, e: Alias := [], {Site(1)}, {};
    var y: Alias := {Site(2)};
    assert none + [x] == [x] && none + [e] == [e] && none + [y] == [y];
    LineReturn(BOX, 4, 1, State([e], []));
    StepYield(BOX, 3, none, y, [], 0, [ReturnNotice(4, State([e], []))]);
    StepBox(BOX, 2, 0, none, x, [], 0, BOX_LOG);
    StepNew(BOX, 1, 8, none, e, [], 0, BOX_LOG);
    StepPush(BOX, 0, State([], []), 0, BOX_LOG);
  }

  /** The region of site 1 leaves inside a yielded box: reported confined, it reaches the host. */
  lemma BoxEscapes()
    ensures Verified(BOX) && VerdictOf(BOX, NO_SUMMARIES, 1).finding.verdict == Confined
    ensures IsRun([BOX], BOX_RUN) && 0 in BOX_RUN[5].host && BOX_RUN[5].regions[0] == Origin(0, 0, 1)
  {
    BoxRuns();
    hide Ended, Interpret, VerdictOf, SiteMeaning, ScopeOf, Verified, BlockOf, Line, Depth, BreaksLeave, IsRun;
    BoxWalks();
    assert EmptyLocals(BOX) == [];
    LineBlock(BOX_OPS);
    LineAnswer(BOX, BOX_LOG);
    LineVerified(BOX);
    SilentConfined(BOX, 1, BOX_LOG);
  }

  // ----- a tuple whose elements do not pack keeps them -----

  /** The first element is a flat struct, the second is nothing, which does not pack. */
  const LOOSE_OPS := [
    Const(0), NewComposite(FlatForm(8), 1), PushImmediate(3), NewComposite(LooseForm(16), 2), Yield, Return]
  const LOOSE := Chunk(LOOSE_OPS, 0, 0)
  const BUILT_PAIR := BUILT_FIRST + [Origin(0, 0, 3)]
  const LOOSE_RUN := [
    INITIAL, Solo(0, [], [], {}, []), Solo(1, [], [{}], {}, []), Solo(2, [], [{0}], {}, BUILT_FIRST),
    Solo(3, [], [{0}, {}], {}, BUILT_FIRST), Solo(4, [], [{0, 1}], {}, BUILT_PAIR), Solo(5, [], [{}], {0, 1}, BUILT_PAIR)]
  const LOOSE_LOG := [Notice({Site(3)}, Yielded(4))] + [ReturnNotice(5, State([{}], []))]

  lemma LooseRuns()
    ensures IsRun([LOOSE], LOOSE_RUN)
  {
    hide Next, StepTo;
    SoloEnters([LOOSE]);
    assert Machine.Blank(0) == [];
    var none: seq<Value>, built: seq<Origin>, first: Value, both: Value, nothing: Value := [], [], {0}, {0, 1}, {};
    assert none + [first] == [first] && built + BUILT_FIRST == BUILT_FIRST && none + [both] == [both];
    assert none + [nothing] == [nothing] && [first] + [nothing] == [first, nothing] && none + [first, nothing] == [first, nothing];
    assert {1} + (first + nothing) == both && nothing + both == both;
    SoloPush([LOOSE], 0, [], [], {}, {}, []);
    SoloNew([LOOSE], 1, 8, [], [], {}, {}, []);
    SoloPush([LOOSE], 2, [], [{0}], {}, {}, BUILT_FIRST);
    SoloKeep([LOOSE], 3, 16, [], [], {0}, {}, {}, BUILT_FIRST);
    SoloOn([LOOSE], 4, [], [], {0, 1}, {}, BUILT_PAIR, [{}]);
  }

  lemma LooseWalks()
    ensures Ended(LOOSE, 0, 0, State([], []), LOOSE_LOG)
  {
    hide Ended;
    var none: seq<Alias>, x: Alias, e: Alias := [], {Site(1)}, {};
    var y: Alias := {Site(3)};
    assert none + [x] == [x] && none + [e] == [e] && none + [y] == [y] && none + [x, e] == [x] + [e];
    LineReturn(LOOSE, 5, 1, State([e], []));
    StepYield(LOOSE, 4, none, y, [], 0, [ReturnNotice(5, State([e], []))]);
    StepKeep(LOOSE, 3, 16, none, x, e, [], 0, LOOSE_LOG);
    StepPush(LOOSE, 2, State([x], []), 1, LOOSE_LOG);
    StepNew(LOOSE, 1, 8, none, e, [], 0, LOOSE_LOG);
    StepPush(LOOSE, 0, State([], []), 0, LOOSE_LOG);
  }

  /** The region of site 1 leaves inside a tuple that was to be flat: reported confined, it reaches the
      host. */
  lemma LooseEscapes()
    ensures Verified(LOOSE) && VerdictOf(LOOSE, NO_SUMMARIES, 1).finding.verdict == Confined
    ensures IsRun([LOOSE], LOOSE_RUN) && 0 in LOOSE_RUN[6].host && LOOSE_RUN[6].regions[0] == Origin(0, 0, 1)
  {
    LooseRuns();
    hide Ended, Interpret, VerdictOf, SiteMeaning, ScopeOf, Verified, BlockOf, Line, Depth, BreaksLeave, IsRun;
    LooseWalks();
    assert EmptyLocals(LOOSE) == [];
    LineBlock(LOOSE_OPS);
    LineAnswer(LOOSE, LOOSE_LOG);
    LineVerified(LOOSE);
    SilentConfined(LOOSE, 1, LOOSE_LOG);
  }

  // ----- a data slot that keeps the value itself -----

  const KEPT_OPS := [Const(0), NewComposite(FlatForm(8), 1), SetData(0, true), Const(1), Return]
  const KEPT := Chunk(KEPT_OPS, 0, 0)
  const KEPT_RUN := [
    INITIAL, Solo(0, [], [], {}, []), Solo(1, [], [{}], {}, []), Solo(2, [], [{0}], {}, BUILT_FIRST),
    Solo(3, [], [], {0}, BUILT_FIRST)]
  const KEPT_LOG := [ReturnNotice(4, State([{}], []))]

  lemma KeptRuns()
    ensures IsRun([KEPT], KEPT_RUN)
  {
    hide Next, StepTo;
    SoloEnters([KEPT]);
    assert Machine.Blank(0) == [];
    var none: seq<Value>, built: seq<Origin>, first: Value, nothing: Value := [], [], {0}, {};
    assert none + [first] == [first] && built + BUILT_FIRST == BUILT_FIRST && none + [nothing] == [nothing] && nothing + first == first;
    SoloPush([KEPT], 0, [], [], {}, {}, []);
    SoloNew([KEPT], 1, 8, [], [], {}, {}, []);
    SoloData([KEPT], 2, 0, [], [], {0}, {}, BUILT_FIRST);
  }

  lemma KeptWalks()
    ensures Ended(KEPT, 0, 0, State([], []), KEPT_LOG)
  {
    hide Ended;
    var none: seq<Alias>, x: Alias, e: Alias := [], {Site(1)}, {};
    assert none + [x] == [x] && none + [e] == [e];
    LineReturn(KEPT, 4, 1, State([e], []));
    StepPush(KEPT, 3, State([], []), 0, KEPT_LOG);
    StepData(KEPT, 2, 0, none, x, [], 0, KEPT_LOG);
    StepNew(KEPT, 1, 8, none, e, [], 0, KEPT_LOG);
    StepPush(KEPT, 0, State([], []), 0, KEPT_LOG);
  }

  /** The region of site 1 stays in a data slot: reported confined, it is there for whoever reads the
      slot. */
  lemma KeptEscapes()
    ensures Verified(KEPT) && VerdictOf(KEPT, NO_SUMMARIES, 1).finding.verdict == Confined
    ensures IsRun([KEPT], KEPT_RUN) && 0 in KEPT_RUN[4].host && KEPT_RUN[4].regions[0] == Origin(0, 0, 1)
  {
    KeptRuns();
    hide Ended, Interpret, VerdictOf, SiteMeaning, ScopeOf, Verified, BlockOf, Line, Depth, BreaksLeave, IsRun;
    KeptWalks();
    assert EmptyLocals(KEPT) == [];
    LineBlock(KEPT_OPS);
    LineAnswer(KEPT, KEPT_LOG);
    LineVerified(KEPT);
    SilentConfined(KEPT, 1, KEPT_LOG);
  }

  // ----- a return without an operand hands over the last local -----

  const LAST_OPS := [Const(0), NewComposite(FlatForm(8), 1), SetLocal(0), Return]
  const LAST := Chunk(LAST_OPS, 1, 0)
  const LAST_RUN := [
    INITIAL, Solo(0, [{}], [], {}, []), Solo(1, [{}], [{}], {}, []), Solo(2, [{}], [{0}], {}, BUILT_FIRST),
    Solo(3, [{0}], [], {}, BUILT_FIRST), Vm([], {0}, BUILT_FIRST, 1)]
  const LAST_LOG := [Notice({Site(1)}, StoredToLocal(2, 0))] + [ReturnNotice(3, State([], [{Site(1)}]))]

  lemma LastRuns()
    ensures IsRun([LAST], LAST_RUN)
  {
    LastReturns();
    hide Next, StepTo;
    SoloEnters([LAST]);
    var none: seq<Value>, built: seq<Origin>, first: Value, nothing: Value := [], [], {0}, {};
    assert Machine.Blank(1) == [nothing];
    assert none + [first] == [first] && built + BUILT_FIRST == BUILT_FIRST && [nothing][0 := first] == [first];
    assert none + [nothing] == [nothing];
    SoloPush([LAST], 0, [{}], [], {}, {}, []);
    SoloNew([LAST], 1, 8, [{}], [], {}, {}, []);
    SoloStore([LAST], 2, 0, [{}], [], {0}, {}, BUILT_FIRST);
  }

  lemma LastReturns()
    ensures StepTo([LAST], LAST_RUN[4], LAST_RUN[5])
  {
    var v: Vm := LAST_RUN[4];
    assert v.host + {0} == {0};
    assert ReturnStep(v, v.frames[0]) == Some(LAST_RUN[5]);
    assert Next([LAST], v, Proceed(true, [])) == Some(LAST_RUN[5]);
  }

  lemma LastWalks()
    ensures Ended(LAST, 0, 0, State([], [{}]), LAST_LOG)
  {
    hide Ended;
    var none: seq<Alias>, x: Alias, e: Alias := [], {Site(1)}, {};
    assert none + [x] == [x] && none + [e] == [e] && [e][0 := x] == [x];
    LineReturn(LAST, 3, 0, State([], [x]));
    StepStore(LAST, 2, 0, none, x, [e], 0, [ReturnNotice(3, State([], [x]))]);
    StepNew(LAST, 1, 8, none, e, [e], 0, LAST_LOG);
    StepPush(LAST, 0, State([], [e]), 0, LAST_LOG);
  }

  /** Slot 0 is never read. */
  lemma LastDead()
    ensures SiteMeaning(LAST_OPS, ScopeOf(LAST_OPS, 1), StoredToLocal(2, 0)).None?
  {
    LastRead();
    hide BlockOf, ReadsBeforeWrite, EnclosingUpTo;
    assert forall i :: 0 <= i < 4 ==> !LAST_OPS[i].Loop?;
    assert EnclosingUpTo(LAST_OPS, 4, 1).None?;
  }

  lemma LastRead()
    ensures BlockOf(LAST_OPS, 0, 4) == Some(Line(LAST_OPS, 0)) && !ReadsBeforeWrite(Line(LAST_OPS, 0), 0, false).bad
  {
    hide BlockOf, Laid;
    LineBlock(LAST_OPS);
    assert Line(LAST_OPS, 2) == Step(2, SetLocal(0), Line(LAST_OPS, 3));
    assert !ReadsBeforeWrite(Line(LAST_OPS, 3), 0, true).bad;
    assert !ReadsBeforeWrite(Line(LAST_OPS, 1), 0, false).bad;
  }

  /** The region of site 1 sits in the last local when the chunk returns without an operand: reported
      confined, it reaches the host. */
  lemma LastEscapes()
    ensures Verified(LAST) && VerdictOf(LAST, NO_SUMMARIES, 1).finding.verdict == Confined
    ensures IsRun([LAST], LAST_RUN) && 0 in LAST_RUN[5].host && LAST_RUN[5].regions[0] == Origin(0, 0, 1)
  {
    LastRuns();
    LastDead();
    hide Ended, Interpret, VerdictOf, SiteMeaning, ScopeOf, Verified, BlockOf, Line, Depth, BreaksLeave, IsRun;
    LastWalks();
    assert EmptyLocals(LAST) == [{}];
    LineBlock(LAST_OPS);
    LineAnswer(LAST, LAST_LOG);
    LineVerified(LAST);
    SilentConfined(LAST, 1, LAST_LOG);
  }

  // ----- a return with nothing of its own hands over what is the caller's -----

  /** The callee of `CALLER`: no slot, no operand. */
  const BARE := Chunk([Return], 0, 0)
  const CALLER_OPS := [Const(0), NewComposite(FlatForm(8), 1), Call(1, 0), Yield, Return]
  const CALLER := Chunk(CALLER_OPS, 0, 0)
  const PAIR := [CALLER, BARE]
  const CALLER_RUN := [
    INITIAL, Solo(0, [], [], {}, []), Solo(1, [], [{}], {}, []), Solo(2, [], [{0}], {}, BUILT_FIRST),
    Vm([Frame(0, 0, 2, [], [{0}], [], {}), Frame(1, 1, 0, [], [], [], {})], {}, BUILT_FIRST, 2),
    Vm([Frame(0, 0, 3, [], [{0}], [], {})], {}, BUILT_FIRST, 2), Vm([Frame(0, 0, 4, [], [{}], [], {})], {0}, BUILT_FIRST, 2)]
  const CALLER_LOG := [Notice({}, Yielded(3))] + [ReturnNotice(4, State([{Site(1)}] + [{}], []))]

  lemma CallerRuns()
    ensures IsRun(PAIR, CALLER_RUN)
  {
    CallerCalls();
    hide Next, StepTo;
    assert {} + {0} == {0};
    BareReturns(PAIR, CALLER_RUN[4], {0});
    SoleYields(PAIR, CALLER_RUN[5], {0});
    SoloEnters(PAIR);
    assert Machine.Blank(0) == [];
    var none: seq<Value>, built: seq<Origin>, first: Value, nothing: Value := [], [], {0}, {};
    assert none + [first] == [first] && built + BUILT_FIRST == BUILT_FIRST && none + [nothing] == [nothing];
    SoloPush(PAIR, 0, [], [], {}, {}, []);
    SoloNew(PAIR, 1, 8, [], [], {}, {}, []);
  }

  lemma CallerCalls()
    ensures StepTo(PAIR, CALLER_RUN[3], CALLER_RUN[4])
  {
    var v: Vm := CALLER_RUN[3];
    var op := CALLER_OPS[2];
    assert LeftOf(op, v.frames[0].stack) == [{0}] && TakenOf(op, v.frames[0].stack) == [];
    var f := Entered(PAIR, v, 1, []);
    assert f.locals == [] && f == Frame(1, 1, 0, [], [], [], {});
    assert v.frames[..0] == [];
    assert CallStep(PAIR, v, v.frames[0], op).value.frames == CALLER_RUN[4].frames;
    assert Next(PAIR, v, Proceed(true, [])) == Some(CALLER_RUN[4]);
  }

  lemma CallerWalks()
    ensures Ended(CALLER, 0, 0, State([], []), CALLER_LOG)
  {
    hide Ended;
    var none: seq<Alias>, x: Alias, e: Alias := [], {Site(1)}, {};
    assert none + [x] == [x] && none + [e] == [e];
    LineReturn(CALLER, 4, 2, State([x] + [e], []));
    StepYield(CALLER, 3, [x], e, [], 1, [ReturnNotice(4, State([x] + [e], []))]);
    StepCall(CALLER, 2, 1, State([x], []), 1, CALLER_LOG);
    StepNew(CALLER, 1, 8, none, e, [], 0, CALLER_LOG);
    StepPush(CALLER, 0, State([], []), 0, CALLER_LOG);
  }

  lemma BareVerified()
    ensures Verified(BARE)
  {
    hide Verified, Line;
    LineEndHeight(BARE.ops, 0, 0);
    LineVerified(BARE);
  }

  /** The region of site 1 lies on the caller's operand stack while a callee with nothing of its own
      returns: reported confined, it reaches the host as the call's result. */
  lemma CallerEscapes()
    ensures Verified(CALLER) && Verified(BARE) && VerdictOf(CALLER, NO_SUMMARIES, 1).finding.verdict == Confined
    ensures IsRun(PAIR, CALLER_RUN) && 0 in CALLER_RUN[6].host && CALLER_RUN[6].regions[0] == Origin(0, 0, 1)
  {
    CallerRuns();
    hide Ended, Interpret, VerdictOf, SiteMeaning, ScopeOf, Verified, BlockOf, Line, Depth, BreaksLeave, IsRun;
    BareVerified();
    CallerWalks();
    assert EmptyLocals(CALLER) == [];
    LineBlock(CALLER_OPS);
    LineAnswer(CALLER, CALLER_LOG);
    LineVerified(CALLER);
    SilentConfined(CALLER, 1, CALLER_LOG);
  }

  // ----- what the guard refuses, and what it lets through -----

  /** Each of these chunks, and the callee of the last, is refused. */
  lemma EscapesRefused(c: Chunk)
    requires c in {PEEK, BOX, LOOSE, KEPT, LAST, BARE}
    ensures !BenignFrom(c, NO_SUMMARIES, EmptyLocals(c))
  {
    hide BenignFrom;
    PeekRefused();
    BoxRefused();
    LooseRefused();
    KeptRefused();
    LastRefused();
    BareRefused();
  }

  lemma PeekRefused()
    ensures !BenignFrom(PEEK, NO_SUMMARIES, EmptyLocals(PEEK))
  {
    hide Apply, Benign, BenignFrom, Line;
    var x: Alias, e: Alias := {Site(1)}, {};
    assert EmptyLocals(PEEK) == [] && [] + [x] == [x] && [] + [e] == [e];
    LineGuard(PEEK, []);
    ApplyConst(0, 0, State([], []));
    ApplyNew(1, 8, [], e, []);
    ApplyPeek(2, [], x, []);
    LineBenign(PEEK, 0, Const(0), State([], []), State([e], []), []);
    LineBenign(PEEK, 1, PEEK_OPS[1], State([e], []), State([x], []), []);
    LineBenign(PEEK, 2, IsEnum, State([x], []), State([e, e], []), []);
  }

  lemma BoxRefused()
    ensures !BenignFrom(BOX, NO_SUMMARIES, EmptyLocals(BOX))
  {
    hide Apply, Benign, BenignFrom, Line, Clear;
    var x: Alias, e: Alias := {Site(1)}, {};
    assert EmptyLocals(BOX) == [] && [] + [x] == [x] && [] + [e] == [e];
    BoxUnclear(x);
    LineGuard(BOX, []);
    ApplyConst(0, 0, State([], []));
    ApplyNew(1, 8, [], e, []);
    LineBenign(BOX, 0, Const(0), State([], []), State([e], []), []);
    LineBenign(BOX, 1, BOX_OPS[1], State([e], []), State([x], []), []);
  }

  lemma BoxUnclear(x: Alias)
    requires x == {Site(1)}
    ensures !Benign(5, NO_SUMMARIES, Line(BOX_OPS, 2), State([x], []))
  {
    hide Apply, Benign, Line;
    var op, s := BOX_OPS[2], State([x], []);
    OneTaken(op, [], x);
    assert [] + [x] == [x];
    ApplyBox(2, 0, [], x, []);
    LineBenign(BOX, 2, op, s, Apply(NO_SUMMARIES, 2, op, s).state, []);
  }

  lemma LooseRefused()
    ensures !BenignFrom(LOOSE, NO_SUMMARIES, EmptyLocals(LOOSE))
  {
    hide Apply, Benign, BenignFrom, Line, Clear;
    var x: Alias, e: Alias := {Site(1)}, {};
    assert EmptyLocals(LOOSE) == [] && [] + [x] == [x] && [] + [e] == [e] && [x] + [e] == [x, e];
    LooseUnclear(x, e);
    LineGuard(LOOSE, []);
    ApplyConst(0, 0, State([], []));
    ApplyNew(1, 8, [], e, []);
    ApplyImmediate(2, 3, State([x], []));
    LineBenign(LOOSE, 0, Const(0), State([], []), State([e], []), []);
    LineBenign(LOOSE, 1, LOOSE_OPS[1], State([e], []), State([x], []), []);
    LineBenign(LOOSE, 2, LOOSE_OPS[2], State([x], []), State([x, e], []), []);
  }

  lemma LooseUnclear(x: Alias, e: Alias)
    requires x == {Site(1)} && e == {}
    ensures !Benign(6, NO_SUMMARIES, Line(LOOSE_OPS, 3), State([x, e], []))
  {
    hide Apply, Benign, Line;
    var op, s := LOOSE_OPS[3], State([x, e], []);
    TwoTaken(op, [], x, e);
    assert [] + [x, e] == [x, e];
    ApplyKeep(3, 16, [], x, e, []);
    LineBenign(LOOSE, 3, op, s, Apply(NO_SUMMARIES, 3, op, s).state, []);
  }

  lemma KeptRefused()
    ensures !BenignFrom(KEPT, NO_SUMMARIES, EmptyLocals(KEPT))
  {
    hide Apply, Benign, BenignFrom, Line;
    var x: Alias, e: Alias := {Site(1)}, {};
    assert EmptyLocals(KEPT) == [] && [] + [x] == [x] && [] + [e] == [e];
    LineGuard(KEPT, []);
    ApplyConst(0, 0, State([], []));
    ApplyNew(1, 8, [], e, []);
    ApplyData(2, 0, [], x, []);
    LineBenign(KEPT, 0, Const(0), State([], []), State([e], []), []);
    LineBenign(KEPT, 1, KEPT_OPS[1], State([e], []), State([x], []), []);
    LineBenign(KEPT, 2, KEPT_OPS[2], State([x], []), State([], []), []);
  }

  lemma BareRefused()
    ensures !BenignFrom(BARE, NO_SUMMARIES, EmptyLocals(BARE))
  {
    hide Benign, BenignFrom, Line;
    assert EmptyLocals(BARE) == [];
    LineGuard(BARE, []);
    LineEndBenign(BARE, 0, State([], []));
  }

  lemma LastRefused()
    ensures !BenignFrom(LAST, NO_SUMMARIES, EmptyLocals(LAST))
  {
    hide Apply, Benign, BenignFrom, Line, Clear;
    var x: Alias, e: Alias := {Site(1)}, {};
    assert EmptyLocals(LAST) == [e] && [] + [x] == [x] && [] + [e] == [e];
    LastUnclear(x, e);
    LineGuard(LAST, [e]);
    ApplyConst(0, 0, State([], [e]));
    ApplyNew(1, 8, [], e, [e]);
    LineBenign(LAST, 0, Const(0), State([], [e]), State([e], [e]), []);
    LineBenign(LAST, 1, LAST_OPS[1], State([e], [e]), State([x], [e]), []);
  }

  lemma LastUnclear(x: Alias, e: Alias)
    requires x == {Site(1)} && e == {}
    ensures !Benign(4, NO_SUMMARIES, Line(LAST_OPS, 2), State([x], [e]))
  {
    hide Apply, Benign, Line;
    assert [] + [x] == [x] && [e][0 := x] == [x];
    ApplyStore(2, 0, [], x, [e]);
    LineEndBenign(LAST, 3, State([], [x]));
    LineBenign(LAST, 2, SetLocal(0), State([x], [e]), State([], [x]), [Notice(x, StoredToLocal(2, 0))]);
  }

  /** A composite is built and dropped; then a constant is tested, and the test is thrown away. */
  const TESTED_OPS := [Const(0), NewComposite(FlatForm(8), 1), PopN(1), Const(1), IsEnum, PopN(1), Return]
  const TESTED := Chunk(TESTED_OPS, 0, 0)

  /** A chunk with a construction site and a type test is admitted as long as the operand tested aliases
      no site. */
  lemma TestedAdmitted()
    ensures Admitted(TESTED, NO_SUMMARIES) && IsEnum in TESTED_OPS
  {
    hide Verified, BenignFrom;
    assert EmptyLocals(TESTED) == [] && SeededLocals(TESTED) == [] && TESTED_OPS[4] == IsEnum;
    TestedVerified();
    TestedBenign(TESTED);
  }

  lemma TestedVerified()
    ensures Verified(TESTED)
  {
    hide Depth, Verified, BlockOf, Line;
    TestedBegins();
    LineVerified(TESTED);
  }

  lemma TestedBegins()
    ensures Depth(Line(TESTED_OPS, 0), 0, 0).Balanced?
  {
    hide Depth, Line;
    TestedHeight();
    LineHeight(TESTED_OPS, 2, PopN(1), 1);
    LineHeight(TESTED_OPS, 1, TESTED_OPS[1], 1);
    LineHeight(TESTED_OPS, 0, Const(0), 0);
  }

  lemma TestedHeight()
    ensures Depth(Line(TESTED_OPS, 3), 0, 0).Balanced?
  {
    hide Depth, Line;
    LineEndHeight(TESTED_OPS, 6, 1);
    LineHeight(TESTED_OPS, 5, PopN(1), 2);
    LineHeight(TESTED_OPS, 4, IsEnum, 1);
    LineHeight(TESTED_OPS, 3, Const(1), 0);
  }

  lemma TestedBenign(c: Chunk)
    requires c == TESTED
    ensures BenignFrom(c, NO_SUMMARIES, [])
  {
    hide Apply, Benign, BenignFrom, Line;
    var x: Alias, e: Alias := {Site(1)}, {};
    assert [] + [x] == [x] && [] + [e] == [e];
    TestedTail(c, e);
    LineGuard(c, []);
    ApplyConst(0, 0, State([], []));
    ApplyNew(1, 8, [], e, []);
    ApplyDrop(2, [], x, []);
    LineBenign(c, 0, Const(0), State([], []), State([e], []), []);
    LineBenign(c, 1, TESTED_OPS[1], State([e], []), State([x], []), []);
    LineBenign(c, 2, PopN(1), State([x], []), State([], []), []);
  }

  lemma TestedTail(c: Chunk, e: Alias)
    requires c == TESTED && e == {}
    ensures Benign(|c.ops|, NO_SUMMARIES, Line(c.ops, 3), State([], []))
  {
    hide Apply, Benign, Line;
    assert [] + [e] == [e] && [] + [e, e] == [e] + [e];
    ApplyConst(3, 1, State([], []));
    ApplyPeek(4, [], e, []);
    ApplyDrop(5, [e], e, []);
    LineEndBenign(c, 6, State([e], []));
    LineBenign(c, 3, Const(1), State([], []), State([e], []), []);
    LineBenign(c, 4, IsEnum, State([e], []), State([e] + [e], []), []);
    LineBenign(c, 5, PopN(1), State([e] + [e], []), State([e], []), []);
  }

  // ----- a loop with a break that iterates all the same -----

  /** Set a slot; then, over and over, build a composite, drop what the slot holds, and store the
      composite there, until a condition breaks the loop. */
  const TURN_OPS := [
    Const(0), SetLocal(0), Loop(13), Const(0), NewComposite(FlatForm(8), 1), GetLocal(0), PopN(1), SetLocal(0), Const(1),
    If(11), Break(13), EndIf, EndLoop(3), Trap(OtherTrap(0))]
  const TURN := Chunk(TURN_OPS, 1, 0)
  const TURN_BRANCH := Branch(9, 11, Arms(11, 11, 11), Step(10, Break(13), End), End, End)
  const TURN_TAIL := Step(6, PopN(1), Step(7, SetLocal(0), Step(8, Const(1), TURN_BRANCH)))
  const TURN_SITE := Step(4, NewComposite(FlatForm(8), 1), Step(5, GetLocal(0), TURN_TAIL))
  const TURN_BODY := Step(3, Const(0), TURN_SITE)
  const TURN_LOOP := Cycle(2, 13, TURN_BODY, Step(13, Trap(OtherTrap(0)), End))
  const TURN_BLOCK := Step(0, Const(0), Step(1, SetLocal(0), TURN_LOOP))

  const TURN_RUN := [
    INITIAL, Solo(0, [{}], [], {}, []), Solo(1, [{}], [{}], {}, []), Solo(2, [{}], [], {}, []), Solo(3, [{}], [], {}, []),
    Solo(4, [{}], [{}], {}, []), Solo(5, [{}], [{0}], {}, BUILT_ONE), Solo(6, [{}], [{0}, {}], {}, BUILT_ONE),
    Solo(7, [{}], [{0}], {}, BUILT_ONE), Solo(8, [{0}], [], {}, BUILT_ONE), Solo(9, [{0}], [{}], {}, BUILT_ONE),
    Solo(11, [{0}], [], {}, BUILT_ONE), Solo(12, [{0}], [], {}, BUILT_ONE), Solo(3, [{0}], [], {}, BUILT_ONE),
    Solo(4, [{0}], [{}], {}, BUILT_ONE), Solo(5, [{0}], [{1}], {}, BUILT_TWO), Solo(6, [{0}], [{1}, {0}], {}, BUILT_TWO)]
  const BUILT_ONE := [Origin(0, 0, 4)]
  const BUILT_TWO := BUILT_ONE + [Origin(0, 0, 4)]

  lemma TurnStarts()
    ensures forall i :: 0 <= i < 3 ==> StepTo([TURN], TURN_RUN[i], TURN_RUN[i + 1])
  {
    hide Next, StepTo;
    var none: seq<Value>, e: Value := [], {};
    assert Machine.Blank(1) == [e] && none + [e] == [e] && [e][0 := e] == [e];
    SoloEnters([TURN]);
    SoloPush([TURN], 0, [e], none, e, {}, []);
    SoloStore([TURN], 1, 0, [e], none, e, {}, []);
  }

  lemma TurnBuilds()
    ensures forall i :: 3 <= i < 6 ==> StepTo([TURN], TURN_RUN[i], TURN_RUN[i + 1])
  {
    hide Next, StepTo;
    var none: seq<Value>, built: seq<Origin>, e: Value, r: Value := [], [], {}, {0};
    assert none + [r] == [r] && none + [e] == [e] && built + BUILT_ONE == BUILT_ONE;
    SoloGoes([TURN], 2, 3, [e], none, {}, []);
    SoloPush([TURN], 3, [e], none, e, {}, []);
    SoloNew([TURN], 4, 8, [e], none, e, {}, []);
  }

  lemma TurnDrops()
    ensures forall i :: 6 <= i < 8 ==> StepTo([TURN], TURN_RUN[i], TURN_RUN[i + 1])
  {
    hide Next, StepTo;
    var none: seq<Value>, e: Value, r: Value := [], {}, {0};
    assert [r] + [e] == [r, e] && [r] + none == [r];
    SoloPush([TURN], 5, [e], [r], e, {}, BUILT_ONE);
    SoloOn([TURN], 6, [e], [r], e, {}, BUILT_ONE, []);
  }

  lemma TurnStores()
    ensures forall i :: 8 <= i < 11 ==> StepTo([TURN], TURN_RUN[i], TURN_RUN[i + 1])
  {
    hide Next, StepTo;
    var none: seq<Value>, e: Value, r: Value := [], {}, {0};
    assert none + [r] == [r] && [e][0 := r] == [r] && none + [e] == [e];
    SoloStore([TURN], 7, 0, [e], none, r, {}, BUILT_ONE);
    SoloPush([TURN], 8, [r], none, e, {}, BUILT_ONE);
    SoloSkips([TURN], 9, 11, [r], none, e, {}, BUILT_ONE);
  }

  lemma TurnTurns()
    ensures forall i :: 11 <= i < 14 ==> StepTo([TURN], TURN_RUN[i], TURN_RUN[i + 1])
  {
    hide Next, StepTo;
    var none: seq<Value>, e: Value := [], {};
    assert none + [e] == [e];
    SoloGoes([TURN], 11, 12, [{0}], [], {}, BUILT_ONE);
    SoloGoes([TURN], 12, 3, [{0}], [], {}, BUILT_ONE);
    SoloPush([TURN], 3, [{0}], none, e, {}, BUILT_ONE);
  }

  lemma TurnReads()
    ensures forall i :: 14 <= i < 16 ==> StepTo([TURN], TURN_RUN[i], TURN_RUN[i + 1])
  {
    hide Next, StepTo;
    var none: seq<Value>, r: Value, q: Value, e: Value := [], {0}, {1}, {};
    assert none + [q] == [q] && none + [e] == [e] && [q] + [r] == [q, r];
    SoloNew([TURN], 4, 8, [r], none, e, {}, BUILT_ONE);
    SoloPush([TURN], 5, [r], [q], r, {}, BUILT_TWO);
  }

  lemma TurnRuns()
    ensures IsRun([TURN], TURN_RUN)
  {
    hide Next, StepTo;
    TurnStarts();
    TurnBuilds();
    TurnDrops();
    TurnStores();
    TurnTurns();
    TurnReads();
  }

  /** Nothing in the block can be reported but stores to one slot. */
  predicate OnlyStores(b: Block, slot: nat) {
    match b
    case End => true
    case Step(_, op, rest) =>
      && !op.Yield? && !op.CallNative? && !op.Call? && !op.Return? && (op.SetLocal? ==> op.slot == slot)
      && OnlyStores(rest, slot)
    case Branch(_, _, _, first, second, rest) => OnlyStores(first, slot) && OnlyStores(second, slot) && OnlyStores(rest, slot)
    case Cycle(_, _, body, rest) => OnlyStores(body, slot) && OnlyStores(rest, slot)
  }

  predicate AllStores(log: seq<Notice>, slot: nat) {
    forall n :: n in log ==> n.event.StoredToLocal? && n.event.slot == slot
  }

  lemma StoresAppend(a: seq<Notice>, b: seq<Notice>, slot: nat)
    requires AllStores(a, slot) && AllStores(b, slot)
    ensures AllStores(a + b, slot)
  {}

  lemma {:induction false} StoresLogged(size: nat, b: Block, s: State, slot: nat)
    requires OnlyStores(b, slot)
    ensures var r := Walk(size, NO_SUMMARIES, b, s); r.Walked? ==> AllStores(r.log, slot)
    decreases b, 2
  {
    match b
    case End =>
    case Step(ip, op, rest) =>
      var r := Apply(NO_SUMMARIES, ip, op, s);
      if r.Applied? {
        StoresLogged(size, rest, r.state, slot);
      }
    case Branch(ip, target, _, first, second, rest) => StoresBranched(size, b, s, slot);
    case Cycle(_, _, body, rest) =>
      StoresFixed(size, body, s, RoundCap(size, |s.locals|), slot);
      var f := LoopFix(size, NO_SUMMARIES, b, s);
      if f.Fixed? && AfterLoop(f).Some? {
        StoresLogged(size, rest, AfterLoop(f).value, slot);
        var r := Walk(size, NO_SUMMARIES, rest, AfterLoop(f).value);
        if r.Walked? {
          StoresAppend(f.log, r.log, slot);
        }
      }
  }

  lemma {:induction false} StoresBranched(size: nat, b: Block, s: State, slot: nat)
    requires b.Branch? && OnlyStores(b, slot)
    ensures var r := Walk(size, NO_SUMMARIES, b, s); r.Walked? ==> AllStores(r.log, slot)
    decreases b, 1
  {
    var r := Apply(NO_SUMMARIES, b.ip, If(b.target), s);
    if r.Applied? {
      StoresLogged(size, b.first, r.state, slot);
      StoresLogged(size, b.second, r.state, slot);
      var met := ArmsMet(size, NO_SUMMARIES, b, s);
      if met.Walked? {
        var x, y := Walk(size, NO_SUMMARIES, b.first, r.state), Walk(size, NO_SUMMARIES, b.second, r.state);
        StoresAppend(r.log, x.log, slot);
        StoresAppend(r.log + x.log, y.log, slot);
        if met.fall.Some? {
          StoresLogged(size, b.rest, met.fall.value, slot);
        }
      }
    }
  }

  lemma {:induction false} StoresFixed(size: nat, body: Block, head: State, budget: nat, slot: nat)
    requires OnlyStores(body, slot)
    ensures var f := Fix(size, NO_SUMMARIES, body, head, budget); f.Fixed? ==> AllStores(f.log, slot)
    decreases body, 3, budget
  {
    hide Walk, AllStores, OnlyStores;
    StoresLogged(size, body, head, slot);
    var r := Walk(size, NO_SUMMARIES, body, head);
    if r.Walked? && r.fall.Some? && JoinStates(head, r.fall.value) != head && budget > 0 {
      StoresFixed(size, body, JoinStates(head, r.fall.value), budget - 1, slot);
      var f := Fix(size, NO_SUMMARIES, body, JoinStates(head, r.fall.value), budget - 1);
      if f.Fixed? {
        StoresAppend(r.log, f.log, slot);
      }
    }
  }

  lemma TurnBranchLaid()
    ensures Laid(TURN_OPS, 9, 12, TURN_BRANCH)
  {
    assert Laid(TURN_OPS, 10, 11, Step(10, Break(13), End));
  }

  lemma TurnBodyLaid()
    ensures Laid(TURN_OPS, 3, 12, TURN_BODY)
  {
    TurnBranchLaid();
    hide Laid;
    LaidStep(TURN_OPS, 8, 12, TURN_BRANCH);
    LaidStep(TURN_OPS, 7, 12, Step(8, Const(1), TURN_BRANCH));
    LaidStep(TURN_OPS, 6, 12, Step(7, SetLocal(0), Step(8, Const(1), TURN_BRANCH)));
    LaidStep(TURN_OPS, 5, 12, TURN_TAIL);
    LaidStep(TURN_OPS, 4, 12, Step(5, GetLocal(0), TURN_TAIL));
    LaidStep(TURN_OPS, 3, 12, TURN_SITE);
  }

  lemma LaidStep(ops: seq<Op>, lo: nat, hi: nat, rest: Block)
    requires lo < hi <= |ops| && !Delimiter(ops[lo]) && Laid(ops, lo + 1, hi, rest)
    ensures Laid(ops, lo, hi, Step(lo, ops[lo], rest))
  {}

  lemma TurnLoopLaid()
    ensures Laid(TURN_OPS, 2, 14, TURN_LOOP)
  {
    TurnBodyLaid();
    assert Laid(TURN_OPS, 13, 14, Step(13, Trap(OtherTrap(0)), End));
  }

  lemma TurnLaid()
    ensures BlockOf(TURN_OPS, 0, 14) == Some(TURN_BLOCK)
  {
    hide BlockOf, Laid;
    TurnLoopLaid();
    LaidStep(TURN_OPS, 1, 14, TURN_LOOP);
    LaidStep(TURN_OPS, 0, 14, Step(1, SetLocal(0), TURN_LOOP));
    LaidUnique(TURN_OPS, 0, 14, TURN_BLOCK);
  }

  lemma DepthStep(ip: nat, op: Op, rest: Block, h: nat)
    requires Ordinary(op) && !op.BreakIf? && Pops(op) <= h && Depth(rest, h - Pops(op) + Pushes(op), 0).Balanced?
    ensures Depth(Step(ip, op, rest), h, 0) == Depth(rest, h - Pops(op) + Pushes(op), 0)
  {}

  lemma TurnBranchDepth()
    ensures Depth(TURN_BRANCH, 1, 0) == Balanced(Some(0), Some(0))
  {}

  lemma TurnTailDepth()
    ensures Depth(TURN_TAIL, 2, 0) == Balanced(Some(0), Some(0))
  {
    hide Depth;
    TurnBranchDepth();
    DepthStep(8, Const(1), TURN_BRANCH, 0);
    DepthStep(7, SetLocal(0), Step(8, Const(1), TURN_BRANCH), 1);
    DepthStep(6, PopN(1), Step(7, SetLocal(0), Step(8, Const(1), TURN_BRANCH)), 2);
  }

  lemma TurnBodyDepth()
    ensures Depth(TURN_BODY, 0, 0) == Balanced(Some(0), Some(0))
  {
    hide Depth;
    TurnTailDepth();
    DepthStep(5, GetLocal(0), TURN_TAIL, 1);
    DepthStep(4, NewComposite(FlatForm(8), 1), Step(5, GetLocal(0), TURN_TAIL), 1);
    DepthStep(3, Const(0), TURN_SITE, 0);
  }

  /** A loop whose body restores the entry height and breaks at it. */
  lemma LoopDepth(b: Block, h: nat)
    requires b.Cycle? && Depth(b.body, h, h) == Balanced(Some(h), Some(h))
    ensures Depth(b, h, 0) == Depth(b.rest, h, 0)
  {}

  lemma TurnLoopDepth()
    ensures Depth(TURN_LOOP, 0, 0) == Balanced(None, None)
  {
    hide Depth;
    TurnBodyDepth();
    TurnStops();
    LoopDepth(TURN_LOOP, 0);
  }

  lemma TurnStops()
    ensures Depth(Step(13, Trap(OtherTrap(0)), End), 0, 0) == Balanced(None, None)
  {}

  lemma TurnDepth()
    ensures Depth(TURN_BLOCK, 0, 0) == Balanced(None, None)
  {
    hide Depth;
    TurnLoopDepth();
    DepthStep(1, SetLocal(0), TURN_LOOP, 1);
    DepthStep(0, Const(0), Step(1, SetLocal(0), TURN_LOOP), 0);
  }

  lemma TurnLeaves()
    ensures BreaksLeave(TURN_BLOCK, None)
  {
    assert BreaksLeave(TURN_BRANCH, Some(13));
    assert BreaksLeave(TURN_TAIL, Some(13));
    assert BreaksLeave(TURN_SITE, Some(13));
    assert BreaksLeave(TURN_BODY, Some(13));
    assert BreaksLeave(TURN_LOOP, None);
  }

  lemma TurnSlots()
    ensures forall i :: 0 <= i < 14 ==> SlotInRange(TURN_OPS[i], 1)
  {}

  lemma TurnVerified()
    ensures Verified(TURN)
  {
    hide BlockOf, Depth, BreaksLeave, SlotInRange;
    TurnLaid();
    TurnDepth();
    TurnLeaves();
    TurnSlots();
  }

  lemma ReadStep(ip: nat, op: Op, rest: Block, defined: bool)
    requires Ordinary(op) && (op == GetLocal(0) ==> defined)
    ensures ReadsBeforeWrite(Step(ip, op, rest), 0, defined) == ReadsBeforeWrite(rest, 0, defined || op == SetLocal(0))
  {}

  /** On entry to the loop the slot is written, so no read of it comes first. */
  lemma TurnReadsOwn()
    ensures !ReadsBeforeWrite(TURN_BLOCK, 0, false).bad
  {
    assert ReadsBeforeWrite(TURN_BRANCH, 0, true) == Rbw(false, Some(true));
    hide ReadsBeforeWrite;
    ReadStep(8, Const(1), TURN_BRANCH, true);
    ReadStep(7, SetLocal(0), Step(8, Const(1), TURN_BRANCH), true);
    ReadStep(6, PopN(1), Step(7, SetLocal(0), Step(8, Const(1), TURN_BRANCH)), true);
    ReadStep(5, GetLocal(0), TURN_TAIL, true);
    ReadStep(4, NewComposite(FlatForm(8), 1), Step(5, GetLocal(0), TURN_TAIL), true);
    ReadStep(3, Const(0), TURN_SITE, true);
    TurnLoopReads();
    ReadStep(1, SetLocal(0), TURN_LOOP, false);
    ReadStep(0, Const(0), Step(1, SetLocal(0), TURN_LOOP), false);
  }

  lemma TurnLoopReads()
    ensures !ReadsBeforeWrite(TURN_BODY, 0, true).bad ==> !ReadsBeforeWrite(TURN_LOOP, 0, true).bad
  {
    assert !ReadsBeforeWrite(Step(13, Trap(OtherTrap(0)), End), 0, true).bad;
  }

  lemma TurnDead()
    ensures BoundaryDead(TURN_OPS, 0, 14, 0)
  {
    hide BlockOf, ReadsBeforeWrite;
    TurnLaid();
    TurnReadsOwn();
  }

  lemma TurnScope()
    ensures ScopeOf(TURN_OPS, 4) == Invocation
  {
    assert TURN_OPS[10] == Break(13);
    assert IsDispatch(TURN_OPS, 2, 13, 13);
    assert forall i :: 0 <= i < 14 && i != 2 ==> !TURN_OPS[i].Loop?;
    assert !Encloses(TURN_OPS, 2, 4);
    assert forall i :: 0 <= i < 14 ==> !Encloses(TURN_OPS, i, 4);
  }

  lemma TurnOnlyStores()
    ensures OnlyStores(TURN_BLOCK, 0)
  {
    assert OnlyStores(TURN_BRANCH, 0);
    assert OnlyStores(TURN_TAIL, 0);
    assert OnlyStores(TURN_SITE, 0);
    assert OnlyStores(TURN_BODY, 0);
    assert OnlyStores(TURN_LOOP, 0);
  }

  lemma TurnConfined()
    ensures VerdictOf(TURN, NO_SUMMARIES, 4).finding.verdict == Confined && VerdictOf(TURN, NO_SUMMARIES, 4).scope == Invocation
  {
    TurnVerified();
    TurnLaid();
    TurnOnlyStores();
    hide Verified, BlockOf, BoundaryDead, ScopeOf, Walk, OnlyStores;
    TurnScope();
    TurnDead();
    InterpretCompletes(TURN, NO_SUMMARIES, EmptyLocals(TURN), 0);
    StoresLogged(14, TURN_BLOCK, State([], EmptyLocals(TURN)), 0);
    StoresConfined(TURN, 4, 0);
  }

  lemma StoresConfined(c: Chunk, site: nat, slot: nat)
    requires Interpret(c, EmptyLocals(c), NO_SUMMARIES).Walked?
    requires AllStores(Interpret(c, EmptyLocals(c), NO_SUMMARIES).log, slot)
    requires ScopeOf(c.ops, site) == Invocation && BoundaryDead(c.ops, 0, |c.ops|, slot)
    ensures VerdictOf(c, NO_SUMMARIES, site).finding.verdict == Confined
  {
    hide Interpret, BoundaryDead, ScopeOf;
    ConfinedMeans(c, NO_SUMMARIES, site);
  }

  /** The loop is taken for dispatch, since it holds a break to its own exit, and its site is reported
      confined to the invocation; yet one invocation executes the site twice, and afterwards reads
      back the region of the first time. */
  lemma DispatchTurns()
    ensures Verified(TURN)
    ensures VerdictOf(TURN, NO_SUMMARIES, 4).finding.verdict == Confined && VerdictOf(TURN, NO_SUMMARIES, 4).scope == Invocation
    ensures IsRun([TURN], TURN_RUN)
    ensures TURN_RUN[16].regions == [Origin(0, 0, 4), Origin(0, 0, 4)] && TURN_RUN[16].frames[0].stack == [{1}, {0}]
  {
    hide Verified, VerdictOf, IsRun;
    TurnVerified();
    TurnConfined();
    TurnRuns();
  }
}
