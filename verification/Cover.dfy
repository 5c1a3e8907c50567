/** The simulation relation between the machine and the analysis, one instruction at a time.

    `tags` says which regions are tracked and by which tokens. A sequence of values is covered when
    every tracked region a value gives access to has one of its tokens in the value's alias set. */
module Cover {
  import opened Options
  import opened Bytecode
  import opened Confine
  import opened ConfineOrder
  import opened Guard
  import opened Machine

  type Tags = map<nat, Alias>

  predicate CoverSeq(vs: seq<Value>, xs: seq<Alias>, tags: Tags) {
    |vs| == |xs| &&
    forall i, r :: 0 <= i < |vs| && r in vs[i] && r in tags ==> tags[r] * xs[i] != {}
  }

  predicate Meets(v: Value, x: Alias, tags: Tags) {
    forall r :: r in v && r in tags ==> tags[r] * x != {}
  }

  /** Tracking fewer regions, or coarser alias sets, keeps the cover. */
  lemma CoverWeaken(vs: seq<Value>, xs: seq<Alias>, tags: Tags, ys: seq<Alias>, fewer: Tags)
    requires CoverSeq(vs, xs, tags) && LeqSeq(xs, ys)
    requires forall i, r :: 0 <= i < |vs| && r in vs[i] && r in fewer ==> r in tags && fewer[r] == tags[r]
    ensures CoverSeq(vs, ys, fewer)
  {
    forall i, r | 0 <= i < |vs| && r in vs[i] && r in fewer
      ensures fewer[r] * ys[i] != {}
    {
      var t :| t in tags[r] * xs[i];
      assert t in fewer[r] * ys[i];
    }
  }

  /** What the machine leaves behind a straight instruction, given its results. */
  function LocalsAfter(op: Op, locals: seq<Value>, taken: seq<Value>): seq<Value>
    requires SlotInRange(op, |locals|) && |taken| == Pops(op)
  {
    if op.SetLocal? then locals[op.slot := taken[0]] else locals
  }

  /** The transfer function keeps the cover as long as the results are covered by what it says the
      instruction produces. */
  lemma StepCovers(sums: Summaries, ip: nat, op: Op, s: State, tags: Tags, locals: seq<Value>, operands: seq<Value>, results: seq<Value>)
    requires CoverSeq(locals, s.locals, tags) && CoverSeq(operands, s.stack, tags)
    requires Apply(sums, ip, op, s).Applied? && |results| == Pushes(op)
    requires forall i :: 0 <= i < |results| ==>
      Meets(results[i], Produced(sums, ip, op, Taken(op, s.stack), s.locals), tags)
    ensures CoverSeq(LocalsAfter(op, locals, TakenOf(op, operands)), Apply(sums, ip, op, s).state.locals, tags)
    ensures CoverSeq(LeftOf(op, operands) + results, Apply(sums, ip, op, s).state.stack, tags)
  {
    hide Produced, NoticesOf;
    var next := Apply(sums, ip, op, s).state;
    var taken, n := TakenOf(op, operands), |operands| - Pops(op);
    TakenCovered(op, s.stack, operands, tags);
    if op.SetLocal? {
      UnionMeets(taken, Taken(op, s.stack), tags, 0);
    }
    var after := LeftOf(op, operands) + results;
    forall i, r | 0 <= i < |after| && r in after[i] && r in tags
      ensures tags[r] * next.stack[i] != {}
    {
      if i < n {
        assert after[i] == operands[i] && next.stack[i] == s.stack[i];
      } else {
        assert after[i] == results[i - n];
      }
    }
  }

  lemma TakenCovered(op: Op, stack: seq<Alias>, operands: seq<Value>, tags: Tags)
    requires CoverSeq(operands, stack, tags) && Pops(op) <= |stack|
    ensures CoverSeq(TakenOf(op, operands), Taken(op, stack), tags)
  {
    var n := |stack| - Pops(op);
    var taken, xs := TakenOf(op, operands), Taken(op, stack);
    forall i, r | 0 <= i < |taken| && r in taken[i] && r in tags
      ensures tags[r] * xs[i] != {}
    {
      assert taken[i] == operands[n + i] && xs[i] == stack[n + i];
    }
  }

  lemma UnionMeets(taken: seq<Value>, xs: seq<Alias>, tags: Tags, i: nat)
    requires CoverSeq(taken, xs, tags) && i < |taken|
    ensures Meets(taken[i], Union(xs), tags)
  {
    forall r | r in taken[i] && r in tags
      ensures tags[r] * Union(xs) != {}
    {
      var t :| t in tags[r] * xs[i];
      assert t in tags[r] * Union(xs);
    }
  }

  lemma RegionsMeet(taken: seq<Value>, xs: seq<Alias>, tags: Tags)
    requires CoverSeq(taken, xs, tags)
    ensures Meets(Regions(taken), Union(xs), tags)
  {
    forall r | r in Regions(taken) && r in tags
      ensures tags[r] * Union(xs) != {}
    {
      var i :| 0 <= i < |taken| && r in taken[i];
      UnionMeets(taken, xs, tags, i);
    }
  }

  /** Every result the machine may push is covered by what the transfer function says where the
      instruction is clear, provided the host holds nothing tracked and a region just built is tracked
      by its own site, if at all. */
  lemma ResultMeets(sums: Summaries, ip: nat, op: Op, s: State, tags: Tags, locals: seq<Value>, taken: seq<Value>,
                    host: Value, newId: nat, i: nat, v: Value)
    requires Straight(op) && Clear(ip, op, s) && SlotInRange(op, |s.locals|) && Pops(op) <= |s.stack|
    requires CoverSeq(locals, s.locals, tags) && |taken| == Pops(op) && CoverSeq(taken, Taken(op, s.stack), tags)
    requires forall r :: r in host ==> r !in tags
    requires op.NewComposite? && newId in tags ==> tags[newId] == {Site(ip)}
    requires Result(op, taken, locals, host, newId, i, v)
    ensures Meets(v, Produced(sums, ip, op, Taken(op, s.stack), s.locals), tags)
  {
    hide Clear;
    var xs := Taken(op, s.stack);
    RegionsMeet(taken, xs, tags);
    match op
    case Dup => UnionMeets(taken, xs, tags, 0);
    case GetLocal(slot) =>
      forall r | r in v && r in tags
        ensures tags[r] * s.locals[slot] != {}
      {
        assert r in locals[slot];
      }
    case NewComposite(_, _) => BuiltMeets(ip, op, s, tags, taken, newId, v);
    case IsEnum | IsStruct => PeekMeets(ip, op, s, tags, taken);
    case _ =>
  }

  lemma PeekMeets(ip: nat, op: Op, s: State, tags: Tags, taken: seq<Value>)
    requires (op.IsEnum? || op.IsStruct?) && Clear(ip, op, s) && Pops(op) <= |s.stack|
    requires |taken| == Pops(op) && CoverSeq(taken, Taken(op, s.stack), tags)
    ensures Meets(taken[0], {}, tags)
  {
    assert Taken(op, s.stack)[0] == {};
  }

  lemma BuiltMeets(ip: nat, op: Op, s: State, tags: Tags, taken: seq<Value>, newId: nat, v: Value)
    requires op.NewComposite? && Clear(ip, op, s) && Pops(op) <= |s.stack|
    requires Meets(Regions(taken), Union(Taken(op, s.stack)), tags)
    requires newId in tags ==> tags[newId] == {Site(ip)}
    requires v == {newId} || (!op.form.FlatForm? && v == {newId} + Regions(taken))
    ensures Meets(v, {Site(ip)}, tags)
  {
    forall r | r in v && r in tags
      ensures tags[r] * {Site(ip)} != {}
    {
      if r != newId {
        var t :| t in tags[r] * Union(Taken(op, s.stack));
        assert t == Site(ip);
      }
      assert Site(ip) in tags[r] * {Site(ip)};
    }
  }

  // ----- exactness -----

  /** One execution of an instruction, as far as its first result goes. */
  datatype Scene = Scene(tags: Tags, locals: seq<Value>, taken: seq<Value>, host: Value, newId: nat, v: Value)

  /** The machine and what the state says allow this scene. */
  predicate Allowed(c: Scene, ip: nat, op: Op, s: State)
    requires SlotInRange(op, |s.locals|) && Pops(op) <= |s.stack|
  {
    && |c.taken| == Pops(op) && CoverSeq(c.locals, s.locals, c.tags) && CoverSeq(c.taken, Taken(op, s.stack), c.tags)
    && (forall r :: r in c.host ==> r !in c.tags)
    && (op.NewComposite? && c.newId in c.tags ==> c.tags[c.newId] == {Site(ip)})
    && Result(op, c.taken, c.locals, c.host, c.newId, 0, c.v)
  }

  /** In this scene the first result gives access to region `r`, which only `t` tracks. */
  predicate Shows(c: Scene, r: nat, ip: nat, op: Op, s: State, t: Token)
    requires SlotInRange(op, |s.locals|) && Pops(op) <= |s.stack|
  {
    Allowed(c, ip, op, s) && r in c.v && r in c.tags && c.tags[r] == {t}
  }

  /** The alias set given to the results covers the first of them, and what leaves for good was reported. */
  ghost predicate Accounted(sums: Summaries, ip: nat, op: Op, s: State, c: Scene)
    requires SlotInRange(op, |s.locals|) && Pops(op) <= |s.stack|
  {
    var xs := Taken(op, s.stack);
    && Meets(c.v, Produced(sums, ip, op, xs, s.locals), c.tags)
    && Meets(HandedOver(op, c.taken), ToldOf(NoticesOf(sums, ip, op, xs)), c.tags)
  }

  /** Every token some notice is about. */
  function ToldOf(log: seq<Notice>): Alias {
    set n, t | n in log && t in n.tokens :: t
  }

  /** The transfer function accounts for every scene the state allows if and only if the instruction is
      clear there. */
  lemma ClearExactly(sums: Summaries, ip: nat, op: Op, s: State)
    requires Straight(op) && SlotInRange(op, |s.locals|) && Pops(op) <= |s.stack|
    ensures Clear(ip, op, s) <==> forall c: Scene :: Allowed(c, ip, op, s) ==> Accounted(sums, ip, op, s, c)
  {
    if Clear(ip, op, s) {
      forall c: Scene | Allowed(c, ip, op, s)
        ensures Accounted(sums, ip, op, s, c)
      {
        ResultMeets(sums, ip, op, s, c.tags, c.locals, c.taken, c.host, c.newId, 0, c.v);
        HandOverMeets(sums, ip, op, s, c.tags, c.taken);
      }
    } else {
      var c := SceneMissed(sums, ip, op, s);
    }
  }

  /** What leaves for good was reported where the instruction is clear. */
  lemma HandOverMeets(sums: Summaries, ip: nat, op: Op, s: State, tags: Tags, taken: seq<Value>)
    requires Clear(ip, op, s) && Pops(op) <= |s.stack| && |taken| == Pops(op) && CoverSeq(taken, Taken(op, s.stack), tags)
    ensures Meets(HandedOver(op, taken), ToldOf(NoticesOf(sums, ip, op, Taken(op, s.stack))), tags)
  {
    var xs := Taken(op, s.stack);
    if op.Yield? || op.CallNative? {
      hide Clear;
      RegionsMeet(taken, xs, tags);
      var log := NoticesOf(sums, ip, op, xs);
      assert log[0].tokens == Union(xs) && Union(xs) <= ToldOf(log);
    } else if op.SetData? || op.SetDataIndexed? {
      hide NoticesOf, ToldOf;
      assert op.keeps ==> xs[0] == {};
    }
  }

  /** Where the instruction is not clear, some scene the state allows is not accounted for. */
  lemma SceneMissed(sums: Summaries, ip: nat, op: Op, s: State) returns (c: Scene)
    requires Straight(op) && SlotInRange(op, |s.locals|) && Pops(op) <= |s.stack| && !Clear(ip, op, s)
    ensures Allowed(c, ip, op, s) && !Accounted(sums, ip, op, s, c)
  {
    var xs := Taken(op, s.stack);
    var t: Token;
    if op.NewComposite? {
      t :| t in Union(xs) && t != Site(ip);
    } else {
      t :| t in xs[0];
    }
    var k :| 0 <= k < |xs| && t in xs[k] && (op.NewComposite? || k == 0);
    var locals, taken := Following(t, s.locals), Following(t, xs);
    assert 0 in taken[k];
    var newId: nat := 1;
    c := Scene(map[0 := {t}], locals, taken, {}, newId,
      if op.NewComposite? then {newId} + Regions(taken) else if op.IsEnum? || op.IsStruct? then taken[0] else {});
    if op.SetData? || op.SetDataIndexed? {
      assert 0 in HandedOver(op, taken) && NoticesOf(sums, ip, op, xs) == [];
    } else {
      assert 0 in c.v && c.tags[0] * Produced(sums, ip, op, xs, s.locals) == {};
    }
  }

  /** Region 0 wherever `t` may be. */
  function Following(t: Token, xs: seq<Alias>): (vs: seq<Value>)
    ensures CoverSeq(vs, xs, map[0 := {t}])
    ensures forall k :: 0 <= k < |xs| && t in xs[k] ==> 0 in vs[k]
  {
    seq(|xs|, k requires 0 <= k < |xs| => if t in xs[k] then {0} else {})
  }

  /** The transfer function is the best there is: the alias set it gives a result holds exactly the tokens
      some execution needs there. Indexed reads of data slots alone are given more, what their index
      operands alias. */
  lemma TransferIsBest(sums: Summaries, ip: nat, op: Op, s: State, t: Token)
    requires Straight(op) && Clear(ip, op, s) && SlotInRange(op, |s.locals|) && Pops(op) <= |s.stack| && Pushes(op) > 0
    requires !op.GetDataIndexed?
    ensures t in Produced(sums, ip, op, Taken(op, s.stack), s.locals) <==> exists c: Scene, r :: Shows(c, r, ip, op, s, t)
  {
    var xs := Taken(op, s.stack);
    if t in Produced(sums, ip, op, xs, s.locals) {
      var c := SceneOf(sums, ip, op, s, t);
    }
    if c: Scene, r :| Shows(c, r, ip, op, s, t) {
      ResultMeets(sums, ip, op, s, c.tags, c.locals, c.taken, c.host, c.newId, 0, c.v);
    }
  }

  lemma SceneOf(sums: Summaries, ip: nat, op: Op, s: State, t: Token) returns (c: Scene)
    requires Straight(op) && Clear(ip, op, s) && SlotInRange(op, |s.locals|) && Pops(op) <= |s.stack| && Pushes(op) > 0
    requires !op.GetDataIndexed? && t in Produced(sums, ip, op, Taken(op, s.stack), s.locals)
    ensures Shows(c, 0, ip, op, s, t)
  {
    hide Clear;
    var xs := Taken(op, s.stack);
    var locals, taken := Following(t, s.locals), Following(t, xs);
    if t in Union(xs) {
      var k :| 0 <= k < |xs| && t in xs[k];
      assert 0 in taken[k];
      assert {0} <= Regions(taken);
    }
    c := Scene(map[0 := {t}], locals, taken, {}, 0,
      if op.GetLocal? then locals[op.slot]
      else if op.Dup? then taken[0]
      else if op.NewComposite? && op.form.BoxedForm? then {0} + Regions(taken)
      else {0});
  }

  /** What a return hands over is covered by what is reported there, in every frame the state allows and
      whatever lies below it, if and only if the return is clear. */
  lemma ReturnClearExactly(ip: nat, s: State)
    ensures Clear(ip, Return, s) <==>
      forall f: Frame, below: seq<Value>, tags: Tags :: Stands(f, s, tags) ==>
        (GivenUp(f, below).Some? ==> Meets(GivenUp(f, below).value, ReturnNotice(ip, s).tokens, tags))
  {
    if !Clear(ip, Return, s) {
      var t: Token := Site(0);
      if s.locals != [] {
        t :| t in s.locals[|s.locals| - 1];
      }
      var f, below := Frame(0, 0, ip, Following(t, s.locals), [], [], {}), [{0}];
      assert Stands(f, s, map[0 := {t}]) && 0 in GivenUp(f, below).value;
    }
  }

  /** The state covers the frame. */
  predicate Stands(f: Frame, s: State, tags: Tags) {
    CoverSeq(f.locals, s.locals, tags) && CoverSeq(f.stack, s.stack, tags)
  }

  // ----- what is reported -----

  /** Some token of region `r` was reported with this event. */
  ghost predicate Reported(log: seq<Notice>, tags: Tags, r: nat, e: Event) {
    r in tags && exists t :: t in tags[r] && Logged(log, t, e)
  }

  lemma ReportedBy(log: seq<Notice>, tags: Tags, r: nat, n: Notice)
    requires n in log && r in tags && tags[r] * n.tokens != {}
    ensures Reported(log, tags, r, n.event)
  {
    var t :| t in tags[r] * n.tokens;
    assert Logged(log, t, n.event);
  }

  lemma ReportedMore(a: seq<Notice>, b: seq<Notice>, tags: Tags, r: nat, e: Event)
    requires LogLeq(a, b) && Reported(a, tags, r, e)
    ensures Reported(b, tags, r, e)
  {}

  /** A tracked region handed to the host was reported. */
  lemma HandOverReported(sums: Summaries, ip: nat, op: Op, s: State, tags: Tags, taken: seq<Value>, r: nat)
    requires op.Yield? || op.CallNative?
    requires Pops(op) <= |s.stack| && |taken| == Pops(op) && CoverSeq(taken, Taken(op, s.stack), tags)
    requires r in Regions(taken) && r in tags
    ensures Reported(NoticesOf(sums, ip, op, Taken(op, s.stack)), tags, r, if op.Yield? then Yielded(ip) else HandedToNative(ip))
  {
    var xs := Taken(op, s.stack);
    RegionsMeet(taken, xs, tags);
    var log := NoticesOf(sums, ip, op, xs);
    ReportedBy(log, tags, r, log[0]);
  }

  /** A clear store to a slot that keeps the value itself is given nothing tracked. */
  lemma KeptUntracked(ip: nat, op: Op, s: State, tags: Tags, taken: seq<Value>, r: nat)
    requires op.SetData? || op.SetDataIndexed?
    requires Clear(ip, op, s) && Pops(op) <= |s.stack| && |taken| == Pops(op) && CoverSeq(taken, Taken(op, s.stack), tags)
    requires r in HandedOver(op, taken)
    ensures r !in tags
  {
    assert Taken(op, s.stack)[0] == {};
  }

  /** A tracked region stored to a local was reported. */
  lemma StoreReported(sums: Summaries, ip: nat, op: Op, s: State, tags: Tags, taken: seq<Value>, r: nat)
    requires op.SetLocal?
    requires Pops(op) <= |s.stack| && |taken| == Pops(op) && CoverSeq(taken, Taken(op, s.stack), tags)
    requires r in taken[0] && r in tags
    ensures Reported(NoticesOf(sums, ip, op, Taken(op, s.stack)), tags, r, StoredToLocal(ip, op.slot))
  {
    var xs := Taken(op, s.stack);
    UnionMeets(taken, xs, tags, 0);
    var log := NoticesOf(sums, ip, op, xs);
    ReportedBy(log, tags, r, log[0]);
  }

  /** A tracked region passed where the callee may leak it was reported. */
  lemma PassReported(sums: Summaries, ip: nat, op: Op, s: State, tags: Tags, taken: seq<Value>, i: nat, r: nat)
    requires op.Call? && Pops(op) <= |s.stack| && |taken| == Pops(op) && CoverSeq(taken, Taken(op, s.stack), tags)
    requires i < |taken| && r in taken[i] && r in tags && Leaks(sums, op.callee, i)
    ensures Reported(NoticesOf(sums, ip, op, Taken(op, s.stack)), tags, r, PassedToCall(ip))
  {
    var log := NoticesOf(sums, ip, op, Taken(op, s.stack));
    assert log[i] == Notice(Taken(op, s.stack)[i], PassedToCall(ip));
    ReportedBy(log, tags, r, log[i]);
  }

  /** A tracked region returned was reported. */
  lemma ReturnReported(ip: nat, s: State, tags: Tags, operands: seq<Value>, r: nat)
    requires CoverSeq(operands, s.stack, tags) && operands != []
    requires r in operands[|operands| - 1] && r in tags
    ensures Reported([ReturnNotice(ip, s)], tags, r, Event.Returned(ip))
  {
    ReportedBy([ReturnNotice(ip, s)], tags, r, ReturnNotice(ip, s));
  }

  /** What a call produces covers a result whose tracked regions came in at arguments the summary
      lets out. */
  lemma CallProduces(sums: Summaries, ip: nat, op: Op, s: State, tags: Tags, taken: seq<Value>, v: Value)
    requires op.Call? && Pops(op) <= |s.stack| && |taken| == Pops(op) && CoverSeq(taken, Taken(op, s.stack), tags)
    requires forall r :: r in v && r in tags ==>
      exists i :: 0 <= i < |taken| && r in taken[i] && Returns(sums, op.callee, i)
    ensures Meets(v, Produced(sums, ip, op, Taken(op, s.stack), s.locals), tags)
  {
    var xs := Taken(op, s.stack);
    var produced := Produced(sums, ip, op, xs, s.locals);
    forall r | r in v && r in tags
      ensures tags[r] * produced != {}
    {
      var i :| 0 <= i < |taken| && r in taken[i] && Returns(sums, op.callee, i);
      var t :| t in tags[r] * xs[i];
      assert t in produced;
    }
  }
}
