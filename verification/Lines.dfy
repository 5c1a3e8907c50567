/** Straight code, as chunks that show a point are made of: its block, its walk and its run, one
    instruction at a time. */
module Lines {
  import opened Options
  import opened Bytecode
  import opened Confine
  import opened ConfineShape
  import opened Guard
  import opened Machine
  import opened Cover

  /** Code without branches, as a block. */
  function Line(ops: seq<Op>, lo: nat): Block
    requires lo <= |ops|
    decreases |ops| - lo
  {
    if lo == |ops| then End else Step(lo, ops[lo], Line(ops, lo + 1))
  }

  predicate Linear(ops: seq<Op>) {
    forall i :: 0 <= i < |ops| ==> !Delimiter(ops[i]) && !ops[i].Break? && !ops[i].BreakIf?
  }

  lemma {:induction false} LineLaid(ops: seq<Op>, lo: nat)
    requires lo <= |ops| && Linear(ops)
    ensures Laid(ops, lo, |ops|, Line(ops, lo)) && BreaksLeave(Line(ops, lo), None)
    decreases |ops| - lo
  {
    if lo < |ops| {
      LineLaid(ops, lo + 1);
    }
  }

  lemma LineBlock(ops: seq<Op>)
    requires Linear(ops)
    ensures BlockOf(ops, 0, |ops|) == Some(Line(ops, 0)) && BreaksLeave(Line(ops, 0), None)
  {
    LineLaid(ops, 0);
    LaidUnique(ops, 0, |ops|, Line(ops, 0));
  }

  lemma LineVerified(c: Chunk)
    requires Linear(c.ops) && (forall i :: 0 <= i < |c.ops| ==> SlotInRange(c.ops[i], c.localCount))
    requires Depth(Line(c.ops, 0), 0, 0).Balanced?
    ensures Verified(c)
  {
    hide BlockOf, Line, Depth, BreaksLeave;
    LineBlock(c.ops);
  }

  /** One instruction of a walk that ends at a `Return`, and of a height pass. */
  lemma LineStep(c: Chunk, ip: nat, op: Op, h: nat, s: State, next: State, log: seq<Notice>, rest: seq<Notice>)
    requires ip < |c.ops| && Linear(c.ops) && c.ops[ip] == op && !op.Trap? && !op.Return? && Pops(op) <= h
    requires Apply(NO_SUMMARIES, ip, op, s) == Applied(next, log)
    requires Ended(c, ip + 1, h - Pops(op) + Pushes(op), next, rest)
    ensures Ended(c, ip, h, s, log + rest)
  {
    hide Apply, DepthEffect;
  }

  /** From `ip` on the code runs to a `Return`, reporting `log`, and its heights work out. */
  predicate Ended(c: Chunk, ip: nat, h: nat, s: State, log: seq<Notice>)
    requires ip <= |c.ops|
  {
    && Walk(|c.ops|, NO_SUMMARIES, Line(c.ops, ip), s) == Walked(None, [], log)
    && Depth(Line(c.ops, ip), h, 0) == Balanced(None, None)
  }

  lemma LineReturn(c: Chunk, ip: nat, h: nat, s: State)
    requires ip < |c.ops| && c.ops[ip].Return?
    ensures Ended(c, ip, h, s, [ReturnNotice(ip, s)])
  {}

  /** The walk of a straight chunk from no aliases is all there is to its verdicts. */
  lemma LineAnswer(c: Chunk, log: seq<Notice>)
    requires BlockOf(c.ops, 0, |c.ops|) == Some(Line(c.ops, 0)) && Ended(c, 0, 0, State([], EmptyLocals(c)), log)
    ensures Interpret(c, EmptyLocals(c), NO_SUMMARIES) == Walked(None, [], log) && Depth(Line(c.ops, 0), 0, 0).Balanced?
  {}

  lemma LineHeight(ops: seq<Op>, ip: nat, op: Op, h: nat)
    requires ip < |ops| && ops[ip] == op && Ordinary(op) && !op.BreakIf? && Pops(op) <= h
    requires Depth(Line(ops, ip + 1), h - Pops(op) + Pushes(op), 0).Balanced?
    ensures Depth(Line(ops, ip), h, 0).Balanced?
  {}

  lemma LineEndHeight(ops: seq<Op>, ip: nat, h: nat)
    requires ip < |ops| && ops[ip].Return?
    ensures Depth(Line(ops, ip), h, 0).Balanced?
  {}

  // ----- what the guard asks of it -----

  /** One instruction of a benign walk of straight code. */
  lemma LineBenign(c: Chunk, ip: nat, op: Op, s: State, next: State, log: seq<Notice>)
    requires ip < |c.ops| && c.ops[ip] == op && Ordinary(op) && Apply(NO_SUMMARIES, ip, op, s) == Applied(next, log)
    ensures Benign(|c.ops|, NO_SUMMARIES, Line(c.ops, ip), s)
      <==> Clear(ip, op, s) && Benign(|c.ops|, NO_SUMMARIES, Line(c.ops, ip + 1), next)
  {
    hide Apply, Clear;
  }

  lemma LineEndBenign(c: Chunk, ip: nat, s: State)
    requires ip < |c.ops| && c.ops[ip].Return?
    ensures Benign(|c.ops|, NO_SUMMARIES, Line(c.ops, ip), s) <==> Clear(ip, Return, s)
  {
    hide Clear;
  }

  lemma LineGuard(c: Chunk, seed: seq<Alias>)
    requires Linear(c.ops)
    ensures BenignFrom(c, NO_SUMMARIES, seed) <==> Benign(|c.ops|, NO_SUMMARIES, Line(c.ops, 0), State([], seed))
  {
    hide BlockOf, Benign, Line, BreaksLeave;
    LineBlock(c.ops);
  }

  // ----- the one frame of a run -----

  /** The one frame of a run of chunk 0, entered without arguments. */
  function Solo(ip: nat, locals: seq<Value>, stack: seq<Value>, host: Value, regions: seq<Origin>): Vm {
    Vm([Frame(0, 0, ip, locals, stack, [], {})], host, regions, 1)
  }

  lemma SoloEnters(m: seq<Chunk>)
    requires m != []
    ensures StepTo(m, INITIAL, Solo(0, Machine.Blank(m[0].localCount), [], {}, []))
  {
    var v := INITIAL;
    var f := Entered(m, v, 0, []);
    assert f.locals == Machine.Blank(m[0].localCount);
    assert Regions([]) == {};
    assert Next(m, v, Enter(0, [])) == Some(v.(frames := [f], nextFrame := 1));
  }

  lemma SoloStraight(m: seq<Chunk>, ip: nat, locals: seq<Value>, stack: seq<Value>, host: Value, regions: seq<Origin>, results: seq<Value>,
                     locals': seq<Value>, stack': seq<Value>)
    requires m != [] && ip < |m[0].ops| && Straight(m[0].ops[ip]) && Pops(m[0].ops[ip]) <= |stack| && SlotInRange(m[0].ops[ip], |locals|)
    requires var op := m[0].ops[ip];
      && Results(op, TakenOf(op, stack), locals, HostAfter(op, TakenOf(op, stack), host), |regions|, results)
      && locals' == LocalsAfter(op, locals, TakenOf(op, stack)) && stack' == LeftOf(op, stack) + results
    ensures var op := m[0].ops[ip];
      StepTo(m, Solo(ip, locals, stack, host, regions),
        Solo(ip + 1, locals', stack', HostAfter(op, TakenOf(op, stack), host),
          if op.NewComposite? then regions + [Origin(0, 0, ip)] else regions))
    ensures HandedOver(m[0].ops[ip], TakenOf(m[0].ops[ip], stack)) == {} ==>
      HostAfter(m[0].ops[ip], TakenOf(m[0].ops[ip], stack), host) == host
  {
    var op, v := m[0].ops[ip], Solo(ip, locals, stack, host, regions);
    var v' := Solo(ip + 1, locals', stack', HostAfter(op, TakenOf(op, stack), host),
      if op.NewComposite? then regions + [Origin(0, 0, ip)] else regions);
    assert StraightStep(v, v.frames[0], op, Proceed(true, results)).value.frames == v'.frames;
    assert Next(m, v, Proceed(true, results)) == Some(v');
  }

  // ----- single instructions of a run -----

  lemma SoloNew(m: seq<Chunk>, ip: nat, bytes: nat, locals: seq<Value>, below: seq<Value>, v: Value, host: Value, regions: seq<Origin>)
    requires m != [] && ip < |m[0].ops| && m[0].ops[ip] == NewComposite(FlatForm(bytes), 1)
    ensures StepTo(m, Solo(ip, locals, below + [v], host, regions),
      Solo(ip + 1, locals, below + [{|regions|}], host, regions + [Origin(0, 0, ip)]))
  {
    var op, stack, n: nat := m[0].ops[ip], below + [v], |regions|;
    assert LeftOf(op, stack) == below && TakenOf(op, stack) == [v];
    SoloStraight(m, ip, locals, stack, host, regions, [{n}], locals, below + [{n}]);
  }

  lemma SoloOn(m: seq<Chunk>, ip: nat, locals: seq<Value>, below: seq<Value>, v: Value, host: Value, regions: seq<Origin>, results: seq<Value>)
    requires m != [] && ip < |m[0].ops| && (m[0].ops[ip] == Yield || m[0].ops[ip] == PopN(1) || m[0].ops[ip] == IsEnum)
    requires results == match m[0].ops[ip] case Yield => [{}] case PopN(_) => [] case _ => [v, {}]
    ensures StepTo(m, Solo(ip, locals, below + [v], host, regions),
      Solo(ip + 1, locals, below + results, if m[0].ops[ip].Yield? then host + v else host, regions))
  {
    var op, stack := m[0].ops[ip], below + [v];
    assert LeftOf(op, stack) == below && TakenOf(op, stack) == [v];
    assert Regions([v]) == v by {
      assert [v][0] == v;
    }
    SoloStraight(m, ip, locals, stack, host, regions, results, locals, below + results);
  }

  /** A yield by the only frame there is. */
  lemma SoleYields(m: seq<Chunk>, v: Vm, x: Value)
    requires |v.frames| == 1 && Top(v).chunk < |m| && Top(v).ip < |m[Top(v).chunk].ops|
    requires m[Top(v).chunk].ops[Top(v).ip] == Yield && Top(v).stack == [x]
    ensures StepTo(m, v, v.(frames := [Top(v).(ip := Top(v).ip + 1, stack := [{}])], host := v.host + x))
  {
    hide StraightStep;
    YieldsOut(v, x);
    assert Next(m, v, Proceed(true, [{}])) == StraightStep(v, Top(v), Yield, Proceed(true, [{}]));
  }

  lemma YieldsOut(v: Vm, x: Value)
    requires |v.frames| == 1 && Top(v).stack == [x]
    ensures StraightStep(v, Top(v), Yield, Proceed(true, [{}]))
      == Some(v.(frames := [Top(v).(ip := Top(v).ip + 1, stack := [{}])], host := v.host + x))
  {
    var f, nothing: Value := Top(v), {};
    hide HostAfter, Results, WithTop, LeftOf, TakenOf;
    YieldTakes(f, x, v.host, |v.regions|);
    SoleTop(v, f.(ip := f.ip + 1, stack := [nothing]));
  }

  lemma SoleTop(v: Vm, g: Frame)
    requires |v.frames| == 1
    ensures WithTop(v, g) == v.(frames := [g])
  {
    assert v.frames[..0] + [g] == [g];
  }

  lemma YieldTakes(f: Frame, x: Value, host: Value, regions: nat)
    requires f.stack == [x]
    ensures Pops(Yield) <= |f.stack| && LeftOf(Yield, f.stack) + [{}] == [{}] && TakenOf(Yield, f.stack) == [x]
    ensures HostAfter(Yield, [x], host) == host + x && Results(Yield, [x], f.locals, host + x, regions, [{}])
  {
    var nothing: Value := {};
    assert LeftOf(Yield, f.stack) == [] && [x][0] == x && Regions([x]) == x;
  }

  /** A return with nothing of its own: the popped value is the caller's only operand, and is put back
      where it was. */
  lemma BareReturns(m: seq<Chunk>, v: Vm, x: Value)
    requires |v.frames| == 2 && Top(v).chunk < |m| && Top(v).ip < |m[Top(v).chunk].ops|
    requires m[Top(v).chunk].ops[Top(v).ip] == Return && Top(v).stack == [] && Top(v).locals == []
    requires v.frames[0].locals == [] && v.frames[0].stack == [x]
    ensures StepTo(m, v, v.(frames := [v.frames[0].(ip := v.frames[0].ip + 1)]))
  {
    var below, g, none := v.frames[..1], v.frames[0], v.frames[..0];
    assert below == [g] && below[..0] == none == [];
    assert Slots(none) == [] && Slots(below) == [] + g.locals + g.stack == [x];
    assert none + [g.(ip := g.ip + 1)] == [g.(ip := g.ip + 1)];
    assert Next(m, v, Proceed(true, [])) == Some(v.(frames := [g.(ip := g.ip + 1)]));
  }

  lemma SoloBox(m: seq<Chunk>, ip: nat, meta: nat, locals: seq<Value>, below: seq<Value>, v: Value, host: Value, regions: seq<Origin>)
    requires m != [] && ip < |m[0].ops| && m[0].ops[ip] == NewComposite(BoxedForm(meta), 1)
    ensures StepTo(m, Solo(ip, locals, below + [v], host, regions),
      Solo(ip + 1, locals, below + [{|regions|} + v], host, regions + [Origin(0, 0, ip)]))
  {
    var op, stack, n: nat := m[0].ops[ip], below + [v], |regions|;
    assert LeftOf(op, stack) == below && TakenOf(op, stack) == [v];
    assert Regions([v]) == v by {
      assert [v][0] == v;
    }
    SoloStraight(m, ip, locals, stack, host, regions, [{n} + v], locals, below + [{n} + v]);
  }

  /** A tuple of two that ends boxed. */
  lemma SoloKeep(m: seq<Chunk>, ip: nat, bytes: nat, locals: seq<Value>, below: seq<Value>, x: Value, y: Value, host: Value, regions: seq<Origin>)
    requires m != [] && ip < |m[0].ops| && m[0].ops[ip] == NewComposite(LooseForm(bytes), 2)
    ensures StepTo(m, Solo(ip, locals, below + [x, y], host, regions),
      Solo(ip + 1, locals, below + [{|regions|} + (x + y)], host, regions + [Origin(0, 0, ip)]))
  {
    var op, stack, n: nat := m[0].ops[ip], below + [x, y], |regions|;
    assert LeftOf(op, stack) == below && TakenOf(op, stack) == [x, y];
    assert Regions([x, y]) == x + y by {
      assert [x, y][0] == x && [x, y][1] == y;
    }
    SoloStraight(m, ip, locals, stack, host, regions, [{n} + (x + y)], locals, below + [{n} + (x + y)]);
  }

  lemma SoloData(m: seq<Chunk>, ip: nat, data: nat, locals: seq<Value>, below: seq<Value>, v: Value, host: Value, regions: seq<Origin>)
    requires m != [] && ip < |m[0].ops| && m[0].ops[ip] == SetData(data, true)
    ensures StepTo(m, Solo(ip, locals, below + [v], host, regions), Solo(ip + 1, locals, below, host + v, regions))
  {
    var op, stack := m[0].ops[ip], below + [v];
    assert LeftOf(op, stack) == below && TakenOf(op, stack) == [v];
    assert below + [] == below;
    SoloStraight(m, ip, locals, stack, host, regions, [], locals, below);
  }

  lemma SoloStore(m: seq<Chunk>, ip: nat, k: nat, locals: seq<Value>, below: seq<Value>, v: Value, host: Value, regions: seq<Origin>)
    requires m != [] && ip < |m[0].ops| && m[0].ops[ip] == SetLocal(k) && k < |locals|
    ensures StepTo(m, Solo(ip, locals, below + [v], host, regions), Solo(ip + 1, locals[k := v], below, host, regions))
  {
    var op, stack := m[0].ops[ip], below + [v];
    assert LeftOf(op, stack) == below && TakenOf(op, stack) == [v];
    assert below + [] == below;
    SoloStraight(m, ip, locals, stack, host, regions, [], locals[k := v], below);
  }

  lemma SoloPush(m: seq<Chunk>, ip: nat, locals: seq<Value>, stack: seq<Value>, v: Value, host: Value, regions: seq<Origin>)
    requires m != [] && ip < |m[0].ops| && SlotInRange(m[0].ops[ip], |locals|)
    requires match m[0].ops[ip] case Const(_) => v == {} case PushImmediate(_) => v == {} case GetLocal(k) => v == locals[k] case _ => false
    ensures StepTo(m, Solo(ip, locals, stack, host, regions), Solo(ip + 1, locals, stack + [v], host, regions))
  {
    var op := m[0].ops[ip];
    assert LeftOf(op, stack) == stack && TakenOf(op, stack) == [];
    SoloStraight(m, ip, locals, stack, host, regions, [v], locals, stack + [v]);
  }

  /** Delimiters and jumps. */
  lemma SoloGoes(m: seq<Chunk>, ip: nat, n: nat, locals: seq<Value>, stack: seq<Value>, host: Value, regions: seq<Origin>)
    requires m != [] && ip < |m[0].ops|
    requires match m[0].ops[ip] case Loop(_) => n == ip + 1 case EndIf => n == ip + 1 case EndLoop(t) => n == t case _ => false
    ensures StepTo(m, Solo(ip, locals, stack, host, regions), Solo(n, locals, stack, host, regions))
  {
    var op, v := m[0].ops[ip], Solo(ip, locals, stack, host, regions);
    assert LeftOf(op, stack) == stack && TakenOf(op, stack) == [] && stack + [] == stack;
    if op.EndLoop? {
      assert WithTop(v, v.frames[0].(ip := n)) == Solo(n, locals, stack, host, regions);
      assert Next(m, v, Proceed(true, [])) == Some(Solo(n, locals, stack, host, regions));
    } else {
      SoloStraight(m, ip, locals, stack, host, regions, [], locals, stack);
    }
  }

  lemma SoloSkips(m: seq<Chunk>, ip: nat, t: nat, locals: seq<Value>, below: seq<Value>, v: Value, host: Value, regions: seq<Origin>)
    requires m != [] && ip < |m[0].ops| && m[0].ops[ip] == If(t)
    ensures StepTo(m, Solo(ip, locals, below + [v], host, regions), Solo(t, locals, below, host, regions))
  {
    var u := Solo(ip, locals, below + [v], host, regions);
    assert LeftOf(If(t), below + [v]) == below;
    assert WithTop(u, u.frames[0].(ip := t, stack := below)) == Solo(t, locals, below, host, regions);
    assert Next(m, u, Proceed(false, [])) == Some(Solo(t, locals, below, host, regions));
  }

  // ----- single instructions of the analysis -----

  lemma ApplyConst(ip: nat, index: nat, s: State)
    ensures Apply(NO_SUMMARIES, ip, Const(index), s) == Applied(State(s.stack + [{}], s.locals), [])
  {
    assert Apply(NO_SUMMARIES, ip, Const(index), s).state.stack == s.stack + [{}];
  }

  lemma ApplyNew(ip: nat, bytes: nat, below: seq<Alias>, x: Alias, locals: seq<Alias>)
    ensures Apply(NO_SUMMARIES, ip, NewComposite(FlatForm(bytes), 1), State(below + [x], locals))
      == Applied(State(below + [{Site(ip)}], locals), [])
  {
    OneTaken(NewComposite(FlatForm(bytes), 1), below, x);
    assert Apply(NO_SUMMARIES, ip, NewComposite(FlatForm(bytes), 1), State(below + [x], locals)).state.stack == below + [{Site(ip)}];
  }

  lemma ApplyYield(ip: nat, below: seq<Alias>, x: Alias, locals: seq<Alias>)
    ensures Apply(NO_SUMMARIES, ip, Yield, State(below + [x], locals)) == Applied(State(below + [{}], locals), [Notice(x, Yielded(ip))])
  {
    OneTaken(Yield, below, x);
    assert Apply(NO_SUMMARIES, ip, Yield, State(below + [x], locals)).state.stack == below + [{}];
  }

  lemma ApplyDrop(ip: nat, below: seq<Alias>, x: Alias, locals: seq<Alias>)
    ensures Apply(NO_SUMMARIES, ip, PopN(1), State(below + [x], locals)) == Applied(State(below, locals), [])
  {
    OneTaken(PopN(1), below, x);
    assert Apply(NO_SUMMARIES, ip, PopN(1), State(below + [x], locals)).state.stack == below;
  }

  lemma ApplyPeek(ip: nat, below: seq<Alias>, x: Alias, locals: seq<Alias>)
    ensures Apply(NO_SUMMARIES, ip, IsEnum, State(below + [x], locals)) == Applied(State(below + [{}, {}], locals), [])
  {
    OneTaken(IsEnum, below, x);
    assert Apply(NO_SUMMARIES, ip, IsEnum, State(below + [x], locals)).state.stack == below + [{}, {}];
  }

  lemma ApplyBox(ip: nat, meta: nat, below: seq<Alias>, x: Alias, locals: seq<Alias>)
    ensures Apply(NO_SUMMARIES, ip, NewComposite(BoxedForm(meta), 1), State(below + [x], locals))
      == Applied(State(below + [{Site(ip)}], locals), [])
  {
    OneTaken(NewComposite(BoxedForm(meta), 1), below, x);
    assert Apply(NO_SUMMARIES, ip, NewComposite(BoxedForm(meta), 1), State(below + [x], locals)).state.stack == below + [{Site(ip)}];
  }

  lemma ApplyStore(ip: nat, k: nat, below: seq<Alias>, x: Alias, locals: seq<Alias>)
    requires k < |locals|
    ensures Apply(NO_SUMMARIES, ip, SetLocal(k), State(below + [x], locals))
      == Applied(State(below, locals[k := x]), [Notice(x, StoredToLocal(ip, k))])
  {
    OneTaken(SetLocal(k), below, x);
    assert Apply(NO_SUMMARIES, ip, SetLocal(k), State(below + [x], locals)).state.stack == below;
  }

  lemma ApplyImmediate(ip: nat, code: nat, s: State)
    ensures Apply(NO_SUMMARIES, ip, PushImmediate(code), s) == Applied(State(s.stack + [{}], s.locals), [])
  {
    assert Apply(NO_SUMMARIES, ip, PushImmediate(code), s).state.stack == s.stack + [{}];
  }

  lemma ApplyKeep(ip: nat, bytes: nat, below: seq<Alias>, x: Alias, y: Alias, locals: seq<Alias>)
    ensures Apply(NO_SUMMARIES, ip, NewComposite(LooseForm(bytes), 2), State(below + [x, y], locals))
      == Applied(State(below + [{Site(ip)}], locals), [])
  {
    TwoTaken(NewComposite(LooseForm(bytes), 2), below, x, y);
    assert Apply(NO_SUMMARIES, ip, NewComposite(LooseForm(bytes), 2), State(below + [x, y], locals)).state.stack == below + [{Site(ip)}];
  }

  lemma ApplyData(ip: nat, data: nat, below: seq<Alias>, x: Alias, locals: seq<Alias>)
    ensures Apply(NO_SUMMARIES, ip, SetData(data, true), State(below + [x], locals)) == Applied(State(below, locals), [])
  {
    OneTaken(SetData(data, true), below, x);
    assert Apply(NO_SUMMARIES, ip, SetData(data, true), State(below + [x], locals)).state.stack == below;
  }

  lemma ApplyCall(ip: nat, callee: nat, s: State)
    ensures Apply(NO_SUMMARIES, ip, Call(callee, 0), s) == Applied(State(s.stack + [{}], s.locals), [])
  {
    var r := Apply(NO_SUMMARIES, ip, Call(callee, 0), s);
    assert Taken(Call(callee, 0), s.stack) == [];
    assert r.log == [] && Produced(NO_SUMMARIES, ip, Call(callee, 0), [], s.locals) == {};
    assert r.state.stack == s.stack + [{}];
  }

  lemma TwoTaken(op: Op, below: seq<Alias>, x: Alias, y: Alias)
    requires Pops(op) == 2
    ensures Taken(op, below + [x, y]) == [x, y] && (below + [x, y])[..|below + [x, y]| - 2] == below && Union([x, y]) == x + y
  {
    assert [x, y][0] == x && [x, y][1] == y;
  }

  lemma OneTaken(op: Op, below: seq<Alias>, x: Alias)
    requires Pops(op) == 1
    ensures Taken(op, below + [x]) == [x] && (below + [x])[..|below + [x]| - 1] == below && Union([x]) == x
  {
    assert [x][0] == x;
  }

  // ----- steps of a walk, backwards -----

  lemma StepPush(c: Chunk, ip: nat, s: State, h: nat, rest: seq<Notice>)
    requires ip < |c.ops| && Linear(c.ops) && (c.ops[ip].Const? || c.ops[ip].PushImmediate?)
    requires Ended(c, ip + 1, h + 1, State(s.stack + [{}], s.locals), rest)
    ensures Ended(c, ip, h, s, rest)
  {
    hide Ended, Apply;
    if c.ops[ip].Const? {
      ApplyConst(ip, c.ops[ip].index, s);
    } else {
      ApplyImmediate(ip, c.ops[ip].code, s);
    }
    LineStep(c, ip, c.ops[ip], h, s, State(s.stack + [{}], s.locals), [], rest);
    assert [] + rest == rest;
  }

  lemma StepNew(c: Chunk, ip: nat, bytes: nat, below: seq<Alias>, x: Alias, locals: seq<Alias>, h: nat, rest: seq<Notice>)
    requires ip < |c.ops| && Linear(c.ops) && c.ops[ip] == NewComposite(FlatForm(bytes), 1)
    requires Ended(c, ip + 1, h + 1, State(below + [{Site(ip)}], locals), rest)
    ensures Ended(c, ip, h + 1, State(below + [x], locals), rest)
  {
    hide Ended, Apply;
    ApplyNew(ip, bytes, below, x, locals);
    LineStep(c, ip, c.ops[ip], h + 1, State(below + [x], locals), State(below + [{Site(ip)}], locals), [], rest);
    assert [] + rest == rest;
  }

  lemma StepBox(c: Chunk, ip: nat, meta: nat, below: seq<Alias>, x: Alias, locals: seq<Alias>, h: nat, rest: seq<Notice>)
    requires ip < |c.ops| && Linear(c.ops) && c.ops[ip] == NewComposite(BoxedForm(meta), 1)
    requires Ended(c, ip + 1, h + 1, State(below + [{Site(ip)}], locals), rest)
    ensures Ended(c, ip, h + 1, State(below + [x], locals), rest)
  {
    hide Ended, Apply;
    ApplyBox(ip, meta, below, x, locals);
    LineStep(c, ip, c.ops[ip], h + 1, State(below + [x], locals), State(below + [{Site(ip)}], locals), [], rest);
    assert [] + rest == rest;
  }

  lemma StepKeep(c: Chunk, ip: nat, bytes: nat, below: seq<Alias>, x: Alias, y: Alias, locals: seq<Alias>, h: nat, rest: seq<Notice>)
    requires ip < |c.ops| && Linear(c.ops) && c.ops[ip] == NewComposite(LooseForm(bytes), 2)
    requires Ended(c, ip + 1, h + 1, State(below + [{Site(ip)}], locals), rest)
    ensures Ended(c, ip, h + 2, State(below + [x, y], locals), rest)
  {
    hide Ended, Apply;
    ApplyKeep(ip, bytes, below, x, y, locals);
    LineStep(c, ip, c.ops[ip], h + 2, State(below + [x, y], locals), State(below + [{Site(ip)}], locals), [], rest);
    assert [] + rest == rest;
  }

  lemma StepYield(c: Chunk, ip: nat, below: seq<Alias>, x: Alias, locals: seq<Alias>, h: nat, rest: seq<Notice>)
    requires ip < |c.ops| && Linear(c.ops) && c.ops[ip] == Yield
    requires Ended(c, ip + 1, h + 1, State(below + [{}], locals), rest)
    ensures Ended(c, ip, h + 1, State(below + [x], locals), [Notice(x, Yielded(ip))] + rest)
  {
    hide Ended, Apply;
    ApplyYield(ip, below, x, locals);
    LineStep(c, ip, c.ops[ip], h + 1, State(below + [x], locals), State(below + [{}], locals), [Notice(x, Yielded(ip))], rest);
  }

  lemma StepDrop(c: Chunk, ip: nat, below: seq<Alias>, x: Alias, locals: seq<Alias>, h: nat, rest: seq<Notice>)
    requires ip < |c.ops| && Linear(c.ops) && c.ops[ip] == PopN(1)
    requires Ended(c, ip + 1, h, State(below, locals), rest)
    ensures Ended(c, ip, h + 1, State(below + [x], locals), rest)
  {
    hide Ended, Apply;
    ApplyDrop(ip, below, x, locals);
    LineStep(c, ip, c.ops[ip], h + 1, State(below + [x], locals), State(below, locals), [], rest);
    assert [] + rest == rest;
  }

  lemma StepPeek(c: Chunk, ip: nat, below: seq<Alias>, x: Alias, locals: seq<Alias>, h: nat, rest: seq<Notice>)
    requires ip < |c.ops| && Linear(c.ops) && c.ops[ip] == IsEnum
    requires Ended(c, ip + 1, h + 2, State(below + [{}, {}], locals), rest)
    ensures Ended(c, ip, h + 1, State(below + [x], locals), rest)
  {
    hide Ended, Apply;
    ApplyPeek(ip, below, x, locals);
    LineStep(c, ip, c.ops[ip], h + 1, State(below + [x], locals), State(below + [{}, {}], locals), [], rest);
    assert [] + rest == rest;
  }

  lemma StepStore(c: Chunk, ip: nat, slot: nat, below: seq<Alias>, x: Alias, locals: seq<Alias>, h: nat, rest: seq<Notice>)
    requires ip < |c.ops| && Linear(c.ops) && c.ops[ip] == SetLocal(slot) && slot < |locals|
    requires Ended(c, ip + 1, h, State(below, locals[slot := x]), rest)
    ensures Ended(c, ip, h + 1, State(below + [x], locals), [Notice(x, StoredToLocal(ip, slot))] + rest)
  {
    hide Ended, Apply;
    ApplyStore(ip, slot, below, x, locals);
    LineStep(c, ip, c.ops[ip], h + 1, State(below + [x], locals), State(below, locals[slot := x]), [Notice(x, StoredToLocal(ip, slot))], rest);
  }

  lemma StepData(c: Chunk, ip: nat, data: nat, below: seq<Alias>, x: Alias, locals: seq<Alias>, h: nat, rest: seq<Notice>)
    requires ip < |c.ops| && Linear(c.ops) && c.ops[ip] == SetData(data, true)
    requires Ended(c, ip + 1, h, State(below, locals), rest)
    ensures Ended(c, ip, h + 1, State(below + [x], locals), rest)
  {
    hide Ended, Apply;
    ApplyData(ip, data, below, x, locals);
    LineStep(c, ip, c.ops[ip], h + 1, State(below + [x], locals), State(below, locals), [], rest);
    assert [] + rest == rest;
  }

  lemma StepCall(c: Chunk, ip: nat, callee: nat, s: State, h: nat, rest: seq<Notice>)
    requires ip < |c.ops| && Linear(c.ops) && c.ops[ip] == Call(callee, 0)
    requires Ended(c, ip + 1, h + 1, State(s.stack + [{}], s.locals), rest)
    ensures Ended(c, ip, h, s, rest)
  {
    hide Ended, Apply;
    ApplyCall(ip, callee, s);
    LineStep(c, ip, c.ops[ip], h, s, State(s.stack + [{}], s.locals), [], rest);
    assert [] + rest == rest;
  }
}
