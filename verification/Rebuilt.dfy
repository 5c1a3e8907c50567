/** Every path through verified code is a run: what control can do, the machine does for some answers and
    conditions, as long as the chunks called on the way can return. So a site control can come back to is
    built at twice in one pass of one invocation, on some run. */
module Rebuilt {
  import opened Options
  import opened Bytecode
  import opened Liveness
  import opened Confine
  import opened ConfineOrder
  import opened ConfineTotal
  import opened Annotation
  import opened Machine
  import opened Cover
  import opened Dispatch
  import opened Again
  import opened Builds

  // ----- the operand height at every address -----

  /** `d` gives the operand height at every address control can reach. */
  predicate Leveled(c: Chunk, d: map<nat, nat>) {
    && 0 in d && d[0] == 0
    && forall k :: k in d && k < |c.ops| && !c.ops[k].Trap? ==> LeveledAt(c, d, k)
  }

  predicate LeveledAt(c: Chunk, d: map<nat, nat>, k: nat)
    requires k in d && k < |c.ops|
  {
    && Pops(c.ops[k]) <= d[k]
    && forall n :: n in Successors(c.ops, k) ==> n in d && d[n] == d[k] - Pops(c.ops[k]) + Pushes(c.ops[k])
  }

  lemma LevelsOf(c: Chunk) returns (d: map<nat, nat>)
    requires Verified(c)
    ensures Leveled(c, d)
  {
    hide Verified, Interpret, Flows, Sized, FloorsKept, LeveledAt;
    InterpretCompletes(c, NO_SUMMARIES, EmptyLocals(c), 0);
    var a := AnnotateChunk(c, NO_SUMMARIES, EmptyLocals(c));
    d := map k | k in a :: |a[k].stack|;
    forall k | k in d && k < |c.ops| && !c.ops[k].Trap?
      ensures LeveledAt(c, d, k)
    {
      FlowLevel(c, NO_SUMMARIES, Interpret(c, EmptyLocals(c), NO_SUMMARIES).log, a, d, k);
    }
  }

  lemma FlowLevel(c: Chunk, sums: Summaries, log: seq<Notice>, a: Ann, d: map<nat, nat>, k: nat)
    requires k in a && k < |c.ops| && !c.ops[k].Trap? && Flows(c, sums, log, k, a[k], a)
    requires d.Keys == a.Keys && forall k :: k in a ==> d[k] == |a[k].stack|
    ensures k in d && LeveledAt(c, d, k)
  {
    hide Produced, NoticesOf, DepthEffect, Successors;
  }

  /** The height behind a path, read off its instructions. */
  function Level(ops: seq<Op>, p: seq<nat>): int
    requires forall j :: 0 <= j < |p| ==> p[j] < |ops|
  {
    if |p| <= 1 then 0
    else
      var op := ops[p[|p| - 2]];
      Level(ops, p[..|p| - 1]) - Pops(op) + Pushes(op)
  }

  lemma {:induction false} LevelAlong(c: Chunk, d: map<nat, nat>, p: seq<nat>)
    requires Leveled(c, d) && PathWithin(c.ops, 0, |c.ops|, p) && p != [] && p[0] == 0
    ensures p[|p| - 1] in d && d[p[|p| - 1]] == Level(c.ops, p)
    decreases |p|
  {
    hide DepthEffect;
    if |p| > 1 {
      var q := p[..|p| - 1];
      LevelAlong(c, d, q);
      assert p[|p| - 2 + 1] in Successors(c.ops, p[|p| - 2]);
      assert LeveledAt(c, d, q[|q| - 1]);
    }
  }

  // ----- ways from one state of the machine to another -----

  /** The innermost frame is about to restart. */
  predicate Resetting(m: seq<Chunk>, v: Vm) {
    v.frames != [] && RestartsAt(m, v, Top(v).id)
  }

  ghost predicate Way(m: seq<Chunk>, run: seq<Vm>, v: Vm, v': Vm) {
    && |run| > 0 && run[0] == v && run[|run| - 1] == v'
    && forall i :: 0 <= i < |run| - 1 ==> StepTo(m, run[i], run[i + 1]) && !Resetting(m, run[i])
  }

  /** The machine can get from one state to the other without a restart on the way. */
  ghost predicate Onto(m: seq<Chunk>, v: Vm, v': Vm) {
    exists run :: Way(m, run, v, v')
  }

  lemma OntoSelf(m: seq<Chunk>, v: Vm)
    ensures Onto(m, v, v)
  {
    assert Way(m, [v], v, v);
  }

  lemma OntoStep(m: seq<Chunk>, v: Vm, u: Vm)
    requires StepTo(m, v, u) && !Resetting(m, v)
    ensures Onto(m, v, u)
  {
    assert Way(m, [v, u], v, u);
  }

  lemma OntoOn(m: seq<Chunk>, v: Vm, u: Vm, t: Vm)
    requires Onto(m, v, u) && Onto(m, u, t)
    ensures Onto(m, v, t)
  {
    hide StepTo, Resetting;
    var p :| Way(m, p, v, u);
    var q :| Way(m, q, u, t);
    var r := p + q[1..];
    forall i | 0 <= i < |r| - 1
      ensures StepTo(m, r[i], r[i + 1]) && !Resetting(m, r[i])
    {
      if i + 1 >= |p| {
        assert r[i] == q[i - |p| + 1] && r[i + 1] == q[i - |p| + 2];
      } else {
        assert r[i] == p[i] && r[i + 1] == p[i + 1];
      }
    }
    assert Way(m, r, v, t);
  }

  // ----- one edge -----

  /** The frame stands at `ip` of chunk `c` with so many operands. */
  predicate At(c: Chunk, f: Frame, ip: nat, h: nat) {
    f.ip == ip && |f.stack| == h && |f.locals| == c.localCount
  }

  /** Only the innermost frame moved, and it is the same frame; regions may have come. */
  predicate TopMoved(v: Vm, v': Vm) {
    && v.frames != [] && |v'.frames| == |v.frames| && v'.frames[..|v.frames| - 1] == v.frames[..|v.frames| - 1]
    && Top(v').id == Top(v).id && Top(v').chunk == Top(v).chunk
    && v.regions <= v'.regions
  }

  /** A result the instruction may have. */
  function SomeResult(op: Op, taken: seq<Value>, locals: seq<Value>, newId: nat, i: nat): (v: Value)
    requires |taken| == Pops(op) && SlotInRange(op, |locals|)
    ensures forall host :: Result(op, taken, locals, host, newId, i, v)
  {
    match op
    case Dup => taken[0]
    case GetLocal(slot) => locals[slot]
    case NewComposite(form, _) => if form.BoxedForm? then {newId} + Regions(taken) else {newId}
    case IsEnum | IsStruct => if i == 0 then taken[0] else {}
    case _ => {}
  }

  /** A straight instruction can always go on. */
  lemma StraightOn(m: seq<Chunk>, v: Vm) returns (v': Vm)
    requires v.frames != [] && Top(v).chunk < |m| && Top(v).ip < |m[Top(v).chunk].ops|
    requires var op := m[Top(v).chunk].ops[Top(v).ip];
      Straight(op) && Pops(op) <= |Top(v).stack| && SlotInRange(op, |Top(v).locals|)
    ensures StepTo(m, v, v') && TopMoved(v, v')
    ensures var f, g, op := Top(v), Top(v'), m[Top(v).chunk].ops[Top(v).ip];
      && g.ip == f.ip + 1 && |g.stack| == |f.stack| - Pops(op) + Pushes(op) && |g.locals| == |f.locals|
      && (op.NewComposite? ==> v'.regions == v.regions + [Origin(f.chunk, f.id, f.ip)])
  {
    hide DepthEffect, Result;
    var f := Top(v);
    var op := m[f.chunk].ops[f.ip];
    var taken := TakenOf(op, f.stack);
    var results := seq(Pushes(op), i requires 0 <= i < Pushes(op) => SomeResult(op, taken, f.locals, |v.regions|, i));
    assert Results(op, taken, f.locals, HostAfter(op, taken, v.host), |v.regions|, results);
    v' := StraightStep(v, f, op, Proceed(true, results)).value;
    assert Next(m, v, Proceed(true, results)) == Some(v');
  }

  /** Every edge of the code is one the machine can take, calls apart. */
  lemma EdgeOn(m: seq<Chunk>, v: Vm, d: map<nat, nat>, n: nat) returns (v': Vm)
    requires v.frames != [] && Top(v).chunk < |m| && Top(v).ip < |m[Top(v).chunk].ops| && Top(v).ip in d
    requires var c := m[Top(v).chunk];
      && At(c, Top(v), Top(v).ip, d[Top(v).ip]) && LeveledAt(c, d, Top(v).ip) && SlotInRange(c.ops[Top(v).ip], c.localCount)
      && !c.ops[Top(v).ip].Call? && n in Successors(c.ops, Top(v).ip)
    ensures Onto(m, v, v') && TopMoved(v, v') && n in d && At(m[Top(v).chunk], Top(v'), n, d[n])
    ensures m[Top(v).chunk].ops[Top(v).ip].NewComposite? ==>
      v'.regions == v.regions + [Origin(Top(v).chunk, Top(v).id, Top(v).ip)]
  {
    hide DepthEffect, Results;
    var f := Top(v);
    var op := m[f.chunk].ops[f.ip];
    if Straight(op) {
      hide Successors;
      StraightSuccessor(m[f.chunk].ops, f.ip);
      v' := StraightOn(m, v);
    } else {
      v' := JumpOn(m, v, n);
    }
    OntoStep(m, v, v');
  }

  lemma StraightSuccessor(ops: seq<Op>, ip: nat)
    requires ip < |ops| && (Straight(ops[ip]) || ops[ip].Call?)
    ensures Successors(ops, ip) == {ip + 1} && !ops[ip].Reset?
  {}

  lemma JumpOn(m: seq<Chunk>, v: Vm, n: nat) returns (v': Vm)
    requires v.frames != [] && Top(v).chunk < |m| && Top(v).ip < |m[Top(v).chunk].ops|
    requires var ops, f := m[Top(v).chunk].ops, Top(v);
      n in Successors(ops, f.ip) && !Straight(ops[f.ip]) && !ops[f.ip].Call? && Pops(ops[f.ip]) <= |f.stack|
    ensures !m[Top(v).chunk].ops[Top(v).ip].Reset?
    ensures StepTo(m, v, v') && TopMoved(v, v')
    ensures var f, g, op := Top(v), Top(v'), m[Top(v).chunk].ops[Top(v).ip];
      g.ip == n && |g.stack| == |f.stack| - Pops(op) + Pushes(op) && |g.locals| == |f.locals| && !op.NewComposite?
  {
    var f := Top(v);
    var op := m[f.chunk].ops[f.ip];
    var branch := if op.If? then n == f.ip + 1 else n != f.ip + 1;
    var g := f.(ip := JumpTo(op, f.ip, branch), stack := LeftOf(op, f.stack));
    v' := WithTop(v, g);
    assert Next(m, v, Proceed(branch, [])) == Some(v');
  }

  // ----- calls that can return -----

  /** Chunk `k`, entered, can get to a return that finds a value in its own frame, through calls that
      can return themselves, nested to depth `n` at most. */
  ghost predicate Answers(m: seq<Chunk>, k: nat, n: nat)
    decreases n, 1
  {
    n > 0 && exists p :: Completes(m, k, p, n)
  }

  ghost predicate Completes(m: seq<Chunk>, k: nat, p: seq<nat>, n: nat)
    requires n > 0
    decreases n, 0
  {
    && k < |m| && Verified(m[k])
    && PathWithin(m[k].ops, 0, |m[k].ops|, p) && p != [] && p[0] == 0
    && m[k].ops[p[|p| - 1]].Return? && (m[k].localCount > 0 || Level(m[k].ops, p) > 0)
    && forall j :: 0 <= j < |p| ==> CallAnswered(m, m[k].ops[p[j]], n - 1)
  }

  /** A call, if it is one, goes to a chunk that has room for its arguments and can return. */
  ghost predicate CallAnswered(m: seq<Chunk>, op: Op, n: nat)
    decreases n, 2
  {
    op.Call? ==> op.callee < |m| && op.argc <= m[op.callee].localCount && Answers(m, op.callee, n)
  }

  /** Every path is one the machine can take, if the calls on it can return. */
  lemma {:induction false} PathOn(m: seq<Chunk>, v: Vm, d: map<nat, nat>, p: seq<nat>, n: nat) returns (v': Vm)
    requires v.frames != [] && Top(v).chunk < |m| && Verified(m[Top(v).chunk]) && Leveled(m[Top(v).chunk], d)
    requires PathWithin(m[Top(v).chunk].ops, 0, |m[Top(v).chunk].ops|, p) && p != [] && p[0] in d
    requires At(m[Top(v).chunk], Top(v), p[0], d[p[0]])
    requires forall j :: 0 <= j < |p| - 1 ==> CallAnswered(m, m[Top(v).chunk].ops[p[j]], n)
    ensures Onto(m, v, v') && TopMoved(v, v') && p[|p| - 1] in d
    ensures At(m[Top(v).chunk], Top(v'), p[|p| - 1], d[p[|p| - 1]])
    ensures |p| > 1 && m[Top(v).chunk].ops[p[0]].NewComposite? ==>
      |v.regions| < |v'.regions| && v'.regions[|v.regions|] == Origin(Top(v).chunk, Top(v).id, p[0])
    decreases n, |p|, 1
  {
    var c := m[Top(v).chunk];
    hide Verified, CallAnswered, Successors, DepthEffect, Onto, LeveledAt;
    if |p| == 1 {
      OntoSelf(m, v);
      v' := v;
    } else {
      assert p[0 + 1] in Successors(c.ops, p[0]);
      NotTrap(c.ops, p[0], p[1]);
      SlotsThere(c, p[0]);
      var u: Vm;
      if c.ops[p[0]].Call? {
        u := CallOn(m, v, d, p[1], n);
      } else {
        u := EdgeOn(m, v, d, p[1]);
      }
      v' := PathOn(m, u, d, p[1..], n);
      OntoOn(m, v, u, v');
    }
  }

  lemma NotTrap(ops: seq<Op>, ip: nat, n: nat)
    requires ip < |ops| && n in Successors(ops, ip)
    ensures !ops[ip].Trap?
  {}

  lemma SlotsThere(c: Chunk, ip: nat)
    requires Verified(c) && ip < |c.ops|
    ensures SlotInRange(c.ops[ip], c.localCount)
  {}

  /** A call that can return is over, on some way, with its result pushed. */
  lemma {:induction false} CallOn(m: seq<Chunk>, v: Vm, d: map<nat, nat>, next: nat, n: nat) returns (v': Vm)
    requires v.frames != [] && Top(v).chunk < |m| && Top(v).ip < |m[Top(v).chunk].ops| && Top(v).ip in d
    requires var c := m[Top(v).chunk];
      && At(c, Top(v), Top(v).ip, d[Top(v).ip]) && LeveledAt(c, d, Top(v).ip)
      && c.ops[Top(v).ip].Call? && next in Successors(c.ops, Top(v).ip) && CallAnswered(m, c.ops[Top(v).ip], n)
    ensures Onto(m, v, v') && TopMoved(v, v') && next in d && At(m[Top(v).chunk], Top(v'), next, d[next])
    decreases n, 0, 0
  {
    hide Verified, Onto, Level, Resetting, Successors;
    var f := Top(v);
    var op := m[f.chunk].ops[f.ip];
    StraightSuccessor(m[f.chunk].ops, f.ip);
    assert Answers(m, op.callee, n);
    var p :| Completes(m, op.callee, p, n);
    var c := m[op.callee];
    var u := CallIn(m, v);
    var e := LevelsOf(c);
    LevelAlong(c, e, p);
    var t := PathOn(m, u, e, p, n - 1);
    assert t.frames[..|t.frames| - 1] == u.frames[..|u.frames| - 1];
    assert |Top(t).stack| > 0 || |Top(t).locals| > 0;
    assert Machine.Returned(Top(t)).Some?;
    v' := ReturnOut(m, v, u, t);
    OntoOn(m, v, u, t);
    OntoOn(m, v, t, v');
  }

  lemma CallIn(m: seq<Chunk>, v: Vm) returns (u: Vm)
    requires v.frames != [] && Top(v).chunk < |m| && Top(v).ip < |m[Top(v).chunk].ops|
    requires var op := m[Top(v).chunk].ops[Top(v).ip];
      op.Call? && Pops(op) <= |Top(v).stack| && op.callee < |m| && op.argc <= m[op.callee].localCount
    ensures Onto(m, v, u) && u.regions == v.regions && |u.frames| == |v.frames| + 1
    ensures var f, op := Top(v), m[Top(v).chunk].ops[Top(v).ip];
      && u.frames[..|v.frames|] == v.frames[..|v.frames| - 1] + [f.(stack := LeftOf(op, f.stack))]
      && Top(u).chunk == op.callee && At(m[op.callee], Top(u), 0, 0)
  {
    var f := Top(v);
    var op := m[f.chunk].ops[f.ip];
    u := CallStep(m, v, f, op).value;
    assert Next(m, v, Proceed(true, [])) == Some(u);
    OntoStep(m, v, u);
  }

  lemma ReturnOut(m: seq<Chunk>, v: Vm, u: Vm, t: Vm) returns (v': Vm)
    requires v.frames != [] && Top(v).chunk < |m| && Top(v).ip < |m[Top(v).chunk].ops|
    requires var f, op := Top(v), m[Top(v).chunk].ops[Top(v).ip];
      && op.Call? && Pops(op) <= |f.stack| && |u.frames| == |v.frames| + 1
      && u.frames[..|v.frames|] == v.frames[..|v.frames| - 1] + [f.(stack := LeftOf(op, f.stack))]
    requires |t.frames| == |u.frames| && t.frames[..|v.frames|] == u.frames[..|v.frames|] && v.regions <= t.regions
    requires Top(t).chunk < |m| && Top(t).ip < |m[Top(t).chunk].ops| && m[Top(t).chunk].ops[Top(t).ip].Return?
    requires Machine.Returned(Top(t)).Some?
    ensures Onto(m, t, v') && TopMoved(v, v')
    ensures var f, g := Top(v), Top(v');
      g.ip == f.ip + 1 && |g.stack| == |f.stack| - Pops(m[f.chunk].ops[f.ip]) + 1 && g.locals == f.locals
  {
    var f, k := Top(v), |v.frames| - 1;
    assert t.frames[k] == t.frames[..|v.frames|][k] == f.(stack := LeftOf(m[f.chunk].ops[f.ip], f.stack));
    v' := ReturnStep(t, Top(t)).value;
    assert t.frames[..k] == t.frames[..|v.frames|][..k] == v.frames[..k];
    assert Next(m, t, Proceed(true, [])) == Some(v');
    OntoStep(m, t, v');
  }

  // ----- a site built at twice -----

  /** Some restart of the frame lies between the constructions of regions `q` and `r`. */
  predicate Apart(m: seq<Chunk>, run: seq<Vm>, i: nat, q: nat, r: nat)
    requires i < |run| && r < |run[i].regions|
  {
    exists k :: 0 <= k < i && q < |run[k].regions| <= r && RestartsAt(m, run[k], run[i].regions[r].frame)
  }

  /** On this run one frame builds at the site twice without a restart in between. */
  ghost predicate TwiceBuilt(m: seq<Chunk>, chunk: nat, site: nat, run: seq<Vm>, i: nat, q: nat, r: nat) {
    && IsRun(m, run) && i < |run| && q < r < |run[i].regions|
    && run[i].regions[q] == run[i].regions[r] && run[i].regions[r].chunk == chunk && run[i].regions[r].site == site
    && !Apart(m, run, i, q, r)
  }

  ghost predicate BuildsTwice(m: seq<Chunk>, chunk: nat, site: nat) {
    exists run, i, q, r :: TwiceBuilt(m, chunk, site, run, i, q, r)
  }

  /** At a live site, in a chunk whose calls can return, some invocation on some run builds twice between
      two restarts if and only if control can come back to the site. */
  lemma BuiltTwiceExactly(m: seq<Chunk>, chunk: nat, site: nat, n: nat)
    requires chunk < |m| && Verified(m[chunk]) && site < |m[chunk].ops| && m[chunk].ops[site].NewComposite?
    requires Live(BlockOf(m[chunk].ops, 0, |m[chunk].ops|).value, site)
    requires forall i :: 0 <= i < |m[chunk].ops| ==> CallAnswered(m, m[chunk].ops[i], n)
    ensures BuildsTwice(m, chunk, site) <==> ComesBack(m[chunk].ops, site)
  {
    hide Verified, Live, BlockOf, CallAnswered, ComesBack, IsRun, RestartsAt;
    if run, i, q, r :| TwiceBuilt(m, chunk, site, run, i, q, r) {
      if !ComesBack(m[chunk].ops, site) {
        BuiltOnce(m, run, i, q, r);
      }
    }
    if ComesBack(m[chunk].ops, site) {
      VisitedTwiceExactly(m[chunk], site);
      BuiltAgain(m, chunk, site, n);
    }
  }

  lemma BuiltAgain(m: seq<Chunk>, chunk: nat, site: nat, n: nat)
    requires chunk < |m| && Verified(m[chunk]) && site < |m[chunk].ops| && m[chunk].ops[site].NewComposite?
    requires VisitedTwice(m[chunk].ops, site)
    requires forall i :: 0 <= i < |m[chunk].ops| ==> CallAnswered(m, m[chunk].ops[i], n)
    ensures BuildsTwice(m, chunk, site)
  {
    hide Verified, CallAnswered, Onto, Leveled, DepthEffect, Successors;
    var c := m[chunk];
    var p, a, j :| TwiceOn(c.ops, site, p, a, j);
    var d := LevelsOf(c);
    var v := Started(m, chunk);
    LevelStart(c, d);
    var u := PathOn(m, v, d, p[..a + 1], n);
    var t := PathOn(m, u, d, p[a..j + 1], n);
    var s := SiteOn(m, t, d);
    OntoOn(m, v, u, t);
    OntoOn(m, v, t, s);
    RunTo(m, chunk, v, s, |u.regions|, |t.regions|, site);
  }

  lemma LevelStart(c: Chunk, d: map<nat, nat>)
    requires Leveled(c, d)
    ensures 0 in d && d[0] == 0
  {}

  /** The host enters the chunk without arguments. */
  lemma Started(m: seq<Chunk>, chunk: nat) returns (v: Vm)
    requires chunk < |m|
    ensures StepTo(m, INITIAL, v) && |v.frames| == 1 && Top(v).chunk == chunk && Top(v).id == 0 && At(m[chunk], Top(v), 0, 0)
    ensures v.regions == []
  {
    v := INITIAL.(frames := [Entered(m, INITIAL, chunk, [])], nextFrame := 1);
    assert Regions([]) == {};
    assert Next(m, INITIAL, Enter(chunk, [])) == Some(v);
  }

  /** The site builds once more. */
  lemma SiteOn(m: seq<Chunk>, t: Vm, d: map<nat, nat>) returns (s: Vm)
    requires t.frames != [] && Top(t).chunk < |m| && Leveled(m[Top(t).chunk], d) && Top(t).ip < |m[Top(t).chunk].ops| && Top(t).ip in d
    requires m[Top(t).chunk].ops[Top(t).ip].NewComposite? && At(m[Top(t).chunk], Top(t), Top(t).ip, d[Top(t).ip])
    ensures Onto(m, t, s) && s.regions == t.regions + [Origin(Top(t).chunk, Top(t).id, Top(t).ip)]
  {
    hide DepthEffect, Onto;
    s := EdgeOn(m, t, d, Top(t).ip + 1);
  }

  lemma RunTo(m: seq<Chunk>, chunk: nat, v: Vm, s: Vm, q: nat, r: nat, site: nat)
    requires StepTo(m, INITIAL, v) && Onto(m, v, s) && q < r < |s.regions| && r + 1 == |s.regions|
    requires s.regions[q] == s.regions[r] == Origin(chunk, 0, site)
    ensures BuildsTwice(m, chunk, site)
  {
    hide StepTo, RestartsAt;
    var way :| Way(m, way, v, s);
    var run := [INITIAL] + way;
    forall i | 0 <= i < |run| - 1
      ensures StepTo(m, run[i], run[i + 1])
    {
      if i > 0 {
        assert run[i] == way[i - 1] && run[i + 1] == way[i];
      }
    }
    var i := |run| - 1;
    forall k | 0 <= k < i && q < |run[k].regions| <= r
      ensures !RestartsAt(m, run[k], 0)
    {
      assert k > 0 && run[k] == way[k - 1];
      TopResets(m, run[k]);
    }
    assert TwiceBuilt(m, chunk, site, run, i, q, r);
  }

  lemma TopResets(m: seq<Chunk>, v: Vm)
    requires !Resetting(m, v)
    ensures !RestartsAt(m, v, 0)
  {}
}
