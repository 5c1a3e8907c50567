/** The walk against every path. A trail is a way the walk lets control take through the flat code; what is
    tracked along one trail is a fold of the transfer function, without branches, joins or fixpoints. The
    walk reports exactly what some trail reports. */
module Trails {
  import opened Options
  import opened Bytecode
  import opened Confine
  import opened ConfineShape
  import opened ConfineOrder
  import opened ConfineTotal
  import opened Annotation
  import opened Guard
  import opened Rebuilt

  // ----- trails -----

  /** The walk follows the edges of the code, and lets control go on behind a reset and fall out of a loop at
      its end. */
  predicate Onward(ops: seq<Op>, ip: nat, n: nat) {
    ip < |ops| && (n in Successors(ops, ip) || (n == ip + 1 && (ops[ip].Reset? || ops[ip].EndLoop?)))
  }

  predicate TrailTo(ops: seq<Op>, p: seq<nat>, n: nat) {
    && p != [] && p[0] == 0 && p[|p| - 1] == n
    && forall j :: 0 <= j < |p| - 1 ==> Onward(ops, p[j], p[j + 1])
  }

  /** Operands up to height `h`, the missing ones aliasing nothing. */
  function Padded(s: State, h: nat): State {
    if |s.stack| < h then s.(stack := s.stack + seq(h - |s.stack|, _ => {})) else s
  }

  /** What an edge makes of a state; `d` gives the heights a loop is left at. */
  function Across(ops: seq<Op>, sums: Summaries, d: map<nat, nat>, ip: nat, n: nat, s: State): State
  {
    if ip < |ops| && Apply(sums, ip, ops[ip], s).Applied? then
      var next := Apply(sums, ip, ops[ip], s).state;
      if ops[ip].EndLoop? && n in d then Padded(next, d[n]) else next
    else s
  }

  /** What is tracked at the end of a trail. */
  function Along(ops: seq<Op>, sums: Summaries, seed: seq<Alias>, d: map<nat, nat>, p: seq<nat>): State
    requires p != []
  {
    if |p| == 1 then State([], seed)
    else
      var q := p[..|p| - 1];
      Across(ops, sums, d, q[|q| - 1], p[|p| - 1], Along(ops, sums, seed, d, q))
  }

  // ----- what an instruction says of the tokens it meets -----

  /** The callee's summary clears the argument of leaking. */
  predicate Cleared(sums: Summaries, callee: nat, arg: nat) {
    callee < |sums.perChunk| &&
    match sums.perChunk[callee]
    case Some(s) => arg < |s.leaks| && !s.leaks[arg]
    case None => false
  }

  predicate OnTop(s: State, t: Token) {
    s.stack != [] && t in s.stack[|s.stack| - 1]
  }

  /** Some one of the top `n` operands may alias `t`. */
  predicate AmongTop(s: State, n: nat, t: Token) {
    n <= |s.stack| && exists i :: |s.stack| - n <= i < |s.stack| && t in s.stack[i]
  }

  /** At state `s` the instruction is to say this of token `t`: yields, native calls and returns of what they
      give away, stores of what they store, and calls of the arguments the callee's summary does not clear. */
  predicate Says(sums: Summaries, ip: nat, op: Op, s: State, t: Token, e: Event) {
    match op
    case Yield => e == Yielded(ip) && OnTop(s, t)
    case CallNative(_, _, _) => e == HandedToNative(ip) && AmongTop(s, Pops(op), t)
    case Call(callee, argc) =>
      e == PassedToCall(ip) && argc <= |s.stack| &&
      exists i :: 0 <= i < argc && t in s.stack[|s.stack| - argc + i] && !Cleared(sums, callee, i)
    case SetLocal(slot) => e == StoredToLocal(ip, slot) && OnTop(s, t)
    case Return => e == Returned(ip) && OnTop(s, t)
    case _ => false
  }

  /** Some trail leads to an instruction that says this. */
  ghost predicate SaidOnTrail(c: Chunk, sums: Summaries, seed: seq<Alias>, d: map<nat, nat>, t: Token, e: Event) {
    exists p :: SaidAt(c, sums, seed, d, p, t, e)
  }

  predicate SaidAt(c: Chunk, sums: Summaries, seed: seq<Alias>, d: map<nat, nat>, p: seq<nat>, t: Token, e: Event) {
    && p != [] && TrailTo(c.ops, p, p[|p| - 1]) && p[|p| - 1] < |c.ops|
    && Says(sums, p[|p| - 1], c.ops[p[|p| - 1]], Along(c.ops, sums, seed, d, p), t, e)
  }

  // ----- what is said and what is reported -----

  lemma LeaksUncleared(sums: Summaries, callee: nat, arg: nat)
    ensures Leaks(sums, callee, arg) <==> !Cleared(sums, callee, arg)
  {}

  /** The transfer function reports, of a straight instruction or a call, exactly what it is to say. */
  lemma NoticesSay(sums: Summaries, ip: nat, op: Op, s: State, t: Token, e: Event)
    requires Pops(op) <= |s.stack| && !op.Return?
    ensures Logged(NoticesOf(sums, ip, op, Taken(op, s.stack)), t, e) <==> Says(sums, ip, op, s, t, e)
  {
    if op.Call? {
      CallSays(sums, ip, op, s, t, e);
    } else if op.Yield? || op.CallNative? || op.SetLocal? {
      hide Taken;
      OneNotice(NoticesOf(sums, ip, op, Taken(op, s.stack)), t, e);
      TopTaken(s.stack, Pops(op), t);
      TakenTop(op, s, t);
    } else {
      Quiet(sums, ip, op, Taken(op, s.stack));
    }
  }

  lemma Quiet(sums: Summaries, ip: nat, op: Op, taken: seq<Alias>)
    requires !op.Call? && !op.Yield? && !op.CallNative? && !op.SetLocal? && !op.Return?
    ensures NoticesOf(sums, ip, op, taken) == []
  {}

  lemma TakenTop(op: Op, s: State, t: Token)
    requires (op.Yield? || op.SetLocal? || op.CallNative?) && Pops(op) <= |s.stack|
    ensures Taken(op, s.stack) == s.stack[|s.stack| - Pops(op)..]
    ensures op.Yield? || op.SetLocal? ==> Pops(op) == 1 && (AmongTop(s, 1, t) <==> OnTop(s, t))
  {}

  lemma OneNotice(log: seq<Notice>, t: Token, e: Event)
    requires |log| == 1
    ensures Logged(log, t, e) <==> t in log[0].tokens && log[0].event == e
  {
    assert log[0] in log;
  }

  lemma TopTaken(stack: seq<Alias>, k: nat, t: Token)
    requires k <= |stack|
    ensures t in Union(stack[|stack| - k..]) <==> exists i :: |stack| - k <= i < |stack| && t in stack[i]
  {
    var xs, n := stack[|stack| - k..], |stack| - k;
    forall i | n <= i < |stack|
      ensures stack[i] == xs[i - n]
    {}
    forall j | 0 <= j < |xs|
      ensures xs[j] == stack[n + j]
    {}
  }

  lemma CallSays(sums: Summaries, ip: nat, op: Op, s: State, t: Token, e: Event)
    requires op.Call? && Pops(op) <= |s.stack|
    ensures Logged(NoticesOf(sums, ip, op, Taken(op, s.stack)), t, e) <==> Says(sums, ip, op, s, t, e)
  {
    var xs, n := Taken(op, s.stack), |s.stack| - op.argc;
    var log := NoticesOf(sums, ip, op, xs);
    if Logged(log, t, e) {
      var m :| m in log && t in m.tokens && m.event == e;
      var i :| 0 <= i < |log| && log[i] == m;
      LeaksUncleared(sums, op.callee, i);
      assert t in s.stack[n + i] && !Cleared(sums, op.callee, i);
    }
    if Says(sums, ip, op, s, t, e) {
      var i :| 0 <= i < op.argc && t in s.stack[n + i] && !Cleared(sums, op.callee, i);
      LeaksUncleared(sums, op.callee, i);
      assert xs[i] == s.stack[n + i] && log[i] in log && t in log[i].tokens;
    }
  }

  lemma ReturnSays(sums: Summaries, ip: nat, s: State, t: Token, e: Event)
    ensures Logged([ReturnNotice(ip, s)], t, e) <==> Says(sums, ip, Return, s, t, e)
  {
    OneNotice([ReturnNotice(ip, s)], t, e);
  }

  // ----- every trail lies below the chart -----

  /** A chart of the chunk: closed under every edge the walk follows, its reports in the log. */
  ghost predicate Mapped(c: Chunk, sums: Summaries, seed: seq<Alias>, log: seq<Notice>, a: Ann) {
    && 0 in a && a[0] == State([], seed) && |seed| == c.localCount
    && (forall k :: k in a && k < |c.ops| ==> Flows(c, sums, log, k, a[k], a))
    && (forall k :: k in a && k < |c.ops| ==> Sized(c, k, a[k], 0, c.localCount, false))
  }

  /** The heights of a chart. */
  predicate HeightsOf(d: map<nat, nat>, a: Ann) {
    d.Keys == a.Keys && forall k :: k in a ==> d[k] == |a[k].stack|
  }

  lemma {:induction false} TrailBelow(c: Chunk, sums: Summaries, seed: seq<Alias>, log: seq<Notice>, a: Ann, d: map<nat, nat>, p: seq<nat>, n: nat)
    requires Mapped(c, sums, seed, log, a) && HeightsOf(d, a) && TrailTo(c.ops, p, n)
    ensures n in a && Leq(Along(c.ops, sums, seed, d, p), a[n])
    decreases |p|
  {
    hide Flows, Sized;
    if |p| == 1 {
      assert a[0] == State([], seed);
    } else {
      var q := p[..|p| - 1];
      var ip := q[|q| - 1];
      assert Onward(c.ops, p[|p| - 2], p[|p| - 1]);
      TrailBelow(c, sums, seed, log, a, d, q, ip);
      AcrossBelow(c, sums, log, a, d, ip, n, Along(c.ops, sums, seed, d, q));
    }
  }

  lemma AcrossBelow(c: Chunk, sums: Summaries, log: seq<Notice>, a: Ann, d: map<nat, nat>, ip: nat, n: nat, s: State)
    requires ip in a && ip < |c.ops| && Flows(c, sums, log, ip, a[ip], a) && HeightsOf(d, a)
    requires Onward(c.ops, ip, n) && Leq(s, a[ip])
    ensures n in a && Leq(Across(c.ops, sums, d, ip, n, s), a[n]) && Apply(sums, ip, c.ops[ip], s).Applied?
  {
    var op := c.ops[ip];
    assert !op.Trap?;
    ApplyMono(sums, sums, ip, op, s, a[ip]);
    hide Apply, ExitHeight;
    var r, x := Apply(sums, ip, op, s).state, Apply(sums, ip, op, a[ip]).state;
    if op.EndLoop? {
      ApplyIdentity(sums, ip, op, s);
      ApplyIdentity(sums, ip, op, a[ip]);
      if n == ip + 1 {
        assert Under(a[ip], a[n]);
      } else {
        assert d[n] == |a[n].stack| == |s.stack|;
      }
    } else {
      LeqTransitive(r, x, a[n]);
    }
  }

  /** What a trail says was reported. */
  lemma TrailReported(c: Chunk, sums: Summaries, seed: seq<Alias>, log: seq<Notice>, a: Ann, d: map<nat, nat>, t: Token, e: Event)
    requires Mapped(c, sums, seed, log, a) && HeightsOf(d, a) && SaidOnTrail(c, sums, seed, d, t, e)
    ensures Logged(log, t, e)
  {
    hide Flows, Sized, Says, LogLeq;
    var p :| SaidAt(c, sums, seed, d, p, t, e);
    var n := p[|p| - 1];
    TrailBelow(c, sums, seed, log, a, d, p, n);
    SaidReported(c, sums, log, a, n, Along(c.ops, sums, seed, d, p), t, e);
  }

  lemma SaidReported(c: Chunk, sums: Summaries, log: seq<Notice>, a: Ann, n: nat, s: State, t: Token, e: Event)
    requires n in a && n < |c.ops| && Flows(c, sums, log, n, a[n], a) && Leq(s, a[n]) && Says(sums, n, c.ops[n], s, t, e)
    ensures Logged(log, t, e)
  {
    var op := c.ops[n];
    assert !op.Trap?;
    ApplyMono(sums, sums, n, op, s, a[n]);
    hide Says, Successors, ExitHeight;
    if op.Return? {
      ReturnSays(sums, n, s, t, e);
      OneNotice([ReturnNotice(n, s)], t, e);
      OneNotice([ReturnNotice(n, a[n])], t, e);
    } else {
      NoticesSay(sums, n, op, s, t, e);
    }
  }

  // ----- where a token at a place came from -----

  datatype Place = Born | OnStack(index: nat) | InSlot(slot: nat)

  predicate Has(s: State, f: Place, t: Token) {
    match f
    case Born => true
    case OnStack(i) => i < |s.stack| && t in s.stack[i]
    case InSlot(k) => k < |s.locals| && t in s.locals[k]
  }

  predicate SameShape(x: State, s: State) {
    |x.stack| == |s.stack| && |x.locals| == |s.locals|
  }

  /** A token behind an instruction was at one place in front of it, or is born there whatever was in front. */
  lemma StepFrom(sums: Summaries, ip: nat, op: Op, s: State, g: Place, t: Token) returns (f: Place)
    requires Apply(sums, ip, op, s).Applied? && !g.Born? && Has(Apply(sums, ip, op, s).state, g, t)
    ensures Has(s, f, t)
    ensures forall x: State :: SameShape(x, s) && Has(x, f, t) ==>
      Apply(sums, ip, op, x).Applied? && Has(Apply(sums, ip, op, x).state, g, t)
  {
    hide DepthEffect, Produced, NoticesOf;
    if g.OnStack? && g.index >= |s.stack| - Pops(op) {
      f := ProducedFrom(sums, ip, op, s, t);
    } else if g.InSlot? && op == SetLocal(g.slot) {
      f := UnionFrom(op, s, t);
    } else {
      f := g;
    }
  }

  lemma UnionFrom(op: Op, s: State, t: Token) returns (f: Place)
    requires Pops(op) <= |s.stack| && t in Union(Taken(op, s.stack))
    ensures f.OnStack? && |s.stack| - Pops(op) <= f.index && Has(s, f, t)
    ensures forall x: State :: SameShape(x, s) && Has(x, f, t) ==> t in Union(Taken(op, x.stack))
  {
    hide DepthEffect;
    var xs, n := Taken(op, s.stack), |s.stack| - Pops(op);
    var k :| 0 <= k < |xs| && t in xs[k];
    assert s.stack[n + k] == xs[k];
    f := OnStack(n + k);
    forall x: State | SameShape(x, s) && Has(x, f, t)
      ensures t in Union(Taken(op, x.stack))
    {
      assert Taken(op, x.stack)[k] == x.stack[n + k];
    }
  }

  lemma ProducedFrom(sums: Summaries, ip: nat, op: Op, s: State, t: Token) returns (f: Place)
    requires Pops(op) <= |s.stack| && SlotInRange(op, |s.locals|) && t in Produced(sums, ip, op, Taken(op, s.stack), s.locals)
    ensures Has(s, f, t)
    ensures forall x: State :: SameShape(x, s) && Has(x, f, t) ==>
      t in Produced(sums, ip, op, Taken(op, x.stack), x.locals)
  {
    hide DepthEffect;
    if op.NewComposite? {
      f := Born;
    } else if op.GetLocal? {
      f := InSlot(op.slot);
    } else if op.Call? {
      f := CallFrom(sums, ip, op, s, t);
    } else {
      f := UnionFrom(op, s, t);
    }
  }

  lemma CallFrom(sums: Summaries, ip: nat, op: Op, s: State, t: Token) returns (f: Place)
    requires op.Call? && Pops(op) <= |s.stack| && t in Produced(sums, ip, op, Taken(op, s.stack), s.locals)
    ensures Has(s, f, t)
    ensures forall x: State :: SameShape(x, s) && Has(x, f, t) ==>
      t in Produced(sums, ip, op, Taken(op, x.stack), x.locals)
  {
    hide DepthEffect;
    var xs, n := Taken(op, s.stack), |s.stack| - Pops(op);
    var i :| 0 <= i < |xs| && Returns(sums, op.callee, i) && t in xs[i];
    assert s.stack[n + i] == xs[i];
    f := OnStack(n + i);
    forall x: State | SameShape(x, s) && Has(x, f, t)
      ensures t in Produced(sums, ip, op, Taken(op, x.stack), x.locals)
    {
      assert Taken(op, x.stack)[i] == x.stack[n + i];
    }
  }

  /** What an instruction says of a token, it says because of one place. */
  lemma SaysFrom(sums: Summaries, ip: nat, op: Op, s: State, t: Token, e: Event) returns (f: Place)
    requires Says(sums, ip, op, s, t, e)
    ensures Has(s, f, t)
    ensures forall x: State :: SameShape(x, s) && Has(x, f, t) ==> Says(sums, ip, op, x, t, e)
  {
    hide DepthEffect;
    var n := |s.stack|;
    if op.CallNative? {
      var i :| n - Pops(op) <= i < n && t in s.stack[i];
      f := OnStack(i);
    } else if op.Call? {
      var i :| 0 <= i < op.argc && t in s.stack[n - op.argc + i] && !Cleared(sums, op.callee, i);
      f := OnStack(n - op.argc + i);
      forall x: State | SameShape(x, s) && Has(x, f, t)
        ensures Says(sums, ip, op, x, t, e)
      {
        assert t in x.stack[n - op.argc + i];
      }
    } else {
      f := OnStack(n - 1);
    }
  }

  // ----- every token of the walk lies on a trail -----

  /** A chunk, its summaries and seed, and a chart of it. */
  datatype Course = Course(c: Chunk, sums: Summaries, seed: seq<Alias>, log: seq<Notice>, a: Ann, d: map<nat, nat>)

  ghost predicate Charted(w: Course) {
    Mapped(w.c, w.sums, w.seed, w.log, w.a) && HeightsOf(w.d, w.a)
  }

  function At(w: Course, p: seq<nat>): State
    requires p != []
  {
    Along(w.c.ops, w.sums, w.seed, w.d, p)
  }

  ghost predicate Brought(w: Course, n: nat, f: Place, t: Token) {
    exists p :: TrailTo(w.c.ops, p, n) && Has(At(w, p), f, t)
  }

  /** Some trail gets to `n`, and whatever `s` tracks some trail brings there. */
  ghost predicate Backed(w: Course, n: nat, s: State) {
    && (exists p :: TrailTo(w.c.ops, p, n))
    && forall f: Place, t :: !f.Born? && Has(s, f, t) ==> Brought(w, n, f, t)
  }

  /** Backed, and at the height of the chart. */
  ghost predicate Settled(w: Course, n: nat, s: State) {
    Backed(w, n, s) && n in w.a && SameShape(s, w.a[n])
  }

  ghost predicate LogBacked(w: Course, log: seq<Notice>) {
    forall t, e :: Logged(log, t, e) ==> SaidOnTrail(w.c, w.sums, w.seed, w.d, t, e)
  }

  lemma BroughtTo(w: Course, n: nat, s: State, f: Place, t: Token) returns (p: seq<nat>)
    requires Charted(w) && Settled(w, n, s) && Has(s, f, t)
    ensures TrailTo(w.c.ops, p, n) && Has(At(w, p), f, t) && SameShape(At(w, p), s)
  {
    hide Mapped;
    if f.Born? {
      p :| TrailTo(w.c.ops, p, n);
    } else {
      assert Brought(w, n, f, t);
      p :| TrailTo(w.c.ops, p, n) && Has(At(w, p), f, t);
    }
    TrailBelow(w.c, w.sums, w.seed, w.log, w.a, w.d, p, n);
  }

  /** One more edge on a trail. */
  lemma TrailOn(w: Course, p: seq<nat>, ip: nat, n: nat)
    requires TrailTo(w.c.ops, p, ip) && Onward(w.c.ops, ip, n)
    ensures TrailTo(w.c.ops, p + [n], n) && At(w, p + [n]) == Across(w.c.ops, w.sums, w.d, ip, n, At(w, p))
  {
    hide Across;
    var q := p + [n];
    assert q[..|q| - 1] == p;
  }

  /** What an instruction leaves is backed at every address the walk goes on at. */
  lemma BackedOn(w: Course, ip: nat, n: nat, s: State)
    requires Charted(w) && Settled(w, ip, s) && Onward(w.c.ops, ip, n)
    requires Apply(w.sums, ip, w.c.ops[ip], s).Applied?
    ensures Backed(w, n, Apply(w.sums, ip, w.c.ops[ip], s).state)
  {
    hide Mapped, Apply;
    var op := w.c.ops[ip];
    var r := Apply(w.sums, ip, op, s).state;
    var q :| TrailTo(w.c.ops, q, ip);
    TrailOn(w, q, ip, n);
    forall g: Place, t | !g.Born? && Has(r, g, t)
      ensures Brought(w, n, g, t)
    {
      var f := StepFrom(w.sums, ip, op, s, g, t);
      var p := BroughtTo(w, ip, s, f, t);
      TrailOn(w, p, ip, n);
      PaddedHas(Apply(w.sums, ip, op, At(w, p)).state, if n in w.d then w.d[n] else 0, g, t);
    }
  }

  lemma PaddedHas(s: State, h: nat, g: Place, t: Token)
    requires Has(s, g, t)
    ensures Has(Padded(s, h), g, t)
  {}

  /** Along the edges of the code the height is the chart's. */
  lemma SettledOn(w: Course, ip: nat, n: nat, s: State)
    requires Charted(w) && Settled(w, ip, s) && Onward(w.c.ops, ip, n)
    requires w.c.ops[ip].EndLoop? ==> n == w.c.ops[ip].target
    ensures Apply(w.sums, ip, w.c.ops[ip], s).Applied? && Settled(w, n, Apply(w.sums, ip, w.c.ops[ip], s).state)
  {
    hide Backed;
    ShapeOn(w.c, w.sums, w.log, w.a, ip, n, s);
    BackedOn(w, ip, n, s);
  }

  lemma ShapeOn(c: Chunk, sums: Summaries, log: seq<Notice>, a: Ann, ip: nat, n: nat, s: State)
    requires ip in a && Onward(c.ops, ip, n) && Flows(c, sums, log, ip, a[ip], a) && SameShape(s, a[ip])
    requires c.ops[ip].EndLoop? ==> n == c.ops[ip].target
    ensures Apply(sums, ip, c.ops[ip], s).Applied? && n in a && SameShape(Apply(sums, ip, c.ops[ip], s).state, a[n])
  {
    hide Produced, NoticesOf, DepthEffect, EndsUnder;
    assert !c.ops[ip].Trap?;
  }

  /** What the instruction reports is said on a trail. */
  lemma SaidBacked(w: Course, ip: nat, s: State)
    requires Charted(w) && Settled(w, ip, s) && ip < |w.c.ops| && !w.c.ops[ip].Return?
    requires Apply(w.sums, ip, w.c.ops[ip], s).Applied?
    ensures LogBacked(w, Apply(w.sums, ip, w.c.ops[ip], s).log)
  {
    hide Mapped, Settled, Says;
    var op := w.c.ops[ip];
    forall t, e | Logged(Apply(w.sums, ip, op, s).log, t, e)
      ensures SaidOnTrail(w.c, w.sums, w.seed, w.d, t, e)
    {
      NoticesSay(w.sums, ip, op, s, t, e);
      SaidThere(w, ip, s, t, e);
    }
  }

  lemma SaidThere(w: Course, ip: nat, s: State, t: Token, e: Event)
    requires Charted(w) && Settled(w, ip, s) && ip < |w.c.ops| && Says(w.sums, ip, w.c.ops[ip], s, t, e)
    ensures SaidOnTrail(w.c, w.sums, w.seed, w.d, t, e)
  {
    hide Mapped, Settled, Says;
    var f := SaysFrom(w.sums, ip, w.c.ops[ip], s, t, e);
    var p := BroughtTo(w, ip, s, f, t);
    assert SaidAt(w.c, w.sums, w.seed, w.d, p, t, e);
  }

  lemma ReturnBacked(w: Course, ip: nat, s: State)
    requires Charted(w) && Settled(w, ip, s) && ip < |w.c.ops| && w.c.ops[ip].Return?
    ensures LogBacked(w, [ReturnNotice(ip, s)])
  {
    hide Mapped, Settled, Says;
    forall t, e | Logged([ReturnNotice(ip, s)], t, e)
      ensures SaidOnTrail(w.c, w.sums, w.seed, w.d, t, e)
    {
      ReturnSays(w.sums, ip, s, t, e);
      SaidThere(w, ip, s, t, e);
    }
  }

  lemma LogBackedAppend(w: Course, x: seq<Notice>, y: seq<Notice>)
    requires LogBacked(w, x) && LogBacked(w, y)
    ensures LogBacked(w, x + y)
  {
    forall t, e | Logged(x + y, t, e)
      ensures SaidOnTrail(w.c, w.sums, w.seed, w.d, t, e)
    {
      LoggedAppend(x, y, t, e);
    }
  }

  /** Two backed states, joined, are backed, whatever their heights. */
  lemma BackedJoin(w: Course, n: nat, x: State, y: State)
    requires Backed(w, n, x) && Backed(w, n, y)
    ensures Backed(w, n, JoinStates(x, y))
  {
    hide Brought, TrailTo;
    forall f: Place, t | !f.Born? && Has(JoinStates(x, y), f, t)
      ensures Brought(w, n, f, t)
    {
      assert Has(x, f, t) || Has(y, f, t);
    }
  }

  // ----- the walk, block by block -----

  ghost predicate AllSettled(w: Course, exit: Option<nat>, bs: seq<State>) {
    forall x :: x in bs ==> exit.Some? && Settled(w, exit.value, x)
  }

  /** Walked from a state trails bring, a block ends, breaks and reports only what trails bring and say. */
  ghost predicate Ends(w: Course, hi: nat, exit: Option<nat>, r: Walked) {
    r.Walked? ==>
      && (r.fall.Some? ==> Settled(w, hi, r.fall.value))
      && AllSettled(w, exit, r.breaks)
      && LogBacked(w, r.log)
  }

  lemma {:induction false} WalkBacked(w: Course, lo: nat, hi: nat, b: Block, s: State, exit: Option<nat>, floor: nat)
    requires Charted(w) && Settled(w, lo, s) && Laid(w.c.ops, lo, hi, b) && BreaksLeave(b, exit)
    requires floor <= |s.stack| && Depth(b, |s.stack|, floor).Balanced?
    ensures Ends(w, hi, exit, Walk(|w.c.ops|, w.sums, b, s))
    decreases b, 3
  {
    hide Charted, Settled, LogBacked, Laid;
    match b
    case End => EndBacked(w, lo, hi, b, s, exit);
    case Step(_, _, _) => StepBacked(w, lo, hi, b, s, exit, floor);
    case Branch(_, _, _, _, _, _) => BranchBacked(w, lo, hi, b, s, exit, floor);
    case Cycle(_, _, _, _) => CycleBacked(w, lo, hi, b, s, exit, floor);
  }

  lemma EndBacked(w: Course, lo: nat, hi: nat, b: Block, s: State, exit: Option<nat>)
    requires Settled(w, lo, s) && Laid(w.c.ops, lo, hi, b) && b == End
    ensures Ends(w, hi, exit, Walk(|w.c.ops|, w.sums, b, s))
  {}

  lemma ThenBacked(w: Course, hi: nat, exit: Option<nat>, breaks: seq<State>, log: seq<Notice>, rest: Walked)
    requires AllSettled(w, exit, breaks) && LogBacked(w, log) && Ends(w, hi, exit, rest)
    ensures Ends(w, hi, exit, Then(breaks, log, rest))
  {
    hide Settled, LogBacked;
    if rest.Walked? {
      LogBackedAppend(w, log, rest.log);
    }
  }

  lemma {:induction false} StepBacked(w: Course, lo: nat, hi: nat, b: Block, s: State, exit: Option<nat>, floor: nat)
    requires Charted(w) && Settled(w, lo, s) && Laid(w.c.ops, lo, hi, b) && BreaksLeave(b, exit) && b.Step?
    requires floor <= |s.stack| && Depth(b, |s.stack|, floor).Balanced?
    ensures Ends(w, hi, exit, Walk(|w.c.ops|, w.sums, b, s))
    decreases b, 2
  {
    hide Charted, Settled, LogBacked, Laid, Apply;
    StepLayout(w.c.ops, lo, hi, b, exit);
    if Ordinary(b.op) {
      StepHeights(w.sums, lo, b, s, floor);
      var r := Apply(w.sums, lo, b.op, s);
      if r.Applied? {
        StepEdges(w.c.ops, lo);
        SettledOn(w, lo, lo + 1, s);
        SaidBacked(w, lo, s);
        WalkBacked(w, lo + 1, hi, b.rest, r.state, exit, floor);
        if b.op.BreakIf? {
          SettledOn(w, lo, b.op.target, s);
        }
        ThenBacked(w, hi, exit, BreakHere(b.op, r.state), r.log, Walk(|w.c.ops|, w.sums, b.rest, r.state));
      }
    } else {
      ExitBacked(w, lo, hi, b, s, exit);
    }
  }

  lemma StepEdges(ops: seq<Op>, ip: nat)
    requires ip < |ops| && !Delimiter(ops[ip]) && Ordinary(ops[ip])
    ensures Onward(ops, ip, ip + 1) && (ops[ip].BreakIf? ==> Onward(ops, ip, ops[ip].target))
  {}

  lemma ExitBacked(w: Course, lo: nat, hi: nat, b: Block, s: State, exit: Option<nat>)
    requires Charted(w) && Settled(w, lo, s) && Laid(w.c.ops, lo, hi, b) && BreaksLeave(b, exit) && b.Step? && !Ordinary(b.op)
    ensures Ends(w, hi, exit, Walk(|w.c.ops|, w.sums, b, s))
  {
    hide Charted, Settled;
    StepLayout(w.c.ops, lo, hi, b, exit);
    if b.op.Return? {
      ReturnBacked(w, lo, s);
    } else if b.op.Break? {
      ApplyIdentity(w.sums, lo, b.op, s);
      SettledOn(w, lo, b.op.target, s);
    }
  }

  lemma MeetBacked(w: Course, hi: nat, exit: Option<nat>, log: seq<Notice>, x: Walked, y: Walked)
    requires LogBacked(w, log) && Ends(w, hi, exit, x) && Ends(w, hi, exit, y)
    ensures Ends(w, hi, exit, Meet(log, x, y))
  {
    hide Backed, LogBacked;
    if x.Walked? && y.Walked? {
      LogBackedAppend(w, log, x.log);
      LogBackedAppend(w, log + x.log, y.log);
      if x.fall.Some? && y.fall.Some? {
        BackedJoin(w, hi, x.fall.value, y.fall.value);
      }
    }
  }

  /** Through both arms to the `EndIf`. */
  lemma {:induction false} ArmsBacked(w: Course, lo: nat, hi: nat, b: Block, s: State, exit: Option<nat>, floor: nat)
    requires Charted(w) && Settled(w, lo, s) && LaidParts(w.c.ops, lo, hi, b) && BreaksLeave(b, exit) && b.Branch?
    requires floor <= |s.stack| && ArmHeights(b, |s.stack|, floor).Balanced?
    ensures Ends(w, b.arms.endIf, exit, ArmsMet(|w.c.ops|, w.sums, b, s))
    decreases b, 1
  {
    hide Charted, Settled, LogBacked, Laid, Apply, NoticesOf;
    var m, size := b.arms, |w.c.ops|;
    IfEdges(w.c.ops, lo, b);
    ApplyShape(w.sums, lo, If(b.target), s, floor);
    var r := Apply(w.sums, lo, If(b.target), s);
    if r.Applied? {
      SettledOn(w, lo, lo + 1, s);
      SettledOn(w, lo, m.elseStart, s);
      SaidBacked(w, lo, s);
      IfHeight(w.sums, lo, b, s);
      WalkBacked(w, lo + 1, m.thenEnd, b.first, r.state, exit, floor);
      WalkBacked(w, m.elseStart, m.endIf, b.second, r.state, exit, floor);
      var x := Walk(size, w.sums, b.first, r.state);
      if m.thenEnd < m.elseStart && x.Walked? && x.fall.Some? {
        ApplyIdentity(w.sums, m.thenEnd, w.c.ops[m.thenEnd], x.fall.value);
        SettledOn(w, m.thenEnd, m.endIf, x.fall.value);
      }
      MeetBacked(w, m.endIf, exit, r.log, x, Walk(size, w.sums, b.second, r.state));
    }
  }

  lemma IfEdges(ops: seq<Op>, lo: nat, b: Block)
    requires lo < |ops| && b.Branch? && ops[lo] == If(b.target) && b.arms == ArmsOf(ops, lo)
    ensures Onward(ops, lo, lo + 1) && Onward(ops, lo, b.arms.elseStart)
  {}

  lemma IfHeight(sums: Summaries, lo: nat, b: Block, s: State)
    requires b.Branch? && Apply(sums, lo, If(b.target), s).Applied?
    ensures |Apply(sums, lo, If(b.target), s).state.stack| == |s.stack| - 1
  {}

  lemma {:induction false} BranchBacked(w: Course, lo: nat, hi: nat, b: Block, s: State, exit: Option<nat>, floor: nat)
    requires Charted(w) && Settled(w, lo, s) && Laid(w.c.ops, lo, hi, b) && BreaksLeave(b, exit) && b.Branch?
    requires floor <= |s.stack| && Depth(b, |s.stack|, floor).Balanced?
    ensures Ends(w, hi, exit, Walk(|w.c.ops|, w.sums, b, s))
    decreases b, 2
  {
    hide *;
    BranchPieces(w.c.ops, lo, hi, b, exit);
    BranchHeights(|w.c.ops|, w.sums, b, s, floor);
    ArmsBacked(w, lo, hi, b, s, exit, floor);
    var m := ArmsMet(|w.c.ops|, w.sums, b, s);
    if m.Walked? && m.fall.Some? {
      var at := b.arms.endIf;
      EndIfOn(w.c.ops, at, w.sums, m.fall.value);
      FallSettled(w, at, exit, m);
      SettledOn(w, at, at + 1, m.fall.value);
      WalkBacked(w, at + 1, hi, b.rest, m.fall.value, exit, floor);
    }
    BranchEnds(w, hi, exit, b, s);
  }

  lemma BranchPieces(ops: seq<Op>, lo: nat, hi: nat, b: Block, exit: Option<nat>)
    requires Laid(ops, lo, hi, b) && BreaksLeave(b, exit) && b.Branch?
    ensures LaidParts(ops, lo, hi, b) && Laid(ops, b.arms.endIf + 1, hi, b.rest) && BreaksLeave(b.rest, exit)
    ensures b.arms.endIf < hi <= |ops| && ops[b.arms.endIf] == EndIf
  {
    LaidOpen(ops, lo, hi, b);
  }

  lemma BranchHeights(size: nat, sums: Summaries, b: Block, s: State, floor: nat)
    requires b.Branch? && floor <= |s.stack| && Depth(b, |s.stack|, floor).Balanced?
    ensures ArmHeights(b, |s.stack|, floor).Balanced?
    ensures var m := ArmsMet(size, sums, b, s);
      m.Walked? && m.fall.Some? ==> floor <= |m.fall.value.stack| && Depth(b.rest, |m.fall.value.stack|, floor).Balanced?
  {
    hide ArmsMet;
    ArmsFit(size, sums, b, s, floor);
  }

  lemma FallSettled(w: Course, hi: nat, exit: Option<nat>, r: Walked)
    requires Ends(w, hi, exit, r) && r.Walked? && r.fall.Some?
    ensures Settled(w, hi, r.fall.value)
  {
    hide Settled, LogBacked;
  }

  lemma BranchEnds(w: Course, hi: nat, exit: Option<nat>, b: Block, s: State)
    requires b.Branch?
    requires var m := ArmsMet(|w.c.ops|, w.sums, b, s);
      && Ends(w, b.arms.endIf, exit, m)
      && (m.Walked? && m.fall.Some? ==> Ends(w, hi, exit, Walk(|w.c.ops|, w.sums, b.rest, m.fall.value)))
    ensures Ends(w, hi, exit, Walk(|w.c.ops|, w.sums, b, s))
  {
    hide Settled, LogBacked, Apply;
    var m := ArmsMet(|w.c.ops|, w.sums, b, s);
    if m.Walked? && m.fall.Some? {
      ThenBacked(w, hi, exit, m.breaks, m.log, Walk(|w.c.ops|, w.sums, b.rest, m.fall.value));
    }
  }

  lemma EndIfOn(ops: seq<Op>, ip: nat, sums: Summaries, s: State)
    requires ip < |ops| && ops[ip] == EndIf
    ensures Onward(ops, ip, ip + 1) && Apply(sums, ip, EndIf, s) == Applied(s, [])
  {
    ApplyIdentity(sums, ip, EndIf, s);
  }

  // ----- loops -----

  lemma {:induction false} FixBacked(w: Course, top: nat, end: nat, body: Block, head: State, budget: nat)
    requires Charted(w) && Settled(w, top, head) && top <= end < |w.c.ops| && w.c.ops[end] == EndLoop(top)
    requires Laid(w.c.ops, top, end, body) && BreaksLeave(body, Some(end + 1))
    requires LoopBalanced(Depth(body, |head.stack|, |head.stack|), |head.stack|)
    ensures var f := Fix(|w.c.ops|, w.sums, body, head, budget);
      f.Fixed? ==> Ends(w, end, Some(end + 1), Walked(f.bodyEnd, f.breaks, f.log))
    decreases body, 4, budget
  {
    hide Charted, LogBacked, Laid, Settled;
    var r := Walk(|w.c.ops|, w.sums, body, head);
    WalkBacked(w, top, end, body, head, Some(end + 1), |head.stack|);
    WalkFits(|w.c.ops|, w.sums, body, head, |head.stack|);
    if r.Walked? && r.fall.Some? && JoinStates(head, r.fall.value) != head && budget > 0 {
      var x := JoinStates(head, r.fall.value);
      Widened(w, top, end, head, r.fall.value);
      FixBacked(w, top, end, body, x, budget - 1);
      var f := Fix(|w.c.ops|, w.sums, body, x, budget - 1);
      if f.Fixed? {
        LogBackedAppend(w, r.log, f.log);
      }
    }
  }

  /** Round the loop: the widened head is backed at the top. */
  lemma Widened(w: Course, top: nat, end: nat, head: State, fall: State)
    requires Charted(w) && Settled(w, top, head) && Settled(w, end, fall) && SameShape(fall, head)
    requires end < |w.c.ops| && w.c.ops[end] == EndLoop(top)
    ensures Settled(w, top, JoinStates(head, fall)) && SameShape(JoinStates(head, fall), head)
  {
    hide Charted, Backed;
    ApplyIdentity(w.sums, end, EndLoop(top), fall);
    EndEdges(w.c.ops, end);
    SettledOn(w, end, top, fall);
    BackedJoin(w, top, head, fall);
  }

  lemma EndEdges(ops: seq<Op>, end: nat)
    requires end < |ops| && ops[end].EndLoop?
    ensures Onward(ops, end, ops[end].target) && Onward(ops, end, end + 1)
  {}

  lemma {:induction false} JoinAllBacked(w: Course, n: nat, a: Option<State>, bs: seq<State>)
    requires a.Some? ==> Backed(w, n, a.value)
    requires forall x :: x in bs ==> Backed(w, n, x)
    ensures JoinAll(a, bs).Some? ==> Backed(w, n, JoinAll(a, bs).value)
    decreases |bs|
  {
    hide Backed;
    if bs != [] {
      var init, last := bs[..|bs| - 1], bs[|bs| - 1];
      JoinAllBacked(w, n, a, init);
      assert last in bs;
      if JoinAll(a, init).Some? {
        BackedJoin(w, n, JoinAll(a, init).value, last);
      }
    }
  }

  /** Behind the loop. */
  lemma AfterBacked(w: Course, lo: nat, b: Block, s: State)
    requires Charted(w) && b.Cycle? && lo + 2 <= b.exit <= |w.c.ops| && w.c.ops[b.exit - 1] == EndLoop(lo + 1)
    requires Laid(w.c.ops, lo + 1, b.exit - 1, b.body) && LoopBalanced(Depth(b.body, |s.stack|, |s.stack|), |s.stack|)
    requires |s.locals| == w.c.localCount
    requires var f := LoopFix(|w.c.ops|, w.sums, b, s);
      f.Fixed? && Ends(w, b.exit - 1, Some(b.exit), Walked(f.bodyEnd, f.breaks, f.log))
    ensures var f := LoopFix(|w.c.ops|, w.sums, b, s); AfterLoop(f).Some? ==> Settled(w, b.exit, AfterLoop(f).value)
  {
    hide Laid, BlockOf, Depth, Walk, Backed, LogBacked, Mapped;
    var f, x, h := LoopFix(|w.c.ops|, w.sums, b, s), b.exit, |s.stack|;
    AfterLoopHeight(|w.c.ops|, w.sums, b, s, h);
    if f.bodyEnd.Some? {
      ApplyIdentity(w.sums, x - 1, EndLoop(lo + 1), f.bodyEnd.value);
      EndEdges(w.c.ops, x - 1);
      BackedOn(w, x - 1, x, f.bodyEnd.value);
      FixFits(|w.c.ops|, w.sums, b.body, s, RoundCap(|w.c.ops|, |s.locals|));
      LaidUnique(w.c.ops, lo + 1, x - 1, b.body);
      ExitShape(w, x - 1);
    } else if f.breaks != [] {
      assert f.breaks[0] in f.breaks && Settled(w, x, f.breaks[0]);
    }
    JoinAllBacked(w, x, f.bodyEnd, f.breaks);
  }

  lemma ExitShape(w: Course, end: nat)
    requires Charted(w) && end in w.a && end < |w.c.ops| && w.c.ops[end].EndLoop?
    ensures end + 1 in w.a && ExitHeight(w.c.ops, end, |w.a[end].stack|) == Some(|w.a[end + 1].stack|)
    ensures |w.a[end + 1].locals| == |w.a[end].locals|
  {
    hide Apply, ExitHeight, Successors;
  }

  lemma {:induction false} CycleBacked(w: Course, lo: nat, hi: nat, b: Block, s: State, exit: Option<nat>, floor: nat)
    requires Charted(w) && Settled(w, lo, s) && Laid(w.c.ops, lo, hi, b) && BreaksLeave(b, exit) && b.Cycle?
    requires floor <= |s.stack| && Depth(b, |s.stack|, floor).Balanced?
    ensures Ends(w, hi, exit, Walk(|w.c.ops|, w.sums, b, s))
    decreases b, 2
  {
    hide *;
    CycleShape(w.c.ops, lo, hi, b, exit);
    CycleHeights(|w.c.ops|, w.sums, b, s, floor);
    LoopTop(w, lo, b.exit, s);
    FixBacked(w, lo + 1, b.exit - 1, b.body, s, RoundCap(|w.c.ops|, |s.locals|));
    var f := LoopFix(|w.c.ops|, w.sums, b, s);
    FixIs(|w.c.ops|, w.sums, b, s);
    if f.Fixed? {
      AfterBacked(w, lo, b, s);
      if AfterLoop(f).Some? {
        WalkBacked(w, b.exit, hi, b.rest, AfterLoop(f).value, exit, floor);
      }
    }
    CycleEnds(w, hi, exit, b, s);
  }

  lemma FixIs(size: nat, sums: Summaries, b: Block, s: State)
    requires b.Cycle?
    ensures LoopFix(size, sums, b, s) == Fix(size, sums, b.body, s, RoundCap(size, |s.locals|))
  {}

  lemma LoopTop(w: Course, lo: nat, exit: nat, s: State)
    requires Charted(w) && Settled(w, lo, s) && lo < |w.c.ops| && w.c.ops[lo] == Loop(exit)
    ensures Settled(w, lo + 1, s) && |s.locals| == w.c.localCount
  {
    hide Backed, Flows, Apply;
    ApplyIdentity(w.sums, lo, Loop(exit), s);
    SettledOn(w, lo, lo + 1, s);
  }

  lemma CycleEnds(w: Course, hi: nat, exit: Option<nat>, b: Block, s: State)
    requires b.Cycle? && b.exit > 0
    requires var f := LoopFix(|w.c.ops|, w.sums, b, s);
      f.Fixed? ==>
        && Ends(w, b.exit - 1, Some(b.exit), Walked(f.bodyEnd, f.breaks, f.log))
        && (AfterLoop(f).Some? ==> Ends(w, hi, exit, Walk(|w.c.ops|, w.sums, b.rest, AfterLoop(f).value)))
    ensures Ends(w, hi, exit, Walk(|w.c.ops|, w.sums, b, s))
  {
    hide Settled, LogBacked;
    var f := LoopFix(|w.c.ops|, w.sums, b, s);
    if f.Fixed? && AfterLoop(f).Some? {
      ThenBacked(w, hi, exit, [], f.log, Walk(|w.c.ops|, w.sums, b.rest, AfterLoop(f).value));
    }
  }

  // ----- the walk of a whole chunk -----

  /** The walk of a verified chunk reports exactly what some trail says: of which token, which event, where. */
  lemma WalkExactly(c: Chunk, sums: Summaries, seed: seq<Alias>) returns (d: map<nat, nat>)
    requires Verified(c) && |seed| == c.localCount && forall k :: 0 <= k < |seed| ==> seed[k] <= ParamTokens(c.localCount)
    ensures Leveled(c, d)
    ensures Interpret(c, seed, sums).Walked?
    ensures forall t, e :: Logged(Interpret(c, seed, sums).log, t, e) <==> SaidOnTrail(c, sums, seed, d, t, e)
  {
    hide Verified, Leveled, Charted, SaidOnTrail;
    InterpretCompletes(c, sums, seed, c.localCount);
    var w := CourseOf(c, sums, seed);
    d := w.d;
    AllBacked(w);
    forall t, e | SaidOnTrail(c, sums, seed, d, t, e)
      ensures Logged(w.log, t, e)
    {
      SaidLogged(w, t, e);
    }
  }

  lemma SaidLogged(w: Course, t: Token, e: Event)
    requires Charted(w) && SaidOnTrail(w.c, w.sums, w.seed, w.d, t, e)
    ensures Logged(w.log, t, e)
  {
    TrailReported(w.c, w.sums, w.seed, w.log, w.a, w.d, t, e);
  }

  lemma CourseOf(c: Chunk, sums: Summaries, seed: seq<Alias>) returns (w: Course)
    requires Verified(c) && |seed| == c.localCount && Interpret(c, seed, sums).Walked?
    ensures Charted(w) && w.c == c && w.sums == sums && w.seed == seed && w.log == Interpret(c, seed, sums).log
    ensures Leveled(c, w.d)
  {
    hide Verified, Interpret, Flows, FloorsKept, LeveledAt, BenignFrom;
    var a := AnnotateChunk(c, sums, seed);
    var d := map k | k in a :: |a[k].stack|;
    w := Course(c, sums, seed, Interpret(c, seed, sums).log, a, d);
    forall k | k in d && k < |c.ops| && !c.ops[k].Trap?
      ensures LeveledAt(c, d, k)
    {
      FlowLevel(c, sums, w.log, a, d, k);
    }
  }

  lemma AllBacked(w: Course)
    requires Charted(w) && Verified(w.c) && Interpret(w.c, w.seed, w.sums).Walked?
    ensures LogBacked(w, Interpret(w.c, w.seed, w.sums).log)
  {
    var b := BlockOf(w.c.ops, 0, |w.c.ops|).value;
    StartSettled(w);
    hide Charted, Settled, LogBacked, BlockOf, Laid, Depth, Walk;
    WalkBacked(w, 0, |w.c.ops|, b, State([], w.seed), None, 0);
  }

  /** The empty trail. */
  lemma StartSettled(w: Course)
    requires Charted(w)
    ensures Settled(w, 0, State([], w.seed))
  {
    hide Flows, Sized;
    assert TrailTo(w.c.ops, [0], 0) && At(w, [0]) == State([], w.seed);
    forall f: Place, t | !f.Born? && Has(State([], w.seed), f, t)
      ensures Brought(w, 0, f, t)
    {
      assert Has(At(w, [0]), f, t);
    }
  }
}
