/** On a verified chunk the walk never derails: operands and slots are always there, and the round
    cap of a loop is never reached, for a construction-site run and for a summary run alike. */
module ConfineTotal {
  import opened Options
  import opened Bytecode
  import opened Confine
  import opened ConfineShape

  // ----- how much a loop head can grow -----

  /** The slots the first `n` instructions write. */
  function Written(ops: seq<Op>, n: nat): (w: set<nat>)
    requires n <= |ops|
    ensures forall k :: k in w <==> exists i :: 0 <= i < n && ops[i] == SetLocal(k)
  {
    if n == 0 then {}
    else Written(ops, n - 1) + (if ops[n - 1].SetLocal? then {ops[n - 1].slot} else {})
  }

  /** The construction sites among the first `n` instructions. */
  function SiteTokens(ops: seq<Op>, n: nat): (u: Alias)
    requires n <= |ops|
    ensures forall t :: t in u <==> t.Site? && t.ip < n && ops[t.ip].NewComposite?
  {
    if n == 0 then {}
    else SiteTokens(ops, n - 1) + (if ops[n - 1].NewComposite? then {Site(n - 1)} else {})
  }

  function ParamTokens(n: nat): (u: Alias)
    ensures forall t :: t in u <==> t.Param? && t.index < n
    ensures |u| == n
  {
    if n == 0 then {} else ParamTokens(n - 1) + {Param(n - 1)}
  }

  lemma WrittenAndSites(ops: seq<Op>, n: nat)
    requires n <= |ops|
    ensures |Written(ops, n)| + |SiteTokens(ops, n)| <= n
  {}

  lemma WrittenWithin(ops: seq<Op>, n: nat, locals: nat)
    requires n <= |ops| && forall i :: 0 <= i < n ==> SlotInRange(ops[i], locals)
    ensures |Written(ops, n)| <= locals
  {
    SubsetSmaller(Written(ops, n), Below(locals));
  }

  function Below(n: nat): (s: set<nat>)
    ensures forall k: nat :: k in s <==> k < n
    ensures |s| == n
  {
    if n == 0 then {} else Below(n - 1) + {n - 1}
  }

  lemma SubsetSmaller<T>(a: set<T>, b: set<T>)
    requires a <= b
    ensures |a| <= |b|
    ensures a != b ==> |a| < |b|
  {
    assert b == a + (b - a);
    if a != b {
      assert b - a != {};
    }
  }

  function Product(w: set<nat>, u: Alias): set<(nat, Token)> {
    set k, t | k in w && t in u :: (k, t)
  }

  lemma ProductSize(w: set<nat>, u: Alias)
    ensures |Product(w, u)| == |w| * |u|
  {
    if w == {} {
      assert Product(w, u) == {};
    } else {
      var k :| k in w;
      var rest := w - {k};
      ProductSize(rest, u);
      RowSize(k, u);
      ProductSplits(w, u, k);
      OneMore(|rest|, |u|);
    }
  }

  lemma ProductSplits(w: set<nat>, u: Alias, k: nat)
    requires k in w
    ensures |Product(w, u)| == |Product(w - {k}, u)| + |Product({k}, u)|
    ensures |w| == |w - {k}| + 1
  {
    assert Product(w, u) == Product(w - {k}, u) + Product({k}, u);
    assert Product(w - {k}, u) !! Product({k}, u);
  }

  lemma OneMore(a: nat, b: nat)
    ensures (a + 1) * b == a * b + b
  {}

  lemma RowSize(k: nat, u: Alias)
    ensures |Product({k}, u)| == |u|
  {
    if u == {} {
      assert Product({k}, u) == {};
    } else {
      var t :| t in u;
      RowSize(k, u - {t});
      assert Product({k}, u) == Product({k}, u - {t}) + {(k, t)};
      assert (k, t) !in Product({k}, u - {t});
    }
  }

  /** The slot and token pairs a frame holds among the written slots. */
  function Pairs(locals: seq<Alias>, w: set<nat>, u: Alias): set<(nat, Token)> {
    set k, t | k in w && t in u && k < |locals| && t in locals[k] :: (k, t)
  }

  // ----- tame states -----

  /** `s` tracks only tokens of `u`, and agrees with `entry` on slots outside `w`. */
  predicate Tame(entry: State, s: State, w: set<nat>, u: Alias) {
    && (forall i :: 0 <= i < |s.stack| ==> s.stack[i] <= u)
    && |s.locals| == |entry.locals|
    && (forall k :: 0 <= k < |s.locals| ==> s.locals[k] <= u)
    && (forall k :: 0 <= k < |s.locals| && k !in w ==> s.locals[k] == entry.locals[k])
  }

  predicate TameAll(entry: State, r: Walked, w: set<nat>, u: Alias) {
    && r.Walked?
    && (r.fall.Some? ==> Tame(entry, r.fall.value, w, u))
    && forall i :: 0 <= i < |r.breaks| ==> Tame(entry, r.breaks[i], w, u)
  }

  lemma TameTransitive(a: State, b: State, c: State, w: set<nat>, u: Alias)
    requires Tame(a, b, w, u) && Tame(b, c, w, u)
    ensures Tame(a, c, w, u)
  {}

  lemma TameAllTransitive(a: State, b: State, r: Walked, w: set<nat>, u: Alias)
    requires Tame(a, b, w, u) && TameAll(b, r, w, u)
    ensures TameAll(a, r, w, u)
  {}

  lemma JoinTame(e: State, a: State, b: State, w: set<nat>, u: Alias)
    requires Tame(e, a, w, u) && Tame(e, b, w, u)
    ensures Tame(e, JoinStates(a, b), w, u)
  {}

  lemma JoinAllTame(e: State, a: Option<State>, bs: seq<State>, w: set<nat>, u: Alias)
    requires a.Some? ==> Tame(e, a.value, w, u)
    requires forall i :: 0 <= i < |bs| ==> Tame(e, bs[i], w, u)
    ensures JoinAll(a, bs).Some? ==> Tame(e, JoinAll(a, bs).value, w, u)
  {
    if bs != [] {
      JoinAllTame(e, a, bs[..|bs| - 1], w, u);
    }
  }

  lemma ApplyTame(sums: Summaries, ip: nat, op: Op, s: State, w: set<nat>, u: Alias)
    requires Pops(op) <= |s.stack| && SlotInRange(op, |s.locals|) && Tame(s, s, w, u)
    requires op.NewComposite? ==> Site(ip) in u
    requires op.SetLocal? ==> op.slot in w
    ensures Apply(sums, ip, op, s).Applied? && Tame(s, Apply(sums, ip, op, s).state, w, u)
  {
    var taken := Taken(op, s.stack);
    assert Union(taken) <= u;
    assert Produced(sums, ip, op, taken, s.locals) <= u;
  }

  /** What every instruction of a block must satisfy for the walk to go through. */
  predicate RunnableOp(ip: nat, op: Op, locals: nat, w: set<nat>, u: Alias) {
    SlotInRange(op, locals) && (op.SetLocal? ==> op.slot in w) && (op.NewComposite? ==> Site(ip) in u)
  }

  predicate Runnable(b: Block, locals: nat, w: set<nat>, u: Alias) {
    match b
    case End => true
    case Step(ip, op, rest) => RunnableOp(ip, op, locals, w, u) && Runnable(rest, locals, w, u)
    case Branch(_, _, _, first, second, rest) =>
      && Runnable(first, locals, w, u) && Runnable(second, locals, w, u) && Runnable(rest, locals, w, u)
    case Cycle(_, _, body, rest) => Runnable(body, locals, w, u) && Runnable(rest, locals, w, u)
  }

  /** The run can go on from `s`: block, frame, tokens, and enough rounds for every pair. */
  predicate Ready(size: nat, b: Block, s: State, w: set<nat>, u: Alias) {
    && Runnable(b, |s.locals|, w, u) && Tame(s, s, w, u)
    && |w| * |u| <= RoundCap(size, |s.locals|)
  }

  lemma {:induction false} WalkTotal(size: nat, sums: Summaries, b: Block, s: State, floor: nat, w: set<nat>, u: Alias)
    requires floor <= |s.stack| && Depth(b, |s.stack|, floor).Balanced? && Ready(size, b, s, w, u)
    ensures TameAll(s, Walk(size, sums, b, s), w, u)
    decreases b, 2
  {
    match b
    case End =>
    case Step(ip, op, rest) =>
      if Ordinary(op) {
        ApplyTame(sums, ip, op, s, w, u);
        ApplyShape(sums, ip, op, s, floor);
        var r := Apply(sums, ip, op, s);
        WalkTotal(size, sums, rest, r.state, floor, w, u);
        TameAllTransitive(s, r.state, Walk(size, sums, rest, r.state), w, u);
      }
    case Branch(_, _, _, _, _, _) => WalkTotalBranch(size, sums, b, s, floor, w, u);
    case Cycle(_, _, _, _) => WalkTotalCycle(size, sums, b, s, floor, w, u);
  }

  lemma {:induction false} ArmsTotal(size: nat, sums: Summaries, b: Block, s: State, floor: nat, w: set<nat>, u: Alias)
    requires b.Branch? && floor <= |s.stack| && ArmHeights(b, |s.stack|, floor).Balanced? && Ready(size, b, s, w, u)
    ensures TameAll(s, ArmsMet(size, sums, b, s), w, u)
    decreases b, 0
  {
    ApplyTame(sums, b.ip, If(b.target), s, w, u);
    ApplyShape(sums, b.ip, If(b.target), s, floor);
    var r := Apply(sums, b.ip, If(b.target), s);
    var x, y := Walk(size, sums, b.first, r.state), Walk(size, sums, b.second, r.state);
    WalkTotal(size, sums, b.first, r.state, floor, w, u);
    WalkTotal(size, sums, b.second, r.state, floor, w, u);
    TameAllTransitive(s, r.state, x, w, u);
    TameAllTransitive(s, r.state, y, w, u);
    if x.fall.Some? && y.fall.Some? {
      JoinTame(s, x.fall.value, y.fall.value, w, u);
    }
  }

  lemma {:induction false} WalkTotalBranch(size: nat, sums: Summaries, b: Block, s: State, floor: nat, w: set<nat>, u: Alias)
    requires b.Branch? && floor <= |s.stack| && Depth(b, |s.stack|, floor).Balanced? && Ready(size, b, s, w, u)
    ensures TameAll(s, Walk(size, sums, b, s), w, u)
    decreases b, 1
  {
    var m := ArmsMet(size, sums, b, s);
    ArmsTotal(size, sums, b, s, floor, w, u);
    ArmsFit(size, sums, b, s, floor);
    if m.fall.Some? {
      WalkTotal(size, sums, b.rest, m.fall.value, floor, w, u);
      TameAllTransitive(s, m.fall.value, Walk(size, sums, b.rest, m.fall.value), w, u);
    }
  }

  lemma {:induction false} WalkTotalCycle(size: nat, sums: Summaries, b: Block, s: State, floor: nat, w: set<nat>, u: Alias)
    requires b.Cycle? && floor <= |s.stack| && Depth(b, |s.stack|, floor).Balanced? && Ready(size, b, s, w, u)
    ensures TameAll(s, Walk(size, sums, b, s), w, u)
    decreases b, 1
  {
    FixTotal(size, sums, b.body, s, RoundCap(size, |s.locals|), w, u);
    AfterLoopHeight(size, sums, b, s, floor);
    var f := LoopFix(size, sums, b, s);
    JoinAllTame(s, f.bodyEnd, f.breaks, w, u);
    var after := AfterLoop(f);
    if after.Some? {
      WalkTotal(size, sums, b.rest, after.value, floor, w, u);
      TameAllTransitive(s, after.value, Walk(size, sums, b.rest, after.value), w, u);
    }
  }

  /** Every widening adds a pair, and there are no more pairs than the budget leaves rounds. */
  lemma {:induction false} FixTotal(size: nat, sums: Summaries, body: Block, head: State, budget: nat, w: set<nat>, u: Alias)
    requires LoopBalanced(Depth(body, |head.stack|, |head.stack|), |head.stack|) && Ready(size, body, head, w, u)
    requires |Pairs(head.locals, w, u)| + budget >= |w| * |u|
    ensures var f := Fix(size, sums, body, head, budget);
      && f.Fixed?
      && (f.bodyEnd.Some? ==> Tame(head, f.bodyEnd.value, w, u))
      && forall i :: 0 <= i < |f.breaks| ==> Tame(head, f.breaks[i], w, u)
    decreases body, 3, budget
  {
    var r := Walk(size, sums, body, head);
    WalkTotal(size, sums, body, head, |head.stack|, w, u);
    WalkFits(size, sums, body, head, |head.stack|);
    if r.fall.Some? {
      var be := r.fall.value;
      var wide := JoinStates(head, be);
      JoinTame(head, head, be, w, u);
      if wide != head {
        WideningStack(head, be);
        WideningGrows(head, be, w, u);
        FixTotal(size, sums, body, wide, budget - 1, w, u);
        var f := Fix(size, sums, body, wide, budget - 1);
        if f.bodyEnd.Some? {
          TameTransitive(head, wide, f.bodyEnd.value, w, u);
        }
        forall i | 0 <= i < |f.breaks|
          ensures Tame(head, f.breaks[i], w, u)
        {
          TameTransitive(head, wide, f.breaks[i], w, u);
        }
      }
    }
  }

  lemma WideningGrows(head: State, be: State, w: set<nat>, u: Alias)
    requires Tame(head, head, w, u) && Tame(head, be, w, u)
    requires JoinStates(head, be).stack == head.stack && JoinStates(head, be) != head
    ensures |Pairs(head.locals, w, u)| < |Pairs(JoinStates(head, be).locals, w, u)| <= |w| * |u|
  {
    var wide := JoinStates(head, be);
    var p, q := Pairs(head.locals, w, u), Pairs(wide.locals, w, u);
    var k :| 0 <= k < |head.locals| && wide.locals[k] != head.locals[k];
    assert wide.locals[k] == head.locals[k] + be.locals[k];
    var t :| t in be.locals[k] && t !in head.locals[k];
    assert (k, t) in q && (k, t) !in p;
    assert p <= q;
    SubsetSmaller(p, q);
    assert q <= Product(w, u);
    SubsetSmaller(q, Product(w, u));
    ProductSize(w, u);
  }

  // ----- the whole chunk -----

  lemma MulMono(a: nat, b: nat, k: nat)
    requires a <= b
    ensures a * k <= b * k
  {}

  lemma CapSuffices(w: nat, s: nat, p: nat, u: nat, locals: nat, n: nat, cap: nat)
    requires w + s <= n && w <= locals && p <= locals && u == s + p
    requires cap == (locals + 1) * (n + 1) + 2
    ensures w * u <= cap
  {
    calc {
      w * u;
      w * (s + p);
      w * s + w * p;
    <= { MulMono(w, locals, s); MulMono(p, locals, w); }
      locals * s + locals * w;
      locals * (s + w);
    <= { MulMono(s + w, n, locals); }
      locals * n;
    <= { assert (locals + 1) * (n + 1) == locals * n + locals + n + 1; }
      (locals + 1) * (n + 1) + 2;
    }
  }

  lemma SizesOf(c: Chunk, params: nat)
    requires forall i :: 0 <= i < |c.ops| ==> SlotInRange(c.ops[i], c.localCount)
    ensures |Written(c.ops, |c.ops|)| + |SiteTokens(c.ops, |c.ops|)| <= |c.ops|
    ensures |Written(c.ops, |c.ops|)| <= c.localCount
    ensures |SiteTokens(c.ops, |c.ops|) + ParamTokens(params)| == |SiteTokens(c.ops, |c.ops|)| + params
  {
    WrittenAndSites(c.ops, |c.ops|);
    WrittenWithin(c.ops, |c.ops|, c.localCount);
    DisjointUnionSize(SiteTokens(c.ops, |c.ops|), ParamTokens(params));
  }

  lemma DisjointUnionSize(a: Alias, b: Alias)
    requires a !! b
    ensures |a + b| == |a| + |b|
  {}

  lemma CapForSizes(size: nat, locals: nat, w: nat, s: nat, p: nat, u: nat)
    requires w + s <= size && w <= locals && p <= locals && u == s + p
    ensures w * u <= RoundCap(size, locals)
  {
    CapSuffices(w, s, p, u, locals, size, RoundCap(size, locals));
  }

  /** No construction-site or summary run of the chunk can need more rounds than the cap allows. */
  lemma CapForChunk(c: Chunk, params: nat)
    requires forall i :: 0 <= i < |c.ops| ==> SlotInRange(c.ops[i], c.localCount)
    requires params <= c.localCount
    ensures |Written(c.ops, |c.ops|)| * |SiteTokens(c.ops, |c.ops|) + ParamTokens(params)| <= RoundCap(|c.ops|, c.localCount)
  {
    var n, u := |c.ops|, SiteTokens(c.ops, |c.ops|) + ParamTokens(params);
    SizesOf(c, params);
    CapForSizes(n, c.localCount, |Written(c.ops, n)|, |SiteTokens(c.ops, n)|, params, |u|);
  }

  lemma {:induction false} LaidRunnable(ops: seq<Op>, lo: nat, hi: nat, b: Block, locals: nat, w: set<nat>, u: Alias)
    requires Laid(ops, lo, hi, b)
    requires forall i :: 0 <= i < |ops| ==> RunnableOp(i, ops[i], locals, w, u)
    ensures Runnable(b, locals, w, u)
    decreases b
  {
    LaidOpen(ops, lo, hi, b);
    hide Laid;
    match b
    case End =>
    case Step(_, _, rest) => LaidRunnable(ops, lo + 1, hi, rest, locals, w, u);
    case Branch(_, _, a, first, second, rest) =>
      LaidRunnable(ops, lo + 1, a.thenEnd, first, locals, w, u);
      LaidRunnable(ops, a.elseStart, a.endIf, second, locals, w, u);
      LaidRunnable(ops, a.endIf + 1, hi, rest, locals, w, u);
    case Cycle(_, exit, body, rest) =>
      LaidRunnable(ops, lo + 1, exit - 1, body, locals, w, u);
      LaidRunnable(ops, exit, hi, rest, locals, w, u);
  }

  lemma OpsRunnable(c: Chunk, params: nat)
    requires forall i :: 0 <= i < |c.ops| ==> SlotInRange(c.ops[i], c.localCount)
    ensures forall i :: 0 <= i < |c.ops| ==>
      RunnableOp(i, c.ops[i], c.localCount, Written(c.ops, |c.ops|), SiteTokens(c.ops, |c.ops|) + ParamTokens(params))
  {
    hide RunnableOp;
    forall i | 0 <= i < |c.ops|
      ensures RunnableOp(i, c.ops[i], c.localCount, Written(c.ops, |c.ops|), SiteTokens(c.ops, |c.ops|) + ParamTokens(params))
    {
      OpRunnable(c, params, i);
    }
  }

  lemma OpRunnable(c: Chunk, params: nat, i: nat)
    requires i < |c.ops| && SlotInRange(c.ops[i], c.localCount)
    ensures RunnableOp(i, c.ops[i], c.localCount, Written(c.ops, |c.ops|), SiteTokens(c.ops, |c.ops|) + ParamTokens(params))
  {
    var op, n := c.ops[i], |c.ops|;
    if op.SetLocal? {
      assert op == SetLocal(op.slot);
      assert op.slot in Written(c.ops, n);
    }
    if op.NewComposite? {
      assert Site(i) in SiteTokens(c.ops, n);
    }
  }

  /** The walk of a verified chunk completes, whatever parameters it is seeded with, so neither an
      operand nor the round cap ever refuses one. */
  lemma InterpretCompletes(c: Chunk, sums: Summaries, seed: seq<Alias>, params: nat)
    requires Verified(c) && |seed| == c.localCount && params <= c.localCount
    requires forall k :: 0 <= k < |seed| ==> seed[k] <= ParamTokens(params)
    ensures Interpret(c, seed, sums).Walked?
  {
    var b := BlockOf(c.ops, 0, |c.ops|).value;
    var w, u := Written(c.ops, |c.ops|), SiteTokens(c.ops, |c.ops|) + ParamTokens(params);
    CapForChunk(c, params);
    OpsRunnable(c, params);
    LaidRunnable(c.ops, 0, |c.ops|, b, c.localCount, w, u);
    WalkTotal(|c.ops|, sums, b, State([], seed), 0, w, u);
  }
}
