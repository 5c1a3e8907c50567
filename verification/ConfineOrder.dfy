/** The order on abstract states, and monotonicity of the whole walk: in the entry state and in
    the summaries, through strong updates, branches and the loop fixpoint. */
module ConfineOrder {
  import opened Options
  import opened Bytecode
  import opened Confine
  import opened ConfineShape

  predicate LeqSeq(x: seq<Alias>, y: seq<Alias>) {
    |x| == |y| && forall i :: 0 <= i < |x| ==> x[i] <= y[i]
  }

  predicate Leq(a: State, b: State) {
    LeqSeq(a.stack, b.stack) && LeqSeq(a.locals, b.locals)
  }

  predicate LeqOption(a: Option<State>, b: Option<State>) {
    match (a, b)
    case (None, None) => true
    case (Some(x), Some(y)) => Leq(x, y)
    case _ => false
  }

  predicate LeqBreaks(a: seq<State>, b: seq<State>) {
    |a| == |b| && forall i :: 0 <= i < |a| ==> Leq(a[i], b[i])
  }

  /** Everything the first log reports, the second reports too. */
  ghost predicate LogLeq(a: seq<Notice>, b: seq<Notice>) {
    forall t, e :: Logged(a, t, e) ==> Logged(b, t, e)
  }

  /** The first summaries are pointwise no more pessimistic than the second. */
  ghost predicate SumsLeq(a: Summaries, b: Summaries) {
    && (forall callee, arg :: Leaks(a, callee, arg) ==> Leaks(b, callee, arg))
    && (forall callee, arg :: Returns(a, callee, arg) ==> Returns(b, callee, arg))
  }

  lemma LoggedAppend(a: seq<Notice>, b: seq<Notice>, t: Token, e: Event)
    ensures Logged(a + b, t, e) <==> Logged(a, t, e) || Logged(b, t, e)
  {
    if Logged(a, t, e) {
      var n :| n in a && t in n.tokens && n.event == e;
      assert n in a + b;
    }
    if Logged(b, t, e) {
      var n :| n in b && t in n.tokens && n.event == e;
      assert n in a + b;
    }
  }

  lemma LogLeqAppend(a: seq<Notice>, b: seq<Notice>, x: seq<Notice>, y: seq<Notice>)
    requires LogLeq(a, x) && LogLeq(b, y)
    ensures LogLeq(a + b, x + y)
  {
    forall t, e | Logged(a + b, t, e)
      ensures Logged(x + y, t, e)
    {
      LoggedAppend(a, b, t, e);
      LoggedAppend(x, y, t, e);
    }
  }

  lemma LogLeqPart(a: seq<Notice>, b: seq<Notice>)
    ensures LogLeq(a, a + b) && LogLeq(b, a + b)
  {
    forall t, e
      ensures Logged(a, t, e) || Logged(b, t, e) ==> Logged(a + b, t, e)
    {
      LoggedAppend(a, b, t, e);
    }
  }

  lemma JoinStatesMono(a: State, b: State, x: State, y: State)
    requires Leq(a, x) && Leq(b, y)
    ensures Leq(JoinStates(a, b), JoinStates(x, y))
  {}

  lemma JoinAllMono(a: Option<State>, bs: seq<State>, x: Option<State>, ys: seq<State>)
    requires LeqOption(a, x) && LeqBreaks(bs, ys)
    ensures LeqOption(JoinAll(a, bs), JoinAll(x, ys))
  {
    if bs != [] {
      JoinAllMono(a, bs[..|bs| - 1], x, ys[..|ys| - 1]);
    }
  }

  lemma LeqTransitive(a: State, b: State, c: State)
    requires Leq(a, b) && Leq(b, c)
    ensures Leq(a, c)
  {}

  /** The transfer function is monotone, and faults independently of what is tracked. */
  lemma ApplyMono(s1: Summaries, s2: Summaries, ip: nat, op: Op, a: State, b: State)
    requires SumsLeq(s1, s2) && Leq(a, b)
    ensures Apply(s1, ip, op, a).Fault? == Apply(s2, ip, op, b).Fault?
    ensures Apply(s1, ip, op, a).Applied? ==>
      && Leq(Apply(s1, ip, op, a).state, Apply(s2, ip, op, b).state)
      && LogLeq(Apply(s1, ip, op, a).log, Apply(s2, ip, op, b).log)
  {
    if Apply(s1, ip, op, a).Applied? {
      var ta, tb := Taken(op, a.stack), Taken(op, b.stack);
      assert LeqSeq(ta, tb);
      assert Union(ta) <= Union(tb);
      ProducedMono(s1, s2, ip, op, ta, tb, a.locals, b.locals);
      NoticesMono(s1, s2, ip, op, ta, tb);
    }
  }

  lemma ProducedMono(s1: Summaries, s2: Summaries, ip: nat, op: Op, ta: seq<Alias>, tb: seq<Alias>,
                     la: seq<Alias>, lb: seq<Alias>)
    requires SumsLeq(s1, s2) && LeqSeq(ta, tb) && LeqSeq(la, lb)
    requires op.GetLocal? ==> op.slot < |la|
    ensures Produced(s1, ip, op, ta, la) <= Produced(s2, ip, op, tb, lb)
  {
    assert Union(ta) <= Union(tb);
  }

  lemma NoticesMono(s1: Summaries, s2: Summaries, ip: nat, op: Op, ta: seq<Alias>, tb: seq<Alias>)
    requires SumsLeq(s1, s2) && LeqSeq(ta, tb)
    ensures LogLeq(NoticesOf(s1, ip, op, ta), NoticesOf(s2, ip, op, tb))
  {
    assert Union(ta) <= Union(tb);
    var la, lb := NoticesOf(s1, ip, op, ta), NoticesOf(s2, ip, op, tb);
    forall t, e | Logged(la, t, e)
      ensures Logged(lb, t, e)
    {
      var n :| n in la && t in n.tokens && n.event == e;
      var k :| 0 <= k < |la| && la[k] == n;
      assert lb[k] in lb && t in lb[k].tokens && lb[k].event == e;
    }
  }

  ghost predicate WalkedLeq(a: Walked, b: Walked) {
    a.Walked? && b.Walked? ==>
      LeqOption(a.fall, b.fall) && LeqBreaks(a.breaks, b.breaks) && LogLeq(a.log, b.log)
  }

  lemma ThenMono(ba: seq<State>, la: seq<Notice>, a: Walked, bb: seq<State>, lb: seq<Notice>, b: Walked)
    requires LeqBreaks(ba, bb) && LogLeq(la, lb) && WalkedLeq(a, b)
    ensures WalkedLeq(Then(ba, la, a), Then(bb, lb, b))
  {
    if a.Walked? && b.Walked? {
      LogLeqAppend(la, a.log, lb, b.log);
    }
  }

  lemma MeetMono(la: seq<Notice>, xa: Walked, ya: Walked, lb: seq<Notice>, xb: Walked, yb: Walked)
    requires LogLeq(la, lb) && WalkedLeq(xa, xb) && WalkedLeq(ya, yb)
    ensures WalkedLeq(Meet(la, xa, ya), Meet(lb, xb, yb))
  {
    if xa.Walked? && ya.Walked? && xb.Walked? && yb.Walked? {
      LogLeqAppend(la, xa.log, lb, xb.log);
      LogLeqAppend(la + xa.log, ya.log, lb + xb.log, yb.log);
    }
  }

  /** More tracked at entry, or more pessimistic summaries, never means less observed. */
  lemma {:induction false} WalkMono(size: nat, s1: Summaries, s2: Summaries, b: Block, x: State, y: State, floor: nat)
    requires floor <= |x.stack| && Depth(b, |x.stack|, floor).Balanced?
    requires SumsLeq(s1, s2) && Leq(x, y)
    ensures WalkedLeq(Walk(size, s1, b, x), Walk(size, s2, b, y))
    decreases b, 2
  {
    match b
    case End =>
    case Step(_, _, _) => WalkMonoStep(size, s1, s2, b, x, y, floor);
    case Branch(_, _, _, _, _, _) => WalkMonoBranch(size, s1, s2, b, x, y, floor);
    case Cycle(_, _, _, _) => WalkMonoCycle(size, s1, s2, b, x, y, floor);
  }

  lemma {:induction false} WalkMonoStep(size: nat, s1: Summaries, s2: Summaries, b: Block, x: State, y: State, floor: nat)
    requires b.Step? && floor <= |x.stack| && Depth(b, |x.stack|, floor).Balanced?
    requires SumsLeq(s1, s2) && Leq(x, y)
    ensures WalkedLeq(Walk(size, s1, b, x), Walk(size, s2, b, y))
    decreases b, 1
  {
    if Ordinary(b.op) {
      ApplyMono(s1, s2, b.ip, b.op, x, y);
      ApplyShape(s1, b.ip, b.op, x, floor);
      var rx, ry := Apply(s1, b.ip, b.op, x), Apply(s2, b.ip, b.op, y);
      if rx.Applied? {
        WalkMono(size, s1, s2, b.rest, rx.state, ry.state, floor);
        ThenMono(BreakHere(b.op, rx.state), rx.log, Walk(size, s1, b.rest, rx.state),
                 BreakHere(b.op, ry.state), ry.log, Walk(size, s2, b.rest, ry.state));
      }
    } else if b.op.Return? {
      var lx, ly := ReturnNotice(b.ip, x), ReturnNotice(b.ip, y);
      assert ly in [ly] && lx.tokens <= ly.tokens;
      assert LogLeq([lx], [ly]);
    }
  }

  lemma {:induction false} ArmsMono(size: nat, s1: Summaries, s2: Summaries, b: Block, x: State, y: State, floor: nat)
    requires b.Branch? && floor <= |x.stack| && ArmHeights(b, |x.stack|, floor).Balanced?
    requires SumsLeq(s1, s2) && Leq(x, y)
    ensures WalkedLeq(ArmsMet(size, s1, b, x), ArmsMet(size, s2, b, y))
    decreases b, 0
  {
    ApplyMono(s1, s2, b.ip, If(b.target), x, y);
    ApplyShape(s1, b.ip, If(b.target), x, floor);
    var rx, ry := Apply(s1, b.ip, If(b.target), x), Apply(s2, b.ip, If(b.target), y);
    if rx.Applied? {
      WalkMono(size, s1, s2, b.first, rx.state, ry.state, floor);
      WalkMono(size, s1, s2, b.second, rx.state, ry.state, floor);
      MeetMono(rx.log, Walk(size, s1, b.first, rx.state), Walk(size, s1, b.second, rx.state),
               ry.log, Walk(size, s2, b.first, ry.state), Walk(size, s2, b.second, ry.state));
    }
  }

  lemma {:induction false} WalkMonoBranch(size: nat, s1: Summaries, s2: Summaries, b: Block, x: State, y: State, floor: nat)
    requires b.Branch? && floor <= |x.stack| && Depth(b, |x.stack|, floor).Balanced?
    requires SumsLeq(s1, s2) && Leq(x, y)
    ensures WalkedLeq(Walk(size, s1, b, x), Walk(size, s2, b, y))
    decreases b, 1
  {
    ArmsMono(size, s1, s2, b, x, y, floor);
    ArmsFit(size, s1, b, x, floor);
    var mx, my := ArmsMet(size, s1, b, x), ArmsMet(size, s2, b, y);
    if mx.Walked? && my.Walked? && mx.fall.Some? {
      WalkMono(size, s1, s2, b.rest, mx.fall.value, my.fall.value, floor);
      ThenMono(mx.breaks, mx.log, Walk(size, s1, b.rest, mx.fall.value), my.breaks, my.log, Walk(size, s2, b.rest, my.fall.value));
    }
  }

  lemma {:induction false} WalkMonoCycle(size: nat, s1: Summaries, s2: Summaries, b: Block, x: State, y: State, floor: nat)
    requires b.Cycle? && floor <= |x.stack| && Depth(b, |x.stack|, floor).Balanced?
    requires SumsLeq(s1, s2) && Leq(x, y)
    ensures WalkedLeq(Walk(size, s1, b, x), Walk(size, s2, b, y))
    decreases b, 1
  {
    var cap := RoundCap(size, |x.locals|);
    var fx, fy := LoopFix(size, s1, b, x), LoopFix(size, s2, b, y);
    if fx.Fixed? && fy.Fixed? {
      FixFits(size, s2, b.body, y, cap);
      FixIsClosed(size, s2, b.body, y, cap);
      FixMono(size, s1, s2, b.body, x, cap, fy.head);
      JoinAllMono(fx.bodyEnd, fx.breaks, fy.bodyEnd, fy.breaks);
      AfterLoopHeight(size, s1, b, x, floor);
      var ax, ay := AfterLoop(fx), AfterLoop(fy);
      if ax.Some? {
        WalkMono(size, s1, s2, b.rest, ax.value, ay.value, floor);
        ThenMono([], fx.log, Walk(size, s1, b.rest, ax.value), [], fy.log, Walk(size, s2, b.rest, ay.value));
      }
    }
  }

  // ----- the loop fixpoint -----

  /** A state no body pass adds to. */
  predicate Closed(size: nat, sums: Summaries, body: Block, x: State) {
    var r := Walk(size, sums, body, x);
    r.Walked? && (r.fall.Some? ==> JoinStates(x, r.fall.value) == x)
  }

  /** `b` is below `j` wherever `b` has an entry. */
  predicate Under(b: State, j: State) {
    && |b.stack| <= |j.stack| && |b.locals| <= |j.locals|
    && (forall k :: 0 <= k < |b.stack| ==> b.stack[k] <= j.stack[k])
    && (forall k :: 0 <= k < |b.locals| ==> b.locals[k] <= j.locals[k])
  }

  lemma UnderJoin(a: State, b: State)
    ensures Under(a, JoinStates(a, b)) && Under(b, JoinStates(a, b))
  {}

  lemma UnderTransitive(a: State, b: State, c: State)
    requires Under(a, b) && Under(b, c)
    ensures Under(a, c)
  {}

  /** The fixpoint contains its entry state, is closed under a body pass, and reports what one pass
      from it reports. */
  lemma {:induction false} FixIsClosed(size: nat, sums: Summaries, body: Block, entry: State, budget: nat)
    requires Fix(size, sums, body, entry, budget).Fixed?
    ensures var f := Fix(size, sums, body, entry, budget);
      var r := Walk(size, sums, body, f.head);
      && Closed(size, sums, body, f.head)
      && Under(entry, f.head)
      && r.fall == f.bodyEnd && r.breaks == f.breaks && LogLeq(r.log, f.log)
    decreases budget
  {
    var r := Walk(size, sums, body, entry);
    if r.fall.Some? && JoinStates(entry, r.fall.value) != entry {
      var w := JoinStates(entry, r.fall.value);
      var f := Fix(size, sums, body, w, budget - 1);
      FixIsClosed(size, sums, body, w, budget - 1);
      UnderJoin(entry, r.fall.value);
      UnderTransitive(entry, w, f.head);
      LogLeqPart(r.log, f.log);
    }
  }

  /** Every closed state above the entry bounds the fixpoint, its results and all its rounds. */
  lemma {:induction false} FixMono(size: nat, s1: Summaries, s2: Summaries, body: Block, entry: State, budget: nat, x: State)
    requires Depth(body, |entry.stack|, |entry.stack|).Balanced?
    requires SumsLeq(s1, s2) && Leq(entry, x) && Closed(size, s2, body, x)
    requires Fix(size, s1, body, entry, budget).Fixed?
    ensures var f, r := Fix(size, s1, body, entry, budget), Walk(size, s2, body, x);
      && Leq(f.head, x)
      && LeqOption(f.bodyEnd, r.fall)
      && LeqBreaks(f.breaks, r.breaks)
      && LogLeq(f.log, r.log)
    decreases body, 3, budget
  {
    WalkMono(size, s1, s2, body, entry, x, |entry.stack|);
    var r, q := Walk(size, s1, body, entry), Walk(size, s2, body, x);
    if r.fall.Some? && JoinStates(entry, r.fall.value) != entry {
      var w := JoinStates(entry, r.fall.value);
      JoinStatesMono(entry, r.fall.value, x, q.fall.value);
      FixMono(size, s1, s2, body, w, budget - 1, x);
      LogLeqBoth(r.log, Fix(size, s1, body, w, budget - 1).log, q.log);
    }
  }

  lemma LogLeqBoth(a: seq<Notice>, b: seq<Notice>, c: seq<Notice>)
    requires LogLeq(a, c) && LogLeq(b, c)
    ensures LogLeq(a + b, c)
  {
    forall t, e | Logged(a + b, t, e)
      ensures Logged(c, t, e)
    {
      LoggedAppend(a, b, t, e);
    }
  }

  /** The loop fixpoint is the least state that contains the entry state and is closed under one
      body pass. */
  lemma FixpointIsLeast(size: nat, sums: Summaries, body: Block, entry: State, budget: nat, x: State)
    requires LoopBalanced(Depth(body, |entry.stack|, |entry.stack|), |entry.stack|)
    requires Fix(size, sums, body, entry, budget).Fixed?
    ensures var head := Fix(size, sums, body, entry, budget).head;
      && Leq(entry, head) && Closed(size, sums, body, head)
      && (Leq(entry, x) && Closed(size, sums, body, x) ==> Leq(head, x))
  {
    FixIsClosed(size, sums, body, entry, budget);
    FixFits(size, sums, body, entry, budget);
    if Leq(entry, x) && Closed(size, sums, body, x) {
      FixMono(size, sums, sums, body, entry, budget, x);
    }
  }
}
