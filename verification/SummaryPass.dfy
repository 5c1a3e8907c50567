/** The inter-procedural pass: which chunks get a summary, and that each summary is the one the
    bottom-up recursion over the call graph defines, whatever order the chunks are visited in. */
module SummaryPass {
  import opened Options
  import opened Bytecode
  import opened Confine
  import opened ConfineShape
  import opened ConfineTotal
  import opened Tracking

  function Callees(c: Chunk): (s: set<nat>)
    ensures forall k :: k in s <==> exists i :: 0 <= i < |c.ops| && c.ops[i].Call? && c.ops[i].callee == k
  {
    set i | 0 <= i < |c.ops| && c.ops[i].Call? :: c.ops[i].callee
  }

  /** A chunk is ready once everything it calls, itself excluded, has a summary. */
  predicate IsReady(m: seq<Chunk>, sums: Summaries, i: nat) {
    && i < |m| == |sums.perChunk| && sums.perChunk[i].None?
    && forall c :: c in Callees(m[i]) ==> c != i && c < |m| && sums.perChunk[c].Some?
  }

  function Visit(m: seq<Chunk>, sums: Summaries, i: nat): (r: Summaries)
    ensures |r.perChunk| == |sums.perChunk|
  {
    if IsReady(m, sums, i) then Summaries(sums.perChunk[i := Some(Summarize(m[i], sums))]) else sums
  }

  /** One round over the chunks in the given order. */
  function Round(m: seq<Chunk>, sums: Summaries, order: seq<nat>): (r: Summaries)
    ensures |r.perChunk| == |sums.perChunk|
  {
    if order == [] then sums else Visit(m, Round(m, sums, order[..|order| - 1]), order[|order| - 1])
  }

  /** At most `n` rounds, stopping after one that adds nothing. */
  function Rounds(m: seq<Chunk>, sums: Summaries, order: seq<nat>, n: nat): (r: Summaries)
    ensures |r.perChunk| == |sums.perChunk|
    decreases n
  {
    if n == 0 then sums
    else
      var next := Round(m, sums, order);
      if next == sums then sums else Rounds(m, next, order, n - 1)
  }

  function Upto(n: nat): (s: seq<nat>)
    ensures |s| == n && forall i :: 0 <= i < n ==> s[i] == i
    ensures forall i :: 0 <= i < n ==> i in s
  {
    if n == 0 then [] else Upto(n - 1) + [n - 1]
  }

  function Blank(n: nat): Summaries {
    Summaries(seq(n, _ => None))
  }

  function ModuleSummaries(m: seq<Chunk>): Summaries {
    Rounds(m, Blank(|m|), Upto(|m|), |m|)
  }

  // ----- a summary depends on the callees' summaries only -----

  predicate CallsWithin(b: Block, s: set<nat>) {
    match b
    case End => true
    case Step(_, op, rest) => (op.Call? ==> op.callee in s) && CallsWithin(rest, s)
    case Branch(_, _, _, first, second, rest) => CallsWithin(first, s) && CallsWithin(second, s) && CallsWithin(rest, s)
    case Cycle(_, _, body, rest) => CallsWithin(body, s) && CallsWithin(rest, s)
  }

  predicate SameOn(a: Summaries, b: Summaries, s: set<nat>) {
    |a.perChunk| == |b.perChunk| && forall c :: c in s && c < |a.perChunk| ==> a.perChunk[c] == b.perChunk[c]
  }

  lemma ApplySame(s1: Summaries, s2: Summaries, ip: nat, op: Op, s: State, calls: set<nat>)
    requires SameOn(s1, s2, calls) && (op.Call? ==> op.callee in calls)
    ensures Apply(s1, ip, op, s) == Apply(s2, ip, op, s)
  {
    if op.Call? {
      assert forall arg: nat :: Leaks(s1, op.callee, arg) == Leaks(s2, op.callee, arg);
      assert forall arg: nat :: Returns(s1, op.callee, arg) == Returns(s2, op.callee, arg);
      if |s.stack| >= Pops(op) {
        var taken := Taken(op, s.stack);
        assert NoticesOf(s1, ip, op, taken) == NoticesOf(s2, ip, op, taken);
        assert Produced(s1, ip, op, taken, s.locals) == Produced(s2, ip, op, taken, s.locals);
      }
    }
  }

  lemma {:induction false} WalkSame(size: nat, s1: Summaries, s2: Summaries, b: Block, s: State, calls: set<nat>)
    requires SameOn(s1, s2, calls) && CallsWithin(b, calls)
    ensures Walk(size, s1, b, s) == Walk(size, s2, b, s)
    decreases b, 0
  {
    match b
    case End =>
    case Step(ip, op, rest) =>
      ApplySame(s1, s2, ip, op, s, calls);
      var r := Apply(s1, ip, op, s);
      if r.Applied? {
        WalkSame(size, s1, s2, rest, r.state, calls);
      }
    case Branch(ip, target, _, first, second, rest) =>
      ApplySame(s1, s2, ip, If(target), s, calls);
      var r := Apply(s1, ip, If(target), s);
      if r.Applied? {
        WalkSame(size, s1, s2, first, r.state, calls);
        WalkSame(size, s1, s2, second, r.state, calls);
        var met := ArmsMet(size, s1, b, s);
        if met.Walked? && met.fall.Some? {
          WalkSame(size, s1, s2, rest, met.fall.value, calls);
        }
      }
    case Cycle(_, _, body, rest) =>
      FixSame(size, s1, s2, body, s, RoundCap(size, |s.locals|), calls);
      var after := AfterLoop(LoopFix(size, s1, b, s));
      if after.Some? {
        WalkSame(size, s1, s2, rest, after.value, calls);
      }
  }

  lemma {:induction false} FixSame(size: nat, s1: Summaries, s2: Summaries, body: Block, head: State, budget: nat, calls: set<nat>)
    requires SameOn(s1, s2, calls) && CallsWithin(body, calls)
    ensures Fix(size, s1, body, head, budget) == Fix(size, s2, body, head, budget)
    decreases body, 1, budget
  {
    WalkSame(size, s1, s2, body, head, calls);
    var r := Walk(size, s1, body, head);
    if r.Walked? && r.fall.Some? && JoinStates(head, r.fall.value) != head && budget > 0 {
      FixSame(size, s1, s2, body, JoinStates(head, r.fall.value), budget - 1, calls);
    }
  }

  lemma {:induction false} LaidCalls(c: Chunk, lo: nat, hi: nat, b: Block)
    requires Laid(c.ops, lo, hi, b)
    ensures CallsWithin(b, Callees(c))
    decreases b
  {
    LaidOpen(c.ops, lo, hi, b);
    hide Laid;
    match b
    case End =>
    case Step(_, op, rest) => LaidCalls(c, lo + 1, hi, rest);
    case Branch(_, _, a, first, second, rest) =>
      LaidCalls(c, lo + 1, a.thenEnd, first);
      LaidCalls(c, a.elseStart, a.endIf, second);
      LaidCalls(c, a.endIf + 1, hi, rest);
    case Cycle(_, exit, body, rest) =>
      LaidCalls(c, lo + 1, exit - 1, body);
      LaidCalls(c, exit, hi, rest);
  }

  /** What a chunk's summary is depends only on the summaries of the chunks it calls. */
  lemma SummarizeSame(c: Chunk, s1: Summaries, s2: Summaries)
    requires SameOn(s1, s2, Callees(c))
    ensures Summarize(c, s1) == Summarize(c, s2)
  {
    var b := BlockOf(c.ops, 0, |c.ops|);
    if b.Some? {
      LaidCalls(c, 0, |c.ops|, b.value);
      hide BlockOf, Callees, Laid;
      WalkSame(|c.ops|, s1, s2, b.value, State([], SeededLocals(c)), Callees(c));
    }
  }

  // ----- what every round keeps -----

  /** Every summary is what its chunk's run yields against the record, and rests on callees that have
      one. */
  predicate Settled(m: seq<Chunk>, sums: Summaries, i: nat)
    requires i < |m| == |sums.perChunk|
  {
    sums.perChunk[i].Some? ==>
      && sums.perChunk[i].value == Summarize(m[i], sums)
      && forall c :: c in Callees(m[i]) ==> c != i && c < |m| && sums.perChunk[c].Some?
  }

  predicate AllSettled(m: seq<Chunk>, sums: Summaries) {
    |m| == |sums.perChunk| && forall i :: 0 <= i < |m| ==> Settled(m, sums, i)
  }

  predicate Grows(a: Summaries, b: Summaries) {
    && |a.perChunk| == |b.perChunk|
    && forall i :: 0 <= i < |a.perChunk| && a.perChunk[i].Some? ==> b.perChunk[i] == a.perChunk[i]
  }

  lemma VisitSettles(m: seq<Chunk>, sums: Summaries, i: nat)
    requires AllSettled(m, sums)
    ensures AllSettled(m, Visit(m, sums, i)) && Grows(sums, Visit(m, sums, i))
  {
    var next := Visit(m, sums, i);
    hide Summarize, Callees;
    if IsReady(m, sums, i) {
      forall j | 0 <= j < |m|
        ensures Settled(m, next, j)
      {
        assert Settled(m, sums, j);
        if next.perChunk[j].Some? {
          assert SameOn(sums, next, Callees(m[j]));
          SummarizeSame(m[j], sums, next);
        }
      }
    }
  }

  lemma {:induction false} RoundSettles(m: seq<Chunk>, sums: Summaries, order: seq<nat>)
    requires AllSettled(m, sums)
    ensures AllSettled(m, Round(m, sums, order)) && Grows(sums, Round(m, sums, order))
    decreases |order|
  {
    if order != [] {
      RoundSettles(m, sums, order[..|order| - 1]);
      VisitSettles(m, Round(m, sums, order[..|order| - 1]), order[|order| - 1]);
    }
  }

  // ----- the call graph -----

  /** Every chain of calls from chunk `i` stays in range and has fewer than `k` calls. */
  predicate HeightWithin(m: seq<Chunk>, i: nat, k: nat)
    decreases k
  {
    k > 0 && i < |m| && forall c :: c in Callees(m[i]) ==> HeightWithin(m, c, k - 1)
  }

  lemma {:induction false} HeightMono(m: seq<Chunk>, i: nat, k: nat, l: nat)
    requires HeightWithin(m, i, k) && k <= l
    ensures HeightWithin(m, i, l)
    decreases k
  {
    forall c | c in Callees(m[i])
      ensures HeightWithin(m, c, l - 1)
    {
      HeightMono(m, c, k - 1, l - 1);
    }
  }

  /** A chain of calls; only its last member may lie outside the module. */
  predicate CallPath(m: seq<Chunk>, p: seq<nat>) {
    |p| > 0 && forall j :: 0 <= j < |p| - 1 ==> p[j] < |m| && p[j + 1] in Callees(m[p[j]])
  }

  /** Everything reachable from chunk `i` through calls is in the module, and no call chain repeats a
      chunk. */
  ghost predicate Acyclic(m: seq<Chunk>, i: nat) {
    forall p :: CallPath(m, p) && p[0] == i ==>
      (forall j :: 0 <= j < |p| ==> p[j] < |m|) && (forall a, b :: 0 <= a < b < |p| ==> p[a] != p[b])
  }

  lemma {:induction false} HeightAlong(m: seq<Chunk>, p: seq<nat>, k: nat, j: nat)
    requires CallPath(m, p) && j < |p| && HeightWithin(m, p[0], k)
    ensures k > j && HeightWithin(m, p[j], k - j)
    decreases j
  {
    if j > 0 {
      HeightAlong(m, p, k, j - 1);
      assert p[j - 1 + 1] in Callees(m[p[j - 1]]);
      HeightBelow(m, p[j - 1], p[j], k - (j - 1));
    }
  }

  lemma HeightBelow(m: seq<Chunk>, i: nat, c: nat, k: nat)
    requires HeightWithin(m, i, k) && c in Callees(m[i])
    ensures k > 1 && HeightWithin(m, c, k - 1)
  {
    assert HeightWithin(m, c, k - 1);
  }

  /** A chunk of bounded height lies on no cycle. */
  lemma {:induction false} NoCycle(m: seq<Chunk>, p: seq<nat>, k: nat)
    requires CallPath(m, p) && |p| > 1 && p[|p| - 1] == p[0]
    ensures !HeightWithin(m, p[0], k)
    decreases k
  {
    if HeightWithin(m, p[0], k) {
      HeightAlong(m, p, k, |p| - 1);
      NoCycle(m, p, k - (|p| - 1));
    }
  }

  lemma HeightAcyclic(m: seq<Chunk>, i: nat, k: nat)
    requires HeightWithin(m, i, k)
    ensures Acyclic(m, i)
  {
    forall p | CallPath(m, p) && p[0] == i
      ensures (forall j :: 0 <= j < |p| ==> p[j] < |m|) && (forall a, b :: 0 <= a < b < |p| ==> p[a] != p[b])
    {
      forall j | 0 <= j < |p|
        ensures p[j] < |m|
      {
        HeightAlong(m, p, k, j);
      }
      forall a, b | 0 <= a < b < |p|
        ensures p[a] != p[b]
      {
        HeightAlong(m, p, k, a);
        if p[a] == p[b] {
          NoCycle(m, p[a..b + 1], k - a);
        }
      }
    }
  }

  /** Distinct numbers below `n` are at most `n`. */
  lemma DistinctBelow(p: seq<nat>, n: nat)
    requires forall j :: 0 <= j < |p| ==> p[j] < n
    requires forall a, b :: 0 <= a < b < |p| ==> p[a] != p[b]
    ensures |p| <= n
  {
    var members := set j | 0 <= j < |p| :: p[j];
    MembersOf(p);
    assert members <= Below(n);
    SubsetSmaller(members, Below(n));
  }

  lemma {:induction false} MembersOf(p: seq<nat>)
    requires forall a, b :: 0 <= a < b < |p| ==> p[a] != p[b]
    ensures |(set j | 0 <= j < |p| :: p[j])| == |p|
    decreases |p|
  {
    var members := set j | 0 <= j < |p| :: p[j];
    if p == [] {
      assert members == {};
    } else {
      var q := p[..|p| - 1];
      MembersOf(q);
      assert members == (set j | 0 <= j < |q| :: q[j]) + {p[|p| - 1]};
    }
  }

  /** A bounded walk down the call graph that fails leaves a chain that is too long or leads out. */
  lemma {:induction false} HeightFails(m: seq<Chunk>, i: nat, k: nat) returns (p: seq<nat>)
    requires !HeightWithin(m, i, k)
    ensures CallPath(m, p) && p[0] == i && (p[|p| - 1] >= |m| || |p| == k + 1)
    decreases k
  {
    if k == 0 || i >= |m| {
      p := [i];
    } else {
      var c :| c in Callees(m[i]) && !HeightWithin(m, c, k - 1);
      var q := HeightFails(m, c, k - 1);
      p := [i] + q;
    }
  }

  /** Bounded height is acyclicity, and the number of chunks is bound enough. */
  lemma AcyclicIsBounded(m: seq<Chunk>, i: nat)
    ensures Acyclic(m, i) <==> HeightWithin(m, i, |m|)
  {
    if HeightWithin(m, i, |m|) {
      HeightAcyclic(m, i, |m|);
    } else {
      var p := HeightFails(m, i, |m|);
      if Acyclic(m, i) {
        DistinctBelow(p, |m|);
      }
    }
  }

  // ----- which chunks get a summary -----

  function Count(entries: seq<Option<Summary>>): (n: nat)
    ensures n <= |entries|
  {
    if entries == [] then 0 else Count(entries[..|entries| - 1]) + (if entries[|entries| - 1].Some? then 1 else 0)
  }

  lemma {:induction false} CountOneMore(entries: seq<Option<Summary>>, i: nat, s: Summary)
    requires i < |entries| && entries[i].None?
    ensures Count(entries[i := Some(s)]) == Count(entries) + 1
    decreases |entries|
  {
    var n := |entries| - 1;
    var after := entries[i := Some(s)];
    if i < n {
      CountOneMore(entries[..n], i, s);
      assert after[..n] == entries[..n][i := Some(s)];
    } else {
      assert after[..n] == entries[..n];
    }
  }

  lemma {:induction false} CountAll(entries: seq<Option<Summary>>)
    requires Count(entries) == |entries|
    ensures forall i :: 0 <= i < |entries| ==> entries[i].Some?
    decreases |entries|
  {
    if entries != [] {
      CountAll(entries[..|entries| - 1]);
    }
  }

  /** Only chunks of bounded height are summarised. */
  predicate OnlyBounded(m: seq<Chunk>, sums: Summaries) {
    |m| == |sums.perChunk| &&
    forall i :: 0 <= i < |m| && sums.perChunk[i].Some? ==> HeightWithin(m, i, Count(sums.perChunk))
  }

  lemma VisitBounded(m: seq<Chunk>, sums: Summaries, i: nat)
    requires OnlyBounded(m, sums)
    ensures OnlyBounded(m, Visit(m, sums, i))
  {
    hide Summarize, Callees;
    var next := Visit(m, sums, i);
    if IsReady(m, sums, i) {
      CountOneMore(sums.perChunk, i, Summarize(m[i], sums));
      var n := Count(sums.perChunk);
      assert HeightWithin(m, i, n + 1);
      forall j | 0 <= j < |m| && next.perChunk[j].Some?
        ensures HeightWithin(m, j, n + 1)
      {
        if j != i {
          HeightMono(m, j, n, n + 1);
        }
      }
    }
  }

  lemma {:induction false} RoundBounded(m: seq<Chunk>, sums: Summaries, order: seq<nat>)
    requires OnlyBounded(m, sums)
    ensures OnlyBounded(m, Round(m, sums, order))
    decreases |order|
  {
    if order != [] {
      RoundBounded(m, sums, order[..|order| - 1]);
      VisitBounded(m, Round(m, sums, order[..|order| - 1]), order[|order| - 1]);
    }
  }

  lemma {:induction false} RoundCounts(m: seq<Chunk>, sums: Summaries, order: seq<nat>)
    ensures Round(m, sums, order) == sums || Count(Round(m, sums, order).perChunk) > Count(sums.perChunk)
    decreases |order|
  {
    hide Summarize, Callees;
    if order != [] {
      RoundCounts(m, sums, order[..|order| - 1]);
      var before, i := Round(m, sums, order[..|order| - 1]), order[|order| - 1];
      if IsReady(m, before, i) {
        CountOneMore(before.perChunk, i, Summarize(m[i], before));
      }
    }
  }

  /** All chunks of height at most `k` are summarised. */
  predicate Covers(m: seq<Chunk>, sums: Summaries, k: nat) {
    |m| == |sums.perChunk| && forall i :: 0 <= i < |m| && HeightWithin(m, i, k) ==> sums.perChunk[i].Some?
  }

  /** A round summarises every visited chunk whose callees already had a summary. */
  lemma {:induction false} RoundGains(m: seq<Chunk>, sums: Summaries, order: seq<nat>, k: nat, i: nat)
    requires AllSettled(m, sums) && Covers(m, sums, k) && i in order && HeightWithin(m, i, k + 1)
    ensures Round(m, sums, order).perChunk[i].Some?
    decreases |order|
  {
    var init, last := order[..|order| - 1], order[|order| - 1];
    var before := Round(m, sums, init);
    RoundSettles(m, sums, init);
    VisitSettles(m, before, last);
    if last == i {
      forall c | c in Callees(m[i])
        ensures c != i && c < |m| && before.perChunk[c].Some?
      {
        assert HeightWithin(m, c, k);
        NoSelfCall(m, i, k + 1);
      }
    } else {
      RoundGains(m, sums, init, k, i);
    }
  }

  lemma NoSelfCall(m: seq<Chunk>, i: nat, k: nat)
    requires HeightWithin(m, i, k)
    ensures i !in Callees(m[i])
  {
    if i in Callees(m[i]) {
      NoCycle(m, [i, i], k);
    }
  }

  lemma RoundCovers(m: seq<Chunk>, sums: Summaries, order: seq<nat>, k: nat)
    requires AllSettled(m, sums) && Covers(m, sums, k) && forall i :: 0 <= i < |m| ==> i in order
    ensures Covers(m, Round(m, sums, order), k + 1)
  {
    forall i | 0 <= i < |m| && HeightWithin(m, i, k + 1)
      ensures Round(m, sums, order).perChunk[i].Some?
    {
      RoundGains(m, sums, order, k, i);
    }
  }

  /** A record no round adds to covers every bounded chunk. */
  lemma {:induction false} StableCovers(m: seq<Chunk>, sums: Summaries, order: seq<nat>, k: nat)
    requires AllSettled(m, sums) && Round(m, sums, order) == sums && forall i :: 0 <= i < |m| ==> i in order
    ensures Covers(m, sums, k)
  {
    if k > 0 {
      StableCovers(m, sums, order, k - 1);
      RoundCovers(m, sums, order, k - 1);
    }
  }

  /** The rounds end with a settled record that holds exactly the bounded chunks. */
  lemma {:induction false} RoundsExact(m: seq<Chunk>, sums: Summaries, order: seq<nat>, n: nat)
    requires AllSettled(m, sums) && OnlyBounded(m, sums) && (forall i :: 0 <= i < |m| ==> i in order)
    requires Count(sums.perChunk) + n >= |m|
    ensures var r := Rounds(m, sums, order, n);
      && AllSettled(m, r)
      && forall i :: 0 <= i < |m| ==> (r.perChunk[i].Some? <==> HeightWithin(m, i, |m|))
    decreases n
  {
    var next := Round(m, sums, order);
    RoundSettles(m, sums, order);
    RoundBounded(m, sums, order);
    RoundCounts(m, sums, order);
    if n > 0 && next != sums {
      RoundsExact(m, next, order, n - 1);
    } else {
      if next == sums {
        StableCovers(m, sums, order, |m|);
      } else {
        CountAll(sums.perChunk);
      }
      forall i | 0 <= i < |m| && sums.perChunk[i].Some?
        ensures HeightWithin(m, i, |m|)
      {
        HeightMono(m, i, Count(sums.perChunk), |m|);
      }
    }
  }

  /** The summary of a chunk of bounded height, from the bottom of the call graph up. */
  function BottomUp(m: seq<Chunk>, i: nat, k: nat): Summary
    requires HeightWithin(m, i, k)
    decreases k
  {
    Summarize(m[i], Summaries(seq(|m|, c requires 0 <= c < |m| =>
      if c in Callees(m[i]) then Some(BottomUp(m, c, k - 1)) else None)))
  }

  /** A settled record holds what the bottom-up recursion defines. */
  lemma {:induction false} SettledIsBottomUp(m: seq<Chunk>, sums: Summaries, i: nat, k: nat)
    requires AllSettled(m, sums) && HeightWithin(m, i, k) && sums.perChunk[i].Some?
    ensures sums.perChunk[i].value == BottomUp(m, i, k)
    decreases k
  {
    var below := Summaries(seq(|m|, c requires 0 <= c < |m| => if c in Callees(m[i]) then Some(BottomUp(m, c, k - 1)) else None));
    assert Settled(m, sums, i);
    hide Summarize, Callees;
    forall c | c in Callees(m[i]) && c < |m|
      ensures sums.perChunk[c] == below.perChunk[c]
    {
      SettledIsBottomUp(m, sums, c, k - 1);
    }
    SummarizeSame(m[i], sums, below);
  }

  /** The pass summarises exactly the chunks whose reachable call graph is acyclic and in range, in as
      many rounds as there are chunks, whatever the order of visits; each summary is the one the
      bottom-up recursion defines, and the record agrees with itself. */
  lemma SummariesExact(m: seq<Chunk>, order: seq<nat>)
    requires forall i :: 0 <= i < |m| ==> i in order
    ensures var r := Rounds(m, Blank(|m|), order, |m|);
      && Consistent(m, r) && |r.perChunk| == |m|
      && forall i :: 0 <= i < |m| ==>
        && (r.perChunk[i].Some? <==> Acyclic(m, i))
        && (r.perChunk[i].Some? ==> HeightWithin(m, i, |m|) && r.perChunk[i].value == BottomUp(m, i, |m|))
  {
    hide Rounds, Summarize, Settled, Acyclic, HeightWithin, BottomUp;
    var r := Rounds(m, Blank(|m|), order, |m|);
    BlankStart(m);
    RoundsExact(m, Blank(|m|), order, |m|);
    forall i | 0 <= i < |m|
      ensures r.perChunk[i].Some? <==> Acyclic(m, i)
      ensures r.perChunk[i].Some? ==> HeightWithin(m, i, |m|) && r.perChunk[i].value == BottomUp(m, i, |m|)
    {
      AcyclicIsBounded(m, i);
      if r.perChunk[i].Some? {
        SettledIsBottomUp(m, r, i, |m|);
      }
    }
    SettledConsistent(m, r);
  }

  lemma BlankStart(m: seq<Chunk>)
    ensures AllSettled(m, Blank(|m|)) && OnlyBounded(m, Blank(|m|))
  {}

  lemma SettledConsistent(m: seq<Chunk>, sums: Summaries)
    requires AllSettled(m, sums)
    ensures Consistent(m, sums)
  {
    hide Summarize, Callees;
    forall i | 0 <= i < |sums.perChunk| && sums.perChunk[i].Some?
      ensures sums.perChunk[i].value == Summarize(m[i], sums)
    {
      assert Settled(m, sums, i);
    }
  }

  /** The order of visits does not matter. */
  lemma OrderDoesNotMatter(m: seq<Chunk>, order: seq<nat>)
    requires forall i :: 0 <= i < |m| ==> i in order
    ensures Rounds(m, Blank(|m|), order, |m|) == ModuleSummaries(m)
  {
    SummariesExact(m, order);
    SummariesExact(m, Upto(|m|));
    var a, b := Rounds(m, Blank(|m|), order, |m|), ModuleSummaries(m);
    hide Rounds, Summarize, Acyclic, BottomUp;
    assert forall i :: 0 <= i < |m| ==> a.perChunk[i] == b.perChunk[i];
    assert a.perChunk == b.perChunk;
  }

  /** The summaries the pass computes are ones the run guarantees can be applied to. */
  lemma ModuleSummariesConsistent(m: seq<Chunk>)
    ensures Consistent(m, ModuleSummaries(m))
  {
    SummariesExact(m, Upto(|m|));
  }
}
