/** Alias soundness on whole runs, across calls: what the walks of a module's chunks say bounds
    where every region built during a run can be. */
module Tracking {
  import opened Options
  import opened Bytecode
  import opened Confine
  import opened ConfineOrder
  import opened ConfineTotal
  import opened Annotation
  import opened Guard
  import opened Machine
  import opened Cover

  // ----- modules and what is established of them -----

  /** Control goes to the next address, and no loop opens. */
  predicate Plain(op: Op) {
    && !op.If? && !op.Else? && !op.EndLoop? && !op.Break? && !op.BreakIf?
    && !op.Reset? && !op.Return? && !op.Trap? && !op.Loop?
  }

  /** The operand height after the first `n` instructions, when they run straight through. */
  function PrologueHeight(ops: seq<Op>, n: nat): Option<nat>
    requires n <= |ops|
  {
    if n == 0 then Some(0)
    else
      var op := ops[n - 1];
      match PrologueHeight(ops, n - 1)
      case Some(h) => if Plain(op) && Pops(op) <= h then Some(h - Pops(op) + Pushes(op)) else None
      case None => None
  }

  /** A reset resumes behind a straight prologue that left no operand. */
  predicate Restartable(c: Chunk) {
    forall i :: 0 <= i < |c.ops| && c.ops[i] == Reset ==>
      StreamAt(c.ops, 0).Some? ==> PrologueHeight(c.ops, StreamAt(c.ops, 0).value) == Some(0)
  }

  /** A chunk the soundness theorems speak of: it is verified, it restarts cleanly, and both its walks,
      for its sites and for its parameters, are benign. */
  predicate Admitted(c: Chunk, sums: Summaries) {
    && Verified(c) && Restartable(c)
    && BenignFrom(c, sums, EmptyLocals(c)) && BenignFrom(c, sums, SeededLocals(c))
  }

  function SiteLog(c: Chunk, sums: Summaries): seq<Notice> {
    var r := Interpret(c, EmptyLocals(c), sums);
    if r.Walked? then r.log else []
  }

  function ParamLog(c: Chunk, sums: Summaries): seq<Notice> {
    var r := Interpret(c, SeededLocals(c), sums);
    if r.Walked? then r.log else []
  }

  /** Every summary on record is what its chunk's own run yields against the whole record. */
  predicate Consistent(m: seq<Chunk>, sums: Summaries) {
    forall i :: 0 <= i < |sums.perChunk| && sums.perChunk[i].Some? ==>
      i < |m| && sums.perChunk[i].value == Summarize(m[i], sums)
  }

  /** `a` describes every address a run of `c` can reach, entered with `seed`. */
  ghost predicate Charts(c: Chunk, sums: Summaries, seed: seq<Alias>, log: seq<Notice>, a: Ann) {
    && 0 in a && a[0] == State([], seed)
    && (forall k :: k in a && k < |c.ops| ==> Flows(c, sums, log, k, a[k], a))
    && (forall k :: k in a && k < |c.ops| ==> Sized(c, k, a[k], 0, c.localCount, true))
    && FloorsKept(c, a)
  }

  /** A module with a chart of each chunk for its sites and one for its parameters. */
  datatype Facts = Facts(m: seq<Chunk>, sums: Summaries, site: seq<Ann>, par: seq<Ann>)

  ghost predicate ChunkCharted(w: Facts, i: nat)
    requires i < |w.m| == |w.site| == |w.par|
  {
    && Verified(w.m[i]) && Restartable(w.m[i])
    && Charts(w.m[i], w.sums, EmptyLocals(w.m[i]), SiteLog(w.m[i], w.sums), w.site[i])
    && Charts(w.m[i], w.sums, SeededLocals(w.m[i]), ParamLog(w.m[i], w.sums), w.par[i])
  }

  ghost predicate Established(w: Facts) {
    && |w.m| == |w.site| == |w.par|
    && Consistent(w.m, w.sums)
    && forall i :: 0 <= i < |w.m| ==> ChunkCharted(w, i)
  }

  lemma ChartChunk(c: Chunk, sums: Summaries, seed: seq<Alias>) returns (a: Ann)
    requires Verified(c) && BenignFrom(c, sums, seed) && |seed| == c.localCount
    requires forall k :: 0 <= k < |seed| ==> seed[k] <= ParamTokens(c.localCount)
    ensures Interpret(c, seed, sums).Walked?
    ensures Charts(c, sums, seed, Interpret(c, seed, sums).log, a)
  {
    InterpretCompletes(c, sums, seed, c.localCount);
    a := AnnotateChunk(c, sums, seed);
  }

  lemma ChartChunks(m: seq<Chunk>, sums: Summaries, n: nat) returns (w: Facts)
    requires n <= |m| && forall i :: 0 <= i < |m| ==> Admitted(m[i], sums)
    ensures w.m == m[..n] && w.sums == sums && |w.site| == |w.par| == n
    ensures forall i :: 0 <= i < n ==> ChunkCharted(w, i)
  {
    w := Facts([], sums, [], []);
    if n > 0 {
      var v := ChartChunks(m, sums, n - 1);
      var c := m[n - 1];
      var s := ChartChunk(c, sums, EmptyLocals(c));
      var p := ChartChunk(c, sums, SeededLocals(c));
      w := Facts(m[..n], sums, v.site + [s], v.par + [p]);
      forall i | 0 <= i < n
        ensures ChunkCharted(w, i)
      {
        hide Admitted, Charts;
        if i < n - 1 {
          assert ChunkCharted(v, i);
        }
      }
    }
  }

  /** Everything the run theorems rest on holds of any module of admitted chunks. */
  lemma Establish(m: seq<Chunk>, sums: Summaries) returns (w: Facts)
    requires Consistent(m, sums) && forall i :: 0 <= i < |m| ==> Admitted(m[i], sums)
    ensures Established(w) && w.m == m && w.sums == sums
  {
    w := ChartChunks(m, sums, |m|);
    assert m[..|m|] == m;
  }

  /** After a straight prologue the chart has the prologue's height. */
  lemma {:induction false} PrologueCharted(c: Chunk, sums: Summaries, seed: seq<Alias>, log: seq<Notice>, a: Ann, n: nat)
    requires Charts(c, sums, seed, log, a) && n <= |c.ops| && PrologueHeight(c.ops, n).Some?
    ensures n in a && |a[n].stack| == PrologueHeight(c.ops, n).value
  {
    if n > 0 {
      PrologueCharted(c, sums, seed, log, a, n - 1);
      assert n in Successors(c.ops, n - 1);
    }
  }

  lemma ResetCharted(c: Chunk, sums: Summaries, seed: seq<Alias>, log: seq<Notice>, a: Ann, s: nat)
    requires Charts(c, sums, seed, log, a)
    requires s < |c.ops| && c.ops[s] == Stream && PrologueHeight(c.ops, s) == Some(0)
    ensures s + 1 in a && a[s + 1].stack == [] && |a[s + 1].locals| == c.localCount
  {
    PrologueCharted(c, sums, seed, log, a, s);
    StreamOn(c, sums, seed, log, a, s);
  }

  lemma StreamOn(c: Chunk, sums: Summaries, seed: seq<Alias>, log: seq<Notice>, a: Ann, s: nat)
    requires Charts(c, sums, seed, log, a) && s < |c.ops| && c.ops[s] == Stream && s in a && a[s].stack == []
    ensures s + 1 in a && a[s + 1].stack == [] && |a[s + 1].locals| == c.localCount
  {
    hide PrologueHeight, FloorsKept, Flows, Sized;
    assert Flows(c, sums, log, s, a[s], a) && Sized(c, s, a[s], 0, c.localCount, true);
    hide Charts;
    StreamFlows(c, sums, log, a, s);
    StreamSized(c, s, a[s]);
  }

  lemma StreamFlows(c: Chunk, sums: Summaries, log: seq<Notice>, a: Ann, s: nat)
    requires s in a && Flows(c, sums, log, s, a[s], a) && s < |c.ops| && c.ops[s] == Stream && a[s].stack == []
    ensures s + 1 in a && a[s + 1].stack == [] && |a[s + 1].locals| == |a[s].locals|
  {
    hide NoticesOf, LogLeq, EndsUnder, Produced;
    assert s + 1 in Successors(c.ops, s);
    var r := Apply(sums, s, Stream, a[s]);
    assert r.Applied? && r.state.stack == [] && |r.state.locals| == |a[s].locals|;
    assert Leq(r.state, a[s + 1]);
  }

  lemma StreamSized(c: Chunk, s: nat, st: State)
    requires s < |c.ops| && Sized(c, s, st, 0, c.localCount, true)
    ensures |st.locals| == c.localCount
  {}
}
