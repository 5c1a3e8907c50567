/** Whether control can come back to an address: exactly when it can go on from there to the end of some
    loop around it. */
module Again {
  import opened Options
  import opened Bytecode
  import opened Liveness
  import opened Loops
  import opened Dispatch

  // ----- where control can go on to from an address -----

  /** Can control at `k` run off the end of the block? */
  predicate FallsFrom(b: Block, k: nat)
    decreases b, 0
  {
    match b
    case End => false
    case Step(ip, op, rest) => if k == ip then !Stops(op) && !op.Break? && Falls(rest) else FallsFrom(rest, k)
    case Branch(ip, _, a, first, second, rest) =>
      if k <= ip then (Falls(first) || Falls(second)) && Falls(rest)
      else if k < a.thenEnd then FallsFrom(first, k) && Falls(rest)
      else if k < a.elseStart then Falls(rest)
      else if k < a.endIf then FallsFrom(second, k) && Falls(rest)
      else if k == a.endIf then Falls(rest)
      else FallsFrom(rest, k)
    case Cycle(ip, exit, body, rest) =>
      if k < exit then LeavesFrom(ip, exit, body, k) && Falls(rest) else FallsFrom(rest, k)
  }

  /** Can control at `k` leave the block through a break of the loop around it? */
  predicate BreaksFrom(b: Block, k: nat)
    decreases b, 0
  {
    match b
    case End => false
    case Step(ip, op, rest) => if k == ip then op.Break? || op.BreakIf? || (!Stops(op) && Breaks(rest)) else BreaksFrom(rest, k)
    case Branch(ip, _, a, first, second, rest) =>
      if k <= ip then Breaks(first) || Breaks(second) || ((Falls(first) || Falls(second)) && Breaks(rest))
      else if k < a.thenEnd then BreaksFrom(first, k) || (FallsFrom(first, k) && Breaks(rest))
      else if k < a.elseStart then Breaks(rest)
      else if k < a.endIf then BreaksFrom(second, k) || (FallsFrom(second, k) && Breaks(rest))
      else if k == a.endIf then Breaks(rest)
      else BreaksFrom(rest, k)
    case Cycle(ip, exit, body, rest) =>
      if k < exit then LeavesFrom(ip, exit, body, k) && Breaks(rest) else BreaksFrom(rest, k)
  }

  /** Can control at `k`, in the loop at `ip`, get behind the loop? */
  predicate LeavesFrom(ip: nat, exit: nat, body: Block, k: nat)
    decreases body, 1
  {
    if k <= ip || k + 1 >= exit then Breaks(body)
    else BreaksFrom(body, k) || (FallsFrom(body, k) && Breaks(body))
  }

  /** Can control at `site` reach the end of a loop around it? */
  predicate ComesBack(ops: seq<Op>, site: nat) {
    exists l :: 0 <= l < |ops| && RoundsFrom(ops, l, site)
  }

  /** Is the loop at `l` around `site`, with its end in reach? */
  predicate RoundsFrom(ops: seq<Op>, l: nat, site: nat)
    requires l < |ops|
  {
    && ops[l].Loop? && l < site && site + 1 < ops[l].target <= |ops|
    && var body := BlockOf(ops, l + 1, ops[l].target - 1);
      body.Some? && FallsFrom(body.value, site)
  }

  // ----- what an edge tells of the address it starts from -----

  predicate FallsAt(b: Block, lo: nat, hi: nat, n: nat) {
    n == hi || (lo <= n < hi && FallsFrom(b, n))
  }

  predicate BreaksAt(b: Block, lo: nat, hi: nat, exit: Option<nat>, n: nat) {
    exit == Some(n) || (lo <= n < hi && BreaksFrom(b, n))
  }

  lemma EntryFrom(ops: seq<Op>, lo: nat, hi: nat, b: Block, exit: Option<nat>)
    requires Laid(ops, lo, hi, b) && (exit.Some? ==> hi < exit.value)
    ensures FallsAt(b, lo, hi, lo) <==> Falls(b)
    ensures BreaksAt(b, lo, hi, exit, lo) <==> Breaks(b)
  {
    LaidOpen(ops, lo, hi, b);
    hide Laid;
    match b
    case Cycle(_, x, body, _) => assert LeavesFrom(lo, x, body, lo) == Breaks(body);
    case _ =>
  }

  /** What can be reached from where an edge leads can be reached from where it starts. */
  lemma {:induction false} EdgeFrom(ops: seq<Op>, lo: nat, hi: nat, b: Block, exit: Option<nat>, k: nat, n: nat)
    requires Laid(ops, lo, hi, b) && BreaksLeave(b, exit) && (exit.Some? ==> hi < exit.value)
    requires lo <= k < hi && n in Successors(ops, k)
    ensures FallsAt(b, lo, hi, n) ==> FallsFrom(b, k)
    ensures BreaksAt(b, lo, hi, exit, n) ==> BreaksFrom(b, k)
    decreases b, 2
  {
    LaidOpen(ops, lo, hi, b);
    hide Laid;
    match b
    case Step(_, op, rest) =>
      if k == lo {
        EntryFrom(ops, lo + 1, hi, rest, exit);
      } else {
        EdgeFrom(ops, lo + 1, hi, rest, exit, k, n);
        EdgeInside(ops, lo + 1, hi, rest, exit, k, n);
      }
    case Branch(_, _, _, _, _, _) => EdgeFromBranch(ops, lo, hi, b, exit, k, n);
    case Cycle(_, _, _, _) => EdgeFromCycle(ops, lo, hi, b, exit, k, n);
  }

  lemma {:induction false} EdgeFromCycle(ops: seq<Op>, lo: nat, hi: nat, b: Block, exit: Option<nat>, k: nat, n: nat)
    requires b.Cycle? && LaidParts(ops, lo, hi, b) && BreaksLeave(b, exit) && (exit.Some? ==> hi < exit.value)
    requires lo <= k < hi && n in Successors(ops, k)
    ensures FallsAt(b, lo, hi, n) ==> FallsFrom(b, k)
    ensures BreaksAt(b, lo, hi, exit, n) ==> BreaksFrom(b, k)
    decreases b, 1
  {
    hide Laid;
    var x := b.exit;
    EntryFrom(ops, lo + 1, x - 1, b.body, Some(x));
    EntryFrom(ops, x, hi, b.rest, exit);
    assert LeavesFrom(lo, x, b.body, lo) == LeavesFrom(lo, x, b.body, x - 1) == Breaks(b.body);
    assert lo < k < x - 1 ==> LeavesFrom(lo, x, b.body, k) == (BreaksFrom(b.body, k) || (FallsFrom(b.body, k) && Breaks(b.body)));
    assert lo < n < x - 1 ==> LeavesFrom(lo, x, b.body, n) == (BreaksFrom(b.body, n) || (FallsFrom(b.body, n) && Breaks(b.body)));
    if lo < k < x - 1 {
      EdgeFrom(ops, lo + 1, x - 1, b.body, Some(x), k, n);
      EdgeInside(ops, lo + 1, x - 1, b.body, Some(x), k, n);
    } else if x <= k {
      EdgeFrom(ops, x, hi, b.rest, exit, k, n);
      EdgeInside(ops, x, hi, b.rest, exit, k, n);
    }
  }

  lemma {:induction false} EdgeFromBranch(ops: seq<Op>, lo: nat, hi: nat, b: Block, exit: Option<nat>, k: nat, n: nat)
    requires b.Branch? && LaidParts(ops, lo, hi, b) && BreaksLeave(b, exit) && (exit.Some? ==> hi < exit.value)
    requires lo <= k < hi && n in Successors(ops, k)
    ensures FallsAt(b, lo, hi, n) ==> FallsFrom(b, k)
    ensures BreaksAt(b, lo, hi, exit, n) ==> BreaksFrom(b, k)
    decreases b, 1
  {
    hide Laid;
    var a := b.arms;
    if k == lo {
      EntryFrom(ops, lo + 1, a.thenEnd, b.first, exit);
      EntryFrom(ops, a.elseStart, a.endIf, b.second, exit);
    } else if k < a.thenEnd {
      EdgeFrom(ops, lo + 1, a.thenEnd, b.first, exit, k, n);
      EdgeInside(ops, lo + 1, a.thenEnd, b.first, exit, k, n);
    } else if a.elseStart <= k < a.endIf {
      EdgeFrom(ops, a.elseStart, a.endIf, b.second, exit, k, n);
      EdgeInside(ops, a.elseStart, a.endIf, b.second, exit, k, n);
    } else if k == a.endIf {
      EntryFrom(ops, a.endIf + 1, hi, b.rest, exit);
    } else if a.endIf < k {
      EdgeFrom(ops, a.endIf + 1, hi, b.rest, exit, k, n);
      EdgeInside(ops, a.endIf + 1, hi, b.rest, exit, k, n);
    }
  }

  /** A path that leaves the block at its end could leave it there from every address on it. */
  lemma {:induction false} PathFallsFrom(ops: seq<Op>, lo: nat, hi: nat, b: Block, exit: Option<nat>, p: seq<nat>, j: nat)
    requires Laid(ops, lo, hi, b) && BreaksLeave(b, exit) && (exit.Some? ==> hi < exit.value) && hi <= |ops|
    requires PathWithin(ops, lo, hi, p) && j < |p| && hi in Successors(ops, p[|p| - 1])
    ensures FallsFrom(b, p[j])
    decreases |p| - j
  {
    hide Laid, BreaksLeave, FallsFrom, BreaksFrom;
    if j + 1 < |p| {
      PathFallsFrom(ops, lo, hi, b, exit, p, j + 1);
      EdgeFrom(ops, lo, hi, b, exit, p[j], p[j + 1]);
    } else {
      EdgeFrom(ops, lo, hi, b, exit, p[j], hi);
    }
  }

  // ----- control that has passed the site -----

  /** Where the end of no loop around it is in reach from a site, control that has passed the site never
      comes back to it or before it. */
  lemma {:induction false} StaysPast(c: Chunk, site: nat, p: seq<nat>, j: nat)
    requires Verified(c) && site < |c.ops| && !Delimiter(c.ops[site]) && !ComesBack(c.ops, site)
    requires PathWithin(c.ops, 0, |c.ops|, p) && p != [] && p[0] == site && 0 < j < |p|
    ensures p[j] > site
    decreases j
  {
    hide BlockOf, Falls, Delimiter, BreaksLeave, Laid, Depth, ComesBack;
    var ops := c.ops;
    forall i | 0 < i < j
      ensures p[i] > site
    {
      StaysPast(c, site, p, i);
    }
    assert p[j] in Successors(ops, p[j - 1]);
    EdgeBack(ops, 0, |ops|, BlockOf(ops, 0, |ops|).value, None, p[j - 1], p[j]);
    if p[j] <= site {
      RoundTrip(c, site, p, j);
    }
  }

  /** A path from a site that gets back to it or before it for the first time does so from the end of a
      loop around it, whose body it never left. */
  lemma RoundTrip(c: Chunk, site: nat, p: seq<nat>, j: nat)
    requires Verified(c) && site < |c.ops| && !Delimiter(c.ops[site])
    requires PathWithin(c.ops, 0, |c.ops|, p) && p != [] && p[0] == site && 0 < j < |p| && p[j] <= site
    requires forall i :: 0 < i < j ==> p[i] > site
    requires 0 < p[j] && c.ops[p[j - 1]] == EndLoop(p[j]) && c.ops[p[j] - 1] == Loop(p[j - 1] + 1)
    ensures ComesBack(c.ops, site)
  {
    hide BlockOf, BreaksLeave, Laid, Depth, FallsFrom;
    var ops, l, e := c.ops, p[j] - 1, p[j - 1];
    assert j > 1;
    var body := LoopBody(ops, 0, |ops|, BlockOf(ops, 0, |ops|).value, None, l);
    LaidUnique(ops, l + 1, e, body);
    var q := p[..j - 1];
    forall i | 0 <= i < |q|
      ensures l + 1 <= q[i] < e
    {
      InLoop(c, site, p, j, l, e, i);
      assert p[i + 1] in Successors(ops, p[i]);
    }
    assert PathWithin(ops, l + 1, e, q);
    assert q[|q| - 1] == p[j - 2] && e in Successors(ops, p[j - 2]);
    PathFallsFrom(ops, l + 1, e, body, Some(e + 1), q, 0);
    assert RoundsFrom(ops, l, site);
  }

  /** Going back from the end of the loop, the path stays in the loop. */
  lemma {:induction false} InLoop(c: Chunk, site: nat, p: seq<nat>, j: nat, l: nat, e: nat, i: nat)
    requires Verified(c) && l < site && l < e < |c.ops| && c.ops[l] == Loop(e + 1)
    requires PathWithin(c.ops, 0, |c.ops|, p) && i < j <= |p| && p[j - 1] == e
    requires forall i :: 0 <= i < j ==> p[i] >= site
    ensures l < p[i] <= e
    decreases j - i
  {
    hide BlockOf, BreaksLeave, Laid, Depth;
    var ops := c.ops;
    if i + 1 < j {
      InLoop(c, site, p, j, l, e, i + 1);
      if !(l < p[i] <= e) {
        LoopEntered(ops, 0, |ops|, BlockOf(ops, 0, |ops|).value, None, l, p[i], p[i + 1]);
      }
    }
  }

  // ----- ways to get there -----

  /** Some path in the range starts at `k` and ends with an edge to `n`. */
  ghost predicate Reaches(ops: seq<Op>, lo: nat, hi: nat, k: nat, n: nat)
    requires hi <= |ops|
  {
    exists p :: Leads(ops, lo, hi, p, k, n)
  }

  predicate Leads(ops: seq<Op>, lo: nat, hi: nat, p: seq<nat>, k: nat, n: nat)
    requires hi <= |ops|
  {
    |p| > 0 && p[0] == k && PathWithin(ops, lo, hi, p) && n in Successors(ops, p[|p| - 1])
  }

  lemma ByEdge(ops: seq<Op>, lo: nat, hi: nat, k: nat, n: nat)
    requires lo <= k < hi <= |ops| && n in Successors(ops, k)
    ensures Reaches(ops, lo, hi, k, n)
  {
    assert Leads(ops, lo, hi, [k], k, n);
  }

  lemma OnTo(ops: seq<Op>, lo: nat, hi: nat, k: nat, m: nat, n: nat)
    requires hi <= |ops| && Reaches(ops, lo, hi, k, m) && Reaches(ops, lo, hi, m, n)
    ensures Reaches(ops, lo, hi, k, n)
  {
    var p :| Leads(ops, lo, hi, p, k, m);
    var q :| Leads(ops, lo, hi, q, m, n);
    Joined(ops, lo, hi, p, q);
    assert (p + q)[|p + q| - 1] == q[|q| - 1];
    assert Leads(ops, lo, hi, p + q, k, n);
  }

  lemma Wider(ops: seq<Op>, from: nat, to: nat, lo: nat, hi: nat, k: nat, n: nat)
    requires lo <= from && to <= hi <= |ops| && Reaches(ops, from, to, k, n)
    ensures Reaches(ops, lo, hi, k, n)
  {
    var p :| Leads(ops, from, to, p, k, n);
    Widened(ops, lo, hi, from, to, p);
    assert Leads(ops, lo, hi, p, k, n);
  }

  /** On over a block that falls. */
  lemma Over(ops: seq<Op>, lo: nat, hi: nat, k: nat, from: nat, to: nat, b: Block, exit: Option<nat>)
    requires lo <= from <= to <= hi <= |ops| && Laid(ops, from, to, b) && BreaksLeave(b, exit) && Falls(b)
    requires Reaches(ops, lo, hi, k, from)
    ensures Reaches(ops, lo, hi, k, to)
  {
    hide Laid, Falls;
    if from < to {
      var p := PathFalls(ops, from, to, b, exit);
      assert Leads(ops, from, to, p, from, to);
      Wider(ops, from, to, lo, hi, from, to);
      OnTo(ops, lo, hi, k, from, to);
    }
  }

  /** Out through a break of a block that breaks. */
  lemma Out(ops: seq<Op>, lo: nat, hi: nat, k: nat, from: nat, to: nat, b: Block, exit: nat)
    requires lo <= from <= to <= hi <= |ops| && Laid(ops, from, to, b) && BreaksLeave(b, Some(exit)) && Breaks(b)
    requires Reaches(ops, lo, hi, k, from)
    ensures Reaches(ops, lo, hi, k, exit)
  {
    hide Laid, Breaks;
    var p := PathBreaks(ops, from, to, b, exit);
    assert Leads(ops, from, to, p, from, exit);
    Wider(ops, from, to, lo, hi, from, exit);
    OnTo(ops, lo, hi, k, from, exit);
  }

  /** Through the arms of a branch to its `EndIf`. */
  lemma OverArms(ops: seq<Op>, lo: nat, hi: nat, b: Block, exit: Option<nat>)
    requires b.Branch? && LaidParts(ops, lo, hi, b) && BreaksLeave(b, exit) && (Falls(b.first) || Falls(b.second))
    ensures Reaches(ops, lo, hi, lo, b.arms.endIf)
  {
    hide Laid, Falls;
    var p := ArmPath(ops, lo, hi, b, exit);
    assert Leads(ops, lo, b.arms.endIf, p, lo, b.arms.endIf);
    Wider(ops, lo, b.arms.endIf, lo, hi, lo, b.arms.endIf);
  }

  /** A live address can be reached from the start of its block. */
  lemma {:induction false} LiveReached(ops: seq<Op>, lo: nat, hi: nat, b: Block, exit: Option<nat>, k: nat)
    requires Laid(ops, lo, hi, b) && BreaksLeave(b, exit) && lo < k < hi && Live(b, k)
    ensures Reaches(ops, lo, hi, lo, k)
    decreases b, 2
  {
    LaidOpen(ops, lo, hi, b);
    hide Laid;
    match b
    case Step(_, op, rest) =>
      ByEdge(ops, lo, hi, lo, lo + 1);
      LiveOn(ops, lo, hi, lo, lo + 1, hi, rest, exit, k);
    case Branch(_, _, _, _, _, _) => LiveInArms(ops, lo, hi, b, exit, k);
    case Cycle(_, x, body, rest) =>
      ByEdge(ops, lo, hi, lo, lo + 1);
      if k < x - 1 {
        LiveOn(ops, lo, hi, lo, lo + 1, x - 1, body, Some(x), k);
      } else if k == x - 1 {
        Over(ops, lo, hi, lo, lo + 1, x - 1, body, Some(x));
      } else {
        Out(ops, lo, hi, lo, lo + 1, x - 1, body, x);
        LiveOn(ops, lo, hi, lo, x, hi, rest, exit, k);
      }
  }

  /** On to a live address of a block whose start can be reached. */
  lemma {:induction false} LiveOn(ops: seq<Op>, lo: nat, hi: nat, s: nat, from: nat, to: nat, b: Block, exit: Option<nat>, k: nat)
    requires lo <= from <= k < to <= hi <= |ops| && Laid(ops, from, to, b) && BreaksLeave(b, exit) && Live(b, k)
    requires Reaches(ops, lo, hi, s, from)
    ensures Reaches(ops, lo, hi, s, k)
    decreases b, 3
  {
    hide Laid, Live, BreaksLeave;
    if from < k {
      LiveReached(ops, from, to, b, exit, k);
      Wider(ops, from, to, lo, hi, from, k);
      OnTo(ops, lo, hi, s, from, k);
    }
  }

  lemma {:induction false} LiveInArms(ops: seq<Op>, lo: nat, hi: nat, b: Block, exit: Option<nat>, k: nat)
    requires b.Branch? && LaidParts(ops, lo, hi, b) && BreaksLeave(b, exit) && lo < k < hi && Live(b, k)
    ensures Reaches(ops, lo, hi, lo, k)
    decreases b, 1
  {
    hide Laid;
    var a := b.arms;
    if k < a.elseStart {
      ByEdge(ops, lo, hi, lo, lo + 1);
      if k < a.thenEnd {
        LiveOn(ops, lo, hi, lo, lo + 1, a.thenEnd, b.first, exit, k);
      } else {
        Over(ops, lo, hi, lo, lo + 1, a.thenEnd, b.first, exit);
      }
    } else if k < a.endIf {
      ByEdge(ops, lo, hi, lo, a.elseStart);
      LiveOn(ops, lo, hi, lo, a.elseStart, a.endIf, b.second, exit, k);
    } else {
      OverArms(ops, lo, hi, b, exit);
      if a.endIf < k {
        ByEdge(ops, lo, hi, a.endIf, a.endIf + 1);
        OnTo(ops, lo, hi, lo, a.endIf, a.endIf + 1);
        LiveOn(ops, lo, hi, lo, a.endIf + 1, hi, b.rest, exit, k);
      }
    }
  }

  /** Where control can fall off the block from an address, some path does. */
  lemma {:induction false} FallsReached(ops: seq<Op>, lo: nat, hi: nat, b: Block, exit: Option<nat>, k: nat)
    requires Laid(ops, lo, hi, b) && BreaksLeave(b, exit) && lo <= k < hi && FallsFrom(b, k)
    ensures Reaches(ops, lo, hi, k, hi)
    decreases b, 2
  {
    LaidOpen(ops, lo, hi, b);
    hide Laid;
    match b
    case Step(_, op, rest) =>
      if k == lo {
        ByEdge(ops, lo, hi, lo, lo + 1);
        Over(ops, lo, hi, lo, lo + 1, hi, rest, exit);
      } else {
        FallsReached(ops, lo + 1, hi, rest, exit, k);
        Wider(ops, lo + 1, hi, lo, hi, k, hi);
      }
    case Branch(_, _, _, _, _, _) => FallsFromArms(ops, lo, hi, b, exit, k);
    case Cycle(_, x, body, rest) =>
      if k < x {
        LeavesReached(ops, lo, hi, b, exit, k);
        Over(ops, lo, hi, k, x, hi, rest, exit);
      } else {
        FallsReached(ops, x, hi, rest, exit, k);
        Wider(ops, x, hi, lo, hi, k, hi);
      }
  }

  lemma {:induction false} FallsFromArms(ops: seq<Op>, lo: nat, hi: nat, b: Block, exit: Option<nat>, k: nat)
    requires b.Branch? && LaidParts(ops, lo, hi, b) && BreaksLeave(b, exit) && lo <= k < hi && FallsFrom(b, k)
    ensures Reaches(ops, lo, hi, k, hi)
    decreases b, 1
  {
    hide Laid;
    var a := b.arms;
    if a.endIf < k {
      FallsReached(ops, a.endIf + 1, hi, b.rest, exit, k);
      Wider(ops, a.endIf + 1, hi, lo, hi, k, hi);
    } else {
      ArmsEnd(ops, lo, hi, b, exit, k);
      Over(ops, lo, hi, k, a.endIf + 1, hi, b.rest, exit);
    }
  }

  /** From an address of a branch whose arm goes on, behind the branch. */
  lemma {:induction false} ArmsEnd(ops: seq<Op>, lo: nat, hi: nat, b: Block, exit: Option<nat>, k: nat)
    requires b.Branch? && LaidParts(ops, lo, hi, b) && BreaksLeave(b, exit) && lo <= k <= b.arms.endIf
    requires k == lo ==> Falls(b.first) || Falls(b.second)
    requires lo < k < b.arms.thenEnd ==> FallsFrom(b.first, k)
    requires b.arms.elseStart <= k < b.arms.endIf ==> FallsFrom(b.second, k)
    ensures Reaches(ops, lo, hi, k, b.arms.endIf + 1)
    decreases b, 0
  {
    hide Laid, Falls, FallsFrom, BreaksLeave;
    var a := b.arms;
    assert BreaksLeave(b.first, exit) && BreaksLeave(b.second, exit) by {
      ArmsLeave(b, exit);
    }
    ByEdge(ops, lo, hi, a.endIf, a.endIf + 1);
    if k == lo {
      OverArms(ops, lo, hi, b, exit);
    } else if k < a.thenEnd {
      FallsReached(ops, lo + 1, a.thenEnd, b.first, exit, k);
      Wider(ops, lo + 1, a.thenEnd, lo, hi, k, a.thenEnd);
      if a.thenEnd < a.elseStart {
        ByEdge(ops, lo, hi, a.thenEnd, a.endIf);
        OnTo(ops, lo, hi, k, a.thenEnd, a.endIf);
      }
    } else if k < a.elseStart {
      ByEdge(ops, lo, hi, a.thenEnd, a.endIf);
    } else if k < a.endIf {
      FallsReached(ops, a.elseStart, a.endIf, b.second, exit, k);
      Wider(ops, a.elseStart, a.endIf, lo, hi, k, a.endIf);
    }
    if k < a.endIf {
      OnTo(ops, lo, hi, k, a.endIf, a.endIf + 1);
    }
  }

  lemma ArmsLeave(b: Block, exit: Option<nat>)
    requires b.Branch? && BreaksLeave(b, exit)
    ensures BreaksLeave(b.first, exit) && BreaksLeave(b.second, exit)
  {}

  /** From an address of a loop that can be left, behind the loop. */
  lemma {:induction false} LeavesReached(ops: seq<Op>, lo: nat, hi: nat, b: Block, exit: Option<nat>, k: nat)
    requires b.Cycle? && LaidParts(ops, lo, hi, b) && BreaksLeave(b, exit) && lo <= k < b.exit
    requires LeavesFrom(lo, b.exit, b.body, k)
    ensures Reaches(ops, lo, hi, k, b.exit)
    decreases b, 1
  {
    hide Laid, FallsFrom, BreaksFrom, Falls, Breaks;
    var x := b.exit;
    ByEdge(ops, lo, hi, lo, lo + 1);
    ByEdge(ops, lo, hi, x - 1, lo + 1);
    if lo < k < x - 1 {
      if BreaksFrom(b.body, k) {
        BreaksReached(ops, lo + 1, x - 1, b.body, x, k);
        Wider(ops, lo + 1, x - 1, lo, hi, k, x);
      } else {
        FallsReached(ops, lo + 1, x - 1, b.body, Some(x), k);
        Wider(ops, lo + 1, x - 1, lo, hi, k, x - 1);
        OnTo(ops, lo, hi, k, x - 1, lo + 1);
        Out(ops, lo, hi, k, lo + 1, x - 1, b.body, x);
      }
    } else {
      Out(ops, lo, hi, k, lo + 1, x - 1, b.body, x);
    }
  }

  /** Where control can break out of the block from an address, some path does. */
  lemma {:induction false} BreaksReached(ops: seq<Op>, lo: nat, hi: nat, b: Block, exit: nat, k: nat)
    requires Laid(ops, lo, hi, b) && BreaksLeave(b, Some(exit)) && lo <= k < hi && BreaksFrom(b, k)
    ensures Reaches(ops, lo, hi, k, exit)
    decreases b, 2
  {
    LaidOpen(ops, lo, hi, b);
    hide Laid;
    match b
    case Step(_, op, rest) =>
      if k == lo {
        if op.Break? || op.BreakIf? {
          ByEdge(ops, lo, hi, lo, exit);
        } else {
          ByEdge(ops, lo, hi, lo, lo + 1);
          Out(ops, lo, hi, lo, lo + 1, hi, rest, exit);
        }
      } else {
        BreaksReached(ops, lo + 1, hi, rest, exit, k);
        Wider(ops, lo + 1, hi, lo, hi, k, exit);
      }
    case Branch(_, _, _, _, _, _) => BreaksFromArms(ops, lo, hi, b, exit, k);
    case Cycle(_, x, body, rest) =>
      if k < x {
        LeavesReached(ops, lo, hi, b, Some(exit), k);
        Out(ops, lo, hi, k, x, hi, rest, exit);
      } else {
        BreaksReached(ops, x, hi, rest, exit, k);
        Wider(ops, x, hi, lo, hi, k, exit);
      }
  }

  lemma {:induction false} BreaksFromArms(ops: seq<Op>, lo: nat, hi: nat, b: Block, exit: nat, k: nat)
    requires b.Branch? && LaidParts(ops, lo, hi, b) && BreaksLeave(b, Some(exit)) && lo <= k < hi && BreaksFrom(b, k)
    ensures Reaches(ops, lo, hi, k, exit)
    decreases b, 1
  {
    hide Laid;
    var a := b.arms;
    if a.endIf < k {
      BreaksReached(ops, a.endIf + 1, hi, b.rest, exit, k);
      Wider(ops, a.endIf + 1, hi, lo, hi, k, exit);
    } else if k == lo && Breaks(b.first) {
      ByEdge(ops, lo, hi, lo, lo + 1);
      Out(ops, lo, hi, lo, lo + 1, a.thenEnd, b.first, exit);
    } else if k == lo && Breaks(b.second) {
      ByEdge(ops, lo, hi, lo, a.elseStart);
      Out(ops, lo, hi, lo, a.elseStart, a.endIf, b.second, exit);
    } else if lo < k < a.thenEnd && BreaksFrom(b.first, k) {
      BreaksReached(ops, lo + 1, a.thenEnd, b.first, exit, k);
      Wider(ops, lo + 1, a.thenEnd, lo, hi, k, exit);
    } else if a.elseStart <= k < a.endIf && BreaksFrom(b.second, k) {
      BreaksReached(ops, a.elseStart, a.endIf, b.second, exit, k);
      Wider(ops, a.elseStart, a.endIf, lo, hi, k, exit);
    } else {
      ArmsEnd(ops, lo, hi, b, Some(exit), k);
      Out(ops, lo, hi, k, a.endIf + 1, hi, b.rest, exit);
    }
  }

  // ----- the rule -----

  /** What is live in the code is live in the body of every loop around it. */
  lemma {:induction false} LiveInBody(ops: seq<Op>, lo: nat, hi: nat, b: Block, l: nat, k: nat)
    requires Laid(ops, lo, hi, b) && lo <= l < hi && ops[l].Loop? && l < k && k + 1 < ops[l].target && Live(b, k)
    ensures l + 2 <= ops[l].target <= hi && BlockOf(ops, l + 1, ops[l].target - 1).Some?
    ensures Live(BlockOf(ops, l + 1, ops[l].target - 1).value, k)
    decreases b
  {
    hide Laid, BlockOf, ArmsOf;
    LaidOpen(ops, lo, hi, b);
    LoopEndsInside(ops, lo, hi, b, l);
    match b
    case Step(_, op, rest) => LiveInBody(ops, lo + 1, hi, rest, l, k);
    case Branch(_, _, a, first, second, rest) =>
      if l < a.thenEnd {
        LoopEndsInside(ops, lo + 1, a.thenEnd, first, l);
        LiveInBody(ops, lo + 1, a.thenEnd, first, l, k);
      } else if l < a.endIf {
        LoopEndsInside(ops, a.elseStart, a.endIf, second, l);
        LiveInBody(ops, a.elseStart, a.endIf, second, l, k);
      } else {
        LiveInBody(ops, a.endIf + 1, hi, rest, l, k);
      }
    case Cycle(_, x, body, rest) =>
      if l == lo {
        LaidUnique(ops, lo + 1, x - 1, body);
      } else if l < x - 1 {
        LoopEndsInside(ops, lo + 1, x - 1, body, l);
        LiveInBody(ops, lo + 1, x - 1, body, l, k);
      } else {
        LiveInBody(ops, x, hi, rest, l, k);
      }
  }

  /** Does some path from the start of the chunk come to `site` twice? */
  ghost predicate VisitedTwice(ops: seq<Op>, site: nat) {
    exists p, a, j :: TwiceOn(ops, site, p, a, j)
  }

  predicate TwiceOn(ops: seq<Op>, site: nat, p: seq<nat>, a: nat, j: nat) {
    PathWithin(ops, 0, |ops|, p) && a < j < |p| && p[0] == 0 && p[a] == site && p[j] == site
  }

  /** A site is visited twice by some path through the chunk if and only if control gets there at all and
      can go on from there to the end of a loop around it; the breaks such a loop holds do not matter. */
  lemma VisitedTwiceExactly(c: Chunk, site: nat)
    requires Verified(c) && site < |c.ops| && !Delimiter(c.ops[site])
    ensures VisitedTwice(c.ops, site)
      <==> Live(BlockOf(c.ops, 0, |c.ops|).value, site) && ComesBack(c.ops, site)
  {
    hide BlockOf, BreaksLeave, Laid, Depth, Delimiter, ComesBack, Live, TwiceOn, Reaches, SlotInRange;
    var ops, b := c.ops, BlockOf(c.ops, 0, |c.ops|).value;
    if VisitedTwice(ops, site) {
      var p, a, j :| TwiceOn(ops, site, p, a, j);
      TwiceBack(c, site, p, a, j);
    }
    if Live(b, site) && ComesBack(ops, site) {
      BackAgain(c, site);
      ReachedTwice(c, site);
    }
  }

  lemma TwiceBack(c: Chunk, site: nat, p: seq<nat>, a: nat, j: nat)
    requires Verified(c) && site < |c.ops| && !Delimiter(c.ops[site]) && TwiceOn(c.ops, site, p, a, j)
    ensures Live(BlockOf(c.ops, 0, |c.ops|).value, site) && ComesBack(c.ops, site)
  {
    hide BlockOf, BreaksLeave, Laid, Depth, Delimiter, ComesBack, Live;
    var ops, b := c.ops, BlockOf(c.ops, 0, |c.ops|).value;
    PathLive(ops, 0, |ops|, b, None, p, a);
    if !ComesBack(ops, site) {
      StaysPast(c, site, p[a..], j - a);
    }
  }

  /** From the site back to it. */
  lemma BackAgain(c: Chunk, site: nat)
    requires Verified(c) && site < |c.ops| && Live(BlockOf(c.ops, 0, |c.ops|).value, site) && ComesBack(c.ops, site)
    ensures Reaches(c.ops, 0, |c.ops|, site, site)
  {
    hide BlockOf, BreaksLeave, Laid, Depth, Live, Falls, FallsFrom, Reaches, SlotInRange;
    var ops, b := c.ops, BlockOf(c.ops, 0, |c.ops|).value;
    var l :| 0 <= l < |ops| && RoundsFrom(ops, l, site);
    var e := ops[l].target - 1;
    LiveInBody(ops, 0, |ops|, b, l, site);
    var body := LoopBody(ops, 0, |ops|, b, None, l);
    LaidUnique(ops, l + 1, e, body);
    FallsReached(ops, l + 1, e, body, Some(e + 1), site);
    Wider(ops, l + 1, e, 0, |ops|, site, e);
    ByEdge(ops, 0, |ops|, e, l + 1);
    OnTo(ops, 0, |ops|, site, e, l + 1);
    LiveOn(ops, 0, |ops|, site, l + 1, e, body, Some(e + 1), site);
  }

  lemma ReachedTwice(c: Chunk, site: nat)
    requires Verified(c) && site < |c.ops| && Live(BlockOf(c.ops, 0, |c.ops|).value, site)
    requires Reaches(c.ops, 0, |c.ops|, site, site)
    ensures VisitedTwice(c.ops, site)
  {
    hide BlockOf, BreaksLeave, Laid, Depth, Live;
    var ops := c.ops;
    var q :| Leads(ops, 0, |ops|, q, site, site);
    var back := q + [site];
    assert PathWithin(ops, 0, |ops|, back);
    var first: seq<nat> := [];
    if site > 0 {
      LiveReached(ops, 0, |ops|, BlockOf(ops, 0, |ops|).value, None, site);
      first :| Leads(ops, 0, |ops|, first, 0, site);
      Joined(ops, 0, |ops|, first, back);
    }
    var p := first + back;
    assert p[|first|] == site && p[|p| - 1] == site && |first| < |p| - 1;
    assert PathWithin(ops, 0, |ops|, p);
    assert TwiceOn(ops, site, p, |first|, |p| - 1);
  }
}
