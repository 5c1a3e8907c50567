/** From what a walk observed to the answer for one construction site. */
module Verdict {
  import opened Options
  import opened Bytecode
  import opened Confine
  import opened ConfineShape
  import opened ConfineOrder
  import opened ConfineTotal

  datatype Confinement = Confined | CannotEstablish | Escaped

  function Severity(v: Confinement): nat {
    match v
    case Confined => 0
    case CannotEstablish => 1
    case Escaped => 2
  }

  datatype Reason =
    | Nothing
    | YieldedAt(ip: nat)
    | ReturnedAt(ip: nat)
    | NativeAt(ip: nat)
    | StoredToLiveSlot(ip: nat, slot: nat)
    | CalledAt(ip: nat)
    | UnmodelledAt(ip: nat)
    | NotAnalysed

  datatype Finding = Finding(verdict: Confinement, reason: Reason)

  datatype SiteVerdict = SiteVerdict(ip: nat, scope: Scope, finding: Finding)

  const NO_FINDING := Finding(Confined, Nothing)

  /** What an event means for a site judged against `scope`; None when it is harmless. */
  function SiteMeaning(ops: seq<Op>, scope: Scope, e: Event): Option<Finding> {
    match e
    case Yielded(ip) => Some(Finding(Escaped, YieldedAt(ip)))
    case Returned(ip) => Some(Finding(Escaped, ReturnedAt(ip)))
    case HandedToNative(ip) => Some(Finding(Escaped, NativeAt(ip)))
    case PassedToCall(ip) => Some(Finding(CannotEstablish, CalledAt(ip)))
    case UnmodelledRoute(ip) => Some(Finding(CannotEstablish, UnmodelledAt(ip)))
    case StoredToLocal(ip, slot) =>
      var (start, end) := ScopeRange(ops, scope);
      if BoundaryDead(ops, start, end, slot) then None
      else Some(Finding(CannotEstablish, StoredToLiveSlot(ip, slot)))
  }

  /** Keep the most severe finding, the first among equals. */
  function FindingOf(ops: seq<Op>, scope: Scope, site: nat, log: seq<Notice>): Finding {
    if log == [] then NO_FINDING
    else
      var before := FindingOf(ops, scope, site, log[..|log| - 1]);
      var last := log[|log| - 1];
      var meaning := SiteMeaning(ops, scope, last.event);
      if Site(site) in last.tokens && meaning.Some? && Severity(meaning.value.verdict) > Severity(before.verdict)
      then meaning.value
      else before
  }

  function VerdictOf(c: Chunk, sums: Summaries, site: nat): SiteVerdict {
    var scope := ScopeOf(c.ops, site);
    var r := Interpret(c, EmptyLocals(c), sums);
    SiteVerdict(site, scope,
      if r.Derailed? then Finding(CannotEstablish, NotAnalysed) else FindingOf(c.ops, scope, site, r.log))
  }

  /** The sites among the first `n` instructions, in address order. */
  function Sites(ops: seq<Op>, n: nat): (s: seq<nat>)
    requires n <= |ops|
    ensures forall k :: k in s <==> 0 <= k < n && ops[k].NewComposite?
    ensures forall i, j :: 0 <= i < j < |s| ==> s[i] < s[j]
  {
    if n == 0 then []
    else
      var before := Sites(ops, n - 1);
      assert forall i :: 0 <= i < |before| ==> before[i] in before;
      before + (if ops[n - 1].NewComposite? then [n - 1] else [])
  }

  /** One verdict per site of the chunk, in address order. */
  function ChunkConfinement(c: Chunk, sums: Summaries): seq<SiteVerdict> {
    var s := Sites(c.ops, |c.ops|);
    seq(|s|, i requires 0 <= i < |s| => VerdictOf(c, sums, s[i]))
  }

  /** Does an event that makes the site at least this severe appear in the log? */
  ghost predicate Found(ops: seq<Op>, scope: Scope, site: nat, log: seq<Notice>, severity: nat) {
    exists e :: Logged(log, Site(site), e) && SiteMeaning(ops, scope, e).Some?
      && Severity(SiteMeaning(ops, scope, e).value.verdict) >= severity
  }

  /** The finding is exactly as severe as the worst event reported of the site, and a site is
      confined exactly when every event reported of it is harmless. */
  lemma {:induction false} FindingIsWorst(ops: seq<Op>, scope: Scope, site: nat, log: seq<Notice>)
    ensures forall s: nat :: s > 0 ==>
      (Severity(FindingOf(ops, scope, site, log).verdict) >= s <==> Found(ops, scope, site, log, s))
  {
    if log != [] {
      var init, last := log[..|log| - 1], log[|log| - 1];
      FindingIsWorst(ops, scope, site, init);
      assert log == init + [last];
      forall s: nat | s > 0
        ensures Severity(FindingOf(ops, scope, site, log).verdict) >= s <==> Found(ops, scope, site, log, s)
      {
        FoundLast(ops, scope, site, init, last, s);
      }
    }
  }

  lemma FoundLast(ops: seq<Op>, scope: Scope, site: nat, init: seq<Notice>, last: Notice, s: nat)
    ensures Found(ops, scope, site, init + [last], s) <==>
      Found(ops, scope, site, init, s) ||
      (Site(site) in last.tokens && SiteMeaning(ops, scope, last.event).Some?
        && Severity(SiteMeaning(ops, scope, last.event).value.verdict) >= s)
  {
    hide SiteMeaning;
    assert forall e :: Logged(init + [last], Site(site), e) <==> Logged(init, Site(site), e) || Logged([last], Site(site), e) by {
      forall e
        ensures Logged(init + [last], Site(site), e) <==> Logged(init, Site(site), e) || Logged([last], Site(site), e)
      {
        LoggedAppend(init, [last], Site(site), e);
      }
    }
    assert forall e :: Logged([last], Site(site), e) <==> Site(site) in last.tokens && e == last.event by {
      assert last in [last];
    }
  }

  /** A site is confined exactly when the walk completed and every event reported of it is
      harmless. */
  lemma ConfinedMeans(c: Chunk, sums: Summaries, site: nat)
    ensures var r := Interpret(c, EmptyLocals(c), sums);
      VerdictOf(c, sums, site).finding.verdict == Confined <==>
        r.Walked? && forall e :: Logged(r.log, Site(site), e) ==> SiteMeaning(c.ops, ScopeOf(c.ops, site), e).None?
  {
    var r, scope := Interpret(c, EmptyLocals(c), sums), ScopeOf(c.ops, site);
    hide Interpret, SiteMeaning, ScopeOf;
    if r.Walked? {
      FindingIsWorst(c.ops, scope, site, r.log);
      hide FindingOf;
      assert Severity(FindingOf(c.ops, scope, site, r.log).verdict) >= 1 <==> Found(c.ops, scope, site, r.log, 1);
      MeaningIsSevere(c.ops, scope);
    }
  }

  lemma MeaningIsSevere(ops: seq<Op>, scope: Scope)
    ensures forall e :: SiteMeaning(ops, scope, e).Some? ==> Severity(SiteMeaning(ops, scope, e).value.verdict) >= 1
  {}

  // ----- monotonicity -----

  /** The walk of a verified chunk only ever reports more under more pessimistic summaries. */
  lemma InterpretMono(c: Chunk, s1: Summaries, s2: Summaries, seed: seq<Alias>)
    requires Verified(c) && SumsLeq(s1, s2)
    ensures WalkedLeq(Interpret(c, seed, s1), Interpret(c, seed, s2))
  {
    WalkMono(|c.ops|, s1, s2, BlockOf(c.ops, 0, |c.ops|).value, State([], seed), State([], seed), 0);
  }

  /** Less pessimistic summaries never make a verdict more severe. */
  lemma VerdictMono(c: Chunk, s1: Summaries, s2: Summaries, site: nat)
    requires Verified(c) && SumsLeq(s1, s2)
    ensures Severity(VerdictOf(c, s1, site).finding.verdict) <= Severity(VerdictOf(c, s2, site).finding.verdict)
  {
    InterpretCompletes(c, s1, EmptyLocals(c), 0);
    InterpretCompletes(c, s2, EmptyLocals(c), 0);
    InterpretMono(c, s1, s2, EmptyLocals(c));
    var a, b := Interpret(c, EmptyLocals(c), s1).log, Interpret(c, EmptyLocals(c), s2).log;
    var scope := ScopeOf(c.ops, site);
    hide Interpret, Verified, SiteMeaning, ScopeOf;
    FindingIsWorst(c.ops, scope, site, a);
    FindingIsWorst(c.ops, scope, site, b);
    hide FindingOf;
    var s := Severity(FindingOf(c.ops, scope, site, a).verdict);
    if s > 0 {
      assert Found(c.ops, scope, site, a, s);
      assert Found(c.ops, scope, site, b, s);
    }
  }

  /** The answer without summaries bounds the answer with any. */
  lemma SummaryFreeIsWorst(c: Chunk, sums: Summaries, site: nat)
    requires Verified(c)
    ensures Severity(VerdictOf(c, sums, site).finding.verdict) <= Severity(VerdictOf(c, NO_SUMMARIES, site).finding.verdict)
  {
    VerdictMono(c, sums, NO_SUMMARIES, site);
  }
}
