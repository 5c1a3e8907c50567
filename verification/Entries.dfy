/** What assembling does to the changelog, said of its lines: where each entry stands, in which order, and what is
    put around it. */
module Entries {
  import opened Options
  import opened Changelog

  // ----- lines -----

  /** The line is the text with nothing but space behind it. */
  predicate ReadsAs(line: string, text: string) {
    && |text| <= |line| && line[..|text|] == text && (text == [] || !IsSpace(text[|text| - 1]))
    && forall k :: |text| <= k < |line| ==> IsSpace(line[k])
  }

  lemma {:induction false} TrimExactly(line: string, text: string)
    ensures TrimRight(line) == text <==> ReadsAs(line, text)
    decreases |line|
  {
    assert line[..|line|] == line;
    if line != [] && IsSpace(line[|line| - 1]) {
      var init := line[..|line| - 1];
      TrimExactly(init, text);
      if ReadsAs(init, text) {
        assert line[..|text|] == init[..|text|];
      }
      if ReadsAs(line, text) {
        assert init[..|text|] == line[..|text|];
        assert forall k :: |text| <= k < |init| ==> init[k] == line[k];
      }
    }
  }

  /** The first line between the bounds that reads as the text. */
  predicate IsFirst(lines: seq<string>, lo: nat, hi: nat, text: string, k: nat) {
    lo <= k < hi <= |lines| && ReadsAs(lines[k], text) && forall j :: lo <= j < k ==> !ReadsAs(lines[j], text)
  }

  lemma {:induction false} FirstExactly(lines: seq<string>, lo: nat, hi: nat, text: string, k: nat)
    requires lo <= hi <= |lines|
    ensures FirstTrimmed(lines, lo, hi, text) == Some(k) <==> IsFirst(lines, lo, hi, text, k)
    ensures FirstTrimmed(lines, lo, hi, text).None? <==> forall j :: lo <= j < hi ==> !ReadsAs(lines[j], text)
    decreases hi - lo
  {
    hide ReadsAs, TrimRight;
    if lo < hi {
      TrimExactly(lines[lo], text);
      FirstExactly(lines, lo + 1, hi, text, k);
    }
  }

  // ----- places -----

  /** A section with no heading in the block: behind the block's last line that is not blank, a blank line, the
      heading and a blank line, then the bodies, without the blank line behind the last. */
  predicate OpensAt(lines: seq<string>, b: Bounds, s: Section, block: seq<string>, p: Splice)
    requires b.start < b.end <= |lines| && block != []
  {
    && (forall k :: b.start < k < b.end ==> !ReadsAs(lines[k], Marker(s)))
    && b.start < p.at <= b.end && (forall k :: p.at <= k < b.end ==> IsBlank(lines[k]))
    && (p.at == b.start + 1 || !IsBlank(lines[p.at - 1]))
    && p.insert == ["", Marker(s), ""] + block[..|block| - 1]
  }

  /** A section with headings: right below the first, behind the blank line that follows it or behind a new one. */
  predicate JoinsAt(lines: seq<string>, b: Bounds, s: Section, block: seq<string>, p: Splice, k: nat) {
    && IsFirst(lines, b.start + 1, b.end, Marker(s), k)
    && if k + 1 < |lines| && IsBlank(lines[k + 1]) then p.at == k + 2 && p.insert == block
       else p.at == k + 1 && p.insert == [""] + block
  }

  lemma PlaceExactly(lines: seq<string>, b: Bounds, s: Section, block: seq<string>, p: Splice)
    requires b.start < b.end <= |lines| && (b.end < |lines| ==> !IsBlank(lines[b.end])) && block != []
    ensures Place(lines, b, s, block) == p <==> OpensAt(lines, b, s, block, p) || exists k: nat :: JoinsAt(lines, b, s, block, p, k)
  {
    hide *;
    var found := FirstTrimmed(lines, b.start + 1, b.end, Marker(s));
    if found.None? {
      PlacedAnew(lines, b, s, block, p);
    } else {
      PlacedInto(lines, b, s, block, p, found.value);
    }
  }

  lemma PlacedAnew(lines: seq<string>, b: Bounds, s: Section, block: seq<string>, p: Splice)
    requires b.start < b.end <= |lines| && (b.end < |lines| ==> !IsBlank(lines[b.end])) && block != []
    requires FirstTrimmed(lines, b.start + 1, b.end, Marker(s)).None?
    ensures Place(lines, b, s, block) == p <==> OpensAt(lines, b, s, block, p)
    ensures forall k: nat :: !JoinsAt(lines, b, s, block, p, k)
  {
    hide ReadsAs, TrimRight, Marker, IsBlank, TrimmedEnd, FirstTrimmed;
    FirstExactly(lines, b.start + 1, b.end, Marker(s), 0);
    EndExactly(lines, b.start, b.end, p.at);
  }

  lemma PlacedInto(lines: seq<string>, b: Bounds, s: Section, block: seq<string>, p: Splice, k: nat)
    requires b.start < b.end <= |lines| && (b.end < |lines| ==> !IsBlank(lines[b.end])) && block != []
    requires FirstTrimmed(lines, b.start + 1, b.end, Marker(s)) == Some(k)
    ensures Place(lines, b, s, block) == p <==> exists j: nat :: JoinsAt(lines, b, s, block, p, j)
    ensures !OpensAt(lines, b, s, block, p)
  {
    hide ReadsAs, TrimRight, Marker, IsBlank, Place, FirstTrimmed;
    FirstExactly(lines, b.start + 1, b.end, Marker(s), k);
    FoundPlace(lines, b, s, block, k);
    if Place(lines, b, s, block) == p {
      assert JoinsAt(lines, b, s, block, p, k);
    }
    if j: nat :| JoinsAt(lines, b, s, block, p, j) {
      assert j == k;
    }
  }

  lemma FoundPlace(lines: seq<string>, b: Bounds, s: Section, block: seq<string>, k: nat)
    requires b.start < b.end <= |lines| && (b.end < |lines| ==> !IsBlank(lines[b.end])) && block != []
    requires FirstTrimmed(lines, b.start + 1, b.end, Marker(s)) == Some(k)
    ensures Place(lines, b, s, block) ==
      if k + 1 < |lines| && IsBlank(lines[k + 1]) then Splice(k + 2, block) else Splice(k + 1, [""] + block)
  {
    hide FirstTrimmed, TrimRight, Marker, IsBlank, TrimmedEnd;
  }

  lemma {:induction false} EndExactly(lines: seq<string>, start: nat, end: nat, at: nat)
    requires start < end <= |lines|
    ensures TrimmedEnd(lines, start, end) == at <==>
      start < at <= end && (forall k :: at <= k < end ==> IsBlank(lines[k])) && (at == start + 1 || !IsBlank(lines[at - 1]))
  {
    hide IsBlank;
  }

  // ----- bodies -----

  /** One body after the other, in this order, each with a blank line behind it: body `k` starts at `at[k]`. */
  predicate BodiesAt(block: seq<string>, fs: seq<Fragment>, at: seq<nat>) {
    && |at| == |fs| + 1 && at[0] == 0 && at[|fs|] == |block|
    && forall k :: 0 <= k < |fs| ==> BodyAt(block, fs, at, k)
  }

  predicate BodyAt(block: seq<string>, fs: seq<Fragment>, at: seq<nat>, k: nat) {
    && k < |fs| && k + 1 < |at| && at[k] + |fs[k].body| + 1 == at[k + 1] <= |block|
    && block[at[k]..at[k] + |fs[k].body|] == fs[k].body && block[at[k + 1] - 1] == ""
  }

  lemma {:induction false} BlockExactly(fs: seq<Fragment>) returns (at: seq<nat>)
    ensures BodiesAt(Block(fs), fs, at)
    decreases |fs|
  {
    at := [0];
    if fs != [] {
      var n := |fs| - 1;
      var before := BlockExactly(fs[..n]);
      var block, last := Block(fs[..n]), fs[n].body;
      assert Block(fs) == block + last + [""];
      at := before + [|block| + |last| + 1];
      forall k | 0 <= k < |fs|
        ensures BodyAt(Block(fs), fs, at, k)
      {
        if k < n {
          assert BodyAt(block, fs[..n], before, k);
          SameBefore(block, last + [""], before[k], before[k] + |fs[k].body|);
          assert Block(fs) == block + (last + [""]);
        } else {
          SameBehind(block, last, [""]);
        }
      }
    }
  }

  lemma SameBefore(a: seq<string>, b: seq<string>, i: nat, j: nat)
    requires i <= j < |a|
    ensures (a + b)[i..j] == a[i..j] && (a + b)[j] == a[j]
  {}

  lemma SameBehind(a: seq<string>, b: seq<string>, c: seq<string>)
    requires c != []
    ensures (a + b + c)[|a|..|a| + |b|] == b && (a + b + c)[|a| + |b|] == c[0]
  {}

  lemma {:induction false} AtGrows(block: seq<string>, fs: seq<Fragment>, at: seq<nat>, i: nat, j: nat)
    requires BodiesAt(block, fs, at) && i <= j <= |fs|
    ensures at[i] <= at[j] && (i < j ==> at[i] + |fs[i].body| < at[j])
    decreases j
  {
    if i < j {
      AtGrows(block, fs, at, i, j - 1);
      assert BodyAt(block, fs, at, j - 1);
      assert BodyAt(block, fs, at, i);
    }
  }

  // ----- order -----

  /** `x` ends within `y`, or is smaller where they first differ, which is at `k`. */
  predicate SmallerAt(x: string, y: string, k: nat) {
    k <= |x| && k < |y| && x[..k] == y[..k] && (k == |x| || x[k] < y[k])
  }

  lemma {:induction false} LessExactly(x: string, y: string)
    ensures LexLess(x, y) <==> exists k: nat :: SmallerAt(x, y, k)
    decreases |y|
  {
    if y != [] && (x == [] || x[0] < y[0]) {
      assert SmallerAt(x, y, 0);
    } else if y != [] && x[0] == y[0] {
      LessExactly(x[1..], y[1..]);
      if k: nat :| SmallerAt(x[1..], y[1..], k) {
        assert x[..k + 1] == [x[0]] + x[1..][..k] && y[..k + 1] == [y[0]] + y[1..][..k];
        assert SmallerAt(x, y, k + 1);
      }
      if k: nat :| SmallerAt(x, y, k) {
        assert k > 0;
        assert x[1..][..k - 1] == x[..k][1..] && y[1..][..k - 1] == y[..k][1..];
        assert SmallerAt(x[1..], y[1..], k - 1);
      }
    } else if y != [] {
      if k: nat :| SmallerAt(x, y, k) {
        HeadsFirst(x, y, k);
      }
    }
  }

  lemma HeadsFirst(x: string, y: string, k: nat)
    requires SmallerAt(x, y, k) && x != []
    ensures x[0] <= y[0]
  {
    if k > 0 {
      assert x[..k][0] == y[..k][0];
    }
  }

  /** A fragment comes before another if and only if its date is the later one, or the dates are the same and its
      slug is the smaller one. */
  lemma BeforeExactly(a: Fragment, b: Fragment)
    ensures Before(a, b) <==>
      (exists k: nat :: SmallerAt(b.date, a.date, k)) || (a.date == b.date && exists k: nat :: SmallerAt(a.slug, b.slug, k))
  {
    hide LexLess;
    LessExactly(b.date, a.date);
    LessExactly(a.slug, b.slug);
  }

  // ----- every entry -----

  /** The fragment's body stands as new lines at `q`, in the block, under its section's heading at `h`, with no
      other heading in between. */
  predicate EntryAt(d: Draft, start: nat, f: Fragment, h: nat, q: nat) {
    && |d.kept| == |d.lines| && start < h < q && q + |f.body| <= d.end <= |d.lines|
    && ReadsAs(d.lines[h], Marker(f.section)) && (forall k :: h < k < q ==> !IsHeading(d.lines[k]))
    && d.lines[q..q + |f.body|] == f.body && forall k :: q <= k < q + |f.body| ==> !d.kept[k]
  }

  /** Every fragment's body stands in the assembled text under its section's heading, and of two in a section the
      one that comes before stands above. */
  lemma EntriesStand(lines: seq<string>, fs: seq<Fragment>, f: Fragment, g: Fragment) returns (d: Draft, h: nat, i: nat, j: nat)
    requires Assemble(lines, fs).Some? && Named(fs) && AllBodiesOk(fs)
    requires f in fs && g in fs && f.section == g.section && (f == g || Before(f, g))
    ensures UnreleasedBounds(lines).Some? && d.lines == Assemble(lines, fs).value
    ensures Conserves(lines, UnreleasedBounds(lines).value, d)
    ensures EntryAt(d, UnreleasedBounds(lines).value.start, f, h, i) && EntryAt(d, UnreleasedBounds(lines).value.start, g, h, j)
    ensures f != g ==> i + |f.body| < j
  {
    hide *;
    d := AssemblyConserves(lines, fs);
    var start := UnreleasedBounds(lines).value.start;
    var chosen := Chosen(fs, f.section);
    ChosenStrict(fs, f.section);
    ConservesKept(lines, UnreleasedBounds(lines).value, d);
    h := SectionStands(d, start, fs, f.section, f);
    var at := BlockExactly(chosen);
    ChosenBodies(fs, f.section);
    assert f in chosen && g in chosen;
    var k :| 0 <= k < |chosen| && chosen[k] == f;
    var l :| 0 <= l < |chosen| && chosen[l] == g;
    i, j := h + 2 + at[k], h + 2 + at[l];
    EntryStands(d, start, f.section, chosen, h, at, k);
    EntryStands(d, start, f.section, chosen, h, at, l);
    if f != g {
      InThatOrder(chosen, k, l);
      AtGrows(Block(chosen), chosen, at, k, l);
    }
  }

  lemma ConservesKept(lines: seq<string>, b: Bounds, d: Draft)
    requires b.start < b.end <= |lines| && Conserves(lines, b, d)
    ensures |d.lines| == |d.kept|
  {}

  lemma InThatOrder(c: seq<Fragment>, k: nat, l: nat)
    requires Strict(c) && k < |c| && l < |c| && Before(c[k], c[l])
    ensures k < l
  {
    hide Before;
    FragmentOrder(c[k], c[l], c[k]);
  }

  lemma SectionStands(d: Draft, start: nat, fs: seq<Fragment>, s: Section, f: Fragment) returns (q: nat)
    requires |d.lines| == |d.kept| && AllPlaced(d, start, fs, |SECTIONS|) && f in Chosen(fs, s)
    ensures PlacedAt(d, start, s, Block(Chosen(fs, s)), q)
  {
    hide Chosen, PlacedAt, Block;
    var i := match s
      case Added => 0
      case Changed => 1
      case Deprecated => 2
      case Removed => 3
      case Fixed => 4
      case Security => 5;
    assert SECTIONS[i] == s;
    assert IsPlaced(d, start, s, Block(Chosen(fs, s)));
    q :| PlacedAt(d, start, s, Block(Chosen(fs, s)), q);
  }

  lemma EntryStands(d: Draft, start: nat, s: Section, chosen: seq<Fragment>, h: nat, at: seq<nat>, k: nat)
    requires |d.lines| == |d.kept| && PlacedAt(d, start, s, Block(chosen), h) && BlockOk(Block(chosen))
    requires BodiesAt(Block(chosen), chosen, at) && k < |chosen| && chosen[k].section == s
    ensures EntryAt(d, start, chosen[k], h, h + 2 + at[k])
  {
    hide *;
    var block := Block(chosen);
    BodyWithin(block, chosen, at, k);
    InBlock(d, start, s, block, h, at[k], chosen[k]);
  }

  lemma InBlock(d: Draft, start: nat, s: Section, block: seq<string>, h: nat, i: nat, f: Fragment)
    requires |d.lines| == |d.kept| && PlacedAt(d, start, s, block, h) && BlockOk(block)
    requires f.section == s && i + |f.body| < |block| && block[i..i + |f.body|] == f.body
    ensures EntryAt(d, start, f, h, h + 2 + i)
  {
    hide ReadsAs, TrimRight, Marker, IsHeading, IsBlank, BlockOk;
    TrimExactly(d.lines[h], Marker(s));
    BlockLines(d, h, block);
    BlankNoHeading(d.lines[h + 1]);
    RangeWithin(d.lines, block, h + 2, i, |f.body|);
  }

  lemma BodyWithin(block: seq<string>, chosen: seq<Fragment>, at: seq<nat>, k: nat)
    requires BodiesAt(block, chosen, at) && k < |chosen|
    ensures |at| == |chosen| + 1 && at[k] + |chosen[k].body| < |block|
    ensures block[at[k]..at[k] + |chosen[k].body|] == chosen[k].body
  {
    assert BodyAt(block, chosen, at, k);
  }

  lemma RangeWithin(lines: seq<string>, block: seq<string>, lo: nat, i: nat, n: nat)
    requires i + n < |block| && lo + |block| - 1 <= |lines| && lines[lo..lo + |block| - 1] == block[..|block| - 1]
    ensures lines[lo + i..lo + i + n] == block[i..i + n]
  {
    SliceSliced(lines, lo, lo + |block| - 1, i, i + n);
    SliceSliced(block, 0, |block| - 1, i, i + n);
  }

  lemma SliceSliced(a: seq<string>, lo: nat, hi: nat, i: nat, j: nat)
    requires lo <= hi <= |a| && i <= j <= hi - lo
    ensures a[lo..hi][i..j] == a[lo + i..lo + j]
  {
    var x, y := a[lo..hi][i..j], a[lo + i..lo + j];
    forall k | 0 <= k < j - i
      ensures x[k] == y[k]
    {
      assert x[k] == a[lo..hi][i + k] == a[lo + i + k];
    }
    assert x == y;
  }

  lemma {:induction false} BlankNoHeading(s: string)
    requires IsBlank(s)
    ensures !IsHeading(s)
  {
    HeadingExactly(s);
  }
}
