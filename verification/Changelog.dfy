/** Assembling changelog fragments into the `[Unreleased]` block, line by line. */
module Changelog {
  import opened Options

  datatype Section = Added | Changed | Deprecated | Removed | Fixed | Security

  const SECTIONS := [Added, Changed, Deprecated, Removed, Fixed, Security]

  function Title(s: Section): string {
    match s
    case Added => "Added"
    case Changed => "Changed"
    case Deprecated => "Deprecated"
    case Removed => "Removed"
    case Fixed => "Fixed"
    case Security => "Security"
  }

  function Marker(s: Section): string {
    "### " + Title(s)
  }

  const UNRELEASED := "## [Unreleased]"

  /** A validated fragment; its body as lines. */
  datatype Fragment = Fragment(date: string, slug: string, section: Section, body: seq<string>)

  // ----- lines -----

  /** What stripping takes off, among the ASCII characters: tabs and line ends, the four separators and
      the space. */
  predicate IsSpace(c: char) {
    '\t' <= c <= '\r' || '\U{1C}' <= c <= ' '
  }

  predicate IsBlank(s: string) {
    forall i :: 0 <= i < |s| ==> IsSpace(s[i])
  }

  function TrimRight(s: string): string {
    if s != [] && IsSpace(s[|s| - 1]) then TrimRight(s[..|s| - 1]) else s
  }

  function TrimLeft(s: string): string {
    if s != [] && IsSpace(s[0]) then TrimLeft(s[1..]) else s
  }

  predicate StartsWith(s: string, p: string) {
    |p| <= |s| && s[..|p|] == p
  }

  predicate IsHeading(s: string) {
    StartsWith(TrimLeft(s), "#")
  }

  /** A fragment body: list items, no headings, no blank line at either end. */
  predicate BodyOk(body: seq<string>) {
    && body != [] && StartsWith(body[0], "- ") && !IsBlank(body[|body| - 1])
    && forall i :: 0 <= i < |body| ==> !IsHeading(body[i])
  }

  function DropBlankHead(lines: seq<string>): seq<string> {
    if lines != [] && IsBlank(lines[0]) then DropBlankHead(lines[1..]) else lines
  }

  function DropBlankTail(lines: seq<string>): (r: seq<string>)
    ensures r != [] ==> !IsBlank(r[|r| - 1])
  {
    if lines != [] && IsBlank(lines[|lines| - 1]) then DropBlankTail(lines[..|lines| - 1]) else lines
  }

  /** The body without surrounding blank lines, or None when it is malformed. */
  function ParseBody(text: seq<string>): (r: Option<seq<string>>)
    ensures r.Some? ==> BodyOk(r.value)
  {
    var lines := DropBlankTail(DropBlankHead(text));
    if lines == [] || !StartsWith(lines[0], "- ") then None
    else if exists i :: 0 <= i < |lines| && IsHeading(lines[i]) then None
    else Some(lines)
  }

  // ----- what is parsed, on the text -----

  /** The text is blank but for `text[i..j]`. */
  predicate BlankAround(text: seq<string>, i: nat, j: nat) {
    && i <= j <= |text|
    && (forall k :: 0 <= k < i ==> IsBlank(text[k]))
    && (forall k :: j <= k < |text| ==> IsBlank(text[k]))
  }

  /** The body is all of the text but blank lines around it, starts with a list item, ends in a line that is not
      blank, and holds no heading. */
  predicate BodyIn(text: seq<string>, body: seq<string>, i: nat, j: nat) {
    && BlankAround(text, i, j) && i < j && body == text[i..j]
    && |body[0]| >= 2 && body[0][..2] == "- " && !IsBlank(body[|body| - 1])
    && forall k :: 0 <= k < |body| ==> !HeadingLine(body[k])
  }

  /** The first character that is no space is `#`. */
  predicate HeadingLine(s: string) {
    exists k :: 0 <= k < |s| && s[k] == '#' && forall j :: 0 <= j < k ==> IsSpace(s[j])
  }

  lemma {:induction false} HeadingExactly(s: string)
    ensures IsHeading(s) <==> HeadingLine(s)
    decreases |s|
  {
    if s != [] && IsSpace(s[0]) {
      HeadingExactly(s[1..]);
      if HeadingLine(s[1..]) {
        var k :| 0 <= k < |s[1..]| && s[1..][k] == '#' && forall j :: 0 <= j < k ==> IsSpace(s[1..][j]);
        assert s[k + 1] == '#' && forall j :: 0 <= j < k + 1 ==> j == 0 || s[j] == s[1..][j - 1];
      }
      if HeadingLine(s) {
        var k :| 0 <= k < |s| && s[k] == '#' && forall j :: 0 <= j < k ==> IsSpace(s[j]);
        assert s[1..][k - 1] == '#' && forall j :: 0 <= j < k - 1 ==> s[1..][j] == s[j + 1];
      }
    } else if s != [] {
      assert s[..1] == [s[0]] && "#" == ['#'];
    }
  }

  lemma {:induction false} HeadDropped(text: seq<string>) returns (i: nat)
    ensures i <= |text| && DropBlankHead(text) == text[i..] && (i < |text| ==> !IsBlank(text[i]))
    ensures forall k :: 0 <= k < i ==> IsBlank(text[k])
    decreases |text|
  {
    i := 0;
    if text != [] && IsBlank(text[0]) {
      var j := HeadDropped(text[1..]);
      i := j + 1;
      assert text[1..][j..] == text[i..];
    }
  }

  lemma {:induction false} TailDropped(text: seq<string>) returns (j: nat)
    ensures j <= |text| && DropBlankTail(text) == text[..j] && (j > 0 ==> !IsBlank(text[j - 1]))
    ensures forall k :: j <= k < |text| ==> IsBlank(text[k])
    decreases |text|
  {
    j := |text|;
    if text != [] && IsBlank(text[|text| - 1]) {
      j := TailDropped(text[..|text| - 1]);
      assert text[..|text| - 1][..j] == text[..j];
    }
  }

  /** What is left of a text once blank lines are off both ends. */
  lemma Stripped(text: seq<string>) returns (i: nat, j: nat)
    ensures BlankAround(text, i, j) && DropBlankTail(DropBlankHead(text)) == text[i..j]
    ensures i < j ==> !IsBlank(text[i]) && !IsBlank(text[j - 1])
    ensures i == j ==> forall k :: 0 <= k < |text| ==> IsBlank(text[k])
  {
    i := HeadDropped(text);
    var n := TailDropped(text[i..]);
    j := i + n;
    assert text[i..][..n] == text[i..j];
    assert forall k :: j <= k < |text| ==> text[k] == text[i..][k - i];
    if i < |text| {
      assert text[i..][0] == text[i];
    }
  }

  /** A text parses to a body if and only if the body is all of it but blank lines around, starts with a list
      item, and holds no heading. */
  lemma ParsesExactly(text: seq<string>, body: seq<string>)
    ensures ParseBody(text) == Some(body) <==> exists i: nat, j: nat :: BodyIn(text, body, i, j)
  {
    var i, j := Stripped(text);
    var lines := text[i..j];
    forall k | 0 <= k < |lines|
      ensures IsHeading(lines[k]) <==> HeadingLine(lines[k])
    {
      HeadingExactly(lines[k]);
    }
    if ParseBody(text) == Some(body) {
      assert BodyIn(text, body, i, j);
    }
    if a: nat, b: nat :| BodyIn(text, body, a, b) {
      ItemNotBlank(text[a]);
      assert text[a] == body[0] && text[b - 1] == body[|body| - 1];
      assert a == i && b == j;
    }
  }

  lemma ItemNotBlank(s: string)
    requires |s| >= 2 && s[..2] == "- "
    ensures !IsBlank(s)
  {
    assert s[0] == s[..2][0] == '-';
  }

  /** What is left between blank lines does not start with a list item, or holds a heading. */
  predicate BadBetween(text: seq<string>, i: nat, j: nat) {
    && BlankAround(text, i, j) && i < j && !IsBlank(text[i]) && !IsBlank(text[j - 1])
    && (!(|text[i]| >= 2 && text[i][..2] == "- ") || exists k :: i <= k < j && HeadingLine(text[k]))
  }

  /** A text does not parse if and only if it is blank throughout, or what is left between blank lines does not
      start with a list item, or holds a heading. */
  lemma FailsExactly(text: seq<string>)
    ensures ParseBody(text).None? <==>
      || (forall k :: 0 <= k < |text| ==> IsBlank(text[k]))
      || exists i: nat, j: nat :: BadBetween(text, i, j)
  {
    var i, j := Stripped(text);
    var lines := text[i..j];
    forall k | 0 <= k < |lines|
      ensures IsHeading(lines[k]) <==> HeadingLine(text[i + k])
    {
      HeadingExactly(lines[k]);
    }
    if ParseBody(text).None? && i < j {
      assert lines[0] == text[i];
      if StartsWith(lines[0], "- ") {
        var k :| 0 <= k < |lines| && IsHeading(lines[k]);
        assert HeadingLine(text[i + k]);
      }
      assert BadBetween(text, i, j);
    }
    if a: nat, b: nat :| BadBetween(text, a, b) {
      assert a == i && b == j && lines[0] == text[i];
      if StartsWith(text[a], "- ") {
        var k :| a <= k < b && HeadingLine(text[k]);
        assert IsHeading(lines[k - i]);
      }
    }
  }

  /** Pop blank lines off both ends, then check what is left. */
  method ParseFragment(text: seq<string>) returns (r: Option<seq<string>>)
    ensures r == ParseBody(text)
  {
    var lines := text;
    while lines != [] && IsBlank(lines[0])
      invariant DropBlankHead(lines) == DropBlankHead(text)
      decreases |lines|
    {
      lines := lines[1..];
    }
    ghost var headless := lines;
    while lines != [] && IsBlank(lines[|lines| - 1])
      invariant DropBlankTail(lines) == DropBlankTail(headless)
      decreases |lines|
    {
      lines := lines[..|lines| - 1];
    }
    if lines == [] || !StartsWith(lines[0], "- ") {
      return None;
    }
    for i := 0 to |lines|
      invariant forall k :: 0 <= k < i ==> !IsHeading(lines[k])
    {
      if IsHeading(lines[i]) {
        return None;
      }
    }
    r := Some(lines);
  }

  // ----- order -----

  predicate LexLess(x: string, y: string) {
    y != [] && (x == [] || x[0] < y[0] || (x[0] == y[0] && LexLess(x[1..], y[1..])))
  }

  /** Newest date first, then by slug. */
  predicate Before(a: Fragment, b: Fragment) {
    LexLess(b.date, a.date) || (a.date == b.date && LexLess(a.slug, b.slug))
  }

  /** Insert behind everything that does not come after it. */
  function Insert(fs: seq<Fragment>, f: Fragment): seq<Fragment> {
    if fs == [] then [f]
    else if Before(f, fs[|fs| - 1]) then Insert(fs[..|fs| - 1], f) + [fs[|fs| - 1]]
    else fs + [f]
  }

  /** Stable: fragments that agree in date and slug keep the order they were loaded in. */
  function Ordered(fs: seq<Fragment>): seq<Fragment> {
    if fs == [] then [] else Insert(Ordered(fs[..|fs| - 1]), fs[|fs| - 1])
  }

  function OfSection(fs: seq<Fragment>, s: Section): seq<Fragment> {
    if fs == [] then []
    else OfSection(fs[..|fs| - 1], s) + (if fs[|fs| - 1].section == s then [fs[|fs| - 1]] else [])
  }

  /** No two files have the same name. */
  predicate Named(fs: seq<Fragment>) {
    forall i, j :: 0 <= i < j < |fs| ==>
      !(fs[i].date == fs[j].date && fs[i].slug == fs[j].slug && fs[i].section == fs[j].section)
  }

  predicate Strict(fs: seq<Fragment>) {
    forall i, j :: 0 <= i < j < |fs| ==> Before(fs[i], fs[j])
  }

  predicate Weak(fs: seq<Fragment>) {
    forall i, j :: 0 <= i < j < |fs| ==> !Before(fs[j], fs[i])
  }

  lemma {:induction false} LexOrder(x: string, y: string, z: string)
    ensures !LexLess(x, x)
    ensures LexLess(x, y) || LexLess(y, x) || x == y
    ensures LexLess(x, y) ==> !LexLess(y, x)
    ensures LexLess(x, y) && LexLess(y, z) ==> LexLess(x, z)
    decreases |x| + |y| + |z|
  {
    if x != [] && y != [] && z != [] {
      LexOrder(x[1..], y[1..], z[1..]);
    } else if x != [] && y != [] {
      LexOrder(x[1..], y[1..], []);
    } else if x != [] {
      LexOrder(x[1..], [], []);
    }
    if x != [] && y != [] && x[0] == y[0] && x[1..] == y[1..] {
      assert x == [x[0]] + x[1..] && y == [y[0]] + y[1..];
    }
  }

  lemma FragmentOrder(a: Fragment, b: Fragment, c: Fragment)
    ensures !Before(a, a)
    ensures Before(a, b) || Before(b, a) || (a.date == b.date && a.slug == b.slug)
    ensures Before(a, b) ==> !Before(b, a)
    ensures Before(a, b) && Before(b, c) ==> Before(a, c)
  {
    hide LexLess;
    LexOrder(a.date, b.date, c.date);
    LexOrder(c.date, b.date, a.date);
    LexOrder(b.date, a.date, c.date);
    LexOrder(a.slug, b.slug, c.slug);
  }

  lemma NotBeforeOn(a: Fragment, b: Fragment, c: Fragment)
    requires !Before(b, a) && !Before(c, b)
    ensures !Before(c, a)
  {
    hide Before;
    FragmentOrder(a, b, c);
    FragmentOrder(c, a, b);
    FragmentOrder(b, c, a);
    SameKey(a, b, c);
    SameKey(b, c, a);
  }

  lemma SameKey(a: Fragment, b: Fragment, c: Fragment)
    ensures a.date == b.date && a.slug == b.slug ==> (Before(a, c) <==> Before(b, c)) && (Before(c, a) <==> Before(c, b))
  {}

  lemma {:induction false} InsertWeak(fs: seq<Fragment>, f: Fragment)
    requires Weak(fs)
    ensures Weak(Insert(fs, f)) && multiset(Insert(fs, f)) == multiset(fs) + multiset{f}
    decreases |fs|
  {
    hide Before;
    if fs != [] {
      var n := |fs| - 1;
      assert fs == fs[..n] + [fs[n]];
      if Before(f, fs[n]) {
        InsertWeak(fs[..n], f);
        FragmentOrder(f, fs[n], f);
        var init := Insert(fs[..n], f);
        forall x | x in init
          ensures !Before(fs[n], x)
        {
          assert x in multiset(init);
          assert x in fs[..n] || x == f;
        }
      } else {
        forall i | 0 <= i < n
          ensures !Before(f, fs[i])
        {
          NotBeforeOn(fs[i], fs[n], f);
        }
      }
    }
  }

  lemma {:induction false} OrderedWeak(fs: seq<Fragment>)
    ensures Weak(Ordered(fs)) && multiset(Ordered(fs)) == multiset(fs)
    decreases |fs|
  {
    if fs != [] {
      OrderedWeak(fs[..|fs| - 1]);
      InsertWeak(Ordered(fs[..|fs| - 1]), fs[|fs| - 1]);
      assert fs == fs[..|fs| - 1] + [fs[|fs| - 1]];
    }
  }

  lemma {:induction false} OfSectionIs(fs: seq<Fragment>, s: Section)
    ensures forall f :: multiset(OfSection(fs, s))[f] == if f.section == s then multiset(fs)[f] else 0
    ensures forall f :: f in OfSection(fs, s) ==> f in fs && f.section == s
    decreases |fs|
  {
    if fs != [] {
      OfSectionIs(fs[..|fs| - 1], s);
      assert fs == fs[..|fs| - 1] + [fs[|fs| - 1]];
    }
  }

  lemma {:induction false} OfSectionWeak(fs: seq<Fragment>, s: Section)
    requires Weak(fs)
    ensures Weak(OfSection(fs, s))
    decreases |fs|
  {
    hide Before;
    if fs != [] {
      var n := |fs| - 1;
      OfSectionWeak(fs[..n], s);
      OfSectionIs(fs[..n], s);
      var init := OfSection(fs[..n], s);
      forall i | 0 <= i < |init|
        ensures !Before(fs[n], init[i])
      {
        assert init[i] in fs[..n];
      }
    }
  }

  /** The fragments of a section, as they are assembled. */
  function Chosen(fs: seq<Fragment>, s: Section): seq<Fragment> {
    OfSection(Ordered(fs), s)
  }

  lemma NamedOnce(fs: seq<Fragment>, x: Fragment, y: Fragment)
    requires Named(fs) && x in fs && y in fs && x.date == y.date && x.slug == y.slug && x.section == y.section
    ensures x == y && multiset(fs)[x] == 1
  {
    var i :| 0 <= i < |fs| && fs[i] == x;
    var j :| 0 <= j < |fs| && fs[j] == y;
    assert i == j;
    assert fs == fs[..i] + [fs[i]] + fs[i + 1..];
    assert x !in fs[..i] && x !in fs[i + 1..];
  }

  /** A section's fragments come newest first, then by slug, none of them twice. */
  lemma ChosenStrict(fs: seq<Fragment>, s: Section)
    requires Named(fs)
    ensures Strict(Chosen(fs, s))
    ensures forall f :: f in Chosen(fs, s) <==> f in fs && f.section == s
  {
    OrderedWeak(fs);
    OfSectionIs(Ordered(fs), s);
    OfSectionWeak(Ordered(fs), s);
    var c := Chosen(fs, s);
    forall f
      ensures f in c <==> f in fs && f.section == s
    {
      assert f in c <==> multiset(c)[f] > 0;
      assert f in fs <==> multiset(fs)[f] > 0;
    }
    hide Before, Ordered, OfSection, Chosen;
    forall i, j | 0 <= i < j < |c|
      ensures Before(c[i], c[j])
    {
      FragmentOrder(c[i], c[j], c[i]);
      assert c[i] in c && c[j] in c;
      if c[i].date == c[j].date && c[i].slug == c[j].slug {
        NamedOnce(fs, c[i], c[j]);
        TwiceCounted(c, i, j);
      }
    }
  }

  lemma TwiceCounted(c: seq<Fragment>, i: nat, j: nat)
    requires i < j < |c|
    ensures c[i] == c[j] ==> multiset(c)[c[i]] >= 2
  {
    assert c == c[..i] + [c[i]] + c[i + 1..j] + [c[j]] + c[j + 1..];
  }

  lemma {:induction false} StrictUnique(a: seq<Fragment>, b: seq<Fragment>)
    requires Strict(a) && Strict(b) && forall f :: f in a <==> f in b
    ensures a == b
    decreases |a|
  {
    hide Before;
    NotEmpty(a, b);
    NotEmpty(b, a);
    if a != [] {
      var m, n := |a| - 1, |b| - 1;
      LastSame(a, b);
      forall f
        ensures f in a[..m] <==> f in b[..n]
      {
        InitHas(a, f);
        InitHas(b, f);
      }
      StrictUnique(a[..m], b[..n]);
      assert a == a[..m] + [a[m]] && b == b[..n] + [b[n]];
    }
  }

  lemma NotEmpty(a: seq<Fragment>, b: seq<Fragment>)
    requires forall f :: f in a <==> f in b
    ensures a != [] ==> b != []
  {
    if a != [] {
      assert a[0] in b;
    }
  }

  lemma LastSame(a: seq<Fragment>, b: seq<Fragment>)
    requires Strict(a) && Strict(b) && a != [] && b != [] && forall f :: f in a <==> f in b
    ensures a[|a| - 1] == b[|b| - 1]
  {
    hide Before;
    var x, y := a[|a| - 1], b[|b| - 1];
    assert x in a && y in b && x in b && y in a;
    var i :| 0 <= i < |a| && a[i] == y;
    var j :| 0 <= j < |b| && b[j] == x;
    FragmentOrder(x, y, x);
  }

  lemma InitHas(a: seq<Fragment>, f: Fragment)
    requires Strict(a) && a != []
    ensures f in a[..|a| - 1] <==> f in a && f != a[|a| - 1]
  {
    hide Before;
    var n := |a| - 1;
    assert a == a[..n] + [a[n]];
    if f in a[..n] {
      var i :| 0 <= i < n && a[i] == f;
      FragmentOrder(f, a[n], f);
    }
  }

  /** What a section receives does not depend on the order files were loaded in. */
  lemma LoadOrderIrrelevant(fs: seq<Fragment>, gs: seq<Fragment>, s: Section)
    requires Named(fs) && Named(gs) && forall f :: f in fs <==> f in gs
    ensures Chosen(fs, s) == Chosen(gs, s)
  {
    ChosenStrict(fs, s);
    ChosenStrict(gs, s);
    StrictUnique(Chosen(fs, s), Chosen(gs, s));
  }

  // ----- assembling -----

  /** The `[Unreleased]` block: its heading line, and the next release. */
  datatype Bounds = Bounds(start: nat, end: nat)

  function CountUnreleased(lines: seq<string>): nat {
    if lines == [] then 0
    else CountUnreleased(lines[..|lines| - 1]) + (if TrimRight(lines[|lines| - 1]) == UNRELEASED then 1 else 0)
  }

  /** The first line in `[lo, hi)` that trims to the text. */
  function FirstTrimmed(lines: seq<string>, lo: nat, hi: nat, text: string): (r: Option<nat>)
    requires lo <= hi <= |lines|
    ensures r.Some? ==> lo <= r.value < hi && TrimRight(lines[r.value]) == text
    ensures r.None? ==> (forall k :: lo <= k < hi ==> TrimRight(lines[k]) != text)
    decreases hi - lo
  {
    if lo == hi then None
    else if TrimRight(lines[lo]) == text then Some(lo)
    else FirstTrimmed(lines, lo + 1, hi, text)
  }

  /** The first release heading from `from` on, or the end of the text. */
  function NextRelease(lines: seq<string>, from: nat): (r: nat)
    requires from <= |lines|
    ensures from <= r <= |lines| && (r < |lines| ==> StartsWith(lines[r], "## "))
    decreases |lines| - from
  {
    if from == |lines| || StartsWith(lines[from], "## ") then from else NextRelease(lines, from + 1)
  }

  /** None unless there is exactly one `[Unreleased]` heading. */
  function UnreleasedBounds(lines: seq<string>): (r: Option<Bounds>)
    ensures r.Some? ==> r.value.start < r.value.end <= |lines| && (r.value.end < |lines| ==> !IsBlank(lines[r.value.end]))
  {
    var first := FirstTrimmed(lines, 0, |lines|, UNRELEASED);
    if CountUnreleased(lines) != 1 || first.None? then None
    else
      var end := NextRelease(lines, first.value + 1);
      assert end < |lines| ==> lines[end][0] == "## "[0] == '#' && !IsSpace(lines[end][0]);
      Some(Bounds(first.value, end))
  }

  lemma {:induction false} NoneUnreleased(lines: seq<string>)
    ensures CountUnreleased(lines) == 0 <==> forall k :: 0 <= k < |lines| ==> TrimRight(lines[k]) != UNRELEASED
    decreases |lines|
  {
    hide TrimRight;
    if lines != [] {
      var n := |lines| - 1;
      NoneUnreleased(lines[..n]);
      assert forall k :: 0 <= k < n ==> lines[..n][k] == lines[k];
    }
  }

  lemma {:induction false} OneUnreleased(lines: seq<string>, s: nat)
    requires s < |lines| && TrimRight(lines[s]) == UNRELEASED
    ensures CountUnreleased(lines) == 1 <==> forall k :: 0 <= k < |lines| && k != s ==> TrimRight(lines[k]) != UNRELEASED
    decreases |lines|
  {
    hide TrimRight;
    var n := |lines| - 1;
    assert forall k :: 0 <= k < n ==> lines[..n][k] == lines[k];
    NoneUnreleased(lines[..n]);
    if s < n {
      assert CountUnreleased(lines[..n]) != 0 by {
        assert lines[..n][s] == lines[s];
      }
      OneUnreleased(lines[..n], s);
    }
  }

  lemma {:induction false} NextReleaseFirst(lines: seq<string>, from: nat, end: nat)
    requires from <= end <= |lines|
    ensures NextRelease(lines, from) == end <==>
      && (end < |lines| ==> StartsWith(lines[end], "## "))
      && forall k :: from <= k < end ==> !StartsWith(lines[k], "## ")
    decreases |lines| - from
  {
    hide StartsWith;
    if from < end {
      if !StartsWith(lines[from], "## ") {
        NextReleaseFirst(lines, from + 1, end);
      }
    }
  }

  /** The block is found exactly when one line alone is the `[Unreleased]` heading: it starts there, and
      ends at the first release heading behind it or at the end of the text. */
  lemma BoundsExactly(lines: seq<string>, b: Bounds)
    ensures UnreleasedBounds(lines) == Some(b) <==>
      && b.start < b.end <= |lines|
      && (forall k :: 0 <= k < |lines| ==> (TrimRight(lines[k]) == UNRELEASED <==> k == b.start))
      && (b.end < |lines| ==> StartsWith(lines[b.end], "## "))
      && (forall k :: b.start < k < b.end ==> !StartsWith(lines[k], "## "))
  {
    hide TrimRight, StartsWith, CountUnreleased, NextRelease;
    var first := FirstTrimmed(lines, 0, |lines|, UNRELEASED);
    if b.start < b.end <= |lines| {
      assert (forall k :: 0 <= k < |lines| ==> (TrimRight(lines[k]) == UNRELEASED <==> k == b.start)) ==>
          TrimRight(lines[b.start]) == UNRELEASED;
      NextReleaseFirst(lines, b.start + 1, b.end);
    }
    if first.Some? {
      OneUnreleased(lines, first.value);
    }
  }

  /** The bodies of a section's fragments, each followed by a blank line. */
  function Block(fs: seq<Fragment>): seq<string> {
    if fs == [] then [] else Block(fs[..|fs| - 1]) + fs[|fs| - 1].body + [""]
  }

  /** The end of the block without its trailing blank lines. */
  function TrimmedEnd(lines: seq<string>, start: nat, at: nat): (r: nat)
    requires start < at <= |lines|
    ensures start < r <= at
    ensures forall k :: r <= k < at ==> IsBlank(lines[k])
    ensures r > start + 1 ==> !IsBlank(lines[r - 1])
    decreases at
  {
    if at > start + 1 && IsBlank(lines[at - 1]) then TrimmedEnd(lines, start, at - 1) else at
  }

  datatype Splice = Splice(at: nat, insert: seq<string>)

  /** Where a section's block goes, and what goes there. */
  function Place(lines: seq<string>, b: Bounds, s: Section, block: seq<string>): (p: Splice)
    requires b.start < b.end <= |lines| && (b.end < |lines| ==> !IsBlank(lines[b.end])) && block != []
    ensures b.start < p.at <= b.end && |p.insert| >= |block|
  {
    var found := FirstTrimmed(lines, b.start + 1, b.end, Marker(s));
    if found.None? then Splice(TrimmedEnd(lines, b.start, b.end), ["", Marker(s), ""] + block[..|block| - 1])
    else if found.value + 1 < |lines| && IsBlank(lines[found.value + 1]) then Splice(found.value + 2, block)
    else Splice(found.value + 1, [""] + block)
  }

  /** The text so far; which of its lines were there before; the end of the block. */
  datatype Draft = Draft(lines: seq<string>, kept: seq<bool>, end: nat)

  function SpliceIn(d: Draft, p: Splice): Draft
    requires p.at <= |d.lines| == |d.kept|
  {
    Draft(d.lines[..p.at] + p.insert + d.lines[p.at..], d.kept[..p.at] + seq(|p.insert|, _ => false) + d.kept[p.at..], d.end + |p.insert|)
  }

  predicate DraftOk(d: Draft, start: nat) {
    start < d.end <= |d.lines| == |d.kept| && (d.end < |d.lines| ==> !IsBlank(d.lines[d.end]))
  }

  function AddSection(d: Draft, start: nat, fs: seq<Fragment>, s: Section): (r: Draft)
    requires DraftOk(d, start)
    ensures DraftOk(r, start)
  {
    var block := Block(Chosen(fs, s));
    if block == [] then d else SpliceIn(d, Place(d.lines, Bounds(start, d.end), s, block))
  }

  function AddSections(d: Draft, start: nat, fs: seq<Fragment>, n: nat): (r: Draft)
    requires DraftOk(d, start) && n <= |SECTIONS|
    ensures DraftOk(r, start)
  {
    if n == 0 then d else AddSection(AddSections(d, start, fs, n - 1), start, fs, SECTIONS[n - 1])
  }

  function Fresh(lines: seq<string>, end: nat): Draft {
    Draft(lines, seq(|lines|, _ => true), end)
  }

  /** The changelog with the fragments inserted, or None when its `[Unreleased]` heading is missing or
      not the only one. */
  function Assemble(lines: seq<string>, fs: seq<Fragment>): Option<seq<string>> {
    var b := UnreleasedBounds(lines);
    if b.None? then None
    else Some(AddSections(Fresh(lines, b.value.end), b.value.start, fs, |SECTIONS|).lines)
  }

  /** Splice section by section, tracking the end of the block. */
  method AssembleText(text: seq<string>, fs: seq<Fragment>) returns (r: Option<seq<string>>)
    ensures r == Assemble(text, fs)
  {
    hide Place, Chosen, UnreleasedBounds;
    var b := UnreleasedBounds(text);
    if b.None? {
      return None;
    }
    var lines, end := text, b.value.end;
    ghost var d := Fresh(text, end);
    for n := 0 to |SECTIONS|
      invariant DraftOk(Fresh(text, b.value.end), b.value.start)
      invariant d == AddSections(Fresh(text, b.value.end), b.value.start, fs, n) && DraftOk(d, b.value.start)
      invariant lines == d.lines && end == d.end
    {
      var heading := SECTIONS[n];
      var bodies := Chosen(fs, heading);
      var block := [];
      for i := 0 to |bodies|
        invariant block == Block(bodies[..i])
      {
        assert bodies[..i + 1][..i] == bodies[..i];
        block := block + bodies[i].body + [""];
      }
      assert bodies[..|bodies|] == bodies;
      d := AddSection(d, b.value.start, fs, heading);
      if block != [] {
        var p := Place(lines, Bounds(b.value.start, end), heading, block);
        lines := lines[..p.at] + p.insert + lines[p.at..];
        end := end + |p.insert|;
      }
    }
    r := Some(lines);
  }

  // ----- what assembling keeps -----

  /** The lines a mask selects. */
  function Select(lines: seq<string>, mask: seq<bool>): seq<string>
    requires |lines| == |mask|
  {
    if lines == [] then []
    else Select(lines[..|lines| - 1], mask[..|lines| - 1]) + (if mask[|lines| - 1] then [lines[|lines| - 1]] else [])
  }

  lemma {:induction false} SelectAppend(a: seq<string>, m: seq<bool>, b: seq<string>, n: seq<bool>)
    requires |a| == |m| && |b| == |n|
    ensures Select(a + b, m + n) == Select(a, m) + Select(b, n)
    decreases |b|
  {
    if b == [] {
      assert a + b == a && m + n == m;
    } else {
      var k := |b| - 1;
      SelectAppend(a, m, b[..k], n[..k]);
      assert (a + b)[..|a + b| - 1] == a + b[..k] && (m + n)[..|a + b| - 1] == m + n[..k];
    }
  }

  lemma {:induction false} SelectNone(a: seq<string>, m: seq<bool>)
    requires |a| == |m| && forall k :: 0 <= k < |m| ==> !m[k]
    ensures Select(a, m) == []
    decreases |a|
  {
    if a != [] {
      SelectNone(a[..|a| - 1], m[..|a| - 1]);
    }
  }

  lemma {:induction false} SelectAll(a: seq<string>, m: seq<bool>)
    requires |a| == |m| && forall k :: 0 <= k < |m| ==> m[k]
    ensures Select(a, m) == a
    decreases |a|
  {
    if a != [] {
      SelectAll(a[..|a| - 1], m[..|a| - 1]);
      assert a == a[..|a| - 1] + [a[|a| - 1]];
    }
  }

  lemma SpliceKeeps(d: Draft, p: Splice)
    requires p.at <= |d.lines| == |d.kept|
    ensures var r := SpliceIn(d, p); |r.lines| == |r.kept| && Select(r.lines, r.kept) == Select(d.lines, d.kept)
  {
    hide Select;
    var head, tail := d.lines[..p.at], d.lines[p.at..];
    var mh, mt, mi := d.kept[..p.at], d.kept[p.at..], seq(|p.insert|, _ => false);
    assert d.lines == head + tail && d.kept == mh + mt;
    SelectAppend(head, mh, tail, mt);
    SelectAppend(head + p.insert, mh + mi, tail, mt);
    SelectAppend(head, mh, p.insert, mi);
    SelectNone(p.insert, mi);
  }

  /** Everything outside the block is where it was, and the old lines are all there in order. */
  predicate Conserves(lines: seq<string>, b: Bounds, d: Draft)
    requires b.start < b.end <= |lines|
  {
    && DraftOk(d, b.start)
    && Select(d.lines, d.kept) == lines
    && d.lines[..b.start + 1] == lines[..b.start + 1]
    && d.lines[d.end..] == lines[b.end..]
  }

  lemma {:induction false} SectionsConserve(lines: seq<string>, b: Bounds, fs: seq<Fragment>, n: nat)
    requires b.start < b.end <= |lines| && (b.end < |lines| ==> !IsBlank(lines[b.end])) && n <= |SECTIONS|
    ensures Conserves(lines, b, AddSections(Fresh(lines, b.end), b.start, fs, n))
    decreases n
  {
    if n == 0 {
      SelectAll(lines, seq(|lines|, _ => true));
    } else {
      SectionsConserve(lines, b, fs, n - 1);
      SectionConserves(lines, b, AddSections(Fresh(lines, b.end), b.start, fs, n - 1), fs, SECTIONS[n - 1]);
    }
  }

  lemma SectionConserves(lines: seq<string>, b: Bounds, d: Draft, fs: seq<Fragment>, s: Section)
    requires b.start < b.end <= |lines| && Conserves(lines, b, d)
    ensures Conserves(lines, b, AddSection(d, b.start, fs, s))
  {
    hide Place, Chosen, Block, Select;
    var block := Block(Chosen(fs, s));
    if block != [] {
      var p := Place(d.lines, Bounds(b.start, d.end), s, block);
      SpliceKeeps(d, p);
      var r := SpliceIn(d, p);
      assert r.lines[..b.start + 1] == d.lines[..b.start + 1];
      assert r.lines[r.end..] == d.lines[d.end..];
    }
  }

  // ----- where bodies end up -----

  predicate AllBodiesOk(fs: seq<Fragment>) {
    forall f :: f in fs ==> BodyOk(f.body)
  }

  /** A block of bodies holds no heading and ends with a line of text and a blank one. */
  predicate BlockOk(block: seq<string>) {
    && |block| >= 2 && !IsBlank(block[|block| - 2])
    && forall k :: 0 <= k < |block| ==> !IsHeading(block[k])
  }

  lemma {:induction false} BlocksOk(fs: seq<Fragment>)
    requires AllBodiesOk(fs) && fs != []
    ensures BlockOk(Block(fs))
    decreases |fs|
  {
    hide IsHeading, IsBlank;
    var init, last := fs[..|fs| - 1], fs[|fs| - 1];
    assert last in fs;
    assert AllBodiesOk(init);
    EmptyLine();
    if init != [] {
      BlocksOk(init);
    }
  }

  lemma EmptyLine()
    ensures !IsHeading("") && IsBlank("")
  {}

  /** A line that trims to a marker is a heading, and is not blank. */
  lemma {:induction false} MarkerIsHeading(line: string, s: Section)
    requires TrimRight(line) == Marker(s)
    ensures IsHeading(line) && !IsBlank(line)
  {
    TrimRightPrefix(line);
    assert Marker(s)[0] == '#';
    assert line[0] == '#';
    assert TrimLeft(line) == line;
    assert line[..1] == "#";
  }

  lemma {:induction false} TrimRightPrefix(line: string)
    ensures |TrimRight(line)| <= |line| && TrimRight(line) == line[..|TrimRight(line)|]
    decreases |line|
  {
    if line != [] && IsSpace(line[|line| - 1]) {
      TrimRightPrefix(line[..|line| - 1]);
      var n := |TrimRight(line)|;
      assert line[..|line| - 1][..n] == line[..n];
    } else {
      assert line[..|line|] == line;
    }
  }

  /** The section's bodies stand under its heading, behind one blank line, newest first; all of their
      lines are new. */
  predicate PlacedAt(d: Draft, start: nat, s: Section, block: seq<string>, q: nat)
    requires |d.lines| == |d.kept|
  {
    && block != [] && start < q && q + 1 + |block| <= d.end <= |d.lines|
    && TrimRight(d.lines[q]) == Marker(s) && IsBlank(d.lines[q + 1])
    && d.lines[q + 2..q + 1 + |block|] == block[..|block| - 1]
    && forall k :: q + 2 <= k < q + 1 + |block| ==> !d.kept[k]
  }

  lemma SpliceAt(d: Draft, p: Splice, k: nat)
    requires p.at <= |d.lines| == |d.kept|
    ensures var r := SpliceIn(d, p);
      && (k < p.at ==> r.lines[k] == d.lines[k] && r.kept[k] == d.kept[k])
      && (k < |p.insert| ==> r.lines[p.at + k] == p.insert[k] && !r.kept[p.at + k])
      && (p.at <= k < |d.lines| ==> r.lines[k + |p.insert|] == d.lines[k] && r.kept[k + |p.insert|] == d.kept[k])
  {}

  lemma SpliceRange(d: Draft, p: Splice, i: nat, j: nat)
    requires p.at <= |d.lines| == |d.kept| && i <= j <= |p.insert|
    ensures var r := SpliceIn(d, p);
      p.at + j <= |r.lines| == |r.kept| && r.lines[p.at + i..p.at + j] == p.insert[i..j]
      && forall k :: p.at + i <= k < p.at + j ==> !r.kept[k]
  {
    var r := SpliceIn(d, p);
    assert forall k :: i <= k < j ==> r.lines[p.at + k] == p.insert[k];
    assert r.lines[p.at + i..p.at + j] == p.insert[i..j];
  }

  /** A splice that ends with the bodies, behind a heading and a blank line. */
  lemma PlacedBy(d: Draft, start: nat, s: Section, block: seq<string>, p: Splice, i: nat, q: nat)
    requires start < d.end <= |d.lines| == |d.kept| && start < p.at <= d.end && BlockOk(block) && start < q
    requires i + |block| - 1 <= |p.insert| && p.insert[i..i + |block| - 1] == block[..|block| - 1] && q + 2 == p.at + i
    requires var r := SpliceIn(d, p); TrimRight(r.lines[q]) == Marker(s) && IsBlank(r.lines[q + 1])
    ensures PlacedAt(SpliceIn(d, p), start, s, block, q)
  {
    hide TrimRight, Marker, IsBlank, IsHeading;
    SpliceRange(d, p, i, i + |block| - 1);
  }

  lemma InsertEnds(head: seq<string>, block: seq<string>)
    requires block != []
    ensures (head + block)[|head|..|head| + |block| - 1] == block[..|block| - 1]
    ensures (head + block[..|block| - 1])[|head|..|head| + |block| - 1] == block[..|block| - 1]
  {}

  lemma SectionPlaced(d: Draft, start: nat, s: Section, block: seq<string>) returns (q: nat)
    requires DraftOk(d, start) && BlockOk(block)
    ensures |SpliceIn(d, Place(d.lines, Bounds(start, d.end), s, block)).lines| == |SpliceIn(d, Place(d.lines, Bounds(start, d.end), s, block)).kept|
    ensures PlacedAt(SpliceIn(d, Place(d.lines, Bounds(start, d.end), s, block)), start, s, block, q)
  {
    hide IsBlank, TrimRight, Marker, FirstTrimmed, IsHeading, SpliceIn, PlacedAt, Place;
    EmptyLine();
    TrimMarker(s);
    var p := Place(d.lines, Bounds(start, d.end), s, block);
    PlaceCases(d.lines, Bounds(start, d.end), s, block);
    SpliceSizes(d, p);
    var found := FirstTrimmed(d.lines, start + 1, d.end, Marker(s));
    if found.None? {
      q := p.at + 1;
      PlacedNew(d, start, s, block, p);
    } else {
      q := found.value;
      if p.insert == block {
        PlacedOnBlank(d, start, s, block, q);
      } else {
        PlacedBehind(d, start, s, block, q);
      }
    }
  }

  lemma PlacedNew(d: Draft, start: nat, s: Section, block: seq<string>, p: Splice)
    requires start < d.end <= |d.lines| == |d.kept| && start < p.at <= d.end && BlockOk(block)
    requires p.insert == ["", Marker(s), ""] + block[..|block| - 1] && TrimRight(Marker(s)) == Marker(s) && IsBlank("")
    ensures |SpliceIn(d, p).lines| == |SpliceIn(d, p).kept| && PlacedAt(SpliceIn(d, p), start, s, block, p.at + 1)
  {
    hide IsBlank, TrimRight, Marker, IsHeading, SpliceIn, PlacedAt;
    SpliceSizes(d, p);
    SpliceEnd(d, p);
    InsertEnds(["", Marker(s), ""], block);
    SpliceAt(d, p, 1);
    SpliceAt(d, p, 2);
    PlacedBy(d, start, s, block, p, 3, p.at + 1);
  }

  lemma PlacedOnBlank(d: Draft, start: nat, s: Section, block: seq<string>, q: nat)
    requires start < q && q + 1 < d.end <= |d.lines| == |d.kept| && BlockOk(block)
    requires TrimRight(d.lines[q]) == Marker(s) && IsBlank(d.lines[q + 1])
    ensures var p := Splice(q + 2, block); |SpliceIn(d, p).lines| == |SpliceIn(d, p).kept| && PlacedAt(SpliceIn(d, p), start, s, block, q)
  {
    hide IsBlank, TrimRight, Marker, IsHeading, SpliceIn, PlacedAt;
    var p := Splice(q + 2, block);
    SpliceSizes(d, p);
    SpliceEnd(d, p);
    SpliceAt(d, p, q);
    SpliceAt(d, p, q + 1);
    PlacedBy(d, start, s, block, p, 0, q);
  }

  lemma PlacedBehind(d: Draft, start: nat, s: Section, block: seq<string>, q: nat)
    requires start < q < d.end <= |d.lines| == |d.kept| && BlockOk(block)
    requires TrimRight(d.lines[q]) == Marker(s) && IsBlank("")
    ensures var p := Splice(q + 1, [""] + block); |SpliceIn(d, p).lines| == |SpliceIn(d, p).kept| && PlacedAt(SpliceIn(d, p), start, s, block, q)
  {
    hide IsBlank, TrimRight, Marker, IsHeading, SpliceIn, PlacedAt;
    var p := Splice(q + 1, [""] + block);
    SpliceSizes(d, p);
    SpliceEnd(d, p);
    SpliceAt(d, p, q);
    SpliceAt(d, p, 0);
    InsertEnds([""], block);
    PlacedBy(d, start, s, block, p, 1, q);
  }

  /** The three ways a section is placed. */
  lemma PlaceCases(lines: seq<string>, b: Bounds, s: Section, block: seq<string>)
    requires b.start < b.end <= |lines| && (b.end < |lines| ==> !IsBlank(lines[b.end])) && block != []
    ensures var p, found := Place(lines, b, s, block), FirstTrimmed(lines, b.start + 1, b.end, Marker(s));
      && (found.None? ==>
            p.insert == ["", Marker(s), ""] + block[..|block| - 1] && forall k :: p.at <= k < b.end ==> IsBlank(lines[k]))
      && (found.Some? ==>
            || (p == Splice(found.value + 2, block) && found.value + 1 < b.end && IsBlank(lines[found.value + 1]))
            || p == Splice(found.value + 1, [""] + block))
  {
    hide IsBlank, TrimRight, Marker;
  }

  lemma SpliceSizes(d: Draft, p: Splice)
    requires p.at <= |d.lines| == |d.kept|
    ensures |SpliceIn(d, p).lines| == |SpliceIn(d, p).kept|
  {}

  lemma TrimMarker(s: Section)
    ensures TrimRight(Marker(s)) == Marker(s)
  {
    var m := Marker(s);
    assert !IsSpace(m[|m| - 1]) by {
      match s
      case Added => assert m == "### Added";
      case Changed => assert m == "### Changed";
      case Deprecated => assert m == "### Deprecated";
      case Removed => assert m == "### Removed";
      case Fixed => assert m == "### Fixed";
      case Security => assert m == "### Security";
    }
  }

  lemma MarkersDiffer(s: Section, t: Section)
    requires s != t
    ensures Marker(s) != Marker(t)
  {
    assert Marker(s)[4..] == Title(s) && Marker(t)[4..] == Title(t);
  }

  /** The lines of a block in the text hold no heading, and the last line of text is not blank. */
  lemma BlockLines(d: Draft, q: nat, block: seq<string>)
    requires BlockOk(block) && q + 1 + |block| <= |d.lines| && d.lines[q + 2..q + 1 + |block|] == block[..|block| - 1]
    ensures forall k :: q + 2 <= k < q + 1 + |block| ==> !IsHeading(d.lines[k])
    ensures !IsBlank(d.lines[q + |block|])
  {
    hide IsHeading, IsBlank;
    forall k | q + 2 <= k < q + 1 + |block|
      ensures d.lines[k] == block[k - (q + 2)]
    {
      assert d.lines[k] == d.lines[q + 2..q + 1 + |block|][k - (q + 2)];
    }
  }

  /** A later section is spliced in before a placed block's heading or behind its last line of text. */
  lemma PlaceAvoids(d: Draft, start: nat, s: Section, block: seq<string>, q: nat, t: Section, other: seq<string>)
    requires DraftOk(d, start) && PlacedAt(d, start, s, block, q) && BlockOk(block) && s != t && other != []
    ensures var p := Place(d.lines, Bounds(start, d.end), t, other); p.at <= q || q + 1 + |block| <= p.at
  {
    hide IsBlank, TrimRight, Marker, FirstTrimmed, IsHeading, Place, DraftOk;
    DraftBounds(d, start);
    var found := FirstTrimmed(d.lines, start + 1, d.end, Marker(t));
    PlaceCases(d.lines, Bounds(start, d.end), t, other);
    BlockLines(d, q, block);
    if found.Some? {
      MarkerApart(d, s, block, q, t, found.value);
    }
  }

  /** The first heading of another section is neither a placed heading nor in its block. */
  lemma MarkerApart(d: Draft, s: Section, block: seq<string>, q: nat, t: Section, f: nat)
    requires q + 1 + |block| <= |d.lines| && f < |d.lines| && s != t && block != []
    requires TrimRight(d.lines[q]) == Marker(s) && IsBlank(d.lines[q + 1]) && TrimRight(d.lines[f]) == Marker(t)
    requires forall k :: q + 2 <= k < q + 1 + |block| ==> !IsHeading(d.lines[k])
    ensures f < q || q + 1 + |block| <= f
    ensures !IsBlank(d.lines[q])
  {
    MarkersDiffer(s, t);
    MarkerIsHeading(d.lines[f], t);
    MarkerIsHeading(d.lines[q], s);
    hide IsBlank, TrimRight, Marker, IsHeading;
  }

  /** A placed block stays placed when another section is spliced in. */
  lemma PlacedStays(d: Draft, start: nat, s: Section, block: seq<string>, q: nat, p: Splice)
    requires start < d.end <= |d.lines| == |d.kept| && PlacedAt(d, start, s, block, q) && start < p.at <= d.end
    requires p.at <= q || q + 1 + |block| <= p.at
    ensures |SpliceIn(d, p).lines| == |SpliceIn(d, p).kept|
    ensures PlacedAt(SpliceIn(d, p), start, s, block, if p.at <= q then q + |p.insert| else q)
  {
    hide TrimRight, Marker, IsBlank, SpliceIn, PlacedAt;
    SpliceSizes(d, p);
    SpliceEnd(d, p);
    var shift := if p.at <= q then |p.insert| else 0;
    assert q + 1 + |block| <= d.end by {
      PlacedWithin(d, start, s, block, q);
    }
    forall k | q <= k < q + 1 + |block|
      ensures SpliceIn(d, p).lines[k + shift] == d.lines[k] && SpliceIn(d, p).kept[k + shift] == d.kept[k]
    {
      SpliceAt(d, p, k);
    }
    PlacedMoves(d, SpliceIn(d, p), start, s, block, q, shift);
  }

  lemma PlacedWithin(d: Draft, start: nat, s: Section, block: seq<string>, q: nat)
    requires |d.lines| == |d.kept| && PlacedAt(d, start, s, block, q)
    ensures block != [] && q + 1 + |block| <= d.end <= |d.lines|
  {}

  lemma PlacedMoves(d: Draft, r: Draft, start: nat, s: Section, block: seq<string>, q: nat, shift: nat)
    requires |d.lines| == |d.kept| && PlacedAt(d, start, s, block, q) && |r.lines| == |r.kept|
    requires d.end + shift <= r.end <= |r.lines|
    requires forall k :: q <= k < q + 1 + |block| ==> r.lines[k + shift] == d.lines[k] && r.kept[k + shift] == d.kept[k]
    ensures PlacedAt(r, start, s, block, q + shift)
  {
    hide TrimRight, Marker, IsBlank;
    assert r.lines[q + shift] == d.lines[q] && r.lines[q + 1 + shift] == d.lines[q + 1];
    SameRange(d.lines, r.lines, q + 2, q + 1 + |block|, shift);
    forall k | q + shift + 2 <= k < q + shift + 1 + |block|
      ensures !r.kept[k]
    {
      assert r.kept[(k - shift) + shift] == d.kept[k - shift];
    }
  }

  lemma SameRange(a: seq<string>, b: seq<string>, i: nat, j: nat, shift: nat)
    requires i <= j <= |a| && j + shift <= |b| && forall k :: i <= k < j ==> b[k + shift] == a[k]
    ensures b[i + shift..j + shift] == a[i..j]
  {}

  lemma SpliceEnd(d: Draft, p: Splice)
    requires p.at <= |d.lines| == |d.kept|
    ensures var r := SpliceIn(d, p); r.end == d.end + |p.insert| && |r.lines| == |d.lines| + |p.insert|
  {}

  /** Every section with fragments has its block placed. */
  ghost predicate AllPlaced(d: Draft, start: nat, fs: seq<Fragment>, n: nat)
    requires n <= |SECTIONS| && |d.lines| == |d.kept|
  {
    forall i :: 0 <= i < n && Chosen(fs, SECTIONS[i]) != [] ==> IsPlaced(d, start, SECTIONS[i], Block(Chosen(fs, SECTIONS[i])))
  }

  ghost predicate IsPlaced(d: Draft, start: nat, s: Section, block: seq<string>)
    requires |d.lines| == |d.kept|
  {
    exists q :: PlacedAt(d, start, s, block, q)
  }

  lemma ChosenBodies(fs: seq<Fragment>, s: Section)
    requires Named(fs) && AllBodiesOk(fs)
    ensures AllBodiesOk(Chosen(fs, s)) && (Chosen(fs, s) != [] ==> BlockOk(Block(Chosen(fs, s))))
    ensures Chosen(fs, s) == [] <==> Block(Chosen(fs, s)) == []
  {
    ChosenStrict(fs, s);
    hide Chosen, Before;
    if Chosen(fs, s) != [] {
      BlocksOk(Chosen(fs, s));
    }
  }

  lemma {:induction false} SectionsPlaced(lines: seq<string>, b: Bounds, fs: seq<Fragment>, n: nat)
    requires b.start < b.end <= |lines| && (b.end < |lines| ==> !IsBlank(lines[b.end])) && n <= |SECTIONS|
    requires Named(fs) && AllBodiesOk(fs)
    ensures AllPlaced(AddSections(Fresh(lines, b.end), b.start, fs, n), b.start, fs, n)
    decreases n
  {
    hide AddSection, IsPlaced, Chosen, Named, AllBodiesOk, IsBlank;
    if n > 0 {
      var d := AddSections(Fresh(lines, b.end), b.start, fs, n - 1);
      SectionsPlaced(lines, b, fs, n - 1);
      SectionAdded(d, b.start, fs, n);
    }
  }

  lemma SectionAdded(d: Draft, start: nat, fs: seq<Fragment>, n: nat)
    requires DraftOk(d, start) && 0 < n <= |SECTIONS| && Named(fs) && AllBodiesOk(fs) && AllPlaced(d, start, fs, n - 1)
    ensures AllPlaced(AddSection(d, start, fs, SECTIONS[n - 1]), start, fs, n)
  {
    hide PlacedAt, Chosen, Block, Place, SpliceIn, BlockOk, DraftOk;
    var s := SECTIONS[n - 1];
    var block := Block(Chosen(fs, s));
    ChosenBodies(fs, s);
    DraftBounds(d, start);
    if block != [] {
      var p := Place(d.lines, Bounds(start, d.end), s, block);
      var last := SectionPlaced(d, start, s, block);
      SpliceSizes(d, p);
      forall i | 0 <= i < n && Chosen(fs, SECTIONS[i]) != []
        ensures IsPlaced(SpliceIn(d, p), start, SECTIONS[i], Block(Chosen(fs, SECTIONS[i])))
      {
        if i < n - 1 {
          ChosenBodies(fs, SECTIONS[i]);
          var other := Block(Chosen(fs, SECTIONS[i]));
          var q :| PlacedAt(d, start, SECTIONS[i], other, q);
          SectionsDiffer(i, n - 1);
          PlaceAvoids(d, start, SECTIONS[i], other, q, s, block);
          PlacedStays(d, start, SECTIONS[i], other, q, p);
        }
      }
    }
  }

  lemma DraftBounds(d: Draft, start: nat)
    requires DraftOk(d, start)
    ensures start < d.end <= |d.lines| == |d.kept| && (d.end < |d.lines| ==> !IsBlank(d.lines[d.end]))
  {}

  lemma SectionsDiffer(i: nat, j: nat)
    requires i < j < |SECTIONS|
    ensures SECTIONS[i] != SECTIONS[j]
  {}

  /** Assembly conserves the text: with the new lines taken out the old text remains, everything outside
      the `[Unreleased]` block is in place, and each section's fragments stand, newest first and then
      by slug, under its heading as new lines. */
  lemma AssemblyConserves(lines: seq<string>, fs: seq<Fragment>) returns (d: Draft)
    requires Assemble(lines, fs).Some? && Named(fs) && AllBodiesOk(fs)
    ensures UnreleasedBounds(lines).Some? && d.lines == Assemble(lines, fs).value
    ensures Conserves(lines, UnreleasedBounds(lines).value, d)
    ensures forall i :: 0 <= i < |SECTIONS| ==> Strict(Chosen(fs, SECTIONS[i]))
    ensures AllPlaced(d, UnreleasedBounds(lines).value.start, fs, |SECTIONS|)
  {
    var b := UnreleasedBounds(lines).value;
    d := AddSections(Fresh(lines, b.end), b.start, fs, |SECTIONS|);
    SectionsConserve(lines, b, fs, |SECTIONS|);
    SectionsPlaced(lines, b, fs, |SECTIONS|);
    forall i | 0 <= i < |SECTIONS|
      ensures Strict(Chosen(fs, SECTIONS[i]))
    {
      ChosenStrict(fs, SECTIONS[i]);
    }
  }

  /** Each section adds exactly its bodies, each once with a blank line behind it, and no more than the
      heading it lacked and the blank lines around it. */
  lemma SectionAddsOnce(d: Draft, start: nat, fs: seq<Fragment>, s: Section) returns (filler: seq<string>)
    requires DraftOk(d, start) && Named(fs) && AllBodiesOk(fs)
    ensures filler == [] || filler == [""]
        || (filler == ["", Marker(s)] && forall k :: start < k < d.end ==> TrimRight(d.lines[k]) != Marker(s))
    ensures multiset(AddSection(d, start, fs, s).lines) == multiset(d.lines) + multiset(Block(Chosen(fs, s))) + multiset(filler)
  {
    hide IsHeading, IsBlank, Chosen, Block, Marker, TrimRight, FirstTrimmed, Place, SpliceIn, BlockOk, Named, AllBodiesOk;
    ChosenBodies(fs, s);
    var block := Block(Chosen(fs, s));
    filler := [];
    if block != [] {
      BlockEnds(Chosen(fs, s));
      filler := FillerOf(d, start, fs, s, block);
    }
  }

  lemma FillerOf(d: Draft, start: nat, fs: seq<Fragment>, s: Section, block: seq<string>) returns (filler: seq<string>)
    requires DraftOk(d, start) && block != [] && block == Block(Chosen(fs, s)) && block[|block| - 1] == ""
    ensures filler == [] || filler == [""]
        || (filler == ["", Marker(s)] && forall k :: start < k < d.end ==> TrimRight(d.lines[k]) != Marker(s))
    ensures multiset(AddSection(d, start, fs, s).lines) == multiset(d.lines) + multiset(block) + multiset(filler)
  {
    hide IsHeading, IsBlank, Chosen, Block, Marker, TrimRight, FirstTrimmed, Place, SpliceIn;
    var p := Place(d.lines, Bounds(start, d.end), s, block);
    PlaceCases(d.lines, Bounds(start, d.end), s, block);
    SpliceBag(d, p);
    filler := [];
    if p.insert == block {
      NoBag(block);
    } else if p.insert == [""] + block {
      filler := [""];
    } else {
      filler := ["", Marker(s)];
      BagOf(block, Marker(s));
    }
  }

  lemma NoBag(block: seq<string>)
    ensures multiset(block) + multiset([]) == multiset(block)
  {}

  lemma BagOf(block: seq<string>, m: string)
    requires block != [] && block[|block| - 1] == ""
    ensures multiset(["", m, ""] + block[..|block| - 1]) == multiset(block) + multiset(["", m])
  {
    assert block == block[..|block| - 1] + [""];
  }

  lemma SpliceBag(d: Draft, p: Splice)
    requires p.at <= |d.lines| == |d.kept|
    ensures multiset(SpliceIn(d, p).lines) == multiset(d.lines) + multiset(p.insert)
  {
    assert d.lines == d.lines[..p.at] + d.lines[p.at..];
  }

  lemma BlockEnds(fs: seq<Fragment>)
    requires fs != []
    ensures Block(fs) != [] && Block(fs)[|Block(fs)| - 1] == ""
  {}

  /** The result does not depend on the order fragments were loaded in. */
  lemma AssemblyIgnoresLoadOrder(lines: seq<string>, fs: seq<Fragment>, gs: seq<Fragment>)
    requires Named(fs) && Named(gs) && forall f :: f in fs <==> f in gs
    ensures Assemble(lines, fs) == Assemble(lines, gs)
  {
    var b := UnreleasedBounds(lines);
    if b.Some? {
      SectionsSame(Fresh(lines, b.value.end), b.value.start, fs, gs, |SECTIONS|);
    }
  }

  lemma {:induction false} SectionsSame(d: Draft, start: nat, fs: seq<Fragment>, gs: seq<Fragment>, n: nat)
    requires DraftOk(d, start) && n <= |SECTIONS| && Named(fs) && Named(gs) && forall f :: f in fs <==> f in gs
    ensures AddSections(d, start, fs, n) == AddSections(d, start, gs, n)
    decreases n
  {
    hide AddSection, Chosen, DraftOk, Named;
    if n > 0 {
      SectionsSame(d, start, fs, gs, n - 1);
      LoadOrderIrrelevant(fs, gs, SECTIONS[n - 1]);
      SectionSame(AddSections(d, start, fs, n - 1), start, fs, gs, SECTIONS[n - 1]);
    }
  }

  lemma SectionSame(d: Draft, start: nat, fs: seq<Fragment>, gs: seq<Fragment>, s: Section)
    requires DraftOk(d, start) && Chosen(fs, s) == Chosen(gs, s)
    ensures AddSection(d, start, fs, s) == AddSection(d, start, gs, s)
  {
    hide Place, SpliceIn, Chosen, Block;
  }
}
