/** UTF-8 as section 3 of RFC 3629 encodes it: what `DebugPool` takes for well-formed, by the byte ranges of
    section 4, is exactly what encodes some string, and `Mailbox` counts its bytes. */
module Utf8 {
  import opened Scalars
  import D = DebugPool
  import M = Mailbox

  /** The bits of the character, six at a time behind what fits the first byte. */
  function Octets(c: char): (b: seq<byte>)
    ensures b != []
  {
    var v := c as int;
    if v < 0x80 then [v]
    else if v < 0x800 then [0xC0 + v / 0x40, 0x80 + v % 0x40]
    else if v < 0x1_0000 then [0xE0 + v / 0x1000, 0x80 + v / 0x40 % 0x40, 0x80 + v % 0x40]
    else [0xF0 + v / 0x4_0000, 0x80 + v / 0x1000 % 0x40, 0x80 + v / 0x40 % 0x40, 0x80 + v % 0x40]
  }

  function Encoded(s: string): seq<byte> {
    if s == [] then [] else Octets(s[0]) + Encoded(s[1..])
  }

  // ----- one character -----

  /** What encodes a character is taken for well-formed, whatever follows. */
  lemma OctetsFront(c: char, rest: seq<byte>)
    ensures D.SequenceLength(Octets(c) + rest) == |Octets(c)|
  {
    var v, b := c as int, Octets(c) + rest;
    if v < 0x80 {
    } else if v < 0x800 {
    } else if v < 0x1_0000 {
      assert v / 0x1000 == 0 ==> v / 0x40 % 0x40 >= 0x20;
      assert v / 0x1000 == 0xD ==> v / 0x40 % 0x40 < 0x20;
    } else {
      assert v / 0x4_0000 == 0 ==> v / 0x1000 % 0x40 >= 0x10;
      assert v / 0x4_0000 == 4 ==> v / 0x1000 % 0x40 < 0x10;
    }
  }

  /** The character a well-formed front encodes. */
  function FrontValue(b: seq<byte>): int
    requires b != [] && D.SequenceLength(b) > 0
  {
    match D.SequenceLength(b)
    case 1 => b[0]
    case 2 => Next(Marked(b[0], 0xC0), b[1])
    case 3 => Next(Next(Marked(b[0], 0xE0), b[1]), b[2])
    case _ => Next(Next(Next(Marked(b[0], 0xF0), b[1]), b[2]), b[3])
  }

  function Marked(x: int, mark: int): int {
    x - mark
  }

  /** Six more bits. */
  function Next(v: int, x: int): int {
    v * 0x40 + Marked(x, 0x80)
  }

  lemma NextSplits(v: int, x: int)
    requires 0x80 <= x < 0xC0
    ensures Next(v, x) / 0x40 == v && Next(v, x) % 0x40 == x - 0x80
  {}

  lemma ShiftTwice(v: nat)
    ensures v / 0x40 / 0x40 == v / 0x1000 && v / 0x1000 / 0x40 == v / 0x4_0000
  {}

  lemma FrontIsOctets(b: seq<byte>) returns (c: char)
    requires b != [] && D.SequenceLength(b) > 0
    ensures c as int == FrontValue(b) && Octets(c) == b[..D.SequenceLength(b)]
  {
    var v, n := FrontValue(b), D.SequenceLength(b);
    if n == 1 {
      c := v as char;
      assert Octets(c) == b[..1];
    } else if n == 2 {
      NextSplits(b[0] - 0xC0, b[1]);
      c := v as char;
      assert Octets(c) == b[..2];
    } else if n == 3 {
      var a := Next(b[0] - 0xE0, b[1]);
      FrontOfThree(b);
      NextSplits(b[0] - 0xE0, b[1]);
      NextSplits(a, b[2]);
      ShiftTwice(v);
      c := v as char;
      assert Octets(c) == b[..3];
    } else {
      var a := Next(b[0] - 0xF0, b[1]);
      FrontOfFour(b);
      NextSplits(b[0] - 0xF0, b[1]);
      NextSplits(a, b[2]);
      NextSplits(Next(a, b[2]), b[3]);
      ShiftTwice(v);
      ShiftTwice(v / 0x40);
      c := v as char;
      assert Octets(c) == b[..4];
    }
  }

  /** Neither too short a value for three bytes nor a surrogate. */
  lemma FrontOfThree(b: seq<byte>)
    requires b != [] && D.SequenceLength(b) == 3
    ensures 0x800 <= FrontValue(b) < 0xD800 || 0xE000 <= FrontValue(b) < 0x1_0000
    ensures FrontValue(b) == Next(Next(b[0] - 0xE0, b[1]), b[2])
  {}

  lemma FrontOfFour(b: seq<byte>)
    requires b != [] && D.SequenceLength(b) == 4
    ensures 0x1_0000 <= FrontValue(b) < 0x11_0000
    ensures FrontValue(b) == Next(Next(Next(b[0] - 0xF0, b[1]), b[2]), b[3])
  {}

  lemma OctetsValue(c: char, rest: seq<byte>)
    ensures D.SequenceLength(Octets(c) + rest) == |Octets(c)| && FrontValue(Octets(c) + rest) == c as int
  {
    OctetsFront(c, rest);
    hide D.SequenceLength;
    ShiftTwice(c as int);
    ShiftTwice(c as int / 0x40);
  }

  // ----- strings -----

  lemma {:induction false} EncodedValid(s: string)
    ensures D.ValidUtf8(Encoded(s))
    decreases |s|
  {
    if s != [] {
      OctetsFront(s[0], Encoded(s[1..]));
      EncodedValid(s[1..]);
      assert Encoded(s)[|Octets(s[0])|..] == Encoded(s[1..]);
    }
  }

  lemma {:induction false} ValidEncoded(b: seq<byte>) returns (s: string)
    requires D.ValidUtf8(b)
    ensures Encoded(s) == b
    decreases |b|
  {
    s := [];
    if b != [] {
      var n := D.SequenceLength(b);
      var c := FrontIsOctets(b);
      var t := ValidEncoded(b[n..]);
      s := [c] + t;
      assert s[1..] == t && b == b[..n] + b[n..];
    }
  }

  /** Bytes are taken for well-formed if and only if they encode a string, and then they encode no other. */
  lemma ValidExactly(b: seq<byte>)
    ensures D.ValidUtf8(b) <==> exists s :: Encoded(s) == b
    ensures forall s, t :: Encoded(s) == b && Encoded(t) == b ==> s == t
  {
    if D.ValidUtf8(b) {
      var s := ValidEncoded(b);
    }
    if s :| Encoded(s) == b {
      EncodedValid(s);
    }
    forall s, t | Encoded(s) == b && Encoded(t) == b
      ensures s == t
    {
      EncodedOnce(s, t);
    }
  }

  lemma {:induction false} EncodedOnce(s: string, t: string)
    requires Encoded(s) == Encoded(t)
    ensures s == t
    decreases |s|
  {
    if s != [] && t != [] {
      OctetsValue(s[0], Encoded(s[1..]));
      OctetsValue(t[0], Encoded(t[1..]));
      assert s[0] == t[0];
      assert Encoded(s)[|Octets(s[0])|..] == Encoded(s[1..]) && Encoded(t)[|Octets(t[0])|..] == Encoded(t[1..]);
      EncodedOnce(s[1..], t[1..]);
    }
  }

  // ----- lengths -----

  lemma {:induction false} EncodedAppend(s: string, c: char)
    ensures Encoded(s + [c]) == Encoded(s) + Octets(c)
    decreases |s|
  {
    if s == [] {
      assert s + [c] == [c] && Encoded([]) == [];
      assert Octets(c) + [] == Octets(c);
    } else {
      assert (s + [c])[0] == s[0] && (s + [c])[1..] == s[1..] + [c];
      EncodedAppend(s[1..], c);
    }
  }

  /** The length a message body is measured by is that of its encoding. */
  lemma {:induction false} LengthExactly(s: string)
    ensures M.EncodedLength(s) == |Encoded(s)|
    decreases |s|
  {
    if s != [] {
      var n := |s| - 1;
      LengthExactly(s[..n]);
      EncodedAppend(s[..n], s[n]);
      assert s == s[..n] + [s[n]];
    }
  }
}
