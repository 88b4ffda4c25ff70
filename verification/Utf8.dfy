/** UTF-8 validity (section 4 of RFC 3629), as `String::from_utf8` checks it. */
module Utf8 {
  import opened Bits

  predicate Tail(s: seq<byte>, i: nat, lo: byte, hi: byte) { i < |s| && lo <= s[i] <= hi }

  /** The length of the character at the front, or 0 when there is none. */
  function CharLen(s: seq<byte>): (n: nat)
    requires s != []
    ensures n <= |s|
  {
    var b := s[0];
    if b < 0x80 then 1
    else if 0xC2 <= b < 0xE0 then
      if Tail(s, 1, 0x80, 0xBF) then 2 else 0
    else if 0xE0 <= b < 0xF0 then
      var lo := if b == 0xE0 then 0xA0 else 0x80;
      var hi := if b == 0xED then 0x9F else 0xBF;
      if Tail(s, 1, lo, hi) && Tail(s, 2, 0x80, 0xBF) then 3 else 0
    else if 0xF0 <= b < 0xF5 then
      var lo := if b == 0xF0 then 0x90 else 0x80;
      var hi := if b == 0xF4 then 0x8F else 0xBF;
      if Tail(s, 1, lo, hi) && Tail(s, 2, 0x80, 0xBF) && Tail(s, 3, 0x80, 0xBF) then 4 else 0
    else 0
  }

  predicate Valid(s: seq<byte>)
    decreases |s|
  {
    s == [] || (CharLen(s) > 0 && Valid(s[CharLen(s)..]))
  }

  lemma {:induction false} ValidConcat(a: seq<byte>, b: seq<byte>)
    requires Valid(a)
    ensures Valid(a + b) <==> Valid(b)
    decreases |a|
  {
    if a == [] {
      assert a + b == b;
    } else {
      var n := CharLen(a);
      assert CharLen(a + b) == n;
      assert (a + b)[n..] == a[n..] + b;
      ValidConcat(a[n..], b);
    }
  }

  /** Text can be split at an ASCII byte, and joined there. */
  lemma {:induction false} ValidSplit(a: seq<byte>, c: byte, b: seq<byte>)
    requires c < 0x80
    ensures Valid(a + [c] + b) <==> Valid(a) && Valid(b)
    decreases |a|
  {
    var s := a + [c] + b;
    if a == [] {
      assert s == [c] + b && s[1..] == b;
    } else {
      assert CharLen(s) == CharLen(a) by {
        assert forall i | 0 <= i < |a| :: s[i] == a[i];
        assert s[|a|] == c;
      }
      var n := CharLen(a);
      if n > 0 {
        assert s[n..] == a[n..] + [c] + b;
        ValidSplit(a[n..], c, b);
      }
    }
  }

  predicate Ascii(s: seq<byte>) { forall i | 0 <= i < |s| :: s[i] < 0x80 }

  lemma {:induction false} AsciiIsValid(s: seq<byte>)
    requires Ascii(s)
    ensures Valid(s)
    decreases |s|
  {
    if s != [] { AsciiIsValid(s[1..]); }
  }

  // ---- Which texts they are ----

  /** A Unicode scalar value: a code point that is no surrogate. */
  predicate Scalar(c: nat) { c < 0x11_0000 && !(0xD800 <= c < 0xE000) }

  /** Its encoding, in as few bytes as hold it (section 3 of RFC 3629). */
  function CharBytes(c: nat): (s: seq<byte>)
    requires Scalar(c)
    ensures s != []
  {
    if c < 0x80 then [c]
    else if c < 0x800 then [0xC0 + c / 0x40, 0x80 + c % 0x40]
    else if c < 0x1_0000 then [0xE0 + c / 0x1000, 0x80 + c / 0x40 % 0x40, 0x80 + c % 0x40]
    else [0xF0 + c / 0x4_0000, 0x80 + c / 0x1000 % 0x40, 0x80 + c / 0x40 % 0x40, 0x80 + c % 0x40]
  }

  ghost predicate AllScalar(cs: seq<nat>) { forall c | c in cs :: Scalar(c) }

  function TextBytes(cs: seq<nat>): seq<byte>
    requires AllScalar(cs)
  {
    if cs == [] then [] else CharBytes(cs[0]) + TextBytes(cs[1..])
  }

  lemma CharReads(c: nat, rest: seq<byte>)
    requires Scalar(c)
    ensures CharLen(CharBytes(c) + rest) == |CharBytes(c)|
  {}

  lemma SixBits(high: nat, low: nat, c: nat)
    requires low < 0x40 && c == high * 0x40 + low
    ensures c / 0x40 == high && c % 0x40 == low
  {}

  lemma Apart(c: nat)
    ensures c / 0x1000 == c / 0x40 / 0x40 && c / 0x4_0000 == c / 0x40 / 0x40 / 0x40
  {}

  lemma TwoBytes(a: nat, b: nat) returns (c: nat)
    requires 2 <= a < 0x20 && b < 0x40
    ensures 0x80 <= c < 0x800 && CharBytes(c) == [0xC0 + a, 0x80 + b]
  {
    c := a * 0x40 + b;
    SixBits(a, b, c);
  }

  lemma ThreeBytes(a: nat, b: nat, d: nat) returns (c: nat)
    requires a < 0x10 && b < 0x40 && d < 0x40 && (a == 0 ==> b >= 0x20) && (a == 0xD ==> b < 0x20)
    ensures 0x800 <= c < 0x1_0000 && Scalar(c) && CharBytes(c) == [0xE0 + a, 0x80 + b, 0x80 + d]
  {
    var high := a * 0x40 + b;
    c := high * 0x40 + d;
    SixBits(a, b, high);
    SixBits(high, d, c);
    Apart(c);
  }

  lemma FourBytes(a: nat, b: nat, d: nat, e: nat) returns (c: nat)
    requires a < 5 && b < 0x40 && d < 0x40 && e < 0x40 && (a == 0 ==> b >= 0x10) && (a == 4 ==> b < 0x10)
    ensures 0x1_0000 <= c && Scalar(c) && CharBytes(c) == [0xF0 + a, 0x80 + b, 0x80 + d, 0x80 + e]
  {
    var high := a * 0x40 + b;
    var more := high * 0x40 + d;
    c := more * 0x40 + e;
    SixBits(a, b, high);
    SixBits(high, d, more);
    SixBits(more, e, c);
    Apart(c);
  }

  /** The code point whose encoding stands at the front. */
  lemma FirstChar(s: seq<byte>) returns (c: nat)
    requires s != [] && CharLen(s) > 0
    ensures Scalar(c) && CharBytes(c) == s[..CharLen(s)]
  {
    var n := CharLen(s);
    if n == 1 {
      c := s[0];
    } else if n == 2 {
      c := TwoBytes(s[0] - 0xC0, s[1] - 0x80);
    } else if n == 3 {
      c := ThreeBytes(s[0] - 0xE0, s[1] - 0x80, s[2] - 0x80);
    } else {
      c := FourBytes(s[0] - 0xF0, s[1] - 0x80, s[2] - 0x80, s[3] - 0x80);
    }
  }

  lemma {:induction false} TextIsValid(cs: seq<nat>)
    requires AllScalar(cs)
    ensures Valid(TextBytes(cs))
    decreases |cs|
  {
    if cs != [] {
      var rest := TextBytes(cs[1..]);
      TextIsValid(cs[1..]);
      CharReads(cs[0], rest);
      assert (CharBytes(cs[0]) + rest)[|CharBytes(cs[0])|..] == rest;
    }
  }

  lemma {:induction false} ValidIsText(s: seq<byte>) returns (cs: seq<nat>)
    requires Valid(s)
    ensures AllScalar(cs) && TextBytes(cs) == s
    decreases |s|
  {
    cs := [];
    if s != [] {
      var c := FirstChar(s);
      var more := ValidIsText(s[CharLen(s)..]);
      cs := [c] + more;
      assert cs[1..] == more && s[..CharLen(s)] + s[CharLen(s)..] == s;
    }
  }

  /** Valid are exactly the encodings of sequences of scalar values. */
  lemma ValidExactly(s: seq<byte>)
    ensures Valid(s) <==> exists cs :: AllScalar(cs) && TextBytes(cs) == s
  {
    if Valid(s) { var cs := ValidIsText(s); }
    forall cs | AllScalar(cs) && TextBytes(cs) == s ensures Valid(s) { TextIsValid(cs); }
  }
}
