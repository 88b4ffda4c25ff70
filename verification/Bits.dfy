/** Bytes, bit strings (most significant bit first) and big-endian numbers. */
module Bits {

  type byte = b: int | 0 <= b < 256
  type Bit = b: int | 0 <= b < 2

  function Pow2(n: nat): (p: nat)
    ensures p >= 1
  {
    if n == 0 then 1 else 2 * Pow2(n - 1)
  }

  lemma {:induction false} Pow2Add(m: nat, n: nat)
    ensures Pow2(m + n) == Pow2(m) * Pow2(n)
  {
    if m > 0 { Pow2Add(m - 1, n); }
  }

  lemma Pow2Values()
    ensures Pow2(1) == 2 && Pow2(2) == 4 && Pow2(3) == 8 && Pow2(4) == 16 && Pow2(5) == 32 && Pow2(6) == 64
    ensures Pow2(7) == 128 && Pow2(8) == 256
  {
    assert Pow2(4) == 16;
  }

  lemma Pow2_64()
    ensures Pow2(64) == 0x1_0000_0000_0000_0000
  {
    Pow2Values();
    Pow2Add(8, 8);
    Pow2Add(16, 16);
    Pow2Add(32, 32);
  }

  lemma WordSplit(n: nat)
    requires n <= 64
    ensures Pow2(64 - n) * Pow2(n) == 0x1_0000_0000_0000_0000
  {
    Pow2_64();
    Pow2Add(64 - n, n);
  }

  lemma ByteSplit(a: nat, b: nat)
    requires a + b == 8
    ensures Pow2(a) * Pow2(b) == 256
  {
    Pow2Values();
    Pow2Add(a, b);
  }

  lemma ModMod(a: nat, k: nat, d: nat)
    requires k > 0 && d > 0
    ensures k * d > 0 && (a % (k * d)) % d == a % d
  {
    var m := k * d;
    assert m > 0;
    var q, r := a / m, a % m;
    MulAssoc(q, k, d);
    ModUnique(a, q * k, r, d);
  }

  lemma MulAssoc(a: int, b: int, c: int)
    ensures a * (b * c) == (a * b) * c
  {}

  lemma ModUnique(a: int, k: int, r: int, d: int)
    requires d > 0 && a == k * d + r
    ensures a % d == r % d
  {
    var k2 := r / d;
    assert r == k2 * d + r % d;
    assert a == (k + k2) * d + r % d;
    DivModUnique(a, k + k2, r % d, d);
  }

  lemma DivModUnique(a: int, q: int, r: int, d: int)
    requires 0 <= r < d && a == q * d + r
    ensures a / d == q && a % d == r
  {
    var q' := a / d;
    assert a == q' * d + a % d;
    Gap(q, q', d);
    Gap(q', q, d);
  }

  lemma Gap(m: int, n: int, d: int)
    requires d > 0
    ensures m > n ==> m * d >= n * d + d
  {
    if m > n {
      assert m * d == (n + 1) * d + (m - n - 1) * d;
    }
  }

  function ValueOf(s: seq<Bit>): nat {
    if s == [] then 0 else 2 * ValueOf(s[..|s| - 1]) + s[|s| - 1]
  }

  lemma {:induction false} ValueBound(s: seq<Bit>)
    ensures ValueOf(s) < Pow2(|s|)
  {
    if s != [] { ValueBound(s[..|s| - 1]); }
  }

  function BitsOf(v: nat, n: nat): (s: seq<Bit>)
    ensures |s| == n
  {
    if n == 0 then [] else BitsOf(v / 2, n - 1) + [v % 2]
  }

  lemma {:induction false} ValueOfBits(v: nat, n: nat)
    requires v < Pow2(n)
    ensures ValueOf(BitsOf(v, n)) == v
  {
    if n > 0 {
      ValueOfBits(v / 2, n - 1);
      assert BitsOf(v, n)[..n - 1] == BitsOf(v / 2, n - 1);
    }
  }

  lemma {:induction false} BitsOfValue(s: seq<Bit>)
    ensures BitsOf(ValueOf(s), |s|) == s
  {
    if s != [] {
      var (front, last) := (s[..|s| - 1], s[|s| - 1]);
      BitsOfValue(front);
      assert ValueOf(s) / 2 == ValueOf(front) && ValueOf(s) % 2 == last;
      assert front + [last] == s;
    }
  }

  lemma {:induction false} ValueConcat(a: seq<Bit>, b: seq<Bit>)
    ensures ValueOf(a + b) == ValueOf(a) * Pow2(|b|) + ValueOf(b)
  {
    if b == [] {
      assert a + b == a;
    } else {
      var b' := b[..|b| - 1];
      ValueConcat(a, b');
      assert (a + b)[..|a + b| - 1] == a + b' && (a + b)[|a + b| - 1] == b[|b| - 1];
      Shifted(ValueOf(a), Pow2(|b'|), ValueOf(b'), b[|b| - 1]);
      assert Pow2(|b|) == 2 * Pow2(|b'|);
    }
  }

  lemma Shifted(a: nat, p: nat, b: nat, l: nat)
    ensures 2 * (a * p + b) + l == a * (2 * p) + (2 * b + l)
  {}

  function Ones(n: nat): (s: seq<Bit>)
    ensures |s| == n && forall i | 0 <= i < n :: s[i] == 1
  {
    if n == 0 then [] else Ones(n - 1) + [1]
  }

  lemma {:induction false} ValueOfOnes(n: nat)
    ensures ValueOf(Ones(n)) == Pow2(n) - 1
  {
    if n > 0 {
      ValueOfOnes(n - 1);
      assert Ones(n)[..n - 1] == Ones(n - 1);
    }
  }

  // ---- Bytes as eight bits each ----

  lemma ByteBound(s: seq<Bit>)
    requires |s| == 8
    ensures ValueOf(s) < 256
  {
    ValueBound(s);
    Pow2Values();
  }

  function BitsOfBytes(s: seq<byte>): (r: seq<Bit>)
    ensures |r| == 8 * |s|
  {
    if s == [] then [] else BitsOfBytes(s[..|s| - 1]) + BitsOf(s[|s| - 1], 8)
  }

  function BytesOf(s: seq<Bit>): (r: seq<byte>)
    requires |s| % 8 == 0
    ensures 8 * |r| == |s|
  {
    if s == [] then []
    else
      ByteBound(s[|s| - 8..]);
      BytesOf(s[..|s| - 8]) + [ValueOf(s[|s| - 8..])]
  }

  lemma BytesOfPush(s: seq<Bit>, b: seq<Bit>)
    requires |s| % 8 == 0 && |b| == 8
    ensures ValueOf(b) < 256 && BytesOf(s + b) == BytesOf(s) + [ValueOf(b)]
  {
    ByteBound(b);
    assert (s + b)[..|s + b| - 8] == s && (s + b)[|s + b| - 8..] == b;
  }

  lemma {:induction false} BitsOfBytesOf(s: seq<Bit>)
    requires |s| % 8 == 0
    ensures BitsOfBytes(BytesOf(s)) == s
  {
    if s != [] {
      var n := |s| - 8;
      var (front, back) := (s[..n], s[n..]);
      BitsOfBytesOf(front);
      BitsOfValue(back);
      BitsOfBytesPush(BytesOf(front), BytesOf(s)[|BytesOf(s)| - 1]);
      assert front + back == s;
    }
  }

  lemma {:induction false} BytesOfBitsOf(s: seq<byte>)
    ensures BytesOf(BitsOfBytes(s)) == s
  {
    if s != [] {
      var (front, last) := (s[..|s| - 1], s[|s| - 1]);
      BytesOfBitsOf(front);
      ByteOfBits(last);
      BitsOfBytesPush(front, last);
      BytesOfPushed(front, last, BitsOf(last, 8));
      assert front + [last] == s;
    }
  }

  lemma BytesOfPushed(s: seq<byte>, b: byte, w: seq<Bit>)
    requires BytesOf(BitsOfBytes(s)) == s && |w| == 8 && ValueOf(w) == b
    requires BitsOfBytes(s + [b]) == BitsOfBytes(s) + w
    ensures BytesOf(BitsOfBytes(s + [b])) == s + [b]
  {
    BytesOfPush(BitsOfBytes(s), w);
  }

  lemma ByteOfBits(b: byte)
    ensures ValueOf(BitsOf(b, 8)) == b
  {
    Pow2Values();
    ValueOfBits(b, 8);
  }

  lemma BitsOfBytesPush(s: seq<byte>, b: byte)
    ensures BitsOfBytes(s + [b]) == BitsOfBytes(s) + BitsOf(b, 8)
  {
    assert (s + [b])[..|s|] == s;
  }

  /** Bit `k` of a byte, counted from the top, is `(b >> (7 - k)) & 1`. */
  lemma {:induction false} BitAt(v: nat, n: nat, k: nat)
    requires k < n
    ensures BitsOf(v, n)[k] == v / Pow2(n - 1 - k) % 2
  {
    if k < n - 1 {
      BitAt(v / 2, n - 1, k);
      DivDiv(v, Pow2(n - 2 - k));
    }
  }

  lemma DivDiv(v: nat, d: nat)
    requires d > 0
    ensures v / 2 / d == v / (2 * d)
  {
    var q, r := v / 2 / d, v / 2 % d;
    assert v / 2 == q * d + r;
    assert v == q * (2 * d) + (2 * r + v % 2) by { assert q * (2 * d) == 2 * (q * d); }
    DivModUnique(v, q, 2 * r + v % 2, 2 * d);
  }
}
