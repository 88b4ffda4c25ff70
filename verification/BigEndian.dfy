/** Unsigned integers as fixed numbers of bytes, most significant first. */
module BigEndian {
  import opened Bits

  function Limit(n: nat): (r: nat)
    ensures r >= 1
  {
    if n == 0 then 1 else 256 * Limit(n - 1)
  }

  function Value(s: seq<byte>): nat {
    if s == [] then 0 else 256 * Value(s[..|s| - 1]) + s[|s| - 1]
  }

  /** The low `n` bytes of `v`. */
  function Bytes(v: nat, n: nat): (s: seq<byte>)
    ensures |s| == n
  {
    if n == 0 then [] else Bytes(v / 256, n - 1) + [v % 256]
  }

  lemma {:induction false} ValueBound(s: seq<byte>)
    ensures Value(s) < Limit(|s|)
  {
    if s != [] { ValueBound(s[..|s| - 1]); }
  }

  lemma {:induction false} ValueOfBytes(v: nat, n: nat)
    ensures Value(Bytes(v, n)) == v <==> v < Limit(n)
  {
    if n > 0 {
      ValueOfBytes(v / 256, n - 1);
      assert Bytes(v, n)[..n - 1] == Bytes(v / 256, n - 1);
    }
  }

  lemma {:induction false} BytesOfValue(s: seq<byte>)
    ensures Bytes(Value(s), |s|) == s
  {
    if s != [] {
      var (front, last) := (s[..|s| - 1], s[|s| - 1]);
      BytesOfValue(front);
      assert Value(s) / 256 == Value(front) && Value(s) % 256 == last;
      assert front + [last] == s;
    }
  }

  lemma Limits()
    ensures Limit(1) == 0x100 && Limit(2) == 0x1_0000 && Limit(3) == 0x100_0000 && Limit(4) == 0x1_0000_0000
  {
    assert Limit(2) == 256 * Limit(1) && Limit(3) == 256 * Limit(2);
  }

  /** The first byte counts most. */
  lemma {:induction false} MostSignificantFirst(b: byte, s: seq<byte>)
    ensures Value([b] + s) == b * Limit(|s|) + Value(s)
  {
    var all := [b] + s;
    if s == [] {
      assert all[..0] == [];
    } else {
      var (front, last) := (s[..|s| - 1], s[|s| - 1]);
      MostSignificantFirst(b, front);
      assert all[..|all| - 1] == [b] + front;
      Shifted(b, Limit(|front|), Value(front));
    }
  }

  lemma Shifted(b: nat, limit: nat, v: nat)
    ensures 256 * (b * limit + v) == b * (256 * limit) + 256 * v
  {}

  // ---- Two bytes, spelled out ----

  function U16At(s: seq<byte>, i: nat): (v: nat)
    requires i + 2 <= |s|
    ensures v < 0x1_0000
  {
    (s[i] as int) * 256 + s[i + 1]
  }

  function U16(v: nat): (s: seq<byte>)
    ensures |s| == 2
    ensures v < 0x1_0000 ==> U16At(s, 0) == v
  {
    [v / 256 % 256, v % 256]
  }

  lemma U16Is(s: seq<byte>, i: nat, v: nat)
    ensures i + 2 <= |s| ==> U16At(s, i) == Value(s[i..i + 2])
    ensures U16(v) == Bytes(v, 2)
  {
    if i + 2 <= |s| {
      var t := s[i..i + 2];
      assert t[..1][..0] == [] && Value(t[..1]) == t[0];
    }
    assert Bytes(v / 256, 1) == [v / 256 % 256];
  }
}
