/** Prefixed integers (section 5.1 of RFC 7541), shared by HPACK and QPACK.

    The flag bits lie above the prefix, so the source's `flags | v` is written `flags + v`. */
module HpackInt {
  import opened Wrappers
  import opened Bits

  const U64: nat := 0x1_0000_0000_0000_0000
  const MAX_SHIFT: nat := 63
  const TOO_FAR: nat := 0x8000_0000_0000_0000

  function Mask(prefix: nat): nat
  {
    Pow2(prefix) - 1
  }

  ghost predicate FlagsFit(prefix: nat, flags: nat) {
    1 <= prefix <= 8 && flags + Pow2(prefix) <= 256
  }

  /** The flag bits lie above the prefix. */
  ghost predicate ClearBelow(prefix: nat, flags: nat) { forall p: nat | p == Pow2(prefix) :: Clear(flags, p) }

  ghost predicate Clear(flags: nat, p: nat) { p > 0 && flags % p == 0 }

  function Continuation(v: nat): seq<byte> {
    if v >= 0x80 then [v % 0x80 + 0x80] + Continuation(v / 0x80) else [v]
  }

  /** `v` behind the given flag bits. */
  function Written(v: nat, prefix: nat, flags: nat): (r: seq<byte>)
    requires FlagsFit(prefix, flags)
    ensures r != [] && flags <= r[0] < flags + Pow2(prefix)
  {
    if v < Mask(prefix) then [flags + v] else [flags + Mask(prefix)] + Continuation(v - Mask(prefix))
  }

  /** `(b & 0x7f) << shift` */
  function Septet(b: nat, shift: nat): nat { b % 0x80 * Pow2(shift) }

  /** The rest of an integer: what has been read so far, and how far the next seven bits are shifted. */
  function ReadMore(buf: seq<byte>, value: nat, shift: nat): (r: Option<(nat, seq<byte>)>)
    ensures r.Some? ==> |r.value.1| < |buf| && r.value.0 < U64
    decreases |buf|
  {
    if buf == [] || shift >= MAX_SHIFT then None
    else
      var next := value + Septet(buf[0], shift);
      if next >= U64 then None
      else if buf[0] < 0x80 then Some((next, buf[1..]))
      else ReadMore(buf[1..], next, shift + 7)
  }

  /** The integer at the front of `buf` and what follows it. */
  function Read(buf: seq<byte>, prefix: nat): (r: Option<(nat, seq<byte>)>)
    requires 1 <= prefix <= 8
    ensures r.Some? ==> |r.value.1| < |buf| && r.value.0 < U64
  {
    MaskBound(prefix);
    if buf == [] then None
    else
      var first := buf[0] % Pow2(prefix);
      if first < Mask(prefix) then Some((first, buf[1..])) else ReadMore(buf[1..], Mask(prefix), 0)
  }

  lemma MaskBound(prefix: nat)
    requires 1 <= prefix <= 8
    ensures 1 <= Mask(prefix) < 256
  {
    Pow2Values();
  }

  lemma FirstBits(prefix: nat, flags: nat, low: nat)
    requires FlagsFit(prefix, flags) && ClearBelow(prefix, flags) && low < Pow2(prefix)
    ensures (flags + low) % Pow2(prefix) == low
  {
    assert Clear(flags, Pow2(prefix));
    LowBits(flags, low, Pow2(prefix));
  }

  lemma LowBits(flags: nat, low: nat, p: nat)
    requires p > 0 && flags % p == 0 && low < p
    ensures (flags + low) % p == low
  {
    assert flags == flags / p * p;
    DivModUnique(flags + low, flags / p, low, p);
  }

  /** What the bytes of a continuation add up to. */
  function Sum(v: nat, shift: nat): nat {
    Septet(v, shift) + if v < 0x80 then 0 else Sum(v / 0x80, shift + 7)
  }

  lemma {:induction false} SumIsShifted(v: nat, shift: nat)
    ensures Sum(v, shift) == v * Pow2(shift)
  {
    if v >= 0x80 {
      SumIsShifted(v / 0x80, shift + 7);
      var p := Pow2(shift);
      Pow2Seven(shift);
      assert v == v % 0x80 + 0x80 * (v / 0x80);
      Spread(v % 0x80, v / 0x80, p);
    }
  }

  lemma Spread(a: nat, b: nat, p: nat)
    ensures (a + 0x80 * b) * p == a * p + b * (0x80 * p)
  {}

  lemma Pow2Seven(shift: nat)
    ensures Pow2(shift + 7) == 0x80 * Pow2(shift)
  {
    Pow2Values();
    Pow2Add(7, shift);
  }

  /** Whether a continuation ends before its shift passes the last place. */
  predicate Ends(v: nat, shift: nat) {
    shift < MAX_SHIFT && (v < 0x80 || Ends(v / 0x80, shift + 7))
  }

  lemma {:induction false} EndsWhen(v: nat, shift: nat, left: nat)
    requires shift + 7 * left == MAX_SHIFT
    ensures Ends(v, shift) <==> left > 0 && v < Pow2(7 * left)
    decreases left
  {
    if left > 0 {
      EndsWhen(v / 0x80, shift + 7, left - 1);
      Pow2Seven(7 * (left - 1));
    }
  }

  /** Reading a continuation adds its sum, or fails when it does not end in time. */
  lemma {:induction false} ReadContinuation(v: nat, rest: seq<byte>, value: nat, shift: nat)
    requires shift <= MAX_SHIFT && value + Sum(v, shift) < U64
    ensures ReadMore(Continuation(v) + rest, value, shift) ==
            if Ends(v, shift) then Some((value + Sum(v, shift), rest)) else None
    decreases v
  {
    if shift < MAX_SHIFT {
      ReadContinued(v, rest, value, shift);
      if v >= 0x80 && shift + 7 <= MAX_SHIFT {
        ReadContinuation(v / 0x80, rest, value + Septet(v, shift), shift + 7);
      }
    }
  }

  /** One byte of a continuation. */
  lemma ReadContinued(v: nat, rest: seq<byte>, value: nat, shift: nat)
    requires shift < MAX_SHIFT && value + Septet(v, shift) < U64
    ensures ReadMore(Continuation(v) + rest, value, shift) ==
            if v < 0x80 then Some((value + Septet(v, shift), rest))
            else ReadMore(Continuation(v / 0x80) + rest, value + Septet(v, shift), shift + 7)
  {
    if v < 0x80 {
      ReadByte(v, rest, value, shift);
      assert Continuation(v) + rest == [v] + rest;
    } else {
      var (b, tail) := (v % 0x80 + 0x80, Continuation(v / 0x80) + rest);
      assert b % 0x80 == v % 0x80;
      ReadByte(b, tail, value, shift);
      assert Continuation(v) + rest == [b] + tail;
    }
  }

  lemma ReadByte(b: byte, tail: seq<byte>, value: nat, shift: nat)
    requires shift < MAX_SHIFT && value + Septet(b, shift) < U64
    ensures var next := value + Septet(b, shift);
            ReadMore([b] + tail, value, shift) == if b < 0x80 then Some((next, tail)) else ReadMore(tail, next, shift + 7)
  {
    assert ([b] + tail)[1..] == tail;
  }

  lemma ReadFromStart(v: nat, rest: seq<byte>, value: nat)
    requires value + v < U64
    ensures ReadMore(Continuation(v) + rest, value, 0) == if v < TOO_FAR then Some((value + v, rest)) else None
  {
    EndsWhen(v, 0, 9);
    Pow2_63(7 * 9);
    SumIsShifted(v, 0);
    ReadContinuation(v, rest, value, 0);
  }

  lemma Pow2_63(n: nat)
    requires n == 63
    ensures Pow2(n) == TOO_FAR
  {
    WordSplit(n);
    assert Pow2(64 - n) == 2;
  }

  /** Reading back a written 64-bit integer gives it and leaves the rest alone, exactly when at most 63
      bits of it go beyond the prefix. */
  lemma ReadWritten(v: nat, prefix: nat, flags: nat, rest: seq<byte>)
    requires FlagsFit(prefix, flags) && ClearBelow(prefix, flags) && v < U64
    ensures Read(Written(v, prefix, flags) + rest, prefix) ==
            if v < Mask(prefix) + TOO_FAR then Some((v, rest)) else None
  {
    var m := Mask(prefix);
    MaskBound(prefix);
    if v < m {
      ReadFirst(prefix, flags, v, rest);
      assert Written(v, prefix, flags) + rest == [flags + v] + rest;
    } else {
      ReadFirst(prefix, flags, m, Continuation(v - m) + rest);
      assert Written(v, prefix, flags) + rest == [flags + m] + (Continuation(v - m) + rest);
      ReadFromStart(v - m, rest, m);
    }
  }

  lemma ReadFirst(prefix: nat, flags: nat, low: nat, tail: seq<byte>)
    requires FlagsFit(prefix, flags) && ClearBelow(prefix, flags) && low <= Mask(prefix)
    ensures Read([flags + low] + tail, prefix) ==
            if low < Mask(prefix) then Some((low, tail)) else ReadMore(tail, Mask(prefix), 0)
  {
    FirstBits(prefix, flags, low);
    assert ([flags + low] + tail)[1..] == tail;
  }

  // ---- The loops ----

  method WriteInt(v: nat, prefix: nat, flags: nat, out: seq<byte>) returns (out': seq<byte>)
    requires FlagsFit(prefix, flags)
    ensures out' == out + Written(v, prefix, flags)
  {
    MaskBound(prefix);
    var mask := Mask(prefix);
    if v < mask {
      return out + [flags + v];
    }
    var more := WriteMore(v - mask, out + [flags + mask]);
    assert out + [flags + mask] + Continuation(v - mask) == out + Written(v, prefix, flags);
    out' := more;
  }

  method WriteMore(v: nat, out: seq<byte>) returns (out': seq<byte>)
    ensures out' == out + Continuation(v)
  {
    out' := out;
    var left: nat := v;
    while left >= 0x80
      invariant out' + Continuation(left) == out + Continuation(v)
    {
      assert out' + [left % 0x80 + 0x80] + Continuation(left / 0x80) == out' + Continuation(left);
      out' := out' + [left % 0x80 + 0x80];
      left := left / 0x80;
    }
    out' := out' + [left];
  }

  method ReadInt(buf: seq<byte>, prefix: nat) returns (r: Option<(nat, seq<byte>)>)
    requires 1 <= prefix <= 8
    ensures r == Read(buf, prefix)
  {
    MaskBound(prefix);
    var mask := Pow2(prefix) - 1;
    if buf == [] { return None; }
    var first := buf[0] % Pow2(prefix);
    if first < mask { return Some((first, buf[1..])); }
    var value: nat, shift: nat, i := mask, 0, 1;
    while true
      invariant 1 <= i <= |buf| && Read(buf, prefix) == ReadMore(buf[i..], value, shift)
      decreases |buf| - i
    {
      if i >= |buf| { return None; }
      var b := buf[i];
      i := i + 1;
      if shift >= 63 { return None; }
      value := value + Septet(b, shift);
      if value >= U64 { return None; }
      if b < 0x80 { return Some((value, buf[i..])); }
      shift := shift + 7;
    }
  }
}
