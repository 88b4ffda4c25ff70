/** String literals of HPACK (section 5.2 of RFC 7541), and of QPACK, where the prefix varies.

    A Huffman-coded string is decoded up to a limit of the caller's. */
module HpackString {
  import opened Wrappers
  import opened Bits
  import opened HpackInt
  import Huffman
  import HuffmanTable
  import Utf8

  ghost function Unpacked(raw: seq<byte>, packed: bool, limit: nat): Option<seq<byte>> {
    if packed then Huffman.Decoded(HuffmanTable.Rfc7541(), raw, limit) else Some(raw)
  }

  function Packed(s: seq<byte>): seq<byte> { Huffman.Encoded(HuffmanTable.Rfc7541(), s) }

  /** A string whose length has a `prefix`-bit prefix with the Huffman bit right above it. */
  ghost function StringAt(buf: seq<byte>, prefix: nat, limit: nat): (r: Option<(seq<byte>, seq<byte>)>)
    requires 1 <= prefix <= 7
    ensures r.Some? ==> |r.value.1| < |buf| && Utf8.Valid(r.value.0)
  {
    if buf == [] then None
    else match Read(buf, prefix)
      case None => None
      case Some((len, rest)) =>
        if |rest| < len then None
        else match Unpacked(rest[..len], buf[0] / Pow2(prefix) % 2 == 1, limit)
          case None => None
          case Some(text) => if Utf8.Valid(text) then Some((text, rest[len..])) else None
  }

  function StringBytes(s: seq<byte>, prefix: nat, flags: nat): seq<byte>
    requires FlagsFit(prefix, flags) && FlagsFit(prefix, flags + Pow2(prefix))
  {
    Shorter(s, Packed(s), prefix, flags)
  }

  /** Huffman only when it actually helps. */
  function Shorter(s: seq<byte>, packed: seq<byte>, prefix: nat, flags: nat): seq<byte>
    requires FlagsFit(prefix, flags) && FlagsFit(prefix, flags + Pow2(prefix))
  {
    if |packed| < |s| then Written(|packed|, prefix, flags + Pow2(prefix)) + packed
    else Written(|s|, prefix, flags) + s
  }

  /** Text that a decoder takes back: a Huffman-coded string has a limit, and the source's slices are
      shorter than 2^63. */
  ghost predicate Readable(s: seq<byte>, limit: nat) {
    |s| < TOO_FAR && (|Packed(s)| < |s| ==> |s| <= limit)
  }

  lemma UnpackedIs(s: seq<byte>, limit: nat)
    ensures Unpacked(Packed(s), true, limit) == (if |s| <= limit then Some(s) else None)
  {
    var t := HuffmanTable.Rfc7541();
    HuffmanTable.RfcIsGood();
    var r := Huffman.Decoded(t, Packed(s), limit);
    if |s| <= limit {
      Huffman.DecodeEncode(t, s, limit);
    } else if r.Some? {
      Huffman.EncodeDecode(t, Packed(s), limit, r.value);
      Huffman.DecodeEncode(t, s, |s|);
      Huffman.DecodeEncode(t, r.value, |s|);
    }
  }

  /** Below place `p` the flags are clear, and the bit there is `bit`. */
  ghost predicate EndsWith(flags: nat, p: nat, bit: bool) {
    p > 0 && flags % (2 * p) == if bit then p else 0
  }

  /** Below the prefix the flags are clear, and the bit right above it is `bit`. (Through a quantifier,
      so that the remainder is only looked at where EndsWith is mentioned.) */
  ghost predicate FlagsEnd(prefix: nat, flags: nat, bit: bool) {
    forall p: nat | p == Pow2(prefix) :: EndsWith(flags, p, bit)
  }

  lemma FlagsEndClear(prefix: nat, flags: nat, bit: bool, first: nat)
    requires FlagsEnd(prefix, flags, bit) && flags <= first < flags + Pow2(prefix)
    ensures ClearBelow(prefix, flags) && (first / Pow2(prefix) % 2 == 1 <==> bit)
  {
    assert EndsWith(flags, Pow2(prefix), bit);
    TopBit(first, flags, Pow2(prefix), bit);
  }

  lemma TopBit(first: nat, flags: nat, p: nat, b: bool)
    requires p > 0 && flags <= first < flags + p && flags % (2 * p) == if b then p else 0
    ensures flags % p == 0 && (first / p % 2 == 1 <==> b)
  {
    var q := flags / (2 * p);
    var bit := if b then 1 else 0;
    var k := 2 * q + bit;
    assert flags == k * p by {
      assert flags == q * (2 * p) + bit * p;
      TwoTimes(q, bit, p);
    }
    DivModUnique(flags, k, 0, p);
    DivModUnique(first, k, first - flags, p);
  }

  lemma TwoTimes(q: nat, bit: nat, p: nat)
    ensures (2 * q + bit) * p == q * (2 * p) + bit * p
  {}

  /** A written string reads back, with the rest untouched, exactly when it is readable. */
  lemma StringRoundTrip(s: seq<byte>, prefix: nat, flags: nat, rest: seq<byte>, limit: nat)
    requires 1 <= prefix <= 7 && FlagsFit(prefix, flags) && FlagsFit(prefix, flags + Pow2(prefix))
    requires FlagsEnd(prefix, flags, false) && Utf8.Valid(s) && |s| < TOO_FAR
    ensures StringAt(StringBytes(s, prefix, flags) + rest, prefix, limit) == if Readable(s, limit) then Some((s, rest)) else None
  {
    UnpackedIs(s, limit);
    EitherRoundTrip(s, Packed(s), prefix, flags, rest, limit);
  }

  lemma EitherRoundTrip(s: seq<byte>, packed: seq<byte>, prefix: nat, flags: nat, rest: seq<byte>, limit: nat)
    requires 1 <= prefix <= 7 && FlagsFit(prefix, flags) && FlagsFit(prefix, flags + Pow2(prefix))
    requires FlagsEnd(prefix, flags, false) && Utf8.Valid(s) && |s| < TOO_FAR
    requires Unpacked(packed, true, limit) == (if |s| <= limit then Some(s) else None)
    ensures StringAt(Shorter(s, packed, prefix, flags) + rest, prefix, limit) == if |packed| < |s| ==> |s| <= limit then Some((s, rest)) else None
  {
    if |packed| < |s| {
      FlagAbove(prefix, flags);
      RawRoundTrip(packed, prefix, flags + Pow2(prefix), rest, true, limit);
    } else {
      RawRoundTrip(s, prefix, flags, rest, false, limit);
    }
  }

  lemma FlagAbove(prefix: nat, flags: nat)
    requires FlagsEnd(prefix, flags, false)
    ensures FlagsEnd(prefix, flags + Pow2(prefix), true)
  {
    var p := Pow2(prefix);
    assert EndsWith(flags, p, false);
    BitSet(flags, p);
  }

  lemma BitSet(flags: nat, p: nat)
    requires EndsWith(flags, p, false)
    ensures EndsWith(flags + p, p, true)
  {
    assert flags == flags / (2 * p) * (2 * p);
    DivModUnique(flags + p, flags / (2 * p), p, 2 * p);
  }

  /** A length, then that many bytes: read back and unpacked as the flag says. */
  lemma RawRoundTrip(raw: seq<byte>, prefix: nat, flags: nat, rest: seq<byte>, packed: bool, limit: nat)
    requires 1 <= prefix <= 7 && FlagsFit(prefix, flags) && |raw| < TOO_FAR
    requires FlagsEnd(prefix, flags, packed)
    ensures StringAt(Written(|raw|, prefix, flags) + raw + rest, prefix, limit) ==
            match Unpacked(raw, packed, limit)
            case None => None
            case Some(text) => if Utf8.Valid(text) then Some((text, rest)) else None
  {
    var length := Written(|raw|, prefix, flags);
    FlagsEndClear(prefix, flags, packed, length[0]);
    ReadWritten(|raw|, prefix, flags, raw + rest);
    Joined(length, raw, rest);
    StringIs(length + raw + rest, prefix, raw, rest, packed, limit);
  }

  lemma StringIs(buf: seq<byte>, prefix: nat, raw: seq<byte>, rest: seq<byte>, packed: bool, limit: nat)
    requires 1 <= prefix <= 7 && buf != [] && Read(buf, prefix) == Some((|raw|, raw + rest))
    requires packed == (buf[0] / Pow2(prefix) % 2 == 1)
    ensures StringAt(buf, prefix, limit) ==
            match Unpacked(raw, packed, limit)
            case None => None
            case Some(text) => if Utf8.Valid(text) then Some((text, rest)) else None
  {
    assert (raw + rest)[..|raw|] == raw && (raw + rest)[|raw|..] == rest;
  }

  method WriteString(s: seq<byte>, prefix: nat, flags: nat, out: seq<byte>) returns (out': seq<byte>)
    requires FlagsFit(prefix, flags) && FlagsFit(prefix, flags + Pow2(prefix))
    ensures out' == out + StringBytes(s, prefix, flags)
  {
    HuffmanTable.RfcIsGood();
    var hlen := Huffman.EncodedLen(HuffmanTable.Rfc7541(), s);
    if hlen < |s| {
      var packed := Huffman.Encode(HuffmanTable.Rfc7541(), s);
      out' := WriteInt(hlen, prefix, flags + Pow2(prefix), out);
      Joined(out, Written(hlen, prefix, flags + Pow2(prefix)), packed);
      out' := out' + packed;
    } else {
      out' := WriteInt(|s|, prefix, flags, out);
      Joined(out, Written(|s|, prefix, flags), s);
      out' := out' + s;
    }
  }

  lemma Joined(a: seq<byte>, b: seq<byte>, c: seq<byte>)
    ensures a + b + c == a + (b + c)
  {}

  method ReadString(buf: seq<byte>, prefix: nat, limit: nat) returns (r: Option<(seq<byte>, seq<byte>)>)
    requires 1 <= prefix <= 7
    ensures r == StringAt(buf, prefix, limit)
  {
    if buf == [] { return None; }
    var packed := buf[0] / Pow2(prefix) % 2 == 1;
    var length := ReadInt(buf, prefix);
    if length.None? { return None; }
    var (len, rest) := length.value;
    if |rest| < len { return None; }
    var text := rest[..len];
    if packed {
      HuffmanTable.RfcIsGood();
      var unpacked := Huffman.Decode(HuffmanTable.Rfc7541(), text, limit);
      if unpacked.None? { return None; }
      text := unpacked.value;
    }
    if !Utf8.Valid(text) { return None; }
    return Some((text, rest[len..]));
  }
}
