/** The Huffman coding of header strings, for any prefix-free code table whose EOS is all ones.
    Module HuffmanTable shows that the table of RFC 7541 is one. */
module Huffman {
  import opened Wrappers
  import opened Bits

  const EOS: nat := 256
  const MAX_LEN: nat := 30

  /** The code of each symbol 0..=255 and of EOS, as a number and a bit length. */
  type Table = seq<(nat, nat)>

  function Code(t: Table, sym: nat): (c: seq<Bit>)
    requires sym < |t|
    ensures |c| == t[sym].1
  {
    BitsOf(t[sym].0, t[sym].1)
  }

  ghost predicate Good(t: Table) {
    && |t| == EOS + 1
    && (forall sym: nat | sym <= EOS :: CodeOk(t, sym))
    && (forall a: nat, b: nat | a <= EOS && b <= EOS :: Apart(t, a, b))
  }

  /** The code fits its length; that of EOS is all ones and longer than any padding. */
  ghost predicate CodeOk(t: Table, sym: nat)
    requires sym < |t|
  {
    && 1 <= t[sym].1 <= MAX_LEN && t[sym].0 < Pow2(t[sym].1)
    && (sym == EOS ==> t[sym].1 >= 8 && Code(t, sym) == Ones(t[sym].1))
  }

  /** Neither code is a prefix of the other, unless they are the same one. */
  ghost predicate Apart(t: Table, a: nat, b: nat)
    requires a < |t| && b < |t|
  {
    Code(t, a) <= Code(t, b) ==> a == b
  }

  // ---- What encoding and decoding mean ----

  function Concat(t: Table, s: seq<byte>): seq<Bit>
    requires |t| == EOS + 1
  {
    if s == [] then [] else Code(t, s[0]) + Concat(t, s[1..])
  }

  function Padding(n: nat): nat { (8 - n % 8) % 8 }

  /** The codes in order, filled up to a whole byte with the start of EOS. */
  function Encoded(t: Table, s: seq<byte>): seq<byte>
    requires |t| == EOS + 1
  {
    var bits := Concat(t, s);
    BytesOf(bits + Ones(Padding(|bits|)))
  }

  ghost predicate OnPath(t: Table, path: seq<Bit>)
    requires |t| == EOS + 1
  {
    exists sym :: 0 <= sym <= EOS && path <= Code(t, sym)
  }

  ghost function SymbolAt(t: Table, path: seq<Bit>): (r: Option<nat>)
    requires |t| == EOS + 1
    ensures r.Some? ==> r.value <= EOS && Code(t, r.value) == path
    ensures r.None? ==> forall sym | 0 <= sym <= EOS :: Code(t, sym) != path
  {
    if sym: nat :| sym <= EOS && Code(t, sym) == path then Some(sym) else None
  }

  /** Decoding bit by bit: `path` is what has been read of the current code, `out` what is decoded. */
  ghost function Walk(t: Table, bits: seq<Bit>, path: seq<Bit>, out: seq<byte>, limit: nat): Option<seq<byte>>
    requires |t| == EOS + 1
    decreases |bits|
  {
    if bits == [] then
      if |path| > 7 || path != Ones(|path|) then None else Some(out)
    else
      var next := path + [bits[0]];
      if !OnPath(t, next) then None
      else match SymbolAt(t, next)
        case None => Walk(t, bits[1..], next, out, limit)
        case Some(sym) =>
          if sym == EOS || |out| >= limit then None else Walk(t, bits[1..], [], out + [sym], limit)
  }

  ghost function Decoded(t: Table, input: seq<byte>, limit: nat): Option<seq<byte>>
    requires |t| == EOS + 1
  {
    Walk(t, BitsOfBytes(input), [], [], limit)
  }

  // ---- Decoding undoes encoding ----

  lemma SymbolOfCode(t: Table, sym: nat)
    requires Good(t) && sym <= EOS
    ensures SymbolAt(t, Code(t, sym)) == Some(sym)
  {
    var r := SymbolAt(t, Code(t, sym));
    assert Apart(t, sym, r.value);
  }

  lemma InsideCode(t: Table, sym: nat, path: seq<Bit>)
    requires Good(t) && sym <= EOS && path < Code(t, sym)
    ensures OnPath(t, path) && SymbolAt(t, path) == None
  {
    var r := SymbolAt(t, path);
    assert r.Some? ==> Apart(t, r.value, sym);
  }

  /** Reading the rest of a code in order ends at its symbol. */
  lemma {:induction false} WalkCode(t: Table, sym: nat, path: seq<Bit>, rest: seq<Bit>, tail: seq<Bit>, out: seq<byte>, limit: nat)
    requires Good(t) && sym < EOS && path + rest == Code(t, sym) && rest != [] && |out| < limit
    ensures Walk(t, rest + tail, path, out, limit) == Walk(t, tail, [], out + [sym], limit)
    decreases |rest|
  {
    var next := path + [rest[0]];
    assert (rest + tail)[1..] == rest[1..] + tail;
    assert next + rest[1..] == Code(t, sym);
    if |rest| == 1 {
      assert next == Code(t, sym);
      SymbolOfCode(t, sym);
      assert rest[1..] + tail == tail;
    } else {
      InsideCode(t, sym, next);
      WalkCode(t, sym, next, rest[1..], tail, out, limit);
    }
  }

  lemma OnesPrefix(m: nat, n: nat)
    requires m <= n
    ensures Ones(n)[..m] == Ones(m)
  {}

  /** Padding shorter than a byte is never taken for a symbol. */
  lemma {:induction false} WalkPadding(t: Table, k: nat, pad: nat, out: seq<byte>, limit: nat)
    requires Good(t) && k + pad <= 7
    ensures Walk(t, Ones(pad), Ones(k), out, limit) == Some(out)
    decreases pad
  {
    if pad > 0 {
      var next := Ones(k) + [Ones(pad)[0]];
      assert next == Ones(k + 1) && CodeOk(t, EOS);
      OnesPrefix(k + 1, t[EOS].1);
      InsideCode(t, EOS, next);
      assert Ones(pad)[1..] == Ones(pad - 1);
      WalkPadding(t, k + 1, pad - 1, out, limit);
    }
  }

  lemma {:induction false} WalkConcat(t: Table, s: seq<byte>, pad: nat, out: seq<byte>, limit: nat)
    requires Good(t) && pad <= 7 && |out| + |s| <= limit
    ensures Walk(t, Concat(t, s) + Ones(pad), [], out, limit) == Some(out + s)
    decreases |s|
  {
    if s == [] {
      assert Concat(t, s) + Ones(pad) == Ones(pad);
      WalkPadding(t, 0, pad, out, limit);
      assert out + s == out;
    } else {
      var tail := Concat(t, s[1..]) + Ones(pad);
      assert Concat(t, s) + Ones(pad) == Code(t, s[0]) + tail;
      assert [] + Code(t, s[0]) == Code(t, s[0]) && CodeOk(t, s[0]);
      WalkCode(t, s[0], [], Code(t, s[0]), tail, out, limit);
      WalkConcat(t, s[1..], pad, out + [s[0]], limit);
      assert out + [s[0]] + s[1..] == out + s;
    }
  }

  /** Every byte string within the limit comes back from its encoding. */
  lemma DecodeEncode(t: Table, s: seq<byte>, limit: nat)
    requires Good(t) && |s| <= limit
    ensures Decoded(t, Encoded(t, s), limit) == Some(s)
  {
    var pad := BitsOfEncoded(t, s);
    WalkConcat(t, s, pad, [], limit);
    assert [] + s == s;
  }

  lemma BitsOfEncoded(t: Table, s: seq<byte>) returns (pad: nat)
    requires |t| == EOS + 1
    ensures pad <= 7 && BitsOfBytes(Encoded(t, s)) == Concat(t, s) + Ones(pad)
  {
    pad := Padding(|Concat(t, s)|);
    BitsOfBytesOf(Concat(t, s) + Ones(pad));
  }

  // ---- And a string has one accepted encoding only ----

  lemma ConcatCons(t: Table, b: byte, rest: seq<byte>, pad: nat)
    requires |t| == EOS + 1
    ensures Concat(t, [b] + rest) + Ones(pad) == Code(t, b) + (Concat(t, rest) + Ones(pad))
  {
    assert ([b] + rest)[1..] == rest;
  }

  /** Whatever decoding accepts is the codes of what it decoded, then less than a byte of ones. */
  lemma {:induction false} WalkAccepts(t: Table, bits: seq<Bit>, path: seq<Bit>, out: seq<byte>, limit: nat) returns (more: seq<byte>, pad: nat)
    requires Good(t) && Walk(t, bits, path, out, limit).Some? && |out| <= limit
    ensures Walk(t, bits, path, out, limit) == Some(out + more) && |out + more| <= limit
    ensures pad <= 7 && path + bits == Concat(t, more) + Ones(pad)
    decreases |bits|
  {
    if bits == [] {
      more, pad := [], |path|;
      assert path + bits == path && out + more == out && Concat(t, more) + Ones(pad) == Ones(pad);
    } else {
      var next := path + [bits[0]];
      assert path + bits == next + bits[1..];
      match SymbolAt(t, next)
      case None =>
        more, pad := WalkAccepts(t, bits[1..], next, out, limit);
      case Some(sym) =>
        var rest;
        rest, pad := WalkAccepts(t, bits[1..], [], out + [sym], limit);
        more := [sym] + rest;
        assert out + more == out + [sym] + rest;
        assert [] + bits[1..] == bits[1..];
        ConcatCons(t, sym, rest, pad);
    }
  }

  /** An accepted input is the encoding of its decoding: two encodings never mean the same string. */
  lemma EncodeDecode(t: Table, input: seq<byte>, limit: nat, s: seq<byte>)
    requires Good(t) && Decoded(t, input, limit) == Some(s)
    ensures |s| <= limit && Encoded(t, s) == input
  {
    var more, pad := WalkAccepts(t, BitsOfBytes(input), [], [], limit);
    assert [] + more == more && [] + BitsOfBytes(input) == BitsOfBytes(input);
    EncodedIs(t, s, input, pad);
  }

  lemma PaddingIs(n: nat, pad: nat, bytes: nat)
    requires pad <= 7 && n + pad == 8 * bytes
    ensures pad == Padding(n)
  {}

  /** Decoding accepts exactly the encodings of the strings within the limit. */
  lemma DecodesExactly(t: Table, input: seq<byte>, limit: nat, s: seq<byte>)
    requires Good(t)
    ensures Decoded(t, input, limit) == Some(s) <==> |s| <= limit && input == Encoded(t, s)
  {
    if Decoded(t, input, limit) == Some(s) { EncodeDecode(t, input, limit, s); }
    if |s| <= limit && input == Encoded(t, s) { DecodeEncode(t, s, limit); }
  }

  // ---- encoded_len and encode ----

  lemma {:induction false} ConcatPush(t: Table, s: seq<byte>, b: byte)
    requires |t| == EOS + 1
    ensures Concat(t, s + [b]) == Concat(t, s) + Code(t, b)
    decreases |s|
  {
    if s == [] {
      assert s + [b] == [b] && [b][1..] == [];
      assert Concat(t, [b]) == Code(t, b) + Concat(t, []);
    } else {
      assert (s + [b])[1..] == s[1..] + [b];
      ConcatPush(t, s[1..], b);
    }
  }

  method EncodedLen(t: Table, input: seq<byte>) returns (n: nat)
    requires |t| == EOS + 1
    ensures n == |Encoded(t, input)|
  {
    var bits := 0;
    for i := 0 to |input|
      invariant bits == |Concat(t, input[..i])|
    {
      bits := bits + t[input[i]].1;
      ConcatPush(t, input[..i], input[i]);
      assert input[..i + 1] == input[..i] + [input[i]];
    }
    assert input[..|input|] == input;
    n := (bits + 7) / 8;
  }

  const U64: nat := 0x1_0000_0000_0000_0000

  /** Shifting a code into the accumulator appends its bits to the pending ones. */
  lemma ShiftIn(acc: nat, r: seq<Bit>, code: nat, len: nat)
    requires acc % Pow2(|r|) == ValueOf(r) && code < Pow2(len) && |r| + len <= 64
    ensures ((acc * Pow2(len)) % U64 + code) % Pow2(|r| + len) == ValueOf(r + BitsOf(code, len))
  {
    var (p, q, d) := (Pow2(|r|), Pow2(len), Pow2(|r| + len));
    var k := WordFactor(|r|, len);
    Shifted64(acc, p, q, d, ValueOf(r), code, k);
    CodeAfter(r, code, len);
  }

  lemma CodeAfter(r: seq<Bit>, code: nat, len: nat)
    requires code < Pow2(len)
    ensures ValueOf(r + BitsOf(code, len)) == ValueOf(r) * Pow2(len) + code
  {
    ValueOfBits(code, len);
    ValueConcat(r, BitsOf(code, len));
  }

  lemma WordFactor(m: nat, n: nat) returns (k: nat)
    requires m + n <= 64
    ensures k > 0 && Pow2(m + n) == Pow2(m) * Pow2(n) && k * Pow2(m + n) == U64
  {
    Pow2Add(m, n);
    WordSplit(m + n);
    k := Pow2(64 - (m + n));
  }

  lemma Shifted64(acc: nat, p: nat, q: nat, d: nat, v: nat, code: nat, k: nat)
    requires p > 0 && q > 0 && k > 0 && acc % p == v && code < q && d == p * q && k * d == U64
    ensures d > 0 && ((acc * q) % U64 + code) % d == v * q + code
  {
    ShiftedLow(acc, p, q, d, v);
    ModMod(acc * q, k, d);
    Fits(v, p, q);
    var m := (acc * q) % U64;
    Whole(m, d);
    DivModUnique(m + code, m / d, v * q + code, d);
  }

  lemma ShiftedLow(acc: nat, p: nat, q: nat, d: nat, v: nat)
    requires p > 0 && q > 0 && acc % p == v && d == p * q
    ensures d > 0 && (acc * q) % d == v * q && (acc * q) / d == acc / p
  {
    Fits(v, p, q);
    var k := acc / p;
    Whole(acc, p);
    Distribute(k, p, v, q);
    DivModUnique(acc * q, k, v * q, d);
  }

  lemma Whole(a: nat, d: nat)
    requires d > 0
    ensures a == (a / d) * d + a % d
  {}

  lemma Distribute(k: nat, p: nat, v: nat, q: nat)
    ensures (k * p + v) * q == k * (p * q) + v * q
  {
    MulAssoc(k, p, q);
  }

  lemma Fits(v: nat, p: nat, q: nat)
    requires v < p && q > 0
    ensures v * q + q <= p * q
  {
    assert (v + 1) * q <= p * q;
  }

  /** The byte taken off the top of the pending bits is their first eight, and the rest stays. */
  lemma TakeByte(acc: nat, r: seq<Bit>)
    requires |r| >= 8 && acc % Pow2(|r|) == ValueOf(r)
    ensures (acc / Pow2(|r| - 8)) % 256 == ValueOf(r[..8])
    ensures acc % Pow2(|r| - 8) == ValueOf(r[8..])
  {
    var n := |r| - 8;
    Pow2Byte(n);
    ByteBound(r[..8]);
    ValueBound(r[8..]);
    assert r[..8] + r[8..] == r;
    ValueConcat(r[..8], r[8..]);
    TakenByte(acc, Pow2(n), ValueOf(r[..8]), ValueOf(r[8..]));
  }

  lemma Pow2Byte(n: nat)
    ensures Pow2(n + 8) == 256 * Pow2(n)
  {
    Pow2Values();
    Pow2Add(8, n);
  }

  lemma TakenByte(acc: nat, p: nat, a: nat, b: nat)
    requires p > 0 && a < 256 && b < p && acc % (256 * p) == a * p + b
    ensures (acc / p) % 256 == a && acc % p == b
  {
    var q := acc / (256 * p);
    Whole(acc, 256 * p);
    Regroup(q, p, a, b);
    DivModUnique(acc, q * 256 + a, b, p);
    DivModUnique(q * 256 + a, q, a, 256);
  }

  lemma Regroup(q: nat, p: nat, a: nat, b: nat)
    ensures q * (256 * p) + (a * p + b) == (q * 256 + a) * p + b
  {}

  /** The last byte: the pending bits, then ones. */
  lemma PadByte(acc: nat, r: seq<Bit>, pad: nat)
    requires |r| + pad == 8 && acc % Pow2(|r|) == ValueOf(r)
    ensures (acc * Pow2(pad) + (Pow2(pad) - 1)) % 256 == ValueOf(r + Ones(pad))
  {
    var (p, q) := (Pow2(|r|), Pow2(pad));
    ByteSplit(|r|, pad);
    OnesAfter(r, pad);
    Padded(acc, p, q, ValueOf(r), ValueOf(r + Ones(pad)));
  }

  lemma OnesAfter(r: seq<Bit>, pad: nat)
    ensures ValueOf(r + Ones(pad)) == ValueOf(r) * Pow2(pad) + (Pow2(pad) - 1)
  {
    ValueOfOnes(pad);
    ValueConcat(r, Ones(pad));
  }

  lemma Padded(acc: nat, p: nat, q: nat, v: nat, w: nat)
    requires p > 0 && q > 0 && p * q == 256 && acc % p == v && w == v * q + (q - 1)
    ensures (acc * q + (q - 1)) % 256 == w
  {
    ShiftedLow(acc, p, q, 256, v);
    Fits(v, p, q);
    Whole(acc * q, 256);
    DivModUnique(acc * q + (q - 1), acc / p, w, 256);
  }

  method Encode(t: Table, input: seq<byte>) returns (out: seq<byte>)
    requires Good(t)
    ensures out == Encoded(t, input)
  {
    out := [];
    var acc: nat := 0;      // a 64-bit accumulator; only its low `n` bits are pending
    var n := 0;
    ghost var r: seq<Bit> := [];
    for i := 0 to |input|
      invariant n == |r| < 8 && acc % Pow2(n) == ValueOf(r)
      invariant BitsOfBytes(out) + r == Concat(t, input[..i])
    {
      var (code, len) := t[input[i]];
      assert CodeOk(t, input[i]);
      ShiftIn(acc, r, code, len);
      OneMore(t, input, i, BitsOfBytes(out), r);
      acc := (acc * Pow2(len)) % U64 + code;
      out, r, n := PushBytes(out, acc, n + len, r + Code(t, input[i]));
    }
    assert input[..|input|] == input;
    ghost var whole := out;
    if n > 0 {
      var pad := 8 - n;
      PadByte(acc, r, pad);
      out := out + [(acc * Pow2(pad) + (Pow2(pad) - 1)) % 256];
    }
    Finished(t, input, whole, r, out);
  }

  lemma OneMore(t: Table, input: seq<byte>, i: nat, done: seq<Bit>, r: seq<Bit>)
    requires |t| == EOS + 1 && i < |input| && done + r == Concat(t, input[..i])
    ensures done + (r + Code(t, input[i])) == Concat(t, input[..i + 1])
  {
    ConcatPush(t, input[..i], input[i]);
    assert input[..i + 1] == input[..i] + [input[i]];
    assert done + (r + Code(t, input[i])) == done + r + Code(t, input[i]);
  }

  /** Less than a byte is left over; padded with ones it completes the encoding. */
  lemma Finished(t: Table, input: seq<byte>, whole: seq<byte>, r: seq<Bit>, out: seq<byte>)
    requires |t| == EOS + 1 && |r| < 8 && BitsOfBytes(whole) + r == Concat(t, input)
    requires if r == [] then out == whole
             else |out| == |whole| + 1 && out[..|whole|] == whole && out[|whole|] == ValueOf(r + Ones(8 - |r|))
    ensures out == Encoded(t, input)
  {
    if r == [] {
      assert BitsOfBytes(whole) + r == BitsOfBytes(whole);
      EncodedIs(t, input, out, 0);
    } else {
      LastByte(whole, r, out[|whole|]);
      assert out == whole + [out[|whole|]];
      EncodedIs(t, input, out, 8 - |r|);
    }
  }

  lemma EncodedIs(t: Table, input: seq<byte>, out: seq<byte>, pad: nat)
    requires |t| == EOS + 1 && pad <= 7 && BitsOfBytes(out) == Concat(t, input) + Ones(pad)
    ensures out == Encoded(t, input)
  {
    PaddingIs(|Concat(t, input)|, pad, |out|);
    BytesOfBitsOf(out);
  }

  lemma LastByte(whole: seq<byte>, r: seq<Bit>, b: byte)
    requires |r| < 8 && b == ValueOf(r + Ones(8 - |r|))
    ensures BitsOfBytes(whole + [b]) == BitsOfBytes(whole) + r + Ones(8 - |r|)
  {
    var w := r + Ones(8 - |r|);
    BitsOfValue(w);
    BitsOfBytesPush(whole, b);
    assert BitsOfBytes(whole) + w == BitsOfBytes(whole) + r + Ones(8 - |r|);
  }

  /** `n -= 8; out.push((acc >> n) as u8)`, with the pending bits it leaves. */
  method PushByte(out: seq<byte>, acc: nat, n: nat, ghost r: seq<Bit>) returns (out': seq<byte>, ghost r': seq<Bit>, n': nat)
    requires n == |r| >= 8 && acc % Pow2(n) == ValueOf(r)
    ensures n' == n - 8 == |r'| && acc % Pow2(n') == ValueOf(r')
    ensures BitsOfBytes(out') + r' == BitsOfBytes(out) + r
  {
    n' := n - 8;
    var b := (acc / Pow2(n')) % 256;
    TakeByte(acc, r);
    out' := out + [b];
    r' := r[8..];
    MoveByte(out, r, b);
  }

  /** The inner loop of `encode`: every whole byte goes out. */
  method PushBytes(out0: seq<byte>, acc: nat, n0: nat, ghost r0: seq<Bit>) returns (out: seq<byte>, ghost r: seq<Bit>, n: nat)
    requires n0 == |r0| && acc % Pow2(n0) == ValueOf(r0)
    ensures n == |r| < 8 && acc % Pow2(n) == ValueOf(r)
    ensures BitsOfBytes(out) + r == BitsOfBytes(out0) + r0
  {
    out, n, r := out0, n0, r0;
    while n >= 8
      invariant n == |r| && acc % Pow2(n) == ValueOf(r)
      invariant BitsOfBytes(out) + r == BitsOfBytes(out0) + r0
    {
      out, r, n := PushByte(out, acc, n, r);
    }
  }

  lemma MoveByte(out: seq<byte>, r: seq<Bit>, b: byte)
    requires |r| >= 8 && b == ValueOf(r[..8])
    ensures BitsOfBytes(out + [b]) + r[8..] == BitsOfBytes(out) + r
  {
    BitsOfValue(r[..8]);
    BitsOfBytesPush(out, b);
    assert BitsOfBytes(out) + r[..8] + r[8..] == BitsOfBytes(out) + r;
  }

  // ---- The decoding tree ----

  const NONE: nat := 0xFFFF

  datatype Node = Node(child: (nat, nat), symbol: Option<nat>)

  function Child(n: Node, bit: Bit): nat { if bit == 0 then n.child.0 else n.child.1 }

  function WithChild(n: Node, bit: Bit, i: nat): Node {
    n.(child := if bit == 0 then (i, n.child.1) else (n.child.0, i))
  }

  /** Node `i` stands for the bits `paths[i]` from the root; a child is there exactly when its path is. */
  ghost predicate Linked(nodes: seq<Node>, paths: seq<seq<Bit>>) {
    && |nodes| == |paths| > 0 && paths[0] == []
    && |nodes| <= NONE
    && (forall i: nat, j: nat | i < |paths| && j < |paths| :: Distinct(paths, i, j))
    && (forall i: nat | i < |paths| :: ParentIn(paths, i))
    && (forall i: nat, bit: Bit | i < |nodes| :: ChildOk(nodes, paths, i, bit))
  }

  ghost predicate Distinct(paths: seq<seq<Bit>>, i: nat, j: nat)
    requires i < |paths| && j < |paths|
  {
    paths[i] == paths[j] ==> i == j
  }

  ghost predicate ParentIn(paths: seq<seq<Bit>>, i: nat)
    requires i < |paths|
  {
    paths[i] != [] ==> paths[i][..|paths[i]| - 1] in paths
  }

  ghost predicate ChildOk(nodes: seq<Node>, paths: seq<seq<Bit>>, i: nat, bit: Bit)
    requires i < |nodes| == |paths|
  {
    var c := Child(nodes[i], bit);
    if c == NONE then paths[i] + [bit] !in paths else c < |nodes| && paths[c] == paths[i] + [bit]
  }

  /** The prefixes of the first `done` codes are paths, and the ends of those codes carry the symbols. */
  ghost predicate Covers(t: Table, nodes: seq<Node>, paths: seq<seq<Bit>>, done: nat)
    requires done <= |t| == EOS + 1 && |nodes| == |paths|
  {
    && (forall sym: nat | sym < done :: PrefixesIn(t, paths, sym, t[sym].1))
    && (forall i: nat | i < |nodes| :: SymbolOk(t, nodes[i], paths[i], done))
  }

  /** The prefixes of code `sym` up to `n` bits are paths. */
  ghost predicate PrefixesIn(t: Table, paths: seq<seq<Bit>>, sym: nat, n: nat)
    requires sym < |t| == EOS + 1 && n <= t[sym].1
  {
    forall k | 0 <= k <= n :: Code(t, sym)[..k] in paths
  }

  ghost predicate SymbolOk(t: Table, node: Node, path: seq<Bit>, done: nat)
    requires done <= |t| == EOS + 1
  {
    match node.symbol
    case Some(sym) => sym < done && Code(t, sym) == path
    case None => forall sym | 0 <= sym < done :: Code(t, sym) != path
  }

  /** Every path is a prefix of one of the first `upto` codes. */
  ghost predicate Within(t: Table, paths: seq<seq<Bit>>, upto: nat)
    requires upto <= |t| == EOS + 1
  {
    forall i: nat | i < |paths| :: Starts(t, paths[i], upto)
  }

  ghost predicate Starts(t: Table, path: seq<Bit>, upto: nat)
    requires upto <= |t| == EOS + 1
  {
    path == [] || exists sym: nat :: sym < upto && path <= Code(t, sym)
  }

  /** Nodes, their paths, and the codes they were grown from. */
  ghost predicate Grown(t: Table, nodes: seq<Node>, paths: seq<seq<Bit>>, done: nat, upto: nat)
    requires done <= upto <= |t| == EOS + 1
  {
    Linked(nodes, paths) && Covers(t, nodes, paths, done) && Within(t, paths, upto)
  }

  /** In a finished tree the paths are exactly the prefixes of codes. */
  lemma PathsAreOnPath(t: Table, nodes: seq<Node>, paths: seq<seq<Bit>>, path: seq<Bit>)
    requires |t| == EOS + 1 && Grown(t, nodes, paths, |t|, |t|)
    ensures path in paths <==> OnPath(t, path)
  {
    if path in paths {
      var i: nat :| i < |paths| && paths[i] == path;
      assert Starts(t, paths[i], |t|);
      assert path == [] ==> path <= Code(t, 0);
    }
    if OnPath(t, path) {
      var sym: nat :| sym <= EOS && path <= Code(t, sym);
      assert PrefixesIn(t, paths, sym, t[sym].1);
      assert Code(t, sym)[..|path|] == path;
    }
  }

  function Leaf(): Node { Node((NONE, NONE), None) }

  /** The nodes with a fresh leaf as child `bit` of `cur`. */
  function Sprouted(nodes: seq<Node>, cur: nat, bit: Bit): (r: seq<Node>)
    requires cur < |nodes|
    ensures |r| == |nodes| + 1
  {
    (nodes + [Leaf()])[cur := WithChild(nodes[cur], bit, |nodes|)]
  }

  /** A missing child is added as a fresh leaf. */
  lemma LinkedAdd(nodes: seq<Node>, paths: seq<seq<Bit>>, cur: nat, bit: Bit)
    requires Linked(nodes, paths) && cur < |nodes| < NONE && Child(nodes[cur], bit) == NONE
    ensures Linked(Sprouted(nodes, cur, bit), paths + [paths[cur] + [bit]])
  {
    var nodes' := Sprouted(nodes, cur, bit);
    var path := paths[cur] + [bit];
    var paths' := paths + [path];
    assert ChildOk(nodes, paths, cur, bit);
    forall i: nat, j: nat | i < |paths'| && j < |paths'| ensures Distinct(paths', i, j) {
      if i < |paths| && j < |paths| { assert Distinct(paths, i, j); }
    }
    forall i: nat | i < |paths'| ensures ParentIn(paths', i) {
      if i < |paths| { assert ParentIn(paths, i); } else { assert path[..|path| - 1] == paths[cur]; }
    }
    forall i: nat, b: Bit | i < |nodes'| ensures ChildOk(nodes', paths', i, b) {
      var ext := paths'[i] + [b];
      assert ext[..|ext| - 1] == paths'[i] && path[..|path| - 1] == paths[cur];
      if i == |nodes| {
        forall e: nat | e < |paths| ensures paths[e] != ext { assert ParentIn(paths, e); }
      } else {
        assert ChildOk(nodes, paths, i, b) && Distinct(paths, i, cur);
        assert ext == path ==> b == bit by { assert ext[|ext| - 1] == b && path[|path| - 1] == bit; }
      }
    }
  }

  /** Growing the tree along code `sym` keeps it sound: no earlier code ends on the new path. */
  lemma GrownAdd(t: Table, nodes: seq<Node>, paths: seq<seq<Bit>>, sym: nat, cur: nat, bit: Bit)
    requires Good(t) && sym <= EOS && Grown(t, nodes, paths, sym, sym + 1)
    requires cur < |nodes| < NONE && Child(nodes[cur], bit) == NONE && paths[cur] + [bit] <= Code(t, sym)
    ensures Grown(t, Sprouted(nodes, cur, bit), paths + [paths[cur] + [bit]], sym, sym + 1)
  {
    LinkedAdd(nodes, paths, cur, bit);
    var nodes' := Sprouted(nodes, cur, bit);
    var path := paths[cur] + [bit];
    var paths' := paths + [path];
    forall other: nat | other < sym ensures Code(t, other) != path {
      assert Apart(t, other, sym);
    }
    forall i: nat | i < |nodes'| ensures SymbolOk(t, nodes'[i], paths'[i], sym) && Starts(t, paths'[i], sym + 1) {
      if i < |nodes| { assert SymbolOk(t, nodes[i], paths[i], sym) && Starts(t, paths[i], sym + 1); }
    }
    forall s: nat | s < sym ensures PrefixesIn(t, paths', s, t[s].1) {
      assert PrefixesIn(t, paths, s, t[s].1);
    }
  }

  /** At the end of its code the symbol is noted. */
  lemma GrownMark(t: Table, nodes: seq<Node>, paths: seq<seq<Bit>>, sym: nat, cur: nat)
    requires Good(t) && sym <= EOS && Grown(t, nodes, paths, sym, sym + 1)
    requires cur < |nodes| && paths[cur] == Code(t, sym) && PrefixesIn(t, paths, sym, t[sym].1)
    ensures Grown(t, nodes[cur := nodes[cur].(symbol := Some(sym))], paths, sym + 1, sym + 1)
  {
    var nodes' := nodes[cur := nodes[cur].(symbol := Some(sym))];
    forall i: nat | i < |nodes'| ensures SymbolOk(t, nodes'[i], paths[i], sym + 1) {
      assert SymbolOk(t, nodes[i], paths[i], sym) && Distinct(paths, i, cur);
    }
    forall i: nat, b: Bit | i < |nodes'| ensures ChildOk(nodes', paths, i, b) {
      assert ChildOk(nodes, paths, i, b);
    }
  }

  /** The decoding tree, grown code by code. */
  method BuildTree(t: Table) returns (nodes: seq<Node>, ghost paths: seq<seq<Bit>>)
    requires Good(t)
    ensures Grown(t, nodes, paths, |t|, |t|)
  {
    nodes := [Leaf()];
    paths := [[]];
    var sym := 0;
    while sym < |t|
      invariant 0 <= sym <= |t| && Grown(t, nodes, paths, sym, sym)
      invariant |nodes| <= 1 + MAX_LEN * sym
    {
      nodes, paths := AddCode(t, nodes, paths, sym);
      sym := sym + 1;
    }
  }

  lemma NextPrefix(t: Table, sym: nat, k: nat)
    requires sym < |t| && k < t[sym].1
    ensures Code(t, sym)[..k + 1] == Code(t, sym)[..k] + [t[sym].0 / Pow2(t[sym].1 - 1 - k) % 2]
  {
    BitAt(t[sym].0, t[sym].1, k);
  }

  method AddCode(t: Table, nodes0: seq<Node>, ghost paths0: seq<seq<Bit>>, sym: nat) returns (nodes: seq<Node>, ghost paths: seq<seq<Bit>>)
    requires Good(t) && sym < |t| && Grown(t, nodes0, paths0, sym, sym) && |nodes0| <= 1 + MAX_LEN * sym
    ensures Grown(t, nodes, paths, sym + 1, sym + 1) && |nodes| <= |nodes0| + MAX_LEN
  {
    nodes, paths := nodes0, paths0;
    assert CodeOk(t, sym);
    var (code, len) := t[sym];
    var cur: nat := 0;
    var i := len;
    ghost var bits := Code(t, sym);
    while i > 0
      invariant 0 <= i <= len && cur < |nodes| <= |nodes0| + (len - i)
      invariant Grown(t, nodes, paths, sym, sym + 1) && paths[cur] == bits[..len - i]
      invariant PrefixesIn(t, paths, sym, len - i)
    {
      i := i - 1;
      var bit: Bit := code / Pow2(i) % 2;
      NextPrefix(t, sym, len - 1 - i);
      assert ChildOk(nodes, paths, cur, bit);
      if Child(nodes[cur], bit) == NONE {
        GrownAdd(t, nodes, paths, sym, cur, bit);
        paths := paths + [paths[cur] + [bit]];
        nodes := Sprouted(nodes, cur, bit);
      }
      cur := Child(nodes[cur], bit);
    }
    assert bits[..len] == bits;
    GrownMark(t, nodes, paths, sym, cur);
    nodes := nodes[cur := nodes[cur].(symbol := Some(sym))];
  }

  /** `is_all_ones_prefix`: the walk down the ones meets exactly the paths that are all ones. */
  method AllOnes(t: Table, nodes: seq<Node>, ghost paths: seq<seq<Bit>>, node: nat) returns (yes: bool)
    requires Good(t) && Grown(t, nodes, paths, |t|, |t|) && node < |nodes|
    ensures yes <==> paths[node] == Ones(|paths[node]|)
  {
    var cur: nat := 0;
    ghost var k := 0;
    while true
      invariant cur < |nodes| && paths[cur] == Ones(k) && k <= MAX_LEN
      invariant forall j | 0 <= j < k :: paths[node] != Ones(j)
      decreases MAX_LEN - k
    {
      if cur == node { return true; }
      assert Distinct(paths, cur, node);
      var next := Child(nodes[cur], 1);
      assert ChildOk(nodes, paths, cur, 1);
      if next == NONE {
        OnesStop(t, nodes, paths, node, k);
        return false;
      }
      assert Ones(k) + [1] == Ones(k + 1);
      PathsAreOnPath(t, nodes, paths, Ones(k + 1));
      assert paths[next] in paths;
      OnPathIsShort(t, Ones(k + 1));
      cur, k := next, k + 1;
    }
  }

  lemma OnPathIsShort(t: Table, path: seq<Bit>)
    requires Good(t) && OnPath(t, path)
    ensures |path| <= MAX_LEN
  {
    var sym: nat :| sym <= EOS && path <= Code(t, sym);
    assert CodeOk(t, sym);
  }

  lemma OnesStop(t: Table, nodes: seq<Node>, paths: seq<seq<Bit>>, node: nat, k: nat)
    requires Good(t) && Grown(t, nodes, paths, |t|, |t|) && node < |nodes|
    requires Ones(k) + [1] !in paths && (forall j | 0 <= j < k :: paths[node] != Ones(j)) && paths[node] != Ones(k)
    ensures paths[node] != Ones(|paths[node]|)
  {
    assert Ones(k) + [1] == Ones(k + 1);
    var m := |paths[node]|;
    if m > k {
      PathsAreOnPath(t, nodes, paths, Ones(m));
      PathsAreOnPath(t, nodes, paths, Ones(k + 1));
      OnesPrefix(k + 1, m);
    }
  }

  // ---- decode ----

  lemma {:induction false} BytesBit(s: seq<byte>, j: nat, k: nat)
    requires j < |s| && k < 8
    ensures BitsOfBytes(s)[8 * j + k] == s[j] / Pow2(7 - k) % 2
  {
    if j == |s| - 1 {
      BitAt(s[j], 8, k);
    } else {
      BytesBit(s[..|s| - 1], j, k);
    }
  }

  lemma BitTail(s: seq<byte>, j: nat, k: nat) returns (at: nat)
    requires j < |s| && k < 8
    ensures at == 8 * j + k < |BitsOfBytes(s)|
    ensures var tail := BitsOfBytes(s)[at..];
            tail != [] && tail[0] == s[j] / Pow2(7 - k) % 2 && tail[1..] == BitsOfBytes(s)[at + 1..]
  {
    at := 8 * j + k;
    BytesBit(s, j, k);
  }

  /** What one bit does to the walk, read off the tree. */
  lemma TreeStep(t: Table, nodes: seq<Node>, paths: seq<seq<Bit>>, node: nat, bits: seq<Bit>, out: seq<byte>, limit: nat)
    requires Good(t) && Grown(t, nodes, paths, |t|, |t|) && node < |nodes| && bits != []
    ensures ChildOk(nodes, paths, node, bits[0])
    ensures var next := Child(nodes[node], bits[0]);
            Walk(t, bits, paths[node], out, limit) ==
            if next == NONE then None
            else match nodes[next].symbol
              case Some(sym) => if sym == EOS || |out| >= limit then None else Walk(t, bits[1..], [], out + [sym], limit)
              case None => Walk(t, bits[1..], paths[next], out, limit)
  {
    var path := paths[node] + [bits[0]];
    var next := Child(nodes[node], bits[0]);
    PathsAreOnPath(t, nodes, paths, path);
    assert ChildOk(nodes, paths, node, bits[0]);
    if next != NONE {
      assert SymbolOk(t, nodes[next], paths[next], |t|);
      match nodes[next].symbol
      case Some(sym) => SymbolOfCode(t, sym);
      case None =>
    }
  }

  method Decode(t: Table, input: seq<byte>, limit: nat) returns (r: Option<seq<byte>>)
    requires Good(t)
    ensures r == Decoded(t, input, limit)
  {
    var nodes, paths := BuildTree(t);
    var out: seq<byte> := [];
    var node: nat := 0;
    var consumed := 0;
    for j := 0 to |input|
      invariant node < |nodes| && |paths[node]| == consumed
      invariant Decoded(t, input, limit) == Walk(t, BitsOfBytes(input)[8 * j..], paths[node], out, limit)
    {
      var ok;
      ok, node, consumed, out := DecodeByte(t, nodes, paths, input, j, node, consumed, out, limit);
      if !ok { return None; }
    }
    assert BitsOfBytes(input)[8 * |input|..] == [];
    if consumed > 7 { return None; }
    if consumed > 0 {
      var ones := AllOnes(t, nodes, paths, node);
      if !ones { return None; }
    }
    return Some(out);
  }

  /** The inner loop of `decode`: the eight bits of one byte. */
  method DecodeByte(t: Table, nodes: seq<Node>, ghost paths: seq<seq<Bit>>, input: seq<byte>, j: nat,
                    node0: nat, consumed0: nat, out0: seq<byte>, limit: nat)
    returns (ok: bool, node: nat, consumed: nat, out: seq<byte>)
    requires Good(t) && Grown(t, nodes, paths, |t|, |t|) && j < |input|
    requires node0 < |nodes| && |paths[node0]| == consumed0
    ensures var bits := BitsOfBytes(input);
            var goal := Walk(t, bits[8 * j..], paths[node0], out0, limit);
            if ok then node < |nodes| && |paths[node]| == consumed && goal == Walk(t, bits[8 * j + 8..], paths[node], out, limit)
            else goal == None
  {
    ok, node, consumed, out := false, node0, consumed0, out0;
    ghost var bits := BitsOfBytes(input);
    ghost var goal := Walk(t, bits[8 * j..], paths[node0], out0, limit);
    var shift := 8;
    while shift > 0
      invariant 0 <= shift <= 8 && node < |nodes| && |paths[node]| == consumed
      invariant goal == Walk(t, bits[8 * j + 8 - shift..], paths[node], out, limit)
    {
      shift := shift - 1;
      var bit: Bit := input[j] / Pow2(shift) % 2;
      ghost var at := BitTail(input, j, 7 - shift);
      ok, node, consumed, out := DecodeBit(t, nodes, paths, bit, bits[at..], node, consumed, out, limit);
      if !ok { return; }
    }
    ok := true;
  }

  /** One step down the tree, with a symbol at a leaf. */
  method DecodeBit(t: Table, nodes: seq<Node>, ghost paths: seq<seq<Bit>>, bit: Bit, ghost bits: seq<Bit>,
                   node0: nat, consumed0: nat, out0: seq<byte>, limit: nat)
    returns (ok: bool, node: nat, consumed: nat, out: seq<byte>)
    requires Good(t) && Grown(t, nodes, paths, |t|, |t|) && bits != [] && bits[0] == bit
    requires node0 < |nodes| && |paths[node0]| == consumed0
    ensures var goal := Walk(t, bits, paths[node0], out0, limit);
            if ok then node < |nodes| && |paths[node]| == consumed && goal == Walk(t, bits[1..], paths[node], out, limit)
            else goal == None
  {
    ok, node, consumed, out := false, node0, consumed0, out0;
    TreeStep(t, nodes, paths, node, bits, out, limit);
    var next := Child(nodes[node], bit);
    if next == NONE { return; }
    node := next;
    match nodes[node].symbol {
      case Some(sym) =>
        if sym == EOS || |out| >= limit { return; }
        out := out + [sym];
        node := 0;
        consumed := 0;
      case None =>
        consumed := consumed + 1;
    }
    ok := true;
  }
}
