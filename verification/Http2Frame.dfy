/** HTTP/2 framing (sections 4 to 6 of RFC 9113). */
module Http2Frame {
  import opened Wrappers
  import opened Bits
  import BigEndian

  const HEADER_LEN: nat := 9
  const DEFAULT_MAX_FRAME: nat := 16384
  const MAX_FRAME_LIMIT: nat := 0xFF_FFFF
  const DEFAULT_WINDOW: int := 65535
  const MAX_WINDOW: int := 0x7FFF_FFFF

  const DATA: byte := 0
  const HEADERS: byte := 1
  const PRIORITY: byte := 2
  const RST_STREAM: byte := 3
  const SETTINGS: byte := 4
  const PUSH_PROMISE: byte := 5
  const PING: byte := 6
  const GOAWAY: byte := 7
  const WINDOW_UPDATE: byte := 8
  const CONTINUATION: byte := 9

  const HEADER_TABLE_SIZE: nat := 1
  const ENABLE_PUSH: nat := 2
  const INITIAL_WINDOW_SIZE: nat := 4
  const MAX_FRAME_SIZE: nat := 5

  datatype Code = NoError | Protocol | FlowControl | StreamClosed | FrameSize | RefusedStream | Compression | EnhanceYourCalm

  datatype Head = Head(length: nat, kind: byte, flags: byte, stream: nat)

  /** A received frame; its head's length is its payload's. */
  datatype Frame = Frame(kind: byte, flags: byte, stream: nat, payload: seq<byte>)

  // END_STREAM and ACK are the same bit.
  predicate EndStream(f: Frame) { f.flags % 2 == 1 }
  predicate Ack(f: Frame) { f.flags % 2 == 1 }
  predicate EndHeaders(f: Frame) { f.flags / 4 % 2 == 1 }
  predicate Padded(f: Frame) { f.flags / 8 % 2 == 1 }
  predicate HasPriority(f: Frame) { f.flags / 32 % 2 == 1 }

  /** The reserved top bit of the stream is ignored. */
  function ParseHead(b: seq<byte>): Head
    requires |b| == HEADER_LEN
  {
    Head(BigEndian.Value(b[..3]), b[3], b[4], BigEndian.Value(b[5..]) % 0x8000_0000)
  }

  function HeadBytes(h: Head): (b: seq<byte>)
    ensures |b| == HEADER_LEN
  {
    BigEndian.Bytes(h.length, 3) + [h.kind, h.flags] + BigEndian.Bytes(h.stream, 4)
  }

  /** A written head is read back exactly when its length fits 24 bits and its stream 31. */
  lemma HeadRoundTrip(h: Head)
    requires h.length < 0x1_0000_0000 && h.stream < 0x1_0000_0000
    ensures ParseHead(HeadBytes(h)) == h <==> h.length <= MAX_FRAME_LIMIT && h.stream < 0x8000_0000
  {
    var b := HeadBytes(h);
    assert b[..3] == BigEndian.Bytes(h.length, 3) && b[5..] == BigEndian.Bytes(h.stream, 4);
    BigEndian.Limits();
    BigEndian.ValueOfBytes(h.length, 3);
    BigEndian.ValueOfBytes(h.stream, 4);
  }

  /** Any nine bytes are what their head is written as, but for the reserved bit. */
  lemma HeadOfBytes(b: seq<byte>)
    requires |b| == HEADER_LEN
    ensures HeadBytes(ParseHead(b)) == b <==> b[5] < 0x80
  {
    BigEndian.Limits();
    BigEndian.BytesOfValue(b[..3]);
    BigEndian.BytesOfValue(b[5..]);
    TopByte(b[5..]);
    var stream := BigEndian.Value(b[5..]);
    if b[5] < 0x80 {
      assert HeadBytes(ParseHead(b)) == b[..3] + [b[3], b[4]] + b[5..];
    } else {
      var low := BigEndian.Bytes(stream % 0x8000_0000, 4);
      BigEndian.ValueOfBytes(stream % 0x8000_0000, 4);
      assert low != b[5..];
      assert HeadBytes(ParseHead(b))[5..] == low;
    }
  }

  lemma TopByte(s: seq<byte>)
    requires |s| == 4
    ensures BigEndian.Value(s) < 0x8000_0000 <==> s[0] < 0x80
  {
    var (s3, s2, s1) := (s[..3], s[..3][..2], s[..3][..2][..1]);
    assert BigEndian.Value(s1) == s[0] && BigEndian.Value(s2) == 256 * BigEndian.Value(s1) + s[1];
    assert BigEndian.Value(s3) == 256 * BigEndian.Value(s2) + s[2];
  }

  /** The nine bytes of a head, one by one (section 4.1 of RFC 9113). */
  lemma HeadLayout(h: Head)
    ensures HeadBytes(h) ==
            [h.length / 0x1_0000 % 256, h.length / 0x100 % 256, h.length % 256, h.kind, h.flags,
             h.stream / 0x100_0000 % 256, h.stream / 0x1_0000 % 256, h.stream / 0x100 % 256, h.stream % 256]
  {
    ThreeBytes(h.length);
    FourBytes(h.stream);
  }

  lemma ThreeBytes(v: nat)
    ensures BigEndian.Bytes(v, 3) == [v / 0x1_0000 % 256, v / 0x100 % 256, v % 256]
  {
    var (v1, v2) := (v / 256, v / 256 / 256);
    assert BigEndian.Bytes(v2, 1) == [] + [v2 % 256] && BigEndian.Bytes(v1, 2) == [v2 % 256] + [v1 % 256];
  }

  lemma FourBytes(v: nat)
    ensures BigEndian.Bytes(v, 4) == [v / 0x100_0000 % 256, v / 0x1_0000 % 256, v / 0x100 % 256, v % 256]
  {
    ThreeBytes(v / 256);
  }

  /** Strips padding; the pad length must leave room for its own byte. */
  function Unpad(payload: seq<byte>, padded: bool): (r: Option<seq<byte>>)
    ensures r.Some? ==> |r.value| <= |payload|
  {
    if !padded then Some(payload)
    else if payload == [] || payload[0] > |payload| - 1 then None
    else Some(payload[1..|payload| - payload[0]])
  }

  /** Padding is undone, whatever the filler; and nothing else is accepted. */
  lemma UnpadPadded(payload: seq<byte>, data: seq<byte>)
    ensures Unpad(payload, true) == Some(data) <==>
            exists filler: seq<byte> :: |filler| < 256 && payload == [|filler|] + data + filler
  {
    if Unpad(payload, true) == Some(data) {
      var filler := payload[|payload| - payload[0]..];
      assert payload == [|filler|] + data + filler;
    }
    forall filler: seq<byte> | |filler| < 256 && payload == [|filler|] + data + filler
      ensures Unpad(payload, true) == Some(data)
    {
      assert payload[1..|payload| - |filler|] == data;
    }
  }

  /** The 31-bit field at the front of a payload, 0 when it is short. */
  function U31(payload: seq<byte>): (v: nat)
    ensures v <= MAX_WINDOW
  {
    (if |payload| < 4 then 0 else BigEndian.Value(payload[..4])) % 0x8000_0000
  }

  datatype Fragment = BadPadding | ShortPriority | SelfDependent | Block(bytes: seq<byte>)

  /** The part of a header block in a HEADERS frame: without padding and the deprecated priority. */
  function FragmentOf(f: Frame): (r: Fragment)
  {
    match Unpad(f.payload, Padded(f))
    case None => BadPadding
    case Some(b) =>
      if !HasPriority(f) then Block(b)
      else if |b| < 5 then ShortPriority
      else if U31(b) == f.stream then SelfDependent
      else Block(b[5..])
  }

  /** What stands in front of a header block: a stream it depends on, exclusively or not, and a weight. */
  datatype Priority = Priority(exclusive: bool, dependency: nat, weight: byte)

  function PriorityBytes(p: Priority): seq<byte> {
    BigEndian.Bytes(p.dependency + if p.exclusive then 0x8000_0000 else 0, 4) + [p.weight]
  }

  /** The payload of a HEADERS frame with that block (section 6.2 of RFC 9113). */
  function HeadersPayload(block: seq<byte>, priority: Option<Priority>, filler: Option<seq<byte>>): seq<byte>
    requires filler.Some? ==> |filler.value| < 256
  {
    var front := match priority case None => [] case Some(p) => PriorityBytes(p);
    match filler case None => front + block case Some(f) => [|f|] + (front + block) + f
  }

  /** However a client writes it, padded and with a priority or without, the fragment is the block; unless the
      stream depends on itself. */
  lemma FragmentIsBlock(f: Frame, block: seq<byte>, priority: Option<Priority>, filler: Option<seq<byte>>)
    requires (filler.Some? ==> |filler.value| < 256) && (priority.Some? ==> priority.value.dependency < 0x8000_0000)
    requires Padded(f) == filler.Some? && HasPriority(f) == priority.Some?
    requires f.payload == HeadersPayload(block, priority, filler)
    ensures FragmentOf(f) == if priority.Some? && priority.value.dependency == f.stream then SelfDependent else Block(block)
  {
    var front := match priority case None => [] case Some(p) => PriorityBytes(p);
    if filler.Some? { UnpadPadded(f.payload, front + block); }
    assert Unpad(f.payload, Padded(f)) == Some(front + block);
    if priority.Some? {
      DependencyReads(priority.value, block);
    } else {
      assert front + block == block;
    }
  }

  lemma DependencyReads(p: Priority, block: seq<byte>)
    requires p.dependency < 0x8000_0000
    ensures var b := PriorityBytes(p) + block; |b| >= 5 && U31(b) == p.dependency && b[5..] == block
  {
    var v := p.dependency + if p.exclusive then 0x8000_0000 else 0;
    var b := PriorityBytes(p) + block;
    BigEndian.Limits();
    BigEndian.ValueOfBytes(v, 4);
    assert b[..4] == BigEndian.Bytes(v, 4);
  }

  /** A whole frame on the wire. */
  function FrameBytes(f: Frame): seq<byte> {
    HeadBytes(Head(|f.payload|, f.kind, f.flags, f.stream)) + f.payload
  }

  datatype Reading = Clean | Truncated | Oversized | Got(f: Frame, rest: seq<byte>)

  /** The next frame of everything the peer will ever send; its payload is only awaited when it is not
      larger than was advertised. */
  function NextFrame(b: seq<byte>): (r: Reading)
    ensures r.Got? ==> |r.rest| < |b|
  {
    if b == [] then Clean
    else if |b| < HEADER_LEN then Truncated
    else
      var h := ParseHead(b[..HEADER_LEN]);
      if h.length > DEFAULT_MAX_FRAME then Oversized
      else if |b| < HEADER_LEN + h.length then Truncated
      else Got(Frame(h.kind, h.flags, h.stream, b[HEADER_LEN..HEADER_LEN + h.length]), b[HEADER_LEN + h.length..])
  }

  ghost predicate Sendable(f: Frame) { |f.payload| <= DEFAULT_MAX_FRAME && f.stream < 0x8000_0000 }

  function Wire(fs: seq<Frame>): seq<byte> {
    if fs == [] then [] else FrameBytes(fs[0]) + Wire(fs[1..])
  }

  /** The frames of a connection's bytes, and how they end. */
  function FramesOf(b: seq<byte>): (r: (seq<Frame>, Reading))
    decreases |b|
  {
    match NextFrame(b)
    case Got(f, rest) => var (fs, end) := FramesOf(rest); ([f] + fs, end)
    case end => ([], end)
  }

  lemma NextOfWire(f: Frame, rest: seq<byte>)
    requires Sendable(f)
    ensures NextFrame(FrameBytes(f) + rest) == Got(f, rest)
  {
    var h := Head(|f.payload|, f.kind, f.flags, f.stream);
    var b := FrameBytes(f) + rest;
    HeadRoundTrip(h);
    assert b[..HEADER_LEN] == HeadBytes(h);
    assert b[HEADER_LEN..HEADER_LEN + h.length] == f.payload && b[HEADER_LEN + h.length..] == rest;
  }

  /** What is written as frames is read as those frames. */
  lemma {:induction false} WireRoundTrip(fs: seq<Frame>)
    requires forall f | f in fs :: Sendable(f)
    ensures FramesOf(Wire(fs)) == (fs, Clean)
    decreases |fs|
  {
    if fs != [] {
      NextOfWire(fs[0], Wire(fs[1..]));
      WireRoundTrip(fs[1..]);
      assert [fs[0]] + fs[1..] == fs;
    }
  }
}
