/** The FastCGI record format (FastCGI 1.0, section 3.3), written and parsed. */
module FcgiProto {
  import opened Wrappers
  import opened Bits
  import BigEndian

  const HEADER_LEN: nat := 8
  const VERSION: byte := 1
  const MAX_CONTENT: nat := 0xFFFF
  const REQUEST_ID: nat := 1

  const END_REQUEST: byte := 3
  const PARAMS: byte := 4
  const STDIN: byte := 5
  const STDOUT: byte := 6

  /** `RecordType::from_u8` knows the types 1 to 11. */
  predicate Known(ty: byte) { 1 <= ty <= 11 }

  datatype Record = Record(ty: byte, id: nat, body: seq<byte>)

  // ---- Parsing ----

  datatype Parsed = Incomplete | Malformed | Got(r: Record, total: nat)

  function Parse(buf: seq<byte>): (p: Parsed)
    ensures p.Got? ==> HEADER_LEN <= p.total <= |buf|
  {
    if |buf| < HEADER_LEN then Incomplete
    else if buf[0] != VERSION || !Known(buf[1]) then Malformed
    else
      var length := BigEndian.U16At(buf, 4);
      var total := HEADER_LEN + length + buf[6];
      if |buf| < total then Incomplete
      else Got(Record(buf[1], BigEndian.U16At(buf, 2), buf[HEADER_LEN..HEADER_LEN + length]), total)
  }

  /** What a record or an error is does not depend on what comes after it. */
  lemma ParseStable(buf: seq<byte>, more: seq<byte>)
    ensures Parse(buf) != Incomplete ==> Parse(buf + more) == Parse(buf)
  {
    var all := buf + more;
    if |buf| >= HEADER_LEN {
      var length := BigEndian.U16At(buf, 4);
      if HEADER_LEN + length <= |buf| { assert all[HEADER_LEN..HEADER_LEN + length] == buf[HEADER_LEN..HEADER_LEN + length]; }
    }
  }

  /** The records of a whole stream, if it is made of them. */
  function Records(buf: seq<byte>): Option<seq<Record>>
    decreases |buf|
  {
    if buf == [] then Some([])
    else match Parse(buf)
      case Got(r, total) => (match Records(buf[total..]) case None => None case Some(rs) => Some([r] + rs))
      case _ => None
  }

  // ---- Writing ----

  function Zeros(n: nat): (s: seq<byte>)
    ensures |s| == n
  {
    seq(n, _ => 0)
  }

  /** Up to the next multiple of eight. */
  function Padding(n: nat): (p: nat)
    ensures p < 8 && (n + p) % 8 == 0
  {
    (8 - n % 8) % 8
  }

  function Header(ty: byte, length: nat, padding: byte): (s: seq<byte>)
    ensures |s| == HEADER_LEN
  {
    [VERSION, ty] + BigEndian.U16(REQUEST_ID) + BigEndian.U16(length) + [padding, 0]
  }

  function RecordBytes(ty: byte, body: seq<byte>): seq<byte> {
    Header(ty, |body|, Padding(|body|)) + body + Zeros(Padding(|body|))
  }

  lemma HeaderReads(ty: byte, length: nat, padding: byte, more: seq<byte>)
    requires length <= MAX_CONTENT
    ensures var h := Header(ty, length, padding) + more;
            h[0] == VERSION && h[1] == ty && BigEndian.U16At(h, 2) == REQUEST_ID && BigEndian.U16At(h, 4) == length && h[6] == padding
  {
    var h := Header(ty, length, padding) + more;
    var (id, len) := (BigEndian.U16(REQUEST_ID), BigEndian.U16(length));
    assert h[2] == id[0] && h[3] == id[1] && h[4] == len[0] && h[5] == len[1];
  }

  lemma ParseWritten(ty: byte, body: seq<byte>, rest: seq<byte>)
    requires Known(ty) && |body| <= MAX_CONTENT
    ensures Parse(RecordBytes(ty, body) + rest) == Got(Record(ty, REQUEST_ID, body), |RecordBytes(ty, body)|)
  {
    var padding := Padding(|body|);
    var buf := RecordBytes(ty, body) + rest;
    assert buf == Header(ty, |body|, padding) + (body + Zeros(padding) + rest);
    HeaderReads(ty, |body|, padding, body + Zeros(padding) + rest);
    assert buf[HEADER_LEN..HEADER_LEN + |body|] == body;
  }

  /** A record as an application may write it: with any request id, any padding and any reserved byte. */
  datatype Sent = Sent(r: Record, filler: seq<byte>, reserved: byte)

  ghost predicate Sendable(s: Sent) { Known(s.r.ty) && s.r.id < 0x1_0000 && |s.r.body| <= MAX_CONTENT && |s.filler| < 256 }

  /** Its bytes, one field after the other (section 3.3 of the FastCGI specification). */
  function SentBytes(s: Sent): seq<byte>
    requires Sendable(s)
  {
    [1, s.r.ty, s.r.id / 256, s.r.id % 256, |s.r.body| / 256, |s.r.body| % 256, |s.filler|, s.reserved] + s.r.body + s.filler
  }

  /** It is read as that record, whatever follows it. */
  lemma ParseSent(s: Sent, rest: seq<byte>)
    requires Sendable(s)
    ensures Parse(SentBytes(s) + rest) == Got(s.r, |SentBytes(s)|)
  {
    var buf := SentBytes(s) + rest;
    var length := |s.r.body|;
    assert buf[4] == length / 256 && buf[5] == length % 256 && buf[2] == s.r.id / 256 && buf[3] == s.r.id % 256;
    assert buf[HEADER_LEN..HEADER_LEN + length] == s.r.body;
  }

  /** Our own records are such: of request 1, with zeros up to the next multiple of eight. */
  lemma RecordIsSent(ty: byte, body: seq<byte>)
    requires Known(ty) && |body| <= MAX_CONTENT
    ensures RecordBytes(ty, body) == SentBytes(Sent(Record(ty, 1, body), Zeros(Padding(|body|)), 0))
  {
    assert BigEndian.U16(1) == [0, 1] && BigEndian.U16(|body|) == [|body| / 256, |body| % 256];
  }

  function Take(s: seq<byte>): (r: seq<byte>)
    ensures |r| <= MAX_CONTENT && (s != [] ==> r != [])
  {
    s[..if |s| < MAX_CONTENT then |s| else MAX_CONTENT]
  }

  /** A stream of one type: its chunks, then the empty record that ends it. */
  function StreamBytes(ty: byte, payload: seq<byte>): seq<byte>
    decreases |payload|
  {
    if payload == [] then RecordBytes(ty, [])
    else RecordBytes(ty, Take(payload)) + StreamBytes(ty, payload[|Take(payload)|..])
  }

  method PushRecord(ty: byte, body: seq<byte>, out: seq<byte>) returns (out': seq<byte>)
    ensures out' == out + RecordBytes(ty, body)
  {
    var padding := Padding(|body|);
    out' := out + Header(ty, |body|, padding);
    out' := out' + body;
    out' := out' + Zeros(padding);
    assert out' == out + (Header(ty, |body|, padding) + body + Zeros(padding));
  }

  /** `push_params` and `push_stdin`. */
  method PushStream(ty: byte, payload: seq<byte>, out: seq<byte>) returns (out': seq<byte>)
    ensures out' == out + StreamBytes(ty, payload)
  {
    out' := out;
    var at := 0;
    while at < |payload|
      invariant at <= |payload| && out' + StreamBytes(ty, payload[at..]) == out + StreamBytes(ty, payload)
    {
      ghost var (rest, before) := (payload[at..], out');
      var n := if |payload| - at < MAX_CONTENT then |payload| - at else MAX_CONTENT;
      assert payload[at..at + n] == Take(rest) && rest[n..] == payload[at + n..];
      out' := PushRecord(ty, payload[at..at + n], out');
      Joined(before, RecordBytes(ty, Take(rest)), StreamBytes(ty, rest[n..]));
      at := at + n;
    }
    assert payload[at..] == [];
    out' := PushRecord(ty, [], out');
  }

  lemma Joined(a: seq<byte>, b: seq<byte>, c: seq<byte>)
    ensures a + b + c == a + (b + c)
  {}

  // ---- What is written parses back ----

  function Bodies(rs: seq<Record>): seq<byte> {
    if rs == [] then [] else rs[0].body + Bodies(rs[1..])
  }

  /** Records of one stream: each of its type and ours, none empty but the last. */
  ghost predicate OneStream(rs: seq<Record>, ty: byte) {
    && rs != [] && rs[|rs| - 1].body == []
    && (forall i | 0 <= i < |rs| :: rs[i].ty == ty && rs[i].id == REQUEST_ID)
    && (forall i | 0 <= i < |rs| - 1 :: rs[i].body != [])
  }

  lemma RecordsNext(ty: byte, body: seq<byte>, rest: seq<byte>)
    requires Known(ty) && |body| <= MAX_CONTENT
    ensures Records(RecordBytes(ty, body) + rest) ==
            match Records(rest) case None => None case Some(rs) => Some([Record(ty, REQUEST_ID, body)] + rs)
  {
    ParseWritten(ty, body, rest);
    var buf := RecordBytes(ty, body) + rest;
    assert buf != [] && buf[|RecordBytes(ty, body)|..] == rest;
  }

  lemma OneStreamNext(r: Record, rs: seq<Record>, ty: byte)
    requires OneStream(rs, ty) && r.ty == ty && r.id == REQUEST_ID && r.body != []
    ensures OneStream([r] + rs, ty) && Bodies([r] + rs) == r.body + Bodies(rs)
  {
    assert ([r] + rs)[1..] == rs;
  }

  /** The records a payload is cut into. */
  function ChunksOf(ty: byte, payload: seq<byte>): seq<Record>
    decreases |payload|
  {
    if payload == [] then [Record(ty, REQUEST_ID, [])]
    else [Record(ty, REQUEST_ID, Take(payload))] + ChunksOf(ty, payload[|Take(payload)|..])
  }

  lemma {:induction false} ChunksAreOneStream(ty: byte, payload: seq<byte>)
    ensures OneStream(ChunksOf(ty, payload), ty) && Bodies(ChunksOf(ty, payload)) == payload
    decreases |payload|
  {
    if payload == [] {
      OneRecord(Record(ty, REQUEST_ID, []));
    } else {
      var body := Take(payload);
      ChunksAreOneStream(ty, payload[|body|..]);
      OneStreamNext(Record(ty, REQUEST_ID, body), ChunksOf(ty, payload[|body|..]), ty);
      assert body + payload[|body|..] == payload;
    }
  }

  lemma {:induction false} ChunksRead(ty: byte, payload: seq<byte>)
    requires Known(ty)
    ensures Records(StreamBytes(ty, payload)) == Some(ChunksOf(ty, payload))
    decreases |payload|
  {
    var body := Take(payload);
    if payload == [] {
      RecordsNext(ty, [], []);
      assert RecordBytes(ty, []) + [] == RecordBytes(ty, []);
      OneRecord(Record(ty, REQUEST_ID, []));
    } else {
      ChunksRead(ty, payload[|body|..]);
      RecordsNext(ty, body, StreamBytes(ty, payload[|body|..]));
    }
  }

  /** Any payload comes back whole, ended by exactly one empty record. */
  lemma StreamReads(ty: byte, payload: seq<byte>)
    requires Known(ty)
    ensures var rs := Records(StreamBytes(ty, payload));
            rs.Some? && OneStream(rs.value, ty) && Bodies(rs.value) == payload
  {
    ChunksRead(ty, payload);
    ChunksAreOneStream(ty, payload);
  }

  lemma OneRecord(r: Record)
    ensures [r] + [] == [r] && Bodies([r]) == r.body
  {
    assert [r][1..] == [];
  }

  lemma RecordAligned(ty: byte, body: seq<byte>)
    ensures |RecordBytes(ty, body)| % 8 == 0
  {
    assert |RecordBytes(ty, body)| == HEADER_LEN + (|body| + Padding(|body|));
    AlignedSum(HEADER_LEN, |body| + Padding(|body|));
  }

  lemma AlignedSum(a: nat, b: nat)
    requires a % 8 == 0 && b % 8 == 0
    ensures (a + b) % 8 == 0
  {}

  /** Every record is aligned, so every stream is. */
  lemma {:induction false} StreamAligned(ty: byte, payload: seq<byte>)
    ensures |StreamBytes(ty, payload)| % 8 == 0
    decreases |payload|
  {
    RecordAligned(ty, Take(payload));
    if payload != [] {
      StreamAligned(ty, payload[|Take(payload)|..]);
      AlignedSum(|RecordBytes(ty, Take(payload))|, |StreamBytes(ty, payload[|Take(payload)|..])|);
    }
  }

  // ---- Name-value pairs ----

  /** One byte below 128; four with the top bit set otherwise. */
  function LengthBytes(n: nat): seq<byte>
    requires n < 0x1_0000_0000
  {
    if n < 128 then [n] else BigEndian.Bytes(if n < 0x8000_0000 then n + 0x8000_0000 else n, 4)
  }

  function PairBytes(name: seq<byte>, value: seq<byte>): seq<byte>
    requires |name| < 0x1_0000_0000 && |value| < 0x1_0000_0000
  {
    LengthBytes(|name|) + LengthBytes(|value|) + name + value
  }

  /** How an application reads a length (FastCGI 1.0, section 3.4). */
  function LengthAt(s: seq<byte>): (r: Option<(nat, nat)>)
    ensures r.Some? ==> 1 <= r.value.1 <= |s|
  {
    if s == [] then None
    else if s[0] < 128 then Some((s[0], 1))
    else if |s| < 4 then None
    else Some((BigEndian.Value(s[..4]) % 0x8000_0000, 4))
  }

  function PairAt(s: seq<byte>): Option<(seq<byte>, seq<byte>, seq<byte>)> {
    match LengthAt(s)
    case None => None
    case Some((n, i)) =>
      match LengthAt(s[i..])
      case None => None
      case Some((v, j)) =>
        var rest := s[i..][j..];
        if |rest| < n + v then None else Some((rest[..n], rest[n..n + v], rest[n + v..]))
  }

  lemma LengthReads(n: nat, rest: seq<byte>)
    requires n < 0x8000_0000
    ensures LengthAt(LengthBytes(n) + rest) == Some((n, |LengthBytes(n)|))
  {
    if n >= 128 {
      var s := BigEndian.Bytes(n + 0x8000_0000, 4);
      BigEndian.Limits();
      BigEndian.ValueOfBytes(n + 0x8000_0000, 4);
      assert (s + rest)[..4] == s;
      TopBitSet(s);
    }
  }

  lemma TopBitSet(s: seq<byte>)
    requires |s| == 4 && BigEndian.Value(s) >= 0x8000_0000
    ensures s[0] >= 128
  {
    var (s3, s2, s1) := (s[..3], s[..3][..2], s[..3][..2][..1]);
    assert BigEndian.Value(s1) == s[0] && BigEndian.Value(s2) == 256 * BigEndian.Value(s1) + s[1];
    assert BigEndian.Value(s3) == 256 * BigEndian.Value(s2) + s[2];
  }

  lemma TailReads(name: seq<byte>, value: seq<byte>, rest: seq<byte>)
    ensures var tail := name + value + rest;
            tail[..|name|] == name && tail[|name|..|name| + |value|] == value && tail[|name| + |value|..] == rest
  {}

  lemma PairIs(s: seq<byte>, n: seq<byte>, v: seq<byte>, name: seq<byte>, value: seq<byte>, rest: seq<byte>)
    requires s == n + (v + (name + value + rest))
    requires LengthAt(s) == Some((|name|, |n|)) && LengthAt(v + (name + value + rest)) == Some((|value|, |v|))
    ensures PairAt(s) == Some((name, value, rest))
  {
    var tail := name + value + rest;
    assert s[|n|..] == v + tail && (v + tail)[|v|..] == tail;
    TailReads(name, value, rest);
  }

  /** A written pair is read back when both lengths fit 31 bits. */
  lemma PairReads(name: seq<byte>, value: seq<byte>, rest: seq<byte>)
    requires |name| < 0x8000_0000 && |value| < 0x8000_0000
    ensures PairAt(PairBytes(name, value) + rest) == Some((name, value, rest))
  {
    var (n, v) := (LengthBytes(|name|), LengthBytes(|value|));
    var tail := name + value + rest;
    LengthReads(|name|, v + tail);
    LengthReads(|value|, tail);
    PairIs(n + (v + tail), n, v, name, value, rest);
    PairText(n, v, name, value, rest);
  }

  lemma PairText(n: seq<byte>, v: seq<byte>, name: seq<byte>, value: seq<byte>, rest: seq<byte>)
    ensures n + v + name + value + rest == n + (v + (name + value + rest))
  {}

  method PushPair(name: seq<byte>, value: seq<byte>, out: seq<byte>) returns (out': seq<byte>)
    requires |name| < 0x1_0000_0000 && |value| < 0x1_0000_0000
    ensures out' == out + PairBytes(name, value)
  {
    out' := PushLength(|name|, out);
    out' := PushLength(|value|, out');
    out' := out' + name;
    out' := out' + value;
    assert out' == out + (LengthBytes(|name|) + LengthBytes(|value|) + name + value);
  }

  method PushLength(n: nat, out: seq<byte>) returns (out': seq<byte>)
    requires n < 0x1_0000_0000
    ensures out' == out + LengthBytes(n)
  {
    if n < 128 {
      out' := out + [n];
    } else {
      var v := if n < 0x8000_0000 then n + 0x8000_0000 else n;
      out' := out + BigEndian.Bytes(v, 4);
    }
  }
}
