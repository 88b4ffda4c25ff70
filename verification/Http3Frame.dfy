/** HTTP/3 framing (section 7 of RFC 9114) over QUIC's variable-length integers (section 16 of RFC 9000). */
module Http3Frame {
  import opened Wrappers
  import opened Bits
  import BigEndian

  const VARINT_MAX: nat := 0x3FFF_FFFF_FFFF_FFFF

  const FRAME_UNEXPECTED: nat := 0x105
  const FRAME_ERROR: nat := 0x106
  const SETTINGS_ERROR: nat := 0x109

  const DATA: nat := 0
  const QPACK_MAX_TABLE_CAPACITY: nat := 1
  const MAX_FIELD_SECTION_SIZE: nat := 6
  const QPACK_BLOCKED_STREAMS: nat := 7

  // ---- Variable-length integers ----

  function VarintLength(v: nat): nat {
    if v < 0x40 then 1 else if v < 0x4000 then 2 else if v < 0x4000_0000 then 4 else 8
  }

  /** What the two length bits say. */
  function Width(mark: nat): (n: nat)
    requires mark < 4
    ensures n >= 1
  {
    if mark == 0 then 1 else if mark == 1 then 2 else if mark == 2 then 4 else 8
  }

  /** The values the remaining bits of a width hold. */
  function Room(mark: nat): nat
    requires mark < 4
  {
    if mark == 0 then 0x40 else if mark == 1 then 0x4000 else if mark == 2 then 0x4000_0000 else 0x4000_0000_0000_0000
  }

  function Mark(v: nat): (m: nat)
    requires v <= VARINT_MAX
    ensures m < 4 && v < Room(m) && Width(m) == VarintLength(v)
  {
    if v < 0x40 then 0 else if v < 0x4000 then 1 else if v < 0x4000_0000 then 2 else 3
  }

  /** The length bits stand above the value. */
  function Varint(v: nat): (s: seq<byte>)
    requires v <= VARINT_MAX
    ensures |s| == VarintLength(v)
  {
    BigEndian.Bytes(v + Mark(v) * Room(Mark(v)), VarintLength(v))
  }

  function GetVarint(buf: seq<byte>): (r: Option<(nat, nat)>)
    ensures r.Some? ==> 1 <= r.value.1 <= |buf|
  {
    if buf == [] then None
    else
      var length := Width(buf[0] / 64);
      if |buf| < length then None else Some((BigEndian.Value([buf[0] % 64] + buf[1..length]), length))
  }

  lemma RoomIs(mark: nat)
    requires mark < 4
    ensures Room(mark) == 64 * BigEndian.Limit(Width(mark) - 1)
  {
    BigEndian.Limits();
    assert BigEndian.Limit(0) == 1;
    SevenBytes();
  }

  lemma SevenBytes()
    ensures BigEndian.Limit(7) == 0x100_0000_0000_0000
  {
    BigEndian.Limits();
    assert BigEndian.Limit(5) == 256 * BigEndian.Limit(4);
    assert BigEndian.Limit(7) == 256 * BigEndian.Limit(6);
  }

  /** Splitting the length bits off the first byte leaves the value. */
  lemma Unmarked(a: nat, limit: nat, low: nat, v: nat, mark: nat)
    requires a * limit + low == v + mark * (64 * limit) && low < limit && v < 64 * limit && mark < 4
    ensures a / 64 == mark && (a % 64) * limit + low == v
  {
    var high := a - 64 * mark;
    assert high * limit + low == v by { Distribute(a, mark, limit); }
    if high < 0 { Below(high, limit); }
    if high >= 64 { Above(high, limit); }
    assert a == 64 * mark + high;
  }

  lemma Distribute(a: nat, mark: nat, limit: nat)
    ensures (a - 64 * mark) * limit == a * limit - mark * (64 * limit)
  {}

  lemma Below(high: int, limit: nat)
    requires high < 0
    ensures high * limit + limit <= 0
  {}

  lemma Above(high: int, limit: nat)
    requires high >= 64
    ensures high * limit >= 64 * limit
  {}

  lemma MarkedFits(v: nat, mark: nat, limit: nat)
    requires mark < 4 && v < 64 * limit
    ensures v + mark * (64 * limit) < 256 * limit
  {}

  /** A written integer is read back, whatever follows. */
  lemma VarintRoundTrip(v: nat, rest: seq<byte>)
    requires v <= VARINT_MAX
    ensures GetVarint(Varint(v) + rest) == Some((v, VarintLength(v)))
  {
    var (mark, n) := (Mark(v), VarintLength(v));
    var limit := BigEndian.Limit(n - 1);
    RoomIs(mark);
    MarkedFits(v, mark, limit);
    WrittenReads(v, mark, n, limit, Varint(v), rest);
  }

  lemma WrittenReads(v: nat, mark: nat, n: nat, limit: nat, s: seq<byte>, rest: seq<byte>)
    requires mark < 4 && n == Width(mark) && limit == BigEndian.Limit(n - 1) && v < 64 * limit
    requires v + mark * (64 * limit) < 256 * limit && s == BigEndian.Bytes(v + mark * (64 * limit), n)
    ensures GetVarint(s + rest) == Some((v, n))
  {
    var t := s[1..];
    assert s == [s[0]] + t;
    BigEndian.ValueOfBytes(v + mark * (64 * limit), n);
    BigEndian.MostSignificantFirst(s[0], t);
    BigEndian.ValueBound(t);
    Unmarked(s[0], limit, BigEndian.Value(t), v, mark);
    BigEndian.MostSignificantFirst(s[0] % 64, t);
    assert (s + rest)[1..n] == t;
  }

  /** The first two bits give the width, 1, 2, 4 or 8 bytes; the other six and the bytes behind them the value, the
      first of them counting most. */
  lemma VarintMeans(buf: seq<byte>)
    requires buf != []
    ensures var n := if buf[0] < 0x40 then 1 else if buf[0] < 0x80 then 2 else if buf[0] < 0xC0 then 4 else 8;
            GetVarint(buf) == if |buf| < n then None
                              else Some((buf[0] % 64 * BigEndian.Limit(n - 1) + BigEndian.Value(buf[1..n]), n))
  {
    var n := Width(buf[0] / 64);
    if |buf| >= n { BigEndian.MostSignificantFirst(buf[0] % 64, buf[1..n]); }
  }

  /** What has been read does not depend on what comes after it. */
  lemma VarintStable(buf: seq<byte>, more: seq<byte>)
    ensures GetVarint(buf).Some? ==> GetVarint(buf + more) == GetVarint(buf)
  {
    if GetVarint(buf).Some? {
      var n := GetVarint(buf).value.1;
      assert (buf + more)[1..n] == buf[1..n];
    }
  }

  /** Any width is read, and none is written wider than it has to be. */
  lemma VarintShortest(buf: seq<byte>)
    ensures GetVarint(buf).Some? ==> GetVarint(buf).value.0 <= VARINT_MAX && |Varint(GetVarint(buf).value.0)| <= GetVarint(buf).value.1
  {
    if GetVarint(buf).Some? {
      var (v, n) := GetVarint(buf).value;
      var mark := buf[0] / 64;
      var t := buf[1..n];
      BigEndian.MostSignificantFirst(buf[0] % 64, t);
      BigEndian.ValueBound(t);
      RoomIs(mark);
      Product(buf[0] % 64, BigEndian.Limit(n - 1), BigEndian.Value(t));
      assert v < Room(mark);
    }
  }

  lemma Product(a: nat, limit: nat, low: nat)
    requires a < 64 && low < limit
    ensures a * limit + low < 64 * limit
  {
    assert a * limit <= 63 * limit;
  }

  method PutVarint(v: nat, out: seq<byte>) returns (out': seq<byte>)
    requires v <= VARINT_MAX
    ensures out' == out + Varint(v)
  {
    var n := VarintLength(v);
    if n == 1 { out' := out + BigEndian.Bytes(v, 1); }
    else if n == 2 { out' := out + BigEndian.Bytes(v + 0x4000, 2); }
    else if n == 4 { out' := out + BigEndian.Bytes(v + 0x8000_0000, 4); }
    else { out' := out + BigEndian.Bytes(v + 0xC000_0000_0000_0000, 8); }
  }

  method ReadVarint(buf: seq<byte>) returns (r: Option<(nat, nat)>)
    ensures r == GetVarint(buf)
  {
    if buf == [] { return None; }
    var length := Width(buf[0] / 64);
    if |buf| < length { return None; }
    var v: nat := buf[0] % 64;
    var i := 1;
    ghost var s := [buf[0] % 64] + buf[1..length];
    assert s[..1] == [buf[0] % 64] && [buf[0] % 64][..0] == [];
    while i < length
      invariant 1 <= i <= length && v == BigEndian.Value(s[..i])
    {
      assert s[..i + 1][..i] == s[..i] && s[i] == buf[i];
      v := v * 256 + buf[i];
      i := i + 1;
    }
    assert s[..length] == s;
    return Some((v, length));
  }

  // ---- Frames ----

  datatype Head = Head(kind: nat, length: nat, headLength: nat)

  predicate IsReservedH2(kind: nat) { kind == 2 || kind == 6 || kind == 8 || kind == 9 }

  function ParseHead(buf: seq<byte>): (r: Result<Option<Head>, nat>)
    ensures r.Ok? && r.value.Some? ==> 2 <= r.value.value.headLength <= |buf|
  {
    match GetVarint(buf)
    case None => Ok(None)
    case Some((kind, a)) =>
      match GetVarint(buf[a..])
      case None => Ok(None)
      case Some((length, b)) => if IsReservedH2(kind) then Err(FRAME_UNEXPECTED) else Ok(Some(Head(kind, length, a + b)))
  }

  lemma HeadStable(buf: seq<byte>, more: seq<byte>)
    ensures ParseHead(buf) != Ok(None) ==> ParseHead(buf + more) == ParseHead(buf)
  {
    VarintStable(buf, more);
    if GetVarint(buf).Some? {
      var a := GetVarint(buf).value.1;
      assert (buf + more)[a..] == buf[a..] + more;
      VarintStable(buf[a..], more);
    }
  }

  function FrameBytes(kind: nat, payload: seq<byte>): seq<byte>
    requires kind <= VARINT_MAX && |payload| <= VARINT_MAX
  {
    Varint(kind) + Varint(|payload|) + payload
  }

  method PutFrame(kind: nat, payload: seq<byte>, out: seq<byte>) returns (out': seq<byte>)
    requires kind <= VARINT_MAX && |payload| <= VARINT_MAX
    ensures out' == out + FrameBytes(kind, payload)
  {
    out' := PutVarint(kind, out);
    out' := PutVarint(|payload|, out');
    out' := out' + payload;
    assert out' == out + (Varint(kind) + Varint(|payload|) + payload);
  }

  /** A written frame's head is read back exactly when its kind is not one of HTTP/2's. */
  lemma HeadRoundTrip(kind: nat, payload: seq<byte>, rest: seq<byte>)
    requires kind <= VARINT_MAX && |payload| <= VARINT_MAX
    ensures ParseHead(FrameBytes(kind, payload) + rest) ==
            if IsReservedH2(kind) then Err(FRAME_UNEXPECTED)
            else Ok(Some(Head(kind, |payload|, |FrameBytes(kind, payload)| - |payload|)))
  {
    var (k, l) := (Varint(kind), Varint(|payload|));
    var buf := FrameBytes(kind, payload) + rest;
    VarintRoundTrip(kind, l + (payload + rest));
    assert buf == k + (l + (payload + rest));
    VarintRoundTrip(|payload|, payload + rest);
    assert buf[|k|..] == l + (payload + rest);
  }

  // ---- SETTINGS ----

  datatype Settings = Settings(capacity: nat, blocked: nat, maxSection: nat)

  const DEFAULT_SETTINGS: Settings := Settings(0, 0, 0x1_0000)

  /** A parameter's effect; unknown ones are ignored. */
  function With(s: Settings, id: nat, v: nat): Settings {
    if id == QPACK_MAX_TABLE_CAPACITY then s.(capacity := v)
    else if id == QPACK_BLOCKED_STREAMS then s.(blocked := v)
    else if id == MAX_FIELD_SECTION_SIZE then s.(maxSection := v)
    else s
  }

  predicate IsReservedSetting(id: nat) { 2 <= id <= 5 }

  /** Two integers at the front, and what follows. */
  function PairAt(buf: seq<byte>): (r: Option<(nat, nat, seq<byte>)>)
    ensures r.Some? ==> |r.value.2| < |buf|
  {
    match GetVarint(buf)
    case None => None
    case Some((id, n)) =>
      match GetVarint(buf[n..]) case None => None case Some((v, m)) => Some((id, v, buf[n..][m..]))
  }

  function Decoded(s: Settings, buf: seq<byte>): Result<Settings, nat>
    decreases |buf|
  {
    if buf == [] then Ok(s)
    else match PairAt(buf)
      case None => Err(SETTINGS_ERROR)
      case Some((id, v, rest)) => if IsReservedSetting(id) then Err(SETTINGS_ERROR) else Decoded(With(s, id, v), rest)
  }

  function PairsBytes(pairs: seq<(nat, nat)>): seq<byte>
    requires forall p | p in pairs :: p.0 <= VARINT_MAX && p.1 <= VARINT_MAX
  {
    if pairs == [] then [] else Varint(pairs[0].0) + Varint(pairs[0].1) + PairsBytes(pairs[1..])
  }

  function PairsMean(s: Settings, pairs: seq<(nat, nat)>): Settings
    decreases |pairs|
  {
    if pairs == [] then s else PairsMean(With(s, pairs[0].0, pairs[0].1), pairs[1..])
  }

  predicate HasReserved(pairs: seq<(nat, nat)>) { pairs != [] && (IsReservedSetting(pairs[0].0) || HasReserved(pairs[1..])) }

  lemma PairReads(id: nat, v: nat, rest: seq<byte>)
    requires id <= VARINT_MAX && v <= VARINT_MAX
    ensures PairAt(Varint(id) + Varint(v) + rest) == Some((id, v, rest))
  {
    var (i, w) := (Varint(id), Varint(v));
    var buf := i + w + rest;
    assert buf == i + (w + rest);
    VarintRoundTrip(id, w + rest);
    VarintRoundTrip(v, rest);
    assert buf[|i|..] == w + rest && (w + rest)[|w|..] == rest;
  }

  /** Any list of parameters, in any order and with any unknown ones, is decoded to what it means; unless
      one of HTTP/2's is in it. */
  lemma {:induction false} PairsDecode(s: Settings, pairs: seq<(nat, nat)>)
    requires forall p | p in pairs :: p.0 <= VARINT_MAX && p.1 <= VARINT_MAX
    ensures Decoded(s, PairsBytes(pairs)) ==
            if HasReserved(pairs) then Err(SETTINGS_ERROR) else Ok(PairsMean(s, pairs))
    decreases |pairs|
  {
    if pairs != [] {
      PairReads(pairs[0].0, pairs[0].1, PairsBytes(pairs[1..]));
      PairsDecode(With(s, pairs[0].0, pairs[0].1), pairs[1..]);
    }
  }

  function PairsOf(s: Settings): seq<(nat, nat)> {
    [(QPACK_MAX_TABLE_CAPACITY, s.capacity), (QPACK_BLOCKED_STREAMS, s.blocked), (MAX_FIELD_SECTION_SIZE, s.maxSection)]
  }

  /** Our own settings come back as they are. */
  lemma SettingsRoundTrip(s: Settings)
    requires s.capacity <= VARINT_MAX && s.blocked <= VARINT_MAX && s.maxSection <= VARINT_MAX
    ensures Decoded(DEFAULT_SETTINGS, PairsBytes(PairsOf(s))) == Ok(s)
  {
    PairsDecode(DEFAULT_SETTINGS, PairsOf(s));
    PairsAre(s);
    NoneReserved(s);
  }

  lemma NoneReserved(s: Settings)
    ensures !HasReserved(PairsOf(s))
  {
    var ps := PairsOf(s);
    var tail := ps[1..];
    var last := tail[1..];
    assert tail == [ps[1], ps[2]] && last == [ps[2]] && |last[1..]| == 0;
    assert !HasReserved(last) && !HasReserved(tail);
  }

  lemma PairsAre(s: Settings)
    ensures PairsMean(DEFAULT_SETTINGS, PairsOf(s)) == s
  {
    var ps := PairsOf(s);
    var tail := ps[1..];
    var last := tail[1..];
    assert tail == [ps[1], ps[2]] && last == [ps[2]] && |last[1..]| == 0;
    var s1 := With(DEFAULT_SETTINGS, ps[0].0, ps[0].1);
    var s2 := With(s1, ps[1].0, ps[1].1);
    assert PairsMean(s2, last) == PairsMean(With(s2, ps[2].0, ps[2].1), last[1..]);
    assert PairsMean(s1, tail) == PairsMean(s2, last);
  }

  lemma PairsNext(out: seq<byte>, pairs: seq<(nat, nat)>, k: nat)
    requires k < |pairs| && forall p | p in pairs :: p.0 <= VARINT_MAX && p.1 <= VARINT_MAX
    ensures out + Varint(pairs[k].0) + Varint(pairs[k].1) + PairsBytes(pairs[k + 1..]) == out + PairsBytes(pairs[k..])
  {
    assert pairs[k..][1..] == pairs[k + 1..];
    assert PairsBytes(pairs[k..]) == Varint(pairs[k].0) + Varint(pairs[k].1) + PairsBytes(pairs[k + 1..]);
  }

  method EncodeSettings(s: Settings, out: seq<byte>) returns (out': seq<byte>)
    requires s.capacity <= VARINT_MAX && s.blocked <= VARINT_MAX && s.maxSection <= VARINT_MAX
    ensures out' == out + PairsBytes(PairsOf(s))
  {
    var pairs := PairsOf(s);
    out' := out;
    for k := 0 to |pairs|
      invariant out' + PairsBytes(pairs[k..]) == out + PairsBytes(pairs)
    {
      PairsNext(out', pairs, k);
      out' := PutVarint(pairs[k].0, out');
      out' := PutVarint(pairs[k].1, out');
    }
    assert pairs[|pairs|..] == [] && out' + [] == out';
  }

  method DecodeSettings(buf: seq<byte>) returns (r: Result<Settings, nat>)
    ensures r == Decoded(DEFAULT_SETTINGS, buf)
  {
    var s := DEFAULT_SETTINGS;
    var rest := buf;
    while rest != []
      invariant Decoded(s, rest) == Decoded(DEFAULT_SETTINGS, buf)
      decreases |rest|
    {
      var id := ReadVarint(rest);
      if id.None? { return Err(SETTINGS_ERROR); }
      var tail := rest[id.value.1..];
      var v := ReadVarint(tail);
      if v.None? { return Err(SETTINGS_ERROR); }
      if IsReservedSetting(id.value.0) { return Err(SETTINGS_ERROR); }
      s := With(s, id.value.0, v.value.0);
      rest := tail[v.value.1..];
    }
    return Ok(s);
  }
}
