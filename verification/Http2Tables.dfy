/** Whose limit a client's SETTINGS_HEADER_TABLE_SIZE is. It is for what the client decodes; the loop gives it to its
    own decoder, which the client's encoder knows nothing of. */
module Http2Tables {
  import opened Wrappers
  import opened Bits
  import opened Http2Frame
  import opened Http2Conn
  import opened Http2Safety
  import opened Http2Runs
  import opened Http2Answers
  import opened Http2Headers
  import opened Http2Client
  import opened Http2Crowd
  import BigEndian
  import Hpack
  import HpackPeer
  import HpackStatic
  import Utf8

  lemma ResizedOnce(d: Hpack.Table, payload: seq<byte>, n: nat)
    requires Params(payload) == [(1, n)]
    ensures Resized(d, payload) == Hpack.WithSettings(d, n)
  {
    var (first, rest) := ((BigEndian.Value(payload[..2]), BigEndian.Value(payload[2..6])), Params(payload[6..]));
    assert Params(payload) == [first] + rest;
    assert Params(payload)[0] == first;
    assert |rest| == 0 && |payload[6..]| < 6;
    NothingResized(Hpack.WithSettings(d, n), payload[6..]);
  }

  lemma NothingResized(d: Hpack.Table, payload: seq<byte>)
    requires |payload| < 6
    ensures Resized(d, payload) == d
  {}

  /** The decoder takes the limit as its own. */
  lemma OwnLimitTaken(c: Conn, f: Frame, answer: Hpack.Decoding, c': Conn, n: nat)
    requires Inv(c) && Follows(c, Receive(f, answer), c') && f.kind == SETTINGS && !Ack(f) && Params(f.payload) == [(1, n)]
    ensures c'.dec == Hpack.WithSettings(c.dec, n)
  {
    DecoderStep(c, f, answer, c');
    ResizedOnce(c.dec, f.payload, n);
  }

  /** A new stream whose whole header block is in `g`. */
  ghost predicate Starts(c: Conn, g: Frame, block: seq<byte>) {
    && g.kind == HEADERS && EndHeaders(g) && FragmentOf(g) == Block(block) && g.stream % 2 == 1 && |g.payload| <= 16384
    && Fresh(c.rx, g.stream) && Midway(c.rx) == None
  }

  lemma StartCompletes(c: Conn, g: Frame, block: seq<byte>)
    requires Inv(c) && Knows(c) && Starts(c, g, block) && |Active(c)| < 128
    ensures Lawful(c.rx, g) && !ToldOff(c.tx, g.stream) && Completes(c, g) && Assembled(c, g) == block
  {
    ReceiveBefore(c, g);
    FreshWhere(c, g);
  }

  /** A block that the decoder cannot follow ends the connection. */
  lemma BadBlockEnds(c: Conn, g: Frame, block: seq<byte>, answer: Hpack.Decoding)
    requires Inv(c) && Knows(c) && Starts(c, g, block) && |Active(c)| < 128
    requires Decode(c.dec, block).failure == Some(Hpack.Compression) && Honest(c, Receive(g, answer))
    ensures EndsWith(c, g, answer, Compression)
  {
    StartCompletes(c, g, block);
    LawfulIsServed(c, g, answer);
  }

  /** The frame is lawful, and whatever the decoder says of it, it ends the connection. */
  ghost predicate CannotFollow(c: Conn, g: Frame) {
    Lawful(c.rx, g) && forall answer | Honest(c, Receive(g, answer)) :: EndsWith(c, g, answer, Compression)
  }

  /** A lawful SETTINGS, and then a lawful request that refers to an entry which both sides have had: where it is not
      among the newest that fit the client's limit, the connection ends. */
  lemma OwnLimitEnds(c: Conn, f: Frame, answer: Hpack.Decoding, c': Conn, n: nat, p: HpackPeer.Peer, j: nat, g: Frame, block: seq<byte>)
    requires Inv(c) && Knows(c) && Lawful(c.rx, f) && Follows(c, Receive(f, answer), c')
    requires f.kind == SETTINGS && !Ack(f) && Params(f.payload) == [(1, n)]
    requires HpackPeer.Agree(p, c.dec) && p.settings < 0x1_0000_0000 && j < p.kept && HpackPeer.Longest(p.history, p.kept, n) <= j
    requires block == HpackPeer.InstBytes(HpackStatic.Rfc7541Static(), HpackPeer.Indexed(HpackPeer.Dynamic(j)))
    requires Starts(c', g, block) && Linked(c') && |Active(c')| < 128
    ensures CannotFollow(c', g)
  {
    var st := HpackStatic.Rfc7541Static();
    HpackStatic.SixtyOneRows();
    OwnLimitTaken(c, f, answer, c', n);
    HpackPeer.OwnLimitDrops(st, p, c.dec, n, j, []);
    assert block + [] == block;
    ThenInv(c, f, answer, c');
    StartCompletes(c', g, block);
    forall later | Honest(c', Receive(g, later)) ensures EndsWith(c', g, later, Compression) { BadBlockEnds(c', g, block, later); }
  }

  // ---- A run ----

  /** `a: b`, as a literal with indexing. */
  const A_IS_B: seq<byte> := [0x40, 0x01, 0x61, 0x01, 0x62]

  ghost predicate IsEntry(inst: HpackPeer.Inst, name: seq<byte>, value: seq<byte>) {
    inst == HpackPeer.Literal(HpackPeer.Indexing, HpackPeer.New(HpackPeer.Text(name, false)), HpackPeer.Text(value, false))
  }

  lemma EntryBytes(st: seq<Hpack.Header>, inst: HpackPeer.Inst, name: seq<byte>, value: seq<byte>)
    requires IsEntry(inst, name, value) && name == [0x61] && value == [0x62]
    ensures HpackPeer.InstBytes(st, inst) == A_IS_B
  {
    HpackPeer.Kinds();
    assert HpackPeer.TextBytes(HpackPeer.Text(name, false)) == [0x01] + name;
    assert HpackPeer.TextBytes(HpackPeer.Text(value, false)) == [0x01] + value;
    assert HpackPeer.NameText(st, inst.name, 6, 0x40) == [0x40, 0x01] + name;
  }

  lemma EntryIsOk(st: seq<Hpack.Header>, p: HpackPeer.Peer, inst: HpackPeer.Inst, name: seq<byte>, value: seq<byte>)
    requires IsEntry(inst, name, value) && name == [0x61] && value == [0x62]
    ensures HpackPeer.InstOk(st, p, inst, false) && HpackPeer.Field(st, p, inst) == Hpack.Header(name, value)
  {
    Utf8.AsciiIsValid(name);
    Utf8.AsciiIsValid(value);
  }

  /** The decoder knows that one entry, and so does the peer. */
  lemma EntryReads(st: seq<Hpack.Header>, d: Hpack.Table, p: HpackPeer.Peer, inst: HpackPeer.Inst, block: seq<byte>, p': HpackPeer.Peer)
    requires Hpack.SmallTable(st) && Blank(d) && p == HpackPeer.Peer([], 0, 4096, 4096) && IsEntry(inst, [0x61], [0x62])
    requires block == HpackPeer.InstBytes(st, inst) && p' == HpackPeer.Peer([Hpack.Header([0x61], [0x62])], 1, 4096, 4096)
    ensures var r := Hpack.DecodeBlock(st, d, block, MAX_HEADER_LIST);
            r.failure == None && HpackPeer.Agree(p', r.table)
  {
    var h := Hpack.Header([0x61], [0x62]);
    HpackPeer.FreshAgrees(4096);
    EntryIsOk(st, p, inst, [0x61], [0x62]);
    OneCost(h);
    HpackPeer.InstDecodes(st, p, d, inst, [], MAX_HEADER_LIST, false, []);
    HpackPeer.InstAgrees(st, p, d, inst);
    assert block + [] == block && [] + [h] == [h] && [h] + [] == [h];
    HpackPeer.LongestIs([h], 1, 4096, 1);
  }

  lemma OneCost(h: Hpack.Header)
    ensures Hpack.Cost([h]) == |h.name| + |h.value| + 32 && [h][..1] == [h]
  {
    assert [h][..0] == [];
  }

  /** The decoder has the entry that the peer has. */
  ghost predicate HasEntry(c: Conn, p: HpackPeer.Peer) {
    p == HpackPeer.Peer([Hpack.Header([0x61], [0x62])], 1, 4096, 4096) && HpackPeer.Agree(p, c.dec)
  }

  lemma EntryDecoded(d: Hpack.Table, block: seq<byte>, p: HpackPeer.Peer)
    requires Blank(d) && block == A_IS_B && p == HpackPeer.Peer([Hpack.Header([0x61], [0x62])], 1, 4096, 4096)
    ensures var r := Decode(d, block); r.failure == None && HpackPeer.Agree(p, r.table)
  {
    var st := HpackStatic.Rfc7541Static();
    var inst := HpackPeer.Literal(HpackPeer.Indexing, HpackPeer.New(HpackPeer.Text([0x61], false)), HpackPeer.Text([0x62], false));
    HpackStatic.SixtyOneRows();
    EntryBytes(st, inst, [0x61], [0x62]);
    EntryReads(st, d, HpackPeer.Peer([], 0, 4096, 4096), inst, block, p);
  }

  /** The answer is the decoder's, and leaves it with the entry. */
  lemma EntryAnswer(c: Conn, f: Frame, p: HpackPeer.Peer) returns (answer: Hpack.Decoding)
    requires Blank(c.dec) && f.kind == HEADERS && FragmentOf(f) == Block(A_IS_B) && p == HpackPeer.Peer([Hpack.Header([0x61], [0x62])], 1, 4096, 4096)
    ensures Honest(c, Receive(f, answer)) && answer.failure == None && HpackPeer.Agree(p, answer.table)
  {
    answer := Decode(c.dec, A_IS_B);
    EntryDecoded(c.dec, A_IS_B, p);
  }

  lemma EntryEvent(c: Conn, f: Frame, p: HpackPeer.Peer) returns (e: Event)
    requires Inv(c) && Knows(c) && Blank(c.dec) && Starts(c, f, A_IS_B) && |Active(c)| < 128 && p == HpackPeer.Peer([Hpack.Header([0x61], [0x62])], 1, 4096, 4096)
    ensures Next(c, e) && e.Receive? && e.f == f && Completes(c, f) && HpackPeer.Agree(p, e.answer.table)
  {
    StartCompletes(c, f, A_IS_B);
    var answer := EntryAnswer(c, f, p);
    LawfulIsServed(c, f, answer);
    e := Receive(f, answer);
  }

  lemma EntryRun(maxBody: nat, f: Frame, p: HpackPeer.Peer) returns (cs: seq<Conn>, es: seq<Event>, c: Conn)
    requires f == Frame(HEADERS, 4, 1, A_IS_B) && p == HpackPeer.Peer([Hpack.Header([0x61], [0x62])], 1, 4096, 4096)
    ensures RunTo(maxBody, cs, es, c) && |es| == 1 && c.rx == [f] && HasEntry(c, p)
  {
    var c0;
    cs, es, c0 := CrowdRun(maxBody, 0);
    var e := EntryEvent(c0, f, p);
    cs, es, c := GoOn(maxBody, cs, es, c0, e);
    DecoderStep(c0, f, e.answer, c);
    ReadFrame(c0, f, e.answer, c);
  }

  /** The client says that for its part it keeps no table. */
  ghost predicate KeepsNone(f: Frame) { f == Frame(SETTINGS, 0, 0, [0, 1, 0, 0, 0, 0]) }

  lemma NoneIs(f: Frame)
    requires KeepsNone(f)
    ensures !Ack(f) && Params(f.payload) == [(1, 0)]
  {
    var b := f.payload;
    assert b[..2] == [0, 1] && b[2..6] == [0, 0, 0, 0] && b[6..] == [];
    BigEndian.MostSignificantFirst(0, [1]);
    BigEndian.MostSignificantFirst(0, [0, 0, 0]);
    BigEndian.MostSignificantFirst(0, [0, 0]);
    BigEndian.MostSignificantFirst(0, [0]);
    assert [0] + [1] == b[..2] && [0] + [0, 0, 0] == b[2..6] && [0] + [0, 0] == [0, 0, 0] && [0] + [0] == [0, 0];
    assert [1][..0] == [] && [0][..0] == [];
  }

  lemma NoneEvent(c: Conn, f: Frame) returns (e: Event)
    requires Inv(c) && Knows(c) && KeepsNone(f) && Midway(c.rx) == None
    ensures Next(c, e) && e.Receive? && e.f == f
  {
    NoneIs(f);
    e := Receive(f, Hpack.Decoding(c.dec, None, []));
    LawfulIsServed(c, f, e.answer);
  }

  /** After these two frames no stream but the first was begun. */
  lemma OnlyFirst(c: Conn, f: Frame, s: Frame)
    requires Inv(c) && Knows(c) && c.rx == [f] + [s] && f.stream == 1 && s.kind == SETTINGS
    ensures Midway(c.rx) == None && Fresh(c.rx, 3) && |Active(c)| < 128
  {
    MidwayNext([f], s);
    forall k: nat | Began(c.rx, k) ensures k < 3 {
      LogNext([f], s, k);
      LogNext([], f, k);
      assert [] + [f] == [f];
    }
    FewActive(c);
  }

  lemma FewActive(c: Conn)
    requires Inv(c) && Knows(c) && Fresh(c.rx, 3)
    ensures |Active(c)| < 128
  {
    forall k | k in Active(c) ensures k in {0, 1, 2} { assert Numbered(c, k); }
    Subset(Active(c), {0, 1, 2});
  }

  lemma NewestIs(block: seq<byte>)
    requires block == [0xBE]
    ensures block == HpackPeer.InstBytes(HpackStatic.Rfc7541Static(), HpackPeer.Indexed(HpackPeer.Dynamic(0)))
  {
    HpackPeer.Kinds();
    HpackStatic.SixtyOneRows();
  }

  lemma NoneFits(p: HpackPeer.Peer)
    requires p == HpackPeer.Peer([Hpack.Header([0x61], [0x62])], 1, 4096, 4096)
    ensures HpackPeer.Longest(p.history, p.kept, 0) == 0
  {
    OneCost(p.history[0]);
    assert p.history[..1] == p.history && p.history[..0] == [];
    HpackPeer.LongestIs(p.history, 1, 0, 0);
  }

  lemma AfterNone(c: Conn, f: Frame, s: Frame, answer: Hpack.Decoding, c': Conn, p: HpackPeer.Peer, g: Frame)
    requires Inv(c) && Knows(c) && c.rx == [f] && f.stream == 1 && HasEntry(c, p) && KeepsNone(s)
    requires LawfulEvent(c, Receive(s, answer)) && Follows(c, Receive(s, answer), c') && g == Frame(HEADERS, 5, 3, [0xBE])
    ensures c'.rx == [f] + [s] && CannotFollow(c', g)
  {
    ReadFrame(c, s, answer, c');
    ThenInv(c, s, answer, c');
    OnlyFirst(c', f, s);
    NoneIs(s);
    NewestIs(g.payload);
    NoneFits(p);
    OwnLimitEnds(c, s, answer, c', 0, p, 0, g, g.payload);
  }

  /** A client that indexes `a: b`, names for its own part a table of size 0, and then uses the entry. */
  lemma OwnLimitRun(maxBody: nat, f: Frame, s: Frame, g: Frame) returns (cs: seq<Conn>, es: seq<Event>, c: Conn)
    requires f == Frame(HEADERS, 4, 1, A_IS_B) && KeepsNone(s) && g == Frame(HEADERS, 5, 3, [0xBE])
    ensures RunTo(maxBody, cs, es, c) && |es| == 2 && c.rx == [f] + [s] && CannotFollow(c, g)
  {
    var c0;
    var p := HpackPeer.Peer([Hpack.Header([0x61], [0x62])], 1, 4096, 4096);
    cs, es, c0 := EntryRun(maxBody, f, p);
    MidwayNext([], f);
    var e := NoneEvent(c0, s);
    cs, es, c := GoOn(maxBody, cs, es, c0, e);
    AfterNone(c0, f, s, e.answer, c, p, g);
  }
}
