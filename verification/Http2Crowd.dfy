/** Two runs of a client that keeps to the rules and is turned away all the same: streams it has cancelled still
    count as open, and trailers that were on their way when the server reset their stream end the connection. */
module Http2Crowd {
  import opened Wrappers
  import opened Bits
  import opened Http2Frame
  import opened Http2Conn
  import opened Http2Safety
  import opened Http2Runs
  import opened Http2Headers
  import opened Http2Client
  import Hpack
  import HpackInt
  import HpackPeer
  import HpackStatic
  import Utf8

  /** A stream begun and not ended counts until the server resets it: that the client has cancelled it changes
      nothing. */
  lemma CountsExactly(maxBody: nat, cs: seq<Conn>, es: seq<Event>, i: nat, c: Conn, id: nat)
    requires LawfulRun(maxBody, cs, es) && i <= |es| && c == cs[i] && Began(c.rx, id) && !Ended(c.rx, id)
    ensures Linked(c) && (id in Active(c) <==> !ToldOff(c.tx, id))
  {
    EverKnown(maxBody, cs, es, i, c);
    EveryRun(maxBody, cs, es, i);
    RefusedIsTold(c.tx, id);
    assert Known(c, id);
  }

  // ---- Frames ----

  /** The header block of a lone `:method: POST`, spelled out. */
  const METHOD: seq<byte> := [0x3A, 0x6D, 0x65, 0x74, 0x68, 0x6F, 0x64]
  const VERB: seq<byte> := [0x50, 0x4F, 0x53, 0x54]
  const POST: seq<byte> := [0x00, 0x07] + METHOD + [0x04] + VERB

  function Opening(id: nat): Frame { Frame(HEADERS, 4, id, POST) }

  function Cancelling(id: nat): Frame { Frame(RST_STREAM, 0, id, [0, 0, 0, 8]) }

  /** The decoder before any entry. */
  ghost predicate Blank(d: Hpack.Table) { d == Hpack.Table([], 0, 4096, 4096, []) }

  /** What it makes of that block. */
  ghost predicate Posted(d: Hpack.Table, answer: Hpack.Decoding) {
    answer.table == d && answer.failure == None && |answer.out| == 1
  }

  ghost predicate IsPost(inst: HpackPeer.Inst, name: seq<byte>, value: seq<byte>) {
    inst == HpackPeer.Literal(HpackPeer.Plain, HpackPeer.New(HpackPeer.Text(name, false)), HpackPeer.Text(value, false))
  }

  lemma PostBytes(st: seq<Hpack.Header>, inst: HpackPeer.Inst, name: seq<byte>, value: seq<byte>)
    requires IsPost(inst, name, value) && |name| == 7 && |value| == 4
    ensures HpackPeer.InstBytes(st, inst) == [0x00, 0x07] + name + [0x04] + value
  {
    HpackPeer.Kinds();
    assert HpackPeer.TextBytes(HpackPeer.Text(name, false)) == [0x07] + name;
    assert HpackPeer.TextBytes(HpackPeer.Text(value, false)) == [0x04] + value;
    assert HpackPeer.NameText(st, inst.name, 4, 0x00) == [0x00, 0x07] + name;
  }

  lemma PostIsOk(st: seq<Hpack.Header>, p: HpackPeer.Peer, inst: HpackPeer.Inst, name: seq<byte>, value: seq<byte>)
    requires IsPost(inst, name, value) && Utf8.Valid(name) && Utf8.Valid(value) && |name| == 7 && |value| == 4
    ensures HpackPeer.InstOk(st, p, inst, false)
  {}

  lemma MethodIsText(name: seq<byte>)
    requires name == METHOD
    ensures Utf8.Valid(name) && |name| == 7
  {
    assert forall i | 0 <= i < 7 :: name[i] < 0x80;
    Utf8.AsciiIsValid(name);
  }

  lemma VerbIsText(value: seq<byte>)
    requires value == VERB
    ensures Utf8.Valid(value) && |value| == 4
  {
    assert forall i | 0 <= i < 4 :: value[i] < 0x80;
    Utf8.AsciiIsValid(value);
  }

  lemma PostReads(st: seq<Hpack.Header>, d: Hpack.Table, block: seq<byte>, rest: seq<byte>, inst: HpackPeer.Inst)
    requires Hpack.SmallTable(st) && Blank(d) && IsPost(inst, METHOD, VERB) && rest == [] && block == HpackPeer.InstBytes(st, inst) + rest
    ensures Posted(d, Hpack.DecodeBlock(st, d, block, MAX_HEADER_LIST))
  {
    var p := HpackPeer.Peer([], 0, 4096, 4096);
    HpackPeer.FreshAgrees(4096);
    MethodIsText(METHOD);
    VerbIsText(VERB);
    PostIsOk(st, p, inst, METHOD, VERB);
    HpackPeer.InstDecodes(st, p, d, inst, rest, MAX_HEADER_LIST, false, []);
    var h := Hpack.Header(METHOD, VERB);
    assert [] + [h] == [h] && Hpack.Cost([h]) == Hpack.EntrySize(h) by { assert [h][..0] == []; }
  }

  lemma PostIs(d: Hpack.Table)
    requires Blank(d)
    ensures Posted(d, Decode(d, POST))
  {
    var st := HpackStatic.Rfc7541Static();
    var inst := HpackPeer.Literal(HpackPeer.Plain, HpackPeer.New(HpackPeer.Text(METHOD, false)), HpackPeer.Text(VERB, false));
    HpackStatic.SixtyOneRows();
    PostBytes(st, inst, METHOD, VERB);
    assert POST + [] == POST;
    PostReads(st, d, POST, [], inst);
  }

  // ---- The crowd ----

  /** `n` streams were begun and cancelled. */
  ghost predicate Crowd(c: Conn, n: nat) {
    && Linked(c) && c.highest == 2 * n - (if n == 0 then 0 else 1) && c.awaited == None && Midway(c.rx) == None && Blank(c.dec)
    && |c.streams.Keys| == n && forall id | id in c.streams :: Parked(c, id)
  }

  /** Reset by the client, not handed out, and not done: never dropped, and counted. */
  ghost predicate Parked(c: Conn, id: nat)
    requires Linked(c) && id in c.streams
  {
    c.streams[id].state == Reset && !c.streams[id].dispatched && !c.flows[id].done && id % 2 == 1 && id <= c.highest
  }

  lemma CrowdCounts(c: Conn, n: nat)
    requires Crowd(c, n)
    ensures Active(c) == c.streams.Keys && |Active(c)| == n && Pruned(c) == c
    ensures forall id | id in c.streams :: id <= c.highest
  {
    forall id | id in c.streams ensures id in Active(c) && !Spent(c, id) && id <= c.highest { assert Parked(c, id); }
    assert Pruned(c).streams == c.streams;
  }

  /** The next stream is open, and the rest are a crowd. */
  ghost predicate CrowdAnd(c1: Conn, n: nat, id: nat) {
    && Linked(c1) && id == 2 * n + 1 && c1.highest == id && c1.awaited == None && Midway(c1.rx) == None && Blank(c1.dec)
    && |c1.streams.Keys| == n + 1 && id in c1.streams
    && c1.streams[id].state == Open && !c1.streams[id].dispatched && c1.streams[id].body == [] && !c1.flows[id].done
    && forall k | k in c1.streams && k != id :: Parked(c1, k)
  }

  lemma CrowdHears(c: Conn, n: nat, f: Frame, c0: Conn)
    requires Crowd(c, n) && f == Opening(2 * n + 1) && c0 == c.(rx := c.rx + [f])
    ensures Crowd(c0, n) && f.stream !in c0.streams && |Active(c0)| == n && Pruned(c0.(highest := f.stream)) == c0.(highest := f.stream)
  {
    MidwayNext(c.rx, f);
    assert forall k | k in c0.streams :: Parked(c, k);
    CrowdCounts(c0, n);
    assert Pruned(c0.(highest := f.stream)).streams == Pruned(c0).streams;
  }

  lemma NewlyOpened(c0: Conn, f: Frame, pruned: Conn, answer: Hpack.Decoding, c1: Conn)
    requires Linked(c0) && f.kind == HEADERS && f.stream % 2 == 1 && FragmentOf(f) == Block(POST) && f.stream > c0.highest && f.stream !in c0.streams
    requires |Active(c0)| < 128 && pruned == Pruned(c0.(highest := f.stream)) && OnHeaders(c0, f, answer) == Go(c1)
    ensures BlockOpened(Opened(pruned, f, POST), f, answer) == Go(c1)
  {
    NewIs(c0, f, POST, answer, pruned, Go(c1));
  }

  lemma JustOpened(c0: Conn, n: nat, f: Frame, pruned: Conn, answer: Hpack.Decoding, c1: Conn)
    requires Crowd(c0, n) && f == Opening(2 * n + 1) && f.stream !in c0.streams && pruned == c0.(highest := f.stream)
    requires Posted(c0.dec, answer) && BlockOpened(Opened(pruned, f, POST), f, answer) == Go(c1)
    ensures CrowdAnd(c1, n, f.stream) && c1.maxBody == c0.maxBody
  {
    var st := NewStream(f, POST).(pending := [], headers := answer.out, headersDone := true, length := ContentLength(answer.out));
    BlockIs(Opened(pruned, f, POST), f, answer, c1);
    assert c1.streams == c0.streams[f.stream := st];
    Joined(c0, n, f.stream, st, c1);
  }

  lemma BlockIs(c2: Conn, f: Frame, answer: Hpack.Decoding, c1: Conn)
    requires Linked(c2) && f.stream in c2.streams && EndHeaders(f) && answer.failure == None && !c2.streams[f.stream].trailers
    requires BlockOpened(c2, f, answer) == Go(c1)
    ensures var st := c2.streams[f.stream].(pending := [], headers := answer.out, headersDone := true, length := ContentLength(answer.out));
            c1 == Put(c2, f.stream, st).(dec := answer.table)
  {}

  lemma Joined(c0: Conn, n: nat, id: nat, st: Stream, c1: Conn)
    requires Crowd(c0, n) && id == 2 * n + 1 && id !in c0.streams && st.state == Open && !st.dispatched && st.body == [] && Linked(c1)
    requires c1.streams == c0.streams[id := st] && c1.flows == c0.flows[id := Flow(c0.peerInitial, false, false)]
    requires c1.highest == id && c1.awaited == None && Midway(c1.rx) == None && Blank(c1.dec)
    ensures CrowdAnd(c1, n, id)
  {
    assert c1.streams.Keys == c0.streams.Keys + {id};
    forall k | k in c1.streams && k != id ensures Parked(c1, k) { assert Parked(c0, k); }
  }

  lemma CrowdCancels(c: Conn, n: nat, f: Frame, c0: Conn, c1: Conn)
    requires CrowdAnd(c, n, f.stream) && f == Cancelling(2 * n + 1) && c0 == c.(rx := c.rx + [f])
    requires OnRst(c0, f) == Go(c1)
    ensures Crowd(c1, n + 1) && !Ready(c1, f.stream)
  {
    MidwayNext(c.rx, f);
    assert c1.streams.Keys == c.streams.Keys;
    forall k | k in c1.streams ensures Parked(c1, k) { if k != f.stream { assert Parked(c, k); } }
  }

  // ---- The run ----

  /** Every stream the client has begun it has cancelled. */
  ghost predicate AllCancelled(rx: seq<Frame>) { forall id: nat | Began(rx, id) :: Cancelled(rx, id) }

  lemma PairCancelled(rx: seq<Frame>, id: nat)
    requires AllCancelled(rx)
    ensures AllCancelled(rx + [Opening(id)] + [Cancelling(id)])
  {
    var rx1 := rx + [Opening(id)];
    forall k: nat | Began(rx1 + [Cancelling(id)], k) ensures Cancelled(rx1 + [Cancelling(id)], k) {
      LogNext(rx, Opening(id), k);
      LogNext(rx1, Cancelling(id), k);
    }
  }

  lemma OpeningIsLawful(c: Conn, n: nat)
    requires Knows(c) && Crowd(c, n)
    ensures Lawful(c.rx, Opening(2 * n + 1)) && !ToldOff(c.tx, 2 * n + 1)
  {
    forall k: nat | Began(c.rx, k) ensures k < 2 * n + 1 { assert Numbered(c, k); }
    assert Numbered(c, 2 * n + 1);
  }

  lemma OpeningServed(c: Conn, n: nat, f: Frame, answer: Hpack.Decoding)
    requires Inv(c) && Knows(c) && Crowd(c, n) && f == Opening(2 * n + 1) && Posted(c.dec, answer)
    ensures Linked(c) && CanContinue(c) && Step(c, Receive(f, answer)).Go? && LawfulEvent(c, Receive(f, answer))
  {
    OpeningIsLawful(c, n);
    LawfulIsServed(c, f, answer);
  }

  /** Taking a frame apart into what it does and the handing out after it. */
  lemma StepIs(c: Conn, f: Frame, answer: Hpack.Decoding, c0: Conn, c': Conn) returns (c1: Conn)
    requires Follows(c, Receive(f, answer), c') && c0 == c.(rx := c.rx + [f])
    ensures OnFrame(c0, f, answer) == Go(c1) && c' == Dispatched(c1, f.stream) && c'.rx == c.rx + [f]
  {
    c1 := OnFrame(c0, f, answer).c;
  }

  lemma OpeningStep(c: Conn, n: nat, f: Frame, answer: Hpack.Decoding, c': Conn)
    requires Crowd(c, n) && n < 128 && f == Opening(2 * n + 1) && Posted(c.dec, answer) && Follows(c, Receive(f, answer), c')
    ensures CrowdAnd(c', n, f.stream) && c'.rx == c.rx + [f] && c'.maxBody == c.maxBody
  {
    var c0 := c.(rx := c.rx + [f]);
    var c1 := StepIs(c, f, answer, c0, c');
    CrowdHears(c, n, f, c0);
    NewlyOpened(c0, f, c0.(highest := f.stream), answer, c1);
    JustOpened(c0, n, f, c0.(highest := f.stream), answer, c1);
  }

  lemma CancellingServed(c: Conn, n: nat, f: Frame, answer: Hpack.Decoding)
    requires Inv(c) && Knows(c) && CrowdAnd(c, n, f.stream) && f == Cancelling(2 * n + 1)
    ensures Linked(c) && CanContinue(c) && Step(c, Receive(f, answer)).Go? && LawfulEvent(c, Receive(f, answer))
  {
    assert Numbered(c, f.stream);
    LawfulIsServed(c, f, answer);
  }

  lemma CancellingStep(c: Conn, n: nat, f: Frame, answer: Hpack.Decoding, c': Conn)
    requires CrowdAnd(c, n, f.stream) && f == Cancelling(2 * n + 1) && Follows(c, Receive(f, answer), c')
    ensures Crowd(c', n + 1) && c'.rx == c.rx + [f]
  {
    var c0 := c.(rx := c.rx + [f]);
    var c1 := StepIs(c, f, answer, c0, c');
    CrowdCancels(c, n, f, c0, c1);
  }

  ghost predicate GoodRun(maxBody: nat, cs: seq<Conn>, es: seq<Event>) { LawfulRun(maxBody, cs, es) && HonestRun(maxBody, cs, es) }

  /** A run so far, and where it has come to. */
  ghost predicate RunTo(maxBody: nat, cs: seq<Conn>, es: seq<Event>, c: Conn) {
    GoodRun(maxBody, cs, es) && cs[|es|] == c && Inv(c) && Knows(c)
  }

  lemma RunOn(maxBody: nat, cs: seq<Conn>, es: seq<Event>, c: Conn, e: Event, c': Conn)
    requires RunTo(maxBody, cs, es, c) && Follows(c, e, c') && LawfulEvent(c, e) && Honest(c, e)
    ensures RunTo(maxBody, cs + [c'], es + [e], c')
  {
    var (cs', es') := (cs + [c'], es + [e]);
    forall i | 0 <= i < |es'| ensures Follows(cs'[i], es'[i], cs'[i + 1]) && LawfulEvent(cs'[i], es'[i]) && Honest(cs'[i], es'[i]) {
      if i < |es| { assert es'[i] == es[i] && cs'[i] == cs[i] && cs'[i + 1] == cs[i + 1]; }
    }
    EveryRun(maxBody, cs', es', |es'|);
    EverKnown(maxBody, cs', es', |es'|, c');
  }

  /** The event is one that a run may go on with. */
  ghost predicate Next(c: Conn, e: Event) {
    Linked(c) && CanContinue(c) && Step(c, e).Go? && LawfulEvent(c, e) && Honest(c, e)
  }

  lemma GoOn(maxBody: nat, cs: seq<Conn>, es: seq<Event>, c: Conn, e: Event) returns (cs': seq<Conn>, es': seq<Event>, c': Conn)
    requires RunTo(maxBody, cs, es, c) && Next(c, e)
    ensures RunTo(maxBody, cs', es', c') && |es'| == |es| + 1 && Follows(c, e, c')
  {
    c' := Step(c, e).c;
    cs', es' := cs + [c'], es + [e];
    RunOn(maxBody, cs, es, c, e, c');
  }

  lemma HonestAnswer(c: Conn, f: Frame) returns (answer: Hpack.Decoding)
    requires Blank(c.dec) && f.kind == HEADERS && FragmentOf(f) == Block(POST)
    ensures Posted(c.dec, answer) && Honest(c, Receive(f, answer))
  {
    answer := Decode(c.dec, POST);
    PostIs(c.dec);
  }

  lemma OpeningEvent(c: Conn, n: nat, f: Frame) returns (e: Event)
    requires Inv(c) && Knows(c) && Crowd(c, n) && f == Opening(2 * n + 1)
    ensures e.Receive? && e.f == f && Posted(c.dec, e.answer) && Next(c, e)
  {
    var answer := HonestAnswer(c, f);
    OpeningServed(c, n, f, answer);
    e := Receive(f, answer);
  }

  lemma OneMore(maxBody: nat, cs: seq<Conn>, es: seq<Event>, c: Conn, n: nat, f: Frame) returns (cs': seq<Conn>, es': seq<Event>, c': Conn)
    requires RunTo(maxBody, cs, es, c) && Crowd(c, n) && n < 128 && f == Opening(2 * n + 1)
    ensures RunTo(maxBody, cs', es', c') && |es'| == |es| + 1 && CrowdAnd(c', n, f.stream) && c'.rx == c.rx + [f] && c'.maxBody == c.maxBody
  {
    var e := OpeningEvent(c, n, f);
    cs', es', c' := GoOn(maxBody, cs, es, c, e);
    OpeningStep(c, n, f, e.answer, c');
  }

  lemma OneLess(maxBody: nat, cs: seq<Conn>, es: seq<Event>, c: Conn, n: nat, f: Frame) returns (cs': seq<Conn>, es': seq<Event>, c': Conn)
    requires RunTo(maxBody, cs, es, c) && CrowdAnd(c, n, f.stream) && f == Cancelling(2 * n + 1)
    ensures RunTo(maxBody, cs', es', c') && |es'| == |es| + 1 && Crowd(c', n + 1) && c'.rx == c.rx + [f]
  {
    var e := Receive(f, Hpack.Decoding(c.dec, None, []));
    CancellingServed(c, n, e.f, e.answer);
    cs', es', c' := GoOn(maxBody, cs, es, c, e);
    CancellingStep(c, n, f, e.answer, c');
  }

  lemma {:induction false} CrowdRun(maxBody: nat, n: nat) returns (cs: seq<Conn>, es: seq<Event>, c: Conn)
    requires n <= 128
    ensures RunTo(maxBody, cs, es, c) && |es| == 2 * n && Crowd(c, n) && AllCancelled(c.rx) && (n == 0 ==> c == Init(maxBody))
  {
    if n == 0 {
      c := Init(maxBody);
      cs, es := [c], [];
      InitInv(maxBody);
      FreshKnows(maxBody);
    } else {
      cs, es, c := CrowdRun(maxBody, n - 1);
      PairCancelled(c.rx, 2 * n - 1);
      cs, es, c := OneMore(maxBody, cs, es, c, n - 1, Opening(2 * n - 1));
      cs, es, c := OneLess(maxBody, cs, es, c, n - 1, Cancelling(2 * n - 1));
    }
  }

  // ---- Turned away ----

  lemma FullRefuses(c: Conn, f: Frame, answer: Hpack.Decoding, c': Conn)
    requires Crowd(c, 128) && f == Opening(257) && Follows(c, Receive(f, answer), c')
    ensures c'.tx == c.tx + [Rst(257, RefusedStream)] && c'.rx == c.rx + [f]
  {
    var c0 := c.(rx := c.rx + [f]);
    var c1 := StepIs(c, f, answer, c0, c');
    CrowdHears(c, 128, f, c0);
    NewIs(c0, f, POST, answer, c0.(highest := f.stream), Go(c1));
  }

  /** The frame ends the connection. */
  ghost predicate EndsWith(c: Conn, f: Frame, answer: Hpack.Decoding, code: Code) {
    Linked(c) && CanContinue(c) && Step(c, Receive(f, answer)) == Stop(code)
  }

  /** The last bytes of a body. */
  function Sent(id: nat, data: seq<byte>): Frame { Frame(DATA, 1, id, data) }

  lemma StillSending(c: Conn, f: Frame, rx: seq<Frame>)
    requires Begins(f, f.stream) && !EndStream(f) && rx == c.rx + [f] && Knows(c) && !Began(c.rx, f.stream)
    ensures Sending(rx, f.stream)
  {
    assert Numbered(c, f.stream);
    LogNext(c.rx, f, f.stream);
  }

  lemma SentIsLawful(rx: seq<Frame>, f: Frame, g: Frame)
    requires g == Sent(f.stream, []) && Sending(rx + [f], f.stream) && EndHeaders(f)
    ensures Lawful(rx + [f], g)
  {
    MidwayNext(rx, f);
  }

  lemma RefusedEnds(c: Conn, g: Frame, answer: Hpack.Decoding)
    requires Inv(c) && Knows(c) && Lawful(c.rx, g) && g.kind == DATA && Refused(c.tx, g.stream)
    ensures EndsWith(c, g, answer, StreamClosed)
  {
    LawfulIsServed(c, g, answer);
  }

  lemma EndsThen(c: Conn, f: Frame, g: Frame, answer: Hpack.Decoding, c': Conn)
    requires Knows(c) && Begins(f, f.stream) && !EndStream(f) && EndHeaders(f) && !Began(c.rx, f.stream)
    requires c'.tx == c.tx + [Rst(f.stream, RefusedStream)] && c'.rx == c.rx + [f] && Inv(c') && Knows(c') && g == Sent(f.stream, [])
    ensures Lawful(c'.rx, g) && EndsWith(c', g, answer, StreamClosed)
  {
    StillSending(c, f, c'.rx);
    SentIsLawful(c.rx, f, g);
    SaidNext(c.tx, Rst(f.stream, RefusedStream), f.stream);
    RefusedEnds(c', g, answer);
  }

  lemma NoRoom(c: Conn, f: Frame) returns (answer: Hpack.Decoding, c': Conn)
    requires Inv(c) && Knows(c) && Crowd(c, 128) && f == Opening(257)
    ensures LawfulEvent(c, Receive(f, answer)) && Follows(c, Receive(f, answer), c') && c'.tx == c.tx + [Rst(f.stream, RefusedStream)] && c'.rx == c.rx + [f]
  {
    var e := OpeningEvent(c, 128, f);
    answer := e.answer;
    c' := Step(c, e).c;
    FullRefuses(c, f, answer, c');
  }

  lemma ThenInv(c: Conn, f: Frame, answer: Hpack.Decoding, c': Conn)
    requires Inv(c) && Knows(c) && LawfulEvent(c, Receive(f, answer)) && Follows(c, Receive(f, answer), c')
    ensures Inv(c') && Knows(c')
  {
    StepInv(c, Receive(f, answer));
    StepKnows(c, Receive(f, answer), c');
  }

  lemma RefusedThen(c: Conn, f: Frame, g: Frame, answer: Hpack.Decoding, c': Conn)
    requires Inv(c) && Knows(c) && f.stream > c.highest && Begins(f, f.stream) && !EndStream(f) && EndHeaders(f) && g == Sent(f.stream, [])
    requires LawfulEvent(c, Receive(f, answer)) && Follows(c, Receive(f, answer), c') && c'.tx == c.tx + [Rst(f.stream, RefusedStream)] && c'.rx == c.rx + [f]
    ensures TurnedAway(c, f, g, answer, c')
  {
    ThenInv(c, f, answer, c');
    NotBegun(c, f.stream);
    EndsThen(c, f, g, answer, c');
  }

  lemma NotBegun(c: Conn, id: nat)
    requires Knows(c) && id > c.highest
    ensures !Began(c.rx, id)
  {
    assert Numbered(c, id);
  }

  /** A lawful frame is refused, and the lawful one after it ends the connection. */
  ghost predicate TurnedAway(c: Conn, f: Frame, g: Frame, answer: Hpack.Decoding, c': Conn) {
    && Lawful(c.rx, f) && Follows(c, Receive(f, answer), c') && c'.tx == c.tx + [Rst(f.stream, RefusedStream)]
    && Lawful(c'.rx, g) && EndsWith(c', g, answer, StreamClosed)
  }

  lemma FullTurnsAway(c: Conn, f: Frame, g: Frame) returns (answer: Hpack.Decoding, c': Conn)
    requires Inv(c) && Knows(c) && Crowd(c, 128) && f == Opening(257) && g == Sent(257, [])
    ensures TurnedAway(c, f, g, answer, c')
  {
    answer, c' := NoRoom(c, f);
    RefusedThen(c, f, g, answer, c');
  }

  /** With every stream cancelled that it ever began, after 256 frames a client has its next request refused; and
      if the body is on its way, the connection ends. */
  lemma CrowdedOut(maxBody: nat, f: Frame, g: Frame) returns (cs: seq<Conn>, es: seq<Event>, c: Conn, answer: Hpack.Decoding, c': Conn)
    requires f == Opening(257) && g == Sent(257, [])
    ensures RunTo(maxBody, cs, es, c) && |es| == 256 && AllCancelled(c.rx) && TurnedAway(c, f, g, answer, c')
  {
    cs, es, c := CrowdRun(maxBody, 128);
    answer, c' := FullTurnsAway(c, f, g);
  }

  // ---- Trailers on their way ----

  function Trailers(id: nat): Frame { Frame(HEADERS, 5, id, []) }

  lemma TooMuch(c: Conn, f: Frame, answer: Hpack.Decoding, c': Conn)
    requires CrowdAnd(c, 0, 1) && f.kind == DATA && f.stream == 1 && !Padded(f) && |f.payload| > c.maxBody && Follows(c, Receive(f, answer), c')
    ensures ToldOff(c'.tx, 1) && c'.rx == c.rx + [f]
  {
    var c0 := c.(rx := c.rx + [f]);
    var c1 := StepIs(c, f, answer, c0, c');
    var c2 := Replenished(c0.(recvWindow := c0.recvWindow - |f.payload|));
    assert c1 == ResetStream(c2, 1, EnhanceYourCalm);
    ResetIs(c2, 1, EnhanceYourCalm);
  }

  lemma PartEvent(c: Conn, f: Frame) returns (e: Event)
    requires Inv(c) && Knows(c) && CrowdAnd(c, 0, 1) && Sending(c.rx, 1)
    requires f.kind == DATA && f.stream == 1 && !Padded(f) && |f.payload| <= 16384
    ensures e.Receive? && e.f == f && Next(c, e)
  {
    e := Receive(f, Hpack.Decoding(c.dec, None, []));
    PartServed(c, f, e.answer);
  }

  lemma PartServed(c: Conn, f: Frame, answer: Hpack.Decoding)
    requires Inv(c) && Knows(c) && CrowdAnd(c, 0, 1) && Sending(c.rx, 1)
    requires f.kind == DATA && f.stream == 1 && !Padded(f) && |f.payload| <= 16384
    ensures Next(c, Receive(f, answer))
  {
    assert Known(c, 1);
    LawfulIsServed(c, f, answer);
  }

  lemma PartHeard(rx: seq<Frame>, f: Frame)
    requires Sending(rx, 1) && f.kind == DATA && f.stream == 1 && !EndStream(f)
    ensures Sending(rx + [f], 1) && Midway(rx + [f]) == None
  {
    LogNext(rx, f, 1);
    MidwayNext(rx, f);
  }

  lemma FirstRun(maxBody: nat, f: Frame) returns (cs: seq<Conn>, es: seq<Event>, c: Conn)
    requires f == Opening(1)
    ensures RunTo(maxBody, cs, es, c) && |es| == 1 && c.rx == [f] && CrowdAnd(c, 0, 1) && Sending(c.rx, 1) && c.maxBody == maxBody
  {
    var c0;
    cs, es, c0 := CrowdRun(maxBody, 0);
    NotBegun(c0, 1);
    cs, es, c := OneMore(maxBody, cs, es, c0, 0, f);
    StillSending(c0, f, c.rx);
  }

  ghost predicate TooLate(c: Conn, g: Frame) { Lawful(c.rx, g) && forall answer :: EndsWith(c, g, answer, StreamClosed) }

  lemma PartEnds(c: Conn, part: Frame, g: Frame, answer: Hpack.Decoding, c': Conn)
    requires Inv(c) && Knows(c) && CrowdAnd(c, 0, 1) && Sending(c.rx, 1) && g == Trailers(1)
    requires part.kind == DATA && part.stream == 1 && !Padded(part) && !EndStream(part) && c.maxBody < |part.payload|
    requires LawfulEvent(c, Receive(part, answer)) && Follows(c, Receive(part, answer), c')
    ensures TooLate(c', g) && c'.rx == c.rx + [part]
  {
    ThenInv(c, part, answer, c');
    TooMuch(c, part, answer, c');
    PartHeard(c.rx, part);
    LateTrailers(c', g);
  }

  lemma ThenTrailers(maxBody: nat, cs: seq<Conn>, es: seq<Event>, c: Conn, part: Frame, g: Frame) returns (cs': seq<Conn>, es': seq<Event>, c': Conn)
    requires RunTo(maxBody, cs, es, c) && CrowdAnd(c, 0, 1) && Sending(c.rx, 1) && c.maxBody == maxBody
    requires part.kind == DATA && part.stream == 1 && part.flags == 0 && maxBody < |part.payload| <= 16384 && g == Trailers(1)
    ensures RunTo(maxBody, cs', es', c') && |es'| == |es| + 1 && c'.rx == c.rx + [part] && TooLate(c', g)
  {
    var e := PartEvent(c, part);
    cs', es', c' := GoOn(maxBody, cs, es, c, e);
    PartEnds(c, part, g, e.answer, c');
  }

  /** A client that has sent more than is allowed, and then ends its request with trailers: they were on their way
      when the server reset the stream, and the whole connection ends. */
  lemma TrailersTooLate(maxBody: nat, f: Frame, part: Frame, g: Frame) returns (cs: seq<Conn>, es: seq<Event>, c: Conn)
    requires maxBody < 16384 && f == Opening(1) && g == Trailers(1)
    requires part.kind == DATA && part.stream == 1 && part.flags == 0 && |part.payload| == maxBody + 1
    ensures RunTo(maxBody, cs, es, c) && |es| == 2 && c.rx == [f] + [part] && TooLate(c, g)
  {
    cs, es, c := FirstRun(maxBody, f);
    cs, es, c := ThenTrailers(maxBody, cs, es, c, part, g);
  }

  lemma LateTrailers(c: Conn, f: Frame)
    requires Inv(c) && Knows(c) && Sending(c.rx, 1) && Midway(c.rx) == None && ToldOff(c.tx, 1) && f == Trailers(1)
    ensures TooLate(c, f)
  {
    forall answer ensures EndsWith(c, f, answer, StreamClosed) { LawfulIsServed(c, f, answer); }
  }

  // ---- Blocks that are not read ----

  /** The header block of a refused request never reaches the decoder. What it had indexed is missing from then on:
      the index of its newest entry reads as the entry before that, or ends the connection. */
  lemma RefusedIsNotRead(c: Conn, f: Frame, answer: Hpack.Decoding, c': Conn, p: HpackPeer.Peer, inst: HpackPeer.Inst, p': HpackPeer.Peer, st: seq<Hpack.Header>, rest: seq<byte>)
    requires Inv(c) && Follows(c, Receive(f, answer), c') && f.kind == HEADERS && At(c, f.stream) == Idle && |Active(c)| >= 128
    requires FragmentOf(f) == Block(HpackPeer.InstBytes(st, inst)) && Hpack.SmallTable(st)
    requires HpackPeer.Agree(p, c.dec) && p.settings < 0x1_0000_0000 && HpackPeer.InstOk(st, p, inst, false) && inst.Literal? && inst.mode == HpackPeer.Indexing
    requires p' == HpackPeer.After(st, p, inst) && Hpack.EntrySize(HpackPeer.Field(st, p, inst)) <= p.max
    ensures HpackPeer.InstOk(st, p', HpackPeer.Newest(), false) && HpackPeer.Field(st, p', HpackPeer.Newest()) == HpackPeer.Field(st, p, inst)
    ensures Hpack.RepAt(st, c'.dec.dynamic, HpackPeer.InstBytes(st, HpackPeer.Newest()) + rest) ==
            if p.kept > 0 then Some((Hpack.Listed(p.history[0], false), rest)) else None
  {
    DecoderStep(c, f, answer, c');
    HpackPeer.SkippedIsLost(st, p, c.dec, inst, p', rest);
  }
}
