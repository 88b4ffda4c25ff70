/** What an HTTP/2 connection has taken from the SETTINGS it received, and what it has answered, by what went over
    the wire alone. */
module Http2Answers {
  import opened Wrappers
  import opened Bits
  import opened Http2Frame
  import opened Http2Conn
  import opened Http2Safety
  import opened Http2Runs
  import BigEndian
  import Hpack

  // ---- What the frames say ----

  /** The parameters of a SETTINGS payload: two bytes and four, each most significant first. */
  function Params(payload: seq<byte>): seq<(nat, nat)>
    decreases |payload|
  {
    if |payload| < 6 then [] else [(BigEndian.Value(payload[..2]), BigEndian.Value(payload[2..6]))] + Params(payload[6..])
  }

  function ParamsOf(f: Frame): seq<(nat, nat)> { if f.kind == SETTINGS && !Ack(f) then Params(f.payload) else [] }

  /** Every parameter ever received, in order. */
  function Heard(rx: seq<Frame>): seq<(nat, nat)> {
    if rx == [] then [] else Heard(rx[..|rx| - 1]) + ParamsOf(rx[|rx| - 1])
  }

  /** The value that counts: the last one, or else the initial one. */
  function Latest(ps: seq<(nat, nat)>, id: nat, initial: int): int {
    if ps == [] then initial
    else if ps[|ps| - 1].0 == id then ps[|ps| - 1].1
    else Latest(ps[..|ps| - 1], id, initial)
  }

  function PingOf(f: Frame): seq<seq<byte>> { if f.kind == PING && !Ack(f) then [f.payload] else [] }

  /** What was to be echoed, in order. */
  function Pings(rx: seq<Frame>): seq<seq<byte>> {
    if rx == [] then [] else Pings(rx[..|rx| - 1]) + PingOf(rx[|rx| - 1])
  }

  function PongOf(o: Out): seq<seq<byte>> { if o.Pong? then [o.payload] else [] }

  function Pongs(tx: seq<Out>): seq<seq<byte>> {
    if tx == [] then [] else Pongs(tx[..|tx| - 1]) + PongOf(tx[|tx| - 1])
  }

  /** How many SETTINGS were to be acknowledged, and how many were. */
  function Asked(rx: seq<Frame>): nat {
    if rx == [] then 0 else Asked(rx[..|rx| - 1]) + if rx[|rx| - 1].kind == SETTINGS && !Ack(rx[|rx| - 1]) then 1 else 0
  }

  function Acks(tx: seq<Out>): nat {
    if tx == [] then 0 else Acks(tx[..|tx| - 1]) + if tx[|tx| - 1].SettingsAck? then 1 else 0
  }

  /** The connection has taken the latest parameters, acknowledged every SETTINGS and echoed every PING. */
  ghost predicate Answered(c: Conn) {
    && c.peerInitial == Latest(Heard(c.rx), 4, 65535) && c.maxFrame == Latest(Heard(c.rx), 5, 16384)
    && Pongs(c.tx) == Pings(c.rx) && Acks(c.tx) == Asked(c.rx)
  }

  // ---- Logs that grow ----

  lemma HeardNext(rx: seq<Frame>, f: Frame)
    ensures Heard(rx + [f]) == Heard(rx) + ParamsOf(f) && Pings(rx + [f]) == Pings(rx) + PingOf(f)
    ensures Asked(rx + [f]) == Asked(rx) + if f.kind == SETTINGS && !Ack(f) then 1 else 0
  {
    assert (rx + [f])[..|rx|] == rx;
  }

  lemma SaidNext(tx: seq<Out>, o: Out)
    ensures Pongs(tx + [o]) == Pongs(tx) + PongOf(o) && Acks(tx + [o]) == Acks(tx) + if o.SettingsAck? then 1 else 0
  {
    assert (tx + [o])[..|tx|] == tx;
  }

  lemma {:induction false} LatestAppend(a: seq<(nat, nat)>, b: seq<(nat, nat)>, id: nat, initial: int)
    ensures Latest(a + b, id, initial) == Latest(b, id, Latest(a, id, initial))
    decreases |b|
  {
    if b == [] {
      assert a + b == a;
    } else {
      assert (a + b)[..|a + b| - 1] == a + b[..|b| - 1];
      LatestAppend(a, b[..|b| - 1], id, initial);
    }
  }

  lemma LatestOne(p: (nat, nat), id: nat, initial: int)
    ensures Latest([p], id, initial) == if p.0 == id then p.1 else initial
  {
    assert [p][..0] == [];
  }

  // ---- Steps that answer nothing ----

  /** Neither parameters nor answers have changed. */
  ghost predicate Silent(c: Conn, c': Conn) {
    c'.peerInitial == c.peerInitial && c'.maxFrame == c.maxFrame && Pongs(c'.tx) == Pongs(c.tx) && Acks(c'.tx) == Acks(c.tx)
  }

  lemma QueueSilent(c: Conn, o: Out)
    requires !o.Pong? && !o.SettingsAck?
    ensures Silent(c, Queue(c, o))
  {
    SaidNext(c.tx, o);
    assert Pongs(c.tx) + [] == Pongs(c.tx);
  }

  lemma ResetSilent(c: Conn, id: nat, code: Code)
    requires Linked(c)
    ensures Silent(c, ResetStream(c, id, code))
  {
    QueueSilent(c, Rst(id, code));
  }

  lemma DataSilent(c: Conn, f: Frame)
    requires Linked(c) && f.kind == DATA
    ensures OnData(c, f).Go? ==> Silent(c, OnData(c, f).c)
  {
    var charged := c.(recvWindow := c.recvWindow - |f.payload|);
    var c1 := Replenished(charged);
    QueueSilent(charged, WindowUpdate(0, OUR_INITIAL_WINDOW - charged.recvWindow));
    DataOutcomes(c, f, c1);
    ResetSilent(c1, f.stream, StreamClosed);
    ResetSilent(c1, f.stream, EnhanceYourCalm);
  }

  lemma FinishedSilent(c: Conn, id: nat, answer: Hpack.Decoding)
    requires Linked(c) && id in c.streams
    ensures Finished(c, id, answer).Go? ==> Silent(c, Finished(c, id, answer).c)
  {
    FinishedOutcomes(c, id, answer);
    var c1 := Put(c, id, c.streams[id].(pending := [])).(dec := answer.table);
    ResetSilent(c1, id, EnhanceYourCalm);
    ResetSilent(c1, id, Protocol);
  }

  lemma BlockSilent(c: Conn, f: Frame, answer: Hpack.Decoding)
    requires Linked(c) && f.stream in c.streams
    ensures BlockOpened(c, f, answer).Go? ==> Silent(c, BlockOpened(c, f, answer).c)
  {
    if EndHeaders(f) { FinishedSilent(c, f.stream, answer); }
  }

  lemma HeadersSilent(c: Conn, f: Frame, answer: Hpack.Decoding)
    requires Linked(c) && f.kind == HEADERS && At(c, f.stream) != HalfClosed
    ensures OnHeaders(c, f, answer).Go? ==> Silent(c, OnHeaders(c, f, answer).c)
  {
    var r := OnHeaders(c, f, answer);
    HeadersOutcomes(c, f, answer);
    if r.Go? {
      match FragmentOf(f)
      case SelfDependent => QueueSilent(c, Rst(f.stream, Protocol));
      case Block(block) =>
        ResetSilent(c, f.stream, Protocol);
        if At(c, f.stream) == Idle {
          var c1 := Pruned(c.(highest := f.stream));
          OpenOutcomes(c, f, block, answer, c1);
          QueueSilent(c1, Rst(f.stream, RefusedStream));
          BlockSilent(Opened(c1, f, block), f, answer);
        } else {
          BlockSilent(Trailing(c, f.stream, block), f, answer);
        }
    }
  }

  lemma ContinuationSilent(c: Conn, f: Frame, answer: Hpack.Decoding)
    requires Linked(c) && (c.awaited == Some(f.stream) ==> f.stream in c.streams)
    ensures OnContinuation(c, f, answer).Go? ==> Silent(c, OnContinuation(c, f, answer).c)
  {
    if c.awaited == Some(f.stream) {
      var st := c.streams[f.stream];
      var c1 := Put(c, f.stream, st.(pending := st.pending + f.payload));
      FinishedSilent(c1.(awaited := None), f.stream, answer);
    }
  }

  lemma UpdateSilent(c: Conn, f: Frame)
    requires Linked(c)
    ensures OnWindowUpdate(c, f).Go? ==> Silent(c, OnWindowUpdate(c, f).c)
  {
    ResetSilent(c, f.stream, Protocol);
    ResetSilent(c, f.stream, FlowControl);
  }

  lemma PrioritySilent(c: Conn, f: Frame)
    requires Linked(c)
    ensures OnPriority(c, f).Go? ==> Silent(c, OnPriority(c, f).c)
  {
    QueueSilent(c, Rst(f.stream, Protocol));
  }

  lemma DispatchedSilent(c: Conn, id: nat)
    requires Linked(c)
    ensures Silent(c, Dispatched(c, id))
  {
    if Ready(c, id) {
      ResetSilent(Put(c, id, c.streams[id].(dispatched := true)).(flows := c.flows[id := c.flows[id].(done := true)]), id, Protocol);
    }
  }

  // ---- The two that do ----

  lemma {:induction false} SettingsTaken(c: Conn, payload: seq<byte>)
    ensures var r := SettingsRead(c, payload);
            r.Go? ==> r.c.peerInitial == Latest(Params(payload), 4, c.peerInitial) && r.c.maxFrame == Latest(Params(payload), 5, c.maxFrame)
    decreases |payload|
  {
    if |payload| >= 6 {
      var p := (BigEndian.Value(payload[..2]), BigEndian.Value(payload[2..6]));
      var one := OneSetting(c, p.0, p.1);
      if one.Go? {
        SettingsTaken(one.c, payload[6..]);
        LatestAppend([p], Params(payload[6..]), 4, c.peerInitial);
        LatestAppend([p], Params(payload[6..]), 5, c.maxFrame);
        LatestOne(p, 4, c.peerInitial);
        LatestOne(p, 5, c.maxFrame);
      }
    }
  }

  lemma SettingsAnswered(c: Conn, f: Frame, rx: seq<Frame>)
    requires Linked(c) && f.kind == SETTINGS && Answered(c.(rx := rx)) && c.rx == rx + [f]
    ensures OnSettings(c, f).Go? ==> Answered(OnSettings(c, f).c)
  {
    var r := OnSettings(c, f);
    HeardNext(rx, f);
    assert Pings(rx) + [] == Pings(rx) && Heard(rx) + [] == Heard(rx);
    if r.Go? && !Ack(f) {
      SettingsTaken(c, f.payload);
      LatestAppend(Heard(rx), Params(f.payload), 4, 65535);
      LatestAppend(Heard(rx), Params(f.payload), 5, 16384);
      SaidNext(c.tx, SettingsAck);
      assert Pongs(c.tx) + [] == Pongs(c.tx);
    }
  }

  lemma PingAnswered(c: Conn, f: Frame, rx: seq<Frame>)
    requires Linked(c) && f.kind == PING && Answered(c.(rx := rx)) && c.rx == rx + [f]
    ensures OnPing(c, f).Go? ==> Answered(OnPing(c, f).c)
  {
    HeardNext(rx, f);
    SaidNext(c.tx, Pong(f.payload));
    assert Pings(rx) + [] == Pings(rx) && Heard(rx) + [] == Heard(rx);
  }

  lemma OtherFrame(c: Conn, f: Frame, rx: seq<Frame>, c1: Conn)
    requires f.kind != SETTINGS && f.kind != PING && Answered(c.(rx := rx)) && c.rx == rx + [f] && Silent(c, c1) && c1.rx == c.rx
    ensures Answered(c1)
  {
    HeardNext(rx, f);
    assert Pings(rx) + [] == Pings(rx) && Heard(rx) + [] == Heard(rx);
  }

  lemma FrameSilent(c: Conn, f: Frame, answer: Hpack.Decoding)
    requires Linked(c) && CanContinue(c) && (f.kind == HEADERS ==> At(c, f.stream) != HalfClosed) && f.kind != SETTINGS && f.kind != PING
    ensures OnFrame(c, f, answer).Go? ==> Silent(c, OnFrame(c, f, answer).c)
  {
    if f.kind == DATA { DataSilent(c, f); }
    else if f.kind == HEADERS { HeadersSilent(c, f, answer); }
    else if f.kind == CONTINUATION { ContinuationSilent(c, f, answer); }
    else if f.kind == PRIORITY { PrioritySilent(c, f); }
    else if f.kind == WINDOW_UPDATE { UpdateSilent(c, f); }
  }

  /** A frame that changes neither. */
  lemma SilentAnswered(c: Conn, f: Frame, answer: Hpack.Decoding, c0: Conn, r: Outcome)
    requires Inv(c) && Answered(c) && c0 == c.(rx := c.rx + [f]) && f.kind != SETTINGS && f.kind != PING
    requires (f.kind == HEADERS ==> c.awaited == None) && r == OnFrame(c0, f, answer)
    ensures r.Go? ==> Answered(r.c)
  {
    assert c0.(rx := c.rx) == c;
    if f.kind == HEADERS {
      NotHalfClosed(c, f.stream);
      assert At(c0, f.stream) == At(c, f.stream);
    }
    FrameSilent(c0, f, answer);
    if r.Go? { OtherFrame(c0, f, c.rx, r.c); }
  }

  lemma FrameAnswered(c: Conn, f: Frame, answer: Hpack.Decoding, c0: Conn, r: Outcome)
    requires Inv(c) && Answered(c) && c0 == c.(rx := c.rx + [f]) && (f.kind == HEADERS ==> c.awaited == None) && r == OnFrame(c0, f, answer)
    ensures r.Go? ==> Answered(r.c)
  {
    assert c0.(rx := c.rx) == c;
    if f.kind == SETTINGS {
      SettingsAnswered(c0, f, c.rx);
    } else if f.kind == PING {
      PingAnswered(c0, f, c.rx);
    } else {
      SilentAnswered(c, f, answer, c0, r);
    }
  }

  lemma SilentKeeps(c: Conn, c': Conn)
    requires Answered(c) && Silent(c, c') && c'.rx == c.rx
    ensures Answered(c')
  {}

  lemma TaskAnswered(c: Conn, e: Event, c': Conn)
    requires Follows(c, e, c') && !e.Receive? && Answered(c)
    ensures Answered(c')
  {
    if e.Pump? && e.id in c.running && e.id in c.flows && !c.flows[e.id].reset {
      QueueSilent(c, Data(e.id, c.running[e.id].left[..Http2Conn.Allowed(c, e.id)]));
    }
    SilentKeeps(c, c');
  }

  lemma StepAnswered(c: Conn, e: Event, c': Conn)
    requires Inv(c) && Follows(c, e, c') && Answered(c)
    ensures Answered(c')
  {
    match e
    case Receive(f, answer) =>
      var c0 := c.(rx := c.rx + [f]);
      var c1 := OnFrame(c0, f, answer).c;
      FrameAnswered(c, f, answer, c0, OnFrame(c0, f, answer));
      DispatchedSilent(c1, f.stream);
      SilentKeeps(c1, c');
    case _ => TaskAnswered(c, e, c');
  }

  /** Over every run: the initial window and the frame limit that the connection holds to are the latest received;
      as many SETTINGS were acknowledged as came, and every PING was echoed, in order, with its own payload. */
  lemma {:induction false} EverAnswered(maxBody: nat, cs: seq<Conn>, es: seq<Event>, i: nat, c: Conn)
    requires Run(maxBody, cs, es) && i <= |es| && c == cs[i]
    ensures Answered(c)
    decreases i
  {
    if i == 0 {
      FreshAnswered(maxBody);
    } else {
      var before := cs[i - 1];
      EverAnswered(maxBody, cs, es, i - 1, before);
      NextAnswered(maxBody, cs, es, i - 1, before, c);
    }
  }

  lemma NextAnswered(maxBody: nat, cs: seq<Conn>, es: seq<Event>, i: nat, c: Conn, c': Conn)
    requires Run(maxBody, cs, es) && i < |es| && c == cs[i] && c' == cs[i + 1] && Answered(c)
    ensures Answered(c')
  {
    RunStep(maxBody, cs, es, i, c, c');
    StepAnswered(c, es[i], c');
  }

  lemma FreshAnswered(maxBody: nat)
    ensures Answered(Init(maxBody))
  {
    assert Init(maxBody).tx[..0] == [];
  }
}
