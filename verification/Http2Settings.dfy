/** What SETTINGS does to the streams' windows: the source checks the new initial window, and not the
    windows it moves. Section 6.9.2 of RFC 9113 asks for the latter too. */
module Http2Settings {
  import opened Wrappers
  import opened Bits
  import opened Http2Frame
  import opened Http2Conn
  import opened Http2Safety
  import opened Http2Runs
  import opened Http2Headers
  import BigEndian
  import Hpack

  /** The initial window that a SETTINGS payload leaves. */
  function NewInitial(initial: int, payload: seq<byte>): int
    decreases |payload|
  {
    if |payload| < 6 then initial
    else NewInitial(if BigEndian.Value(payload[..2]) == INITIAL_WINDOW_SIZE then BigEndian.Value(payload[2..6]) else initial, payload[6..])
  }

  lemma {:induction false} InitialRead(c: Conn, payload: seq<byte>)
    ensures SettingsRead(c, payload).Go? ==> SettingsRead(c, payload).c.peerInitial == NewInitial(c.peerInitial, payload)
    decreases |payload|
  {
    if |payload| >= 6 {
      var r := OneSetting(c, BigEndian.Value(payload[..2]), BigEndian.Value(payload[2..6]));
      if r.Go? { InitialRead(r.c, payload[6..]); }
    }
  }

  ghost predicate TooWide(c: Conn, id: nat, more: int) {
    id in c.streams && id in c.flows && c.streams[id].state != Reset && c.flows[id].window + more > MAX_WINDOW
  }

  /** Some stream's window is beyond the limit of section 6.9.1 of RFC 9113, or would be if it were moved. */
  ghost predicate Overflown(c: Conn, more: int) { exists id :: TooWide(c, id, more) }

  /** What a SETTINGS frame does, besides the settings themselves. */
  lemma SettingsMoves(c: Conn, f: Frame, answer: Hpack.Decoding, c': Conn, delta: int)
    requires Inv(c) && Follows(c, Receive(f, answer), c') && f.kind == SETTINGS && !Ack(f)
    requires delta == NewInitial(c.peerInitial, f.payload) - c.peerInitial
    ensures c'.streams == c.streams && c'.flows == WindowsMoved(c, delta).flows && c'.peerInitial == c.peerInitial + delta
  {
    var c0 := c.(rx := c.rx + [f]);
    InitialRead(c0, f.payload);
    assert OnFrame(c0, f, answer) == Acknowledged(c0, SettingsRead(c0, f.payload));
    OddIds(c, 0);
  }

  /** SETTINGS leaves a stream's window beyond the limit exactly when there is one that it moves there. */
  lemma SettingsOverflow(c: Conn, f: Frame, answer: Hpack.Decoding, c': Conn)
    requires Inv(c) && Follows(c, Receive(f, answer), c') && f.kind == SETTINGS && !Ack(f)
    ensures Overflown(c', 0) <==> Overflown(c, NewInitial(c.peerInitial, f.payload) - c.peerInitial)
  {
    var delta := NewInitial(c.peerInitial, f.payload) - c.peerInitial;
    SettingsMoves(c, f, answer, c', delta);
    forall id ensures TooWide(c', id, 0) <==> TooWide(c, id, delta) {}
  }

  // ---- Nothing else does ----

  /** No window is beyond the limit that was not so before. */
  ghost predicate NoWider(c: Conn, c': Conn) {
    c'.peerInitial == c.peerInitial && forall id :: TooWide(c', id, 0) ==> TooWide(c, id, 0)
  }

  lemma NoWiderTrans(a: Conn, b: Conn, c: Conn)
    requires NoWider(a, b) && NoWider(b, c)
    ensures NoWider(a, c)
  {}

  lemma ResetNoWider(c: Conn, id: nat, code: Code)
    requires Linked(c)
    ensures NoWider(c, ResetStream(c, id, code))
  {
    var c' := ResetStream(c, id, code);
    forall k | TooWide(c', k, 0) ensures TooWide(c, k, 0) {}
  }

  /** A stream that is put back, and is not brought back from a reset, has its window as before. */
  lemma PutNoWider(c: Conn, c': Conn, id: nat)
    requires id in c.streams && id in c'.streams && c'.streams == c.streams[id := c'.streams[id]] && c'.flows == c.flows
    requires c'.peerInitial == c.peerInitial && (c.streams[id].state == Reset ==> c'.streams[id].state == Reset)
    ensures NoWider(c, c')
  {
    forall k | TooWide(c', k, 0) ensures TooWide(c, k, 0) {}
  }

  lemma SameNoWider(c: Conn, c': Conn)
    requires c'.streams == c.streams && c'.flows == c.flows && c'.peerInitial == c.peerInitial
    ensures NoWider(c, c')
  {
    forall k | TooWide(c', k, 0) ensures TooWide(c, k, 0) {}
  }

  lemma DataNoWider(c: Conn, f: Frame, c': Conn)
    requires Linked(c) && f.kind == DATA && OnData(c, f) == Go(c')
    ensures NoWider(c, c')
  {
    var c1 := Replenished(c.(recvWindow := c.recvWindow - |f.payload|));
    DataOutcomes(c, f, c1);
    SameNoWider(c, c1);
    ResetNoWider(c1, f.stream, StreamClosed);
    ResetNoWider(c1, f.stream, EnhanceYourCalm);
    if At(c, f.stream) == IsOpen { PutNoWider(c1, BodyAdded(c1, f, Unpad(f.payload, Padded(f)).value), f.stream); }
    NoWiderTrans(c, c1, c');
  }

  lemma FinishedNoWider(c: Conn, id: nat, answer: Hpack.Decoding, c': Conn)
    requires Linked(c) && id in c.streams && Finished(c, id, answer) == Go(c')
    ensures NoWider(c, c')
  {
    FinishedOutcomes(c, id, answer);
    var c1 := Put(c, id, c.streams[id].(pending := [])).(dec := answer.table);
    PutNoWider(c, c1, id);
    ResetNoWider(c1, id, EnhanceYourCalm);
    ResetNoWider(c1, id, Protocol);
    if c' == ResetStream(c1, id, EnhanceYourCalm) || c' == ResetStream(c1, id, Protocol) {
      NoWiderTrans(c, c1, c');
    } else {
      PutNoWider(c, c', id);
    }
  }

  lemma BlockOpenedNoWider(c: Conn, f: Frame, answer: Hpack.Decoding, c': Conn)
    requires Linked(c) && f.stream in c.streams && BlockOpened(c, f, answer) == Go(c')
    ensures NoWider(c, c')
  {
    if EndHeaders(f) { FinishedNoWider(c, f.stream, answer, c'); } else { SameNoWider(c, c'); }
  }

  /** A new stream begins with the initial window, which is within the limit. */
  lemma OpenedNoWider(c: Conn, f: Frame, block: seq<byte>)
    requires Linked(c) && c.peerInitial <= MAX_WINDOW
    ensures NoWider(c, Opened(c, f, block))
  {
    var c' := Opened(c, f, block);
    forall k | TooWide(c', k, 0) ensures TooWide(c, k, 0) {}
  }

  lemma OpenNoWider(c: Conn, f: Frame, block: seq<byte>, answer: Hpack.Decoding, c': Conn)
    requires Linked(c) && c.peerInitial <= MAX_WINDOW && OpenStream(c, f, block, answer) == Go(c')
    ensures NoWider(c, c')
  {
    var c1 := Pruned(c.(highest := f.stream));
    OpenOutcomes(c, f, block, answer, c1);
    forall k | TooWide(c1, k, 0) ensures TooWide(c, k, 0) {}
    if |Active(c1)| >= MAX_CONCURRENT {
      SameNoWider(c1, c');
    } else {
      OpenedNoWider(c1, f, block);
      BlockOpenedNoWider(Opened(c1, f, block), f, answer, c');
      NoWiderTrans(c1, Opened(c1, f, block), c');
    }
    NoWiderTrans(c, c1, c');
  }

  lemma HeadersNoWider(c: Conn, f: Frame, answer: Hpack.Decoding, c': Conn)
    requires Linked(c) && c.peerInitial <= MAX_WINDOW && At(c, f.stream) != HalfClosed && OnHeaders(c, f, answer) == Go(c')
    ensures NoWider(c, c')
  {
    HeadersOutcomes(c, f, answer);
    if FragmentOf(f).SelfDependent? {
      SameNoWider(c, c');
    } else if At(c, f.stream) == Idle {
      OpenNoWider(c, f, FragmentOf(f).bytes, answer, c');
    } else if c' == ResetStream(c, f.stream, Protocol) {
      ResetNoWider(c, f.stream, Protocol);
    } else {
      var c2 := Trailing(c, f.stream, FragmentOf(f).bytes);
      PutNoWider(c, c2, f.stream);
      BlockOpenedNoWider(c2, f, answer, c');
      NoWiderTrans(c, c2, c');
    }
  }

  lemma ContinuationNoWider(c: Conn, f: Frame, answer: Hpack.Decoding, c': Conn)
    requires Linked(c) && CanContinue(c) && OnContinuation(c, f, answer) == Go(c')
    ensures NoWider(c, c')
  {
    var st := c.streams[f.stream];
    var c1 := Put(c, f.stream, st.(pending := st.pending + f.payload));
    PutNoWider(c, c1, f.stream);
    if EndHeaders(f) {
      SameNoWider(c1, c1.(awaited := None));
      FinishedNoWider(c1.(awaited := None), f.stream, answer, c');
      NoWiderTrans(c1, c1.(awaited := None), c');
      NoWiderTrans(c, c1, c');
    }
  }

  /** The source does check the window that WINDOW_UPDATE makes wider. */
  lemma UpdateNoWider(c: Conn, f: Frame, c': Conn)
    requires Linked(c) && OnWindowUpdate(c, f) == Go(c')
    ensures NoWider(c, c')
  {
    UpdateOutcomes(c, f, Go(c'), U31(f.payload));
    ResetNoWider(c, f.stream, Protocol);
    ResetNoWider(c, f.stream, FlowControl);
    forall k | TooWide(c', k, 0) ensures TooWide(c, k, 0) {}
  }

  lemma RstNoWider(c: Conn, f: Frame, c': Conn)
    requires Linked(c) && OnRst(c, f) == Go(c')
    ensures NoWider(c, c')
  {
    forall k | TooWide(c', k, 0) ensures TooWide(c, k, 0) {}
  }

  lemma DispatchedNoWider(c: Conn, id: nat)
    requires Linked(c)
    ensures NoWider(c, Dispatched(c, id))
  {
    var c' := Dispatched(c, id);
    forall k | TooWide(c', k, 0) ensures TooWide(c, k, 0) {}
  }

  ghost predicate IsSettings(e: Event) { e.Receive? && e.f.kind == SETTINGS && !Ack(e.f) }

  lemma FrameNoWider(c: Conn, f: Frame, answer: Hpack.Decoding, c': Conn)
    requires Linked(c) && CanContinue(c) && c.peerInitial <= MAX_WINDOW && (f.kind == HEADERS ==> At(c, f.stream) != HalfClosed)
    requires OnFrame(c, f, answer) == Go(c') && !(f.kind == SETTINGS && !Ack(f))
    ensures NoWider(c, c')
  {
    if f.kind == DATA { DataNoWider(c, f, c'); }
    else if f.kind == HEADERS { HeadersNoWider(c, f, answer, c'); }
    else if f.kind == CONTINUATION { ContinuationNoWider(c, f, answer, c'); }
    else if f.kind == RST_STREAM { RstNoWider(c, f, c'); }
    else if f.kind == WINDOW_UPDATE { UpdateNoWider(c, f, c'); }
    else { SameNoWider(c, c'); }
  }

  lemma ReceiveNoWider(c: Conn, f: Frame, answer: Hpack.Decoding, c': Conn)
    requires Inv(c) && Follows(c, Receive(f, answer), c') && !IsSettings(Receive(f, answer))
    ensures NoWider(c, c')
  {
    var c0 := c.(rx := c.rx + [f]);
    var c1 := OnFrame(c0, f, answer).c;
    if f.kind == HEADERS { NotHalfClosed(c, f.stream); }
    SameNoWider(c, c0);
    FrameNoWider(c0, f, answer, c1);
    DispatchedNoWider(c1, f.stream);
    NoWiderTrans(c0, c1, c');
    NoWiderTrans(c, c0, c');
  }

  lemma TaskNoWider(c: Conn, e: Event, c': Conn)
    requires Follows(c, e, c') && !e.Receive?
    ensures NoWider(c, c')
  {
    forall k | TooWide(c', k, 0) ensures TooWide(c, k, 0) {}
  }

  /** Only SETTINGS ever takes a stream's window beyond the limit. */
  lemma OnlySettings(c: Conn, e: Event, c': Conn)
    requires Inv(c) && Follows(c, e, c') && !IsSettings(e)
    ensures Overflown(c', 0) ==> Overflown(c, 0)
  {
    match e
    case Receive(f, answer) => ReceiveNoWider(c, f, answer, c');
    case _ => TaskNoWider(c, e, c');
  }

  // ---- Over runs ----

  /** A SETTINGS frame that moves the window of some stream beyond the limit. */
  ghost predicate Widens(c: Conn, e: Event) {
    IsSettings(e) && Overflown(c, NewInitial(c.peerInitial, e.f.payload) - c.peerInitial)
  }

  lemma StepOverflows(c: Conn, e: Event, c': Conn)
    requires Inv(c) && Follows(c, e, c')
    ensures if IsSettings(e) then Overflown(c', 0) <==> Widens(c, e) else Overflown(c', 0) ==> Overflown(c, 0)
  {
    if IsSettings(e) { SettingsOverflow(c, e.f, e.answer, c'); } else { OnlySettings(c, e, c'); }
  }

  ghost predicate EverOver(cs: seq<Conn>, n: nat)
    requires n < |cs|
  {
    exists i :: 0 <= i <= n && Overflown(cs[i], 0)
  }

  ghost predicate EverWidens(cs: seq<Conn>, es: seq<Event>, n: nat)
    requires n <= |es| <= |cs|
  {
    exists i :: 0 <= i < n && Widens(cs[i], es[i])
  }

  lemma EverNext(cs: seq<Conn>, es: seq<Event>, n: nat)
    requires n < |es| < |cs|
    ensures EverOver(cs, n) ==> EverOver(cs, n + 1)
    ensures Overflown(cs[n + 1], 0) ==> EverOver(cs, n + 1)
    ensures EverOver(cs, n + 1) ==> EverOver(cs, n) || Overflown(cs[n + 1], 0)
    ensures Overflown(cs[n], 0) ==> EverOver(cs, n)
    ensures EverWidens(cs, es, n + 1) <==> EverWidens(cs, es, n) || Widens(cs[n], es[n])
  {
    if EverWidens(cs, es, n) { var i :| 0 <= i < n && Widens(cs[i], es[i]); }
  }

  /** On any run a stream's window is at some point beyond the limit if and only if a SETTINGS frame came
      that moved one there. */
  lemma {:induction false} OverflowsWhen(maxBody: nat, cs: seq<Conn>, es: seq<Event>, n: nat)
    requires Run(maxBody, cs, es) && n <= |es|
    ensures EverOver(cs, n) <==> EverWidens(cs, es, n)
  {
    if n == 0 {
      assert !Overflown(cs[0], 0);
    } else {
      OverflowsWhen(maxBody, cs, es, n - 1);
      LastStep(maxBody, cs, es, n - 1, cs[n - 1], cs[n], es[n - 1]);
      EverNext(cs, es, n - 1);
    }
  }

  lemma LastStep(maxBody: nat, cs: seq<Conn>, es: seq<Event>, i: nat, c: Conn, c': Conn, e: Event)
    requires Run(maxBody, cs, es) && i < |es| && c == cs[i] && c' == cs[i + 1] && e == es[i]
    ensures Widens(c, e) ==> Overflown(c', 0)
    ensures Overflown(c', 0) ==> Widens(c, e) || Overflown(c, 0)
  {
    RunStep(maxBody, cs, es, i, c, c');
    StepOverflows(c, e, c');
  }

  // ---- It does happen ----

  /** A HEADERS frame with END_HEADERS and an empty block, one more byte of window for its stream, and the
      largest initial window there is. */
  const OPEN_STREAM: Frame := Frame(HEADERS, 4, 1, [])
  const ONE_MORE: Frame := Frame(WINDOW_UPDATE, 0, 1, [0, 0, 0, 1])
  const LARGEST_WINDOW: Frame := Frame(SETTINGS, 0, 0, [0, 4, 0x7F, 0xFF, 0xFF, 0xFF])

  lemma SmallValues()
    ensures BigEndian.Value([0, 4]) == 4 && BigEndian.Value([0x7F, 0xFF, 0xFF, 0xFF]) == 0x7FFF_FFFF && BigEndian.Value([0, 0, 0, 1]) == 1
  {
    var s: seq<byte> := [0x7F, 0xFF, 0xFF, 0xFF];
    assert s[..3] == [0x7F, 0xFF, 0xFF] && s[..3][..2] == [0x7F, 0xFF] && s[..3][..2][..1] == [0x7F];
    assert BigEndian.Value([0x7F]) == 0x7F && BigEndian.Value([0x7F, 0xFF]) == 0x7FFF && BigEndian.Value([0x7F, 0xFF, 0xFF]) == 0x7F_FFFF;
    var t: seq<byte> := [0, 4];
    assert t[..1] == [0] && BigEndian.Value([0]) == 0;
    var u: seq<byte> := [0, 0, 0, 1];
    assert u[..3] == [0, 0, 0] && u[..3][..2] == [0, 0] && u[..3][..2][..1] == [0];
    assert BigEndian.Value([0, 0]) == 0 && BigEndian.Value([0, 0, 0]) == 0;
  }

  const OPENED: Stream := Stream(Open, [], false, [], true, [], None, false)

  /** Stream 1 is open with this window, after these frames. */
  function WithStream(maxBody: nat, window: int, rx: seq<Frame>): Conn {
    Init(maxBody).(streams := map[1 := OPENED], flows := map[1 := Flow(window, false, false)], highest := 1, rx := rx)
  }

  lemma Opens(maxBody: nat, c: Conn, answer: Hpack.Decoding)
    requires c == Init(maxBody) && answer == Hpack.Decoding(c.dec, None, [])
    ensures Follows(c, Receive(OPEN_STREAM, answer), WithStream(maxBody, DEFAULT_WINDOW, [OPEN_STREAM]))
    ensures Honest(c, Receive(OPEN_STREAM, answer))
  {
    var c0 := c.(rx := c.rx + [OPEN_STREAM]);
    assert c0.rx == [OPEN_STREAM] && FragmentOf(OPEN_STREAM) == Block([]);
    var c1 := Pruned(c0.(highest := 1));
    assert Active(c1) == {} && Active(c) == {};
    assert c1.streams == map[];
    OpenedEmpty(c1, answer);
  }

  lemma OpenedEmpty(c1: Conn, answer: Hpack.Decoding)
    requires c1.streams == map[] && c1.flows == map[] && c1.peerInitial == DEFAULT_WINDOW && answer == Hpack.Decoding(c1.dec, None, [])
    ensures BlockOpened(Opened(c1, OPEN_STREAM, []), OPEN_STREAM, answer) ==
            Go(c1.(streams := map[1 := OPENED], flows := map[1 := Flow(DEFAULT_WINDOW, false, false)]))
  {
    assert EndHeaders(OPEN_STREAM) && !EndStream(OPEN_STREAM);
    assert map[][1 := NewStream(OPEN_STREAM, [])][1 := OPENED] == map[1 := OPENED];
  }

  lemma OneMoreByte(maxBody: nat, c: Conn, answer: Hpack.Decoding)
    requires c == WithStream(maxBody, DEFAULT_WINDOW, [OPEN_STREAM])
    ensures Follows(c, Receive(ONE_MORE, answer), WithStream(maxBody, DEFAULT_WINDOW + 1, [OPEN_STREAM, ONE_MORE]))
    ensures Honest(c, Receive(ONE_MORE, answer))
  {
    var c0 := c.(rx := c.rx + [ONE_MORE]);
    SmallValues();
    assert c0.rx == [OPEN_STREAM, ONE_MORE] && ONE_MORE.payload[..4] == [0, 0, 0, 1] && U31(ONE_MORE.payload) == 1;
    assert c.flows[1 := c.flows[1].(window := DEFAULT_WINDOW + 1)] == map[1 := Flow(DEFAULT_WINDOW + 1, false, false)];
  }

  lemma LargestWindowRead(c0: Conn)
    ensures SettingsRead(c0, LARGEST_WINDOW.payload) == Go(c0.(peerInitial := MAX_WINDOW))
  {
    var p := LARGEST_WINDOW.payload;
    assert p[..2] == [0, 4] && p[2..6] == [0x7F, 0xFF, 0xFF, 0xFF] && p[6..] == [];
    SmallValues();
    assert OneSetting(c0, 4, 0x7FFF_FFFF) == Go(c0.(peerInitial := MAX_WINDOW));
    assert SettingsRead(c0.(peerInitial := MAX_WINDOW), []) == Go(c0.(peerInitial := MAX_WINDOW));
  }

  lemma Breaks(maxBody: nat, c: Conn, answer: Hpack.Decoding) returns (c': Conn)
    requires c == WithStream(maxBody, DEFAULT_WINDOW + 1, [OPEN_STREAM, ONE_MORE])
    ensures Follows(c, Receive(LARGEST_WINDOW, answer), c') && Honest(c, Receive(LARGEST_WINDOW, answer)) && TooWide(c', 1, 0)
  {
    var c0 := c.(rx := c.rx + [LARGEST_WINDOW]);
    LargestWindowRead(c0);
    assert OnFrame(c0, LARGEST_WINDOW, answer) == Acknowledged(c0, Go(c0.(peerInitial := MAX_WINDOW)));
    c' := Queue(WindowsMoved(c0.(peerInitial := MAX_WINDOW), MAX_WINDOW - c.peerInitial), SettingsAck);
  }

  /** Three frames from a peer, and a stream's window is beyond the limit. */
  lemma OverflowReached(maxBody: nat) returns (cs: seq<Conn>, es: seq<Event>)
    ensures HonestRun(maxBody, cs, es) && |es| == 3 && Overflown(cs[3], 0)
  {
    var c := Init(maxBody);
    var answer := Hpack.Decoding(c.dec, None, []);
    var c1, c2 := WithStream(maxBody, DEFAULT_WINDOW, [OPEN_STREAM]), WithStream(maxBody, DEFAULT_WINDOW + 1, [OPEN_STREAM, ONE_MORE]);
    Opens(maxBody, c, answer);
    OneMoreByte(maxBody, c1, answer);
    var c3 := Breaks(maxBody, c2, answer);
    cs := [c, c1, c2, c3];
    es := [Receive(OPEN_STREAM, answer), Receive(ONE_MORE, answer), Receive(LARGEST_WINDOW, answer)];
    Three(maxBody, cs, es);
  }

  lemma Three(maxBody: nat, cs: seq<Conn>, es: seq<Event>)
    requires |es| == 3 && |cs| == 4 && cs[0] == Init(maxBody)
    requires Follows(cs[0], es[0], cs[1]) && Follows(cs[1], es[1], cs[2]) && Follows(cs[2], es[2], cs[3])
    requires Honest(cs[0], es[0]) && Honest(cs[1], es[1]) && Honest(cs[2], es[2])
    ensures HonestRun(maxBody, cs, es)
  {
    forall i | 0 <= i < |es| ensures Follows(cs[i], es[i], cs[i + 1]) && Honest(cs[i], es[i]) {
      assert i == 0 || i == 1 || i == 2;
    }
  }
}
