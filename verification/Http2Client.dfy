/** HTTP/2 from the client's side of the wire: what the frames say of each stream, when a client that keeps to
    the rules is turned away, and what becomes of the streams it cancels. */
module Http2Client {
  import opened Wrappers
  import opened Bits
  import opened Http2Frame
  import opened Http2Conn
  import opened Http2Safety
  import opened Http2Runs
  import opened Http2Answers
  import BigEndian
  import Hpack

  // ---- What the frames say of a stream ----

  ghost predicate Begins(f: Frame, id: nat) { f.kind == HEADERS && f.stream == id && FragmentOf(f).Block? }

  ghost predicate Ends(f: Frame, id: nat) { f.stream == id && EndStream(f) && (f.kind == DATA || Begins(f, id)) }

  ghost predicate Cancels(f: Frame, id: nat) { f.kind == RST_STREAM && f.stream == id }

  ghost predicate Resets(o: Out, id: nat) { o.Rst? && o.id == id }

  ghost predicate Refuses(o: Out, id: nat) { o == Rst(id, RefusedStream) }

  ghost predicate Began(rx: seq<Frame>, id: nat) { exists f :: f in rx && Begins(f, id) }

  ghost predicate Ended(rx: seq<Frame>, id: nat) { exists f :: f in rx && Ends(f, id) }

  ghost predicate Cancelled(rx: seq<Frame>, id: nat) { exists f :: f in rx && Cancels(f, id) }

  ghost predicate ToldOff(tx: seq<Out>, id: nat) { exists o :: o in tx && Resets(o, id) }

  ghost predicate Refused(tx: seq<Out>, id: nat) { exists o :: o in tx && Refuses(o, id) }

  /** The client has begun it, and neither ended nor cancelled it. */
  ghost predicate Sending(rx: seq<Frame>, id: nat) { Began(rx, id) && !Ended(rx, id) && !Cancelled(rx, id) }

  /** The stream whose header block the client is in the middle of. */
  function Midway(rx: seq<Frame>): Option<nat> {
    if rx == [] then None
    else
      var f := rx[|rx| - 1];
      if (f.kind == HEADERS || f.kind == CONTINUATION) && !EndHeaders(f) then Some(f.stream) else None
  }

  /** Beyond every stream begun. */
  ghost predicate Fresh(rx: seq<Frame>, id: nat) { forall k: nat | Began(rx, k) :: k < id }

  predicate Permitted(p: (nat, nat)) {
    && (p.0 == 2 ==> p.1 <= 1)
    && (p.0 == 4 ==> p.1 <= 0x7FFF_FFFF)
    && (p.0 == 5 ==> 16384 <= p.1 <= 0xFF_FFFF)
  }

  // ---- A client that keeps to the rules ----

  /** One header block at a time. */
  ghost predicate InTurn(rx: seq<Frame>, f: Frame) {
    match Midway(rx)
    case Some(id) => f.kind == CONTINUATION && f.stream == id
    case None => f.kind != CONTINUATION
  }

  ghost predicate LawfulHeaders(rx: seq<Frame>, f: Frame) {
    && f.stream % 2 == 1 && FragmentOf(f).Block?
    && (Fresh(rx, f.stream) || (Sending(rx, f.stream) && EndStream(f)))
  }

  ghost predicate LawfulSettings(f: Frame) {
    && f.stream == 0
    && if Ack(f) then f.payload == [] else |f.payload| % 6 == 0 && forall i | 0 <= i < |Params(f.payload)| :: Permitted(Params(f.payload)[i])
  }

  /** What RFC 9113 lets a client send after `rx`, as far as the client can know. */
  ghost predicate Lawful(rx: seq<Frame>, f: Frame) {
    && |f.payload| <= 16384 && InTurn(rx, f) && f.kind != PUSH_PROMISE && f.kind != GOAWAY
    && (f.kind == DATA ==> Sending(rx, f.stream) && Unpad(f.payload, Padded(f)).Some?)
    && (f.kind == HEADERS ==> LawfulHeaders(rx, f))
    && (f.kind == PRIORITY ==> |f.payload| == 5 && f.stream != 0 && U31(f.payload) != f.stream)
    && (f.kind == RST_STREAM ==> |f.payload| == 4 && Began(rx, f.stream))
    && (f.kind == SETTINGS ==> LawfulSettings(f))
    && (f.kind == PING ==> f.stream == 0 && |f.payload| == 8)
    && (f.kind == WINDOW_UPDATE ==> |f.payload| == 4 && U31(f.payload) > 0 && (f.stream == 0 || Began(rx, f.stream)))
  }

  ghost predicate LawfulEvent(c: Conn, e: Event) { e.Receive? ==> Lawful(c.rx, e.f) }

  ghost predicate LawfulRun(maxBody: nat, cs: seq<Conn>, es: seq<Event>) {
    Run(maxBody, cs, es) && forall i | 0 <= i < |es| :: LawfulEvent(cs[i], es[i])
  }

  // ---- What the connection then knows ----

  /** A stream the client has not ended is there, open or reset as the frames say, unless it was refused; and
      it counts until the server resets it. */
  ghost predicate Known(c: Conn, id: nat) {
    Began(c.rx, id) && !Ended(c.rx, id) ==>
      if Refused(c.tx, id) then id !in c.streams
      else
        && id in c.streams && id in c.flows && !c.streams[id].dispatched
        && c.streams[id].state == (if Cancelled(c.rx, id) || ToldOff(c.tx, id) then Reset else Open)
        && c.flows[id].done == ToldOff(c.tx, id)
  }

  ghost predicate Numbered(c: Conn, id: nat) {
    && (Began(c.rx, id) ==> id % 2 == 1 && id <= c.highest)
    && (ToldOff(c.tx, id) || Ended(c.rx, id) || Cancelled(c.rx, id) || id in c.streams ==> Began(c.rx, id))
  }

  ghost predicate Waiting(c: Conn) {
    c.awaited == match Midway(c.rx) case None => None case Some(id) => if Refused(c.tx, id) then None else Some(id)
  }

  /** A block is only ever continued on a stream that was begun. */
  ghost predicate BlocksBegun(rx: seq<Frame>) { Midway(rx).Some? ==> Began(rx, Midway(rx).value) }

  ghost predicate Knows(c: Conn) {
    && (forall id: nat :: Known(c, id) && Numbered(c, id))
    && (c.highest > 0 ==> Began(c.rx, c.highest))
    && Waiting(c) && BlocksBegun(c.rx)
  }

  // ---- Logs that grow ----

  lemma LogNext(rx: seq<Frame>, f: Frame, id: nat)
    ensures Began(rx + [f], id) <==> Began(rx, id) || Begins(f, id)
    ensures Ended(rx + [f], id) <==> Ended(rx, id) || Ends(f, id)
    ensures Cancelled(rx + [f], id) <==> Cancelled(rx, id) || Cancels(f, id)
  {
    assert f in rx + [f];
    if Began(rx, id) { var g :| g in rx && Begins(g, id); assert g in rx + [f]; }
    if Ended(rx, id) { var g :| g in rx && Ends(g, id); assert g in rx + [f]; }
    if Cancelled(rx, id) { var g :| g in rx && Cancels(g, id); assert g in rx + [f]; }
  }

  lemma MidwayNext(rx: seq<Frame>, f: Frame)
    ensures Midway(rx + [f]) == if (f.kind == HEADERS || f.kind == CONTINUATION) && !EndHeaders(f) then Some(f.stream) else None
  {}

  lemma SaidNext(tx: seq<Out>, o: Out, id: nat)
    ensures ToldOff(tx + [o], id) <==> ToldOff(tx, id) || Resets(o, id)
    ensures Refused(tx + [o], id) <==> Refused(tx, id) || Refuses(o, id)
  {
    assert o in tx + [o];
    if ToldOff(tx, id) { var p :| p in tx && Resets(p, id); assert p in tx + [o]; }
    if Refused(tx, id) { var p :| p in tx && Refuses(p, id); assert p in tx + [o]; }
  }

  /** How a frame of stream `id` adds to what is queued. */
  ghost predicate Adds(tx: seq<Out>, tx': seq<Out>, id: nat) {
    && (forall k: nat | k != id :: (ToldOff(tx', k) <==> ToldOff(tx, k)) && (Refused(tx', k) <==> Refused(tx, k)))
    && (ToldOff(tx, id) ==> ToldOff(tx', id)) && (Refused(tx, id) ==> Refused(tx', id))
  }

  lemma QueueAdds(tx: seq<Out>, o: Out, id: nat)
    requires o.Rst? ==> o.id == id
    ensures Adds(tx, tx + [o], id)
    ensures (ToldOff(tx + [o], id) <==> ToldOff(tx, id) || o.Rst?) && (Refused(tx + [o], id) <==> Refused(tx, id) || (o.Rst? && o.code == RefusedStream))
  {
    forall k: nat ensures (ToldOff(tx + [o], k) <==> ToldOff(tx, k) || Resets(o, k)) && (Refused(tx + [o], k) <==> Refused(tx, k) || Refuses(o, k)) {
      SaidNext(tx, o, k);
    }
  }

  lemma ResetIs(c: Conn, id: nat, code: Code)
    requires Linked(c) && code != RefusedStream
    ensures var r := ResetStream(c, id, code);
            && Adds(c.tx, r.tx, id) && ToldOff(r.tx, id) && (Refused(r.tx, id) <==> Refused(c.tx, id))
  {
    QueueAdds(c.tx, Rst(id, code), id);
  }

  // ---- One frame ----

  /** When a lawful frame ends the connection, and how. */
  ghost function Halts(c: Conn, f: Frame, answer: Hpack.Decoding): Option<Code>
    requires Linked(c)
  {
    if f.kind == DATA && Refused(c.tx, f.stream) then Some(StreamClosed)
    else if f.kind == HEADERS && ToldOff(c.tx, f.stream) then Some(StreamClosed)
    else if f.kind == CONTINUATION && (Refused(c.tx, f.stream) || |OpenBlock(c.rx)| + |f.payload| > 131072) then Some(Protocol)
    else if f.kind == WINDOW_UPDATE && f.stream == 0 && 65535 + Increments(c.rx, 0) - Sent(c.tx) + U31(f.payload) > 0x7FFF_FFFF then Some(FlowControl)
    else if (f.kind == HEADERS || f.kind == CONTINUATION) && EndHeaders(f) && answer.failure == Some(Hpack.Compression)
         && !(f.kind == HEADERS && Fresh(c.rx, f.stream) && |Active(c)| >= 128) then Some(Compression)
    else None
  }

  /** What a frame that is not the end leaves of its own stream. */
  ghost predicate Told(c: Conn, f: Frame, c1: Conn) {
    && c1.rx == c.rx + [f] && Adds(c.tx, c1.tx, f.stream)
    && Known(c1, f.stream) && Numbered(c1, f.stream)
    && c1.highest == (if f.kind == HEADERS && Fresh(c.rx, f.stream) then f.stream else c.highest)
    && Waiting(c1)
  }

  /** A frame ends the connection as said, or is told. */
  ghost predicate Meets(c: Conn, f: Frame, answer: Hpack.Decoding, r: Outcome)
    requires Linked(c)
  {
    match Halts(c, f, answer)
    case Some(code) => r == Stop(code)
    case None => r.Go? && Told(c, f, r.c)
  }

  /** What is used of the state before the frame. */
  ghost predicate Before(c: Conn, f: Frame) {
    && Linked(c) && Lawful(c.rx, f) && Known(c, f.stream) && Numbered(c, f.stream) && Waiting(c)
    && (f.stream in c.streams ==> f.stream <= c.highest)
  }

  // ---- DATA ----

  lemma DataWhere(c: Conn, f: Frame)
    requires Before(c, f) && f.kind == DATA
    ensures c.awaited == None && f.stream != 0 && Began(c.rx, f.stream)
    ensures At(c, f.stream) == if Refused(c.tx, f.stream) then Closed else if ToldOff(c.tx, f.stream) then WasReset else IsOpen
  {}

  /** `c1` is `c` after the frame was heard, with no word to any stream yet. */
  ghost predicate Quiet(c: Conn, f: Frame, c1: Conn) {
    && Linked(c1) && c1.rx == c.rx + [f] && Adds(c.tx, c1.tx, f.stream)
    && (Refused(c1.tx, f.stream) <==> Refused(c.tx, f.stream)) && (ToldOff(c1.tx, f.stream) <==> ToldOff(c.tx, f.stream))
    && c1.highest == (if f.kind == HEADERS && Fresh(c.rx, f.stream) then f.stream else c.highest)
  }

  ghost predicate HeardAs(c: Conn, f: Frame, c1: Conn) { Quiet(c, f, c1) && Waiting(c1) }

  /** Resetting its stream then. */
  lemma ToldReset(c: Conn, f: Frame, c1: Conn, code: Code)
    requires HeardAs(c, f, c1) && code != RefusedStream && Numbered(c1, f.stream) && Began(c1.rx, f.stream)
    requires Began(c1.rx, f.stream) && !Ended(c1.rx, f.stream) ==> f.stream in c1.streams && !Refused(c.tx, f.stream) && !c1.streams[f.stream].dispatched
    ensures Told(c, f, ResetStream(c1, f.stream, code))
  {
    MidwayNext(c.rx, f);
    ResetIs(c1, f.stream, code);
  }

  lemma DataHeard(c: Conn, f: Frame, c1: Conn)
    requires Before(c, f) && f.kind == DATA && c1 == Replenished(c.(rx := c.rx + [f], recvWindow := c.recvWindow - |f.payload|))
    ensures HeardAs(c, f, c1) && Numbered(c1, f.stream) && Began(c1.rx, f.stream)
  {
    LogNext(c.rx, f, f.stream);
    MidwayNext(c.rx, f);
    QueueAdds(c.tx, WindowUpdate(0, OUR_INITIAL_WINDOW - (c.recvWindow - |f.payload|)), f.stream);
  }

  lemma BodyTold(c: Conn, f: Frame, c1: Conn, data: seq<byte>)
    requires Before(c, f) && f.kind == DATA && HeardAs(c, f, c1) && Numbered(c1, f.stream) && At(c, f.stream) == IsOpen
    requires c1.streams == c.streams && c1.flows == c.flows
    ensures Told(c, f, BodyAdded(c1, f, data))
  {
    LogNext(c.rx, f, f.stream);
  }

  /** What DATA comes to on a stream that was begun. */
  lemma DataIs(c0: Conn, f: Frame, c1: Conn, data: seq<byte>, r: Outcome)
    requires Linked(c0) && f.stream != 0 && Unpad(f.payload, Padded(f)) == Some(data) && r == OnData(c0, f)
    requires c1 == Replenished(c0.(recvWindow := c0.recvWindow - |f.payload|)) && At(c0, f.stream) in {Closed, WasReset, IsOpen}
    ensures At(c0, f.stream) == Closed ==> r == Stop(StreamClosed)
    ensures At(c0, f.stream) == WasReset ==> r == Go(ResetStream(c1, f.stream, StreamClosed))
    ensures At(c0, f.stream) == IsOpen ==> r == Go(ResetStream(c1, f.stream, EnhanceYourCalm)) || r == Go(BodyAdded(c1, f, data))
  {}

  lemma DataMeets(c: Conn, f: Frame, answer: Hpack.Decoding, c0: Conn, r: Outcome)
    requires Before(c, f) && f.kind == DATA && c0 == c.(rx := c.rx + [f]) && r == OnData(c0, f)
    ensures Meets(c, f, answer, r)
  {
    var c1 := Replenished(c0.(recvWindow := c0.recvWindow - |f.payload|));
    var data := Unpad(f.payload, Padded(f)).value;
    DataWhere(c, f);
    DataIs(c0, f, c1, data, r);
    DataHeard(c, f, c1);
    if At(c, f.stream) == IsOpen {
      BodyTold(c, f, c1, data);
      ToldReset(c, f, c1, EnhanceYourCalm);
    } else if At(c, f.stream) == WasReset {
      ToldReset(c, f, c1, StreamClosed);
    }
  }

  // ---- HEADERS and CONTINUATION ----

  /** A finished block leaves its stream as it is, or resets it. */
  lemma FinishedTold(c: Conn, f: Frame, c2: Conn, answer: Hpack.Decoding, r: Outcome)
    requires HeardAs(c, f, c2) && Numbered(c2, f.stream) && Known(c2, f.stream) && Began(c2.rx, f.stream) && f.stream in c2.streams && !Refused(c.tx, f.stream)
    requires r == Finished(c2, f.stream, answer) && answer.failure != Some(Hpack.Compression) && EndHeaders(f)
    ensures r.Go? && Told(c, f, r.c)
  {
    var c3 := Put(c2, f.stream, c2.streams[f.stream].(pending := [])).(dec := answer.table);
    MidwayNext(c.rx, f);
    FinishedOutcomes(c2, f.stream, answer);
    ToldReset(c, f, c3, EnhanceYourCalm);
    ToldReset(c, f, c3, Protocol);
  }

  lemma BlockTold(c: Conn, f: Frame, c2: Conn, answer: Hpack.Decoding, r: Outcome)
    requires Quiet(c, f, c2) && c2.awaited == None && f.kind == HEADERS && Began(c2.rx, f.stream)
    requires Numbered(c2, f.stream) && Known(c2, f.stream) && f.stream in c2.streams && !Refused(c.tx, f.stream)
    requires r == BlockOpened(c2, f, answer) && !(EndHeaders(f) && answer.failure == Some(Hpack.Compression))
    ensures r.Go? && Told(c, f, r.c)
  {
    MidwayNext(c.rx, f);
    if EndHeaders(f) { FinishedTold(c, f, c2, answer, r); }
  }

  lemma RefusedIsTold(tx: seq<Out>, id: nat)
    ensures Refused(tx, id) ==> ToldOff(tx, id)
  {
    if Refused(tx, id) { var o :| o in tx && Refuses(o, id); assert Resets(o, id); }
  }

  /** A new stream is beyond all that were begun, and unheard of. */
  lemma FreshWhere(c: Conn, f: Frame)
    requires Before(c, f) && f.kind == HEADERS && Fresh(c.rx, f.stream) && (c.highest > 0 ==> Began(c.rx, c.highest))
    ensures f.stream > c.highest && c.awaited == None && f.stream !in c.streams && !Began(c.rx, f.stream) && !ToldOff(c.tx, f.stream) && !Refused(c.tx, f.stream)
    ensures !Ended(c.rx, f.stream) && !Cancelled(c.rx, f.stream)
  {
    RefusedIsTold(c.tx, f.stream);
  }

  lemma OpenedTold(c: Conn, f: Frame, block: seq<byte>, c1: Conn, answer: Hpack.Decoding, r: Outcome)
    requires Quiet(c, f, c1) && c1.awaited == None && f.kind == HEADERS && FragmentOf(f) == Block(block) && f.stream % 2 == 1
    requires c1.highest == f.stream && !Refused(c.tx, f.stream) && !ToldOff(c.tx, f.stream)
    requires !Ended(c.rx, f.stream) && !Cancelled(c.rx, f.stream)
    requires r == BlockOpened(Opened(c1, f, block), f, answer) && !(EndHeaders(f) && answer.failure == Some(Hpack.Compression))
    ensures r.Go? && Told(c, f, r.c)
  {
    LogNext(c.rx, f, f.stream);
    BlockTold(c, f, Opened(c1, f, block), answer, r);
  }

  lemma RefusedTold(c: Conn, f: Frame, c1: Conn)
    requires Quiet(c, f, c1) && c1.awaited == None && f.kind == HEADERS && f.stream % 2 == 1
    requires c1.highest == f.stream && f.stream !in c1.streams && Began(c1.rx, f.stream)
    ensures Told(c, f, Queue(c1, Rst(f.stream, RefusedStream)))
  {
    QueueAdds(c1.tx, Rst(f.stream, RefusedStream), f.stream);
    MidwayNext(c.rx, f);
  }

  lemma NewIs(c0: Conn, f: Frame, block: seq<byte>, answer: Hpack.Decoding, c1: Conn, r: Outcome)
    requires Linked(c0) && f.kind == HEADERS && f.stream % 2 == 1 && FragmentOf(f) == Block(block) && f.stream > c0.highest && f.stream !in c0.streams
    requires r == OnHeaders(c0, f, answer) && c1 == Pruned(c0.(highest := f.stream))
    ensures r == if |Active(c0)| >= 128 then Go(Queue(c1, Rst(f.stream, RefusedStream))) else BlockOpened(Opened(c1, f, block), f, answer)
    ensures f.stream !in c1.streams
  {
    assert Active(c1) == Active(c0);
  }

  lemma BadBlock(c: Conn, f: Frame, answer: Hpack.Decoding)
    requires Linked(c) && f.stream in c.streams && EndHeaders(f) && answer.failure == Some(Hpack.Compression)
    ensures BlockOpened(c, f, answer) == Stop(Compression)
  {}

  lemma NewMeets(c: Conn, f: Frame, answer: Hpack.Decoding, c0: Conn, r: Outcome)
    requires Before(c, f) && f.kind == HEADERS && Fresh(c.rx, f.stream) && (c.highest > 0 ==> Began(c.rx, c.highest))
    requires c0 == c.(rx := c.rx + [f]) && r == OnHeaders(c0, f, answer)
    ensures Meets(c, f, answer, r)
  {
    var block := FragmentOf(f).bytes;
    var c1 := Pruned(c0.(highest := f.stream));
    FreshWhere(c, f);
    NewIs(c0, f, block, answer, c1, r);
    assert Active(c0) == Active(c);
    LogNext(c.rx, f, f.stream);
    if |Active(c)| >= 128 {
      RefusedTold(c, f, c1);
    } else if EndHeaders(f) && answer.failure == Some(Hpack.Compression) {
      BadBlock(Opened(c1, f, block), f, answer);
    } else {
      OpenedTold(c, f, block, c1, answer, r);
    }
  }

  lemma TrailersAre(c0: Conn, f: Frame, block: seq<byte>, answer: Hpack.Decoding, r: Outcome)
    requires Linked(c0) && f.kind == HEADERS && f.stream % 2 == 1 && FragmentOf(f) == Block(block) && EndStream(f)
    requires At(c0, f.stream) in {Closed, WasReset, IsOpen} && r == OnHeaders(c0, f, answer)
    ensures r == if At(c0, f.stream) == IsOpen then BlockOpened(Trailing(c0, f.stream, block), f, answer) else Stop(StreamClosed)
  {}

  lemma TrailersWhere(c: Conn, f: Frame)
    requires Before(c, f) && f.kind == HEADERS && Sending(c.rx, f.stream) && !Fresh(c.rx, f.stream)
    ensures c.awaited == None && EndStream(f)
    ensures At(c, f.stream) == if Refused(c.tx, f.stream) then Closed else if ToldOff(c.tx, f.stream) then WasReset else IsOpen
  {}

  lemma TrailersMeet(c: Conn, f: Frame, answer: Hpack.Decoding, c0: Conn, r: Outcome)
    requires Before(c, f) && f.kind == HEADERS && !Fresh(c.rx, f.stream) && c0 == c.(rx := c.rx + [f]) && r == OnHeaders(c0, f, answer)
    ensures Meets(c, f, answer, r)
  {
    var block := FragmentOf(f).bytes;
    RefusedIsTold(c.tx, f.stream);
    TrailersWhere(c, f);
    TrailersAre(c0, f, block, answer, r);
    LogNext(c.rx, f, f.stream);
    if At(c, f.stream) == IsOpen {
      var c2 := Trailing(c0, f.stream, block);
      if EndHeaders(f) && answer.failure == Some(Hpack.Compression) {
        BadBlock(c2, f, answer);
      } else {
        BlockTold(c, f, c2, answer, r);
      }
    }
  }

  lemma ContinuationMeets(c: Conn, f: Frame, answer: Hpack.Decoding, c0: Conn, r: Outcome)
    requires Before(c, f) && f.kind == CONTINUATION && c0 == c.(rx := c.rx + [f])
    requires Began(c.rx, f.stream) && (c.awaited.Some? ==> f.stream in c.streams && c.streams[f.stream].pending == OpenBlock(c.rx))
    requires r == OnContinuation(c0, f, answer)
    ensures Meets(c, f, answer, r)
  {
    LogNext(c.rx, f, f.stream);
    MidwayNext(c.rx, f);
    if c.awaited == Some(f.stream) && |OpenBlock(c.rx)| + |f.payload| <= 131072 {
      var st := c.streams[f.stream];
      var c1 := Put(c0, f.stream, st.(pending := st.pending + f.payload));
      if EndHeaders(f) && answer.failure != Some(Hpack.Compression) {
        FinishedTold(c, f, c1.(awaited := None), answer, r);
      }
    }
  }

  // ---- The other frames ----

  /** A frame that leaves the streams as they were and says nothing to any. */
  lemma PlainTold(c: Conn, f: Frame, c1: Conn)
    requires Before(c, f) && f.kind != DATA && f.kind != HEADERS && f.kind != CONTINUATION && f.kind != RST_STREAM
    requires Linked(c1) && c1.rx == c.rx + [f] && c1.streams == c.streams && c1.highest == c.highest && c1.awaited == c.awaited
    requires Adds(c.tx, c1.tx, f.stream) && (Refused(c1.tx, f.stream) <==> Refused(c.tx, f.stream)) && (ToldOff(c1.tx, f.stream) <==> ToldOff(c.tx, f.stream))
    requires f.stream in c.flows ==> f.stream in c1.flows && c1.flows[f.stream].done == c.flows[f.stream].done
    ensures HeardAs(c, f, c1) && Told(c, f, c1)
  {
    LogNext(c.rx, f, f.stream);
    MidwayNext(c.rx, f);
  }

  lemma {:induction false} PermittedRead(c: Conn, payload: seq<byte>)
    requires forall i | 0 <= i < |Params(payload)| :: Permitted(Params(payload)[i])
    ensures SettingsRead(c, payload).Go?
    decreases |payload|
  {
    if |payload| >= 6 {
      var p := (BigEndian.Value(payload[..2]), BigEndian.Value(payload[2..6]));
      var rest := Params(payload[6..]);
      assert Params(payload) == [p] + rest;
      assert Permitted(Params(payload)[0]);
      forall i | 0 <= i < |rest| ensures Permitted(rest[i]) { assert Params(payload)[i + 1] == rest[i]; }
      PermittedRead(OneSetting(c, p.0, p.1).c, payload[6..]);
    }
  }

  lemma SettingsMeet(c: Conn, f: Frame, answer: Hpack.Decoding, c0: Conn, r: Outcome)
    requires Before(c, f) && f.kind == SETTINGS && c0 == c.(rx := c.rx + [f]) && r == OnSettings(c0, f)
    ensures Meets(c, f, answer, r)
  {
    if !Ack(f) {
      PermittedRead(c0, f.payload);
      QueueAdds(c.tx, SettingsAck, f.stream);
    }
    PlainTold(c, f, r.c);
  }

  lemma PingMeets(c: Conn, f: Frame, answer: Hpack.Decoding, c0: Conn, r: Outcome)
    requires Before(c, f) && f.kind == PING && c0 == c.(rx := c.rx + [f]) && r == OnPing(c0, f)
    ensures Meets(c, f, answer, r)
  {
    QueueAdds(c.tx, Pong(f.payload), f.stream);
    PlainTold(c, f, r.c);
  }

  lemma CancelMeets(c: Conn, f: Frame, answer: Hpack.Decoding, c0: Conn, r: Outcome)
    requires Before(c, f) && f.kind == RST_STREAM && c0 == c.(rx := c.rx + [f]) && r == OnRst(c0, f)
    ensures Meets(c, f, answer, r)
  {
    LogNext(c.rx, f, f.stream);
    MidwayNext(c.rx, f);
  }

  lemma UpdateMeets(c: Conn, f: Frame, answer: Hpack.Decoding, c0: Conn, r: Outcome)
    requires Before(c, f) && f.kind == WINDOW_UPDATE && c0 == c.(rx := c.rx + [f]) && r == OnWindowUpdate(c0, f)
    requires c.connWindow == 65535 + Increments(c.rx, 0) - Sent(c.tx)
    ensures Meets(c, f, answer, r)
  {
    PlainTold(c, f, c0);
    if r.Go? { UpdateOutcomes(c0, f, r, U31(f.payload)); }
    if !r.Go? {
    } else if r.c == ResetStream(c0, f.stream, FlowControl) {
      ToldReset(c, f, c0, FlowControl);
    } else {
      PlainTold(c, f, r.c);
    }
  }

  lemma FrameMeets(c: Conn, f: Frame, answer: Hpack.Decoding, c0: Conn, r: Outcome)
    requires Before(c, f) && c0 == c.(rx := c.rx + [f]) && CanContinue(c0) && r == OnFrame(c0, f, answer)
    requires c.highest > 0 ==> Began(c.rx, c.highest)
    requires c.connWindow == 65535 + Increments(c.rx, 0) - Sent(c.tx)
    requires f.kind == CONTINUATION ==> Began(c.rx, f.stream) && (c.awaited.Some? ==> c.streams[f.stream].pending == OpenBlock(c.rx))
    ensures Meets(c, f, answer, r)
  {
    if f.kind == DATA { DataMeets(c, f, answer, c0, r); }
    else if f.kind == HEADERS {
      if Fresh(c.rx, f.stream) { NewMeets(c, f, answer, c0, r); } else { TrailersMeet(c, f, answer, c0, r); }
    }
    else if f.kind == CONTINUATION { ContinuationMeets(c, f, answer, c0, r); }
    else if f.kind == SETTINGS { SettingsMeet(c, f, answer, c0, r); }
    else if f.kind == PING { PingMeets(c, f, answer, c0, r); }
    else if f.kind == RST_STREAM { CancelMeets(c, f, answer, c0, r); }
    else if f.kind == WINDOW_UPDATE { UpdateMeets(c, f, answer, c0, r); }
    else { PlainTold(c, f, c0); }
  }

  // ---- The other streams ----

  ghost predicate SameDone(c: Conn, c1: Conn, k: nat) {
    k in c.flows ==> k in c1.flows && c1.flows[k].done == c.flows[k].done
  }

  ghost predicate OthersCount(c: Conn, c1: Conn, id: nat) { forall k: nat | k != id :: SameDone(c, c1, k) }

  lemma FinishedCount(c: Conn, id: nat, answer: Hpack.Decoding, c1: Conn)
    requires Linked(c) && id in c.streams && Finished(c, id, answer) == Go(c1)
    ensures OthersCount(c, c1, id)
  {
    FinishedOutcomes(c, id, answer);
    forall k: nat | k != id ensures SameDone(c, c1, k) {}
  }

  lemma BlockCount(c: Conn, f: Frame, answer: Hpack.Decoding, c1: Conn)
    requires Linked(c) && f.stream in c.streams && BlockOpened(c, f, answer) == Go(c1)
    ensures OthersCount(c, c1, f.stream)
  {
    if EndHeaders(f) { FinishedCount(c, f.stream, answer, c1); }
  }

  lemma NewCount(c: Conn, f: Frame, block: seq<byte>, answer: Hpack.Decoding, c1: Conn)
    requires Linked(c) && OpenStream(c, f, block, answer) == Go(c1)
    ensures OthersCount(c, c1, f.stream)
  {
    var pruned := Pruned(c.(highest := f.stream));
    OpenOutcomes(c, f, block, answer, pruned);
    if |Active(pruned)| < MAX_CONCURRENT { BlockCount(Opened(pruned, f, block), f, answer, c1); }
  }

  lemma HeadersCount(c: Conn, f: Frame, answer: Hpack.Decoding, c1: Conn)
    requires Linked(c) && f.kind == HEADERS && At(c, f.stream) != HalfClosed && OnHeaders(c, f, answer) == Go(c1)
    ensures OthersCount(c, c1, f.stream)
  {
    HeadersOutcomes(c, f, answer);
    match FragmentOf(f)
    case SelfDependent =>
    case Block(block) =>
      if At(c, f.stream) == Idle {
        NewCount(c, f, block, answer, c1);
      } else if EndStream(f) {
        BlockCount(Trailing(c, f.stream, block), f, answer, c1);
      }
  }

  lemma ContinuationCount(c: Conn, f: Frame, answer: Hpack.Decoding, c1: Conn)
    requires Linked(c) && CanContinue(c) && f.kind == CONTINUATION && OnContinuation(c, f, answer) == Go(c1)
    ensures OthersCount(c, c1, f.stream)
  {
    var st := c.streams[f.stream];
    if EndHeaders(f) { FinishedCount(Put(c, f.stream, st.(pending := st.pending + f.payload)).(awaited := None), f.stream, answer, c1); }
  }

  lemma DataCount(c: Conn, f: Frame, c1: Conn)
    requires Linked(c) && f.kind == DATA && OnData(c, f) == Go(c1)
    ensures OthersCount(c, c1, f.stream)
  {
    DataOutcomes(c, f, Replenished(c.(recvWindow := c.recvWindow - |f.payload|)));
  }

  lemma SettingsCount(c: Conn, f: Frame, c1: Conn)
    requires Linked(c) && OnSettings(c, f) == Go(c1)
    ensures OthersCount(c, c1, f.stream)
  {}

  lemma UpdateCount(c: Conn, f: Frame, c1: Conn)
    requires Linked(c) && OnWindowUpdate(c, f) == Go(c1)
    ensures OthersCount(c, c1, f.stream)
  {
    UpdateOutcomes(c, f, Go(c1), U31(f.payload));
  }

  lemma FrameCount(c: Conn, f: Frame, answer: Hpack.Decoding, c1: Conn)
    requires Linked(c) && CanContinue(c) && (f.kind == HEADERS ==> At(c, f.stream) != HalfClosed) && OnFrame(c, f, answer) == Go(c1)
    ensures OthersCount(c, c1, f.stream)
  {
    if f.kind == DATA { DataCount(c, f, c1); }
    else if f.kind == HEADERS { HeadersCount(c, f, answer, c1); }
    else if f.kind == CONTINUATION { ContinuationCount(c, f, answer, c1); }
    else if f.kind == SETTINGS { SettingsCount(c, f, c1); }
    else if f.kind == WINDOW_UPDATE { UpdateCount(c, f, c1); }
  }

  lemma OtherKnown(c: Conn, f: Frame, c1: Conn, k: nat)
    requires Known(c, k) && Numbered(c, k) && k != f.stream && c1.rx == c.rx + [f] && Adds(c.tx, c1.tx, f.stream)
    requires Kept(c, c1, k) && SameDone(c, c1, k) && c1.highest >= c.highest
    ensures Known(c1, k) && Numbered(c1, k)
  {
    LogNext(c.rx, f, k);
  }

  // ---- A whole step ----

  lemma ReceiveBefore(c: Conn, f: Frame)
    requires Inv(c) && Knows(c) && Lawful(c.rx, f)
    ensures Before(c, f) && Refusal(c, f) == None && CanContinue(c)
    ensures c.connWindow == 65535 + Increments(c.rx, 0) - Sent(c.tx)
    ensures f.kind == CONTINUATION && c.awaited.Some? ==> c.awaited == Some(f.stream) && c.streams[f.stream].pending == OpenBlock(c.rx)
    ensures f.kind == HEADERS ==> At(c, f.stream) != HalfClosed
  {
    assert Known(c, f.stream) && Numbered(c, f.stream);
    if f.stream in c.streams { OddIds(c, f.stream); }
    if f.kind == HEADERS { NotHalfClosed(c, f.stream); }
  }

  lemma ReceiveMeets(c: Conn, f: Frame, answer: Hpack.Decoding, c0: Conn, r: Outcome)
    requires Inv(c) && Knows(c) && Lawful(c.rx, f) && c0 == c.(rx := c.rx + [f])
    requires CanContinue(c0) && r == OnFrame(c0, f, answer)
    ensures Meets(c, f, answer, r)
  {
    ReceiveBefore(c, f);
    FrameMeets(c, f, answer, c0, r);
  }

  /** When a client that keeps to the rules is turned away: exactly when `Halts` says so, and with that code. */
  lemma LawfulIsServed(c: Conn, f: Frame, answer: Hpack.Decoding)
    requires Inv(c) && Knows(c) && Lawful(c.rx, f)
    ensures Linked(c) && CanContinue(c)
    ensures match Halts(c, f, answer)
            case Some(code) => Step(c, Receive(f, answer)) == Stop(code)
            case None => Step(c, Receive(f, answer)).Go?
  {
    ReceiveBefore(c, f);
    var c0 := c.(rx := c.rx + [f]);
    ReceiveMeets(c, f, answer, c0, OnFrame(c0, f, answer));
  }

  lemma AllKnown(c: Conn, f: Frame, c1: Conn)
    requires Knows(c) && Told(c, f, c1) && Forward(c, c1, f.stream) && OthersCount(c, c1, f.stream)
    ensures forall k: nat :: Known(c1, k) && Numbered(c1, k)
  {
    forall k: nat ensures Known(c1, k) && Numbered(c1, k) {
      if k != f.stream {
        assert Known(c, k) && Numbered(c, k) && Kept(c, c1, k) && SameDone(c, c1, k);
        OtherKnown(c, f, c1, k);
      }
    }
  }

  lemma DispatchedKnown(c1: Conn, id: nat, c': Conn)
    requires Linked(c1) && c' == Dispatched(c1, id) && (forall k: nat :: Known(c1, k) && Numbered(c1, k))
    ensures forall k: nat :: Known(c', k) && Numbered(c', k)
  {
    if Ready(c1, id) { QueueAdds(c1.tx, Rst(id, Protocol), id); }
    forall k: nat ensures Known(c', k) && Numbered(c', k) {
      assert Known(c1, k) && Numbered(c1, k) && Known(c1, id) && Numbered(c1, id);
    }
  }

  lemma DispatchedWaits(c1: Conn, id: nat, c': Conn)
    requires Linked(c1) && c' == Dispatched(c1, id) && Waiting(c1)
    ensures c'.rx == c1.rx && c'.highest == c1.highest && Waiting(c')
  {
    if Ready(c1, id) { QueueAdds(c1.tx, Rst(id, Protocol), id); }
  }

  lemma BlocksNext(rx: seq<Frame>, f: Frame)
    requires Lawful(rx, f) && BlocksBegun(rx)
    ensures BlocksBegun(rx + [f])
  {
    LogNext(rx, f, f.stream);
    MidwayNext(rx, f);
  }

  lemma TopNext(c: Conn, f: Frame, c1: Conn)
    requires Lawful(c.rx, f) && (c.highest > 0 ==> Began(c.rx, c.highest)) && Told(c, f, c1)
    ensures c1.highest > 0 ==> Began(c1.rx, c1.highest)
  {
    LogNext(c.rx, f, c1.highest);
  }

  lemma ReceiveKnows(c: Conn, f: Frame, answer: Hpack.Decoding, c': Conn)
    requires Inv(c) && Knows(c) && Lawful(c.rx, f) && Follows(c, Receive(f, answer), c')
    ensures Knows(c')
  {
    var c0 := c.(rx := c.rx + [f]);
    var c1 := OnFrame(c0, f, answer).c;
    ReceiveBefore(c, f);
    ReceiveMeets(c, f, answer, c0, Go(c1));
    FrameStays(c, f, answer, c0, c1);
    AllKnown(c, f, c1);
    DispatchedKnown(c1, f.stream, c');
    DispatchedWaits(c1, f.stream, c');
    BlocksNext(c.rx, f);
    TopNext(c, f, c1);
  }

  lemma FrameStays(c: Conn, f: Frame, answer: Hpack.Decoding, c0: Conn, c1: Conn)
    requires Inv(c) && c0 == c.(rx := c.rx + [f]) && (f.kind == HEADERS ==> At(c, f.stream) != HalfClosed) && OnFrame(c0, f, answer) == Go(c1)
    ensures Forward(c, c1, f.stream) && OthersCount(c, c1, f.stream)
  {
    forall k | k in c.streams ensures k <= c.highest { OddIds(c, k); }
    SameStreamsForward(c, c0, f.stream);
    FrameForward(c0, f, answer, c1);
    ForwardTrans(c, c0, c1, f.stream);
    FrameCount(c0, f, answer, c1);
    forall k: nat | k != f.stream ensures SameDone(c, c1, k) { assert SameDone(c0, c1, k); }
  }

  lemma TaskKnown(c: Conn, e: Event, c': Conn, k: nat)
    requires Inv(c) && Follows(c, e, c') && !e.Receive? && Known(c, k) && Numbered(c, k)
    requires forall j: nat :: (ToldOff(c'.tx, j) <==> ToldOff(c.tx, j)) && (Refused(c'.tx, j) <==> Refused(c.tx, j))
    ensures Known(c', k) && Numbered(c', k)
  {
    if k in c.streams { assert StreamOk(c, k); }
  }

  lemma TaskSays(c: Conn, e: Event, c': Conn)
    requires Follows(c, e, c') && !e.Receive?
    ensures forall j: nat :: (ToldOff(c'.tx, j) <==> ToldOff(c.tx, j)) && (Refused(c'.tx, j) <==> Refused(c.tx, j))
    ensures c'.rx == c.rx && c'.highest == c.highest && c'.awaited == c.awaited
  {
    if c'.tx != c.tx { QueueAdds(c.tx, c'.tx[|c.tx|], e.id); }
  }

  lemma StepKnows(c: Conn, e: Event, c': Conn)
    requires Inv(c) && Knows(c) && LawfulEvent(c, e) && Follows(c, e, c')
    ensures Knows(c')
  {
    match e
    case Receive(f, answer) => ReceiveKnows(c, f, answer, c');
    case _ =>
      TaskSays(c, e, c');
      forall k: nat ensures Known(c', k) && Numbered(c', k) { assert Known(c, k) && Numbered(c, k); TaskKnown(c, e, c', k); }
  }

  lemma FreshKnows(maxBody: nat)
    ensures Knows(Init(maxBody))
  {}

  lemma NextKnows(maxBody: nat, cs: seq<Conn>, es: seq<Event>, i: nat, c: Conn, c': Conn)
    requires LawfulRun(maxBody, cs, es) && i < |es| && c == cs[i] && c' == cs[i + 1] && Knows(c)
    ensures Knows(c')
  {
    RunStep(maxBody, cs, es, i, c, c');
    StepKnows(c, es[i], c');
  }

  lemma {:induction false} AllKnow(maxBody: nat, cs: seq<Conn>, es: seq<Event>, i: nat)
    requires LawfulRun(maxBody, cs, es) && i <= |es|
    ensures Knows(cs[i])
  {
    if i == 0 {
      FreshKnows(maxBody);
    } else {
      AllKnow(maxBody, cs, es, i - 1);
      NextKnows(maxBody, cs, es, i - 1, cs[i - 1], cs[i]);
    }
  }

  /** Over every run of such a client, the frames say where every stream is that it has not ended. */
  lemma EverKnown(maxBody: nat, cs: seq<Conn>, es: seq<Event>, i: nat, c: Conn)
    requires LawfulRun(maxBody, cs, es) && i <= |es| && c == cs[i]
    ensures Knows(c)
  {
    AllKnow(maxBody, cs, es, i);
  }

  /** On every run of such a client the next frame ends the connection exactly when `Halts` says so. */
  lemma EverServed(maxBody: nat, cs: seq<Conn>, es: seq<Event>, i: nat, c: Conn, f: Frame, answer: Hpack.Decoding)
    requires LawfulRun(maxBody, cs, es) && i <= |es| && c == cs[i] && Lawful(c.rx, f)
    ensures Linked(c) && CanContinue(c)
    ensures match Halts(c, f, answer)
            case Some(code) => Step(c, Receive(f, answer)) == Stop(code)
            case None => Step(c, Receive(f, answer)).Go?
  {
    EverKnown(maxBody, cs, es, i, c);
    EveryRun(maxBody, cs, es, i);
    LawfulIsServed(c, f, answer);
  }

  // ---- When its stream is reset ----

  /** Why a lawful frame that does not end the connection has its stream reset, if it does. */
  ghost function Fault(c: Conn, f: Frame, answer: Hpack.Decoding): Option<Code>
    requires Linked(c)
  {
    var id := f.stream;
    if f.kind == DATA then
      if |BodyOf(c.rx, id)| + |DataOf(f, id)| > c.maxBody then Some(EnhanceYourCalm) else None
    else if f.kind == HEADERS && Fresh(c.rx, id) && |Active(c)| >= 128 then Some(RefusedStream)
    else if f.kind == HEADERS || f.kind == CONTINUATION then
      var trailers := if f.kind == HEADERS then !Fresh(c.rx, id) else id in c.streams && c.streams[id].trailers;
      if EndHeaders(f) && answer.failure == Some(Hpack.TooLarge) then Some(EnhanceYourCalm)
      else if EndHeaders(f) && trailers && HasPseudo(answer.out) then Some(Protocol)
      else None
    else if f.kind == WINDOW_UPDATE && id in c.streams && c.flows[id].window + U31(f.payload) > 0x7FFF_FFFF then Some(FlowControl)
    else None
  }

  /** The frame has its stream reset with the code, or says nothing to it. */
  ghost predicate Faults(c: Conn, f: Frame, fault: Option<Code>, c1: Conn) {
    match fault
    case Some(code) => c1.tx != [] && c1.tx[|c1.tx| - 1] == Rst(f.stream, code)
    case None => ToldOff(c1.tx, f.stream) ==> ToldOff(c.tx, f.stream)
  }

  lemma DataFaults(c: Conn, f: Frame, answer: Hpack.Decoding, c0: Conn, c1: Conn)
    requires Before(c, f) && f.kind == DATA && c0 == c.(rx := c.rx + [f]) && OnData(c0, f) == Go(c1) && !ToldOff(c.tx, f.stream)
    requires f.stream in c.streams ==> c.streams[f.stream].body == BodyOf(c.rx, f.stream)
    ensures Faults(c, f, Fault(c, f, answer), c1)
  {
    var c2 := Replenished(c0.(recvWindow := c0.recvWindow - |f.payload|));
    RefusedIsTold(c.tx, f.stream);
    DataWhere(c, f);
    DataHeard(c, f, c2);
  }

  lemma FinishedFaults(c: Conn, f: Frame, c2: Conn, answer: Hpack.Decoding, c1: Conn)
    requires Linked(c2) && f.stream in c2.streams && Finished(c2, f.stream, answer) == Go(c1) && c2.tx == c.tx
    ensures Faults(c, f, if answer.failure == Some(Hpack.TooLarge) then Some(EnhanceYourCalm)
                         else if c2.streams[f.stream].trailers && HasPseudo(answer.out) then Some(Protocol) else None, c1)
  {}

  lemma HeadersFault(c: Conn, f: Frame, answer: Hpack.Decoding, c0: Conn, c1: Conn)
    requires Before(c, f) && f.kind == HEADERS && c0 == c.(rx := c.rx + [f]) && OnHeaders(c0, f, answer) == Go(c1) && !ToldOff(c.tx, f.stream)
    requires c.highest > 0 ==> Began(c.rx, c.highest)
    ensures Faults(c, f, Fault(c, f, answer), c1)
  {
    var block := FragmentOf(f).bytes;
    RefusedIsTold(c.tx, f.stream);
    if Fresh(c.rx, f.stream) {
      var c2 := Pruned(c0.(highest := f.stream));
      FreshWhere(c, f);
      NewIs(c0, f, block, answer, c2, Go(c1));
      assert Active(c0) == Active(c);
      if |Active(c)| < 128 && EndHeaders(f) { FinishedFaults(c, f, Opened(c2, f, block), answer, c1); }
    } else {
      TrailersWhere(c, f);
      TrailersAre(c0, f, block, answer, Go(c1));
      if EndHeaders(f) { FinishedFaults(c, f, Trailing(c0, f.stream, block), answer, c1); }
    }
  }

  lemma ContinuationFaults(c: Conn, f: Frame, answer: Hpack.Decoding, c0: Conn, c1: Conn)
    requires Before(c, f) && f.kind == CONTINUATION && c0 == c.(rx := c.rx + [f]) && CanContinue(c0) && OnContinuation(c0, f, answer) == Go(c1)
    ensures Faults(c, f, Fault(c, f, answer), c1)
  {
    var st := c.streams[f.stream];
    var c2 := Put(c0, f.stream, st.(pending := st.pending + f.payload));
    if EndHeaders(f) { FinishedFaults(c, f, c2.(awaited := None), answer, c1); }
  }

  lemma OtherFaults(c: Conn, f: Frame, answer: Hpack.Decoding, c0: Conn, c1: Conn)
    requires Before(c, f) && c0 == c.(rx := c.rx + [f]) && CanContinue(c0) && OnFrame(c0, f, answer) == Go(c1)
    requires f.kind != DATA && f.kind != HEADERS && f.kind != CONTINUATION
    ensures Faults(c, f, Fault(c, f, answer), c1)
  {
    QueueAdds(c.tx, SettingsAck, f.stream);
    QueueAdds(c.tx, Pong(f.payload), f.stream);
    if f.kind == WINDOW_UPDATE { UpdateOutcomes(c0, f, Go(c1), U31(f.payload)); }
  }

  /** A stream of a client that keeps to the rules is reset exactly when there is a fault, and with its code; a
      request whose length is not what it says is caught when it is complete. */
  lemma ResetExactly(c: Conn, f: Frame, answer: Hpack.Decoding, c1: Conn)
    requires Inv(c) && Knows(c) && Lawful(c.rx, f) && CanContinue(c) && OnFrame(c.(rx := c.rx + [f]), f, answer) == Go(c1)
    requires !ToldOff(c.tx, f.stream)
    ensures Faults(c, f, Fault(c, f, answer), c1)
  {
    var c0 := c.(rx := c.rx + [f]);
    ReceiveBefore(c, f);
    if f.kind == DATA {
      if f.stream in c.streams { assert StreamOk(c, f.stream) && Known(c, f.stream); }
      DataFaults(c, f, answer, c0, c1);
    } else if f.kind == HEADERS {
      HeadersFault(c, f, answer, c0, c1);
    } else if f.kind == CONTINUATION {
      ContinuationFaults(c, f, answer, c0, c1);
    } else {
      OtherFaults(c, f, answer, c0, c1);
    }
  }
}
