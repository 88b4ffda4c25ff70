/** What an HTTP/2 connection keeps to over whole runs. */
module Http2Runs {
  import opened Wrappers
  import opened Bits
  import opened Http2Frame
  import opened Http2Conn
  import opened Http2Length
  import opened Http2Safety
  import Hpack

  ghost predicate Follows(c: Conn, e: Event, c': Conn) {
    Linked(c) && CanContinue(c) && Step(c, e) == Go(c')
  }

  /** `cs` are the states a connection goes through on `es`. */
  ghost predicate Run(maxBody: nat, cs: seq<Conn>, es: seq<Event>) {
    && |cs| == |es| + 1 && cs[0] == Init(maxBody)
    && forall i | 0 <= i < |es| :: Follows(cs[i], es[i], cs[i + 1])
  }

  lemma {:induction false} EveryRun(maxBody: nat, cs: seq<Conn>, es: seq<Event>, i: nat)
    requires Run(maxBody, cs, es) && i <= |es|
    ensures Inv(cs[i])
  {
    if i == 0 {
      InitInv(maxBody);
    } else {
      EveryRun(maxBody, cs, es, i - 1);
      assert Follows(cs[i - 1], es[i - 1], cs[i - 1 + 1]);
      StepInv(cs[i - 1], es[i - 1]);
    }
  }

  /** Between any two steps of any run: only the client's streams are there; one whose headers are neither
      finished nor given up is the one whose header block is open; no complete request is left waiting;
      at most 128 streams count; and no stream was handed out twice. */
  lemma LoopHead(maxBody: nat, cs: seq<Conn>, es: seq<Event>, i: nat, c: Conn)
    requires Run(maxBody, cs, es) && i <= |es| && c == cs[i]
    ensures forall id | id in c.streams :: id % 2 == 1 && id <= c.highest && id in c.flows
    ensures forall id | id in c.streams && c.streams[id].state != Reset && !c.streams[id].headersDone :: c.awaited == Some(id)
    ensures c.awaited.Some? ==> c.awaited.value in c.streams && c.streams[c.awaited.value].pending == OpenBlock(c.rx)
    ensures forall id | id in c.streams && c.streams[id].headersDone && c.streams[id].state == HalfClosedRemote :: c.streams[id].dispatched
    ensures |set id | id in c.streams && !c.flows[id].done| <= 128
    ensures forall j, k | 0 <= j < k < |c.requests| :: c.requests[j].id != c.requests[k].id
  {
    EveryRun(maxBody, cs, es, i);
    assert Active(c) == set id | id in c.streams && !c.flows[id].done;
    forall id | id in c.streams
      ensures id % 2 == 1 && id <= c.highest && id in c.flows
      ensures c.streams[id].state != Reset && !c.streams[id].headersDone ==> c.awaited == Some(id)
      ensures c.streams[id].headersDone && c.streams[id].state == HalfClosedRemote ==> c.streams[id].dispatched
    {
      assert StreamOk(c, id) && !Ready(c, id);
    }
  }

  // ---- Streams only move forward ----

  function Rank(w: Where): nat {
    match w case Idle => 0 case IsOpen => 1 case HalfClosed => 2 case Closed => 3 case WasReset => 3
  }

  ghost predicate Bounded(c: Conn) { forall k | k in c.streams :: k <= c.highest }

  ghost predicate Kept(c: Conn, c': Conn, k: nat) {
    && (k in c'.streams ==> k in c.streams && c'.streams[k].state == c.streams[k].state && c'.streams[k].dispatched == c.streams[k].dispatched)
    && (k in c.streams && k !in c'.streams ==> c.streams[k].dispatched && k <= c'.highest)
  }

  ghost predicate Forward(c: Conn, c': Conn, id: nat) {
    && c'.highest >= c.highest && Rank(At(c, id)) <= Rank(At(c', id))
    && forall k | k != id :: Kept(c, c', k)
  }

  lemma ForwardTrans(a: Conn, b: Conn, c: Conn, id: nat)
    requires Forward(a, b, id) && Forward(b, c, id)
    ensures Forward(a, c, id)
  {
    forall k | k != id ensures Kept(a, c, k) { assert Kept(a, b, k) && Kept(b, c, k); }
  }

  lemma SameStreamsForward(c: Conn, c': Conn, id: nat)
    requires c'.streams == c.streams && c'.highest == c.highest
    ensures Forward(c, c', id)
  {
    forall k | k != id ensures Kept(c, c', k) {}
  }

  function RankOf(st: Stream): nat {
    match st.state case Open => 1 case HalfClosedRemote => if st.dispatched then 3 else 2 case Reset => 3
  }

  lemma PutForward(c: Conn, c': Conn, id: nat)
    requires id in c'.streams && c'.streams == c.streams[id := c'.streams[id]] && c'.highest >= c.highest
    requires if id in c.streams then RankOf(c.streams[id]) <= RankOf(c'.streams[id]) else id > c.highest
    ensures Forward(c, c', id)
  {
    forall k | k != id ensures Kept(c, c', k) {}
  }

  lemma ResetForward(c: Conn, id: nat, code: Code)
    requires Linked(c)
    ensures Forward(c, ResetStream(c, id, code), id)
  {
    var c' := ResetStream(c, id, code);
    if id in c.streams { PutForward(c, c', id); } else { SameStreamsForward(c, c', id); }
  }

  lemma DataForward(c: Conn, f: Frame, c': Conn)
    requires Linked(c) && f.kind == DATA && OnData(c, f) == Go(c')
    ensures Forward(c, c', f.stream)
  {
    var c1 := Replenished(c.(recvWindow := c.recvWindow - |f.payload|));
    DataOutcomes(c, f, c1);
    SameStreamsForward(c, c1, f.stream);
    ResetForward(c1, f.stream, StreamClosed);
    ResetForward(c1, f.stream, EnhanceYourCalm);
    if At(c, f.stream) == IsOpen { PutForward(c1, BodyAdded(c1, f, Unpad(f.payload, Padded(f)).value), f.stream); }
    ForwardTrans(c, c1, c', f.stream);
  }

  lemma FinishedForward(c: Conn, id: nat, answer: Hpack.Decoding, c': Conn)
    requires Linked(c) && id in c.streams && Finished(c, id, answer) == Go(c')
    ensures Forward(c, c', id)
  {
    FinishedOutcomes(c, id, answer);
    var c1 := Put(c, id, c.streams[id].(pending := [])).(dec := answer.table);
    PutForward(c, c1, id);
    ResetForward(c1, id, EnhanceYourCalm);
    ResetForward(c1, id, Protocol);
    if c' == ResetStream(c1, id, EnhanceYourCalm) || c' == ResetStream(c1, id, Protocol) {
      ForwardTrans(c, c1, c', id);
    } else {
      PutForward(c, c', id);
    }
  }

  lemma BlockOpenedForward(c: Conn, f: Frame, answer: Hpack.Decoding, c': Conn)
    requires Linked(c) && f.stream in c.streams && BlockOpened(c, f, answer) == Go(c')
    ensures Forward(c, c', f.stream)
  {
    if EndHeaders(f) { FinishedForward(c, f.stream, answer, c'); } else { SameStreamsForward(c, c', f.stream); }
  }

  lemma PrunedForward(c: Conn, id: nat, c1: Conn)
    requires Linked(c) && Bounded(c) && id > c.highest && c1 == Pruned(c.(highest := id))
    ensures c1.highest == id && forall k | k != id :: Kept(c, c1, k)
  {
    forall k | k != id ensures Kept(c, c1, k) {}
  }

  lemma OpenForward(c: Conn, f: Frame, block: seq<byte>, answer: Hpack.Decoding, c': Conn)
    requires Linked(c) && Bounded(c) && OpenStream(c, f, block, answer) == Go(c')
    ensures Forward(c, c', f.stream)
  {
    var id := f.stream;
    var c1 := Pruned(c.(highest := id));
    OpenOutcomes(c, f, block, answer, c1);
    PrunedForward(c, id, c1);
    if |Active(c1)| >= MAX_CONCURRENT {
      forall k | k != id ensures Kept(c, c', k) { assert Kept(c, c1, k); }
    } else {
      var c2 := Opened(c1, f, block);
      BlockOpenedForward(c2, f, answer, c');
      forall k | k != id ensures Kept(c, c2, k) { assert Kept(c, c1, k); }
      ForwardTrans(c, c2, c', id);
    }
  }

  lemma HeadersForward(c: Conn, f: Frame, answer: Hpack.Decoding, c': Conn)
    requires Linked(c) && Bounded(c) && At(c, f.stream) != HalfClosed && OnHeaders(c, f, answer) == Go(c')
    ensures Forward(c, c', f.stream)
  {
    HeadersOutcomes(c, f, answer);
    if FragmentOf(f).SelfDependent? {
      SameStreamsForward(c, c', f.stream);
    } else if At(c, f.stream) == Idle {
      OpenForward(c, f, FragmentOf(f).bytes, answer, c');
    } else if c' == ResetStream(c, f.stream, Protocol) {
      ResetForward(c, f.stream, Protocol);
    } else {
      var c2 := Trailing(c, f.stream, FragmentOf(f).bytes);
      PutForward(c, c2, f.stream);
      BlockOpenedForward(c2, f, answer, c');
      ForwardTrans(c, c2, c', f.stream);
    }
  }

  lemma ContinuationForward(c: Conn, f: Frame, answer: Hpack.Decoding, c': Conn)
    requires Linked(c) && CanContinue(c) && OnContinuation(c, f, answer) == Go(c')
    ensures Forward(c, c', f.stream)
  {
    var st := c.streams[f.stream];
    var c1 := Put(c, f.stream, st.(pending := st.pending + f.payload));
    PutForward(c, c1, f.stream);
    if EndHeaders(f) {
      var c2 := c1.(awaited := None);
      SameStreamsForward(c1, c2, f.stream);
      FinishedForward(c2, f.stream, answer, c');
      ForwardTrans(c1, c2, c', f.stream);
      ForwardTrans(c, c1, c', f.stream);
    }
  }

  lemma OtherForward(c: Conn, f: Frame, c': Conn)
    requires Linked(c)
    requires OnPriority(c, f) == Go(c') || OnPing(c, f) == Go(c') || OnRst(c, f) == Go(c')
    ensures Forward(c, c', f.stream)
  {
    if c'.streams == c.streams { SameStreamsForward(c, c', f.stream); } else { PutForward(c, c', f.stream); }
  }

  lemma AcknowledgedForward(c: Conn, read: Outcome, c': Conn)
    requires (read.Go? ==> SameButSettings(c, read.c)) && Acknowledged(c, read) == Go(c')
    ensures Forward(c, c', 0)
  {
    SameStreamsForward(c, c', 0);
  }

  lemma UpdateForward(c: Conn, f: Frame, c': Conn)
    requires Linked(c) && OnWindowUpdate(c, f) == Go(c')
    ensures Forward(c, c', f.stream)
  {
    UpdateOutcomes(c, f, Go(c'), U31(f.payload));
    ResetForward(c, f.stream, Protocol);
    ResetForward(c, f.stream, FlowControl);
    if c'.streams == c.streams { SameStreamsForward(c, c', f.stream); }
  }

  lemma DispatchedForward(c: Conn, id: nat)
    requires Linked(c)
    ensures Forward(c, Dispatched(c, id), id)
  {
    if Ready(c, id) { PutForward(c, Dispatched(c, id), id); } else { SameStreamsForward(c, c, id); }
  }

  lemma FrameForward(c: Conn, f: Frame, answer: Hpack.Decoding, c': Conn)
    requires Linked(c) && CanContinue(c) && Bounded(c) && (f.kind == HEADERS ==> At(c, f.stream) != HalfClosed)
    requires OnFrame(c, f, answer) == Go(c')
    ensures Forward(c, c', f.stream)
  {
    if f.kind == DATA { DataForward(c, f, c'); }
    else if f.kind == HEADERS { HeadersForward(c, f, answer, c'); }
    else if f.kind == CONTINUATION { ContinuationForward(c, f, answer, c'); }
    else if f.kind == PRIORITY || f.kind == RST_STREAM || f.kind == PING { OtherForward(c, f, c'); }
    else if f.kind == SETTINGS { SettingsForward(c, f, c'); }
    else if f.kind == WINDOW_UPDATE { UpdateForward(c, f, c'); }
    else { SameStreamsForward(c, c', f.stream); }
  }

  lemma SettingsForward(c: Conn, f: Frame, c': Conn)
    requires Linked(c) && OnSettings(c, f) == Go(c')
    ensures Forward(c, c', f.stream)
  {
    if Ack(f) { SameStreamsForward(c, c', f.stream); } else { AcknowledgedForward(c, SettingsRead(c, f.payload), c'); }
  }

  lemma ReceiveForward(c: Conn, f: Frame, answer: Hpack.Decoding, c': Conn)
    requires Inv(c) && Follows(c, Receive(f, answer), c')
    ensures Forward(c, c', f.stream)
  {
    var c0 := c.(rx := c.rx + [f]);
    if f.kind == HEADERS { NotHalfClosed(c, f.stream); }
    forall k | k in c.streams ensures k <= c.highest { OddIds(c, k); }
    var c1 := OnFrame(c0, f, answer).c;
    SameStreamsForward(c, c0, f.stream);
    FrameForward(c0, f, answer, c1);
    DispatchedForward(c1, f.stream);
    ForwardTrans(c0, c1, c', f.stream);
    ForwardTrans(c, c0, c', f.stream);
  }

  lemma ForwardAt(c: Conn, c': Conn, touched: nat, id: nat)
    requires StreamsOk(c) && Forward(c, c', touched)
    ensures Rank(At(c, id)) <= Rank(At(c', id))
  {
    if id != touched { assert Kept(c, c', id); }
    if id in c.streams { assert StreamOk(c, id); }
  }

  /** No step takes any stream back. */
  lemma StepForward(c: Conn, e: Event, c': Conn, id: nat)
    requires Inv(c) && Follows(c, e, c')
    ensures c'.highest >= c.highest && Rank(At(c, id)) <= Rank(At(c', id))
  {
    match e {
      case Receive(f, answer) =>
        ReceiveForward(c, f, answer, c');
        ForwardAt(c, c', f.stream, id);
      case _ =>
    }
  }

  lemma RunStep(maxBody: nat, cs: seq<Conn>, es: seq<Event>, i: nat, c: Conn, c': Conn)
    requires Run(maxBody, cs, es) && i < |es| && c == cs[i] && c' == cs[i + 1]
    ensures Inv(c) && Follows(c, es[i], c')
  {
    EveryRun(maxBody, cs, es, i);
  }

  lemma RunForward(maxBody: nat, cs: seq<Conn>, es: seq<Event>, i: nat, c: Conn, c': Conn, id: nat)
    requires Run(maxBody, cs, es) && i < |es| && c == cs[i] && c' == cs[i + 1]
    ensures Rank(At(c, id)) <= Rank(At(c', id))
  {
    RunStep(maxBody, cs, es, i, c, c');
    StepForward(c, es[i], c', id);
  }

  /** Over a run a stream only goes from idle to open to half closed to closed or reset. */
  lemma {:induction false} NeverBack(maxBody: nat, cs: seq<Conn>, es: seq<Event>, i: nat, j: nat, id: nat)
    requires Run(maxBody, cs, es) && i <= j <= |es|
    ensures Rank(At(cs[i], id)) <= Rank(At(cs[j], id))
    decreases j
  {
    if i < j {
      NeverBack(maxBody, cs, es, i, j - 1, id);
      RunForward(maxBody, cs, es, j - 1, cs[j - 1], cs[j], id);
    }
  }

  // ---- Requests ----

  /** A stream whose request is ready after a frame was not closed or reset before it. */
  lemma ReadyWasLive(c: Conn, f: Frame, answer: Hpack.Decoding, c1: Conn)
    requires Inv(c) && Refusal(c, f) == None && OnFrame(c.(rx := c.rx + [f]), f, answer) == Go(c1) && Ready(c1, f.stream)
    ensures Rank(At(c, f.stream)) < 3
  {
    var c0 := c.(rx := c.rx + [f]);
    forall k | k in c.streams ensures k <= c.highest { OddIds(c, k); }
    if f.kind == HEADERS { NotHalfClosed(c, f.stream); }
    FrameForward(c0, f, answer, c1);
  }

  /** A request is handed out once, on a frame of its own stream, from a stream that was neither closed
      nor reset, with exactly the data it was sent and the length it declared. */
  lemma HandedOut(c: Conn, f: Frame, answer: Hpack.Decoding, c': Conn)
    requires Inv(c) && Follows(c, Receive(f, answer), c') && c'.requests != c.requests
    ensures |c'.requests| == |c.requests| + 1 && c'.requests[..|c.requests|] == c.requests
    ensures var r := c'.requests[|c.requests|];
            && r.id == f.stream && Rank(At(c, r.id)) < 3 && (forall i | 0 <= i < |c.requests| :: c.requests[i].id != r.id)
            && r.body == BodyOf(c'.rx, r.id)
            && (forall n: nat | Says(r.headers, n) :: n == |r.body|)
  {
    var c1 := OnFrame(c.(rx := c.rx + [f]), f, answer).c;
    FrameWithin(c, f, answer, c.(rx := c.rx + [f]));
    ReadyWasLive(c, f, answer, c1);
    ReceiveInv(c, f, answer);
    HandedOutIs(c1, f.stream, c');
  }

  lemma HandedOutIs(c1: Conn, id: nat, c': Conn)
    requires Within(c1, id) && Ready(c1, id) && c' == Dispatched(c1, id) && c'.requests != c1.requests && RequestsOk(c')
    ensures |c'.requests| == |c1.requests| + 1 && c'.requests[..|c1.requests|] == c1.requests
    ensures var r := c'.requests[|c1.requests|];
            && r.id == id && r.body == BodyOf(c'.rx, id) && (forall i | 0 <= i < |c1.requests| :: c1.requests[i].id != r.id)
            && (forall n: nat | Says(r.headers, n) :: n == |r.body|)
  {
    assert StreamOk(c1, id);
    forall n: nat | Says(c1.streams[id].headers, n) ensures n == |c1.streams[id].body| { LengthExactly(c1.streams[id].headers, n); }
    forall i | 0 <= i < |c1.requests| ensures c1.requests[i].id != id { assert c1.requests[i] == c'.requests[i]; }
  }

  /** A request that a frame completes is handed out as it came, or its stream is reset with PROTOCOL_ERROR; and
      it is reset exactly when its headers declare another length than its body has. */
  lemma CompleteIsAnswered(c: Conn, f: Frame, answer: Hpack.Decoding, c1: Conn, c': Conn)
    requires Inv(c) && Follows(c, Receive(f, answer), c') && Go(c1) == OnFrame(c.(rx := c.rx + [f]), f, answer)
    requires f.stream in c1.streams && var st := c1.streams[f.stream]; st.state == HalfClosedRemote && st.headersDone && !st.dispatched
    ensures var st := c1.streams[f.stream];
            if exists n: nat :: Says(st.headers, n) && n != |st.body| then
              c'.requests == c.requests && f.stream in c'.streams && c'.streams[f.stream].state == Reset && c'.tx == c1.tx + [Rst(f.stream, Protocol)]
            else c'.requests == c.requests + [Request(f.stream, st.headers, st.body)]
  {
    var st := c1.streams[f.stream];
    FrameWithin(c, f, answer, c.(rx := c.rx + [f]));
    assert StreamOk(c1, f.stream);
    if n: nat :| Says(st.headers, n) && n != |st.body| { LengthExactly(st.headers, n); }
    if st.length.Some? { LengthExactly(st.headers, st.length.value); }
  }

  lemma OnlyFramesHandOut(c: Conn, e: Event, c': Conn)
    requires Follows(c, e, c') && !e.Receive?
    ensures c'.requests == c.requests && c'.rx == c.rx
  {}

  // ---- Flow control ----

  /** Windows are conserved over every interleaving of frames and sending loops. */
  lemma FlowConserved(maxBody: nat, cs: seq<Conn>, es: seq<Event>, i: nat, c: Conn)
    requires Run(maxBody, cs, es) && i <= |es| && c == cs[i]
    ensures c.connWindow == DEFAULT_WINDOW + Increments(c.rx, 0) - Sent(c.tx) && 0 <= c.connWindow <= MAX_WINDOW
    ensures c.recvWindow == DEFAULT_WINDOW + Granted(c.tx) - Charged(c.rx) && OUR_INITIAL_WINDOW / 2 < c.recvWindow <= OUR_INITIAL_WINDOW
    ensures forall id | id in c.streams && c.streams[id].state != Reset ::
              && id in c.flows && c.flows[id].window == c.peerInitial + Increments(c.rx, id) - |SentOn(c.tx, id)|
              && -MAX_WINDOW <= c.flows[id].window <= 2 * MAX_WINDOW
    ensures forall id | id in c.running && id in c.flows && !c.flows[id].reset :: SentOn(c.tx, id) + c.running[id].left == c.running[id].given
  {
    EveryRun(maxBody, cs, es, i);
    forall id | id in c.streams && c.streams[id].state != Reset
      ensures id in c.flows && c.flows[id].window == c.peerInitial + Increments(c.rx, id) - |SentOn(c.tx, id)|
      ensures -MAX_WINDOW <= c.flows[id].window <= 2 * MAX_WINDOW
    {
      assert StreamOk(c, id);
    }
    forall id | id in c.running && id in c.flows && !c.flows[id].reset
      ensures SentOn(c.tx, id) + c.running[id].left == c.running[id].given
    {
      assert TaskOk(c, id);
    }
  }

  /** A DATA frame carries the next bytes of its task, and no more than either window or the peer's frame
      limit allows; none is sent for a reset stream. */
  lemma SendsWithinWindows(c: Conn, id: nat, c': Conn)
    requires Inv(c) && Follows(c, Pump(id), c') && c'.tx != c.tx
    ensures id in c.running && id in c.flows && !c.flows[id].reset
    ensures exists n: nat ::
              && 0 < n <= |c.running[id].left| && n <= c.connWindow && n <= c.flows[id].window && n <= c.maxFrame
              && c'.tx == c.tx + [Data(id, c.running[id].left[..n])]
              && c'.running[id].left == c.running[id].left[n..]
              && (n == |c.running[id].left| || n == c.connWindow || n == c.flows[id].window || n == c.maxFrame)
  {
    var n := Allowed(c, id);
    assert c'.tx == c.tx + [Data(id, c.running[id].left[..n])];
  }

  // ---- Receive windows ----

  lemma StepConnectionOnly(c: Conn, e: Event, c': Conn)
    requires Inv(c) && Follows(c, e, c') && ConnectionOnly(c.tx)
    ensures ConnectionOnly(c'.tx)
  {}

  /** No stream is ever given more receive window than it started with: every WINDOW_UPDATE the server
      sends is the connection's. */
  lemma {:induction false} StreamsNeverReplenished(maxBody: nat, cs: seq<Conn>, es: seq<Event>, i: nat)
    requires Run(maxBody, cs, es) && i <= |es|
    ensures ConnectionOnly(cs[i].tx)
  {
    if i > 0 {
      StreamsNeverReplenished(maxBody, cs, es, i - 1);
      RunStep(maxBody, cs, es, i - 1, cs[i - 1], cs[i]);
      StepConnectionOnly(cs[i - 1], es[i - 1], cs[i]);
    }
  }
}
