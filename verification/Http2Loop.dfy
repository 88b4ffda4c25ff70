/** The loop that reads an HTTP/2 connection, and the loop that sends a response on it. */
module Http2Loop {
  import opened Wrappers
  import opened Bits
  import opened Http2Frame
  import opened Http2Conn
  import Http2Safety
  import Http2Headers
  import BigEndian
  import Hpack
  import HpackStatic

  class Connection {
    const maxBody: nat
    const dec: Hpack.Decoder
    var streams: map<nat, Stream>
    var flows: map<nat, Flow>
    var running: map<nat, Task>
    var peerInitial: int
    var recvWindow: int
    var highest: nat
    var awaited: Option<nat>
    var connWindow: int
    var maxFrame: nat
    var tx: seq<Out>
    ghost var rx: seq<Frame>
    ghost var requests: seq<Request>

    ghost function View(): Conn
      reads this, dec
    {
      Conn(maxBody, streams, flows, running, peerInitial, recvWindow, highest, awaited, connWindow, maxFrame, dec.View(), rx, tx, requests)
    }

    /** How a step came out, given the code it stopped with, if it did. */
    ghost function Came(stop: Option<Code>): Outcome
      reads this, dec
    {
      match stop case None => Go(View()) case Some(code) => Stop(code)
    }

    ghost predicate Valid()
      reads this, dec
    {
      Http2Safety.Inv(View()) && Hpack.Sound(dec.View()) && dec.statics == HpackStatic.Rfc7541Static()
    }

    constructor (maxBody: nat)
      ensures Valid() && View() == Init(maxBody) && fresh(dec)
    {
      this.maxBody := maxBody;
      dec := new Hpack.Decoder(HpackStatic.Rfc7541Static(), 4096);
      streams, flows, running := map[], map[], map[];
      peerInitial, recvWindow, highest, awaited := DEFAULT_WINDOW, OUR_INITIAL_WINDOW, 0, None;
      connWindow, maxFrame := DEFAULT_WINDOW, DEFAULT_MAX_FRAME;
      tx := [WindowUpdate(0, OUR_INITIAL_WINDOW - DEFAULT_WINDOW)];
      rx, requests := [], [];
      new;
      Http2Safety.InitInv(maxBody);
    }

    method Where(id: nat) returns (w: Where)
      ensures w == At(View(), id)
    {
      w := StateOf(streams, id, highest);
    }

    method ResetStream(id: nat, code: Code)
      requires Linked(View())
      modifies this
      ensures View() == Http2Conn.ResetStream(old(View()), id, code)
    {
      tx := tx + [Rst(id, code)];
      if id in streams {
        streams := streams[id := streams[id].(state := Reset)];
        flows := flows[id := flows[id].(reset := true, done := true)];
      }
    }

    method Replenish()
      modifies this
      ensures View() == Replenished(old(View()))
    {
      var used := OUR_INITIAL_WINDOW - recvWindow;
      if used >= WINDOW_REFILL_AT {
        tx := tx + [WindowUpdate(0, used)];
        recvWindow := OUR_INITIAL_WINDOW;
      }
    }

    method Data(f: Frame) returns (stop: Option<Code>)
      requires Linked(View())
      modifies this
      ensures Came(stop) == OnData(old(View()), f)
    {
      if f.stream == 0 { return Some(Protocol); }
      recvWindow := recvWindow - |f.payload|;
      var data := Unpad(f.payload, Padded(f));
      if data.None? { return Some(Protocol); }
      ghost var c := old(View());
      ghost var spent := View();
      Replenish();
      assert View() == Replenished(c.(recvWindow := c.recvWindow - |f.payload|)) by {
        assert spent == c.(recvWindow := c.recvWindow - |f.payload|);
      }
      var w := Where(f.stream);
      assert w == At(c, f.stream);
      match w {
        case Idle => return Some(Protocol);
        case Closed => return Some(StreamClosed);
        case WasReset =>
          ResetStream(f.stream, StreamClosed);
          return None;
        case HalfClosed =>
          ResetStream(f.stream, StreamClosed);
          return None;
        case IsOpen =>
      }
      AddBody(f, data.value);
      return None;
    }

    /** The payload joins the stream's body, if that does not grow too large. */
    method AddBody(f: Frame, data: seq<byte>)
      requires Linked(View()) && f.stream in streams
      modifies this
      ensures View() == if |old(streams)[f.stream].body| + |data| > maxBody then Http2Conn.ResetStream(old(View()), f.stream, EnhanceYourCalm)
                        else BodyAdded(old(View()), f, data)
    {
      var st := streams[f.stream];
      if |st.body| + |data| > maxBody {
        ResetStream(f.stream, EnhanceYourCalm);
        return;
      }
      st := st.(body := st.body + data);
      if EndStream(f) { st := st.(state := HalfClosedRemote); }
      streams := streams[f.stream := st];
    }

    /** Decodes what is pending for a stream; `answer` is what the decoder said. */
    method FinishBlock(id: nat) returns (stop: Option<Code>, ghost answer: Hpack.Decoding)
      requires Linked(View()) && id in streams && Hpack.Sound(dec.View()) && dec.statics == HpackStatic.Rfc7541Static()
      modifies this, dec
      ensures Came(stop) == Finished(old(View()), id, answer)
      ensures answer == Http2Headers.Decode(old(dec.View()), old(streams)[id].pending)
      ensures Hpack.Sound(dec.View())
    {
      var st := streams[id];
      var block := st.pending;
      st := st.(pending := []);
      var failure, out := dec.Decode(block, MAX_HEADER_LIST);
      answer := Hpack.Decoding(dec.View(), failure, out);
      streams := streams[id := st];
      match failure {
        case Some(Compression) => return Some(Code.Compression), answer;
        case Some(TooLarge) =>
          ResetStream(id, EnhanceYourCalm);
          return None, answer;
        case None =>
      }
      if st.trailers {
        if HasPseudo(out) { ResetStream(id, Protocol); }
        return None, answer;
      }
      streams := streams[id := st.(length := ContentLength(out), headers := out, headersDone := true)];
      return None, answer;
    }
  
    /** Ends or leaves open the block that was just put in the stream's `pending`. */
    method OpenBlock(f: Frame) returns (stop: Option<Code>, ghost answer: Hpack.Decoding)
      requires Linked(View()) && f.stream in streams && Hpack.Sound(dec.View()) && dec.statics == HpackStatic.Rfc7541Static()
      modifies this, dec
      ensures Came(stop) == BlockOpened(old(View()), f, answer)
      ensures EndHeaders(f) ==> answer == Http2Headers.Decode(old(dec.View()), old(streams)[f.stream].pending)
      ensures Hpack.Sound(dec.View())
    {
      if EndHeaders(f) {
        stop, answer := FinishBlock(f.stream);
      } else {
        awaited := Some(f.stream);
        return None, Hpack.Decoding(dec.View(), None, []);
      }
    }

    /** Drops the streams that are over. */
    method Prune()
      requires Linked(View())
      modifies this`streams
      ensures View() == Pruned(old(View())) && Linked(View()) && Active(View()) == Active(old(View()))
    {
      streams := map id | id in streams && !(streams[id].dispatched && flows[id].done) :: streams[id];
    }

    method Admit(f: Frame, block: seq<byte>)
      requires Linked(View())
      modifies this`streams, this`flows
      ensures View() == Opened(old(View()), f, block)
    {
      var st := Stream(Open, block, false, [], false, [], None, false);
      if EndStream(f) { st := st.(state := HalfClosedRemote); }
      streams := streams[f.stream := st];
      flows := flows[f.stream := Flow(peerInitial, false, false)];
    }

    method NewStream(f: Frame, block: seq<byte>) returns (stop: Option<Code>, ghost answer: Hpack.Decoding)
      requires Linked(View()) && Hpack.Sound(dec.View()) && dec.statics == HpackStatic.Rfc7541Static()
      modifies this, dec
      ensures Came(stop) == OpenStream(old(View()), f, block, answer)
      ensures f.stream > old(highest) && |Active(old(View()))| < MAX_CONCURRENT && EndHeaders(f) ==> answer == Http2Headers.Decode(old(dec.View()), block)
      ensures Hpack.Sound(dec.View())
    {
      answer := Hpack.Decoding(dec.View(), None, []);
      if f.stream <= highest { return Some(Protocol), answer; }
      highest := f.stream;
      assert Active(View()) == Active(old(View()));
      Prune();
      var active := set id | id in streams && !flows[id].done;
      assert active == Active(View());
      if |active| >= MAX_CONCURRENT {
        tx := tx + [Rst(f.stream, RefusedStream)];
        return None, answer;
      }
      Admit(f, block);
      stop, answer := OpenBlock(f);
    }

    method Headers(f: Frame) returns (stop: Option<Code>, ghost answer: Hpack.Decoding)
      requires Linked(View()) && Hpack.Sound(dec.View()) && dec.statics == HpackStatic.Rfc7541Static()
      requires f.kind == HEADERS && Refusal(View(), f) == None && At(View(), f.stream) != HalfClosed
      modifies this, dec
      ensures Came(stop) == OnHeaders(old(View()), f, answer)
      ensures Http2Headers.Honest(old(View()), Event.Receive(f, answer))
      ensures Hpack.Sound(dec.View())
    {
      answer := Hpack.Decoding(dec.View(), None, []);
      if f.stream == 0 || f.stream % 2 == 0 { return Some(Protocol), answer; }
      var fragment := FragmentOf(f);
      match fragment {
        case BadPadding => return Some(Protocol), answer;
        case ShortPriority => return Some(FrameSize), answer;
        case SelfDependent =>
          tx := tx + [Rst(f.stream, Protocol)];
          return None, answer;
        case Block(_) =>
      }
      var block := fragment.bytes;
      var w := Where(f.stream);
      if w == Closed || w == WasReset { return Some(StreamClosed), answer; }
      if w == Idle {
        stop, answer := NewStream(f, block);
        return;
      }
      if !EndStream(f) {
        ResetStream(f.stream, Protocol);
        return None, answer;
      }
      streams := streams[f.stream := streams[f.stream].(pending := block, trailers := true, state := HalfClosedRemote)];
      stop, answer := OpenBlock(f);
    }

    method Continuation(f: Frame) returns (stop: Option<Code>, ghost answer: Hpack.Decoding)
      requires Linked(View()) && CanContinue(View()) && Hpack.Sound(dec.View()) && dec.statics == HpackStatic.Rfc7541Static()
      requires f.kind == CONTINUATION && Refusal(View(), f) == None
      modifies this, dec
      ensures Came(stop) == OnContinuation(old(View()), f, answer)
      ensures Http2Headers.Honest(old(View()), Event.Receive(f, answer))
      ensures Hpack.Sound(dec.View())
    {
      answer := Hpack.Decoding(dec.View(), None, []);
      if awaited != Some(f.stream) { return Some(Protocol), answer; }
      var st := streams[f.stream];
      if |st.pending| + |f.payload| > MAX_HEADER_LIST * 2 { return Some(Protocol), answer; }
      streams := streams[f.stream := st.(pending := st.pending + f.payload)];
      if EndHeaders(f) {
        awaited := None;
        stop, answer := FinishBlock(f.stream);
      } else {
        return None, answer;
      }
    }

    method Priority(f: Frame) returns (stop: Option<Code>)
      requires Linked(View())
      modifies this
      ensures Came(stop) == OnPriority(old(View()), f)
    {
      if |f.payload| != 5 { return Some(FrameSize); }
      if f.stream == 0 { return Some(Protocol); }
      if U31(f.payload) == f.stream { tx := tx + [Rst(f.stream, Protocol)]; }
      return None;
    }

    method RstStream(f: Frame) returns (stop: Option<Code>)
      requires Linked(View())
      modifies this
      ensures Came(stop) == OnRst(old(View()), f)
    {
      if f.stream == 0 { return Some(Protocol); }
      if |f.payload| != 4 { return Some(FrameSize); }
      var w := Where(f.stream);
      if w == Idle { return Some(Protocol); }
      if f.stream in streams {
        streams := streams[f.stream := streams[f.stream].(state := Reset)];
        flows := flows[f.stream := flows[f.stream].(reset := true)];
      }
      return None;
    }

    /** Takes the parameters six bytes at a time. */
    method Settings(f: Frame) returns (stop: Option<Code>)
      requires Linked(View()) && Hpack.Sound(dec.View())
      modifies this, dec
      ensures Came(stop) == OnSettings(old(View()), f)
      ensures Hpack.Sound(dec.View())
    {
      if f.stream != 0 { return Some(Protocol); }
      if Ack(f) { return if f.payload != [] then Some(FrameSize) else None; }
      if |f.payload| % 6 != 0 { return Some(FrameSize); }
      var oldInitial := peerInitial;
      stop := ReadSettings(f.payload);
      if stop.Some? { return; }
      var delta := peerInitial - oldInitial;
      if delta != 0 {
        flows := map id | id in flows :: if id in streams then flows[id].(window := flows[id].window + delta) else flows[id];
      } else {
        assert flows == WindowsMoved(View(), 0).flows;
      }
      tx := tx + [SettingsAck];
    }

    method ReadSettings(payload: seq<byte>) returns (stop: Option<Code>)
      requires Hpack.Sound(dec.View())
      modifies this`peerInitial, this`maxFrame, dec
      ensures Came(stop) == SettingsRead(old(View()), payload) && Hpack.Sound(dec.View())
    {
      ghost var r := SettingsRead(View(), payload);
      var i := 0;
      while i + 6 <= |payload|
        invariant i <= |payload| && Hpack.Sound(dec.View())
        invariant r == SettingsRead(View(), payload[i..])
      {
        var (id, v) := (BigEndian.Value(payload[i..i + 2]), BigEndian.Value(payload[i + 2..i + 6]));
        assert payload[i..][..2] == payload[i..i + 2] && payload[i..][2..6] == payload[i + 2..i + 6] && payload[i..][6..] == payload[i + 6..];
        stop := OneSetting(id, v);
        if stop.Some? { return; }
        i := i + 6;
      }
      return None;
    }

    method OneSetting(id: nat, v: nat) returns (stop: Option<Code>)
      requires Hpack.Sound(dec.View())
      modifies this`peerInitial, this`maxFrame, dec
      ensures Came(stop) == Http2Conn.OneSetting(old(View()), id, v) && Hpack.Sound(dec.View())
    {
      if id == INITIAL_WINDOW_SIZE {
        if v > MAX_WINDOW { return Some(FlowControl); }
        peerInitial := v;
      } else if id == MAX_FRAME_SIZE {
        if !(DEFAULT_MAX_FRAME <= v <= MAX_FRAME_LIMIT) { return Some(Protocol); }
        maxFrame := v;
      } else if id == ENABLE_PUSH {
        if v > 1 { return Some(Protocol); }
      } else if id == HEADER_TABLE_SIZE {
        dec.SetMaxSize(v);
      }
      return None;
    }

    method Ping(f: Frame) returns (stop: Option<Code>)
      requires Linked(View())
      modifies this
      ensures Came(stop) == OnPing(old(View()), f)
    {
      if f.stream != 0 { return Some(Protocol); }
      if |f.payload| != 8 { return Some(FrameSize); }
      if !Ack(f) { tx := tx + [Pong(f.payload)]; }
      return None;
    }

    method UpdateWindow(f: Frame) returns (stop: Option<Code>)
      requires Linked(View())
      modifies this
      ensures Came(stop) == OnWindowUpdate(old(View()), f)
    {
      if |f.payload| != 4 { return Some(FrameSize); }
      var w := Where(f.stream);
      if f.stream != 0 && w == Idle { return Some(Protocol); }
      var inc := U31(f.payload);
      if inc == 0 {
        if f.stream == 0 { return Some(Protocol); }
        ResetStream(f.stream, Protocol);
        return None;
      }
      if f.stream == 0 {
        if connWindow + inc > MAX_WINDOW { return Some(FlowControl); }
        connWindow := connWindow + inc;
      } else if f.stream in streams {
        var window := flows[f.stream].window + inc;
        if window > MAX_WINDOW {
          ResetStream(f.stream, FlowControl);
          return None;
        }
        flows := flows[f.stream := flows[f.stream].(window := window)];
      }
      return None;
    }
  
    /** Looks at every stream for requests that are complete; only the frame's own can be. */
    method HandOut(ghost id: nat)
      requires Http2Safety.Within(View(), id)
      modifies this
      ensures View() == Dispatched(old(View()), id)
    {
      var ready := set k | k in streams && !streams[k].dispatched && streams[k].headersDone && streams[k].state == HalfClosedRemote;
      assert ready == if Ready(View(), id) then {id} else {};
      while ready != {}
        invariant ready <= {id}
        invariant if ready == {} then View() == Dispatched(old(View()), id) else View() == old(View()) && Ready(View(), id)
        decreases |ready|
      {
        var k :| k in ready;
        ready := ready - {k};
        HandOutOne(k);
      }
    }

    method HandOutOne(id: nat)
      requires Linked(View()) && Ready(View(), id)
      modifies this
      ensures View() == Dispatched(old(View()), id)
    {
      var st := streams[id];
      streams := streams[id := st.(dispatched := true)];
      if st.length.Some? && st.length.value != |st.body| {
        flows := flows[id := flows[id].(done := true)];
        ResetStream(id, Protocol);
        return;
      }
      requests := requests + [Request(id, st.headers, st.body)];
      streams := streams[id := streams[id].(headers := [], body := [])];
      running := running[id := Task([], [])];
    }

    /** What a frame means by its kind. */
    method ByKind(f: Frame) returns (stop: Option<Code>, ghost answer: Hpack.Decoding)
      requires Linked(View()) && CanContinue(View()) && Hpack.Sound(dec.View()) && dec.statics == HpackStatic.Rfc7541Static()
      requires Refusal(View(), f) == None && (f.kind == HEADERS ==> At(View(), f.stream) != HalfClosed)
      modifies this, dec
      ensures Came(stop) == OnFrame(old(View()), f, answer)
      ensures Http2Headers.Honest(old(View()), Event.Receive(f, answer)) && Hpack.Sound(dec.View())
    {
      answer := Hpack.Decoding(dec.View(), None, []);
      if f.kind == DATA { stop := Data(f); }
      else if f.kind == HEADERS { stop, answer := Headers(f); }
      else if f.kind == CONTINUATION { stop, answer := Continuation(f); }
      else if f.kind == PRIORITY { stop := Priority(f); }
      else if f.kind == RST_STREAM { stop := RstStream(f); }
      else if f.kind == SETTINGS { stop := Settings(f); }
      else if f.kind == PING { stop := Ping(f); }
      else if f.kind == WINDOW_UPDATE { stop := UpdateWindow(f); }
      else if f.kind == GOAWAY { stop := Some(NoError); }
      else if f.kind == PUSH_PROMISE { stop := Some(Protocol); }
      else { stop := None; }
    }

    /** One turn of the reading loop. */
    method Receive(f: Frame) returns (stop: Option<Code>, ghost answer: Hpack.Decoding)
      requires Valid()
      modifies this, dec
      ensures Came(stop) == Step(old(View()), Event.Receive(f, answer))
      ensures Http2Headers.Honest(old(View()), Event.Receive(f, answer))
      ensures stop.None? ==> Valid()
    {
      answer := Hpack.Decoding(dec.View(), None, []);
      ghost var c := View();
      if |f.payload| > DEFAULT_MAX_FRAME { return Some(FrameSize), answer; }
      if awaited.Some? && (f.kind != CONTINUATION || f.stream != awaited.value) { return Some(Protocol), answer; }
      if f.kind == HEADERS { Http2Safety.NotHalfClosed(c, f.stream); }
      rx := rx + [f];
      assert Active(View()) == Active(c);
      stop, answer := ByKind(f);
      if stop.Some? { return; }
      Http2Safety.FrameWithin(c, f, answer, c.(rx := c.rx + [f]));
      HandOut(f.stream);
      Http2Safety.ReceiveInv(c, f, answer);
    }

    /** One turn of a task's sending loop; says how much it sent. */
    method PumpOnce(id: nat) returns (n: nat)
      requires id in running && id in flows && maxFrame > 0
      modifies this
      ensures View() == Pumped(old(View()), id)
      ensures id in running && id in flows
      ensures n > 0 ==> n == |old(running)[id].left| - |running[id].left|
      ensures n == 0 && running[id].left != [] ==> Waits(id)
    {
      var t := running[id];
      if flows[id].reset {
        running := running[id := t.(left := [])];
        return 0;
      }
      var open := if connWindow < flows[id].window then connWindow else flows[id].window;
      if open <= 0 || t.left == [] { return 0; }
      n := if open < maxFrame then open else maxFrame;
      if |t.left| < n { n := |t.left|; }
      tx := tx + [Out.Data(id, t.left[..n])];
      connWindow := connWindow - n;
      flows := flows[id := flows[id].(window := flows[id].window - n)];
      running := running[id := t.(left := t.left[n..])];
    }

    ghost predicate Waits(id: nat)
      requires id in flows
      reads this
    {
      !flows[id].reset && (connWindow <= 0 || flows[id].window <= 0)
    }

    method PumpSafely(id: nat) returns (n: nat)
      requires Valid() && id in running
      modifies this
      ensures Valid() && id in running && id in flows && (n == 0 && running[id].left != [] ==> Waits(id))
      ensures n > 0 ==> |running[id].left| < |old(running)[id].left|
    {
      assert Http2Safety.TaskOk(View(), id);
      Http2Safety.PumpInv(View(), id);
      n := PumpOnce(id);
    }

    /** Sends what a task was given until it is all sent or has to wait. */
    method PumpUntilWait(id: nat)
      requires Valid() && id in running
      modifies this
      ensures Valid() && id in running && id in flows && (running[id].left == [] || Waits(id))
    {
      assert Http2Safety.TaskOk(View(), id);
      while running[id].left != []
        invariant Valid() && id in running && id in flows
        decreases |running[id].left|
      {
        var n := PumpSafely(id);
        if n == 0 && running[id].left != [] { break; }
      }
    }
  }
}
