/** What an HTTP/2 connection does with each frame, and with each step of its response tasks.

    One thread runs the connection, so a frame, or one turn of a task's sending loop, is one step. */
module Http2Conn {
  import opened Wrappers
  import opened Bits
  import opened Http2Frame
  import BigEndian
  import Hpack
  import HpackStatic

  const OUR_INITIAL_WINDOW: int := 0x10_0000
  const MAX_CONCURRENT: nat := 128
  const MAX_HEADER_LIST: nat := 65536
  const WINDOW_REFILL_AT: int := 0x8_0000

  datatype State = Open | HalfClosedRemote | Reset

  /** The cells a stream shares with the task that answers it. */
  datatype Flow = Flow(window: int, reset: bool, done: bool)

  datatype Stream = Stream(
    state: State,
    pending: seq<byte>,
    trailers: bool,
    headers: seq<Hpack.Header>,
    headersDone: bool,
    body: seq<byte>,
    length: Option<nat>,
    dispatched: bool)

  /** A running task: what it was given to send, and what is left of that. */
  datatype Task = Task(given: seq<byte>, left: seq<byte>)

  datatype Request = Request(id: nat, headers: seq<Hpack.Header>, body: seq<byte>)

  /** What is queued for the peer. A task's other frames (its header block, its empty last DATA frame)
      touch no state and are left out. */
  datatype Out =
    | Rst(id: nat, code: Code)
    | WindowUpdate(id: nat, n: int)
    | SettingsAck
    | Pong(payload: seq<byte>)
    | Data(id: nat, chunk: seq<byte>)

  /** `flows` has every cell ever made, by stream; `rx` and `tx` are all frames received and queued, and
      `requests` all requests handed out, in order. */
  datatype Conn = Conn(
    maxBody: nat,
    streams: map<nat, Stream>,
    flows: map<nat, Flow>,
    running: map<nat, Task>,
    peerInitial: int,
    recvWindow: int,
    highest: nat,
    awaited: Option<nat>,
    connWindow: int,
    maxFrame: nat,
    dec: Hpack.Table,
    rx: seq<Frame>,
    tx: seq<Out>,
    requests: seq<Request>)

  /** How a step ends: the connection goes on, or it says goodbye with a code. */
  datatype Outcome = Go(c: Conn) | Stop(code: Code)

  function Init(maxBody: nat): Conn {
    Conn(maxBody, map[], map[], map[], DEFAULT_WINDOW, OUR_INITIAL_WINDOW, 0, None, DEFAULT_WINDOW,
         DEFAULT_MAX_FRAME, Hpack.Table([], 0, 4096, 4096, []), [],
         [WindowUpdate(0, OUR_INITIAL_WINDOW - DEFAULT_WINDOW)], [])
  }

  datatype Where = Idle | IsOpen | HalfClosed | Closed | WasReset

  function StateOf(streams: map<nat, Stream>, id: nat, highest: nat): Where {
    if id in streams then
      match streams[id].state
      case Open => IsOpen
      case HalfClosedRemote => if streams[id].dispatched then Closed else HalfClosed
      case Reset => WasReset
    else if id <= highest then Closed else Idle
  }

  function At(c: Conn, id: nat): Where { StateOf(c.streams, id, c.highest) }

  ghost predicate Linked(c: Conn) { c.streams.Keys <= c.flows.Keys }

  /** The only window ever given to the peer is the connection's. */
  ghost predicate ConnectionOnly(tx: seq<Out>) { forall i | 0 <= i < |tx| :: tx[i].WindowUpdate? ==> tx[i].id == 0 }

  /** What no frame changes before its request is handed out. */
  ghost predicate Steady(c: Conn, c': Conn) {
    Linked(c') && c'.requests == c.requests && c'.running == c.running && c'.rx == c.rx && (ConnectionOnly(c.tx) ==> ConnectionOnly(c'.tx))
  }

  function Queue(c: Conn, o: Out): Conn { c.(tx := c.tx + [o]) }

  function Put(c: Conn, id: nat, st: Stream): Conn { c.(streams := c.streams[id := st]) }

  function ResetStream(c: Conn, id: nat, code: Code): (r: Conn)
    requires Linked(c)
    ensures Steady(c, r)
  {
    var c1 := Queue(c, Rst(id, code));
    if id !in c.streams then c1
    else Put(c1, id, c.streams[id].(state := Reset)).(flows := c.flows[id := c.flows[id].(reset := true, done := true)])
  }

  // ---- DATA ----

  /** Gives connection window back once half of it is used. */
  function Replenished(c: Conn): Conn {
    var used := OUR_INITIAL_WINDOW - c.recvWindow;
    if used >= WINDOW_REFILL_AT then Queue(c, WindowUpdate(0, used)).(recvWindow := OUR_INITIAL_WINDOW) else c
  }

  function OnData(c: Conn, f: Frame): (r: Outcome)
    requires Linked(c)
    ensures r.Go? ==> Steady(c, r.c)
  {
    if f.stream == 0 then Stop(Protocol)
    else match Unpad(f.payload, Padded(f))
      case None => Stop(Protocol)
      case Some(data) =>
        var c1 := Replenished(c.(recvWindow := c.recvWindow - |f.payload|));
        match At(c, f.stream)
        case Idle => Stop(Protocol)
        case Closed => Stop(StreamClosed)
        case WasReset => Go(ResetStream(c1, f.stream, StreamClosed))
        case HalfClosed => Go(ResetStream(c1, f.stream, StreamClosed))
        case IsOpen =>
          if |c.streams[f.stream].body| + |data| > c.maxBody then Go(ResetStream(c1, f.stream, EnhanceYourCalm))
          else Go(BodyAdded(c1, f, data))
  }

  function BodyAdded(c: Conn, f: Frame, data: seq<byte>): Conn
    requires f.stream in c.streams
  {
    var st := c.streams[f.stream];
    Put(c, f.stream, st.(body := st.body + data, state := if EndStream(f) then HalfClosedRemote else st.state))
  }

  // ---- HEADERS and CONTINUATION ----

  const CONTENT_LENGTH: seq<byte> := HpackStatic.Text("content-length")

  const U64: nat := 0x1_0000_0000_0000_0000

  predicate IsDigit(b: byte) { 0x30 <= b <= 0x39 }

  predicate AllDigits(s: seq<byte>) { forall i | 0 <= i < |s| :: IsDigit(s[i]) }

  function Decimal(s: seq<byte>): nat
    requires AllDigits(s)
  {
    if s == [] then 0 else 10 * Decimal(s[..|s| - 1]) + (s[|s| - 1] as int - 0x30)
  }

  /** `str::parse::<u64>`: digits, behind at most one plus sign. */
  function ParseU64(s: seq<byte>): Option<nat> {
    var digits := if s != [] && s[0] == 0x2B then s[1..] else s;
    if digits != [] && AllDigits(digits) && Decimal(digits) < U64 then Some(Decimal(digits)) else None
  }

  /** The first content-length header, when it is a number. */
  function ContentLength(hs: seq<Hpack.Header>): Option<nat> {
    if hs == [] then None else if hs[0].name == CONTENT_LENGTH then ParseU64(hs[0].value) else ContentLength(hs[1..])
  }

  predicate IsPseudo(h: Hpack.Header) { h.name != [] && h.name[0] == 0x3A }

  predicate HasPseudo(hs: seq<Hpack.Header>) { exists h | h in hs :: IsPseudo(h) }

  /** A finished header block, decoded as `answer` says. */
  function Finished(c: Conn, id: nat, answer: Hpack.Decoding): (r: Outcome)
    requires Linked(c) && id in c.streams
    ensures r.Go? ==> Steady(c, r.c)
  {
    var st := c.streams[id].(pending := []);
    var c1 := Put(c, id, st).(dec := answer.table);
    match answer.failure
    case Some(Compression) => Stop(Compression)
    case Some(TooLarge) => Go(ResetStream(c1, id, EnhanceYourCalm))
    case None =>
      if !st.trailers then Go(Put(c1, id, st.(headers := answer.out, headersDone := true, length := ContentLength(answer.out))))
      else if HasPseudo(answer.out) then Go(ResetStream(c1, id, Protocol))
      else Go(c1)
  }

  function BlockOpened(c: Conn, f: Frame, answer: Hpack.Decoding): (r: Outcome)
    requires Linked(c) && f.stream in c.streams
    ensures r.Go? ==> Steady(c, r.c)
  {
    if EndHeaders(f) then Finished(c, f.stream, answer) else Go(c.(awaited := Some(f.stream)))
  }

  /** Streams that still count: their response is not done. */
  function Active(c: Conn): set<nat>
    requires Linked(c)
  {
    set id | id in c.streams && !c.flows[id].done
  }

  predicate Spent(c: Conn, id: nat)
    requires Linked(c) && id in c.streams
  {
    c.streams[id].dispatched && c.flows[id].done
  }

  /** Drops what was dispatched and is done. */
  function Pruned(c: Conn): Conn
    requires Linked(c)
  {
    c.(streams := map id | id in c.streams && !Spent(c, id) :: c.streams[id])
  }

  function NewStream(f: Frame, block: seq<byte>): Stream {
    Stream(if EndStream(f) then HalfClosedRemote else Open, block, false, [], false, [], None, false)
  }

  function Opened(c: Conn, f: Frame, block: seq<byte>): (r: Conn)
    requires Linked(c)
    ensures Steady(c, r)
  {
    Put(c, f.stream, NewStream(f, block)).(flows := c.flows[f.stream := Flow(c.peerInitial, false, false)])
  }

  function OpenStream(c: Conn, f: Frame, block: seq<byte>, answer: Hpack.Decoding): (r: Outcome)
    requires Linked(c)
    ensures r.Go? ==> Steady(c, r.c)
  {
    if f.stream <= c.highest then Stop(Protocol)
    else
      var c1 := Pruned(c.(highest := f.stream));
      if |Active(c1)| >= MAX_CONCURRENT then Go(Queue(c1, Rst(f.stream, RefusedStream)))
      else BlockOpened(Opened(c1, f, block), f, answer)
  }

  function Trailing(c: Conn, id: nat, block: seq<byte>): Conn
    requires id in c.streams
  {
    Put(c, id, c.streams[id].(pending := block, trailers := true, state := HalfClosedRemote))
  }

  function OnHeaders(c: Conn, f: Frame, answer: Hpack.Decoding): (r: Outcome)
    requires Linked(c)
    ensures r.Go? ==> Steady(c, r.c)
  {
    if f.stream == 0 || f.stream % 2 == 0 then Stop(Protocol)
    else match FragmentOf(f)
      case BadPadding => Stop(Protocol)
      case ShortPriority => Stop(FrameSize)
      case SelfDependent => Go(Queue(c, Rst(f.stream, Protocol)))
      case Block(block) =>
        match At(c, f.stream)
        case Closed => Stop(StreamClosed)
        case WasReset => Stop(StreamClosed)
        case Idle => OpenStream(c, f, block, answer)
        case _ =>
          if !EndStream(f) then Go(ResetStream(c, f.stream, Protocol))
          else BlockOpened(Trailing(c, f.stream, block), f, answer)
  }

  function OnContinuation(c: Conn, f: Frame, answer: Hpack.Decoding): (r: Outcome)
    requires Linked(c) && (c.awaited == Some(f.stream) ==> f.stream in c.streams)
    ensures r.Go? ==> Steady(c, r.c)
  {
    if c.awaited != Some(f.stream) then Stop(Protocol)
    else
      var st := c.streams[f.stream];
      if |st.pending| + |f.payload| > MAX_HEADER_LIST * 2 then Stop(Protocol)
      else
        var c1 := Put(c, f.stream, st.(pending := st.pending + f.payload));
        if EndHeaders(f) then Finished(c1.(awaited := None), f.stream, answer) else Go(c1)
  }

  // ---- The other frames ----

  function OnPriority(c: Conn, f: Frame): (r: Outcome)
    requires Linked(c)
    ensures r.Go? ==> Steady(c, r.c)
  {
    if |f.payload| != 5 then Stop(FrameSize)
    else if f.stream == 0 then Stop(Protocol)
    else if U31(f.payload) == f.stream then Go(Queue(c, Rst(f.stream, Protocol)))
    else Go(c)
  }

  function OnRst(c: Conn, f: Frame): (r: Outcome)
    requires Linked(c)
    ensures r.Go? ==> Steady(c, r.c)
  {
    if f.stream == 0 then Stop(Protocol)
    else if |f.payload| != 4 then Stop(FrameSize)
    else if At(c, f.stream) == Idle then Stop(Protocol)
    else if f.stream !in c.streams then Go(c)
    else Go(Put(c, f.stream, c.streams[f.stream].(state := Reset)).(flows := c.flows[f.stream := c.flows[f.stream].(reset := true)]))
  }

  /** All that SETTINGS parameters may change. */
  ghost predicate SameButSettings(c: Conn, c': Conn) {
    c' == c.(peerInitial := c'.peerInitial, maxFrame := c'.maxFrame, dec := c'.dec)
  }

  function OneSetting(c: Conn, id: nat, v: nat): Outcome
  {
    if id == INITIAL_WINDOW_SIZE then
      if v > MAX_WINDOW then Stop(FlowControl) else Go(c.(peerInitial := v))
    else if id == MAX_FRAME_SIZE then
      if DEFAULT_MAX_FRAME <= v <= MAX_FRAME_LIMIT then Go(c.(maxFrame := v)) else Stop(Protocol)
    else if id == ENABLE_PUSH then
      if v > 1 then Stop(Protocol) else Go(c)
    else if id == HEADER_TABLE_SIZE then Go(c.(dec := Hpack.WithSettings(c.dec, v)))
    else Go(c)
  }

  function SettingsRead(c: Conn, payload: seq<byte>): (r: Outcome)
    ensures r.Go? ==> SameButSettings(c, r.c)
    decreases |payload|
  {
    if |payload| < 6 then Go(c)
    else match OneSetting(c, BigEndian.Value(payload[..2]), BigEndian.Value(payload[2..6]))
      case Go(c1) => SettingsRead(c1, payload[6..])
      case stop => stop
  }

  /** A changed initial window moves every stream's window by the difference. */
  function WindowsMoved(c: Conn, delta: int): Conn {
    c.(flows := map id | id in c.flows ::
         if id in c.streams then c.flows[id].(window := c.flows[id].window + delta) else c.flows[id])
  }

  function OnSettings(c: Conn, f: Frame): (r: Outcome)
    requires Linked(c)
    ensures r.Go? ==> Steady(c, r.c)
  {
    if f.stream != 0 then Stop(Protocol)
    else if Ack(f) then if f.payload != [] then Stop(FrameSize) else Go(c)
    else if |f.payload| % 6 != 0 then Stop(FrameSize)
    else Acknowledged(c, SettingsRead(c, f.payload))
  }

  function Acknowledged(c: Conn, read: Outcome): (r: Outcome)
    ensures r.Go? && Linked(c) && read.Go? && SameButSettings(c, read.c) ==> Steady(c, r.c)
  {
    match read
    case Go(c1) => Go(Queue(WindowsMoved(c1, c1.peerInitial - c.peerInitial), SettingsAck))
    case stop => stop
  }

  function OnPing(c: Conn, f: Frame): (r: Outcome)
    requires Linked(c)
    ensures r.Go? ==> Steady(c, r.c)
  {
    if f.stream != 0 then Stop(Protocol)
    else if |f.payload| != 8 then Stop(FrameSize)
    else Go(if Ack(f) then c else Queue(c, Pong(f.payload)))
  }

  function OnWindowUpdate(c: Conn, f: Frame): (r: Outcome)
    requires Linked(c)
    ensures r.Go? ==> Steady(c, r.c)
  {
    if |f.payload| != 4 then Stop(FrameSize)
    else if f.stream != 0 && At(c, f.stream) == Idle then Stop(Protocol)
    else
      var inc := U31(f.payload);
      if f.stream == 0 then
        if inc == 0 then Stop(Protocol)
        else if c.connWindow + inc > MAX_WINDOW then Stop(FlowControl)
        else Go(c.(connWindow := c.connWindow + inc))
      else if inc == 0 then Go(ResetStream(c, f.stream, Protocol))
      else if f.stream !in c.streams then Go(c)
      else
        var fl := c.flows[f.stream];
        if fl.window + inc > MAX_WINDOW then Go(ResetStream(c, f.stream, FlowControl))
        else Go(c.(flows := c.flows[f.stream := fl.(window := fl.window + inc)]))
  }

  // ---- A whole step ----

  /** Complete, and not yet handed out. */
  predicate Ready(c: Conn, id: nat) {
    id in c.streams && !c.streams[id].dispatched && c.streams[id].headersDone && c.streams[id].state == HalfClosedRemote
  }

  /** Hands a ready request out, unless its length disagrees with its content-length. */
  function Dispatched(c: Conn, id: nat): Conn
    requires Linked(c)
  {
    if !Ready(c, id) then c
    else
      var st := c.streams[id];
      if st.length.Some? && st.length.value != |st.body| then
        ResetStream(Put(c, id, st.(dispatched := true)).(flows := c.flows[id := c.flows[id].(done := true)]), id, Protocol)
      else
        Put(c, id, st.(dispatched := true, headers := [], body := [])).(
          running := c.running[id := Task([], [])],
          requests := c.requests + [Request(id, st.headers, st.body)])
  }

  /** What the loop insists on before it looks at the kind. */
  function Refusal(c: Conn, f: Frame): Option<Code> {
    if |f.payload| > DEFAULT_MAX_FRAME then Some(FrameSize)
    else if c.awaited.Some? && (f.kind != CONTINUATION || f.stream != c.awaited.value) then Some(Protocol)
    else None
  }

  ghost predicate CanContinue(c: Conn) { c.awaited.Some? ==> c.awaited.value in c.streams }

  function OnFrame(c: Conn, f: Frame, answer: Hpack.Decoding): (r: Outcome)
    requires Linked(c) && CanContinue(c)
    ensures r.Go? ==> Steady(c, r.c)
  {
    if f.kind == DATA then OnData(c, f)
    else if f.kind == HEADERS then OnHeaders(c, f, answer)
    else if f.kind == CONTINUATION then OnContinuation(c, f, answer)
    else if f.kind == PRIORITY then OnPriority(c, f)
    else if f.kind == RST_STREAM then OnRst(c, f)
    else if f.kind == SETTINGS then OnSettings(c, f)
    else if f.kind == PING then OnPing(c, f)
    else if f.kind == WINDOW_UPDATE then OnWindowUpdate(c, f)
    else if f.kind == GOAWAY then Stop(NoError)
    else if f.kind == PUSH_PROMISE then Stop(Protocol)
    else Go(c)
  }

  datatype Event =
    | Receive(f: Frame, answer: Hpack.Decoding)
    | Give(id: nat, data: seq<byte>)
    | Pump(id: nat)
    | End(id: nat)

  /** What a sending loop may send now. */
  function Allowed(c: Conn, id: nat): (n: nat)
    requires id in c.running && id in c.flows
    ensures n <= |c.running[id].left|
  {
    var open := if c.connWindow < c.flows[id].window then c.connWindow else c.flows[id].window;
    var (left, cap) := (|c.running[id].left|, if c.maxFrame < open then c.maxFrame else open);
    if cap <= 0 then 0 else if cap < left then cap else left
  }

  /** One turn of a task's sending loop: gives up on a reset stream, waits on a closed window. */
  function Pumped(c: Conn, id: nat): Conn
    requires id in c.running && id in c.flows
  {
    var t := c.running[id];
    if c.flows[id].reset then c.(running := c.running[id := t.(left := [])])
    else
      var n := Allowed(c, id);
      if n == 0 then c
      else
        Queue(c, Data(id, t.left[..n])).(
          running := c.running[id := t.(left := t.left[n..])],
          connWindow := c.connWindow - n,
          flows := c.flows[id := c.flows[id].(window := c.flows[id].window - n)])
  }

  /** The next state, where the source's lookups of a stream that must be there all succeed. */
  function Step(c: Conn, e: Event): Outcome
    requires Linked(c) && CanContinue(c)
  {
    match e
    case Receive(f, answer) =>
      (match Refusal(c, f)
       case Some(code) => Stop(code)
       case None =>
         match OnFrame(c.(rx := c.rx + [f]), f, answer)
         case Go(c1) => Go(Dispatched(c1, f.stream))
         case stop => stop)
    case Give(id, data) =>
      if id in c.running && c.running[id].left == [] && id in c.flows && !c.flows[id].reset
      then Go(c.(running := c.running[id := Task(c.running[id].given + data, data)]))
      else Go(c)
    case Pump(id) => if id in c.running && id in c.flows then Go(Pumped(c, id)) else Go(c)
    case End(id) =>
      if id in c.running && id in c.flows
      then Go(c.(running := c.running - {id}, flows := c.flows[id := c.flows[id].(done := true)]))
      else Go(c)
  }
}
