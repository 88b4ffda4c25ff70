/** What holds of an HTTP/2 connection between any two steps, on every run. */
module Http2Safety {
  import opened Wrappers
  import opened Bits
  import opened Http2Frame
  import opened Http2Conn
  import BigEndian
  import Hpack

  // ---- What the frames received and queued add up to ----

  function Increment(f: Frame, id: nat): nat {
    if f.kind == WINDOW_UPDATE && f.stream == id then U31(f.payload) else 0
  }

  function Increments(rx: seq<Frame>, id: nat): nat {
    if rx == [] then 0 else Increments(rx[..|rx| - 1], id) + Increment(rx[|rx| - 1], id)
  }

  function DataOf(f: Frame, id: nat): seq<byte> {
    if f.kind != DATA || f.stream != id then []
    else match Unpad(f.payload, Padded(f)) case Some(data) => data case None => []
  }

  function BodyOf(rx: seq<Frame>, id: nat): seq<byte> {
    if rx == [] then [] else BodyOf(rx[..|rx| - 1], id) + DataOf(rx[|rx| - 1], id)
  }

  function Charge(f: Frame): nat { if f.kind == DATA then |f.payload| else 0 }

  /** The connection window the peer has used: padding counts. */
  function Charged(rx: seq<Frame>): nat {
    if rx == [] then 0 else Charged(rx[..|rx| - 1]) + Charge(rx[|rx| - 1])
  }

  /** The header block that the last frames form: a HEADERS frame's fragment and the CONTINUATIONs after it. */
  function OpenBlock(rx: seq<Frame>): seq<byte> {
    if rx == [] then []
    else
      var f := rx[|rx| - 1];
      if f.kind == CONTINUATION then OpenBlock(rx[..|rx| - 1]) + f.payload
      else if f.kind == HEADERS && FragmentOf(f).Block? then FragmentOf(f).bytes
      else []
  }

  function Grant(o: Out): int { if o.WindowUpdate? && o.id == 0 then o.n else 0 }

  /** The connection window the peer has been given on top of the initial one. */
  function Granted(tx: seq<Out>): int {
    if tx == [] then 0 else Granted(tx[..|tx| - 1]) + Grant(tx[|tx| - 1])
  }

  function ChunkOf(o: Out, id: nat): seq<byte> { if o.Data? && o.id == id then o.chunk else [] }

  function SentOn(tx: seq<Out>, id: nat): seq<byte> {
    if tx == [] then [] else SentOn(tx[..|tx| - 1], id) + ChunkOf(tx[|tx| - 1], id)
  }

  function Size(o: Out): nat { if o.Data? then |o.chunk| else 0 }

  function Sent(tx: seq<Out>): nat {
    if tx == [] then 0 else Sent(tx[..|tx| - 1]) + Size(tx[|tx| - 1])
  }

  lemma Arrived(rx: seq<Frame>, f: Frame, id: nat)
    ensures Increments(rx + [f], id) == Increments(rx, id) + Increment(f, id)
    ensures BodyOf(rx + [f], id) == BodyOf(rx, id) + DataOf(f, id)
    ensures Charged(rx + [f]) == Charged(rx) + Charge(f)
  {
    assert (rx + [f])[..|rx|] == rx;
  }

  lemma Queued(tx: seq<Out>, o: Out, id: nat)
    ensures Granted(tx + [o]) == Granted(tx) + Grant(o)
    ensures SentOn(tx + [o], id) == SentOn(tx, id) + ChunkOf(o, id)
    ensures Sent(tx + [o]) == Sent(tx) + Size(o)
  {
    assert (tx + [o])[..|tx|] == tx;
  }

  // ---- The invariant ----

  /** A stream's window is the initial one plus what was received and less what was sent for it. */
  ghost predicate Balanced(window: int, initial: int, received: nat, sent: nat) {
    window == initial + received - sent && -MAX_WINDOW <= received - sent <= MAX_WINDOW
  }

  /** One stream against its cells and what the frames say of it. */
  ghost predicate Entry(id: nat, st: Stream, fl: Flow, highest: nat, awaited: Option<nat>, initial: int, received: nat, sent: nat, body: seq<byte>) {
    && id % 2 == 1 && id <= highest
    && (fl.reset <==> st.state == Reset)
    && (st.dispatched ==> st.headersDone && st.state != Open)
    && (st.state != Reset && !st.headersDone ==> awaited == Some(id) && !st.trailers)
    && (st.state != Reset ==> Balanced(fl.window, initial, received, sent))
    && (st.state != Reset && !st.dispatched ==> st.body == body)
    && (!st.dispatched ==> sent == 0 && (fl.done ==> fl.reset))
    && (st.headersDone && !st.dispatched ==> st.length == ContentLength(st.headers))
  }

  ghost predicate StreamOk(c: Conn, id: nat)
    requires id in c.streams && id in c.flows
  {
    && Entry(id, c.streams[id], c.flows[id], c.highest, c.awaited, c.peerInitial, Increments(c.rx, id), |SentOn(c.tx, id)|, BodyOf(c.rx, id))
    && (!c.streams[id].dispatched ==> id !in c.running)
  }

  ghost predicate StreamsOk(c: Conn) { Linked(c) && forall id | id in c.streams :: StreamOk(c, id) }

  /** While a header block is open its stream is there, with that block; it is not finished yet, unless
      the block is a trailer. */
  ghost predicate AwaitOk(c: Conn) {
    c.awaited.Some? ==>
      && c.awaited.value in c.streams
      && var st := c.streams[c.awaited.value];
         st.pending == OpenBlock(c.rx) && (st.trailers || (!st.headersDone && st.state != Reset))
  }

  ghost predicate IsLeft(whole: seq<byte>, sent: seq<byte>, left: seq<byte>, reset: bool) {
    if reset then sent <= whole else sent + left == whole
  }

  /** A task outlives its stream's entry only after a reset, and has sent what it was given, in order. */
  ghost predicate TaskOk(c: Conn, id: nat)
    requires id in c.running
  {
    && id in c.flows && id <= c.highest
    && (if id in c.streams then c.streams[id].dispatched else c.flows[id].reset)
    && (c.flows[id].done ==> c.flows[id].reset)
    && IsLeft(c.running[id].given, SentOn(c.tx, id), c.running[id].left, c.flows[id].reset)
  }

  ghost predicate TasksOk(c: Conn) { forall id | id in c.running :: TaskOk(c, id) }

  ghost predicate Untouched(c: Conn, id: nat) {
    Increments(c.rx, id) == 0 && BodyOf(c.rx, id) == [] && SentOn(c.tx, id) == [] && id !in c.running && id !in c.streams
  }

  ghost predicate IdleOk(c: Conn) { forall id | id > c.highest :: Untouched(c, id) }

  /** Requests are of streams opened and, while there, marked: so none is handed out twice. */
  ghost predicate Taken(c: Conn, id: nat) { id <= c.highest && (id in c.streams ==> c.streams[id].dispatched) }

  ghost predicate RequestsOk(c: Conn) {
    && (forall i | 0 <= i < |c.requests| :: Taken(c, c.requests[i].id))
    && (forall i, j | 0 <= i < j < |c.requests| :: c.requests[i].id != c.requests[j].id)
  }

  ghost predicate Numbers(c: Conn) {
    && c.connWindow == DEFAULT_WINDOW + Increments(c.rx, 0) - Sent(c.tx) && 0 <= c.connWindow <= MAX_WINDOW
    && c.recvWindow == DEFAULT_WINDOW + Granted(c.tx) - Charged(c.rx) && OUR_INITIAL_WINDOW - WINDOW_REFILL_AT < c.recvWindow <= OUR_INITIAL_WINDOW
    && 0 <= c.peerInitial <= MAX_WINDOW
    && DEFAULT_MAX_FRAME <= c.maxFrame <= MAX_FRAME_LIMIT
  }

  /** All but that a request of stream `id` may be waiting to be handed out. */
  ghost predicate Within(c: Conn, id: nat) {
    && Numbers(c) && StreamsOk(c) && AwaitOk(c) && TasksOk(c) && IdleOk(c) && RequestsOk(c)
    && |Active(c)| <= MAX_CONCURRENT
    && forall k | k in c.streams && k != id :: !Ready(c, k)
  }

  ghost predicate Inv(c: Conn) {
    Within(c, 0) && forall k | k in c.streams :: !Ready(c, k)
  }

  lemma InitInv(maxBody: nat)
    ensures Inv(Init(maxBody))
  {
    var c := Init(maxBody);
    assert c.tx[..0] == [];
    forall id | id > c.highest ensures Untouched(c, id) { assert SentOn(c.tx, id) == []; }
  }

  // ---- A step touches one stream ----

  /** Stream `k` is as it was, or was dropped after it was done; its task and its sums are as they were. */
  ghost predicate SameAt(c: Conn, c': Conn, k: nat) {
    && (k in c'.streams ==> k in c.streams && c'.streams[k] == c.streams[k])
    && (k in c.streams && k !in c'.streams ==> k in c.flows && c.streams[k].dispatched && c.flows[k].done)
    && (k in c.flows <==> k in c'.flows) && (k in c.flows ==> c'.flows[k] == c.flows[k])
    && (k in c.running <==> k in c'.running) && (k in c.running ==> c'.running[k] == c.running[k])
    && Increments(c'.rx, k) == Increments(c.rx, k) && BodyOf(c'.rx, k) == BodyOf(c.rx, k) && SentOn(c'.tx, k) == SentOn(c.tx, k)
  }

  ghost predicate Elsewhere(c: Conn, c': Conn, id: nat) {
    && c'.highest >= c.highest && c'.peerInitial == c.peerInitial
    && (c.awaited.Some? && c.awaited != c'.awaited ==> c.awaited.value == id)
    && forall k | k != id :: SameAt(c, c', k)
  }

  /** What is left to show of the stream a step touches. */
  ghost predicate Here(c: Conn, c': Conn, id: nat) {
    && Linked(c')
    && (id in c'.streams ==> StreamOk(c', id))
    && (id in c'.running ==> TaskOk(c', id))
    && (id > c'.highest ==> Untouched(c', id))
    && (id in c'.streams && !c'.streams[id].dispatched ==> id > c.highest || (id in c.streams && !c.streams[id].dispatched))
  }

  lemma SameStreams(c: Conn, c': Conn, id: nat)
    requires Within(c, id) && Elsewhere(c, c', id) && Here(c, c', id)
    ensures StreamsOk(c') && forall k | k in c'.streams && k != id :: !Ready(c', k)
  {
    forall k | k in c'.streams && k != id ensures StreamOk(c', k) && !Ready(c', k) {
      assert SameAt(c, c', k) && StreamOk(c, k) && !Ready(c, k);
    }
  }

  lemma SameTasks(c: Conn, c': Conn, id: nat)
    requires Within(c, id) && Elsewhere(c, c', id) && Here(c, c', id)
    ensures TasksOk(c') && IdleOk(c')
  {
    forall k | k in c'.running ensures TaskOk(c', k) {
      if k != id { assert SameAt(c, c', k) && TaskOk(c, k); }
    }
    forall k | k > c'.highest ensures Untouched(c', k) {
      if k != id { assert SameAt(c, c', k) && Untouched(c, k); }
    }
  }

  lemma SameRequests(c: Conn, c': Conn, id: nat)
    requires Within(c, id) && Elsewhere(c, c', id) && Here(c, c', id) && c'.requests == c.requests
    ensures RequestsOk(c')
  {
    forall i | 0 <= i < |c'.requests| ensures Taken(c', c'.requests[i].id) {
      var k := c.requests[i].id;
      assert Taken(c, k);
      if k != id { assert SameAt(c, c', k); }
    }
  }

  lemma OneStream(c: Conn, c': Conn, id: nat)
    requires Within(c, id) && Elsewhere(c, c', id) && Here(c, c', id)
    requires Numbers(c') && AwaitOk(c') && |Active(c')| <= MAX_CONCURRENT
    requires c'.requests == c.requests || RequestsOk(c')
    ensures Within(c', id)
  {
    SameStreams(c, c', id);
    SameTasks(c, c', id);
    if c'.requests == c.requests { SameRequests(c, c', id); }
  }

  lemma FewerActive(c: Conn, c': Conn)
    requires Linked(c) && Linked(c') && Active(c') <= Active(c)
    ensures |Active(c')| <= |Active(c)|
  {
    Subset(Active(c'), Active(c));
  }

  lemma {:induction false} Subset(a: set<nat>, b: set<nat>)
    requires a <= b
    ensures |a| <= |b|
    decreases a
  {
    if a != {} {
      var x :| x in a;
      Subset(a - {x}, b - {x});
    }
  }

  // ---- What is done to one stream ----

  lemma QueuedElsewhere(c: Conn, c': Conn, o: Out, id: nat)
    requires c'.tx == c.tx + [o] && c'.rx == c.rx && (o.Data? ==> o.id == id)
    ensures forall k :: k != id ==> SentOn(c'.tx, k) == SentOn(c.tx, k)
  {
    forall k | k != id ensures SentOn(c'.tx, k) == SentOn(c.tx, k) { Queued(c.tx, o, k); }
  }

  /** `c1` is `c` after a frame of stream `id` was read and charged, before anything was done about it. */
  ghost predicate Heard(c: Conn, c1: Conn, id: nat) {
    && c1 == c.(rx := c1.rx, tx := c1.tx, recvWindow := c1.recvWindow)
    && (forall k :: SentOn(c1.tx, k) == SentOn(c.tx, k))
    && (forall k | k != id :: Increments(c1.rx, k) == Increments(c.rx, k) && BodyOf(c1.rx, k) == BodyOf(c.rx, k))
  }

  lemma ResetElsewhere(c: Conn, c1: Conn, id: nat, code: Code)
    requires Within(c, id) && Heard(c, c1, id)
    ensures Elsewhere(c, ResetStream(c1, id, code), id)
  {
    var c' := ResetStream(c1, id, code);
    QueuedElsewhere(c1, c', Rst(id, code), id);
    forall k | k != id ensures SameAt(c, c', k) {}
  }

  lemma ResetHere(c: Conn, c1: Conn, id: nat, code: Code)
    requires Within(c, id) && Heard(c, c1, id) && (id > c.highest ==> Untouched(c1, id))
    ensures Here(c, ResetStream(c1, id, code), id)
  {
    Queued(c1.tx, Rst(id, code), id);
    if id in c.streams { assert StreamOk(c, id); }
    if id in c.running { assert TaskOk(c, id); }
  }

  lemma ResetActive(c: Conn, id: nat, code: Code)
    requires Linked(c)
    ensures |Active(ResetStream(c, id, code))| <= |Active(c)|
  {
    FewerActive(c, ResetStream(c, id, code));
  }

  lemma ResetWithin(c: Conn, c1: Conn, id: nat, code: Code)
    requires Within(c, id) && Heard(c, c1, id) && Numbers(c1) && (id > c.highest ==> Untouched(c1, id))
    requires AwaitOk(ResetStream(c1, id, code))
    ensures Within(ResetStream(c1, id, code), id) && !Ready(ResetStream(c1, id, code), id)
  {
    ResetElsewhere(c, c1, id, code);
    ResetHere(c, c1, id, code);
    ResetActive(c1, id, code);
    Queued(c1.tx, Rst(id, code), id);
    OneStream(c, ResetStream(c1, id, code), id);
  }

  /** Nothing but stream `id` changes from `c1` to `c'`. */
  ghost predicate OnlyAt(c1: Conn, c': Conn, id: nat) {
    && c'.highest == c1.highest && c'.peerInitial == c1.peerInitial && c'.rx == c1.rx
    && (c'.awaited == c1.awaited || c1.awaited == None || c1.awaited == Some(id))
    && forall k | k != id :: UnchangedAt(c1, c', k)
  }

  ghost predicate UnchangedAt(c1: Conn, c': Conn, k: nat) {
    && (k in c1.streams <==> k in c'.streams) && (k in c1.streams ==> c'.streams[k] == c1.streams[k])
    && (k in c1.flows <==> k in c'.flows) && (k in c1.flows ==> c'.flows[k] == c1.flows[k])
    && (k in c1.running <==> k in c'.running) && (k in c1.running ==> c'.running[k] == c1.running[k])
    && SentOn(c'.tx, k) == SentOn(c1.tx, k)
  }

  lemma HeardElsewhere(c: Conn, c1: Conn, id: nat)
    requires Heard(c, c1, id)
    ensures Elsewhere(c, c1, id)
  {
    forall k | k != id ensures SameAt(c, c1, k) {}
  }

  lemma ThenChanged(c: Conn, c1: Conn, c': Conn, id: nat)
    requires Elsewhere(c, c1, id) && OnlyAt(c1, c', id)
    ensures Elsewhere(c, c', id)
  {
    forall k | k != id ensures SameAt(c, c', k) { assert SameAt(c, c1, k) && UnchangedAt(c1, c', k); }
  }

  lemma PutOnlyAt(c1: Conn, id: nat, st: Stream)
    ensures OnlyAt(c1, Put(c1, id, st), id)
  {
    forall k | k != id ensures UnchangedAt(c1, Put(c1, id, st), k) {}
  }

  /** A stream that stays counts no more than it did. */
  lemma SameActive(c: Conn, c': Conn, id: nat)
    requires Linked(c) && Linked(c') && id in c.streams && c'.streams.Keys == c.streams.Keys
    requires c.flows[id].done ==> c'.flows[id].done
    requires forall k | k in c.streams && k != id :: c'.flows[k] == c.flows[k]
    ensures |Active(c')| <= |Active(c)|
  {
    FewerActive(c, c');
  }

  /** A change of one stream that is already there. */
  lemma Changed(c: Conn, c1: Conn, c': Conn, id: nat)
    requires Inv(c) && Heard(c, c1, id) && OnlyAt(c1, c', id) && Linked(c') && c'.requests == c.requests && c'.running == c.running
    requires id in c.streams && id in c'.streams && c'.streams.Keys == c.streams.Keys && StreamOk(c', id)
    requires c.streams[id].dispatched ==> c'.streams[id].dispatched
    requires id in c'.running ==> TaskOk(c', id)
    requires c.flows[id].done ==> c'.flows[id].done
    requires Numbers(c') && AwaitOk(c')
    ensures Within(c', id)
  {
    HeardElsewhere(c, c1, id);
    ThenChanged(c, c1, c', id);
    forall k | k in c.streams && k != id ensures c'.flows[k] == c.flows[k] { assert UnchangedAt(c1, c', k); }
    SameActive(c, c', id);
    assert StreamOk(c, id);
    OneStream(c, c', id);
  }

  // ---- Handing out ----

  lemma MismatchHere(c: Conn, id: nat, c': Conn)
    requires Within(c, id) && Ready(c, id)
    requires c' == ResetStream(Put(c, id, c.streams[id].(dispatched := true)).(flows := c.flows[id := c.flows[id].(done := true)]), id, Protocol)
    ensures Here(c, c', id) && Elsewhere(c, c', id)
  {
    Queued(c.tx, Rst(id, Protocol), id);
    assert StreamOk(c, id);
    forall k | k != id ensures SameAt(c, c', k) { Queued(c.tx, Rst(id, Protocol), k); }
  }

  lemma MismatchInv(c: Conn, id: nat, c': Conn)
    requires Within(c, id) && Ready(c, id)
    requires c' == ResetStream(Put(c, id, c.streams[id].(dispatched := true)).(flows := c.flows[id := c.flows[id].(done := true)]), id, Protocol)
    ensures Inv(c')
  {
    MismatchHere(c, id, c');
    Queued(c.tx, Rst(id, Protocol), id);
    SameActive(c, c', id);
    OneStream(c, c', id);
  }

  lemma HandedOutHere(c: Conn, id: nat, c': Conn)
    requires Within(c, id) && Ready(c, id)
    requires c'.streams == c.streams[id := c.streams[id].(dispatched := true, headers := [], body := [])]
    requires c' == c.(streams := c'.streams, running := c.running[id := Task([], [])], requests := c'.requests)
    ensures Here(c, c', id) && Elsewhere(c, c', id)
  {
    assert StreamOk(c, id);
    forall k | k != id ensures SameAt(c, c', k) {}
  }

  lemma HandedOutRequests(c: Conn, id: nat, c': Conn, r: Request)
    requires Within(c, id) && Ready(c, id) && r.id == id && c'.requests == c.requests + [r]
    requires c'.streams.Keys == c.streams.Keys && c'.highest == c.highest && c'.streams[id].dispatched
    requires forall k | k in c.streams && k != id :: c'.streams[k] == c.streams[k]
    ensures RequestsOk(c')
  {
    assert StreamOk(c, id);
    forall i | 0 <= i < |c'.requests| ensures Taken(c', c'.requests[i].id) && (i < |c.requests| ==> c'.requests[i].id != id) {
      if i < |c.requests| { assert Taken(c, c.requests[i].id); }
    }
  }

  lemma HandedOutInv(c: Conn, id: nat, c': Conn, r: Request)
    requires Within(c, id) && Ready(c, id) && r.id == id
    requires c'.streams == c.streams[id := c.streams[id].(dispatched := true, headers := [], body := [])]
    requires c' == c.(streams := c'.streams, running := c.running[id := Task([], [])], requests := c.requests + [r])
    ensures Inv(c')
  {
    HandedOutHere(c, id, c');
    HandedOutRequests(c, id, c', r);
    SameActive(c, c', id);
    OneStream(c, c', id);
  }

  /** Handing out what is ready restores the invariant. */
  lemma DispatchedInv(c: Conn, id: nat)
    requires Within(c, id)
    ensures Inv(Dispatched(c, id))
  {
    if Ready(c, id) {
      var st := c.streams[id];
      if st.length.Some? && st.length.value != |st.body| {
        MismatchInv(c, id, Dispatched(c, id));
      } else {
        HandedOutInv(c, id, Dispatched(c, id), Request(id, st.headers, st.body));
      }
    }
  }

  // ---- DATA ----

  lemma HeardData(c: Conn, f: Frame, c1: Conn)
    requires f.kind == DATA && c1 == Replenished(c.(rx := c.rx + [f], recvWindow := c.recvWindow - |f.payload|))
    ensures Heard(c, c1, f.stream)
  {
    forall k ensures SentOn(c1.tx, k) == SentOn(c.tx, k) {
      if c1.tx != c.tx { Queued(c.tx, c1.tx[|c.tx|], k); }
    }
    forall k | k != f.stream ensures Increments(c1.rx, k) == Increments(c.rx, k) && BodyOf(c1.rx, k) == BodyOf(c.rx, k) {
      Arrived(c.rx, f, k);
    }
  }

  /** The connection window stays above half, and is always what the peer was told. */
  lemma ChargedNumbers(c: Conn, f: Frame, c0: Conn)
    requires Numbers(c) && f.kind == DATA && |f.payload| <= DEFAULT_MAX_FRAME
    requires c0 == c.(rx := c.rx + [f], recvWindow := c.recvWindow - |f.payload|)
    ensures Numbers(Replenished(c0))
  {
    Arrived(c.rx, f, 0);
    ReplenishedNumbers(c, c0);
  }

  lemma ReplenishedNumbers(c: Conn, c0: Conn)
    requires Numbers(c) && c0 == c.(rx := c0.rx, recvWindow := c0.recvWindow) && Increments(c0.rx, 0) == Increments(c.rx, 0)
    requires c0.recvWindow - c.recvWindow == Charged(c.rx) - Charged(c0.rx) && c0.recvWindow <= c.recvWindow
    ensures Numbers(Replenished(c0))
  {
    Queued(c0.tx, WindowUpdate(0, OUR_INITIAL_WINDOW - c0.recvWindow), 0);
  }

  lemma BodyHere(c: Conn, f: Frame, c1: Conn, data: seq<byte>, c': Conn)
    requires Inv(c) && c.awaited == None && f.kind == DATA && Heard(c, c1, f.stream) && c1.rx == c.rx + [f]
    requires At(c, f.stream) == IsOpen && Unpad(f.payload, Padded(f)) == Some(data) && c' == BodyAdded(c1, f, data)
    ensures StreamOk(c', f.stream) && f.stream !in c'.running && OnlyAt(c1, c', f.stream)
  {
    Arrived(c.rx, f, f.stream);
    assert StreamOk(c, f.stream);
    PutOnlyAt(c1, f.stream, c'.streams[f.stream]);
  }

  lemma BodyWithin(c: Conn, f: Frame, c1: Conn, data: seq<byte>)
    requires Inv(c) && c.awaited == None && f.kind == DATA && Heard(c, c1, f.stream) && c1.rx == c.rx + [f] && Numbers(c1)
    requires At(c, f.stream) == IsOpen && Unpad(f.payload, Padded(f)) == Some(data)
    ensures Within(BodyAdded(c1, f, data), f.stream)
  {
    var c' := BodyAdded(c1, f, data);
    BodyHere(c, f, c1, data, c');
    assert StreamOk(c, f.stream);
    Changed(c, c1, c', f.stream);
  }

  lemma ResetBetween(c: Conn, c1: Conn, id: nat, code: Code)
    requires Inv(c) && c.awaited == None && Heard(c, c1, id) && Numbers(c1) && id <= c.highest
    ensures Within(ResetStream(c1, id, code), id)
  {
    ResetWithin(c, c1, id, code);
  }

  lemma DataOutcomes(c0: Conn, f: Frame, c1: Conn)
    requires Linked(c0) && f.kind == DATA && c1 == Replenished(c0.(recvWindow := c0.recvWindow - |f.payload|))
    ensures var r := OnData(c0, f);
            r.Go? ==>
              && At(c0, f.stream) != Idle && Unpad(f.payload, Padded(f)).Some?
              && (|| r.c == ResetStream(c1, f.stream, StreamClosed) || r.c == ResetStream(c1, f.stream, EnhanceYourCalm)
                  || (At(c0, f.stream) == IsOpen && r.c == BodyAdded(c1, f, Unpad(f.payload, Padded(f)).value)))
  {}

  lemma DataWithin(c: Conn, f: Frame, c0: Conn)
    requires Inv(c) && Refusal(c, f) == None && f.kind == DATA && c0 == c.(rx := c.rx + [f])
    ensures OnData(c0, f).Go? ==> Within(OnData(c0, f).c, f.stream)
  {
    var charged := c0.(recvWindow := c0.recvWindow - |f.payload|);
    var c1 := Replenished(charged);
    HeardData(c, f, c1);
    ChargedNumbers(c, f, charged);
    DataCases(c, f, c1);
    DataOutcomes(c0, f, c1);
  }

  lemma DataCases(c: Conn, f: Frame, c1: Conn)
    requires Inv(c) && c.awaited == None && f.kind == DATA && Heard(c, c1, f.stream) && c1.rx == c.rx + [f] && Numbers(c1)
    ensures At(c, f.stream) == IsOpen && Unpad(f.payload, Padded(f)).Some? ==> Within(BodyAdded(c1, f, Unpad(f.payload, Padded(f)).value), f.stream)
    ensures At(c, f.stream) != Idle ==> forall code :: Within(ResetStream(c1, f.stream, code), f.stream)
  {
    if At(c, f.stream) == IsOpen && Unpad(f.payload, Padded(f)).Some? {
      BodyWithin(c, f, c1, Unpad(f.payload, Padded(f)).value);
    }
    if At(c, f.stream) != Idle {
      assert f.stream in c.streams ==> StreamOk(c, f.stream);
      forall code { ResetBetween(c, c1, f.stream, code); }
    }
  }

  // ---- HEADERS and CONTINUATION ----

  /** `c2` differs from `c` at stream `id`, whose header block is being assembled; it may just have been
      opened. */
  ghost predicate Assembling(c: Conn, c2: Conn, id: nat) {
    && Within(c, id) && Elsewhere(c, c2, id) && Linked(c2) && Numbers(c2) && c2.requests == c.requests
    && |Active(c2)| <= MAX_CONCURRENT && id in c2.streams && (c.awaited == None || c.awaited == Some(id))
    && Entry(id, c2.streams[id], c2.flows[id], c2.highest, Some(id), c2.peerInitial, Increments(c2.rx, id), |SentOn(c2.tx, id)|, BodyOf(c2.rx, id))
    && (!c2.streams[id].dispatched ==> id !in c2.running && (id > c.highest || (id in c.streams && !c.streams[id].dispatched)))
    && (id in c2.running ==> TaskOk(c2, id))
  }

  lemma AssembledElsewhere(c: Conn, c2: Conn, c': Conn, id: nat)
    requires Assembling(c, c2, id) && c'.rx == c2.rx && c'.highest == c2.highest && c'.peerInitial == c2.peerInitial
    requires forall k | k != id :: UnchangedAt(c2, c', k)
    ensures Elsewhere(c, c', id)
  {
    forall k | k != id ensures SameAt(c, c', k) { assert SameAt(c, c2, k) && UnchangedAt(c2, c', k); }
  }

  /** The stream is put back with what its block said. */
  lemma Refilled(c: Conn, c2: Conn, id: nat, st: Stream, dec: Hpack.Table, awaited: Option<nat>, c': Conn)
    requires Assembling(c, c2, id) && c' == Put(c2, id, st).(dec := dec, awaited := awaited)
    requires st == c2.streams[id].(pending := st.pending, headers := st.headers, headersDone := st.headersDone, length := st.length)
    requires (c2.streams[id].headersDone ==> st.headersDone) && (st.headersDone && !st.dispatched ==> st.length == ContentLength(st.headers))
    requires awaited == Some(id) || (awaited == None && (st.headersDone || st.state == Reset))
    requires AwaitOk(c')
    ensures Within(c', id)
  {
    forall k | k != id ensures UnchangedAt(c2, c', k) {}
    AssembledElsewhere(c, c2, c', id);
    SameActive(c2, c', id);
    OneStream(c, c', id);
  }

  lemma GivenUp(c: Conn, c2: Conn, id: nat, st: Stream, dec: Hpack.Table, code: Code, c': Conn)
    requires Assembling(c, c2, id) && c' == ResetStream(Put(c2, id, st).(dec := dec), id, code) && c2.awaited == None
    requires st == c2.streams[id].(pending := st.pending)
    ensures Within(c', id)
  {
    forall k | k != id ensures UnchangedAt(c2, c', k) { Queued(c2.tx, Rst(id, code), k); }
    Queued(c2.tx, Rst(id, code), id);
    AssembledElsewhere(c, c2, c', id);
    SameActive(c2, c', id);
    OneStream(c, c', id);
  }

  lemma FinishedOutcomes(c2: Conn, id: nat, answer: Hpack.Decoding)
    requires Linked(c2) && id in c2.streams
    ensures var r := Finished(c2, id, answer);
            var st := c2.streams[id].(pending := []);
            r.Go? ==>
              || r.c == ResetStream(Put(c2, id, st).(dec := answer.table), id, EnhanceYourCalm)
              || r.c == ResetStream(Put(c2, id, st).(dec := answer.table), id, Protocol)
              || (st.trailers && r.c == Put(c2, id, st).(dec := answer.table))
              || (!st.trailers && r.c == Put(c2, id, st.(headers := answer.out, headersDone := true, length := ContentLength(answer.out))).(dec := answer.table))
  {}

  lemma FinishedWithin(c: Conn, c2: Conn, id: nat, answer: Hpack.Decoding)
    requires Assembling(c, c2, id) && c2.awaited == None
    ensures Finished(c2, id, answer).Go? ==> Within(Finished(c2, id, answer).c, id)
  {
    var r := Finished(c2, id, answer);
    FinishedOutcomes(c2, id, answer);
    if r.Go? {
      var st := c2.streams[id].(pending := []);
      var done := st.(headers := answer.out, headersDone := true, length := ContentLength(answer.out));
      if r.c == ResetStream(Put(c2, id, st).(dec := answer.table), id, EnhanceYourCalm) {
        GivenUp(c, c2, id, st, answer.table, EnhanceYourCalm, r.c);
      } else if r.c == ResetStream(Put(c2, id, st).(dec := answer.table), id, Protocol) {
        GivenUp(c, c2, id, st, answer.table, Protocol, r.c);
      } else if st.trailers {
        Refilled(c, c2, id, st, answer.table, None, r.c);
      } else {
        Refilled(c, c2, id, done, answer.table, None, r.c);
      }
    }
  }

  /** A block that begins with this frame's fragment. */
  lemma OpenedWithin(c: Conn, c2: Conn, f: Frame, answer: Hpack.Decoding)
    requires Assembling(c, c2, f.stream) && c2.awaited == None && c2.streams[f.stream].pending == OpenBlock(c2.rx)
    requires c2.streams[f.stream].trailers || (!c2.streams[f.stream].headersDone && c2.streams[f.stream].state != Reset)
    ensures BlockOpened(c2, f, answer).Go? ==> Within(BlockOpened(c2, f, answer).c, f.stream)
  {
    var id := f.stream;
    if EndHeaders(f) {
      FinishedWithin(c, c2, id, answer);
    } else {
      var c' := c2.(awaited := Some(id));
      assert Put(c2, id, c2.streams[id]).(dec := c2.dec, awaited := Some(id)) == c' by {
        assert c2.streams[id := c2.streams[id]] == c2.streams;
      }
      Refilled(c, c2, id, c2.streams[id], c2.dec, Some(id), c');
    }
  }

  /** `c0` is `c` with a frame read that neither carries data nor gives window. */
  ghost predicate Plain(c: Conn, f: Frame, c0: Conn) {
    f.kind != DATA && f.kind != WINDOW_UPDATE && c0 == c.(rx := c.rx + [f])
  }

  lemma PlainFrame(c: Conn, f: Frame, c0: Conn)
    requires Inv(c) && Plain(c, f, c0)
    ensures Heard(c, c0, f.stream) && Elsewhere(c, c0, f.stream) && Numbers(c0) && (f.stream > c.highest ==> Untouched(c0, f.stream))
    ensures f.stream in c.streams ==> StreamOk(c0, f.stream)
    ensures f.stream in c.running ==> TaskOk(c0, f.stream)
  {
    Arrived(c.rx, f, 0);
    Arrived(c.rx, f, f.stream);
    forall k | k != f.stream ensures Increments(c0.rx, k) == Increments(c.rx, k) && BodyOf(c0.rx, k) == BodyOf(c.rx, k) {
      Arrived(c.rx, f, k);
    }
    HeardElsewhere(c, c0, f.stream);
    if f.stream > c.highest { assert Untouched(c, f.stream); }
    if f.stream in c.streams { assert StreamOk(c, f.stream); }
    if f.stream in c.running { assert TaskOk(c, f.stream); }
  }

  lemma ContinuesBlock(c: Conn, f: Frame, c0: Conn, c2: Conn)
    requires Inv(c) && Plain(c, f, c0) && f.kind == CONTINUATION && c.awaited == Some(f.stream)
    requires c2 == Put(c0, f.stream, c.streams[f.stream].(pending := c.streams[f.stream].pending + f.payload)).(awaited := None)
    ensures Assembling(c, c2, f.stream) && c2.streams[f.stream].pending == OpenBlock(c2.rx)
  {
    var id := f.stream;
    PlainFrame(c, f, c0);
    forall k | k != id ensures UnchangedAt(c0, c2, k) {}
    forall k | k != id ensures SameAt(c, c2, k) { assert SameAt(c, c0, k) && UnchangedAt(c0, c2, k); }
    SameActive(c, c2, id);
    assert StreamOk(c, id) && (c.rx + [f])[..|c.rx|] == c.rx;
  }

  lemma ContinuationWithin(c: Conn, f: Frame, c0: Conn, answer: Hpack.Decoding)
    requires Inv(c) && Plain(c, f, c0) && f.kind == CONTINUATION
    ensures OnContinuation(c0, f, answer).Go? ==> Within(OnContinuation(c0, f, answer).c, f.stream)
  {
    if OnContinuation(c0, f, answer).Go? {
      var id := f.stream;
      var st := c.streams[id].(pending := c.streams[id].pending + f.payload);
      var c2 := Put(c0, id, st).(awaited := None);
      ContinuesBlock(c, f, c0, c2);
      if EndHeaders(f) {
        FinishedWithin(c, c2, id, answer);
      } else {
        assert Put(c2, id, st).(dec := c2.dec, awaited := Some(id)) == Put(c0, id, st) by {
          assert c2.streams[id := st] == c2.streams;
        }
        Refilled(c, c2, id, st, c2.dec, Some(id), Put(c0, id, st));
      }
    }
  }

  lemma TrailsBlock(c: Conn, f: Frame, c0: Conn, block: seq<byte>, c2: Conn)
    requires Inv(c) && Plain(c, f, c0) && c.awaited == None
    requires At(c, f.stream) == IsOpen && c2 == Trailing(c0, f.stream, block)
    ensures Assembling(c, c2, f.stream) && c2.streams[f.stream].trailers
  {
    var id := f.stream;
    PlainFrame(c, f, c0);
    forall k | k != id ensures UnchangedAt(c0, c2, k) {}
    forall k | k != id ensures SameAt(c, c2, k) { assert SameAt(c, c0, k) && UnchangedAt(c0, c2, k); }
    SameActive(c, c2, id);
    assert StreamOk(c, id);
  }

  /** Outside a header block no stream is half closed and undispatched. */
  lemma NotHalfClosed(c: Conn, id: nat)
    requires Inv(c) && c.awaited == None
    ensures At(c, id) != HalfClosed
  {
    if id in c.streams { assert StreamOk(c, id) && !Ready(c, id); }
  }

  lemma PrunedActive(c: Conn, c1: Conn, c2: Conn, f: Frame, block: seq<byte>)
    requires Linked(c) && c1 == Pruned(c) && c2 == Opened(c1, f, block) && f.stream !in c.streams
    ensures Active(c2) == Active(c) + {f.stream} && Active(c1) == Active(c)
  {}

  lemma OpensBlock(c: Conn, f: Frame, c0: Conn, c1: Conn, block: seq<byte>, c2: Conn)
    requires Inv(c) && Plain(c, f, c0) && c.awaited == None
    requires f.stream % 2 == 1 && f.stream > c.highest
    requires c1 == Pruned(c0.(highest := f.stream)) && c2 == Opened(c1, f, block) && |Active(c1)| < MAX_CONCURRENT
    ensures Assembling(c, c2, f.stream)
  {
    var id := f.stream;
    PlainFrame(c, f, c0);
    assert Untouched(c, id);
    PrunedActive(c0.(highest := id), c1, c2, f, block);
    forall k | k != id ensures SameAt(c, c2, k) {
      assert SameAt(c, c0, k);
      if k in c.streams { assert StreamOk(c, k); }
    }
  }

  lemma RefusedWithin(c: Conn, f: Frame, c0: Conn, c1: Conn, c': Conn)
    requires Inv(c) && Plain(c, f, c0) && c.awaited == None && f.stream > c.highest
    requires c1 == Pruned(c0.(highest := f.stream)) && c' == Queue(c1, Rst(f.stream, RefusedStream))
    ensures Within(c', f.stream)
  {
    var id := f.stream;
    PlainFrame(c, f, c0);
    assert Untouched(c, id);
    QueuedElsewhere(c1, c', Rst(id, RefusedStream), id);
    Queued(c1.tx, Rst(id, RefusedStream), id);
    FewerActive(c, c');
    forall k | k != id ensures SameAt(c, c', k) { assert SameAt(c, c0, k); }
    OneStream(c, c', id);
  }

  lemma PlainWithin(c: Conn, f: Frame, c0: Conn)
    requires Inv(c) && Plain(c, f, c0) && c.awaited == None
    ensures Within(c0, f.stream)
  {
    PlainFrame(c, f, c0);
    assert Active(c0) == Active(c);
    OneStream(c, c0, f.stream);
  }

  lemma QueueElsewhere(c: Conn, o: Out, id: nat, c': Conn)
    requires !o.Data? && c' == Queue(c, o)
    ensures Elsewhere(c, c', id)
  {
    forall k | k != id ensures SameAt(c, c', k) { Queued(c.tx, o, k); }
  }

  lemma QueueHere(c: Conn, o: Out, id: nat, c': Conn)
    requires Within(c, id) && !o.Data? && c' == Queue(c, o)
    ensures Here(c, c', id)
  {
    Queued(c.tx, o, id);
    if id in c.streams { assert StreamOk(c, id); }
    if id in c.running { assert TaskOk(c, id); }
    if id > c.highest { assert Untouched(c, id); }
  }

  /** Queueing a frame that neither carries data nor gives window. */
  lemma QueueWithin(c: Conn, o: Out, id: nat)
    requires Within(c, id) && !o.Data? && !o.WindowUpdate? && c.awaited == None
    ensures Within(Queue(c, o), id)
  {
    var c' := Queue(c, o);
    Queued(c.tx, o, id);
    assert Active(c') == Active(c);
    QueueHere(c, o, id, c');
    QueueElsewhere(c, o, id, c');
    OneStream(c, c', id);
  }

  lemma OpenOutcomes(c0: Conn, f: Frame, block: seq<byte>, answer: Hpack.Decoding, c1: Conn)
    requires Linked(c0) && c1 == Pruned(c0.(highest := f.stream)) && Linked(c1)
    ensures var r := OpenStream(c0, f, block, answer);
            r.Go? ==>
              if |Active(c1)| >= MAX_CONCURRENT then r.c == Queue(c1, Rst(f.stream, RefusedStream))
              else r == BlockOpened(Opened(c1, f, block), f, answer)
  {}

  lemma NewWithin(c: Conn, f: Frame, c0: Conn, block: seq<byte>, answer: Hpack.Decoding)
    requires Inv(c) && Plain(c, f, c0) && f.kind == HEADERS && c.awaited == None
    requires f.stream % 2 == 1 && At(c, f.stream) == Idle && FragmentOf(f) == Block(block)
    ensures OpenStream(c0, f, block, answer).Go? ==> Within(OpenStream(c0, f, block, answer).c, f.stream)
  {
    var c1 := Pruned(c0.(highest := f.stream));
    OpenOutcomes(c0, f, block, answer, c1);
    if |Active(c1)| >= MAX_CONCURRENT {
      RefusedWithin(c, f, c0, c1, Queue(c1, Rst(f.stream, RefusedStream)));
    } else {
      NewBlockWithin(c, f, c0, c1, block, answer, Opened(c1, f, block));
    }
  }

  lemma NewBlockWithin(c: Conn, f: Frame, c0: Conn, c1: Conn, block: seq<byte>, answer: Hpack.Decoding, c2: Conn)
    requires Inv(c) && Plain(c, f, c0) && f.kind == HEADERS && c.awaited == None
    requires f.stream % 2 == 1 && At(c, f.stream) == Idle && FragmentOf(f) == Block(block)
    requires c1 == Pruned(c0.(highest := f.stream)) && c2 == Opened(c1, f, block) && |Active(c1)| < MAX_CONCURRENT
    ensures BlockOpened(c2, f, answer).Go? ==> Within(BlockOpened(c2, f, answer).c, f.stream)
  {
    OpensBlock(c, f, c0, c1, block, c2);
    OpenedWithin(c, c2, f, answer);
  }

  lemma TrailersWithin(c: Conn, f: Frame, c0: Conn, block: seq<byte>, answer: Hpack.Decoding)
    requires Inv(c) && Plain(c, f, c0) && f.kind == HEADERS && c.awaited == None
    requires At(c, f.stream) == IsOpen && FragmentOf(f) == Block(block)
    ensures var r := BlockOpened(Trailing(c0, f.stream, block), f, answer);
            r.Go? ==> Within(r.c, f.stream)
  {
    var c2 := Trailing(c0, f.stream, block);
    TrailsBlock(c, f, c0, block, c2);
    OpenedWithin(c, c2, f, answer);
  }

  lemma HeadersOutcomes(c0: Conn, f: Frame, answer: Hpack.Decoding)
    requires Linked(c0) && At(c0, f.stream) != HalfClosed
    ensures var r := OnHeaders(c0, f, answer);
            r.Go? ==>
              && f.stream % 2 == 1
              && match FragmentOf(f)
                 case SelfDependent => r.c == Queue(c0, Rst(f.stream, Protocol))
                 case Block(block) =>
                   || (At(c0, f.stream) == Idle && r == OpenStream(c0, f, block, answer))
                   || (At(c0, f.stream) == IsOpen && r.c == ResetStream(c0, f.stream, Protocol))
                   || (At(c0, f.stream) == IsOpen && r == BlockOpened(Trailing(c0, f.stream, block), f, answer))
                 case _ => false
  {}

  lemma HeadersWithin(c: Conn, f: Frame, c0: Conn, answer: Hpack.Decoding)
    requires Inv(c) && Plain(c, f, c0) && f.kind == HEADERS && c.awaited == None
    ensures OnHeaders(c0, f, answer).Go? ==> Within(OnHeaders(c0, f, answer).c, f.stream)
  {
    var r := OnHeaders(c0, f, answer);
    NotHalfClosed(c, f.stream);
    HeadersOutcomes(c0, f, answer);
    if r.Go? {
      PlainWithin(c, f, c0);
      match FragmentOf(f)
      case SelfDependent => QueueWithin(c0, Rst(f.stream, Protocol), f.stream);
      case Block(block) =>
        if At(c, f.stream) == Idle {
          NewWithin(c, f, c0, block, answer);
        } else {
          PlainFrame(c, f, c0);
          TrailersWithin(c, f, c0, block, answer);
          ResetWithin(c, c0, f.stream, Protocol);
        }
    }
  }

  // ---- The other frames ----

  lemma PriorityWithin(c: Conn, f: Frame, c0: Conn)
    requires Inv(c) && Plain(c, f, c0) && c.awaited == None
    ensures OnPriority(c0, f).Go? ==> Within(OnPriority(c0, f).c, f.stream)
  {
    PlainWithin(c, f, c0);
    QueueWithin(c0, Rst(f.stream, Protocol), f.stream);
  }

  lemma PingWithin(c: Conn, f: Frame, c0: Conn)
    requires Inv(c) && Plain(c, f, c0) && c.awaited == None
    ensures OnPing(c0, f).Go? ==> Within(OnPing(c0, f).c, f.stream)
  {
    PlainWithin(c, f, c0);
    QueueWithin(c0, Pong(f.payload), f.stream);
  }

  lemma RstHere(c: Conn, f: Frame, c0: Conn, c': Conn)
    requires Inv(c) && Plain(c, f, c0) && c.awaited == None && f.stream in c.streams
    requires c' == Put(c0, f.stream, c.streams[f.stream].(state := Reset)).(flows := c.flows[f.stream := c.flows[f.stream].(reset := true)])
    ensures StreamOk(c', f.stream) && OnlyAt(c0, c', f.stream) && (f.stream in c'.running ==> TaskOk(c', f.stream))
  {
    PlainFrame(c, f, c0);
    forall k | k != f.stream ensures UnchangedAt(c0, c', k) {}
  }

  lemma RstPresent(c: Conn, f: Frame, c0: Conn, c': Conn)
    requires Inv(c) && Plain(c, f, c0) && c.awaited == None && f.stream in c.streams
    requires c' == Put(c0, f.stream, c.streams[f.stream].(state := Reset)).(flows := c.flows[f.stream := c.flows[f.stream].(reset := true)])
    ensures Within(c', f.stream)
  {
    PlainFrame(c, f, c0);
    RstHere(c, f, c0, c');
    Changed(c, c0, c', f.stream);
  }

  lemma RstWithin(c: Conn, f: Frame, c0: Conn)
    requires Inv(c) && Plain(c, f, c0) && c.awaited == None
    ensures OnRst(c0, f).Go? ==> Within(OnRst(c0, f).c, f.stream)
  {
    if f.stream !in c.streams {
      PlainWithin(c, f, c0);
    } else {
      RstPresent(c, f, c0, Put(c0, f.stream, c.streams[f.stream].(state := Reset)).(flows := c.flows[f.stream := c.flows[f.stream].(reset := true)]));
    }
  }

  lemma {:induction false} SettingsNumbers(c: Conn, payload: seq<byte>)
    requires Numbers(c)
    ensures SettingsRead(c, payload).Go? ==> Numbers(SettingsRead(c, payload).c)
    decreases |payload|
  {
    if |payload| >= 6 {
      var r := OneSetting(c, BigEndian.Value(payload[..2]), BigEndian.Value(payload[2..6]));
      if r.Go? { SettingsNumbers(r.c, payload[6..]); }
    }
  }

  /** Moving the initial window and every stream's window by the same amount keeps the balance. */
  lemma ShiftedWithin(c0: Conn, c1: Conn, c': Conn)
    requires Within(c0, 0) && SameButSettings(c0, c1) && Numbers(c1) && c' == WindowsMoved(c1, c1.peerInitial - c0.peerInitial)
    ensures Within(c', 0)
  {
    forall id | id in c'.streams ensures StreamOk(c', id) && (id != 0 ==> !Ready(c', id)) {
      assert StreamOk(c0, id) && (id != 0 ==> !Ready(c0, id));
    }
    assert Active(c') == Active(c0);
    forall id | id in c'.running ensures TaskOk(c', id) { assert TaskOk(c0, id); }
    forall id | id > c'.highest ensures Untouched(c', id) { assert Untouched(c0, id); }
    forall i | 0 <= i < |c'.requests| ensures Taken(c', c'.requests[i].id) { assert Taken(c0, c0.requests[i].id); }
  }

  lemma SettingsWithin(c: Conn, f: Frame, c0: Conn)
    requires Inv(c) && Plain(c, f, c0) && c.awaited == None
    ensures OnSettings(c0, f).Go? ==> Within(OnSettings(c0, f).c, f.stream)
  {
    PlainWithin(c, f, c0);
    SettingsNumbers(c0, f.payload);
    AcknowledgedWithin(c0, SettingsRead(c0, f.payload));
  }

  lemma AcknowledgedWithin(c0: Conn, read: Outcome)
    requires Within(c0, 0) && c0.awaited == None && (read.Go? ==> SameButSettings(c0, read.c) && Numbers(read.c))
    ensures Acknowledged(c0, read).Go? ==> Within(Acknowledged(c0, read).c, 0)
  {
    if read.Go? {
      var c2 := WindowsMoved(read.c, read.c.peerInitial - c0.peerInitial);
      ShiftedWithin(c0, read.c, c2);
      QueueWithin(c2, SettingsAck, 0);
    }
  }

  // ---- WINDOW_UPDATE ----

  lemma OddIds(c: Conn, id: nat)
    requires StreamsOk(c)
    ensures id in c.streams ==> id % 2 == 1 && id <= c.highest
  {
    if id in c.streams { assert StreamOk(c, id); }
  }

  lemma HeardUpdate(c: Conn, f: Frame, c0: Conn)
    requires f.kind == WINDOW_UPDATE && c0 == c.(rx := c.rx + [f])
    ensures Heard(c, c0, f.stream)
  {
    forall k | k != f.stream ensures Increments(c0.rx, k) == Increments(c.rx, k) && BodyOf(c0.rx, k) == BodyOf(c.rx, k) {
      Arrived(c.rx, f, k);
    }
  }

  lemma ConnectionUpdate(c: Conn, f: Frame, c0: Conn, c': Conn)
    requires Inv(c) && c.awaited == None && f.kind == WINDOW_UPDATE && f.stream == 0 && c0 == c.(rx := c.rx + [f])
    requires c' == c0.(connWindow := c0.connWindow + U31(f.payload)) && c'.connWindow <= MAX_WINDOW
    ensures Within(c', 0)
  {
    HeardUpdate(c, f, c0);
    Arrived(c.rx, f, 0);
    HeardElsewhere(c, c0, 0);
    forall k | k != 0 ensures SameAt(c, c', k) { assert SameAt(c, c0, k); }
    assert Active(c') == Active(c);
    OddIds(c, 0);
    if 0 in c.running { assert TaskOk(c, 0); }
    OneStream(c, c', 0);
  }

  lemma UpdateHere(c: Conn, f: Frame, c0: Conn, c': Conn)
    requires Inv(c) && c.awaited == None && f.kind == WINDOW_UPDATE && f.stream in c.streams && c0 == c.(rx := c.rx + [f])
    requires var fl := c.flows[f.stream];
             fl.window + U31(f.payload) <= MAX_WINDOW && c' == c0.(flows := c.flows[f.stream := fl.(window := fl.window + U31(f.payload))])
    ensures StreamOk(c', f.stream) && OnlyAt(c0, c', f.stream) && (f.stream in c'.running ==> TaskOk(c', f.stream))
  {
    Arrived(c.rx, f, f.stream);
    assert StreamOk(c, f.stream);
    if f.stream in c.running { assert TaskOk(c, f.stream); }
    forall k | k != f.stream ensures UnchangedAt(c0, c', k) {}
  }

  lemma UpdateNumbers(c: Conn, f: Frame, c0: Conn)
    requires Numbers(c) && f.kind == WINDOW_UPDATE && f.stream != 0 && c0 == c.(rx := c.rx + [f])
    ensures Numbers(c0)
  {
    Arrived(c.rx, f, 0);
  }

  lemma StreamUpdate(c: Conn, f: Frame, c0: Conn, c': Conn)
    requires Inv(c) && c.awaited == None && f.kind == WINDOW_UPDATE && f.stream in c.streams && c0 == c.(rx := c.rx + [f])
    requires var fl := c.flows[f.stream];
             fl.window + U31(f.payload) <= MAX_WINDOW && c' == c0.(flows := c.flows[f.stream := fl.(window := fl.window + U31(f.payload))])
    ensures Within(c', f.stream)
  {
    assert StreamOk(c, f.stream);
    HeardUpdate(c, f, c0);
    UpdateHere(c, f, c0, c');
    UpdateNumbers(c, f, c0);
    Changed(c, c0, c', f.stream);
  }

  lemma UpdateOfAbsent(c: Conn, f: Frame, c0: Conn)
    requires Inv(c) && c.awaited == None && f.kind == WINDOW_UPDATE && f.stream != 0 && c0 == c.(rx := c.rx + [f])
    requires At(c, f.stream) != Idle && f.stream !in c.streams
    ensures Within(c0, f.stream)
  {
    HeardUpdate(c, f, c0);
    HeardElsewhere(c, c0, f.stream);
    UpdateNumbers(c, f, c0);
    assert Active(c0) == Active(c);
    if f.stream in c.running { assert TaskOk(c, f.stream); }
    OneStream(c, c0, f.stream);
  }

  lemma UpdateReset(c: Conn, f: Frame, c0: Conn, code: Code)
    requires Inv(c) && c.awaited == None && f.kind == WINDOW_UPDATE && f.stream != 0 && c0 == c.(rx := c.rx + [f])
    requires At(c, f.stream) != Idle
    ensures Within(ResetStream(c0, f.stream, code), f.stream)
  {
    HeardUpdate(c, f, c0);
    UpdateNumbers(c, f, c0);
    assert f.stream in c.streams ==> StreamOk(c, f.stream);
    ResetBetween(c, c0, f.stream, code);
  }

  lemma UpdateOutcomes(c0: Conn, f: Frame, r: Outcome, inc: nat)
    requires Linked(c0) && r == OnWindowUpdate(c0, f) && r.Go? && inc == U31(f.payload)
    ensures f.stream == 0 ==> c0.connWindow + inc <= MAX_WINDOW && r.c == c0.(connWindow := c0.connWindow + inc)
    ensures f.stream != 0 ==> At(c0, f.stream) != Idle
    ensures f.stream != 0 ==>
              r.c == if inc == 0 then ResetStream(c0, f.stream, Protocol)
                     else if f.stream !in c0.streams then c0
                     else if c0.flows[f.stream].window + inc > MAX_WINDOW then ResetStream(c0, f.stream, FlowControl)
                     else c0.(flows := c0.flows[f.stream := c0.flows[f.stream].(window := c0.flows[f.stream].window + inc)])
  {}

  lemma UpdateOfStream(c: Conn, f: Frame, c0: Conn, r: Outcome)
    requires Inv(c) && c.awaited == None && f.kind == WINDOW_UPDATE && f.stream != 0 && c0 == c.(rx := c.rx + [f])
    requires OnWindowUpdate(c0, f) == r && r.Go?
    ensures Within(r.c, f.stream)
  {
    UpdateOutcomes(c0, f, r, U31(f.payload));
    if U31(f.payload) == 0 { UpdateReset(c, f, c0, Protocol); }
    else if f.stream !in c.streams { UpdateOfAbsent(c, f, c0); }
    else if c.flows[f.stream].window + U31(f.payload) > MAX_WINDOW { UpdateReset(c, f, c0, FlowControl); }
    else { StreamUpdate(c, f, c0, r.c); }
  }

  lemma UpdateWithin(c: Conn, f: Frame, c0: Conn, r: Outcome)
    requires Inv(c) && c.awaited == None && f.kind == WINDOW_UPDATE && c0 == c.(rx := c.rx + [f]) && r == OnWindowUpdate(c0, f)
    ensures r.Go? ==> Within(r.c, f.stream)
  {
    if r.Go? && f.stream == 0 {
      UpdateOutcomes(c0, f, r, U31(f.payload));
      ConnectionUpdate(c, f, c0, r.c);
    } else if r.Go? {
      UpdateOfStream(c, f, c0, r);
    }
  }

  // ---- Every step ----

  lemma FrameWithin(c: Conn, f: Frame, answer: Hpack.Decoding, c0: Conn)
    requires Inv(c) && Refusal(c, f) == None && c0 == c.(rx := c.rx + [f])
    ensures OnFrame(c0, f, answer).Go? ==> Within(OnFrame(c0, f, answer).c, f.stream)
  {
    if f.kind == DATA { DataWithin(c, f, c0); }
    else if f.kind == HEADERS { HeadersWithin(c, f, c0, answer); }
    else if f.kind == CONTINUATION { ContinuationWithin(c, f, c0, answer); }
    else if f.kind == PRIORITY { PriorityWithin(c, f, c0); }
    else if f.kind == RST_STREAM { RstWithin(c, f, c0); }
    else if f.kind == SETTINGS { SettingsWithin(c, f, c0); }
    else if f.kind == PING { PingWithin(c, f, c0); }
    else if f.kind == WINDOW_UPDATE { UpdateWithin(c, f, c0, OnWindowUpdate(c0, f)); }
    else { PlainWithin(c, f, c0); }
  }

  /** No step is stuck: the stream of an open header block is there. */
  lemma NeverStuck(c: Conn)
    requires Inv(c)
    ensures Linked(c) && CanContinue(c)
  {}

  lemma ReceiveInv(c: Conn, f: Frame, answer: Hpack.Decoding)
    requires Inv(c)
    ensures Step(c, Receive(f, answer)).Go? ==> Inv(Step(c, Receive(f, answer)).c)
  {
    if Refusal(c, f) == None {
      var c0 := c.(rx := c.rx + [f]);
      FrameWithin(c, f, answer, c0);
      if OnFrame(c0, f, answer).Go? { DispatchedInv(OnFrame(c0, f, answer).c, f.stream); }
    }
  }

  lemma TaskStep(c: Conn, c': Conn, id: nat)
    requires Inv(c) && id in c.running && c'.running.Keys <= c.running.Keys && (id in c'.running ==> TaskOk(c', id))
    requires c' == c.(running := c'.running, flows := c'.flows, tx := c'.tx, connWindow := c'.connWindow)
    requires forall k | k != id :: UnchangedAt(c, c', k)
    requires Linked(c') && (id in c.streams ==> StreamOk(c', id)) && id in c'.flows && (c.flows[id].done ==> c'.flows[id].done)
    requires Numbers(c')
    ensures Inv(c')
  {
    assert TaskOk(c, id);
    forall k | k != id ensures SameAt(c, c', k) { assert UnchangedAt(c, c', k); }
    assert Active(c') <= Active(c) by {
      forall k | k in Active(c') ensures k in Active(c) { if k != id { assert UnchangedAt(c, c', k); } }
    }
    Subset(Active(c'), Active(c));
    OneStream(c, c', id);
  }

  lemma GiveInv(c: Conn, id: nat, data: seq<byte>, c': Conn)
    requires Inv(c) && id in c.running && c.running[id].left == [] && !c.flows[id].reset
    requires c' == c.(running := c.running[id := Task(c.running[id].given + data, data)])
    ensures Inv(c')
  {
    assert TaskOk(c, id);
    forall k | k != id ensures UnchangedAt(c, c', k) {}
    if id in c.streams { assert StreamOk(c, id); }
    TaskStep(c, c', id);
  }

  lemma EndInv(c: Conn, id: nat, c': Conn)
    requires Inv(c) && id in c.running && id in c.flows
    requires c' == c.(running := c.running - {id}, flows := c.flows[id := c.flows[id].(done := true)])
    ensures Inv(c')
  {
    assert TaskOk(c, id);
    forall k | k != id ensures UnchangedAt(c, c', k) {}
    if id in c.streams { assert StreamOk(c, id); }
    TaskStep(c, c', id);
  }

  lemma GivesUpInv(c: Conn, id: nat, c': Conn)
    requires Inv(c) && id in c.running && id in c.flows && c.flows[id].reset
    requires c' == c.(running := c.running[id := c.running[id].(left := [])])
    ensures Inv(c')
  {
    assert TaskOk(c, id);
    forall k | k != id ensures UnchangedAt(c, c', k) {}
    if id in c.streams { assert StreamOk(c, id); }
    TaskStep(c, c', id);
  }

  lemma SendsNumbers(c: Conn, id: nat, n: nat, c': Conn)
    requires Numbers(c) && id in c.running && n <= |c.running[id].left| && 0 < n <= c.connWindow
    requires c'.tx == c.tx + [Data(id, c.running[id].left[..n])] && c'.connWindow == c.connWindow - n
    requires c' == c.(running := c'.running, flows := c'.flows, tx := c'.tx, connWindow := c'.connWindow)
    ensures Numbers(c')
  {
    Queued(c.tx, Data(id, c.running[id].left[..n]), 0);
  }

  lemma SendsTask(c: Conn, id: nat, n: nat, c': Conn)
    requires id in c.running && TaskOk(c, id) && n <= |c.running[id].left| && !c.flows[id].reset
    requires c'.tx == c.tx + [Data(id, c.running[id].left[..n])] && c'.streams == c.streams && c'.highest == c.highest
    requires id in c'.running && c'.running[id] == c.running[id].(left := c.running[id].left[n..])
    requires id in c'.flows && c'.flows[id].reset == c.flows[id].reset && c'.flows[id].done == c.flows[id].done
    ensures TaskOk(c', id)
  {
    var left := c.running[id].left;
    Queued(c.tx, Data(id, left[..n]), id);
    assert SentOn(c.tx, id) + left[..n] + left[n..] == SentOn(c.tx, id) + left;
  }

  lemma SendsHere(c: Conn, id: nat, n: nat, c': Conn)
    requires Inv(c) && id in c.running && id in c.flows && !c.flows[id].reset && 0 < n == Allowed(c, id)
    requires c' == Pumped(c, id)
    ensures id in c.streams && StreamOk(c', id) && forall k | k != id :: UnchangedAt(c, c', k)
  {
    assert TaskOk(c, id) && StreamOk(c, id);
    var o := Data(id, c.running[id].left[..n]);
    Queued(c.tx, o, id);
    forall k | k != id ensures UnchangedAt(c, c', k) { Queued(c.tx, o, k); }
  }

  lemma PumpInv(c: Conn, id: nat)
    requires Inv(c) && id in c.running && id in c.flows
    ensures Inv(Pumped(c, id))
  {
    if c.flows[id].reset {
      GivesUpInv(c, id, Pumped(c, id));
    } else if Allowed(c, id) > 0 {
      SendsHere(c, id, Allowed(c, id), Pumped(c, id));
      assert TaskOk(c, id);
      SendsTask(c, id, Allowed(c, id), Pumped(c, id));
      SendsNumbers(c, id, Allowed(c, id), Pumped(c, id));
      TaskStep(c, Pumped(c, id), id);
    }
  }

  /** Every step keeps the invariant. */
  lemma StepInv(c: Conn, e: Event)
    requires Inv(c)
    ensures Step(c, e).Go? ==> Inv(Step(c, e).c)
  {
    match e
    case Receive(f, answer) => ReceiveInv(c, f, answer);
    case Give(id, data) =>
      if id in c.running && c.running[id].left == [] && id in c.flows && !c.flows[id].reset {
        GiveInv(c, id, data, c.(running := c.running[id := Task(c.running[id].given + data, data)]));
      }
    case Pump(id) => if id in c.running && id in c.flows { PumpInv(c, id); }
    case End(id) =>
      if id in c.running && id in c.flows {
        EndInv(c, id, c.(running := c.running - {id}, flows := c.flows[id := c.flows[id].(done := true)]));
      }
  }
}
