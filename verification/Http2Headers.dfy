/** How header blocks reach the decoder of an HTTP/2 connection, and what comes of them. */
module Http2Headers {
  import opened Wrappers
  import opened Bits
  import opened Http2Frame
  import opened Http2Conn
  import opened Http2Length
  import opened Http2Safety
  import opened Http2Runs
  import BigEndian
  import Hpack
  import HpackStatic

  /** The frame ends a header block that the loop opened. */
  ghost predicate Completes(c: Conn, f: Frame)
    requires Linked(c)
  {
    && Refusal(c, f) == None && EndHeaders(f)
    && if f.kind == CONTINUATION then
         c.awaited == Some(f.stream) && f.stream in c.streams && |c.streams[f.stream].pending| + |f.payload| <= MAX_HEADER_LIST * 2
       else
         && f.kind == HEADERS && f.stream % 2 == 1 && FragmentOf(f).Block?
         && ((At(c, f.stream) == IsOpen && EndStream(f)) || (At(c, f.stream) == Idle && |Active(c)| < MAX_CONCURRENT))
  }

  /** What the loop then hands to the decoder. */
  ghost function Assembled(c: Conn, f: Frame): seq<byte>
    requires Linked(c) && Completes(c, f)
  {
    if f.kind == CONTINUATION then c.streams[f.stream].pending + f.payload else FragmentOf(f).bytes
  }

  ghost function Decode(d: Hpack.Table, block: seq<byte>): Hpack.Decoding {
    Hpack.DecodeBlock(HpackStatic.Rfc7541Static(), d, block, MAX_HEADER_LIST)
  }

  /** It is the fragments of the HEADERS frame and the CONTINUATIONs right after it, in order. */
  lemma AssembledIsWhole(c: Conn, f: Frame)
    requires Inv(c) && Completes(c, f)
    ensures Assembled(c, f) == OpenBlock(c.rx + [f])
  {
    assert (c.rx + [f])[..|c.rx|] == c.rx;
  }

  /** How SETTINGS parameters resize the table, one after the other. */
  function Resized(d: Hpack.Table, payload: seq<byte>): Hpack.Table
    decreases |payload|
  {
    if |payload| < 6 then d
    else
      var (id, v) := (BigEndian.Value(payload[..2]), BigEndian.Value(payload[2..6]));
      Resized(if id == HEADER_TABLE_SIZE then Hpack.WithSettings(d, v) else d, payload[6..])
  }

  lemma {:induction false} SettingsTable(c: Conn, payload: seq<byte>)
    ensures SettingsRead(c, payload).Go? ==> SettingsRead(c, payload).c.dec == Resized(c.dec, payload)
    decreases |payload|
  {
    if |payload| >= 6 {
      var r := OneSetting(c, BigEndian.Value(payload[..2]), BigEndian.Value(payload[2..6]));
      if r.Go? { SettingsTable(r.c, payload[6..]); }
    }
  }

  lemma DispatchedTable(c: Conn, id: nat)
    requires Linked(c)
    ensures Dispatched(c, id).dec == c.dec
  {}

  lemma BlockTable(c: Conn, f: Frame, answer: Hpack.Decoding, r: Outcome)
    requires Linked(c) && f.stream in c.streams && r == BlockOpened(c, f, answer) && r.Go?
    ensures r.c.dec == if EndHeaders(f) then answer.table else c.dec
  {
    if EndHeaders(f) { FinishedOutcomes(c, f.stream, answer); }
  }

  lemma HeadersTable(c: Conn, f: Frame, answer: Hpack.Decoding, r: Outcome)
    requires Linked(c) && Refusal(c, f) == None && f.kind == HEADERS && At(c, f.stream) != HalfClosed && r == OnHeaders(c, f, answer) && r.Go?
    requires forall k | k in c.streams :: c.streams[k].dispatched ==> k <= c.highest
    ensures r.c.dec == if Completes(c, f) then answer.table else c.dec
  {
    HeadersOutcomes(c, f, answer);
    if FragmentOf(f).Block? && At(c, f.stream) == Idle {
      NewTable(c, f, FragmentOf(f).bytes, answer, r);
    } else if FragmentOf(f).Block? && EndStream(f) {
      BlockTable(Trailing(c, f.stream, FragmentOf(f).bytes), f, answer, r);
    }
  }

  lemma NewTable(c: Conn, f: Frame, block: seq<byte>, answer: Hpack.Decoding, r: Outcome)
    requires Linked(c) && f.stream > c.highest && r == OpenStream(c, f, block, answer) && r.Go?
    ensures r.c.dec == if EndHeaders(f) && |Active(c)| < MAX_CONCURRENT then answer.table else c.dec
  {
    var c1 := Pruned(c.(highest := f.stream));
    OpenOutcomes(c, f, block, answer, c1);
    assert Active(c1) == Active(c);
    if |Active(c)| < MAX_CONCURRENT { BlockTable(Opened(c1, f, block), f, answer, r); }
  }

  lemma ContinuationTable(c: Conn, f: Frame, answer: Hpack.Decoding, r: Outcome)
    requires Linked(c) && CanContinue(c) && Refusal(c, f) == None && f.kind == CONTINUATION && r == OnContinuation(c, f, answer) && r.Go?
    ensures r.c.dec == if Completes(c, f) then answer.table else c.dec
  {
    if EndHeaders(f) {
      var st := c.streams[f.stream];
      FinishedOutcomes(Put(c, f.stream, st.(pending := st.pending + f.payload)).(awaited := None), f.stream, answer);
    }
  }

  lemma OtherTable(c: Conn, f: Frame, answer: Hpack.Decoding, r: Outcome)
    requires Linked(c) && CanContinue(c) && f.kind != HEADERS && f.kind != CONTINUATION && f.kind != SETTINGS
    requires r == OnFrame(c, f, answer) && r.Go?
    ensures r.c.dec == c.dec
  {
    if f.kind == DATA { DataOutcomes(c, f, Replenished(c.(recvWindow := c.recvWindow - |f.payload|))); }
    if f.kind == WINDOW_UPDATE { UpdateOutcomes(c, f, r, U31(f.payload)); }
  }

  lemma AcknowledgedTable(c: Conn, read: Outcome)
    requires read.Go? && SameButSettings(c, read.c)
    ensures Acknowledged(c, read).Go? && Acknowledged(c, read).c.dec == read.c.dec
  {}

  /** The table after a step: what the decoder left when a block is finished, resized on SETTINGS, and
      otherwise what it was. */
  lemma DecoderStep(c: Conn, f: Frame, answer: Hpack.Decoding, c': Conn)
    requires Inv(c) && Follows(c, Receive(f, answer), c')
    ensures c'.dec == if Completes(c, f) then answer.table
                      else if f.kind == SETTINGS && !Ack(f) then Resized(c.dec, f.payload)
                      else c.dec
  {
    var c0 := c.(rx := c.rx + [f]);
    var r := OnFrame(c0, f, answer);
    DispatchedTable(r.c, f.stream);
    assert Active(c0) == Active(c);
    if f.kind == HEADERS {
      NotHalfClosed(c, f.stream);
      forall k | k in c0.streams && c0.streams[k].dispatched ensures k <= c0.highest { OddIds(c, k); }
      HeadersTable(c0, f, answer, r);
    } else if f.kind == CONTINUATION {
      ContinuationTable(c0, f, answer, r);
    } else if f.kind == SETTINGS {
      if !Ack(f) {
        SettingsTable(c0, f.payload);
        AcknowledgedTable(c0, SettingsRead(c0, f.payload));
      }
    } else {
      OtherTable(c0, f, answer, r);
    }
  }

  // ---- Runs with the real decoder ----

  /** The answer, where one is used, is the decoder's. */
  ghost predicate Honest(c: Conn, e: Event) {
    match e
    case Receive(f, answer) => Linked(c) && Completes(c, f) ==> answer == Decode(c.dec, Assembled(c, f))
    case _ => true
  }

  ghost predicate HonestRun(maxBody: nat, cs: seq<Conn>, es: seq<Event>) {
    Run(maxBody, cs, es) && forall i | 0 <= i < |es| :: Honest(cs[i], es[i])
  }

  /** What a table becomes when the frame is received in state `c`. */
  ghost function TableAfter(c: Conn, e: Event, d: Hpack.Table): Hpack.Table {
    match e
    case Receive(f, _) =>
      if Linked(c) && Completes(c, f) then Decode(d, OpenBlock(c.rx + [f])).table
      else if f.kind == SETTINGS && !Ack(f) then Resized(d, f.payload)
      else d
    case _ => d
  }

  /** Decoding each whole block, in the order they arrived, with one table. */
  ghost function TableAt(cs: seq<Conn>, es: seq<Event>, i: nat): Hpack.Table
    requires i <= |es| <= |cs|
  {
    if i == 0 then Hpack.Table([], 0, 4096, 4096, []) else TableAfter(cs[i - 1], es[i - 1], TableAt(cs, es, i - 1))
  }

  lemma TableStep(c: Conn, e: Event, c': Conn)
    requires Inv(c) && Follows(c, e, c') && Honest(c, e)
    ensures c'.dec == TableAfter(c, e, c.dec)
  {
    match e
    case Receive(f, answer) =>
      DecoderStep(c, f, answer, c');
      if Completes(c, f) { AssembledIsWhole(c, f); }
    case _ =>
  }

  /** HPACK is one conversation: whatever is interleaved, the decoder sees every block, whole and in order. */
  lemma {:induction false} DecodesInOrder(maxBody: nat, cs: seq<Conn>, es: seq<Event>, i: nat)
    requires HonestRun(maxBody, cs, es) && i <= |es|
    ensures cs[i].dec == TableAt(cs, es, i)
  {
    if i > 0 {
      DecodesInOrder(maxBody, cs, es, i - 1);
      RunStep(maxBody, cs, es, i - 1, cs[i - 1], cs[i]);
      TableStep(cs[i - 1], es[i - 1], cs[i]);
    }
  }

  lemma {:induction false} ResizedIsSound(d: Hpack.Table, payload: seq<byte>)
    requires Hpack.Sound(d)
    ensures Hpack.Sound(Resized(d, payload))
    decreases |payload|
  {
    if |payload| >= 6 {
      var (id, v) := (BigEndian.Value(payload[..2]), BigEndian.Value(payload[2..6]));
      ResizedIsSound(if id == HEADER_TABLE_SIZE then Hpack.WithSettings(d, v) else d, payload[6..]);
    }
  }

  /** And its table never outgrows what was advertised. */
  lemma {:induction false} TableIsSound(maxBody: nat, cs: seq<Conn>, es: seq<Event>, i: nat)
    requires i <= |es| <= |cs|
    ensures Hpack.Sound(TableAt(cs, es, i))
  {
    if i > 0 {
      TableIsSound(maxBody, cs, es, i - 1);
      var d := TableAt(cs, es, i - 1);
      match es[i - 1]
      case Receive(f, _) =>
        Hpack.DecodeKeepsSound(HpackStatic.Rfc7541Static(), d, OpenBlock(cs[i - 1].rx + [f]), MAX_HEADER_LIST, false, []);
        ResizedIsSound(d, f.payload);
      case _ =>
    }
  }

  /** A block that is a request's, not its trailers'. */
  ghost predicate OfRequest(c: Conn, f: Frame)
    requires Linked(c) && Completes(c, f)
  {
    if f.kind == CONTINUATION then !c.streams[f.stream].trailers else At(c, f.stream) == Idle
  }

  /** Where a request's header list is after a step: with its stream, or in the request handed out; or
      the request was refused because its body is not as long as it says. */
  ghost predicate Has(c: Conn, c': Conn, id: nat, hs: seq<Hpack.Header>) {
    || (id in c'.streams && !c'.streams[id].dispatched && c'.streams[id].headersDone && c'.streams[id].headers == hs)
    || (exists body :: c'.requests == c.requests + [Request(id, hs, body)])
    || (id in c'.streams && c'.streams[id].state == Reset && exists n: nat :: Says(hs, n) && n != |c'.streams[id].body|)
  }

  lemma FinishedHas(c: Conn, id: nat, answer: Hpack.Decoding, r: Outcome)
    requires Linked(c) && id in c.streams && !c.streams[id].trailers && !c.streams[id].dispatched && answer.failure == None
    requires r == Finished(c, id, answer)
    ensures r.Go? && Has(c, Dispatched(r.c, id), id, answer.out)
  {
    var c1 := r.c;
    var st := c1.streams[id];
    assert st.headers == answer.out && st.length == ContentLength(answer.out);
    if Ready(c1, id) && !(st.length.Some? && st.length.value != |st.body|) {
      assert Dispatched(c1, id).requests == c.requests + [Request(id, answer.out, st.body)];
    } else if Ready(c1, id) {
      LengthExactly(answer.out, st.length.value);
      assert Says(answer.out, st.length.value);
    }
  }

  lemma HeadersDelivered(c: Conn, f: Frame, answer: Hpack.Decoding, c': Conn)
    requires Inv(c) && Follows(c, Receive(f, answer), c') && Completes(c, f) && OfRequest(c, f) && answer.failure == None
    ensures Has(c, c', f.stream, answer.out)
  {
    var c0 := c.(rx := c.rx + [f]);
    if f.kind == CONTINUATION {
      var st := c.streams[f.stream];
      assert StreamOk(c, f.stream);
      var c2 := Put(c0, f.stream, st.(pending := st.pending + f.payload)).(awaited := None);
      FinishedHas(c2, f.stream, answer, Finished(c2, f.stream, answer));
    } else {
      NewHas(c, f, answer, c0, FragmentOf(f).bytes, c');
    }
  }

  lemma NewHas(c: Conn, f: Frame, answer: Hpack.Decoding, c0: Conn, block: seq<byte>, c': Conn)
    requires Inv(c) && Follows(c, Receive(f, answer), c') && Completes(c, f) && f.kind == HEADERS && At(c, f.stream) == Idle
    requires answer.failure == None && c0 == c.(rx := c.rx + [f]) && FragmentOf(f) == Block(block)
    ensures Has(c, c', f.stream, answer.out)
  {
    var c1 := Pruned(c0.(highest := f.stream));
    assert Active(c1) == Active(c);
    OpenOutcomes(c0, f, block, answer, c1);
    var c2 := Opened(c1, f, block);
    FinishedHas(c2, f.stream, answer, Finished(c2, f.stream, answer));
  }

  /** From encoder to request: a list written by the encoder, cut into a HEADERS frame and any
      CONTINUATIONs, is the request's header list. */
  lemma EncodedListArrives(c: Conn, f: Frame, answer: Hpack.Decoding, c': Conn, announced: bool, hs: seq<Hpack.Header>)
    requires Inv(c) && Follows(c, Receive(f, answer), c') && Honest(c, Receive(f, answer)) && Completes(c, f) && OfRequest(c, f)
    requires OpenBlock(c'.rx) == Hpack.BlockBytes(HpackStatic.Rfc7541Static(), announced, hs)
    requires Hpack.AllCodable(hs) && Hpack.Cost(hs) <= MAX_HEADER_LIST
    ensures Has(c, c', f.stream, hs)
  {
    AssembledIsWhole(c, f);
    HpackStatic.SixtyOneRows();
    Hpack.BlockRoundTrip(HpackStatic.Rfc7541Static(), c.dec, announced, hs, MAX_HEADER_LIST);
    ReadFrame(c, f, answer, c');
    HeadersDelivered(c, f, answer, c');
  }

  lemma ReadFrame(c: Conn, f: Frame, answer: Hpack.Decoding, c': Conn)
    requires Inv(c) && Follows(c, Receive(f, answer), c')
    ensures c'.rx == c.rx + [f]
  {}
}
