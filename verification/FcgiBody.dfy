/** Collecting STDOUT from a FastCGI connection, however its bytes are split into reads. */
module FcgiBody {
  import opened Wrappers
  import opened Bits
  import opened FcgiProto
  import BigEndian

  /** How draining a stretch of records ends: END_REQUEST with the application's status, a broken or
      refused request, or `left` bytes that are not a whole record. */
  datatype End = Ended(status: Option<nat>) | Broken | Starved(left: seq<byte>)

  datatype Drained = Drained(out: seq<byte>, end: End)

  /** `end_request_status` */
  function StatusOf(body: seq<byte>): Option<(nat, byte)> {
    if |body| < 8 then None else Some((BigEndian.Value(body[..4]), body[4]))
  }

  /** Anything but "request complete" means the application refused the request. */
  predicate Refuses(body: seq<byte>) { StatusOf(body).Some? && StatusOf(body).value.1 != 0 }

  function EndOf(body: seq<byte>): End {
    if Refuses(body) then Broken else Ended(match StatusOf(body) case None => None case Some((app, _)) => Some(app))
  }

  /** What a record before END_REQUEST gives: STDERR and the rest are not ours. */
  function Payload(r: Record): seq<byte> { if r.ty == STDOUT then r.body else [] }

  /** What the records at the front of `raw` give, up to where they stop. */
  function Drain(raw: seq<byte>): Drained
    decreases |raw|
  {
    match Parse(raw)
    case Incomplete => Drained([], Starved(raw))
    case Malformed => Drained([], Broken)
    case Got(r, total) => if r.ty == END_REQUEST then Drained([], EndOf(r.body)) else After(Payload(r), Drain(raw[total..]))
  }

  function After(out: seq<byte>, d: Drained): Drained { d.(out := out + d.out) }

  lemma AfterNothing(d: Drained)
    ensures After([], d) == d
  {
    assert [] + d.out == d.out;
  }

  lemma AfterTwice(a: seq<byte>, b: seq<byte>, d: Drained)
    ensures After(a, After(b, d)) == After(a + b, d)
  {
    assert a + (b + d.out) == a + b + d.out;
  }

  /** More bytes only continue where draining starved; where it ended or broke they change nothing. */
  lemma {:induction false} DrainSplit(a: seq<byte>, b: seq<byte>)
    ensures Drain(a + b) == match Drain(a).end
                            case Starved(left) => After(Drain(a).out, Drain(left + b))
                            case _ => Drain(a)
    decreases |a|
  {
    var p := Parse(a);
    ParseStable(a, b);
    if p.Incomplete? {
      AfterNothing(Drain(a + b));
    } else if p.Got? && p.r.ty != END_REQUEST {
      var (rest, out) := (a[p.total..], Payload(p.r));
      assert (a + b)[p.total..] == rest + b;
      DrainSplit(rest, b);
      if Drain(rest).end.Starved? { AfterTwice(out, Drain(rest).out, Drain(Drain(rest).end.left + b)); }
    }
  }

  /** Bytes read one piece after the other. */
  function Joined(pieces: seq<seq<byte>>): seq<byte> {
    if pieces == [] then [] else Joined(pieces[..|pieces| - 1]) + pieces[|pieces| - 1]
  }

  /** Draining after every read, keeping what is left for the next. */
  function DrainEach(pieces: seq<seq<byte>>): Drained {
    if pieces == [] then Drain([])
    else
      var d := DrainEach(pieces[..|pieces| - 1]);
      match d.end
      case Starved(left) => After(d.out, Drain(left + pieces[|pieces| - 1]))
      case _ => d
  }

  /** However a stream is split into reads, the same comes out. */
  lemma {:induction false} SplitIndependent(pieces: seq<seq<byte>>)
    ensures DrainEach(pieces) == Drain(Joined(pieces))
  {
    if pieces != [] {
      SplitIndependent(pieces[..|pieces| - 1]);
      DrainSplit(Joined(pieces[..|pieces| - 1]), pieces[|pieces| - 1]);
    }
  }

  // ---- What a well-formed response gives ----

  /** The bodies of the STDOUT records (type 6), joined. */
  function StdoutOf(rs: seq<Sent>): seq<byte> {
    if rs == [] then [] else (if rs[0].r.ty == 6 then rs[0].r.body else []) + StdoutOf(rs[1..])
  }

  ghost predicate AllSendable(rs: seq<Sent>) { forall s | s in rs :: Sendable(s) && s.r.ty != END_REQUEST }

  function Wire(rs: seq<Sent>): seq<byte>
    requires AllSendable(rs)
  {
    if rs == [] then [] else SentBytes(rs[0]) + Wire(rs[1..])
  }

  lemma DrainRecord(s: Sent, rest: seq<byte>)
    requires Sendable(s) && s.r.ty != END_REQUEST
    ensures Drain(SentBytes(s) + rest) == After(if s.r.ty == 6 then s.r.body else [], Drain(rest))
  {
    ParseSent(s, rest);
    assert (SentBytes(s) + rest)[|SentBytes(s)|..] == rest;
  }

  lemma {:induction false} DrainWire(rs: seq<Sent>, rest: seq<byte>)
    requires AllSendable(rs)
    ensures Drain(Wire(rs) + rest) == After(StdoutOf(rs), Drain(rest))
    decreases |rs|
  {
    if rs == [] {
      assert Wire(rs) + rest == rest;
      AfterNothing(Drain(rest));
    } else {
      DrainWire(rs[1..], rest);
      DrainRecord(rs[0], Wire(rs[1..]) + rest);
      assert Wire(rs) + rest == SentBytes(rs[0]) + (Wire(rs[1..]) + rest);
      AfterTwice(if rs[0].r.ty == 6 then rs[0].r.body else [], StdoutOf(rs[1..]), Drain(rest));
    }
  }

  /** A response: records of any kind, then END_REQUEST (type 3), then anything. It gives the STDOUT bodies before
      END_REQUEST, joined. Its end is the application's status, from the first four bytes; or none where the
      body is too short for one; and the request has failed exactly where the fifth byte is there and not 0. */
  lemma ResponseGives(rs: seq<Sent>, end: Sent, trailing: seq<byte>)
    requires AllSendable(rs) && Sendable(end) && end.r.ty == 3
    ensures var body := end.r.body;
            Drain(Wire(rs) + (SentBytes(end) + trailing)) ==
            Drained(StdoutOf(rs), if |body| < 8 then Ended(None)
                                  else if body[4] == 0 then Ended(Some(BigEndian.Value(body[..4])))
                                  else Broken)
  {
    DrainWire(rs, SentBytes(end) + trailing);
    ParseSent(end, trailing);
    assert StdoutOf(rs) + [] == StdoutOf(rs);
  }

  /** However much has arrived of a stream whose request ends: what has come out is a front of what it gives,
      and all of it once the request has ended. */
  lemma FrontGives(stream: seq<byte>, seen: seq<byte>, d: Drained)
    requires seen <= stream && Drain(stream).end.Ended? && d == Drain(seen)
    ensures d.end != Broken && d.out <= Drain(stream).out && (d.end.Ended? ==> d == Drain(stream))
  {
    DrainSplit(seen, stream[|seen|..]);
    assert seen + stream[|seen|..] == stream;
  }

  // ---- The connection as an object ----

  /** The loop over the buffered records, from `from` on. */
  method DrainFrom(raw: seq<byte>, from: nat, sink: seq<byte>)
    returns (ok: bool, at: nat, sink': seq<byte>, ended: bool, status: Option<nat>, ghost d: Drained)
    requires from <= |raw|
    ensures from <= at <= |raw| && d == Drain(raw[from..])
    ensures ok == (d.end != Broken) && (ok ==> sink' == sink + d.out && ended == d.end.Ended?)
    ensures ok && d.end.Starved? ==> raw[at..] == d.end.left
    ensures ok && ended ==> d.end == Ended(status)
  {
    at, sink', d := from, sink, Drain(raw[from..]);
    ghost var (tail, rest) := (raw[from..], d);
    SoFarNothing(sink, d);
    while true
      invariant from <= at <= |raw| && SoFar(sink, sink', rest, d) && tail == raw[at..] && rest == Drain(tail)
      decreases |raw| - at
    {
      var t;
      ghost var next;
      t, next := Turn(raw[at..], rest);
      TailOf(raw, at, t.step);
      if t.stop {
        SoFarAll(sink, sink', rest, d);
        return t.ok, at + t.step, sink', t.ended, t.status, d;
      }
      SoFarNext(sink, sink', t.piece, rest, next, d);
      sink' := sink' + t.piece;
      at, tail, rest := at + t.step, tail[t.step..], next;
    }
  }

  lemma TailOf(raw: seq<byte>, at: nat, n: nat)
    requires at + n <= |raw|
    ensures raw[at..][n..] == raw[at + n..]
  {}

  /** What was appended to `sink`, and then what `rest` gives, is what `d` gives. */
  ghost predicate SoFar(sink: seq<byte>, sink': seq<byte>, rest: Drained, d: Drained) {
    exists got :: sink' == sink + got && d == After(got, rest)
  }

  lemma SoFarNothing(sink: seq<byte>, d: Drained)
    ensures SoFar(sink, sink, d, d)
  {
    AfterNothing(d);
    assert sink == sink + [] && d == After([], d);
  }

  lemma SoFarNext(sink: seq<byte>, sink': seq<byte>, piece: seq<byte>, rest: Drained, next: Drained, d: Drained)
    requires SoFar(sink, sink', rest, d) && rest == After(piece, next)
    ensures SoFar(sink, sink' + piece, next, d)
  {
    var got :| sink' == sink + got && d == After(got, rest);
    AfterTwice(got, piece, next);
    assert sink' + piece == sink + (got + piece);
  }

  lemma SoFarAll(sink: seq<byte>, sink': seq<byte>, rest: Drained, d: Drained)
    requires SoFar(sink, sink', rest, d) && rest.out == []
    ensures sink' == sink + d.out && d.end == rest.end
  {
    var got :| sink' == sink + got && d == After(got, rest);
    assert got + [] == got;
  }

  /** What one turn of the loop does: takes `step` bytes and gives `piece`, or stops. */
  datatype TurnResult = TurnResult(stop: bool, ok: bool, ended: bool, status: Option<nat>, step: nat, piece: seq<byte>)

  /** What the turn's result says of what was still to be drained. */
  ghost predicate Turned(raw: seq<byte>, rest: Drained, t: TurnResult, next: Drained) {
    && t.step <= |raw|
    && if !t.stop then t.step > 0 && rest == After(t.piece, next) && next == Drain(raw[t.step..])
       else
         && rest.out == [] && t.ok == (rest.end != Broken) && (t.ok ==> t.ended == rest.end.Ended?)
         && (t.ok && t.ended ==> rest.end == Ended(t.status))
         && (rest.end.Starved? ==> raw[t.step..] == rest.end.left)
  }

  method Turn(raw: seq<byte>, ghost rest: Drained) returns (t: TurnResult, ghost next: Drained)
    requires rest == Drain(raw)
    ensures Turned(raw, rest, t, next)
  {
    var p := Parse(raw);
    next := rest;
    if !p.Got? { return TurnResult(true, p.Incomplete?, false, None, 0, []), next; }
    if p.r.ty == END_REQUEST {
      var ok, status := EndRequest(p.r.body);
      return TurnResult(true, ok, ok, status, if ok then p.total else 0, []), next;
    }
    next := Drain(raw[p.total..]);
    return TurnResult(false, true, false, None, p.total, if p.r.ty == STDOUT then p.r.body else []), next;
  }

  /** The application's status, and whether it took the request. */
  method EndRequest(body: seq<byte>) returns (ok: bool, status: Option<nat>)
    ensures ok == !Refuses(body) && (ok ==> EndOf(body) == Ended(status))
  {
    var s := StatusOf(body);
    if s.None? { return true, None; }
    return s.value.1 == 0, Some(s.value.0);
  }

  /** What one read of the socket gives. */
  datatype Read = Bytes(data: seq<byte>) | Closed | Failed(status: nat)

  datatype Pump = More | Over | Fails(status: nat)

  /** What the response turned out to be. */
  datatype Collected = Complete(stdout: seq<byte>, appStatus: nat) | Streaming(head: seq<byte>, pre: seq<byte>) | Refused(status: nat)

  datatype Poll = Pending | Gives(data: seq<byte>) | Breaks

  /** How a turn of `poll_read` comes out when nothing was decoded before. */
  datatype Turning = Moves | Stalls | Stops

  const MAX_HEADERS: nat := 0x4_0000
  const MAX_RESPONSE: nat := 0x400_0000

  /** Where the body begins after the header block, as `find_header_end` sees it so far. */
  function HeaderEnd(b: seq<byte>, i: nat): (r: Option<nat>)
    requires i <= |b|
    ensures r.Some? ==> r.value <= |b|
    decreases |b| - i
  {
    if i == |b| then None
    else if b[i] != 0x0A then HeaderEnd(b, i + 1)
    else if i + 1 < |b| && b[i + 1] == 0x0A then Some(i + 2)
    else if i + 2 < |b| && b[i + 1] == 0x0D && b[i + 2] == 0x0A then Some(i + 3)
    else if i + 1 == |b| then Some(|b|)
    else HeaderEnd(b, i + 1)
  }

  /** At `i` a line ends and the head with it: an empty line follows, or nothing. */
  predicate EndsAt(b: seq<byte>, i: nat, body: nat) {
    && i < |b| && b[i] == 0x0A
    && if |b| > i + 1 && b[i + 1] == 0x0A then body == i + 2
       else if |b| > i + 2 && b[i + 1] == 0x0D && b[i + 2] == 0x0A then body == i + 3
       else |b| == i + 1 == body
  }

  /** The head ends at the first such line. */
  lemma {:induction false} HeaderEndsFirst(b: seq<byte>, i: nat, body: nat)
    requires i <= |b|
    ensures HeaderEnd(b, i) == Some(body) <==>
            exists j: nat :: j >= i && EndsAt(b, j, body) && forall k: nat, other: nat | i <= k < j :: !EndsAt(b, k, other)
    decreases |b| - i
  {
    if i < |b| {
      HeaderEndsFirst(b, i + 1, body);
      if HeaderEnd(b, i).Some? && EndsAt(b, i, HeaderEnd(b, i).value) {
        assert HeaderEnd(b, i) == Some(body) <==> EndsAt(b, i, body);
      } else {
        assert forall other: nat :: !EndsAt(b, i, other);
      }
    }
  }

  /** `find_header_end` saw `head` end in what had been collected by then. */
  ghost predicate EndsHead(head: seq<byte>, stdout: seq<byte>) {
    head <= stdout && exists sofar: seq<byte> :: sofar <= stdout && HeaderEnd(sofar, 0) == Some(|head|)
  }

  /** Once found, the end of the head stays where it is. */
  method FindHead(found: Option<nat>, ghost before: seq<byte>, stdout: seq<byte>) returns (headEnd: Option<nat>)
    requires before <= stdout && (found.Some? ==> found.value <= |before| && EndsHead(before[..found.value], before))
    ensures headEnd == if found.Some? then found else HeaderEnd(stdout, 0)
    ensures headEnd.Some? ==> headEnd.value <= |stdout| && EndsHead(stdout[..headEnd.value], stdout)
  {
    headEnd := if found.Some? then found else HeaderEnd(stdout, 0);
    if found.Some? { assert before[..found.value] == stdout[..found.value]; }
  }

  function DataOf(read: Read): seq<byte> { if read.Bytes? then read.data else [] }

  /** All bytes that reads still to come give. */
  function DataOfAll(socket: seq<Read>): seq<byte> {
    if socket == [] then [] else DataOf(socket[0]) + DataOfAll(socket[1..])
  }

  /** The whole stream: what has been read, and what is to come. */
  function Stream(seen: seq<byte>, socket: seq<Read>): seq<byte> { seen + DataOfAll(socket) }

  lemma StreamStays(seen: seq<byte>, socket: seq<Read>)
    requires socket != []
    ensures Stream(seen + DataOf(socket[0]), socket[1..]) == Stream(seen, socket)
  {
    Regrouped(seen, DataOf(socket[0]), DataOfAll(socket[1..]));
  }

  lemma Regrouped(a: seq<byte>, b: seq<byte>, c: seq<byte>)
    ensures a + b + c == a + (b + c)
  {}

  /** From `socket` some reads were made, the last of them `last`; `rest` is to come. */
  ghost predicate Took(socket: seq<Read>, rest: seq<Read>, last: Option<Read>) {
    && |rest| <= |socket| && rest == socket[|socket| - |rest|..]
    && last == if |rest| == |socket| then None else Some(socket[|socket| - |rest| - 1])
  }

  lemma TookOne(socket: seq<Read>, rest: seq<Read>, last: Option<Read>)
    requires Took(socket, rest, last) && rest != []
    ensures Took(socket, rest[1..], Some(rest[0]))
  {}

  /** What a response comes to: all its output, or nothing that can be relied on. */
  datatype Answer = Whole(text: seq<byte>) | Lost

  /** What the bytes read so far and the reads to come amount to. The end of the stream ends a response like
      END_REQUEST does; a failed or missing read and a broken or refused request lose it. */
  function Outcome(seen: seq<byte>, socket: seq<Read>): Answer
    decreases |socket|
  {
    match Drain(seen).end
    case Ended(_) => Whole(Drain(seen).out)
    case Broken => Lost
    case Starved(_) =>
      if socket == [] then Lost
      else match socket[0]
        case Bytes(data) => Outcome(seen + data, socket[1..])
        case Closed => Whole(Drain(seen).out)
        case Failed(_) => Lost
  }

  /** One more read, while the request has not ended. */
  lemma OutcomeStays(before: seq<byte>, socket: seq<Read>, seen: seq<byte>, goal: Answer)
    requires Drain(before).end.Starved? && socket != [] && seen == before + DataOf(socket[0]) && goal == Outcome(before, socket)
    ensures socket[0].Bytes? ==> goal == Outcome(seen, socket[1..])
    ensures socket[0] == Closed ==> goal == Whole(Drain(seen).out)
    ensures socket[0].Failed? ==> goal == Lost
    ensures !socket[0].Bytes? ==> seen == before
  {
    if !socket[0].Bytes? { assert before + [] == before; }
  }

  /** Whether collecting ends in streaming, and with what head and front of the body: `found` is the end of the head,
      once one was found. */
  function StreamsAt(seen: seq<byte>, socket: seq<Read>, found: Option<nat>, buffering: bool, budget: nat): Option<(seq<byte>, seq<byte>)>
    decreases |socket|
  {
    if socket == [] || !socket[0].Bytes? then None
    else
      var d := Drain(seen + socket[0].data);
      if !d.end.Starved? then None
      else
        var headEnd := if found.Some? then found else HeaderEnd(d.out, 0);
        if headEnd.None? then
          if |d.out| > MAX_HEADERS then None else StreamsAt(seen + socket[0].data, socket[1..], None, buffering, budget)
        else if headEnd.value > |d.out| then None
        else if !buffering || |d.out| - headEnd.value > budget then Some((d.out[..headEnd.value], d.out[headEnd.value..]))
        else if |d.out| > MAX_RESPONSE then None
        else StreamsAt(seen + socket[0].data, socket[1..], headEnd, buffering, budget)
  }

  /** What was found to be streamed. */
  function Streamed(c: Collected): Option<(seq<byte>, seq<byte>)> { if c.Streaming? then Some((c.head, c.pre)) else None }

  /** Why a body is over: it was already, END_REQUEST has come, or the socket was just closed. */
  ghost predicate OverBecause(already: bool, seen: seq<byte>, last: Option<Read>) {
    already || Drain(seen).end.Ended? || last == Some(Closed)
  }

  /** Nothing is lost or repeated: what was decoded is the front of what the bytes read give, and the
      rest of it is what the unparsed bytes give. */
  ghost predicate Kept(unparsed: seq<byte>, decoded: seq<byte>, done: bool, seen: seq<byte>) {
    if done then Drain(seen).out == decoded && Drain(seen).end != Broken
    else Drain(seen) == After(decoded, Drain(unparsed))
  }

  lemma DrainKeeps(unparsed: seq<byte>, left: seq<byte>, decoded: seq<byte>, seen: seq<byte>, d: Drained)
    requires Kept(unparsed, decoded, false, seen) && d == Drain(unparsed) && (d.end.Starved? ==> left == d.end.left)
    ensures (d.end == Broken) == (Drain(seen).end == Broken)
    ensures d.end != Broken ==> Kept(left, decoded + d.out, d.end.Ended?, seen)
    ensures d.end.Starved? ==> Drain(left) == Drained([], Starved(left))
  {
    LeftOver(unparsed);
    if d.end.Starved? { assert decoded + d.out + [] == decoded + d.out; }
  }

  /** The end of the stream leaves what was decoded. */
  lemma CloseKeeps(left: seq<byte>, decoded: seq<byte>, seen: seq<byte>)
    requires Kept(left, decoded, false, seen) && Drain(left) == Drained([], Starved(left))
    ensures Kept(left, decoded, true, seen) && Drain(seen).end == Starved(left)
  {
    assert decoded + [] == decoded;
  }

  lemma ReadKeeps(left: seq<byte>, decoded: seq<byte>, seen: seq<byte>, data: seq<byte>)
    requires Kept(left, decoded, false, seen) && Drain(left) == Drained([], Starved(left))
    ensures Kept(left + data, decoded, false, seen + data)
  {
    DrainSplit(seen, data);
    assert decoded + [] == decoded;
  }

  /** The reads come to `goal`, as far as they have been made. */
  ghost predicate Goes(goal: Answer, rest: seq<Read>, done: bool, seen: seq<byte>) {
    goal == if done then Whole(Drain(seen).out) else Outcome(seen, rest)
  }

  /** How a client's read stands: `already` and `first` are what held before it. */
  ghost predicate Polling(already: bool, first: seq<byte>, socket: seq<Read>, rest: seq<Read>, last: Option<Read>,
                          done: bool, seen: seq<byte>)
  {
    && Took(socket, rest, last) && first <= seen && Stream(seen, rest) == Stream(first, socket)
    && (done ==> OverBecause(already, seen, last))
    && if already then done && seen == first && rest == socket else Goes(Outcome(first, socket), rest, done, seen)
  }

  class Body {
    var raw: seq<byte>
    var consumed: nat
    var out: seq<byte>
    var outAt: nat
    var appStatus: nat
    var done: bool
    /** All bytes read, and all payload handed to a caller. */
    ghost var seen: seq<byte>
    ghost var taken: seq<byte>

    /** What has been handed out and what waits in `out`, in order. */
    ghost function Decoded(): seq<byte>
      requires outAt <= |out|
      reads this
    {
      taken + out[outAt..]
    }

    ghost predicate Valid()
      reads this
    {
      consumed <= |raw| && outAt <= |out| && Kept(raw[consumed..], Decoded(), done, seen)
    }

    constructor ()
      ensures Valid() && seen == [] && taken == [] && !done && out == [] && outAt == 0 && Idle()
    {
      raw, consumed, out, outAt, appStatus, done, seen, taken := [], 0, [], 0, 0, false, [], [];
      new;
      AfterNothing(Drain([]));
    }

    /** Parses what is buffered and appends the payload to `sink`; fails on what cannot be followed. */
    method DrainRecords(sink: seq<byte>) returns (ok: bool, sink': seq<byte>)
      requires consumed <= |raw|
      modifies this`consumed, this`done, this`appStatus
      ensures old(consumed) <= consumed <= |raw|
      ensures var d := Drain(raw[old(consumed)..]);
              && ok == (d.end != Broken)
              && (ok ==> sink' == sink + d.out && done == (old(done) || d.end.Ended?))
              && (ok && d.end.Starved? ==> raw[consumed..] == d.end.left)
              && (ok && d.end.Ended? && d.end.status.Some? ==> appStatus == d.end.status.value)
    {
      ghost var d;
      var ended, status;
      ok, consumed, sink', ended, status, d := DrainFrom(raw, consumed, sink);
      if ended { done := true; }
      if status.Some? { appStatus := status.value; }
    }

    method Compact()
      requires consumed <= |raw|
      modifies this`raw, this`consumed
      ensures consumed == 0 && raw == old(raw[consumed..])
    {
      if consumed > 0 {
        raw := raw[consumed..];
        consumed := 0;
      }
    }
  
    /** No whole record is waiting. */
    ghost predicate Idle()
      requires consumed <= |raw|
      reads this
    {
      Drain(raw[consumed..]) == Drained([], Starved(raw[consumed..]))
    }

    /** The application's status is that of END_REQUEST, if that came with one. */
    ghost predicate StatusIs()
      reads this
    {
      var end := Drain(seen).end;
      end.Ended? && end.status.Some? ==> appStatus == end.status.value
    }

    /** Drains into a caller's buffer while nothing waits in `out`. */
    method DrainTo(sink: seq<byte>) returns (ok: bool, sink': seq<byte>)
      requires Valid() && !done && outAt == |out|
      modifies this`consumed, this`done, this`appStatus, this`taken
      ensures ok == (Drain(seen).end != Broken)
      ensures ok ==> Valid() && sink <= sink' && taken == old(taken) + sink'[|sink|..]
      ensures ok && !done ==> Drain(raw[consumed..]) == Drained([], Starved(raw[consumed..]))
      ensures ok ==> done == Drain(seen).end.Ended? && StatusIs()
    {
      ghost var unparsed := raw[consumed..];
      ghost var d := Drain(unparsed);
      ok, sink' := DrainRecords(sink);
      assert taken + out[outAt..] == taken;
      DrainKeeps(unparsed, raw[consumed..], taken, seen, d);
      if ok {
        assert sink'[|sink|..] == d.out;
        taken := taken + d.out;
        assert taken + out[outAt..] == taken;
      }
    }

    /** One read and a parse, for collecting the head. */
    method PumpOnce(read: Read, sink: seq<byte>) returns (r: Pump, sink': seq<byte>)
      requires Valid() && !done && outAt == |out| && Idle()
      modifies this
      ensures seen == old(seen) + DataOf(read)
      ensures !r.Fails? ==> Valid() && outAt == |out| && sink <= sink' && taken == old(taken) + sink'[|sink|..]
      ensures match r
              case Fails(status) => read == Failed(status) || (status == 502 && Drain(seen).end == Broken)
              case Over => done && StatusIs() && (read == Closed || Drain(seen).end.Ended?)
              case More => !done && Idle() && read.Bytes?
    {
      var ok;
      ok, sink' := DrainTo(sink);
      assert ok && !done;
      Compact();
      assert raw[consumed..] == raw;
      match read {
        case Closed =>
          assert seen + [] == seen;
          CloseKeeps(raw, Decoded(), seen);
          done := true;
          return Over, sink';
        case Failed(status) =>
          assert seen + [] == seen;
          return Fails(status), sink';
        case Bytes(data) =>
          ghost var before := sink';
          ok, sink' := ReadMore(data, sink');
          PiecesJoin(old(taken), sink, before, sink');
          if !ok { return Fails(502), sink'; }
          return if done then Over else More, sink';
      }
    }

    method ReadMore(data: seq<byte>, sink: seq<byte>) returns (ok: bool, sink': seq<byte>)
      requires Valid() && !done && outAt == |out| && consumed == 0 && Drain(raw) == Drained([], Starved(raw))
      modifies this
      ensures seen == old(seen) + data && ok == (Drain(seen).end != Broken)
      ensures ok ==> Valid() && outAt == |out| && sink <= sink' && taken == old(taken) + sink'[|sink|..]
      ensures ok ==> done == Drain(seen).end.Ended? && StatusIs() && (!done ==> Idle())
    {
      Received(data);
      ok, sink' := DrainTo(sink);
    }

    /** Appends what was read to the unparsed bytes. */
    method Received(data: seq<byte>)
      requires Valid() && !done && consumed == 0 && Drain(raw) == Drained([], Starved(raw))
      modifies this`raw, this`seen
      ensures Valid() && seen == old(seen) + data && raw == old(raw) + data
    {
      assert raw[0..] == raw;
      ReadKeeps(raw, Decoded(), seen, data);
      raw := raw + data;
      seen := seen + data;
      assert raw[0..] == raw;
    }

    /** What a response that came to an end with the read `last` may turn out to be. */
    ghost predicate Explains(c: Collected, last: Read, buffering: bool, budget: nat)
      reads this
    {
      match c
      case Complete(stdout, status) =>
        && done && stdout == Drain(seen).out && Drain(seen).end != Broken && status == appStatus && StatusIs()
        && (last == Closed || Drain(seen).end.Ended?)
      case Streaming(head, pre) =>
        && Valid() && !done && outAt == |out| && taken == head + pre
        && (!buffering || |pre| > budget) && EndsHead(head, taken)
      case Refused(status) =>
        || last == Failed(status)
        || (status == 502 && (Drain(seen).end == Broken || (|taken| > MAX_HEADERS && taken <= Drain(seen).out)))
    }

    /** The body collected so far is `stdout`, and its head ends at `headEnd`, if that is known. */
    ghost predicate Collecting(stdout: seq<byte>, headEnd: Option<nat>)
      reads this
    {
      && Valid() && !done && outAt == |out| && taken == stdout && Idle()
      && (headEnd.Some? ==> headEnd.value <= |stdout| && EndsHead(stdout[..headEnd.value], stdout))
    }

    /** One turn of collecting. */
    method CollectOne(read: Read, before: seq<byte>, found: Option<nat>, buffering: bool, budget: nat, ghost socket: seq<Read>)
      returns (c: Option<Collected>, stdout: seq<byte>, headEnd: Option<nat>)
      requires Collecting(before, found) && socket != [] && socket[0] == read
      modifies this
      ensures seen == old(seen) + DataOf(read)
      ensures if c.Some? then Explains(c.value, read, buffering, budget) else Collecting(stdout, headEnd)
      ensures c.None? || c.value.Streaming? ==> read.Bytes?
      ensures StreamsAt(old(seen), socket, found, buffering, budget) ==
              if c.None? then StreamsAt(seen, socket[1..], headEnd, buffering, budget) else Streamed(c.value)
    {
      var r;
      r, stdout := PumpOnce(read, before);
      headEnd := found;
      if r.Fails? { return Some(Refused(r.status)), stdout, headEnd; }
      assert before + stdout[|before|..] == stdout;
      assert taken + out[outAt..] == taken;
      if r.Over? { return Some(Complete(stdout, appStatus)), stdout, headEnd; }
      headEnd := FindHead(found, before, stdout);
      c := Decide(stdout, headEnd, buffering, budget, read);
      IdleGave(stdout);
    }

    /** Between two reads, all that the bytes read give has been collected. */
    lemma IdleGave(stdout: seq<byte>)
      requires Valid() && !done && outAt == |out| && taken == stdout && Idle()
      ensures Drain(seen).out == stdout && Drain(seen).end.Starved?
    {
      assert taken + out[outAt..] == taken && taken + [] == taken;
    }

    /** Whether what is collected is to be streamed, or is too much. */
    method Decide(stdout: seq<byte>, headEnd: Option<nat>, buffering: bool, budget: nat, ghost read: Read) returns (c: Option<Collected>)
      requires Collecting(stdout, headEnd)
      ensures c.Some? ==> Explains(c.value, read, buffering, budget)
      ensures if headEnd.None? then c == if |stdout| > MAX_HEADERS then Some(Refused(502)) else None
              else if !buffering || |stdout| - headEnd.value > budget then c == Some(Streaming(stdout[..headEnd.value], stdout[headEnd.value..]))
              else c == if |stdout| > MAX_RESPONSE then Some(Refused(502)) else None
    {
      if headEnd.None? { return if |stdout| > MAX_HEADERS then Some(Refused(502)) else None; }
      var at := headEnd.value;
      if !buffering || |stdout| - at > budget {
        assert stdout[..at] + stdout[at..] == stdout;
        return Some(Streaming(stdout[..at], stdout[at..]));
      }
      return if |stdout| > MAX_RESPONSE then Some(Refused(502)) else None;
    }

    /** While no whole record is waiting the request has not ended. */
    lemma IdleIsStarved()
      requires Valid() && !done && Idle()
      ensures Drain(seen).end.Starved?
    {}

    /** What collecting settled, where the reads come to `goal`. */
    ghost predicate Settles(c: Collected, goal: Answer, rest: seq<Read>)
      reads this
    {
      match c
      case Complete(stdout, _) => goal == Whole(stdout)
      case Streaming(_, _) => goal == Outcome(seen, rest)
      case Refused(_) => goal == Lost || (|taken| > MAX_HEADERS && taken <= Drain(seen).out)
    }

    /** Collects until the response is whole, or until its head is and the body is too long to hold. After the
        reads in `socket` the next one times out. */
    method Collect(socket: seq<Read>, buffering: bool, budget: nat) returns (c: Collected, rest: seq<Read>, ghost last: Option<Read>)
      requires Valid() && !done && outAt == |out| && taken == [] && Idle()
      modifies this
      ensures Took(socket, rest, last) && Stream(seen, rest) == Stream(old(seen), socket)
      ensures if last.Some? && Explains(c, last.value, buffering, budget) then true
              else c == Refused(504) && rest == [] && Drain(seen).end.Starved?
      ensures Settles(c, Outcome(old(seen), socket), rest)
      ensures Streamed(c) == StreamsAt(old(seen), socket, None, buffering, budget)
    {
      ghost var goal := Outcome(seen, socket);
      ghost var found := StreamsAt(seen, socket, None, buffering, budget);
      var stdout: seq<byte> := [];
      var headEnd: Option<nat> := None;
      rest, last := socket, None;
      while rest != []
        invariant Took(socket, rest, last) && Stream(seen, rest) == Stream(old(seen), socket) && Collecting(stdout, headEnd)
        invariant goal == Outcome(seen, rest) && found == StreamsAt(seen, rest, headEnd, buffering, budget)
        decreases |rest|
      {
        ghost var before := seen;
        IdleIsStarved();
        TookOne(socket, rest, last);
        StreamStays(seen, rest);
        var ended;
        ended, stdout, headEnd := CollectOne(rest[0], stdout, headEnd, buffering, budget, rest);
        OutcomeStays(before, rest, seen, goal);
        rest, last := rest[1..], Some(rest[0]);
        if ended.Some? {
          SettledBy(ended.value, last.value, buffering, budget, goal, rest, before);
          return ended.value, rest, last;
        }
      }
      IdleIsStarved();
      return Refused(504), rest, last;
    }

    lemma SettledBy(c: Collected, last: Read, buffering: bool, budget: nat, goal: Answer, rest: seq<Read>, before: seq<byte>)
      requires Explains(c, last, buffering, budget) && Drain(before).end.Starved?
      requires if last.Bytes? then goal == Outcome(seen, rest)
               else seen == before && goal == (if last == Closed then Whole(Drain(seen).out) else Lost) && !c.Streaming?
      ensures Settles(c, goal, rest)
    {}

    /** A body that is over and has nothing waiting has given everything. */
    lemma DoneGives()
      requires Valid() && done && outAt == |out|
      ensures taken == Drain(seen).out && Drain(seen).end != Broken && taken + [] == taken
    {}

    /** What one read by the client comes to; `already`, `first` and `before` are what held before it. */
    ghost predicate Polled(p: Poll, room: nat, already: bool, first: seq<byte>, before: seq<byte>, socket: seq<Read>,
                           rest: seq<Read>, last: Option<Read>)
      reads this
    {
      && (done && !p.Breaks? ==> OverBecause(already, seen, last))
      && (match p
          case Gives(data) =>
            && Valid() && taken == before + data && |data| <= room
            && (data == [] && room > 0 ==> done && taken == Drain(seen).out && Drain(seen).end != Broken)
          case Pending => Valid() && !done && taken == before == Drain(seen).out && Drain(seen).end.Starved? && rest == []
          case Breaks => Drain(seen).end == Broken || (last.Some? && last.value.Failed?))
      && if already then done && seen == first && p.Gives? && rest == socket
         else if p.Gives? then Goes(Outcome(first, socket), rest, done, seen) else Outcome(first, socket) == Lost
    }

    /** One read by the client, with `room` in its buffer, while the socket has `socket` to give and is
        then pending. */
    method PollRead(room: nat, socket: seq<Read>) returns (p: Poll, rest: seq<Read>, ghost last: Option<Read>)
      requires Valid()
      modifies this
      ensures Took(socket, rest, last) && old(seen) <= seen && Stream(seen, rest) == Stream(old(seen), socket)
      ensures Polled(p, room, old(done), old(seen), old(taken), socket, rest, last)
    {
      rest, last := socket, None;
      while true
        invariant Looping(old(done), old(seen), old(taken), socket, rest, last)
        decreases |rest|, outAt == |out| && !done
      {
        var end;
        end, rest, last := PollTurn(room, old(done), old(seen), old(taken), socket, rest, last);
        if end.Some? { return end.value, rest, last; }
      }
    }

    /** Nothing has been handed out yet. */
    ghost predicate Looping(already: bool, first: seq<byte>, before: seq<byte>, socket: seq<Read>, rest: seq<Read>, last: Option<Read>)
      reads this
    {
      Valid() && taken == before && Polling(already, first, socket, rest, last, done, seen)
    }

    /** One turn of the loop: it hands over what is decoded, or ends, or moves on. */
    method PollTurn(room: nat, ghost already: bool, ghost first: seq<byte>, ghost before: seq<byte>, ghost socket: seq<Read>,
                    rest: seq<Read>, ghost last: Option<Read>)
      returns (end: Option<Poll>, rest': seq<Read>, ghost last': Option<Read>)
      requires Looping(already, first, before, socket, rest, last)
      modifies this
      ensures if end.Some? then
                && Took(socket, rest', last') && first <= seen && Stream(seen, rest') == Stream(first, socket)
                && Polled(end.value, room, already, first, before, socket, rest', last')
              else
                && Looping(already, first, before, socket, rest', last')
                && |rest'| <= |rest| && (|rest'| < |rest| || (old(outAt == |out| && !done) && (outAt < |out| || done)))
    {
      rest', last' := rest, last;
      if outAt < |out| {
        var data := HandOver(room);
        return Some(Gives(data)), rest', last';
      }
      if done {
        DoneGives();
        return Some(Gives([])), rest', last';
      }
      var turn;
      turn, rest', last' := Advance(already, first, socket, rest, last);
      end := if turn == Stalls then Some(Pending) else if turn == Stops then Some(Breaks) else None;
    }

    /** Parses what is buffered and, if that gives nothing, reads once more. */
    method Advance(ghost already: bool, ghost first: seq<byte>, ghost socket: seq<Read>, rest: seq<Read>, ghost last: Option<Read>)
      returns (turn: Turning, rest': seq<Read>, ghost last': Option<Read>)
      requires Valid() && !done && outAt == |out| && Polling(already, first, socket, rest, last, done, seen)
      modifies this
      ensures taken == old(taken)
      ensures match turn
              case Moves => Valid() && Polling(already, first, socket, rest', last', done, seen) && (|rest'| < |rest| || outAt < |out| || done) && |rest'| <= |rest|
              case Stalls =>
                && Valid() && !done && Polling(already, first, socket, rest', last', done, seen) && rest' == []
                && taken == Drain(seen).out && Drain(seen).end.Starved? && Outcome(first, socket) == Lost
              case Stops =>
                && Took(socket, rest', last') && first <= seen && Stream(seen, rest') == Stream(first, socket)
                && (Drain(seen).end == Broken || (last'.Some? && last'.value.Failed?)) && Outcome(first, socket) == Lost
    {
      rest', last' := rest, last;
      var ok := Refill();
      if !ok { return Stops, rest', last'; }
      if outAt < |out| || done { return Moves, rest', last'; }
      assert taken + out[outAt..] == taken && raw[consumed..] == raw;
      IdleIsStarved();
      if rest == [] { return Stalls, rest', last'; }
      turn := ReadNext(already, first, socket, rest, last);
      rest', last' := rest[1..], Some(rest[0]);
    }

    /** One read of the socket, when nothing whole is buffered. */
    method ReadNext(ghost already: bool, ghost first: seq<byte>, ghost socket: seq<Read>, rest: seq<Read>, ghost last: Option<Read>)
      returns (turn: Turning)
      requires Valid() && !done && outAt == |out| && Polling(already, first, socket, rest, last, done, seen) && rest != []
      requires consumed == 0 && Drain(raw) == Drained([], Starved(raw)) && Drain(seen).end.Starved?
      modifies this`raw, this`seen, this`done
      ensures turn == if rest[0].Failed? then Stops else Moves
      ensures Took(socket, rest[1..], Some(rest[0])) && first <= seen && Stream(seen, rest[1..]) == Stream(first, socket)
      ensures if turn == Moves then Valid() && Polling(already, first, socket, rest[1..], Some(rest[0]), done, seen) else Outcome(first, socket) == Lost
    {
      ghost var before := seen;
      TookOne(socket, rest, last);
      StreamStays(seen, rest);
      var ok := ReadOnce(rest[0]);
      OutcomeStays(before, rest, seen, Outcome(first, socket));
      turn := if ok then Moves else Stops;
    }

    /** Takes what one read of the socket gives. */
    method ReadOnce(read: Read) returns (ok: bool)
      requires Valid() && !done && consumed == 0 && Drain(raw) == Drained([], Starved(raw))
      modifies this`raw, this`seen, this`done
      ensures seen == old(seen) + DataOf(read) && ok == !read.Failed? && (ok ==> Valid() && done == (read == Closed))
    {
      assert raw[consumed..] == raw && seen + [] == seen;
      match read {
        case Bytes(data) => Received(data);
        case Closed =>
          CloseKeeps(raw, Decoded(), seen);
          done := true;
        case Failed(_) =>
      }
      ok := !read.Failed?;
    }

    /** Hands over what was already decoded. */
    method HandOver(room: nat) returns (data: seq<byte>)
      requires Valid() && outAt < |out|
      modifies this`out, this`outAt, this`taken
      ensures Valid() && taken == old(taken) + data && |data| <= room && (room > 0 ==> data != [])
    {
      var n := if |out| - outAt < room then |out| - outAt else room;
      data := out[outAt..outAt + n];
      ghost var decoded := Decoded();
      assert taken + data + out[outAt + n..] == decoded;
      taken := taken + data;
      outAt := outAt + n;
      if outAt == |out| {
        assert out[outAt..] == [];
        out := [];
        outAt := 0;
      }
      assert Decoded() == decoded;
    }

    /** Parses what is buffered into `out`. */
    method Refill() returns (ok: bool)
      requires Valid() && !done && outAt == |out|
      modifies this
      ensures taken == old(taken) && seen == old(seen)
      ensures ok ==> Valid() && outAt == 0 && consumed == 0
      ensures ok && !done && out == [] ==> Drain(raw) == Drained([], Starved(raw))
      ensures if ok then done == Drain(seen).end.Ended? else Drain(seen).end == Broken
    {
      ghost var unparsed := raw[consumed..];
      ghost var d := Drain(unparsed);
      ghost var decoded := Decoded();
      assert decoded == taken;
      var sink;
      ok, sink := DrainRecords([]);
      DrainKeeps(unparsed, raw[consumed..], taken, seen, d);
      if !ok { return; }
      assert [] + d.out == d.out;
      out, outAt := sink, 0;
      Compact();
      assert out[0..] == out && raw[0..] == raw;
    }
  }

  lemma PiecesJoin(taken: seq<byte>, a: seq<byte>, b: seq<byte>, c: seq<byte>)
    ensures a <= b <= c ==> a <= c && taken + b[|a|..] + c[|b|..] == taken + c[|a|..]
  {
    if a <= b <= c { assert c[|a|..] == b[|a|..] + c[|b|..]; }
  }

  /** What is left when records run out does not begin with a record. */
  lemma {:induction false} LeftOver(raw: seq<byte>)
    ensures Drain(raw).end.Starved? ==> Drain(Drain(raw).end.left) == Drained([], Starved(Drain(raw).end.left))
    decreases |raw|
  {
    var p := Parse(raw);
    if p.Got? && p.r.ty != END_REQUEST { LeftOver(raw[p.total..]); }
  }
}
