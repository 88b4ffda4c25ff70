/** A whole FastCGI response, from the first read of the socket to the last byte for the client. */
module FcgiSession {
  import opened Wrappers
  import opened Bits
  import opened FcgiProto
  import opened FcgiBody

  // ---- What a well-formed response comes to ----

  ghost predicate AllBytes(socket: seq<Read>) { forall read | read in socket :: read.Bytes? }

  /** A stream whose request ends comes to what it gives, however it is split into reads. */
  lemma {:induction false} EndedOutcome(seen: seq<byte>, socket: seq<Read>, stream: seq<byte>)
    requires AllBytes(socket) && stream == Stream(seen, socket) && Drain(stream).end.Ended?
    ensures Outcome(seen, socket) == Whole(Drain(stream).out)
    decreases |socket|
  {
    FrontGives(stream, seen, Drain(seen));
    if socket == [] {
      assert seen == stream;
    } else {
      StreamStays(seen, socket);
      EndedOutcome(seen + DataOf(socket[0]), socket[1..], stream);
    }
  }

  /** Records of any kind and then END_REQUEST, however they are padded and split into reads, come to the STDOUT
      bodies before END_REQUEST, joined; or are lost exactly where it says that the request was not taken. */
  lemma ResponseBrings(socket: seq<Read>, rs: seq<Sent>, end: Sent, trailing: seq<byte>)
    requires AllSendable(rs) && Sendable(end) && end.r.ty == 3 && AllBytes(socket)
    requires Stream([], socket) == Wire(rs) + (SentBytes(end) + trailing)
    ensures Outcome([], socket) == if |end.r.body| >= 8 && end.r.body[4] != 0 then Lost else Whole(StdoutOf(rs))
  {
    ResponseGives(rs, end, trailing);
    if |end.r.body| >= 8 && end.r.body[4] != 0 {
      BrokenOutcome([], socket, Stream([], socket));
    } else {
      EndedOutcome([], socket, Stream([], socket));
    }
  }

  /** A stream that breaks is lost. */
  lemma {:induction false} BrokenOutcome(seen: seq<byte>, socket: seq<Read>, stream: seq<byte>)
    requires AllBytes(socket) && stream == Stream(seen, socket) && Drain(stream).end == Broken
    ensures Outcome(seen, socket) == Lost
    decreases |socket|
  {
    DrainSplit(seen, stream[|seen|..]);
    assert seen + stream[|seen|..] == stream;
    if socket != [] {
      StreamStays(seen, socket);
      BrokenOutcome(seen + DataOf(socket[0]), socket[1..], stream);
    }
  }

  // ---- The session ----

  /** An answer, or an error status before any of it. */
  datatype SessionEnd = Answered(a: Answer) | Denied(status: nat)

  /** What has come out of a part of a stream is no longer than what comes out of all of it. */
  lemma NoLonger(stream: seq<byte>, seen: seq<byte>)
    requires seen <= stream
    ensures |Drain(seen).out| <= |Drain(stream).out|
  {
    DrainSplit(seen, stream[|seen|..]);
    assert seen + stream[|seen|..] == stream;
  }

  /** What is handed out is a front of what the bytes give. */
  lemma HandedFront(body: Body, stream: seq<byte>)
    requires body.Valid() && body.seen <= stream
    ensures |body.taken| <= |Drain(stream).out|
  {
    NoLonger(stream, body.seen);
  }

  /** Collecting the head and then reading the body to its end, `room(k)` bytes at the k-th read. However the
      reads split and end the stream, the client gets exactly what they come to; it gets an error status only
      where that is lost, or is too much to be a header block. */
  method Session(socket: seq<Read>, buffering: bool, budget: nat, room: nat -> nat) returns (e: SessionEnd)
    requires forall k: nat :: room(k) > 0
    ensures match e
            case Answered(a) => a == Outcome([], socket)
            case Denied(_) => Outcome([], socket) == Lost || |Drain(Stream([], socket)).out| > MAX_HEADERS
  {
    var body := new Body();
    var c, rest, last := body.Collect(socket, buffering, budget);
    match c {
      case Complete(stdout, _) => e := Answered(Whole(stdout));
      case Refused(status) =>
        NoLonger(Stream([], socket), body.seen);
        e := Denied(status);
      case Streaming(head, pre) =>
        var a := ReadOut(body, head + pre, rest, room);
        e := Answered(a);
    }
  }

  /** Between two reads of the body: `got` has been handed out of what comes to `goal`. */
  ghost predicate Reading(body: Body, got: seq<byte>, goal: Answer, rest: seq<Read>, stream: seq<byte>)
    reads body
  {
    && body.Valid() && body.taken == got && |got| <= |Drain(stream).out|
    && Stream(body.seen, rest) == stream && Goes(goal, rest, body.done, body.seen)
  }

  /** Reading the body to its end, after `text0` of it. */
  method ReadOut(body: Body, text0: seq<byte>, socket: seq<Read>, room: nat -> nat) returns (a: Answer)
    requires body.Valid() && !body.done && body.taken == text0 && forall k: nat :: room(k) > 0
    modifies body
    ensures a == Outcome(old(body.seen), socket)
  {
    var got, rest, k: nat := text0, socket, 0;
    ghost var goal := Outcome(body.seen, socket);
    ghost var stream := Stream(body.seen, socket);
    HandedFront(body, stream);
    while true
      invariant Reading(body, got, goal, rest, stream)
      decreases |Drain(stream).out| - |got|
    {
      var p;
      p, rest := ReadSome(body, room(k), rest, got, goal, stream);
      if !p.Gives? { return Lost; }
      if p.data == [] { return Whole(got); }
      got := got + p.data;
      k := k + 1;
    }
  }

  /** One read of the body: something more of it, or all of it has been read, or it is lost. */
  method ReadSome(body: Body, room: nat, socket: seq<Read>, ghost got: seq<byte>, ghost goal: Answer, ghost stream: seq<byte>)
    returns (p: Poll, rest: seq<Read>)
    requires room > 0 && Reading(body, got, goal, socket, stream)
    modifies body
    ensures if !p.Gives? then goal == Lost
            else Reading(body, got + p.data, goal, rest, stream) && (p.data == [] ==> goal == Whole(got))
  {
    ghost var last;
    p, rest, last := body.PollRead(room, socket);
    if p.Gives? {
      HandedFront(body, stream);
      assert got + [] == got;
    }
  }
}
