/** Where the head of a streamed FastCGI response is taken to end, and when that is right. */
module FcgiHead {
  import opened Wrappers
  import opened Bits
  import opened FcgiProto
  import opened FcgiBody
  import opened FcgiSession

  // ---- The head of a front ----

  lemma {:induction false} HeadIsPast(b: seq<byte>, i: nat)
    requires i <= |b|
    ensures HeaderEnd(b, i).Some? ==> HeaderEnd(b, i).value > i
    decreases |b| - i
  {
    if i < |b| { HeadIsPast(b, i + 1); }
  }

  /** In a front of an output whose head ends at `h`, the head is found where it is, if that much is there; and before
      that, wherever the front ends in a newline. */
  lemma {:induction false} FrontHead(whole: seq<byte>, front: seq<byte>, i: nat, h: nat)
    requires front <= whole && i <= |front| && HeaderEnd(whole, i) == Some(h)
    ensures HeaderEnd(front, i) == if |front| >= h then Some(h)
                                   else if |front| > i && front[|front| - 1] == 0x0A then Some(|front|) else None
    decreases |front| - i
  {
    HeadIsPast(whole, i);
    if i < |front| {
      assert forall k | 0 <= k < |front| :: front[k] == whole[k];
      if HeaderEnd(whole, i) == HeaderEnd(whole, i + 1) {
        HeadIsPast(whole, i + 1);
        FrontHead(whole, front, i + 1, h);
      } else if i + 2 == |front| {
        assert HeaderEnd(front, i + 2) == None;
      }
    }
  }

  // ---- The head of a stream ----

  /** What has come out of a front of a stream is a front of what comes out of all of it. */
  lemma FrontOut(stream: seq<byte>, seen: seq<byte>)
    requires seen <= stream
    ensures Drain(seen).out <= Drain(stream).out
  {
    DrainSplit(seen, stream[|seen|..]);
    assert seen + stream[|seen|..] == stream;
  }

  /** Some read leaves the output behind a newline that comes before `h`. */
  ghost predicate Cut(seen: seq<byte>, socket: seq<Read>, h: nat)
    decreases |socket|
  {
    socket != [] && (CutNow(Drain(seen + DataOf(socket[0])).out, h) || Cut(seen + DataOf(socket[0]), socket[1..], h))
  }

  predicate CutNow(out: seq<byte>, h: nat) { 0 < |out| < h && out[|out| - 1] == 0x0A }

  lemma {:induction false} PastIsNotCut(seen: seq<byte>, socket: seq<Read>, h: nat)
    requires |Drain(seen).out| >= h
    ensures !Cut(seen, socket, h)
    decreases |socket|
  {
    if socket != [] {
      FrontOut(seen + DataOf(socket[0]), seen);
      PastIsNotCut(seen + DataOf(socket[0]), socket[1..], h);
    }
  }

  /** What may be streamed: a front of `whole`, in two. */
  type Parts = Option<(seq<byte>, seq<byte>)>

  /** One read: nothing is streamed, or what it left is, or the next read decides. */
  lemma OneRead(seen: seq<byte>, socket: seq<Read>, found: Option<nat>, buffering: bool, budget: nat, now: seq<byte>, headEnd: Option<nat>, later: Parts)
    requires socket != [] && socket[0].Bytes? && now == seen + socket[0].data
    requires headEnd == if found.Some? then found else HeaderEnd(Drain(now).out, 0)
    requires later == StreamsAt(now, socket[1..], headEnd, buffering, budget)
    ensures var r := StreamsAt(seen, socket, found, buffering, budget);
            || r == None || r == later
            || (headEnd.Some? && headEnd.value <= |Drain(now).out| && r == Some((Drain(now).out[..headEnd.value], Drain(now).out[headEnd.value..])))
  {}

  /** The streamed parts are a front of `whole`, and the first of them is `head`. */
  ghost predicate Fronts(r: Parts, whole: seq<byte>, head: seq<byte>) {
    r.Some? ==> r.value.0 == head && r.value.0 + r.value.1 <= whole
  }

  /** An end once found is kept to, and what is streamed is a front of the output. */
  lemma {:induction false} FoundKeeps(seen: seq<byte>, socket: seq<Read>, stream: seq<byte>, found: nat, buffering: bool, budget: nat)
    requires AllBytes(socket) && stream == Stream(seen, socket) && found <= |Drain(seen).out|
    ensures Fronts(StreamsAt(seen, socket, Some(found), buffering, budget), Drain(stream).out, Drain(seen).out[..found])
    decreases |socket|
  {
    if socket != [] {
      var now := seen + socket[0].data;
      StreamStays(seen, socket);
      FrontOut(stream, now);
      FrontOut(now, seen);
      FoundKeeps(now, socket[1..], stream, found, buffering, budget);
      OneRead(seen, socket, Some(found), buffering, budget, now, Some(found), StreamsAt(now, socket[1..], Some(found), buffering, budget));
      Halves(Drain(now).out, found);
    }
  }

  lemma Halves(s: seq<byte>, k: nat)
    ensures k <= |s| ==> s[..k] + s[k..] == s
  {}

  /** The streamed head against the whole output's, which ends at `h`. */
  ghost predicate Right(r: Parts, whole: seq<byte>, h: nat, cut: bool) {
    r.Some? ==>
      && r.value.0 + r.value.1 <= whole
      && (|r.value.0| == h <==> !cut)
      && (|r.value.0| != h ==> CutNow(r.value.0, h))
  }

  /** The end is found now. */
  lemma FoundNow(seen: seq<byte>, socket: seq<Read>, stream: seq<byte>, h: nat, buffering: bool, budget: nat, now: seq<byte>, found: nat)
    requires AllBytes(socket) && socket != [] && stream == Stream(seen, socket) && now == seen + socket[0].data
    requires found <= |Drain(now).out| && HeaderEnd(Drain(now).out, 0) == Some(found) && (found == h || CutNow(Drain(now).out[..found], h))
    ensures Right(StreamsAt(seen, socket, None, buffering, budget), Drain(stream).out, h, found != h)
  {
    StreamStays(seen, socket);
    FrontOut(stream, now);
    FoundKeeps(now, socket[1..], stream, found, buffering, budget);
    OneRead(seen, socket, None, buffering, budget, now, Some(found), StreamsAt(now, socket[1..], Some(found), buffering, budget));
    Halves(Drain(now).out, found);
  }

  /** The head that is streamed is the whole output's exactly when no read leaves the output behind a newline inside
      that head; otherwise it ends at such a newline. */
  lemma {:induction false} HeadExactly(seen: seq<byte>, socket: seq<Read>, stream: seq<byte>, h: nat, buffering: bool, budget: nat)
    requires AllBytes(socket) && stream == Stream(seen, socket) && HeaderEnd(Drain(stream).out, 0) == Some(h)
    ensures Right(StreamsAt(seen, socket, None, buffering, budget), Drain(stream).out, h, Cut(seen, socket, h))
    decreases |socket|
  {
    if socket != [] {
      var now := seen + socket[0].data;
      var out := Drain(now).out;
      StreamStays(seen, socket);
      FrontOut(stream, now);
      FrontHead(Drain(stream).out, out, 0, h);
      if |out| >= h {
        PastIsNotCut(now, socket[1..], h);
        FoundNow(seen, socket, stream, h, buffering, budget, now, h);
      } else if CutNow(out, h) {
        Halves(out, |out|);
        FoundNow(seen, socket, stream, h, buffering, budget, now, |out|);
      } else {
        HeadExactly(now, socket[1..], stream, h, buffering, budget);
        OneRead(seen, socket, None, buffering, budget, now, None, StreamsAt(now, socket[1..], None, buffering, budget));
      }
    }
  }

  // ---- Too soon ----

  /** `A: 1` and a line end; then `B: 2`, two line ends and a body of one byte. */
  const FIRST: seq<byte> := [0x41, 0x3A, 0x20, 0x31, 0x0A]
  const SECOND: seq<byte> := [0x42, 0x3A, 0x20, 0x32, 0x0A, 0x0A, 0x43]

  /** A read that holds one STDOUT record. */
  lemma OneRecord(seen: seq<byte>, s: Sent)
    requires Sendable(s) && s.r.ty == 6 && Drain(seen).end == Starved([])
    ensures Drain(seen + SentBytes(s)) == Drained(Drain(seen).out + s.r.body, Starved([]))
  {
    DrainSplit(seen, SentBytes(s));
    DrainWire([s], []);
    assert SentBytes(s) + [] == SentBytes(s) && [] + SentBytes(s) == SentBytes(s);
    assert s.r.body + [] == s.r.body;
  }

  lemma WholeHead()
    ensures HeaderEnd(FIRST + SECOND, 0) == Some(11) && HeaderEnd(FIRST, 0) == Some(5)
  {
    HeadFrom(FIRST + SECOND, 0, 4);
    HeadFrom(FIRST + SECOND, 5, 9);
    HeadFrom(FIRST, 0, 4);
  }

  lemma {:induction false} HeadFrom(b: seq<byte>, i: nat, j: nat)
    requires i <= j <= |b| && forall k | i <= k < j :: b[k] != 0x0A
    ensures HeaderEnd(b, i) == HeaderEnd(b, j)
    decreases j - i
  {
    if i < j { HeadFrom(b, i + 1, j); }
  }

  /** Without buffering a head is streamed as soon as one is found. */
  lemma StreamsAtOnce(seen: seq<byte>, socket: seq<Read>, budget: nat, out: seq<byte>, h: nat)
    requires socket != [] && socket[0].Bytes? && Drain(seen + socket[0].data) == Drained(out, Starved([]))
    requires HeaderEnd(out, 0) == Some(h)
    ensures StreamsAt(seen, socket, None, false, budget) == Some((out[..h], out[h..]))
  {}

  /** Two records in two reads. */
  lemma TwoReads(one: Sent, two: Sent, a: seq<byte>, b: seq<byte>, bytes: seq<byte>)
    requires Sendable(one) && Sendable(two) && one.r.ty == 6 && two.r.ty == 6 && one.r.body == a && two.r.body == b && bytes == SentBytes(one)
    ensures Drain([] + bytes) == Drained(a, Starved([])) && Drain(bytes + SentBytes(two)).out == a + b
  {
    assert Drain([]) == Drained([], Starved([]));
    assert [] + bytes == bytes && [] + a == a;
    OneRecord([], one);
    OneRecord(bytes, two);
  }

  /** Without buffering, two header lines in two reads: the second line is streamed as the body's. */
  lemma HeadTooSoon(one: Sent, two: Sent, budget: nat, bytes: seq<byte>, more: seq<byte>, first: seq<byte>, second: seq<byte>)
    requires first == FIRST && second == SECOND
    requires Sendable(one) && Sendable(two) && one.r.ty == 6 && two.r.ty == 6 && one.r.body == first && two.r.body == second
    requires bytes == SentBytes(one) && more == SentBytes(two)
    ensures Drain(bytes + more).out == first + second && HeaderEnd(first + second, 0) == Some(11)
    ensures StreamsAt([], [Bytes(bytes), Bytes(more)], None, false, budget) == Some((first, []))
  {
    WholeHead();
    TwoReads(one, two, first, second, bytes);
    StreamsAtOnce([], [Bytes(bytes), Bytes(more)], budget, first, 5);
    assert first[..5] == first && first[5..] == [];
  }
}
