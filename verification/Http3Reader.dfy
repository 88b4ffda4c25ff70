/** The incremental reader of one QUIC stream: what it reads does not depend on how the stream arrives. */
module Http3Reader {
  import opened Wrappers
  import opened Bits
  import opened Http3Frame

  function Joined(pieces: seq<seq<byte>>): seq<byte> {
    if pieces == [] then [] else pieces[0] + Joined(pieces[1..])
  }

  // ---- What a whole stream says ----

  /** The integer at the front of a stream that ends after `all`, and what follows. */
  function VarintOf(all: seq<byte>): (Option<nat>, seq<byte>) {
    match GetVarint(all) case None => (None, all) case Some((v, n)) => (Some(v), all[n..])
  }

  /** The frame head at the front; `Ok(None)` at the end between frames. */
  function HeadOf(all: seq<byte>): (Result<Option<Head>, nat>, seq<byte>) {
    match ParseHead(all)
    case Err(e) => (Err(e), all)
    case Ok(Some(h)) => (Ok(Some(h)), all[h.headLength..])
    case Ok(None) => (if all == [] then Ok(None) else Err(FRAME_ERROR), all)
  }

  function ExactOf(all: seq<byte>, n: nat): (Option<seq<byte>>, seq<byte>) {
    if |all| < n then (None, all) else (Some(all[..n]), all[n..])
  }

  datatype Frame = Frame(kind: nat, payload: seq<byte>)

  /** How a stream ends: between frames, inside one, or with a frame that HTTP/3 does not know. */
  datatype Ending = Clean | Broken(code: nat)

  /** The frames of a stream. */
  function FramesOf(all: seq<byte>): (r: (seq<Frame>, Ending))
    decreases |all|
  {
    match HeadOf(all)
    case (Err(e), _) => ([], Broken(e))
    case (Ok(None), _) => ([], Clean)
    case (Ok(Some(h)), rest) =>
      match ExactOf(rest, h.length)
      case (None, _) => ([], Broken(FRAME_ERROR))
      case (Some(payload), after) =>
        var (fs, end) := FramesOf(after);
        ([Frame(h.kind, payload)] + fs, end)
  }

  ghost predicate Sendable(f: Frame) { f.kind <= VARINT_MAX && |f.payload| <= VARINT_MAX && !IsReservedH2(f.kind) }

  ghost predicate AllSendable(fs: seq<Frame>) { forall i | 0 <= i < |fs| :: Sendable(fs[i]) }

  function Wire(fs: seq<Frame>): seq<byte>
    requires forall i | 0 <= i < |fs| :: fs[i].kind <= VARINT_MAX && |fs[i].payload| <= VARINT_MAX
  {
    if fs == [] then [] else FrameBytes(fs[0].kind, fs[0].payload) + Wire(fs[1..])
  }

  lemma FirstOfWire(f: Frame, rest: seq<byte>)
    requires Sendable(f)
    ensures var (fs, end) := FramesOf(rest);
            FramesOf(FrameBytes(f.kind, f.payload) + rest) == ([f] + fs, end)
  {
    var head := Varint(f.kind) + Varint(|f.payload|);
    var all := FrameBytes(f.kind, f.payload) + rest;
    HeadRoundTrip(f.kind, f.payload, rest);
    assert all[|head|..] == f.payload + rest;
    assert (f.payload + rest)[..|f.payload|] == f.payload && (f.payload + rest)[|f.payload|..] == rest;
  }

  /** What is written as frames is read as those frames. */
  lemma {:induction false} WireRoundTrip(fs: seq<Frame>)
    requires AllSendable(fs)
    ensures forall i | 0 <= i < |fs| :: fs[i].kind <= VARINT_MAX && |fs[i].payload| <= VARINT_MAX
    ensures FramesOf(Wire(fs)) == (fs, Clean)
    decreases |fs|
  {
    assert forall i | 0 <= i < |fs| :: Sendable(fs[i]);
    if fs != [] {
      WireRoundTrip(fs[1..]);
      FirstOfWire(fs[0], Wire(fs[1..]));
      assert [fs[0]] + fs[1..] == fs;
    }
  }

  // ---- The reader ----

  /** `source` is what the stream has yet to deliver, piece by piece; then it ends. */
  class Reader {
    var buf: seq<byte>
    var eof: bool
    var source: seq<seq<byte>>

    /** All that is left of the stream, however it will arrive. */
    ghost function Rest(): seq<byte>
      reads this
    {
      buf + if eof then [] else Joined(source)
    }

    constructor (source: seq<seq<byte>>)
      ensures Rest() == Joined(source) && !eof
    {
      buf, eof, this.source := [], false, source;
      new;
      assert [] + Joined(source) == Joined(source);
    }

    /** Pulls more bytes in; false at the end of the stream. */
    method Fill() returns (more: bool)
      modifies this
      ensures Rest() == old(Rest())
      ensures more ==> !eof && |source| < |old(source)| && old(buf) <= buf
      ensures !more ==> eof && buf == old(buf) == Rest()
    {
      if eof {
        assert buf + [] == buf;
        return false;
      }
      if source == [] {
        eof := true;
        assert buf + [] == buf;
        return false;
      }
      assert buf + (source[0] + Joined(source[1..])) == buf + source[0] + Joined(source[1..]);
      buf := buf + source[0];
      source := source[1..];
      return true;
    }

    /** Reads a leading integer, waiting for as many bytes as it needs. */
    method ReadInteger() returns (v: Option<nat>)
      modifies this
      ensures (v, Rest()) == VarintOf(old(Rest()))
    {
      ghost var all := Rest();
      while true
        invariant Rest() == all
        decreases |source|, !eof
      {
        var got := ReadVarint(buf);
        VarintStable(buf, if eof then [] else Joined(source));
        if got.Some? {
          Dropped(buf, got.value.1, if eof then [] else Joined(source));
          buf := buf[got.value.1..];
          return Some(got.value.0);
        }
        var more := Fill();
        if !more { return None; }
      }
    }

    /** Reads a frame head; none at the end of the stream between frames. */
    method ReadHead() returns (r: Result<Option<Head>, nat>)
      modifies this
      ensures (r, Rest()) == HeadOf(old(Rest()))
    {
      ghost var all := Rest();
      while true
        invariant Rest() == all
        decreases |source|, !eof
      {
        var head := ParseHead(buf);
        HeadStable(buf, if eof then [] else Joined(source));
        match head {
          case Err(e) => return Err(e);
          case Ok(Some(h)) =>
            Dropped(buf, h.headLength, if eof then [] else Joined(source));
            buf := buf[h.headLength..];
            return Ok(Some(h));
          case Ok(None) =>
            var more := Fill();
            if !more { return if buf == [] then Ok(None) else Err(FRAME_ERROR); }
        }
      }
    }

    /** Reads exactly `n` bytes of payload. */
    method ReadExact(n: nat) returns (payload: Option<seq<byte>>)
      modifies this
      ensures (payload, Rest()) == ExactOf(old(Rest()), n)
    {
      ghost var all := Rest();
      while |buf| < n
        invariant Rest() == all
        decreases |source|, !eof
      {
        var more := Fill();
        if !more { return None; }
      }
      Dropped(buf, n, if eof then [] else Joined(source));
      payload := Some(buf[..n]);
      buf := buf[n..];
    }

    /** The next frame, or how the stream ends. */
    method ReadFrame() returns (f: Option<Frame>, end: Ending)
      modifies this
      ensures f.Some? ==> |Rest()| < |old(Rest())| && FramesOf(old(Rest())) == Before([f.value], FramesOf(Rest()))
      ensures f.None? ==> FramesOf(old(Rest())) == ([], end)
    {
      end := Clean;
      var head := ReadHead();
      if head.Err? { return None, Broken(head.error); }
      if head.value.None? { return None, Clean; }
      var payload := ReadExact(head.value.value.length);
      if payload.None? { return None, Broken(FRAME_ERROR); }
      return Some(Frame(head.value.value.kind, payload.value)), Clean;
    }

    /** Frame after frame to the end of the stream. */
    method ReadFrames() returns (fs: seq<Frame>, end: Ending)
      modifies this
      ensures (fs, end) == FramesOf(old(Rest()))
    {
      fs := [];
      ghost var all := FramesOf(Rest());
      ghost var left := all;
      BeforeNothing(all);
      while true
        invariant all == Before(fs, left) && left == FramesOf(Rest())
        decreases |Rest()|
      {
        var f;
        f, end := ReadFrame();
        if f.None? {
          assert fs + [] == fs;
          return;
        }
        ghost var next := FramesOf(Rest());
        BeforeTwice(fs, f.value, next);
        fs, left := fs + [f.value], next;
      }
    }
  }

  function Before(fs: seq<Frame>, r: (seq<Frame>, Ending)): (seq<Frame>, Ending) { (fs + r.0, r.1) }

  lemma BeforeNothing(r: (seq<Frame>, Ending))
    ensures Before([], r) == r
  {
    assert [] + r.0 == r.0;
  }

  lemma BeforeTwice(fs: seq<Frame>, f: Frame, r: (seq<Frame>, Ending))
    ensures Before(fs, Before([f], r)) == Before(fs + [f], r)
  {
    assert fs + ([f] + r.0) == fs + [f] + r.0;
  }

  lemma Dropped(buf: seq<byte>, n: nat, more: seq<byte>)
    requires n <= |buf|
    ensures (buf + more)[n..] == buf[n..] + more && (buf + more)[..n] == buf[..n]
  {}
}
