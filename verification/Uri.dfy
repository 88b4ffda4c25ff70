/** Path normalisation: percent-decoding and dot segments. Paths are bytes; the source's `str` means that
    what comes in is UTF-8. */
module Uri {
  import opened Wrappers
  import opened Bits
  import Utf8

  const SLASH: byte := 0x2F
  const DOT: byte := 0x2E
  const PERCENT: byte := 0x25

  datatype UriError = Invalid | NotAbsolute

  // ---- The specification: split, decode, push and pop ----

  /** Where the segment that starts at `i` ends. */
  function Stop(b: seq<byte>, i: nat): (e: nat)
    requires i <= |b|
    ensures i <= e <= |b|
    decreases |b| - i
  {
    if i == |b| || b[i] == SLASH then i else Stop(b, i + 1)
  }

  ghost predicate IsStop(b: seq<byte>, i: nat, e: nat) {
    i <= e <= |b| && (forall k | i <= k < e :: b[k] != SLASH) && (e < |b| ==> b[e] == SLASH)
  }

  lemma {:induction false} StopIs(b: seq<byte>, i: nat)
    requires i <= |b|
    ensures IsStop(b, i, Stop(b, i))
    decreases |b| - i
  {
    if i < |b| && b[i] != SLASH { StopIs(b, i + 1); }
  }

  /** What the slashes leave: always at least one segment. */
  datatype Segments = Last(seg: seq<byte>) | More(seg: seq<byte>, rest: Segments)

  /** The segments from `i` on. */
  function Split(b: seq<byte>, i: nat): Segments
    requires i <= |b|
    decreases |b| - i
  {
    var e := Stop(b, i);
    if e == |b| then Last(b[i..e]) else More(b[i..e], Split(b, e + 1))
  }

  function Hex(c: byte): (r: Option<nat>)
    ensures r.Some? ==> r.value < 16 && c != SLASH
  {
    if 0x30 <= c <= 0x39 then Some(c - 0x30)
    else if 0x61 <= c <= 0x66 then Some(c - 0x61 + 10)
    else if 0x41 <= c <= 0x46 then Some(c - 0x41 + 10)
    else None
  }

  /** The byte at the front and how many bytes spell it. */
  function Unit(s: seq<byte>): (r: Option<(byte, nat)>)
    requires s != []
    ensures r.Some? ==> 1 <= r.value.1 <= |s|
  {
    if s[0] != PERCENT then Some((s[0], 1))
    else if |s| < 3 || Hex(s[1]).None? || Hex(s[2]).None? then None
    else Some((Hex(s[1]).value * 16 + Hex(s[2]).value, 3))
  }

  /** A segment's bytes; a decoded NUL or slash is refused. */
  function Decoded(s: seq<byte>): Option<seq<byte>>
    decreases |s|
  {
    if s == [] then Some([])
    else match Unit(s)
      case None => None
      case Some((c, n)) =>
        if c == 0 || c == SLASH then None
        else match Decoded(s[n..]) case None => None case Some(rest) => Some([c] + rest)
  }

  /** What one segment does to the directories entered so far. */
  function Applied(stack: seq<seq<byte>>, seg: seq<byte>): Option<seq<seq<byte>>> {
    if seg == [] || seg == [DOT] then Some(stack)
    else if seg == [DOT, DOT] then if stack == [] then None else Some(stack[..|stack| - 1])
    else Some(stack + [seg])
  }

  function Taken(stack: seq<seq<byte>>, seg: seq<byte>): Option<seq<seq<byte>>> {
    match Decoded(seg) case None => None case Some(seg) => Applied(stack, seg)
  }

  function Walked(stack: seq<seq<byte>>, segs: Segments): Option<seq<seq<byte>>>
    decreases segs
  {
    match segs
    case Last(seg) => Taken(stack, seg)
    case More(seg, rest) => match Taken(stack, seg) case None => None case Some(stack') => Walked(stack', rest)
  }

  /** A slash, then each segment with a slash after it. */
  function Laid(stack: seq<seq<byte>>): (r: seq<byte>)
    ensures r != [] && r[0] == SLASH
  {
    if stack == [] then [SLASH] else Laid(stack[..|stack| - 1]) + stack[|stack| - 1] + [SLASH]
  }

  function Rendered(stack: seq<seq<byte>>, trailing: bool): seq<byte> {
    if trailing || stack == [] then Laid(stack) else Laid(stack)[..|Laid(stack)| - 1]
  }

  predicate Trails(path: seq<byte>) { |path| > 1 && path[|path| - 1] == SLASH }

  function Normalized(path: seq<byte>): Result<seq<byte>, UriError> {
    if path == [] || path[0] != SLASH then Err(NotAbsolute)
    else match Walked([], Split(path, 1))
      case None => Err(Invalid)
      case Some(stack) =>
        var r := Rendered(stack, Trails(path));
        if Utf8.Valid(r) then Ok(r) else Err(Invalid)
  }

  // ---- The loop ----

  lemma LaidParts(stack: seq<seq<byte>>, seg: seq<byte>)
    ensures Laid(stack + [seg]) == Laid(stack) + seg + [SLASH]
  {
    assert (stack + [seg])[..|stack|] == stack;
  }

  ghost predicate StartAt(starts: seq<nat>, stack: seq<seq<byte>>, k: nat) {
    k < |starts| && k < |stack| && starts[k] == |Laid(stack[..k])|
  }

  /** Each segment's start is where the ones before it end. */
  ghost predicate StartsOf(starts: seq<nat>, stack: seq<seq<byte>>) {
    |starts| == |stack| && forall k: nat | k < |stack| :: StartAt(starts, stack, k)
  }

  lemma Truncated(out: seq<byte>, starts: seq<nat>, stack: seq<seq<byte>>)
    requires StartsOf(starts, stack) && out == Laid(stack) && stack != []
    ensures var k := |stack| - 1;
            starts[k] <= |out| && out[..starts[k]] == Laid(stack[..k]) && StartsOf(starts[..k], stack[..k])
  {
    var n := |stack| - 1;
    assert StartAt(starts, stack, n);
    forall k: nat | k < n ensures StartAt(starts[..n], stack[..n], k) {
      assert StartAt(starts, stack, k);
      assert stack[..n][..k] == stack[..k];
    }
  }

  lemma Extended(starts: seq<nat>, stack: seq<seq<byte>>, seg: seq<byte>)
    requires StartsOf(starts, stack)
    ensures StartsOf(starts + [|Laid(stack)|], stack + [seg])
  {
    forall k: nat | k <= |stack| ensures StartAt(starts + [|Laid(stack)|], stack + [seg], k) {
      if k < |stack| { assert StartAt(starts, stack, k); }
      assert (stack + [seg])[..k] == stack[..k];
    }
  }

  function Onto(bytes: seq<byte>, rest: Option<seq<byte>>): Option<seq<byte>> {
    match rest case None => None case Some(r) => Some(bytes + r)
  }

  lemma OntoNext(bytes: seq<byte>, c: byte, rest: Option<seq<byte>>)
    ensures Onto(bytes, Onto([c], rest)) == Onto(bytes + [c], rest)
  {
    if rest.Some? { assert bytes + ([c] + rest.value) == bytes + [c] + rest.value; }
  }

  lemma OntoNothing(rest: Option<seq<byte>>)
    ensures Onto([], rest) == rest
  {
    if rest.Some? { assert [] + rest.value == rest.value; }
  }

  /** One turn of decoding, seen from the whole rest of the segment. */
  lemma DecodedNext(b: seq<byte>, i: nat, e: nat, bytes: seq<byte>)
    requires i < e <= |b|
    ensures Unit(b[i..e]).None? ==> Decoded(b[i..e]) == None
    ensures Unit(b[i..e]).Some? ==>
              var (c, n) := Unit(b[i..e]).value;
              && i + n <= e
              && (c == 0 || c == SLASH ==> Decoded(b[i..e]) == None)
              && (c != 0 && c != SLASH ==> Onto(bytes, Decoded(b[i..e])) == Onto(bytes + [c], Decoded(b[i + n..e])))
  {
    if Unit(b[i..e]).Some? {
      var (c, n) := Unit(b[i..e]).value;
      assert b[i..e][n..] == b[i + n..e];
      OntoNext(bytes, c, Decoded(b[i + n..e]));
    }
  }

  /** What the loop reads of an escape is what the segment holds of it. */
  lemma UnitInside(b: seq<byte>, i: nat, e: nat)
    requires i < e <= |b| && (e < |b| ==> b[e] == SLASH)
    ensures Unit(b[i..e]) ==
            if b[i] != PERCENT then Some((b[i], 1))
            else if i + 2 >= |b| || Hex(b[i + 1]).None? || Hex(b[i + 2]).None? then None
            else Some((Hex(b[i + 1]).value * 16 + Hex(b[i + 2]).value, 3))
  {}

  /** The byte or the escape at the cursor, in a segment that ends at `e`. */
  method ReadUnit(b: seq<byte>, i: nat, ghost e: nat) returns (c: Option<byte>, next: nat)
    requires i < e <= |b| && (e < |b| ==> b[e] == SLASH)
    ensures i <= next && Unit(b[i..e]) == match c case None => None case Some(c) => Some((c, next - i))
  {
    UnitInside(b, i, e);
    if b[i] != PERCENT { return Some(b[i]), i + 1; }
    if i + 2 >= |b| { return None, i; }
    var h, l := Hex(b[i + 1]), Hex(b[i + 2]);
    if h.None? || l.None? { return None, i; }
    return Some(h.value * 16 + l.value), i + 3;
  }

  /** Decodes one segment from `start` on; `i` is where it ends. */
  method Segment(b: seq<byte>, start: nat) returns (i: nat, seg: Option<seq<byte>>)
    requires start <= |b|
    ensures seg == Decoded(b[start..Stop(b, start)])
    ensures seg.Some? ==> i == Stop(b, start)
  {
    i := start;
    ghost var e := Stop(b, start);
    StopIs(b, start);
    var bytes: seq<byte> := [];
    OntoNothing(Decoded(b[start..e]));
    while i < |b| && b[i] != SLASH
      invariant start <= i <= e
      invariant Decoded(b[start..e]) == Onto(bytes, Decoded(b[i..e]))
      decreases |b| - i
    {
      DecodedNext(b, i, e, bytes);
      var unit, next := ReadUnit(b, i, e);
      if unit.None? { return i, None; }
      var c := unit.value;
      i := next;
      if c == 0 || c == SLASH { return i, None; }
      bytes := bytes + [c];
    }
    assert b[i..e] == [] && bytes + [] == bytes;
    return i, Some(bytes);
  }

  method Normalize(path: seq<byte>) returns (r: Result<seq<byte>, UriError>)
    requires Utf8.Valid(path)
    ensures r == Normalized(path)
  {
    if path == [] || path[0] != SLASH { return Err(NotAbsolute); }
    var already := IsAlreadyNormal(path);
    if already {
      NormalStays(path);
      return Ok(path);
    }
    r := NormalizeFully(path);
  }

  /** What one segment does, on the buffer and the offsets. */
  method Enter(seg: seq<byte>, out: seq<byte>, starts: seq<nat>, ghost stack: seq<seq<byte>>)
    returns (ok: bool, out': seq<byte>, starts': seq<nat>, ghost stack': seq<seq<byte>>)
    requires out == Laid(stack) && StartsOf(starts, stack)
    ensures Applied(stack, seg) == if ok then Some(stack') else None
    ensures ok ==> out' == Laid(stack') && StartsOf(starts', stack')
  {
    ok, out', starts', stack' := true, out, starts, stack;
    if seg == [] || seg == [DOT] { return; }
    if seg == [DOT, DOT] {
      if starts == [] {
        ok := false;
        return;
      }
      Truncated(out, starts, stack);
      out' := out[..starts[|starts| - 1]];
      starts' := starts[..|starts| - 1];
      stack' := stack[..|stack| - 1];
    } else {
      Extended(starts, stack, seg);
      LaidParts(stack, seg);
      starts' := starts + [|out|];
      out' := out + seg + [SLASH];
      stack' := stack + [seg];
    }
  }

  /** One segment decoded and entered; it ends at `j`. */
  method TakeSegment(b: seq<byte>, i: nat, out: seq<byte>, starts: seq<nat>, ghost stack: seq<seq<byte>>)
    returns (ok: bool, j: nat, out': seq<byte>, starts': seq<nat>, ghost stack': seq<seq<byte>>)
    requires i <= |b| && out == Laid(stack) && StartsOf(starts, stack)
    ensures Taken(stack, b[i..Stop(b, i)]) == if ok then Some(stack') else None
    ensures ok ==> j == Stop(b, i) && out' == Laid(stack') && StartsOf(starts', stack')
  {
    var seg;
    j, seg := Segment(b, i);
    if seg.None? { return false, j, out, starts, stack; }
    ok, out', starts', stack' := Enter(seg.value, out, starts, stack);
  }

  method Walk(b: seq<byte>) returns (ok: bool, out: seq<byte>, ghost stack: seq<seq<byte>>)
    requires b != []
    ensures Walked([], Split(b, 1)) == if ok then Some(stack) else None
    ensures ok ==> out == Laid(stack)
  {
    var starts: seq<nat> := [];
    out, stack := [SLASH], [];
    var i := 1;
    ghost var walked := Walked([], Split(b, 1));
    while true
      invariant 1 <= i <= |b| && out == Laid(stack) && StartsOf(starts, stack)
      invariant walked == Walked(stack, Split(b, i))
      decreases |b| - i
    {
      WalkedNext(stack, b, i);
      var j;
      ok, j, out, starts, stack := TakeSegment(b, i, out, starts, stack);
      if !ok { return false, out, stack; }
      if j >= |b| { break; }
      i := j + 1;
    }
    return true, out, stack;
  }

  method NormalizeFully(b: seq<byte>) returns (r: Result<seq<byte>, UriError>)
    requires b != [] && b[0] == SLASH
    ensures r == Normalized(b)
  {
    var trailing := |b| > 1 && b[|b| - 1] == SLASH;
    var ok, out, stack := Walk(b);
    if !ok { return Err(Invalid); }
    LaidLength(stack);
    if !trailing && |out| > 1 { out := out[..|out| - 1]; }
    return if Utf8.Valid(out) then Ok(out) else Err(Invalid);
  }

  lemma LaidLength(stack: seq<seq<byte>>)
    ensures |Laid(stack)| > 1 <==> stack != []
  {}

  predicate NeedsNothing(b: seq<byte>, i: nat)
    requires 1 <= i < |b|
  {
    b[i] != PERCENT && b[i] != 0 && !(b[i - 1] == SLASH && (b[i] == SLASH || b[i] == DOT))
  }

  ghost predicate AlreadyNormal(b: seq<byte>) { forall i | 1 <= i < |b| :: NeedsNothing(b, i) }

  method IsAlreadyNormal(b: seq<byte>) returns (r: bool)
    requires b != []
    ensures r <==> AlreadyNormal(b)
  {
    var i := 1;
    while i < |b|
      invariant 1 <= i <= |b| && forall k | 1 <= k < i :: NeedsNothing(b, k)
    {
      if !NeedsNothing(b, i) { return false; }
      i := i + 1;
    }
    return true;
  }

  // ---- What comes out ----

  /** A segment that may stand in a normal path. */
  predicate Plain(seg: seq<byte>) {
    seg != [] && seg != [DOT] && seg != [DOT, DOT] && forall k | 0 <= k < |seg| :: seg[k] != SLASH && seg[k] != 0
  }

  ghost predicate AllPlain(stack: seq<seq<byte>>) { forall k | 0 <= k < |stack| :: Plain(stack[k]) }

  /** Absolute, of plain segments: none empty, none of dots, none with a NUL or a decoded slash. */
  ghost predicate IsNormal(r: seq<byte>) {
    exists stack, trailing :: AllPlain(stack) && r == Rendered(stack, trailing)
  }

  lemma {:induction false} DecodedHasNone(s: seq<byte>)
    ensures Decoded(s).Some? ==> forall k | 0 <= k < |Decoded(s).value| :: Decoded(s).value[k] != SLASH && Decoded(s).value[k] != 0
    decreases |s|
  {
    if s != [] && Unit(s).Some? { DecodedHasNone(s[Unit(s).value.1..]); }
  }

  lemma TakenIsPlain(stack: seq<seq<byte>>, seg: seq<byte>)
    requires AllPlain(stack)
    ensures Taken(stack, seg).Some? ==> AllPlain(Taken(stack, seg).value)
  {
    DecodedHasNone(seg);
  }

  lemma {:induction false} WalkedIsPlain(stack: seq<seq<byte>>, segs: Segments)
    requires AllPlain(stack)
    ensures Walked(stack, segs).Some? ==> AllPlain(Walked(stack, segs).value)
    decreases segs
  {
    TakenIsPlain(stack, segs.seg);
    if segs.More? && Taken(stack, segs.seg).Some? { WalkedIsPlain(Taken(stack, segs.seg).value, segs.rest); }
  }

  /** Every path that comes out is normal, and text. */
  lemma ResultIsNormal(path: seq<byte>)
    ensures Normalized(path).Ok? ==> IsNormal(Normalized(path).value) && Utf8.Valid(Normalized(path).value)
  {
    if path != [] && path[0] == SLASH {
      WalkedIsPlain([], Split(path, 1));
    }
  }

  // ---- The fast path ----

  predicate Verbatim(s: seq<byte>) { forall k | 0 <= k < |s| :: s[k] != PERCENT && s[k] != 0 && s[k] != SLASH }

  lemma {:induction false} DecodedSame(s: seq<byte>)
    requires Verbatim(s)
    ensures Decoded(s) == Some(s)
    decreases |s|
  {
    if s != [] {
      DecodedSame(s[1..]);
      assert [s[0]] + s[1..] == s;
    }
  }

  lemma VerbatimSegment(b: seq<byte>, i: nat, e: nat)
    requires 1 <= i <= e <= |b| && b[i - 1] == SLASH && AlreadyNormal(b) && IsStop(b, i, e)
    ensures Decoded(b[i..e]) == Some(b[i..e]) && (i < e ==> b[i] != DOT) && (e < |b| ==> i < e)
  {
    forall k | 0 <= k < e - i ensures b[i..e][k] != PERCENT && b[i..e][k] != 0 && b[i..e][k] != SLASH {
      assert NeedsNothing(b, i + k);
    }
    DecodedSame(b[i..e]);
    if i < |b| { assert NeedsNothing(b, i); }
  }

  /** The segments entered so far render as the path. */
  predicate Comes(taken: Option<seq<seq<byte>>>, b: seq<byte>) { taken.Some? && Rendered(taken.value, Trails(b)) == b }

  /** The segments entered so far are the path up to the slash before `i`. */
  predicate EnteredTo(b: seq<byte>, i: nat, stack: seq<seq<byte>>) { 1 <= i <= |b| && b[i - 1] == SLASH && Laid(stack) == b[..i] }

  /** A path that ends with a slash, all its segments entered. */
  lemma Closed(b: seq<byte>, stack: seq<seq<byte>>, laid: seq<byte>)
    requires laid == Laid(stack) == b && b[|b| - 1] == SLASH
    ensures Rendered(stack, Trails(b)) == b
  {
    LaidLength(stack);
  }

  /** A path that does not. */
  lemma StillOpen(b: seq<byte>, stack: seq<seq<byte>>, laid: seq<byte>)
    requires laid == Laid(stack) == b + [SLASH] && stack != [] && b != [] && b[|b| - 1] != SLASH
    ensures Rendered(stack, Trails(b)) == b
  {
    assert (b + [SLASH])[..|b|] == b;
  }

  lemma LastVerbatim(b: seq<byte>, i: nat, stack: seq<seq<byte>>)
    requires EnteredTo(b, i, stack) && i < |b| && b[|b| - 1] != SLASH
    ensures Rendered(stack + [b[i..]], Trails(b)) == b
  {
    LaidParts(stack, b[i..]);
    assert b[..i] + b[i..] == b;
    StillOpen(b, stack + [b[i..]], b + [SLASH]);
  }

  lemma EntersVerbatim(b: seq<byte>, i: nat, e: nat, stack: seq<seq<byte>>)
    requires 1 <= i < e < |b| && b[e] == SLASH && Laid(stack) == b[..i] && b[i] != DOT
    ensures Laid(stack + [b[i..e]]) == b[..e + 1] && Applied(stack, b[i..e]) == Some(stack + [b[i..e]])
  {
    LaidParts(stack, b[i..e]);
    UpToSlash(b, i, e);
    assert b[i..e][0] == b[i];
  }

  lemma UpToSlash(b: seq<byte>, i: nat, e: nat)
    requires i <= e < |b| && b[e] == SLASH
    ensures b[..i] + b[i..e] + [SLASH] == b[..e + 1]
  {}

  /** A segment that a slash ends. */
  lemma TakesInner(b: seq<byte>, i: nat, e: nat, stack: seq<seq<byte>>)
    requires AlreadyNormal(b) && EnteredTo(b, i, stack) && IsStop(b, i, e) && e < |b|
    ensures Taken(stack, b[i..e]) == Some(stack + [b[i..e]]) && EnteredTo(b, e + 1, stack + [b[i..e]])
  {
    VerbatimSegment(b, i, e);
    EntersVerbatim(b, i, e, stack);
  }

  /** The last segment. */
  lemma TakesLast(b: seq<byte>, i: nat, stack: seq<seq<byte>>, seg: seq<byte>)
    requires AlreadyNormal(b) && EnteredTo(b, i, stack) && IsStop(b, i, |b|) && seg == b[i..|b|]
    ensures Comes(Taken(stack, seg), b)
  {
    VerbatimSegment(b, i, |b|);
    if i == |b| {
      assert b[..i] == b;
      Closed(b, stack, b);
    } else {
      assert b[..|b|] == b && seg == b[i..];
      assert seg[0] == b[i];
      LastVerbatim(b, i, stack);
    }
  }

  /** One segment of the walk. */
  lemma StepsVerbatim(b: seq<byte>, i: nat, stack: seq<seq<byte>>, walked: Option<seq<seq<byte>>>) returns (e: nat, stack': seq<seq<byte>>)
    requires AlreadyNormal(b) && EnteredTo(b, i, stack) && walked == Walked(stack, Split(b, i))
    ensures i <= e <= |b|
    ensures if e < |b| then EnteredTo(b, e + 1, stack') && walked == Walked(stack', Split(b, e + 1)) else Comes(walked, b)
  {
    e := Stop(b, i);
    StopIs(b, i);
    WalkedNext(stack, b, i);
    stack' := stack + [b[i..e]];
    if e < |b| { TakesInner(b, i, e, stack); } else { TakesLast(b, i, stack, b[i..e]); }
  }

  lemma WalkedNext(stack: seq<seq<byte>>, b: seq<byte>, i: nat)
    requires i <= |b|
    ensures var e := Stop(b, i);
            Walked(stack, Split(b, i)) ==
            match Taken(stack, b[i..e])
            case None => None
            case Some(stack') => if e == |b| then Some(stack') else Walked(stack', Split(b, e + 1))
  {}

  /** From behind a slash on, a path that needs nothing is entered as it is written. */
  lemma {:induction false} WalksVerbatim(b: seq<byte>, i: nat, stack: seq<seq<byte>>, walked: Option<seq<seq<byte>>>)
    requires AlreadyNormal(b) && EnteredTo(b, i, stack) && walked == Walked(stack, Split(b, i))
    ensures Comes(walked, b)
    decreases |b| - i
  {
    var e, stack' := StepsVerbatim(b, i, stack, walked);
    if e < |b| { WalksVerbatim(b, e + 1, stack', walked); }
  }

  /** The shortcut returns what the loop would. */
  lemma NormalStays(path: seq<byte>)
    requires path != [] && path[0] == SLASH && AlreadyNormal(path) && Utf8.Valid(path)
    ensures Normalized(path) == Ok(path)
  {
    assert path[..1] == [SLASH] == Laid([]);
    WalksVerbatim(path, 1, [], Walked([], Split(path, 1)));
  }

  // ---- Percent-encoding is undone ----

  predicate Safe(c: byte) {
    || 0x30 <= c <= 0x39 || 0x41 <= c <= 0x5A || 0x61 <= c <= 0x7A
    || c in {0x2D, 0x5F, 0x2E, 0x7E, 0x2F, 0x40, 0x3A, 0x2B, 0x24, 0x2C, 0x3B, 0x3D}
  }

  function Digit(v: nat): (c: byte)
    requires v < 16
    ensures c < 0x80 && Hex(c) == Some(v)
  {
    if v < 10 then 0x30 + v else 0x41 + v - 10
  }

  function EncodedByte(c: byte): (r: seq<byte>)
    ensures r != [] && Utf8.Ascii(r) && (c == SLASH ==> r == [SLASH])
    ensures Unit(r) == Some((c, |r|))
  {
    if Safe(c) then [c] else [PERCENT, Digit(c / 16), Digit(c % 16)]
  }

  function Encoded(s: seq<byte>): seq<byte> {
    if s == [] then [] else EncodedByte(s[0]) + Encoded(s[1..])
  }

  method EncodePath(s: seq<byte>, out: seq<byte>) returns (out': seq<byte>)
    ensures out' == out + Encoded(s)
  {
    out' := out;
    for i := 0 to |s|
      invariant out' + Encoded(s[i..]) == out + Encoded(s)
    {
      var c := s[i];
      ghost var before := out';
      if Safe(c) {
        out' := out' + [c];
      } else {
        out' := out' + [PERCENT] + [Digit(c / 16)] + [Digit(c % 16)];
      }
      assert out' == before + EncodedByte(c);
      EncodedNext(before, s[i..]);
    }
    assert s[|s|..] == [];
  }

  lemma EncodedNext(before: seq<byte>, s: seq<byte>)
    requires s != []
    ensures before + EncodedByte(s[0]) + Encoded(s[1..]) == before + Encoded(s)
  {}

  lemma {:induction false} EncodedConcat(a: seq<byte>, b: seq<byte>)
    ensures Encoded(a + b) == Encoded(a) + Encoded(b)
    decreases |a|
  {
    if a == [] {
      assert a + b == b;
    } else {
      assert (a + b)[1..] == a[1..] + b;
      EncodedConcat(a[1..], b);
    }
  }

  lemma UnitPrefix(u: seq<byte>, rest: seq<byte>)
    requires u != [] && Unit(u).Some? && Unit(u).value.1 == |u|
    ensures Unit(u + rest) == Unit(u)
  {}

  lemma {:induction false} DecodedEncoded(s: seq<byte>)
    requires forall k | 0 <= k < |s| :: s[k] != SLASH && s[k] != 0
    ensures Decoded(Encoded(s)) == Some(s) && forall k | 0 <= k < |Encoded(s)| :: Encoded(s)[k] != SLASH
    decreases |s|
  {
    if s != [] {
      var (u, rest) := (EncodedByte(s[0]), Encoded(s[1..]));
      DecodedEncoded(s[1..]);
      UnitPrefix(u, rest);
      assert (u + rest)[|u|..] == rest && [s[0]] + s[1..] == s;
      forall k | 0 <= k < |u| ensures u[k] != SLASH { UnitHasNoSlash(s[0], k); }
    }
  }

  lemma UnitHasNoSlash(c: byte, k: nat)
    requires c != SLASH && k < |EncodedByte(c)|
    ensures EncodedByte(c)[k] != SLASH
  {}

  lemma {:induction false} EncodedIsAscii(s: seq<byte>)
    ensures Utf8.Ascii(Encoded(s))
  {
    if s != [] { EncodedIsAscii(s[1..]); }
  }

  function EncodedAll(stack: seq<seq<byte>>): (r: seq<seq<byte>>)
    ensures |r| == |stack|
  {
    if stack == [] then [] else EncodedAll(stack[..|stack| - 1]) + [Encoded(stack[|stack| - 1])]
  }

  lemma {:induction false} EncodedLaid(stack: seq<seq<byte>>)
    ensures Encoded(Laid(stack)) == Laid(EncodedAll(stack))
  {
    assert Encoded([SLASH]) == [SLASH] by { assert [SLASH][1..] == []; }
    if stack != [] {
      var (front, last) := (stack[..|stack| - 1], stack[|stack| - 1]);
      EncodedLaid(front);
      EncodedConcat(Laid(front) + last, [SLASH]);
      EncodedConcat(Laid(front), last);
      LaidParts(EncodedAll(front), Encoded(last));
    }
  }

  predicate NoSlash(s: seq<byte>) { forall k | 0 <= k < |s| :: s[k] != SLASH }

  lemma {:induction false} StopSame(x: seq<byte>, rest: seq<byte>, i: nat)
    requires i <= |x| && (rest == [] || rest[0] == SLASH)
    ensures Stop(x + rest, i) == Stop(x, i)
    decreases |x| - i
  {
    if i < |x| && x[i] != SLASH { StopSame(x, rest, i + 1); }
  }

  predicate ClearFrom(b: seq<byte>, i: nat) { forall k | i <= k < |b| :: b[k] != SLASH }

  lemma {:induction false} StopAtEnd(b: seq<byte>, i: nat)
    requires i <= |b| && ClearFrom(b, i)
    ensures Stop(b, i) == |b| && Split(b, i) == Last(b[i..])
    decreases |b| - i
  {
    if i < |b| { StopAtEnd(b, i + 1); }
    assert b[i..|b|] == b[i..];
  }

  function Append(segs: Segments, t: seq<byte>): Segments {
    match segs case Last(s) => More(s, Last(t)) case More(s, rest) => More(s, Append(rest, t))
  }

  lemma SplitIs(b: seq<byte>, i: nat, e: nat)
    requires i <= |b| && e == Stop(b, i)
    ensures Split(b, i) == if e == |b| then Last(b[i..e]) else More(b[i..e], Split(b, e + 1))
  {}

  /** What stands behind a slash does not change the segments before it. */
  lemma SameSegment(x: seq<byte>, tail: seq<byte>, i: nat, b: seq<byte>) returns (e: nat)
    requires i <= |x| && b == x + tail && (tail == [] || tail[0] == SLASH)
    ensures e == Stop(x, i) == Stop(b, i) && b[i..e] == x[i..e]
  {
    e := Stop(x, i);
    StopSame(x, tail, i);
  }

  /** A slash and a segment more is one segment more. */
  lemma {:induction false} SplitAppend(x: seq<byte>, t: seq<byte>, i: nat, b: seq<byte>)
    requires i <= |x| && NoSlash(t) && b == x + ([SLASH] + t)
    ensures Split(b, i) == Append(Split(x, i), t)
    decreases |x| - i
  {
    var e := SameSegment(x, [SLASH] + t, i, b);
    SplitIs(x, i, e);
    SplitIs(b, i, e);
    if e < |x| {
      SplitAppend(x, t, e + 1, b);
    } else {
      LastSplit(x, t, b);
    }
  }

  lemma LastSplit(x: seq<byte>, t: seq<byte>, b: seq<byte>)
    requires NoSlash(t) && b == x + ([SLASH] + t)
    ensures Split(b, |x| + 1) == Last(t)
  {
    assert b[|x| + 1..] == t;
    forall k | |x| + 1 <= k < |b| ensures b[k] != SLASH { assert b[k] == t[k - |x| - 1]; }
    StopAtEnd(b, |x| + 1);
  }

  /** The segments `stack` and then `t`. */
  function Listed(stack: seq<seq<byte>>, t: seq<byte>): Segments {
    if stack == [] then Last(t) else Append(Listed(stack[..|stack| - 1], stack[|stack| - 1]), t)
  }

  ghost predicate AllSlashless(stack: seq<seq<byte>>) { forall k | 0 <= k < |stack| :: NoSlash(stack[k]) }

  lemma OneSegment(t: seq<byte>)
    requires NoSlash(t)
    ensures Split([SLASH] + t, 1) == Last(t)
  {
    var b := [SLASH] + t;
    assert b[1..] == t;
    StopAtEnd(b, 1);
  }

  lemma {:induction false} SplitLaid(stack: seq<seq<byte>>, t: seq<byte>)
    requires AllSlashless(stack) && NoSlash(t)
    ensures Split(Laid(stack) + t, 1) == Listed(stack, t)
  {
    if stack == [] {
      OneSegment(t);
    } else {
      var (front, last) := (stack[..|stack| - 1], stack[|stack| - 1]);
      SplitLaid(front, last);
      assert Laid(stack) + t == (Laid(front) + last) + ([SLASH] + t);
      SplitAppend(Laid(front) + last, t, 1, Laid(stack) + t);
    }
  }

  /** The segments of a rendered path, the last one empty when it trails. */
  function Shown(stack: seq<seq<byte>>, trailing: bool): Segments {
    if trailing || stack == [] then Listed(stack, []) else Listed(stack[..|stack| - 1], stack[|stack| - 1])
  }

  lemma SplitRendered(stack: seq<seq<byte>>, trailing: bool)
    requires AllSlashless(stack)
    ensures Split(Rendered(stack, trailing), 1) == Shown(stack, trailing)
  {
    if trailing || stack == [] {
      SplitLaid(stack, []);
      assert Laid(stack) + [] == Laid(stack);
    } else {
      var (front, last) := (stack[..|stack| - 1], stack[|stack| - 1]);
      SplitLaid(front, last);
      assert Rendered(stack, trailing) == Laid(front) + last;
    }
  }

  /** `segs` spell plain segments. */
  ghost predicate Spell(segs: seq<seq<byte>>, stack: seq<seq<byte>>) {
    |segs| == |stack| && forall k | 0 <= k < |stack| :: Plain(stack[k]) && Decoded(segs[k]) == Some(stack[k])
  }

  lemma {:induction false} WalkedAppend(stack: seq<seq<byte>>, segs: Segments, t: seq<byte>)
    ensures Walked(stack, Append(segs, t)) == match Walked(stack, segs) case None => None case Some(st) => Taken(st, t)
    decreases segs
  {
    if segs.More? && Taken(stack, segs.seg).Some? { WalkedAppend(Taken(stack, segs.seg).value, segs.rest, t); }
  }

  lemma {:induction false} WalksSpelled(segs: seq<seq<byte>>, stack: seq<seq<byte>>, t: seq<byte>)
    requires Spell(segs, stack)
    ensures Walked([], Listed(segs, t)) == Taken(stack, t)
  {
    if segs != [] {
      var n := |segs| - 1;
      assert Plain(stack[n]) && Decoded(segs[n]) == Some(stack[n]);
      WalksSpelled(segs[..n], stack[..n], segs[n]);
      WalkedAppend([], Listed(segs[..n], segs[n]), t);
      assert stack[..n] + [stack[n]] == stack;
    }
  }

  lemma WalksShown(segs: seq<seq<byte>>, stack: seq<seq<byte>>, trailing: bool)
    requires Spell(segs, stack)
    ensures Walked([], Shown(segs, trailing)) == Some(stack)
  {
    if trailing || segs == [] {
      WalksSpelled(segs, stack, []);
    } else {
      var n := |segs| - 1;
      assert Plain(stack[n]) && Decoded(segs[n]) == Some(stack[n]);
      WalksSpelled(segs[..n], stack[..n], segs[n]);
      assert stack[..n] + [stack[n]] == stack;
    }
  }

  lemma TrailsIs(stack: seq<seq<byte>>, trailing: bool)
    requires AllSlashless(stack) && forall k | 0 <= k < |stack| :: stack[k] != []
    ensures Trails(Rendered(stack, trailing)) <==> trailing && stack != []
  {
    LaidLength(stack);
    if stack != [] && !trailing {
      var (front, last) := (stack[..|stack| - 1], stack[|stack| - 1]);
      assert Rendered(stack, trailing) == Laid(front) + last;
    }
  }

  lemma RenderedStarts(stack: seq<seq<byte>>, trailing: bool)
    ensures Rendered(stack, trailing) != [] && Rendered(stack, trailing)[0] == SLASH
  {
    LaidLength(stack);
  }

  /** Spelling a normal path in any way that decodes to it gives it back. */
  lemma SpelledComesBack(segs: seq<seq<byte>>, stack: seq<seq<byte>>, trailing: bool)
    requires Spell(segs, stack) && AllSlashless(segs) && Utf8.Valid(Rendered(stack, trailing))
    ensures Normalized(Rendered(segs, trailing)) == Ok(Rendered(stack, trailing))
  {
    forall k | 0 <= k < |segs| ensures segs[k] != [] { assert Plain(stack[k]) && Decoded(segs[k]) == Some(stack[k]); }
    SplitRendered(segs, trailing);
    TrailsIs(segs, trailing);
    RenderedStarts(segs, trailing);
    WalksShown(segs, stack, trailing);
  }

  lemma {:induction false} EncodedSpell(stack: seq<seq<byte>>)
    requires AllPlain(stack)
    ensures Spell(EncodedAll(stack), stack) && AllSlashless(EncodedAll(stack))
  {
    if stack != [] {
      var (front, last) := (stack[..|stack| - 1], stack[|stack| - 1]);
      EncodedSpell(front);
      assert Plain(last);
      DecodedEncoded(last);
      assert front + [last] == stack;
    }
  }

  lemma EncodedRendered(stack: seq<seq<byte>>, trailing: bool)
    ensures Encoded(Rendered(stack, trailing)) == Rendered(EncodedAll(stack), trailing)
  {
    EncodedLaid(stack);
    if stack != [] && !trailing {
      var (front, last) := (stack[..|stack| - 1], stack[|stack| - 1]);
      assert Rendered(stack, trailing) == Laid(front) + last;
      EncodedConcat(Laid(front), last);
      EncodedLaid(front);
      assert EncodedAll(stack)[..|stack| - 1] == EncodedAll(front);
      assert Rendered(EncodedAll(stack), trailing) == Laid(EncodedAll(front)) + Encoded(last);
    }
  }

  /** Encoding any path that normalisation can return is undone by normalising. */
  lemma NormalizeEncoded(n: seq<byte>)
    requires IsNormal(n) && Utf8.Valid(n)
    ensures Normalized(Encoded(n)) == Ok(n) && Utf8.Valid(Encoded(n))
  {
    var stack, trailing :| AllPlain(stack) && n == Rendered(stack, trailing);
    EncodedSpell(stack);
    EncodedRendered(stack, trailing);
    SpelledComesBack(EncodedAll(stack), stack, trailing);
    EncodedIsAscii(n);
    Utf8.AsciiIsValid(Encoded(n));
  }

  /** So the normal texts are exactly what normalisation returns. */
  lemma RangeIsNormal(n: seq<byte>)
    ensures (exists path :: Utf8.Valid(path) && Normalized(path) == Ok(n)) <==> IsNormal(n) && Utf8.Valid(n)
  {
    if IsNormal(n) && Utf8.Valid(n) { NormalizeEncoded(n); }
    forall path | Utf8.Valid(path) && Normalized(path) == Ok(n) ensures IsNormal(n) && Utf8.Valid(n) { ResultIsNormal(path); }
  }

  // ---- When normalising again changes nothing ----

  function Shrunk(s: seq<byte>): nat { if PERCENT in s then 2 else 0 }

  lemma {:induction false} DecodedLength(s: seq<byte>)
    ensures Decoded(s).Some? ==> |Decoded(s).value| + Shrunk(s) <= |s|
    decreases |s|
  {
    if s != [] && Unit(s).Some? {
      var n := Unit(s).value.1;
      DecodedLength(s[n..]);
      if n == 1 { assert s == [s[0]] + s[1..]; }
    }
  }

  function Weight(segs: Segments): nat {
    match segs case Last(s) => |s| + 1 case More(s, rest) => |s| + 1 + Weight(rest)
  }

  predicate Escaped(segs: Segments) { PERCENT in segs.seg || (segs.More? && Escaped(segs.rest)) }

  lemma TakenLength(stack: seq<seq<byte>>, seg: seq<byte>)
    ensures Taken(stack, seg).Some? ==> |Laid(Taken(stack, seg).value)| + Shrunk(seg) <= |Laid(stack)| + |seg| + 1
  {
    DecodedLength(seg);
    if Decoded(seg).Some? { LaidParts(stack, Decoded(seg).value); }
  }

  lemma {:induction false} WalkedLength(stack: seq<seq<byte>>, segs: Segments)
    ensures Walked(stack, segs).Some? ==>
              |Laid(Walked(stack, segs).value)| + (if Escaped(segs) then 2 else 0) <= |Laid(stack)| + Weight(segs)
    decreases segs
  {
    TakenLength(stack, segs.seg);
    if segs.More? && Taken(stack, segs.seg).Some? { WalkedLength(Taken(stack, segs.seg).value, segs.rest); }
  }

  lemma {:induction false} SplitWeight(b: seq<byte>, i: nat)
    requires i <= |b|
    ensures Weight(Split(b, i)) == |b| - i + 1
    decreases |b| - i
  {
    if Stop(b, i) < |b| { SplitWeight(b, Stop(b, i) + 1); }
  }

  lemma {:induction false} SplitEscaped(b: seq<byte>, i: nat, p: nat)
    requires i <= p < |b| && b[p] == PERCENT
    ensures Escaped(Split(b, i))
    decreases |b| - i
  {
    var e := Stop(b, i);
    StopIs(b, i);
    if p < e { assert b[i..e][p - i] == PERCENT; } else { SplitEscaped(b, e + 1, p); }
  }

  /** An escape makes a path come out shorter. */
  lemma EscapeShortens(n: seq<byte>, p: nat)
    requires 1 <= p < |n| && n[p] == PERCENT
    ensures Normalized(n).Ok? ==> |Normalized(n).value| < |n|
  {
    SplitWeight(n, 1);
    SplitEscaped(n, 1, p);
    WalkedLength([], Split(n, 1));
  }

  /** A path that normalisation can return is left alone by normalising again exactly when it has no
      percent sign. */
  lemma NormalizeAgain(n: seq<byte>)
    requires IsNormal(n) && Utf8.Valid(n)
    ensures Normalized(n) == Ok(n) <==> PERCENT !in n
  {
    var stack, trailing :| AllPlain(stack) && n == Rendered(stack, trailing);
    RenderedStarts(stack, trailing);
    if PERCENT in n {
      var p :| 0 <= p < |n| && n[p] == PERCENT;
      EscapeShortens(n, p);
    } else {
      forall k | 0 <= k < |stack| ensures Plain(stack[k]) && Decoded(stack[k]) == Some(stack[k]) && NoSlash(stack[k]) {
        PartOfRendered(stack, trailing, k);
        DecodedSame(stack[k]);
      }
      SpelledComesBack(stack, stack, trailing);
    }
  }

  /** The path /%41, which normalising returns for /%2541. */
  const ESCAPED_A: seq<byte> := [SLASH, PERCENT, 0x34, 0x31]

  lemma EncodedEscape()
    ensures Encoded(ESCAPED_A) == [SLASH, PERCENT, 0x32, 0x35, 0x34, 0x31]
  {
    var s := ESCAPED_A;
    assert s[1..][1..] == s[2..] && s[2..][1..] == s[3..] && s[3..][1..] == [];
    assert Encoded(s[3..]) == [0x31] + [] && Encoded(s[2..]) == [0x34] + Encoded(s[3..]);
    assert Encoded(s[1..]) == [PERCENT, 0x32, 0x35] + Encoded(s[2..]);
  }

  lemma TwiceDiffers()
    ensures Normalized([SLASH, PERCENT, 0x32, 0x35, 0x34, 0x31]) == Ok(ESCAPED_A) && Normalized(ESCAPED_A) != Ok(ESCAPED_A)
  {
    EncodedEscape();
    var seg: seq<byte> := [PERCENT, 0x34, 0x31];
    assert [seg][..0] == [] && Laid([]) == [SLASH] && Laid([seg]) == [SLASH] + seg + [SLASH];
    assert Rendered([seg], false) == ESCAPED_A && AllPlain([seg]);
    Utf8.AsciiIsValid(ESCAPED_A);
    NormalizeEncoded(ESCAPED_A);
    NormalizeAgain(ESCAPED_A);
    assert ESCAPED_A[1] == PERCENT;
  }

  lemma {:induction false} PartOfLaid(stack: seq<seq<byte>>, k: nat)
    requires k < |stack|
    ensures forall c | c in stack[k] :: c in Laid(stack)
  {
    if k < |stack| - 1 {
      PartOfLaid(stack[..|stack| - 1], k);
      assert stack[..|stack| - 1][k] == stack[k];
    }
  }

  lemma PartOfRendered(stack: seq<seq<byte>>, trailing: bool, k: nat)
    requires k < |stack| && Plain(stack[k])
    ensures forall c | c in stack[k] :: c in Rendered(stack, trailing)
  {
    PartOfLaid(stack, k);
    var laid := Laid(stack);
    assert laid == laid[..|laid| - 1] + [SLASH];
    forall c | c in stack[k] ensures c in Rendered(stack, trailing) { assert c in laid && c != SLASH; }
  }
}
