/** What normalising makes of the text of a path, told without the walk: which segments are left is a matter of
    how `..` and plain segments balance, as brackets do. */
module UriPaths {
  import opened Wrappers
  import opened Bits
  import opened Uri
  import Utf8

  // ---- Segments and their spelling ----

  /** A byte is written as it is, or as a percent sign and two digits, each in either case. */
  datatype How = Bare | Escaped(highUpper: bool, lowUpper: bool)

  function HexText(v: nat, upper: bool): (c: byte)
    requires v < 16
    ensures Hex(c) == Some(v)
  {
    if v < 10 then 0x30 + v else (if upper then 0x41 else 0x61) + (v - 10)
  }

  function UnitText(c: byte, how: How): seq<byte> {
    match how case Bare => [c] case Escaped(high, low) => [PERCENT, HexText(c / 16, high), HexText(c % 16, low)]
  }

  function SegmentText(d: seq<byte>, hows: seq<How>): seq<byte>
    requires |d| == |hows|
  {
    if d == [] then [] else UnitText(d[0], hows[0]) + SegmentText(d[1..], hows[1..])
  }

  /** `t` is a way to write the segment `d`, which has no NUL and no slash. */
  ghost predicate Writes(t: seq<byte>, d: seq<byte>, hows: seq<How>) {
    && |hows| == |d| && t == SegmentText(d, hows)
    && forall k | 0 <= k < |d| :: d[k] != 0 && d[k] != SLASH && (hows[k].Bare? ==> d[k] != PERCENT)
  }

  ghost predicate Spells(t: seq<byte>, d: seq<byte>) { exists hows :: Writes(t, d, hows) }

  lemma UnitReads(c: byte, how: How, rest: seq<byte>)
    requires how.Bare? ==> c != PERCENT
    ensures Unit(UnitText(c, how) + rest) == Some((c, |UnitText(c, how)|)) && (UnitText(c, how) + rest)[|UnitText(c, how)|..] == rest
  {}

  lemma {:induction false} WrittenReads(t: seq<byte>, d: seq<byte>, hows: seq<How>)
    requires Writes(t, d, hows)
    ensures Decoded(t) == Some(d)
    decreases |d|
  {
    if d != [] {
      var rest := SegmentText(d[1..], hows[1..]);
      UnitReads(d[0], hows[0], rest);
      WrittenReads(rest, d[1..], hows[1..]);
      assert [d[0]] + d[1..] == d;
    }
  }

  lemma HexIs(c: byte) returns (upper: bool)
    requires Hex(c).Some?
    ensures HexText(Hex(c).value, upper) == c
  {
    upper := c < 0x61;
  }

  lemma UnitIs(t: seq<byte>) returns (how: How)
    requires t != [] && Unit(t).Some?
    ensures var (c, n) := Unit(t).value; t[..n] == UnitText(c, how) && (how.Bare? ==> c != PERCENT)
  {
    if t[0] != PERCENT {
      how := Bare;
    } else {
      var high := HexIs(t[1]);
      var low := HexIs(t[2]);
      how := Escaped(high, low);
    }
  }

  lemma {:induction false} ReadIsWritten(t: seq<byte>) returns (hows: seq<How>)
    requires Decoded(t).Some?
    ensures Writes(t, Decoded(t).value, hows)
    decreases |t|
  {
    hows := [];
    if t != [] {
      var (c, n) := Unit(t).value;
      var how := UnitIs(t);
      var more := ReadIsWritten(t[n..]);
      hows := [how] + more;
      var d := Decoded(t).value;
      assert d[1..] == Decoded(t[n..]).value && hows[1..] == more;
      assert t == t[..n] + t[n..];
      forall k | 0 <= k < |d| ensures d[k] != 0 && d[k] != SLASH && (hows[k].Bare? ==> d[k] != PERCENT) {
        if k > 0 { assert d[k] == d[1..][k - 1] && hows[k] == more[k - 1]; }
      }
    }
  }

  /** A segment's text is taken for exactly what it is a spelling of. */
  lemma DecodedExactly(t: seq<byte>, d: seq<byte>)
    ensures Decoded(t) == Some(d) <==> Spells(t, d)
  {
    if Spells(t, d) {
      var hows :| Writes(t, d, hows);
      WrittenReads(t, d, hows);
    }
    if Decoded(t) == Some(d) {
      var hows := ReadIsWritten(t);
      assert Writes(t, d, hows);
    }
  }

  // ---- Paths as lists of segments ----

  /** A slash before each segment. */
  function PathOf(ts: seq<seq<byte>>): seq<byte> {
    if ts == [] then [] else PathOf(ts[..|ts| - 1]) + [SLASH] + ts[|ts| - 1]
  }

  lemma {:induction false} SplitPath(ts: seq<seq<byte>>)
    requires ts != [] && AllSlashless(ts)
    ensures PathOf(ts) != [] && PathOf(ts)[0] == SLASH
    ensures Split(PathOf(ts), 1) == Listed(ts[..|ts| - 1], ts[|ts| - 1])
  {
    var (front, last) := (ts[..|ts| - 1], ts[|ts| - 1]);
    if front == [] {
      OneSegment(last);
      assert PathOf(ts) == [SLASH] + last;
    } else {
      SplitPath(front);
      SplitAppend(PathOf(front), last, 1, PathOf(ts));
      assert PathOf(ts) == PathOf(front) + ([SLASH] + last);
    }
  }

  /** Every absolute path is one. */
  lemma {:induction false} Segmented(path: seq<byte>) returns (ts: seq<seq<byte>>)
    requires path != [] && path[0] == SLASH
    ensures ts != [] && AllSlashless(ts) && PathOf(ts) == path
    decreases |path|
  {
    var i := LastSlash(path);
    var last := path[i + 1..];
    assert path == path[..i] + [SLASH] + last;
    forall k | 0 <= k < |last| ensures last[k] != SLASH { assert last[k] == path[i + 1 + k]; }
    if i == 0 {
      ts := [last];
      assert PathOf(ts[..0]) == [] && path[..0] == [];
    } else {
      var front := Segmented(path[..i]);
      ts := front + [last];
      assert ts[..|ts| - 1] == front;
    }
  }

  lemma LastSlash(path: seq<byte>) returns (i: nat)
    requires path != [] && path[0] == SLASH
    ensures i < |path| && path[i] == SLASH && forall k | i < k < |path| :: path[k] != SLASH
  {
    i := |path| - 1;
    while path[i] != SLASH
      invariant i < |path| && forall k | i < k < |path| :: path[k] != SLASH
      decreases i
    {
      i := i - 1;
    }
  }

  // ---- The balance of a list of segments ----

  /** A plain segment goes one directory down and `..` one up; an empty one and `.` stay. */
  function Rise(d: seq<byte>): int { if d == [] || d == [DOT] then 0 else if d == [DOT, DOT] then -1 else 1 }

  function Depth(ds: seq<seq<byte>>, n: nat): int
    requires n <= |ds|
  {
    if n == 0 then 0 else Depth(ds, n - 1) + Rise(ds[n - 1])
  }

  /** Some front has more `..` than plain segments. */
  ghost predicate Climbs(ds: seq<seq<byte>>, n: nat)
    requires n <= |ds|
  {
    exists m: nat :: m <= n && Depth(ds, m) < 0
  }

  /** Of the first `n` segments, the `k`-th is still there: it is plain, and never since has the path been back
      where it was before. */
  ghost predicate Stays(ds: seq<seq<byte>>, n: nat, k: nat)
    requires n <= |ds|
  {
    k < n && Rise(ds[k]) == 1 && forall m: nat | k < m <= n :: Depth(ds, m) > Depth(ds, k)
  }

  /** The places of those that are, in order. */
  ghost predicate Picks(idx: seq<nat>, ds: seq<seq<byte>>, n: nat)
    requires n <= |ds|
  {
    && (forall i, j | 0 <= i < j < |idx| :: idx[i] < idx[j])
    && forall k: nat :: k in idx <==> Stays(ds, n, k)
  }

  /** And how deep they are. */
  ghost predicate Levels(idx: seq<nat>, ds: seq<seq<byte>>, n: nat)
    requires n <= |ds|
  {
    |idx| == Depth(ds, n) && forall j | 0 <= j < |idx| :: idx[j] < n && Depth(ds, idx[j]) == j
  }

  ghost predicate At(stack: seq<seq<byte>>, ds: seq<seq<byte>>, idx: seq<nat>) {
    |stack| == |idx| && forall j | 0 <= j < |idx| :: idx[j] < |ds| && stack[j] == ds[idx[j]]
  }

  lemma StaysNext(ds: seq<seq<byte>>, n: nat, k: nat)
    requires n < |ds|
    ensures k < n ==> (Stays(ds, n + 1, k) <==> Stays(ds, n, k) && Depth(ds, n + 1) > Depth(ds, k))
    ensures Stays(ds, n + 1, n) <==> Rise(ds[n]) == 1
    ensures k > n ==> !Stays(ds, n + 1, k)
  {}

  lemma PicksSkip(idx: seq<nat>, ds: seq<seq<byte>>, n: nat)
    requires n < |ds| && Picks(idx, ds, n) && Levels(idx, ds, n) && Rise(ds[n]) == 0
    ensures Picks(idx, ds, n + 1) && Levels(idx, ds, n + 1)
  {
    forall k: nat ensures k in idx <==> Stays(ds, n + 1, k) { StaysNext(ds, n, k); }
  }

  lemma PicksPlain(idx: seq<nat>, ds: seq<seq<byte>>, n: nat)
    requires n < |ds| && Picks(idx, ds, n) && Levels(idx, ds, n) && Rise(ds[n]) == 1
    ensures Picks(idx + [n], ds, n + 1) && Levels(idx + [n], ds, n + 1)
  {
    forall k: nat ensures k in idx + [n] <==> Stays(ds, n + 1, k) { StaysNext(ds, n, k); }
  }

  lemma PicksUp(idx: seq<nat>, ds: seq<seq<byte>>, n: nat)
    requires n < |ds| && Picks(idx, ds, n) && Levels(idx, ds, n) && Rise(ds[n]) == -1 && idx != []
    ensures Picks(idx[..|idx| - 1], ds, n + 1) && Levels(idx[..|idx| - 1], ds, n + 1)
  {
    var (front, last) := (idx[..|idx| - 1], idx[|idx| - 1]);
    forall k: nat ensures k in front <==> Stays(ds, n + 1, k) {
      StaysNext(ds, n, k);
      if k in idx {
        var j :| 0 <= j < |idx| && idx[j] == k;
        assert Depth(ds, k) == j;
        if j < |front| { assert front[j] == k; }
      }
    }
  }

  // ---- The walk ----

  /** What the walk has after the first `n` segments. */
  function WalkedTo(ts: seq<seq<byte>>, n: nat): Option<seq<seq<byte>>>
    requires n <= |ts|
  {
    if n == 0 then Some([]) else Walked([], Listed(ts[..n - 1], ts[n - 1]))
  }

  lemma WalkedOne(ts: seq<seq<byte>>, n: nat)
    requires n < |ts|
    ensures WalkedTo(ts, n + 1) == match WalkedTo(ts, n) case None => None case Some(stack) => Taken(stack, ts[n])
  {
    if n > 0 {
      var front := ts[..n];
      assert front[..n - 1] == ts[..n - 1] && front[n - 1] == ts[n - 1];
      WalkedAppend([], Listed(front[..n - 1], front[n - 1]), ts[n]);
    }
  }

  ghost predicate AllDecode(ts: seq<seq<byte>>, ds: seq<seq<byte>>) {
    |ts| == |ds| && forall k | 0 <= k < |ts| :: Decoded(ts[k]) == Some(ds[k])
  }

  lemma ClimbsOn(ds: seq<seq<byte>>, n: nat)
    requires n < |ds|
    ensures Climbs(ds, n + 1) <==> Climbs(ds, n) || Depth(ds, n + 1) < 0
  {}

  /** Where the walk stands: the directories entered are the segments that are still there. */
  ghost predicate Holds(ds: seq<seq<byte>>, n: nat, walked: Option<seq<seq<byte>>>, idx: seq<nat>)
    requires n <= |ds|
  {
    if Climbs(ds, n) then walked == None
    else walked.Some? && Picks(idx, ds, n) && Levels(idx, ds, n) && At(walked.value, ds, idx)
  }

  lemma HoldsNext(ds: seq<seq<byte>>, n: nat, stack: seq<seq<byte>>, idx: seq<nat>) returns (idx': seq<nat>)
    requires n < |ds| && !Climbs(ds, n) && Holds(ds, n, Some(stack), idx)
    ensures Holds(ds, n + 1, Applied(stack, ds[n]), idx')
  {
    ClimbsOn(ds, n);
    if Rise(ds[n]) == 0 {
      PicksSkip(idx, ds, n);
      idx' := idx;
    } else if Rise(ds[n]) == 1 {
      PicksPlain(idx, ds, n);
      idx' := idx + [n];
    } else if idx == [] {
      idx' := [];
    } else {
      PicksUp(idx, ds, n);
      idx' := idx[..|idx| - 1];
    }
  }

  lemma {:induction false} WalksTo(ts: seq<seq<byte>>, ds: seq<seq<byte>>, n: nat) returns (idx: seq<nat>)
    requires AllDecode(ts, ds) && n <= |ts|
    ensures Holds(ds, n, WalkedTo(ts, n), idx)
  {
    if n == 0 {
      idx := [];
    } else {
      var before := WalksTo(ts, ds, n - 1);
      WalkedOne(ts, n - 1);
      ClimbsOn(ds, n - 1);
      if Climbs(ds, n - 1) {
        idx := before;
      } else {
        idx := HoldsNext(ds, n - 1, WalkedTo(ts, n - 1).value, before);
      }
    }
  }

  lemma {:induction false} LostStaysLost(ts: seq<seq<byte>>, k: nat, n: nat)
    requires k < n <= |ts| && Decoded(ts[k]) == None
    ensures WalkedTo(ts, n) == None
  {
    WalkedOne(ts, n - 1);
    if k < n - 1 { LostStaysLost(ts, k, n - 1); }
  }

  // ---- What comes out ----

  /** The path of these directories. */
  function Shown(stack: seq<seq<byte>>, trailing: bool): seq<byte> {
    if stack == [] then [SLASH] else PathOf(stack) + if trailing then [SLASH] else []
  }

  lemma {:induction false} LaidIs(stack: seq<seq<byte>>)
    ensures Laid(stack) == PathOf(stack) + [SLASH]
  {
    if stack != [] { LaidIs(stack[..|stack| - 1]); }
  }

  lemma ShownIs(stack: seq<seq<byte>>, trailing: bool)
    ensures Rendered(stack, trailing) == Shown(stack, trailing)
  {
    LaidIs(stack);
    if stack != [] && !trailing {
      assert (PathOf(stack) + [SLASH])[..|PathOf(stack)|] == PathOf(stack);
      assert PathOf(stack) + [] == PathOf(stack);
    }
  }

  function IfText(r: seq<byte>): Result<seq<byte>, UriError> { if Utf8.Valid(r) then Ok(r) else Err(Invalid) }

  function Outcome(walked: Option<seq<seq<byte>>>, trailing: bool): Result<seq<byte>, UriError> {
    match walked case None => Err(Invalid) case Some(stack) => IfText(Shown(stack, trailing))
  }

  lemma NormalizedIs(ts: seq<seq<byte>>)
    requires ts != [] && AllSlashless(ts)
    ensures Normalized(PathOf(ts)) == Outcome(WalkedTo(ts, |ts|), ts[|ts| - 1] == [])
  {
    var path := PathOf(ts);
    SplitPath(ts);
    var walked := WalkedTo(ts, |ts|);
    if walked.Some? {
      TrailsPath(ts);
      ShownIs(walked.value, Trails(path));
      if |ts| == 1 && ts[0] == [] { assert Decoded([]) == Some([]); }
    }
  }

  lemma TrailsPath(ts: seq<seq<byte>>)
    requires ts != [] && AllSlashless(ts)
    ensures Trails(PathOf(ts)) <==> ts[|ts| - 1] == [] && |ts| > 1
  {
    var (front, last) := (ts[..|ts| - 1], ts[|ts| - 1]);
    if last == [] && front != [] { SplitPath(front); }
    if last != [] { assert PathOf(ts)[|PathOf(ts)| - 1] == last[|last| - 1]; }
  }

  ghost predicate AllSpell(ts: seq<seq<byte>>, ds: seq<seq<byte>>) {
    |ts| == |ds| && forall k | 0 <= k < |ts| :: Spells(ts[k], ds[k])
  }

  /** The segments that are left of a path: those that no `..` has undone. */
  ghost predicate LeftOf(ds: seq<seq<byte>>, stack: seq<seq<byte>>) {
    exists idx: seq<nat> :: Picks(idx, ds, |ds|) && At(stack, ds, idx)
  }

  /** A path whose segments `ts` are spellings of `ds` is refused for climbing exactly when some front of `ds`
      has more `..` than plain segments. Otherwise it becomes the path of the segments that no `..` has undone,
      with a slash at its end if it had one; unless that is not text. */
  lemma ResolvesExactly(ts: seq<seq<byte>>, ds: seq<seq<byte>>) returns (stack: seq<seq<byte>>)
    requires ts != [] && AllSlashless(ts) && AllSpell(ts, ds)
    ensures if Climbs(ds, |ds|) then Normalized(PathOf(ts)) == Err(Invalid)
            else LeftOf(ds, stack) && Normalized(PathOf(ts)) == IfText(Shown(stack, ts[|ts| - 1] == []))
  {
    forall k | 0 <= k < |ts| ensures Decoded(ts[k]) == Some(ds[k]) { DecodedExactly(ts[k], ds[k]); }
    var idx := WalksTo(ts, ds, |ts|);
    NormalizedIs(ts);
    stack := if Climbs(ds, |ds|) then [] else WalkedTo(ts, |ts|).value;
  }

  lemma Ordered(a: seq<nat>, b: seq<nat>, j: nat)
    requires (forall i, j | 0 <= i < j < |a| :: a[i] < a[j]) && (forall i, j | 0 <= i < j < |b| :: b[i] < b[j])
    requires (forall k: nat :: k in a <==> k in b) && j <= |a|
    ensures j <= |b| && a[..j] == b[..j]
    decreases j
  {
    if j > 0 {
      Ordered(a, b, j - 1);
      forall i | 0 <= i < j - 1 ensures a[i] == b[i] { assert a[..j - 1][i] == b[..j - 1][i]; }
      assert a[j - 1] in b;
      var i :| 0 <= i < |b| && b[i] == a[j - 1];
      assert i >= j - 1 && b[j - 1] in a;
      var m :| 0 <= m < |a| && a[m] == b[j - 1];
    }
  }

  /** There is one such list. */
  lemma LeftOnce(ds: seq<seq<byte>>, a: seq<seq<byte>>, b: seq<seq<byte>>)
    requires LeftOf(ds, a) && LeftOf(ds, b)
    ensures a == b
  {
    var x: seq<nat> :| Picks(x, ds, |ds|) && At(a, ds, x);
    var y: seq<nat> :| Picks(y, ds, |ds|) && At(b, ds, y);
    Ordered(x, y, |x|);
    Ordered(y, x, |y|);
    assert x[..|x|] == x && y[..|y|] == y;
  }

  /** A segment that spells nothing makes the path invalid. */
  lemma BadSpelling(ts: seq<seq<byte>>, k: nat)
    requires k < |ts| && AllSlashless(ts) && forall d :: !Spells(ts[k], d)
    ensures Normalized(PathOf(ts)) == Err(Invalid)
  {
    if Decoded(ts[k]).Some? { DecodedExactly(ts[k], Decoded(ts[k]).value); }
    LostStaysLost(ts, k, |ts|);
    NormalizedIs(ts);
  }

  // ---- What may be left out of a path ----

  lemma {:induction false} SameBehind(a: seq<seq<byte>>, b: seq<seq<byte>>, ys: seq<seq<byte>>, n: nat, s: seq<seq<byte>>, t: seq<seq<byte>>)
    requires WalkedTo(a, |a|) == WalkedTo(b, |b|) && n <= |ys| && s == a + ys && t == b + ys
    ensures WalkedTo(s, |a| + n) == WalkedTo(t, |b| + n)
  {
    if n == 0 {
      PrefixWalks(a, ys, s);
      PrefixWalks(b, ys, t);
    } else {
      SameBehind(a, b, ys, n - 1, s, t);
      SameStep(s, t, |a| + n - 1, |b| + n - 1);
    }
  }

  lemma SameStep(s: seq<seq<byte>>, t: seq<seq<byte>>, i: nat, j: nat)
    requires i < |s| && j < |t| && s[i] == t[j] && WalkedTo(s, i) == WalkedTo(t, j)
    ensures WalkedTo(s, i + 1) == WalkedTo(t, j + 1)
  {
    WalkedOne(s, i);
    WalkedOne(t, j);
  }

  lemma PrefixWalks(a: seq<seq<byte>>, ys: seq<seq<byte>>, s: seq<seq<byte>>)
    requires s == a + ys
    ensures WalkedTo(s, |a|) == WalkedTo(a, |a|)
  {
    if a != [] { assert s[..|a| - 1] == a[..|a| - 1]; }
  }

  lemma NormalizedBehind(s: seq<seq<byte>>, last: seq<byte>, walked: Option<seq<seq<byte>>>)
    requires AllSlashless(s) && s != [] && last == s[|s| - 1] && walked == WalkedTo(s, |s|)
    ensures Normalized(PathOf(s)) == Outcome(walked, last == [])
  {
    NormalizedIs(s);
  }

  /** Two fronts that the walk leaves alike may be exchanged. */
  lemma Exchanged(a: seq<seq<byte>>, b: seq<seq<byte>>, ys: seq<seq<byte>>, s: seq<seq<byte>>, t: seq<seq<byte>>)
    requires s == a + ys && t == b + ys && AllSlashless(s) && AllSlashless(t) && ys != [] && WalkedTo(a, |a|) == WalkedTo(b, |b|)
    ensures Normalized(PathOf(s)) == Normalized(PathOf(t))
  {
    var walked := SameWhole(a, b, ys, s, t);
    LastOf(a, ys, s);
    LastOf(b, ys, t);
    NormalizedBehind(s, ys[|ys| - 1], walked);
    NormalizedBehind(t, ys[|ys| - 1], walked);
  }

  lemma SameWhole(a: seq<seq<byte>>, b: seq<seq<byte>>, ys: seq<seq<byte>>, s: seq<seq<byte>>, t: seq<seq<byte>>)
    returns (walked: Option<seq<seq<byte>>>)
    requires s == a + ys && t == b + ys && WalkedTo(a, |a|) == WalkedTo(b, |b|)
    ensures walked == WalkedTo(s, |s|) == WalkedTo(t, |t|)
  {
    SameBehind(a, b, ys, |ys|, s, t);
    walked := WalkedTo(s, |s|);
  }

  lemma LastOf(a: seq<seq<byte>>, ys: seq<seq<byte>>, s: seq<seq<byte>>)
    requires s == a + ys && ys != []
    ensures s != [] && s[|s| - 1] == ys[|ys| - 1]
  {}

  /** Wherever something stands behind it, an empty segment or a spelling of `.` may be left out. */
  lemma DotVanishes(xs: seq<seq<byte>>, t: seq<byte>, ys: seq<seq<byte>>)
    requires AllSlashless(xs + [t] + ys) && ys != [] && (Spells(t, []) || Spells(t, [DOT]))
    ensures Normalized(PathOf(xs + [t] + ys)) == Normalized(PathOf(xs + ys))
  {
    DecodedExactly(t, []);
    DecodedExactly(t, [DOT]);
    WalkedOne(xs + [t], |xs|);
    PrefixWalks(xs, [t], xs + [t]);
    Parts(xs, [t], ys);
    Exchanged(xs + [t], xs, ys, xs + [t] + ys, xs + ys);
  }

  lemma Parts(xs: seq<seq<byte>>, ts: seq<seq<byte>>, ys: seq<seq<byte>>)
    requires AllSlashless(xs + ts + ys)
    ensures AllSlashless(xs + ys)
  {
    forall k | 0 <= k < |xs + ys| ensures NoSlash((xs + ys)[k]) {
      var j := if k < |xs| then k else k + |ts|;
      assert (xs + ts + ys)[j] == (xs + ys)[k];
    }
  }

  /** So may a plain segment with the `..` behind it. */
  lemma UpUndoes(xs: seq<seq<byte>>, t: seq<byte>, d: seq<byte>, up: seq<byte>, ys: seq<seq<byte>>)
    requires AllSlashless(xs + [t, up] + ys) && ys != [] && Spells(t, d) && Plain(d) && Spells(up, [DOT, DOT])
    ensures Normalized(PathOf(xs + [t, up] + ys)) == Normalized(PathOf(xs + ys))
  {
    DecodedExactly(t, d);
    DecodedExactly(up, [DOT, DOT]);
    var a := xs + [t, up];
    WalkedOne(a, |xs|);
    WalkedOne(a, |xs| + 1);
    PrefixWalks(xs, [t, up], a);
    if WalkedTo(xs, |xs|).Some? {
      var stack := WalkedTo(xs, |xs|).value;
      assert (stack + [d])[..|stack|] == stack;
    }
    Parts(xs, [t, up], ys);
    Exchanged(a, xs, ys, a + ys, xs + ys);
  }

  /** And `..` at the root is refused, with everything behind it. */
  lemma NoneAboveRoot(up: seq<byte>, ys: seq<seq<byte>>)
    requires AllSlashless([up] + ys) && Spells(up, [DOT, DOT])
    ensures Normalized(PathOf([up] + ys)) == Err(Invalid)
  {
    DecodedExactly(up, [DOT, DOT]);
    var ts := [up] + ys;
    WalkedOne(ts, 0);
    LostStays(ts, 1, |ts|);
    NormalizedIs(ts);
  }

  lemma {:induction false} LostStays(ts: seq<seq<byte>>, m: nat, n: nat)
    requires m <= n <= |ts| && WalkedTo(ts, m) == None
    ensures WalkedTo(ts, n) == None
  {
    if m < n {
      LostStays(ts, m, n - 1);
      WalkedOne(ts, n - 1);
    }
  }

  // ---- One path ----

  lemma Bared(t: seq<byte>)
    requires forall k | 0 <= k < |t| :: t[k] != 0 && t[k] != SLASH && t[k] != PERCENT
    ensures Spells(t, t)
  {
    DecodedSame(t);
    DecodedExactly(t, t);
  }

  lemma Lists(a: seq<byte>, b: seq<byte>, c: seq<byte>)
    ensures PathOf([c]) == [SLASH] + c
    ensures PathOf([a, b, c]) == [SLASH] + a + [SLASH] + b + [SLASH] + c
  {
    var (one, two, three) := ([a], [a, b], [a, b, c]);
    assert three[..2] == two && two[..1] == one && one[..0] == [] && [c][..0] == [];
    assert PathOf([]) == [] && PathOf([c]) == [] + [SLASH] + c && PathOf(one) == [] + [SLASH] + a;
    assert PathOf(two) == PathOf(one) + [SLASH] + b && PathOf(three) == PathOf(two) + [SLASH] + c;
  }

  /** Up and down again, between plain names that need no escapes. */
  lemma UpOnceOf(a: seq<byte>, up: seq<byte>, b: seq<byte>)
    requires Plain(a) && Verbatim(a) && Verbatim(b) && up == [DOT, DOT]
    ensures Normalized([SLASH] + a + [SLASH] + up + [SLASH] + b) == Normalized([SLASH] + b)
  {
    Bared(a);
    Bared(up);
    var none: seq<seq<byte>> := [];
    assert none + [a, up] + [b] == [a, up, b] && none + [b] == [b];
    UpUndoes(none, a, a, up, [b]);
    Lists(a, up, b);
  }

  /** /a/../b becomes /b. */
  lemma UpOnce()
    ensures Normalized([SLASH, 0x61, SLASH, DOT, DOT, SLASH, 0x62]) == Ok([SLASH, 0x62])
  {
    var a: seq<byte>, up: seq<byte>, b: seq<byte> := [0x61], [DOT, DOT], [0x62];
    UpOnceOf(a, up, b);
    assert [SLASH] + a + [SLASH] + up + [SLASH] + b == [SLASH, 0x61, SLASH, DOT, DOT, SLASH, 0x62];
    Stands(b, [SLASH] + b);
    assert [SLASH] + b == [SLASH, 0x62];
  }

  lemma Stands(b: seq<byte>, path: seq<byte>)
    requires b == [0x62] && path == [SLASH] + b
    ensures Normalized(path) == Ok(path)
  {
    Utf8.AsciiIsValid(path);
    NormalStays(path);
  }
}
