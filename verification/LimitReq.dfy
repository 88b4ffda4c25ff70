/** The `limit_req` table with requests checked one at a time: a map from keys to buckets that may
    forget.

    A slot is a key's hash, 0 when empty, and a state word that packs its bucket, 0 when it has none yet.
    The table size is a power of two, so the source's `& mask` is written `%`. Keys appear only as their
    hashes. */
module LimitReq {
  import opened Wrappers
  import opened LeakyBucket

  const PROBE: nat := 16
  const MIN_SLOTS: nat := 64
  const PRESENT: nat := 0x8000_0000_0000_0000
  const EXCESS_BASE: nat := 0x100_0000

  type Hash = h: int | 1 <= h < 0x1_0000_0000_0000_0000 witness 1

  /** A word for the bucket, never 0. */
  function Pack(last: nat, excess: nat): (w: nat)
    ensures w != 0 && Unpack(w) == Stored(last, excess)
  {
    PRESENT + (last % MS_LIMIT) * EXCESS_BASE + Min(excess, EXCESS_MASK)
  }

  function Unpack(w: nat): Bucket { Bucket(w / EXCESS_BASE % MS_LIMIT, w % EXCESS_BASE) }

  function BucketIn(w: nat): Option<Bucket> { if w == 0 then None else Some(Unpack(w)) }

  datatype Table = Table(hashes: seq<nat>, states: seq<nat>)

  ghost predicate Sized(t: Table) { |t.hashes| == |t.states| >= MIN_SLOTS }

  function Position(n: nat, h: nat, p: nat): (i: nat)
    requires n > 0
    ensures i < n
  {
    (h + p) % n
  }

  datatype Found =
    | Ours(slot: nat)     // the key's own slot
    | Empty(slot: nat)    // an empty slot before it
    | Stalest(slot: nat)  // the window is full of other keys, this one idle longest

  /** The pass over the window from probe `p` on, with the stalest occupant so far. */
  function Scan(t: Table, h: Hash, p: nat, stalest: Option<nat>): (f: Found)
    requires Sized(t) && p <= PROBE && (p > 0 ==> stalest.Some?) && (stalest.Some? ==> stalest.value < |t.hashes|)
    ensures f.slot < |t.hashes|
    decreases PROBE - p
  {
    if p == PROBE then Stalest(stalest.value)
    else
      var i := Position(|t.hashes|, h, p);
      if t.hashes[i] == h then Ours(i)
      else if t.hashes[i] == 0 then Empty(i)
      else
        Scan(t, h, p + 1,
             if stalest.None? || Unpack(t.states[i]).last < Unpack(t.states[stalest.value]).last then Some(i) else stalest)
  }

  function Bumped(t: Table, i: nat, now: nat, lim: Limit): (Table, Decision)
    requires Sized(t) && i < |t.hashes|
  {
    var b := BucketIn(t.states[i]);
    var (excess, decision) := Step(Excess(b), Elapsed(b, now), lim);
    if decision == Reject then (t, Reject) else (t.(states := t.states[i := Pack(now, excess)]), decision)
  }

  /** The slot becomes the key's, with no bucket yet. */
  function Claimed(t: Table, i: nat, h: Hash): (t': Table)
    requires Sized(t) && i < |t.hashes|
    ensures Sized(t')
  {
    Table(t.hashes[i := h], t.states[i := 0])
  }

  function TableChecked(t: Table, h: Hash, now: nat, lim: Limit): (Table, Decision)
    requires Sized(t)
  {
    match Scan(t, h, 0, None)
    case Ours(i) => Bumped(t, i, now, lim)
    case Empty(i) => Bumped(Claimed(t, i, h), i, now, lim)
    case Stalest(i) => Bumped(Claimed(t, i, h), i, now, lim)
  }

  // ---- The shape of the table: one slot a key, reachable by its probe ----

  ghost predicate Holds(t: Table, i: nat, h: Hash) { i < |t.hashes| && t.hashes[i] == h }

  ghost predicate Placed(t: Table, i: nat, h: Hash, p: nat)
    requires Sized(t)
  {
    p < PROBE && i == Position(|t.hashes|, h, p) && Reached(t, h, p)
  }

  ghost predicate Reached(t: Table, h: Hash, p: nat)
    requires Sized(t)
  {
    forall q | 0 <= q < p :: t.hashes[Position(|t.hashes|, h, q)] != 0
  }

  ghost predicate Shaped(t: Table) {
    && Sized(t)
    && (forall i | 0 <= i < |t.hashes| :: t.hashes[i] == 0 || 1 <= t.hashes[i] < U64)
    && (forall i: nat, j: nat, h: Hash | Holds(t, i, h) && Holds(t, j, h) :: i == j)
    && (forall i: nat, h: Hash | Holds(t, i, h) :: exists p: nat :: Placed(t, i, h, p))
  }

  ghost predicate Absent(t: Table, h: Hash) { forall i: nat :: !Holds(t, i, h) }

  /** The bucket the table remembers for a key. */
  ghost function BucketOf(t: Table, h: Hash): Option<Bucket>
    requires Sized(t)
  {
    if Absent(t, h) then None else var i: nat :| Holds(t, i, h); BucketIn(t.states[i])
  }

  lemma BucketAt(t: Table, i: nat, h: Hash)
    requires Shaped(t) && Holds(t, i, h)
    ensures BucketOf(t, h) == BucketIn(t.states[i])
  {}

  lemma HeldIsMet(t: Table, h: Hash, p: nat, j: nat)
    requires Shaped(t) && Holds(t, j, h) && p <= PROBE
    requires forall q: nat | q < p :: !Holds(t, Position(|t.hashes|, h, q), h)
    ensures p < PROBE && t.hashes[Position(|t.hashes|, h, p)] != 0
  {
    var q: nat :| Placed(t, j, h, q);
    assert q >= p;
    assert Holds(t, Position(|t.hashes|, h, q), h);
  }

  /** Idle at least as long as all the first `p` of the window. */
  ghost predicate IdleLongest(t: Table, h: Hash, p: nat, i: nat)
    requires Sized(t) && i < |t.hashes|
  {
    forall q: nat | q < p :: Unpack(t.states[i]).last <= Unpack(t.states[Position(|t.hashes|, h, q)]).last
  }

  ghost predicate MetRightly(t: Table, h: Hash, f: Found)
    requires Sized(t)
  {
    match f
    case Ours(i) => Holds(t, i, h)
    case Empty(i) => Absent(t, h) && i < |t.hashes| && t.hashes[i] == 0 && exists q: nat :: Placed(t, i, h, q)
    case Stalest(i) => Absent(t, h) && i < |t.hashes| && IdleLongest(t, h, PROBE, i) && Reached(t, h, PROBE) && exists q: nat :: Placed(t, i, h, q)
  }

  lemma {:induction false} ScanFinds(t: Table, h: Hash, p: nat, stalest: Option<nat>)
    requires Shaped(t) && p <= PROBE && Reached(t, h, p) && (p > 0 ==> stalest.Some?)
    requires forall q: nat | q < p :: !Holds(t, Position(|t.hashes|, h, q), h)
    requires stalest.Some? ==> stalest.value < |t.hashes| && IdleLongest(t, h, p, stalest.value) && exists q: nat :: Placed(t, stalest.value, h, q)
    ensures MetRightly(t, h, Scan(t, h, p, stalest))
    decreases PROBE - p
  {
    var absent := p == PROBE || t.hashes[Position(|t.hashes|, h, p)] == 0;
    if absent {
      forall j: nat ensures !Holds(t, j, h) {
        if Holds(t, j, h) { HeldIsMet(t, h, p, j); }
      }
    }
    if p < PROBE {
      var i := Position(|t.hashes|, h, p);
      assert Placed(t, i, h, p);
      if !absent && t.hashes[i] != h {
        var next := if stalest.None? || Unpack(t.states[i]).last < Unpack(t.states[stalest.value]).last then Some(i) else stalest;
        ScanFinds(t, h, p + 1, next);
      }
    }
  }

  // ---- The table as a map that may forget ----

  lemma ClaimKeepsShape(t: Table, i: nat, h: Hash, p: nat)
    requires Shaped(t) && Absent(t, h) && Placed(t, i, h, p)
    ensures Shaped(Claimed(t, i, h)) && Holds(Claimed(t, i, h), i, h)
  {
    var t' := Claimed(t, i, h);
    forall j: nat, k: Hash | Holds(t', j, k) ensures exists q: nat :: Placed(t', j, k, q) {
      if j == i {
        assert Placed(t', i, h, p);
      } else {
        assert Holds(t, j, k);
        var q: nat :| Placed(t, j, k, q);
        assert Placed(t', j, k, q);
      }
    }
    forall j: nat, m: nat, k: Hash | Holds(t', j, k) && Holds(t', m, k) ensures j == m {
      assert j != i ==> Holds(t, j, k);
      assert m != i ==> Holds(t, m, k);
    }
  }

  lemma ForgetsHeld(t: Table, i: nat, h: Hash, k: Hash)
    requires Shaped(t) && Holds(t, i, k) && k != h
    ensures Absent(Claimed(t, i, h), k)
  {
    forall m: nat ensures !Holds(Claimed(t, i, h), m, k) {
      if m != i && Holds(Claimed(t, i, h), m, k) { assert Holds(t, m, k); }
    }
  }

  lemma LeavesOthers(t: Table, i: nat, h: Hash, t': Table, k: Hash)
    requires Shaped(t) && i < |t.hashes| && t' == Claimed(t, i, h) && Shaped(t') && k != h && !Holds(t, i, k)
    ensures BucketOf(t', k) == BucketOf(t, k)
  {
    if j: nat :| Holds(t, j, k) {
      BucketAt(t, j, k);
      assert Holds(t', j, k);
      BucketAt(t', j, k);
    } else {
      forall m: nat ensures !Holds(t', m, k) { assert !Holds(t, m, k); }
    }
  }

  /** Claiming a slot forgets what it held, and nothing else. */
  lemma ClaimForgets(t: Table, i: nat, h: Hash, p: nat, k: Hash)
    requires Shaped(t) && Absent(t, h) && Placed(t, i, h, p)
    ensures BucketOf(Claimed(t, i, h), k) == if k == h || t.hashes[i] == k then None else BucketOf(t, k)
  {
    ClaimKeepsShape(t, i, h, p);
    if k == h {
      BucketAt(Claimed(t, i, h), i, h);
    } else if t.hashes[i] == k {
      ForgetsHeld(t, i, h, k);
    } else {
      LeavesOthers(t, i, h, Claimed(t, i, h), k);
    }
  }

  /** Rewriting the state of a slot changes its own key's bucket only. */
  lemma StateOf(t: Table, i: nat, h: Hash, w: nat, k: Hash)
    requires Shaped(t) && Holds(t, i, h)
    ensures Shaped(t.(states := t.states[i := w]))
    ensures BucketOf(t.(states := t.states[i := w]), k) == if k == h then BucketIn(w) else BucketOf(t, k)
  {
    var t' := t.(states := t.states[i := w]);
    forall j: nat, m: Hash | Holds(t', j, m) ensures exists q: nat :: Placed(t', j, m, q) {
      assert Holds(t, j, m);
      var q: nat :| Placed(t, j, m, q);
      assert Placed(t', j, m, q);
    }
    forall j: nat, m: nat, x: Hash | Holds(t', j, x) && Holds(t', m, x) ensures j == m {
      assert Holds(t, j, x) && Holds(t, m, x);
    }
    if k == h {
      BucketAt(t', i, h);
    } else if Absent(t, k) {
      forall j: nat ensures !Holds(t', j, k) { assert !Holds(t, j, k); }
    } else {
      var j: nat :| Holds(t, j, k);
      BucketAt(t, j, k);
      BucketAt(t', j, k);
    }
  }

  lemma BumpedIs(t: Table, i: nat, h: Hash, now: nat, lim: Limit, k: Hash)
    requires Shaped(t) && Holds(t, i, h)
    ensures var (t', d) := Bumped(t, i, now, lim);
            var (b', d') := Checked(BucketOf(t, h), now, lim);
            Shaped(t') && d == d' && BucketOf(t', k) == if k == h then b' else BucketOf(t, k)
  {
    BucketAt(t, i, h);
    var b := BucketIn(t.states[i]);
    StateOf(t, i, h, Pack(now, Step(Excess(b), Elapsed(b, now), lim).0), k);
  }

  /** The keys whose slots fill a key's window, with none of its own and none empty. */
  ghost predicate Crowded(t: Table, h: Hash)
    requires Sized(t)
  {
    Absent(t, h) && Reached(t, h, PROBE)
  }

  /** Whether `k` is the key a check of `h` forgets: only from a crowded window, one idle longest. */
  ghost predicate Victim(t: Table, h: Hash, k: Hash)
    requires Sized(t)
  {
    var f := Scan(t, h, 0, None);
    f.Stalest? && t.hashes[f.slot] == k
  }

  lemma VictimIsStalest(t: Table, h: Hash, k: Hash)
    requires Shaped(t) && Victim(t, h, k)
    ensures Crowded(t, h) && k != h && exists i: nat :: Holds(t, i, k) && IdleLongest(t, h, PROBE, i) && exists q: nat :: Placed(t, i, h, q)
    ensures forall k': Hash :: Victim(t, h, k') ==> k' == k
  {
    ScanFinds(t, h, 0, None);
    var i := Scan(t, h, 0, None).slot;
    assert Holds(t, i, k);
  }

  /** A check decides as the bucket rule does on the key's own bucket, or on none; it stores what the rule
      says; and of the other keys it forgets at most a victim and touches none. */
  lemma Refines(t: Table, h: Hash, now: nat, lim: Limit, k: Hash)
    requires Shaped(t)
    ensures var (t', d) := TableChecked(t, h, now, lim);
            var (b', d') := Checked(BucketOf(t, h), now, lim);
            && Shaped(t') && d == d'
            && BucketOf(t', k) == if k == h then b' else if Victim(t, h, k) then None else BucketOf(t, k)
  {
    ScanFinds(t, h, 0, None);
    match Scan(t, h, 0, None)
    case Ours(i) => BumpedIs(t, i, h, now, lim, k);
    case Empty(i) => ClaimedIs(t, i, h, now, lim, k);
    case Stalest(i) => ClaimedIs(t, i, h, now, lim, k);
  }

  lemma ClaimedIs(t: Table, i: nat, h: Hash, now: nat, lim: Limit, k: Hash)
    requires Shaped(t) && Absent(t, h) && i < |t.hashes| && exists q: nat :: Placed(t, i, h, q)
    ensures var (t', d) := Bumped(Claimed(t, i, h), i, now, lim);
            var (b', d') := Checked(None, now, lim);
            && Shaped(t') && d == d' && BucketOf(t, h) == None
            && BucketOf(t', k) == if k == h then b' else if t.hashes[i] == k then None else BucketOf(t, k)
  {
    var p: nat :| Placed(t, i, h, p);
    ClaimKeepsShape(t, i, h, p);
    ClaimForgets(t, i, h, p, h);
    ClaimForgets(t, i, h, p, k);
    BumpedIs(Claimed(t, i, h), i, h, now, lim, k);
  }

  // ---- Runs: one key's view of a busy table ----

  datatype Request = Request(h: Hash, now: nat)

  /** One check, as a step from table to table. */
  ghost predicate Serves(t: Table, r: Request, lim: Limit, t': Table, d: Decision) {
    Sized(t) && (t', d) == TableChecked(t, r.h, r.now, lim)
  }

  /** A run of the table: `ts` are the tables before and after each request, `ds` the decisions. */
  ghost predicate Run(ts: seq<Table>, rs: seq<Request>, ds: seq<Decision>, lim: Limit) {
    |ts| == |rs| + 1 && |ds| == |rs| && forall i: nat | i < |rs| :: RunsAt(ts, rs, ds, lim, i)
  }

  ghost predicate RunsAt(ts: seq<Table>, rs: seq<Request>, ds: seq<Decision>, lim: Limit, i: nat)
    requires i < |rs| == |ds| && |ts| == |rs| + 1
  {
    Serves(ts[i], rs[i], lim, ts[i + 1], ds[i])
  }

  /** The times of the first `n` requests that are of `h`. */
  function TimesOf(rs: seq<Request>, n: nat, h: Hash): seq<nat>
    requires n <= |rs|
  {
    if n == 0 then [] else TimesOf(rs, n - 1, h) + if rs[n - 1].h == h then [rs[n - 1].now] else []
  }

  /** Those of the first `n` requests that are of `h` and were admitted. */
  ghost function Admitted(ts: seq<Table>, rs: seq<Request>, ds: seq<Decision>, n: nat, h: Hash): seq<Admission>
    requires |ts| == |rs| + 1 && |ds| == |rs| && n <= |rs| && AllSized(ts)
  {
    if n == 0 then []
    else
      Admitted(ts, rs, ds, n - 1, h) +
      if rs[n - 1].h != h || ds[n - 1] == Reject then []
      else [Admission(rs[n - 1].now, Excess(BucketOf(ts[n], h)), rs[n - 1].now + Wait(ds[n - 1]))]
  }

  /** No check forgets `h`. */
  ghost predicate Remembered(ts: seq<Table>, rs: seq<Request>, h: Hash) {
    |ts| == |rs| + 1 && forall i: nat | i < |rs| :: Spares(ts[i], rs[i], h)
  }

  ghost predicate Spares(t: Table, r: Request, h: Hash) { Sized(t) && !Victim(t, r.h, h) }

  ghost predicate AllSized(ts: seq<Table>) { forall t | t in ts :: Sized(t) }

  /** What a check of some key means for key `k`. */
  ghost predicate Means(t: Table, r: Request, lim: Limit, t': Table, d: Decision, k: Hash)
    requires Sized(t) && Sized(t')
  {
    if r.h == k then (BucketOf(t', k), d) == Checked(BucketOf(t, k), r.now, lim)
    else BucketOf(t', k) == BucketOf(t, k)
  }

  lemma ServesMeans(t: Table, r: Request, lim: Limit, t': Table, d: Decision, k: Hash)
    requires Shaped(t) && Serves(t, r, lim, t', d) && !Victim(t, r.h, k)
    ensures Shaped(t') && Means(t, r, lim, t', d, k)
  {
    Refines(t, r.h, r.now, lim, k);
  }

  lemma {:induction false} StaysShaped(ts: seq<Table>, rs: seq<Request>, ds: seq<Decision>, lim: Limit, n: nat)
    requires Run(ts, rs, ds, lim) && Shaped(ts[0]) && n <= |rs|
    ensures Shaped(ts[n])
  {
    if n > 0 {
      StaysShaped(ts, rs, ds, lim, n - 1);
      assert RunsAt(ts, rs, ds, lim, n - 1);
      Refines(ts[n - 1], rs[n - 1].h, rs[n - 1].now, lim, rs[n - 1].h);
    }
  }

  lemma LogAppend(b: Option<Bucket>, times: seq<nat>, now: nat, lim: Limit, b': Option<Bucket>, d: Decision)
    requires (b', d) == Checked(After(b, times, lim), now, lim)
    ensures After(b, times + [now], lim) == b'
    ensures Log(b, times + [now], lim) == Log(b, times, lim) + if d == Reject then [] else [Admission(now, Excess(b'), now + Wait(d))]
  {
    assert (times + [now])[..|times|] == times;
  }

  lemma ServedNext(b: Option<Bucket>, times: seq<nat>, t: Table, r: Request, lim: Limit, t': Table, d: Decision, h: Hash)
    requires Shaped(t) && Serves(t, r, lim, t', d) && Spares(t, r, h) && Sized(t') && BucketOf(t, h) == After(b, times, lim)
    ensures var times' := times + if r.h == h then [r.now] else [];
            && BucketOf(t', h) == After(b, times', lim)
            && Log(b, times', lim) ==
               Log(b, times, lim) + if r.h != h || d == Reject then [] else [Admission(r.now, Excess(BucketOf(t', h)), r.now + Wait(d))]
  {
    ServesMeans(t, r, lim, t', d, h);
    if r.h == h {
      LogAppend(b, times, r.now, lim, BucketOf(t', h), d);
    } else {
      assert times + [] == times;
    }
  }

  /** A key's bucket and its admissions, as if it had been given a bucket of its own these times. */
  ghost predicate Alone(b: Option<Bucket>, times: seq<nat>, lim: Limit, now: Option<Bucket>, log: seq<Admission>) {
    now == After(b, times, lim) && log == Log(b, times, lim)
  }

  lemma AloneNext(b: Option<Bucket>, times: seq<nat>, t: Table, r: Request, lim: Limit, t': Table, d: Decision, h: Hash,
                  log: seq<Admission>, times': seq<nat>, log': seq<Admission>)
    requires Shaped(t) && Serves(t, r, lim, t', d) && Spares(t, r, h) && Sized(t') && Alone(b, times, lim, BucketOf(t, h), log)
    requires times' == times + if r.h == h then [r.now] else []
    requires log' == log + if r.h != h || d == Reject then [] else [Admission(r.now, Excess(BucketOf(t', h)), r.now + Wait(d))]
    ensures Alone(b, times', lim, BucketOf(t', h), log')
  {
    ServedNext(b, times, t, r, lim, t', d, h);
  }

  ghost predicate AllShaped(ts: seq<Table>) { forall t | t in ts :: Shaped(t) }

  lemma AloneOneMore(b: Option<Bucket>, ts: seq<Table>, rs: seq<Request>, ds: seq<Decision>, lim: Limit, m: nat, h: Hash)
    requires Run(ts, rs, ds, lim) && m < |rs| && Remembered(ts, rs, h) && AllSized(ts) && AllShaped(ts)
    requires Alone(b, TimesOf(rs, m, h), lim, BucketOf(ts[m], h), Admitted(ts, rs, ds, m, h))
    ensures Alone(b, TimesOf(rs, m + 1, h), lim, BucketOf(ts[m + 1], h), Admitted(ts, rs, ds, m + 1, h))
  {
    assert RunsAt(ts, rs, ds, lim, m) && Spares(ts[m], rs[m], h) && ts[m] in ts;
    AloneNext(b, TimesOf(rs, m, h), ts[m], rs[m], lim, ts[m + 1], ds[m], h,
              Admitted(ts, rs, ds, m, h), TimesOf(rs, m + 1, h), Admitted(ts, rs, ds, m + 1, h));
  }

  lemma {:induction false} AloneAfter(b: Option<Bucket>, ts: seq<Table>, rs: seq<Request>, ds: seq<Decision>, lim: Limit, n: nat, h: Hash)
    requires Run(ts, rs, ds, lim) && n <= |rs| && Remembered(ts, rs, h) && AllSized(ts) && AllShaped(ts) && b == BucketOf(ts[0], h)
    ensures Alone(b, TimesOf(rs, n, h), lim, BucketOf(ts[n], h), Admitted(ts, rs, ds, n, h))
  {
    if n > 0 {
      AloneAfter(b, ts, rs, ds, lim, n - 1, h);
      AloneOneMore(b, ts, rs, ds, lim, n - 1, h);
    }
  }

  /** Whatever other keys do, a key that is not forgotten is served as by a bucket of its own. */
  lemma ServedAlone(ts: seq<Table>, rs: seq<Request>, ds: seq<Decision>, lim: Limit, h: Hash)
    requires Run(ts, rs, ds, lim) && Shaped(ts[0]) && Remembered(ts, rs, h) && AllSized(ts)
    ensures BucketOf(ts[|rs|], h) == After(BucketOf(ts[0], h), TimesOf(rs, |rs|, h), lim)
    ensures Admitted(ts, rs, ds, |rs|, h) == Log(BucketOf(ts[0], h), TimesOf(rs, |rs|, h), lim)
  {
    forall t | t in ts ensures Shaped(t) {
      var n :| 0 <= n < |ts| && ts[n] == t;
      StaysShaped(ts, rs, ds, lim, n);
    }
    AloneAfter(BucketOf(ts[0], h), ts, rs, ds, lim, |rs|, h);
  }

  /** The rate bound of one key in the table. */
  lemma KeyRateBound(ts: seq<Table>, rs: seq<Request>, ds: seq<Decision>, lim: Limit, h: Hash, log: seq<Admission>, i: nat, j: nat)
    requires Run(ts, rs, ds, lim) && Shaped(ts[0]) && Remembered(ts, rs, h) && AllSized(ts)
    requires Sane(BucketOf(ts[0], h), TimesOf(rs, |rs|, h), lim)
    requires log == Admitted(ts, rs, ds, |rs|, h) && i < j < |log|
    ensures log[i].at <= log[j].at && 1000 * (j - i) <= lim.burst + lim.rate * (log[j].at - log[i].at) / 1000
  {
    ServedAlone(ts, rs, ds, lim, h);
    BoundOf(BucketOf(ts[0], h), TimesOf(rs, |rs|, h), lim, log, i, j);
  }

  /** With delays, the requests of one key in the table start at the rate, whatever other keys do. */
  lemma KeyShapingBound(ts: seq<Table>, rs: seq<Request>, ds: seq<Decision>, lim: Limit, h: Hash, log: seq<Admission>, i: nat, j: nat)
    requires Run(ts, rs, ds, lim) && Shaped(ts[0]) && Remembered(ts, rs, h) && AllSized(ts)
    requires Sane(BucketOf(ts[0], h), TimesOf(rs, |rs|, h), lim) && !lim.nodelay
    requires log == Admitted(ts, rs, ds, |rs|, h) && i < j < |log|
    ensures Paced(log[i], log[j], j - i, lim)
  {
    ServedAlone(ts, rs, ds, lim, h);
    ShapingOf(BucketOf(ts[0], h), TimesOf(rs, |rs|, h), lim, log, i, j);
  }

  /** Its requests wait as those of a bucket of its own: not at all with `nodelay` or within `delayAfter`, and
      otherwise for what is beyond. */
  lemma KeyStartsExactly(ts: seq<Table>, rs: seq<Request>, ds: seq<Decision>, lim: Limit, h: Hash, log: seq<Admission>, i: nat)
    requires Run(ts, rs, ds, lim) && Shaped(ts[0]) && Remembered(ts, rs, h) && AllSized(ts)
    requires Sane(BucketOf(ts[0], h), TimesOf(rs, |rs|, h), lim)
    requires log == Admitted(ts, rs, ds, |rs|, h) && i < |log|
    ensures var wait := log[i].start - log[i].at;
            && (lim.nodelay || log[i].excess <= lim.delayAfter ==> wait == 0)
            && (!lim.nodelay && log[i].excess > lim.delayAfter ==>
                  wait >= 0 && lim.rate * wait <= 1000 * (log[i].excess - lim.delayAfter) < lim.rate * wait + lim.rate)
  {
    ServedAlone(ts, rs, ds, lim, h);
    StartsOf(BucketOf(ts[0], h), TimesOf(rs, |rs|, h), lim, log, i);
  }

  lemma StartsOf(b: Option<Bucket>, times: seq<nat>, lim: Limit, log: seq<Admission>, i: nat)
    requires Sane(b, times, lim) && log == Log(b, times, lim) && i < |log|
    ensures var wait := log[i].start - log[i].at;
            && (lim.nodelay || log[i].excess <= lim.delayAfter ==> wait == 0)
            && (!lim.nodelay && log[i].excess > lim.delayAfter ==>
                  wait >= 0 && lim.rate * wait <= 1000 * (log[i].excess - lim.delayAfter) < lim.rate * wait + lim.rate)
  {
    StartsExactly(b, times, lim, i);
  }

  lemma ShapingOf(b: Option<Bucket>, times: seq<nat>, lim: Limit, log: seq<Admission>, i: nat, j: nat)
    requires Sane(b, times, lim) && log == Log(b, times, lim) && i < j < |log| && !lim.nodelay
    ensures Paced(log[i], log[j], j - i, lim)
  {
    ShapingBound(b, times, lim, i, j);
  }

  lemma BoundOf(b: Option<Bucket>, times: seq<nat>, lim: Limit, log: seq<Admission>, i: nat, j: nat)
    requires Sane(b, times, lim) && log == Log(b, times, lim) && i < j < |log|
    ensures log[i].at <= log[j].at && 1000 * (j - i) <= lim.burst + lim.rate * (log[j].at - log[i].at) / 1000
  {
    RateBound(b, times, lim, i, j);
  }

  /** An empty table remembers nothing. */
  lemma FreshIsShaped(n: nat, t: Table)
    requires n >= MIN_SLOTS && t == Table(seq(n, _ => 0), seq(n, _ => 0))
    ensures Shaped(t) && forall h: Hash :: BucketOf(t, h) == None
  {
    forall h: Hash ensures BucketOf(t, h) == None {
      forall i: nat ensures !Holds(t, i, h) {}
    }
  }

  // ---- The zone as an object over its shared words ----

  /** The source keeps hash and state of a slot side by side in one mapping; here each has its array. */
  class Zone {
    const hashes: array<nat>
    const states: array<nat>

    ghost function View(): Table
      reads this, hashes, states
    {
      Table(hashes[..], states[..])
    }

    ghost predicate Valid()
      reads this, hashes, states
    {
      hashes != states && Shaped(View())
    }

    constructor (slots: nat)
      requires slots >= MIN_SLOTS
      ensures Valid() && fresh(hashes) && fresh(states) && forall h: Hash :: BucketOf(View(), h) == None
    {
      hashes := new nat[slots](_ => 0);
      states := new nat[slots](_ => 0);
      new;
      assert hashes[..] == seq(slots, _ => 0) && states[..] == seq(slots, _ => 0);
      FreshIsShaped(slots, View());
    }

    /** `rate`, `burst` and the rest are the zone's and the directive's. */
    method Check(h: Hash, now: nat, lim: Limit) returns (d: Decision)
      requires Valid()
      modifies hashes, states
      ensures Valid() && (View(), d) == TableChecked(old(View()), h, now, lim)
      ensures d == Checked(BucketOf(old(View()), h), now, lim).1
      ensures BucketOf(View(), h) == Checked(BucketOf(old(View()), h), now, lim).0
      ensures forall k: Hash | k != h :: BucketOf(View(), k) == if Victim(old(View()), h, k) then None else BucketOf(old(View()), k)
    {
      ghost var t := View();
      forall k: Hash { Refines(t, h, now, lim, k); }
      d := Probe(h, now, lim);
    }

    method Probe(h: Hash, now: nat, lim: Limit) returns (d: Decision)
      requires hashes != states && Sized(View())
      modifies hashes, states
      ensures (View(), d) == TableChecked(old(View()), h, now, lim)
    {
      var f := Find(h);
      if !f.Ours? { Claim(f.slot, h); }
      d := Bump(f.slot, now, lim);
    }

    /** The scan goes on past an occupant. */
    lemma ScanOn(t: Table, h: Hash, p: nat, stalest: Option<nat>, next: Option<nat>)
      requires Sized(t) && p < PROBE && (p > 0 ==> stalest.Some?) && (stalest.Some? ==> stalest.value < |t.hashes|)
      requires var i := Position(|t.hashes|, h, p);
               && t.hashes[i] != h && t.hashes[i] != 0
               && next == if stalest.None? || Unpack(t.states[i]).last < Unpack(t.states[stalest.value]).last then Some(i) else stalest
      ensures Scan(t, h, p, stalest) == Scan(t, h, p + 1, next)
    {}

    /** The one pass over the window. */
    method Find(h: Hash) returns (f: Found)
      requires Sized(View())
      ensures f == Scan(View(), h, 0, None)
    {
      ghost var t := View();
      var stalest: Option<nat> := None;
      var p := 0;
      while p < PROBE
        invariant 0 <= p <= PROBE && (p > 0 ==> stalest.Some?) && (stalest.Some? ==> stalest.value < |t.hashes|)
        invariant Scan(t, h, 0, None) == Scan(t, h, p, stalest)
      {
        var i := Position(hashes.Length, h, p);
        if hashes[i] == h { return Ours(i); }
        if hashes[i] == 0 { return Empty(i); }
        var last := Unpack(states[i]).last;
        var next := if stalest.None? || last < Unpack(states[stalest.value]).last then Some(i) else stalest;
        ScanOn(t, h, p, stalest, next);
        stalest, p := next, p + 1;
      }
      return Stalest(stalest.value);
    }

    method Claim(i: nat, h: Hash)
      requires hashes != states && Sized(View()) && i < hashes.Length
      modifies hashes, states
      ensures View() == Claimed(old(View()), i, h)
    {
      hashes[i] := h;
      states[i] := 0;
    }

    /** One compare-and-swap on one state word. */
    method CompareExchange(i: nat, expected: nat, next: nat) returns (ok: bool)
      requires i < states.Length
      modifies states
      ensures ok == (old(states[i]) == expected)
      ensures states[..] == if ok then old(states[..])[i := next] else old(states[..])
    {
      ok := states[i] == expected;
      if ok { states[i] := next; }
    }

    /** Run alone the swap cannot lose; that the slot is taken over meanwhile needs another worker, as in
        module LimitReqSteps. */
    method Bump(i: nat, now: nat, lim: Limit) returns (d: Decision)
      requires hashes != states && Sized(View()) && i < hashes.Length
      modifies states
      ensures (View(), d) == Bumped(old(View()), i, now, lim)
    {
      var done := false;
      d := Reject;
      while !done
        invariant !done ==> View() == old(View())
        invariant done ==> (View(), d) == Bumped(old(View()), i, now, lim)
        decreases if done then 0 else 1
      {
        var w := states[i];
        var b := BucketIn(w);
        var (excess, decision) := Step(Excess(b), Elapsed(b, now), lim);
        d := decision;
        if d == Reject { return; }
        done := CompareExchange(i, w, Pack(now, excess));
      }
    }
  }
}
