/** How many workers the promises of `limit_req` stand: one. With two, a slot that is being claimed can lose
    the requests already counted in it, and a probe can end without a candidate to evict. */
module LimitReqRace {
  import opened Wrappers
  import opened LeakyBucket
  import opened LimitReq
  import opened LimitReqSteps

  /** Requests come in the order of their times, from `clock` on, and these fit what is stored of them. */
  ghost predicate Orderly(es: seq<Event>, clock: nat)
    decreases |es|
  {
    es != [] ==>
      if es[0].Enter? then clock <= es[0].now < MS_LIMIT && Orderly(es[1..], es[0].now) else Orderly(es[1..], clock)
  }

  /** A step that takes the key's slot over, or takes a slot over for it: its window was full. */
  ghost predicate Seizes(s: State, e: Event, h: Hash)
    requires InRange(s)
  {
    && e.Move? && Enabled(s, e) && s.workers[e.k].Evicting?
    && PcFits(s.workers[e.k], |s.table.hashes|)
    && (s.workers[e.k].h == h || s.table.hashes[s.workers[e.k].slot] == h)
  }

  ghost predicate NeverSeized(s: State, es: seq<Event>, lim: Limit, h: Hash)
    requires InRange(s)
    decreases |es|
  {
    es != [] ==> !Seizes(s, es[0], h) && NeverSeized(Next(s, es[0], lim), es[1..], lim, h)
  }

  /** Any admissions after one fit in the burst and what the rate allows over the time between. */
  ghost predicate RateKept(log: seq<Admission>, lim: Limit) {
    forall i, j | 0 <= i < j < |log| ::
      log[i].at <= log[j].at && 1000 * (j - i) <= lim.burst + lim.rate * (log[j].at - log[i].at) / 1000
  }

  /** Every key that is not forgotten keeps the rate, whatever the workers do and however that is interleaved. */
  ghost predicate KeepsRates(n: nat, workers: nat, lim: Limit)
    requires n >= MIN_SLOTS
  {
    forall es: seq<Event>, h: Hash | Orderly(es, 0) && NeverSeized(Init(n, workers), es, lim, h) ::
      RateKept(Of(Interleaved(Init(n, workers), es, lim).log, h), lim)
  }

  // ---- One worker ----

  /** No admission of the key is later than `at`. */
  ghost predicate Until(t: Table, h: Hash, at: nat)
    requires Sized(t)
  {
    forall i: nat | Holds(t, i, h) && t.states[i] != 0 :: Unpack(t.states[i]).last <= at
  }

  /** What holds of the only worker: what it read is still so, and the key has nothing newer than its request. */
  ghost predicate Solo(s: State, clock: nat, h: Hash)
    requires InRange(s)
  {
    && |s.workers| <= 1 && clock < MS_LIMIT
    && if |s.workers| == 1 && Busy(s.workers[0])
       then s.workers[0].now <= clock && Until(s.table, h, s.workers[0].now) && Unshared(s.table, s.workers[0], h)
       else Until(s.table, h, clock)
  }

  ghost predicate Unshared(t: Table, pc: Pc, h: Hash) {
    pc.Clearing? ==> pc.slot < |t.hashes| == |t.states| && (t.hashes[pc.slot] == h ==> t.states[pc.slot] == 0)
  }

  lemma SoloCalm(s: State, e: Event, clock: nat, h: Hash, lim: Limit)
    requires lim.rate >= 1 && Inv(s, h, lim) && Solo(s, clock, h) && !Seizes(s, e, h)
    ensures Calm(s, e, h)
  {
    if e.Move? && Enabled(s, e) {
      var pc := s.workers[e.k];
      assert PcFits(pc, |s.table.hashes|) && PcOk(s.table, pc, h);
      if pc.Swapping? && pc.h == h { assert Holds(s.table, pc.slot, h); }
    }
  }

  lemma UntilHash(t: Table, i: nat, k: Hash, h: Hash, at: nat)
    requires Sized(t) && i < |t.hashes| && Until(t, h, at) && (k == h ==> t.states[i] == 0)
    ensures Until(t.(hashes := t.hashes[i := k]), h, at)
  {
    var t' := t.(hashes := t.hashes[i := k]);
    forall j: nat | Holds(t', j, h) && t'.states[j] != 0 ensures Unpack(t'.states[j]).last <= at {
      assert Holds(t, j, h);
    }
  }

  lemma UntilState(t: Table, i: nat, w: nat, h: Hash, at: nat)
    requires Sized(t) && i < |t.hashes| && Until(t, h, at) && (t.hashes[i] == h && w != 0 ==> Unpack(w).last <= at)
    ensures Until(t.(states := t.states[i := w]), h, at)
  {
    var t' := t.(states := t.states[i := w]);
    forall j: nat | Holds(t', j, h) && t'.states[j] != 0 ensures Unpack(t'.states[j]).last <= at {
      assert Holds(t, j, h);
    }
  }

  /** What the only worker's step leaves of the table, and where it goes. */
  ghost predicate Onwards(pc: Pc, h: Hash, s': State)
    requires Busy(pc) && InRange(s') && |s'.workers| == 1
  {
    && Until(s'.table, h, pc.now)
    && (Busy(s'.workers[0]) ==> s'.workers[0].now == pc.now && Unshared(s'.table, s'.workers[0], h))
  }

  lemma SoloTakes(s: State, pc: Pc, h: Hash, lim: Limit)
    requires InRange(s) && Kept(s.table, h) && |s.workers| == 1 && s.workers[0] == pc && (pc.Claiming? || pc.Evicting?)
    requires Until(s.table, h, pc.now) && !Seizes(s, Move(0), h)
    ensures Onwards(pc, h, StepOf(s, 0, lim))
  {
    var t := s.table;
    assert PcFits(pc, |t.hashes|) && Enabled(s, Move(0));
    match pc
    case Claiming(k, now, p, _) =>
      var i := Position(|t.hashes|, k, p);
      if t.hashes[i] == 0 { UntilHash(t, i, k, h, now); }
    case Evicting(k, now, i) => UntilHash(t, i, k, h, now);
  }

  lemma SoloWrites(s: State, pc: Pc, h: Hash, lim: Limit)
    requires InRange(s) && |s.workers| == 1 && s.workers[0] == pc && (pc.Clearing? || pc.Swapping?) && pc.now < MS_LIMIT
    requires Until(s.table, h, pc.now)
    ensures Onwards(pc, h, StepOf(s, 0, lim))
  {
    var t := s.table;
    assert PcFits(pc, |t.hashes|);
    match pc
    case Clearing(_, now, i) => UntilState(t, i, 0, h, now);
    case Swapping(_, now, i, seen) =>
      UntilState(t, i, Pack(now, Step(Excess(BucketIn(seen)), Elapsed(BucketIn(seen), now), lim).0), h, now);
  }

  lemma SoloStep(s: State, pc: Pc, h: Hash, lim: Limit)
    requires InRange(s) && Kept(s.table, h) && |s.workers| == 1 && s.workers[0] == pc && Busy(pc) && pc.now < MS_LIMIT
    requires Until(s.table, h, pc.now) && !Seizes(s, Move(0), h)
    ensures Onwards(pc, h, StepOf(s, 0, lim))
  {
    if pc.Claiming? || pc.Evicting? {
      SoloTakes(s, pc, h, lim);
    } else if pc.Clearing? || pc.Swapping? {
      SoloWrites(s, pc, h, lim);
    }
  }

  lemma SoloNext(s: State, e: Event, clock: nat, h: Hash, lim: Limit)
    requires lim.rate >= 1 && Inv(s, h, lim) && Solo(s, clock, h) && !Seizes(s, e, h)
    requires e.Enter? ==> clock <= e.now < MS_LIMIT
    ensures Solo(Next(s, e, lim), if e.Enter? then e.now else clock, h)
  {
    if e.Move? && Enabled(s, e) { SoloStep(s, s.workers[0], h, lim); }
  }

  lemma {:induction false} SoloRuns(s: State, es: seq<Event>, clock: nat, h: Hash, lim: Limit)
    requires Sane(None, [], lim) && Inv(s, h, lim) && AllAccept(s, lim) && Solo(s, clock, h)
    requires Orderly(es, clock) && NeverSeized(s, es, lim, h)
    ensures AlwaysCalm(s, es, lim, h)
    decreases |es|
  {
    if es != [] {
      SoloCalm(s, es[0], clock, h, lim);
      SoloNext(s, es[0], clock, h, lim);
      NextKeeps(s, es[0], h, lim);
      NextAccepts(s, es[0], lim);
      SoloRuns(Next(s, es[0], lim), es[1..], if es[0].Enter? then es[0].now else clock, h, lim);
    }
  }

  lemma OneKeepsRates(n: nat, workers: nat, lim: Limit)
    requires n >= MIN_SLOTS && workers <= 1 && Sane(None, [], lim)
    ensures KeepsRates(n, workers, lim)
  {
    forall es: seq<Event>, h: Hash | Orderly(es, 0) && NeverSeized(Init(n, workers), es, lim, h)
      ensures RateKept(Of(Interleaved(Init(n, workers), es, lim).log, h), lim)
    {
      InitKeeps(n, workers, h, lim);
      SoloRuns(Init(n, workers), es, 0, h, lim);
      var log := Of(Interleaved(Init(n, workers), es, lim).log, h);
      forall i, j | 0 <= i < j < |log|
        ensures log[i].at <= log[j].at && 1000 * (j - i) <= lim.burst + lim.rate * (log[j].at - log[i].at) / 1000
      {
        RateBoundSteps(n, workers, es, h, lim, log, i, j);
      }
    }
  }

  // ---- Two workers: requests counted before the slot is cleared ----

  const KEY: Hash := 1

  /** `es` leads from the empty table to `s`; all requests come at time 0, and no slot is taken over. */
  ghost predicate Leads(n: nat, workers: nat, lim: Limit, es: seq<Event>, s: State) {
    && n >= MIN_SLOTS && Interleaved(Init(n, workers), es, lim) == s
    && (forall e | e in es && e.Enter? :: e.now == 0)
    && NeverSeized(Init(n, workers), es, lim, KEY)
  }

  lemma {:induction false} SeizedLast(s: State, es: seq<Event>, e: Event, lim: Limit, h: Hash)
    requires InRange(s) && NeverSeized(s, es, lim, h) && !Seizes(Interleaved(s, es, lim), e, h)
    ensures Interleaved(s, es + [e], lim) == Next(Interleaved(s, es, lim), e, lim) && NeverSeized(s, es + [e], lim, h)
    decreases |es|
  {
    if es == [] {
      assert (es + [e])[1..] == [];
    } else {
      assert (es + [e])[1..] == es[1..] + [e];
      SeizedLast(Next(s, es[0], lim), es[1..], e, lim, h);
    }
  }

  lemma OneMore(n: nat, workers: nat, lim: Limit, es: seq<Event>, s: State, e: Event) returns (es': seq<Event>)
    requires InRange(s) && Leads(n, workers, lim, es, s) && !Seizes(s, e, KEY) && (e.Enter? ==> e.now == 0)
    ensures Leads(n, workers, lim, es', Next(s, e, lim))
  {
    SeizedLast(Init(n, workers), es, e, lim, KEY);
    es' := es + [e];
  }

  lemma {:induction false} ZeroIsOrderly(es: seq<Event>)
    requires forall e | e in es && e.Enter? :: e.now == 0
    ensures Orderly(es, 0)
    decreases |es|
  {
    if es != [] { ZeroIsOrderly(es[1..]); }
  }

  /** The state word after `r` requests at time 0. */
  function Word(r: nat): nat { if r == 0 then 0 else Pack(0, 1000 * (r - 1)) }

  /** The table after `r` of them in the slot of the key. */
  ghost function Counted(n: nat, r: nat): (t: Table)
    requires n >= MIN_SLOTS
    ensures Sized(t) && |t.hashes| == n && t.hashes[1] == KEY && t.states[1] == Word(r)
  {
    Table(seq(n, _ => 0)[1 := KEY], seq(n, _ => 0)[1 := Word(r)])
  }

  ghost predicate AllZero(log: seq<Entry>) { forall e | e in log :: e.h == KEY && e.a.at == 0 }

  /** Worker 0 has claimed the slot and not cleared it yet; `r` requests have been admitted in between. */
  ghost predicate Ahead(n: nat, workers: nat, s: State, r: nat) {
    && n >= MIN_SLOTS && workers >= 2 && s.table == Counted(n, r) && |s.log| == r && AllZero(s.log)
    && s.workers == seq(workers, _ => Idle)[0 := Clearing(KEY, 0, 1)]
  }

  /** Of `r` requests in one millisecond the next one is admitted while the burst has room. */
  lemma NextIsAdmitted(r: nat, lim: Limit)
    requires Sane(None, [], lim) && 1000 * r <= lim.burst
    ensures var b := BucketIn(Word(r));
            var (excess, d) := Step(Excess(b), Elapsed(b, 0), lim);
            d != Reject && d == Checked(b, 0, lim).1 && Pack(0, excess) == Word(r + 1)
  {
    if r == 0 {
      FirstAdmitted(0, lim);
      FirstExcess(lim);
    } else {
      assert BucketIn(Word(r)) == Some(Bucket(0, 1000 * (r - 1)));
      assert Drained(lim.rate, 0) == 0;
    }
  }

  lemma FirstExcess(lim: Limit)
    requires Sane(None, [], lim)
    ensures Step(0, FIRST_ELAPSED, lim).0 == 0
  {
    var p := lim.rate * FIRST_ELAPSED;
    assert p >= FIRST_ELAPSED;
  }

  lemma ClaimFirst(n: nat, workers: nat, lim: Limit) returns (es: seq<Event>, s: State)
    requires n >= MIN_SLOTS && workers >= 2
    ensures InRange(s) && Leads(n, workers, lim, es, s) && Ahead(n, workers, s, 0)
  {
    var s0 := Init(n, workers);
    var s1 := Go(s0, 0, Probing(KEY, 0, 0, None), s0.table);
    var s2 := Go(s1, 0, Claiming(KEY, 0, 0, None), s0.table);
    assert Position(n, KEY, 0) == 1;
    assert s1 == Next(s0, Enter(0, KEY, 0), lim) && s2 == Next(s1, Move(0), lim);
    assert Leads(n, workers, lim, [], s0);
    es := OneMore(n, workers, lim, [], s0, Enter(0, KEY, 0));
    es := OneMore(n, workers, lim, es, s1, Move(0));
    es := OneMore(n, workers, lim, es, s2, Move(0));
    s := Go(s2, 0, Clearing(KEY, 0, 1), s0.table.(hashes := s0.table.hashes[1 := KEY]));
    assert s == Next(s2, Move(0), lim);
    assert s.table.states == seq(n, _ => 0)[1 := 0];
  }

  /** Worker `k`, about to check the slot, bumps it without being interrupted. */
  lemma BumpOnce(n: nat, workers: nat, lim: Limit, es: seq<Event>, s: State, k: nat, r: nat) returns (es': seq<Event>, s': State)
    requires InRange(s) && Leads(n, workers, lim, es, s) && k < |s.workers| && s.workers[k] == Checking(KEY, 0, 1)
    requires Sane(None, [], lim) && 1000 * r <= lim.burst && s.table == Counted(n, r) && AllZero(s.log)
    ensures InRange(s') && Leads(n, workers, lim, es', s')
    ensures s'.table == Counted(n, r + 1) && |s'.log| == |s.log| + 1 && AllZero(s'.log) && s'.workers == s.workers[k := Idle]
  {
    NextIsAdmitted(r, lim);
    var s1 := Next(s, Move(k), lim);
    es' := OneMore(n, workers, lim, es, s, Move(k));
    var s2 := Next(s1, Move(k), lim);
    es' := OneMore(n, workers, lim, es', s1, Move(k));
    s' := Next(s2, Move(k), lim);
    es' := OneMore(n, workers, lim, es', s2, Move(k));
    assert s'.workers == s.workers[k := Idle];
    assert s'.table.states == seq(n, _ => 0)[1 := Word(r + 1)];
  }

  /** Worker 1 finds the slot claimed. */
  lemma FindsClaimed(n: nat, workers: nat, lim: Limit, es: seq<Event>, s: State) returns (es': seq<Event>, s': State)
    requires InRange(s) && Leads(n, workers, lim, es, s) && |s.workers| >= 2 && s.workers[1].Idle?
    requires |s.table.hashes| == n && s.table.hashes[1] == KEY
    ensures s' == Go(s, 1, Checking(KEY, 0, 1), s.table) && Leads(n, workers, lim, es', s')
  {
    var s1 := Go(s, 1, Probing(KEY, 0, 0, None), s.table);
    assert s1 == Next(s, Enter(1, KEY, 0), lim);
    es' := OneMore(n, workers, lim, es, s, Enter(1, KEY, 0));
    assert Position(n, KEY, 0) == 1;
    es' := OneMore(n, workers, lim, es', s1, Move(1));
    s' := Go(s, 1, Checking(KEY, 0, 1), s.table);
    GoForgets(s, 1, Probing(KEY, 0, 0, None), s.table, Checking(KEY, 0, 1), s.table);
  }

  /** One request by worker 1. */
  lemma OneAhead(n: nat, workers: nat, lim: Limit, es: seq<Event>, s: State, r: nat) returns (es': seq<Event>, s': State)
    requires InRange(s) && Leads(n, workers, lim, es, s) && Ahead(n, workers, s, r) && Sane(None, [], lim) && 1000 * r <= lim.burst
    ensures InRange(s') && Leads(n, workers, lim, es', s') && Ahead(n, workers, s', r + 1)
  {
    var s1;
    es', s1 := FindsClaimed(n, workers, lim, es, s);
    es', s' := BumpOnce(n, workers, lim, es', s1, 1, r);
    assert s'.workers == s.workers;
  }

  lemma {:induction false} RunAhead(n: nat, workers: nat, lim: Limit, r: nat) returns (es: seq<Event>, s: State)
    requires n >= MIN_SLOTS && workers >= 2 && Sane(None, [], lim) && 1000 * r <= lim.burst + 1000
    ensures InRange(s) && Leads(n, workers, lim, es, s) && Ahead(n, workers, s, r)
    decreases r
  {
    if r == 0 {
      es, s := ClaimFirst(n, workers, lim);
    } else {
      es, s := RunAhead(n, workers, lim, r - 1);
      es, s := OneAhead(n, workers, lim, es, s, r - 1);
    }
  }

  /** Worker 0 clears the slot, and its own request is admitted as the key's first. */
  lemma ClearAfter(n: nat, workers: nat, lim: Limit, es: seq<Event>, s: State, r: nat) returns (es': seq<Event>, s': State)
    requires InRange(s) && Leads(n, workers, lim, es, s) && Ahead(n, workers, s, r) && Sane(None, [], lim)
    ensures InRange(s') && Leads(n, workers, lim, es', s') && |s'.log| == r + 1 && AllZero(s'.log) && s'.table == Counted(n, 1)
  {
    es' := OneMore(n, workers, lim, es, s, Move(0));
    var s1 := Next(s, Move(0), lim);
    assert s1.table.states == seq(n, _ => 0)[1 := 0];
    es', s' := BumpOnce(n, workers, lim, es', s1, 0, 0);
  }

  lemma {:induction false} OfAllZero(log: seq<Entry>)
    requires AllZero(log)
    ensures |Of(log, KEY)| == |log| && forall a | a in Of(log, KEY) :: a.at == 0
  {
    if log != [] {
      assert log[|log| - 1] in log;
      OfAllZero(log[..|log| - 1]);
    }
  }

  /** At the end of the run `log` has all that the burst holds and one request more, all of one millisecond, and
      the slot counts the last of them only. No window was full. */
  ghost predicate Forgets(n: nat, workers: nat, es: seq<Event>, lim: Limit, log: seq<Admission>) {
    && n >= MIN_SLOTS && Orderly(es, 0) && NeverSeized(Init(n, workers), es, lim, KEY)
    && log == Of(Interleaved(Init(n, workers), es, lim).log, KEY)
    && |log| == lim.burst / 1000 + 2 && (forall a | a in log :: a.at == 0)
    && Interleaved(Init(n, workers), es, lim).table == Counted(n, 1)
  }

  /** With two workers, in any table and for any rate and burst, a slot that is being claimed can forget a whole
      burst: what others count in it before the worker that claimed it stores the empty state. */
  lemma ForgetsCounted(n: nat, workers: nat, lim: Limit) returns (es: seq<Event>, log: seq<Admission>)
    requires n >= MIN_SLOTS && workers >= 2 && Sane(None, [], lim)
    ensures Forgets(n, workers, es, lim, log)
  {
    var s;
    var r := lim.burst / 1000 + 1;
    es, s := RunAhead(n, workers, lim, r);
    es, s := ClearAfter(n, workers, lim, es, s, r);
    OfAllZero(s.log);
    ZeroIsOrderly(es);
    log := Of(s.log, KEY);
  }

  lemma TooMany(lim: Limit, r: nat)
    requires r == lim.burst / 1000 + 1
    ensures 1000 * r > lim.burst + lim.rate * (0 - 0) / 1000
  {}

  /** Keys that are not forgotten keep their rate over all interleavings if and only if there is one worker at
      most, for any table size, rate and burst. */
  lemma KeptExactly(n: nat, workers: nat, lim: Limit)
    requires n >= MIN_SLOTS && Sane(None, [], lim)
    ensures KeepsRates(n, workers, lim) <==> workers <= 1
  {
    if workers <= 1 {
      OneKeepsRates(n, workers, lim);
    } else {
      var es, log := ForgetsCounted(n, workers, lim);
      var r := lim.burst / 1000 + 1;
      assert log[0] in log && log[r] in log;
      TooMany(lim, r);
      assert !RateKept(log, lim);
    }
  }

  // ---- The candidate to evict ----

  /** Sizes for which the keys used here fit 64 bits. */
  const MAX_SLOTS: nat := 0x4000_0000_0000_0000

  ghost predicate AnyPanicked(s: State) { exists k :: 0 <= k < |s.workers| && s.workers[k].Panicked? }

  ghost predicate NeverPanics(n: nat, workers: nat, lim: Limit)
    requires n >= MIN_SLOTS
  {
    forall es: seq<Event> :: !AnyPanicked(Interleaved(Init(n, workers), es, lim))
  }

  /** The only worker has a candidate after the first probe, and loses no swap. */
  ghost predicate HasCandidate(t: Table, pc: Pc) {
    match pc
    case Panicked => false
    case Probing(_, _, p, st) => p > 0 ==> st.Some?
    case Claiming(h, _, p, st) => |t.hashes| > 0 && t.hashes[Position(|t.hashes|, h, p)] == 0
    case Aging(_, _, p, st) => p > 0 ==> st.Some?
    case _ => true
  }

  ghost predicate Prepared(s: State) { |s.workers| <= 1 && forall k | 0 <= k < |s.workers| :: HasCandidate(s.table, s.workers[k]) }

  lemma PreparedNext(s: State, e: Event, lim: Limit)
    requires InRange(s) && Prepared(s)
    ensures Prepared(Next(s, e, lim))
  {}

  lemma {:induction false} PreparedRuns(s: State, es: seq<Event>, lim: Limit)
    requires InRange(s) && Prepared(s)
    ensures Prepared(Interleaved(s, es, lim))
    decreases |es|
  {
    if es != [] {
      PreparedNext(s, es[0], lim);
      PreparedRuns(Next(s, es[0], lim), es[1..], lim);
    }
  }

  /** Worker 0 has lost its first `p` swaps to as many other keys, and has seen no occupant's age. */
  ghost predicate Lost(n: nat, s: State, p: nat) {
    && MIN_SLOTS <= n <= MAX_SLOTS && p <= PROBE && InRange(s) && |s.table.hashes| == n && |s.workers| >= 2 && s.workers[1].Idle?
    && (forall q: nat | p <= q < PROBE :: s.table.hashes[q] == 0)
    && s.workers[0] == if p < PROBE then Probing(n, 0, p, None) else Panicked
  }

  lemma Wraps(n: nat, p: nat)
    requires p < n
    ensures (n + p) % n == p && (2 * n + p) % n == p
  {}

  /** Worker 1 serves the key whose probe begins at the empty slot `p`, from beginning to end. */
  lemma ServesThere(n: nat, s: State, p: nat, lim: Limit) returns (es: seq<Event>)
    requires InRange(s) && MIN_SLOTS <= n <= MAX_SLOTS && p < PROBE && |s.table.hashes| == n && s.table.hashes[p] == 0
    requires |s.workers| >= 2 && s.workers[1].Idle?
    ensures var s' := Interleaved(s, es, lim);
            s'.table.hashes == s.table.hashes[p := 2 * n + p] && s'.workers == s.workers
  {
    Wraps(n, p);
    var m := AloneChecks(s, 1, 2 * n + p, 0, lim);
    es := [Enter(1, 2 * n + p, 0)] + Moves(1, m);
    assert Scan(s.table, 2 * n + p, 0, None) == Empty(p);
  }

  /** Between worker 0's load and its swap, worker 1 takes the slot for another key. */
  lemma LoseOne(n: nat, s: State, p: nat, lim: Limit) returns (es: seq<Event>)
    requires Lost(n, s, p) && p < PROBE
    ensures Lost(n, Interleaved(s, es, lim), p + 1)
  {
    Wraps(n, p);
    var s1 := Go(s, 0, Claiming(n, 0, p, None), s.table);
    assert s1 == Next(s, Move(0), lim);
    var more := ServesThere(n, s1, p, lim);
    var s2 := Interleaved(s1, more, lim);
    LostOne(n, s, p, s2, lim);
    RunAppend(s1, more, [Move(0)], lim);
    es := [Move(0)] + (more + [Move(0)]);
    assert es[1..] == more + [Move(0)];
  }

  lemma LostOne(n: nat, s: State, p: nat, s2: State, lim: Limit)
    requires Lost(n, s, p) && p < PROBE && InRange(s2) && s2.workers == s.workers[0 := Claiming(n, 0, p, None)]
    requires s2.table.hashes == s.table.hashes[p := 2 * n + p]
    ensures Lost(n, Interleaved(s2, [Move(0)], lim), p + 1)
  {
    Wraps(n, p);
    assert Interleaved(s2, [Move(0)], lim) == Go(s2, 0, NextProbe(n, 0, p, None), s2.table);
  }

  lemma {:induction false} LoseAll(n: nat, s: State, p: nat, lim: Limit) returns (es: seq<Event>)
    requires Lost(n, s, p)
    ensures Lost(n, Interleaved(s, es, lim), PROBE)
    decreases PROBE - p
  {
    if p == PROBE {
      es := [];
    } else {
      var first := LoseOne(n, s, p, lim);
      var rest := LoseAll(n, Interleaved(s, first, lim), p + 1, lim);
      RunAppend(s, first, rest, lim);
      es := first + rest;
    }
  }

  /** The probe always ends with a candidate to evict if and only if there is one worker at most: a worker that
      loses every swap of its window to other keys has looked at no occupant. */
  lemma PanicsExactly(n: nat, workers: nat, lim: Limit)
    requires MIN_SLOTS <= n <= MAX_SLOTS
    ensures NeverPanics(n, workers, lim) <==> workers <= 1
  {
    var s := Init(n, workers);
    if workers <= 1 {
      forall es: seq<Event> ensures !AnyPanicked(Interleaved(s, es, lim)) {
        PreparedRuns(s, es, lim);
      }
    } else {
      var s1 := Next(s, Enter(0, n, 0), lim);
      var es := LoseAll(n, s1, 0, lim);
      assert ([Enter(0, n, 0)] + es)[1..] == es;
      assert AnyPanicked(Interleaved(s, [Enter(0, n, 0)] + es, lim));
    }
  }
}
