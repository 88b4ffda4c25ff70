/** `limit_req` under every interleaving: any number of workers share the words of one zone, and each load,
    store and compare-and-swap of `check` and `bump` is a step of its own. */
module LimitReqSteps {
  import opened Wrappers
  import opened LeakyBucket
  import opened LimitReq

  /** An occupant of the window, and when it was last admitted. */
  datatype Seen = Seen(slot: nat, last: nat)

  /** Where a worker stands: what it does next for a request of `h` that came at `now`, and what it has read. */
  datatype Pc =
    | Idle
    | Probing(h: Hash, now: nat, p: nat, stalest: Option<Seen>)   // about to load the hash at probe p
    | Claiming(h: Hash, now: nat, p: nat, stalest: Option<Seen>)  // about to swap 0 for the hash
    | Aging(h: Hash, now: nat, p: nat, stalest: Option<Seen>)     // about to load the state at probe p
    | Evicting(h: Hash, now: nat, slot: nat)                      // about to store the hash over another
    | Clearing(h: Hash, now: nat, slot: nat)                      // about to store 0 as the state
    | Checking(h: Hash, now: nat, slot: nat)                      // bump, about to load the hash
    | Loading(h: Hash, now: nat, slot: nat)                       // bump, about to load the state
    | Swapping(h: Hash, now: nat, slot: nat, seen: nat)           // bump, about to swap the state
    | Panicked                                                    // no candidate to evict

  /** An admitted request and its key. */
  datatype Entry = Entry(h: Hash, a: Admission)

  datatype State = State(table: Table, log: seq<Entry>, workers: seq<Pc>)

  datatype Event =
    | Enter(k: nat, h: Hash, now: nat)  // an idle worker calls check
    | Move(k: nat)                      // a busy worker performs its next load, store or swap

  ghost predicate PcFits(pc: Pc, n: nat) {
    match pc
    case Idle => true
    case Panicked => true
    case Probing(_, _, p, st) => p < PROBE && (st.Some? ==> st.value.slot < n)
    case Claiming(_, _, p, st) => p < PROBE && (st.Some? ==> st.value.slot < n)
    case Aging(_, _, p, st) => p < PROBE && (st.Some? ==> st.value.slot < n)
    case Evicting(_, _, i) => i < n
    case Clearing(_, _, i) => i < n
    case Checking(_, _, i) => i < n
    case Loading(_, _, i) => i < n
    case Swapping(_, _, i, _) => i < n
  }

  ghost predicate InRange(s: State) {
    Sized(s.table) && forall k | 0 <= k < |s.workers| :: PcFits(s.workers[k], |s.table.hashes|)
  }

  ghost predicate Busy(pc: Pc) { !pc.Idle? && !pc.Panicked? }

  ghost predicate Enabled(s: State, e: Event) {
    e.k < |s.workers| && if e.Enter? then s.workers[e.k].Idle? else Busy(s.workers[e.k])
  }

  /** Worker `k` goes on at `pc`, and the table is now `t`. */
  ghost function Go(s: State, k: nat, pc: Pc, t: Table): (s': State)
    requires InRange(s) && k < |s.workers| && Sized(t) && |t.hashes| == |s.table.hashes| && PcFits(pc, |t.hashes|)
    ensures InRange(s')
  {
    State(t, s.log, s.workers[k := pc])
  }

  /** The next probe, or the takeover of the stalest occupant met, if any was. */
  function NextProbe(h: Hash, now: nat, p: nat, stalest: Option<Seen>): Pc {
    if p + 1 < PROBE then Probing(h, now, p + 1, stalest)
    else match stalest case None => Panicked case Some(x) => Evicting(h, now, x.slot)
  }

  function Staler(stalest: Option<Seen>, i: nat, last: nat): Option<Seen> {
    if stalest.None? || last < stalest.value.last then Some(Seen(i, last)) else stalest
  }

  /** What the log has of a request of `h` that came at `now` and left `b` behind. */
  function Logged(h: Hash, now: nat, b: Option<Bucket>, d: Decision): seq<Entry> {
    if d == Reject then [] else [Entry(h, Admission(now, Excess(b), now + Wait(d)))]
  }

  ghost function Returns(s: State, k: nat, t: Table, more: seq<Entry>): (s': State)
    requires InRange(s) && k < |s.workers| && Sized(t) && |t.hashes| == |s.table.hashes|
    ensures InRange(s')
  {
    State(t, s.log + more, s.workers[k := Idle])
  }

  ghost function StepOf(s: State, k: nat, lim: Limit): (s': State)
    requires InRange(s) && k < |s.workers| && Busy(s.workers[k])
    ensures InRange(s')
  {
    var t := s.table;
    match s.workers[k]
    case Probing(h, now, p, st) =>
      var i := Position(|t.hashes|, h, p);
      if t.hashes[i] == h then Go(s, k, Checking(h, now, i), t)
      else if t.hashes[i] == 0 then Go(s, k, Claiming(h, now, p, st), t)
      else Go(s, k, Aging(h, now, p, st), t)
    case Claiming(h, now, p, st) =>
      var i := Position(|t.hashes|, h, p);
      if t.hashes[i] == 0 then Go(s, k, Clearing(h, now, i), t.(hashes := t.hashes[i := h]))
      else if t.hashes[i] == h then Go(s, k, Checking(h, now, i), t)
      else Go(s, k, NextProbe(h, now, p, st), t)
    case Aging(h, now, p, st) =>
      var i := Position(|t.hashes|, h, p);
      Go(s, k, NextProbe(h, now, p, Staler(st, i, Unpack(t.states[i]).last)), t)
    case Evicting(h, now, i) => Go(s, k, Clearing(h, now, i), t.(hashes := t.hashes[i := h]))
    case Clearing(h, now, i) => Go(s, k, Checking(h, now, i), t.(states := t.states[i := 0]))
    case Checking(h, now, i) =>
      if t.hashes[i] == h then Go(s, k, Loading(h, now, i), t)
      else
        var (b, d) := Checked(None, now, lim);
        Returns(s, k, t, Logged(h, now, b, d))
    case Loading(h, now, i) =>
      if Checked(BucketIn(t.states[i]), now, lim).1 == Reject then Returns(s, k, t, [])
      else Go(s, k, Swapping(h, now, i, t.states[i]), t)
    case Swapping(h, now, i, seen) =>
      if t.states[i] != seen then Go(s, k, Checking(h, now, i), t)
      else
        var b := BucketIn(seen);
        var (excess, d) := Step(Excess(b), Elapsed(b, now), lim);
        var w := Pack(now, excess);
        Returns(s, k, t.(states := t.states[i := w]), Logged(h, now, BucketIn(w), d))
  }

  /** One event; an event that is not possible in `s` changes nothing. */
  ghost function Next(s: State, e: Event, lim: Limit): (s': State)
    requires InRange(s)
    ensures InRange(s')
  {
    if !Enabled(s, e) then s
    else match e
      case Enter(k, h, now) => Go(s, k, Probing(h, now, 0, None), s.table)
      case Move(k) => StepOf(s, k, lim)
  }

  ghost function Interleaved(s: State, es: seq<Event>, lim: Limit): (s': State)
    requires InRange(s)
    ensures InRange(s')
    decreases |es|
  {
    if es == [] then s else Interleaved(Next(s, es[0], lim), es[1..], lim)
  }

  ghost function Init(n: nat, workers: nat): (s: State)
    requires n >= MIN_SLOTS
    ensures InRange(s)
  {
    State(Table(seq(n, _ => 0), seq(n, _ => 0)), [], seq(workers, _ => Idle))
  }

  /** The admissions of one key, in the order in which they were decided. */
  function Of(log: seq<Entry>, h: Hash): seq<Admission> {
    if log == [] then []
    else Of(log[..|log| - 1], h) + if log[|log| - 1].h == h then [log[|log| - 1].a] else []
  }

  lemma OfLogged(log: seq<Entry>, h: Hash, k: Hash, now: nat, b: Option<Bucket>, d: Decision)
    ensures Of(log + Logged(h, now, b, d), k) ==
            Of(log, k) + if h != k || d == Reject then [] else [Admission(now, Excess(b), now + Wait(d))]
  {
    if d == Reject {
      assert log + [] == log && Of(log, k) + [] == Of(log, k);
    } else {
      var e := Entry(h, Admission(now, Excess(b), now + Wait(d)));
      assert (log + [e])[..|log|] == log;
    }
  }

  // ---- A key that no takeover disturbs ----

  /** A probe of `h` has passed the first `p` positions: other keys are there. */
  ghost predicate Past(t: Table, h: Hash, p: nat)
    requires Sized(t)
  {
    forall q: nat | q < p :: t.hashes[Position(|t.hashes|, h, q)] != 0 && t.hashes[Position(|t.hashes|, h, q)] != h
  }

  /** Whether a worker on slot `i` for the key `k` has a right to be there, as far as `h` is concerned. */
  ghost predicate Rightly(t: Table, i: nat, k: Hash, h: Hash)
    requires i < |t.hashes|
  {
    t.hashes[i] != 0 && (t.hashes[i] == h <==> k == h)
  }

  ghost predicate Filled(t: Table, st: Option<Seen>) {
    st.Some? ==> st.value.slot < |t.hashes| && t.hashes[st.value.slot] != 0
  }

  ghost predicate PcOk(t: Table, pc: Pc, h: Hash)
    requires Sized(t) && PcFits(pc, |t.hashes|)
  {
    match pc
    case Idle => true
    case Panicked => true
    case Probing(k, _, p, st) => (k == h ==> Past(t, h, p)) && Filled(t, st)
    case Claiming(k, _, p, st) => (k == h ==> Past(t, h, p)) && Filled(t, st)
    case Aging(k, _, p, st) => (k == h ==> Past(t, h, p + 1)) && t.hashes[Position(|t.hashes|, k, p)] != 0 && Filled(t, st)
    case Evicting(_, _, i) => t.hashes[i] != 0
    case Clearing(k, _, i) => Rightly(t, i, k, h)
    case Checking(k, _, i) => Rightly(t, i, k, h)
    case Loading(k, _, i) => Rightly(t, i, k, h)
    case Swapping(k, _, i, _) => Rightly(t, i, k, h)
  }

  /** One slot at most is the key's, and its probe reaches it; a slot that was never claimed has no state. */
  ghost predicate Kept(t: Table, h: Hash)
    requires Sized(t)
  {
    && (forall i: nat | i < |t.hashes| && t.hashes[i] == 0 :: t.states[i] == 0)
    && (forall i: nat, j: nat | Holds(t, i, h) && Holds(t, j, h) :: i == j)
    && (forall i: nat | Holds(t, i, h) :: exists p: nat :: Placed(t, i, h, p))
  }

  /** The log of the key is what a bucket of its own allows, and its slot has that bucket. */
  ghost predicate Tracks(t: Table, h: Hash, log: seq<Admission>, lim: Limit)
    requires Sized(t) && lim.rate >= 1
  {
    && LogOk(log, lim)
    && (forall i: nat | Holds(t, i, h) :: Follows(None, BucketIn(t.states[i]), log))
    && (Absent(t, h) ==> log == [])
  }

  ghost predicate Inv(s: State, h: Hash, lim: Limit)
    requires lim.rate >= 1
  {
    InRange(s) && Kept(s.table, h) && Tracks(s.table, h, Of(s.log, h), lim) && AllOk(s.table, s.workers, h)
  }

  ghost predicate AllOk(t: Table, workers: seq<Pc>, h: Hash)
    requires Sized(t)
  {
    forall k | 0 <= k < |workers| :: PcFits(workers[k], |t.hashes|) && PcOk(t, workers[k], h)
  }

  /** What a worker's next step must not do to the key: take its slot over or take a slot over for it,
      clear a bucket in which requests have been counted, or set its clock back. */
  ghost predicate Spared(t: Table, pc: Pc, h: Hash)
    requires Sized(t) && PcFits(pc, |t.hashes|)
  {
    match pc
    case Evicting(k, _, i) => k != h && t.hashes[i] != h
    case Clearing(_, _, i) => t.hashes[i] == h ==> t.states[i] == 0
    case Swapping(k, now, i, seen) =>
      k == h && t.states[i] == seen ==> now < MS_LIMIT && (seen != 0 ==> Unpack(seen).last <= now)
    case _ => true
  }

  ghost predicate Calm(s: State, e: Event, h: Hash)
    requires InRange(s)
  {
    e.Move? && Enabled(s, e) ==> Spared(s.table, s.workers[e.k], h)
  }

  /** Along the whole run nothing disturbs the key. */
  ghost predicate AlwaysCalm(s: State, es: seq<Event>, lim: Limit, h: Hash)
    requires InRange(s)
    decreases |es|
  {
    es != [] ==> Calm(s, es[0], h) && AlwaysCalm(Next(s, es[0], lim), es[1..], lim, h)
  }

  /** Slots are claimed and handed from one other key to another, and that is all. */
  ghost predicate Grows(t: Table, t': Table, h: Hash) {
    && Sized(t) && Sized(t') && |t'.hashes| == |t.hashes|
    && forall i: nat | i < |t.hashes| :: t.hashes[i] != 0 ==> t'.hashes[i] != 0 && (t'.hashes[i] == h <==> t.hashes[i] == h)
  }

  lemma GrowsKeepsPc(t: Table, t': Table, h: Hash, pc: Pc)
    requires Grows(t, t', h) && PcFits(pc, |t.hashes|) && PcOk(t, pc, h)
    ensures PcOk(t', pc, h)
  {}

  lemma GrowsKeepsAll(s: State, k: nat, pc: Pc, t': Table, h: Hash)
    requires InRange(s) && k < |s.workers| && Grows(s.table, t', h) && PcFits(pc, |t'.hashes|) && PcOk(t', pc, h)
    requires AllOk(s.table, s.workers, h)
    ensures AllOk(t', s.workers[k := pc], h)
  {
    var workers := s.workers[k := pc];
    forall j | 0 <= j < |workers| ensures PcFits(workers[j], |t'.hashes|) && PcOk(t', workers[j], h) {
      if j != k { GrowsKeepsPc(s.table, t', h, s.workers[j]); }
    }
  }

  /** A step that leaves the table alone and logs nothing. */
  lemma MoveKeeps(s: State, k: nat, pc: Pc, h: Hash, lim: Limit)
    requires lim.rate >= 1 && Inv(s, h, lim) && k < |s.workers| && PcFits(pc, |s.table.hashes|) && PcOk(s.table, pc, h)
    ensures Inv(Go(s, k, pc, s.table), h, lim)
  {}

  lemma NextProbeFits(t: Table, h: Hash, k: Hash, now: nat, p: nat, st: Option<Seen>)
    requires Sized(t) && p < PROBE && Filled(t, st) && (k == h ==> Past(t, h, p + 1))
    ensures PcFits(NextProbe(k, now, p, st), |t.hashes|) && PcOk(t, NextProbe(k, now, p, st), h)
  {}

  lemma ProbeKeeps(s: State, k: nat, h: Hash, lim: Limit)
    requires lim.rate >= 1 && Inv(s, h, lim) && k < |s.workers| && s.workers[k].Probing?
    ensures Inv(StepOf(s, k, lim), h, lim)
  {
    assert PcOk(s.table, s.workers[k], h) && PcFits(s.workers[k], |s.table.hashes|);
    MoveKeeps(s, k, StepOf(s, k, lim).workers[k], h, lim);
  }

  lemma AgeKeeps(s: State, k: nat, h: Hash, lim: Limit)
    requires lim.rate >= 1 && Inv(s, h, lim) && k < |s.workers| && s.workers[k].Aging?
    ensures Inv(StepOf(s, k, lim), h, lim)
  {
    var pc := s.workers[k];
    assert PcOk(s.table, pc, h) && PcFits(pc, |s.table.hashes|);
    var i := Position(|s.table.hashes|, pc.h, pc.p);
    NextProbeFits(s.table, h, pc.h, pc.now, pc.p, Staler(pc.stalest, i, Unpack(s.table.states[i]).last));
    MoveKeeps(s, k, StepOf(s, k, lim).workers[k], h, lim);
  }

  lemma CheckKeeps(s: State, k: nat, h: Hash, lim: Limit)
    requires lim.rate >= 1 && Inv(s, h, lim) && k < |s.workers| && s.workers[k].Checking?
    ensures Inv(StepOf(s, k, lim), h, lim)
  {
    var pc := s.workers[k];
    assert PcOk(s.table, pc, h) && PcFits(pc, |s.table.hashes|);
    if s.table.hashes[pc.slot] == pc.h {
      MoveKeeps(s, k, Loading(pc.h, pc.now, pc.slot), h, lim);
    } else {
      var (b, d) := Checked(None, pc.now, lim);
      OfLogged(s.log, pc.h, h, pc.now, b, d);
      assert Of(s.log, h) + [] == Of(s.log, h);
    }
  }

  lemma LoadKeeps(s: State, k: nat, h: Hash, lim: Limit)
    requires lim.rate >= 1 && Inv(s, h, lim) && k < |s.workers| && s.workers[k].Loading?
    ensures Inv(StepOf(s, k, lim), h, lim)
  {
    var pc := s.workers[k];
    assert PcOk(s.table, pc, h) && PcFits(pc, |s.table.hashes|);
    assert s.log + [] == s.log;
    MoveKeeps(s, k, StepOf(s, k, lim).workers[k], h, lim);
  }

  // ---- Steps that change a hash ----

  /** An empty slot becomes key `k`'s, by a worker whose probe reached it. */
  lemma ClaimKeepsKey(t: Table, i: nat, k: Hash, p: nat, h: Hash, log: seq<Admission>, lim: Limit)
    requires lim.rate >= 1 && Sized(t) && Kept(t, h) && Tracks(t, h, log, lim)
    requires p < PROBE && i == Position(|t.hashes|, k, p) && t.hashes[i] == 0 && (k == h ==> Past(t, h, p))
    ensures var t' := t.(hashes := t.hashes[i := k]);
            Grows(t, t', h) && Kept(t', h) && Tracks(t', h, log, lim)
  {
    var t' := t.(hashes := t.hashes[i := k]);
    if k == h {
      ClaimedFirst(t, i, p, h);
      OnlyHere(t, i, p, h, t');
    } else {
      HeldAsBefore(t, i, k, h);
    }
  }

  /** A key that reaches an empty slot has none. */
  lemma ClaimedFirst(t: Table, i: nat, p: nat, h: Hash)
    requires Sized(t) && Kept(t, h) && p < PROBE && i == Position(|t.hashes|, h, p) && t.hashes[i] == 0 && Past(t, h, p)
    ensures Absent(t, h)
  {
    forall j: nat ensures !Holds(t, j, h) {}
  }

  lemma OnlyHere(t: Table, i: nat, p: nat, h: Hash, t': Table)
    requires Sized(t) && Absent(t, h) && p < PROBE && i == Position(|t.hashes|, h, p) && Past(t, h, p)
    requires t' == t.(hashes := t.hashes[i := h])
    ensures Placed(t', i, h, p) && forall j: nat :: Holds(t', j, h) <==> j == i
  {
    forall j: nat ensures Holds(t', j, h) <==> j == i { assert !Holds(t, j, h); }
  }

  /** Another key in a slot that was not `h`'s changes nothing for `h`. */
  lemma HeldAsBefore(t: Table, i: nat, k: Hash, h: Hash)
    requires Sized(t) && i < |t.hashes| && t.hashes[i] != h && k != h
    ensures var t' := t.(hashes := t.hashes[i := k]);
            && (forall j: nat :: Holds(t', j, h) <==> Holds(t, j, h))
            && forall j: nat, q: nat | Placed(t, j, h, q) :: Placed(t', j, h, q)
  {}

  lemma ClaimKeeps(s: State, k: nat, h: Hash, lim: Limit)
    requires lim.rate >= 1 && Inv(s, h, lim) && k < |s.workers| && s.workers[k].Claiming?
    ensures Inv(StepOf(s, k, lim), h, lim)
  {
    var (t, pc) := (s.table, s.workers[k]);
    assert PcOk(t, pc, h) && PcFits(pc, |t.hashes|);
    var i := Position(|t.hashes|, pc.h, pc.p);
    if t.hashes[i] == 0 {
      ClaimKeepsKey(t, i, pc.h, pc.p, h, Of(s.log, h), lim);
      GrowsKeepsAll(s, k, Clearing(pc.h, pc.now, i), t.(hashes := t.hashes[i := pc.h]), h);
    } else if t.hashes[i] == pc.h {
      MoveKeeps(s, k, Checking(pc.h, pc.now, i), h, lim);
    } else {
      NextProbeFits(t, h, pc.h, pc.now, pc.p, pc.stalest);
      MoveKeeps(s, k, NextProbe(pc.h, pc.now, pc.p, pc.stalest), h, lim);
    }
  }

  lemma EvictKeepsKey(t: Table, i: nat, k: Hash, h: Hash, log: seq<Admission>, lim: Limit)
    requires lim.rate >= 1 && Sized(t) && Kept(t, h) && Tracks(t, h, log, lim)
    requires i < |t.hashes| && t.hashes[i] != 0 && t.hashes[i] != h && k != h
    ensures var t' := t.(hashes := t.hashes[i := k]);
            Grows(t, t', h) && Kept(t', h) && Tracks(t', h, log, lim)
  {
    HeldAsBefore(t, i, k, h);
  }

  lemma EvictKeeps(s: State, k: nat, h: Hash, lim: Limit)
    requires lim.rate >= 1 && Inv(s, h, lim) && k < |s.workers| && s.workers[k].Evicting?
    requires PcFits(s.workers[k], |s.table.hashes|) && Spared(s.table, s.workers[k], h)
    ensures Inv(StepOf(s, k, lim), h, lim)
  {
    var (t, pc) := (s.table, s.workers[k]);
    assert PcOk(t, pc, h);
    EvictKeepsKey(t, pc.slot, pc.h, h, Of(s.log, h), lim);
    GrowsKeepsAll(s, k, Clearing(pc.h, pc.now, pc.slot), t.(hashes := t.hashes[pc.slot := pc.h]), h);
  }

  // ---- Steps that change a state word ----

  /** The state of a claimed slot becomes `w`; for the key's own slot it is the bucket that `log'` ends with. */
  lemma WriteKeepsKey(t: Table, i: nat, w: nat, h: Hash, log: seq<Admission>, log': seq<Admission>, lim: Limit)
    requires lim.rate >= 1 && Sized(t) && Kept(t, h) && Tracks(t, h, log, lim) && i < |t.hashes| && t.hashes[i] != 0
    requires if t.hashes[i] == h then LogOk(log', lim) && Follows(None, BucketIn(w), log') else log' == log
    ensures var t' := t.(states := t.states[i := w]);
            Grows(t, t', h) && Kept(t', h) && Tracks(t', h, log', lim)
  {
    var t' := t.(states := t.states[i := w]);
    forall j: nat ensures Holds(t', j, h) <==> Holds(t, j, h) {}
    forall j: nat | Holds(t', j, h) ensures exists q: nat :: Placed(t', j, h, q) {
      var q: nat :| Placed(t, j, h, q);
      assert Placed(t', j, h, q);
    }
    if t.hashes[i] == h { assert Holds(t, i, h) && Holds(t', i, h); }
  }

  lemma ClearKeeps(s: State, k: nat, h: Hash, lim: Limit)
    requires lim.rate >= 1 && Inv(s, h, lim) && k < |s.workers| && s.workers[k].Clearing?
    requires PcFits(s.workers[k], |s.table.hashes|) && Spared(s.table, s.workers[k], h)
    ensures Inv(StepOf(s, k, lim), h, lim)
  {
    var (t, pc) := (s.table, s.workers[k]);
    assert PcOk(t, pc, h);
    if t.hashes[pc.slot] == h { assert Holds(t, pc.slot, h); }
    WriteKeepsKey(t, pc.slot, 0, h, Of(s.log, h), Of(s.log, h), lim);
    GrowsKeepsAll(s, k, Checking(pc.h, pc.now, pc.slot), t.(states := t.states[pc.slot := 0]), h);
  }

  /** What a request adds to its key's log and leaves in its slot. */
  lemma SwapFollows(before: Option<Bucket>, log: seq<Admission>, now: nat, lim: Limit, w: nat, d: Decision)
    requires lim.rate >= 1 && lim.burst <= EXCESS_MASK && now < MS_LIMIT && LogOk(log, lim) && Follows(None, before, log)
    requires before.Some? ==> before.value.last <= now && before.value.excess <= EXCESS_MASK
    requires var (excess, d') := Step(Excess(before), Elapsed(before, now), lim); w == Pack(now, excess) && d == d' != Reject
    ensures var log' := log + [Admission(now, Excess(BucketIn(w)), now + Wait(d))];
            LogOk(log', lim) && Follows(None, BucketIn(w), log')
  {
    NextStep(None, before, log, now, lim);
  }

  /** The same of the whole log, for a worker on the key's slot or on another key's. */
  lemma SwapLogs(t: Table, i: nat, k: Hash, now: nat, seen: nat, h: Hash, log: seq<Entry>, lim: Limit, w: nat, d: Decision)
    requires Sane(None, [], lim) && Sized(t) && i < |t.hashes| && t.states[i] == seen && Rightly(t, i, k, h)
    requires Tracks(t, h, Of(log, h), lim) && (k == h ==> now < MS_LIMIT && (seen != 0 ==> Unpack(seen).last <= now))
    requires var (excess, d') := Step(Excess(BucketIn(seen)), Elapsed(BucketIn(seen), now), lim); w == Pack(now, excess) && d == d' != Reject
    ensures var log' := Of(log + Logged(k, now, BucketIn(w), d), h);
            if k == h then LogOk(log', lim) && Follows(None, BucketIn(w), log') else log' == Of(log, h)
  {
    OfLogged(log, k, h, now, BucketIn(w), d);
    if k == h {
      assert Holds(t, i, h);
      SwapFollows(BucketIn(seen), Of(log, h), now, lim, w, d);
    } else {
      assert Of(log, h) + [] == Of(log, h);
    }
  }

  lemma SwapKeeps(s: State, k: nat, h: Hash, lim: Limit)
    requires Sane(None, [], lim) && Inv(s, h, lim) && k < |s.workers| && s.workers[k].Swapping? && Accepts(s.workers[k], lim)
    requires PcFits(s.workers[k], |s.table.hashes|) && Spared(s.table, s.workers[k], h)
    ensures Inv(StepOf(s, k, lim), h, lim)
  {
    var (t, pc) := (s.table, s.workers[k]);
    assert PcOk(t, pc, h);
    if t.states[pc.slot] != pc.seen {
      MoveKeeps(s, k, Checking(pc.h, pc.now, pc.slot), h, lim);
    } else {
      var (excess, d) := Step(Excess(BucketIn(pc.seen)), Elapsed(BucketIn(pc.seen), pc.now), lim);
      var w := Pack(pc.now, excess);
      var log' := s.log + Logged(pc.h, pc.now, BucketIn(w), d);
      SwapLogs(t, pc.slot, pc.h, pc.now, pc.seen, h, s.log, lim, w, d);
      WriteKeepsKey(t, pc.slot, w, h, Of(s.log, h), Of(log', h), lim);
      GrowsKeepsAll(s, k, Idle, t.(states := t.states[pc.slot := w]), h);
    }
  }

  /** A worker about to swap was not refused. */
  ghost predicate Accepts(pc: Pc, lim: Limit) {
    pc.Swapping? ==> Checked(BucketIn(pc.seen), pc.now, lim).1 != Reject
  }

  ghost predicate AllAccept(s: State, lim: Limit) { forall k | 0 <= k < |s.workers| :: Accepts(s.workers[k], lim) }

  lemma NextAccepts(s: State, e: Event, lim: Limit)
    requires InRange(s) && AllAccept(s, lim)
    ensures AllAccept(Next(s, e, lim), lim)
  {}

  lemma NextKeeps(s: State, e: Event, h: Hash, lim: Limit)
    requires Sane(None, [], lim) && Inv(s, h, lim) && AllAccept(s, lim) && Calm(s, e, h)
    ensures Inv(Next(s, e, lim), h, lim)
  {
    if Enabled(s, e) {
      match e
      case Enter(k, j, now) => MoveKeeps(s, k, Probing(j, now, 0, None), h, lim);
      case Move(k) =>
        match s.workers[k] {
          case Probing(_, _, _, _) => ProbeKeeps(s, k, h, lim);
          case Claiming(_, _, _, _) => ClaimKeeps(s, k, h, lim);
          case Aging(_, _, _, _) => AgeKeeps(s, k, h, lim);
          case Evicting(_, _, _) => EvictKeeps(s, k, h, lim);
          case Clearing(_, _, _) => ClearKeeps(s, k, h, lim);
          case Checking(_, _, _) => CheckKeeps(s, k, h, lim);
          case Loading(_, _, _) => LoadKeeps(s, k, h, lim);
          case Swapping(_, _, _, _) => SwapKeeps(s, k, h, lim);
          case _ =>
        }
    }
  }

  lemma {:induction false} RunKeeps(s: State, es: seq<Event>, h: Hash, lim: Limit)
    requires Sane(None, [], lim) && Inv(s, h, lim) && AllAccept(s, lim) && AlwaysCalm(s, es, lim, h)
    ensures Inv(Interleaved(s, es, lim), h, lim)
    decreases |es|
  {
    if es != [] {
      NextKeeps(s, es[0], h, lim);
      NextAccepts(s, es[0], lim);
      RunKeeps(Next(s, es[0], lim), es[1..], h, lim);
    }
  }

  lemma InitKeeps(n: nat, workers: nat, h: Hash, lim: Limit)
    requires n >= MIN_SLOTS && lim.rate >= 1
    ensures Inv(Init(n, workers), h, lim) && AllAccept(Init(n, workers), lim)
  {}

  /** A key's log at the end of a run that leaves it in peace. */
  lemma CalmLog(n: nat, workers: nat, es: seq<Event>, h: Hash, lim: Limit)
    requires n >= MIN_SLOTS && Sane(None, [], lim) && AlwaysCalm(Init(n, workers), es, lim, h)
    ensures LogOk(Of(Interleaved(Init(n, workers), es, lim).log, h), lim)
  {
    InitKeeps(n, workers, h, lim);
    RunKeeps(Init(n, workers), es, h, lim);
  }

  /** Over every interleaving in which no step takes the key's slot over, takes one over for it, clears a
      bucket that counts a request of it, or sets its clock back, the key keeps its rate. Workers may probe,
      claim, lose swaps and refuse as they like, for this key and for others. */
  lemma RateBoundSteps(n: nat, workers: nat, es: seq<Event>, h: Hash, lim: Limit, log: seq<Admission>, i: nat, j: nat)
    requires n >= MIN_SLOTS && Sane(None, [], lim) && AlwaysCalm(Init(n, workers), es, lim, h)
    requires log == Of(Interleaved(Init(n, workers), es, lim).log, h) && i < j < |log|
    ensures log[i].at <= log[j].at && 1000 * (j - i) <= lim.burst + lim.rate * (log[j].at - log[i].at) / 1000
  {
    CalmLog(n, workers, es, h, lim);
    WithinBurst(log[i], log[j], j - i, lim);
  }

  /** Without `nodelay`, its requests start at the rate, but for what `delayAfter` lets start early. */
  lemma ShapingBoundSteps(n: nat, workers: nat, es: seq<Event>, h: Hash, lim: Limit, log: seq<Admission>, i: nat, j: nat)
    requires n >= MIN_SLOTS && Sane(None, [], lim) && AlwaysCalm(Init(n, workers), es, lim, h) && !lim.nodelay
    requires log == Of(Interleaved(Init(n, workers), es, lim).log, h) && i < j < |log|
    ensures Paced(log[i], log[j], j - i, lim)
  {
    CalmLog(n, workers, es, h, lim);
    assert Delayed(log[i], lim) && Delayed(log[j], lim) && Drifts(log[i], log[j], j - i, lim.rate);
    Starts(log[i], log[j], lim, j - i);
  }

  /** Who of them waits, and for how long. */
  lemma StartsExactlySteps(n: nat, workers: nat, es: seq<Event>, h: Hash, lim: Limit, log: seq<Admission>, i: nat)
    requires n >= MIN_SLOTS && Sane(None, [], lim) && AlwaysCalm(Init(n, workers), es, lim, h)
    requires log == Of(Interleaved(Init(n, workers), es, lim).log, h) && i < |log|
    ensures var wait := log[i].start - log[i].at;
            && (lim.nodelay || log[i].excess <= lim.delayAfter ==> wait == 0)
            && (!lim.nodelay && log[i].excess > lim.delayAfter ==>
                  wait >= 0 && lim.rate * wait <= 1000 * (log[i].excess - lim.delayAfter) < lim.rate * wait + lim.rate)
  {
    CalmLog(n, workers, es, h, lim);
    assert Delayed(log[i], lim);
    if lim.nodelay || log[i].excess <= lim.delayAfter { NoWait(lim.rate, log[i].start - log[i].at); }
  }

  // ---- A worker left alone computes what module LimitReq's functions say ----

  ghost function Moves(k: nat, m: nat): seq<Event> { seq(m, _ => Move(k)) }

  lemma {:induction false} RunAppend(s: State, a: seq<Event>, b: seq<Event>, lim: Limit)
    requires InRange(s)
    ensures Interleaved(s, a + b, lim) == Interleaved(Interleaved(s, a, lim), b, lim)
    decreases |a|
  {
    if a == [] {
      assert a + b == b;
    } else {
      assert (a + b)[1..] == a[1..] + b;
      RunAppend(Next(s, a[0], lim), a[1..], b, lim);
    }
  }

  lemma MoveThen(s: State, k: nat, m: nat, lim: Limit)
    requires InRange(s) && k < |s.workers| && Busy(s.workers[k])
    ensures Interleaved(s, Moves(k, m + 1), lim) == Interleaved(StepOf(s, k, lim), Moves(k, m), lim)
  {
    assert Moves(k, m + 1)[1..] == Moves(k, m);
  }

  /** What a worker did before is forgotten once it moves on. */
  lemma GoForgets(s: State, k: nat, pc: Pc, t: Table, pc': Pc, t': Table)
    requires InRange(s) && k < |s.workers| && Sized(t) && Sized(t') && |t.hashes| == |t'.hashes| == |s.table.hashes|
    requires PcFits(pc, |t.hashes|) && PcFits(pc', |t.hashes|)
    ensures Go(Go(s, k, pc, t), k, pc', t') == Go(s, k, pc', t')
  {
    assert s.workers[k := pc][k := pc'] == s.workers[k := pc'];
  }

  /** Where a worker that met `f` begins to bump, the slot being its key's now. */
  ghost function Met(s: State, k: nat, h: Hash, now: nat, f: Found): (s': State)
    requires InRange(s) && k < |s.workers| && f.slot < |s.table.hashes|
    ensures InRange(s')
  {
    Go(s, k, Checking(h, now, f.slot), if f.Ours? then s.table else Claimed(s.table, f.slot, h))
  }

  lemma AloneClaims(s: State, k: nat, h: Hash, now: nat, i: nat, lim: Limit)
    requires InRange(s) && k < |s.workers| && i < |s.table.hashes|
    requires if s.workers[k].Claiming?
             then i == Position(|s.table.hashes|, h, s.workers[k].p) && s.table.hashes[i] == 0 && s.workers[k].h == h && s.workers[k].now == now
             else s.workers[k] == Evicting(h, now, i)
    ensures Interleaved(s, Moves(k, 2), lim) == Met(s, k, h, now, Empty(i))
  {
    var t1 := s.table.(hashes := s.table.hashes[i := h]);
    MoveThen(s, k, 1, lim);
    MoveThen(StepOf(s, k, lim), k, 0, lim);
    GoForgets(s, k, Clearing(h, now, i), t1, Checking(h, now, i), Claimed(s.table, i, h));
  }

  /** The candidate that the worker has noted is the one the scan carries. */
  ghost predicate Notes(t: Table, p: nat, st: Option<Seen>)
    requires Sized(t)
  {
    && (p > 0 ==> st.Some?)
    && (st.Some? ==> st.value.slot < |t.hashes| && st.value.last == Unpack(t.states[st.value.slot]).last)
  }

  function SlotOf(st: Option<Seen>): Option<nat> { if st.None? then None else Some(st.value.slot) }

  lemma MetForgets(s: State, k: nat, pc: Pc, h: Hash, now: nat, f: Found)
    requires InRange(s) && k < |s.workers| && PcFits(pc, |s.table.hashes|) && f.slot < |s.table.hashes|
    ensures Met(Go(s, k, pc, s.table), k, h, now, f) == Met(s, k, h, now, f)
  {
    var there := Met(s, k, h, now, f);
    GoForgets(s, k, pc, s.table, Checking(h, now, f.slot), there.table);
  }

  /** Past an occupant, whose age is noted. */
  lemma AlonePasses(s: State, k: nat, m: nat, lim: Limit)
    requires InRange(s) && k < |s.workers| && s.workers[k].Probing? && PcFits(s.workers[k], |s.table.hashes|)
    requires var i := Position(|s.table.hashes|, s.workers[k].h, s.workers[k].p);
             s.table.hashes[i] != 0 && s.table.hashes[i] != s.workers[k].h
    ensures var (t, pc) := (s.table, s.workers[k]);
            var i := Position(|t.hashes|, pc.h, pc.p);
            Interleaved(s, Moves(k, m + 2), lim) ==
            Interleaved(Go(s, k, NextProbe(pc.h, pc.now, pc.p, Staler(pc.stalest, i, Unpack(t.states[i]).last)), t), Moves(k, m), lim)
  {
    var (t, pc) := (s.table, s.workers[k]);
    var i := Position(|t.hashes|, pc.h, pc.p);
    MoveThen(s, k, m + 1, lim);
    MoveThen(StepOf(s, k, lim), k, m, lim);
    GoForgets(s, k, Aging(pc.h, pc.now, pc.p, pc.stalest), t,
              NextProbe(pc.h, pc.now, pc.p, Staler(pc.stalest, i, Unpack(t.states[i]).last)), t);
  }

  lemma {:induction false} AloneProbe(s: State, k: nat, h: Hash, now: nat, p: nat, st: Option<Seen>, lim: Limit) returns (m: nat)
    requires InRange(s) && k < |s.workers| && s.workers[k] == Probing(h, now, p, st) && p < PROBE && Notes(s.table, p, st)
    ensures Interleaved(s, Moves(k, m), lim) == Met(s, k, h, now, Scan(s.table, h, p, SlotOf(st)))
    decreases PROBE - p, 0
  {
    var t := s.table;
    var i := Position(|t.hashes|, h, p);
    if t.hashes[i] == h {
      MoveThen(s, k, 0, lim);
      m := 1;
    } else if t.hashes[i] == 0 {
      var s1 := StepOf(s, k, lim);
      AloneClaims(s1, k, h, now, i, lim);
      MetForgets(s, k, s1.workers[k], h, now, Empty(i));
      MoveThen(s, k, 2, lim);
      m := 3;
    } else {
      m := AloneGoesOn(s, k, h, now, p, Staler(st, i, Unpack(t.states[i]).last), lim);
      AlonePasses(s, k, m, lim);
      m := m + 2;
    }
  }

  lemma {:induction false} AloneGoesOn(s: State, k: nat, h: Hash, now: nat, p: nat, st: Option<Seen>, lim: Limit) returns (m: nat)
    requires InRange(s) && k < |s.workers| && p < PROBE && Notes(s.table, p + 1, st)
    ensures Interleaved(Go(s, k, NextProbe(h, now, p, st), s.table), Moves(k, m), lim) == Met(s, k, h, now, Scan(s.table, h, p + 1, SlotOf(st)))
    decreases PROBE - (p + 1), 1
  {
    var pc := NextProbe(h, now, p, st);
    var s1 := Go(s, k, pc, s.table);
    MetForgets(s, k, pc, h, now, Scan(s.table, h, p + 1, SlotOf(st)));
    if p + 1 == PROBE {
      AloneClaims(s1, k, h, now, st.value.slot, lim);
      m := 2;
    } else {
      m := AloneProbe(s1, k, h, now, p + 1, st, lim);
    }
  }

  lemma AloneBumps(s: State, k: nat, h: Hash, now: nat, i: nat, lim: Limit) returns (m: nat)
    requires InRange(s) && k < |s.workers| && i < |s.table.hashes| && s.workers[k] == Checking(h, now, i) && s.table.hashes[i] == h
    ensures var (t', d) := Bumped(s.table, i, now, lim);
            Interleaved(s, Moves(k, m), lim) == Returns(s, k, t', Logged(h, now, BucketIn(t'.states[i]), d))
  {
    var w := s.table.states[i];
    var s1 := StepOf(s, k, lim);
    var s2 := StepOf(s1, k, lim);
    MoveThen(s, k, 1, lim);
    MoveThen(s1, k, 0, lim);
    m := 2;
    if s2.workers[k].Swapping? {
      MoveThen(s, k, 2, lim);
      MoveThen(s1, k, 1, lim);
      MoveThen(s2, k, 0, lim);
      m := 3;
      assert s2.workers[k := Idle] == s.workers[k := Idle];
    } else {
      assert s.log + [] == s.log;
      assert s1.workers[k := Idle] == s.workers[k := Idle];
    }
  }

  /** A check that no other worker interrupts decides and leaves the table as the sequential `TableChecked`
      says, and an admission is logged with what its slot then holds: the two models are one. */
  lemma AloneChecks(s: State, k: nat, h: Hash, now: nat, lim: Limit) returns (m: nat)
    requires InRange(s) && k < |s.workers| && s.workers[k].Idle?
    ensures var (t', d) := TableChecked(s.table, h, now, lim);
            var i := Scan(s.table, h, 0, None).slot;
            && |t'.states| > i
            && Interleaved(s, [Enter(k, h, now)] + Moves(k, m), lim) == State(t', s.log + Logged(h, now, BucketIn(t'.states[i]), d), s.workers)
  {
    var f := Scan(s.table, h, 0, None);
    var s1 := Go(s, k, Probing(h, now, 0, None), s.table);
    var a := AloneProbe(s1, k, h, now, 0, None, lim);
    MetForgets(s, k, Probing(h, now, 0, None), h, now, f);
    OursIsHeld(s.table, h, 0, None);
    var b := AloneBumps(Met(s, k, h, now, f), k, h, now, f.slot, lim);
    m := a + b;
    EnterThen(s, k, h, now, Moves(k, a), Moves(k, b), Met(s, k, h, now, f), lim);
    assert Moves(k, a) + Moves(k, b) == Moves(k, m);
    assert Met(s, k, h, now, f).workers[k := Idle] == s.workers;
  }

  lemma EnterThen(s: State, k: nat, h: Hash, now: nat, a: seq<Event>, b: seq<Event>, s2: State, lim: Limit)
    requires InRange(s) && k < |s.workers| && s.workers[k].Idle? && Interleaved(Go(s, k, Probing(h, now, 0, None), s.table), a, lim) == s2
    ensures InRange(s2) && Interleaved(s, [Enter(k, h, now)] + (a + b), lim) == Interleaved(s2, b, lim)
  {
    var s1 := Go(s, k, Probing(h, now, 0, None), s.table);
    RunAppend(s1, a, b, lim);
    assert ([Enter(k, h, now)] + (a + b))[1..] == a + b;
  }

  lemma {:induction false} OursIsHeld(t: Table, h: Hash, p: nat, st: Option<nat>)
    requires Sized(t) && p <= PROBE && (p > 0 ==> st.Some?) && (st.Some? ==> st.value < |t.hashes|)
    ensures var f := Scan(t, h, p, st); f.Ours? ==> t.hashes[f.slot] == h
    decreases PROBE - p
  {
    if p < PROBE {
      var i := Position(|t.hashes|, h, p);
      if t.hashes[i] != h && t.hashes[i] != 0 {
        OursIsHeld(t, h, p + 1,
                   if st.None? || Unpack(t.states[i]).last < Unpack(t.states[st.value]).last then Some(i) else st);
      }
    }
  }
}
