/** `limit_conn` under every interleaving: any number of workers share the words of one zone, and each
    load and each compare-and-swap of `acquire`, `increment` and `release` is a step of its own. */
module LimitConnSteps {
  import opened Wrappers
  import opened LimitConn

  /** Where a worker stands: what it does next, and what it has read so far. */
  datatype Pc =
    | Idle
    | Probing(tag: Tag, limit: nat, p: nat, spare: Option<nat>)    // about to load probe p
    | Claiming(tag: Tag, limit: nat, p: nat, spare: Option<nat>)   // about to swap 0 for the tag
    | Counting(slot: nat, tag: Tag, limit: nat)                    // increment, about to load
    | CountingCas(slot: nat, tag: Tag, limit: nat, seen: Word)     // increment, about to swap
    | Taking(slot: nat, tag: Tag)                                  // takeover, about to load
    | TakingCas(slot: nat, tag: Tag, seen: Word)                   // takeover, about to swap
    | Dropping(id: nat, guard: Guard)                              // release, about to load
    | DroppingCas(id: nat, guard: Guard, seen: Word)               // release, about to swap

  /** The words, the live guards, the next unused guard name, and the workers. */
  datatype State = State(slots: seq<Word>, live: Live, named: nat, workers: seq<Pc>)

  datatype Event =
    | Enter(k: nat, tag: Tag, limit: nat)  // an idle worker calls acquire
    | Drop(k: nat, id: nat)                // an idle worker drops a guard
    | Step(k: nat)                         // a busy worker performs its next load or swap

  ghost predicate PcFits(pc: Pc, n: nat) {
    match pc
    case Idle => true
    case Probing(_, _, p, spare) => p <= PROBE && (spare.Some? ==> spare.value < n)
    case Claiming(_, _, p, spare) => p < PROBE && (spare.Some? ==> spare.value < n)
    case Counting(i, _, _) => i < n
    case CountingCas(i, _, _, _) => i < n
    case Taking(i, _) => i < n
    case TakingCas(i, _, _) => i < n
    case Dropping(_, g) => g.slot < n
    case DroppingCas(_, g, _) => g.slot < n
  }

  ghost predicate Fits(s: State) {
    && |s.slots| > 0
    && (forall k | 0 <= k < |s.workers| :: PcFits(s.workers[k], |s.slots|))
    && (forall id | id in s.live :: s.live[id].slot < |s.slots|)
  }

  ghost predicate Busy(pc: Pc, id: nat) {
    (pc.Dropping? || pc.DroppingCas?) && pc.id == id
  }

  ghost predicate Enabled(s: State, e: Event) {
    && e.k < |s.workers|
    && match e
       case Enter(k, _, _) => s.workers[k].Idle?
       case Drop(k, id) => s.workers[k].Idle? && id in s.live && forall j | 0 <= j < |s.workers| :: !Busy(s.workers[j], id)
       case Step(k) => !s.workers[k].Idle?
  }

  ghost function Go(s: State, k: nat, pc: Pc): (s': State)
    requires Fits(s) && k < |s.workers| && PcFits(pc, |s.slots|)
    ensures Fits(s')
  {
    s.(workers := s.workers[k := pc])
  }

  /** A swap that won: slot `i` now holds `w` and the worker returns with a new guard. */
  ghost function Grant(s: State, k: nat, i: nat, tag: Tag, w: Word): (s': State)
    requires Fits(s) && k < |s.workers| && i < |s.slots|
    ensures Fits(s')
  {
    State(s.slots[i := w], s.live[s.named := Guard(i, tag)], s.named + 1, s.workers[k := Idle])
  }

  ghost function GiveBack(s: State, k: nat, id: nat, slots: seq<Word>): (s': State)
    requires Fits(s) && k < |s.workers| && |slots| == |s.slots|
    ensures Fits(s')
  {
    s.(slots := slots, live := s.live - {id}, workers := s.workers[k := Idle])
  }

  ghost function StepOf(s: State, k: nat): (s': State)
    requires Fits(s) && k < |s.workers| && !s.workers[k].Idle?
    ensures Fits(s')
  {
    match s.workers[k]
    case Probing(tag, limit, p, spare) =>
      if p == PROBE then
        match spare case Some(i) => Go(s, k, Taking(i, tag)) case None => Go(s, k, Idle)
      else
        var i := Position(|s.slots|, tag, p);
        var w := s.slots[i];
        if w == 0 then Go(s, k, Claiming(tag, limit, p, spare))
        else if TagOf(w) == tag then Go(s, k, Counting(i, tag, limit))
        else Go(s, k, Probing(tag, limit, p + 1, if spare.None? && CountOf(w) == 0 then Some(i) else spare))
    case Claiming(tag, limit, p, spare) =>
      var i := Position(|s.slots|, tag, p);
      var w := s.slots[i];
      if w == 0 then Grant(s, k, i, tag, Pack(tag, 1))
      else if TagOf(w) == tag then Go(s, k, Counting(i, tag, limit))
      else Go(s, k, Probing(tag, limit, p + 1, spare))
    case Counting(i, tag, limit) =>
      var w := s.slots[i];
      if w != 0 && TagOf(w) != tag then Go(s, k, Idle)
      else if CountOf(w) >= limit || CountOf(w) >= COUNT_MASK then Go(s, k, Idle)
      else Go(s, k, CountingCas(i, tag, limit, w))
    case CountingCas(i, tag, limit, seen) =>
      if s.slots[i] == seen then Grant(s, k, i, tag, Pack(tag, CountOf(seen) + 1))
      else Go(s, k, Counting(i, tag, limit))
    case Taking(i, tag) =>
      if CountOf(s.slots[i]) == 0 then Go(s, k, TakingCas(i, tag, s.slots[i])) else Go(s, k, Idle)
    case TakingCas(i, tag, seen) =>
      if s.slots[i] == seen then Grant(s, k, i, tag, Pack(tag, 1)) else Go(s, k, Idle)
    case Dropping(id, g) =>
      var w := s.slots[g.slot];
      if TagOf(w) != g.tag || CountOf(w) == 0 then GiveBack(s, k, id, s.slots)
      else Go(s, k, DroppingCas(id, g, w))
    case DroppingCas(id, g, seen) =>
      if s.slots[g.slot] == seen && CountOf(seen) > 0
      then GiveBack(s, k, id, s.slots[g.slot := Pack(g.tag, CountOf(seen) - 1)])
      else Go(s, k, Dropping(id, g))
  }

  /** One event; an event that is not possible in `s` changes nothing. */
  ghost function Next(s: State, e: Event): (s': State)
    requires Fits(s)
    ensures Fits(s')
  {
    if !Enabled(s, e) then s else
    match e
    case Enter(k, tag, limit) => Go(s, k, Probing(tag, Clamp(limit), 0, None))
    case Drop(k, id) => Go(s, k, Dropping(id, s.live[id]))
    case Step(k) => StepOf(s, k)
  }

  ghost function Run(s: State, es: seq<Event>): (s': State)
    requires Fits(s)
    ensures Fits(s')
    decreases |es|
  {
    if es == [] then s else Run(Next(s, es[0]), es[1..])
  }

  ghost function Init(n: nat, workers: nat): (s: State)
    requires n >= MIN_SLOTS
    ensures Fits(s)
  {
    State(seq(n, _ => 0), map[], 0, seq(workers, _ => Idle))
  }

  // ---- What every reachable state satisfies ----

  ghost predicate PcOk(s: State, pc: Pc, cap: Tag -> nat) {
    match pc
    case Probing(tag, limit, _, _) => limit <= cap(tag)
    case Claiming(tag, limit, _, _) => limit <= cap(tag)
    case Counting(_, tag, limit) => limit <= cap(tag)
    case CountingCas(_, tag, limit, seen) =>
      limit <= cap(tag) && CountOf(seen) < limit && CountOf(seen) < COUNT_MASK && (seen == 0 || TagOf(seen) == tag)
    case TakingCas(_, _, seen) => CountOf(seen) == 0
    case Dropping(id, g) => id in s.live && s.live[id] == g
    case DroppingCas(id, g, seen) =>
      id in s.live && s.live[id] == g && TagOf(seen) == g.tag && CountOf(seen) > 0
    case _ => true
  }

  ghost predicate Inv(s: State, cap: Tag -> nat) {
    && Fits(s) && Counted(s.slots, s.live) && Capped(s.slots, cap)
    && (forall id | id in s.live :: id < s.named)
    && (forall k | 0 <= k < |s.workers| :: PcOk(s, s.workers[k], cap))
    && (forall j, k, id | 0 <= j < |s.workers| && 0 <= k < |s.workers| && Busy(s.workers[j], id) && Busy(s.workers[k], id) :: j == k)
  }

  ghost predicate Within(e: Event, cap: Tag -> nat) { e.Enter? ==> Clamp(e.limit) <= cap(e.tag) }

  lemma InitKeeps(n: nat, workers: nat, cap: Tag -> nat)
    requires n >= MIN_SLOTS
    ensures Inv(Init(n, workers), cap)
  {
    var s := Init(n, workers);
    assert forall i | 0 <= i < n :: At(s.live, i) == {};
  }

  lemma GoKeeps(s: State, k: nat, pc: Pc, cap: Tag -> nat)
    requires Inv(s, cap) && k < |s.workers| && PcFits(pc, |s.slots|) && PcOk(s, pc, cap)
    requires forall id | Busy(pc, id) :: forall j | 0 <= j < |s.workers| && j != k :: !Busy(s.workers[j], id)
    ensures Inv(Go(s, k, pc), cap)
  {}

  lemma GrantKeeps(s: State, k: nat, i: nat, tag: Tag, cap: Tag -> nat)
    requires Inv(s, cap) && k < |s.workers| && i < |s.slots| && CountOf(s.slots[i]) < COUNT_MASK
    requires if TagOf(s.slots[i]) == tag then CountOf(s.slots[i]) < cap(tag) || CountOf(s.slots[i]) == 0 else CountOf(s.slots[i]) == 0
    ensures Inv(Grant(s, k, i, tag, Pack(tag, CountOf(s.slots[i]) + 1)), cap)
  {
    CountedAdd(s.slots, s.live, s.named, Guard(i, tag));
    var s' := Grant(s, k, i, tag, Pack(tag, CountOf(s.slots[i]) + 1));
    forall j | 0 <= j < |s'.workers| ensures PcOk(s', s'.workers[j], cap) {
      if j != k { assert PcOk(s, s.workers[j], cap); }
    }
  }

  lemma GiveBackKeeps(s: State, k: nat, cap: Tag -> nat)
    requires Inv(s, cap) && k < |s.workers| && s.workers[k].DroppingCas?
    requires s.slots[s.workers[k].guard.slot] == s.workers[k].seen
    ensures var pc := s.workers[k];
            Inv(GiveBack(s, k, pc.id, s.slots[pc.guard.slot := Pack(pc.guard.tag, CountOf(pc.seen) - 1)]), cap)
  {
    var pc := s.workers[k];
    assert Busy(pc, pc.id);
    CountedRemove(s.slots, s.live, pc.id);
  }

  /** A step that only moves the worker keeps the invariant when its new place is in order. */
  lemma MoveKeeps(s: State, k: nat, pc: Pc, cap: Tag -> nat)
    requires Inv(s, cap) && k < |s.workers| && PcFits(pc, |s.slots|) && PcOk(s, pc, cap)
    requires (pc.Dropping? || pc.DroppingCas?) ==> Busy(s.workers[k], pc.id)
    ensures Inv(Go(s, k, pc), cap)
  {
    GoKeeps(s, k, pc, cap);
  }

  lemma ProbeStepKeeps(s: State, k: nat, cap: Tag -> nat)
    requires Inv(s, cap) && k < |s.workers| && s.workers[k].Probing?
    ensures Inv(StepOf(s, k), cap)
  {
    assert PcOk(s, s.workers[k], cap) && PcFits(s.workers[k], |s.slots|);
    MoveKeeps(s, k, StepOf(s, k).workers[k], cap);
  }

  lemma ClaimStepKeeps(s: State, k: nat, cap: Tag -> nat)
    requires Inv(s, cap) && k < |s.workers| && s.workers[k].Claiming?
    ensures Inv(StepOf(s, k), cap)
  {
    var pc := s.workers[k];
    assert PcOk(s, pc, cap) && PcFits(pc, |s.slots|);
    if s.slots[Position(|s.slots|, pc.tag, pc.p)] == 0 {
      GrantKeeps(s, k, Position(|s.slots|, pc.tag, pc.p), pc.tag, cap);
    } else {
      MoveKeeps(s, k, StepOf(s, k).workers[k], cap);
    }
  }

  lemma CountStepKeeps(s: State, k: nat, cap: Tag -> nat)
    requires Inv(s, cap) && k < |s.workers| && s.workers[k].Counting?
    ensures Inv(StepOf(s, k), cap)
  {
    assert PcOk(s, s.workers[k], cap) && PcFits(s.workers[k], |s.slots|);
    MoveKeeps(s, k, StepOf(s, k).workers[k], cap);
  }

  lemma CountSwapKeeps(s: State, k: nat, cap: Tag -> nat)
    requires Inv(s, cap) && k < |s.workers| && s.workers[k].CountingCas?
    ensures Inv(StepOf(s, k), cap)
  {
    var pc := s.workers[k];
    assert PcOk(s, pc, cap) && PcFits(pc, |s.slots|);
    if s.slots[pc.slot] == pc.seen {
      GrantKeeps(s, k, pc.slot, pc.tag, cap);
    } else {
      MoveKeeps(s, k, Counting(pc.slot, pc.tag, pc.limit), cap);
    }
  }

  lemma TakeStepKeeps(s: State, k: nat, cap: Tag -> nat)
    requires Inv(s, cap) && k < |s.workers| && (s.workers[k].Taking? || s.workers[k].TakingCas?)
    ensures Inv(StepOf(s, k), cap)
  {
    var pc := s.workers[k];
    assert PcOk(s, pc, cap) && PcFits(pc, |s.slots|);
    if pc.TakingCas? && s.slots[pc.slot] == pc.seen {
      GrantKeeps(s, k, pc.slot, pc.tag, cap);
    } else {
      MoveKeeps(s, k, StepOf(s, k).workers[k], cap);
    }
  }

  lemma DropStepKeeps(s: State, k: nat, cap: Tag -> nat)
    requires Inv(s, cap) && k < |s.workers| && (s.workers[k].Dropping? || s.workers[k].DroppingCas?)
    ensures Inv(StepOf(s, k), cap)
  {
    var pc := s.workers[k];
    assert PcOk(s, pc, cap) && PcFits(pc, |s.slots|);
    if pc.Dropping? {
      NoEarlyReturn(s, k, cap);
      MoveKeeps(s, k, DroppingCas(pc.id, pc.guard, s.slots[pc.guard.slot]), cap);
    } else if s.slots[pc.guard.slot] == pc.seen {
      GiveBackKeeps(s, k, cap);
    } else {
      MoveKeeps(s, k, Dropping(pc.id, pc.guard), cap);
    }
  }

  /** The early return of `release` is unreachable: a live guard's slot still has its tag and a count. */
  lemma NoEarlyReturn(s: State, k: nat, cap: Tag -> nat)
    requires Inv(s, cap) && k < |s.workers| && s.workers[k].Dropping?
    ensures var pc := s.workers[k];
            && TagOf(s.slots[pc.guard.slot]) == pc.guard.tag && CountOf(s.slots[pc.guard.slot]) > 0
            && StepOf(s, k) == Go(s, k, DroppingCas(pc.id, pc.guard, s.slots[pc.guard.slot]))
  {
    var pc := s.workers[k];
    assert pc.id in At(s.live, pc.guard.slot);
  }

  lemma {:induction false} RunKeeps(s: State, es: seq<Event>, cap: Tag -> nat)
    requires Inv(s, cap) && forall e | e in es :: Within(e, cap)
    ensures Inv(Run(s, es), cap)
    decreases |es|
  {
    if es != [] {
      NextKeeps(s, es[0], cap);
      RunKeeps(Next(s, es[0]), es[1..], cap);
    }
  }

  lemma NextKeeps(s: State, e: Event, cap: Tag -> nat)
    requires Inv(s, cap) && Within(e, cap)
    ensures Inv(Next(s, e), cap)
  {
    if Enabled(s, e) {
      match e
      case Enter(k, tag, limit) => GoKeeps(s, k, Probing(tag, Clamp(limit), 0, None), cap);
      case Drop(k, id) => GoKeeps(s, k, Dropping(id, s.live[id]), cap);
      case Step(k) =>
        match s.workers[k] {
          case Probing(_, _, _, _) => ProbeStepKeeps(s, k, cap);
          case Claiming(_, _, _, _) => ClaimStepKeeps(s, k, cap);
          case Counting(_, _, _) => CountStepKeeps(s, k, cap);
          case CountingCas(_, _, _, _) => CountSwapKeeps(s, k, cap);
          case Taking(_, _) => TakeStepKeeps(s, k, cap);
          case TakingCas(_, _, _) => TakeStepKeeps(s, k, cap);
          case Dropping(_, _) => DropStepKeeps(s, k, cap);
          case DroppingCas(_, _, _) => DropStepKeeps(s, k, cap);
        }
    }
  }

  // ---- The guarantees, over every run ----

  function Total(slots: seq<Word>): nat {
    if slots == [] then 0 else Total(slots[..|slots| - 1]) + CountOf(slots[|slots| - 1])
  }

  function Below(live: Live, k: nat): set<nat> { set id | id in live && live[id].slot < k }

  lemma {:induction false} TotalIsLive(slots: seq<Word>, live: Live, k: nat)
    requires Counted(slots, live) && k <= |slots|
    ensures Total(slots[..k]) == |Below(live, k)|
  {
    if k == 0 {
      assert Below(live, k) == {};
    } else {
      TotalIsLive(slots, live, k - 1);
      assert Below(live, k) == Below(live, k - 1) + At(live, k - 1);
      assert Below(live, k - 1) !! At(live, k - 1);
      assert slots[..k][..k - 1] == slots[..k - 1];
      assert CountOf(slots[k - 1]) == |At(live, k - 1)|;
    }
  }

  /** After any interleaving: each slot counts exactly its live guards, which carry its tag; no count
      passes its tag's limit (1 when the limit is 0); and the counts add up to the live guards. */
  lemma EveryRun(n: nat, workers: nat, es: seq<Event>, cap: Tag -> nat)
    requires n >= MIN_SLOTS && forall e | e in es :: Within(e, cap)
    ensures var s := Run(Init(n, workers), es);
            Counted(s.slots, s.live) && Capped(s.slots, cap) && Total(s.slots) == |s.live|
  {
    InitKeeps(n, workers, cap);
    RunKeeps(Init(n, workers), es, cap);
    var s := Run(Init(n, workers), es);
    TotalIsLive(s.slots, s.live, |s.slots|);
    assert s.slots[..|s.slots|] == s.slots;
    assert Below(s.live, |s.slots|) == s.live.Keys;
  }

  /** Once every guard has been dropped, every count is zero again. */
  lemma DrainedIsZero(n: nat, workers: nat, es: seq<Event>, cap: Tag -> nat)
    requires n >= MIN_SLOTS && forall e | e in es :: Within(e, cap)
    ensures var s := Run(Init(n, workers), es);
            s.live == map[] <==> forall i | 0 <= i < |s.slots| :: CountOf(s.slots[i]) == 0
  {
    InitKeeps(n, workers, cap);
    RunKeeps(Init(n, workers), es, cap);
    var s := Run(Init(n, workers), es);
    if s.live == map[] {
      assert forall i | 0 <= i < |s.slots| :: At(s.live, i) == {};
    } else {
      var id :| id in s.live;
      assert id in At(s.live, s.live[id].slot);
    }
  }

  /** No step of any worker takes over a slot that a live guard names. */
  lemma NeverTakenOver(s: State, e: Event, cap: Tag -> nat, id: nat)
    requires Inv(s, cap) && id in s.live
    ensures TagOf(Next(s, e).slots[s.live[id].slot]) == s.live[id].tag
  {
    assert id in At(s.live, s.live[id].slot);
    if Enabled(s, e) && e.Step? {
      assert PcOk(s, s.workers[e.k], cap);
    }
  }

  // ---- A worker left alone computes what module LimitConn's functions say ----

  ghost function Steps(k: nat, n: nat): seq<Event> { seq(n, _ => Step(k)) }

  lemma {:induction false} RunAppend(s: State, a: seq<Event>, b: seq<Event>)
    requires Fits(s)
    ensures Run(s, a + b) == Run(Run(s, a), b)
    decreases |a|
  {
    if a == [] {
      assert a + b == b;
    } else {
      assert (a + b)[1..] == a[1..] + b;
      RunAppend(Next(s, a[0]), a[1..], b);
    }
  }

  lemma StepThen(s: State, k: nat, n: nat)
    requires Fits(s) && k < |s.workers| && !s.workers[k].Idle?
    ensures Run(s, Steps(k, n + 1)) == Run(StepOf(s, k), Steps(k, n))
  {
    assert Steps(k, n + 1)[1..] == Steps(k, n);
  }

  /** Where a worker that met `f` goes: to the end of its call, or to the takeover of a spare slot. */
  ghost function Met(s: State, k: nat, tag: Tag, limit: nat, f: Found): (s': State)
    requires Fits(s) && k < |s.workers| && (!f.Full? ==> f.slot < |s.slots|)
    ensures Fits(s')
  {
    match f
    case Empty(i) => Grant(s, k, i, tag, Pack(tag, 1))
    case Mine(i) =>
      var count := CountOf(s.slots[i]);
      if count >= limit || count >= COUNT_MASK then Go(s, k, Idle) else Grant(s, k, i, tag, Pack(tag, count + 1))
    case Spare(i) => Go(s, k, Taking(i, tag))
    case Full => Go(s, k, Idle)
  }

  /** What a worker did before is forgotten once it moves on. */
  lemma GoForgets(s: State, k: nat, pc: Pc)
    requires Fits(s) && k < |s.workers| && PcFits(pc, |s.slots|)
    ensures forall pc' | PcFits(pc', |s.slots|) :: Go(Go(s, k, pc), k, pc') == Go(s, k, pc')
    ensures forall i: nat, tag, w | i < |s.slots| :: Grant(Go(s, k, pc), k, i, tag, w) == Grant(s, k, i, tag, w)
  {
    forall pc' | PcFits(pc', |s.slots|) ensures Go(Go(s, k, pc), k, pc') == Go(s, k, pc') {
      assert s.workers[k := pc][k := pc'] == s.workers[k := pc'];
    }
    assert s.workers[k := pc][k := Idle] == s.workers[k := Idle];
  }

  lemma AloneClaim(s: State, k: nat)
    requires Fits(s) && k < |s.workers| && s.workers[k].Claiming?
    requires s.slots[Position(|s.slots|, s.workers[k].tag, s.workers[k].p)] == 0
    ensures var pc := s.workers[k];
            Run(s, Steps(k, 1)) == Met(s, k, pc.tag, pc.limit, Empty(Position(|s.slots|, pc.tag, pc.p)))
  {
    StepThen(s, k, 0);
  }

  lemma AloneCount(s: State, k: nat) returns (n: nat)
    requires Fits(s) && k < |s.workers| && s.workers[k].Counting? && TagOf(s.slots[s.workers[k].slot]) == s.workers[k].tag
    ensures var pc := s.workers[k];
            Run(s, Steps(k, n)) == Met(s, k, pc.tag, pc.limit, Mine(pc.slot))
  {
    var pc := s.workers[k];
    var w := s.slots[pc.slot];
    var s1 := StepOf(s, k);
    if CountOf(w) >= pc.limit || CountOf(w) >= COUNT_MASK {
      StepThen(s, k, 0);
      n := 1;
    } else {
      StepThen(s, k, 1);
      StepThen(s1, k, 0);
      GoForgets(s, k, CountingCas(pc.slot, pc.tag, pc.limit, w));
      n := 2;
    }
  }

  lemma MetForgets(s: State, k: nat, pc: Pc, tag: Tag, limit: nat, f: Found)
    requires Fits(s) && k < |s.workers| && PcFits(pc, |s.slots|) && (!f.Full? ==> f.slot < |s.slots|)
    ensures Met(Go(s, k, pc), k, tag, limit, f) == Met(s, k, tag, limit, f)
  {
    GoForgets(s, k, pc);
  }

  lemma {:induction false} AloneProbe(s: State, k: nat) returns (n: nat)
    requires Fits(s) && k < |s.workers| && s.workers[k].Probing?
    ensures var pc := s.workers[k];
            Run(s, Steps(k, n)) == Met(s, k, pc.tag, pc.limit, Scan(s.slots, pc.tag, pc.p, pc.spare))
    decreases PROBE - s.workers[k].p
  {
    var pc := s.workers[k];
    assert PcFits(pc, |s.slots|);
    var f := Scan(s.slots, pc.tag, pc.p, pc.spare);
    var s1 := StepOf(s, k);
    if pc.p == PROBE {
      StepThen(s, k, 0);
      n := 1;
    } else {
      MetForgets(s, k, s1.workers[k], pc.tag, pc.limit, f);
      var m := 1;
      if s1.workers[k].Claiming? {
        AloneClaim(s1, k);
      } else if s1.workers[k].Counting? {
        m := AloneCount(s1, k);
      } else {
        m := AloneProbe(s1, k);
      }
      StepThen(s, k, m);
      n := m + 1;
    }
  }

  lemma AloneTakes(s: State, k: nat)
    requires Fits(s) && k < |s.workers| && s.workers[k].Taking? && CountOf(s.slots[s.workers[k].slot]) == 0
    ensures var pc := s.workers[k];
            Run(s, Steps(k, 2)) == Grant(s, k, pc.slot, pc.tag, Pack(pc.tag, 1))
  {
    StepThen(s, k, 1);
    StepThen(StepOf(s, k), k, 0);
    GoForgets(s, k, StepOf(s, k).workers[k]);
  }

  /** An `acquire` that no other worker interrupts leaves the words and hands out the guard that the
      sequential `Acquired` says: the two models are one. */
  lemma AloneAcquires(s: State, k: nat, tag: Tag, limit: nat) returns (n: nat)
    requires Fits(s) && k < |s.workers| && s.workers[k].Idle?
    ensures var (slots, got) := Acquired(s.slots, tag, limit);
            Run(s, [Enter(k, tag, limit)] + Steps(k, n)) ==
            match got
            case None => s.(slots := slots)
            case Some(i) => s.(slots := slots, live := s.live[s.named := Guard(i, tag)], named := s.named + 1)
  {
    var s1 := Go(s, k, Probing(tag, Clamp(limit), 0, None));
    var f := Scan(s.slots, tag, 0, None);
    n := AloneProbe(s1, k);
    MetForgets(s, k, Probing(tag, Clamp(limit), 0, None), tag, Clamp(limit), f);
    if f.Spare? {
      SpareIsIdle(s.slots, tag, 0, None);
      AloneTakes(Met(s, k, tag, Clamp(limit), f), k);
      GoForgets(s, k, Taking(f.slot, tag));
      RunThen(s1, Steps(k, n), Steps(k, 2), Met(s, k, tag, Clamp(limit), f));
      assert Steps(k, n) + Steps(k, 2) == Steps(k, n + 2);
      n := n + 2;
    }
    EnterThen(s, k, tag, limit, Steps(k, n));
    IdleAgain(s, k, tag, limit);
  }

  lemma RunThen(s: State, a: seq<Event>, b: seq<Event>, t: State)
    requires Fits(s) && Run(s, a) == t
    ensures Fits(t) && Run(s, a + b) == Run(t, b)
  {
    RunAppend(s, a, b);
  }

  lemma EnterThen(s: State, k: nat, tag: Tag, limit: nat, es: seq<Event>)
    requires Fits(s) && k < |s.workers| && s.workers[k].Idle?
    ensures Run(s, [Enter(k, tag, limit)] + es) == Run(Go(s, k, Probing(tag, Clamp(limit), 0, None)), es)
  {
    assert ([Enter(k, tag, limit)] + es)[1..] == es;
  }

  /** The end of an uninterrupted call, read as the sequential `Acquired`. */
  lemma IdleAgain(s: State, k: nat, tag: Tag, limit: nat)
    requires Fits(s) && k < |s.workers| && s.workers[k].Idle?
    ensures var f := Scan(s.slots, tag, 0, None);
            (if f.Spare? then Grant(s, k, f.slot, tag, Pack(tag, 1)) else Met(s, k, tag, Clamp(limit), f)) ==
            var (slots, got) := Acquired(s.slots, tag, limit);
            match got
            case None => s.(slots := slots)
            case Some(i) => s.(slots := slots, live := s.live[s.named := Guard(i, tag)], named := s.named + 1)
  {
    assert s.workers[k := Idle] == s.workers;
  }

  lemma {:induction false} SpareIsIdle(slots: seq<Word>, tag: Tag, p: nat, spare: Option<nat>)
    requires |slots| > 0 && p <= PROBE
    requires spare.Some? ==> spare.value < |slots| && CountOf(slots[spare.value]) == 0
    ensures var f := Scan(slots, tag, p, spare); f.Spare? ==> CountOf(slots[f.slot]) == 0
    decreases PROBE - p
  {
    if p < PROBE && slots[Position(|slots|, tag, p)] != 0 && TagOf(slots[Position(|slots|, tag, p)]) != tag {
      var i := Position(|slots|, tag, p);
      SpareIsIdle(slots, tag, p + 1, if spare.None? && CountOf(slots[i]) == 0 then Some(i) else spare);
    }
  }
}
