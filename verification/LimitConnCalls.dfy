/** How each call of `limit_conn` ends, whatever the other workers do meanwhile: what a guard that is handed
    out counts, why a request is refused, and what giving a guard back leaves. */
module LimitConnCalls {
  import opened Wrappers
  import opened LimitConn
  import opened LimitConnSteps

  // ---- What a worker has met, in the states that a call has seen so far ----

  /** In `t` the worker, at its probe `q`, meets another tag there. */
  ghost predicate Meets(t: State, k: nat, tag: Tag, q: nat) {
    && Fits(t) && k < |t.workers| && (t.workers[k].Probing? || t.workers[k].Claiming?) && t.workers[k].p == q
    && Others(t.slots, Position(|t.slots|, tag, q), tag)
  }

  ghost predicate Others(slots: seq<Word>, i: nat, tag: Tag) { i < |slots| && slots[i] != 0 && TagOf(slots[i]) != tag }

  /** And that slot counts something, or the worker has just lost it in trying to claim it. */
  ghost predicate MeetsBusy(t: State, k: nat, tag: Tag, q: nat) {
    Meets(t, k, tag, q) && (CountOf(t.slots[Position(|t.slots|, tag, q)]) > 0 || t.workers[k].Claiming?)
  }

  ghost predicate Met(past: seq<State>, k: nat, tag: Tag, q: nat) { exists t :: t in past && Meets(t, k, tag, q) }

  ghost predicate MetBusy(past: seq<State>, k: nat, tag: Tag, q: nat) { exists t :: t in past && MeetsBusy(t, k, tag, q) }

  ghost predicate Walked(past: seq<State>, k: nat, tag: Tag, p: nat) { forall q: nat | q < p :: Met(past, k, tag, q) }

  ghost predicate WalkedBusy(past: seq<State>, k: nat, tag: Tag, p: nat) { forall q: nat | q < p :: MetBusy(past, k, tag, q) }

  /** In `t` slot `i` has the word `w`, which counts nothing. */
  ghost predicate Spares(t: State, i: nat, w: Word) { i < |t.slots| && t.slots[i] == w && CountOf(w) == 0 }

  ghost predicate Spare(past: seq<State>, i: nat, w: Word) { exists t :: t in past && Spares(t, i, w) }

  ghost predicate IsOurs(t: State, tag: Tag, i: nat) { i < |t.slots| && TagOf(t.slots[i]) == tag }

  ghost predicate Ours(past: seq<State>, tag: Tag, i: nat) { exists t :: t in past && IsOurs(t, tag, i) }

  ghost predicate InWindow(n: nat, tag: Tag, i: nat) { n > 0 && exists q: nat :: q < PROBE && i == Position(n, tag, q) }

  lemma StaysMet(past: seq<State>, t: State, k: nat, tag: Tag, p: nat)
    ensures Walked(past, k, tag, p) ==> Walked(past + [t], k, tag, p)
    ensures WalkedBusy(past, k, tag, p) ==> WalkedBusy(past + [t], k, tag, p)
  {
    if Walked(past, k, tag, p) {
      forall q: nat | q < p ensures Met(past + [t], k, tag, q) {
        assert Met(past, k, tag, q);
        var u :| u in past && Meets(u, k, tag, q);
        assert u in past + [t];
      }
    }
    if WalkedBusy(past, k, tag, p) {
      forall q: nat | q < p ensures MetBusy(past + [t], k, tag, q) {
        assert MetBusy(past, k, tag, q);
        var u :| u in past && MeetsBusy(u, k, tag, q);
        assert u in past + [t];
      }
    }
  }

  lemma StaysSeen(past: seq<State>, t: State, tag: Tag, i: nat, w: Word)
    ensures Spare(past, i, w) ==> Spare(past + [t], i, w)
    ensures Ours(past, tag, i) ==> Ours(past + [t], tag, i)
  {
    if Spare(past, i, w) {
      var u :| u in past && Spares(u, i, w);
      assert u in past + [t];
    }
    if Ours(past, tag, i) {
      var u :| u in past && IsOurs(u, tag, i);
      assert u in past + [t];
    }
  }

  // ---- Where a worker stands in its call ----

  ghost predicate Searched(past: seq<State>, n: nat, k: nat, tag: Tag, p: nat, spare: Option<nat>) {
    && p <= PROBE && Walked(past, k, tag, p)
    && match spare
       case None => WalkedBusy(past, k, tag, p)
       case Some(i) => InWindow(n, tag, i) && exists w :: Spare(past, i, w)
  }

  /** What the place of worker `k` in state `t` says of the states before, since it was called. */
  ghost predicate Stands(past: seq<State>, t: State, k: nat, tag: Tag, limit: nat) {
    && Fits(t) && k < |t.workers|
    && match t.workers[k]
       case Probing(g, l, p, spare) => g == tag && l == limit && Searched(past, |t.slots|, k, tag, p, spare)
       case Claiming(g, l, p, spare) => g == tag && l == limit && p < PROBE && Searched(past, |t.slots|, k, tag, p, spare)
       case Counting(i, g, l) => g == tag && l == limit && Counts(past, t.slots, tag, i)
       case CountingCas(i, g, l, seen) =>
         g == tag && l == limit && Counts(past, t.slots, tag, i) && CountOf(seen) < limit && CountOf(seen) < COUNT_MASK && TagOf(seen) == tag
       case Taking(i, g) => g == tag && Walked(past, k, tag, PROBE) && InWindow(|t.slots|, tag, i) && exists w :: Spare(past, i, w)
       case TakingCas(i, g, seen) => g == tag && Walked(past, k, tag, PROBE) && InWindow(|t.slots|, tag, i) && Spare(past, i, seen)
       case _ => false
  }

  ghost predicate Counts(past: seq<State>, slots: seq<Word>, tag: Tag, i: nat) {
    InWindow(|slots|, tag, i) && i < |slots| && slots[i] != 0 && Ours(past, tag, i)
  }

  // ---- How it ends ----

  /** In state `t`, the last that the call saw, acquire has reason to refuse: a slot of the window that it found
      to be the tag's counts as many as the limit or as a slot can, or has become another tag's; or at every
      place of the window it met another tag, that counted something or beat it to the slot; or at every place
      it met another tag, and the slot among them that counted nothing has changed since. */
  ghost predicate MayRefuse(past: seq<State>, t: State, k: nat, tag: Tag, limit: nat) {
    || (exists i: nat :: Exhausted(past, t.slots, tag, i, limit))
    || (exists i: nat :: Counts(past, t.slots, tag, i) && Others(t.slots, i, tag))
    || WalkedBusy(past + [t], k, tag, PROBE)
    || (Walked(past, k, tag, PROBE) && exists i: nat, w :: Outrun(past, t.slots, tag, i, w))
  }

  ghost predicate Exhausted(past: seq<State>, slots: seq<Word>, tag: Tag, i: nat, limit: nat) {
    Counts(past, slots, tag, i) && TagOf(slots[i]) == tag && (CountOf(slots[i]) >= limit || CountOf(slots[i]) >= COUNT_MASK)
  }

  ghost predicate Outrun(past: seq<State>, slots: seq<Word>, tag: Tag, i: nat, w: Word) {
    InWindow(|slots|, tag, i) && i < |slots| && Spare(past, i, w) && slots[i] != w
  }

  /** The last step hands out a guard for one slot of the window, which counts one more of the tag than it did,
      or becomes the tag's and had counted nothing. */
  ghost predicate Hands(t: State, t': State, tag: Tag, limit: nat, i: nat) {
    && InWindow(|t.slots|, tag, i) && i < |t.slots|
    && t'.slots == t.slots[i := Pack(tag, CountOf(t.slots[i]) + 1)]
    && t'.live == t.live[t.named := Guard(i, tag)] && t'.named == t.named + 1
    && if TagOf(t.slots[i]) == tag && t.slots[i] != 0 then CountOf(t.slots[i]) < COUNT_MASK && (CountOf(t.slots[i]) < limit || CountOf(t.slots[i]) == 0)
       else CountOf(t.slots[i]) == 0
  }

  /** All that is shared, of two states that differ in what workers are about only. */
  ghost predicate SameShared(t: State, t': State) { t'.slots == t.slots && t'.live == t.live && t'.named == t.named }

  ghost predicate Ends(past: seq<State>, t: State, t': State, k: nat, tag: Tag, limit: nat) {
    (exists i: nat :: Hands(t, t', tag, limit, i)) || (SameShared(t, t') && MayRefuse(past, t, k, tag, limit))
  }

  /** One step of the worker: its call goes on and nothing shared has changed, or it ends. */
  ghost predicate Acts(past: seq<State>, t: State, t': State, k: nat, tag: Tag, limit: nat) {
    && k < |t'.workers|
    && if t'.workers[k].Idle? then Ends(past, t, t', k, tag, limit)
       else SameShared(t, t') && Stands(past + [t], t', k, tag, limit)
  }

  lemma MoreWalked(past: seq<State>, t: State, k: nat, tag: Tag, p: nat)
    requires Meets(t, k, tag, p) && Walked(past, k, tag, p)
    ensures Walked(past + [t], k, tag, p + 1)
    ensures WalkedBusy(past, k, tag, p) && MeetsBusy(t, k, tag, p) ==> WalkedBusy(past + [t], k, tag, p + 1)
  {
    StaysMet(past, t, k, tag, p);
    assert t in past + [t];
    forall q: nat | q < p + 1 ensures Met(past + [t], k, tag, q) {
      if q == p { assert Meets(t, k, tag, q); }
    }
    if WalkedBusy(past, k, tag, p) && MeetsBusy(t, k, tag, p) {
      forall q: nat | q < p + 1 ensures MetBusy(past + [t], k, tag, q) {
        if q == p { assert MeetsBusy(t, k, tag, q); }
      }
    }
  }

  lemma SearchedStays(past: seq<State>, t: State, n: nat, k: nat, tag: Tag, p: nat, spare: Option<nat>)
    requires Searched(past, n, k, tag, p, spare)
    ensures Searched(past + [t], n, k, tag, p, spare)
  {
    StaysMet(past, t, k, tag, p);
    if spare.Some? {
      var w :| Spare(past, spare.value, w);
      StaysSeen(past, t, tag, spare.value, w);
    }
  }

  /** Past a place that another tag has. */
  lemma SearchedOn(past: seq<State>, t: State, k: nat, tag: Tag, p: nat, spare: Option<nat>, spare': Option<nat>)
    requires Meets(t, k, tag, p) && p < PROBE && Searched(past, |t.slots|, k, tag, p, spare)
    requires var i := Position(|t.slots|, tag, p);
             (spare' == spare && (spare.None? ==> MeetsBusy(t, k, tag, p))) || (spare' == Some(i) && CountOf(t.slots[i]) == 0)
    ensures Searched(past + [t], |t.slots|, k, tag, p + 1, spare')
  {
    MoreWalked(past, t, k, tag, p);
    if spare' == spare {
      SearchedStays(past, t, |t.slots|, k, tag, p, spare);
    } else {
      var i := Position(|t.slots|, tag, p);
      assert t in past + [t] && Spares(t, i, t.slots[i]);
      assert Spare(past + [t], i, t.slots[i]);
    }
  }

  lemma FoundOurs(past: seq<State>, t: State, tag: Tag, p: nat)
    requires |t.slots| > 0 && p < PROBE && t.slots[Position(|t.slots|, tag, p)] != 0 && TagOf(t.slots[Position(|t.slots|, tag, p)]) == tag
    ensures Counts(past + [t], t.slots, tag, Position(|t.slots|, tag, p))
  {
    var i := Position(|t.slots|, tag, p);
    assert t in past + [t] && IsOurs(t, tag, i);
  }

  lemma ProbingActs(past: seq<State>, t: State, k: nat, tag: Tag, limit: nat)
    requires Stands(past, t, k, tag, limit) && t.workers[k].Probing?
    ensures Acts(past, t, StepOf(t, k), k, tag, limit)
  {
    var (pc, n) := (t.workers[k], |t.slots|);
    if pc.p == PROBE {
      SearchedStays(past, t, n, k, tag, PROBE, pc.spare);
    } else {
      var i := Position(n, tag, pc.p);
      if t.slots[i] == 0 {
        SearchedStays(past, t, n, k, tag, pc.p, pc.spare);
      } else if TagOf(t.slots[i]) == tag {
        FoundOurs(past, t, tag, pc.p);
      } else {
        SearchedOn(past, t, k, tag, pc.p, pc.spare, if pc.spare.None? && CountOf(t.slots[i]) == 0 then Some(i) else pc.spare);
      }
    }
  }

  lemma ClaimingActs(past: seq<State>, t: State, k: nat, tag: Tag, limit: nat)
    requires Stands(past, t, k, tag, limit) && t.workers[k].Claiming?
    ensures Acts(past, t, StepOf(t, k), k, tag, limit)
  {
    var pc := t.workers[k];
    var i := Position(|t.slots|, tag, pc.p);
    if t.slots[i] == 0 {
      assert InWindow(|t.slots|, tag, i) && CountOf(t.slots[i]) == 0;
      assert Hands(t, StepOf(t, k), tag, limit, i);
    } else if TagOf(t.slots[i]) == tag {
      FoundOurs(past, t, tag, pc.p);
    } else {
      SearchedOn(past, t, k, tag, pc.p, pc.spare, pc.spare);
    }
  }

  lemma CountingActs(past: seq<State>, t: State, k: nat, tag: Tag, limit: nat)
    requires Stands(past, t, k, tag, limit) && t.workers[k].Counting?
    ensures Acts(past, t, StepOf(t, k), k, tag, limit)
  {
    var pc := t.workers[k];
    var w := t.slots[pc.slot];
    if TagOf(w) != tag {
      assert Counts(past, t.slots, tag, pc.slot) && Others(t.slots, pc.slot, tag);
    } else if CountOf(w) >= limit || CountOf(w) >= COUNT_MASK {
      assert Exhausted(past, t.slots, tag, pc.slot, limit);
    } else {
      StaysSeen(past, t, tag, pc.slot, w);
    }
  }

  lemma SwappingActs(past: seq<State>, t: State, k: nat, tag: Tag, limit: nat)
    requires Stands(past, t, k, tag, limit) && t.workers[k].CountingCas?
    ensures Acts(past, t, StepOf(t, k), k, tag, limit)
  {
    var pc := t.workers[k];
    if t.slots[pc.slot] == pc.seen {
      assert Hands(t, StepOf(t, k), tag, limit, pc.slot);
    } else {
      StaysSeen(past, t, tag, pc.slot, t.slots[pc.slot]);
    }
  }

  lemma TakingActs(past: seq<State>, t: State, k: nat, tag: Tag, limit: nat)
    requires Stands(past, t, k, tag, limit) && (t.workers[k].Taking? || t.workers[k].TakingCas?)
    ensures Acts(past, t, StepOf(t, k), k, tag, limit)
  {
    var pc := t.workers[k];
    StaysMet(past, t, k, tag, PROBE);
    if pc.Taking? {
      var w :| Spare(past, pc.slot, w);
      if CountOf(t.slots[pc.slot]) == 0 {
        assert t in past + [t] && Spares(t, pc.slot, t.slots[pc.slot]);
      } else {
        assert Outrun(past, t.slots, tag, pc.slot, w);
      }
    } else if t.slots[pc.slot] == pc.seen {
      assert Hands(t, StepOf(t, k), tag, limit, pc.slot);
    } else {
      assert Outrun(past, t.slots, tag, pc.slot, pc.seen);
    }
  }

  lemma WorkerActs(past: seq<State>, t: State, k: nat, tag: Tag, limit: nat)
    requires Stands(past, t, k, tag, limit)
    ensures Acts(past, t, StepOf(t, k), k, tag, limit)
  {
    match t.workers[k]
    case Probing(_, _, _, _) => ProbingActs(past, t, k, tag, limit);
    case Claiming(_, _, _, _) => ClaimingActs(past, t, k, tag, limit);
    case Counting(_, _, _) => CountingActs(past, t, k, tag, limit);
    case CountingCas(_, _, _, _) => SwappingActs(past, t, k, tag, limit);
    case Taking(_, _) => TakingActs(past, t, k, tag, limit);
    case TakingCas(_, _, _) => TakingActs(past, t, k, tag, limit);
    case _ =>
  }

  // ---- Whole calls, while other workers act in between ----

  /** `ts` are the states before and after each event. */
  ghost predicate Follow(ts: seq<State>, es: seq<Event>) {
    |ts| == |es| + 1 && forall i | 0 <= i < |es| :: Goes(ts[i], es[i], ts[i + 1])
  }

  ghost predicate Goes(s: State, e: Event, s': State) { Fits(s) && s' == Next(s, e) }

  lemma {:induction false} FollowRuns(ts: seq<State>, es: seq<Event>)
    requires Follow(ts, es) && Fits(ts[0])
    ensures Run(ts[0], es) == ts[|es|]
    decreases |es|
  {
    if es != [] {
      forall i | 0 <= i < |es[1..]| ensures Goes(ts[1..][i], es[1..][i], ts[1..][i + 1]) {
        assert Goes(ts[i + 1], es[i + 1], ts[i + 2]);
      }
      assert Goes(ts[0], es[0], ts[1]);
      FollowRuns(ts[1..], es[1..]);
    }
  }

  /** Worker `k` calls acquire with the first event and is busy with it up to the last. */
  ghost predicate Call(ts: seq<State>, es: seq<Event>, k: nat, tag: Tag, limit: nat) {
    && Follow(ts, es) && es != [] && es[0] == Enter(k, tag, limit) && (forall t | t in ts :: k < |t.workers|)
    && ts[0].workers[k].Idle? && forall i | 1 <= i < |es| :: !ts[i].workers[k].Idle?
  }

  /** A slot once claimed is never empty again. */
  lemma StaysClaimed(s: State, e: Event, i: nat)
    requires Fits(s) && i < |s.slots| && s.slots[i] != 0
    ensures |Next(s, e).slots| == |s.slots| && Next(s, e).slots[i] != 0
  {}

  lemma OnlyItself(s: State, j: nat, k: nat)
    requires Fits(s) && j < |s.workers| && !s.workers[j].Idle? && k < |s.workers| && j != k
    ensures k < |StepOf(s, j).workers| && StepOf(s, j).workers[k] == s.workers[k]
  {}

  lemma SameSize(s: State, j: nat)
    requires Fits(s) && j < |s.workers| && !s.workers[j].Idle?
    ensures |StepOf(s, j).slots| == |s.slots|
  {}

  lemma OthersStep(s: State, e: Event, k: nat)
    requires Fits(s) && k < |s.workers| && e.k != k
    ensures k < |Next(s, e).workers| && Next(s, e).workers[k] == s.workers[k] && |Next(s, e).slots| == |s.slots|
  {
    if Enabled(s, e) && e.Step? {
      OnlyItself(s, e.k, k);
      SameSize(s, e.k);
    }
  }

  /** Whatever another worker does, this one stands where it stood. */
  lemma OthersKeepStanding(past: seq<State>, t: State, e: Event, k: nat, tag: Tag, limit: nat)
    requires Stands(past, t, k, tag, limit) && e.k != k
    ensures Stands(past + [t], Next(t, e), k, tag, limit)
  {
    OthersStep(t, e, k);
    StaysMet(past, t, k, tag, PROBE);
    var (n, t') := (|t.slots|, Next(t, e));
    match t.workers[k]
    case Probing(_, _, p, spare) => SearchedStays(past, t, n, k, tag, p, spare);
    case Claiming(_, _, p, spare) => SearchedStays(past, t, n, k, tag, p, spare);
    case Counting(i, _, _) =>
      StaysClaimed(t, e, i);
      StaysSeen(past, t, tag, i, 0);
    case CountingCas(i, _, _, _) =>
      StaysClaimed(t, e, i);
      StaysSeen(past, t, tag, i, 0);
    case Taking(i, _) =>
      var w :| Spare(past, i, w);
      StaysSeen(past, t, tag, i, w);
    case TakingCas(i, _, seen) => StaysSeen(past, t, tag, i, seen);
  }

  lemma {:induction false} CallStands(ts: seq<State>, es: seq<Event>, k: nat, tag: Tag, limit: nat, i: nat)
    requires Call(ts, es, k, tag, limit) && 1 <= i <= |es| && !ts[i].workers[k].Idle?
    ensures Stands(ts[..i], ts[i], k, tag, Clamp(limit))
  {
    assert Goes(ts[i - 1], es[i - 1], ts[i]);
    if i > 1 {
      CallStands(ts, es, k, tag, limit, i - 1);
      var (past, t) := (ts[..i - 1], ts[i - 1]);
      assert ts[..i] == past + [t];
      if es[i - 1].k != k {
        OthersKeepStanding(past, t, es[i - 1], k, tag, Clamp(limit));
      } else if es[i - 1].Step? {
        WorkerActs(past, t, k, tag, Clamp(limit));
      } else {
        Unmoved(past, t, k, tag, Clamp(limit));
      }
    }
  }

  /** An event that is not possible changes nothing. */
  lemma Unmoved(past: seq<State>, t: State, k: nat, tag: Tag, limit: nat)
    requires Stands(past, t, k, tag, limit)
    ensures Stands(past + [t], t, k, tag, limit)
  {
    StaysMet(past, t, k, tag, PROBE);
    match t.workers[k]
    case Probing(_, _, p, spare) => SearchedStays(past, t, |t.slots|, k, tag, p, spare);
    case Claiming(_, _, p, spare) => SearchedStays(past, t, |t.slots|, k, tag, p, spare);
    case Counting(i, _, _) => StaysSeen(past, t, tag, i, 0);
    case CountingCas(i, _, _, _) => StaysSeen(past, t, tag, i, 0);
    case Taking(i, _) =>
      var w :| Spare(past, i, w);
      StaysSeen(past, t, tag, i, w);
    case TakingCas(i, _, seen) => StaysSeen(past, t, tag, i, seen);
  }

  /** However other workers interleave with it, a call of acquire that returns either hands out one guard, in
      a slot of the tag's window that counted less than the limit of the tag, or nothing, and counts one more; or
      it changes nothing, and it had reason to refuse in the last state it saw. */
  lemma AcquireAnswers(ts: seq<State>, es: seq<Event>, k: nat, tag: Tag, limit: nat)
    requires Call(ts, es, k, tag, limit) && ts[|es|].workers[k].Idle?
    ensures |es| >= 2 && Ends(ts[..|es| - 1], ts[|es| - 1], ts[|es|], k, tag, Clamp(limit))
  {
    var n := |es|;
    assert Goes(ts[n - 1], es[n - 1], ts[n]);
    if n > 1 {
      CallStands(ts, es, k, tag, limit, n - 1);
      if es[n - 1].k != k {
        OthersStep(ts[n - 1], es[n - 1], k);
      } else if es[n - 1].Step? {
        WorkerActs(ts[..n - 1], ts[n - 1], k, tag, Clamp(limit));
      }
    }
  }

  /** And before that none of its own steps changes anything that others can see. */
  lemma AcquireIsQuiet(ts: seq<State>, es: seq<Event>, k: nat, tag: Tag, limit: nat, i: nat)
    requires Call(ts, es, k, tag, limit) && i < |es| && es[i].k == k && !ts[i + 1].workers[k].Idle?
    ensures SameShared(ts[i], ts[i + 1])
  {
    assert Goes(ts[i], es[i], ts[i + 1]);
    if i > 0 {
      CallStands(ts, es, k, tag, limit, i);
      if es[i].Step? { WorkerActs(ts[..i], ts[i], k, tag, Clamp(limit)); }
    }
  }

  // ---- Giving a guard back ----

  /** A worker that gives a guard back changes nothing until it is done; then the guard is gone and its slot
      counts one fewer of its tag, and of the other slots and guards none has changed. */
  lemma ReleaseEnds(s: State, k: nat, cap: Tag -> nat)
    requires Inv(s, cap) && k < |s.workers| && (s.workers[k].Dropping? || s.workers[k].DroppingCas?)
    ensures var (pc, s') := (s.workers[k], Next(s, Step(k)));
            if s'.workers[k].Idle? then
              && pc.id in s.live && s'.live == s.live - {pc.id} && s'.named == s.named
              && CountOf(s.slots[pc.guard.slot]) > 0
              && s'.slots == s.slots[pc.guard.slot := Pack(pc.guard.tag, CountOf(s.slots[pc.guard.slot]) - 1)]
            else SameShared(s, s') && Busy(s'.workers[k], pc.id)
  {
    if s.workers[k].Dropping? { NoEarlyReturn(s, k, cap); }
    assert PcOk(s, s.workers[k], cap);
  }
}
