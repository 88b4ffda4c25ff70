/** The limit of one key in `limit_conn`, under interleaving. Two workers that race to take over a slot can each
    put the same tag in a slot of its own (module LimitConnRace). Without such a race the limit holds. */
module LimitConnKey {
  import opened Wrappers
  import opened LimitConn
  import opened LimitConnSteps

  /** The worker is inside `acquire` for this tag. */
  predicate Inside(pc: Pc, t: Tag) {
    match pc
    case Probing(tag, _, _, _) => tag == t
    case Claiming(tag, _, _, _) => tag == t
    case Counting(_, tag, _) => tag == t
    case CountingCas(_, tag, _, _) => tag == t
    case Taking(_, tag) => tag == t
    case TakingCas(_, tag, _) => tag == t
    case _ => false
  }

  /** It found no slot for the tag, and is about to take one over. */
  predicate TakesOver(pc: Pc, t: Tag) { (pc.Taking? || pc.TakingCas?) && pc.tag == t }

  /** No worker takes over a slot for this tag while another one is acquiring it. */
  ghost predicate NoRace(s: State, t: Tag) {
    forall j, k | 0 <= j < |s.workers| && 0 <= k < |s.workers| && j != k :: !(TakesOver(s.workers[j], t) && Inside(s.workers[k], t))
  }

  ghost predicate NeverRaces(s: State, es: seq<Event>, t: Tag)
    requires Fits(s)
    decreases |es|
  {
    NoRace(s, t) && (es != [] ==> NeverRaces(Next(s, es[0]), es[1..], t))
  }

  /** At most one worker is inside `acquire` for this tag. */
  ghost predicate Alone(s: State, t: Tag) {
    forall j, k | 0 <= j < |s.workers| && 0 <= k < |s.workers| && Inside(s.workers[j], t) && Inside(s.workers[k], t) :: j == k
  }

  ghost predicate AlwaysAlone(s: State, es: seq<Event>, t: Tag)
    requires Fits(s)
    decreases |es|
  {
    Alone(s, t) && (es != [] ==> AlwaysAlone(Next(s, es[0]), es[1..], t))
  }

  // ---- What is known of the tag's slots ----

  ghost predicate OtherAt(slots: seq<Word>, t: Tag, q: nat)
    requires |slots| > 0
  {
    slots[Position(|slots|, t, q)] != 0 && TagOf(slots[Position(|slots|, t, q)]) != t
  }

  /** The first `p` slots of the tag's window are other tags'. */
  ghost predicate Passed(slots: seq<Word>, t: Tag, p: nat)
    requires |slots| > 0
  {
    forall q: nat | q < p :: OtherAt(slots, t, q)
  }

  ghost predicate Among(n: nat, t: Tag, p: nat, i: nat)
    requires n > 0
  {
    exists q: nat :: q < p && i == Position(n, t, q)
  }

  /** At most one slot holds the tag, and the probe reaches it. */
  ghost predicate OneSlot(slots: seq<Word>, t: Tag)
    requires |slots| > 0
  {
    && (forall i: nat, j: nat | Holds(slots, i, t) && Holds(slots, j, t) :: i == j)
    && (forall i: nat | Holds(slots, i, t) :: exists p: nat :: Placed(slots, i, t, p))
  }

  /** What a worker that acquires the tag has found out is still so. */
  ghost predicate Knows(slots: seq<Word>, pc: Pc, t: Tag)
    requires |slots| > 0
  {
    Inside(pc, t) ==>
      match pc
      case Probing(_, _, p, spare) => p <= PROBE && Passed(slots, t, p) && (spare.Some? ==> Among(|slots|, t, p, spare.value))
      case Claiming(_, _, p, spare) => p < PROBE && Passed(slots, t, p) && (spare.Some? ==> Among(|slots|, t, p, spare.value))
      case Counting(i, _, _) => i < |slots| && slots[i] != 0
      case CountingCas(i, _, _, seen) => i < |slots| && slots[i] != 0 && seen != 0
      case Taking(i, _) => Passed(slots, t, PROBE) && Among(|slots|, t, PROBE, i)
      case TakingCas(i, _, _) => Passed(slots, t, PROBE) && Among(|slots|, t, PROBE, i)
      case _ => true
  }

  ghost predicate KeyInv(s: State, t: Tag) {
    && |s.slots| > 0 && OneSlot(s.slots, t)
    && forall k | 0 <= k < |s.workers| :: Knows(s.slots, s.workers[k], t)
  }

  /** Past other tags' slots up to `p`, the tag is held nowhere if slot `p` is empty or the window ends. */
  lemma HeldNowhere(slots: seq<Word>, t: Tag, p: nat)
    requires |slots| > 0 && OneSlot(slots, t) && Passed(slots, t, p)
    requires p == PROBE || slots[Position(|slots|, t, p)] == 0
    ensures Absent(slots, t)
  {
    forall i: nat ensures !Holds(slots, i, t) {
      if q: nat :| Placed(slots, i, t, q) { PlacedBeyond(slots, t, p, i, q); }
    }
  }

  lemma PlacedBeyond(slots: seq<Word>, t: Tag, p: nat, i: nat, q: nat)
    requires |slots| > 0 && Passed(slots, t, p) && Placed(slots, i, t, q)
    requires p == PROBE || slots[Position(|slots|, t, p)] == 0
    ensures !Holds(slots, i, t)
  {
    if q < p { assert OtherAt(slots, t, q); }
  }

  // ---- Steps that write no new slot for the tag ----

  /** No slot is emptied, and none is given to the tag. */
  ghost predicate Harmless(slots: seq<Word>, slots': seq<Word>, t: Tag) {
    && |slots'| == |slots|
    && forall i: nat | i < |slots| && slots[i] != 0 :: slots'[i] != 0
  }

  ghost predicate NotGiven(slots: seq<Word>, slots': seq<Word>, t: Tag) {
    forall i: nat | Holds(slots', i, t) :: Holds(slots, i, t)
  }

  lemma PlacedStays(slots: seq<Word>, slots': seq<Word>, t: Tag, i: nat, p: nat)
    requires |slots| > 0 && Harmless(slots, slots', t) && Placed(slots, i, t, p)
    ensures Placed(slots', i, t, p)
  {}

  lemma OneSlotStays(slots: seq<Word>, slots': seq<Word>, t: Tag)
    requires |slots| > 0 && Harmless(slots, slots', t) && NotGiven(slots, slots', t) && OneSlot(slots, t)
    ensures OneSlot(slots', t)
  {
    forall i: nat | Holds(slots', i, t) ensures exists p: nat :: Placed(slots', i, t, p) {
      var p: nat :| Placed(slots, i, t, p);
      PlacedStays(slots, slots', t, i, p);
    }
  }

  lemma PassedStays(slots: seq<Word>, slots': seq<Word>, t: Tag, p: nat)
    requires |slots| > 0 && Harmless(slots, slots', t) && NotGiven(slots, slots', t) && Passed(slots, t, p)
    ensures Passed(slots', t, p)
  {
    forall q: nat | q < p ensures OtherAt(slots', t, q) {
      assert OtherAt(slots, t, q);
      var i := Position(|slots|, t, q);
      assert Holds(slots', i, t) ==> Holds(slots, i, t);
    }
  }

  lemma KnowsStays(slots: seq<Word>, slots': seq<Word>, pc: Pc, t: Tag)
    requires |slots| > 0 && Harmless(slots, slots', t) && NotGiven(slots, slots', t) && Knows(slots, pc, t)
    ensures Knows(slots', pc, t)
  {
    if Inside(pc, t) {
      match pc
      case Probing(_, _, p, _) => PassedStays(slots, slots', t, p);
      case Claiming(_, _, p, _) => PassedStays(slots, slots', t, p);
      case Taking(_, _) => PassedStays(slots, slots', t, PROBE);
      case TakingCas(_, _, _) => PassedStays(slots, slots', t, PROBE);
      case _ =>
    }
  }

  /** Whatever one worker does that gives no slot to the tag, it only has to know its own next place. */
  lemma HarmlessKeeps(s: State, k: nat, pc: Pc, s': State, t: Tag)
    requires KeyInv(s, t) && k < |s.workers| && s'.workers == s.workers[k := pc] && |s'.slots| == |s.slots|
    requires Harmless(s.slots, s'.slots, t) && NotGiven(s.slots, s'.slots, t) && Knows(s'.slots, pc, t)
    ensures KeyInv(s', t)
  {
    OneSlotStays(s.slots, s'.slots, t);
    forall j | 0 <= j < |s'.workers| ensures Knows(s'.slots, s'.workers[j], t) {
      if j != k { KnowsStays(s.slots, s'.slots, s.workers[j], t); }
    }
  }

  // ---- The steps that give a slot to the tag ----

  lemma GivenOneSlot(slots: seq<Word>, i: nat, t: Tag, w: Word, p: nat)
    requires |slots| > 0 && Absent(slots, t) && Placed(slots, i, t, p) && w != 0 && TagOf(w) == t
    ensures OneSlot(slots[i := w], t)
  {
    var slots' := slots[i := w];
    forall j: nat | Holds(slots', j, t) ensures j == i { assert j != i ==> Holds(slots, j, t); }
    assert Placed(slots', i, t, p);
  }

  /** A claimed slot was empty, so no one had passed it. */
  lemma ClaimKnows(slots: seq<Word>, i: nat, t: Tag, w: Word, pc: Pc)
    requires |slots| > 0 && i < |slots| && slots[i] == 0 && w != 0 && Knows(slots, pc, t)
    ensures Knows(slots[i := w], pc, t)
  {
    var slots' := slots[i := w];
    forall q: nat | OtherAt(slots, t, q) ensures OtherAt(slots', t, q) {}
  }

  lemma ClaimKeeps(s: State, k: nat, t: Tag)
    requires Fits(s) && KeyInv(s, t) && k < |s.workers| && s.workers[k].Claiming? && s.workers[k].tag == t
    requires s.slots[Position(|s.slots|, t, s.workers[k].p)] == 0
    ensures KeyInv(StepOf(s, k), t)
  {
    var p := s.workers[k].p;
    var i := Position(|s.slots|, t, p);
    assert Knows(s.slots, s.workers[k], t);
    HeldNowhere(s.slots, t, p);
    forall q: nat | q < p ensures s.slots[Position(|s.slots|, t, q)] != 0 { assert OtherAt(s.slots, t, q); }
    assert Placed(s.slots, i, t, p);
    GivenOneSlot(s.slots, i, t, Pack(t, 1), p);
    var s' := StepOf(s, k);
    forall j | 0 <= j < |s'.workers| ensures Knows(s'.slots, s'.workers[j], t) {
      if j != k { ClaimKnows(s.slots, i, t, Pack(t, 1), s.workers[j]); }
    }
  }

  /** A takeover needs that no one else is acquiring the tag. */
  lemma TakeKeeps(s: State, k: nat, t: Tag)
    requires Fits(s) && KeyInv(s, t) && NoRace(s, t) && k < |s.workers| && s.workers[k].TakingCas? && s.workers[k].tag == t
    requires s.slots[s.workers[k].slot] == s.workers[k].seen
    ensures KeyInv(StepOf(s, k), t)
  {
    var i := s.workers[k].slot;
    assert Knows(s.slots, s.workers[k], t);
    HeldNowhere(s.slots, t, PROBE);
    var q: nat :| q < PROBE && i == Position(|s.slots|, t, q);
    forall r: nat | r < q ensures s.slots[Position(|s.slots|, t, r)] != 0 { assert OtherAt(s.slots, t, r); }
    assert Placed(s.slots, i, t, q);
    GivenOneSlot(s.slots, i, t, Pack(t, 1), q);
    var s' := StepOf(s, k);
    forall j | 0 <= j < |s'.workers| ensures Knows(s'.slots, s'.workers[j], t) {
      if j != k { assert !(TakesOver(s.workers[k], t) && Inside(s.workers[j], t)); }
    }
  }

  // ---- Every other step ----

  /** One slot is rewritten with a word that is not empty, and is the tag's only where it was. */
  lemma OneWritten(slots: seq<Word>, i: nat, w: Word, t: Tag)
    requires i < |slots| && w != 0 && (TagOf(w) == t ==> slots[i] != 0 && TagOf(slots[i]) == t)
    ensures Harmless(slots, slots[i := w], t) && NotGiven(slots, slots[i := w], t)
  {
    var slots' := slots[i := w];
    forall j: nat | Holds(slots', j, t) ensures Holds(slots, j, t) {}
  }

  lemma NothingWritten(slots: seq<Word>, t: Tag)
    ensures Harmless(slots, slots, t) && NotGiven(slots, slots, t)
  {}

  /** A probe past another tag's slot. */
  lemma ProbedKnows(slots: seq<Word>, t: Tag, limit: nat, p: nat, spare: Option<nat>, spare': Option<nat>)
    requires |slots| > 0 && p < PROBE && Passed(slots, t, p) && OtherAt(slots, t, p)
    requires spare.Some? ==> Among(|slots|, t, p, spare.value)
    requires spare' == spare || spare' == Some(Position(|slots|, t, p))
    ensures Knows(slots, Probing(t, limit, p + 1, spare'), t)
  {
    if spare' == spare && spare.Some? {
      var q: nat :| q < p && spare.value == Position(|slots|, t, q);
      assert q < p + 1;
    }
    assert spare' == Some(Position(|slots|, t, p)) ==> Among(|slots|, t, p + 1, spare'.value);
  }

  /** Workers that only move: what they find out holds. */
  lemma MoveKeepsKey(s: State, k: nat, t: Tag, pc: Pc)
    requires Fits(s) && KeyInv(s, t) && k < |s.workers| && PcFits(pc, |s.slots|) && Knows(s.slots, pc, t)
    ensures KeyInv(Go(s, k, pc), t)
  {
    NothingWritten(s.slots, t);
    HarmlessKeeps(s, k, pc, Go(s, k, pc), t);
  }

  lemma WriteKeepsKey(s: State, k: nat, t: Tag, i: nat, w: Word, s': State)
    requires Fits(s) && KeyInv(s, t) && k < |s.workers| && i < |s.slots| && s'.slots == s.slots[i := w] && s'.workers == s.workers[k := Idle]
    requires w != 0 && (TagOf(w) == t ==> s.slots[i] != 0 && TagOf(s.slots[i]) == t)
    ensures KeyInv(s', t)
  {
    OneWritten(s.slots, i, w, t);
    HarmlessKeeps(s, k, Idle, s', t);
  }

  lemma ProbingKeeps(s: State, k: nat, t: Tag)
    requires Fits(s) && KeyInv(s, t) && k < |s.workers| && s.workers[k].Probing?
    ensures KeyInv(StepOf(s, k), t)
  {
    var Probing(tag, limit, p, spare) := s.workers[k];
    assert Knows(s.slots, s.workers[k], t) && PcFits(s.workers[k], |s.slots|);
    var pc := StepOf(s, k).workers[k];
    if tag == t && p < PROBE && OtherAt(s.slots, t, p) {
      ProbedKnows(s.slots, t, limit, p, spare, pc.spare);
    }
    MoveKeepsKey(s, k, t, pc);
  }

  lemma ClaimingKeeps(s: State, k: nat, t: Tag)
    requires Fits(s) && KeyInv(s, t) && k < |s.workers| && s.workers[k].Claiming?
    ensures KeyInv(StepOf(s, k), t)
  {
    var Claiming(tag, limit, p, spare) := s.workers[k];
    assert Knows(s.slots, s.workers[k], t) && PcFits(s.workers[k], |s.slots|);
    var i := Position(|s.slots|, tag, p);
    if s.slots[i] == 0 {
      if tag == t { ClaimKeeps(s, k, t); } else { WriteKeepsKey(s, k, t, i, Pack(tag, 1), StepOf(s, k)); }
    } else {
      var pc := StepOf(s, k).workers[k];
      if tag == t && OtherAt(s.slots, t, p) { ProbedKnows(s.slots, t, limit, p, spare, spare); }
      MoveKeepsKey(s, k, t, pc);
    }
  }

  lemma CountingKeeps(s: State, k: nat, t: Tag, cap: Tag -> nat)
    requires Inv(s, cap) && KeyInv(s, t) && k < |s.workers| && (s.workers[k].Counting? || s.workers[k].CountingCas?)
    ensures KeyInv(StepOf(s, k), t)
  {
    var pc := s.workers[k];
    assert Knows(s.slots, pc, t) && PcFits(pc, |s.slots|) && PcOk(s, pc, cap);
    if pc.CountingCas? && s.slots[pc.slot] == pc.seen {
      WriteKeepsKey(s, k, t, pc.slot, Pack(pc.tag, CountOf(pc.seen) + 1), StepOf(s, k));
    } else {
      MoveKeepsKey(s, k, t, StepOf(s, k).workers[k]);
    }
  }

  lemma TakingKeeps(s: State, k: nat, t: Tag)
    requires Fits(s) && KeyInv(s, t) && NoRace(s, t) && k < |s.workers| && (s.workers[k].Taking? || s.workers[k].TakingCas?)
    ensures KeyInv(StepOf(s, k), t)
  {
    var pc := s.workers[k];
    assert Knows(s.slots, pc, t) && PcFits(pc, |s.slots|);
    if pc.TakingCas? && s.slots[pc.slot] == pc.seen {
      if pc.tag == t { TakeKeeps(s, k, t); } else { WriteKeepsKey(s, k, t, pc.slot, Pack(pc.tag, 1), StepOf(s, k)); }
    } else {
      MoveKeepsKey(s, k, t, StepOf(s, k).workers[k]);
    }
  }

  lemma DroppingKeeps(s: State, k: nat, t: Tag, cap: Tag -> nat)
    requires Inv(s, cap) && KeyInv(s, t) && k < |s.workers| && (s.workers[k].Dropping? || s.workers[k].DroppingCas?)
    ensures KeyInv(StepOf(s, k), t)
  {
    var pc := s.workers[k];
    assert PcFits(pc, |s.slots|) && PcOk(s, pc, cap);
    if pc.DroppingCas? && s.slots[pc.guard.slot] == pc.seen {
      WriteKeepsKey(s, k, t, pc.guard.slot, Pack(pc.guard.tag, CountOf(pc.seen) - 1), StepOf(s, k));
    } else if pc.DroppingCas? {
      MoveKeepsKey(s, k, t, Dropping(pc.id, pc.guard));
    } else {
      NoEarlyReturn(s, k, cap);
      MoveKeepsKey(s, k, t, DroppingCas(pc.id, pc.guard, s.slots[pc.guard.slot]));
    }
  }

  lemma NextKeepsKey(s: State, e: Event, t: Tag, cap: Tag -> nat)
    requires Inv(s, cap) && KeyInv(s, t) && NoRace(s, t)
    ensures KeyInv(Next(s, e), t)
  {
    if Enabled(s, e) {
      match e
      case Enter(k, tag, limit) => MoveKeepsKey(s, k, t, Probing(tag, Clamp(limit), 0, None));
      case Drop(k, id) => MoveKeepsKey(s, k, t, Dropping(id, s.live[id]));
      case Step(k) =>
        match s.workers[k] {
          case Probing(_, _, _, _) => ProbingKeeps(s, k, t);
          case Claiming(_, _, _, _) => ClaimingKeeps(s, k, t);
          case Counting(_, _, _) => CountingKeeps(s, k, t, cap);
          case CountingCas(_, _, _, _) => CountingKeeps(s, k, t, cap);
          case Taking(_, _) => TakingKeeps(s, k, t);
          case TakingCas(_, _, _) => TakingKeeps(s, k, t);
          case Dropping(_, _) => DroppingKeeps(s, k, t, cap);
          case DroppingCas(_, _, _) => DroppingKeeps(s, k, t, cap);
        }
    }
  }

  lemma {:induction false} RunKeepsKey(s: State, es: seq<Event>, t: Tag, cap: Tag -> nat)
    requires Inv(s, cap) && KeyInv(s, t) && NeverRaces(s, es, t) && forall e | e in es :: Within(e, cap)
    ensures Inv(Run(s, es), cap) && KeyInv(Run(s, es), t)
    decreases |es|
  {
    if es != [] {
      NextKeeps(s, es[0], cap);
      NextKeepsKey(s, es[0], t, cap);
      RunKeepsKey(Next(s, es[0]), es[1..], t, cap);
    }
  }

  // ---- The bound ----

  lemma InitKey(n: nat, workers: nat, t: Tag)
    requires n >= MIN_SLOTS
    ensures KeyInv(Init(n, workers), t)
  {}

  /** Where one slot at most holds the tag, its guards are that slot's. */
  lemma GuardsOfKey(s: State, t: Tag, cap: Tag -> nat)
    requires Inv(s, cap) && KeyInv(s, t)
    ensures |Of(s.live, t)| <= Allowed(cap, t)
  {
    forall id | id in Of(s.live, t) ensures Holds(s.slots, s.live[id].slot, t) {
      assert id in At(s.live, s.live[id].slot);
    }
    if id :| id in Of(s.live, t) {
      var i := s.live[id].slot;
      assert Of(s.live, t) == At(s.live, i);
    } else {
      assert Of(s.live, t) == {};
    }
  }

  /** Over every interleaving in which no takeover for a tag overlaps another `acquire` of that tag, the
      tag's live guards stay within its limit. Other tags' operations, drops, and acquires of the tag that
      find or claim its slot may interleave with anything. */
  lemma KeyBound(n: nat, workers: nat, es: seq<Event>, t: Tag, cap: Tag -> nat)
    requires n >= MIN_SLOTS && NeverRaces(Init(n, workers), es, t) && forall e | e in es :: Within(e, cap)
    ensures |Of(Run(Init(n, workers), es).live, t)| <= Allowed(cap, t)
  {
    InitKeeps(n, workers, cap);
    InitKey(n, workers, t);
    RunKeepsKey(Init(n, workers), es, t, cap);
    GuardsOfKey(Run(Init(n, workers), es), t, cap);
  }

  lemma {:induction false} AloneNeverRaces(s: State, es: seq<Event>, t: Tag)
    requires Fits(s) && AlwaysAlone(s, es, t)
    ensures NeverRaces(s, es, t)
    decreases |es|
  {
    forall j, k | 0 <= j < |s.workers| && 0 <= k < |s.workers| && j != k
      ensures !(TakesOver(s.workers[j], t) && Inside(s.workers[k], t))
    {
      assert TakesOver(s.workers[j], t) ==> Inside(s.workers[j], t);
    }
    if es != [] { AloneNeverRaces(Next(s, es[0]), es[1..], t); }
  }

  /** In particular where no two workers are ever inside `acquire` for the tag at once. */
  lemma KeyBoundAlone(n: nat, workers: nat, es: seq<Event>, t: Tag, cap: Tag -> nat)
    requires n >= MIN_SLOTS && AlwaysAlone(Init(n, workers), es, t) && forall e | e in es :: Within(e, cap)
    ensures |Of(Run(Init(n, workers), es).live, t)| <= Allowed(cap, t)
  {
    AloneNeverRaces(Init(n, workers), es, t);
    KeyBound(n, workers, es, t, cap);
  }
}
