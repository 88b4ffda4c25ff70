/** How many workers the limit of one key in `limit_conn` stands: one. In every table, two workers can put
    the same tag in two slots. Module LimitConnKey has the runs of any number of workers that stay within it. */
module LimitConnRace {
  import opened Wrappers
  import opened LimitConn
  import opened LimitConnSteps
  import opened LimitConnKey

  /** Sizes for which the tags used here fit 48 bits; a table of the first one left out has 2^50 bytes. */
  const MAX_SLOTS: nat := 0x8000_0000_0000

  ghost predicate Sizes(n: nat, workers: nat) { MIN_SLOTS <= n < MAX_SLOTS && workers >= 2 }

  /** The tag that is placed in slot `i` first, and a tag whose probe starts at slot 0. */
  function TagAt(n: nat, i: nat): (t: Tag)
    requires MIN_SLOTS <= n < MAX_SLOTS && i < PROBE
    ensures t == n + i
  {
    n + i
  }

  function Contested(n: nat): (t: Tag)
    requires MIN_SLOTS <= n < MAX_SLOTS
    ensures t == 2 * n
  {
    2 * n
  }

  lemma Wraps(n: nat, i: nat)
    requires i < n
    ensures (n + i) % n == i && (2 * n + i) % n == i
  {}

  // ---- A full window ----

  ghost function FilledSlots(n: nat, j: nat): (slots: seq<Word>)
    requires MIN_SLOTS <= n < MAX_SLOTS && j <= PROBE
    ensures |slots| == n
    ensures forall i: nat | i < n :: slots[i] == if i < j then Pack(n + i, 1) else 0
  {
    if j == 0 then seq(n, _ => 0) else FilledSlots(n, j - 1)[j - 1 := Pack(n + j - 1, 1)]
  }

  ghost function FilledLive(n: nat, j: nat): (live: Live)
    requires MIN_SLOTS <= n < MAX_SLOTS && j <= PROBE
    ensures forall id: nat :: id in live <==> id < j
    ensures forall id | id in live :: live[id] == Guard(id, n + id)
  {
    if j == 0 then map[] else FilledLive(n, j - 1)[j - 1 := Guard(j - 1, n + j - 1)]
  }

  /** Tags n, n + 1, ... have taken the first `j` slots, one guard each, and all workers are idle. */
  ghost function Filled(n: nat, workers: nat, j: nat): (s: State)
    requires Sizes(n, workers) && j <= PROBE
    ensures Fits(s)
  {
    State(FilledSlots(n, j), FilledLive(n, j), j, seq(workers, _ => Idle))
  }

  ghost predicate LimitOne(es: seq<Event>) { forall e | e in es && e.Enter? :: e.limit == 1 }

  /** `es` leads from the empty table to `s`, all limits being 1. */
  ghost predicate Leads(n: nat, workers: nat, es: seq<Event>, s: State) {
    n >= MIN_SLOTS && Run(Init(n, workers), es) == s && LimitOne(es)
  }

  lemma Then(n: nat, workers: nat, es: seq<Event>, s: State, more: seq<Event>) returns (es': seq<Event>, s': State)
    requires Fits(s) && Leads(n, workers, es, s) && LimitOne(more)
    ensures Fits(s') && s' == Run(s, more) && Leads(n, workers, es', s')
  {
    RunThen(Init(n, workers), es, more, s);
    es', s' := es + more, Run(s, more);
  }

  /** The first slot that is free is claimed for the tag whose probe starts there. */
  lemma FillOne(n: nat, workers: nat, j: nat) returns (es: seq<Event>)
    requires Sizes(n, workers) && j < PROBE
    ensures Run(Filled(n, workers, j), es) == Filled(n, workers, j + 1) && LimitOne(es)
  {
    var s, tag := Filled(n, workers, j), TagAt(n, j);
    Wraps(n, j);
    assert Scan(s.slots, tag, 0, None) == Empty(j);
    var m := AloneAcquires(s, 0, tag, 1);
    es := [Enter(0, tag, 1)] + Steps(0, m);
    FilledNext(n, j);
  }

  lemma FilledNext(n: nat, j: nat)
    requires MIN_SLOTS <= n < MAX_SLOTS && j < PROBE
    ensures FilledSlots(n, j + 1) == FilledSlots(n, j)[j := Pack(n + j, 1)]
    ensures FilledLive(n, j + 1) == FilledLive(n, j)[j := Guard(j, n + j)]
  {}

  lemma {:induction false} FillRuns(n: nat, workers: nat, j: nat) returns (es: seq<Event>)
    requires Sizes(n, workers) && j <= PROBE
    ensures Leads(n, workers, es, Filled(n, workers, j))
    decreases j
  {
    if j == 0 {
      es := [];
      assert Init(n, workers).slots == FilledSlots(n, 0) && Init(n, workers).workers == Filled(n, workers, 0).workers;
    } else {
      var before := FillRuns(n, workers, j - 1);
      var more := FillOne(n, workers, j - 1);
      var s';
      es, s' := Then(n, workers, before, Filled(n, workers, j - 1), more);
    }
  }

  // ---- Two takeovers ----

  /** The probe notes the first slot that counts nothing when the window is full of other tags. */
  lemma {:induction false} ScanSpares(slots: seq<Word>, tag: Tag, p: nat, j: nat, spare: Option<nat>)
    requires |slots| > 0 && p <= PROBE && j < PROBE
    requires forall q: nat | p <= q < PROBE :: slots[Position(|slots|, tag, q)] != 0 && TagOf(slots[Position(|slots|, tag, q)]) != tag
    requires forall q: nat | p <= q < j :: CountOf(slots[Position(|slots|, tag, q)]) > 0
    requires CountOf(slots[Position(|slots|, tag, j)]) == 0
    requires spare == if p <= j then None else Some(Position(|slots|, tag, j))
    ensures Scan(slots, tag, p, spare) == Spare(Position(|slots|, tag, j))
    decreases PROBE - p
  {
    if p < PROBE {
      ScanSpares(slots, tag, p + 1, j, if p == j then Some(Position(|slots|, tag, j)) else spare);
    }
  }

  /** The window of the contested tag is full of other tags, and no slot before `idle` counts nothing. */
  ghost predicate Crowded(n: nat, slots: seq<Word>, idle: nat) {
    && MIN_SLOTS <= n < MAX_SLOTS && |slots| == n && idle <= PROBE
    && (forall q: nat | q < PROBE :: TagOf(slots[q]) == n + q)
    && (forall q: nat | q < idle :: CountOf(slots[q]) == 1)
  }

  lemma ScanContested(n: nat, slots: seq<Word>, j: nat)
    requires j < PROBE && Crowded(n, slots, j) && CountOf(slots[j]) == 0
    ensures Scan(slots, Contested(n), 0, None) == Spare(j)
  {
    forall q: nat | q < PROBE ensures Position(n, Contested(n), q) == q { Wraps(n, q); }
    forall q: nat | q < PROBE ensures slots[q] != 0 && TagOf(slots[q]) != Contested(n) {
      assert TagOf(slots[q]) == n + q;
    }
    ScanSpares(slots, Contested(n), 0, j, None);
  }

  /** Worker `k` drops guard `id` of `s` without being interrupted. */
  lemma AloneDrops(s: State, k: nat, id: nat)
    requires Fits(s) && k < |s.workers| && Enabled(s, Drop(k, id))
    requires TagOf(s.slots[s.live[id].slot]) == s.live[id].tag && CountOf(s.slots[s.live[id].slot]) > 0
    ensures var g := s.live[id];
            Run(s, [Drop(k, id), Step(k), Step(k)]) ==
            s.(slots := s.slots[g.slot := Pack(g.tag, CountOf(s.slots[g.slot]) - 1)], live := s.live - {id})
  {
    var s1 := Next(s, Drop(k, id));
    assert [Drop(k, id), Step(k), Step(k)][1..] == Steps(k, 2);
    StepThen(s1, k, 1);
    StepThen(StepOf(s1, k), k, 0);
    assert StepOf(StepOf(s1, k), k).workers == s.workers;
  }

  /** Worker `k` probes for the contested tag up to the point of taking over slot `j`. */
  lemma AloneSpares(n: nat, s: State, k: nat, j: nat) returns (es: seq<Event>)
    requires Fits(s) && k < |s.workers| && s.workers[k].Idle? && j < PROBE && Crowded(n, s.slots, j) && CountOf(s.slots[j]) == 0
    ensures Run(s, es) == Go(s, k, Taking(j, Contested(n))) && LimitOne(es)
  {
    var tag := Contested(n);
    var s1 := Go(s, k, Probing(tag, 1, 0, None));
    var m := AloneProbe(s1, k);
    ScanContested(n, s.slots, j);
    MetForgets(s, k, Probing(tag, 1, 0, None), tag, 1, Spare(j));
    es := [Enter(k, tag, 1)] + Steps(k, m);
    EnterThen(s, k, tag, 1, Steps(k, m));
  }

  /** Worker `k` drops guard `j`, its slot's last, and then picks that slot to take over. */
  lemma DropAndPick(n: nat, workers: nat, es: seq<Event>, s: State, k: nat, j: nat) returns (es': seq<Event>, s': State)
    requires Fits(s) && Leads(n, workers, es, s) && k < |s.workers| && j < PROBE
    requires Crowded(n, s.slots, j + 1) && j in s.live && s.live[j] == Guard(j, n + j) && Enabled(s, Drop(k, j))
    ensures Fits(s') && Leads(n, workers, es', s')
    ensures s' == State(s.slots[j := Pack(n + j, 0)], s.live - {j}, s.named, s.workers[k := Taking(j, Contested(n))])
    ensures Crowded(n, s'.slots, j)
  {
    AloneDrops(s, k, j);
    var s1;
    es', s1 := Then(n, workers, es, s, [Drop(k, j), Step(k), Step(k)]);
    var race := AloneSpares(n, s1, k, j);
    es', s' := Then(n, workers, es', s1, race);
  }

  /** Both takeovers go through: the slots differ, so neither swap sees the other. */
  lemma BothTake(n: nat, workers: nat, tag: Tag, es: seq<Event>, s: State) returns (es': seq<Event>, s': State)
    requires Fits(s) && Leads(n, workers, es, s) && |s.workers| >= 2 && |s.slots| == n
    requires s.workers[0] == Taking(1, tag) && s.workers[1] == Taking(0, tag)
    requires CountOf(s.slots[0]) == 0 && CountOf(s.slots[1]) == 0
    ensures Fits(s') && Leads(n, workers, es', s')
    ensures s'.live == s.live[s.named := Guard(1, tag)][s.named + 1 := Guard(0, tag)]
  {
    AloneTakes(s, 0);
    var s1;
    es', s1 := Then(n, workers, es, s, Steps(0, 2));
    AloneTakes(s1, 1);
    es', s' := Then(n, workers, es', s1, Steps(1, 2));
  }

  lemma Collide(n: nat, workers: nat, es: seq<Event>, s: State) returns (es': seq<Event>, s': State)
    requires Fits(s) && Leads(n, workers, es, s) && Crowded(n, s.slots, 2)
    requires |s.workers| >= 2 && forall k | 0 <= k < |s.workers| :: s.workers[k].Idle?
    requires 0 in s.live && 1 in s.live && s.live[0] == Guard(0, n) && s.live[1] == Guard(1, n + 1)
    ensures Fits(s') && Leads(n, workers, es', s')
    ensures s'.live == (s.live - {1} - {0})[s.named := Guard(1, Contested(n))][s.named + 1 := Guard(0, Contested(n))]
  {
    var s1, s2;
    es', s1 := DropAndPick(n, workers, es, s, 0, 1);
    es', s2 := DropAndPick(n, workers, es', s1, 1, 0);
    es', s' := BothTake(n, workers, Contested(n), es', s2);
  }

  /** In every table two workers that race to take over different spare slots for the same tag both get a
      guard, in two slots, under a limit of 1. */
  lemma KeyBoundFailsInterleaved(n: nat, workers: nat)
    requires MIN_SLOTS <= n < MAX_SLOTS && workers >= 2
    ensures exists es: seq<Event> :: LimitOne(es) && |Of(Run(Init(n, workers), es).live, Contested(n))| == 2
  {
    var m: nat :| m == PROBE;
    var es := FillRuns(n, workers, m);
    var es', s' := Collide(n, workers, es, Filled(n, workers, m));
    TwoGuards(n, m, s'.live);
  }

  lemma TwoGuards(n: nat, m: nat, live: Live)
    requires MIN_SLOTS <= n < MAX_SLOTS && m == PROBE
    requires live == (FilledLive(n, m) - {1} - {0})[m := Guard(1, Contested(n))][m + 1 := Guard(0, Contested(n))]
    ensures |Of(live, Contested(n))| == 2
  {
    assert Of(live, Contested(n)) == {m, m + 1};
  }

  // ---- Exactly when ----

  /** The limit of every key is kept, whatever the workers do and however that is interleaved. */
  ghost predicate KeepsKeys(n: nat, workers: nat)
    requires n >= MIN_SLOTS
  {
    forall es: seq<Event>, t: Tag, cap: Tag -> nat ::
      (forall e | e in es :: Within(e, cap)) ==> |Of(Run(Init(n, workers), es).live, t)| <= Allowed(cap, t)
  }

  lemma {:induction false} OneIsAlone(s: State, es: seq<Event>, t: Tag)
    requires Fits(s) && |s.workers| <= 1
    ensures AlwaysAlone(s, es, t)
    decreases |es|
  {
    if es != [] { OneIsAlone(Next(s, es[0]), es[1..], t); }
  }

  /** The limit of every key is kept over all interleavings if and only if there is one worker at most. */
  lemma KeptExactly(n: nat, workers: nat)
    requires MIN_SLOTS <= n < MAX_SLOTS
    ensures KeepsKeys(n, workers) <==> workers <= 1
  {
    if workers <= 1 {
      forall es: seq<Event>, t: Tag, cap: Tag -> nat | forall e | e in es :: Within(e, cap)
        ensures |Of(Run(Init(n, workers), es).live, t)| <= Allowed(cap, t)
      {
        OneIsAlone(Init(n, workers), es, t);
        KeyBoundAlone(n, workers, es, t, cap);
      }
    } else {
      KeyBoundFailsInterleaved(n, workers);
      var es: seq<Event> :| LimitOne(es) && |Of(Run(Init(n, workers), es).live, Contested(n))| == 2;
      OneIsBroken(n, workers, es);
    }
  }

  lemma OneIsBroken(n: nat, workers: nat, es: seq<Event>)
    requires MIN_SLOTS <= n < MAX_SLOTS && LimitOne(es) && |Of(Run(Init(n, workers), es).live, Contested(n))| == 2
    ensures !KeepsKeys(n, workers)
  {
    var one: Tag -> nat := (t: Tag) => 1;
    assert forall e | e in es :: Within(e, one);
    assert Allowed(one, Contested(n)) == 1;
  }
}
