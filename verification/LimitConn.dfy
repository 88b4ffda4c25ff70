/** The `limit_conn` table with `acquire` and `release` run one at a time.

    A slot is one 64-bit word `[tag:48][count:16]`. The table size is a power of two, so the
    source's `& (slots - 1)` is written `% |slots|` here. Keys appear only as their 48-bit tags. */
module LimitConn {
  import opened Wrappers

  const PROBE: nat := 16
  const MAX_CONNS: nat := 65535
  const MIN_SLOTS: nat := 64
  const COUNT_BASE: nat := 0x1_0000
  const COUNT_MASK: nat := 0xFFFF

  type Word = w: int | 0 <= w < 0x1_0000_0000_0000_0000
  type Tag = t: int | 1 <= t < 0x1_0000_0000_0000 witness 1

  function Pack(tag: Tag, count: nat): (w: Word)
    ensures w != 0
    ensures TagOf(w) == tag
    ensures count <= COUNT_MASK ==> CountOf(w) == count
  {
    tag * COUNT_BASE + count % COUNT_BASE
  }

  function TagOf(w: Word): nat { w / COUNT_BASE }

  function CountOf(w: Word): nat { w % COUNT_BASE }

  /** A guard names the slot it counts in and the tag it was taken for. */
  datatype Guard = Guard(slot: nat, tag: Tag)

  /** The guards handed out and not yet given back, under names of our own choosing. */
  type Live = map<nat, Guard>

  function At(live: Live, i: nat): set<nat> { set id | id in live && live[id].slot == i }

  function Of(live: Live, tag: Tag): set<nat> { set id | id in live && live[id].tag == tag }

  /** Every slot's count is the number of live guards naming it, and they all carry its tag. */
  ghost predicate Counted(slots: seq<Word>, live: Live) {
    && (forall i | 0 <= i < |slots| :: slots[i] != 0 ==> TagOf(slots[i]) >= 1)
    && (forall id | id in live ::
          live[id].slot < |slots| && TagOf(slots[live[id].slot]) == live[id].tag)
    && (forall i | 0 <= i < |slots| :: CountOf(slots[i]) == |At(live, i)|)
  }

  /** No slot counts beyond what `cap` allows its tag. A claim does not look at the limit, hence the 1. */
  ghost predicate Capped(slots: seq<Word>, cap: Tag -> nat) {
    forall i | 0 <= i < |slots| && TagOf(slots[i]) >= 1 :: CountOf(slots[i]) <= Allowed(cap, TagOf(slots[i]))
  }

  function Allowed(cap: Tag -> nat, tag: Tag): nat { if cap(tag) == 0 then 1 else cap(tag) }

  function Clamp(limit: nat): nat { if limit < MAX_CONNS then limit else MAX_CONNS }

  // ---- What one more or one fewer guard does to the counts ----

  lemma CountedAdd(slots: seq<Word>, live: Live, id: nat, g: Guard)
    requires Counted(slots, live) && id !in live && g.slot < |slots|
    requires CountOf(slots[g.slot]) < COUNT_MASK
    requires TagOf(slots[g.slot]) == g.tag || CountOf(slots[g.slot]) == 0
    ensures Counted(slots[g.slot := Pack(g.tag, CountOf(slots[g.slot]) + 1)], live[id := g])
  {
    var slots' := slots[g.slot := Pack(g.tag, CountOf(slots[g.slot]) + 1)];
    var live' := live[id := g];
    forall i | 0 <= i < |slots| ensures CountOf(slots'[i]) == |At(live', i)| {
      if i == g.slot {
        assert At(live', i) == At(live, i) + {id};
      } else {
        assert At(live', i) == At(live, i);
      }
    }
    forall x | x in live' ensures TagOf(slots'[live'[x].slot]) == live'[x].tag {
      if x != id && live[x].slot == g.slot {
        assert x in At(live, g.slot);
      }
    }
  }

  lemma CountedRemove(slots: seq<Word>, live: Live, id: nat)
    requires Counted(slots, live) && id in live
    ensures var g := live[id];
            CountOf(slots[g.slot]) > 0 &&
            Counted(slots[g.slot := Pack(g.tag, CountOf(slots[g.slot]) - 1)], live - {id})
  {
    var g := live[id];
    assert id in At(live, g.slot);
    var slots' := slots[g.slot := Pack(g.tag, CountOf(slots[g.slot]) - 1)];
    var live' := live - {id};
    forall i | 0 <= i < |slots| ensures CountOf(slots'[i]) == |At(live', i)| {
      if i == g.slot {
        assert At(live', i) == At(live, i) - {id};
      } else {
        assert At(live', i) == At(live, i);
      }
    }
  }

  // ---- The probe and the two operations as functions of the table ----

  datatype Found =
    | Empty(slot: nat)     // an empty slot before the tag
    | Mine(slot: nat)      // the tag's own slot
    | Spare(slot: nat)     // neither, but this slot counts nothing
    | Full

  function Position(n: nat, tag: nat, p: nat): (i: nat)
    requires n > 0
    ensures i < n
  {
    (tag + p) % n
  }

  /** The first pass of `acquire` from probe `p` on, with the reusable slot noted so far. */
  function Scan(slots: seq<Word>, tag: Tag, p: nat, spare: Option<nat>): (f: Found)
    requires |slots| > 0 && p <= PROBE
    requires spare.Some? ==> spare.value < |slots|
    ensures !f.Full? ==> f.slot < |slots|
    decreases PROBE - p
  {
    if p == PROBE then
      match spare case Some(i) => Spare(i) case None => Full
    else
      var i := Position(|slots|, tag, p);
      if slots[i] == 0 then Empty(i)
      else if TagOf(slots[i]) == tag then Mine(i)
      else Scan(slots, tag, p + 1, if spare.None? && CountOf(slots[i]) == 0 then Some(i) else spare)
  }

  /** The slot an `acquire` that met `f` counts in, if it may, and the table it leaves. */
  function AcquiredAt(slots: seq<Word>, tag: Tag, limit: nat, f: Found): (r: (seq<Word>, Option<nat>))
    requires !f.Full? ==> f.slot < |slots|
    ensures |r.0| == |slots|
    ensures r.1.Some? ==> r.1.value < |slots|
  {
    match f
    case Empty(i) => (slots[i := Pack(tag, 1)], Some(i))
    case Mine(i) =>
      var count := CountOf(slots[i]);
      if count >= Clamp(limit) || count >= COUNT_MASK then (slots, None)
      else (slots[i := Pack(tag, count + 1)], Some(i))
    case Spare(i) => (slots[i := Pack(tag, 1)], Some(i))
    case Full => (slots, None)
  }

  function Acquired(slots: seq<Word>, tag: Tag, limit: nat): (r: (seq<Word>, Option<nat>))
    requires |slots| > 0
    ensures |r.0| == |slots|
    ensures r.1.Some? ==> r.1.value < |slots|
  {
    AcquiredAt(slots, tag, limit, Scan(slots, tag, 0, None))
  }

  function Released(slots: seq<Word>, i: nat, tag: Tag): (r: seq<Word>)
    requires i < |slots|
    ensures |r| == |slots|
  {
    if TagOf(slots[i]) != tag || CountOf(slots[i]) == 0 then slots
    else slots[i := Pack(tag, CountOf(slots[i]) - 1)]
  }

  /** What `count` reports, from probe `p` on. */
  function CountFrom(slots: seq<Word>, tag: Tag, p: nat): nat
    requires |slots| > 0 && p <= PROBE
    decreases PROBE - p
  {
    if p == PROBE then 0
    else
      var w := slots[Position(|slots|, tag, p)];
      if w == 0 then 0 else if TagOf(w) == tag then CountOf(w) else CountFrom(slots, tag, p + 1)
  }

  // ---- The shape of the table: one slot a tag, reachable by its probe ----

  ghost predicate Holds(slots: seq<Word>, i: nat, tag: Tag) {
    i < |slots| && slots[i] != 0 && TagOf(slots[i]) == tag
  }

  ghost predicate Reached(slots: seq<Word>, tag: Tag, p: nat)
    requires |slots| > 0
  {
    forall q | 0 <= q < p :: slots[Position(|slots|, tag, q)] != 0
  }

  /** Slot `i` is probe `p` of the tag, and no slot before it in the window is empty. */
  ghost predicate Placed(slots: seq<Word>, i: nat, tag: Tag, p: nat)
    requires |slots| > 0
  {
    p < PROBE && i == Position(|slots|, tag, p) && Reached(slots, tag, p)
  }

  ghost predicate Shaped(slots: seq<Word>) {
    && |slots| >= MIN_SLOTS
    && (forall i: nat, j: nat, tag: Tag | Holds(slots, i, tag) && Holds(slots, j, tag) :: i == j)
    && (forall i: nat, tag: Tag | Holds(slots, i, tag) :: exists p: nat :: Placed(slots, i, tag, p))
  }

  ghost predicate Consistent(slots: seq<Word>, live: Live, cap: Tag -> nat) {
    Shaped(slots) && Counted(slots, live) && Capped(slots, cap)
  }

  /** A tag held anywhere is met by its probe before the first empty slot and within the window. */
  lemma HeldIsMet(slots: seq<Word>, tag: Tag, p: nat, j: nat)
    requires Shaped(slots) && Holds(slots, j, tag) && p <= PROBE
    requires forall q: nat | q < p :: !Holds(slots, Position(|slots|, tag, q), tag)
    ensures p < PROBE && slots[Position(|slots|, tag, p)] != 0
  {
    var q: nat :| Placed(slots, j, tag, q);
    assert q >= p;
    assert Holds(slots, Position(|slots|, tag, q), tag);
  }

  ghost predicate Absent(slots: seq<Word>, tag: Tag) { forall i: nat :: !Holds(slots, i, tag) }

  /** What the probe meets: the tag if it is in the table, and otherwise the first empty slot or the
      first slot that counts nothing. */
  ghost predicate MetRightly(slots: seq<Word>, tag: Tag, f: Found)
    requires |slots| > 0
  {
    match f
    case Mine(i) => Holds(slots, i, tag)
    case Empty(i) => Absent(slots, tag) && i < |slots| && slots[i] == 0 && exists q: nat :: Placed(slots, i, tag, q)
    case Spare(i) => Absent(slots, tag) && i < |slots| && slots[i] != 0 && CountOf(slots[i]) == 0 && exists q: nat :: Placed(slots, i, tag, q)
    case Full => Absent(slots, tag) && forall q: nat | q < PROBE :: CountOf(slots[Position(|slots|, tag, q)]) > 0
  }

  lemma {:induction false} ScanFinds(slots: seq<Word>, tag: Tag, p: nat, spare: Option<nat>)
    requires Shaped(slots) && p <= PROBE && Reached(slots, tag, p)
    requires forall q: nat | q < p :: !Holds(slots, Position(|slots|, tag, q), tag)
    requires match spare
      case None => forall q: nat | q < p :: CountOf(slots[Position(|slots|, tag, q)]) > 0
      case Some(i) => i < |slots| && CountOf(slots[i]) == 0 && exists q: nat :: q < p && i == Position(|slots|, tag, q)
    ensures MetRightly(slots, tag, Scan(slots, tag, p, spare))
    decreases PROBE - p
  {
    if p < PROBE && slots[Position(|slots|, tag, p)] != 0 {
      var i := Position(|slots|, tag, p);
      if TagOf(slots[i]) != tag {
        ScanFinds(slots, tag, p + 1, if spare.None? && CountOf(slots[i]) == 0 then Some(i) else spare);
      }
    } else {
      forall j: nat ensures !Holds(slots, j, tag) {
        if Holds(slots, j, tag) { HeldIsMet(slots, tag, p, j); }
      }
      if p < PROBE {
        assert Placed(slots, Position(|slots|, tag, p), tag, p);
      } else if spare.Some? {
        var q: nat :| q < p && spare.value == Position(|slots|, tag, q);
        assert Placed(slots, spare.value, tag, q);
      }
    }
  }

  /** Rewriting one slot keeps the shape when no other slot holds the new tag and the probe places it. */
  lemma ShapedUpdate(slots: seq<Word>, i: nat, tag: Tag, w: Word, p: nat)
    requires Shaped(slots) && i < |slots| && w != 0 && TagOf(w) == tag
    requires forall j: nat | j != i :: !Holds(slots, j, tag)
    requires Placed(slots, i, tag, p)
    ensures Shaped(slots[i := w])
  {
    var slots' := slots[i := w];
    forall j: nat, t: Tag | Holds(slots', j, t) ensures exists q: nat :: Placed(slots', j, t, q) {
      if j == i {
        assert Placed(slots', i, tag, p);
      } else {
        assert Holds(slots, j, t);
        var q: nat :| Placed(slots, j, t, q);
        assert Placed(slots', j, t, q);
      }
    }
    forall j: nat, k: nat, t: Tag | Holds(slots', j, t) && Holds(slots', k, t) ensures j == k {
      assert j != i ==> Holds(slots, j, t);
      assert k != i ==> Holds(slots, k, t);
    }
  }

  /** Counting one more guard in a slot that may take it keeps the whole table. */
  lemma AddKeeps(slots: seq<Word>, live: Live, cap: Tag -> nat, id: nat, i: nat, tag: Tag, p: nat)
    requires Consistent(slots, live, cap) && id !in live && Placed(slots, i, tag, p)
    requires forall j: nat | j != i :: !Holds(slots, j, tag)
    requires if TagOf(slots[i]) == tag
             then CountOf(slots[i]) < COUNT_MASK && CountOf(slots[i]) + 1 <= Allowed(cap, tag)
             else CountOf(slots[i]) == 0
    ensures Consistent(slots[i := Pack(tag, CountOf(slots[i]) + 1)], live[id := Guard(i, tag)], cap)
  {
    ShapedUpdate(slots, i, tag, Pack(tag, CountOf(slots[i]) + 1), p);
    CountedAdd(slots, live, id, Guard(i, tag));
  }

  /** What a successful `acquire` did: one more guard in a slot the tag may use. */
  lemma AcquiredAdds(slots: seq<Word>, tag: Tag, limit: nat, f: Found)
    requires Shaped(slots) && MetRightly(slots, tag, f) && AcquiredAt(slots, tag, limit, f).1.Some?
    ensures var i := f.slot;
            && AcquiredAt(slots, tag, limit, f) == (slots[i := Pack(tag, CountOf(slots[i]) + 1)], Some(i))
            && (exists q: nat :: Placed(slots, i, tag, q))
            && (forall j: nat | j != i :: !Holds(slots, j, tag))
            && if TagOf(slots[i]) == tag then CountOf(slots[i]) < COUNT_MASK && CountOf(slots[i]) < Clamp(limit)
               else CountOf(slots[i]) == 0
  {
    assert f.Mine? <==> Holds(slots, f.slot, tag);
  }

  /** `acquire` keeps the table: one slot a tag, exact counts, every tag within its limit. */
  lemma AcquireKeeps(slots: seq<Word>, live: Live, cap: Tag -> nat, tag: Tag, limit: nat, id: nat)
    requires Consistent(slots, live, cap) && id !in live && Clamp(limit) <= cap(tag)
    ensures var (slots', got) := Acquired(slots, tag, limit);
            match got
            case None => slots' == slots
            case Some(i) => Consistent(slots', live[id := Guard(i, tag)], cap)
  {
    ScanFinds(slots, tag, 0, None);
    KeepsAt(slots, live, cap, tag, limit, id, Scan(slots, tag, 0, None));
  }

  lemma KeepsAt(slots: seq<Word>, live: Live, cap: Tag -> nat, tag: Tag, limit: nat, id: nat, f: Found)
    requires Consistent(slots, live, cap) && id !in live && Clamp(limit) <= cap(tag) && MetRightly(slots, tag, f)
    ensures var (slots', got) := AcquiredAt(slots, tag, limit, f);
            match got
            case None => slots' == slots
            case Some(i) => Consistent(slots', live[id := Guard(i, tag)], cap)
  {
    if AcquiredAt(slots, tag, limit, f).1.Some? {
      AcquiredAdds(slots, tag, limit, f);
      var p: nat :| Placed(slots, f.slot, tag, p);
      AddKeeps(slots, live, cap, id, f.slot, tag, p);
    }
  }

  /** Dropping a guard lowers exactly its slot's count; the early return is never taken. */
  lemma ReleaseKeeps(slots: seq<Word>, live: Live, cap: Tag -> nat, id: nat)
    requires Consistent(slots, live, cap) && id in live
    ensures var g := live[id];
            && CountOf(slots[g.slot]) > 0
            && Released(slots, g.slot, g.tag) == slots[g.slot := Pack(g.tag, CountOf(slots[g.slot]) - 1)]
            && Consistent(Released(slots, g.slot, g.tag), live - {id}, cap)
  {
    var g := live[id];
    CountedRemove(slots, live, id);
    assert Holds(slots, g.slot, g.tag);
    var q: nat :| Placed(slots, g.slot, g.tag, q);
    ShapedUpdate(slots, g.slot, g.tag, Pack(g.tag, CountOf(slots[g.slot]) - 1), q);
  }

  /** `acquire` hands out a guard exactly when the tag is present below its limit, or absent with an
      empty slot or a slot counting nothing in its window. */
  lemma AcquireSucceedsWhen(slots: seq<Word>, tag: Tag, limit: nat)
    requires Shaped(slots)
    ensures Acquired(slots, tag, limit).1.Some? <==>
            if Absent(slots, tag)
            then exists q: nat :: q < PROBE && CountOf(slots[Position(|slots|, tag, q)]) == 0
            else exists i: nat :: Holds(slots, i, tag) && CountOf(slots[i]) < Clamp(limit)
  {
    ScanFinds(slots, tag, 0, None);
    match Scan(slots, tag, 0, None)
    case Mine(i) => assert Holds(slots, i, tag);
    case Empty(i) => var q: nat :| Placed(slots, i, tag, q);
    case Spare(i) => var q: nat :| Placed(slots, i, tag, q);
    case Full =>
  }

  lemma {:induction false} CountFinds(slots: seq<Word>, tag: Tag, p: nat)
    requires Shaped(slots) && p <= PROBE
    requires forall q: nat | q < p :: !Holds(slots, Position(|slots|, tag, q), tag)
    ensures if Absent(slots, tag) then CountFrom(slots, tag, p) == 0
            else exists i: nat :: Holds(slots, i, tag) && CountFrom(slots, tag, p) == CountOf(slots[i])
    decreases PROBE - p
  {
    if p < PROBE && slots[Position(|slots|, tag, p)] != 0 {
      if TagOf(slots[Position(|slots|, tag, p)]) != tag {
        CountFinds(slots, tag, p + 1);
      } else {
        assert Holds(slots, Position(|slots|, tag, p), tag);
      }
    } else if j: nat :| Holds(slots, j, tag) {
      HeldIsMet(slots, tag, p, j);
      assert false;
    }
  }

  /** `count` is the number of live guards for the tag, and that number never passes the limit. */
  lemma CountIsLive(slots: seq<Word>, live: Live, cap: Tag -> nat, tag: Tag)
    requires Consistent(slots, live, cap)
    ensures CountFrom(slots, tag, 0) == |Of(live, tag)| <= Allowed(cap, tag)
  {
    CountFinds(slots, tag, 0);
    forall id | id in Of(live, tag) ensures Holds(slots, live[id].slot, tag) {
      assert id in At(live, live[id].slot);
    }
    if Absent(slots, tag) {
      assert Of(live, tag) == {};
    } else {
      var i: nat :| Holds(slots, i, tag) && CountFrom(slots, tag, 0) == CountOf(slots[i]);
      assert Of(live, tag) == At(live, i);
    }
  }

  // ---- The zone as an object over its shared words ----

  class Zone {
    const slots: array<Word>
    ghost var live: Live
    ghost const cap: Tag -> nat

    ghost predicate Valid()
      reads this, slots
    {
      Consistent(slots[..], live, cap)
    }

    constructor (words: nat, ghost cap: Tag -> nat)
      requires words >= MIN_SLOTS
      ensures Valid() && live == map[] && this.cap == cap && fresh(slots)
    {
      slots := new Word[words](_ => 0);
      live := map[];
      this.cap := cap;
      new;
      assert forall i | 0 <= i < words :: At(live, i) == {};
    }

    /** One compare-and-swap on one word. */
    method CompareExchange(i: nat, expected: Word, next: Word) returns (ok: bool, seen: Word)
      requires i < slots.Length
      modifies slots
      ensures seen == old(slots[i]) && ok == (seen == expected)
      ensures slots[..] == if ok then old(slots[..])[i := next] else old(slots[..])
    {
      seen := slots[i];
      ok := seen == expected;
      if ok { slots[i] := next; }
    }

    method Acquire(tag: Tag, limit: nat, ghost id: nat) returns (got: Option<Guard>)
      requires Valid() && id !in live && Clamp(limit) <= cap(tag)
      modifies this, slots
      ensures Valid()
      ensures (slots[..], SlotOf(got)) == Acquired(old(slots[..]), tag, limit)
      ensures got.Some? ==> got.value.tag == tag
      ensures live == if got.Some? then old(live)[id := got.value] else old(live)
    {
      AcquireKeeps(slots[..], live, cap, tag, limit, id);
      got := Probe(tag, limit, id);
    }

    /** The two passes of `acquire`, as a matter of words alone. */
    method Probe(tag: Tag, limit: nat, ghost id: nat) returns (got: Option<Guard>)
      requires slots.Length > 0
      modifies this, slots
      ensures (slots[..], SlotOf(got)) == Acquired(old(slots[..]), tag, limit)
      ensures got.Some? ==> got.value.tag == tag
      ensures live == if got.Some? then old(live)[id := got.value] else old(live)
    {
      var n := slots.Length;
      var reusable: Option<nat> := None;
      got := None;
      var p := 0;
      while p < PROBE
        invariant 0 <= p <= PROBE && slots[..] == old(slots[..]) && live == old(live)
        invariant reusable.Some? ==> reusable.value < n && slots[reusable.value] != 0 && CountOf(slots[reusable.value]) == 0
        invariant Scan(slots[..], tag, 0, None) == Scan(slots[..], tag, p, reusable)
      {
        var i := Position(n, tag, p);
        var w := slots[i];
        if w == 0 {
          // Run alone, this swap cannot lose; the lost races are in module LimitConnSteps.
          var ok, seen := CompareExchange(i, 0, Pack(tag, 1));
          assert ok;
          got := Some(Guard(i, tag));
          live := live[id := got.value];
          return;
        } else {
          if TagOf(w) == tag {
            got := Increment(i, tag, Clamp(limit), id);
            return;
          }
          if reusable.None? && CountOf(w) == 0 {
            reusable := Some(i);
          }
        }
        p := p + 1;
      }
      if reusable.Some? {
        var i := reusable.value;
        var w := slots[i];
        if CountOf(w) == 0 {
          var ok, _ := CompareExchange(i, w, Pack(tag, 1));
          if ok {
            got := Some(Guard(i, tag));
            live := live[id := got.value];
          }
        }
      }
    }

    method Increment(i: nat, tag: Tag, limit: nat, ghost id: nat) returns (got: Option<Guard>)
      requires i < slots.Length && slots[i] != 0 && TagOf(slots[i]) == tag
      modifies this, slots
      ensures var count := CountOf(old(slots[i]));
              if count >= limit || count >= COUNT_MASK
              then got == None && slots[..] == old(slots[..]) && live == old(live)
              else got == Some(Guard(i, tag)) && live == old(live)[id := Guard(i, tag)] &&
                   slots[..] == old(slots[..])[i := Pack(tag, count + 1)]
    {
      var done := false;
      got := None;
      while !done
        invariant !done ==> slots[..] == old(slots[..]) && live == old(live) && got == None
        invariant done ==> CountOf(old(slots[i])) < limit && CountOf(old(slots[i])) < COUNT_MASK
        invariant done ==> got == Some(Guard(i, tag)) && live == old(live)[id := Guard(i, tag)] &&
                           slots[..] == old(slots[..])[i := Pack(tag, CountOf(old(slots[i])) + 1)]
        decreases if done then 0 else 1
      {
        var w := slots[i];
        if w != 0 && TagOf(w) != tag { return; }
        var count := CountOf(w);
        if count >= limit || count >= COUNT_MASK { return; }
        var seen;
        done, seen := CompareExchange(i, w, Pack(tag, count + 1));
        if done {
          got := Some(Guard(i, tag));
          live := live[id := got.value];
        }
      }
    }

    /** `Guard::drop`: gives back the guard known as `id`. */
    method Release(g: Guard, ghost id: nat)
      requires Valid() && id in live && live[id] == g
      modifies this, slots
      ensures Valid() && live == old(live) - {id}
      ensures CountOf(old(slots[g.slot])) > 0
      ensures slots[..] == old(slots[..])[g.slot := Pack(g.tag, CountOf(old(slots[g.slot])) - 1)]
    {
      ReleaseKeeps(slots[..], live, cap, id);
      var done := false;
      while !done
        invariant live == old(live) && (!done ==> slots[..] == old(slots[..]))
        invariant done ==> slots[..] == Released(old(slots[..]), g.slot, g.tag)
        decreases if done then 0 else 1
      {
        var w := slots[g.slot];
        if TagOf(w) != g.tag || CountOf(w) == 0 {
          done := true;
        } else {
          var seen;
          done, seen := CompareExchange(g.slot, w, Pack(g.tag, CountOf(w) - 1));
        }
      }
      live := live - {id};
    }

    method Count(tag: Tag) returns (count: nat)
      requires Valid()
      ensures count == |Of(live, tag)| <= Allowed(cap, tag)
    {
      CountIsLive(slots[..], live, cap, tag);
      var p := 0;
      while p < PROBE
        invariant 0 <= p <= PROBE
        invariant CountFrom(slots[..], tag, 0) == CountFrom(slots[..], tag, p)
      {
        var w := slots[Position(slots.Length, tag, p)];
        if w == 0 { return 0; }
        if TagOf(w) == tag { return CountOf(w); }
        p := p + 1;
      }
      return 0;
    }
  }

  function SlotOf(got: Option<Guard>): Option<nat> {
    match got case None => None case Some(g) => Some(g.slot)
  }
}
