/** The leaky bucket of `limit_req`: one request is 1000 units of excess, drained at `rate` units a
    millisecond over 1000. */
module LeakyBucket {
  import opened Wrappers

  const SCALE: nat := 1000
  const U64: nat := 0x1_0000_0000_0000_0000
  const I128_MAX: nat := 0x7FFF_FFFF_FFFF_FFFF_FFFF_FFFF_FFFF_FFFF
  const EXCESS_MASK: nat := 0xFF_FFFF
  const MS_LIMIT: nat := 0x80_0000_0000
  const FIRST_ELAPSED: nat := 18446744073709551

  datatype Decision = Pass | Delay(ms: nat) | Reject

  datatype Limit = Limit(rate: nat, burst: nat, nodelay: bool, delayAfter: nat)

  function Min(a: nat, b: nat): nat { if a < b then a else b }

  function Drained(rate: nat, elapsed: nat): nat { Min(rate * elapsed, I128_MAX) / SCALE }

  /** The new excess and the decision; a rejected request leaves the excess alone. */
  function Step(prev: nat, elapsed: nat, lim: Limit): (nat, Decision) {
    Poured(prev, Drained(lim.rate, elapsed), lim)
  }

  function Poured(prev: nat, drained: nat, lim: Limit): (nat, Decision) {
    var raw := prev - drained + SCALE;
    var excess := (if raw < 0 then 0 else raw) % U64;
    if excess > lim.burst then (prev, Reject)
    else if excess == 0 || lim.nodelay || excess <= lim.delayAfter then (excess, Pass)
    else (excess, Delay(Min((excess - lim.delayAfter) * SCALE, U64 - 1) / (if lim.rate == 0 then 1 else lim.rate)))
  }

  /** When a key was last admitted, and its excess then. */
  datatype Bucket = Bucket(last: nat, excess: nat)

  /** What 39 bits of time and 24 of excess keep. */
  function Stored(now: nat, excess: nat): Bucket { Bucket(now % MS_LIMIT, Min(excess, EXCESS_MASK)) }

  function Excess(b: Option<Bucket>): nat { match b case None => 0 case Some(b) => b.excess }

  function Elapsed(b: Option<Bucket>, now: nat): nat {
    match b case None => FIRST_ELAPSED case Some(b) => if now < b.last then 0 else now - b.last
  }

  /** One request against a key's bucket, or against none. */
  function Checked(b: Option<Bucket>, now: nat, lim: Limit): (Option<Bucket>, Decision) {
    var (excess, decision) := Step(Excess(b), Elapsed(b, now), lim);
    if decision == Reject then (b, Reject) else (Some(Stored(now, excess)), decision)
  }

  // ---- A bucket over time ----

  /** An admitted request: when it came, what the excess became, and when it may start. */
  datatype Admission = Admission(at: nat, excess: nat, start: nat)

  function After(b: Option<Bucket>, times: seq<nat>, lim: Limit): Option<Bucket> {
    if times == [] then b else Checked(After(b, times[..|times| - 1], lim), times[|times| - 1], lim).0
  }

  function Wait(d: Decision): nat { match d case Delay(ms) => ms case _ => 0 }

  function Log(b: Option<Bucket>, times: seq<nat>, lim: Limit): seq<Admission> {
    if times == [] then []
    else
      var (front, now) := (times[..|times| - 1], times[|times| - 1]);
      var (b', d) := Checked(After(b, front, lim), now, lim);
      Log(b, front, lim) + if d == Reject then [] else [Admission(now, Excess(b'), now + Wait(d))]
  }

  /** Time does not go back, and fits what is stored of it. */
  ghost predicate Timed(b: Option<Bucket>, times: seq<nat>) {
    && (forall i | 0 <= i < |times| :: times[i] < MS_LIMIT)
    && (forall i, j | 0 <= i < j < |times| :: times[i] <= times[j])
    && (b.Some? ==> b.value.excess <= EXCESS_MASK && forall i | 0 <= i < |times| :: b.value.last <= times[i])
  }

  ghost predicate Sane(b: Option<Bucket>, times: seq<nat>, lim: Limit) {
    lim.rate >= 1 && lim.burst <= EXCESS_MASK && Timed(b, times)
  }

  /** From one admission to a later one the excess grows by 1000 for each, less what was drained. */
  ghost predicate Drifts(a: Admission, later: Admission, k: nat, rate: nat) {
    && a.at <= later.at
    && later.excess * SCALE + rate * (later.at - a.at) >= a.excess * SCALE + SCALE * SCALE * k
  }

  /** The excess that has to be waited for: none with `nodelay`, and otherwise what is beyond `delayAfter`. */
  function Held(excess: nat, lim: Limit): nat {
    if lim.nodelay || excess <= lim.delayAfter then 0 else excess - lim.delayAfter
  }

  /** The wait is as many whole milliseconds as drain no more than that. */
  ghost predicate OnTime(wait: int, excess: nat, lim: Limit) {
    wait >= 0 && lim.rate * wait <= SCALE * Held(excess, lim) < lim.rate * wait + lim.rate
  }

  ghost predicate Delayed(a: Admission, lim: Limit)
    requires lim.rate >= 1
  {
    a.excess <= lim.burst && OnTime(a.start - a.at, a.excess, lim)
  }

  lemma DrainedBound(rate: nat, elapsed: nat)
    ensures Drained(rate, elapsed) * SCALE <= rate * elapsed
  {}

  lemma PouredBounds(prev: nat, drained: nat, lim: Limit)
    requires lim.rate >= 1 && lim.burst <= EXCESS_MASK && prev <= EXCESS_MASK
    ensures var (excess, d) := Poured(prev, drained, lim);
            d != Reject ==> excess + drained >= prev + SCALE && excess <= lim.burst
    ensures var (excess, d) := Poured(prev, drained, lim);
            d != Reject ==> OnTime(Wait(d), excess, lim)
  {
    var (excess, d) := Poured(prev, drained, lim);
    if d.Delay? { Division((excess - lim.delayAfter) * SCALE, lim.rate, d.ms); }
  }

  /** An admission from a stored bucket drifts by one request. */
  lemma AdmittedDrifts(last: Admission, now: nat, lim: Limit)
    requires lim.rate >= 1 && lim.burst <= EXCESS_MASK && last.at <= now < MS_LIMIT && last.excess <= EXCESS_MASK
    ensures var (b', d) := Checked(Some(Bucket(last.at, last.excess)), now, lim);
            d != Reject ==>
              var a := Admission(now, Excess(b'), now + Wait(d));
              b' == Some(Bucket(now, a.excess)) && Drifts(last, a, 1, lim.rate) && Delayed(a, lim)
  {
    var drained := Drained(lim.rate, now - last.at);
    var (excess, d) := Poured(last.excess, drained, lim);
    CheckedSome(last.at, last.excess, now, lim, drained, excess, d);
    DrainedBound(lim.rate, now - last.at);
    PouredBounds(last.excess, drained, lim);
    PouredDrifts(last, now, lim, drained, excess, Wait(d));
  }

  /** A request on a stored bucket, once it is known what drained and what was poured. */
  lemma CheckedSome(last: nat, e: nat, now: nat, lim: Limit, drained: nat, excess: nat, d: Decision)
    requires last <= now < MS_LIMIT && drained == Drained(lim.rate, now - last) && (excess, d) == Poured(e, drained, lim)
    ensures Checked(Some(Bucket(last, e)), now, lim) ==
            if d == Reject then (Some(Bucket(last, e)), Reject) else (Some(Bucket(now, Min(excess, EXCESS_MASK))), d)
  {}

  lemma PouredDrifts(last: Admission, now: nat, lim: Limit, drained: nat, excess: nat, wait: nat)
    requires lim.rate >= 1 && last.at <= now && drained * SCALE <= lim.rate * (now - last.at)
    ensures excess + drained >= last.excess + SCALE ==> Drifts(last, Admission(now, excess, now + wait), 1, lim.rate)
    ensures excess <= lim.burst && OnTime(wait, excess, lim) ==> Delayed(Admission(now, excess, now + wait), lim)
  {}

  lemma FirstAdmitted(now: nat, lim: Limit)
    requires lim.rate >= 1 && lim.burst <= EXCESS_MASK && now < MS_LIMIT
    ensures Checked(None, now, lim) == (Some(Bucket(now, 0)), Pass) && Delayed(Admission(now, 0, now), lim)
  {
    var p := lim.rate * FIRST_ELAPSED;
    assert p >= FIRST_ELAPSED;
  }

  lemma DriftsTrans(a: Admission, b: Admission, c: Admission, k: nat, rate: nat)
    requires Drifts(a, b, k, rate) && Drifts(b, c, 1, rate)
    ensures Drifts(a, c, k + 1, rate)
  {
    assert rate * (c.at - a.at) == rate * (b.at - a.at) + rate * (c.at - b.at);
  }

  ghost predicate LogOk(log: seq<Admission>, lim: Limit)
    requires lim.rate >= 1
  {
    && (forall i | 0 <= i < |log| :: Delayed(log[i], lim))
    && (forall i, j | 0 <= i < j < |log| :: Drifts(log[i], log[j], j - i, lim.rate))
  }

  ghost predicate Follows(b: Option<Bucket>, b': Option<Bucket>, log: seq<Admission>) {
    if log == [] then b' == b else b' == Some(Bucket(log[|log| - 1].at, log[|log| - 1].excess))
  }

  lemma LogGrows(log: seq<Admission>, a: Admission, lim: Limit)
    requires lim.rate >= 1 && LogOk(log, lim) && Delayed(a, lim) && (log != [] ==> Drifts(log[|log| - 1], a, 1, lim.rate))
    ensures LogOk(log + [a], lim)
  {
    var more := log + [a];
    forall i | 0 <= i < |log| ensures Drifts(more[i], a, |log| - i, lim.rate) {
      if i < |log| - 1 { DriftsTrans(log[i], log[|log| - 1], a, |log| - 1 - i, lim.rate); }
    }
    forall i, j | 0 <= i < j < |more| ensures Drifts(more[i], more[j], j - i, lim.rate) {
      if j < |log| { assert Drifts(log[i], log[j], j - i, lim.rate); }
    }
  }

  /** What one request does to a sane bucket: nothing, or it becomes the admission. */
  lemma CheckedIs(before: Option<Bucket>, now: nat, lim: Limit)
    requires lim.rate >= 1 && lim.burst <= EXCESS_MASK && now < MS_LIMIT
    requires before.Some? ==> before.value.last <= now && before.value.excess <= EXCESS_MASK
    ensures var (b', d) := Checked(before, now, lim);
            var a := Admission(now, Excess(b'), now + Wait(d));
            if d == Reject then b' == before
            else
              && b' == Some(Bucket(now, a.excess)) && Delayed(a, lim)
              && (before.Some? ==> forall start :: Drifts(Admission(before.value.last, before.value.excess, start), a, 1, lim.rate))
  {
    if before == None {
      FirstAdmitted(now, lim);
    } else {
      AdmittedDrifts(Admission(before.value.last, before.value.excess, 0), now, lim);
    }
  }

  lemma LogStep(b: Option<Bucket>, before: Option<Bucket>, log: seq<Admission>, b': Option<Bucket>, d: Decision, a: Admission, lim: Limit)
    requires lim.rate >= 1 && LogOk(log, lim) && Follows(b, before, log)
    requires if d == Reject then b' == before
             else
               && b' == Some(Bucket(a.at, a.excess)) && Delayed(a, lim)
               && (before.Some? ==> forall start :: Drifts(Admission(before.value.last, before.value.excess, start), a, 1, lim.rate))
    ensures var log' := log + if d == Reject then [] else [a];
            LogOk(log', lim) && Follows(b, b', log')
  {
    if d == Reject {
      assert log + [] == log;
    } else {
      if log != [] {
        var last := log[|log| - 1];
        assert Drifts(Admission(before.value.last, before.value.excess, last.start), a, 1, lim.rate);
      }
      LogGrows(log, a, lim);
    }
  }

  lemma NextStep(b: Option<Bucket>, before: Option<Bucket>, log: seq<Admission>, now: nat, lim: Limit)
    requires lim.rate >= 1 && lim.burst <= EXCESS_MASK && now < MS_LIMIT && LogOk(log, lim) && Follows(b, before, log)
    requires before.Some? ==> before.value.last <= now && before.value.excess <= EXCESS_MASK
    ensures var (b', d) := Checked(before, now, lim);
            var log' := log + if d == Reject then [] else [Admission(now, Excess(b'), now + Wait(d))];
            LogOk(log', lim) && Follows(b, b', log')
  {
    CheckedIs(before, now, lim);
    var (b', d) := Checked(before, now, lim);
    LogStep(b, before, log, b', d, Admission(now, Excess(b'), now + Wait(d)), lim);
  }

  lemma {:induction false} LogIsOk(b: Option<Bucket>, times: seq<nat>, lim: Limit)
    requires Sane(b, times, lim)
    ensures LogOk(Log(b, times, lim), lim) && Follows(b, After(b, times, lim), Log(b, times, lim))
    ensures Within(b, times, After(b, times, lim))
  {
    if times != [] {
      var (front, now) := (times[..|times| - 1], times[|times| - 1]);
      LogIsOk(b, front, lim);
      NextStep(b, After(b, front, lim), Log(b, front, lim), now, lim);
      StillWithin(b, times, After(b, front, lim), lim);
    }
  }

  /** A stored bucket is the given one or of one of these times, and holds what was allowed. */
  ghost predicate Within(b: Option<Bucket>, times: seq<nat>, b': Option<Bucket>) {
    b' == b || (times != [] && b'.Some? && b'.value.last <= times[|times| - 1] && b'.value.excess <= EXCESS_MASK)
  }

  lemma StillWithin(b: Option<Bucket>, times: seq<nat>, before: Option<Bucket>, lim: Limit)
    requires Timed(b, times) && times != [] && Within(b, times[..|times| - 1], before)
    ensures Within(b, times, Checked(before, times[|times| - 1], lim).0)
  {}

  /** Any `j - i` admissions after one fit in the burst and what the rate allows over the time between. */
  lemma RateBound(b: Option<Bucket>, times: seq<nat>, lim: Limit, i: nat, j: nat)
    requires Sane(b, times, lim)
    requires i < j < |Log(b, times, lim)|
    ensures var log := Log(b, times, lim);
            log[i].at <= log[j].at && 1000 * (j - i) <= lim.burst - log[i].excess + lim.rate * (log[j].at - log[i].at) / 1000
  {
    LogIsOk(b, times, lim);
    var log := Log(b, times, lim);
    WithinBurst(log[i], log[j], j - i, lim);
  }

  lemma WithinBurst(a: Admission, b: Admission, k: nat, lim: Limit)
    requires lim.rate >= 1 && Drifts(a, b, k, lim.rate) && Delayed(b, lim)
    ensures a.at <= b.at && 1000 * k <= lim.burst - a.excess + lim.rate * (b.at - a.at) / 1000
  {
    Fits(a.excess, b.excess, k, lim.rate * (b.at - a.at), lim.burst);
  }

  lemma Fits(before: nat, after: nat, k: nat, drained: nat, burst: nat)
    requires after * SCALE + drained >= before * SCALE + SCALE * SCALE * k && after <= burst
    ensures 1000 * k <= burst - before + drained / 1000
  {}

  /** Who waits, and for how long: with `nodelay` every admitted request starts at once; without, it waits
      exactly when its excess leaves a millisecond's drain or more beyond `delayAfter`, for as many whole
      milliseconds as drain no more than that. */
  lemma StartsExactly(b: Option<Bucket>, times: seq<nat>, lim: Limit, i: nat)
    requires Sane(b, times, lim) && i < |Log(b, times, lim)|
    ensures var a := Log(b, times, lim)[i];
            var wait := a.start - a.at;
            && (lim.nodelay || a.excess <= lim.delayAfter ==> wait == 0)
            && (!lim.nodelay && a.excess > lim.delayAfter ==>
                  wait >= 0 && lim.rate * wait <= 1000 * (a.excess - lim.delayAfter) < lim.rate * wait + lim.rate)
  {
    LogIsOk(b, times, lim);
    var a := Log(b, times, lim)[i];
    assert Delayed(a, lim);
    if lim.nodelay || a.excess <= lim.delayAfter { NoWait(lim.rate, a.start - a.at); }
  }

  lemma NoWait(rate: nat, wait: int)
    requires rate >= 1 && wait >= 0 && rate * wait <= 0
    ensures wait == 0
  {}

  /** The answer to one request: `Delay` exactly where it is admitted, something is left beyond `delayAfter` and
      there is no `nodelay`. */
  lemma DelayedWhen(b: Option<Bucket>, now: nat, lim: Limit)
    requires lim.rate >= 1 && lim.burst <= EXCESS_MASK
    ensures var (b', d) := Checked(b, now, lim);
            d.Delay? <==> d != Reject && !lim.nodelay && Excess(b') > lim.delayAfter
  {}

  /** Without `nodelay` admitted requests start at the rate, but for what `delayAfter` lets start early. */
  lemma ShapingBound(b: Option<Bucket>, times: seq<nat>, lim: Limit, i: nat, j: nat)
    requires Sane(b, times, lim) && !lim.nodelay
    requires i < j < |Log(b, times, lim)|
    ensures Paced(Log(b, times, lim)[i], Log(b, times, lim)[j], j - i, lim)
  {
    LogIsOk(b, times, lim);
    var log := Log(b, times, lim);
    assert Delayed(log[i], lim) && Delayed(log[j], lim) && Drifts(log[i], log[j], j - i, lim.rate);
    Starts(log[i], log[j], lim, j - i);
  }

  /** The `k`-th admission after `a` starts no earlier than the rate says, to within what was free and a millisecond. */
  ghost predicate Paced(a: Admission, later: Admission, k: nat, lim: Limit) {
    lim.rate * (later.start - a.start) > 1_000_000 * k - 1000 * lim.delayAfter - lim.rate
  }

  lemma Starts(a: Admission, b: Admission, lim: Limit, k: nat)
    requires lim.rate >= 1 && !lim.nodelay && Drifts(a, b, k, lim.rate) && Delayed(a, lim) && Delayed(b, lim)
    ensures Paced(a, b, k, lim)
  {
    Spread(lim.rate, b.at - a.at, a.start - a.at, b.start - b.at);
    assert b.start - a.start == b.at - a.at + (b.start - b.at) - (a.start - a.at);
  }

  lemma Division(n: nat, d: nat, q: nat)
    requires d >= 1 && q == n / d
    ensures d * q <= n < d * q + d
  {}

  lemma Spread(rate: nat, gap: int, wa: int, wb: int)
    ensures rate * (gap + wb - wa) == rate * gap + rate * wb - rate * wa
  {}

  /** A request is admitted exactly when what is left of the excess leaves room for it. */
  lemma AdmittedWhen(b: Bucket, now: nat, lim: Limit)
    requires b.last <= now < MS_LIMIT && b.excess <= EXCESS_MASK && lim.rate < U64
    ensures Checked(Some(b), now, lim).1 != Reject <==> b.excess + 1000 <= lim.burst + lim.rate * (now - b.last) / 1000
  {
    DrainedIs(lim.rate, now - b.last);
    PouredWhen(b.excess, Drained(lim.rate, now - b.last), lim);
  }

  lemma PouredWhen(prev: nat, drained: nat, lim: Limit)
    requires prev <= EXCESS_MASK
    ensures Poured(prev, drained, lim).1 != Reject <==> prev + 1000 <= lim.burst + drained
  {}

  lemma DrainedIs(rate: nat, ms: nat)
    requires rate < U64 && ms < MS_LIMIT
    ensures Drained(rate, ms) == rate * ms / 1000
  {
    assert rate * ms + (U64 - rate) * ms == U64 * ms;
    NonNegative(U64 - rate, ms);
  }

  lemma NonNegative(a: nat, b: nat)
    ensures a * b >= 0
  {}
}
