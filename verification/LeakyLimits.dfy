/** For which limits the leaky bucket keeps its rate. The stored excess has 24 bits; a burst beyond them is
    cut, and what is cut can be admitted again. */
module LeakyLimits {
  import opened Wrappers
  import opened LeakyBucket

  const MILLION: nat := 1_000_000

  /** Any admissions after one fit in the burst and what the rate allows over the time between. */
  ghost predicate InRate(log: seq<Admission>, lim: Limit, i: nat, j: nat)
    requires i < j < |log|
  {
    log[i].at <= log[j].at && 1000 * (j - i) <= lim.burst + lim.rate * (log[j].at - log[i].at) / 1000
  }

  ghost predicate AllInRate(log: seq<Admission>, lim: Limit) {
    forall i: nat, j: nat | i < j < |log| :: InRate(log, lim, i, j)
  }

  /** The rate is kept whatever the requests' times, from any bucket or none. */
  ghost predicate KeepsRate(lim: Limit) {
    forall b: Option<Bucket>, times: seq<nat> | Timed(b, times) :: AllInRate(Log(b, times, lim), lim)
  }

  // ---- When it is kept ----

  /** `g` divides what a request costs and what a millisecond drains, both in thousandths of a unit; and the
      burst is beyond the 24 bits by less than that. */
  ghost predicate Grain(g: nat, lim: Limit) {
    g >= 1 && MILLION % g == 0 && lim.rate % g == 0 && 1000 * (lim.burst - EXCESS_MASK) < g
  }

  /** How many whole grains of the burst are left. */
  function Room(e: nat, lim: Limit, g: nat): int
    requires g >= 1
  {
    (1000 * lim.burst - 1000 * e) / g
  }

  /** From one admission to the `k`-th after it, room is spent at least as much as it is regained. */
  ghost predicate Spends(a: Admission, later: Admission, k: nat, lim: Limit, g: nat)
    requires g >= 1
  {
    a.at <= later.at && Room(later.excess, lim, g) <= Room(a.excess, lim, g) - MILLION / g * k + lim.rate / g * (later.at - a.at)
  }

  lemma WholeGrains(x: int, y: int, n: int, g: nat)
    requires g >= 1 && x <= y + n * g
    ensures x / g <= y / g + n
  {
    var (p, q) := (x / g, y / g);
    Floor(x, g, p);
    Floor(y, g, q);
    if p > q + n { Beyond(p, q + n + 1, g); }
  }

  lemma Floor(x: int, g: nat, p: int)
    requires g >= 1 && p == x / g
    ensures p * g <= x < p * g + g
  {}

  lemma Beyond(p: int, q: int, g: nat)
    requires p >= q
    ensures p * g >= q * g
  {}

  lemma Divides(n: nat, g: nat)
    requires g >= 1 && n % g == 0
    ensures n / g * g == n
  {}

  /** What is stored leaves no more room than what was poured: what is cut is less than a grain. */
  lemma CutIsSmall(excess: nat, lim: Limit, g: nat)
    requires Grain(g, lim) && excess <= lim.burst
    ensures Room(Min(excess, EXCESS_MASK), lim, g) <= Room(excess, lim, g)
  {
    if excess > EXCESS_MASK {
      Small(1000 * (lim.burst - EXCESS_MASK), g);
      NonNegative(1000 * (lim.burst - excess), g);
    }
  }

  lemma Small(x: nat, g: nat)
    requires x < g
    ensures x / g == 0
  {}

  lemma NonNegative(x: nat, g: nat)
    requires g >= 1
    ensures x / g >= 0
  {}

  /** One more request on a stored bucket, where `drained` came off. */
  lemma PouredRoom(prev: nat, drained: nat, lim: Limit, gap: nat, g: nat, cost: nat, gain: nat)
    requires Grain(g, lim) && prev <= EXCESS_MASK && drained * 1000 <= lim.rate * gap
    requires cost * g == MILLION && gain * g == lim.rate * gap
    ensures var (excess, d) := Poured(prev, drained, lim);
            d != Reject ==> excess <= lim.burst && Room(Min(excess, EXCESS_MASK), lim, g) <= Room(prev, lim, g) - cost + gain
  {
    var (excess, d) := Poured(prev, drained, lim);
    if d != Reject {
      CutIsSmall(excess, lim, g);
      assert (gain - cost) * g == gain * g - cost * g;
      WholeGrains(1000 * lim.burst - 1000 * excess, 1000 * lim.burst - 1000 * prev, gain - cost, g);
    }
  }

  lemma Gains(rate: nat, g: nat, gap: nat)
    requires g >= 1 && rate % g == 0
    ensures rate / g * gap * g == rate * gap
  {
    Divides(rate, g);
    var r := rate / g;
    assert r * gap * g == r * g * gap;
  }

  lemma AdmittedSpends(last: Admission, now: nat, lim: Limit, g: nat)
    requires Grain(g, lim) && lim.rate >= 1 && last.at <= now < MS_LIMIT && last.excess <= EXCESS_MASK
    ensures var (b', d) := Checked(Some(Bucket(last.at, last.excess)), now, lim);
            d != Reject ==>
              var a := Admission(now, Excess(b'), now + Wait(d));
              b' == Some(Bucket(now, a.excess)) && Spends(last, a, 1, lim, g) && a.excess <= lim.burst && a.excess <= EXCESS_MASK
  {
    var gap := now - last.at;
    DrainedBound(lim.rate, gap);
    Divides(MILLION, g);
    Gains(lim.rate, g, gap);
    var (excess, d) := Poured(last.excess, Drained(lim.rate, gap), lim);
    CheckedSome(last.at, last.excess, now, lim, Drained(lim.rate, gap), excess, d);
    PouredRoom(last.excess, Drained(lim.rate, gap), lim, gap, g, MILLION / g, lim.rate / g * gap);
  }

  lemma SpendsTrans(a: Admission, b: Admission, c: Admission, k: nat, lim: Limit, g: nat)
    requires g >= 1 && Spends(a, b, k, lim, g) && Spends(b, c, 1, lim, g)
    ensures Spends(a, c, k + 1, lim, g)
  {
    SumOf(lim.rate / g, b.at - a.at, c.at - b.at);
    Once(MILLION / g, k);
  }

  lemma SumOf(r: nat, x: nat, y: nat)
    ensures r * (x + y) == r * x + r * y
  {}

  lemma Once(c: nat, k: nat)
    ensures c * (k + 1) == c * k + c
  {}

  ghost predicate Spending(log: seq<Admission>, lim: Limit, g: nat)
    requires g >= 1
  {
    && (forall i | 0 <= i < |log| :: log[i].excess <= lim.burst && log[i].excess <= EXCESS_MASK)
    && (forall i, j | 0 <= i < j < |log| :: Spends(log[i], log[j], j - i, lim, g))
  }

  lemma SpendingGrows(log: seq<Admission>, a: Admission, lim: Limit, g: nat)
    requires g >= 1 && Spending(log, lim, g) && a.excess <= lim.burst && a.excess <= EXCESS_MASK
    requires log != [] ==> Spends(log[|log| - 1], a, 1, lim, g)
    ensures Spending(log + [a], lim, g)
  {
    var more := log + [a];
    forall i | 0 <= i < |log| ensures Spends(more[i], a, |log| - i, lim, g) {
      if i < |log| - 1 { SpendsTrans(log[i], log[|log| - 1], a, |log| - 1 - i, lim, g); }
    }
    forall i, j | 0 <= i < j < |more| ensures Spends(more[i], more[j], j - i, lim, g) {
      if j < |log| { assert Spends(log[i], log[j], j - i, lim, g); }
    }
  }

  /** A key without a bucket starts from nothing. */
  lemma FirstPasses(now: nat, lim: Limit)
    requires lim.rate >= 1 && now < MS_LIMIT
    ensures Checked(None, now, lim) == (Some(Bucket(now, 0)), Pass)
  {
    assert lim.rate * FIRST_ELAPSED >= FIRST_ELAPSED;
  }

  lemma NextSpends(b: Option<Bucket>, before: Option<Bucket>, log: seq<Admission>, now: nat, lim: Limit, g: nat, d: Decision, b': Option<Bucket>)
    requires Grain(g, lim) && lim.rate >= 1 && now < MS_LIMIT && Spending(log, lim, g) && Follows(b, before, log)
    requires before.Some? ==> before.value.last <= now && before.value.excess <= EXCESS_MASK
    requires (b', d) == Checked(before, now, lim)
    ensures var log' := log + if d == Reject then [] else [Admission(now, Excess(b'), now + Wait(d))];
            Spending(log', lim, g) && Follows(b, b', log')
  {
    if d == Reject {
      assert log + [] == log;
    } else {
      var a := Admission(now, Excess(b'), now + Wait(d));
      if before == None {
        FirstPasses(now, lim);
      } else {
        var last := if log == [] then Admission(before.value.last, before.value.excess, 0) else log[|log| - 1];
        AdmittedSpends(last, now, lim, g);
      }
      SpendingGrows(log, a, lim, g);
    }
  }

  lemma {:induction false} LogSpends(b: Option<Bucket>, times: seq<nat>, lim: Limit, g: nat)
    requires Grain(g, lim) && lim.rate >= 1 && Timed(b, times)
    ensures Spending(Log(b, times, lim), lim, g) && Follows(b, After(b, times, lim), Log(b, times, lim))
    ensures Within(b, times, After(b, times, lim))
  {
    if times != [] {
      var (front, now) := (times[..|times| - 1], times[|times| - 1]);
      LogSpends(b, front, lim, g);
      var before := After(b, front, lim);
      var (b', d) := Checked(before, now, lim);
      NextSpends(b, before, Log(b, front, lim), now, lim, g, d, b');
      StillWithin(b, times, before, lim);
    }
  }

  lemma SpentInRate(a: Admission, b: Admission, k: nat, lim: Limit, g: nat)
    requires Grain(g, lim) && Spends(a, b, k, lim, g) && b.excess <= lim.burst
    ensures 1000 * k <= lim.burst + lim.rate * (b.at - a.at) / 1000
  {
    var gap := b.at - a.at;
    NonNegative(1000 * (lim.burst - b.excess), g);
    Divides(MILLION, g);
    Gains(lim.rate, g, gap);
    Grains(Room(a.excess, lim, g), lim.rate / g * gap, MILLION / g, k, g, 1000 * lim.burst - 1000 * a.excess, lim.rate * gap);
    Thousandths(k, lim.burst, lim.rate * gap);
  }

  /** From grains back to thousandths. */
  lemma Grains(room: int, gain: nat, cost: nat, k: nat, g: nat, left: int, drained: nat)
    requires g >= 1 && cost * g == MILLION && gain * g == drained && room == left / g && room - cost * k + gain >= 0
    ensures MILLION * k <= left + drained
  {
    Floor(left, g, room);
    Beyond(room + gain, cost * k, g);
    Expanded(room, gain, cost, k, g);
  }

  lemma Thousandths(k: nat, burst: nat, drained: nat)
    requires MILLION * k <= 1000 * burst + drained
    ensures 1000 * k <= burst + drained / 1000
  {}

  lemma Expanded(room: int, gain: nat, cost: nat, k: nat, g: nat)
    ensures (room + gain) * g == room * g + gain * g && cost * k * g == cost * g * k
  {}

  /** The rate is kept, even for a burst beyond the 24 bits, where what is cut is less than a grain. */
  lemma GrainKeepsRate(lim: Limit, g: nat)
    requires Grain(g, lim) && lim.rate >= 1
    ensures KeepsRate(lim)
  {
    forall b: Option<Bucket>, times: seq<nat> | Timed(b, times) ensures AllInRate(Log(b, times, lim), lim) {
      LogSpends(b, times, lim, g);
      var log := Log(b, times, lim);
      forall i: nat, j: nat | i < j < |log| ensures InRate(log, lim, i, j) {
        assert Spends(log[i], log[j], j - i, lim, g);
        SpentInRate(log[i], log[j], j - i, lim, g);
      }
    }
  }

  // ---- When it is not ----

  /** Requests that come `n` at a time, `w` milliseconds apart. */
  function Cycles(m: nat, n: nat, w: nat): seq<nat>
    requires n >= 1
  {
    if m == 0 then [] else Cycles(m - 1, n, w) + [(m - 1) / n * w]
  }

  lemma {:induction false} CyclesAt(m: nat, n: nat, w: nat)
    requires n >= 1
    ensures |Cycles(m, n, w)| == m && forall i | 0 <= i < m :: Cycles(m, n, w)[i] == i / n * w
  {
    if m > 0 { CyclesAt(m - 1, n, w); }
  }

  /** In `w` milliseconds less drains than `n` requests cost, but not more than there is; and from the 24 bits
      on, the last of them still fits the burst. */
  ghost predicate Outruns(lim: Limit, n: nat, w: nat) {
    && lim.rate >= 1 && n >= 1 && lim.rate * w < MILLION * n
    && lim.rate * w / 1000 <= EXCESS_MASK + 1000 && Top(n, lim.rate * w / 1000) <= lim.burst
  }

  /** The excess that the first `r` requests after the wait can lead to. */
  function Top(r: nat, drained: nat): int { EXCESS_MASK + 1000 * r - drained }

  /** They have all been admitted. */
  ghost predicate AllAdmitted(b: Option<Bucket>, log: seq<Admission>, m: nat, n: nat, w: nat, drained: nat)
    requires n >= 1
  {
    && m >= 1 && b.Some? && b.value.last == (m - 1) / n * w
    && b.value.excess <= EXCESS_MASK && b.value.excess <= Top((m - 1) % n + 1, drained)
    && |log| == m && forall i | 0 <= i < m :: log[i].at == i / n * w
  }

  /** The next request is the next of its kind, or the first after the wait. */
  lemma NextOfCycle(m: nat, n: nat, w: nat)
    requires m >= 1 && n >= 1
    ensures if m % n == 0 then m / n * w == (m - 1) / n * w + w && (m - 1) % n == n - 1
            else m / n * w == (m - 1) / n * w && m % n == (m - 1) % n + 1
  {
    var (q, r) := ((m - 1) / n, (m - 1) % n);
    Divided(m, n, q, r);
    Once(w, q);
  }

  lemma Divided(m: nat, n: nat, q: nat, r: nat)
    requires m >= 1 && n >= 1 && q == (m - 1) / n && r == (m - 1) % n
    ensures if r + 1 < n then m / n == q && m % n == r + 1 else m / n == q + 1 && m % n == 0
  {
    Parts(m - 1, n);
    Once(n, q);
    if r + 1 < n { QuotientIs(m, n, q, r + 1); } else { QuotientIs(m, n, q + 1, 0); }
  }

  lemma Parts(a: nat, n: nat)
    requires n >= 1
    ensures a == n * (a / n) + a % n
  {}

  lemma QuotientIs(a: nat, n: nat, q: nat, r: nat)
    requires n >= 1 && a == n * q + r && r < n
    ensures a / n == q && a % n == r
  {
    Parts(a, n);
    var (p, t) := (a / n, a % n);
    if p < q { AtMost(p + 1, q, n); Once(n, p); }
    if p > q { AtMost(q + 1, p, n); Once(n, q); }
  }

  lemma AtMost(i: nat, k: nat, w: nat)
    requires i <= k
    ensures i * w <= k * w && w * i <= w * k
  {}

  lemma PouredFits(e: nat, drained: nat, lim: Limit, top: nat)
    requires e <= EXCESS_MASK && e + 1000 - drained <= top <= lim.burst
    ensures Poured(e, drained, lim).1 != Reject && Poured(e, drained, lim).0 <= top
  {}

  lemma AdmitsNext(lim: Limit, n: nat, w: nat, m: nat, b: Option<Bucket>, log: seq<Admission>, b': Option<Bucket>, d: Decision, drained: nat, now: nat)
    requires Outruns(lim, n, w) && drained == lim.rate * w / 1000 && AllAdmitted(b, log, m, n, w, drained)
    requires now == m / n * w && now < MS_LIMIT && (b', d) == Checked(b, now, lim)
    ensures d != Reject && AllAdmitted(b', log + [Admission(now, Excess(b'), now + Wait(d))], m + 1, n, w, drained)
  {
    var Bucket(last, e) := b.value;
    NextOfCycle(m, n, w);
    var gone := if m % n == 0 then drained else 0;
    GoneIs(lim.rate, w, drained);
    assert m % n < n;
    PouredFits(e, gone, lim, Top(m % n + 1, drained));
    var (excess, d1) := Poured(e, gone, lim);
    CheckedSome(last, e, now, lim, gone, excess, d1);
  }

  lemma GoneIs(rate: nat, w: nat, drained: nat)
    requires drained == rate * w / 1000 <= EXCESS_MASK + 1000
    ensures Drained(rate, w) == drained && Drained(rate, 0) == 0
  {
    assert rate * 0 == 0;
  }

  lemma CyclesFront(m: nat, n: nat, w: nat)
    requires m >= 1 && n >= 1
    ensures |Cycles(m, n, w)| == m && Cycles(m, n, w)[..m - 1] == Cycles(m - 1, n, w) && Cycles(m, n, w)[m - 1] == (m - 1) / n * w
  {
    CyclesAt(m - 1, n, w);
  }

  lemma Ordered(i: nat, j: nat, n: nat, w: nat)
    requires i <= j && n >= 1
    ensures i / n * w <= j / n * w
  {
    Parts(i, n);
    Parts(j, n);
    if i / n > j / n { AtMost(j / n + 1, i / n, n); Once(n, j / n); }
    AtMost(i / n, j / n, w);
  }

  lemma {:induction false} CyclesLog(lim: Limit, n: nat, w: nat, m: nat, times: seq<nat>, drained: nat)
    requires Outruns(lim, n, w) && drained == lim.rate * w / 1000 && m >= 1 && m / n * w < MS_LIMIT && times == Cycles(m, n, w)
    ensures AllAdmitted(After(None, times, lim), Log(None, times, lim), m, n, w, drained)
    decreases m
  {
    CyclesFront(m, n, w);
    Ordered(m - 1, m, n, w);
    var (front, now) := (times[..m - 1], times[m - 1]);
    if m == 1 {
      QuotientIs(0, n, 0, 0);
      FirstPasses(0, lim);
    } else {
      CyclesLog(lim, n, w, m - 1, front, drained);
      var b := After(None, front, lim);
      var (b', d) := Checked(b, now, lim);
      AdmitsNext(lim, n, w, m - 1, b, Log(None, front, lim), b', d, drained, now);
    }
  }

  lemma CyclesTimed(m: nat, n: nat, w: nat)
    requires n >= 1 && m / n * w < MS_LIMIT
    ensures Timed(None, Cycles(m, n, w))
  {
    CyclesAt(m, n, w);
    forall i | 0 <= i < m ensures i / n * w < MS_LIMIT { Ordered(i, m, n, w); }
    forall i, j | 0 <= i < j < m ensures i / n * w <= j / n * w { Ordered(i, j, n, w); }
  }

  /** Sooner or later they are too many. */
  lemma CyclesBreak(lim: Limit, n: nat, w: nat, k: nat)
    requires Outruns(lim, n, w) && k >= 1 && (k + 1) * w < MS_LIMIT && (MILLION * n - lim.rate * w) * k > 1000 * lim.burst
    ensures !KeepsRate(lim)
  {
    var m := n * k + 1;
    var times := Cycles(m, n, w);
    LastOfCycles(n, k, w);
    CyclesTimed(m, n, w);
    CyclesLog(lim, n, w, m, times, lim.rate * w / 1000);
    LogBreaks(lim, n, w, k, After(None, times, lim), Log(None, times, lim), lim.rate * w / 1000);
    assert !AllInRate(Log(None, times, lim), lim);
  }

  lemma LastOfCycles(n: nat, k: nat, w: nat)
    requires n >= 1 && k >= 1
    ensures n * k >= 1 && n * k / n == k && (n * k + 1) / n <= k + 1 && (n * k + 1) / n * w <= (k + 1) * w
  {
    QuotientIs(n * k, n, k, 0);
    if n == 1 { QuotientIs(n * k + 1, n, k + 1, 0); } else { QuotientIs(n * k + 1, n, k, 1); }
    AtMost((n * k + 1) / n, k + 1, w);
    AtMost(1, k, n);
  }

  lemma LogBreaks(lim: Limit, n: nat, w: nat, k: nat, b: Option<Bucket>, log: seq<Admission>, drained: nat)
    requires n >= 1 && k >= 1 && AllAdmitted(b, log, n * k + 1, n, w, drained)
    requires lim.rate * w < MILLION * n && (MILLION * n - lim.rate * w) * k > 1000 * lim.burst
    ensures !AllInRate(log, lim)
  {
    LastOfCycles(n, k, w);
    TooMany(lim.rate, n, w, k, lim.burst);
    QuotientIs(0, n, 0, 0);
    assert log[0].at == 0 / n * w && log[n * k].at == n * k / n * w;
    assert !InRate(log, lim, 0, n * k);
  }

  lemma TooMany(rate: nat, n: nat, w: nat, k: nat, burst: nat)
    requires rate * w < MILLION * n && (MILLION * n - rate * w) * k > 1000 * burst
    ensures 1000 * (n * k) > burst + rate * (k * w) / 1000
  {
    assert (MILLION * n - rate * w) * k == MILLION * n * k - rate * w * k;
    assert rate * w * k == rate * (k * w);
    assert MILLION * n * k == MILLION * (n * k);
  }

  // ---- Exactly when ----

  /** A burst that is a whole thousand of units beyond the 24 bits is never kept, at any rate. */
  lemma FarBeyond(lim: Limit)
    requires lim.rate >= 1 && lim.burst >= EXCESS_MASK + 1000
    ensures !KeepsRate(lim)
  {
    assert lim.rate * 0 == 0;
    CyclesBreak(lim, 1, 0, lim.burst / 1000 + 1);
  }

  function Gcd(a: nat, b: nat): (g: nat)
    requires a >= 1
    ensures g >= 1
    decreases b
  {
    if b == 0 then a else Gcd(b, a % b)
  }

  lemma {:induction false} GcdDivides(a: nat, b: nat) returns (p: nat, q: nat)
    requires a >= 1
    ensures a == p * Gcd(a, b) && b == q * Gcd(a, b)
    decreases b
  {
    if b == 0 {
      p, q := 1, 0;
    } else {
      var s, t := GcdDivides(b, a % b);
      p, q := a / b * s + t, s;
      Parts(a, b);
      Combined(a / b, s, t, Gcd(a, b));
    }
  }

  lemma Combined(k: int, s: int, t: int, g: int)
    ensures (k * s + t) * g == k * (s * g) + t * g
  {}

  lemma {:induction false} Bezout(a: nat, b: nat) returns (x: int, y: int)
    requires a >= 1
    ensures a * x + b * y == Gcd(a, b)
    decreases b
  {
    if b == 0 {
      x, y := 1, 0;
    } else {
      var s, t := Bezout(b, a % b);
      x, y := t, s - a / b * t;
      Parts(a, b);
      Exchanged(a, b, a / b, a % b, s, t);
    }
  }

  lemma Exchanged(a: int, b: int, k: int, r: int, s: int, t: int)
    requires a == b * k + r
    ensures a * t + b * (s - k * t) == b * s + r * t
  {
    assert (b * k + r) * t == b * (k * t) + r * t;
    assert b * (s - k * t) == b * s - b * (k * t);
  }

  /** A number of requests, and of milliseconds, between which exactly one grain is gained. */
  lemma OneGrain(rate: nat, g: nat) returns (n: nat, w: nat)
    requires rate >= 1 && g == Gcd(MILLION, rate)
    ensures n >= 1 && n * g <= rate && w * g <= MILLION && rate * w == MILLION * n - g
  {
    var x, y := Bezout(MILLION, rate);
    var a, c := GcdDivides(MILLION, rate);
    NotZero(a, g);
    NotZero(c, g);
    var k := (x - 1) / c;
    n := (x - 1) % c + 1;
    Reduced(x, c, k, n);
    // rate * (-y - k * a) is MILLION * (x - k * c) - g
    var v := -y - k * a;
    Shifted(a, c, g, x, y, k, rate);
    Positive(rate, v, n, g, a, c);
    w := v;
  }

  lemma NotZero(p: nat, q: nat)
    requires p * q >= 1
    ensures p >= 1
  {}

  lemma Less(w: nat, i: nat, k: nat)
    requires w * i < w * k
    ensures i < k
  {
    if i >= k { AtMost(k, i, w); }
  }

  lemma Reduced(x: int, c: nat, k: int, n: nat)
    requires c >= 1 && k == (x - 1) / c && n == (x - 1) % c + 1
    ensures x == k * c + n && 1 <= n <= c
  {}

  lemma Shifted(a: nat, c: nat, g: nat, x: int, y: int, k: int, rate: nat)
    requires MILLION == a * g && rate == c * g && MILLION * x + rate * y == g
    ensures rate * (-y - k * a) == MILLION * (x - k * c) - g
  {
    assert rate * (-y - k * a) == -(rate * y) - rate * (k * a);
    assert MILLION * (x - k * c) == MILLION * x - MILLION * (k * c);
    assert rate * (k * a) == c * g * (k * a) && MILLION * (k * c) == a * g * (k * c);
    assert c * g * (k * a) == a * g * (k * c);
  }

  lemma Positive(rate: nat, v: int, n: nat, g: nat, a: nat, c: nat)
    requires rate >= 1 && a >= 1 && g >= 1 && MILLION == a * g && rate == c * g && 1 <= n <= c && rate * v == MILLION * n - g
    ensures v >= 0 && v * g <= MILLION && n * g <= rate
  {
    AtMost(1, a, g);
    AtMost(1, n, MILLION);
    assert MILLION * n >= g;
    if v < 0 { Negative(rate, v); }
    AtMost(n, c, g);
    AtMost(n, c, MILLION);
    assert rate * v < MILLION * c;
    assert MILLION * c == rate * a by { assert a * g * c == c * g * a; }
    Less(rate, v, a);
    AtMost(v, a, g);
  }

  lemma Negative(rate: nat, v: int)
    requires rate >= 1 && v < 0
    ensures rate * v < 0
  {}

  /** Where one grain is 200 thousandths or more, and the rate at most 16777 grains: the rate is kept exactly
      when the burst is beyond the 24 bits by less than one grain. */
  lemma KeptExactly(lim: Limit, g: nat)
    requires lim.rate >= 1 && g == Gcd(MILLION, lim.rate) && g >= 200 && lim.rate <= 16777 * g
    ensures KeepsRate(lim) <==> 1000 * (lim.burst - EXCESS_MASK) < g
  {
    var a, c := GcdDivides(MILLION, lim.rate);
    if 1000 * (lim.burst - EXCESS_MASK) < g {
      Multiple(MILLION, a, g);
      Multiple(lim.rate, c, g);
      GrainKeepsRate(lim, g);
    } else if lim.burst >= EXCESS_MASK + 1000 {
      FarBeyond(lim);
    } else {
      var n, w := OneGrain(lim.rate, g);
      GrainOutruns(lim, g, n, w);
      var k := 1000 * lim.burst / g + 1;
      EnoughOf(1000 * lim.burst, g, k);
      SoonEnough(k, w, g);
      CyclesBreak(lim, n, w, k);
    }
  }

  lemma Multiple(x: nat, p: nat, g: nat)
    requires g >= 1 && x == p * g
    ensures x % g == 0
  {
    QuotientIs(x, g, p, 0);
  }

  lemma GrainOutruns(lim: Limit, g: nat, n: nat, w: nat)
    requires lim.rate >= 1 && g >= 1 && lim.rate <= 16777 * g && n >= 1 && n * g <= lim.rate && lim.rate * w == MILLION * n - g
    requires 1000 * (lim.burst - EXCESS_MASK) >= g
    ensures Outruns(lim, n, w)
  {
    if n > 16777 { AtMost(16778, n, g); }
  }

  lemma EnoughOf(n: nat, g: nat, k: nat)
    requires g >= 200 && k == n / g + 1
    ensures g * k > n && k * 200 <= n + 200
  {
    Parts(n, g);
    Once(g, n / g);
    AtMost(200, g, n / g);
  }

  lemma SoonEnough(k: nat, w: nat, g: nat)
    requires g >= 200 && w * g <= MILLION && k * 200 <= 1000 * (EXCESS_MASK + 1000) + 200
    ensures (k + 1) * w < MS_LIMIT
  {
    AtMost(200, g, w);
    assert w <= 5000;
    AtMost(w, 5000, k + 1);
  }

  /** Every whole number of requests a second up to 16777 is such a rate. */
  lemma KeptAtWholeRates(lim: Limit, g: nat)
    requires 1000 <= lim.rate <= 16_777_000 && lim.rate % 1000 == 0 && g == Gcd(MILLION, lim.rate)
    ensures KeepsRate(lim) <==> 1000 * (lim.burst - EXCESS_MASK) < g
  {
    var x, y := Bezout(MILLION, lim.rate);
    ThousandDivides(lim.rate, x, y, g);
    KeptExactly(lim, g);
  }

  lemma ThousandDivides(rate: nat, x: int, y: int, g: nat)
    requires rate % 1000 == 0 && MILLION * x + rate * y == g && g >= 1
    ensures g >= 1000
  {
    var s := rate / 1000;
    assert rate * y == 1000 * (s * y);
    assert g == 1000 * (1000 * x + s * y);
  }

  /** A burst is safe at every rate if and only if it fits the 24 bits. */
  lemma SafeExactly(burst: nat, nodelay: bool, delayAfter: nat)
    ensures (forall rate: nat | rate >= 1 :: KeepsRate(Limit(rate, burst, nodelay, delayAfter))) <==> burst <= EXCESS_MASK
  {
    if burst <= EXCESS_MASK {
      forall rate: nat | rate >= 1 ensures KeepsRate(Limit(rate, burst, nodelay, delayAfter)) {
        GrainKeepsRate(Limit(rate, burst, nodelay, delayAfter), 1);
      }
    } else {
      KeptExactly(Limit(1000, burst, nodelay, delayAfter), 1000);
    }
  }

  /** At a thousand requests a second even the smallest burst beyond the 24 bits, 16778 requests, is kept. */
  lemma KeptBeyond(nodelay: bool, delayAfter: nat)
    ensures KeepsRate(Limit(MILLION, 16_778_000, nodelay, delayAfter)) && 16_778_000 > EXCESS_MASK
    ensures !KeepsRate(Limit(1000, 16_778_000, nodelay, delayAfter))
  {
    KeptExactly(Limit(MILLION, 16_778_000, nodelay, delayAfter), MILLION);
    KeptExactly(Limit(1000, 16_778_000, nodelay, delayAfter), 1000);
  }
}
