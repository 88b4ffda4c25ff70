/** Calendar days since 1970-01-01, and the HTTP-date of section 5.6.7 of RFC 9110. */
module Date {

  datatype Date = Date(year: int, month: int, day: int)

  // ---- The calendar, as it is defined ----

  predicate Leap(y: int) { y % 4 == 0 && (y % 100 != 0 || y % 400 == 0) }

  function DaysIn(y: int, m: int): int {
    if m == 2 then if Leap(y) then 29 else 28
    else if m in {4, 6, 9, 11} then 30 else 31
  }

  predicate Valid(d: Date) { 1 <= d.month <= 12 && 1 <= d.day <= DaysIn(d.year, d.month) }

  /** The day after. */
  function Next(d: Date): Date {
    if d.day < DaysIn(d.year, d.month) then d.(day := d.day + 1)
    else if d.month < 12 then Date(d.year, d.month + 1, 1)
    else Date(d.year + 1, 1, 1)
  }

  // ---- The algorithm ----

  function YearOfEra(doe: int): int { (doe - doe / 1460 + doe / 36524 - doe / 146096) / 365 }

  /** The day a year of the era starts on; years run from March here. */
  function Start(y: int): int { 365 * y + y / 4 - y / 100 }

  /** A year from March on: year of the era, then day of that year. */
  function FromMarch(era: int, yoe: int, doy: int): Date {
    var mp := (5 * doy + 2) / 153;
    var m := if mp < 10 then mp + 3 else mp - 9;
    Date(yoe + era * 400 + (if m <= 2 then 1 else 0), m, doy - (153 * mp + 2) / 5 + 1)
  }

  function DayOf(era: int, doe: int): Date {
    var yoe := YearOfEra(doe);
    FromMarch(era, yoe, doe - Start(yoe))
  }

  function Civil(z: int): Date { DayOf((z + 719468) / 146097, (z + 719468) % 146097) }

  function AsI32(n: int): int { (n + 0x8000_0000) % 0x1_0000_0000 - 0x8000_0000 }

  /** `civil_from_days`: the year is cut to 32 bits. */
  function CivilFromDays(z: int): Date { Civil(z).(year := AsI32(Civil(z).year)) }

  // ---- The year of the era ----

  predicate LongYear(y: int) { y % 4 == 3 && (y % 100 != 99 || y == 399) }

  function Length(y: int): int { if LongYear(y) then 366 else 365 }

  lemma YearOf(c: int, q: int, r: int, doy: int)
    requires 0 <= c <= 3 && 0 <= q <= 24 && 0 <= r <= 3
    requires 0 <= doy < 365 || (doy == 365 && r == 3 && (q < 24 || c == 3))
    ensures YearOfEra(36524 * c + 1461 * q + 365 * r + doy) == 100 * c + 4 * q + r
  {
    var doe := 36524 * c + 1461 * q + 365 * r + doy;
    var t := 24 * c + q + 365 * r + doy;
    assert doe == 1460 * (25 * c + q) + t && 0 <= t < 2920;
    var big := if doe == 146096 then 1 else 0;
    assert doe / 1460 == 25 * c + q + if t >= 1460 then 1 else 0;
    assert doe / 36524 == c + big && doe / 146096 == big;
  }

  /** Every day of an era lies in the year that the formula names. */
  lemma YearFound(doe: int)
    requires 0 <= doe < 146097
    ensures var y := YearOfEra(doe);
            0 <= y <= 399 && Start(y) <= doe < Start(y) + Length(y)
  {
    var c := if doe / 36524 > 3 then 3 else doe / 36524;
    var inCentury := doe - 36524 * c;
    var q := inCentury / 1461;
    var inQuad := inCentury - 1461 * q;
    var r := if inQuad / 365 > 3 then 3 else inQuad / 365;
    YearOf(c, q, r, inQuad - 365 * r);
    StartOf(c, q, r);
  }

  lemma StartOf(c: int, q: int, r: int)
    requires 0 <= c <= 3 && 0 <= q <= 24 && 0 <= r <= 3
    ensures Start(100 * c + 4 * q + r) == 36524 * c + 1461 * q + 365 * r
    ensures LongYear(100 * c + 4 * q + r) <==> r == 3 && (q < 24 || c == 3)
  {
    var y := 100 * c + 4 * q + r;
    assert y / 4 == 25 * c + q && y / 100 == c && y % 4 == r && y % 100 == 4 * q + r;
  }

  lemma YearUnique(y: int, doe: int)
    requires 0 <= y <= 399 && Start(y) <= doe < Start(y) + Length(y)
    ensures 0 <= doe < 146097 && YearOfEra(doe) == y
  {
    var (c, q, r) := (y / 100, y % 100 / 4, y % 4);
    assert y == 100 * c + 4 * q + r;
    StartOf(c, q, r);
    YearOf(c, q, r, doe - Start(y));
  }

  // ---- Within a year from March ----

  lemma MonthNext(era: int, yoe: int, doy: int)
    requires 0 <= yoe <= 399 && 0 <= doy < Length(yoe)
    ensures Valid(FromMarch(era, yoe, doy))
    ensures doy + 1 < Length(yoe) ==> Next(FromMarch(era, yoe, doy)) == FromMarch(era, yoe, doy + 1)
    ensures doy + 1 == Length(yoe) ==> Next(FromMarch(era, yoe, doy)) == Date(yoe + 1 + era * 400, 3, 1)
  {
    var mp := (5 * doy + 2) / 153;
    LeapYear(era, yoe);
  }

  lemma Shift4(n: int, k: int)
    ensures (n + 4 * k) % 4 == n % 4
  {}

  lemma Shift100(n: int, k: int)
    ensures (n + 100 * k) % 100 == n % 100
  {}

  lemma Shift400(n: int, k: int)
    ensures (n + 400 * k) % 400 == n % 400
  {}

  lemma LeapYear(era: int, yoe: int)
    requires 0 <= yoe <= 399
    ensures Leap(yoe + 1 + era * 400) <==> LongYear(yoe)
  {
    Shift4(yoe + 1, 100 * era);
    Shift100(yoe + 1, 4 * era);
    Shift400(yoe + 1, era);
    LongYearIs(yoe);
  }

  lemma LongYearIs(yoe: int)
    requires 0 <= yoe <= 399
    ensures LongYear(yoe) <==> Leap(yoe + 1)
  {}

  lemma DayIs(era: int, doe: int, yoe: int)
    requires 0 <= yoe <= 399 && Start(yoe) <= doe < Start(yoe) + Length(yoe)
    ensures DayOf(era, doe) == FromMarch(era, yoe, doe - Start(yoe))
  {
    YearUnique(yoe, doe);
  }

  lemma MarchFirst(era: int, yoe: int)
    ensures FromMarch(era, yoe, 0) == Date(yoe + era * 400, 3, 1)
  {}

  lemma YearStarts(y: int)
    requires 0 <= y < 399
    ensures Start(y + 1) == Start(y) + Length(y)
  {}

  lemma NewYear(era: int, yoe: int)
    requires 0 <= yoe < 399
    ensures DayOf(era, Start(yoe) + Length(yoe)) == Date(yoe + 1 + era * 400, 3, 1)
  {
    YearStarts(yoe);
    DayIs(era, Start(yoe + 1), yoe + 1);
    MarchFirst(era, yoe + 1);
  }

  lemma NewEra(era: int)
    ensures DayOf(era, 0) == Date(era * 400, 3, 1)
  {
    DayIs(era, 0, 0);
    MarchFirst(era, 0);
  }

  /** `d` is day `doy` of a year from March. */
  lemma DayNextIn(era: int, yoe: int, doy: int, d: Date, next: Date)
    requires 0 <= yoe <= 399 && 0 <= doy < Length(yoe) && d == FromMarch(era, yoe, doy)
    requires next == if doy + 1 < Length(yoe) then FromMarch(era, yoe, doy + 1) else Date(yoe + 1 + era * 400, 3, 1)
    ensures Valid(d) && Next(d) == next
  {
    MonthNext(era, yoe, doy);
  }

  lemma LastYear()
    ensures Start(399) + Length(399) == 146097
  {}

  /** The day after day `doe` of an era, by the year it lies in. */
  lemma DayAfter(era: int, doe: int, yoe: int, next: Date)
    requires 0 <= yoe <= 399 && Start(yoe) <= doe < Start(yoe) + Length(yoe)
    requires next == if doe + 1 < 146097 then DayOf(era, doe + 1) else DayOf(era + 1, 0)
    ensures next == if doe + 1 < Start(yoe) + Length(yoe) then FromMarch(era, yoe, doe + 1 - Start(yoe)) else Date(yoe + 1 + era * 400, 3, 1)
  {
    EndOfYear(yoe);
    LastYear();
    if doe + 1 < Start(yoe) + Length(yoe) { DayIs(era, doe + 1, yoe); }
    else if yoe < 399 { NewYear(era, yoe); }
    else { NewEra(era + 1); }
  }

  lemma DayNext(era: int, doe: int, d: Date, next: Date)
    requires 0 <= doe < 146097 && d == DayOf(era, doe)
    requires next == if doe + 1 < 146097 then DayOf(era, doe + 1) else DayOf(era + 1, 0)
    ensures Valid(d) && Next(d) == next
  {
    var yoe := YearOfEra(doe);
    YearFound(doe);
    DayIs(era, doe, yoe);
    DayAfter(era, doe, yoe, next);
    DayNextIn(era, yoe, doe - Start(yoe), d, next);
  }

  lemma EndOfYear(yoe: int)
    requires 0 <= yoe <= 399
    ensures Start(yoe) + Length(yoe) <= 146097 && (yoe < 399 ==> Start(yoe) + Length(yoe) < 146097)
  {}

  lemma DivNext(n: int)
    ensures (n + 1) / 146097 == n / 146097 + (if n % 146097 == 146096 then 1 else 0)
    ensures (n + 1) % 146097 == if n % 146097 == 146096 then 0 else n % 146097 + 1
  {}

  lemma SuccessorIn(era: int, doe: int, era': int, doe': int, d: Date, d': Date)
    requires 0 <= doe < 146097 && d == DayOf(era, doe) && d' == DayOf(era', doe')
    requires if doe + 1 < 146097 then era' == era && doe' == doe + 1 else era' == era + 1 && doe' == 0
    ensures Valid(d) && d' == Next(d)
  {
    DayNext(era, doe, d, d');
  }

  /** Every number is a day of the calendar, and the next number the next day. */
  lemma Successor(z: int)
    ensures Valid(Civil(z)) && Civil(z + 1) == Next(Civil(z))
  {
    var (n, n') := (z + 719468, z + 1 + 719468);
    DivNext(n);
    SuccessorIn(n / 146097, n % 146097, n' / 146097, n' % 146097, Civil(z), Civil(z + 1));
  }

  lemma EpochIn(era: int, doe: int)
    requires era == 4 && doe == 135080
    ensures DayOf(era, doe) == Date(1970, 1, 1)
  {
    DayIs(era, doe, 369);
    NewYearsDay(era, 369);
  }

  lemma NewYearsDay(era: int, yoe: int)
    ensures FromMarch(era, yoe, 306) == Date(yoe + era * 400 + 1, 1, 1)
  {}

  lemma Epoch()
    ensures Civil(0) == Date(1970, 1, 1)
  {
    EpochIn(719468 / 146097, 719468 % 146097);
  }

  // ---- Counting days ----

  /** Days from the year 0 to the start of a year. */
  function DaysBefore(y: int): int { 365 * y + (y + 3) / 4 - (y + 99) / 100 + (y + 399) / 400 }

  function MonthStart(y: int, m: int): int
    decreases m
  {
    if m <= 1 then 0 else MonthStart(y, m - 1) + DaysIn(y, m - 1)
  }

  /** Days from 1970-01-01, counted year by year and month by month. */
  function DayNumber(d: Date): int { DaysBefore(d.year) - 719528 + MonthStart(d.year, d.month) + d.day - 1 }

  lemma Ceil4(y: int)
    ensures (y + 4) / 4 == (y + 3) / 4 + if y % 4 == 0 then 1 else 0
  {}

  lemma Ceil100(y: int)
    ensures (y + 100) / 100 == (y + 99) / 100 + if y % 100 == 0 then 1 else 0
    ensures y % 100 == 0 ==> y % 4 == 0
  {}

  lemma Ceil400(y: int)
    ensures (y + 400) / 400 == (y + 399) / 400 + if y % 400 == 0 then 1 else 0
    ensures y % 400 == 0 ==> y % 100 == 0
  {}

  lemma YearCount(y: int)
    ensures DaysBefore(y + 1) == DaysBefore(y) + if Leap(y) then 366 else 365
  {
    Ceil4(y);
    Ceil100(y);
    Ceil400(y);
  }

  lemma MonthStarts(y: int)
    ensures MonthStart(y, 2) == 31
    ensures var f := if Leap(y) then 29 else 28;
            && MonthStart(y, 3) == 31 + f && MonthStart(y, 4) == 62 + f && MonthStart(y, 5) == 92 + f && MonthStart(y, 6) == 123 + f
            && MonthStart(y, 7) == 153 + f && MonthStart(y, 8) == 184 + f && MonthStart(y, 9) == 215 + f && MonthStart(y, 10) == 245 + f
            && MonthStart(y, 11) == 276 + f && MonthStart(y, 12) == 306 + f
  {
    assert MonthStart(y, 1) == 0 && MonthStart(y, 2) == 31;
    assert MonthStart(y, 4) == MonthStart(y, 3) + 31;
    assert MonthStart(y, 6) == MonthStart(y, 5) + 31;
    assert MonthStart(y, 8) == MonthStart(y, 7) + 31;
    assert MonthStart(y, 10) == MonthStart(y, 9) + 30;
    assert MonthStart(y, 12) == MonthStart(y, 11) + 30;
  }

  lemma CountNext(d: Date)
    requires Valid(d)
    ensures DayNumber(Next(d)) == DayNumber(d) + 1
  {
    YearCount(d.year);
    MonthStarts(d.year);
  }

  ghost predicate Link(days: int -> Date, z: int) { Valid(days(z)) && days(z + 1) == Next(days(z)) }

  lemma {:induction false} CountsUp(days: int -> Date, z: int)
    requires z >= 0 && DayNumber(days(0)) == 0 && forall y :: Link(days, y)
    ensures DayNumber(days(z)) == z
    decreases z
  {
    if z > 0 {
      CountsUp(days, z - 1);
      assert Link(days, z - 1);
      CountNext(days(z - 1));
    }
  }

  lemma {:induction false} CountsDown(days: int -> Date, z: int)
    requires z <= 0 && DayNumber(days(0)) == 0 && forall y :: Link(days, y)
    ensures DayNumber(days(z)) == z
    decreases -z
  {
    if z < 0 {
      CountsDown(days, z + 1);
      assert Link(days, z);
      CountNext(days(z));
    }
  }

  lemma EpochCount()
    ensures DayNumber(Civil(0)) == 0
  {
    Epoch();
    assert MonthStart(1970, 1) == 0;
  }

  lemma CivilLinks(z: int)
    ensures Link(Civil, z)
  {
    Successor(z);
  }

  /** The algorithm inverts day counting, before the epoch too. */
  lemma CivilCounts(z: int)
    ensures DayNumber(Civil(z)) == z
  {
    forall y { CivilLinks(y); }
    EpochCount();
    if z >= 0 { CountsUp(Civil, z); } else { CountsDown(Civil, z); }
  }

  lemma Injective(y: int, z: int)
    requires Civil(y) == Civil(z)
    ensures y == z
  {
    CivilCounts(y);
    CivilCounts(z);
  }

  lemma MonthFits(d: Date)
    requires Valid(d)
    ensures 0 <= MonthStart(d.year, d.month) + d.day - 1 < (if Leap(d.year) then 366 else 365)
    ensures d.month < 12 ==> MonthStart(d.year, d.month) + d.day - 1 < MonthStart(d.year, d.month + 1)
  {
    MonthStarts(d.year);
  }

  lemma {:induction false} MonthsGrow(y: int, m: int, n: int)
    requires 1 <= m <= n
    ensures MonthStart(y, m) <= MonthStart(y, n)
    decreases n - m
  {
    if m < n { MonthsGrow(y, m, n - 1); }
  }

  lemma YearsGrow(y: int, w: int)
    requires y < w
    ensures DaysBefore(y + 1) <= DaysBefore(w)
  {}

  lemma YearOfCount(a: Date, b: Date)
    requires Valid(a) && Valid(b) && a.year < b.year
    ensures DayNumber(a) < DayNumber(b)
  {
    MonthFits(a);
    MonthFits(b);
    YearCount(a.year);
    YearsGrow(a.year, b.year);
  }

  lemma MonthOfCount(a: Date, b: Date)
    requires Valid(a) && Valid(b) && a.year == b.year && a.month < b.month
    ensures DayNumber(a) < DayNumber(b)
  {
    MonthFits(a);
    MonthsGrow(a.year, a.month + 1, b.month);
  }

  /** A date's number names that date alone. */
  lemma CountInjective(a: Date, b: Date)
    requires Valid(a) && Valid(b) && DayNumber(a) == DayNumber(b)
    ensures a == b
  {
    if a.year < b.year { YearOfCount(a, b); }
    else if b.year < a.year { YearOfCount(b, a); }
    else if a.month < b.month { MonthOfCount(a, b); }
    else if b.month < a.month { MonthOfCount(b, a); }
  }

  /** Every date of the calendar is reached, by its own number only. */
  lemma CivilOfCount(d: Date)
    ensures Valid(d) <==> Civil(DayNumber(d)) == d
  {
    var z := DayNumber(d);
    Successor(z);
    CivilCounts(z);
    if Valid(d) { CountInjective(Civil(z), d); }
  }

  /** No year within this range is cut. */
  lemma NoYearIsCut(z: int)
    requires -0x8000_0000 <= Civil(z).year < 0x8000_0000
    ensures CivilFromDays(z) == Civil(z)
  {}
}
