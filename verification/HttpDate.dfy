/** The HTTP-date that `append_http_date_of` writes, and how it reads back. */
module HttpDate {
  import opened Wrappers
  import opened Date

  const DAYS: seq<string> := ["Sun", "Mon", "Tue", "Wed", "Thu", "Fri", "Sat"]
  const MONTHS: seq<string> := ["Jan", "Feb", "Mar", "Apr", "May", "Jun", "Jul", "Aug", "Sep", "Oct", "Nov", "Dec"]
  const DAY: int := 86400

  function Digit(n: nat): (c: char)
    requires n < 10
    ensures '0' <= c <= '9' && c as int - '0' as int == n
  {
    ('0' as int + n) as char
  }

  function Decimal(n: nat): (s: string)
    ensures |s| >= 1
  {
    if n < 10 then [Digit(n)] else Decimal(n / 10) + [Digit(n % 10)]
  }

  function Pad2(n: nat): string { (if n < 10 then "0" else "") + Decimal(n) }

  method AppendPad2(n: nat, out: string) returns (out': string)
    ensures out' == out + Pad2(n)
  {
    out' := out;
    if n < 10 { out' := out' + "0"; }
    out' := out' + Decimal(n);
  }

  function TimeText(h: nat, m: nat, s: nat): string { Pad2(h) + ":" + Pad2(m) + ":" + Pad2(s) }

  /** The parts of a date, in the order of `IMF-fixdate`. */
  function Fixdate(dow: nat, d: Date, h: nat, m: nat, s: nat): string
    requires dow < 7 && 1 <= d.month <= 12 && d.day >= 0 && d.year >= 0
  {
    DAYS[dow] + ", " + Pad2(d.day) + (" " + MONTHS[d.month - 1] + " " + Decimal(d.year) + " ") + TimeText(h, m, s) + " GMT"
  }

  predicate InRange(secs: int) { 0 <= secs && 0 <= CivilFromDays(secs / DAY).year }

  function Text(secs: int): string
    requires InRange(secs)
  {
    Successor(secs / DAY);
    var rem := secs % DAY;
    Fixdate((secs / DAY + 4) % 7, CivilFromDays(secs / DAY), rem / 3600, rem % 3600 / 60, rem % 60)
  }

  lemma Longer(out: string, text: string, more: string)
    ensures out + text + more == out + (text + more)
  {}

  method AppendFixdate(dow: nat, d: Date, h: nat, m: nat, s: nat, out: string) returns (out': string)
    requires dow < 7 && 1 <= d.month <= 12 && d.day >= 0 && d.year >= 0
    ensures out' == out + Fixdate(dow, d, h, m, s)
  {
    ghost var head := DAYS[dow] + ", ";
    ghost var month := " " + MONTHS[d.month - 1] + " " + Decimal(d.year) + " ";
    out' := out + (DAYS[dow] + ", ");
    out' := AppendPad2(d.day, out');
    Longer(out, head, Pad2(d.day));
    out' := out' + (" " + MONTHS[if d.month - 1 < 11 then d.month - 1 else 11] + " " + Decimal(d.year) + " ");
    Longer(out, head + Pad2(d.day), month);
    ghost var date := head + Pad2(d.day) + month;
    out' := AppendTime(h, m, s, out');
    Longer(out, date, TimeText(h, m, s));
    out' := out' + " GMT";
    Longer(out, date + TimeText(h, m, s), " GMT");
  }

  method AppendTime(h: nat, m: nat, s: nat, out: string) returns (out': string)
    ensures out' == out + TimeText(h, m, s)
  {
    out' := AppendPad2(h, out);
    out' := out' + ":";
    out' := AppendPad2(m, out');
    out' := out' + ":";
    out' := AppendPad2(s, out');
  }

  /** `secs` is the time in seconds, which may be before the epoch. */
  method AppendHttpDateOf(secs: int, out: string) returns (out': string)
    requires InRange(if secs < 0 then 0 else secs)
    ensures out' == out + Text(if secs < 0 then 0 else secs)
  {
    var t := if secs < 0 then 0 else secs;
    var (days, rem) := (t / DAY, t % DAY);
    var d := CivilFromDays(days);
    Successor(days);
    out' := AppendFixdate((days + 4) % 7, d, rem / 3600, rem % 3600 / 60, rem % 60, out);
  }

  // ---- Reading a fixdate ----

  function DigitAt(s: string, i: nat): (n: Option<nat>)
    ensures n.Some? ==> n.value < 10
  {
    if i < |s| && '0' <= s[i] <= '9' then Some(s[i] as int - '0' as int) else None
  }

  function NumberAt(s: string, i: nat, n: nat): Option<nat> {
    if n == 0 then Some(0)
    else match (NumberAt(s, i, n - 1), DigitAt(s, i + n - 1))
      case (Some(front), Some(last)) => Some(10 * front + last)
      case _ => None
  }

  function IndexOf(names: seq<string>, name: string, i: nat): Option<nat>
    requires i <= |names|
    decreases |names| - i
  {
    if i == |names| then None else if names[i] == name then Some(i) else IndexOf(names, name, i + 1)
  }

  /** The separators a fixdate has in its fixed columns. */
  predicate Framed(s: string) {
    |s| == 29 && s[3..5] == ", " && s[7] == ' ' && s[11] == ' ' && s[16] == ' ' && s[19] == ':' && s[22] == ':' && s[25..] == " GMT"
  }

  /** The time a fixdate names: by its fixed columns, and only if its day name is right. */
  function TimeOf(s: string): Option<int> {
    if !Framed(s) then None
    else match (IndexOf(DAYS, s[..3], 0), NumberAt(s, 5, 2), IndexOf(MONTHS, s[8..11], 0), NumberAt(s, 12, 4), NumberAt(s, 17, 2), NumberAt(s, 20, 2), NumberAt(s, 23, 2))
      case (Some(dow), Some(day), Some(month), Some(year), Some(h), Some(m), Some(sec)) =>
        var z := DayNumber(Date(year, month + 1, day));
        if (z + 4) % 7 == dow then Some(z * DAY + 3600 * h + 60 * m + sec) else None
      case _ => None
  }

  lemma {:induction false} DecimalLength(n: nat, k: nat, low: nat)
    requires k >= 1 && low <= n < 10 * low && low == Power10(k - 1)
    ensures |Decimal(n)| == k
  {
    if k > 1 { DecimalLength(n / 10, k - 1, Power10(k - 2)); }
  }

  function Power10(k: nat): nat { if k == 0 then 1 else 10 * Power10(k - 1) }

  /** `text` stands at column `i` of `s`. */
  ghost predicate Stands(s: string, i: nat, text: string) { i + |text| <= |s| && s[i..i + |text|] == text }

  lemma {:induction false} DecimalReads(s: string, i: nat, n: nat)
    requires Stands(s, i, Decimal(n))
    ensures NumberAt(s, i, |Decimal(n)|) == Some(n)
  {
    var k := |Decimal(n)|;
    assert s[i + k - 1] == s[i..i + k][k - 1] == Digit(n % 10);
    if n >= 10 {
      assert s[i..i + k - 1] == Decimal(n / 10) by { assert s[i..i + k][..k - 1] == s[i..i + k - 1]; }
      DecimalReads(s, i, n / 10);
    } else {
      assert NumberAt(s, i, 0) == Some(0);
    }
  }

  lemma Pad2Is(n: nat)
    requires n < 100
    ensures Pad2(n) == [Digit(n / 10), Digit(n % 10)]
  {
    if n >= 10 { assert Decimal(n / 10) == [Digit(n / 10)]; }
  }

  lemma Pad2Reads(s: string, i: nat, n: nat)
    requires n < 100 && Stands(s, i, Pad2(n))
    ensures NumberAt(s, i, 2) == Some(n)
  {
    Pad2Is(n);
    assert s[i] == s[i..i + 2][0] && s[i + 1] == s[i..i + 2][1];
    assert NumberAt(s, i, 1) == Some(n / 10) by { assert NumberAt(s, i, 0) == Some(0); }
  }

  lemma FourDigits(n: nat)
    requires 1000 <= n < 10000
    ensures |Decimal(n)| == 4
  {
    assert Power10(3) == 1000 by { assert Power10(1) == 10 && Power10(2) == 100; }
    DecimalLength(n, 4, 1000);
  }

  lemma DayNamesDiffer(i: nat)
    requires i < 7
    ensures |DAYS[i]| == 3 && IndexOf(DAYS, DAYS[i], 0) == Some(i)
  {
    FirstIndex(DAYS, i, 0);
  }

  lemma MonthNamesDiffer(i: nat)
    requires i < 12
    ensures |MONTHS[i]| == 3 && IndexOf(MONTHS, MONTHS[i], 0) == Some(i)
  {
    FirstIndex(MONTHS, i, 0);
  }

  lemma {:induction false} FirstIndex(names: seq<string>, i: nat, from: nat)
    requires from <= i < |names| && forall j, k | 0 <= j < k < |names| :: names[j] != names[k]
    ensures IndexOf(names, names[i], from) == Some(i)
    decreases i - from
  {
    if from < i { FirstIndex(names, i, from + 1); }
  }

  /** Where the parts of a fixdate stand. */
  lemma Columns(dow: nat, d: Date, h: nat, m: nat, s: nat, text: string)
    requires dow < 7 && 1 <= d.month <= 12 && 0 <= d.day < 100 && 1000 <= d.year < 10000 && h < 100 && m < 100 && s < 100
    requires text == Fixdate(dow, d, h, m, s)
    ensures |text| == 29 && text[..3] == DAYS[dow] && text[3..5] == ", " && text[7] == ' ' && text[8..11] == MONTHS[d.month - 1]
    ensures text[11] == ' ' && text[16] == ' ' && text[19] == ':' && text[22] == ':' && text[25..] == " GMT"
    ensures Stands(text, 5, Pad2(d.day)) && Stands(text, 12, Decimal(d.year)) && Stands(text, 17, Pad2(h))
    ensures Stands(text, 20, Pad2(m)) && Stands(text, 23, Pad2(s))
  {
    DayNamesDiffer(dow);
    MonthNamesDiffer(d.month - 1);
    Pad2Is(d.day);
    Pad2Is(h);
    Pad2Is(m);
    Pad2Is(s);
    FourDigits(d.year);
  }

  /** The numbers in a fixdate's columns. */
  lemma NumbersRead(dow: nat, d: Date, h: nat, m: nat, s: nat, text: string)
    requires dow < 7 && 1 <= d.month <= 12 && 0 <= d.day < 100 && 1000 <= d.year < 10000 && h < 100 && m < 100 && s < 100
    requires text == Fixdate(dow, d, h, m, s)
    ensures NumberAt(text, 5, 2) == Some(d.day) && NumberAt(text, 12, 4) == Some(d.year)
    ensures NumberAt(text, 17, 2) == Some(h) && NumberAt(text, 20, 2) == Some(m) && NumberAt(text, 23, 2) == Some(s)
  {
    Columns(dow, d, h, m, s, text);
    Pad2Reads(text, 5, d.day);
    FourDigits(d.year);
    DecimalReads(text, 12, d.year);
    Pad2Reads(text, 17, h);
    Pad2Reads(text, 20, m);
    Pad2Reads(text, 23, s);
  }

  lemma PartsRead(dow: nat, d: Date, h: nat, m: nat, s: nat, text: string, z: int)
    requires dow < 7 && 1 <= d.month <= 12 && 0 <= d.day && 0 <= d.year && z == DayNumber(d)
    requires Framed(text) && text[..3] == DAYS[dow] && text[8..11] == MONTHS[d.month - 1]
    requires NumberAt(text, 5, 2) == Some(d.day) && NumberAt(text, 12, 4) == Some(d.year)
    requires NumberAt(text, 17, 2) == Some(h) && NumberAt(text, 20, 2) == Some(m) && NumberAt(text, 23, 2) == Some(s)
    ensures TimeOf(text) == if (z + 4) % 7 == dow then Some(z * DAY + 3600 * h + 60 * m + s) else None
  {
    DayNamesDiffer(dow);
    MonthNamesDiffer(d.month - 1);
  }

  lemma FixdateReads(dow: nat, d: Date, h: nat, m: nat, s: nat, text: string, z: int)
    requires dow < 7 && 1 <= d.month <= 12 && 0 <= d.day < 100 && 1000 <= d.year < 10000 && h < 100 && m < 100 && s < 100
    requires text == Fixdate(dow, d, h, m, s) && z == DayNumber(d)
    ensures TimeOf(text) == if (z + 4) % 7 == dow then Some(z * DAY + 3600 * h + 60 * m + s) else None
  {
    Columns(dow, d, h, m, s, text);
    NumbersRead(dow, d, h, m, s, text);
    PartsRead(dow, d, h, m, s, text, z);
  }

  lemma Clock(rem: nat)
    ensures 3600 * (rem / 3600) + 60 * (rem % 3600 / 60) + rem % 60 == rem
  {}

  lemma ClockReads(z: int, rem: nat, d: Date, text: string)
    requires Valid(d) && 1000 <= d.year < 10000 && DayNumber(d) == z && rem < DAY
    requires text == Fixdate((z + 4) % 7, d, rem / 3600, rem % 3600 / 60, rem % 60)
    ensures TimeOf(text) == Some(z * DAY + rem)
  {
    Clock(rem);
    FixdateReads((z + 4) % 7, d, rem / 3600, rem % 3600 / 60, rem % 60, text, z);
  }

  /** Up to the year 9999 a written date reads back as the same second, with the right day of the week. */
  lemma TextReads(secs: int)
    requires 0 <= secs && 1000 <= Civil(secs / DAY).year < 10000
    ensures InRange(secs) && TimeOf(Text(secs)) == Some(secs)
  {
    var z := secs / DAY;
    NoYearIsCut(z);
    Successor(z);
    CivilCounts(z);
    ClockReads(z, secs % DAY, Civil(z), Text(secs));
  }
}
