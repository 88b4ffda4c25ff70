/** The names in an HTTP-date, letter by letter, and the example of RFC 9110. */
module HttpDateExample {
  import opened Wrappers
  import opened Date
  import opened HttpDate

  function DayName(dow: nat): string {
    match dow
    case 0 => "Sun" case 1 => "Mon" case 2 => "Tue" case 3 => "Wed" case 4 => "Thu" case 5 => "Fri" case _ => "Sat"
  }

  function MonthName(month: nat): string {
    match month
    case 1 => "Jan" case 2 => "Feb" case 3 => "Mar" case 4 => "Apr" case 5 => "May" case 6 => "Jun"
    case 7 => "Jul" case 8 => "Aug" case 9 => "Sep" case 10 => "Oct" case 11 => "Nov" case _ => "Dec"
  }

  /** Where the names stand in the text of a date. */
  lemma NamesStand(dow: nat, d: Date, h: nat, m: nat, s: nat, text: string)
    requires dow < 7 && 1 <= d.month <= 12 && 0 <= d.day < 100 && 1000 <= d.year < 10000 && h < 100 && m < 100 && s < 100
    requires text == Fixdate(dow, d, h, m, s)
    ensures |text| == 29 && text[..3] == DayName(dow) && text[8..11] == MonthName(d.month)
  {
    Columns(dow, d, h, m, s, text);
    Names(dow, d.month);
  }

  lemma Names(dow: nat, month: nat)
    requires dow < 7 && 1 <= month <= 12
    ensures DAYS[dow] == DayName(dow) && MONTHS[month - 1] == MonthName(month)
  {}

  lemma ThatDay(era: int, doe: int)
    requires era == 4 && doe == 144155
    ensures DayOf(era, doe) == Date(1994, 11, 6)
  {
    assert YearOfEra(doe) == 394 && Start(394) == 143905;
  }

  lemma Numerals()
    ensures Pad2(6) == "06" && Pad2(8) == "08" && Pad2(49) == "49" && Pad2(37) == "37" && Decimal(1994) == "1994"
  {
    assert Decimal(4) == "4" && Decimal(3) == "3" && Decimal(1) == "1";
    assert Decimal(19) == Decimal(1) + [Digit(9)];
    assert Decimal(199) == Decimal(19) + [Digit(9)];
    assert Decimal(1994) == Decimal(199) + [Digit(4)];
  }

  lemma Glued(day: string, two: string, month: string, year: string, time: string)
    requires day == "Sun" && two == "06" && month == "Nov" && year == "1994" && time == "08:49:37"
    ensures day + ", " + two + (" " + month + " " + year + " ") + time + " GMT" == "Sun, 06 Nov 1994 08:49:37 GMT"
  {
    assert " " + month + " " + year + " " == " Nov 1994 ";
    assert day + ", " + two == "Sun, 06";
    assert "Sun, 06" + " Nov 1994 " == "Sun, 06 Nov 1994 ";
    assert time + " GMT" == "08:49:37 GMT";
  }

  /** That Sunday's date and time, written out. */
  lemma Written(d: Date)
    requires d == Date(1994, 11, 6)
    ensures Fixdate(0, d, 8, 49, 37) == "Sun, 06 Nov 1994 08:49:37 GMT"
  {
    Numerals();
    Names(0, 11);
    assert TimeText(8, 49, 37) == "08:49:37";
    Glued(DAYS[0], Pad2(6), MONTHS[10], Decimal(1994), TimeText(8, 49, 37));
  }

  lemma ThatSunday(z: int, d: Date)
    requires z == 9075 && d == Civil(z)
    ensures d == Date(1994, 11, 6)
  {
    ThatDay((z + 719468) / 146097, (z + 719468) % 146097);
  }

  /** The example of section 5.6.7 of RFC 9110: the 9075th day after the epoch is a Sunday. */
  lemma RfcExample(z: int, d: Date)
    requires z == 784111777 / DAY && d == Civil(z)
    ensures d == Date(1994, 11, 6) && (z + 4) % 7 == 0 && 784111777 % DAY == 8 * 3600 + 49 * 60 + 37
    ensures Fixdate((z + 4) % 7, d, 8, 49, 37) == "Sun, 06 Nov 1994 08:49:37 GMT"
  {
    assert z == 9075;
    ThatSunday(z, d);
    Written(d);
  }
}
