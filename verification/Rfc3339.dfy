/**
 Points in time as text in the form of section 5.6 of RFC 3339, with whole seconds and a zone of
 whole minutes, for the years 0 to 9999: what Format writes and time.Parse reads back.
 */
module Rfc3339 {
  import opened Options

  /** The offset of the local zone, in minutes. */
  type Zone = z: int | -1440 < z < 1440

  const DAY_SECONDS: int := 86400

  // ---------- The calendar ----------

  predicate Leap(y: nat) {
    y % 4 == 0 && (y % 100 != 0 || y % 400 == 0)
  }

  /** The days from 1 January of year 0 to 1 January of year y. */
  function DaysBeforeYear(y: nat): nat {
    365 * y + (y + 3) / 4 - (y + 99) / 100 + (y + 399) / 400
  }

  /** The days of the year before month m, for m from 1 to 13. */
  function DaysBeforeMonth(leap: bool, m: nat): nat
    requires 1 <= m <= 13
  {
    [0, 31, 59, 90, 120, 151, 181, 212, 243, 273, 304, 334, 365][m - 1] + if leap && m > 2 then 1 else 0
  }

  // 1 January 1970, from which instants count.
  const EPOCH_DAY: int := 719528

  lemma EpochIs1970()
    ensures DaysBeforeYear(1970) == EPOCH_DAY
  {
  }

  lemma FourthYear(y: nat)
    ensures (y + 4) / 4 == (y + 3) / 4 + if y % 4 == 0 then 1 else 0
  {
  }

  lemma HundredthYear(y: nat)
    ensures (y + 100) / 100 == (y + 99) / 100 + if y % 100 == 0 then 1 else 0
  {
  }

  lemma FourHundredthYear(y: nat)
    ensures (y + 400) / 400 == (y + 399) / 400 + if y % 400 == 0 then 1 else 0
  {
  }

  lemma FourTimes(n: nat)
    ensures (4 * n) % 4 == 0
  {
  }

  lemma HundredTimes(n: nat)
    ensures (100 * n) % 100 == 0
  {
  }

  lemma Centuries(y: nat)
    ensures y % 100 == 0 ==> y % 4 == 0
  {
    if y % 100 == 0 {
      var n := y / 100;
      assert y == 4 * (25 * n);
      FourTimes(25 * n);
    }
  }

  lemma FourCenturies(y: nat)
    ensures y % 400 == 0 ==> y % 100 == 0
  {
    if y % 400 == 0 {
      var n := y / 400;
      assert y == 100 * (4 * n);
      HundredTimes(4 * n);
    }
  }

  function YearDays(y: nat): nat {
    if Leap(y) then 366 else 365
  }

  lemma YearLength(y: nat)
    ensures DaysBeforeYear(y + 1) == DaysBeforeYear(y) + YearDays(y)
  {
    FourthYear(y);
    HundredthYear(y);
    FourHundredthYear(y);
    Centuries(y);
    FourCenturies(y);
  }

  lemma YearsAscend(y: nat, z: nat)
    requires y <= z
    ensures DaysBeforeYear(y) <= DaysBeforeYear(z)
  {
    if y == z {
    } else {
      YearLength(z - 1);
      hide DaysBeforeYear;
      YearsAscend(y, z - 1);
    }
  }

  lemma YearGrows(y: nat)
    ensures y <= DaysBeforeYear(y)
    ensures DaysBeforeYear(0) == 0
  {
  }

  /** The year of a day, looking from year y on. */
  function YearFrom(day: nat, y: nat): (r: nat)
    requires DaysBeforeYear(y) <= day
    ensures DaysBeforeYear(r) <= day < DaysBeforeYear(r + 1)
    decreases day - y
  {
    YearGrows(y + 1);
    if day < DaysBeforeYear(y + 1) then y else YearFrom(day, y + 1)
  }

  /** The year of a day. */
  function YearOf(day: nat): (y: nat)
    ensures DaysBeforeYear(y) <= day < DaysBeforeYear(y) + YearDays(y)
    ensures day < DaysBeforeYear(10000) ==> y < 10000
  {
    YearGrows(0);
    var y := YearFrom(day, 0);
    YearLength(y);
    if day < DaysBeforeYear(10000) then
      YearBelow(day, y);
      y
    else y
  }

  lemma YearBelow(day: nat, y: nat)
    requires DaysBeforeYear(y) <= day < DaysBeforeYear(10000)
    ensures y < 10000
  {
    hide DaysBeforeYear;
    if y >= 10000 {
      YearsAscend(10000, y);
    }
  }

  /** The month of a day of the year, looking from month m on. */
  function MonthFrom(leap: bool, day: nat, m: nat): (r: nat)
    requires 1 <= m <= 12 && DaysBeforeMonth(leap, m) <= day < DaysBeforeMonth(leap, 13)
    ensures 1 <= r <= 12 && DaysBeforeMonth(leap, r) <= day < DaysBeforeMonth(leap, r + 1)
    decreases 12 - m
  {
    if day < DaysBeforeMonth(leap, m + 1) then m else MonthFrom(leap, day, m + 1)
  }

  // ---------- Decimal numbers of fixed width ----------

  function Digit(d: nat): char
    requires d < 10
  {
    "0123456789"[d]
  }

  function Two(n: nat): (s: string)
    requires n < 100
    ensures |s| == 2
  {
    [Digit(n / 10), Digit(n % 10)]
  }

  function Four(n: nat): (s: string)
    requires n < 10000
    ensures |s| == 4
  {
    Two(n / 100) + Two(n % 100)
  }

  function DigitOf(c: char): Option<nat> {
    if '0' <= c <= '9' then Some((c - '0') as nat) else None
  }

  function ReadTwo(s: string): (n: Option<nat>)
    requires |s| == 2
    ensures n.Some? ==> n.value < 100
  {
    match (DigitOf(s[0]), DigitOf(s[1]))
    case (Some(a), Some(b)) => Some(10 * a + b)
    case _ => None
  }

  function ReadFour(s: string): (n: Option<nat>)
    requires |s| == 4
    ensures n.Some? ==> n.value < 10000
  {
    match (ReadTwo(s[..2]), ReadTwo(s[2..]))
    case (Some(a), Some(b)) => Some(100 * a + b)
    case _ => None
  }

  lemma DigitRoundTrip(d: nat)
    requires d < 10
    ensures DigitOf(Digit(d)) == Some(d)
  {
  }

  lemma TwoRoundTrip(n: nat)
    requires n < 100
    ensures ReadTwo(Two(n)) == Some(n)
  {
    DigitRoundTrip(n / 10);
    DigitRoundTrip(n % 10);
    hide Digit, DigitOf;
  }

  lemma FourRoundTrip(n: nat)
    requires n < 10000
    ensures ReadFour(Four(n)) == Some(n)
  {
    hide Two, ReadTwo;
    TwoRoundTrip(n / 100);
    TwoRoundTrip(n % 100);
    assert Four(n)[..2] == Two(n / 100) && Four(n)[2..] == Two(n % 100);
  }

  // ---------- Dates, clocks and zones ----------

  datatype Civil = Civil(year: nat, month: nat, day: nat)

  predicate MonthOk(leap: bool, m: nat, d: nat) {
    1 <= m <= 12 && 1 <= d <= DaysBeforeMonth(leap, m + 1) - DaysBeforeMonth(leap, m)
  }

  lemma MonthsAreShort(leap: bool, m: nat)
    requires 1 <= m <= 12
    ensures DaysBeforeMonth(leap, m + 1) - DaysBeforeMonth(leap, m) <= 31
    ensures DaysBeforeMonth(leap, 1) == 0 && DaysBeforeMonth(leap, 13) == if leap then 366 else 365
  {
  }

  function DayNumber(c: Civil): int
    requires MonthOk(Leap(c.year), c.month, c.day)
  {
    DaysBeforeYear(c.year) + DaysBeforeMonth(Leap(c.year), c.month) + c.day - 1
  }

  /** The month and day of day number rest of a year. */
  function CivilIn(year: nat, rest: nat): (c: Civil)
    requires rest < YearDays(year)
    ensures c.year == year && MonthOk(Leap(year), c.month, c.day) && c.day <= 31
    ensures DaysBeforeMonth(Leap(year), c.month) + c.day - 1 == rest
  {
    MonthsAreShort(Leap(year), 1);
    var m := MonthFrom(Leap(year), rest, 1);
    MonthsAreShort(Leap(year), m);
    Civil(year, m, rest - DaysBeforeMonth(Leap(year), m) + 1)
  }

  /** The date of a day. */
  function CivilOf(day: nat): (c: Civil)
    ensures MonthOk(Leap(c.year), c.month, c.day) && c.month <= 12 && c.day <= 31
    ensures DayNumber(c) == day
    ensures day < DaysBeforeYear(10000) ==> c.year < 10000
  {
    CivilIn(YearOf(day), day - DaysBeforeYear(YearOf(day)))
  }

  function DateText(day: nat): (s: string)
    requires day < DaysBeforeYear(10000)
    ensures |s| == 10
  {
    var c := CivilOf(day);
    Four(c.year) + "-" + Two(c.month) + "-" + Two(c.day)
  }

  /** The day of a date, if there is such a date. */
  function ReadDate(s: string): Option<nat>
    requires |s| == 10
  {
    match (ReadFour(s[..4]), ReadTwo(s[5..7]), ReadTwo(s[8..]))
    case (Some(y), Some(m), Some(d)) =>
      if s[4] == '-' == s[7] && MonthOk(Leap(y), m, d) then Some(DayNumber(Civil(y, m, d))) else None
    case _ => None
  }

  lemma DateRoundTrip(day: nat)
    requires day < DaysBeforeYear(10000)
    ensures ReadDate(DateText(day)) == Some(day)
  {
    hide Two, ReadTwo, Four, ReadFour, DaysBeforeYear, CivilOf, MonthOk, DayNumber, Leap;
    var c := CivilOf(day);
    FourRoundTrip(c.year);
    TwoRoundTrip(c.month);
    TwoRoundTrip(c.day);
    var s := DateText(day);
    assert s == Four(c.year) + "-" + Two(c.month) + "-" + Two(c.day);
    assert s[..4] == Four(c.year) && s[5..7] == Two(c.month) && s[8..] == Two(c.day);
  }

  /** The time of day. */
  function ClockText(second: nat): (s: string)
    requires second < DAY_SECONDS
    ensures |s| == 8
  {
    Two(second / 3600) + ":" + Two(second % 3600 / 60) + ":" + Two(second % 60)
  }

  function ReadClock(s: string): Option<nat>
    requires |s| == 8
  {
    match (ReadTwo(s[..2]), ReadTwo(s[3..5]), ReadTwo(s[6..]))
    case (Some(h), Some(m), Some(sec)) =>
      if s[2] == ':' == s[5] && h < 24 && m < 60 && sec < 60 then Some(3600 * h + 60 * m + sec) else None
    case _ => None
  }

  lemma ClockRoundTrip(second: nat)
    requires second < DAY_SECONDS
    ensures ReadClock(ClockText(second)) == Some(second)
  {
    hide Two, ReadTwo;
    var h, m, sec := second / 3600, second % 3600 / 60, second % 60;
    TwoRoundTrip(h);
    TwoRoundTrip(m);
    TwoRoundTrip(sec);
    var s := ClockText(second);
    assert s[..2] == Two(h) && s[3..5] == Two(m) && s[6..] == Two(sec);
  }

  function Minutes(n: nat): (s: string)
    requires n < 1440
    ensures |s| == 5
  {
    Two(n / 60) + ":" + Two(n % 60)
  }

  function ReadMinutes(s: string): Option<nat>
    requires |s| == 5
  {
    match (ReadTwo(s[..2]), ReadTwo(s[3..]))
    case (Some(h), Some(m)) => if s[2] == ':' && h < 24 && m < 60 then Some(60 * h + m) else None
    case _ => None
  }

  function ZoneText(zone: Zone): string {
    if zone == 0 then "Z" else if zone > 0 then "+" + Minutes(zone) else "-" + Minutes(-zone)
  }

  function ReadZone(s: string): Option<int> {
    if s == "Z" then Some(0)
    else if |s| != 6 || ReadMinutes(s[1..]).None? then None
    else if s[0] == '+' then Some(0 + ReadMinutes(s[1..]).value)
    else if s[0] == '-' then Some(0 - ReadMinutes(s[1..]).value)
    else None
  }

  lemma MinutesRoundTrip(n: nat)
    requires n < 1440
    ensures ReadMinutes(Minutes(n)) == Some(n)
  {
    hide Two, ReadTwo;
    TwoRoundTrip(n / 60);
    TwoRoundTrip(n % 60);
    assert Minutes(n)[..2] == Two(n / 60) && Minutes(n)[3..] == Two(n % 60);
  }

  lemma ZoneRoundTrip(zone: Zone)
    ensures ReadZone(ZoneText(zone)) == Some(zone)
  {
    hide Minutes, ReadMinutes;
    if zone == 0 {
    } else {
      var n := if zone > 0 then zone else -zone;
      MinutesRoundTrip(n);
      assert ZoneText(zone)[1..] == Minutes(n);
    }
  }

  // ---------- Instants ----------

  /** The local second, counted from the start of year 0. */
  function LocalSecond(second: int, zone: Zone): int {
    second + EPOCH_DAY * DAY_SECONDS + 60 * zone
  }

  /** The local year has four digits. */
  predicate Writable(second: int, zone: Zone) {
    0 <= LocalSecond(second, zone) < DaysBeforeYear(10000) * DAY_SECONDS
  }

  function Format(second: int, zone: Zone): (s: string)
    requires Writable(second, zone)
    ensures |s| >= 20
  {
    var local := LocalSecond(second, zone);
    DateText(local / DAY_SECONDS) + "T" + ClockText(local % DAY_SECONDS) + ZoneText(zone)
  }

  function Parse(s: string): Option<int> {
    if |s| < 20 || s[10] != 'T' then None
    else
      match (ReadDate(s[..10]), ReadClock(s[11..19]), ReadZone(s[19..]))
      case (Some(day), Some(clock), Some(zone)) =>
        Some((day - EPOCH_DAY) * DAY_SECONDS + clock - 60 * zone)
      case _ => None
  }

  /** Reading back what was written gives the same second, in every zone. */
  lemma TextRoundTrip(second: int, zone: Zone)
    requires Writable(second, zone)
    ensures Parse(Format(second, zone)) == Some(second)
  {
    hide DateText, ReadDate, ClockText, ReadClock, ZoneText, ReadZone;
    var local := LocalSecond(second, zone);
    var day, clock := local / DAY_SECONDS, local % DAY_SECONDS;
    DateRoundTrip(day);
    ClockRoundTrip(clock);
    ZoneRoundTrip(zone);
    var s := Format(second, zone);
    assert s == DateText(day) + "T" + ClockText(clock) + ZoneText(zone);
    assert s[..10] == DateText(day) && s[11..19] == ClockText(clock) && s[19..] == ZoneText(zone);
  }

  lemma YearIs(day: nat, y: nat)
    requires DaysBeforeYear(y) <= day < DaysBeforeYear(y + 1)
    ensures YearOf(day) == y
  {
    hide DaysBeforeYear, YearOf;
    var r := YearOf(day);
    YearLength(r);
    if r < y {
      YearsAscend(r + 1, y);
    } else if y < r {
      YearsAscend(y + 1, r);
    }
  }

  lemma MonthIs(leap: bool, m: nat, day: int, r: nat)
    requires 1 <= m <= 12 && DaysBeforeMonth(leap, m) <= day < DaysBeforeMonth(leap, m + 1)
    requires 1 <= r <= 12 && DaysBeforeMonth(leap, r) <= day < DaysBeforeMonth(leap, r + 1)
    ensures r == m
  {
  }

  lemma CivilInIs(c: Civil, rest: nat)
    requires MonthOk(Leap(c.year), c.month, c.day) && rest < YearDays(c.year)
    requires rest == DaysBeforeMonth(Leap(c.year), c.month) + c.day - 1
    ensures CivilIn(c.year, rest) == c
  {
    hide CivilIn, Leap, DaysBeforeMonth;
    var d := CivilIn(c.year, rest);
    MonthIs(Leap(c.year), c.month, rest, d.month);
  }

  lemma MonthsInYear(leap: bool, m: nat)
    requires 1 <= m <= 12
    ensures 0 <= DaysBeforeMonth(leap, m) <= DaysBeforeMonth(leap, m + 1) <= if leap then 366 else 365
  {
  }

  /** A date is the date of its day. */
  lemma DateIs(c: Civil)
    requires MonthOk(Leap(c.year), c.month, c.day)
    ensures DayNumber(c) >= 0 && CivilOf(DayNumber(c)) == c
  {
    hide YearOf, Leap, DaysBeforeYear, DaysBeforeMonth, CivilIn;
    var rest := DaysBeforeMonth(Leap(c.year), c.month) + c.day - 1;
    MonthsInYear(Leap(c.year), c.month);
    YearLength(c.year);
    YearGrows(c.year);
    YearIs(DayNumber(c), c.year);
    CivilInIs(c, rest);
  }

  /** A date and a time of day in a zone are written digit by digit. */
  lemma WritesDateAndTime(c: Civil, clock: nat, zone: Zone)
    requires c.year < 10000 && MonthOk(Leap(c.year), c.month, c.day) && c.day <= 31 && clock < DAY_SECONDS
    ensures var second := (DayNumber(c) - EPOCH_DAY) * DAY_SECONDS + clock - 60 * zone;
            && Writable(second, zone)
            && Format(second, zone) ==
               Four(c.year) + "-" + Two(c.month) + "-" + Two(c.day) + "T"
               + Two(clock / 3600) + ":" + Two(clock % 3600 / 60) + ":" + Two(clock % 60) + ZoneText(zone)
  {
    hide Leap, DaysBeforeYear, DaysBeforeMonth, CivilOf, DayNumber, Two, Four, ZoneText, MonthOk;
    DateIs(c);
    DayBelow(c);
    var day := DayNumber(c);
    assert (day * DAY_SECONDS + clock) / DAY_SECONDS == day && (day * DAY_SECONDS + clock) % DAY_SECONDS == clock;
  }

  lemma DayBelow(c: Civil)
    requires c.year < 10000 && MonthOk(Leap(c.year), c.month, c.day)
    ensures 0 <= DayNumber(c) < DaysBeforeYear(10000)
  {
    hide Leap, DaysBeforeYear, DaysBeforeMonth;
    MonthsInYear(Leap(c.year), c.month);
    YearLength(c.year);
    YearGrows(c.year);
    YearsAscend(c.year + 1, 10000);
  }

  /** A number of two digits has its tens and its ones, and one of four the two halves. */
  lemma WrittenDigits(n: nat)
    requires n < 100
    ensures Two(n) == [(48 + n / 10) as char, (48 + n % 10) as char]
  {
    DigitIs(n / 10);
    DigitIs(n % 10);
    hide Digit;
  }

  lemma DigitIs(d: nat)
    requires d < 10
    ensures Digit(d) == (48 + d) as char
  {
  }

  /** February has 28 days, or 29 in a leap year, and four months have 30. */
  lemma MonthLengths(leap: bool, m: nat)
    requires 1 <= m <= 12
    ensures DaysBeforeMonth(leap, m + 1) - DaysBeforeMonth(leap, m) ==
            if m == 2 then (if leap then 29 else 28) else if m == 4 || m == 6 || m == 9 || m == 11 then 30 else 31
  {
  }

  /** Two zones as they are written: New York in summer, and India. */
  lemma WrittenZones()
    ensures ZoneText(-240) == ['-', '0', '4', ':', '0', '0'] && ZoneText(330) == ['+', '0', '5', ':', '3', '0']
  {
    hide Two;
    WrittenDigits(4);
    WrittenDigits(0);
    WrittenDigits(5);
    WrittenDigits(30);
  }
}
