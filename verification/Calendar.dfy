/** The latency oracle's calendar: day numbers from dates and back. */
module Calendar {
  import opened Wrappers

  predicate Leap(year: int) { year % 4 == 0 && (year % 100 != 0 || year % 400 == 0) }

  /** Section 5.7 of RFC 3339. */
  function DaysInMonth(year: int, month: int): int
  {
    if month == 2 then (if Leap(year) then 29 else 28)
    else if month == 4 || month == 6 || month == 9 || month == 11 then 30
    else 31
  }

  predicate ValidDate(year: int, month: int, day: int)
  {
    1 <= month <= 12 && 1 <= day <= DaysInMonth(year, month)
  }

  // ------------------------------------------------------------ the source

  /** Years are counted from March, so that a leap day comes last. */
  function MarchYear(year: int, month: int): int { if month <= 2 then year - 1 else year }

  function MarchMonth(month: int): int { (month + 9) % 12 }

  function DayOfYear(mp: int, day: int): int { (153 * mp + 2) / 5 + day - 1 }

  function DayOfEra(yoe: int, doy: int): int { yoe * 365 + yoe / 4 - yoe / 100 + doy }

  /** Days from 1970-01-01, as `parse_timestamp` computes them. */
  function DayNumber(year: int, month: int, day: int): int
  {
    var y := MarchYear(year, month);
    var era := y / 400;
    era * 146_097 + DayOfEra(y - era * 400, DayOfYear(MarchMonth(month), day)) - 719_468
  }

  function YearOfEra(doe: int): int { (doe - doe / 1_460 + doe / 36_524 - doe / 146_096) / 365 }

  function FromDayOfYear(doy: int): (int, int)
  {
    var mp := (5 * doy + 2) / 153;
    (if mp < 10 then mp + 3 else mp - 9, doy - (153 * mp + 2) / 5 + 1)
  }

  function FromDayOfEra(doe: int): (int, int)
  {
    var yoe := YearOfEra(doe);
    FromDayOfYear(doe - (365 * yoe + yoe / 4 - yoe / 100))
  }

  /** Month and day of a day number, as `clock` computes them. */
  function MonthAndDay(days: int): (int, int)
  {
    var z := days + 719_468;
    FromDayOfEra(z - z / 146_097 * 146_097)
  }

  datatype Fields = Fields(year: int, month: int, day: int, hour: int, minute: int, second: real)

  /** `parse_timestamp`, from the fields it splits out: seconds since the epoch. */
  function ParseTimestamp(f: Fields): Option<real>
  {
    if !(1 <= f.month <= 12) || !(1 <= f.day <= 31) || f.hour > 23 || f.minute > 59 then None
    else Some((DayNumber(f.year, f.month, f.day) * 86_400 + f.hour * 3_600 + f.minute * 60) as real + f.second)
  }

  datatype Reading = Reading(month: int, day: int, hours: int, minutes: int, seconds: real)

  function Clock(at: real): Reading
  {
    var days := (at / 86_400.0).Floor;
    var inDay := at - days as real * 86_400.0;
    var hours := (inDay / 3_600.0).Floor;
    var minutes := ((inDay - hours as real * 3_600.0) / 60.0).Floor;
    var seconds := inDay - (inDay / 60.0).Floor as real * 60.0;
    var (month, day) := MonthAndDay(days);
    Reading(month, day, hours, minutes, seconds)
  }

  // ----------------------------------------------------- the day of the year

  /** Length of a month of the March year; the last one may have a day more. */
  function MarchMonthLength(mp: int): int
  {
    if mp == 11 then 29 else if mp == 1 || mp == 3 || mp == 6 || mp == 8 then 30 else 31
  }

  lemma MonthFromDayOfYear(mp: int, day: int)
    requires 0 <= mp <= 11 && 1 <= day <= MarchMonthLength(mp)
    ensures FromDayOfYear(DayOfYear(mp, day)) == (if mp < 10 then mp + 3 else mp - 9, day)
    ensures 0 <= DayOfYear(mp, day) <= 365
    ensures DayOfYear(mp, day) == 365 <==> mp == 11 && day == 29
  {
    MonthStartIs(mp);
    var doy := DayOfYear(mp, day);
    assert doy == MonthStart(mp) + day - 1;
    hide DayOfYear;
    assert 153 * mp <= 5 * doy + 2 < 153 * mp + 153;
    Quotient153(5 * doy + 2, mp);
    assert FromDayOfYear(doy) == (if mp < 10 then mp + 3 else mp - 9, doy - MonthStart(mp) + 1);
  }

  function MonthStart(mp: int): int
  {
    match mp
    case 0 => 0 case 1 => 31 case 2 => 61 case 3 => 92 case 4 => 122 case 5 => 153
    case 6 => 184 case 7 => 214 case 8 => 245 case 9 => 275 case 10 => 306 case _ => 337
  }

  lemma MonthStartIs(mp: int)
    requires 0 <= mp <= 11
    ensures (153 * mp + 2) / 5 == MonthStart(mp)
    ensures 153 * mp <= 5 * MonthStart(mp) + 2 && 5 * (MonthStart(mp) + MarchMonthLength(mp) - 1) + 2 < 153 * mp + 153
  {
    var five := MonthStart(mp);
    assert 5 * five <= 153 * mp + 2 < 5 * five + 5;
  }

  lemma Quotient153(n: int, q: int)
    requires 153 * q <= n < 153 * q + 153
    ensures n / 153 == q
  {}

  // ------------------------------------------------------ the year of the era

  /** A March year of the era has 366 days exactly when it ends in a leap February. */
  predicate LongYear(yoe: int) { Leap(yoe + 1) }

  /** The era's years, split as centuries, four-year groups and a rest, where every term is linear. */
  lemma YearFromParts(c: int, q: int, r: int, doy: int)
    requires 0 <= c <= 3 && 0 <= q <= 24 && 0 <= r <= 3 && 0 <= doy <= 365
    requires doy == 365 ==> r == 3 && (q < 24 || c == 3)
    ensures YearOfEra(36_524 * c + 1_461 * q + 365 * r + doy) == 100 * c + 4 * q + r
    ensures 0 <= 36_524 * c + 1_461 * q + 365 * r + doy < 146_097
  {
    var doe := 36_524 * c + 1_461 * q + 365 * r + doy;
    var e := if 24 * c + q + 365 * r + doy >= 1_460 then 1 else 0;
    assert doe / 1_460 == 25 * c + q + e;
    if doe < 146_096 {
      assert doe / 36_524 == c;
      assert doe / 146_096 == 0;
    } else {
      assert c == 3 && q == 24 && r == 3 && doy == 365;
    }
  }

  lemma EraParts(yoe: int, doy: int) returns (c: int, q: int, r: int)
    requires 0 <= yoe < 400
    ensures 0 <= c <= 3 && 0 <= q <= 24 && 0 <= r <= 3 && yoe == 100 * c + 4 * q + r
    ensures DayOfEra(yoe, doy) == 36_524 * c + 1_461 * q + 365 * r + doy
    ensures LongYear(yoe) ==> r == 3 && (q < 24 || c == 3)
  {
    c := yoe / 100;
    q, r := yoe % 100 / 4, yoe % 4;
    assert yoe / 4 == 25 * c + q;
  }

  lemma YearFromDayOfEra(yoe: int, doy: int)
    requires 0 <= yoe < 400 && 0 <= doy <= 365 && (doy == 365 ==> LongYear(yoe))
    ensures YearOfEra(DayOfEra(yoe, doy)) == yoe && 0 <= DayOfEra(yoe, doy) < 146_097
  {
    hide *;
    var c, q, r := EraParts(yoe, doy);
    YearFromParts(c, q, r, doy);
  }

  lemma FromDayOfEraIs(yoe: int, doy: int)
    requires YearOfEra(DayOfEra(yoe, doy)) == yoe
    ensures FromDayOfEra(DayOfEra(yoe, doy)) == FromDayOfYear(doy)
  {
    hide YearOfEra, FromDayOfYear;
  }

  // --------------------------------------------------------------- the inverse

  lemma EraDrops(era: int, doe: int)
    requires 0 <= doe < 146_097
    ensures MonthAndDay(era * 146_097 + doe - 719_468) == FromDayOfEra(doe)
  {
    hide FromDayOfEra;
    assert (era * 146_097 + doe) / 146_097 == era;
  }

  /** Taking a day number apart again, era by era. */
  lemma MonthAndDayFromParts(era: int, yoe: int, mp: int, day: int)
    requires 0 <= yoe < 400 && 0 <= mp <= 11 && 1 <= day <= MarchMonthLength(mp)
    requires mp == 11 && day == 29 ==> LongYear(yoe)
    ensures MonthAndDay(era * 146_097 + DayOfEra(yoe, DayOfYear(mp, day)) - 719_468)
            == (if mp < 10 then mp + 3 else mp - 9, day)
  {
    hide *;
    MonthFromDayOfYear(mp, day);
    var doy := DayOfYear(mp, day);
    YearFromDayOfEra(yoe, doy);
    FromDayOfEraIs(yoe, doy);
    EraDrops(era, DayOfEra(yoe, doy));
  }

  /** For a valid date, `clock` finds the month and day `parse_timestamp` was given. */
  lemma MonthAndDayOfValid(year: int, month: int, day: int)
    requires ValidDate(year, month, day)
    ensures MonthAndDay(DayNumber(year, month, day)) == (month, day)
  {
    var y, mp := MarchYear(year, month), MarchMonth(month);
    var era := y / 400;
    hide MonthAndDay, DayOfEra, DayOfYear, Leap;
    MarchMonthIs(month);
    LeapInEra(y + 1, era);
    assert LongYear(y - era * 400) <==> Leap(y + 1);
    MonthAndDayFromParts(era, y - era * 400, mp, day);
  }

  lemma MarchMonthIs(month: int)
    requires 1 <= month <= 12
    ensures MarchMonth(month) == if month <= 2 then month + 9 else month - 3
    ensures month != 2 ==> forall year :: MarchMonthLength(MarchMonth(month)) == DaysInMonth(year, month)
  {}

  lemma LeapInEra(year: int, era: int)
    ensures Leap(year - 400 * era) == Leap(year)
  {
    RemainderOf4(year, 100 * era);
    RemainderOf100(year, 4 * era);
    RemainderOf400(year, era);
  }

  lemma RemainderOf4(y: int, k: int)
    ensures (y - 4 * k) % 4 == y % 4
  {
    assert y - 4 * k == 4 * (y / 4 - k) + y % 4;
  }

  lemma RemainderOf100(y: int, k: int)
    ensures (y - 100 * k) % 100 == y % 100
  {
    assert y - 100 * k == 100 * (y / 100 - k) + y % 100;
  }

  lemma RemainderOf400(y: int, k: int)
    ensures (y - 400 * k) % 400 == y % 400
  {
    assert y - 400 * k == 400 * (y / 400 - k) + y % 400;
  }

  // ----------------------------------------------------------- consecutive days

  function YearStart(y: int): int { 365 * y + y / 4 - y / 100 + y / 400 }

  lemma EraIsYearStart(y: int)
    ensures y / 400 * 146_097 + DayOfEra(y - y / 400 * 400, 0) == YearStart(y)
  {
    var era := y / 400;
    var yoe := y - era * 400;
    assert y / 4 == 100 * era + yoe / 4;
    assert y / 100 == 4 * era + yoe / 100;
  }

  lemma DayNumberFromYearStart(year: int, month: int, day: int)
    ensures DayNumber(year, month, day)
            == YearStart(MarchYear(year, month)) + DayOfYear(MarchMonth(month), day) - 719_468
  {
    EraIsYearStart(MarchYear(year, month));
  }

  function NextMonth(year: int, month: int): (int, int) { if month == 12 then (year + 1, 1) else (year, month + 1) }

  lemma MarchMonthsFollow(mp: int)
    requires 0 <= mp <= 10
    ensures DayOfYear(mp + 1, 1) == DayOfYear(mp, 1) + MarchMonthLength(mp)
  {
    if mp < 6 {
      if mp == 0 {} else if mp == 1 {} else if mp == 2 {} else if mp == 3 {} else if mp == 4 {} else { assert mp == 5; }
    } else {
      if mp == 6 {} else if mp == 7 {} else if mp == 8 {} else if mp == 9 {} else { assert mp == 10; }
    }
  }

  lemma Step4(y: int)
    ensures y / 4 - (y - 1) / 4 == if y % 4 == 0 then 1 else 0
  {
    var q, t := y / 4, y % 4;
    assert y - 1 == if t == 0 then 4 * (q - 1) + 3 else 4 * q + (t - 1);
  }

  lemma Step100(y: int)
    ensures y / 100 - (y - 1) / 100 == if y % 100 == 0 then 1 else 0
  {
    var q, t := y / 100, y % 100;
    assert y - 1 == if t == 0 then 100 * (q - 1) + 99 else 100 * q + (t - 1);
  }

  lemma Step400(y: int)
    ensures y / 400 - (y - 1) / 400 == if y % 400 == 0 then 1 else 0
  {
    var q, t := y / 400, y % 400;
    assert y - 1 == if t == 0 then 400 * (q - 1) + 399 else 400 * q + (t - 1);
  }

  lemma RoundYears(y: int)
    ensures y % 100 == 0 ==> y % 4 == 0
    ensures y % 400 == 0 ==> y % 100 == 0
  {
    if y % 100 == 0 {
      RemainderOf4(y, 25 * (y / 100));
    }
    if y % 400 == 0 {
      RemainderOf100(y, 4 * (y / 400));
    }
  }

  lemma YearsFollow(y: int)
    ensures YearStart(y) == YearStart(y - 1) + (if Leap(y) then 366 else 365)
  {
    Step4(y);
    Step100(y);
    Step400(y);
    RoundYears(y);
  }

  /** The day after the last of a month is the first of the next. */
  lemma MonthsFollow(year: int, month: int)
    requires 1 <= month <= 12
    ensures var (y, m) := NextMonth(year, month);
            DayNumber(y, m, 1) == DayNumber(year, month, 1) + DaysInMonth(year, month)
  {
    var (y, m) := NextMonth(year, month);
    DayNumberFromYearStart(year, month, 1);
    DayNumberFromYearStart(y, m, 1);
    MarchMonthIs(month);
    MarchMonthIs(m);
    if month == 2 {
      YearsFollow(year);
      assert DayOfYear(11, 1) == 337 && DayOfYear(0, 1) == 0;
    } else {
      MarchMonthsFollow(MarchMonth(month));
    }
  }

  lemma DayInMonth(year: int, month: int, day: int)
    ensures DayNumber(year, month, day) == DayNumber(year, month, 1) + day - 1
  {}

  function NextDate(year: int, month: int, day: int): (int, int, int)
  {
    if day < DaysInMonth(year, month) then (year, month, day + 1)
    else var (y, m) := NextMonth(year, month); (y, m, 1)
  }

  /** Consecutive dates get consecutive numbers, counted from 1970-01-01. */
  lemma DaysAreConsecutive(year: int, month: int, day: int)
    requires ValidDate(year, month, day)
    ensures var (y, m, d) := NextDate(year, month, day);
            ValidDate(y, m, d) && DayNumber(y, m, d) == DayNumber(year, month, day) + 1
    ensures DayNumber(1970, 1, 1) == 0
  {
    hide DayNumber, Leap;
    DayInMonth(year, month, day);
    if day < DaysInMonth(year, month) {
      DayInMonth(year, month, day + 1);
    } else {
      MonthsFollow(year, month);
    }
    EpochDay();
  }

  lemma EpochDay()
    ensures ValidDate(1970, 1, 1) && DayNumber(1970, 1, 1) == 0
  {}

  /**
    The parser takes any day up to 31. A day beyond the month's end is read as a
    day of the next month, so `clock` returns the given date exactly when it is valid.
   */
  lemma RoundTripIffValid(year: int, month: int, day: int)
    requires 1 <= month <= 12 && 1 <= day <= 31
    ensures MonthAndDay(DayNumber(year, month, day)) == (month, day) <==> ValidDate(year, month, day)
    ensures !ValidDate(year, month, day) ==>
              MonthAndDay(DayNumber(year, month, day))
              == (NextMonth(year, month).1, day - DaysInMonth(year, month))
  {
    hide DayNumber, MonthAndDay, Leap;
    if ValidDate(year, month, day) {
      MonthAndDayOfValid(year, month, day);
    } else {
      SpillOver(year, month, day);
    }
  }

  lemma SpillOver(year: int, month: int, day: int)
    requires 1 <= month <= 12 && DaysInMonth(year, month) < day <= 31
    ensures MonthAndDay(DayNumber(year, month, day)) == (NextMonth(year, month).1, day - DaysInMonth(year, month))
  {
    hide DayNumber, MonthAndDay, Leap;
    var (y, m) := NextMonth(year, month);
    var d := day - DaysInMonth(year, month);
    MonthsFollow(year, month);
    DayInMonth(year, month, day);
    DayInMonth(y, m, d);
    MonthAndDayOfValid(y, m, d);
  }

  // ------------------------------------------------------------- time of day

  lemma FloorIs(x: real, n: int)
    requires n as real <= x < n as real + 1.0
    ensures x.Floor == n
  {}

  lemma TimeOfDay(inDay: real, hour: int, minute: int, second: real)
    requires 0 <= hour <= 23 && 0 <= minute <= 59 && 0.0 <= second < 60.0
    requires inDay == hour as real * 3_600.0 + minute as real * 60.0 + second
    ensures 0.0 <= inDay < 86_400.0
    ensures (inDay / 3_600.0).Floor == hour
    ensures ((inDay - hour as real * 3_600.0) / 60.0).Floor == minute
    ensures (inDay / 60.0).Floor == hour * 60 + minute
  {
    FloorIs(inDay / 3_600.0, hour);
    FloorIs((inDay - hour as real * 3_600.0) / 60.0, minute);
    FloorIs(inDay / 60.0, hour * 60 + minute);
  }

  lemma DayOf(at: real, days: int, inDay: real)
    requires at == days as real * 86_400.0 + inDay && 0.0 <= inDay < 86_400.0
    ensures (at / 86_400.0).Floor == days
  {
    FloorIs(at / 86_400.0, days);
  }

  lemma ClockOf(days: int, inDay: real, hour: int, minute: int, second: real)
    requires 0 <= hour <= 23 && 0 <= minute <= 59 && 0.0 <= second < 60.0
    requires inDay == hour as real * 3_600.0 + minute as real * 60.0 + second
    ensures Clock(days as real * 86_400.0 + inDay)
            == Reading(MonthAndDay(days).0, MonthAndDay(days).1, hour, minute, second)
  {
    hide MonthAndDay;
    TimeOfDay(inDay, hour, minute, second);
    DayOf(days as real * 86_400.0 + inDay, days, inDay);
  }

  lemma FloorBelow(x: real, n: int)
    requires 0.0 <= x < n as real
    ensures 0 <= x.Floor < n
  {}

  /** The hands of the clock stay on its face, whatever the time. */
  lemma ClockIsInRange(at: real)
    ensures 0 <= Clock(at).hours <= 23 && 0 <= Clock(at).minutes <= 59 && 0.0 <= Clock(at).seconds < 60.0
  {
    hide MonthAndDay;
    var inDay := at - (at / 86_400.0).Floor as real * 86_400.0;
    assert 0.0 <= inDay < 86_400.0;
    FloorBelow(inDay / 3_600.0, 24);
    var inHour := inDay - (inDay / 3_600.0).Floor as real * 3_600.0;
    assert 0.0 <= inHour < 3_600.0;
    FloorBelow(inHour / 60.0, 60);
    assert 0.0 <= inDay - (inDay / 60.0).Floor as real * 60.0 < 60.0;
    assert Clock(at).hours == (inDay / 3_600.0).Floor && Clock(at).minutes == (inHour / 60.0).Floor;
  }

  /** The clock shows the time of day that was parsed. */
  lemma ClockOfParsed(f: Fields)
    requires ParseTimestamp(f).Some? && 0 <= f.hour && 0 <= f.minute && 0.0 <= f.second < 60.0
    ensures var date := MonthAndDay(DayNumber(f.year, f.month, f.day));
            Clock(ParseTimestamp(f).value) == Reading(date.0, date.1, f.hour, f.minute, f.second)
  {
    hide DayNumber, Clock, MonthAndDay;
    var days := DayNumber(f.year, f.month, f.day);
    var inDay := f.hour as real * 3_600.0 + f.minute as real * 60.0 + f.second;
    Epoch(days, f.hour, f.minute, f.second);
    ClockOf(days, inDay, f.hour, f.minute, f.second);
  }

  /**
    The parser bounds hours and minutes only from above and seconds not at all.
    Of everything it accepts, the clock shows exactly the valid dates and times as they were given.
   */
  lemma ClockShowsTimestampIff(f: Fields)
    requires ParseTimestamp(f).Some?
    ensures Clock(ParseTimestamp(f).value) == Reading(f.month, f.day, f.hour, f.minute, f.second)
            <==> ValidDate(f.year, f.month, f.day) && 0 <= f.hour && 0 <= f.minute && 0.0 <= f.second < 60.0
  {
    hide DayNumber, Clock, MonthAndDay, ValidDate;
    ClockIsInRange(ParseTimestamp(f).value);
    if 0 <= f.hour && 0 <= f.minute && 0.0 <= f.second < 60.0 {
      ClockOfParsed(f);
      RoundTripIffValid(f.year, f.month, f.day);
    }
  }

  /** One such input: minus one o'clock and 75 seconds on a valid date is the evening before. */
  lemma ParserAcceptsNegativeHours()
    ensures var f := Fields(2026, 10, 31, -1, 30, 75.0);
            ParseTimestamp(f).Some? && Clock(ParseTimestamp(f).value) != Reading(10, 31, -1, 30, 75.0)
  {
    ClockShowsTimestampIff(Fields(2026, 10, 31, -1, 30, 75.0));
  }

  // --------------------------------------------------------- the order of time

  predicate EarlierDate(y: int, m: int, d: int, y': int, m': int, d': int)
  {
    y < y' || (y == y' && (m < m' || (m == m' && d < d')))
  }

  predicate EarlierTime(f: Fields, g: Fields)
  {
    f.hour < g.hour || (f.hour == g.hour && (f.minute < g.minute || (f.minute == g.minute && f.second < g.second)))
  }

  predicate Earlier(f: Fields, g: Fields)
  {
    || EarlierDate(f.year, f.month, f.day, g.year, g.month, g.day)
    || ((f.year, f.month, f.day) == (g.year, g.month, g.day) && EarlierTime(f, g))
  }

  predicate Valid(f: Fields)
  {
    ValidDate(f.year, f.month, f.day) && 0 <= f.hour <= 23 && 0 <= f.minute <= 59 && 0.0 <= f.second < 60.0
  }

  lemma {:induction false} MonthsAscend(year: int, m: int, m': int)
    requires 1 <= m < m' <= 12
    ensures DayNumber(year, m, 1) + DaysInMonth(year, m) <= DayNumber(year, m', 1)
    decreases m'
  {
    hide DayNumber, Leap;
    MonthsFollow(year, m' - 1);
    if m < m' - 1 {
      MonthsAscend(year, m, m' - 1);
    }
  }

  lemma {:induction false} YearsAscend(y: int, m: int, y': int)
    requires y < y' && 1 <= m <= 12
    ensures DayNumber(y, m, 1) + DaysInMonth(y, m) <= DayNumber(y', 1, 1)
    decreases y' - y
  {
    hide DayNumber, Leap;
    MonthsFollow(y, 12);
    if m < 12 {
      MonthsAscend(y, m, 12);
    }
    if y + 1 < y' {
      YearsAscend(y + 1, 1, y');
    }
  }

  lemma DaysAscend(y: int, m: int, d: int, y': int, m': int, d': int)
    requires ValidDate(y, m, d) && ValidDate(y', m', d') && EarlierDate(y, m, d, y', m', d')
    ensures DayNumber(y, m, d) < DayNumber(y', m', d')
  {
    hide DayNumber, Leap;
    DayInMonth(y, m, d);
    DayInMonth(y', m', d');
    if y < y' {
      YearsAscend(y, m, y');
      if m' > 1 {
        MonthsAscend(y', 1, m');
      }
    } else if m < m' {
      MonthsAscend(y, m, m');
    }
  }

  /** What `parse_timestamp` returns, as days and seconds. */
  lemma ParsedIs(f: Fields)
    ensures ParseTimestamp(f).Some? <==> 1 <= f.month <= 12 && 1 <= f.day <= 31 && f.hour <= 23 && f.minute <= 59
    ensures ParseTimestamp(f).Some? ==>
              ParseTimestamp(f).value == DayNumber(f.year, f.month, f.day) as real * 86_400.0
                                         + (f.hour as real * 3_600.0 + f.minute as real * 60.0 + f.second)
  {
    hide DayNumber;
    Epoch(DayNumber(f.year, f.month, f.day), f.hour, f.minute, f.second);
  }

  lemma EpochIsZero()
    ensures ParseTimestamp(Fields(1970, 1, 1, 0, 0, 0.0)) == Some(0.0)
  {
    EpochDay();
  }

  /** On one day, timestamps run in seconds. */
  lemma TimestampsAreSeconds(f: Fields, g: Fields)
    requires ParseTimestamp(f).Some? && ParseTimestamp(g).Some?
    requires (f.year, f.month, f.day) == (g.year, g.month, g.day)
    ensures ParseTimestamp(g).value - ParseTimestamp(f).value
            == (g.hour - f.hour) as real * 3_600.0 + (g.minute - f.minute) as real * 60.0 + (g.second - f.second)
  {
    hide DayNumber;
    ParsedIs(f);
    ParsedIs(g);
  }

  /** The same time on the next day is a day later. */
  lemma NextDayIsADayLater(f: Fields, g: Fields)
    requires ValidDate(f.year, f.month, f.day) && NextDate(f.year, f.month, f.day) == (g.year, g.month, g.day)
    requires ParseTimestamp(f).Some? && (f.hour, f.minute, f.second) == (g.hour, g.minute, g.second)
    ensures ParseTimestamp(g).Some? && ParseTimestamp(g).value - ParseTimestamp(f).value == 86_400.0
  {
    hide DayNumber;
    ParsedIs(f);
    ParsedIs(g);
    DaysAreConsecutive(f.year, f.month, f.day);
  }

  /** A day beyond the end of its month is a day of the next month. */
  lemma DayBeyondTheMonth(f: Fields, g: Fields)
    requires ParseTimestamp(f).Some? && ParseTimestamp(g).Some?
    requires (g.year, g.month) == NextMonth(f.year, f.month) && g.day == f.day - DaysInMonth(f.year, f.month)
    requires (f.hour, f.minute, f.second) == (g.hour, g.minute, g.second)
    ensures ParseTimestamp(f) == ParseTimestamp(g)
  {
    ParsedIs(f);
    ParsedIs(g);
    hide DayNumber, ParseTimestamp;
    MonthsFollow(f.year, f.month);
    DayInMonth(f.year, f.month, f.day);
    DayInMonth(g.year, g.month, g.day);
  }

  lemma DaysOutweighTimes(days: int, days': int, inDay: real, inDay': real)
    requires days < days' && inDay < 86_400.0 && 0.0 <= inDay'
    ensures days as real * 86_400.0 + inDay < days' as real * 86_400.0 + inDay'
  {
    assert days as real + 1.0 <= days' as real;
  }

  lemma InDayBound(f: Fields)
    requires Valid(f)
    ensures 0.0 <= f.hour as real * 3_600.0 + f.minute as real * 60.0 + f.second < 86_400.0
  {
    TimeOfDay(f.hour as real * 3_600.0 + f.minute as real * 60.0 + f.second, f.hour, f.minute, f.second);
  }

  lemma EarlierIsLess(f: Fields, g: Fields)
    requires Valid(f) && Valid(g) && Earlier(f, g)
    ensures ParseTimestamp(f).Some? && ParseTimestamp(g).Some? && ParseTimestamp(f).value < ParseTimestamp(g).value
  {
    ParsedIs(f);
    ParsedIs(g);
    InDayBound(f);
    InDayBound(g);
    var days, days' := DayNumber(f.year, f.month, f.day), DayNumber(g.year, g.month, g.day);
    if EarlierDate(f.year, f.month, f.day, g.year, g.month, g.day) {
      DaysAscend(f.year, f.month, f.day, g.year, g.month, g.day);
      hide DayNumber, ParseTimestamp, ValidDate;
      DaysOutweighTimes(days, days', f.hour as real * 3_600.0 + f.minute as real * 60.0 + f.second,
                        g.hour as real * 3_600.0 + g.minute as real * 60.0 + g.second);
    } else {
      hide DayNumber, ParseTimestamp, ValidDate;
    }
  }

  /** Chronological order is the order of timestamps; so different times have different timestamps. */
  lemma ChronologicalIff(f: Fields, g: Fields)
    requires Valid(f) && Valid(g)
    ensures ParseTimestamp(f).Some? && ParseTimestamp(g).Some?
    ensures Earlier(f, g) <==> ParseTimestamp(f).value < ParseTimestamp(g).value
    ensures f == g <==> ParseTimestamp(f) == ParseTimestamp(g)
  {
    ParsedIs(f);
    ParsedIs(g);
    assert ParseTimestamp(f).Some? && ParseTimestamp(g).Some?;
    hide ParseTimestamp, Valid;
    assert f == g || Earlier(f, g) || Earlier(g, f);
    if Earlier(f, g) {
      EarlierIsLess(f, g);
    } else if Earlier(g, f) {
      EarlierIsLess(g, f);
    }
  }

  // ------------------------------------------------------ every instant is a time

  lemma DayBefore(y: int, m: int, d: int) returns (y': int, m': int, d': int)
    requires ValidDate(y, m, d)
    ensures ValidDate(y', m', d') && NextDate(y', m', d') == (y, m, d)
  {
    if d > 1 {
      y', m', d' := y, m, d - 1;
    } else {
      y', m' := if m == 1 then y - 1 else y, if m == 1 then 12 else m - 1;
      d' := DaysInMonth(y', m');
    }
  }

  /** Every day number is that of a date. */
  lemma {:induction false} DateOf(days: int) returns (y: int, m: int, d: int)
    ensures ValidDate(y, m, d) && DayNumber(y, m, d) == days
    decreases if days < 0 then -days else days
  {
    hide DayNumber, ValidDate, NextDate;
    if days == 0 {
      y, m, d := 1970, 1, 1;
      EpochDay();
    } else if days > 0 {
      y, m, d := DateOf(days - 1);
      DaysAreConsecutive(y, m, d);
      var next := NextDate(y, m, d);
      y, m, d := next.0, next.1, next.2;
    } else {
      y, m, d := DateOf(days + 1);
      y, m, d := DayBefore(y, m, d);
      DaysAreConsecutive(y, m, d);
    }
  }

  lemma SplitTime(inDay: real) returns (hour: int, minute: int, second: real)
    requires 0.0 <= inDay < 86_400.0
    ensures 0 <= hour <= 23 && 0 <= minute <= 59 && 0.0 <= second < 60.0
    ensures inDay == hour as real * 3_600.0 + minute as real * 60.0 + second
  {
    hour := (inDay / 3_600.0).Floor;
    FloorBelow(inDay / 3_600.0, 24);
    var inHour := inDay - hour as real * 3_600.0;
    minute := (inHour / 60.0).Floor;
    FloorBelow(inHour / 60.0, 60);
    second := inHour - minute as real * 60.0;
  }

  /** Every instant is the timestamp of a valid time, which `clock` then shows (`ClockShowsTimestampIff`). */
  lemma EveryInstantIsParsed(at: real) returns (f: Fields)
    ensures Valid(f) && ParseTimestamp(f) == Some(at)
    ensures Clock(at) == Reading(f.month, f.day, f.hour, f.minute, f.second)
  {
    var days := (at / 86_400.0).Floor;
    var inDay := at - days as real * 86_400.0;
    var y, m, d := DateOf(days);
    var hour, minute, second := SplitTime(inDay);
    f := Fields(y, m, d, hour, minute, second);
    assert DaysInMonth(y, m) <= 31;
    ParsedIs(f);
    ClockShowsTimestampIff(f);
    hide DayNumber, ParseTimestamp, ValidDate, Clock;
  }

  lemma Epoch(days: int, hour: int, minute: int, second: real)
    ensures (days * 86_400 + hour * 3_600 + minute * 60) as real + second
            == days as real * 86_400.0 + (hour as real * 3_600.0 + minute as real * 60.0 + second)
  {}
}
