/** The two DER time forms (time.go), on the proleptic Gregorian calendar. Times are whole
    nanoseconds on the Unix scale. */
module Times {
  import opened Prelude
  import opened Der

  const SECOND: int := 1_000_000_000

  /** time.Truncate(time.Second) */
  function Truncate(t: int): (r: int)
    ensures r <= t < r + SECOND
    ensures r % SECOND == 0
  {
    t - t % SECOND
  }

  // ---------------------------------------------------------------- calendar

  predicate IsLeap(y: nat) {
    y % 4 == 0 && (y % 100 != 0 || y % 400 == 0)
  }

  function YearDays(y: nat): nat {
    if IsLeap(y) then 366 else 365
  }

  function MonthDays(y: nat, m: nat): nat {
    if m == 2 then if IsLeap(y) then 29 else 28
    else if m == 4 || m == 6 || m == 9 || m == 11 then 30
    else 31
  }

  /** Days from 0000-01-01 to the first day of year y. */
  function DaysBeforeYear(y: nat): nat {
    if y == 0 then 0 else DaysBeforeYear(y - 1) + YearDays(y - 1)
  }

  function DaysBeforeMonth(y: nat, m: nat): nat
    requires m > 0
  {
    if m == 1 then 0 else DaysBeforeMonth(y, m - 1) + MonthDays(y, m - 1)
  }

  datatype Civil = Civil(year: nat, month: nat, day: nat, hour: nat, minute: nat, second: nat)

  predicate CivilOk(c: Civil) {
    && 1 <= c.month <= 12 && 1 <= c.day <= MonthDays(c.year, c.month)
    && c.hour < 24 && c.minute < 60 && c.second < 60
  }

  function DayOf(c: Civil): nat
    requires CivilOk(c)
  {
    DaysBeforeYear(c.year) + DaysBeforeMonth(c.year, c.month) + (c.day - 1)
  }

  /** 0000-01-01T00:00:00Z, in seconds on the Unix scale. */
  const YEAR_ZERO: int := -62_167_219_200

  function SecondsOf(c: Civil): int
    requires CivilOk(c)
  {
    YEAR_ZERO + DayOf(c) * 86400 + c.hour * 3600 + c.minute * 60 + c.second
  }

  /** The year that day d, counted from the first day of year y, falls in, and its day there. */
  function FindYear(y: nat, d: nat): (r: (nat, nat))
    ensures y <= r.0 && r.1 < YearDays(r.0)
    ensures DaysBeforeYear(r.0) + r.1 == DaysBeforeYear(y) + d
    decreases d
  {
    if d < YearDays(y) then (y, d) else FindYear(y + 1, d - YearDays(y))
  }

  function FindMonth(y: nat, m: nat, d: nat): (r: (nat, nat))
    requires 1 <= m <= 12 && DaysBeforeMonth(y, m) + d < YearDays(y)
    ensures m <= r.0 <= 12 && r.1 < MonthDays(y, r.0)
    ensures DaysBeforeMonth(y, r.0) + r.1 == DaysBeforeMonth(y, m) + d
    decreases 12 - m
  {
    TwelveMonths(y);
    if m == 12 || d < MonthDays(y, m) then (m, d)
    else FindMonth(y, m + 1, d - MonthDays(y, m))
  }

  lemma TwelveMonths(y: nat)
    ensures DaysBeforeMonth(y, 12) + MonthDays(y, 12) == YearDays(y)
  {
    assert DaysBeforeMonth(y, 2) == 31 && DaysBeforeMonth(y, 3) == 31 + MonthDays(y, 2);
    assert DaysBeforeMonth(y, 4) == DaysBeforeMonth(y, 3) + 31 && DaysBeforeMonth(y, 5) == DaysBeforeMonth(y, 4) + 30;
    assert DaysBeforeMonth(y, 6) == DaysBeforeMonth(y, 5) + 31 && DaysBeforeMonth(y, 7) == DaysBeforeMonth(y, 6) + 30;
    assert DaysBeforeMonth(y, 8) == DaysBeforeMonth(y, 7) + 31 && DaysBeforeMonth(y, 9) == DaysBeforeMonth(y, 8) + 31;
    assert DaysBeforeMonth(y, 10) == DaysBeforeMonth(y, 9) + 30;
    assert DaysBeforeMonth(y, 11) == DaysBeforeMonth(y, 10) + 31;
  }

  function CivilOf(seconds: int): (c: Civil)
    requires seconds >= YEAR_ZERO
    ensures CivilOk(c)
  {
    var s := seconds - YEAR_ZERO;
    var (year, inYear) := FindYear(0, s / 86400);
    var (month, inMonth) := FindMonth(year, 1, inYear);
    var inDay := s % 86400;
    var inHour := inDay % 3600;
    Civil(year, month, inMonth + 1, inDay / 3600, inHour / 60, inHour % 60)
  }

  /** Going to the calendar and back loses nothing. */
  lemma SecondsCivil(seconds: int)
    requires seconds >= YEAR_ZERO
    ensures SecondsOf(CivilOf(seconds)) == seconds
  {
    hide FindYear, FindMonth, DaysBeforeYear, DaysBeforeMonth;
    var s := seconds - YEAR_ZERO;
    var c := CivilOf(seconds);
    var (year, inYear) := FindYear(0, s / 86400);
    assert DaysBeforeYear(0) == 0 && DaysBeforeMonth(year, 1) == 0 by { FirstDay(year); }
    assert DayOf(c) == s / 86400;
  }

  lemma FirstDay(year: nat)
    ensures DaysBeforeYear(0) == 0 && DaysBeforeMonth(year, 1) == 0
  {
  }

  lemma {:induction false} YearsGrow(x: nat, y: nat)
    requires x < y
    ensures DaysBeforeYear(x) + YearDays(x) <= DaysBeforeYear(y)
  {
    if x < y - 1 {
      YearsGrow(x, y - 1);
    }
  }

  lemma {:induction false} MonthsGrow(year: nat, m: nat, n: nat)
    requires 1 <= m < n
    ensures DaysBeforeMonth(year, m) + MonthDays(year, m) <= DaysBeforeMonth(year, n)
  {
    if m < n - 1 {
      MonthsGrow(year, m, n - 1);
    }
  }

  lemma DayInYear(c: Civil)
    requires CivilOk(c)
    ensures DaysBeforeMonth(c.year, c.month) + (c.day - 1) < YearDays(c.year)
  {
    hide DaysBeforeMonth;
    TwelveMonths(c.year);
    if c.month < 12 {
      MonthsGrow(c.year, c.month, 12);
    }
  }

  lemma YearIsFound(y: nat, d: nat, x: nat)
    requires DaysBeforeYear(x) <= d < DaysBeforeYear(x) + YearDays(x)
    requires DaysBeforeYear(y) <= d < DaysBeforeYear(y) + YearDays(y)
    ensures x == y
  {
    hide DaysBeforeYear;
    if x < y {
      YearsGrow(x, y);
    } else if y < x {
      YearsGrow(y, x);
    }
  }

  lemma MonthIsFound(year: nat, m: nat, n: nat, d: nat)
    requires 1 <= m && DaysBeforeMonth(year, m) <= d < DaysBeforeMonth(year, m) + MonthDays(year, m)
    requires 1 <= n && DaysBeforeMonth(year, n) <= d < DaysBeforeMonth(year, n) + MonthDays(year, n)
    ensures m == n
  {
    hide DaysBeforeMonth;
    if m < n {
      MonthsGrow(year, m, n);
    } else if n < m {
      MonthsGrow(year, n, m);
    }
  }

  /** Every valid date and time comes back from its second. */
  lemma CivilSeconds(c: Civil)
    requires CivilOk(c)
    ensures SecondsOf(c) >= YEAR_ZERO && CivilOf(SecondsOf(c)) == c
  {
    hide FindYear, FindMonth, DaysBeforeYear, DaysBeforeMonth;
    var s := SecondsOf(c) - YEAR_ZERO;
    ClockFields(DayOf(c), c.hour, c.minute, c.second);
    DayInYear(c);
    var (year, inYear) := FindYear(0, s / 86400);
    FirstDay(year);
    YearIsFound(year, DayOf(c), c.year);
    MonthIsFound(year, FindMonth(year, 1, inYear).0, c.month, inYear);
  }

  lemma ClockFields(day: nat, h: nat, m: nat, s: nat)
    requires h < 24 && m < 60 && s < 60
    ensures var t := day * 86400 + h * 3600 + m * 60 + s;
            && t / 86400 == day && t % 86400 == h * 3600 + m * 60 + s
            && t % 86400 / 3600 == h && t % 86400 % 3600 == m * 60 + s
            && t % 86400 % 3600 / 60 == m && t % 86400 % 3600 % 60 == s
  {
    var t := day * 86400 + h * 3600 + m * 60 + s;
    var inDay := h * 3600 + m * 60 + s;
    assert t / 86400 == day && t % 86400 == inDay;
    assert inDay / 3600 == h && inDay % 3600 == m * 60 + s;
  }

  /** Years of 365 days, and one day more for each year divisible by 4, except those divisible by 100
      and not by 400. Year 0 counts. */
  lemma {:induction false} YearsClosed(y: nat)
    ensures DaysBeforeYear(y) == 365 * y + (y + 3) / 4 - (y + 99) / 100 + (y + 399) / 400
  {
    if y > 0 {
      YearsClosed(y - 1);
      NextMultiple(y - 1, 4);
      NextMultiple(y - 1, 100);
      NextMultiple(y - 1, 400);
      LeapCount(y - 1);
    }
  }

  /** Rounding up counts one more after each multiple. */
  lemma NextMultiple(y: nat, k: nat)
    requires k == 4 || k == 100 || k == 400
    ensures (y + k) / k == (y + k - 1) / k + if y % k == 0 then 1 else 0
  {
  }

  lemma LeapCount(y: nat)
    ensures (if IsLeap(y) then 1 else 0)
            == (if y % 4 == 0 then 1 else 0) - (if y % 100 == 0 then 1 else 0) + (if y % 400 == 0 then 1 else 0)
  {
    if y % 400 == 0 {
      assert y == 100 * (4 * (y / 400));
    }
    if y % 100 == 0 {
      assert y == 4 * (25 * (y / 100));
    }
  }

  /** The days of a common year before each month. */
  const MONTH_STARTS: seq<nat> := [0, 31, 59, 90, 120, 151, 181, 212, 243, 273, 304, 334]

  lemma MonthsClosed(y: nat, m: nat)
    requires 1 <= m <= 12
    ensures DaysBeforeMonth(y, m)
            == MONTH_STARTS[m - 1] + if m > 2 && (y % 400 == 0 || (y % 4 == 0 && y % 100 != 0)) then 1 else 0
  {
    TwelveMonths(y);
    assert DaysBeforeMonth(y, 2) == 31 && DaysBeforeMonth(y, 3) == 31 + MonthDays(y, 2);
    assert DaysBeforeMonth(y, 4) == DaysBeforeMonth(y, 3) + 31 && DaysBeforeMonth(y, 5) == DaysBeforeMonth(y, 4) + 30;
    assert DaysBeforeMonth(y, 6) == DaysBeforeMonth(y, 5) + 31 && DaysBeforeMonth(y, 7) == DaysBeforeMonth(y, 6) + 30;
    assert DaysBeforeMonth(y, 8) == DaysBeforeMonth(y, 7) + 31 && DaysBeforeMonth(y, 9) == DaysBeforeMonth(y, 8) + 31;
    assert DaysBeforeMonth(y, 10) == DaysBeforeMonth(y, 9) + 30;
    assert DaysBeforeMonth(y, 11) == DaysBeforeMonth(y, 10) + 31;
  }

  /** A date's second, in closed form: 1970-01-01 is day 719528 of the calendar. */
  lemma SecondsClosed(c: Civil)
    requires CivilOk(c)
    ensures var leapDay := c.month > 2 && (c.year % 400 == 0 || (c.year % 4 == 0 && c.year % 100 != 0));
            var days := 365 * c.year + (c.year + 3) / 4 - (c.year + 99) / 100 + (c.year + 399) / 400
                        + MONTH_STARTS[c.month - 1] + (if leapDay then 1 else 0) + c.day - 1;
            SecondsOf(c) == (days - 719_528) * 86_400 + c.hour * 3600 + c.minute * 60 + c.second
  {
    hide DaysBeforeYear, DaysBeforeMonth;
    YearsClosed(c.year);
    MonthsClosed(c.year, c.month);
  }

  // ---------------------------------------------------------------- the two forms

  const TAG_UTC_TIME: Byte := 23
  const TAG_GENERALIZED_TIME: Byte := 24
  const ZULU: Byte := 0x5A

  function TwoDigits(v: nat): (b: Bytes)
    requires v < 100
    ensures |b| == 2
  {
    [0x30 + v / 10, 0x30 + v % 10]
  }

  /** MMDDHHMMSSZ */
  function AfterYear(c: Civil): (b: Bytes)
    requires CivilOk(c)
    ensures |b| == 11
  {
    TwoDigits(c.month) + TwoDigits(c.day) + TwoDigits(c.hour) + TwoDigits(c.minute) + TwoDigits(c.second) + [ZULU]
  }

  /** UTCTime from 1950 to 2049. Before 2050 the code asks for UTCTime, but encoding/asn1 writes a
      GeneralizedTime where a two-digit year cannot tell; that form ends with year 9999. */
  function MarshalTime(t: int): Result<Element> {
    var seconds := Truncate(t) / SECOND;
    if seconds < YEAR_ZERO then Err(Other)
    else
      var c := CivilOf(seconds);
      if c.year > 9999 then Err(Other)
      else if 1950 <= c.year < 2050 then Ok(Element(TAG_UTC_TIME, TwoDigits(c.year % 100) + AfterYear(c)))
      else Ok(Element(TAG_GENERALIZED_TIME, TwoDigits(c.year / 100) + (TwoDigits(c.year % 100) + AfterYear(c))))
  }

  /** YYMMDDHHMMSSZ or YYYYMMDDHHMMSSZ, in ASCII digits. */
  function TimeForm(c: Civil): Element
    requires CivilOk(c) && c.year <= 9999
  {
    var rest: Bytes := [0x30 + c.month / 10, 0x30 + c.month % 10, 0x30 + c.day / 10, 0x30 + c.day % 10,
                        0x30 + c.hour / 10, 0x30 + c.hour % 10, 0x30 + c.minute / 10, 0x30 + c.minute % 10,
                        0x30 + c.second / 10, 0x30 + c.second % 10, 0x5A];
    if 1950 <= c.year < 2050 then Element(23, [0x30 + c.year % 100 / 10, 0x30 + c.year % 10] + rest)
    else Element(24, [0x30 + c.year / 1000, 0x30 + c.year / 100 % 10,
                      0x30 + c.year % 100 / 10, 0x30 + c.year % 10] + rest)
  }

  /** A written time is that form of the date and time of its second. */
  lemma TimeOctets(t: int)
    requires MarshalTime(t).Ok?
    ensures var c := CivilOf(Truncate(t) / SECOND);
            && SecondsOf(c) * 1_000_000_000 <= t < (SecondsOf(c) + 1) * 1_000_000_000
            && c.year <= 9999 && MarshalTime(t).value == TimeForm(c)
  {
    hide CivilOf, SecondsOf, AfterYear, TwoDigits, Truncate, TimeForm;
    var seconds := Truncate(t) / SECOND;
    SecondOf(t);
    SecondsCivil(seconds);
    FormOctets(CivilOf(seconds));
  }

  lemma SecondOf(t: int)
    ensures Truncate(t) / SECOND * 1_000_000_000 <= t < (Truncate(t) / SECOND + 1) * 1_000_000_000
  {
  }

  lemma FormOctets(c: Civil)
    requires CivilOk(c) && c.year <= 9999
    ensures c.year / 100 < 100
    ensures TimeForm(c)
            == if 1950 <= c.year < 2050
               then Element(TAG_UTC_TIME, TwoDigits(c.year % 100) + AfterYear(c))
               else Element(TAG_GENERALIZED_TIME, TwoDigits(c.year / 100) + (TwoDigits(c.year % 100) + AfterYear(c)))
  {
    hide AfterYear, TwoDigits;
    AfterYearOctets(c);
    YearDigits(c.year);
  }

  lemma AfterYearOctets(c: Civil)
    requires CivilOk(c)
    ensures AfterYear(c) == [0x30 + c.month / 10, 0x30 + c.month % 10, 0x30 + c.day / 10, 0x30 + c.day % 10,
                             0x30 + c.hour / 10, 0x30 + c.hour % 10, 0x30 + c.minute / 10, 0x30 + c.minute % 10,
                             0x30 + c.second / 10, 0x30 + c.second % 10, 0x5A]
  {
  }

  lemma YearDigits(y: nat)
    requires y <= 9999
    ensures y / 100 < 100 && TwoDigits(y / 100) == [0x30 + y / 1000, 0x30 + y / 100 % 10]
    ensures TwoDigits(y % 100) == [0x30 + y % 100 / 10, 0x30 + y % 10]
  {
  }

  predicate IsDigit(b: Byte) {
    0x30 <= b <= 0x39
  }

  function Number(b: Bytes, i: nat): Option<nat>
    requires i + 2 <= |b|
  {
    if IsDigit(b[i]) && IsDigit(b[i + 1]) then Some((b[i] as nat - 0x30) * 10 + (b[i + 1] as nat - 0x30)) else None
  }

  /** What follows the year, from position i on. */
  function ReadAfterYear(year: nat, b: Bytes, i: nat): Result<int>
    requires |b| == i + 11
  {
    var month, day, hour := Number(b, i), Number(b, i + 2), Number(b, i + 4);
    var minute, second := Number(b, i + 6), Number(b, i + 8);
    if month.None? || day.None? || hour.None? || minute.None? || second.None? then Err(MalformedDER)
    else if b[i + 10] != ZULU then Err(MalformedDER)
    else
      var c := Civil(year, month.value, day.value, hour.value, minute.value, second.value);
      if CivilOk(c) then Ok(SecondsOf(c) * SECOND) else Err(MalformedDER)
  }

  /** The forms that marshalTime writes; two-digit years from 50 on are of the last century. */
  function ParseTime(e: Element): Result<int> {
    if e.tag == TAG_UTC_TIME && |e.content| == 13 && Number(e.content, 0).Some? then
      var yy := Number(e.content, 0).value;
      ReadAfterYear(if yy >= 50 then 1900 + yy else 2000 + yy, e.content, 2)
    else if e.tag == TAG_GENERALIZED_TIME && |e.content| == 15
            && Number(e.content, 0).Some? && Number(e.content, 2).Some? then
      ReadAfterYear(Number(e.content, 0).value * 100 + Number(e.content, 2).value, e.content, 4)
    else Err(MalformedDER)
  }

  lemma TwoDigitsRead(b: Bytes, i: nat, v: nat)
    requires v < 100 && i + 2 <= |b| && b[i..i + 2] == TwoDigits(v)
    ensures Number(b, i) == Some(v)
  {
    assert b[i] == b[i..i + 2][0] && b[i + 1] == b[i..i + 2][1];
  }

  lemma AfterYearRead(c: Civil, b: Bytes, i: nat)
    requires CivilOk(c) && |b| == i + 11 && b[i..] == AfterYear(c)
    ensures ReadAfterYear(c.year, b, i) == Ok(SecondsOf(c) * SECOND)
  {
    hide Number, SecondsOf, TwoDigits;
    var r := AfterYear(c);
    assert b[i + 10] == r[10];
    assert b[i..i + 2] == r[..2] == TwoDigits(c.month);
    assert b[i + 2..i + 4] == r[2..4] == TwoDigits(c.day);
    assert b[i + 4..i + 6] == r[4..6] == TwoDigits(c.hour);
    assert b[i + 6..i + 8] == r[6..8] == TwoDigits(c.minute);
    assert b[i + 8..i + 10] == r[8..10] == TwoDigits(c.second);
    TwoDigitsRead(b, i, c.month);
    TwoDigitsRead(b, i + 2, c.day);
    TwoDigitsRead(b, i + 4, c.hour);
    TwoDigitsRead(b, i + 6, c.minute);
    TwoDigitsRead(b, i + 8, c.second);
  }

  /** A written time reads back as the same second, in either form. */
  lemma TimeRoundTrip(t: int)
    requires MarshalTime(t).Ok?
    ensures ParseTime(MarshalTime(t).value) == Ok(Truncate(t))
  {
    hide CivilOf, AfterYear, TwoDigits, Number, ReadAfterYear, SecondsOf;
    var seconds := Truncate(t) / SECOND;
    var c := CivilOf(seconds);
    var b := MarshalTime(t).value.content;
    SecondsCivil(seconds);
    if 1950 <= c.year < 2050 {
      assert b[0..2] == TwoDigits(c.year % 100) && b[2..] == AfterYear(c);
      TwoDigitsRead(b, 0, c.year % 100);
      AfterYearRead(c, b, 2);
    } else {
      assert b[0..2] == TwoDigits(c.year / 100) && b[2..4] == TwoDigits(c.year % 100) && b[4..] == AfterYear(c);
      TwoDigitsRead(b, 0, c.year / 100);
      TwoDigitsRead(b, 2, c.year % 100);
      AfterYearRead(c, b, 4);
    }
  }

  /** The first instant of a year. */
  function YearStart(y: nat): int {
    (YEAR_ZERO + DaysBeforeYear(y) * 86400) * SECOND
  }

  lemma YearOfSecond(seconds: int, y: nat)
    requires seconds >= YEAR_ZERO
    ensures CivilOf(seconds).year >= y <==> seconds * SECOND >= YearStart(y)
  {
    hide FindYear, FindMonth, DaysBeforeYear;
    var s := seconds - YEAR_ZERO;
    var (year, inYear) := FindYear(0, s / 86400);
    FirstDay(year);
    if year < y {
      YearsGrow(year, y);
    } else if y < year {
      YearsGrow(y, year);
    }
  }

  /** A time can be written exactly from the start of year 0 to the end of 9999, and is a UTCTime
      exactly from 1950 to 2049 (RFC 5280 section 4.1.2.5). */
  lemma TimeWritable(t: int)
    ensures MarshalTime(t).Ok? <==> YearStart(0) <= Truncate(t) < YearStart(10000)
    ensures MarshalTime(t).Ok? ==>
              (MarshalTime(t).value.tag == TAG_UTC_TIME <==> YearStart(1950) <= Truncate(t) < YearStart(2050))
  {
    hide CivilOf, AfterYear, TwoDigits, DaysBeforeYear;
    var seconds := Truncate(t) / SECOND;
    FirstDay(0);
    if seconds >= YEAR_ZERO {
      YearOfSecond(seconds, 1950);
      YearOfSecond(seconds, 2050);
      YearOfSecond(seconds, 10000);
    }
  }

  lemma {:induction false} DaysBeforeYearBound(y: nat)
    ensures DaysBeforeYear(y) <= 366 * y
  {
    if y > 0 {
      DaysBeforeYearBound(y - 1);
    }
  }

  lemma {:induction false} DaysBeforeYearLeast(y: nat)
    ensures DaysBeforeYear(y) >= 365 * y
  {
    if y > 0 {
      DaysBeforeYearLeast(y - 1);
    }
  }

  /** Writable times are far from the ends of a 64-bit count of seconds. */
  lemma WritableBounds(t: int)
    requires MarshalTime(t).Ok?
    ensures YEAR_ZERO * SECOND <= Truncate(t) < 400_000_000_000 * SECOND
  {
    hide MarshalTime, DaysBeforeYear;
    TimeWritable(t);
    DaysBeforeYearBound(10000);
    FirstDay(0);
  }

  lemma ReadIsTwoDigits(b: Bytes, i: nat)
    requires i + 2 <= |b| && Number(b, i).Some?
    ensures Number(b, i).value < 100 && b[i..i + 2] == TwoDigits(Number(b, i).value)
  {
    var v := Number(b, i).value;
    assert b[i] == 0x30 + v / 10 && b[i + 1] == 0x30 + v % 10;
  }

  lemma ReadIsAfterYear(year: nat, b: Bytes, i: nat) returns (c: Civil)
    requires |b| == i + 11 && ReadAfterYear(year, b, i).Ok?
    ensures CivilOk(c) && c.year == year && ReadAfterYear(year, b, i) == Ok(SecondsOf(c) * SECOND)
    ensures b[i..] == AfterYear(c)
  {
    hide Number, TwoDigits, SecondsOf;
    c := Civil(year, Number(b, i).value, Number(b, i + 2).value, Number(b, i + 4).value, Number(b, i + 6).value,
               Number(b, i + 8).value);
    ReadIsTwoDigits(b, i);
    ReadIsTwoDigits(b, i + 2);
    ReadIsTwoDigits(b, i + 4);
    ReadIsTwoDigits(b, i + 6);
    ReadIsTwoDigits(b, i + 8);
    assert b[i + 10..] == [ZULU];
    assert b[i..] == b[i..i + 2] + b[i + 2..i + 4] + b[i + 4..i + 6] + b[i + 6..i + 8] + b[i + 8..i + 10] + b[i + 10..];
  }

  /** And a time that was read is written as the same bytes, unless it is a GeneralizedTime of the
      years that RFC 5280 section 4.1.2.5 gives to UTCTime. */
  lemma TimeCanonical(e: Element)
    requires ParseTime(e).Ok?
    requires e.tag == TAG_GENERALIZED_TIME ==> !(YearStart(1950) <= ParseTime(e).value < YearStart(2050))
    ensures MarshalTime(ParseTime(e).value) == Ok(e)
  {
    hide CivilOf, AfterYear, TwoDigits, Number, ReadAfterYear, SecondsOf, YearStart;
    var b := e.content;
    var t := ParseTime(e).value;
    ReadIsTwoDigits(b, 0);
    if e.tag == TAG_UTC_TIME {
      var yy := Number(b, 0).value;
      var c := ReadIsAfterYear(if yy >= 50 then 1900 + yy else 2000 + yy, b, 2);
      CivilSeconds(c);
      assert b == b[0..2] + b[2..];
    } else {
      ReadIsTwoDigits(b, 2);
      var c := ReadIsAfterYear(Number(b, 0).value * 100 + Number(b, 2).value, b, 4);
      CivilSeconds(c);
      YearOfSecond(SecondsOf(c), 1950);
      YearOfSecond(SecondsOf(c), 2050);
      assert b == b[0..2] + (b[2..4] + b[4..]);
    }
  }
}
