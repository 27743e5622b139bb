/** The date arithmetic of ECMA-262 (section 21.4.1, "Time Values and Time Range"),
    over integer milliseconds since 1970-01-01T00:00:00Z. A JavaScript `Date`
    holds one `TimeValue`. Month numbers are 0-based here, as in the standard. */
module Calendar {

  const MsPerMinute := 60_000
  const MsPerHour := 3_600_000
  const MsPerDay := 86_400_000
  /** The largest magnitude TimeClip admits (section 21.4.1.31). */
  const MaxTime := 8_640_000_000_000_000

  /** A time value: NaN or an integral number of milliseconds. */
  datatype TimeValue = NaN | Finite(ms: int)

  /** TimeClip: time values beyond 8.64e15 ms from the epoch become NaN. */
  function TimeClip(t: int): (r: TimeValue)
    ensures r.Finite? <==> -MaxTime <= t <= MaxTime
    ensures r.Finite? ==> r.ms == t
  {
    if -MaxTime <= t <= MaxTime then Finite(t) else NaN
  }

  /** Day(t) and TimeWithinDay(t): floor division and modulo by msPerDay. */
  function Day(t: int): int {
    t / MsPerDay
  }

  function TimeWithinDay(t: int): (r: int)
    ensures 0 <= r < MsPerDay && t == Day(t) * MsPerDay + r
  {
    t % MsPerDay
  }

  predicate InLeapYear(y: int) {
    y % 4 == 0 && (y % 100 != 0 || y % 400 == 0)
  }

  function DaysInYear(y: int): int {
    if InLeapYear(y) then 366 else 365
  }

  /** DayFromYear: the day number of January 1 of year y. */
  function DayFromYear(y: int): int {
    365 * (y - 1970) + (y - 1969) / 4 - (y - 1901) / 100 + (y - 1601) / 400
  }

  /** Day number of 2001-01-01, where a 400-year Gregorian cycle starts. */
  const Day2001 := 11_323

  /** YearFromTime, on day numbers: the year whose days contain day n. It splits the
      days since 2001-01-01 into 400-year cycles, centuries, four-year blocks and years;
      YearFromDayBrackets shows it is the year the standard defines. */
  function YearFromDay(n: int): int {
    var z := n - Day2001;
    var cycles := z / 146_097;
    var r := z % 146_097;
    var centuries := if r / 36_524 < 4 then r / 36_524 else 3;
    var r2 := r - 36_524 * centuries;
    var blocks := r2 / 1_461;
    var r3 := r2 % 1_461;
    var years := if r3 / 365 < 4 then r3 / 365 else 3;
    2001 + 400 * cycles + 100 * centuries + 4 * blocks + years
  }

  /** Consecutive years are DaysInYear apart. */
  lemma DayFromYearNext(y: int)
    ensures DayFromYear(y + 1) == DayFromYear(y) + DaysInYear(y)
  {
    DivStep(y - 1969, 4, y, -492);
    DivStep(y - 1901, 100, y, -19);
    DivStep(y - 1601, 400, y, -4);
  }

  /** Adding one to a steps its quotient by d exactly when y, which differs from a + 1
      by a multiple of d, is a multiple of d. */
  lemma DivStep(a: int, d: int, y: int, k: int)
    requires 0 < d && a + 1 == y + k * d
    ensures (a + 1) / d == a / d + (if y % d == 0 then 1 else 0)
  {
    var q, r := a / d, a % d;
    assert a == q * d + r;
    if r == d - 1 {
      assert a + 1 == (q + 1) * d + 0;
      assert y == (q + 1 - k) * d + 0;
      DivIdentity(a + 1, d, q + 1, 0);
      DivIdentity(y, d, q + 1 - k, 0);
    } else {
      assert a + 1 == q * d + (r + 1);
      assert y == (q - k) * d + (r + 1);
      DivIdentity(a + 1, d, q, r + 1);
      DivIdentity(y, d, q - k, r + 1);
    }
  }

  /** DayFromYear is increasing. */
  lemma DayFromYearMonotone(a: int, b: int)
    requires a <= b
    ensures DayFromYear(a) <= DayFromYear(b)
  {
  }

  /** The first days of the years 1000 and 9999 bound those of the years between. */
  lemma FourDigitYearDays(y: int)
    requires 1000 <= y <= 9999
    ensures -354_285 <= DayFromYear(y) <= 2_932_532
  {
    DayFromYearMonotone(1000, y);
    DayFromYearMonotone(y, 9999);
    assert DayFromYear(1000) == -354_285;
    assert DayFromYear(9999) == 2_932_532;
  }

  /** DayFromYear of a year given by its place in the cycles that start in 2001. */
  lemma DayFromYearInCycle(cycles: int, centuries: int, blocks: int, years: int)
    requires 0 <= centuries <= 3 && 0 <= blocks <= 24 && 0 <= years <= 3
    ensures DayFromYear(2001 + 400 * cycles + 100 * centuries + 4 * blocks + years)
         == Day2001 + 146_097 * cycles + 36_524 * centuries + 1_461 * blocks + 365 * years
  {
    var y := 2001 + 400 * cycles + 100 * centuries + 4 * blocks + years;
    var k4 := 8 + 100 * cycles + 25 * centuries + blocks;
    DivIdentity(y - 1969, 4, k4, years);
    var k100 := 1 + 4 * cycles + centuries;
    DivIdentity(y - 1901, 100, k100, 4 * blocks + years);
    DivIdentity(y - 1601, 400, 1 + cycles, 100 * centuries + 4 * blocks + years);
  }

  /** Which years of the cycles that start in 2001 are leap years. */
  lemma LeapInCycle(cycles: int, centuries: int, blocks: int, years: int)
    requires 0 <= centuries <= 3 && 0 <= blocks <= 24 && 0 <= years <= 3
    ensures InLeapYear(2001 + 400 * cycles + 100 * centuries + 4 * blocks + years)
        <==> years == 3 && (blocks != 24 || centuries == 3)
  {
    var y := 2001 + 400 * cycles + 100 * centuries + 4 * blocks + years;
    DivIdentity(y, 4, 500 + 100 * cycles + 25 * centuries + blocks + (years + 1) / 4, (years + 1) % 4);
    if years == 3 {
      DivIdentity(y, 100, 20 + 4 * cycles + centuries + (4 * blocks + 4) / 100, (4 * blocks + 4) % 100);
      DivIdentity(y, 400, 5 + cycles + (100 * centuries + 4 * blocks + 4) / 400,
                  (100 * centuries + 4 * blocks + 4) % 400);
    }
  }

  /** x == q * d + r with 0 <= r < d determines x / d and x % d. */
  lemma DivIdentity(x: int, d: int, q: int, r: int)
    requires 0 < d && 0 <= r < d && x == q * d + r
    ensures x / d == q && x % d == r
  {
    var q', r' := x / d, x % d;
    assert x == q' * d + r';
    if q' > q {
      assert (q' - q) * d == q' * d - q * d;
      MulAtLeast(q' - q, d);
    } else if q' < q {
      assert (q - q') * d == q * d - q' * d;
      MulAtLeast(q - q', d);
    }
  }

  lemma {:induction false} MulAtLeast(k: int, d: int)
    requires k >= 1 && d > 0
    ensures k * d >= d
  {
    if k > 1 {
      MulAtLeast(k - 1, d);
      assert k * d == (k - 1) * d + d;
    }
  }

  /** The year YearFromDay picks contains day n. */
  lemma YearFromDayBrackets(n: int)
    ensures DayFromYear(YearFromDay(n)) <= n < DayFromYear(YearFromDay(n)) + DaysInYear(YearFromDay(n))
  {
    var z := n - Day2001;
    var cycles := z / 146_097;
    var r := z % 146_097;
    var centuries := if r / 36_524 < 4 then r / 36_524 else 3;
    var r2 := r - 36_524 * centuries;
    var blocks := r2 / 1_461;
    var r3 := r2 % 1_461;
    var years := if r3 / 365 < 4 then r3 / 365 else 3;
    var y := 2001 + 400 * cycles + 100 * centuries + 4 * blocks + years;
    assert YearFromDay(n) == y;
    assert 0 <= r2 <= 36_524 && (r2 == 36_524 ==> centuries == 3);
    assert 0 <= blocks <= 24 && 0 <= r3 < 1_461 && r2 == 1_461 * blocks + r3;
    assert n == Day2001 + 146_097 * cycles + 36_524 * centuries + 1_461 * blocks + r3;
    var k := r3 - 365 * years;
    assert 0 <= k <= 365 && (k == 365 ==> years == 3 && r3 == 1_460);
    assert k == 365 && blocks == 24 ==> centuries == 3;
    DayFromYearInCycle(cycles, centuries, blocks, years);
    LeapInCycle(cycles, centuries, blocks, years);
    assert n == DayFromYear(y) + k;
  }

  /** Every day belongs to exactly one year: the one YearFromDay returns. */
  lemma YearFromDayUnique(n: int, y: int)
    requires DayFromYear(y) <= n < DayFromYear(y) + DaysInYear(y)
    ensures YearFromDay(n) == y
  {
    YearFromDayBrackets(n);
    YearsDisjoint(YearFromDay(n), y, n);
  }

  /** Two years whose days both contain day n are the same year. */
  lemma YearsDisjoint(x: int, y: int, n: int)
    requires DayFromYear(x) <= n < DayFromYear(x) + DaysInYear(x)
    requires DayFromYear(y) <= n < DayFromYear(y) + DaysInYear(y)
    ensures x == y
  {
    if x < y {
      DayFromYearNext(x);
      DayFromYearMonotone(x + 1, y);
      assert false;
    } else if y < x {
      DayFromYearNext(y);
      DayFromYearMonotone(y + 1, x);
      assert false;
    }
  }

  /** DayWithinYear for the first day of month m (0-based) of a leap or common year. */
  function MonthStart(m: int, leap: bool): int
    requires 0 <= m < 12
  {
    var l := if leap then 1 else 0;
    if m == 0 then 0 else if m == 1 then 31 else if m == 2 then 59 + l
    else if m == 3 then 90 + l else if m == 4 then 120 + l else if m == 5 then 151 + l
    else if m == 6 then 181 + l else if m == 7 then 212 + l else if m == 8 then 243 + l
    else if m == 9 then 273 + l else if m == 10 then 304 + l else 334 + l
  }

  function DaysInMonth(y: int, m: int): int
    requires 0 <= m < 12
  {
    (if m == 11 then DaysInYear(y) else MonthStart(m + 1, InLeapYear(y))) - MonthStart(m, InLeapYear(y))
  }

  /** DayWithinYear, on day numbers. */
  function DayWithinYear(n: int): int {
    n - DayFromYear(YearFromDay(n))
  }

  /** The month (0 to 11) that day w of a leap or common year falls in. */
  function MonthInYear(w: int, leap: bool): (m: int)
    ensures 0 <= m < 12
  {
    if w < MonthStart(1, leap) then 0
    else if w < MonthStart(2, leap) then 1
    else if w < MonthStart(3, leap) then 2
    else if w < MonthStart(4, leap) then 3
    else if w < MonthStart(5, leap) then 4
    else if w < MonthStart(6, leap) then 5
    else if w < MonthStart(7, leap) then 6
    else if w < MonthStart(8, leap) then 7
    else if w < MonthStart(9, leap) then 8
    else if w < MonthStart(10, leap) then 9
    else if w < MonthStart(11, leap) then 10
    else 11
  }

  /** A day between the start of month m and the start of the next lies in month m. */
  lemma MonthInYearOf(w: int, leap: bool, m: int)
    requires 0 <= m < 12 && MonthStart(m, leap) <= w
    requires m < 11 ==> w < MonthStart(m + 1, leap)
    ensures MonthInYear(w, leap) == m
  {
  }

  /** The month MonthInYear picks starts at or before w, and the next one after it. */
  lemma MonthInYearBrackets(w: int, leap: bool)
    requires w >= 0
    ensures var m := MonthInYear(w, leap);
      MonthStart(m, leap) <= w && (m < 11 ==> w < MonthStart(m + 1, leap))
  {
  }

  /** MonthFromTime, on day numbers: the month (0 to 11) whose days contain day n. */
  function MonthFromDay(n: int): (m: int)
    ensures 0 <= m < 12
  {
    MonthInYear(DayWithinYear(n), InLeapYear(YearFromDay(n)))
  }

  /** DateFromTime, on day numbers: the day of the month, from 1. */
  function DateFromDay(n: int): int {
    DayWithinYear(n) - MonthStart(MonthFromDay(n), InLeapYear(YearFromDay(n))) + 1
  }

  /** MakeDay (section 21.4.1.28): the day number of the given date. A month outside
      0..11 moves the year, and a date beyond the month's length runs on into the
      following months. */
  function MakeDay(year: int, month: int, date: int): int {
    var ym := year + month / 12;
    var mn := month % 12;
    DayFromYear(ym) + MonthStart(mn, InLeapYear(ym)) + date - 1
  }

  /** A date of a month in 0..11 falls within 365 days after the start of its year. */
  lemma MakeDayWithinYear(y: int, m: int, d: int)
    requires 0 <= m < 12 && 1 <= d <= 31
    ensures DayFromYear(y) <= MakeDay(y, m, d) <= DayFromYear(y) + 365
  {
    assert m / 12 == 0 && m % 12 == m;
  }

  /** MakeTime (section 21.4.1.27) for integral arguments. */
  function MakeTime(hour: int, min: int, sec: int, ms: int): int {
    hour * MsPerHour + min * MsPerMinute + sec * 1000 + ms
  }

  /** MakeDate (section 21.4.1.29). */
  function MakeDate(day: int, time: int): int {
    day * MsPerDay + time
  }

  function HourFromTime(t: int): int {
    (t / MsPerHour) % 24
  }

  function MinFromTime(t: int): int {
    (t / MsPerMinute) % 60
  }

  /** A valid calendar date read back from its day number gives the same date. */
  lemma CalendarDateRoundTrip(y: int, m: int, d: int)
    requires 0 <= m < 12 && 1 <= d <= DaysInMonth(y, m)
    ensures YearFromDay(MakeDay(y, m, d)) == y
    ensures MonthFromDay(MakeDay(y, m, d)) == m
    ensures DateFromDay(MakeDay(y, m, d)) == d
  {
    var n := MakeDay(y, m, d);
    assert m / 12 == 0 && m % 12 == m;
    assert n == DayFromYear(y) + MonthStart(m, InLeapYear(y)) + d - 1;
    YearFromDayUnique(n, y);
    assert DayWithinYear(n) == MonthStart(m, InLeapYear(y)) + d - 1;
    MonthInYearOf(DayWithinYear(n), InLeapYear(y), m);
  }

  /** Every day number is the MakeDay of the date read from it, and that date is valid. */
  lemma DayNumberRoundTrip(n: int)
    ensures var y, m, d := YearFromDay(n), MonthFromDay(n), DateFromDay(n);
      1 <= d <= DaysInMonth(y, m) && MakeDay(y, m, d) == n
  {
    YearFromDayBrackets(n);
    MonthInYearBrackets(DayWithinYear(n), InLeapYear(YearFromDay(n)));
    var m := MonthFromDay(n);
    assert m / 12 == 0 && m % 12 == m;
  }

  /** The hour and minute of a time built from a day and in-range hour and minute. */
  lemma TimeFieldsRoundTrip(day: int, h: int, mi: int)
    requires 0 <= h < 24 && 0 <= mi < 60
    ensures var t := MakeDate(day, MakeTime(h, mi, 0, 0));
      Day(t) == day && HourFromTime(t) == h && MinFromTime(t) == mi
  {
    var t := MakeDate(day, MakeTime(h, mi, 0, 0));
    DivIdentity(t, MsPerDay, day, h * MsPerHour + mi * MsPerMinute);
    DivIdentity(t, MsPerHour, 24 * day + h, mi * MsPerMinute);
    DivIdentity(24 * day + h, 24, day, h);
    DivIdentity(t, MsPerMinute, 1_440 * day + 60 * h + mi, 0);
    DivIdentity(1_440 * day + 60 * h + mi, 60, 24 * day + h, mi);
  }
}
