/** The live part of src/time.js: rendering an instant as Ontiloo's wall-clock text,
    turning local wall-clock fields into an instant, and resolving spoken Vietnamese or
    English time text into an instant and a start/end window. A JavaScript `Date` is a
    TimeValue: an integral millisecond count, or NaN. */
module SpokenTime {
  import opened Text
  import opened Wrappers
  import opened Calendar
  import opened SpokenScan
  import opened OntilooFormat

  /** The messages of the errors thrown: `INVALID_TIME`, `MISSING_TIME_OF_DAY` and
      `INVALID_DATE_OBJECT`. */
  datatype TimeError = InvalidTime | MissingTimeOfDay | InvalidDateObject

  /** The default `durationMinutes`. */
  const DefaultDurationMinutes := 30

  /** Wall-clock fields; month counts from 1. */
  datatype LocalFields = LocalFields(year: int, month: int, day: int, hour: int, minute: int)

  /** A calendar day with the month counted from 1. */
  datatype YMD = YMD(year: int, month: int, day: int)

  predicate ValidFields(f: LocalFields) {
    && 1 <= f.month <= 12 && 1 <= f.day <= DaysInMonth(f.year, f.month - 1)
    && 0 <= f.hour < 24 && 0 <= f.minute < 60
  }

  /** The `getUTCFullYear`, `getUTCMonth() + 1`, `getUTCDate`, `getUTCHours` and
      `getUTCMinutes` of a time value. */
  function FieldsOf(t: int): (f: LocalFields)
    ensures ValidFields(f)
  {
    var n := Day(t);
    DayNumberRoundTrip(n);
    LocalFields(YearFromDay(n), MonthFromDay(n) + 1, DateFromDay(n), HourFromTime(t), MinFromTime(t))
  }

  // ---------------------------------------------------------------------------
  // formatOntilooMDYHM
  // ---------------------------------------------------------------------------

  /** `${MM}/${DD}/${YYYY} ${HH}:${mm}`: two-digit month, day, hour and minute, and the
      year as `String` writes it. */
  function WireText(f: LocalFields): string {
    Layout(Pad2(f.month), Pad2(f.day), IntToString(f.year), Pad2(f.hour), Pad2(f.minute))
  }

  /** What the template gives when the shifted date is invalid: every getter is NaN and
      `String(NaN).padStart(2, "0")` is "NaN". */
  const NaNWireText: string := "NaN/NaN/NaN NaN:NaN"

  /** `formatOntilooMDYHM(dateUtc, tzOffsetMinutes)`: a NaN date is refused; otherwise
      the instant is moved by the offset and its fields are read with the UTC getters. */
  function FormatMDYHM(date: TimeValue, off: int): (r: Result<string, TimeError>)
    ensures r.Err? <==> date.NaN?
    ensures r.Err? ==> r.error == InvalidDateObject
    ensures r.Ok? && TimeClip(date.ms + off * MsPerMinute).NaN? ==> r.value == NaNWireText
  {
    if date.NaN? then Err(InvalidDateObject)
    else match TimeClip(date.ms + off * MsPerMinute)
      case NaN => Ok(NaNWireText)
      case Finite(local) => Ok(WireText(FieldsOf(local)))
  }

  /** For years of four digits the text has the wire shape, and each field reads back
      from its place in it. */
  lemma WireTextShape(f: LocalFields)
    requires ValidFields(f) && 1000 <= f.year <= 9999
    ensures var s := WireText(f);
      && OntilooShape(s)
      && DecimalValue(s[0..2]) == f.month && DecimalValue(s[3..5]) == f.day
      && DecimalValue(s[6..10]) == f.year
      && DecimalValue(s[11..13]) == f.hour && DecimalValue(s[14..16]) == f.minute
  {
    NatToStringLength(f.year);
    DecimalValueOfNatToString(f.year);
    assert IntToString(f.year) == NatToString(f.year);
    LayoutShape(Pad2(f.month), Pad2(f.day), NatToString(f.year), Pad2(f.hour), Pad2(f.minute));
  }

  // ---------------------------------------------------------------------------
  // getLocalYMD and makeUtcFromLocal
  // ---------------------------------------------------------------------------

  /** `getLocalYMD(nowUtc, tzOffsetMinutes)`: the local calendar day, or None where the
      getters would give NaN (an invalid `nowUtc`, or one the offset moves out of range). */
  function LocalYMD(now: TimeValue, off: int): (r: Option<YMD>)
    ensures r.None? <==> now.NaN? || TimeClip(now.ms + off * MsPerMinute).NaN?
    ensures r.Some? ==> 1 <= r.value.month <= 12 && 1 <= r.value.day <= DaysInMonth(r.value.year, r.value.month - 1)
  {
    if now.NaN? then None
    else match TimeClip(now.ms + off * MsPerMinute)
      case NaN => None
      case Finite(local) =>
        var f := FieldsOf(local);
        Some(YMD(f.year, f.month, f.day))
  }

  /** MakeFullYear (section 21.4.1.30 of ECMA-262): `Date.UTC` reads years 0 to 99 as
      1900 to 1999. */
  function MakeFullYear(y: int): int {
    if 0 <= y <= 99 then 1900 + y else y
  }

  /** `Date.UTC(year, month0, day, hour, minute, 0, 0)`. */
  function DateUtc(year: int, month0: int, day: int, hour: int, minute: int): TimeValue {
    TimeClip(MakeDate(MakeDay(MakeFullYear(year), month0, day), MakeTime(hour, minute, 0, 0)))
  }

  /** `makeUtcFromLocal(fields, tzOffsetMinutes)`: the instant whose local wall-clock
      reading is the fields; `INVALID_TIME` when either step leaves the time range. */
  function MakeUtcFromLocal(f: LocalFields, off: int): (r: Result<int, TimeError>)
    ensures r.Ok? ==> -MaxTime <= r.value <= MaxTime
    ensures r.Err? ==> r.error == InvalidTime
  {
    match DateUtc(f.year, f.month - 1, f.day, f.hour, f.minute)
    case NaN => Err(InvalidTime)
    case Finite(u) =>
      match TimeClip(u - off * MsPerMinute)
      case NaN => Err(InvalidTime)
      case Finite(t) => Ok(t)
  }

  /** The instant whose UTC reading is the fields f: `Date.UTC` without its year
      adjustment and its range check. */
  function LocalInstant(f: LocalFields): int {
    MakeDate(MakeDay(f.year, f.month - 1, f.day), MakeTime(f.hour, f.minute, 0, 0))
  }

  /** For a year outside 0..99, `makeUtcFromLocal` is the local instant minus the
      offset, and fails exactly when the local instant or the result leaves the time
      range. */
  lemma MakeUtcFromLocalValue(f: LocalFields, off: int)
    requires !(0 <= f.year <= 99)
    ensures var local := LocalInstant(f);
      MakeUtcFromLocal(f, off)
        == if -MaxTime <= local <= MaxTime && -MaxTime <= local - off * MsPerMinute <= MaxTime
           then Ok(local - off * MsPerMinute) else Err(InvalidTime)
  {
    assert DateUtc(f.year, f.month - 1, f.day, f.hour, f.minute) == TimeClip(LocalInstant(f)) by {
      assert MakeFullYear(f.year) == f.year;
    }
  }

  /** Reading the local fields of the instant `makeUtcFromLocal` builds, with the same
      offset, gives the fields back: the offset subtracted there cancels the one added
      when reading. */
  lemma LocalFieldsRoundTrip(f: LocalFields, off: int)
    requires ValidFields(f) && !(0 <= f.year <= 99)
    requires MakeUtcFromLocal(f, off).Ok?
    ensures var t := MakeUtcFromLocal(f, off).value;
      TimeClip(t + off * MsPerMinute) == Finite(LocalInstant(f)) && FieldsOf(t + off * MsPerMinute) == f
  {
    MakeUtcFromLocalValue(f, off);
    assert MakeUtcFromLocal(f, off).value + off * MsPerMinute == LocalInstant(f);
    FieldsOfLocal(f);
  }

  /** Reading the fields of the instant built from valid fields gives them back. */
  lemma FieldsOfLocal(f: LocalFields)
    requires ValidFields(f)
    ensures FieldsOf(LocalInstant(f)) == f
  {
    LocalInstantTime(f);
    CalendarDateRoundTrip(f.year, f.month - 1, f.day);
    FieldsOfParts(LocalInstant(f), MakeDay(f.year, f.month - 1, f.day), f);
  }

  lemma LocalInstantTime(f: LocalFields)
    requires 0 <= f.hour < 24 && 0 <= f.minute < 60
    ensures var t := LocalInstant(f);
      Day(t) == MakeDay(f.year, f.month - 1, f.day) && HourFromTime(t) == f.hour && MinFromTime(t) == f.minute
  {
    TimeFieldsRoundTrip(MakeDay(f.year, f.month - 1, f.day), f.hour, f.minute);
  }

  lemma FieldsOfParts(t: int, n: int, f: LocalFields)
    requires Day(t) == n && HourFromTime(t) == f.hour && MinFromTime(t) == f.minute
    requires YearFromDay(n) == f.year && MonthFromDay(n) == f.month - 1 && DateFromDay(n) == f.day
    ensures FieldsOf(t) == f
  {
  }

  /** Round trip: formatting the instant built from valid local fields, with the same
      offset, writes exactly those fields. */
  lemma FormatMakeUtcRoundTrip(f: LocalFields, off: int)
    requires ValidFields(f) && !(0 <= f.year <= 99)
    requires MakeUtcFromLocal(f, off).Ok?
    ensures FormatMDYHM(Finite(MakeUtcFromLocal(f, off).value), off) == Ok(WireText(f))
    ensures LocalYMD(Finite(MakeUtcFromLocal(f, off).value), off) == Some(YMD(f.year, f.month, f.day))
  {
    LocalFieldsRoundTrip(f, off);
  }

  /** Years of four digits with an offset under about 1900 years never leave the time
      range, so for them `makeUtcFromLocal` succeeds. */
  lemma MakeUtcFromLocalDefined(f: LocalFields, off: int)
    requires ValidFields(f) && 1000 <= f.year <= 9999
    requires -1_000_000_000 <= off <= 1_000_000_000
    ensures MakeUtcFromLocal(f, off).Ok?
  {
    MakeUtcFromLocalValue(f, off);
    FourDigitYearDays(f.year);
    MakeDayWithinYear(f.year, f.month - 1, f.day);
  }

  // ---------------------------------------------------------------------------
  // parseSpokenDateTime
  // ---------------------------------------------------------------------------

  /** The hour after the am/pm and day-part conversion: with am or pm, 12am is 0, 12pm is
      12, pm adds 12 to any other hour and am keeps it; without, only hours 1 to 12 move:
      an afternoon keyword adds 12 except to 12, else a morning keyword turns 12 into 0. */
  function DayPartHour(hour: int, ampm: Option<AmPm>, morning: bool, afternoon: bool): int {
    if ampm.Some? then
      if hour == 12 then (if ampm.value == Am then 0 else 12)
      else if ampm.value == Pm then hour + 12 else hour
    else if 1 <= hour <= 12 then
      if afternoon then (if hour != 12 then hour + 12 else hour)
      else if morning then (if hour == 12 then 0 else hour)
      else hour
    else hour
  }

  /** The reading of a twelve-hour clock: hour 12 stands for 0, and the afternoon adds 12. */
  function ClockHour(hour: int, afternoon: bool): int {
    hour % 12 + (if afternoon then 12 else 0)
  }

  /** For hours 1 to 12 the conversion is the twelve-hour clock, afternoon chosen by pm,
      or without am/pm by an afternoon keyword, or by nothing when only a morning keyword
      is present; with no marker at all the hour is kept. */
  lemma DayPartTwelveHourClock(hour: int, ampm: Option<AmPm>, morning: bool, afternoon: bool)
    requires 1 <= hour <= 12
    ensures ampm.Some? ==> DayPartHour(hour, ampm, morning, afternoon) == ClockHour(hour, ampm.value == Pm)
    ensures ampm.None? && afternoon ==> DayPartHour(hour, ampm, morning, afternoon) == ClockHour(hour, true)
    ensures ampm.None? && !afternoon && morning ==> DayPartHour(hour, ampm, morning, afternoon) == ClockHour(hour, false)
    ensures ampm.None? && !afternoon && !morning ==> DayPartHour(hour, ampm, morning, afternoon) == hour
  {
  }

  /** Outside 1 to 12 the keywords change nothing, am keeps the hour and pm adds 12, so
      "13 pm" becomes 25. */
  lemma DayPartOutsideTwelve(hour: int, ampm: Option<AmPm>, morning: bool, afternoon: bool)
    requires !(1 <= hour <= 12)
    ensures DayPartHour(hour, ampm, morning, afternoon) == hour + (if ampm == Some(Pm) then 12 else 0)
  {
  }

  /** An hour of 0 to 23 stays a valid hour except with pm after 12. */
  lemma DayPartInRange(hour: int, ampm: Option<AmPm>, morning: bool, afternoon: bool)
    requires 0 <= hour <= 23
    ensures 0 <= DayPartHour(hour, ampm, morning, afternoon)
    ensures DayPartHour(hour, ampm, morning, afternoon) <= 23 <==> !(ampm == Some(Pm) && hour > 12)
  {
  }

  /** `month * 100 + day`, the key dates are compared by. */
  function DateKey(month: int, day: int): int {
    month * 100 + day
  }

  /** The day and month of a date token, `Number(dateMatch[1])` and `Number(dateMatch[2])`. */
  function TokenDayMonth(tok: DateToken): (int, int)
    requires AllDigits(tok.day) && AllDigits(tok.month)
  {
    (DecimalValue(tok.day), DecimalValue(tok.month))
  }

  /** The date token found in t, if any, as (day, month). */
  function SpokenDayMonth(t: string): (r: Option<(int, int)>)
    ensures r.Some? <==> FindDate(t).Some?
    ensures r.Some? ==> r.value.0 >= 0 && r.value.1 >= 0
  {
    var date := FindDate(t);
    if date.Some? then Some(TokenDayMonth(date.value)) else None
  }

  /** The hour and minute of the time token found in t, if any. */
  function SpokenHourMinute(t: string): (r: Option<(int, int)>)
    ensures r.Some? <==> FindTime(t).Some?
    ensures r.Some? ==> r.value.0 >= 0 && r.value.1 >= 0
  {
    var time := FindTime(t);
    if time.None? then None
    else
      var tok := time.value;
      Some((DecimalValue(tok.hour), if tok.minute.Some? then DecimalValue(tok.minute.value) else 0))
  }

  predicate DayMonthInRange(dm: (int, int)) {
    1 <= dm.0 <= 31 && 1 <= dm.1 <= 12
  }

  /** The year: today's, or the next one when a spoken date falls before today. */
  function ResolveYear(dm: Option<(int, int)>, today: YMD): int {
    if dm.Some? && DateKey(dm.value.1, dm.value.0) < DateKey(today.month, today.day) then today.year + 1
    else today.year
  }

  /** Lines 236-296 of `parseSpokenDateTime` on normalised text t, up to the call of
      `makeUtcFromLocal`: the local fields to convert, or the error thrown on the way.
      An invalid `today` (all NaN in the source) makes the conversion fail, so it is
      `INVALID_TIME` here. */
  function ResolveFields(t: string, now: TimeValue, off: int): (r: Result<LocalFields, TimeError>)
    ensures r.Err? ==> r.error != InvalidDateObject
    ensures r.Ok? ==> && LocalYMD(now, off).Some? && 1 <= r.value.month <= 12 && 1 <= r.value.day <= 31
                      && 0 <= r.value.hour <= 35 && 0 <= r.value.minute <= 59
  {
    var today := LocalYMD(now, off);
    var dm := SpokenDayMonth(t);
    if dm.Some? && !DayMonthInRange(dm.value) then Err(InvalidTime)
    else
      var hm := SpokenHourMinute(t);
      if hm.None? then Err(MissingTimeOfDay)
      else if hm.value.0 > 23 || hm.value.1 > 59 then Err(InvalidTime)
      else if today.None? then Err(InvalidTime)
      else
        var y := today.value;
        var (day, month) := if dm.Some? then dm.value else (y.day, y.month);
        var hour := DayPartHour(hm.value.0, FindTime(t).value.ampm, HasMorning(t), HasAfternoon(t));
        assert DaysInMonth(y.year, y.month - 1) <= 31;
        DayPartInRange(hm.value.0, FindTime(t).value.ampm, HasMorning(t), HasAfternoon(t));
        Ok(LocalFields(ResolveYear(dm, y), month, day, hour, hm.value.1))
  }

  /** `parseSpokenDateTime(timeText, { tzOffsetMinutes, nowUtc })`: the instant the
      text names, in milliseconds, or the error thrown. */
  function ParseSpokenDateTime(text: string, off: int, now: TimeValue): (r: Result<int, TimeError>)
    ensures Trim(text) == [] ==> r == Err(InvalidTime)
    ensures r.Err? ==> r.error != InvalidDateObject
    ensures r.Ok? ==> -MaxTime <= r.value <= MaxTime
  {
    var raw := Trim(text);
    if raw == [] then Err(InvalidTime)
    else
      match ResolveFields(Normalize(raw), now, off)
      case Err(e) => Err(e)
      case Ok(f) => MakeUtcFromLocal(f, off)
  }

  /** End to end: the instant parsed from the text, formatted with the same offset, is
      the wire text of the fields the text resolved to, whenever those are a valid date
      and time. */
  lemma ParseThenFormat(text: string, off: int, now: TimeValue)
    requires Trim(text) != [] && ParseSpokenDateTime(text, off, now).Ok?
    requires var f := ResolveFields(Normalize(Trim(text)), now, off).value;
      ValidFields(f) && !(0 <= f.year <= 99)
    ensures FormatMDYHM(Finite(ParseSpokenDateTime(text, off, now).value), off)
      == Ok(WireText(ResolveFields(Normalize(Trim(text)), now, off).value))
  {
    FormatMakeUtcRoundTrip(ResolveFields(Normalize(Trim(text)), now, off).value, off);
  }

  /** When every check passes, the fields are the spoken (or today's) day and month, the
      year rule's year, the converted hour and the spoken minute. */
  lemma ResolveFieldsValue(t: string, now: TimeValue, off: int, day: int, month: int, hour: int, minute: int)
    requires LocalYMD(now, off).Some?
    requires SpokenDayMonth(t).None? || SpokenDayMonth(t) == Some((day, month))
    requires SpokenDayMonth(t).None? ==> day == LocalYMD(now, off).value.day && month == LocalYMD(now, off).value.month
    requires 1 <= day <= 31 && 1 <= month <= 12
    requires SpokenHourMinute(t) == Some((hour, minute)) && hour <= 23 && minute <= 59
    ensures ResolveFields(t, now, off) == Ok(LocalFields(ResolveYear(SpokenDayMonth(t), LocalYMD(now, off).value), month, day,
      DayPartHour(hour, FindTime(t).value.ampm, HasMorning(t), HasAfternoon(t)), minute))
  {
  }

  /** A spoken date decides day and month: a day outside 1..31 or a month outside 1..12
      is `INVALID_TIME` before anything else is looked at, and otherwise the result
      carries that day and month. */
  lemma ResolveSpokenDate(t: string, now: TimeValue, off: int, tok: DateToken)
    requires FindDate(t) == Some(tok)
    ensures var day, month := DecimalValue(tok.day), DecimalValue(tok.month);
      && (!(1 <= day <= 31 && 1 <= month <= 12) ==> ResolveFields(t, now, off) == Err(InvalidTime))
      && (ResolveFields(t, now, off).Ok? ==> ResolveFields(t, now, off).value.day == day && ResolveFields(t, now, off).value.month == month)
  {
  }

  /** Without a spoken date the result is today's local day, month and year. */
  lemma ResolveWithoutDate(t: string, now: TimeValue, off: int)
    requires FindDate(t).None? && ResolveFields(t, now, off).Ok?
    ensures var f := ResolveFields(t, now, off).value;
      f.year == LocalYMD(now, off).value.year && f.month == LocalYMD(now, off).value.month && f.day == LocalYMD(now, off).value.day
  {
  }

  /** `MISSING_TIME_OF_DAY` is the outcome exactly when the date (if any) is in range and
      the time pattern matches nowhere in the text. */
  lemma ResolveMissingTime(t: string, now: TimeValue, off: int)
    ensures ResolveFields(t, now, off) == Err(MissingTimeOfDay) <==>
      && (FindDate(t).Some? ==> DayMonthInRange(SpokenDayMonth(t).value))
      && forall j, l, m, k, ap :: !TimeShape(t, j, l, m, k, ap)
  {
    FindTimeLeftmost(t);
    if FindTime(t).Some? {
      var tok := FindTime(t).value;
      assert TimeShape(t, tok.at, |tok.hour|, tok.minute.Some?, tok.spaces, tok.ampm);
    }
  }

  /** The hour and minute are range-checked as spoken, before the am/pm conversion; the
      result's hour is the converted one. */
  lemma ResolveSpokenTime(t: string, now: TimeValue, off: int, tok: TimeToken)
    requires FindTime(t) == Some(tok)
    ensures var hour := DecimalValue(tok.hour);
      var minute := if tok.minute.Some? then DecimalValue(tok.minute.value) else 0;
      && (hour > 23 || minute > 59 ==> ResolveFields(t, now, off) == Err(InvalidTime))
      && (ResolveFields(t, now, off).Ok? ==>
            && ResolveFields(t, now, off).value.hour == DayPartHour(hour, tok.ampm, HasMorning(t), HasAfternoon(t))
            && ResolveFields(t, now, off).value.minute == minute)
  {
  }

  /** Year rollover: a spoken date lands on its next occurrence counted from today, in
      the year-and-key order: not before today and less than a year after it. Equal
      keys keep the current year. */
  lemma ResolveNextOccurrence(t: string, now: TimeValue, off: int)
    requires FindDate(t).Some? && ResolveFields(t, now, off).Ok?
    ensures var f, y := ResolveFields(t, now, off).value, LocalYMD(now, off).value;
      var key, todayKey := f.year * 10000 + DateKey(f.month, f.day), y.year * 10000 + DateKey(y.month, y.day);
      todayKey <= key < todayKey + 10000
  {
    var dm := SpokenDayMonth(t);
    var y := LocalYMD(now, off).value;
    var f := ResolveFields(t, now, off).value;
    assert f.day == dm.value.0 && f.month == dm.value.1 && f.year == ResolveYear(dm, y);
    assert DaysInMonth(y.year, y.month - 1) <= 31;
  }

  // ---------------------------------------------------------------------------
  // buildStartEndFromTimeText
  // ---------------------------------------------------------------------------

  /** The start and end of an appointment, as wire text and as instants. */
  datatype Window = Window(startTime: string, endTime: string, startUtc: int, endUtc: int)

  /** `durationMinutes`, 30 when the argument is left out. */
  function DurationOrDefault(duration: Option<int>): int {
    duration.GetOr(DefaultDurationMinutes)
  }

  /** `buildStartEndFromTimeText(timeText, durationMinutes, { tzOffsetMinutes, nowUtc })`. */
  function BuildStartEnd(text: string, duration: Option<int>, off: int, now: TimeValue): (r: Result<Window, TimeError>)
    ensures ParseSpokenDateTime(text, off, now).Err? ==> r == Err(ParseSpokenDateTime(text, off, now).error)
    ensures r.Ok? ==> && ParseSpokenDateTime(text, off, now) == Ok(r.value.startUtc)
                      && r.value.endUtc - r.value.startUtc == DurationOrDefault(duration) * MsPerMinute
                      && Ok(r.value.startTime) == FormatMDYHM(Finite(r.value.startUtc), off)
                      && Ok(r.value.endTime) == FormatMDYHM(Finite(r.value.endUtc), off)
    ensures ParseSpokenDateTime(text, off, now).Ok? && r.Err? ==>
      && r.error == InvalidTime
      && TimeClip(ParseSpokenDateTime(text, off, now).value + DurationOrDefault(duration) * MsPerMinute).NaN?
  {
    match ParseSpokenDateTime(text, off, now)
    case Err(e) => Err(e)
    case Ok(start) =>
      match TimeClip(start + DurationOrDefault(duration) * MsPerMinute)
      case NaN => Err(InvalidTime)
      case Finite(end) =>
        Ok(Window(FormatMDYHM(Finite(start), off).value, FormatMDYHM(Finite(end), off).value, start, end))
  }
}
