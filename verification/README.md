# Ontiloo booking bridge: spoken time resolution, request validators and booking decisions

This project models, in Dafny, the core of a small Node.js service that takes a booking
requested by a voice agent and books it with the Ontiloo salon-booking service. It has
three parts.

- **Spoken date and time** (`src/time.js`, the live code from line 171 on). A phrase such
  as "3 chiều 15/2" or "10:30 am" becomes an instant, and an instant becomes Ontiloo's
  `MM/DD/YYYY HH:mm` wall-clock text for a fixed offset from UTC.
  - The phrase is normalised: lower case, commas replaced by spaces, whitespace runs
    collapsed to one space, and the ends trimmed.
  - Two regular expressions then look for a `d/m` date and an `h[:mm] [am|pm]` time.
  - Three keyword tests look for the Vietnamese day parts sáng, chiều, tối and đêm.
  - The hour goes through the 12-hour conversion. The year is today's, or the next one
    when a spoken date has already passed.
  - `Date.UTC`, the offset and the `Date` getters are modelled as section 21.4.1 of
    ECMA-262 defines them (MakeDay, MakeTime, TimeClip, MakeFullYear, the year and month
    functions). A `Date` is a time value: whole milliseconds, or NaN.
  - The result is a start and end window.
- **Validators** (`src/validators.js`).
  - Phone numbers keep only their digits.
  - `YYYY-MM-DD HH:mm` is rewritten to `MM/DD/YYYY HH:mm`.
  - An instant is rounded up to a multiple of N minutes.
- **Booking decisions** (`src/server.js`, the `/v1/ontiloo/appointments/create` handler).
  - The handler is a method with early returns: it validates the request, creates the
    customer if needed, maps the items with their defaults, builds the booking payload
    and picks the appointment id out of the answer.
  - The defaulting and the `??` chains are functions over a JSON value type. That type
    tells missing and `null` (nullish for `??` and `?.`) apart from the other falsy
    values (`false`, `0`, `""`).
  - The answers of the two calls to the booking service are parameters.

Modules, one per file: `Text` (characters, trimming, decimal text), `Wrappers` (Option,
Result), `Calendar` (ECMA-262 date arithmetic), `JsValue` (JSON values and the JavaScript
conversions the handler relies on), `OntilooFormat` (the wire text layout), `SpokenScan`
(normalisation and the regular-expression scans), `SpokenTime` (the functions of
time.js), `SpokenExamples` (worked inputs), `Validators`, `Booking`.

Where the code's behaviour differs from the behaviour described for the system, the model
follows the code.
- In "15/2 10am" the time pattern first matches the day "15", so the hour is 15 and not 10.
  A date with no time, such as "15/2", is read the same way and does not fail with
  `MISSING_TIME_OF_DAY`.
- "10h" fails with `MISSING_TIME_OF_DAY`: there is no word boundary between "0" and "h".
- "13 pm" passes the range check, which runs before the conversion, and becomes hour 25.
  `Date.UTC` then carries it into the next day.
- "31/2" passes the day check and `Date.UTC` carries it into March.
- No rule moves a time that has already passed today to tomorrow. Only a spoken date that
  falls before today moves to the next year.
- The default service list is never empty, because splitting a string always gives at
  least one piece. So `MISSING_SERVICE_IDS` cannot be answered.
- An item answered with `MISSING_STAFF_ID` does not stop the request. The client receives
  that 400 answer.
  - With exactly one such item, `bookAppointments` is still called, with the response
    object in the item's place. Serialising that object throws, so nothing is sent to the
    booking service.
  - With two, the second answer throws inside `items.map`, because the response was already
    sent, so `bookAppointments` is not called.

## Model

| member | source | states |
|---|---|---|
| Text.Pad2 | src/time.js:171-173 | for 0 ≤ n < 100 the text is two digits that read back as n |
| Calendar.CalendarDateRoundTrip | src/time.js:209 | the year, month and date read from `Date.UTC`'s day number of a valid date are that date |
| Calendar.DayNumberRoundTrip | src/time.js:199-202 | every day number is the day of the valid date its getters read |
| Calendar.TimeFieldsRoundTrip | src/time.js:188-189 | the hour and minute getters of a time built from an in-range hour and minute give them back |
| Calendar.TimeClip | src/time.js:209 | a time value is kept exactly when it is within 8.64e15 ms of the epoch, and is NaN otherwise |
| Calendar.YearFromDayUnique | src/time.js:185 | the year getter gives the one year whose days contain the day |
| Calendar.MonthInYearOf | src/time.js:186 | the month getter gives the month whose first day is at or before the day and whose next month starts after it |
| SpokenTime.FieldsOf | src/time.js:185-189 | the UTC getters of any instant give a valid month, day, hour and minute |
| SpokenTime.FormatMDYHM | src/time.js:176-192 | a NaN date fails with `INVALID_DATE_OBJECT` and only a NaN date fails; a shifted time outside the time range gives "NaN/NaN/NaN NaN:NaN" |
| SpokenTime.WireTextShape | src/time.js:185-191 | for years 1000..9999 the text has the 16-character `MM/DD/YYYY HH:mm` shape and each field reads back as its value |
| SpokenTime.LocalYMD | src/time.js:194-204 | the local day is None exactly for a NaN instant or a shift out of the time range, and otherwise is a valid date |
| SpokenTime.MakeUtcFromLocal | src/time.js:207-213 | the result is within the time range, and the only error is `INVALID_TIME` |
| SpokenTime.MakeUtcFromLocalValue | src/time.js:207-213 | outside years 0..99 the result is `Date.UTC` of the fields minus the offset, and `INVALID_TIME` exactly when either lies outside the time range |
| SpokenTime.FieldsOfLocal | src/time.js:185-189 | the UTC getters of `Date.UTC` of valid fields give those fields back |
| SpokenTime.LocalFieldsRoundTrip | src/time.js:207-213 | reading the local fields of the built instant with the same offset gives the fields back |
| SpokenTime.FormatMakeUtcRoundTrip | src/time.js:176-213 | formatting the instant built from valid fields, with the same offset, gives those fields zero-padded, and the local day is their date |
| SpokenTime.MakeUtcFromLocalDefined | src/time.js:209-211 | four-digit years with an offset under 10^9 minutes never fail |
| SpokenScan.Lowercase | src/time.js:229 | each character is lowercased in place |
| SpokenScan.CommasToSpaces | src/time.js:230 | commas become spaces and nothing else changes |
| SpokenScan.CollapseSpaces | src/time.js:231 | a whitespace run becomes one space where it starts, and any other first character is kept |
| SpokenScan.CollapseRun | src/time.js:231 | a whitespace run in front of text not starting with whitespace becomes one space |
| SpokenScan.CollapseAppend | src/time.js:231 | text that does not end in whitespace collapses independently of what follows it |
| SpokenScan.CollapseSpaceRun | src/time.js:231 | a whitespace run between text not ending and text not starting with whitespace becomes exactly one space, each side collapsing on its own |
| SpokenScan.InnerFormOfCollapse | src/time.js:229-231 | after lowercasing, replacing commas and collapsing, no whitespace but single spaces is left and no two spaces are adjacent |
| SpokenScan.CollapseFixed | src/time.js:231 | text with single spaces only and no two adjacent is left unchanged |
| SpokenScan.NormalFormOfTrim | src/time.js:232 | trimming collapsed text leaves no space at either end and keeps the other properties |
| SpokenScan.NormalizeShape | src/time.js:228-232 | the normalised text is lower case, comma-free, trimmed, with single spaces only |
| SpokenScan.NormalizeContent | src/time.js:228-232 | the characters other than whitespace and commas are kept in order, lowercased |
| SpokenScan.NormalizeIdempotent | src/time.js:228-232 | normalising twice is normalising once |
| SpokenScan.MatchDateAt | src/time.js:236 | an attempt at a position that succeeds is a match of the date pattern there |
| SpokenScan.MatchDateAtComplete | src/time.js:236 | an attempt fails only where the date pattern cannot match |
| SpokenScan.FindDateFrom | src/time.js:236 | a date found is a match whose groups are the digits at its place |
| SpokenScan.FindDateLeftmost | src/time.js:236 | the date found is the leftmost match, and none is found only when the pattern matches nowhere |
| SpokenScan.SpaceRun | src/time.js:253 | the whitespace run at a position is maximal |
| SpokenScan.TryAmPm | src/time.js:253 | the am/pm group takes am when am fits, pm when only pm does, and otherwise nothing, and fails only when none is followed by a word boundary |
| SpokenScan.TryAmPmFirst | src/time.js:253 | wherever some am/pm choice fits, the one taken ranks no later in the order am, pm, nothing |
| SpokenScan.TrySpaces | src/time.js:253 | a success is a count within the run with the am/pm part that fits after it, and a failure means no length of the run lets the rest match |
| SpokenScan.TrySpacesFirst | src/time.js:253 | `\s*` backs off from the longest run: the choice taken has at least as many spaces as any that fits, and with as many a no later am/pm |
| SpokenScan.TryTail | src/time.js:253 | a success is a run of spaces followed by a matching am/pm part |
| SpokenScan.TryTailFirst | src/time.js:253 | whenever some run of spaces and am/pm part match, the tail succeeds with the choice the regex prefers: most spaces, then am, pm, nothing |
| SpokenScan.TryMinutes | src/time.js:253 | a success is the minute group (when taken) and a matching tail, and the minute group is taken whenever a tail matches after it |
| SpokenScan.TryMinutesFirst | src/time.js:253 | whenever any choice of minute group, spaces and am/pm matches, the one taken is no later: with minutes before without, then the tail order |
| SpokenScan.MatchTimeAt | src/time.js:253 | an attempt that succeeds is a match of the time pattern at that position, and takes a two-digit hour whenever the rest matches after one |
| SpokenScan.MatchTimeAtFirst | src/time.js:253 | wherever the time pattern matches, the attempt succeeds with the shape the regex prefers: two-digit hour, then minutes, then most spaces, then am, pm, nothing |
| SpokenScan.MatchTimeAtComplete | src/time.js:253 | an attempt fails only where the time pattern has no match |
| SpokenScan.TimeTokenOf | src/time.js:253 | the token of a match holds the hour and minute digits at its place |
| SpokenScan.FindTimeFrom | src/time.js:253 | a time found is a match whose groups are the text at its place |
| SpokenScan.FindTimeFromLeftmost | src/time.js:253 | no match of the pattern starts between the scan start and the token found, and none at all when nothing is found |
| SpokenScan.FindTimeFromPreferred | src/time.js:253 | the token found has the preferred shape among all matches at its position |
| SpokenScan.FindTimeLeftmost | src/time.js:253 | the time found is the leftmost match and, among the matches there, the one the regex prefers; none is found only when the pattern matches nowhere |
| SpokenScan.TestKeywordFrom | src/time.js:269-270 | the keyword test finds a whole-word occurrence, and says no only when there is none |
| SpokenScan.TestKeywordSpec | src/time.js:269-270 | the keyword test is true exactly when the word occurs between word boundaries |
| SpokenScan.DemNeedsGluedWordChar | src/time.js:270 | "đêm" only matches right after an ASCII word character, because its first letter is not ASCII |
| SpokenScan.SpacedKeywordFound | src/time.js:269-270 | "sáng", "chiều" and "tối" standing between spaces or text ends are found |
| SpokenTime.DayPartTwelveHourClock | src/time.js:272-285 | for hours 1..12: am/pm is the 12-hour clock, an afternoon keyword means pm and wins over sáng, sáng means am, and no keyword keeps the hour |
| SpokenTime.DayPartOutsideTwelve | src/time.js:272-285 | outside 1..12 the keywords change nothing, am keeps the hour and pm adds 12 |
| SpokenTime.DayPartInRange | src/time.js:264-285 | a checked hour stays within 0..23 exactly unless pm follows an hour above 12 |
| SpokenTime.SpokenDayMonth | src/time.js:241-243 | a day and month are read exactly when the date pattern matches |
| SpokenTime.SpokenHourMinute | src/time.js:260-261 | an hour and minute are read exactly when the time pattern matches |
| SpokenTime.ResolveFields | src/time.js:236-296 | the result is a month 1..12, a day 1..31, a minute 0..59 and an hour 0..35, and needs a defined today |
| SpokenTime.ResolveFieldsValue | src/time.js:236-296 | when every check passes, the fields are the spoken or today's date, the rollover year, the converted hour and the spoken minute |
| SpokenTime.ResolveSpokenDate | src/time.js:241-244 | a spoken day outside 1..31 or month outside 1..12 is `INVALID_TIME`, and otherwise decides the day and month |
| SpokenTime.ResolveWithoutDate | src/time.js:245-249 | with no date spoken, the result is today's local date |
| SpokenTime.ResolveMissingTime | src/time.js:253-258 | `MISSING_TIME_OF_DAY` exactly when any spoken date is in range and the time pattern matches nowhere |
| SpokenTime.ResolveSpokenTime | src/time.js:260-285 | the hour and minute are range-checked as spoken, before the conversion, and the result carries the converted hour |
| SpokenTime.ResolveNextOccurrence | src/time.js:287-296 | a spoken date lands on its next occurrence: not before today and less than a year after it, equal dates staying in this year |
| SpokenTime.ParseSpokenDateTime | src/time.js:224-298 | blank text fails with `INVALID_TIME`, and a result is always within the time range |
| SpokenTime.ParseThenFormat | src/time.js:224-298 | the parsed instant formatted with the same offset is the resolved wall-clock fields |
| SpokenTime.BuildStartEnd | src/time.js:301-317 | the start is the parsed instant, the end is exactly the duration (default 30 minutes) later, both texts use the same offset, and an end out of range is `INVALID_TIME` |
| SpokenExamples.DayTakenAsHour | src/time.js:253 | in "15/2 10am" the time pattern matches "15" first |
| SpokenExamples.DayTakenAsHourResolved | src/time.js:236-285 | "15/2 10am" resolves to hour 15 |
| SpokenExamples.BareHourWithH | src/time.js:253-258 | "10h" fails with `MISSING_TIME_OF_DAY` |
| SpokenExamples.DateOutOfRange | src/time.js:244 | "32/13 10am" fails with `INVALID_TIME` |
| SpokenExamples.ThirteenPmToken | src/time.js:253 | "13 pm" matches the hour "13" with pm |
| SpokenExamples.ThirteenPm | src/time.js:264-275 | "13 pm" becomes hour 25 |
| SpokenExamples.AfternoonTimeToken | src/time.js:253 | in "3 chiều 15/2" the time match is "3 " with no am/pm |
| SpokenExamples.AfternoonDateToken | src/time.js:236 | in "3 chiều 15/2" the date match is "15/2" |
| SpokenExamples.AfternoonFound | src/time.js:270 | "chiều" is found in "3 chiều 15/2" |
| SpokenExamples.AfternoonKeyword | src/time.js:269-285 | "3 chiều 15/2" resolves to 15:00 on 15 February |
| SpokenExamples.NewYearTokens | src/time.js:236-270 | in "1/1" the "1" is both the day and the hour, with no keyword |
| SpokenExamples.NewYearRollover | src/time.js:287-296 | "1/1" said on 31 December resolves to 1 January of the next year at 01:00 |
| SpokenExamples.FebruaryThirtyFirst | src/time.js:209 | `Date.UTC` carries 31 February into 3 March |
| OntilooFormat.LayoutShape | src/validators.js:30 | two-digit month, day, hour and minute with a four-digit year lay out as the 16-character wire shape, each piece at its place |
| Validators.Digits | src/validators.js:15 | the result is digits only and no longer than the input |
| Validators.DigitsAppend | src/validators.js:15 | removing non-digits works piece by piece, so the order of the digits is kept |
| Validators.DigitsOfChar | src/validators.js:15 | a single character is kept exactly when it is a digit |
| Validators.DigitsOfAllDigits | src/validators.js:15 | a string of digits is kept whole |
| Validators.NormalizePhone | src/validators.js:12-17 | the result is digits only, and "" for a falsy input |
| Validators.NormalizePhoneIdempotent | src/validators.js:12-17 | normalising a normalised phone number changes nothing |
| Validators.Rearrange | src/validators.js:29-30 | the rewrite has the wire shape with the month, day, year, hour and minute groups moved to their places |
| Validators.ToOntilooDateTime | src/validators.js:23-31 | "" for a falsy input; `INVALID_DATETIME_FORMAT` exactly when the trimmed text lacks the 4-2-2 2:2 shape; otherwise the wire shape |
| Validators.ToOntilooRoundTrip | src/validators.js:27-30 | the rewrite of a `YYYY-MM-DD HH:mm` string can be undone |
| Validators.CeilDiv | src/validators.js:55 | the ceiling of a quotient, for either sign of the divisor |
| Validators.RoundUpMinutes | src/validators.js:52-56 | a NaN date or a zero step gives NaN |
| Validators.RoundUpBounds | src/validators.js:52-55 | for a positive step the result is a multiple of it, not below the input and less than one step above it |
| Validators.RoundUpAligned | src/validators.js:52-55 | an instant already on a multiple of the step is unchanged |
| Validators.RoundUpIdempotent | src/validators.js:52-55 | rounding twice is rounding once |
| JsValue.Prop | src/server.js:30 | a property of a non-object is undefined, and an object's field is its value |
| JsValue.Coalesce | src/server.js:30 | `a ?? b` is b exactly when a is nullish |
| JsValue.CoalesceAll | src/server.js:48-52 | a `??` chain gives one of its values, a non-nullish one exactly when there is one, and the last when all are nullish |
| JsValue.CoalesceAllSkips | src/server.js:139-144 | a `??` chain gives the first value that is not nullish |
| JsValue.NumberOfString | src/server.js:129 | `Number(String(n))` is n |
| Booking.DefaultServiceIds | src/server.js:68-70 | the default list has one number per configured id, in order |
| Booking.BodyOf | src/server.js:16 | a falsy request body is read as `{}` |
| Booking.OptionalTrim | src/server.js:34-36 | `?.trim()` gives undefined for a nullish value and the trimmed text of a string, and throws exactly for a value that is neither |
| Booking.CustomerInfo | src/server.js:33-36 | the phone is the normalised digits; name, email and birth date are `?.trim()` of the customer's fields; reading fails exactly when one of them is neither nullish nor a string |
| Booking.CreatedCustomerIdOrder | src/server.js:48-52 | `id` wins, then `data.id`; the id is nullish exactly when all four fields are |
| Booking.RequestStaffOf | src/server.js:85-88 | staff is requested unless the item says `requestStaff: false` |
| Booking.ServiceIdsOf | src/server.js:90-93 | the item's own non-empty array, else the default list |
| Booking.MapItem | src/server.js:81-123 | a nullish item throws; a bad date throws; a mapped item carries the rewritten times, its staff choice and services, and a `staffId` exactly when staff is requested; `MISSING_STAFF_ID` exactly when staff is requested and the staff id is falsy |
| Booking.MissingServiceIdsUnreachable | src/server.js:90-101 | with a non-empty default list no item is answered `MISSING_SERVICE_IDS` |
| Booking.StaffRequestedByDefault | src/server.js:85-120 | a mapped item lacks `staffId` exactly when it says `requestStaff: false` |
| Booking.MapItems | src/server.js:81-123 | a complete mapping has one outcome per item, in order; an aborted one stops at the first item that throws |
| Booking.MapItemsCompleteIff | src/server.js:81-123 | the mapping completes exactly when no item throws |
| Booking.FirstRejection | src/server.js:95-118 | the first item answered with an error, and none exactly when every item is mapped |
| Booking.RejectionCount | src/server.js:95-118 | the number of items answered with an error is zero exactly when there is no first one |
| Booking.BuildPayload | src/server.js:128-135 | the payload holds `Number(customerId)`, the items in order, and the body's group, note, reference id and source type, or their defaults |
| Booking.PayloadDefaults | src/server.js:128-135 | a body without the optional fields gets the default group, "" note and reference id, and the default source type |
| Booking.AppointmentIdDefined | src/server.js:139-144 | the appointment id is never undefined, and is null exactly when the answer carries none of the four id fields |
| Booking.ResolveCustomer | src/server.js:27-62 | the handler goes on exactly when the customer is resolved, with that customer's id; a customer is created exactly when no id is given and contact data exists; otherwise the reply is `MISSING_CUSTOMER_INFO`, `CUSTOMER_CREATE_FAILED` with the raw answer, or the exception, each in its case |
| Booking.BookItems | src/server.js:64-144 | `bookAppointments` is called with the built payload exactly when every item maps and at most one is answered; the first answered item is the reply; a booking with no answered item reports the extracted appointment id, and a thrown booking call throws |
| Booking.CreateAppointment | src/server.js:16-144 | `INVALID_REQUEST` before any customer work; a customer is created exactly when no id is given and contact data exists; `MISSING_CUSTOMER_INFO` and `CUSTOMER_CREATE_FAILED` exactly in their cases; `bookAppointments` is called with the built payload exactly when the customer is resolved, every item maps and at most one is answered; the first answered item is the reply; a booking with no answered item reports the extracted appointment id |
| Booking.RejectedItemPassedToBooking | src/server.js:95-137 | one item with `staffId: 0` is answered `MISSING_STAFF_ID`, yet `bookAppointments` is called with the answered item in its place |
| Booking.TwoRejectedItemsNotBooked | src/server.js:95-137 | two such items are answered `MISSING_STAFF_ID` and `bookAppointments` is not called |

## Left out

- I/O and the web framework are not modelled: the Express app, `listen`, the JSON body
  parser, `console.log` and the `await`s. The answers of `addCustomer` and
  `bookAppointments` are parameters (None when the call threw).
- `requireSecret` (src/validators.js:1-10) is HTTP middleware and is not modelled.
- BookItems: the TypeError that `bookAppointments` throws while serialising the response
  object standing in for an answered item is not modelled; the model returns the payload
  of the call and the first answer, which is the reply either way.
- src/ontiloo.js is not part of this model. It is the HTTP client: headers, base URL,
  `fetch`, the error payloads it throws, and the truthy-field copy `addCustomer` makes.
- The `catch` block of the handler (src/server.js:152-176) is not modelled. The model
  reports the exception that reaches it (`Booking.Reply.Throws`) instead of its status
  mapping, and does not model what follows a second answer on an already-answered
  response.
- The default `tzOffsetMinutes` of 420 (UTC+7) is not applied: the offset is always a
  parameter of the modelled functions.
- `formatYMDHM` and `getNowWithOffsetMinutes` (src/validators.js:35-50) read the host's
  clock and time zone, and the `new Date()` defaults read the clock. The current instant
  is a parameter.
- Environment variables are not read. The defaults are a `Booking.Config` with the
  built-in values as `Booking.DefaultConfig`. `Number(...)` of a malformed environment
  value (NaN) is not modelled.
- The commented-out dayjs code of src/time.js (lines 1-169) is dead and is not modelled.
- Numbers are integers. Fractional JSON numbers, fractional offsets and durations,
  `Infinity` and `-0` are not modelled.
- JsValue.ToJsString: numbers are written as integers; the exponent forms `String` uses
  for very large values are not modelled.
- JsValue.StringToNumber: reads blank text, decimal digits and an optional sign.
  Fractions, exponents, hexadecimal and "Infinity" give None as if NaN.
- SpokenScan.LowerChar: lowercases ASCII letters and the capitals of the keyword letters
  (Á, Ê, Đ, Ề, Ố) only; full Unicode case mapping is not modelled.
- SpokenTime.ParseSpokenDateTime: the text is a string; `String(timeText || "")` on
  non-string inputs is not modelled.
- Validators.RoundUpMinutes: modelled as exact integer ceiling division; the
  floating-point division of the source is not modelled. The bounds and idempotence
  lemmas are stated for a positive step.
- The random choice of services and staff from pools, and appointment cancelling, do not
  occur in this code and are not modelled.
