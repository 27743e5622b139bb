/** src/validators.js: phone normalisation, the `YYYY-MM-DD HH:mm` to Ontiloo date-time
    rewrite, and rounding an instant up to a whole number of minutes. */
module Validators {
  import opened Text
  import opened Wrappers
  import opened Calendar
  import opened JsValue
  import opened OntilooFormat

  // ---------------------------------------------------------------------------
  // normalizePhone
  // ---------------------------------------------------------------------------

  /** `s.replace(/\D+/g, "")`: the ASCII digits of s, in order. */
  function Digits(s: string): (r: string)
    ensures AllDigits(r) && |r| <= |s|
  {
    if s == [] then []
    else (if IsDigit(s[0]) then [s[0]] else []) + Digits(s[1..])
  }

  /** Removing non-digits works piece by piece: the digits of a + b are the digits of a
      followed by the digits of b. With DigitsOfChar this pins Digits down as the
      order-keeping filter of the digit characters. */
  lemma {:induction false} DigitsAppend(a: string, b: string)
    ensures Digits(a + b) == Digits(a) + Digits(b)
  {
    if a != [] {
      assert (a + b)[0] == a[0];
      assert (a + b)[1..] == a[1..] + b;
      DigitsAppend(a[1..], b);
    } else {
      assert a + b == b;
    }
  }

  lemma DigitsOfChar(c: char)
    ensures Digits([c]) == if IsDigit(c) then [c] else []
  {
    assert [c][1..] == [];
  }

  /** A string of digits is left as it is. */
  lemma {:induction false} DigitsOfAllDigits(s: string)
    requires AllDigits(s)
    ensures Digits(s) == s
  {
    if s != [] {
      DigitsOfAllDigits(s[1..]);
    }
  }

  /** `normalizePhone(input)`: "" for a falsy input, otherwise the digits of `String(input)`. */
  function NormalizePhone(input: Json): (r: string)
    ensures AllDigits(r)
    ensures Falsy(input) ==> r == ""
  {
    if Falsy(input) then "" else Digits(ToJsString(input))
  }

  /** A phone number that is already normalised stays as it is. */
  lemma NormalizePhoneIdempotent(input: Json)
    ensures NormalizePhone(Str(NormalizePhone(input))) == NormalizePhone(input)
  {
    var r := NormalizePhone(input);
    if r != "" {
      DigitsOfAllDigits(r);
    }
  }

  // ---------------------------------------------------------------------------
  // toOntilooDateTime
  // ---------------------------------------------------------------------------

  /** The error `toOntilooDateTime` throws. */
  datatype FormatError = InvalidDatetimeFormat

  /** `/^(\d{4})-(\d{2})-(\d{2})[ T](\d{2}):(\d{2})$/`: digits everywhere except the two
      dashes, the space or `T` and the colon. */
  predicate IsoShape(s: string) {
    && |s| == 16 && s[4] == '-' && s[7] == '-' && (s[10] == ' ' || s[10] == 'T') && s[13] == ':'
    && forall i :: 0 <= i < 16 && i != 4 && i != 7 && i != 10 && i != 13 ==> IsDigit(s[i])
  }

  /** `${MM}/${dd}/${yyyy} ${HH}:${mm}` from the groups of an ISO-shaped string. */
  function Rearrange(s: string): (r: string)
    requires IsoShape(s)
    ensures OntilooShape(r)
    ensures r[0..2] == s[5..7] && r[3..5] == s[8..10] && r[6..10] == s[0..4]
    ensures r[11..13] == s[11..13] && r[14..16] == s[14..16]
  {
    var mm, dd, yy, hh, mi := s[5..7], s[8..10], s[0..4], s[11..13], s[14..16];
    assert AllDigits(mm) && AllDigits(dd) && AllDigits(hh) && AllDigits(mi);
    assert forall i :: 0 <= i < 4 ==> yy[i] == s[i];
    LayoutShape(mm, dd, yy, hh, mi);
    Layout(mm, dd, yy, hh, mi)
  }

  /** The inverse rewrite, Ontiloo's form back to `YYYY-MM-DD HH:mm`. */
  function Unarrange(r: string): string
    requires OntilooShape(r)
  {
    r[6..10] + "-" + r[0..2] + "-" + r[3..5] + " " + r[11..13] + ":" + r[14..16]
  }

  /** `toOntilooDateTime(ymdHm)`: "" for a falsy input; otherwise the trimmed text
      rewritten when it has the ISO shape, and `INVALID_DATETIME_FORMAT` when not. No
      field is range-checked. */
  function ToOntilooDateTime(input: Json): (r: Result<string, FormatError>)
    ensures Falsy(input) ==> r == Ok("")
    ensures r.Err? <==> !Falsy(input) && !IsoShape(Trim(ToJsString(input)))
    ensures r.Ok? && !Falsy(input) ==> OntilooShape(r.value)
  {
    if Falsy(input) then Ok("")
    else
      var s := Trim(ToJsString(input));
      if IsoShape(s) then Ok(Rearrange(s)) else Err(InvalidDatetimeFormat)
  }

  /** The rewrite loses nothing: for a `YYYY-MM-DD HH:mm` string, rewriting it back
      gives the input. */
  lemma ToOntilooRoundTrip(s: string)
    requires IsoShape(s) && s[10] == ' '
    ensures ToOntilooDateTime(Str(s)).Ok?
    ensures Unarrange(ToOntilooDateTime(Str(s)).value) == s
  {
    assert s[0] != ' ' && s[15] != ' ';
    TrimNoSpaces(s);
    assert s == s[0..4] + "-" + s[5..7] + "-" + s[8..10] + " " + s[11..13] + ":" + s[14..16];
  }

  // ---------------------------------------------------------------------------
  // roundUpMinutes
  // ---------------------------------------------------------------------------

  const DefaultRoundMinutes := 30

  /** `Math.ceil(a / b)` for integers, b not zero. */
  function CeilDiv(a: int, b: int): (q: int)
    requires b != 0
    ensures b > 0 ==> (q - 1) * b < a <= q * b
    ensures b < 0 ==> q * b <= a < (q - 1) * b
  {
    if b > 0 then -((-a) / b) else -(a / (-b))
  }

  /** `roundUpMinutes(date, roundTo)`: the instant rounded to the next multiple of
      roundTo minutes (to the previous one when roundTo is negative). A NaN date and a
      zero step give NaN, and so does a result outside the time range. */
  function RoundUpMinutes(date: TimeValue, roundTo: Option<int>): (r: TimeValue)
    ensures date.NaN? || roundTo.GetOr(DefaultRoundMinutes) == 0 ==> r.NaN?
  {
    var step := roundTo.GetOr(DefaultRoundMinutes) * MsPerMinute;
    if date.NaN? || step == 0 then NaN
    else TimeClip(CeilDiv(date.ms, step) * step)
  }

  /** For a positive step the result is the least multiple of the step at or above the
      input: a multiple, not below the input, and less than one step above it. */
  lemma RoundUpBounds(ms: int, roundTo: Option<int>)
    requires -MaxTime <= ms <= MaxTime
    requires roundTo.GetOr(DefaultRoundMinutes) > 0
    ensures var step, r := roundTo.GetOr(DefaultRoundMinutes) * MsPerMinute, RoundUpMinutes(Finite(ms), roundTo);
      r.Finite? ==> r.ms % step == 0 && ms <= r.ms < ms + step
  {
    var step := roundTo.GetOr(DefaultRoundMinutes) * MsPerMinute;
    var q := CeilDiv(ms, step);
    MulMod(q, step);
  }

  lemma MulMod(q: int, step: int)
    requires step > 0
    ensures (q * step) % step == 0
  {
    DivIdentity(q * step, step, q, 0);
  }

  /** An instant already on a multiple of the step is unchanged. */
  lemma RoundUpAligned(ms: int, roundTo: Option<int>)
    requires -MaxTime <= ms <= MaxTime
    requires roundTo.GetOr(DefaultRoundMinutes) > 0
    requires ms % (roundTo.GetOr(DefaultRoundMinutes) * MsPerMinute) == 0
    ensures RoundUpMinutes(Finite(ms), roundTo) == Finite(ms)
  {
    var step := roundTo.GetOr(DefaultRoundMinutes) * MsPerMinute;
    var k := ms / step;
    assert ms == k * step;
    assert -ms == (-k) * step;
    DivIdentity(-ms, step, -k, 0);
    assert CeilDiv(ms, step) == k;
  }

  /** Rounding twice is rounding once. */
  lemma RoundUpIdempotent(ms: int, roundTo: Option<int>)
    requires -MaxTime <= ms <= MaxTime
    requires roundTo.GetOr(DefaultRoundMinutes) > 0
    ensures RoundUpMinutes(RoundUpMinutes(Finite(ms), roundTo), roundTo) == RoundUpMinutes(Finite(ms), roundTo)
  {
    var r := RoundUpMinutes(Finite(ms), roundTo);
    if r.Finite? {
      RoundUpBounds(ms, roundTo);
      RoundUpAligned(r.ms, roundTo);
    }
  }
}
