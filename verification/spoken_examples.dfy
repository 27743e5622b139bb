/** Worked inputs of `parseSpokenDateTime`, showing how the live code reads them. */
module SpokenExamples {
  import opened Text
  import opened Wrappers
  import opened Calendar
  import opened SpokenScan
  import opened SpokenTime

  /** In "15/2 10am" the leftmost standalone number is the day "15", and the time
      pattern takes it as the hour. */
  lemma DayTakenAsHour()
    ensures FindTime("15/2 10am") == Some(TimeToken(0, "15", None, 0, None))
  {
    var t := "15/2 10am";
    assert DigitsAt(t, 0, 2);
    assert !MinuteGroupAt(t, 2);
    assert SpaceRun(t, 2) == 0;
    assert TryAmPm(t, 2) == Some(None);
    assert TryTail(t, 2) == Some((0, None));
    assert TryMinutes(t, 2) == Some((false, 0, None));
    assert MatchTimeAt(t, 0) == Some((2, false, 0, None));
    assert t[0..2] == "15";
  }

  /** So "15/2 10am" resolves to 15:00, not 10:00. */
  lemma DayTakenAsHourResolved(now: TimeValue, off: int)
    requires ResolveFields("15/2 10am", now, off).Ok?
    ensures ResolveFields("15/2 10am", now, off).value.hour == 15
  {
    DayTakenAsHour();
    assert DecimalValue("15") == 15;
    ResolveSpokenTime("15/2 10am", now, off, TimeToken(0, "15", None, 0, None));
  }

  /** "10h" has no date and no time: `\b` fails between "0" and "h", so the text is
      refused with `MISSING_TIME_OF_DAY`. */
  lemma BareHourWithH(now: TimeValue, off: int)
    ensures ResolveFields("10h", now, off) == Err(MissingTimeOfDay)
  {
    var t := "10h";
    assert MatchDateAt(t, 0) == None && MatchDateAt(t, 1) == None;
    assert MatchDateAt(t, 2) == None && MatchDateAt(t, 3) == None;
    assert !WordBoundary(t, 1) && !WordBoundary(t, 2);
    assert WordBoundary(t, 0) && WordBoundary(t, 3);
    assert TryHour(t, 0, 2) == None;
    assert TryHour(t, 0, 1) == None;
    assert MatchTimeAt(t, 3) == None;
  }

  /** "32/13 10am": the day and month are out of range, so `INVALID_TIME`. */
  lemma DateOutOfRange(now: TimeValue, off: int)
    ensures ResolveFields("32/13 10am", now, off) == Err(InvalidTime)
  {
    var t := "32/13 10am";
    assert DigitsAt(t, 0, 2) && IsDateSep(t[2]) && DigitsAt(t, 3, 2) && WordBoundary(t, 5);
    assert MatchDateAt(t, 0) == Some((2, 2));
    assert t[0..2] == "32" && t[3..5] == "13";
    assert DecimalValue("32") == 32;
  }

  lemma ThirteenPmToken()
    ensures FindTime("13 pm") == Some(TimeToken(0, "13", None, 1, Some(Pm)))
  {
    var t := "13 pm";
    assert DigitsAt(t, 0, 2) && !MinuteGroupAt(t, 2);
    assert SpaceRun(t, 2) == 1;
    assert AmPmAt(t, 3, Pm) && WordBoundary(t, 5);
    assert TryAmPm(t, 3) == Some(Some(Pm));
    assert TrySpaces(t, 2, 1) == Some((1, Some(Pm)));
    assert TryMinutes(t, 2) == Some((false, 1, Some(Pm)));
    assert MatchTimeAt(t, 0) == Some((2, false, 1, Some(Pm)));
    assert t[0..2] == "13";
  }

  /** "13 pm" passes the range check as 13 and becomes hour 25. */
  lemma ThirteenPm(now: TimeValue, off: int)
    requires ResolveFields("13 pm", now, off).Ok?
    ensures ResolveFields("13 pm", now, off).value.hour == 25
  {
    ThirteenPmToken();
    assert DecimalValue("13") == 13;
    ResolveSpokenTime("13 pm", now, off, TimeToken(0, "13", None, 1, Some(Pm)));
  }

  lemma AfternoonTimeToken()
    ensures FindTime("3 chi\U{1EC1}u 15/2") == Some(TimeToken(0, "3", None, 1, None))
  {
    var t := "3 chi\U{1EC1}u 15/2";
    assert !IsDigit(t[1]) && t[1] == ' ';
    assert DigitsAt(t, 0, 1) && !DigitsAt(t, 0, 2) && !MinuteGroupAt(t, 1);
    assert SpaceRun(t, 1) == 1;
    assert TryAmPm(t, 2) == Some(None);
    assert TrySpaces(t, 1, 1) == Some((1, None));
    assert MatchTimeAt(t, 0) == Some((1, false, 1, None));
    assert t[0..1] == "3";
  }

  lemma AfternoonDateToken()
    ensures FindDate("3 chi\U{1EC1}u 15/2") == Some(DateToken(8, "15", "2"))
  {
    AfternoonDateTokenIn("3 chi\U{1EC1}u 15/2");
  }

  lemma AfternoonDateTokenIn(t: string)
    requires |t| == 12 && t[0] == '3' && t[1] == ' ' && t[7] == ' '
    requires forall i :: 2 <= i < 7 ==> !IsDigit(t[i])
    requires t[8] == '1' && t[9] == '5' && t[10] == '/' && t[11] == '2'
    ensures FindDate(t) == Some(DateToken(8, "15", "2"))
  {
    DateAtEnd(t, 8);
    assert t[8..10] == "15" by {
      assert t[8..10] == [t[8], t[9]];
    }
    assert t[11..] == "2" by {
      assert t[11..] == [t[11]];
    }
    assert FindDateFrom(t, 2) == FindDateFrom(t, 7) by {
      DateSkip(t, 2);
      DateSkip(t, 3);
      DateSkip(t, 4);
      DateSkip(t, 5);
      DateSkip(t, 6);
    }
    DateSkip(t, 0);
    DateSkip(t, 1);
    DateSkip(t, 7);
  }

  lemma AfternoonFound()
    ensures HasAfternoon("3 chi\U{1EC1}u 15/2")
  {
    var t := "3 chi\U{1EC1}u 15/2";
    assert t[2..7] == Chieu;
    assert KeywordAt(t, Chieu, 2);
    TestKeywordSpec(t, Chieu);
  }

  /** "3 chiều 15/2": the afternoon keyword turns 3 into 15, on 15 February. */
  lemma AfternoonKeyword(now: TimeValue, off: int)
    requires ResolveFields("3 chi\U{1EC1}u 15/2", now, off).Ok?
    ensures var f := ResolveFields("3 chi\U{1EC1}u 15/2", now, off).value;
      f.hour == 15 && f.day == 15 && f.month == 2
  {
    AfternoonTimeToken();
    AfternoonDateToken();
    AfternoonFound();
    AfternoonKeywordIn("3 chi\U{1EC1}u 15/2", now, off);
  }

  lemma AfternoonKeywordIn(t: string, now: TimeValue, off: int)
    requires FindTime(t) == Some(TimeToken(0, "3", None, 1, None))
    requires FindDate(t) == Some(DateToken(8, "15", "2"))
    requires HasAfternoon(t) && ResolveFields(t, now, off).Ok?
    ensures var f := ResolveFields(t, now, off).value;
      f.hour == 15 && f.day == 15 && f.month == 2
  {
    assert DecimalValue("3") == 3 && DecimalValue("15") == 15 && DecimalValue("2") == 2;
    ResolveSpokenTime(t, now, off, TimeToken(0, "3", None, 1, None));
    ResolveSpokenDate(t, now, off, DateToken(8, "15", "2"));
  }

  lemma NewYearTokens()
    ensures FindDate("1/1") == Some(DateToken(0, "1", "1"))
    ensures FindTime("1/1") == Some(TimeToken(0, "1", None, 0, None))
    ensures !HasMorning("1/1") && !HasAfternoon("1/1")
  {
    var t := "1/1";
    assert !IsDigit(t[1]);
    assert DigitsAt(t, 0, 1) && !DigitsAt(t, 0, 2) && IsDateSep(t[1]) && DigitsAt(t, 2, 1) && WordBoundary(t, 3);
    assert MatchDateAt(t, 0) == Some((1, 1));
    assert !MinuteGroupAt(t, 1) && SpaceRun(t, 1) == 0 && TryAmPm(t, 1) == Some(None);
    assert MatchTimeAt(t, 0) == Some((1, false, 0, None));
    assert t[0..1] == "1" && t[2..3] == "1";
    TestKeywordSpec(t, Sang);
    TestKeywordSpec(t, Chieu);
    TestKeywordSpec(t, Toi);
    TestKeywordSpec(t, Dem);
    assert t[0..3] != Toi && t[0..3] != Dem;
  }

  /** "1/1" said on 31 December: the one number "1" is both the day and the hour, and
      the date rolls over into next year. */
  lemma NewYearRollover(now: TimeValue, off: int, y: int)
    requires LocalYMD(now, off) == Some(YMD(y, 12, 31))
    ensures ResolveFields("1/1", now, off) == Ok(LocalFields(y + 1, 1, 1, 1, 0))
  {
    NewYearTokens();
    NewYearRolloverIn("1/1", now, off, y);
  }

  lemma NewYearRolloverIn(t: string, now: TimeValue, off: int, y: int)
    requires FindDate(t) == Some(DateToken(0, "1", "1"))
    requires FindTime(t) == Some(TimeToken(0, "1", None, 0, None))
    requires !HasMorning(t) && !HasAfternoon(t)
    requires LocalYMD(now, off) == Some(YMD(y, 12, 31))
    ensures ResolveFields(t, now, off) == Ok(LocalFields(y + 1, 1, 1, 1, 0))
  {
    assert DecimalValue("1") == 1;
    assert SpokenDayMonth(t) == Some((1, 1));
    assert SpokenHourMinute(t) == Some((1, 0));
    ResolveFieldsValue(t, now, off, 1, 1, 1, 0);
  }

  /** "31/2" passes the day check, and `Date.UTC` carries it into March: in a common
      year it is 3 March. */
  lemma FebruaryThirtyFirst(y: int)
    requires !InLeapYear(y)
    ensures MakeDay(y, 1, 31) == MakeDay(y, 2, 3)
  {
    assert 1 / 12 == 0 && 1 % 12 == 1 && 2 / 12 == 0 && 2 % 12 == 2;
    assert MonthStart(1, false) == 31 && MonthStart(2, false) == 59;
  }

  /** No date match starts at a non-digit, nor at a digit followed by something that is
      neither a digit nor a date separator: the scan moves on. */
  lemma DateSkip(t: string, i: nat)
    requires i < |t|
    requires !IsDigit(t[i]) || (i + 1 < |t| && !IsDigit(t[i + 1]) && !IsDateSep(t[i + 1]))
    ensures FindDateFrom(t, i) == FindDateFrom(t, i + 1)
  {
    assert !DigitsAt(t, i, 2) by {
      if IsDigit(t[i]) {
        assert !IsDigit(t[i + 1]);
      }
    }
    if !IsDigit(t[i]) {
      assert !DigitsAt(t, i, 1);
    }
    assert MatchDateAt(t, i) == None;
  }

  /** A date of two day digits and one month digit that ends the text is found where it
      starts. */
  lemma DateAtEnd(t: string, i: nat)
    requires |t| == i + 4 && IsDigit(t[i]) && IsDigit(t[i + 1]) && t[i + 2] == '/' && IsDigit(t[i + 3])
    requires i > 0 ==> !IsWordChar(t[i - 1])
    ensures FindDateFrom(t, i) == Some(DateToken(i, t[i..i + 2], t[i + 3..]))
  {
    assert MatchDateAt(t, i) == Some((2, 1)) by {
      assert DigitsAt(t, i, 2) && DigitsAt(t, i + 3, 1) && WordBoundary(t, i + 4);
      assert TryMonthDigits(t, i + 3, 2) == Some(1);
    }
    assert t[i + 3..] == t[i + 3..i + 4];
  }
}
