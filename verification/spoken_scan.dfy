/** The text handling of `parseSpokenDateTime` (src/time.js): normalising the spoken
    text, and the three regular expressions it runs over the result, each written as
    the scan a JavaScript regular-expression engine performs — start positions from
    left to right, and at each position the alternatives in backtracking order. */
module SpokenScan {
  import opened Text
  import opened Wrappers

  // ---------------------------------------------------------------------------
  // Normalisation: lowercase, commas to spaces, whitespace runs to one space, trim
  // ---------------------------------------------------------------------------

  /** `toLowerCase` on one character: ASCII letters and the capitals of the letters in
      the Vietnamese day-part keywords (Á, Ê, Đ, Ề, Ố); other characters unchanged. */
  function LowerChar(c: char): char {
    if 'A' <= c <= 'Z' then (c as int + 32) as char
    else if c == '\U{00C1}' then '\U{00E1}'
    else if c == '\U{00CA}' then '\U{00EA}'
    else if c == '\U{0110}' then '\U{0111}'
    else if c == '\U{1EC0}' then '\U{1EC1}'
    else if c == '\U{1ED0}' then '\U{1ED1}'
    else c
  }

  function Lowercase(s: string): (r: string)
    ensures |r| == |s| && forall i :: 0 <= i < |s| ==> r[i] == LowerChar(s[i])
  {
    seq(|s|, i requires 0 <= i < |s| => LowerChar(s[i]))
  }

  /** `replace(/[,]/g, " ")`. */
  function CommasToSpaces(s: string): (r: string)
    ensures |r| == |s| && forall i :: 0 <= i < |s| ==> r[i] == if s[i] == ',' then ' ' else s[i]
  {
    seq(|s|, i requires 0 <= i < |s| => if s[i] == ',' then ' ' else s[i])
  }

  /** `replace(/\s+/g, " ")`: every maximal run of whitespace becomes one space. */
  function CollapseSpaces(s: string): (r: string)
    ensures s != [] ==> r != [] && r[0] == (if IsJsSpace(s[0]) then ' ' else s[0])
    decreases |s|
  {
    if s == [] then []
    else if IsJsSpace(s[0]) then " " + CollapseSpaces(TrimStart(s[1..]))
    else [s[0]] + CollapseSpaces(s[1..])
  }

  /** The normalised text `t` of src/time.js:228-232. */
  function Normalize(raw: string): string {
    Trim(CollapseSpaces(CommasToSpaces(Lowercase(raw))))
  }

  /** What normalisation guarantees: lower case, no commas, the only whitespace is
      single spaces between other characters. */
  predicate NormalForm(t: string) {
    && (forall i :: 0 <= i < |t| ==> LowerChar(t[i]) == t[i] && t[i] != ',')
    && (forall i :: 0 <= i < |t| ==> IsJsSpace(t[i]) ==> t[i] == ' ')
    && (forall i :: 0 <= i < |t| - 1 ==> !(t[i] == ' ' && t[i + 1] == ' '))
    && (t == [] || (t[0] != ' ' && t[|t| - 1] != ' '))
  }

  lemma LowerCharIdempotent(c: char)
    ensures LowerChar(LowerChar(c)) == LowerChar(c)
    ensures IsJsSpace(LowerChar(c)) == IsJsSpace(c)
    ensures (LowerChar(c) == ',') == (c == ',')
  {
  }

  /** Everything in normal form except possibly the ends. */
  predicate InnerForm(c: string) {
    && (forall i :: 0 <= i < |c| ==> LowerChar(c[i]) == c[i] && c[i] != ',')
    && (forall i :: 0 <= i < |c| ==> IsJsSpace(c[i]) ==> c[i] == ' ')
    && (forall i :: 0 <= i < |c| - 1 ==> !(c[i] == ' ' && c[i + 1] == ' '))
  }

  /** After lowercasing and replacing commas, every character is lowercase and no comma. */
  lemma LowerAndCommaFree(raw: string)
    ensures var m := CommasToSpaces(Lowercase(raw));
      forall i :: 0 <= i < |m| ==> LowerChar(m[i]) == m[i] && m[i] != ','
  {
    forall i | 0 <= i < |raw| {
      LowerCharIdempotent(raw[i]);
    }
  }

  /** Collapsing the whitespace of lowercase, comma-free text leaves single spaces as
      its only whitespace. */
  lemma {:induction false} InnerFormOfCollapse(m: string)
    requires forall i :: 0 <= i < |m| ==> LowerChar(m[i]) == m[i] && m[i] != ','
    ensures InnerForm(CollapseSpaces(m))
    decreases |m|
  {
    if m != [] {
      if IsJsSpace(m[0]) {
        var rest := TrimStart(m[1..]);
        assert forall i :: 0 <= i < |rest| ==> LowerChar(rest[i]) == rest[i] && rest[i] != ',' by {
          assert forall i :: 0 <= i < |rest| ==> rest[i] == m[|m| - |rest| + i];
        }
        InnerFormOfCollapse(rest);
        assert CollapseSpaces(rest) == [] || CollapseSpaces(rest)[0] != ' ';
        InnerFormCons(' ', CollapseSpaces(rest));
        assert CollapseSpaces(m) == [' '] + CollapseSpaces(rest);
      } else {
        InnerFormOfCollapse(m[1..]);
        InnerFormCons(m[0], CollapseSpaces(m[1..]));
        assert CollapseSpaces(m) == [m[0]] + CollapseSpaces(m[1..]);
      }
    }
  }

  lemma InnerFormCons(x: char, c: string)
    requires InnerForm(c) && LowerChar(x) == x && x != ',' && (IsJsSpace(x) ==> x == ' ')
    requires x == ' ' ==> c == [] || c[0] != ' '
    ensures InnerForm([x] + c)
  {
    var r := [x] + c;
    assert forall i :: 1 <= i < |r| ==> r[i] == c[i - 1];
  }

  lemma InnerFormOfSlice(c: string, lo: int, hi: int)
    requires InnerForm(c) && 0 <= lo <= hi <= |c|
    ensures InnerForm(c[lo..hi])
  {
    var t := c[lo..hi];
    assert forall i :: 0 <= i < |t| ==> t[i] == c[lo + i];
  }

  lemma NormalFormOfTrim(c: string)
    requires InnerForm(c)
    ensures NormalForm(Trim(c))
  {
    InnerFormOfTrimStart(c);
    InnerFormOfTrimEnd(TrimStart(c));
    NormalFormOfInner(Trim(c));
  }

  lemma InnerFormOfTrimStart(c: string)
    requires InnerForm(c)
    ensures InnerForm(TrimStart(c))
  {
    InnerFormOfSlice(c, |c| - |TrimStart(c)|, |c|);
  }

  lemma InnerFormOfTrimEnd(c: string)
    requires InnerForm(c)
    ensures InnerForm(TrimEnd(c))
  {
    InnerFormOfSlice(c, 0, |TrimEnd(c)|);
  }

  lemma NormalFormOfInner(t: string)
    requires InnerForm(t) && (t == [] || (!IsJsSpace(t[0]) && !IsJsSpace(t[|t| - 1])))
    ensures NormalForm(t)
  {
    assert IsJsSpace(' ');
  }

  /** The normalised text is in normal form. */
  lemma NormalizeShape(raw: string)
    ensures NormalForm(Normalize(raw))
  {
    LowerAndCommaFree(raw);
    InnerFormOfCollapse(CommasToSpaces(Lowercase(raw)));
    NormalFormOfTrim(CollapseSpaces(CommasToSpaces(Lowercase(raw))));
  }

  /** The characters that are neither whitespace nor commas, in order. */
  function Visible(s: string): (r: string)
    ensures |r| <= |s|
  {
    if s == [] then [] else (if IsJsSpace(s[0]) || s[0] == ',' then [] else [s[0]]) + Visible(s[1..])
  }

  lemma {:induction false} VisibleAppend(a: string, b: string)
    ensures Visible(a + b) == Visible(a) + Visible(b)
  {
    if a == [] {
      assert a + b == b;
    } else {
      assert (a + b)[0] == a[0];
      assert (a + b)[1..] == a[1..] + b;
      VisibleAppend(a[1..], b);
    }
  }

  lemma {:induction false} VisibleOfSpaces(s: string)
    requires forall i :: 0 <= i < |s| ==> IsJsSpace(s[i])
    ensures Visible(s) == []
  {
    if s != [] {
      VisibleOfSpaces(s[1..]);
    }
  }

  lemma VisibleTrimStart(s: string)
    ensures Visible(TrimStart(s)) == Visible(s)
  {
    var a := TrimStart(s);
    var front := s[..|s| - |a|];
    assert s == front + a;
    VisibleAppend(front, a);
    VisibleOfSpaces(front);
  }

  lemma VisibleTrimEnd(a: string)
    ensures Visible(TrimEnd(a)) == Visible(a)
  {
    var t := TrimEnd(a);
    var back := a[|t|..];
    assert a == t + back;
    VisibleAppend(t, back);
    VisibleOfSpaces(back);
  }

  lemma {:induction false} VisibleCollapse(s: string)
    ensures Visible(CollapseSpaces(s)) == Visible(s)
    decreases |s|
  {
    if s != [] {
      if IsJsSpace(s[0]) {
        var rest := TrimStart(s[1..]);
        VisibleCollapse(rest);
        assert s[1..] == s[1..][..|s| - 1 - |rest|] + rest;
        VisibleAppend(s[1..][..|s| - 1 - |rest|], rest);
        VisibleOfSpaces(s[1..][..|s| - 1 - |rest|]);
        assert (" " + CollapseSpaces(rest))[1..] == CollapseSpaces(rest);
      } else {
        VisibleCollapse(s[1..]);
        assert ([s[0]] + CollapseSpaces(s[1..]))[1..] == CollapseSpaces(s[1..]);
      }
    }
  }

  lemma {:induction false} VisibleCommasLower(s: string)
    ensures Visible(CommasToSpaces(Lowercase(s))) == Lowercase(Visible(s))
  {
    if s != [] {
      var head := if IsJsSpace(s[0]) || s[0] == ',' then [] else [s[0]];
      CommasLowerStep(s);
      VisibleCommasLower(s[1..]);
      LowercaseAppend(head, Visible(s[1..]));
    }
  }

  /** One step of VisibleCommasLower: the first character is kept, lowercased, exactly
      when it is neither whitespace nor a comma. */
  lemma CommasLowerStep(s: string)
    requires s != []
    ensures var m, head := CommasToSpaces(Lowercase(s)), if IsJsSpace(s[0]) || s[0] == ',' then [] else [s[0]];
      Visible(m) == Lowercase(head) + Visible(CommasToSpaces(Lowercase(s[1..])))
  {
    var m := CommasToSpaces(Lowercase(s));
    LowerCharIdempotent(s[0]);
    assert m[1..] == CommasToSpaces(Lowercase(s[1..]));
  }

  lemma LowercaseAppend(a: string, b: string)
    ensures Lowercase(a + b) == Lowercase(a) + Lowercase(b)
  {
    var l, r := Lowercase(a + b), Lowercase(a) + Lowercase(b);
    assert forall i | 0 <= i < |l| :: l[i] == r[i];
  }

  /** Normalisation keeps every character other than whitespace and commas, in order,
      lowercased. */
  lemma NormalizeContent(raw: string)
    ensures Visible(Normalize(raw)) == Lowercase(Visible(raw))
  {
    var m := CommasToSpaces(Lowercase(raw));
    VisibleTrimStart(CollapseSpaces(m));
    VisibleTrimEnd(TrimStart(CollapseSpaces(m)));
    VisibleCollapse(m);
    VisibleCommasLower(raw);
  }

  lemma {:induction false} CollapseFixed(s: string)
    requires forall i :: 0 <= i < |s| ==> IsJsSpace(s[i]) ==> s[i] == ' '
    requires forall i :: 0 <= i < |s| - 1 ==> !(s[i] == ' ' && s[i + 1] == ' ')
    ensures CollapseSpaces(s) == s
    decreases |s|
  {
    if s != [] {
      CollapseFixed(s[1..]);
      if IsJsSpace(s[0]) {
        assert TrimStart(s[1..]) == s[1..] by {
          if |s| > 1 {
            assert !IsJsSpace(s[1]);
          }
        }
      }
    }
  }

  lemma ConcatAssoc(p: string, q: string, r: string)
    ensures p + (q + r) == (p + q) + r
  {
  }

  /** The two ways CollapseSpaces takes the first character of a non-empty text. */
  lemma CollapseHead(s: string)
    requires s != []
    ensures IsJsSpace(s[0]) ==> CollapseSpaces(s) == " " + CollapseSpaces(TrimStart(s[1..]))
    ensures !IsJsSpace(s[0]) ==> CollapseSpaces(s) == [s[0]] + CollapseSpaces(s[1..])
  {
  }

  /** A whitespace run followed by text that does not start with whitespace becomes one
      space in front of that text collapsed. */
  lemma CollapseRun(w: string, b: string)
    requires w != [] && forall i :: 0 <= i < |w| ==> IsJsSpace(w[i])
    requires b == [] || !IsJsSpace(b[0])
    ensures CollapseSpaces(w + b) == " " + CollapseSpaces(b)
  {
    var x := w + b;
    assert x[0] == w[0] && x[1..] == w[1..] + b;
    CollapseHead(x);
    TrimStartSpaces(w[1..], b);
    assert TrimStart(b) == b;
  }

  /** Text that does not end in whitespace collapses on its own: whatever follows it
      collapses separately. */
  lemma {:induction false} CollapseAppend(a: string, b: string)
    requires a == [] || !IsJsSpace(a[|a| - 1])
    ensures CollapseSpaces(a + b) == CollapseSpaces(a) + CollapseSpaces(b)
    decreases |a|
  {
    if a == [] {
      assert a + b == b;
    } else {
      var x := a + b;
      assert x[0] == a[0] && x[1..] == a[1..] + b;
      CollapseHead(x);
      CollapseHead(a);
      if IsJsSpace(a[0]) {
        var y := TrimStart(a[1..]);
        TrimStartAppend(a[1..], b);
        assert y != [] ==> y[|y| - 1] == a[|a| - 1];
        CollapseAppend(y, b);
        ConcatAssoc(" ", CollapseSpaces(y), CollapseSpaces(b));
      } else {
        CollapseAppend(a[1..], b);
        ConcatAssoc([a[0]], CollapseSpaces(a[1..]), CollapseSpaces(b));
      }
    }
  }

  /** `\s+` replaced by " ", one run at a time: a whitespace run between text that does
      not end in whitespace and text that does not start with it becomes exactly one
      space, and each side collapses on its own. */
  lemma CollapseSpaceRun(a: string, w: string, b: string)
    requires a == [] || !IsJsSpace(a[|a| - 1])
    requires w != [] && forall i :: 0 <= i < |w| ==> IsJsSpace(w[i])
    requires b == [] || !IsJsSpace(b[0])
    ensures CollapseSpaces(a + w + b) == CollapseSpaces(a) + " " + CollapseSpaces(b)
  {
    ConcatAssoc(a, w, b);
    CollapseAppend(a, w + b);
    CollapseRun(w, b);
    ConcatAssoc(CollapseSpaces(a), " ", CollapseSpaces(b));
  }

  /** Text already in normal form is left unchanged, so normalising twice is
      normalising once. */
  lemma NormalizeIdempotent(raw: string)
    ensures Normalize(Normalize(raw)) == Normalize(raw)
  {
    var t := Normalize(raw);
    NormalizeShape(raw);
    assert Lowercase(t) == t;
    assert CommasToSpaces(t) == t;
    CollapseFixed(t);
    assert TrimStart(t) == t;
    assert TrimEnd(t) == t;
  }

  // ---------------------------------------------------------------------------
  // The date pattern /(\b\d{1,2})[\/\-](\d{1,2})\b/
  // ---------------------------------------------------------------------------

  predicate IsDateSep(c: char) {
    c == '/' || c == '-'
  }

  /** n digits start at position i. */
  predicate DigitsAt(t: string, i: int, n: int) {
    0 <= i && 0 <= n && i + n <= |t| && forall k :: i <= k < i + n ==> IsDigit(t[k])
  }

  /** The date pattern matches at position i with a day of l1 digits and a month of
      l2 digits. */
  predicate DateShape(t: string, i: int, l1: int, l2: int) {
    && (l1 == 1 || l1 == 2) && (l2 == 1 || l2 == 2)
    && WordBoundary(t, i) && DigitsAt(t, i, l1)
    && i + l1 < |t| && IsDateSep(t[i + l1])
    && DigitsAt(t, i + l1 + 1, l2) && WordBoundary(t, i + l1 + 1 + l2)
  }

  /** A date match: where it starts and its two digit groups. */
  datatype DateToken = DateToken(at: nat, day: string, month: string)

  /** `(\d{1,2})\b` at j, greedy: n digits first, then fewer. Gives the digit count. */
  function TryMonthDigits(t: string, j: int, n: nat): (r: Option<nat>)
    requires n <= 2
    ensures r.Some? ==> 1 <= r.value <= n && DigitsAt(t, j, r.value) && WordBoundary(t, j + r.value)
    ensures r.None? ==> forall l :: 1 <= l <= n ==> !(DigitsAt(t, j, l) && WordBoundary(t, j + l))
    decreases n
  {
    if n == 0 then None
    else if DigitsAt(t, j, n) && WordBoundary(t, j + n) then Some(n)
    else TryMonthDigits(t, j, n - 1)
  }

  /** `(\d{1,2})[\/\-]` at i and the rest of the pattern after it, greedy. */
  function TryDayDigits(t: string, i: int, n: nat): (r: Option<(nat, nat)>)
    requires n <= 2
    ensures r.Some? ==>
              && 1 <= r.value.0 <= n && DigitsAt(t, i, r.value.0)
              && i + r.value.0 < |t| && IsDateSep(t[i + r.value.0])
              && 1 <= r.value.1 <= 2 && DigitsAt(t, i + r.value.0 + 1, r.value.1)
              && WordBoundary(t, i + r.value.0 + 1 + r.value.1)
    decreases n
  {
    if n == 0 then None
    else if DigitsAt(t, i, n) && i + n < |t| && IsDateSep(t[i + n]) then
      match TryMonthDigits(t, i + n + 1, 2)
      case Some(l2) => Some((n, l2))
      case None => TryDayDigits(t, i, n - 1)
    else TryDayDigits(t, i, n - 1)
  }

  /** One attempt of the engine at position i. */
  function MatchDateAt(t: string, i: int): (r: Option<(nat, nat)>)
    ensures r.Some? ==> DateShape(t, i, r.value.0, r.value.1)
  {
    if WordBoundary(t, i) then TryDayDigits(t, i, 2) else None
  }

  /** An attempt fails only where the pattern cannot match. */
  lemma MatchDateAtComplete(t: string, i: int)
    ensures MatchDateAt(t, i).None? ==> forall l1, l2 :: !DateShape(t, i, l1, l2)
  {
    if WordBoundary(t, i) {
      assert MatchDateAt(t, i) == TryDayDigits(t, i, 2);
    }
  }

  /** `t.match(...)` with the date pattern: the leftmost match at or after i. */
  function FindDateFrom(t: string, i: nat): (r: Option<DateToken>)
    ensures r.Some? ==> i <= r.value.at && DateTokenAt(t, r.value)
    decreases |t| + 1 - i
  {
    if i > |t| then None
    else
      match MatchDateAt(t, i)
      case Some((l1, l2)) =>
        var tok := DateToken(i, t[i..i + l1], t[i + l1 + 1..i + l1 + 1 + l2]);
        assert |tok.day| == l1 && |tok.month| == l2;
        Some(tok)
      case None => FindDateFrom(t, i + 1)
  }

  /** tok is a match of the date pattern in t: its groups are the text at its place. */
  predicate DateTokenAt(t: string, tok: DateToken) {
    var l1, l2 := |tok.day|, |tok.month|;
    && DateShape(t, tok.at, l1, l2)
    && tok.day == t[tok.at..tok.at + l1]
    && tok.month == t[tok.at + l1 + 1..tok.at + l1 + 1 + l2]
    && AllDigits(tok.day) && AllDigits(tok.month)
  }

  function FindDate(t: string): Option<DateToken> {
    FindDateFrom(t, 0)
  }

  /** The date found is the leftmost place the pattern matches, and none is found only
      when it matches nowhere. */
  lemma {:induction false} FindDateFromLeftmost(t: string, i: nat)
    ensures FindDateFrom(t, i).Some? ==>
      forall j, l1, l2 :: i <= j < FindDateFrom(t, i).value.at ==> !DateShape(t, j, l1, l2)
    ensures FindDateFrom(t, i).None? ==> forall j, l1, l2 :: i <= j ==> !DateShape(t, j, l1, l2)
    decreases |t| + 1 - i
  {
    if i <= |t| {
      MatchDateAtComplete(t, i);
      if MatchDateAt(t, i).None? {
        FindDateFromLeftmost(t, i + 1);
      }
    }
  }

  lemma FindDateLeftmost(t: string)
    ensures FindDate(t).Some? ==> forall j, l1, l2 :: 0 <= j < FindDate(t).value.at ==> !DateShape(t, j, l1, l2)
    ensures FindDate(t).None? ==> forall j, l1, l2 :: !DateShape(t, j, l1, l2)
  {
    FindDateFromLeftmost(t, 0);
  }

  // ---------------------------------------------------------------------------
  // The time pattern /(\b\d{1,2})(?:[:h](\d{2}))?\s*(am|pm)?\b/
  // ---------------------------------------------------------------------------

  datatype AmPm = Am | Pm

  /** `[:h](\d{2})` at p. */
  predicate MinuteGroupAt(t: string, p: int) {
    0 <= p && p + 3 <= |t| && (t[p] == ':' || t[p] == 'h') && IsDigit(t[p + 1]) && IsDigit(t[p + 2])
  }

  /** k whitespace characters start at q. */
  predicate SpacesAt(t: string, q: int, k: int) {
    0 <= q && 0 <= k && q + k <= |t| && forall x :: q <= x < q + k ==> IsJsSpace(t[x])
  }

  predicate AmPmAt(t: string, r: int, ap: AmPm) {
    0 <= r && r + 2 <= |t| && t[r] == (if ap == Am then 'a' else 'p') && t[r + 1] == 'm'
  }

  /** What follows the hour digits, from p: the minute group if hasMinutes, k whitespace
      characters, the am/pm group ap, and a word boundary where all that ends. */
  predicate TailShape(t: string, p: int, hasMinutes: bool, k: int, ap: Option<AmPm>) {
    if hasMinutes then MinuteGroupAt(t, p) && SpacesAt(t, p + 3, k) && AmPmEndAt(t, p + 3 + k, ap)
    else SpacesAt(t, p, k) && AmPmEndAt(t, p + k, ap)
  }

  /** `(am|pm)?\b` matches at r choosing ap. */
  predicate AmPmEndAt(t: string, r: int, ap: Option<AmPm>) {
    && (ap.Some? ==> AmPmAt(t, r, ap.value))
    && WordBoundary(t, r + (if ap.Some? then 2 else 0))
  }

  /** The time pattern matches at position i with an hour of l1 digits, the minute group
      present or not, k whitespace characters and the am/pm group ap. */
  predicate TimeShape(t: string, i: int, l1: int, hasMinutes: bool, k: int, ap: Option<AmPm>) {
    && (l1 == 1 || l1 == 2) && WordBoundary(t, i) && DigitsAt(t, i, l1)
    && TailShape(t, i + l1, hasMinutes, k, ap)
  }

  /** The number of whitespace characters starting at q. */
  function SpaceRun(t: string, q: nat): (k: nat)
    requires q <= |t|
    ensures SpacesAt(t, q, k) && (q + k < |t| ==> !IsJsSpace(t[q + k]))
    decreases |t| - q
  {
    if q < |t| && IsJsSpace(t[q]) then 1 + SpaceRun(t, q + 1) else 0
  }

  /** Every run of whitespace from q is at most SpaceRun long. */
  lemma SpaceRunLongest(t: string, q: nat)
    requires q <= |t|
    ensures forall k :: SpacesAt(t, q, k) ==> k <= SpaceRun(t, q)
  {
  }

  /** The order the engine tries the am/pm group in: "am", then "pm", then nothing. */
  function AmPmRank(ap: Option<AmPm>): nat {
    if ap == Some(Am) then 0 else if ap == Some(Pm) then 1 else 2
  }

  /** The engine tries the whitespace count and am/pm choice (k, ap) no later than
      (k2, ap2): more whitespace before less, then "am", "pm", nothing. */
  predicate SpacesNoLater(k: int, ap: Option<AmPm>, k2: int, ap2: Option<AmPm>) {
    k > k2 || (k == k2 && AmPmRank(ap) <= AmPmRank(ap2))
  }

  /** The engine tries the tail (m, k, ap) no later than (m2, k2, ap2): the minute group
      before none, then the whitespace and am/pm order. */
  predicate TailNoLater(m: bool, k: int, ap: Option<AmPm>, m2: bool, k2: int, ap2: Option<AmPm>) {
    (m && !m2) || (m == m2 && SpacesNoLater(k, ap, k2, ap2))
  }

  /** The engine tries the match (l, m, k, ap) no later than (l2, m2, k2, ap2): two hour
      digits before one, then the tail order. */
  predicate TimeNoLater(l: int, m: bool, k: int, ap: Option<AmPm>, l2: int, m2: bool, k2: int, ap2: Option<AmPm>) {
    l > l2 || (l == l2 && TailNoLater(m, k, ap, m2, k2, ap2))
  }

  /** The match order, one choice at a time: the hour length decides first, then the
      minute group, then the whitespace and am/pm choice. */
  lemma TimeNoLaterOf(l: int, m: bool, k: int, ap: Option<AmPm>, l2: int, m2: bool, k2: int, ap2: Option<AmPm>)
    requires l >= l2 && (l == l2 && m2 ==> m) && (l == l2 && m == m2 ==> SpacesNoLater(k, ap, k2, ap2))
    ensures TimeNoLater(l, m, k, ap, l2, m2, k2, ap2)
  {
  }

  /** `(am|pm)?\b` at r: "am" first, then "pm", then the empty alternative. */
  function TryAmPm(t: string, r: int): (res: Option<Option<AmPm>>)
    ensures res.Some? ==> AmPmEndAt(t, r, res.value)
    ensures res.None? ==> forall ap :: !AmPmEndAt(t, r, ap)
    ensures AmPmEndAt(t, r, Some(Am)) ==> res == Some(Some(Am))
    ensures !AmPmEndAt(t, r, Some(Am)) && AmPmEndAt(t, r, Some(Pm)) ==> res == Some(Some(Pm))
  {
    if AmPmAt(t, r, Am) && WordBoundary(t, r + 2) then Some(Some(Am))
    else if AmPmAt(t, r, Pm) && WordBoundary(t, r + 2) then Some(Some(Pm))
    else if WordBoundary(t, r) then Some(None)
    else None
  }

  /** The choice TryAmPm makes comes no later than any choice that fits. */
  lemma TryAmPmFirst(t: string, r: int, ap: Option<AmPm>)
    requires AmPmEndAt(t, r, ap)
    ensures TryAmPm(t, r).Some? && AmPmRank(TryAmPm(t, r).value) <= AmPmRank(ap)
  {
    if ap == Some(Pm) && !AmPmEndAt(t, r, Some(Am)) {
      assert TryAmPm(t, r) == Some(Some(Pm));
    }
  }

  /** `\s*` at q and the rest, greedy: k whitespace characters first, then fewer. */
  function TrySpaces(t: string, q: int, k: nat): (res: Option<(nat, Option<AmPm>)>)
    ensures res.Some? ==> res.value.0 <= k && TryAmPm(t, q + res.value.0) == Some(res.value.1)
    ensures res.None? ==> forall r :: q <= r <= q + k ==> TryAmPm(t, r).None?
    decreases k
  {
    match TryAmPm(t, q + k)
    case Some(ap) => Some((k, ap))
    case None => if k == 0 then None else TrySpaces(t, q, k - 1)
  }

  /** `\s*(am|pm)?\b` at q: the longest run of whitespace, up to the whole run, after which
      the am/pm part fits, and TryAmPm's choice there. */
  function TryTail(t: string, q: nat): (res: Option<(nat, Option<AmPm>)>)
    requires q <= |t|
    ensures res.Some? ==> SpacesAt(t, q, res.value.0) && AmPmEndAt(t, q + res.value.0, res.value.1)
  {
    TrySpacesFit(t, q);
    TrySpaces(t, q, SpaceRun(t, q))
  }

  lemma TrySpacesFit(t: string, q: nat)
    requires q <= |t|
    ensures var res := TrySpaces(t, q, SpaceRun(t, q));
      res.Some? ==> SpacesAt(t, q, res.value.0) && AmPmEndAt(t, q + res.value.0, res.value.1)
  {
    var res := TrySpaces(t, q, SpaceRun(t, q));
    if res.Some? {
      SpacesPrefix(t, q, SpaceRun(t, q), res.value.0);
    }
  }

  lemma SpacesPrefix(t: string, q: int, n: int, j: int)
    ensures SpacesAt(t, q, n) && 0 <= j <= n ==> SpacesAt(t, q, j)
  {
  }

  /** The tail TryTail picks comes no later than any tail that fits, so it fails only
      when none fits. */
  lemma TryTailFirst(t: string, q: nat, k: int, ap: Option<AmPm>)
    requires q <= |t|
    ensures TailShape(t, q, false, k, ap) ==>
      TryTail(t, q).Some? && SpacesNoLater(TryTail(t, q).value.0, TryTail(t, q).value.1, k, ap)
  {
    if TailShape(t, q, false, k, ap) {
      SpaceRunLongest(t, q);
      TryAmPmFirst(t, q + k, ap);
      TrySpacesFirst(t, q, SpaceRun(t, q), k, ap);
    }
  }

  /** Whenever the am/pm part fits after k of the first n whitespace characters, the
      choice TrySpaces makes comes no later. */
  lemma TrySpacesFirst(t: string, q: int, n: nat, k: int, ap: Option<AmPm>)
    requires 0 <= k <= n && TryAmPm(t, q + k).Some? && AmPmRank(TryAmPm(t, q + k).value) <= AmPmRank(ap)
    ensures TrySpaces(t, q, n).Some?
    ensures SpacesNoLater(TrySpaces(t, q, n).value.0, TrySpaces(t, q, n).value.1, k, ap)
  {
  }

  /** `(?:[:h](\d{2}))?` after the hour digits, at p, and the rest: with the minute
      group first, then without it. */
  function TryMinutes(t: string, p: nat): (res: Option<(bool, nat, Option<AmPm>)>)
    requires p <= |t|
    ensures res.Some? ==> TailShape(t, p, res.value.0, res.value.1, res.value.2)
    ensures MinuteGroupAt(t, p) && TryTail(t, p + 3).Some? ==> res.Some? && res.value.0
  {
    var withMinutes := if MinuteGroupAt(t, p) then TryTail(t, p + 3) else None;
    if withMinutes.Some? then Some((true, withMinutes.value.0, withMinutes.value.1))
    else
      var without := TryTail(t, p);
      if without.Some? then Some((false, without.value.0, without.value.1)) else None
  }

  /** res is a tail that the engine tries no later than the one with minute group m,
      k whitespace characters and am/pm group ap. */
  predicate TailNoLaterThan(res: Option<(bool, nat, Option<AmPm>)>, m: bool, k: int, ap: Option<AmPm>) {
    && res.Some?
    && (m ==> res.value.0)
    && (res.value.0 == m ==> SpacesNoLater(res.value.1, res.value.2, k, ap))
  }

  /** The minute group, whitespace and am/pm choice TryMinutes picks come no later than
      any that fit, so it fails only when none fits. */
  lemma TryMinutesFirst(t: string, p: nat, m: bool, k: int, ap: Option<AmPm>)
    requires p <= |t|
    ensures TailShape(t, p, m, k, ap) ==> TailNoLaterThan(TryMinutes(t, p), m, k, ap)
  {
    if TailShape(t, p, m, k, ap) {
      if m {
        MinuteTail(t, p, k, ap);
        TryTailFirst(t, p + 3, k, ap);
        WithMinutes(t, p);
      } else if MinuteGroupAt(t, p) && TryTail(t, p + 3).Some? {
        WithMinutes(t, p);
      } else {
        TryTailFirst(t, p, k, ap);
        WithoutMinutes(t, p);
      }
    }
  }

  lemma WithMinutes(t: string, p: nat)
    requires p <= |t|
    ensures MinuteGroupAt(t, p) && TryTail(t, p + 3).Some? ==>
      TryMinutes(t, p) == Some((true, TryTail(t, p + 3).value.0, TryTail(t, p + 3).value.1))
  {
  }

  lemma WithoutMinutes(t: string, p: nat)
    requires p <= |t|
    ensures !(MinuteGroupAt(t, p) && TryTail(t, p + 3).Some?) && TryTail(t, p).Some? ==>
      TryMinutes(t, p) == Some((false, TryTail(t, p).value.0, TryTail(t, p).value.1))
  {
  }

  lemma MinuteTail(t: string, p: int, k: int, ap: Option<AmPm>)
    ensures TailShape(t, p, true, k, ap) ==> TailShape(t, p + 3, false, k, ap)
  {
  }

  /** `(\d{n})` at i and the rest. */
  function TryHour(t: string, i: int, n: nat): (res: Option<(bool, nat, Option<AmPm>)>)
    ensures res.Some? ==> DigitsAt(t, i, n) && TailShape(t, i + n, res.value.0, res.value.1, res.value.2)
  {
    if DigitsAt(t, i, n) then TryMinutes(t, i + n) else None
  }

  /** One attempt of the engine at position i: `\b`, then `\d{1,2}` greedy, two digits
      first and one after. */
  function MatchTimeAt(t: string, i: int): (res: Option<(nat, bool, nat, Option<AmPm>)>)
    ensures res.Some? ==> TimeShape(t, i, res.value.0, res.value.1, res.value.2, res.value.3)
    ensures WordBoundary(t, i) && DigitsAt(t, i, 2) && TryMinutes(t, i + 2).Some? ==> res.Some? && res.value.0 == 2
  {
    if !WordBoundary(t, i) then None
    else
      var two := TryHour(t, i, 2);
      if two.Some? then Some((2, two.value.0, two.value.1, two.value.2))
      else
        var one := TryHour(t, i, 1);
        if one.Some? then Some((1, one.value.0, one.value.1, one.value.2)) else None
  }

  /** res is a match that the engine tries no later than the one with an hour of l digits,
      minute group m, k whitespace characters and am/pm group ap. */
  predicate MatchNoLater(res: Option<(nat, bool, nat, Option<AmPm>)>, l: int, m: bool, k: int, ap: Option<AmPm>) {
    && res.Some?
    && res.value.0 >= l
    && (res.value.0 == l && m ==> res.value.1)
    && (res.value.0 == l && res.value.1 == m ==> SpacesNoLater(res.value.2, res.value.3, k, ap))
  }

  /** The match the engine's attempt at i picks comes no later than any match of the
      pattern at i, so the attempt fails only when the pattern has no match there. */
  lemma MatchTimeAtFirst(t: string, i: int, l: int, m: bool, k: int, ap: Option<AmPm>)
    ensures TimeShape(t, i, l, m, k, ap) ==> MatchNoLater(MatchTimeAt(t, i), l, m, k, ap)
  {
    if TimeShape(t, i, l, m, k, ap) {
      TimeShapeParts(t, i, l, m, k, ap);
      TryMinutesFirst(t, i + l, m, k, ap);
      HourFirst(t, i, l, m, k, ap);
    }
  }

  lemma TimeShapeParts(t: string, i: int, l: int, m: bool, k: int, ap: Option<AmPm>)
    ensures TimeShape(t, i, l, m, k, ap) ==>
      (l == 1 || l == 2) && WordBoundary(t, i) && DigitsAt(t, i, l) && 0 <= i + l <= |t| &&
      TailShape(t, i + l, m, k, ap)
  {
  }

  lemma HourFirst(t: string, i: int, l: int, m: bool, k: int, ap: Option<AmPm>)
    ensures ((l == 1 || l == 2) && WordBoundary(t, i) && DigitsAt(t, i, l) &&
             TailNoLaterThan(TryMinutes(t, i + l), m, k, ap)) ==>
      MatchNoLater(MatchTimeAt(t, i), l, m, k, ap)
  {
    if (l == 1 || l == 2) && WordBoundary(t, i) && DigitsAt(t, i, l) && TailNoLaterThan(TryMinutes(t, i + l), m, k, ap) {
      if TryHour(t, i, 2).Some? {
        TwoDigitHour(t, i);
        if l == 2 {
          assert TryHour(t, i, 2) == TryMinutes(t, i + 2);
        }
      } else {
        OneDigitHour(t, i);
        assert l == 1 && TryHour(t, i, 1) == TryMinutes(t, i + 1);
      }
    }
  }

  lemma TwoDigitHour(t: string, i: int)
    requires WordBoundary(t, i) && TryHour(t, i, 2).Some?
    ensures MatchTimeAt(t, i) == Some((2, TryHour(t, i, 2).value.0, TryHour(t, i, 2).value.1, TryHour(t, i, 2).value.2))
  {
  }

  lemma OneDigitHour(t: string, i: int)
    requires WordBoundary(t, i) && TryHour(t, i, 2).None? && TryHour(t, i, 1).Some?
    ensures MatchTimeAt(t, i) == Some((1, TryHour(t, i, 1).value.0, TryHour(t, i, 1).value.1, TryHour(t, i, 1).value.2))
  {
  }

  /** The engine's attempt at i fails only when the pattern has no match starting at i. */
  lemma MatchTimeAtComplete(t: string, i: int, l: int, m: bool, k: int, ap: Option<AmPm>)
    requires MatchTimeAt(t, i).None?
    ensures !TimeShape(t, i, l, m, k, ap)
  {
    if TimeShape(t, i, l, m, k, ap) {
      MatchTimeAtFirst(t, i, l, m, k, ap);
    }
  }

  lemma NoTimeAt(t: string, i: int)
    requires MatchTimeAt(t, i).None?
    ensures forall l, m, k, ap :: !TimeShape(t, i, l, m, k, ap)
  {
    forall l, m, k, ap ensures !TimeShape(t, i, l, m, k, ap) {
      MatchTimeAtComplete(t, i, l, m, k, ap);
    }
  }

  lemma DigitsSlice(t: string, i: int, n: int)
    requires DigitsAt(t, i, n)
    ensures AllDigits(t[i..i + n])
  {
  }

  /** A match of the time pattern: where it starts, the hour digits, the minute digits
      when the minute group took part, the whitespace it crossed and the am/pm group. */
  datatype TimeToken = TimeToken(at: nat, hour: string, minute: Option<string>, spaces: nat, ampm: Option<AmPm>)

  /** tok is a match of the time pattern in t: its groups are the text at its place. */
  predicate TimeTokenAt(t: string, tok: TimeToken) {
    var l1 := |tok.hour|;
    && TimeShape(t, tok.at, l1, tok.minute.Some?, tok.spaces, tok.ampm)
    && tok.hour == t[tok.at..tok.at + l1]
    && (tok.minute.Some? ==> tok.minute.value == t[tok.at + l1 + 1..tok.at + l1 + 3])
    && AllDigits(tok.hour) && (tok.minute.Some? ==> AllDigits(tok.minute.value))
  }

  /** The token for a successful attempt of the engine at i. */
  function TimeTokenOf(t: string, i: nat, l1: nat, hasMinutes: bool, k: nat, ap: Option<AmPm>): (tok: TimeToken)
    requires TimeShape(t, i, l1, hasMinutes, k, ap)
    ensures tok.at == i && TimeTokenAt(t, tok)
    ensures |tok.hour| == l1 && tok.minute.Some? == hasMinutes && tok.spaces == k && tok.ampm == ap
  {
    var p := i + l1;
    DigitsSlice(t, i, l1);
    if hasMinutes then
      DigitsSlice(t, p + 1, 2);
      TimeToken(i, t[i..p], Some(t[p + 1..p + 3]), k, ap)
    else TimeToken(i, t[i..p], None, k, ap)
  }

  /** `t.match(/(\b\d{1,2})(?:[:h](\d{2}))?\s*(am|pm)?\b/)` from position i on. */
  function FindTimeFrom(t: string, i: nat): (res: Option<TimeToken>)
    ensures res.Some? ==> i <= res.value.at && TimeTokenAt(t, res.value)
    decreases |t| + 1 - i
  {
    if i > |t| then None
    else
      var m := MatchTimeAt(t, i);
      if m.Some? then Some(TimeTokenOf(t, i, m.value.0, m.value.1, m.value.2, m.value.3))
      else FindTimeFrom(t, i + 1)
  }

  function FindTime(t: string): Option<TimeToken> {
    FindTimeFrom(t, 0)
  }

  /** The time pattern matches nowhere from i up to j. */
  ghost predicate NoTimeBetween(t: string, i: int, j: int) {
    forall x, l, m, k, ap :: i <= x < j ==> !TimeShape(t, x, l, m, k, ap)
  }

  /** The time pattern matches nowhere from i on. */
  ghost predicate NoTimeFrom(t: string, i: int) {
    forall x, l, m, k, ap :: i <= x ==> !TimeShape(t, x, l, m, k, ap)
  }

  /** The time found is the leftmost place the pattern matches, and none is found only
      when it matches nowhere. */
  lemma {:induction false} FindTimeFromLeftmost(t: string, i: nat)
    ensures FindTimeFrom(t, i).Some? ==> NoTimeBetween(t, i, FindTimeFrom(t, i).value.at)
    ensures FindTimeFrom(t, i).None? ==> NoTimeFrom(t, i)
    decreases |t| + 1 - i
  {
    if i > |t| {
      PastEndNoTime(t, i);
    } else {
      FindTimeFromLeftmost(t, i + 1);
      LeftmostStep(t, i);
    }
  }

  lemma PastEndNoTime(t: string, i: nat)
    requires i > |t|
    ensures FindTimeFrom(t, i).None? && NoTimeFrom(t, i)
  {
  }

  lemma LeftmostStep(t: string, i: nat)
    requires i <= |t|
    requires FindTimeFrom(t, i + 1).Some? ==> NoTimeBetween(t, i + 1, FindTimeFrom(t, i + 1).value.at)
    requires FindTimeFrom(t, i + 1).None? ==> NoTimeFrom(t, i + 1)
    ensures FindTimeFrom(t, i).Some? ==> NoTimeBetween(t, i, FindTimeFrom(t, i).value.at)
    ensures FindTimeFrom(t, i).None? ==> NoTimeFrom(t, i)
  {
    if !(FindTimeFrom(t, i).Some? && FindTimeFrom(t, i).value.at == i) {
      FindTimeFromSkip(t, i);
    }
  }

  /** Where no time is found at i, the attempt at i failed: no match starts there and
      the scan moves on. */
  lemma FindTimeFromSkip(t: string, i: nat)
    requires i <= |t| && !(FindTimeFrom(t, i).Some? && FindTimeFrom(t, i).value.at == i)
    ensures MatchTimeAt(t, i).None?
    ensures FindTimeFrom(t, i) == FindTimeFrom(t, i + 1)
    ensures forall l, m, k, ap :: !TimeShape(t, i, l, m, k, ap)
  {
    NoTimeAt(t, i);
  }

  /** Among the matches of the time pattern at tok's place, tok is the one the engine
      tries first. */
  ghost predicate PreferredAt(t: string, tok: TimeToken) {
    forall l, m, k, ap :: TimeShape(t, tok.at, l, m, k, ap) ==>
      TimeNoLater(|tok.hour|, tok.minute.Some?, tok.spaces, tok.ampm, l, m, k, ap)
  }

  /** The token found is the first match the engine tries at its place. */
  lemma {:induction false} FindTimeFromPreferred(t: string, i: nat)
    ensures FindTimeFrom(t, i).Some? ==> PreferredAt(t, FindTimeFrom(t, i).value)
    decreases |t| + 1 - i
  {
    if i <= |t| {
      FindTimeFromPreferred(t, i + 1);
      PreferredStep(t, i);
    }
  }

  lemma FindTimeFromHere(t: string, i: nat)
    requires i <= |t| && FindTimeFrom(t, i).Some? && FindTimeFrom(t, i).value.at == i
    ensures var tok := FindTimeFrom(t, i).value;
      MatchTimeAt(t, tok.at) == Some((|tok.hour|, tok.minute.Some?, tok.spaces, tok.ampm))
  {
  }

  lemma PreferredHere(t: string, i: nat)
    requires i <= |t| && FindTimeFrom(t, i).Some? && FindTimeFrom(t, i).value.at == i
    ensures PreferredAt(t, FindTimeFrom(t, i).value)
  {
    FindTimeFromHere(t, i);
    AttemptPreferred(t, FindTimeFrom(t, i).value);
  }

  lemma PreferredStep(t: string, i: nat)
    requires i <= |t|
    requires FindTimeFrom(t, i + 1).Some? ==> PreferredAt(t, FindTimeFrom(t, i + 1).value)
    ensures FindTimeFrom(t, i).Some? ==> PreferredAt(t, FindTimeFrom(t, i).value)
  {
    if FindTimeFrom(t, i).Some? && FindTimeFrom(t, i).value.at == i {
      PreferredHere(t, i);
    } else {
      FindTimeFromSkip(t, i);
    }
  }

  /** What the engine's attempt picks is its first match at that place. */
  lemma AttemptPreferred(t: string, tok: TimeToken)
    requires MatchTimeAt(t, tok.at) == Some((|tok.hour|, tok.minute.Some?, tok.spaces, tok.ampm))
    ensures PreferredAt(t, tok)
  {
    forall l, m, k, ap | TimeShape(t, tok.at, l, m, k, ap)
      ensures TimeNoLater(|tok.hour|, tok.minute.Some?, tok.spaces, tok.ampm, l, m, k, ap)
    {
      MatchTimeAtFirst(t, tok.at, l, m, k, ap);
      TimeNoLaterOf(|tok.hour|, tok.minute.Some?, tok.spaces, tok.ampm, l, m, k, ap);
    }
  }

  /** The time found is the leftmost place the pattern matches, and among the matches
      there the one the engine tries first; none is found only when it matches nowhere. */
  lemma FindTimeLeftmost(t: string)
    ensures FindTime(t).Some? ==> forall j, l, m, k, ap :: 0 <= j < FindTime(t).value.at ==> !TimeShape(t, j, l, m, k, ap)
    ensures FindTime(t).Some? ==> var tok := FindTime(t).value;
      forall l, m, k, ap :: TimeShape(t, tok.at, l, m, k, ap) ==>
        TimeNoLater(|tok.hour|, tok.minute.Some?, tok.spaces, tok.ampm, l, m, k, ap)
    ensures FindTime(t).None? ==> forall j, l, m, k, ap :: !TimeShape(t, j, l, m, k, ap)
  {
    FindTimeFromLeftmost(t, 0);
    FindTimeFromPreferred(t, 0);
    assert FindTime(t).Some? ==> NoTimeBetween(t, 0, FindTime(t).value.at);
    assert FindTime(t).None? ==> NoTimeFrom(t, 0);
    assert FindTime(t).Some? ==> PreferredAt(t, FindTime(t).value);
  }

  // ---------------------------------------------------------------------------
  // The day-part keywords /\bsáng\b/ and /\bchiều\b|\btối\b|\bđêm\b/
  // ---------------------------------------------------------------------------

  const Sang: string := "s\U{00E1}ng"
  const Chieu: string := "chi\U{1EC1}u"
  const Toi: string := "t\U{1ED1}i"
  const Dem: string := "\U{0111}\U{00EA}m"

  /** `\b` w `\b` matches at position i. */
  predicate KeywordAt(t: string, w: string, i: int) {
    0 <= i && i + |w| <= |t| && t[i..i + |w|] == w && WordBoundary(t, i) && WordBoundary(t, i + |w|)
  }

  /** `/\bw\b/.test(t)` from position i on. */
  function TestKeywordFrom(t: string, w: string, i: nat): (found: bool)
    ensures found ==> exists j :: i <= j && KeywordAt(t, w, j)
    ensures !found ==> forall j :: i <= j ==> !KeywordAt(t, w, j)
    decreases |t| + 1 - i
  {
    if i > |t| then false
    else KeywordAt(t, w, i) || TestKeywordFrom(t, w, i + 1)
  }

  function TestKeyword(t: string, w: string): bool {
    TestKeywordFrom(t, w, 0)
  }

  /** `hasMorning`: the whole word "sáng" occurs. */
  function HasMorning(t: string): bool {
    TestKeyword(t, Sang)
  }

  /** `hasAfternoon`: one of "chiều", "tối", "đêm" occurs as a whole word. */
  function HasAfternoon(t: string): bool {
    TestKeyword(t, Chieu) || TestKeyword(t, Toi) || TestKeyword(t, Dem)
  }

  /** The keyword test says yes exactly when the keyword occurs with a word boundary on
      each side. */
  lemma TestKeywordSpec(t: string, w: string)
    ensures TestKeyword(t, w) <==> exists j :: KeywordAt(t, w, j)
  {
    if !TestKeyword(t, w) {
      forall j ensures !KeywordAt(t, w, j) {
        if j < 0 {
          assert !KeywordAt(t, w, j);
        }
      }
    }
  }

  /** "đêm" begins with a letter outside ASCII, so `\b` before it needs an ASCII word
      character glued to its left: after a space or at the start it never matches. */
  lemma DemNeedsGluedWordChar(t: string, i: int)
    requires KeywordAt(t, Dem, i)
    ensures 0 < i && IsWordChar(t[i - 1])
  {
    assert t[i] == Dem[0];
  }

  /** "sáng", "chiều" and "tối" begin and end with ASCII letters, so standing between
      spaces (or at an end of the text) they are found. */
  lemma SpacedKeywordFound(t: string, w: string, i: int)
    requires w == Sang || w == Chieu || w == Toi
    requires 0 <= i && i + |w| <= |t| && t[i..i + |w|] == w
    requires i == 0 || t[i - 1] == ' '
    requires i + |w| == |t| || t[i + |w|] == ' '
    ensures KeywordAt(t, w, i)
  {
    assert t[i] == w[0] && t[i + |w| - 1] == w[|w| - 1];
  }
}
