/** Characters, trimming and decimal rendering as JavaScript defines them
    for regular expressions without the `u` flag and for `String(n)`. */
module Text {

  /** `\d`: an ASCII digit. */
  predicate IsDigit(c: char) {
    '0' <= c <= '9'
  }

  /** `\w`: an ASCII letter, digit or underscore. */
  predicate IsWordChar(c: char) {
    'a' <= c <= 'z' || 'A' <= c <= 'Z' || IsDigit(c) || c == '_'
  }

  /** `\s` and the characters `String.prototype.trim` removes:
      WhiteSpace and LineTerminator of ECMA-262 (sections 12.2 and 12.3) — tab, line
      feed, vertical tab, form feed, carriage return, space, no-break space, the
      Unicode space separators, line and paragraph separator, and the byte order mark. */
  predicate IsJsSpace(c: char) {
    || '\t' <= c <= '\r' || c == ' ' || c == '\U{00A0}' || c == '\U{1680}'
    || '\U{2000}' <= c <= '\U{200A}' || c == '\U{2028}' || c == '\U{2029}'
    || c == '\U{202F}' || c == '\U{205F}' || c == '\U{3000}' || c == '\U{FEFF}'
  }

  predicate AllDigits(s: string) {
    forall i :: 0 <= i < |s| ==> IsDigit(s[i])
  }

  /** `\b` at position i: exactly one of the characters around i is a word character
      (positions outside the string count as non-word). */
  predicate WordBoundary(s: string, i: int) {
    var before := 0 < i <= |s| && IsWordChar(s[i - 1]);
    var after := 0 <= i < |s| && IsWordChar(s[i]);
    before != after
  }

  /** Leading whitespace removed. */
  function TrimStart(s: string): (r: string)
    ensures |r| <= |s| && r == s[|s| - |r|..]
    ensures forall i :: 0 <= i < |s| - |r| ==> IsJsSpace(s[i])
    ensures r == [] || !IsJsSpace(r[0])
  {
    if s != [] && IsJsSpace(s[0]) then TrimStart(s[1..]) else s
  }

  /** Trailing whitespace removed. */
  function TrimEnd(s: string): (r: string)
    ensures |r| <= |s| && r == s[..|r|]
    ensures forall i :: |r| <= i < |s| ==> IsJsSpace(s[i])
    ensures r == [] || !IsJsSpace(r[|r| - 1])
  {
    if s != [] && IsJsSpace(s[|s| - 1]) then TrimEnd(s[..|s| - 1]) else s
  }

  /** `String.prototype.trim`. */
  function Trim(s: string): (r: string)
    ensures |r| <= |s|
    ensures r == [] || (!IsJsSpace(r[0]) && !IsJsSpace(r[|r| - 1]))
  {
    TrimEnd(TrimStart(s))
  }

  /** Leading whitespace is removed from the front only: text after a character that is
      not whitespace is kept as it is. */
  lemma {:induction false} TrimStartAppend(x: string, b: string)
    requires x != [] && !IsJsSpace(x[|x| - 1])
    ensures TrimStart(x + b) == TrimStart(x) + b
    decreases |x|
  {
    if IsJsSpace(x[0]) {
      assert (x + b)[1..] == x[1..] + b;
      TrimStartAppend(x[1..], b);
    }
  }

  /** A run of whitespace in front is removed whole. */
  lemma {:induction false} TrimStartSpaces(w: string, b: string)
    requires forall i :: 0 <= i < |w| ==> IsJsSpace(w[i])
    ensures TrimStart(w + b) == TrimStart(b)
    decreases |w|
  {
    if w == [] {
      assert w + b == b;
    } else {
      assert (w + b)[0] == w[0] && (w + b)[1..] == w[1..] + b;
      TrimStartSpaces(w[1..], b);
    }
  }

  /** Trimming leaves a string that neither starts nor ends with whitespace as it is. */
  lemma TrimNoSpaces(s: string)
    requires s != [] && !IsJsSpace(s[0]) && !IsJsSpace(s[|s| - 1])
    ensures Trim(s) == s
  {
  }

  function DigitValue(c: char): nat
    requires IsDigit(c)
  {
    (c as int) - ('0' as int)
  }

  function DigitChar(d: nat): (c: char)
    requires d < 10
    ensures IsDigit(c) && DigitValue(c) == d
  {
    ('0' as int + d) as char
  }

  /** `Number(s)` for a string of ASCII digits. */
  function DecimalValue(s: string): nat
    requires AllDigits(s)
  {
    if s == [] then 0 else 10 * DecimalValue(s[..|s| - 1]) + DigitValue(s[|s| - 1])
  }

  /** `String(n)` for a non-negative integer. */
  function NatToString(n: nat): (s: string)
    ensures |s| >= 1 && AllDigits(s)
  {
    if n < 10 then [DigitChar(n)] else NatToString(n / 10) + [DigitChar(n % 10)]
  }

  /** `String(n)` for an integer. */
  function IntToString(n: int): (s: string)
    ensures |s| >= 1
  {
    if n < 0 then "-" + NatToString(-n) else NatToString(n)
  }

  /** Reading back what `String(n)` writes gives n. */
  lemma {:induction false} DecimalValueOfNatToString(n: nat)
    ensures DecimalValue(NatToString(n)) == n
  {
    if n >= 10 {
      var s := NatToString(n);
      assert s[..|s| - 1] == NatToString(n / 10);
      DecimalValueOfNatToString(n / 10);
    }
  }

  /** `String(n)` has exactly k digits for 10^(k-1) <= n < 10^k; the cases used here. */
  lemma NatToStringLength(n: nat)
    ensures n < 10 ==> |NatToString(n)| == 1
    ensures 10 <= n < 100 ==> |NatToString(n)| == 2
    ensures 1000 <= n < 10000 ==> |NatToString(n)| == 4
  {
    if n >= 10 {
      NatToStringLength(n / 10);
    }
  }

  /** Facts about `String(n)` for two-digit values that padding relies on. */
  lemma TwoDigitFacts(n: int)
    ensures 0 <= n < 10 ==> DecimalValue("0" + NatToString(n)) == n
    ensures 10 <= n < 100 ==> |NatToString(n)| == 2 && DecimalValue(NatToString(n)) == n
  {
    if 0 <= n < 100 {
      DecimalValueOfNatToString(n);
      NatToStringLength(n);
      if n < 10 {
        var s := "0" + NatToString(n);
        assert s[..|s| - 1] == "0";
        assert DecimalValue("0") == 10 * DecimalValue("") + 0;
      }
    }
  }

  /** `String(n).padStart(2, "0")`. */
  function Pad2(n: int): (s: string)
    ensures 0 <= n < 100 ==> |s| == 2 && AllDigits(s) && DecimalValue(s) == n
  {
    TwoDigitFacts(n);
    var s := IntToString(n);
    if |s| < 2 then "0" + s else s
  }
}
