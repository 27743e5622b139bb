/** The JSON values the request handler reads, with the JavaScript notions it relies
    on: which values are falsy (`!x`), which are nullish (`??` and `?.`), property
    access, and `String(x)`. Numbers are integers here. */
module JsValue {
  import opened Text
  import opened Wrappers

  /** A value read from a parsed JSON body; `Undefined` is a property that is absent. */
  datatype Json =
    | Undefined
    | Null
    | Bool(b: bool)
    | Num(n: int)
    | Str(s: string)
    | Arr(items: seq<Json>)
    | Obj(fields: map<string, Json>)

  /** `x == null`: the values `??` and `?.` skip. */
  predicate Nullish(v: Json) {
    v.Undefined? || v.Null?
  }

  /** `!x`. */
  predicate Falsy(v: Json) {
    Nullish(v) || v == Bool(false) || v == Num(0) || v == Str("")
  }

  /** `v?.key`, and `v.key` on a value that is not nullish: the field of an object, and
      `undefined` for anything else or a missing field. */
  function Prop(v: Json, key: string): (r: Json)
    ensures !v.Obj? ==> r == Undefined
    ensures v.Obj? && key in v.fields ==> r == v.fields[key]
  {
    if v.Obj? && key in v.fields then v.fields[key] else Undefined
  }

  /** `a ?? b`. */
  function Coalesce(a: Json, b: Json): (r: Json)
    ensures Nullish(a) ==> r == b
    ensures !Nullish(a) ==> r == a
  {
    if Nullish(a) then b else a
  }

  /** `vs[0] ?? vs[1] ?? … ?? vs[n-1]`: the first value that is not nullish, or the last
      value when all of them are. */
  function CoalesceAll(vs: seq<Json>): (r: Json)
    requires vs != []
    ensures r in vs
    ensures !Nullish(r) <==> exists i :: 0 <= i < |vs| && !Nullish(vs[i])
    ensures (forall i :: 0 <= i < |vs| ==> Nullish(vs[i])) ==> r == vs[|vs| - 1]
  {
    if |vs| == 1 then vs[0] else Coalesce(vs[0], CoalesceAll(vs[1..]))
  }

  /** The chain skips exactly the leading nullish values: it is the first value that is
      not nullish. */
  lemma {:induction false} CoalesceAllSkips(vs: seq<Json>, i: int)
    requires 0 <= i < |vs| && !Nullish(vs[i])
    requires forall j :: 0 <= j < i ==> Nullish(vs[j])
    ensures CoalesceAll(vs) == vs[i]
  {
    if i > 0 {
      CoalesceAllSkips(vs[1..], i - 1);
    }
  }

  /** `String(v)` for the values a JSON body holds: an array joins its elements with ","
      writing nullish elements as "", and an object is "[object Object]". */
  function ToJsString(v: Json): string
    decreases v, 1
  {
    match v
    case Undefined => "undefined"
    case Null => "null"
    case Bool(b) => if b then "true" else "false"
    case Num(n) => IntToString(n)
    case Str(s) => s
    case Arr(items) => JoinElements(items, v)
    case Obj(_) => "[object Object]"
  }

  /** `Array.prototype.join(",")` over items, the elements of the array whole. */
  function JoinElements(items: seq<Json>, whole: Json): string
    requires forall i :: 0 <= i < |items| ==> items[i] < whole
    decreases whole, 0, |items|
  {
    if items == [] then ""
    else
      var first := if Nullish(items[0]) then "" else ToJsString(items[0]);
      if |items| == 1 then first else first + "," + JoinElements(items[1..], whole)
  }

  /** `Number(s)` for a string whose value is an integer: blank is 0, and an optional
      sign followed by ASCII digits is read in decimal; None is NaN, and also stands for
      the numeric forms not read here (fractions, exponents, hexadecimal, "Infinity"). */
  function StringToNumber(s: string): Option<int> {
    var t := Trim(s);
    if t == [] then Some(0)
    else if AllDigits(t) then Some(DecimalValue(t))
    else if |t| > 1 && (t[0] == '-' || t[0] == '+') && AllDigits(t[1..]) then
      Some(if t[0] == '-' then 0 - DecimalValue(t[1..]) else DecimalValue(t[1..]) as int)
    else None
  }

  /** `Number(v)`; None is NaN. Arrays and objects convert through `String(v)`. */
  function ToNumber(v: Json): Option<int> {
    match v
    case Undefined => None
    case Null => Some(0)
    case Bool(b) => Some(if b then 1 else 0)
    case Num(n) => Some(n)
    case Str(s) => StringToNumber(s)
    case Arr(_) => StringToNumber(ToJsString(v))
    case Obj(_) => StringToNumber(ToJsString(v))
  }

  /** `Number(String(n)) == n`: the decimal text of an integer reads back as it. */
  lemma NumberOfString(n: int)
    ensures ToNumber(Str(ToJsString(Num(n)))) == Some(n)
  {
    assert ToNumber(Str(ToJsString(Num(n)))) == StringToNumber(IntToString(n));
    var s := NatToString(if n < 0 then -n else n);
    DecimalValueOfNatToString(if n < 0 then -n else n);
    if n < 0 {
      assert IntToString(n) == "-" + s;
      NegativeDigitsNumber(s);
      assert DecimalValue(s) == -n;
      assert 0 - DecimalValue(s) == n;
      assert StringToNumber("-" + s) == Some(0 - DecimalValue(s));
    } else {
      assert IntToString(n) == s;
      DigitsNumber(s);
      assert DecimalValue(s) == n;
      assert StringToNumber(s) == Some(DecimalValue(s));
    }
  }

  lemma DigitsNumber(s: string)
    requires s != [] && AllDigits(s)
    ensures StringToNumber(s) == Some(DecimalValue(s))
  {
    assert IsDigit(s[0]) && IsDigit(s[|s| - 1]);
    TrimNoSpaces(s);
  }

  lemma NegativeDigitsNumber(s: string)
    requires s != [] && AllDigits(s)
    ensures StringToNumber("-" + s) == Some(0 - DecimalValue(s))
  {
    var t := "-" + s;
    assert t[0] == '-' && t[1..] == s && t[|t| - 1] == s[|s| - 1];
    assert IsDigit(s[|s| - 1]);
    TrimNoSpaces(t);
    assert !IsDigit(t[0]);
  }
}
