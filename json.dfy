/**
 * Parsed JSON values as the driver sees them after `JSON.parse`, with the
 * few JavaScript coercions the driver's code relies on: truthiness (the
 * `value && ...` test of findAll), `ToNumber` (the right operand of
 * `res1 - res2` in the sort comparator) and `String(...)` (the argument of
 * `localeCompare`). Numbers are integers: JavaScript's floating point is not
 * modelled.
 */
module Json {
  import opened Base

  datatype Json =
    | JNull
    | JBool(b: bool)
    | JNum(n: int)
    | JStr(s: string)
    | JArr(items: seq<Json>)
    | JObj(fields: map<string, Json>)

  /** JavaScript truthiness of a value; `None` stands for `undefined`. */
  predicate Truthy(v: Option<Json>)
  {
    match v
    case None => false
    case Some(JNull) => false
    case Some(JBool(b)) => b
    case Some(JNum(n)) => n != 0
    case Some(JStr(s)) => s != ""
    case Some(_) => true
  }

  /**
   * `ToNumber` as applied to the right operand of a subtraction; `None` is
   * NaN. Strings are read by `TextToNumber`; arrays and objects are first
   * turned into text, as `ToPrimitive` does.
   */
  function ToNumber(v: Option<Json>): Option<int>
  {
    match v
    case None => None
    case Some(JNum(n)) => Some(n)
    case Some(JNull) => Some(0)
    case Some(JBool(b)) => Some(if b then 1 else 0)
    case Some(JStr(s)) => TextToNumber(s)
    case Some(j) => TextToNumber(JsonText(j))
  }

  /** The white space and line terminators `StringToNumber` trims. */
  predicate IsSpace(c: char)
  {
    || c == '\t' || c == '\n' || c == '\U{000B}' || c == '\U{000C}' || c == '\r' || c == ' '
    || c == '\U{00A0}' || c == '\U{1680}' || c == '\U{2028}' || c == '\U{2029}' || c == '\U{202F}'
    || c == '\U{205F}' || c == '\U{3000}' || c == '\U{FEFF}' || '\U{2000}' <= c <= '\U{200A}'
  }

  function TrimStart(s: string): (r: string)
    ensures |r| <= |s| && (r != [] ==> !IsSpace(r[0]))
  {
    if s != [] && IsSpace(s[0]) then TrimStart(s[1..]) else s
  }

  function TrimEnd(s: string): (r: string)
    ensures |r| <= |s| && (r != [] ==> !IsSpace(r[|r| - 1]))
  {
    if s != [] && IsSpace(s[|s| - 1]) then TrimEnd(s[..|s| - 1]) else s
  }

  predicate IsDigit(c: char)
  {
    '0' <= c <= '9'
  }

  predicate AllDigits(s: string)
  {
    forall i :: 0 <= i < |s| ==> IsDigit(s[i])
  }

  /** The value of a run of decimal digits. */
  function DigitsValue(s: string): nat
    requires AllDigits(s)
  {
    if s == [] then 0
    else DigitsValue(s[..|s| - 1]) * 10 + (s[|s| - 1] as int - '0' as int)
  }

  /**
   * `StringToNumber` for the integers of this model: after trimming, the
   * empty text is 0 and an optionally signed run of decimal digits is its
   * value; everything else is NaN.
   */
  function TextToNumber(s: string): (r: Option<int>)
    ensures TrimEnd(TrimStart(s)) == [] ==> r == Some(0)
  {
    var t := TrimEnd(TrimStart(s));
    if t == [] then Some(0)
    else if (t[0] == '-' || t[0] == '+') && |t| > 1 && AllDigits(t[1..]) then
      var v: int := DigitsValue(t[1..]);
      Some(if t[0] == '-' then -v else v)
    else if AllDigits(t) then Some(DigitsValue(t))
    else None
  }

  function DigitChar(d: nat): (c: char)
    requires d < 10
    ensures IsDigit(c) && c as int - '0' as int == d
  {
    (d + '0' as int) as char
  }

  function Digits(n: nat): string
  {
    if n < 10 then [DigitChar(n)] else Digits(n / 10) + [DigitChar(n % 10)]
  }

  lemma {:induction false} DigitsAreDigits(n: nat)
    ensures Digits(n) != [] && AllDigits(Digits(n))
    ensures DigitsValue(Digits(n)) == n
    decreases n
  {
    if n >= 10 {
      DigitsAreDigits(n / 10);
      var d := Digits(n);
      assert d[..|d| - 1] == Digits(n / 10);
    }
  }

  /** Decimal text of an integer, as `String(n)` writes it. */
  function IntText(n: int): string
  {
    if n < 0 then "-" + Digits(-n) else Digits(n)
  }

  /** Reading the text `String(n)` writes gives `n` back. */
  lemma TextToNumberIntText(n: int)
    ensures TextToNumber(IntText(n)) == Some(n)
  {
    var m := if n < 0 then -n else n;
    DigitsAreDigits(m);
    var t := IntText(n);
    assert !IsSpace(t[0]) && !IsSpace(t[|t| - 1]);
    assert TrimEnd(TrimStart(t)) == t;
    if n < 0 {
      assert t[1..] == Digits(m);
    }
  }

  /** A numeric string reads as its number, blanks around it included. */
  lemma ExampleNumericText()
    ensures ToNumber(Some(JStr("3"))) == Some(3)
    ensures ToNumber(Some(JStr(" -3 "))) == Some(-3)
  {
    assert TrimStart("3") == "3" && TrimEnd("3") == "3";
    assert "3"[..0] == [];
    assert TrimStart(" -3 ") == "-3 " by {
      assert " -3 "[1..] == "-3 ";
    }
    assert TrimEnd("-3 ") == "-3" by {
      assert "-3 "[..2] == "-3";
    }
    assert "-3"[1..] == "3";
  }

  /** Empty text and the empty array read as 0, a one-element array as its element. */
  lemma ExampleEmptyAndArray()
    ensures ToNumber(Some(JStr(""))) == Some(0)
    ensures ToNumber(Some(JArr([]))) == Some(0)
    ensures ToNumber(Some(JArr([JNum(3)]))) == Some(3)
  {
    assert JsonText(JArr([JNum(3)])) == "3" by {
      assert Digits(3) == "3";
    }
    ExampleNumericText();
  }

  /** Text that is not a number, and an object, read as NaN. */
  lemma ExampleNotANumber()
    ensures ToNumber(Some(JStr("3a"))) == None
    ensures ToNumber(Some(JObj(map[]))) == None
  {
    assert TrimStart("3a") == "3a" && TrimEnd("3a") == "3a";
    assert !IsDigit("3a"[1]);
    var o := "[object Object]";
    assert TrimStart(o) == o && TrimEnd(o) == o;
    assert !IsDigit(o[0]);
  }

  /** `String(v)`: the conversion `localeCompare` applies to its argument. */
  function ToText(v: Option<Json>): string
  {
    match v
    case None => "undefined"
    case Some(j) => JsonText(j)
  }

  function JsonText(j: Json): string
    decreases j, 1
  {
    match j
    case JNull => "null"
    case JBool(b) => if b then "true" else "false"
    case JNum(n) => IntText(n)
    case JStr(s) => s
    case JArr(_) => JoinFrom(j, 0)
    case JObj(_) => "[object Object]"
  }

  /** `Array.prototype.join(",")` from element `k` on; `null` elements print as "". */
  function JoinFrom(j: Json, k: nat): string
    requires j.JArr?
    decreases j, 0, |j.items| - k
  {
    if k >= |j.items| then ""
    else
      var e := j.items[k];
      assert e in j.items;
      (if k > 0 then "," else "") + (if e == JNull then "" else JsonText(e)) + JoinFrom(j, k + 1)
  }
}
