/** The slice of JavaScript value semantics the application's logic relies on:
    truthiness, `||`, `String(v)`, `Number(v)` on integers, `String.prototype.trim`
    and property reads. Numbers are integers or NaN; objects are their own
    enumerable properties. */
module Js {

  datatype Option<+T> = None | Some(value: T)

  /** A JavaScript value as far as the modelled code inspects it. */
  datatype JsVal =
    | Undefined
    | Null
    | Bool(b: bool)
    | Num(n: int)
    | NaN
    | Str(s: string)
    | Arr(elems: seq<JsVal>)
    | Obj(props: map<string, JsVal>)

  /** A value caught by a `catch` clause: an `Error` instance with its message,
      or anything else that was thrown. */
  datatype Thrown = ErrorWith(message: string) | NonError

  /** Message of the TypeError the runtime raises when a property of `null` or
      `undefined` is read; the exact wording is engine-specific. */
  const NULL_READ := "Cannot read properties of null"

  /** JavaScript truthiness: `undefined`, `null`, `false`, `0`, `NaN` and `''` are falsy. */
  predicate Truthy(v: JsVal)
  {
    match v
    case Undefined => false
    case Null => false
    case Bool(b) => b
    case Num(n) => n != 0
    case NaN => false
    case Str(s) => s != ""
    case Arr(_) => true
    case Obj(_) => true
  }

  predicate Nullish(v: JsVal)
  {
    v.Undefined? || v.Null?
  }

  /** `a || b` */
  function Or(a: JsVal, b: JsVal): JsVal
  {
    if Truthy(a) then a else b
  }

  /** A string-typed field that may be missing (`null`/`undefined`). */
  predicate Present(o: Option<string>)
  {
    o.Some? && o.value != ""
  }

  /** `a || b` on string fields. */
  function OrText(a: Option<string>, b: Option<string>): Option<string>
  {
    if Present(a) then a else b
  }

  /** Names every plain object inherits from `Object.prototype`; a computed
      lookup `obj[key]` with one of these finds a (truthy) inherited member. */
  const OBJECT_PROTOTYPE_NAMES: set<string> := {
    "constructor", "toString", "toLocaleString", "valueOf", "hasOwnProperty",
    "isPrototypeOf", "propertyIsEnumerable", "__proto__", "__defineGetter__",
    "__defineSetter__", "__lookupGetter__", "__lookupSetter__"
  }

  /** Reading property `key` of `v`: `None` when the read throws (`v` is null or
      undefined), otherwise the own property or `undefined`. */
  function Get(v: JsVal, key: string): (r: Option<JsVal>)
    ensures r.None? <==> Nullish(v)
    ensures v.Obj? && key in v.props ==> r == Some(v.props[key])
    ensures !v.Obj? && !Nullish(v) ==> r == Some(Undefined)
  {
    match v
    case Undefined => None
    case Null => None
    case Obj(m) => if key in m then Some(m[key]) else Some(Undefined)
    case _ => Some(Undefined)
  }

  // ---------------------------------------------------------------------------
  // Decimal numerals

  predicate IsDigit(c: char)
  {
    '0' <= c <= '9'
  }

  predicate AllDigits(s: string)
  {
    forall i :: 0 <= i < |s| ==> IsDigit(s[i])
  }

  function DigitChar(d: nat): (c: char)
    requires d < 10
    ensures IsDigit(c)
  {
    "0123456789"[d]
  }

  function DigitValue(c: char): nat
    requires IsDigit(c)
  {
    (c as int) - ('0' as int)
  }

  /** The decimal numeral of `n`, without leading zeros. */
  function NatToDecimal(n: nat): (r: string)
    ensures |r| >= 1 && AllDigits(r)
    ensures r[0] == '0' ==> n == 0
    decreases n
  {
    if n < 10 then [DigitChar(n)] else NatToDecimal(n / 10) + [DigitChar(n % 10)]
  }

  /** The value a string of decimal digits denotes. */
  function DecimalValue(s: string): nat
    requires AllDigits(s)
    decreases |s|
  {
    if s == [] then 0 else 10 * DecimalValue(s[..|s| - 1]) + DigitValue(s[|s| - 1])
  }

  lemma {:induction false} DecimalRoundTrip(n: nat)
    ensures DecimalValue(NatToDecimal(n)) == n
    decreases n
  {
    var r := NatToDecimal(n);
    if n < 10 {
      assert DigitValue(DigitChar(n)) == n;
    } else {
      var hi := NatToDecimal(n / 10);
      assert r == hi + [DigitChar(n % 10)];
      assert r[..|r| - 1] == hi;
      assert DigitValue(DigitChar(n % 10)) == n % 10;
      DecimalRoundTrip(n / 10);
    }
  }

  /** `String(n)` for an integer `n`. */
  function IntToString(n: int): (r: string)
    ensures |r| >= 1
    ensures n >= 0 ==> AllDigits(r)
    ensures n < 0 ==> r[0] == '-' && AllDigits(r[1..])
  {
    if n < 0 then "-" + NatToDecimal(-n) else NatToDecimal(n)
  }

  /** The numerals of the page numbers that appear as literals. */
  lemma SmallNumerals()
    ensures IntToString(0) == "0" && IntToString(1) == "1"
  {
  }

  lemma NatToDecimalInjective(x: nat, y: nat)
    requires NatToDecimal(x) == NatToDecimal(y)
    ensures x == y
  {
    DecimalRoundTrip(x);
    DecimalRoundTrip(y);
  }

  /** A numeral starts with a minus sign exactly when the integer is negative. */
  lemma {:induction false} SignOfNumeral(a: int)
    ensures IntToString(a)[0] == '-' <==> a < 0
  {
    if a >= 0 {
      assert IsDigit(IntToString(a)[0]);
    }
  }

  lemma {:induction false} NegativeNumeralsInjective(a: int, b: int)
    requires IntToString(a) == IntToString(b) && a < 0 && b < 0
    ensures a == b
  {
    var s := IntToString(a);
    assert s[1..] == NatToDecimal(-a) && s[1..] == NatToDecimal(-b);
    NatToDecimalInjective(-a, -b);
  }

  /** A numeral is made of digits and at most a leading minus sign. */
  lemma {:induction false} NumeralChars(n: int)
    ensures forall i :: 0 <= i < |IntToString(n)| ==> IntToString(n)[i] == '-' || IsDigit(IntToString(n)[i])
    ensures forall i :: 0 < i < |IntToString(n)| ==> IsDigit(IntToString(n)[i])
  {
    var s := IntToString(n);
    if n < 0 {
      forall i | 0 < i < |s| ensures IsDigit(s[i]) {
        assert s[i] == s[1..][i - 1];
      }
    }
  }

  /** Distinct integers print differently. */
  lemma {:induction false} IntToStringInjective(a: int, b: int)
    requires IntToString(a) == IntToString(b)
    ensures a == b
  {
    SignOfNumeral(a);
    SignOfNumeral(b);
    if a < 0 {
      NegativeNumeralsInjective(a, b);
    } else {
      NatToDecimalInjective(a, b);
    }
  }

  function Join(parts: seq<string>, sep: string): string
  {
    if parts == [] then ""
    else if |parts| == 1 then parts[0]
    else parts[0] + sep + Join(parts[1..], sep)
  }

  /** `String(v)`. Arrays print their elements joined by ',' with null and
      undefined elements as empty strings. */
  function ToString(v: JsVal): string
    decreases v
  {
    match v
    case Undefined => "undefined"
    case Null => "null"
    case Bool(b) => if b then "true" else "false"
    case Num(n) => IntToString(n)
    case NaN => "NaN"
    case Str(s) => s
    case Arr(xs) =>
      Join(seq(|xs|, i requires 0 <= i < |xs| => if Nullish(xs[i]) then "" else ToString(xs[i])), ",")
    case Obj(_) => "[object Object]"
  }

  // ---------------------------------------------------------------------------
  // Whitespace and trim

  /** ECMAScript WhiteSpace and LineTerminator code points, the set `trim` removes. */
  predicate IsSpace(c: char)
  {
    || c == '\t' || c == '\n' || c == '\U{000B}' || c == '\U{000C}' || c == '\r'
    || c == ' ' || c == '\U{00A0}' || c == '\U{1680}'
    || ('\U{2000}' <= c <= '\U{200A}')
    || c == '\U{2028}' || c == '\U{2029}' || c == '\U{202F}' || c == '\U{205F}'
    || c == '\U{3000}' || c == '\U{FEFF}'
  }

  predicate AllSpace(s: string)
  {
    forall i :: 0 <= i < |s| ==> IsSpace(s[i])
  }

  /** `s` with its leading whitespace removed. */
  function TrimStart(s: string): (r: string)
    ensures |r| <= |s| && r == s[|s| - |r|..]
    ensures r == [] || !IsSpace(r[0])
    ensures AllSpace(s[..|s| - |r|])
    decreases |s|
  {
    if s != [] && IsSpace(s[0]) then
      var r := TrimStart(s[1..]);
      assert s[..|s| - |r|] == [s[0]] + s[1..][..|s| - 1 - |r|];
      r
    else s
  }

  /** `s` with its trailing whitespace removed. */
  function TrimEnd(s: string): (r: string)
    ensures |r| <= |s| && r == s[..|r|]
    ensures r == [] || !IsSpace(r[|r| - 1])
    ensures AllSpace(s[|r|..])
    decreases |s|
  {
    if s != [] && IsSpace(s[|s| - 1]) then
      var r := TrimEnd(s[..|s| - 1]);
      assert r == s[..|r|];
      assert s[|r|..] == s[..|s| - 1][|r|..] + [s[|s| - 1]];
      r
    else s
  }

  /** `s.trim()`: `s` without its leading and trailing whitespace. */
  function Trim(s: string): (r: string)
    ensures |r| <= |s|
    ensures r == [] || (!IsSpace(r[0]) && !IsSpace(r[|r| - 1]))
  {
    TrimEnd(TrimStart(s))
  }

  /** The trimmed string is a slice of the original flanked only by whitespace. */
  lemma TrimSlice(s: string) returns (i: nat)
    ensures i + |Trim(s)| <= |s|
    ensures Trim(s) == s[i..i + |Trim(s)|]
    ensures AllSpace(s[..i]) && AllSpace(s[i + |Trim(s)|..])
  {
    var t := TrimStart(s);
    var r := TrimEnd(t);
    i := |s| - |t|;
    assert r == s[i..i + |r|];
    assert s[i + |r|..] == t[|r|..];
  }

  lemma {:induction false} TrimStartPadded(a: string, r: string)
    requires AllSpace(a) && |r| > 0 && !IsSpace(r[0])
    ensures TrimStart(a + r) == r
    decreases |a|
  {
    if a == [] {
      assert a + r == r;
    } else {
      assert (a + r)[0] == a[0];
      assert (a + r)[1..] == a[1..] + r;
      TrimStartPadded(a[1..], r);
    }
  }

  lemma {:induction false} TrimEndPadded(r: string, b: string)
    requires AllSpace(b) && |r| > 0 && !IsSpace(r[|r| - 1])
    ensures TrimEnd(r + b) == r
    decreases |b|
  {
    if b == [] {
      assert r + b == r;
    } else {
      assert (r + b)[|r + b| - 1] == b[|b| - 1];
      assert (r + b)[..|r + b| - 1] == r + b[..|b| - 1];
      TrimEndPadded(r, b[..|b| - 1]);
    }
  }

  /** Trimming removes exactly the whitespace around a text that neither
      starts nor ends with whitespace. */
  lemma {:induction false} TrimPadded(a: string, q: string, b: string)
    requires AllSpace(a) && AllSpace(b)
    requires |q| > 0 && !IsSpace(q[0]) && !IsSpace(q[|q| - 1])
    ensures Trim(a + q + b) == q
  {
    assert a + q + b == a + (q + b);
    TrimStartPadded(a, q + b);
    TrimEndPadded(q, b);
  }

  /** `!s.trim()` */
  predicate Blank(s: string)
  {
    Trim(s) == ""
  }

  /** A string is blank exactly when every character is whitespace. */
  lemma BlankIffAllSpace(s: string)
    ensures Blank(s) <==> AllSpace(s)
  {
    var r := Trim(s);
    var i := TrimSlice(s);
  }

  /** A string with no surrounding whitespace is its own trim. */
  lemma TrimOfTrimmed(s: string)
    requires s == [] || (!IsSpace(s[0]) && !IsSpace(s[|s| - 1]))
    ensures Trim(s) == s
  {
  }

  /** `!q || !q.trim()` for a string argument that may be null or undefined. */
  predicate BlankOrMissing(q: Option<string>)
  {
    q.None? || Blank(q.value)
  }

  /** `(q || '').trim()` */
  function TrimOrEmpty(q: Option<string>): string
  {
    if q.Some? then Trim(q.value) else ""
  }

  // ---------------------------------------------------------------------------
  // Number conversion (integers only)

  /** `Number(s)` for a string: surrounding whitespace is ignored, the empty
      string is 0, an optionally signed run of decimal digits is its value, and
      everything else is NaN. */
  function StringToNumber(s: string): (r: JsVal)
    ensures r.Num? || r.NaN?
  {
    NumeralValue(Trim(s))
  }

  /** The number a string without surrounding whitespace denotes. */
  function NumeralValue(t: string): (r: JsVal)
    ensures r.Num? || r.NaN?
  {
    if t == "" then Num(0)
    else if |t| > 1 && (t[0] == '-' || t[0] == '+') && AllDigits(t[1..]) then
      var v := DecimalValue(t[1..]) as int;
      if t[0] == '-' then Num(-v) else Num(v)
    else if AllDigits(t) then Num(DecimalValue(t))
    else NaN
  }

  /** `Number(v)` (and what `Math.floor(v)` yields on integers): arrays convert
      through their string form, plain objects to NaN. */
  function ToNumber(v: JsVal): (r: JsVal)
    ensures r.Num? || r.NaN?
    ensures v.Num? ==> r == v
    ensures v.Undefined? || v.NaN? || v.Obj? ==> r == NaN
  {
    match v
    case Undefined => NaN
    case Null => Num(0)
    case Bool(b) => if b then Num(1) else Num(0)
    case Num(_) => v
    case NaN => NaN
    case Str(s) => StringToNumber(s)
    case Arr(_) => StringToNumber(ToString(v))
    case Obj(_) => NaN
  }

  lemma NumeralOfDigits(d: string)
    requires |d| >= 1 && AllDigits(d)
    ensures NumeralValue(d) == Num(DecimalValue(d))
    ensures NumeralValue("-" + d) == Num(-(DecimalValue(d) as int))
  {
    assert d[0] != '-' && d[0] != '+';
    assert ("-" + d)[1..] == d;
  }

  /** Reading back the decimal form of an integer gives the integer. */
  lemma NumberOfString(n: int)
    ensures StringToNumber(IntToString(n)) == Num(n)
  {
    var s := IntToString(n);
    var d := NatToDecimal(if n < 0 then -n else n);
    assert IsDigit(d[0]) && IsDigit(d[|d| - 1]);
    assert s[|s| - 1] == d[|d| - 1];
    assert !IsSpace(s[0]) && !IsSpace(s[|s| - 1]);
    TrimOfTrimmed(s);
    NumeralOfDigits(d);
    DecimalRoundTrip(if n < 0 then -n else n);
  }
}
