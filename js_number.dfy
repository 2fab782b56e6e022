/**
 * JavaScript numbers as the application uses them: `Number(...)` applied to a
 * form field, truthiness (`!n`, `n || 1`), `isNaN` and `toString()` of an
 * integer.  Only integer values and NaN are represented.
 */
module JsNumber {
  import opened Prelude
  import opened JsText

  /** A JavaScript number restricted to integer values, or NaN. */
  datatype Num = NaN | Int(value: int)

  /** JavaScript truthiness of a number: it is neither 0 nor NaN. */
  predicate Truthy(n: Num) {
    n.Int? && n.value != 0
  }

  /** `n || 1`. */
  function OrOne(n: Num): (r: int)
    ensures r != 0
    ensures Truthy(n) ==> r == n.value
  {
    if Truthy(n) then n.value else 1
  }

  predicate IsDigit(c: char) {
    '0' <= c <= '9'
  }

  predicate AllDigits(s: string) {
    forall i :: 0 <= i < |s| ==> IsDigit(s[i])
  }

  function DigitValue(c: char): (d: nat)
    requires IsDigit(c)
    ensures d < 10
  {
    c as int - '0' as int
  }

  function DigitChar(d: nat): (c: char)
    requires d < 10
    ensures IsDigit(c) && DigitValue(c) == d
  {
    ('0' as int + d) as char
  }

  /** The value of a run of decimal digits, most significant first. */
  function ParseDecimal(s: string): nat
    requires AllDigits(s)
  {
    if s == [] then 0 else ParseDecimal(s[..|s| - 1]) * 10 + DigitValue(s[|s| - 1])
  }

  /** `toString()` of a non-negative integer: its shortest decimal numeral. */
  function NatToString(n: nat): (r: string)
    ensures r != [] && AllDigits(r)
    ensures ParseDecimal(r) == n
    ensures |r| > 1 ==> r[0] != '0'
  {
    if n < 10 then
      [DigitChar(n)]
    else
      var prefix := NatToString(n / 10);
      var r := prefix + [DigitChar(n % 10)];
      assert r[..|r| - 1] == prefix;
      r
  }

  /** `toString()` of an integer. */
  function IntToString(n: int): string {
    if n < 0 then "-" + NatToString(-n) else NatToString(n)
  }

  /**
   * `Number(v)` where `v` is what `FormData.get` returned: `null` and blank
   * text give 0, an optionally signed decimal numeral (surrounded by white
   * space) gives its value, anything else is NaN.
   */
  function ToNumber(v: Option<string>): (n: Num)
    ensures n.NaN? ==> v.Some? && exists i :: 0 <= i < |Trim(v.value)| && !IsDigit(Trim(v.value)[i])
  {
    match v
    case None => Int(0)
    case Some(s) =>
      var t := Trim(s);
      if t == [] then Int(0)
      else if AllDigits(t) then Int(ParseDecimal(t))
      else if (t[0] == '-' || t[0] == '+') && |t| > 1 && AllDigits(t[1..]) then
        Int(if t[0] == '-' then 0 - ParseDecimal(t[1..]) as int else ParseDecimal(t[1..]))
      else NaN
  }

  /** `Number(n.toString()) === n` for every integer `n`. */
  lemma ToNumberOfToString(n: int)
    ensures ToNumber(Some(IntToString(n))) == Int(n)
  {
    var s := IntToString(n);
    var digits := NatToString(if n < 0 then -n else n);
    assert !IsWhiteSpace(digits[|digits| - 1]);
    if n < 0 {
      assert s == "-" + digits;
      assert s[|s| - 1] == digits[|digits| - 1];
      TrimUnchanged(s);
      assert !IsDigit(s[0]);
      assert s[1..] == digits;
    } else {
      TrimUnchanged(s);
    }
  }
}
