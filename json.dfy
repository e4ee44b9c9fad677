/** The JSON values a request body can carry, and Python's `float(v)` on them. */
module Json {
  import opened Wrappers
  import Text
  import Rounding

  datatype JsonValue =
    | JString(s: string)
    | JNumber(x: real)
    | JBool(b: bool)
    | JNull
    | JOther  // a list or an object

  predicate IsDigit(c: char) { '0' <= c <= '9' }

  predicate AllDigits(s: string) { forall i :: 0 <= i < |s| ==> IsDigit(s[i]) }

  /** The value of a run of decimal digits. */
  function DigitsValue(s: string): nat
    requires AllDigits(s)
  {
    if s == [] then 0
    else 10 * DigitsValue(s[..|s| - 1]) + (s[|s| - 1] as int - '0' as int)
  }

  /** `n` digits spell a number below `10^n`. */
  lemma {:induction false} DigitsValueBound(s: string)
    requires AllDigits(s)
    ensures DigitsValue(s) < Rounding.Pow10(|s|)
  {
    if s != [] {
      var init := s[..|s| - 1];
      assert AllDigits(init) by {
        forall i | 0 <= i < |init| ensures IsDigit(init[i]) { assert init[i] == s[i]; }
      }
      DigitsValueBound(init);
      assert IsDigit(s[|s| - 1]);
    }
  }

  /** An unsigned decimal: `12`, `12.`, `.5` or `12.5`. */
  function ParseUnsigned(s: string): Option<real> {
    var parts := Text.Split(s, '.');
    if |parts| == 1 then
      if |s| > 0 && AllDigits(s) then Some(DigitsValue(s) as real) else None
    else if |parts| == 2 then
      var whole, frac := parts[0], parts[1];
      if AllDigits(whole) && AllDigits(frac) && |whole| + |frac| > 0 then
        Some(DigitsValue(whole) as real + DigitsValue(frac) as real / Rounding.Pow10(|frac|) as real)
      else None
    else None
  }

  /** `float(s)` on text: surrounding space, an optional sign, a plain decimal. */
  function ParseFloat(s: string): Option<real> {
    var t := Text.Strip(s);
    var negative := |t| > 0 && t[0] == '-';
    var body := if |t| > 0 && (t[0] == '-' || t[0] == '+') then t[1..] else t;
    match ParseUnsigned(body)
    case None => None
    case Some(v) => Some(if negative then -v else v)
  }

  lemma UnsignedDigits(d: string)
    requires |d| > 0 && AllDigits(d)
    ensures ParseUnsigned(d) == Some(DigitsValue(d) as real)
  {
    assert '.' !in d;
    Text.SplitNoSep(d, '.');
  }

  /** A run of digits is read as the number it spells. */
  lemma ParseDigits(d: string)
    requires |d| > 0 && AllDigits(d)
    ensures ParseFloat(d) == Some(DigitsValue(d) as real)
  {
    assert IsDigit(d[0]) && IsDigit(d[|d| - 1]);
    Text.StripUnchanged(d);
    UnsignedDigits(d);
  }

  /** `float(v)`: `None` where Python raises. */
  function ToFloat(v: JsonValue): (r: Option<real>)
    ensures v.JNumber? ==> r == Some(v.x)
    ensures v.JNull? || v.JOther? ==> r == None
  {
    match v
    case JNumber(x) => Some(x)
    case JString(s) => ParseFloat(s)
    case JBool(b) => Some(if b then 1.0 else 0.0)
    case JNull => None
    case JOther => None
  }
}
