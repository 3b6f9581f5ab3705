/** The JavaScript number conversions the recipe editor relies on: `Number(s)`,
    `parseInt(s)`, `parseFloat(s)` and `String(n)` on plain decimal text, and
    the few number values and operations it meets.  Finite numbers are exact
    reals: IEEE rounding and the sign of zero are not modelled. */
module JsNumbers {
  import opened Wrappers
  import opened JsStrings

  /** A JavaScript number: an exact finite value or one of the non-finite values
      that a division or a failed conversion produces. */
  datatype JsNumber = Finite(value: real) | NaN | PosInfinity | NegInfinity

  /** `w + x` for an integer `w`. */
  function Add(w: int, x: JsNumber): JsNumber
  {
    match x
    case Finite(v) => Finite(w as real + v)
    case _ => x
  }

  /** `a / b` for two finite numbers; there is no signed zero, so a division
      by zero takes the sign of `a` alone. */
  function Divide(a: real, b: real): (r: JsNumber)
    ensures r.Finite? <==> b != 0.0
    ensures r.Finite? ==> r.value * b == a
  {
    if b != 0.0 then Finite(a / b)
    else if a > 0.0 then PosInfinity
    else if a < 0.0 then NegInfinity
    else NaN
  }

  /** `x < 0`; false for `NaN`. */
  predicate IsNegative(x: JsNumber)
  {
    (x.Finite? && x.value < 0.0) || x.NegInfinity?
  }

  /** `x === 0`; false for `NaN`. */
  predicate IsZero(x: JsNumber)
  {
    x == Finite(0.0)
  }

  function Abs(r: real): real
  {
    if r < 0.0 then -r else r
  }

  /** `Math.abs(x - c)` for a number `x` and a finite `c`. */
  function Distance(x: JsNumber, c: real): JsNumber
  {
    match x
    case Finite(v) => Finite(Abs(v - c))
    case NaN => NaN
    case _ => PosInfinity
  }

  /** `a < b`: false whenever NaN takes part. */
  predicate Less(a: JsNumber, b: JsNumber)
  {
    match a
    case NaN => false
    case PosInfinity => false
    case NegInfinity => b.Finite? || b.PosInfinity?
    case Finite(u) => b.PosInfinity? || (b.Finite? && u < b.value)
  }

  function DigitValue(c: char): nat
    requires IsDigit(c)
  {
    (c as int) - ('0' as int)
  }

  /** The value of a string of decimal digits; 0 for the empty string. */
  function DigitsValue(s: string): nat
    requires AllDigits(s)
  {
    if s == [] then 0 else 10 * DigitsValue(s[..|s| - 1]) + DigitValue(s[|s| - 1])
  }

  function DigitChar(d: nat): char
    requires d < 10
  {
    ('0' as int + d) as char
  }

  /** `String(n)` for a non-negative integer: its decimal digits, read back as `n`. */
  function NatToString(n: nat): (r: string)
    ensures r != [] && AllDigits(r) && DigitsValue(r) == n
  {
    if n < 10 then [DigitChar(n)]
    else
      var p := NatToString(n / 10);
      var r := p + [DigitChar(n % 10)];
      assert r[..|r| - 1] == p;
      r
  }

  /** `String(i)` for an integer. */
  function IntToString(i: int): string
  {
    if i < 0 then "-" + NatToString(-i) else NatToString(i)
  }

  /** The length of the run of digits that starts `s`. */
  function LeadingDigits(s: string): (n: nat)
    ensures n <= |s| && AllDigits(s[..n])
    ensures n < |s| ==> !IsDigit(s[n])
  {
    if s == [] || !IsDigit(s[0]) then 0
    else
      var n := 1 + LeadingDigits(s[1..]);
      assert s[..n] == [s[0]] + s[1..][..n - 1];
      n
  }

  /** The run of digits that starts `d + rest` is `d` when `rest` does not start with a digit. */
  lemma {:induction false} LeadingDigitsOf(d: string, rest: string)
    requires AllDigits(d)
    requires rest != [] ==> !IsDigit(rest[0])
    ensures LeadingDigits(d + rest) == |d|
  {
    if d != [] {
      assert (d + rest)[1..] == d[1..] + rest;
      LeadingDigitsOf(d[1..], rest);
    }
  }

  /** An optional leading `+` or `-` split off: whether it was `-`, and the rest. */
  function Unsigned(t: string): (bool, string)
  {
    if t != [] && (t[0] == '-' || t[0] == '+') then (t[0] == '-', t[1..]) else (false, t)
  }

  function Pow10(k: nat): (r: nat)
    ensures r >= 1
  {
    if k == 0 then 1 else 10 * Pow10(k - 1)
  }

  /** The longest prefix of `u` of the form `digits`, `digits.digits`, `digits.`
      or `.digits`, as its length (0 when there is none) and its exact value. */
  function DecimalPrefix(u: string): (r: (nat, real))
    ensures r.0 <= |u|
  {
    var a := LeadingDigits(u);
    if a < |u| && u[a] == '.' then
      var b := LeadingDigits(u[a + 1..]);
      if a + b == 0 then (0, 0.0)
      else (a + 1 + b, DigitsValue(u[..a]) as real + DigitsValue(u[a + 1..][..b]) as real / Pow10(b) as real)
    else
      (a, DigitsValue(u[..a]) as real)
  }

  /** `Number(s)` for a string: `None` stands for `NaN`.  Blank text is 0; otherwise
      the whole trimmed text must be a signed decimal. */
  function StringToNumber(s: string): Option<real>
  {
    var t := Trim(s);
    if t == [] then Some(0.0)
    else
      var (negative, u) := Unsigned(t);
      var (len, v) := DecimalPrefix(u);
      if 0 < len == |u| then Some(if negative then -v else v) else None
  }

  /** `parseInt(s)`: the signed run of digits after leading whitespace; `None`
      stands for `NaN`. */
  function ParseInt(s: string): Option<int>
  {
    var (negative, u) := Unsigned(TrimStart(s));
    var n := LeadingDigits(u);
    if n == 0 then None
    else Some(if negative then -(DigitsValue(u[..n]) as int) else DigitsValue(u[..n]))
  }

  /** `parseFloat(s)`: the longest signed decimal prefix after leading whitespace;
      `None` stands for `NaN`. */
  function ParseFloat(s: string): Option<real>
  {
    var (negative, u) := Unsigned(TrimStart(s));
    var (len, v) := DecimalPrefix(u);
    if len == 0 then None else Some(if negative then -v else v)
  }

  /** `parseInt` reads a non-empty digit string as its decimal value. */
  lemma ParseIntOfDigits(s: string)
    requires s != [] && AllDigits(s)
    ensures ParseInt(s) == Some(DigitsValue(s) as int)
  {
    assert TrimStart(s) == s;
    LeadingDigitsOf(s, []);
    assert s + [] == s;
  }

  /** `Number` reads a non-empty digit string as its decimal value. */
  lemma StringToNumberOfDigits(s: string)
    requires s != [] && AllDigits(s)
    ensures StringToNumber(s) == Some(DigitsValue(s) as real)
  {
    TrimUnchanged(s);
    LeadingDigitsOf(s, []);
    assert s + [] == s;
    assert s[..|s|] == s;
  }

  /** `parseInt(String(n)) === n` for every non-negative integer. */
  lemma ParseIntOfNatToString(n: nat)
    ensures ParseInt(NatToString(n)) == Some(n)
  {
    ParseIntOfDigits(NatToString(n));
  }

  /** `parseFloat` reads a non-empty digit string as its decimal value. */
  lemma ParseFloatOfDigits(s: string)
    requires s != [] && AllDigits(s)
    ensures ParseFloat(s) == Some(DigitsValue(s) as real)
  {
    assert TrimStart(s) == s;
    LeadingDigitsOf(s, []);
    assert s + [] == s;
    assert s[..|s|] == s;
  }
}
