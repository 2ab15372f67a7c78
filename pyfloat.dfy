/** Python's number conversions as the node-table join uses them: `float(v)` of a decoded
    JSON value's string form and `int(x)` of the float that gives. */
module PyNumbers {
  import opened Wrappers
  import Strings

  /** What `float(text)` gives: a finite value, an infinity (which `int` refuses with
      OverflowError), a NaN (which `int` refuses with ValueError), or no number at all
      (`float` raises ValueError). */
  datatype Parsed = Finite(x: real) | Infinite | NotANumber | Malformed

  predicate IsDigit(c: char) { '0' <= c <= '9' }

  predicate AllDigits(s: string)
  {
    forall i :: 0 <= i < |s| ==> IsDigit(s[i])
  }

  /** The value of a string of decimal digits. */
  function DigitsValue(s: string): nat
    requires AllDigits(s)
    decreases |s|
  {
    if s == [] then 0 else DigitsValue(s[..|s| - 1]) * 10 + (s[|s| - 1] as int - '0' as int)
  }

  /** 10 to the power e. */
  function Pow10(e: nat): (p: real)
    ensures p >= 1.0
    decreases e
  {
    if e == 0 then 1.0 else 10.0 * Pow10(e - 1)
  }

  /** The position of the first character of s that is in cs, or |s| when there is none. */
  function IndexOfAny(s: string, cs: set<char>): (i: nat)
    ensures i <= |s|
    ensures i < |s| ==> s[i] in cs
    ensures forall j :: 0 <= j < i ==> s[j] !in cs
    decreases |s|
  {
    if s == [] then 0 else if s[0] in cs then 0 else 1 + IndexOfAny(s[1..], cs)
  }

  /** digits, digits '.', '.' digits or digits '.' digits, without a sign. */
  function Mantissa(m: string): Option<real>
  {
    var d := IndexOfAny(m, {'.'});
    var whole := m[..d];
    var frac := if d < |m| then m[d + 1..] else "";
    if AllDigits(whole) && AllDigits(frac) && |whole| + |frac| >= 1 then
      Some(DigitsValue(whole) as real + DigitsValue(frac) as real / Pow10(|frac|))
    else None
  }

  /** An exponent after 'e' or 'E': an optional sign and at least one digit. */
  function Exponent(e: string): Option<real>
  {
    var neg := e != [] && e[0] == '-';
    var digits := if e != [] && (e[0] == '+' || e[0] == '-') then e[1..] else e;
    if digits != [] && AllDigits(digits) then
      var p := Pow10(DigitsValue(digits));
      Some(if neg then 1.0 / p else p)
    else None
  }

  /** An unsigned float text: "inf", "infinity" or "nan" in any case, or a decimal number
      with an optional exponent. */
  function ParseUnsigned(body: string): Parsed
  {
    var low := Strings.ToLowerAscii(body);
    if low == "inf" || low == "infinity" then Infinite
    else if low == "nan" then NotANumber
    else
      var p := IndexOfAny(body, {'e', 'E'});
      var mant := Mantissa(body[..p]);
      var scale := if p < |body| then Exponent(body[p + 1..]) else Some(1.0);
      if mant.Some? && scale.Some? then Finite(mant.value * scale.value) else Malformed
  }

  /** `float(text)` once surrounding whitespace is gone: an optional sign, then an unsigned
      float text. A minus sign negates a finite value and leaves the others as they are. */
  function ParseFloat(t: string): Parsed
  {
    if t != [] && t[0] == '-' then
      match ParseUnsigned(t[1..])
      case Finite(x) => Finite(-x)
      case other => other
    else if t != [] && t[0] == '+' then ParseUnsigned(t[1..])
    else ParseUnsigned(t)
  }

  /** `float(s)` for a str: Python strips surrounding whitespace first. */
  function FloatOfText(s: string): Parsed
  {
    ParseFloat(Strings.Strip(s))
  }

  /** `int(x)` of a finite float: truncation toward zero. */
  function Trunc(x: real): (n: int)
    ensures 0.0 <= x ==> 0 <= n && n as real <= x < n as real + 1.0
    ensures x < 0.0 ==> n <= 0 && n as real - 1.0 < x <= n as real
  {
    if x >= 0.0 then x.Floor else -((-x).Floor)
  }

  /** The digits of a number's decimal text have that number as value. */
  lemma {:induction false} DigitsOfNat(n: nat)
    ensures AllDigits(Strings.NatToString(n)) && DigitsValue(Strings.NatToString(n)) == n
    decreases n
  {
    var s := Strings.NatToString(n);
    if n >= 10 {
      DigitsOfNat(n / 10);
      assert s[..|s| - 1] == Strings.NatToString(n / 10);
    }
  }

  /** A text with no whitespace at either end is parsed as it is. */
  lemma FloatOfUnpadded(s: string)
    requires s == [] || (!Strings.IsSpace(s[0]) && !Strings.IsSpace(s[|s| - 1]))
    ensures FloatOfText(s) == ParseFloat(s)
  {
    assert Strings.LStrip(s) == s;
    assert Strings.Strip(s) == s;
  }

  /** A string of digits has none of '.', 'e' and 'E'. */
  lemma DigitsHaveNoMarker(s: string, cs: set<char>)
    requires AllDigits(s) && forall c :: c in cs ==> !IsDigit(c)
    ensures IndexOfAny(s, cs) == |s|
  {
  }

  /** A nonempty string of digits, with no sign, reads as its value. */
  lemma ParseDigits(s: string)
    requires s != [] && AllDigits(s)
    ensures ParseUnsigned(s) == Finite(DigitsValue(s) as real)
    ensures ParseFloat(s) == Finite(DigitsValue(s) as real)
  {
    var low := Strings.ToLowerAscii(s);
    assert low[0] == s[0];
    assert low != "inf" && low != "infinity" && low != "nan" by {
      assert IsDigit(low[0]);
    }
    DigitsHaveNoMarker(s, {'e', 'E'});
    assert s[..|s|] == s;
    MantissaOfDigits(s);
  }

  /** A nonempty string of digits is a mantissa with its own value. */
  lemma MantissaOfDigits(s: string)
    requires s != [] && AllDigits(s)
    ensures Mantissa(s) == Some(DigitsValue(s) as real)
  {
    DigitsHaveNoMarker(s, {'.'});
    assert s[..|s|] == s;
    assert DigitsValue("") == 0;
    assert Pow10(0) == 1.0;
  }

  /** The decimal text of a whole number reads back as that number. */
  lemma FloatOfNatText(n: nat)
    ensures FloatOfText(Strings.NatToString(n)) == Finite(n as real)
  {
    var s := Strings.NatToString(n);
    DigitsOfNat(n);
    FloatOfUnpadded(s);
    ParseDigits(s);
  }
}
