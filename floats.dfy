// Values of Rust's `f64` as far as the ledger and the rule engine observe
// them, and `str::parse::<f64>`. Finite values are exact reals: rounding
// to the nearest double is not modelled.

module Floats {
  import opened Base
  import Text

  datatype F64 = Finite(v: real) | PosInf | NegInf | NaN {
    /** `f64::is_finite`. */
    predicate IsFinite() {
      Finite?
    }

    /** `self > x` for a finite `x` (IEEE comparison: NaN compares false). */
    predicate GreaterThanReal(x: real) {
      match this
      case Finite(v) => v > x
      case PosInf => true
      case NegInf => false
      case NaN => false
    }

    /** `self < x` for a finite `x`. */
    predicate LessThanReal(x: real) {
      match this
      case Finite(v) => v < x
      case PosInf => false
      case NegInf => true
      case NaN => false
    }

    function Negate(): F64 {
      match this
      case Finite(v) => Finite(-v)
      case PosInf => NegInf
      case NegInf => PosInf
      case NaN => NaN
    }
  }

  predicate IsDigit(c: char) {
    '0' <= c <= '9'
  }

  predicate AllDigits(s: string) {
    forall i :: 0 <= i < |s| ==> IsDigit(s[i])
  }

  /** The number a string of decimal digits denotes (0 for the empty string). */
  function DigitsValue(s: string): nat
    requires AllDigits(s)
  {
    if s == [] then 0 else DigitsValue(s[..|s| - 1]) * 10 + (s[|s| - 1] as int - '0' as int)
  }

  function Pow10(n: nat): (r: nat)
    ensures r >= 1
  {
    if n == 0 then 1 else 10 * Pow10(n - 1)
  }

  /** `n / 10^k`: the value of the digits `n` with `k` of them after the
      decimal point. */
  function Shifted(n: nat, k: nat): (r: real)
    ensures k == 0 ==> r == n as real
  {
    n as real / Pow10(k) as real
  }

  /** `10^e` for a signed exponent. */
  function Scale(e: int): (r: real)
    ensures r > 0.0
  {
    if e >= 0 then Pow10(e) as real else 1.0 / Pow10(-e) as real
  }

  predicate IsExponentMark(c: char) { c == 'e' || c == 'E' }

  predicate IsPoint(c: char) { c == '.' }

  /** Index of the first character of `s` satisfying `p`, or `|s|`. */
  function IndexOf(s: string, p: char -> bool): (r: nat)
    ensures r <= |s|
    ensures r < |s| ==> p(s[r])
    ensures forall i :: 0 <= i < r ==> !p(s[i])
  {
    if s == [] then 0 else if p(s[0]) then 0 else 1 + IndexOf(s[1..], p)
  }

  /** An optionally signed, non-empty run of digits: the exponent of a float. */
  function ParseExponent(s: string): Option<int> {
    if |s| > 0 && (s[0] == '+' || s[0] == '-') then
      if |s| > 1 && AllDigits(s[1..]) then
        var magnitude: int := DigitsValue(s[1..]);
        Some(if s[0] == '-' then -magnitude else magnitude)
      else None
    else if |s| > 0 && AllDigits(s) then Some(DigitsValue(s))
    else None
  }

  /** The unsigned decimal part of the grammar: `digits [. digits] [(e|E) exponent]`
      with at least one digit before the exponent. */
  function ParseDecimal(s: string): Option<real> {
    var e := IndexOf(s, IsExponentMark);
    var mantissa := s[..e];
    var d := IndexOf(mantissa, IsPoint);
    var intPart := mantissa[..d];
    var fracPart := if d < |mantissa| then mantissa[d + 1..] else "";
    if !AllDigits(intPart) || !AllDigits(fracPart) || |intPart| + |fracPart| == 0 then None
    else
      var m := Shifted(DigitsValue(intPart + fracPart), |fracPart|);
      if e == |s| then Some(m)
      else
        match ParseExponent(s[e + 1..])
        case None => None
        case Some(x) => Some(m * Scale(x))
  }

  /** An unsigned float: `inf`, `infinity` or `nan` in any case, or a
      decimal number. */
  function ParseUnsigned(body: string): (r: Option<F64>)
    ensures body == [] ==> r.None?
  {
    var lower := Text.ToLower(body);
    if lower == "inf" || lower == "infinity" then Some(PosInf)
    else if lower == "nan" then Some(NaN)
    else
      match ParseDecimal(body)
      case None => None
      case Some(v) => Some(Finite(v))
  }

  /** `str::parse::<f64>`: an optional sign, then an unsigned float; a
      minus negates it (NaN stays NaN). */
  function ParseF64(s: string): (r: Option<F64>)
    ensures s == [] ==> r.None?
  {
    if |s| > 0 && s[0] == '-' then
      match ParseUnsigned(s[1..])
      case None => None
      case Some(x) => Some(x.Negate())
    else if |s| > 0 && s[0] == '+' then ParseUnsigned(s[1..])
    else ParseUnsigned(s)
  }

  /** The decimal digits of a natural number, without leading zeros. */
  function NatToString(n: nat): (r: string)
    ensures |r| >= 1 && AllDigits(r)
    decreases n
  {
    if n < 10 then [('0' as int + n) as char] else NatToString(n / 10) + [('0' as int + n % 10) as char]
  }

  lemma {:induction false} DigitsOfNat(n: nat)
    ensures DigitsValue(NatToString(n)) == n
    decreases n
  {
    var s := NatToString(n);
    if n >= 10 {
      DigitsOfNat(n / 10);
      assert s[..|s| - 1] == NatToString(n / 10);
    }
  }

  /** A plain run of digits is a decimal number with that value. */
  lemma DecimalOfDigits(s: string)
    requires |s| >= 1 && AllDigits(s)
    ensures ParseDecimal(s) == Some(DigitsValue(s) as real)
  {
    var e := IndexOf(s, IsExponentMark);
    assert e == |s|;
    assert s[..e] == s;
    var d := IndexOf(s, IsPoint);
    assert d == |s|;
    assert s[..d] + "" == s;
  }

  /** A natural number's decimal string parses back to that number. */
  lemma ParseNatString(n: nat)
    ensures ParseF64(NatToString(n)) == Some(Finite(n as real))
  {
    var s := NatToString(n);
    DigitsOfNat(n);
    DecimalOfDigits(s);
    NotInfNan(s);
  }

  lemma NotInfNan(s: string)
    requires |s| >= 1 && AllDigits(s)
    ensures Text.ToLower(s) != "inf" && Text.ToLower(s) != "infinity" && Text.ToLower(s) != "nan"
    ensures s[0] != '-' && s[0] != '+'
  {
    assert Text.ToLower(s)[0] == s[0];
  }

  /** A leading minus negates whatever the rest parses to. */
  lemma ParseNegated(s: string)
    requires s != [] && s[0] != '+' && s[0] != '-'
    ensures ParseF64("-" + s) == (match ParseF64(s) case None => None case Some(x) => Some(x.Negate()))
  {
    assert ("-" + s)[1..] == s;
  }

  /** A lone decimal point is not a number. */
  lemma ParseRejectsBarePoint()
    ensures ParseF64(".").None?
  {
    assert Text.ToLower(".") == ".";
    assert IndexOf(".", IsExponentMark) == 1;
    assert IndexOf(".", IsPoint) == 0;
  }

  /** An exponent marker must be followed by digits. */
  lemma ParseRejectsEmptyExponent()
    ensures ParseF64("1e").None?
  {
    assert Text.ToLower("1e") == "1e";
    assert IndexOf("1e", IsExponentMark) == 1;
    assert "1e"[2..] == "";
  }
}
