/**
 * Python floats and the `float(s)` conversion of a string.
 * Finite values are exact reals: the model does not round to the nearest double.
 */
module Numbers {
  import opened Optional
  import opened Text

  /** A Python float: a finite value, an infinity, or not-a-number. */
  datatype Float = Finite(value: real) | Inf(positive: bool) | NaN

  /** `x >= t` for a float `x` and a finite threshold `t`; false for NaN. */
  predicate AtLeast(x: Float, t: real)
  {
    match x
    case Finite(v) => v >= t
    case Inf(positive) => positive
    case NaN => false
  }

  /** `x <= t` for a float `x` and a finite threshold `t`; false for NaN. */
  predicate AtMost(x: Float, t: real)
  {
    match x
    case Finite(v) => v <= t
    case Inf(positive) => !positive
    case NaN => false
  }

  /** The order on non-NaN floats, with the infinities at the ends. */
  predicate Le(x: Float, y: Float)
  {
    match (x, y)
    case (Inf(false), _) => !y.NaN?
    case (_, Inf(true)) => !x.NaN?
    case (Finite(a), Finite(b)) => a <= b
    case _ => false
  }

  /** Comparing with a threshold respects the order: a larger float reaches every threshold a smaller one reaches. */
  lemma AtLeastMonotone(x: Float, y: Float, t: real)
    requires Le(x, y) && AtLeast(x, t)
    ensures AtLeast(y, t)
  {
  }

  /**
   * A run of decimal digits in which single underscores may separate two digits,
   * as `float()` accepts (`1_000`); no leading, trailing or doubled underscore.
   */
  predicate IsDigitPart(s: string)
  {
    |s| > 0 &&
    forall i :: 0 <= i < |s| ==> IsDigit(s[i]) || (0 < i < |s| - 1 && s[i] == '_' && s[i + 1] != '_')
  }

  /** The digits of a digit part, underscores removed. */
  function DigitsOnly(s: string): (r: string)
    ensures |r| <= |s|
  {
    if s == [] then [] else (if s[0] == '_' then [] else [s[0]]) + DigitsOnly(s[1..])
  }

  /** The value of a digit part. */
  function PartValue(s: string): nat
  {
    DigitsValue(DigitsOnly(s))
  }

  /** The index of the first `e` or `E` in `s`, or `|s|` if there is none. */
  function FindExp(s: string): (k: nat)
    ensures k <= |s|
  {
    if s == [] then 0 else if s[0] == 'e' || s[0] == 'E' then 0 else 1 + FindExp(s[1..])
  }

  /** The index of the first `.` in `s`, or `|s|` if there is none. */
  function FindDot(s: string): (k: nat)
    ensures k <= |s|
  {
    if s == [] then 0 else if s[0] == '.' then 0 else 1 + FindDot(s[1..])
  }

  lemma {:induction false} FindExpSpec(s: string)
    ensures FindExp(s) <= |s|
    ensures forall i :: 0 <= i < FindExp(s) ==> s[i] != 'e' && s[i] != 'E'
    ensures FindExp(s) < |s| ==> s[FindExp(s)] == 'e' || s[FindExp(s)] == 'E'
  {
    if s != [] && s[0] != 'e' && s[0] != 'E' {
      FindExpSpec(s[1..]);
    }
  }

  lemma {:induction false} FindDotSpec(s: string)
    ensures FindDot(s) <= |s|
    ensures forall i :: 0 <= i < FindDot(s) ==> s[i] != '.'
    ensures FindDot(s) < |s| ==> s[FindDot(s)] == '.'
  {
    if s != [] && s[0] != '.' {
      FindDotSpec(s[1..]);
    }
  }

  /** `10^e` for an integer exponent. */
  function Scale(e: int): (r: real)
    ensures r > 0.0
  {
    if e >= 0 then Pow10(e) as real else 1.0 / Pow10(-e) as real
  }

  /** The mantissa of a decimal literal: `digits`, `digits.`, `.digits` or `digits.digits`. */
  function Mantissa(s: string): Option<real>
  {
    var d := FindDot(s);
    if d == |s| then
      if IsDigitPart(s) then Some(PartValue(s) as real) else None
    else
      var whole, frac := s[..d], s[d + 1..];
      if (whole == [] || IsDigitPart(whole)) && (frac == [] || IsDigitPart(frac)) && !(whole == [] && frac == []) then
        Some(PartValue(whole) as real + PartValue(frac) as real / Pow10(|DigitsOnly(frac)|) as real)
      else
        None
  }

  /**
   * An optional sign and a digit part: the exponent of a float literal after the `e`,
   * and what `int()` accepts once surrounding whitespace is gone.
   */
  function SignedDigits(s: string): Option<int>
  {
    var signed := |s| > 0 && (s[0] == '+' || s[0] == '-');
    var ds := if signed then s[1..] else s;
    if IsDigitPart(ds) then Some(if signed && s[0] == '-' then -(PartValue(ds) as int) else PartValue(ds)) else None
  }

  /** An unsigned decimal literal with an optional exponent. */
  function Decimal(s: string): Option<real>
  {
    var e := FindExp(s);
    if e == |s| then Mantissa(s)
    else
      match (Mantissa(s[..e]), SignedDigits(s[e + 1..]))
      case (Some(m), Some(x)) => Some(m * Scale(x))
      case _ => None
  }

  /**
   * `float(s)`: surrounding whitespace is ignored; an optional sign precedes either
   * `inf`, `infinity` or `nan` in any letter case, or a decimal literal. Anything
   * else raises ValueError, modelled as `None`.
   */
  function ParseFloat(s: string): Option<Float>
  {
    ParseStripped(Strip(s))
  }

  /** `float()` of a string without surrounding whitespace. */
  function ParseStripped(t: string): Option<Float>
  {
    var signed := |t| > 0 && (t[0] == '+' || t[0] == '-');
    var negative := signed && t[0] == '-';
    var body := if signed then t[1..] else t;
    var low := Lower(body);
    if low == "inf" || low == "infinity" then Some(Inf(!negative))
    else if low == "nan" then Some(NaN)
    else
      match Decimal(body)
      case Some(r) => Some(Finite(if negative then -r else r))
      case None => None
  }

  /** `float()` ignores surrounding whitespace, so stripping first changes nothing. */
  lemma ParseFloatOfStripped(s: string)
    ensures ParseFloat(Strip(s)) == ParseFloat(s)
  {
    StripIdempotent(s);
  }

  /** `int(s)` for a string; anything else raises ValueError, modelled as `None`. */
  function ParseInt(s: string): Option<int>
  {
    SignedDigits(Strip(s))
  }

  /** `int(str(i))` is `i`. */
  lemma ParseIntStr(i: int)
    ensures ParseInt(IntStr(i)) == Some(i)
  {
    StripIntStr(i);
    SignedDigitsIntStr(i);
  }

  lemma StripIntStr(i: int)
    ensures Strip(IntStr(i)) == IntStr(i)
  {
    var s := IntStr(i);
    var ds := NatStr(if i < 0 then -i else i);
    NatStrDigits(if i < 0 then -i else i);
    assert s[|s| - 1] == ds[|ds| - 1];
    assert !IsSpace(s[0]) && !IsSpace(s[|s| - 1]);
  }

  lemma SignedDigitsIntStr(i: int)
    ensures SignedDigits(IntStr(i)) == Some(i)
  {
    var s := IntStr(i);
    var n := Abs(i);
    NatStrPart(n);
    NatStrDigits(n);
    if i < 0 {
      assert s[0] == '-' && s[1..] == NatStr(n);
    } else {
      assert s == NatStr(n) && IsDigit(s[0]);
    }
  }

  /** `int(x)` for a finite float: truncation toward zero. */
  function Truncate(x: real): (k: int)
    ensures x >= 0.0 ==> k as real <= x < k as real + 1.0
    ensures x < 0.0 ==> k as real - 1.0 < x <= k as real
  {
    if x >= 0.0 then x.Floor else -((-x).Floor)
  }

  /** A string of digits is a digit part holding exactly those digits. */
  lemma {:induction false} DigitsOnlyOfDigits(s: string)
    requires forall i :: 0 <= i < |s| ==> IsDigit(s[i])
    ensures DigitsOnly(s) == s
  {
    if s != [] {
      DigitsOnlyOfDigits(s[1..]);
    }
  }

  /** A literal without surrounding space, sign or special spelling is parsed by `Decimal`. */
  lemma ParsePlain(s: string)
    requires |s| > 0 && !IsSpace(s[0]) && !IsSpace(s[|s| - 1]) && IsDigit(s[0])
    ensures Decimal(s).Some? ==> ParseFloat(s) == Some(Finite(Decimal(s).value))
    ensures Decimal(s).None? ==> ParseFloat(s) == None
  {
    assert Strip(s) == s;
    assert ParseFloat(s) == ParseStripped(s);
    assert Lower(s)[0] == s[0];
    assert Lower(s) != "inf" && Lower(s) != "infinity" && Lower(s) != "nan";
  }

  /** A non-empty string of digits is a digit part. */
  lemma DigitsArePart(s: string)
    requires |s| > 0 && forall i :: 0 <= i < |s| ==> IsDigit(s[i])
    ensures IsDigitPart(s)
  {
  }

  /** A non-empty string of digits is a mantissa worth its digits' value. */
  lemma MantissaOfDigits(s: string)
    requires |s| > 0 && forall i :: 0 <= i < |s| ==> IsDigit(s[i])
    ensures Mantissa(s) == Some(DigitsValue(s) as real)
  {
    NoLetterFindDot(s);
    DigitsArePart(s);
    DigitsOnlyOfDigits(s);
  }

  /** `float(str(n))` is `n`: the decimal text of a natural number parses back to it. */
  lemma ParseNatStr(n: nat)
    ensures ParseFloat(NatStr(n)) == Some(Finite(n as real))
  {
    var s := NatStr(n);
    NatStrDigits(n);
    DecimalNatStr(n);
    ParsePlain(s);
  }

  lemma DecimalNatStr(n: nat)
    ensures Decimal(NatStr(n)) == Some(n as real)
  {
    var s := NatStr(n);
    NatStrDigits(n);
    NoLetterFindExp(s);
    assert Decimal(s) == Mantissa(s);
    MantissaOfDigits(s);
    NatStrValue(n);
  }

  /** The value of the digits after a decimal point: `0.d1d2...dk`. */
  function Fraction(frac: string): real
  {
    DigitsValue(frac) as real / Pow10(|frac|) as real
  }

  /** `float(str(n) + "." + frac)` for a run of digits `frac` is `n` plus the fraction they spell. */
  lemma ParsePointDigits(n: nat, frac: string)
    requires |frac| > 0 && forall i :: 0 <= i < |frac| ==> IsDigit(frac[i])
    ensures ParseFloat(NatStr(n) + "." + frac) ==
      Some(Finite(n as real + Fraction(frac)))
  {
    DecimalPointDigits(n, frac);
    ParsePointLiteral(n, frac, n as real + Fraction(frac));
  }

  lemma ParsePointLiteral(n: nat, frac: string, x: real)
    requires |frac| > 0 && forall i :: 0 <= i < |frac| ==> IsDigit(frac[i])
    requires Decimal(NatStr(n) + "." + frac) == Some(x)
    ensures ParseFloat(NatStr(n) + "." + frac) == Some(Finite(x))
  {
    var s := NatStr(n) + "." + frac;
    NatStrDigits(n);
    assert s[|s| - 1] == frac[|frac| - 1];
    assert s[0] == NatStr(n)[0];
    ParsePlain(s);
  }

  lemma DecimalPointDigits(n: nat, frac: string)
    requires |frac| > 0 && forall i :: 0 <= i < |frac| ==> IsDigit(frac[i])
    ensures Decimal(NatStr(n) + "." + frac) == Some(n as real + Fraction(frac))
  {
    var s := NatStr(n) + "." + frac;
    NatStrDigits(n);
    assert FindExp(s) == |s| by {
      assert forall i :: 0 <= i < |s| ==> s[i] != 'e' && s[i] != 'E';
      NoLetterFindExp(s);
    }
    MantissaPointDigits(n, frac);
  }

  lemma MantissaPointDigits(n: nat, frac: string)
    requires |frac| > 0 && forall i :: 0 <= i < |frac| ==> IsDigit(frac[i])
    ensures Mantissa(NatStr(n) + "." + frac) == Some(n as real + Fraction(frac))
  {
    var d := NatStr(n);
    var s := d + "." + frac;
    NatStrDigits(n);
    PointAfterDigits(d, frac);
    DigitRun(frac);
    NatStrPart(n);
    MantissaSplit(s, |d|);
  }

  /** In digits, a dot and more text, the first dot is the one after the digits. */
  lemma PointAfterDigits(d: string, rest: string)
    requires forall i :: 0 <= i < |d| ==> IsDigit(d[i])
    ensures FindDot(d + "." + rest) == |d|
    ensures (d + "." + rest)[..|d|] == d && (d + "." + rest)[|d| + 1..] == rest
  {
    var s := d + "." + rest;
    FindDotSpec(s);
    assert forall i :: 0 <= i < |d| ==> s[i] != '.';
    assert s[|d|] == '.';
  }

  /** A non-empty run of digits is a digit part worth its digits. */
  lemma DigitRun(s: string)
    requires |s| > 0 && forall i :: 0 <= i < |s| ==> IsDigit(s[i])
    ensures IsDigitPart(s) && DigitsOnly(s) == s && PartValue(s) == DigitsValue(s)
  {
    DigitsArePart(s);
    DigitsOnlyOfDigits(s);
  }

  /** `str(n)` is a digit part worth `n`. */
  lemma NatStrPart(n: nat)
    ensures IsDigitPart(NatStr(n)) && PartValue(NatStr(n)) == n
  {
    NatStrDigits(n);
    DigitRun(NatStr(n));
    NatStrValue(n);
  }

  /** A literal with a dot between two digit parts is worth the whole part plus the scaled fraction. */
  lemma MantissaSplit(s: string, k: nat)
    requires FindDot(s) == k < |s| && IsDigitPart(s[..k]) && IsDigitPart(s[k + 1..])
    ensures Mantissa(s) ==
      Some(PartValue(s[..k]) as real + PartValue(s[k + 1..]) as real / Pow10(|DigitsOnly(s[k + 1..])|) as real)
  {
  }

  /** `float(str(n) + ".0")` is `n` too. */
  lemma ParseNatStrPointZero(n: nat)
    ensures ParseFloat(NatStr(n) + ".0") == Some(Finite(n as real))
  {
    ParsePointDigits(n, "0");
    FractionZero();
    PointZero(n);
  }

  lemma PointZero(n: nat)
    ensures NatStr(n) + "." + "0" == NatStr(n) + ".0"
  {
  }

  lemma FractionZero()
    ensures Fraction("0") == 0.0
  {
    assert DigitsValue("0") == 0 by { assert "0"[..0] == []; }
  }

  lemma NoLetterFindExp(s: string)
    requires forall i :: 0 <= i < |s| ==> s[i] != 'e' && s[i] != 'E'
    ensures FindExp(s) == |s|
  {
  }

  lemma NoLetterFindDot(s: string)
    requires forall i :: 0 <= i < |s| ==> s[i] != '.'
    ensures FindDot(s) == |s|
  {
  }
}
