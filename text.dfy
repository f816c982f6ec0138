/**
 * Python's string primitives as the core uses them: `str.strip()`, `str.upper()`,
 * `str()` of an integer and the `{n:03d}` format.
 */
module Text {

  /** `str.isspace()` for one character: the characters Python's `strip()` removes. */
  predicate IsSpace(c: char)
  {
    ('\t' <= c <= '\r') || ('\U{1C}' <= c <= ' ') || c == '\U{85}' || c == '\U{A0}' ||
    c == '\U{1680}' || ('\U{2000}' <= c <= '\U{200A}') || c == '\U{2028}' || c == '\U{2029}' ||
    c == '\U{202F}' || c == '\U{205F}' || c == '\U{3000}'
  }

  predicate IsDigit(c: char)
  {
    '0' <= c <= '9'
  }

  /** `s.find(c)`, with `|s|` rather than -1 when `c` does not occur. */
  function IndexOf(s: string, c: char): (k: nat)
    ensures k <= |s| && (k < |s| ==> s[k] == c)
    ensures forall i :: 0 <= i < k ==> s[i] != c
  {
    if s == [] then 0 else if s[0] == c then 0 else 1 + IndexOf(s[1..], c)
  }

  function TrimLeft(s: string): string
  {
    if |s| > 0 && IsSpace(s[0]) then TrimLeft(s[1..]) else s
  }

  function TrimRight(s: string): string
  {
    if |s| > 0 && IsSpace(s[|s| - 1]) then TrimRight(s[..|s| - 1]) else s
  }

  /**
   * `s.strip()`: the longest slice of `s` that neither starts nor ends with whitespace.
   * Its properties are stated by StripSpec rather than as postconditions, so that the
   * many proofs mentioning a stripped text do not carry them.
   */
  function Strip(s: string): string
  {
    TrimRight(TrimLeft(s))
  }

  /** TrimLeft drops exactly the leading whitespace. */
  lemma {:induction false} TrimLeftSpec(s: string)
    ensures |TrimLeft(s)| <= |s| && TrimLeft(s) == s[|s| - |TrimLeft(s)|..]
    ensures TrimLeft(s) == [] || !IsSpace(TrimLeft(s)[0])
    ensures forall i :: 0 <= i < |s| - |TrimLeft(s)| ==> IsSpace(s[i])
  {
    if |s| > 0 && IsSpace(s[0]) {
      TrimLeftSpec(s[1..]);
    }
  }

  /** TrimRight drops exactly the trailing whitespace. */
  lemma {:induction false} TrimRightSpec(s: string)
    ensures |TrimRight(s)| <= |s| && TrimRight(s) == s[..|TrimRight(s)|]
    ensures TrimRight(s) == [] || !IsSpace(TrimRight(s)[|TrimRight(s)| - 1])
    ensures forall i :: |TrimRight(s)| <= i < |s| ==> IsSpace(s[i])
  {
    if |s| > 0 && IsSpace(s[|s| - 1]) {
      TrimRightSpec(s[..|s| - 1]);
    }
  }

  /** A stripped text is a slice of the original with no whitespace at either end; a text without any is unchanged. */
  lemma StripSpec(s: string)
    ensures |Strip(s)| <= |s|
    ensures Strip(s) == [] || (!IsSpace(Strip(s)[0]) && !IsSpace(Strip(s)[|Strip(s)| - 1]))
    ensures s == [] || (!IsSpace(s[0]) && !IsSpace(s[|s| - 1])) ==> Strip(s) == s
  {
    var l := TrimLeft(s);
    TrimLeftSpec(s);
    TrimRightSpec(l);
    if l != [] && TrimRight(l) != [] {
      assert TrimRight(l)[0] == l[0];
    }
  }

  /** Stripping a stripped string changes nothing. */
  lemma StripIdempotent(s: string)
    ensures Strip(Strip(s)) == Strip(s)
  {
    StripSpec(s);
    StripSpec(Strip(s));
  }

  function UpperChar(c: char): char
  {
    if 'a' <= c <= 'z' then (c as int - 32) as char else c
  }

  function LowerChar(c: char): char
  {
    if 'A' <= c <= 'Z' then (c as int + 32) as char else c
  }

  /**
   * `s.upper()` restricted to ASCII letters. No non-ASCII character upper-cases to one of
   * the letters N, U, L, E, A, so the result agrees with Python's whenever the outcome is
   * compared against the sentinel spellings.
   */
  function Upper(s: string): (r: string)
    ensures |r| == |s|
  {
    seq(|s|, i requires 0 <= i < |s| => UpperChar(s[i]))
  }

  /** `s.lower()` restricted to ASCII letters, as used to recognise `inf` and `nan`. */
  function Lower(s: string): (r: string)
    ensures |r| == |s|
  {
    seq(|s|, i requires 0 <= i < |s| => LowerChar(s[i]))
  }

  function DigitChar(d: nat): (c: char)
    requires d < 10
    ensures IsDigit(c) && c as int - '0' as int == d
  {
    ('0' as int + d) as char
  }

  /** The value of a decimal digit character; other characters count as zero. */
  function CharValue(c: char): (d: nat)
    ensures d < 10
  {
    if IsDigit(c) then c as int - '0' as int else 0
  }

  /** The value of a string of decimal digits, most significant first. */
  function DigitsValue(s: string): nat
  {
    if s == [] then 0 else DigitsValue(s[..|s| - 1]) * 10 + CharValue(s[|s| - 1])
  }

  /** `str(n)` for a non-negative integer: its decimal digits without leading zeros. */
  function NatStr(n: nat): string
  {
    if n < 10 then [DigitChar(n)] else NatStr(n / 10) + [DigitChar(n % 10)]
  }

  /** `str(n)` is a non-empty run of digits, and it starts with `0` only for zero. */
  lemma {:induction false} NatStrDigits(n: nat)
    ensures |NatStr(n)| > 0 && forall i :: 0 <= i < |NatStr(n)| ==> IsDigit(NatStr(n)[i])
    ensures NatStr(n)[0] == '0' ==> n == 0
  {
    if n >= 10 {
      NatStrDigits(n / 10);
      assert NatStr(n)[0] == NatStr(n / 10)[0];
    }
  }

  /** `str(i)` for any integer. */
  function IntStr(i: int): (s: string)
  {
    Sign(i) + NatStr(Abs(i))
  }

  function Abs(i: int): nat
  {
    if i < 0 then -i else i
  }

  /** The `-` written before a negative number. */
  function Sign(i: int): (s: string)
    ensures |s| == (if i < 0 then 1 else 0)
  {
    if i < 0 then "-" else ""
  }

  /** Reading the digits of `str(n)` back gives `n`. */
  lemma {:induction false} NatStrValue(n: nat)
    ensures DigitsValue(NatStr(n)) == n
  {
    if n >= 10 {
      NatStrValue(n / 10);
      var s := NatStr(n);
      assert s[..|s| - 1] == NatStr(n / 10);
    }
  }

  lemma NatStrInjective(m: nat, n: nat)
    requires NatStr(m) == NatStr(n)
    ensures m == n
  {
    NatStrValue(m);
    NatStrValue(n);
  }

  lemma IntStrInjective(a: int, b: int)
    requires IntStr(a) == IntStr(b)
    ensures a == b
  {
    IntStrParts(a);
    IntStrParts(b);
    NatStrInjective(Abs(a), Abs(b));
  }

  /** `str(i)` starts with `-` exactly when `i` is negative, and the digits of `|i|` follow the sign. */
  lemma IntStrParts(i: int)
    ensures IntStr(i)[0] == '-' <==> i < 0
    ensures IntStr(i)[|Sign(i)|..] == NatStr(Abs(i))
  {
    NatStrDigits(Abs(i));
  }

  /** `k` zero digits. */
  function Zeros(k: nat): (z: string)
    ensures |z| == k
  {
    if k == 0 then [] else Zeros(k - 1) + ['0']
  }

  /** Leading zeros do not change the value of a digit string. */
  lemma {:induction false} LeadingZeros(k: nat, s: string)
    ensures DigitsValue(Zeros(k) + s) == DigitsValue(s)
    decreases |s|
  {
    var z := Zeros(k);
    if s == [] {
      ZerosValue(k);
      assert z + s == z;
    } else {
      LeadingZeros(k, s[..|s| - 1]);
      assert (z + s)[..|z + s| - 1] == z + s[..|s| - 1];
    }
  }

  lemma {:induction false} ZerosValue(k: nat)
    ensures DigitsValue(Zeros(k)) == 0
  {
    if k > 0 {
      ZerosValue(k - 1);
    }
  }

  lemma {:induction false} ZerosAreDigits(k: nat)
    ensures forall i :: 0 <= i < k ==> Zeros(k)[i] == '0'
  {
    if k > 0 {
      ZerosAreDigits(k - 1);
    }
  }

  /** Left-pads a string with `'0'` to width `w`, as the `0w` format flag does. */
  function ZeroPad(s: string, w: nat): string
  {
    if |s| >= w then s else Zeros(w - |s|) + s
  }

  /** `f"{n:03d}"`: at least three characters, the sign counting towards the width. */
  function Pad3(n: int): string
  {
    Sign(n) + ZeroPad(NatStr(Abs(n)), 3 - |Sign(n)|)
  }

  /** A sequence number in 0..999 is written as exactly three digits whose value is the number. */
  lemma Pad3Digits(n: int)
    requires 0 <= n <= 999
    ensures |Pad3(n)| == 3
    ensures forall i :: 0 <= i < 3 ==> IsDigit(Pad3(n)[i])
    ensures DigitsValue(Pad3(n)) == n
  {
    var s := NatStr(n);
    NatStrDigits(n);
    NatStrShort(n);
    Pad3Value(n);
    ZerosAreDigits(3 - |s|);
    assert Pad3(n) == Zeros(3 - |s|) + s;
  }

  /** A number below 1000 has at most three digits. */
  lemma NatStrShort(n: nat)
    requires n <= 999
    ensures |NatStr(n)| <= 3
  {
    var s := NatStr(n);
    if |s| > 3 {
      NatStrDigits(n);
      NatStrValue(n);
      LeadingDigitBound(s);
      PowMonotone(3, |s| - 1);
      assert false;
    }
  }

  function Pow10(n: nat): (p: nat)
    ensures p >= 1
  {
    if n == 0 then 1 else 10 * Pow10(n - 1)
  }

  /** A digit string whose first digit is not zero is at least 10^(length - 1). */
  lemma {:induction false} LeadingDigitBound(s: string)
    requires |s| >= 1 && CharValue(s[0]) >= 1
    ensures DigitsValue(s) >= Pow10(|s| - 1)
  {
    if |s| > 1 {
      LeadingDigitBound(s[..|s| - 1]);
    } else {
      assert s[..0] == [];
    }
  }

  lemma {:induction false} PowMonotone(m: nat, n: nat)
    requires m <= n
    ensures Pow10(m) <= Pow10(n)
    decreases n
  {
    if m < n {
      PowMonotone(m, n - 1);
    }
  }

  /** Distinct non-negative sequence numbers give distinct padded fields. */
  lemma Pad3Injective(m: int, n: int)
    requires m >= 0 && n >= 0
    requires Pad3(m) == Pad3(n)
    ensures m == n
  {
    Pad3Value(m);
    Pad3Value(n);
  }

  /** The padded field of a non-negative number is worth that number. */
  lemma Pad3Value(n: nat)
    ensures DigitsValue(Pad3(n)) == n
  {
    var s := NatStr(n);
    NatStrValue(n);
    var k := if |s| >= 3 then 0 else 3 - |s|;
    assert Zeros(0) + s == s;
    assert Pad3(n) == Zeros(k) + s;
    LeadingZeros(k, s);
  }

  /** Python's `a < b` on strings: the first differing character decides, and a proper prefix is smaller. */
  predicate LexLess(a: string, b: string)
  {
    exists k :: 0 <= k <= |a| && k <= |b| && a[..k] == b[..k] &&
      ((k == |a| && k < |b|) || (k < |a| && k < |b| && a[k] < b[k]))
  }

  /** A common prefix does not change the order of two strings. */
  lemma LexLessPrefix(p: string, a: string, b: string)
    requires LexLess(a, b)
    ensures LexLess(p + a, p + b)
  {
    var k :| 0 <= k <= |a| && k <= |b| && a[..k] == b[..k] &&
      ((k == |a| && k < |b|) || (k < |a| && k < |b| && a[k] < b[k]));
    assert (p + a)[..|p| + k] == p + a[..k];
    assert (p + b)[..|p| + k] == p + b[..k];
  }

  /** Two digit strings of one width with the same value are the same string. */
  lemma {:induction false} DigitsValueInjective(a: string, b: string)
    requires |a| == |b|
    requires forall i :: 0 <= i < |a| ==> IsDigit(a[i])
    requires forall i :: 0 <= i < |b| ==> IsDigit(b[i])
    requires DigitsValue(a) == DigitsValue(b)
    ensures a == b
  {
    if a != [] {
      var n := |a| - 1;
      assert CharValue(a[n]) == CharValue(b[n]);
      DigitsValueInjective(a[..n], b[..n]);
      assert a == a[..n] + [a[n]] && b == b[..n] + [b[n]];
    }
  }

  /** Between digit strings of one width, the smaller value is the smaller string. */
  lemma {:induction false} DigitsOrderLex(a: string, b: string)
    requires |a| == |b|
    requires forall i :: 0 <= i < |a| ==> IsDigit(a[i])
    requires forall i :: 0 <= i < |b| ==> IsDigit(b[i])
    requires DigitsValue(a) < DigitsValue(b)
    ensures LexLess(a, b)
  {
    var n := |a| - 1;
    var a', b' := a[..n], b[..n];
    if DigitsValue(a') < DigitsValue(b') {
      DigitsOrderLex(a', b');
      var k :| 0 <= k <= |a'| && k <= |b'| && a'[..k] == b'[..k] &&
        ((k == |a'| && k < |b'|) || (k < |a'| && k < |b'| && a'[k] < b'[k]));
      assert a[..k] == a'[..k] && b[..k] == b'[..k];
      assert a[k] == a'[k] && b[k] == b'[k];
    } else {
      assert DigitsValue(a') == DigitsValue(b');
      DigitsValueInjective(a', b');
      assert a[..n] == b[..n] && a[n] < b[n];
    }
  }
}
