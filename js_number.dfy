/** The JavaScript number conversions the classifier relies on:
    `parseInt` (no radix argument), `parseFloat`, the `<` comparison of
    their result with an integer (false for NaN), and `toString` of an
    integral number. Numbers are kept exact: see README for the rounding
    this leaves out. */
module JsNumber {
  import opened JsString

  /** WhiteSpace and LineTerminator code points, which both parsers skip. */
  predicate IsWhitespace(c: char) {
    c in {'\t', '\U{B}', '\U{C}', ' ', '\U{A0}', '\U{FEFF}', '\n', '\r', '\U{2028}', '\U{2029}',
          '\U{1680}', '\U{202F}', '\U{205F}', '\U{3000}'}
    || ('\U{2000}' <= c <= '\U{200A}')
  }

  /** The string with its leading white space removed. */
  function TrimStart(s: string): (r: string)
    ensures |r| <= |s| && r == s[|s| - |r|..]
    ensures forall k :: 0 <= k < |s| - |r| ==> IsWhitespace(s[k])
    ensures |r| == 0 || !IsWhitespace(r[0])
  {
    if |s| > 0 && IsWhitespace(s[0]) then TrimStart(s[1..]) else s
  }

  /** `c` is a digit of the radix (10 or 16): `0-9`, and `a-f`/`A-F` in hex. */
  predicate IsDigit(c: char, radix: nat) {
    ('0' <= c <= '9') || (radix == 16 && (('a' <= c <= 'f') || ('A' <= c <= 'F')))
  }

  function DigitValue(c: char): nat {
    if '0' <= c <= '9' then c as nat - '0' as nat
    else if 'a' <= c <= 'f' then c as nat - 'a' as nat + 10
    else if 'A' <= c <= 'F' then c as nat - 'A' as nat + 10
    else 0
  }

  predicate AllDigits(s: string, radix: nat) {
    forall k :: 0 <= k < |s| ==> IsDigit(s[k], radix)
  }

  /** The length of the longest prefix of `s` made of digits of the radix. */
  function DigitPrefix(s: string, radix: nat): (n: nat)
    ensures n <= |s| && AllDigits(s[..n], radix)
    ensures n == |s| || !IsDigit(s[n], radix)
  {
    if |s| > 0 && IsDigit(s[0], radix) then
      var n := 1 + DigitPrefix(s[1..], radix);
      assert s[..n] == [s[0]] + s[1..][..n - 1];
      n
    else 0
  }

  /** The value of a digit string, most significant digit first. */
  function Value(ds: string, radix: nat): nat
    decreases |ds|
  {
    if |ds| == 0 then 0 else Value(ds[..|ds| - 1], radix) * radix + DigitValue(ds[|ds| - 1])
  }

  /** One leading `-` or `+` split off: whether it was `-`, and the rest. */
  function StripSign(t: string): (bool, string) {
    if |t| > 0 && (t[0] == '-' || t[0] == '+') then (t[0] == '-', t[1..]) else (false, t)
  }

  /** The unsigned part of `parseInt`: a `0x`/`0X` prefix switches to
      hexadecimal; the longest digit prefix is read and the rest ignored; no
      digit at all is NaN (`None`). */
  function ParseMagnitude(u: string): Option<nat> {
    if |u| >= 2 && u[0] == '0' && (u[1] == 'x' || u[1] == 'X') then
      var h := u[2..];
      var n := DigitPrefix(h, 16);
      if n == 0 then None else Some(Value(h[..n], 16))
    else
      var n := DigitPrefix(u, 10);
      if n == 0 then None else Some(Value(u[..n], 10))
  }

  /** `parseInt(s)` (no radix): `None` is NaN. Leading white space and one
      sign are skipped before the digits are read. */
  function ParseInt(s: string): Option<int> {
    var (negative, u) := StripSign(TrimStart(s));
    match ParseMagnitude(u)
    case None => None
    case Some(v) => var n: int := if negative then -(v as int) else v; Some(n)
  }

  /** A JavaScript number as far as `parseFloat` can produce it, kept exact:
      `Finite(neg, m, e)` is (-1 if neg) * m * 10^e. */
  datatype Num = NaN | Infinite(negative: bool) | Finite(negative: bool, mantissa: nat, exponent: int)

  function Pow10(e: nat): (r: nat)
    ensures r >= 1
  {
    if e == 0 then 1 else 10 * Pow10(e - 1)
  }

  function RealValue(x: Num): real
    requires x.Finite?
  {
    var magnitude := if x.exponent >= 0 then (x.mantissa * Pow10(x.exponent)) as real
                     else x.mantissa as real / Pow10(-x.exponent) as real;
    if x.negative then -magnitude else magnitude
  }

  /** `x < k`: false for NaN, true for minus infinity only. */
  predicate Below(x: Num, k: int) {
    match x
    case NaN => false
    case Infinite(negative) => negative
    case Finite(_, _, _) => RealValue(x) < k as real
  }

  /** The optional exponent part `e`/`E`, an optional sign and digits; 0 when
      it is absent or has no digits (then it is not part of the number). */
  function ExponentPart(w: string): int {
    if |w| >= 1 && (w[0] == 'e' || w[0] == 'E') then
      var v := w[1..];
      var negative := |v| > 0 && v[0] == '-';
      var x := if |v| > 0 && (v[0] == '-' || v[0] == '+') then v[1..] else v;
      var n := DigitPrefix(x, 10);
      if n == 0 then 0 else if negative then -(Value(x[..n], 10) as int) else Value(x[..n], 10)
    else 0
  }

  /** `parseFloat(s)`: leading white space and one sign are skipped, then the
      longest prefix that is `Infinity` or a decimal literal
      (digits, an optional `.` and digits, an optional exponent) is read. */
  function ParseFloat(s: string): Num {
    var (negative, u) := StripSign(TrimStart(s));
    ParseUnsignedFloat(u, negative)
  }

  /** The part of `parseFloat` after the sign. */
  function ParseUnsignedFloat(u: string, negative: bool): Num {
    if StartsWith(u, "Infinity") then Infinite(negative) else DecimalLiteral(u, negative)
  }

  /** The longest decimal-literal prefix: digits, an optional `.` and
      digits (at least one digit on either side), an optional exponent. */
  function DecimalLiteral(u: string, negative: bool): Num {
    var ip := DigitPrefix(u, 10);
    var hasDot := ip < |u| && u[ip] == '.';
    var fp := if hasDot then DigitPrefix(u[ip + 1..], 10) else 0;
    if ip == 0 && fp == 0 then NaN
    else
      var digits := u[..ip] + (if hasDot then u[ip + 1..ip + 1 + fp] else "");
      var consumed := if hasDot then ip + 1 + fp else ip;
      Finite(negative, Value(digits, 10), ExponentPart(u[consumed..]) - fp)
  }

  function DigitChar(d: nat): char
    requires d < 10
  {
    ('0' as int + d) as char
  }

  /** Decimal digits of `n`, without leading zeros. */
  function NatToString(n: nat): (r: string)
    ensures |r| >= 1 && AllDigits(r, 10)
    ensures r[0] == '0' ==> n == 0
  {
    if n < 10 then [DigitChar(n)] else NatToString(n / 10) + [DigitChar(n % 10)]
  }

  /** `n.toString()` for an integral number (a `-` before negative ones). */
  function IntToString(n: int): string {
    if n < 0 then "-" + NatToString(-n) else NatToString(n)
  }

  lemma {:induction false} NatToStringValue(n: nat)
    ensures Value(NatToString(n), 10) == n
  {
    if n >= 10 {
      NatToStringValue(n / 10);
      var s := NatToString(n);
      assert s[..|s| - 1] == NatToString(n / 10);
    }
  }

  /** A string that starts with a digit is read from its first character. */
  lemma {:induction false} StartsWithDigit(s: string)
    requires |s| > 0 && IsDigit(s[0], 10)
    ensures StripSign(TrimStart(s)) == (false, s)
  {
    assert !IsWhitespace(s[0]);
  }

  /** A string that starts with neither white space, a sign nor a digit
      reads as NaN. */
  lemma {:induction false} ParseIntNoDigit(s: string)
    requires |s| > 0 && !IsWhitespace(s[0]) && !IsDigit(s[0], 10) && s[0] != '-' && s[0] != '+'
    ensures ParseInt(s) == None
  {
    assert TrimStart(s) == s;
    assert StripSign(s) == (false, s);
    assert DigitPrefix(s, 10) == 0;
  }

  /** A run of decimal digits followed by something that does not continue
      a number reads as the value of the digits. */
  lemma {:induction false} ParseIntDigits(ds: string, rest: string)
    requires |ds| >= 1 && AllDigits(ds, 10)
    requires rest == [] || (!IsDigit(rest[0], 10) && rest[0] != 'x' && rest[0] != 'X')
    ensures ParseInt(ds + rest) == Some(Value(ds, 10) as int)
  {
    var s := ds + rest;
    assert s[0] == ds[0];
    StartsWithDigit(s);
    MagnitudeOfDigits(ds, rest);
  }

  lemma {:induction false} MagnitudeOfDigits(ds: string, rest: string)
    requires |ds| >= 1 && AllDigits(ds, 10)
    requires rest == [] || (!IsDigit(rest[0], 10) && rest[0] != 'x' && rest[0] != 'X')
    ensures ParseMagnitude(ds + rest) == Some(Value(ds, 10))
  {
    var s := ds + rest;
    DigitPrefixOf(ds, rest, 10);
    assert s[..|ds|] == ds;
    if |s| >= 2 {
      assert s[1] == if |ds| >= 2 then ds[1] else rest[0];
    }
  }

  lemma {:induction false} DigitPrefixOf(ds: string, rest: string, radix: nat)
    requires AllDigits(ds, radix)
    requires rest == [] || !IsDigit(rest[0], radix)
    ensures DigitPrefix(ds + rest, radix) == |ds|
  {
    if |ds| > 0 {
      assert (ds + rest)[1..] == ds[1..] + rest;
      DigitPrefixOf(ds[1..], rest, radix);
    } else {
      assert ds + rest == rest;
    }
  }

  /** Round trip: `parseInt` reads back what `toString` writes. */
  lemma {:induction false} ParseIntToString(n: int)
    ensures ParseInt(IntToString(n)) == Some(n)
  {
    var m: nat := if n < 0 then -n else n;
    var ds := NatToString(m);
    NatToStringValue(m);
    DigitPrefixOf(ds, [], 10);
    assert ds + [] == ds;
    assert ds[..|ds|] == ds;
    assert ParseMagnitude(ds) == Some(m);
    if n < 0 {
      var s := "-" + ds;
      assert !IsWhitespace(s[0]);
      assert StripSign(TrimStart(s)) == (true, ds) by { assert s[1..] == ds; }
    } else {
      StartsWithDigit(ds);
    }
  }

  /** A run of decimal digits ended by anything that cannot continue a
      decimal literal (a `,`, a space, the end) reads as that integer. */
  lemma {:induction false} ParseFloatDigits(ds: string, rest: string)
    requires |ds| >= 1 && AllDigits(ds, 10)
    requires rest == [] || (!IsDigit(rest[0], 10) && rest[0] !in {'.', 'e', 'E'})
    ensures ParseFloat(ds + rest) == Finite(false, Value(ds, 10), 0)
  {
    var s := ds + rest;
    assert s[0] == ds[0];
    StartsWithDigit(s);
    UnsignedFloatOfDigits(ds, rest);
  }

  lemma {:induction false} UnsignedFloatOfDigits(ds: string, rest: string)
    requires |ds| >= 1 && AllDigits(ds, 10)
    requires rest == [] || (!IsDigit(rest[0], 10) && rest[0] !in {'.', 'e', 'E'})
    ensures ParseUnsignedFloat(ds + rest, false) == Finite(false, Value(ds, 10), 0)
  {
    var s := ds + rest;
    assert s[0] == ds[0] && IsDigit(ds[0], 10);
    assert !StartsWith(s, "Infinity") by {
      if 8 <= |s| { assert s[..8][0] == s[0] && "Infinity"[0] == 'I'; }
    }
    DecimalLiteralOfDigits(ds, rest);
  }

  lemma {:induction false} DecimalLiteralOfDigits(ds: string, rest: string)
    requires |ds| >= 1 && AllDigits(ds, 10)
    requires rest == [] || (!IsDigit(rest[0], 10) && rest[0] !in {'.', 'e', 'E'})
    ensures DecimalLiteral(ds + rest, false) == Finite(false, Value(ds, 10), 0)
  {
    var s := ds + rest;
    DigitPrefixOf(ds, rest, 10);
    assert s[..|ds|] + "" == ds;
    assert s[|ds|..] == rest;
    assert |ds| < |s| ==> s[|ds|] == rest[0];
    assert ExponentPart(rest) == 0;
  }

  /** So `parseFloat` of such a string is below `k` exactly when the
      integer written by the digits is. */
  lemma {:induction false} BelowDigits(ds: string, rest: string, k: int)
    requires |ds| >= 1 && AllDigits(ds, 10)
    requires rest == [] || (!IsDigit(rest[0], 10) && rest[0] !in {'.', 'e', 'E'})
    ensures Below(ParseFloat(ds + rest), k) <==> Value(ds, 10) < k
  {
    ParseFloatDigits(ds, rest);
  }
}
