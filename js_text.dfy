/**
 * The JavaScript string and number primitives the application relies on:
 * `String.prototype.trim`, `Number.prototype.toString` on non-negative
 * integers, and `parseInt` with no radix argument.
 */
module JsText {
  import opened Wrappers

  /** The code points ECMAScript counts as WhiteSpace or LineTerminator, which `trim` removes. */
  predicate IsWhite(c: char) {
    || c == '\t' || c == '\n' || c == '\U{B}' || c == '\U{C}' || c == '\r' || c == ' '
    || c == '\U{A0}' || c == '\U{1680}' || ('\U{2000}' <= c <= '\U{200A}')
    || c == '\U{2028}' || c == '\U{2029}' || c == '\U{202F}' || c == '\U{205F}'
    || c == '\U{3000}' || c == '\U{FEFF}'
  }

  predicate AllWhite(s: string) {
    forall i :: 0 <= i < |s| ==> IsWhite(s[i])
  }

  /** The number of white characters at the front of `s`. */
  function LeadingWhite(s: string): (n: nat)
    ensures n <= |s|
    ensures forall k :: 0 <= k < n ==> IsWhite(s[k])
    ensures n < |s| ==> !IsWhite(s[n])
  {
    if s != [] && IsWhite(s[0]) then 1 + LeadingWhite(s[1..]) else 0
  }

  /** The number of white characters at the end of `s`. */
  function TrailingWhite(s: string): (n: nat)
    ensures n <= |s|
    ensures forall k :: |s| - n <= k < |s| ==> IsWhite(s[k])
    ensures n < |s| ==> !IsWhite(s[|s| - n - 1])
  {
    if s != [] && IsWhite(s[|s| - 1]) then 1 + TrailingWhite(s[..|s| - 1]) else 0
  }

  /** `s` with its leading white space removed. */
  function TrimStart(s: string): string {
    s[LeadingWhite(s)..]
  }

  /** `s` with its trailing white space removed. */
  function TrimEnd(s: string): string {
    s[..|s| - TrailingWhite(s)]
  }

  /**
   * `s.trim()`: the infix `s[i..i + |r|]` of `s`, where `i` is the number of
   * white characters at its front, followed only by white space; it is empty
   * or begins and ends with a non-white character.
   */
  function Trim(s: string): (r: string)
    ensures var i := LeadingWhite(s);
      && i + |r| <= |s| && r == s[i..i + |r|]
      && (forall k :: i + |r| <= k < |s| ==> IsWhite(s[k]))
    ensures r != [] ==> !IsWhite(r[0]) && !IsWhite(r[|r| - 1])
  {
    var t := TrimStart(s);
    var n := TrailingWhite(t);
    assert forall k :: |s| - n <= k < |s| ==> s[k] == t[k - LeadingWhite(s)];
    TrimEnd(t)
  }

  /** `s.trim()` is empty exactly when `s` is all white space. */
  lemma TrimEmptyIff(s: string)
    ensures Trim(s) == "" <==> AllWhite(s)
  {
    var n := LeadingWhite(s);
    var t := TrimStart(s);
    if !AllWhite(s) {
      var k :| 0 <= k < |s| && !IsWhite(s[k]);
      assert k >= n;
      assert t[k - n] == s[k];
    } else {
      assert n == |s|;
    }
  }

  /** A string that is already trimmed is its own trimming. */
  lemma TrimTrimmed(s: string)
    requires s == [] || (!IsWhite(s[0]) && !IsWhite(s[|s| - 1]))
    ensures Trim(s) == s
  {
    if s != [] {
      assert TrimStart(s) == s;
      assert TrimEnd(s) == s;
    }
  }

  /** Trimming twice is trimming once. */
  lemma TrimIdempotent(s: string)
    ensures Trim(Trim(s)) == Trim(s)
  {
    var r := Trim(s);
    assert r == [] || (!IsWhite(r[0]) && !IsWhite(r[|r| - 1]));
    TrimTrimmed(r);
  }

  predicate IsDigit(c: char) {
    '0' <= c <= '9'
  }

  /** The decimal digit character for `d`. */
  function DigitChar(d: nat): (c: char)
    requires d < 10
    ensures IsDigit(c) && DigitValue(c, 10) == Some(d)
  {
    (d + '0' as int) as char
  }

  /**
   * `n.toString()` for a non-negative integer: its shortest decimal numeral.
   */
  function NatToString(n: nat): (s: string)
    ensures s != [] && forall i :: 0 <= i < |s| ==> IsDigit(s[i])
    ensures |s| > 1 ==> s[0] != '0'
  {
    if n < 10 then [DigitChar(n)] else NatToString(n / 10) + [DigitChar(n % 10)]
  }

  /** The value of `c` as a digit of base `radix` (2..36), letters of either case standing for 10..35. */
  function DigitValue(c: char, radix: nat): (r: Option<nat>)
    ensures r.Some? ==> r.value < radix
    ensures IsDigit(c) && 10 <= radix ==> r.Some?
  {
    var v :=
      if '0' <= c <= '9' then c as int - '0' as int
      else if 'a' <= c <= 'z' then c as int - 'a' as int + 10
      else if 'A' <= c <= 'Z' then c as int - 'A' as int + 10
      else 36;
    if v < radix then Some(v) else None
  }

  /** The longest prefix of `s` made of digits of base `radix`. */
  function DigitPrefix(s: string, radix: nat): (r: string)
    ensures |r| <= |s| && r == s[..|r|]
    ensures forall i :: 0 <= i < |r| ==> DigitValue(r[i], radix).Some?
    ensures |r| < |s| ==> DigitValue(s[|r|], radix).None?
  {
    if s != [] && DigitValue(s[0], radix).Some? then [s[0]] + DigitPrefix(s[1..], radix) else []
  }

  /** The value of a numeral in base `radix`, most significant digit first. */
  function NumeralValue(z: string, radix: nat): nat
    requires forall i :: 0 <= i < |z| ==> DigitValue(z[i], radix).Some?
  {
    if z == [] then 0
    else
      var init := z[..|z| - 1];
      assert forall i :: 0 <= i < |init| ==> init[i] == z[i];
      var high := NumeralValue(init, radix);
      MulNat(high, radix);
      high * radix + DigitValue(z[|z| - 1], radix).value
  }

  /** The product of two naturals is a natural. */
  lemma MulNat(a: nat, b: nat)
    ensures a * b >= 0
  {
  }

  /**
   * `parseInt(s)` with no radix: skip leading white space, read an optional
   * sign, read base 16 after a `0x`/`0X` prefix and base 10 otherwise, and use
   * the longest run of digits; `None` is NaN, the result when that run is
   * empty.
   */
  function ParseInt(s: string): (r: Option<int>)
  {
    ParseSigned(TrimStart(s))
  }

  /** `parseInt` after the leading white space: an optional sign, then the magnitude. */
  function ParseSigned(t: string): (r: Option<int>)
  {
    var negative := t != [] && t[0] == '-';
    var u := if t != [] && (t[0] == '-' || t[0] == '+') then t[1..] else t;
    match ParseMagnitude(u)
    case None => None
    case Some(v) => if negative then Some(-(v as int)) else Some(v as int)
  }

  /** `parseInt` after the sign: base 16 after a `0x`/`0X` prefix, base 10 otherwise, the longest run of digits. */
  function ParseMagnitude(u: string): (r: Option<nat>)
  {
    var hex := |u| >= 2 && u[0] == '0' && (u[1] == 'x' || u[1] == 'X');
    var radix := if hex then 16 else 10;
    var z := DigitPrefix(if hex then u[2..] else u, radix);
    if z == [] then None else Some(NumeralValue(z, radix))
  }

  lemma {:induction false} NumeralValueOfNatToString(n: nat)
    ensures NumeralValue(NatToString(n), 10) == n
  {
    var s := NatToString(n);
    if n >= 10 {
      NumeralValueOfNatToString(n / 10);
      assert s[..|s| - 1] == NatToString(n / 10);
    }
  }

  lemma {:induction false} DigitPrefixOfDigits(s: string)
    requires forall i :: 0 <= i < |s| ==> IsDigit(s[i])
    ensures DigitPrefix(s, 10) == s
  {
    if s != [] {
      DigitPrefixOfDigits(s[1..]);
    }
  }

  /** `parseInt` reads a plain decimal numeral as its value. */
  lemma ParseIntDecimal(s: string)
    requires s != [] && forall i :: 0 <= i < |s| ==> IsDigit(s[i])
    ensures ParseInt(s) == Some(NumeralValue(s, 10) as int)
  {
    assert !IsWhite(s[0]) by {
      assert IsDigit(s[0]);
    }
    assert LeadingWhite(s) == 0;
    assert TrimStart(s) == s;
    ParseMagnitudeDecimal(s);
    assert !(s[0] == '-' || s[0] == '+') by {
      assert IsDigit(s[0]);
    }
    assert ParseSigned(s) == Some(NumeralValue(s, 10) as int);
  }

  /** A plain decimal numeral has no `0x` prefix, so its magnitude is its decimal value. */
  lemma ParseMagnitudeDecimal(s: string)
    requires s != [] && forall i :: 0 <= i < |s| ==> IsDigit(s[i])
    ensures ParseMagnitude(s) == Some(NumeralValue(s, 10))
  {
    var hex := |s| >= 2 && s[0] == '0' && (s[1] == 'x' || s[1] == 'X');
    assert !hex by {
      if |s| >= 2 {
        assert IsDigit(s[1]);
      }
    }
    DigitPrefixOfDigits(s);
    var z := DigitPrefix(s, 10);
    assert z == s;
  }

  /** `parseInt(n.toString())` gives back `n`. */
  lemma ParseIntNatToString(n: nat)
    ensures ParseInt(NatToString(n)) == Some(n)
  {
    ParseIntDecimal(NatToString(n));
    NumeralValueOfNatToString(n);
  }

  /** Distinct numbers have distinct decimal numerals. */
  lemma NatToStringInjective(m: nat, n: nat)
    ensures NatToString(m) == NatToString(n) ==> m == n
  {
    ParseIntNatToString(m);
    ParseIntNatToString(n);
  }
}
