/**
 * parseInt(string, 10) as section 19.2.5 of ECMA-262 (ECMAScript 2022)
 * defines it for radix 10: trim leading white space, take an optional sign,
 * take the longest run of decimal digits, NaN when that run is empty, and
 * -0 when the digits denote zero under a minus sign.
 */
module ParseInt {
  import opened Decimal
  import opened JsNumber

  /**
   * The code points TrimString removes (section 7.1.4.1.1 StrWhiteSpaceChar):
   * WhiteSpace (TAB, VT, FF, ZWNBSP and every Zs space) and LineTerminator.
   */
  predicate IsStrWhiteSpace(c: char) {
    || c == '\t' || c == '\U{B}' || c == '\U{C}' || c == '\U{FEFF}'
    || c == ' ' || c == '\U{A0}' || c == '\U{1680}' || '\U{2000}' <= c <= '\U{200A}'
    || c == '\U{202F}' || c == '\U{205F}' || c == '\U{3000}'
    || c == '\n' || c == '\r' || c == '\U{2028}' || c == '\U{2029}'
  }

  predicate AllWhiteSpace(s: string) {
    forall i :: 0 <= i < |s| ==> IsStrWhiteSpace(s[i])
  }

  /** TrimString(s, start): s without its leading white space. */
  function TrimStart(s: string): (r: string)
    ensures |r| <= |s| && r == s[|s| - |r|..]
    ensures r == [] || !IsStrWhiteSpace(r[0])
  {
    if s != [] && IsStrWhiteSpace(s[0]) then TrimStart(s[1..]) else s
  }

  /** What TrimStart removes is white space only. */
  lemma {:induction false} TrimStartRemovesWhiteSpace(s: string)
    ensures AllWhiteSpace(s[..|s| - |TrimStart(s)|])
  {
    if s != [] && IsStrWhiteSpace(s[0]) {
      TrimStartRemovesWhiteSpace(s[1..]);
      var n := |s| - |TrimStart(s)|;
      assert s[..n] == [s[0]] + s[1..][..n - 1];
    }
  }

  /** The longest prefix of s made of radix-10 digits (steps 11 and 12). */
  function DigitPrefix(s: string): (z: string)
    ensures |z| <= |s| && z == s[..|z|] && AllDigits(z)
    ensures |z| == |s| || !IsDigit(s[|z|])
  {
    if s != [] && IsDigit(s[0]) then [s[0]] + DigitPrefix(s[1..]) else []
  }

  /** Steps 4 and 5: whether the trimmed text starts with '-', and the text after any sign. */
  predicate HasMinus(t: string) {
    t != [] && t[0] == '-'
  }

  function Unsigned(t: string): string {
    if t != [] && (t[0] == '-' || t[0] == '+') then t[1..] else t
  }

  /** Steps 13 to 16 for radix 10, given the sign and the digit run Z. */
  function FromDigits(negative: bool, z: string): (n: Number)
    requires AllDigits(z)
    ensures n.Finite? ==> n.magnitude == n.magnitude.Floor as real
  {
    if z == [] then NaN else Finite(negative, DigitsValue(z) as real)
  }

  /** parseInt(s, 10): NaN or an integer. */
  function ParseInt10(s: string): (n: Number)
    ensures n.Finite? ==> n.magnitude == n.magnitude.Floor as real
  {
    var t := TrimStart(s);
    FromDigits(HasMinus(t), DigitPrefix(Unsigned(t)))
  }

  lemma {:induction false} TrimStartSkips(ws: string, x: string)
    requires AllWhiteSpace(ws)
    requires x == [] || !IsStrWhiteSpace(x[0])
    ensures TrimStart(ws + x) == x
  {
    if ws != [] {
      assert (ws + x)[1..] == ws[1..] + x;
      TrimStartSkips(ws[1..], x);
    } else {
      assert ws + x == x;
    }
  }

  lemma {:induction false} DigitPrefixStops(digits: string, rest: string)
    requires AllDigits(digits)
    requires rest == [] || !IsDigit(rest[0])
    ensures DigitPrefix(digits + rest) == digits
  {
    if digits != [] {
      assert (digits + rest)[1..] == digits[1..] + rest;
      DigitPrefixStops(digits[1..], rest);
    } else {
      assert digits + rest == rest;
    }
  }

  /** Leading white space does not change the result. */
  lemma ParseInt10AfterWhiteSpace(s: string, ws: string, x: string)
    requires s == ws + x
    requires AllWhiteSpace(ws)
    requires x == [] || !IsStrWhiteSpace(x[0])
    ensures ParseInt10(s) == FromDigits(HasMinus(x), DigitPrefix(Unsigned(x)))
  {
    TrimStartSkips(ws, x);
  }

  /** An optional sign in front of u is recognised and removed. */
  lemma SignRemoved(sign: string, u: string)
    requires sign == "" || sign == "+" || sign == "-"
    requires sign == "" ==> u == [] || (u[0] != '-' && u[0] != '+')
    ensures HasMinus(sign + u) == (sign == "-")
    ensures Unsigned(sign + u) == u
  {
    if sign != "" {
      assert (sign + u)[1..] == u;
    } else {
      assert sign + u == u;
    }
  }

  /**
   * White space, an optional sign, a non-empty run of digits and anything that
   * does not start with a digit: the result is the digits' value under the sign.
   */
  lemma ParseInt10OfDigits(s: string, ws: string, sign: string, digits: string, rest: string)
    requires s == ws + sign + digits + rest
    requires AllWhiteSpace(ws)
    requires sign == "" || sign == "+" || sign == "-"
    requires digits != [] && AllDigits(digits)
    requires rest == [] || !IsDigit(rest[0])
    ensures ParseInt10(s) == Finite(sign == "-", DigitsValue(digits) as real)
  {
    var u := digits + rest;
    assert u[0] == digits[0];
    var x := sign + u;
    assert s == ws + x;
    assert x[0] == if sign == "" then u[0] else sign[0];
    ParseInt10AfterWhiteSpace(s, ws, x);
    SignRemoved(sign, u);
    DigitPrefixStops(digits, rest);
  }

  /**
   * White space and an optional sign not followed by a digit: NaN. With no
   * sign, the text after the white space must not start with a sign either.
   */
  lemma ParseInt10NoDigits(s: string, ws: string, sign: string, rest: string)
    requires s == ws + sign + rest
    requires AllWhiteSpace(ws)
    requires sign == "" || sign == "+" || sign == "-"
    requires rest == [] || !IsDigit(rest[0])
    requires rest != [] && sign == "" ==> !IsStrWhiteSpace(rest[0]) && rest[0] != '+' && rest[0] != '-'
    ensures ParseInt10(s) == NaN
  {
    var x := sign + rest;
    assert s == ws + x;
    assert x != [] ==> x[0] == if sign == "" then rest[0] else sign[0];
    ParseInt10AfterWhiteSpace(s, ws, x);
    SignRemoved(sign, rest);
    DigitPrefixStops([], rest);
  }

  /** A string made only of digits is read as its decimal value. */
  lemma ParseInt10OfNumeral(digits: string)
    requires digits != [] && AllDigits(digits)
    ensures ParseInt10(digits) == Finite(false, DigitsValue(digits) as real)
  {
    ParseInt10OfDigits(digits, "", "", digits, "");
  }

  /** parseInt reads back every integer rendered by `${i}`. */
  lemma ParseInt10OfIntToString(i: int)
    ensures ParseInt10(IntToString(i)) == FromInt(i)
  {
    var m: nat := if i < 0 then -i else i;
    NatToStringRoundTrip(m);
    ParseInt10OfDigits(IntToString(i), "", if i < 0 then "-" else "", NatToString(m), "");
  }

  /** A decimal string with a fractional part is truncated to its whole digits. */
  lemma ParseInt10DropsFraction(whole: string, fraction: string)
    requires whole != [] && AllDigits(whole)
    ensures ParseInt10(whole + "." + fraction) == Finite(false, DigitsValue(whole) as real)
  {
    var rest := ['.'] + fraction;
    assert rest[0] == '.';
    ParseInt10OfDigits(whole + "." + fraction, "", "", whole, rest);
  }

  /**
   * "99.9" gives 99: the fractional digits are dropped.
   * The string is a parameter fixed by the requires, so the solver does not unfold the literal eagerly.
   */
  lemma ParseInt10FractionExample(s: string)
    requires s == "99.9"
    ensures ParseInt10(s) == Finite(false, 99.0)
  {
    var nn, nine := "99", "9";
    assert nn[..1] == nine;
    assert DigitsValue(nn) == 99;
    assert s == nn + "." + nine;
    ParseInt10DropsFraction(nn, nine);
  }

  /** A minus sign after white space before the digits of zero gives -0. */
  lemma ParseInt10NegativeZeroExample()
    ensures ParseInt10(" \t-0") == Finite(true, 0.0)
  {
    var ws, minus, zero, empty := " \t", "-", "0", "";
    assert AllWhiteSpace(ws) && AllDigits(zero) && DigitsValue(zero) == 0;
    assert " \t-0" == ws + minus + zero + empty;
    ParseInt10OfDigits(" \t-0", ws, minus, zero, empty);
  }

  /** What parseInt reads for a missing field, the text "undefined", gives NaN. */
  lemma ParseInt10UndefinedExample()
    ensures ParseInt10("undefined") == NaN
  {
    var word := "undefined";
    assert word[0] == 'u';
    ParseInt10NoDigits(word, "", "", word);
  }
}
