/**
 * The number built-ins the application relies on, restricted to integers:
 * `parseInt` with no radix argument (ECMAScript section 19.2.5), the decimal
 * rendering of an integer (its inverse), and `Math.round` applied to an
 * integer quotient (ECMAScript section 21.3.2.28).
 */
module Numbers {
  import opened Wrappers

  /** The characters `parseInt` skips at the start: WhiteSpace and LineTerminator. */
  predicate IsWhiteSpace(c: char)
  {
    c == '\t' || c == '\n' || c == '\U{B}' || c == '\U{C}' || c == '\r' || c == ' '
    || c == '\U{A0}' || c == '\U{1680}' || ('\U{2000}' <= c <= '\U{200A}')
    || c == '\U{2028}' || c == '\U{2029}' || c == '\U{202F}' || c == '\U{205F}'
    || c == '\U{3000}' || c == '\U{FEFF}'
  }

  predicate IsDecimalDigit(c: char)
  {
    '0' <= c <= '9'
  }

  /** The value of a digit in radix 16 or less; 16 for anything else. */
  function DigitValue(c: char): (v: nat)
    ensures v <= 16
    ensures IsDecimalDigit(c) <==> v < 10
  {
    if '0' <= c <= '9' then c as int - '0' as int
    else if 'a' <= c <= 'f' then c as int - 'a' as int + 10
    else if 'A' <= c <= 'F' then c as int - 'A' as int + 10
    else 16
  }

  /** `s` without its leading white space. */
  function TrimStart(s: string): (r: string)
    ensures |r| <= |s| && r == s[|s| - |r|..]
    ensures r == [] || !IsWhiteSpace(r[0])
  {
    if s != [] && IsWhiteSpace(s[0]) then TrimStart(s[1..]) else s
  }

  /** The longest prefix of `s` made of radix-`radix` digits. */
  function DigitPrefix(s: string, radix: nat): (r: string)
    ensures |r| <= |s| && r == s[..|r|]
    ensures forall i :: 0 <= i < |r| ==> DigitValue(r[i]) < radix
    ensures |r| < |s| ==> DigitValue(s[|r|]) >= radix
  {
    if s != [] && DigitValue(s[0]) < radix then [s[0]] + DigitPrefix(s[1..], radix) else []
  }

  /** The number a string of digits denotes in the given radix. */
  function DigitsValue(ds: string, radix: nat): nat
  {
    if ds == [] then 0
    else DigitsValue(ds[..|ds| - 1], radix) * radix + (if DigitValue(ds[|ds| - 1]) < radix then DigitValue(ds[|ds| - 1]) else 0)
  }

  /**
   * `parseInt(s)`: skip leading white space, read an optional sign, switch to
   * radix 16 after a `0x`/`0X` prefix, read the longest digit prefix;
   * `None` stands for NaN, the result when there is no digit to read.
   */
  function ParseInt(s: string): (r: Option<int>)
    ensures r.Some? ==> exists i :: 0 <= i < |s| && IsDecimalDigit(s[i])
  {
    ParseSigned(TrimStart(s))
  }

  /** `parseInt` once the white space is gone: an optional sign, then the magnitude. */
  function ParseSigned(t: string): Option<int>
  {
    if t != [] && t[0] == '-' then
      match ParseMagnitude(t[1..])
      case None => None
      case Some(m) => Some(-(m as int))
    else if t != [] && t[0] == '+' then ParseMagnitude(t[1..])
    else ParseMagnitude(t)
  }

  /** The magnitude: hexadecimal after `0x`/`0X`, decimal otherwise. */
  function ParseMagnitude(u: string): Option<nat>
  {
    if |u| >= 2 && u[0] == '0' && (u[1] == 'x' || u[1] == 'X') then LeadingNumber(u[2..], 16)
    else LeadingNumber(u, 10)
  }

  /** The number denoted by the digits `v` starts with, if it starts with one. */
  function LeadingNumber(v: string, radix: nat): Option<nat>
  {
    var z := DigitPrefix(v, radix);
    if z == [] then None else Some(DigitsValue(z, radix))
  }

  /** The decimal digits of a natural number, most significant first. */
  function DecimalDigits(n: nat): (ds: string)
    ensures |ds| >= 1
    ensures forall i :: 0 <= i < |ds| ==> IsDecimalDigit(ds[i])
  {
    if n < 10 then [('0' as int + n) as char]
    else DecimalDigits(n / 10) + [('0' as int + n % 10) as char]
  }

  /** The decimal rendering of an integer, as `String(n)` gives it. */
  function ToDecimal(n: int): string
  {
    if n < 0 then "-" + DecimalDigits(-n) else DecimalDigits(n)
  }

  lemma {:induction false} DecimalDigitsValue(n: nat)
    ensures DigitsValue(DecimalDigits(n), 10) == n
  {
    var ds := DecimalDigits(n);
    if n >= 10 {
      DecimalDigitsValue(n / 10);
      assert ds[..|ds| - 1] == DecimalDigits(n / 10);
    }
  }

  lemma {:induction false} DigitPrefixOfDigits(ds: string, rest: string, radix: nat)
    requires forall i :: 0 <= i < |ds| ==> DigitValue(ds[i]) < radix
    ensures DigitPrefix(ds + rest, radix) == ds + DigitPrefix(rest, radix)
  {
    if ds == [] {
      assert ds + rest == rest;
    } else {
      assert (ds + rest)[0] == ds[0] && (ds + rest)[1..] == ds[1..] + rest;
      DigitPrefixOfDigits(ds[1..], rest, radix);
      assert [ds[0]] + ds[1..] == ds;
    }
  }

  /**
   * `parseInt` reads back the decimal rendering of any integer, whatever
   * follows it, provided what follows cannot extend the number.
   */
  lemma ParseIntOfDecimal(n: int, rest: string)
    requires rest == [] || (!IsDecimalDigit(rest[0]) && rest[0] != 'x' && rest[0] != 'X')
    ensures ParseInt(ToDecimal(n) + rest) == Some(n)
  {
    if n < 0 {
      ParseNegativeDecimal(n, rest);
    } else {
      ParseNaturalDecimal(n, rest);
    }
  }

  lemma ParseNegativeDecimal(n: int, rest: string)
    requires n < 0
    requires rest == [] || (!IsDecimalDigit(rest[0]) && rest[0] != 'x' && rest[0] != 'X')
    ensures ParseInt(ToDecimal(n) + rest) == Some(n)
  {
    MagnitudeOfDecimal(-n, rest);
    NegativeText(n, rest);
    ParseNegated(ToDecimal(n) + rest, -n);
  }

  lemma ParseNaturalDecimal(n: nat, rest: string)
    requires rest == [] || (!IsDecimalDigit(rest[0]) && rest[0] != 'x' && rest[0] != 'X')
    ensures ParseInt(ToDecimal(n) + rest) == Some(n)
  {
    MagnitudeOfDecimal(n, rest);
    var s := ToDecimal(n) + rest;
    assert s == DecimalDigits(n) + rest;
    ParseUnsigned(s, n);
  }

  /** The rendering of a negative number is a minus sign before the digits of its magnitude. */
  lemma NegativeText(n: int, rest: string)
    requires n < 0
    ensures var s := ToDecimal(n) + rest; s != [] && s[0] == '-' && s[1..] == DecimalDigits(-n) + rest
  {
    var s := ToDecimal(n) + rest;
    assert s == ['-'] + (DecimalDigits(-n) + rest);
  }

  /** A minus sign in front of a magnitude negates it. */
  lemma ParseNegated(s: string, m: nat)
    requires s != [] && s[0] == '-' && ParseMagnitude(s[1..]) == Some(m)
    ensures ParseInt(s) == Some(-(m as int))
  {
    NotWhiteSpace('-');
    NothingToTrim(s);
  }

  /** Text that starts with a digit is read as a magnitude, without a sign. */
  lemma ParseUnsigned(s: string, m: nat)
    requires s != [] && IsDecimalDigit(s[0]) && ParseMagnitude(s) == Some(m)
    ensures ParseInt(s) == Some(m)
  {
    NotWhiteSpace(s[0]);
    NothingToTrim(s);
  }

  lemma NothingToTrim(s: string)
    requires s != [] && !IsWhiteSpace(s[0])
    ensures TrimStart(s) == s
  {
  }

  lemma NotWhiteSpace(c: char)
    requires c == '-' || IsDecimalDigit(c)
    ensures !IsWhiteSpace(c)
  {
  }

  lemma MagnitudeOfDecimal(m: nat, rest: string)
    requires rest == [] || (!IsDecimalDigit(rest[0]) && rest[0] != 'x' && rest[0] != 'X')
    ensures ParseMagnitude(DecimalDigits(m) + rest) == Some(m)
  {
    var ds := DecimalDigits(m);
    var u := ds + rest;
    assert !(|u| >= 2 && u[0] == '0' && (u[1] == 'x' || u[1] == 'X')) by {
      if |ds| >= 2 {
        assert u[1] == ds[1] && IsDecimalDigit(ds[1]);
      } else if |u| >= 2 {
        assert u[1] == rest[0];
      }
    }
    DigitPrefixOfDigits(ds, rest, 10);
    assert DigitPrefix(rest, 10) == [] by {
      if rest != [] {
        assert DigitValue(rest[0]) >= 10;
      }
    }
    assert DigitPrefix(u, 10) == ds by {
      assert ds + [] == ds;
    }
    DecimalDigitsValue(m);
  }

  /** White space in front of the text does not change what `parseInt` reads. */
  lemma ParseIntSkipsWhiteSpace(w: string, s: string)
    requires forall i :: 0 <= i < |w| ==> IsWhiteSpace(w[i])
    ensures ParseInt(w + s) == ParseInt(s)
  {
    TrimStartWhiteSpace(w, s);
  }

  lemma {:induction false} TrimStartWhiteSpace(w: string, s: string)
    requires forall i :: 0 <= i < |w| ==> IsWhiteSpace(w[i])
    ensures TrimStart(w + s) == TrimStart(s)
  {
    if w == [] {
      assert w + s == s;
    } else {
      assert (w + s)[0] == w[0] && (w + s)[1..] == w[1..] + s;
      TrimStartWhiteSpace(w[1..], s);
    }
  }

  /** Text without a single decimal digit parses to NaN. */
  lemma ParseIntWithoutDigits(s: string)
    requires forall i :: 0 <= i < |s| ==> !IsDecimalDigit(s[i])
    ensures ParseInt(s) == None
  {
    var t := TrimStart(s);
    assert forall i :: 0 <= i < |t| ==> t[i] == s[|s| - |t| + i];
    MagnitudeWithoutLeadingDigit(t);
    if t != [] {
      MagnitudeWithoutLeadingDigit(t[1..]);
    }
  }

  /** Text that does not start with a decimal digit has no magnitude to read. */
  lemma MagnitudeWithoutLeadingDigit(u: string)
    requires u == [] || !IsDecimalDigit(u[0])
    ensures ParseMagnitude(u) == None
  {
    assert DigitPrefix(u, 10) == [];
  }

  /**
   * `Math.round(total / count)` for integers and a positive count: the
   * integer nearest the quotient, halves rounded up.
   */
  function RoundedQuotient(total: int, count: int): (r: int)
    requires count > 0
    ensures 2 * count * r - count <= 2 * total < 2 * count * r + count
  {
    var q := (2 * total + count) / (2 * count);
    assert 2 * count * q <= 2 * total + count < 2 * count * q + 2 * count;
    q
  }
}
