/** `parseInt(s)` with no radix, as ECMAScript defines it: skip leading white
    space, read an optional sign, switch to base 16 after a "0x" or "0X" prefix,
    then read the longest run of digits of the base; no digits gives NaN.
    The dashboard applies it to the age typed into its add-patient form. */
module JsParseInt {
  import opened Records

  /** The characters `parseInt` skips at the start: the ECMAScript WhiteSpace
      code points (including the Unicode space separators) and LineTerminators. */
  predicate IsSpace(c: char)
  {
    c == '\t' || c == '\n' || c == '\U{B}' || c == '\U{C}' || c == '\r' ||
    c == ' ' || c == '\U{A0}' || c == '\U{1680}' || ('\U{2000}' <= c <= '\U{200A}') ||
    c == '\U{2028}' || c == '\U{2029}' || c == '\U{202F}' || c == '\U{205F}' ||
    c == '\U{3000}' || c == '\U{FEFF}'
  }

  /** The value of a character read as a digit: '0'..'9' are 0..9, letters
      of either case are 10..35, and anything else is 36 (a digit in no base). */
  function DigitValue(c: char): (d: nat)
    ensures d <= 36
    ensures d < 10 <==> '0' <= c <= '9'
  {
    if '0' <= c <= '9' then c as int - '0' as int
    else if 'a' <= c <= 'z' then c as int - 'a' as int + 10
    else if 'A' <= c <= 'Z' then c as int - 'A' as int + 10
    else 36
  }

  /** `s` without its leading white space. */
  function TrimStart(s: string): (r: string)
    ensures r == [] || !IsSpace(r[0])
    ensures |r| <= |s| && r == s[|s| - |r|..]
    ensures forall i :: 0 <= i < |s| - |r| ==> IsSpace(s[i])
  {
    if s != [] && IsSpace(s[0]) then TrimStart(s[1..]) else s
  }

  /** The longest prefix of `s` made of digits of the given base. */
  function DigitPrefix(s: string, radix: nat): (r: string)
    ensures |r| <= |s| && r == s[..|r|]
    ensures forall i :: 0 <= i < |r| ==> DigitValue(r[i]) < radix
    ensures |r| < |s| ==> DigitValue(s[|r|]) >= radix
  {
    if s != [] && DigitValue(s[0]) < radix then [s[0]] + DigitPrefix(s[1..], radix) else []
  }

  /** The number a run of digits denotes, most significant digit first. */
  function DigitsValue(z: string, radix: nat): nat
  {
    if z == [] then 0
    else DigitsValue(z[..|z| - 1], radix) * radix + DigitValue(z[|z| - 1])
  }

  /** A run of digits as a number; an empty run is NaN. */
  function RunValue(z: string, radix: nat): Age
  {
    if z == [] then NaN else Num(DigitsValue(z, radix))
  }

  /** What follows the sign: hexadecimal after "0x" or "0X", decimal otherwise. */
  function ParseUnsigned(u: string): Age
  {
    if |u| >= 2 && u[0] == '0' && (u[1] == 'x' || u[1] == 'X') then RunValue(DigitPrefix(u[2..], 16), 16)
    else RunValue(DigitPrefix(u, 10), 10)
  }

  function Negate(a: Age): Age
  {
    match a
    case NaN => NaN
    case Num(v) => Num(-v)
  }

  /** `parseInt(s)`. A number comes out only when `s` holds a decimal digit
      somewhere. */
  function ParseInt(s: string): (r: Age)
    ensures r.Num? ==> exists i :: 0 <= i < |s| && '0' <= s[i] <= '9'
  {
    var t := TrimStart(s);
    if t != [] && t[0] == '-' then Negate(ParseUnsigned(t[1..]))
    else if t != [] && t[0] == '+' then ParseUnsigned(t[1..])
    else ParseUnsigned(t)
  }

  /** The decimal numeral of a natural number, as a number input renders it. */
  function DecimalString(n: nat): (r: string)
    ensures r != []
    ensures forall i :: 0 <= i < |r| ==> '0' <= r[i] <= '9'
    ensures |r| >= 2 ==> r[0] != '0'
  {
    var last := ['0' + (n % 10) as char];
    if n < 10 then last else DecimalString(n / 10) + last
  }

  lemma {:induction false} DecimalStringValue(n: nat)
    ensures DigitsValue(DecimalString(n), 10) == n
  {
    var s := DecimalString(n);
    if n >= 10 {
      DecimalStringValue(n / 10);
      assert s[..|s| - 1] == DecimalString(n / 10);
    }
  }

  /** Reading digits stops exactly at the end of a run of digits. */
  lemma {:induction false} DigitPrefixOfRun(z: string, rest: string, radix: nat)
    requires forall i :: 0 <= i < |z| ==> DigitValue(z[i]) < radix
    requires rest == [] || DigitValue(rest[0]) >= radix
    ensures DigitPrefix(z + rest, radix) == z
  {
    if z != [] {
      assert (z + rest)[1..] == z[1..] + rest;
      DigitPrefixOfRun(z[1..], rest, radix);
    } else {
      assert z + rest == rest;
    }
  }

  /** Without white space or sign in front, `parseInt` reads the number itself. */
  lemma ParseIntOfUnsigned(u: string)
    requires u != [] && '0' <= u[0] <= '9'
    ensures ParseInt(u) == ParseUnsigned(u)
  {
    assert TrimStart(u) == u;
  }

  /** A typed-in age is read back as the number it spells, even with text
      after it ("42 years" gives 42), as long as that text does not start with
      a digit and does not turn a lone "0" into a "0x" prefix. */
  lemma ParseIntDecimal(n: nat, rest: string)
    requires rest == [] || !('0' <= rest[0] <= '9')
    requires n == 0 && rest != [] ==> rest[0] != 'x' && rest[0] != 'X'
    ensures ParseInt(DecimalString(n) + rest) == Num(n)
  {
    var s := DecimalString(n);
    var u := s + rest;
    assert u[0] == s[0];
    ParseIntOfUnsigned(u);
    assert !(|u| >= 2 && u[0] == '0' && (u[1] == 'x' || u[1] == 'X')) by {
      if |s| >= 2 {
        assert s[0] != '0';
      } else if |u| >= 2 {
        assert u[1] == rest[0];
      }
    }
    assert ParseUnsigned(u) == RunValue(DigitPrefix(u, 10), 10);
    DigitPrefixOfRun(s, rest, 10);
    DecimalStringValue(n);
  }

  /** A leading minus sign negates the number. */
  lemma ParseIntNegative(n: nat)
    ensures ParseInt("-" + DecimalString(n)) == Num(-(n as int))
  {
    var s := DecimalString(n);
    var u := "-" + s;
    assert u[0] == '-' && u[1..] == s;
    assert TrimStart(u) == u;
    assert s + [] == s;
    ParseIntDecimal(n, []);
    ParseIntOfUnsigned(s);
    assert ParseUnsigned(s) == Num(n);
  }

  /** A string with no digits after the white space and sign reads as NaN;
      in particular the blank age of a fresh form does. */
  lemma ParseIntNoDigits(s: string)
    requires forall i :: 0 <= i < |s| ==> IsSpace(s[i]) || s[i] == '-' || s[i] == '+'
    ensures ParseInt(s) == NaN
  {
  }
}
