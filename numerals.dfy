/**
 Integer notations used by the observer example: Python's `bin`, `str` and
 `hex` on an `int`, and a reader that takes such a numeral back to its value.
 The reader, restricted to base ten, is the simplified `int(...)` on strings.
 */
module Numerals {

  datatype Option<T> = None | Some(value: T)

  /** The three notations: `bin(n)`, `str(n)` and `hex(n)`. */
  datatype Base = Binary | Decimal | Hexadecimal {

    function Radix(): (r: nat)
      ensures 2 <= r <= 16
    {
      match this
      case Binary => 2
      case Decimal => 10
      case Hexadecimal => 16
    }

    /** The marker written between the sign and the digits. */
    function Prefix(): string
    {
      match this
      case Binary => "0b"
      case Decimal => ""
      case Hexadecimal => "0x"
    }
  }

  /** The value of an ASCII digit; letters are lower-case only. */
  function DigitValue(c: char): Option<nat>
  {
    if '0' <= c <= '9' then Some(c as nat - '0' as nat)
    else if 'a' <= c <= 'f' then Some(c as nat - 'a' as nat + 10)
    else None
  }

  predicate IsDigit(c: char, base: Base)
  {
    DigitValue(c).Some? && DigitValue(c).value < base.Radix()
  }

  predicate AllDigits(s: string, base: Base)
  {
    forall i :: 0 <= i < |s| ==> IsDigit(s[i], base)
  }

  /** Division by each radix, proved one constant divisor at a time. */
  lemma DivMod(n: nat, base: Base)
    ensures var r := base.Radix();
      n == (n / r) * r + n % r && 0 <= n % r < r &&
      (n >= r ==> 1 <= n / r < n)
  {
    match base
    case Binary =>
    case Decimal =>
    case Hexadecimal =>
  }

  /** The lower-case digit for `d`, as Python writes it. */
  function DigitChar(d: nat): (c: char)
    requires d < 16
    ensures DigitValue(c) == Some(d)
    ensures '0' <= c <= '9' || 'a' <= c <= 'f'
  {
    if d < 10 then ('0' as nat + d) as char else ('a' as nat + d - 10) as char
  }

  /** The digits of `n` in `base`, most significant first. */
  function Digits(n: nat, base: Base): string
    decreases n
  {
    var r := base.Radix();
    if n < r then [DigitChar(n)]
    else
      DivMod(n, base);
      Digits(n / r, base) + [DigitChar(n % r)]
  }

  /** The digits are lower-case digits of `base`, and there is no leading zero except in `0` itself. */
  lemma {:induction false} DigitsWellFormed(n: nat, base: Base)
    ensures |Digits(n, base)| >= 1 && AllDigits(Digits(n, base), base)
    ensures Digits(n, base)[0] == '0' <==> n == 0
    decreases n
  {
    var r := base.Radix();
    if n >= r {
      DivMod(n, base);
      DigitsWellFormed(n / r, base);
    }
  }

  /** The number a string of digits denotes (Horner's rule, last digit least significant). */
  function ValueOf(s: string, base: Base): nat
    requires AllDigits(s, base)
  {
    if s == [] then 0
    else ValueOf(s[..|s| - 1], base) * base.Radix() + DigitValue(s[|s| - 1]).value
  }

  /** `bin(n)`, `str(n)` or `hex(n)`: a `-` for a negative value, the prefix, then the digits of |n|. */
  function Format(n: int, base: Base): (s: string)
    ensures |s| > |base.Prefix()|
    ensures s[0] == '-' <==> n < 0
    ensures s[0] != '+'
  {
    var magnitude := if n < 0 then -n else n;
    DigitsWellFormed(magnitude, base);
    (if n < 0 then "-" else "") + base.Prefix() + Digits(magnitude, base)
  }

  /** Reads the prefix of `base` followed by at least one digit of `base`. */
  function ParseUnsigned(u: string, base: Base): Option<nat>
  {
    var p := base.Prefix();
    if |p| < |u| && u[..|p|] == p && AllDigits(u[|p|..], base) then
      Some(ValueOf(u[|p|..], base))
    else None
  }

  /**
   Reads an optional sign followed by what `ParseUnsigned` accepts; anything
   else is rejected.
   */
  function Parse(s: string, base: Base): Option<int>
  {
    var signed := |s| > 0 && (s[0] == '-' || s[0] == '+');
    match ParseUnsigned(if signed then s[1..] else s, base)
    case None => None
    case Some(m) => var v: int := m; Some(if signed && s[0] == '-' then -v else v)
  }

  /** The digits of `n` denote `n`. */
  lemma {:induction false} ValueOfDigits(n: nat, base: Base)
    ensures AllDigits(Digits(n, base), base) && ValueOf(Digits(n, base), base) == n
    decreases n
  {
    var r := base.Radix();
    DigitsWellFormed(n, base);
    if n >= r {
      DivMod(n, base);
      DigitsWellFormed(n / r, base);
      var s := Digits(n / r, base);
      var t := s + [DigitChar(n % r)];
      assert t[..|t| - 1] == s;
      ValueOfDigits(n / r, base);
    }
  }

  lemma {:induction false} ParseUnsignedDigits(m: nat, base: Base)
    ensures ParseUnsigned(base.Prefix() + Digits(m, base), base) == Some(m)
  {
    var p, d := base.Prefix(), Digits(m, base);
    DigitsWellFormed(m, base);
    var u := p + d;
    assert u[..|p|] == p;
    assert u[|p|..] == d;
    ValueOfDigits(m, base);
  }

  lemma ParseNonNegative(m: nat, base: Base)
    ensures Parse(base.Prefix() + Digits(m, base), base) == Some(m)
  {
    var p, d := base.Prefix(), Digits(m, base);
    DigitsWellFormed(m, base);
    var c := if p == "" then d[0] else p[0];
    assert c == '0' || IsDigit(c, base);
    assert (p + d)[0] == c;
    ParseUnsignedDigits(m, base);
  }

  lemma ParseNegative(m: nat, base: Base)
    ensures Parse("-" + base.Prefix() + Digits(m, base), base) == Some(-(m as int))
  {
    var u := base.Prefix() + Digits(m, base);
    var s := "-" + base.Prefix() + Digits(m, base);
    assert s[1..] == u;
    ParseUnsignedDigits(m, base);
  }

  /** Reading back what `bin`, `str` or `hex` wrote gives the original integer. */
  lemma {:induction false} ParseFormat(n: int, base: Base)
    ensures Parse(Format(n, base), base) == Some(n)
  {
    if n < 0 {
      ParseNegative(-n, base);
    } else {
      assert Format(n, base) == base.Prefix() + Digits(n, base);
      ParseNonNegative(n, base);
    }
  }

  /** Two integers never share a rendering in the same notation. */
  lemma FormatInjective(m: int, n: int, base: Base)
    requires Format(m, base) == Format(n, base)
    ensures m == n
  {
    ParseFormat(m, base);
    ParseFormat(n, base);
  }
}
