/**
 The `int(new_value)` coercion performed by the DefaultFormatter's `data`
 setter, for the inputs the example gives it: integers, floats and strings.
 */
module Coercion {
  import opened Numerals

  /** A value handed to the setter. Floats are taken as exact reals. */
  datatype Input = IntInput(i: int) | FloatInput(x: real) | TextInput(s: string)

  /** The outcome of `int(...)`: a value, or the message of the `ValueError`. */
  datatype Result = Ok(value: int) | Err(message: string)

  /** `int(x)` on a float: the integer part, rounded toward zero. */
  function Truncate(x: real): (n: int)
    ensures 0.0 <= x ==> n as real <= x < n as real + 1.0
    ensures x < 0.0 ==> n as real - 1.0 < x <= n as real
  {
    if x < 0.0 then -((-x).Floor) else x.Floor
  }

  /**
   The message of the `ValueError` raised by `int(s)`. The quoted literal is
   cut at 200 characters, so a long string loses its tail and closing quote.
   */
  function InvalidLiteral(s: string): (message: string)
    ensures |message| <= |"invalid literal for int() with base 10: "| + 200
    ensures |s| <= 198 ==> message == "invalid literal for int() with base 10: '" + s + "'"
    ensures 198 < |s| ==> message == "invalid literal for int() with base 10: '" + s[..199]
  {
    var quoted := "'" + s + "'";
    "invalid literal for int() with base 10: " + (if |quoted| <= 200 then quoted else quoted[..200])
  }

  /**
   `int(input)`: integers pass through, floats are truncated, strings are
   read as an optionally signed decimal numeral; only a string that is not
   one raises the `ValueError`, and its message quotes the string.
   */
  function Coerce(input: Input): (r: Result)
    ensures r.Err? <==> input.TextInput? && Parse(input.s, Decimal).None?
    ensures r.Err? ==> r.message == InvalidLiteral(input.s)
    ensures input.IntInput? ==> r == Ok(input.i)
    ensures input.FloatInput? ==> r == Ok(Truncate(input.x))
    ensures input.TextInput? && Parse(input.s, Decimal).Some? ==> r == Ok(Parse(input.s, Decimal).value)
  {
    match input
    case IntInput(i) => Ok(i)
    case FloatInput(x) => Ok(Truncate(x))
    case TextInput(s) =>
      match Parse(s, Decimal)
      case Some(v) => Ok(v)
      case None => Err(InvalidLiteral(s))
  }

  /** `int(str(n)) == n`: the setter accepts every string `str` produces and recovers the integer. */
  lemma CoerceDecimalText(n: int)
    ensures Coerce(TextInput(Format(n, Decimal))) == Ok(n)
  {
    ParseFormat(n, Decimal);
  }

  /** The example's inputs: `'hello'` is rejected, `15.8` becomes 15 and `-15.8` becomes -15. */
  lemma DemoCoercions()
    ensures Coerce(TextInput("hello")) == Err("invalid literal for int() with base 10: 'hello'")
    ensures Coerce(FloatInput(15.8)) == Ok(15)
    ensures Coerce(FloatInput(-15.8)) == Ok(-15)
    ensures Coerce(TextInput("-40")) == Ok(-40)
  {
    assert !IsDigit('h', Decimal);
    assert "-40"[1..] == "40";
    assert "40"[..1] == "4" && "4"[..0] == "";
    assert ValueOf("40", Decimal) == 40;
    assert "40"[|Decimal.Prefix()|..] == "40";
    assert ParseUnsigned("40", Decimal) == Some(40);
  }
}
