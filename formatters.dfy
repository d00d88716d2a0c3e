/**
 The text the example prints: the line a HexFormatter or BinaryFormatter
 writes when notified, and the DefaultFormatter's `__str__`.
 */
module Formatters {
  import opened Numerals

  /** The two observer classes. Neither keeps any state of its own. */
  datatype Kind = HexFormatter | BinaryFormatter {

    /** `type(self).__name__` */
    function TypeName(): string
    {
      match this
      case HexFormatter => "HexFormatter"
      case BinaryFormatter => "BinaryFormatter"
    }

    function Label(): string
    {
      match this
      case HexFormatter => "hex"
      case BinaryFormatter => "bin"
    }

    /** `hex` for the HexFormatter, `bin` for the BinaryFormatter. */
    function Notation(): Base
    {
      match this
      case HexFormatter => Hexadecimal
      case BinaryFormatter => Binary
    }
  }

  /** Everything an observer prints before the number. */
  function Header(kind: Kind, name: string): string
  {
    kind.TypeName() + ": '" + name + "' has now " + kind.Label() + " data = "
  }

  /** The line an observer of `kind` prints when a publisher named `name` holds `data`. */
  function Line(kind: Kind, name: string, data: int): string
  {
    Header(kind, name) + Format(data, kind.Notation())
  }

  /**
   A printed line is the observer's header followed by the number in the
   observer's notation, from which `data` can be read back exactly.
   */
  lemma LineReadBack(kind: Kind, name: string, data: int)
    ensures |Header(kind, name)| < |Line(kind, name, data)|
    ensures Line(kind, name, data)[..|Header(kind, name)|] == Header(kind, name)
    ensures Parse(Line(kind, name, data)[|Header(kind, name)|..], kind.Notation()) == Some(data)
  {
    var h, digits := Header(kind, name), Format(data, kind.Notation());
    ParseFormat(data, kind.Notation());
    assert (h + digits)[|h|..] == digits;
  }

  /** Everything `__str__` writes before the number. */
  function Summary(name: string): string
  {
    "DefaultFormatter: '" + name + "' has data = "
  }

  /** `str()` of a DefaultFormatter named `name` holding `data`. */
  function Describe(name: string, data: int): string
  {
    Summary(name) + Format(data, Decimal)
  }

  /**
   The text of `str()` is the summary followed by `data` in decimal, from
   which it can be read back exactly.
   */
  lemma DescribeReadBack(name: string, data: int)
    ensures |Summary(name)| < |Describe(name, data)|
    ensures Describe(name, data)[..|Summary(name)|] == Summary(name)
    ensures Parse(Describe(name, data)[|Summary(name)|..], Decimal) == Some(data)
  {
    var h, digits := Summary(name), Format(data, Decimal);
    ParseFormat(data, Decimal);
    assert (h + digits)[|h|..] == digits;
  }

  /** Two different values never produce the same line for the same observer and publisher. */
  lemma {:induction false} LineInjective(kind: Kind, name: string, m: int, n: int)
    requires Line(kind, name, m) == Line(kind, name, n)
    ensures m == n
  {
    LineReadBack(kind, name, m);
    LineReadBack(kind, name, n);
  }

  /** `hex` in the example run (`hex(3)`, `hex(21)`), and a negative value. */
  lemma DemoHex()
    ensures Format(3, Hexadecimal) == "0x3"
    ensures Format(21, Hexadecimal) == "0x15"
    ensures Format(-21, Hexadecimal) == "-0x15"
  {
    assert Digits(21, Hexadecimal) == "15";
  }

  /** `bin` in the example run (`bin(21)`, `bin(40)`, `bin(15)`), and zero. */
  lemma DemoBinary()
    ensures Format(21, Binary) == "0b10101"
    ensures Format(40, Binary) == "0b101000"
    ensures Format(15, Binary) == "0b1111"
    ensures Format(0, Binary) == "0b0"
  {
    assert Digits(21, Binary) == "10101";
    assert Digits(40, Binary) == "101000";
    assert Digits(15, Binary) == "1111";
  }

  /** `str()` in the example run: `str(3)`, `str(21)`, `str(40)` and `str(15)`. */
  lemma DemoDecimal()
    ensures Format(3, Decimal) == "3"
    ensures Format(21, Decimal) == "21"
    ensures Format(40, Decimal) == "40"
    ensures Format(15, Decimal) == "15"
  {
    assert Digits(21, Decimal) == "21";
    assert Digits(40, Decimal) == "40";
    assert Digits(15, Decimal) == "15";
  }

  /** What each `print(df)` of the example run prints, for the publisher named `test1`. */
  lemma DemoSummaries()
    ensures Describe("test1", 0) == Summary("test1") + "0"
    ensures Describe("test1", 3) == Summary("test1") + "3"
    ensures Describe("test1", 21) == Summary("test1") + "21"
    ensures Describe("test1", 40) == Summary("test1") + "40"
    ensures Describe("test1", 15) == Summary("test1") + "15"
  {
    DemoDecimal();
  }

  /** The observer lines printed by the example run, for the publisher named `test1`. */
  lemma DemoLines()
    ensures Line(HexFormatter, "test1", 3) == Header(HexFormatter, "test1") + "0x3"
    ensures Line(HexFormatter, "test1", 21) == Header(HexFormatter, "test1") + "0x15"
    ensures Line(BinaryFormatter, "test1", 21) == Header(BinaryFormatter, "test1") + "0b10101"
    ensures Line(BinaryFormatter, "test1", 40) == Header(BinaryFormatter, "test1") + "0b101000"
    ensures Line(BinaryFormatter, "test1", 15) == Header(BinaryFormatter, "test1") + "0b1111"
  {
    DemoHex();
    DemoBinary();
  }
}
