# Observer pattern: publisher, value holder and formatting observers

This project models `Oberserver.py`, a small example of the observer
(publish–subscribe) pattern, and proves properties of the model in Dafny.

- **Publisher** keeps an ordered list of observers. `add` appends an observer
  that is not yet registered and otherwise prints `Failed to add: ...`.
  `remove` deletes a registered observer and otherwise prints
  `Failed to remove: ...`. `notify` calls every registered observer in list
  order.
- **DefaultFormatter** is a publisher with a `name` and an integer `data`
  (initially 0). Its `data` setter coerces the new value with `int(...)`. On
  success it stores the value and then notifies. On a `ValueError` it prints
  `Error: ...`, keeps the old value and notifies nobody. `__str__` prints
  `DefaultFormatter: '<name>' has data = <data>`.
- **HexFormatter / BinaryFormatter** are stateless observers. When notified,
  they print the publisher's name and its data written by Python's `hex` or
  `bin`.

Files, one module each:

- `numerals.dfy` (`Numerals`): Python's `bin`, `str` and `hex` on integers
  (`Format`), and a reader for such numerals (`Parse`). Restricted to
  base ten, the reader is the string case of `int(...)`.
- `formatters.dfy` (`Formatters`): the two observer kinds, the line each one
  prints (`Line`), and the `__str__` text (`Describe`).
- `coercion.dfy` (`Coercion`): the setter's `int(new_value)` on integers,
  floats and strings (`Coerce`).
- `subscriptions.dfy` (`Subscriptions`): the observer list as a value. It
  defines `Appended` (what `add` does), `Without` (what `list.remove` does)
  and `IndexOf` (first position), with lemmas on uniqueness and order.
- `observer.dfy` (`Observer`): the class `Formatter` (an observer object) and
  the class `DefaultFormatter`, whose methods `Add`, `Remove`, `Notify` and
  `SetData` update the fields `observers`, `data` and `log` in place. It also
  defines `Broadcast`, which specifies what one `notify` pass prints.

Modelling choices:

- Each printed line is appended to the field `DefaultFormatter.log`, in
  printing order. Observers append their notification lines there too.
- Observers are objects of the class `Formatter` with a constant `kind`. The
  list compares them by reference, as Python's `in` and `list.remove` do for
  these classes.
- `Publisher` has no subclass other than `DefaultFormatter`, so its three
  methods are members of the `DefaultFormatter` class here.
- An observer's `notify(publisher)` reads only `publisher.name` and
  `publisher.data`. `Line` therefore takes those two values.
- The demo in `main` is reproduced by the `Demo...` lemmas and the
  `DemoRejectedText` method. They state the list after each `add`/`remove`,
  each broadcast's output, the coercions of `'hello'` and `15.8`, the number
  each `print(df)` shows (0, 3, 21, 40, 40 and 15), and that `'hello'` leaves
  the data at 40.

## Model

| member | source | states |
|---|---|---|
| `Observer.DefaultFormatter.constructor` | Oberserver.py:41-46 | a new holder has the given name, data 0, no observers, nothing printed, and a duplicate-free list |
| `Observer.DefaultFormatter.Add` | Oberserver.py:19-25 | the list becomes `Appended(old list, o)`. Only a registered `o` prints one `FailedAdd(o)`; `data` is untouched and the list stays duplicate-free |
| `Observer.DefaultFormatter.Remove` | Oberserver.py:27-33 | the list becomes `Without(old list, o)` and no longer holds `o`. Only an unregistered `o` prints one `FailedRemove(o)`; the list stays duplicate-free |
| `Observer.DefaultFormatter.Notify` | Oberserver.py:35-37 | the log grows by exactly `Broadcast(observers, name, data)`; the list and data are unchanged |
| `Observer.DefaultFormatter.SetData` | Oberserver.py:58-67 | on a successful coercion to `v`, data becomes `v` and then one broadcast of `v` to the current list is printed. On a `ValueError`, data is kept and only `Error(message)` is printed, with no notification |
| `Observer.DefaultFormatter.ToString` | Oberserver.py:48-51 | the text starts with `DefaultFormatter: '<name>' has data = `, the rest is exactly `str(data)`, and that rest reads back as `data` |
| `Observer.Formatter.constructor` | Oberserver.py:70-77 | a new observer object has the given kind (HexFormatter or BinaryFormatter); being a fresh object, it is distinct from every observer already registered |
| `Observer.Broadcast` | Oberserver.py:35-37 | what one `notify` pass prints; its properties are stated by `BroadcastAt`, `BroadcastAppend`, `BroadcastSnoc` and `NotifiedOnce` |
| `Observer.BroadcastAt` | Oberserver.py:35-37 | a broadcast prints one line per registered observer, in list order; line `i` comes from observer `i` and shows `data` in that observer's notation |
| `Observer.BroadcastAppend` | Oberserver.py:35-37 | notifying `a + b` prints what notifying `a` and then `b` prints, so the pass goes strictly in list order |
| `Observer.BroadcastSnoc` | Oberserver.py:37 | appending one observer to the list appends exactly its line to the broadcast |
| `Observer.NotifiedOnce` | Oberserver.py:35-37 | with no duplicates, a broadcast has one line per registered observer; a registered observer gets exactly one line, at its position in the list; an unregistered one gets none |
| `Observer.AddRemoveNotNotified` | Oberserver.py:19-37 | after `add(o)` of an unregistered `o` and then `remove(o)`, a broadcast prints exactly what it printed before and never reaches `o` |
| `Observer.DemoSubscriptions` | Oberserver.py:88-104 | the example's list goes `[H]`, `[H, B]`, `[B]`; removing `H` again and adding `B` again leave `[B]` |
| `Observer.DemoRejectedText` | Oberserver.py:105-106 | setting `'hello'` while the holder has 40 prints only the example's `Error` line and leaves the data at 40 |
| `Observer.DemoBroadcasts` | Oberserver.py:89-108 | the example's broadcasts print `0x3`; then `0x15` and `0b10101` (H before B); then `0b101000`; then `0b1111` |
| `Subscriptions.IndexOf` | Oberserver.py:30 | the position found holds the element and is its first occurrence (the element `list.remove` deletes) |
| `Subscriptions.Appended` | Oberserver.py:19-22 | the list after `add(x)` extends the old list, holds `x`, and everything after the old list is `x` |
| `Subscriptions.Without` | Oberserver.py:27-30 | the list after `remove(x)`: for a registered `x`, one element shorter and with exactly one occurrence of `x` fewer; otherwise unchanged |
| `Subscriptions.AppendedDistinct` | Oberserver.py:17-22 | `add` keeps the list free of duplicates, and the observer is registered afterwards |
| `Subscriptions.AppendedPositions` | Oberserver.py:19-22 | adding an unregistered observer puts it last, and every registered observer keeps its position |
| `Subscriptions.AddAllDistinct` | Oberserver.py:19-22 | adding observers that are all different and not yet registered, one after another, leaves the list as the old list followed by exactly those observers in the order they were added; from an empty list, the list is exactly the observers added |
| `Subscriptions.WithoutMembers` | Oberserver.py:27-30 | after `remove(x)` on a duplicate-free list, the remaining observers are exactly the old ones other than `x` |
| `Subscriptions.WithoutDistinct` | Oberserver.py:30 | `remove` cannot introduce a duplicate |
| `Subscriptions.WithoutPositions` | Oberserver.py:30 | removing `x` moves each later observer one place forward and leaves each earlier one in place |
| `Subscriptions.WithoutKeepsOrder` | Oberserver.py:30 | `remove` keeps the relative order of the observers that remain |
| `Subscriptions.AddThenRemove` | Oberserver.py:19-30 | `add(x)` of an unregistered `x` followed by `remove(x)` restores the list exactly |
| `Numerals.Base.Radix` | Oberserver.py:72-77 | each notation's radix is between 2 and 16 |
| `Numerals.DigitChar` | Oberserver.py:72-77 | each digit is written as a lower-case character whose value is the digit |
| `Numerals.Digits` | Oberserver.py:72-77 | the digits of a magnitude, most significant first; `DigitsWellFormed` and `ValueOfDigits` state what they are |
| `Numerals.DigitsWellFormed` | Oberserver.py:72-77 | the digits of `n` are non-empty valid digits of the base, with no leading zero unless `n` is 0 |
| `Numerals.ValueOfDigits` | Oberserver.py:72-77 | the digits written for `n` denote `n` |
| `Numerals.Format` | Oberserver.py:72-77 | a rendering is longer than its prefix, starts with `-` exactly for negative values, and never starts with `+` |
| `Numerals.Parse` | Oberserver.py:62 | in base ten, the string case of `int(...)`: an optional sign and digits; `ParseFormat` shows it inverts `Format`, and `Coerce` uses it for strings |
| `Numerals.ParseUnsignedDigits` | Oberserver.py:72-77 | prefix plus digits of `m` reads back as `m` |
| `Numerals.ParseNonNegative` | Oberserver.py:72-77 | an unsigned rendering reads back as its value |
| `Numerals.ParseNegative` | Oberserver.py:72-77 | a rendering with `-` reads back as the negated value |
| `Numerals.ParseFormat` | Oberserver.py:72-77 | what `bin`, `str` or `hex` writes reads back as the original integer |
| `Numerals.FormatInjective` | Oberserver.py:72-77 | two integers never share a rendering in the same notation |
| `Formatters.Line` | Oberserver.py:72-77 | what a HexFormatter (line 72) or BinaryFormatter (line 77) prints; `LineReadBack` and `LineInjective` state its properties |
| `Formatters.LineReadBack` | Oberserver.py:70-77 | an observer's line is its header (type name, publisher name, notation label) followed by a number that reads back as exactly `data` |
| `Formatters.Describe` | Oberserver.py:50-51 | the text of `__str__`; `DescribeReadBack` and `DefaultFormatter.ToString` state its properties |
| `Formatters.DescribeReadBack` | Oberserver.py:48-51 | the `__str__` text is its fixed summary followed by a number that reads back as exactly `data` |
| `Formatters.LineInjective` | Oberserver.py:70-77 | different values never print the same line for the same observer and publisher |
| `Formatters.DemoHex` | Oberserver.py:90-96 | `hex(3) == "0x3"`, `hex(21) == "0x15"` and `hex(-21) == "-0x15"` |
| `Formatters.DemoBinary` | Oberserver.py:96-108 | `bin(21) == "0b10101"`, `bin(40) == "0b101000"`, `bin(15) == "0b1111"` and `bin(0) == "0b0"` |
| `Formatters.DemoDecimal` | Oberserver.py:50-51 | `str(3) == "3"`, `str(21) == "21"`, `str(40) == "40"` and `str(15) == "15"` |
| `Formatters.DemoSummaries` | Oberserver.py:82-109 | the example's `print(df)` lines end with `0`, `3`, `21`, `40` and `15` |
| `Formatters.DemoLines` | Oberserver.py:88-108 | the example's observer lines end with `0x3`, `0x15`, `0b10101`, `0b101000` and `0b1111` |
| `Coercion.Truncate` | Oberserver.py:62 | `int` of a float rounds toward zero: the result is within 1 of the input, on the zero side |
| `Coercion.InvalidLiteral` | Oberserver.py:62-64 | the `ValueError` message for a rejected string: a string of up to 198 characters is quoted whole; a longer one is cut after its first 199 characters, with no closing quote, so the quoted part never exceeds 200 characters |
| `Coercion.Coerce` | Oberserver.py:61-64 | only a string that is not a decimal numeral fails, with the `invalid literal` message quoting it; integers pass through unchanged, floats are truncated toward zero, and an accepted string gives the value it denotes |
| `Coercion.CoerceDecimalText` | Oberserver.py:62 | `int(str(n)) == n`: every string `str` produces is accepted and gives back the integer |
| `Coercion.DemoCoercions` | Oberserver.py:105-108 | `'hello'` fails with the example's message; `15.8` gives 15, `-15.8` gives -15, and `'-40'` gives -40 |

## Left out

- Printing: output goes to `DefaultFormatter.log`, not to a console. Output is per holder, not process-wide, which is the same for this single-holder example.
- The object address in `Failed to add: <...HexFormatter object at 0x...>`: the event keeps the observer reference instead of its `repr`.
- The `Error: ...` message quotes the string as `'...'`. Python's `repr` picks double quotes when the string contains `'`, and escapes special characters; this is not modelled. The 200-character cut is applied to the quoted string as modelled, so for strings that `repr` would escape it falls at a different place than Python's.
- `int(...)` on strings is simplified. It accepts an optional `+`/`-` followed by ASCII decimal digits. Python also allows surrounding whitespace, `_` between digits and non-ASCII digits.
- Floats are taken as exact real numbers and truncated toward zero. NaN and infinities are not modelled: NaN raises a `ValueError` and infinity raises an `OverflowError`. Binary floating-point rounding is not modelled either.
- Python 3.11 and later refuse to read a decimal string longer than 4300 digits and raise a `ValueError`; `Coercion.Coerce` accepts strings of any length.
- Observer.DefaultFormatter.ToString and Formatters.Describe: on Python 3.11 and later, `str(data)` raises a `ValueError` when `data` has more than 4300 decimal digits. The model always returns the text, for integers of any size. `hex` and `bin` have no such limit.
- Inputs that raise anything other than `ValueError` are out of scope (`None`, for example, raises `TypeError`). Such errors propagate out of the setter uncaught. Booleans are not modelled as a separate input.
- Dynamic dispatch on `o.notify(self)`: an observer is one of two fixed kinds, and `type(self).__name__` is the kind's fixed class name.
- An observer changing `data` or the list during its own notification: the shown observers never do this.
- The `main` driver as a running program: its steps and printed output are covered by the `Demo...` lemmas, not by one method running them in sequence.
- A holder's name is meant as a non-empty label, but the code does not check it, so the model accepts any name.
