/**
 The publisher and its observers. `DefaultFormatter` holds a name, an
 integer and the ordered list of registered observers; it carries the
 `add`, `remove` and `notify` operations of the `Publisher` base class
 (there is no other publisher). What the example prints is appended to
 `log`, in printing order.
 */
module Observer {
  import opened Numerals
  import opened Formatters
  import opened Coercion
  import opened Subscriptions

  /** A HexFormatter or BinaryFormatter object; two observers are the same when they are the same object. */
  class Formatter {
    const kind: Kind

    constructor (kind: Kind)
      ensures this.kind == kind
    {
      this.kind := kind;
    }
  }

  /** One printed line. */
  datatype Event =
    | Notified(observer: Formatter, line: string)  // what an observer prints when notified
    | FailedAdd(observer: Formatter)               // "Failed to add: ..."
    | FailedRemove(observer: Formatter)            // "Failed to remove: ..."
    | Error(message: string)                       // "Error: ..." from a rejected setter input

  /** What one `notify` pass prints: one line per registered observer, in list order. */
  function Broadcast(observers: seq<Formatter>, name: string, data: int): seq<Event>
  {
    if observers == [] then []
    else [Notified(observers[0], Line(observers[0].kind, name, data))] + Broadcast(observers[1..], name, data)
  }

  /** The `i`-th line of a broadcast comes from the `i`-th registered observer, reporting `data`. */
  lemma {:induction false} BroadcastAt(observers: seq<Formatter>, name: string, data: int)
    ensures |Broadcast(observers, name, data)| == |observers|
    ensures forall i :: 0 <= i < |observers| ==>
      Broadcast(observers, name, data)[i] == Notified(observers[i], Line(observers[i].kind, name, data))
  {
    if observers != [] {
      BroadcastAt(observers[1..], name, data);
    }
  }

  /** Notifying a list in two parts prints what notifying the whole list prints. */
  lemma {:induction false} BroadcastAppend(a: seq<Formatter>, b: seq<Formatter>, name: string, data: int)
    ensures Broadcast(a + b, name, data) == Broadcast(a, name, data) + Broadcast(b, name, data)
  {
    if a == [] {
      assert a + b == b;
    } else {
      assert (a + b)[0] == a[0] && (a + b)[1..] == a[1..] + b;
      BroadcastAppend(a[1..], b, name, data);
    }
  }

  /** Notifying one more observer prints one more line, at the end. */
  lemma BroadcastSnoc(observers: seq<Formatter>, o: Formatter, name: string, data: int)
    ensures Broadcast(observers + [o], name, data) ==
      Broadcast(observers, name, data) + [Notified(o, Line(o.kind, name, data))]
  {
    BroadcastAppend(observers, [o], name, data);
    assert Broadcast([o], name, data) == [Notified(o, Line(o.kind, name, data))];
  }

  /** Whether `e` is a line printed by the observer `o` when notified. */
  predicate IsNotificationOf(e: Event, o: Formatter)
  {
    e.Notified? && e.observer == o
  }

  /**
   With no duplicates registered, every registered observer is notified
   exactly once, at its position in the list, and an observer that is not
   registered is not notified at all.
   */
  lemma NotifiedOnce(observers: seq<Formatter>, name: string, data: int, o: Formatter)
    requires Distinct(observers)
    ensures |Broadcast(observers, name, data)| == |observers|
    ensures forall i :: 0 <= i < |Broadcast(observers, name, data)| ==>
      (IsNotificationOf(Broadcast(observers, name, data)[i], o) <==> o in observers && i == IndexOf(observers, o))
  {
    BroadcastAt(observers, name, data);
    forall i | 0 <= i < |observers| && observers[i] == o
      ensures i == IndexOf(observers, o)
    {
      DistinctIndexOf(observers, i);
    }
  }

  /**
   The example's round trip: after `add(o)` of an unregistered `o` and then
   `remove(o)`, a broadcast prints exactly what it printed before and
   does not reach `o`.
   */
  lemma AddRemoveNotNotified(observers: seq<Formatter>, name: string, data: int, o: Formatter)
    requires Distinct(observers) && o !in observers
    ensures Broadcast(Without(Appended(observers, o), o), name, data) == Broadcast(observers, name, data)
    ensures forall e :: e in Broadcast(observers, name, data) ==> !IsNotificationOf(e, o)
  {
    AddThenRemove(observers, o);
    BroadcastAt(observers, name, data);
  }

  /** A value holder that notifies its observers whenever its data changes. */
  class DefaultFormatter {
    var observers: seq<Formatter>
    const name: string
    var data: int
    var log: seq<Event>

    /** The observer list never holds the same observer twice. */
    ghost predicate Valid()
      reads this
    {
      Distinct(observers)
    }

    constructor (name: string)
      ensures Valid()
      ensures observers == [] && this.name == name && data == 0 && log == []
    {
      this.name := name;
      observers := [];
      data := 0;
      log := [];
    }

    /** `str(self)`: names the holder and gives its data in decimal, from which it can be read back. */
    function ToString(): (text: string)
      reads this
      ensures |Summary(name)| < |text| && text[..|Summary(name)|] == Summary(name)
      ensures text[|Summary(name)|..] == Format(data, Decimal)
      ensures Parse(text[|Summary(name)|..], Decimal) == Some(data)
    {
      DescribeReadBack(name, data);
      assert (Summary(name) + Format(data, Decimal))[|Summary(name)|..] == Format(data, Decimal);
      Describe(name, data)
    }

    /** `add`: registers `o` at the end, or reports it as already registered and changes nothing. */
    method Add(o: Formatter)
      requires Valid()
      modifies this`observers, this`log
      ensures Valid()
      ensures observers == Appended(old(observers), o)
      ensures log == if o in old(observers) then old(log) + [FailedAdd(o)] else old(log)
    {
      AppendedDistinct(observers, o);
      if o !in observers {
        observers := observers + [o];
      } else {
        log := log + [FailedAdd(o)];
      }
    }

    /** `remove`: unregisters `o`, or reports it as not registered and changes nothing. */
    method Remove(o: Formatter)
      requires Valid()
      modifies this`observers, this`log
      ensures Valid()
      ensures observers == Without(old(observers), o)
      ensures o !in observers
      ensures log == if o in old(observers) then old(log) else old(log) + [FailedRemove(o)]
    {
      WithoutDistinct(observers, o);
      WithoutMembers(observers, o, o);
      if o in observers {
        var i := IndexOf(observers, o);
        observers := observers[..i] + observers[i + 1..];
      } else {
        log := log + [FailedRemove(o)];
      }
    }

    /** `notify`: each registered observer, in list order, prints its line for the current data. */
    method Notify()
      modifies this`log
      ensures log == old(log) + Broadcast(observers, name, data)
    {
      var i := 0;
      while i < |observers|
        invariant 0 <= i <= |observers|
        invariant log == old(log) + Broadcast(observers[..i], name, data)
      {
        var o := observers[i];
        BroadcastSnoc(observers[..i], o, name, data);
        assert observers[..i + 1] == observers[..i] + [o];
        log := log + [Notified(o, Line(o.kind, name, data))];
        i := i + 1;
      }
      assert observers[..i] == observers;
    }

    /**
     The `data` setter: on a successful coercion the value is stored and then
     broadcast once; on a `ValueError` the error is reported, the value is
     kept and nobody is notified.
     */
    method SetData(input: Input)
      modifies this`data, this`log
      ensures match Coerce(input)
        case Ok(v) => data == v && log == old(log) + Broadcast(observers, name, v)
        case Err(message) => data == old(data) && log == old(log) + [Error(message)]
    {
      match Coerce(input)
      case Ok(v) =>
        data := v;
        Notify();
      case Err(message) =>
        log := log + [Error(message)];
    }
  }

  /**
   Line 105 of the example: `'hello'` is rejected while the holder has 40,
   so the error is printed, the data stays 40 and nobody is notified.
   */
  method DemoRejectedText(df: DefaultFormatter)
    requires df.data == 40
    modifies df`data, df`log
    ensures df.data == 40
    ensures df.log == old(df.log) + [Error("invalid literal for int() with base 10: 'hello'")]
  {
    DemoCoercions();
    df.SetData(TextInput("hello"));
  }

  /** What each `notify` pass of the example run prints. */
  lemma DemoBroadcasts(hf: Formatter, bf: Formatter)
    requires hf.kind == HexFormatter && bf.kind == BinaryFormatter
    ensures var hex, bin := Header(HexFormatter, "test1"), Header(BinaryFormatter, "test1");
      && Broadcast([hf], "test1", 3) == [Notified(hf, hex + "0x3")]
      && Broadcast([hf, bf], "test1", 21) == [Notified(hf, hex + "0x15"), Notified(bf, bin + "0b10101")]
      && Broadcast([bf], "test1", 40) == [Notified(bf, bin + "0b101000")]
      && Broadcast([bf], "test1", 15) == [Notified(bf, bin + "0b1111")]
  {
    DemoLines();
    assert [hf] + [bf] == [hf, bf];
    BroadcastSnoc([hf], bf, "test1", 21);
  }

  /**
   The observer list through the example run: add H, add B, remove H,
   remove H again (reported), add B again (reported).
   */
  lemma DemoSubscriptions(hf: Formatter, bf: Formatter)
    requires hf != bf
    ensures Appended([], hf) == [hf]
    ensures Appended([hf], bf) == [hf, bf]
    ensures Without([hf, bf], hf) == [bf]
    ensures hf !in [bf] && Without([bf], hf) == [bf]
    ensures bf in [bf] && Appended([bf], bf) == [bf]
  {
    assert IndexOf([hf, bf], hf) == 0;
    assert [hf, bf][1..] == [bf];
  }
}
