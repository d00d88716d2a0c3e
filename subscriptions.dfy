/**
 The publisher's observer list as a value: what `add` (append when absent)
 and `remove` (Python's `list.remove`, which drops the first equal element)
 do to it, and the properties the example relies on: no duplicates, order
 kept, and adding then removing an observer restores the list.
 */
module Subscriptions {

  /** No element occurs twice. */
  predicate Distinct<T(==)>(s: seq<T>)
  {
    forall i, j :: 0 <= i < j < |s| ==> s[i] != s[j]
  }

  /** The position of the first occurrence of `x`, as `list.index` finds it. */
  function IndexOf<T(==)>(s: seq<T>, x: T): (i: nat)
    requires x in s
    ensures i < |s| && s[i] == x
    ensures x !in s[..i]
  {
    if s[0] == x then 0
    else
      var j := IndexOf(s[1..], x);
      assert s[..j + 1] == [s[0]] + s[1..][..j];
      j + 1
  }

  /** The list after `add(x)`: appended when absent, unchanged otherwise. */
  function Appended<T(==)>(s: seq<T>, x: T): (r: seq<T>)
    ensures s <= r && x in r
    ensures forall i :: |s| <= i < |r| ==> r[i] == x
  {
    if x in s then s else s + [x]
  }

  /** The list after `remove(x)`: the first occurrence dropped when present, unchanged otherwise. */
  function Without<T(==)>(s: seq<T>, x: T): (r: seq<T>)
    ensures x in s ==> |r| == |s| - 1 && multiset(r) + multiset{x} == multiset(s)
    ensures x !in s ==> r == s
  {
    if x in s then
      var i := IndexOf(s, x);
      assert s == s[..i] + [x] + s[i + 1..];
      s[..i] + s[i + 1..]
    else s
  }

  /** In a list without duplicates, the element at `j` is found at `j`. */
  lemma DistinctIndexOf<T>(s: seq<T>, j: nat)
    requires Distinct(s) && j < |s|
    ensures IndexOf(s, s[j]) == j
  {
  }

  /** `add` keeps the list free of duplicates and always leaves `x` registered. */
  lemma AppendedDistinct<T>(s: seq<T>, x: T)
    requires Distinct(s)
    ensures Distinct(Appended(s, x)) && x in Appended(s, x)
  {
  }

  /**
   Adding an absent observer puts it last; every observer already
   registered keeps its position.
   */
  lemma {:induction false} AppendedPositions<T>(s: seq<T>, x: T, y: T)
    requires x !in s
    ensures IndexOf(Appended(s, x), x) == |s|
    ensures y in s ==> IndexOf(Appended(s, x), y) == IndexOf(s, y)
  {
    var t := s + [x];
    assert t[..|s|] == s;
    if y in s {
      var i := IndexOf(s, y);
      assert t[i] == y;
      assert t[..i] == s[..i];
    }
  }

  /** The list after `add(x)` for each `x` of `xs` in turn. */
  function AddAll<T(==)>(s: seq<T>, xs: seq<T>): seq<T>
    decreases |xs|
  {
    if xs == [] then s else AddAll(Appended(s, xs[0]), xs[1..])
  }

  /**
   Adding observers that are all different, and not yet registered, leaves
   exactly those observers registered after the old ones, in the order they
   were added.
   */
  lemma {:induction false} AddAllDistinct<T>(s: seq<T>, xs: seq<T>)
    requires Distinct(s + xs)
    ensures AddAll(s, xs) == s + xs
    decreases |xs|
  {
    if xs != [] {
      var t := s + xs;
      assert xs[0] == t[|s|];
      assert xs[0] !in s by {
        forall k | 0 <= k < |s|
          ensures s[k] != xs[0]
        {
          assert s[k] == t[k];
        }
      }
      assert Appended(s, xs[0]) == s + [xs[0]];
      assert (s + [xs[0]]) + xs[1..] == t;
      AddAllDistinct(s + [xs[0]], xs[1..]);
    }
  }

  /** After `remove(x)` on a list without duplicates, exactly the other observers remain. */
  lemma WithoutMembers<T>(s: seq<T>, x: T, y: T)
    requires Distinct(s)
    ensures y in Without(s, x) <==> y in s && y != x
  {
    if x in s {
      var i := IndexOf(s, x);
      var w := s[..i] + s[i + 1..];
      if y in w {
        var k :| 0 <= k < |w| && w[k] == y;
        if k < i {
          assert w[k] == s[k];
          assert k != i;
        } else {
          assert w[k] == s[k + 1];
          assert k + 1 != i;
        }
      }
      if y in s && y != x {
        var j := IndexOf(s, y);
        if j < i {
          assert w[j] == y;
        } else {
          assert j != i;
          assert w[j - 1] == y;
        }
      }
    }
  }

  /** `remove` cannot introduce a duplicate. */
  lemma WithoutDistinct<T>(s: seq<T>, x: T)
    requires Distinct(s)
    ensures Distinct(Without(s, x))
  {
    if x in s {
      var i := IndexOf(s, x);
      var w := s[..i] + s[i + 1..];
      forall a, b | 0 <= a < b < |w|
        ensures w[a] != w[b]
      {
        var a' := if a < i then a else a + 1;
        var b' := if b < i then b else b + 1;
        assert w[a] == s[a'] && w[b] == s[b'] && a' < b';
      }
    }
  }

  /**
   Removing `x` from a list without duplicates shifts every observer that
   came after it one place forward and leaves the earlier ones in place.
   */
  lemma WithoutPositions<T>(s: seq<T>, x: T, y: T)
    requires Distinct(s) && x in s && y in s && y != x
    ensures y in Without(s, x)
    ensures IndexOf(Without(s, x), y) ==
      if IndexOf(s, y) < IndexOf(s, x) then IndexOf(s, y) else IndexOf(s, y) - 1
  {
    var i, j := IndexOf(s, x), IndexOf(s, y);
    var w := Without(s, x);
    WithoutDistinct(s, x);
    if j < i {
      assert w[j] == y;
      DistinctIndexOf(w, j);
    } else {
      assert w[j - 1] == y;
      DistinctIndexOf(w, j - 1);
    }
  }

  /** `remove` keeps the relative order of the observers that remain. */
  lemma WithoutKeepsOrder<T>(s: seq<T>, x: T, y: T, z: T)
    requires Distinct(s) && x in s && y in s && z in s && y != x && z != x
    ensures y in Without(s, x) && z in Without(s, x)
    ensures IndexOf(Without(s, x), y) < IndexOf(Without(s, x), z) <==> IndexOf(s, y) < IndexOf(s, z)
  {
    WithoutPositions(s, x, y);
    WithoutPositions(s, x, z);
  }

  /** `add(x)` of an absent observer followed by `remove(x)` restores the list exactly. */
  lemma {:induction false} AddThenRemove<T>(s: seq<T>, x: T)
    requires x !in s
    ensures Without(Appended(s, x), x) == s
  {
    AppendedPositions(s, x, x);
    var t := s + [x];
    assert t[..|s|] == s && t[|s| + 1..] == [];
  }
}
