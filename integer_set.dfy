/**
 * `IntegerSet`: a set of integers kept in an `ArrayList` without duplicates, changed in
 * place by its set operations.
 */
module IntegerSets {
  import opened Wrappers
  import opened Exceptions
  import opened Text

  /** The representation invariant: no value is stored twice. */
  predicate NoDuplicates(s: seq<int>) {
    forall i, j :: 0 <= i < j < |s| ==> s[i] != s[j]
  }

  /** The values a list holds. */
  function Elements(s: seq<int>): set<int> {
    set x | x in s
  }

  /** The values of `s`, in order, that are in `other` (`inOther`) or not in `other` (`!inOther`). */
  function Select(s: seq<int>, other: seq<int>, inOther: bool): (r: seq<int>)
    ensures |r| <= |s|
    ensures forall x :: x in r <==> x in s && (x in other <==> inOther)
  {
    if s == [] then []
    else (if (s[0] in other) == inOther then [s[0]] else []) + Select(s[1..], other, inOther)
  }

  /** Selecting keeps the relative order: it distributes over concatenation. */
  lemma {:induction false} SelectAppend(a: seq<int>, b: seq<int>, other: seq<int>, inOther: bool)
    ensures Select(a + b, other, inOther) == Select(a, other, inOther) + Select(b, other, inOther)
  {
    if a != [] {
      assert (a + b)[1..] == a[1..] + b;
      SelectAppend(a[1..], b, other, inOther);
    } else {
      assert a + b == b;
    }
  }

  /** Selecting from a list without duplicates gives a list without duplicates. */
  lemma {:induction false} SelectNoDuplicates(s: seq<int>, other: seq<int>, inOther: bool)
    requires NoDuplicates(s)
    ensures NoDuplicates(Select(s, other, inOther))
  {
    if s != [] {
      SelectNoDuplicates(s[1..], other, inOther);
    }
  }

  /** The set of the selected values. */
  lemma SelectElements(s: seq<int>, other: seq<int>)
    ensures Elements(Select(s, other, true)) == Elements(s) * Elements(other)
    ensures Elements(Select(s, other, false)) == Elements(s) - Elements(other)
  {
  }

  /** What the `union` loop leaves: `s`, then each value of `other` not already there, in `other`'s order. */
  function UnionOf(s: seq<int>, other: seq<int>): seq<int>
    decreases |other|
  {
    if other == [] then s
    else UnionOf(if other[0] in s then s else s + [other[0]], other[1..])
  }

  /** The tail of a list without duplicates has none and does not hold the head. */
  lemma NoDuplicatesTail(s: seq<int>)
    requires s != [] && NoDuplicates(s)
    ensures NoDuplicates(s[1..]) && s[0] !in s[1..]
  {
    var rest := s[1..];
    forall i, j | 0 <= i < j < |rest| ensures rest[i] != rest[j] {
      assert rest[i] == s[i + 1] && rest[j] == s[j + 1];
    }
    forall j | 0 <= j < |rest| ensures rest[j] != s[0] {
      assert rest[j] == s[j + 1];
    }
  }

  /** The union keeps the old values in front and appends the values of `other` that were missing. */
  lemma {:induction false} UnionAppendsMissing(s: seq<int>, other: seq<int>)
    requires NoDuplicates(other)
    ensures UnionOf(s, other) == s + Select(other, s, false)
    decreases |other|
  {
    if other != [] {
      var x := other[0];
      var rest := other[1..];
      NoDuplicatesTail(other);
      assert Select(other, s, false) == (if x in s then [] else [x]) + Select(rest, s, false);
      if x in s {
        UnionAppendsMissing(s, rest);
        assert UnionOf(s, other) == UnionOf(s, rest);
        assert Select(other, s, false) == Select(rest, s, false);
      } else {
        UnionAppendsMissing(s + [x], rest);
        assert UnionOf(s, other) == UnionOf(s + [x], rest);
        SelectIgnoresAbsent(rest, s, x);
        assert UnionOf(s, other) == (s + [x]) + Select(rest, s, false);
        assert Select(other, s, false) == [x] + Select(rest, s, false);
      }
    }
  }

  /** Adding a value that `s` does not hold to the excluded list does not change the selection. */
  lemma {:induction false} SelectIgnoresAbsent(s: seq<int>, excluded: seq<int>, x: int)
    requires x !in s
    ensures Select(s, excluded + [x], false) == Select(s, excluded, false)
  {
    if s != [] {
      SelectIgnoresAbsent(s[1..], excluded, x);
    }
  }

  /** The union holds exactly the values of both, without duplicates. */
  lemma {:induction false} UnionContents(s: seq<int>, other: seq<int>)
    requires NoDuplicates(s)
    ensures NoDuplicates(UnionOf(s, other))
    ensures Elements(UnionOf(s, other)) == Elements(s) + Elements(other)
    decreases |other|
  {
    if other != [] {
      var s' := if other[0] in s then s else s + [other[0]];
      UnionContents(s', other[1..]);
      assert Elements(other) == {other[0]} + Elements(other[1..]);
    }
  }

  /** Nothing of a list is missing from a list that holds all of it. */
  lemma {:induction false} SelectNoneMissing(s: seq<int>, other: seq<int>)
    requires forall i :: 0 <= i < |s| ==> s[i] in other
    ensures Select(s, other, false) == []
  {
    if s != [] {
      assert s[0] in other;
      SelectNoneMissing(s[1..], other);
    }
  }

  /** Union with itself changes nothing. */
  lemma UnionWithSelf(s: seq<int>)
    requires NoDuplicates(s)
    ensures UnionOf(s, s) == s
  {
    UnionAppendsMissing(s, s);
    SelectNoneMissing(s, s);
  }

  /** `List.remove(Object)`: the first occurrence of `x` is taken out. */
  function RemoveFirst(s: seq<int>, x: int): seq<int> {
    if s == [] then []
    else if s[0] == x then s[1..]
    else [s[0]] + RemoveFirst(s[1..], x)
  }

  /** Removing from a list without duplicates removes the value and nothing else. */
  lemma {:induction false} RemoveFirstElements(s: seq<int>, x: int)
    requires NoDuplicates(s)
    ensures NoDuplicates(RemoveFirst(s, x))
    ensures Elements(RemoveFirst(s, x)) == Elements(s) - {x}
    ensures x !in s ==> RemoveFirst(s, x) == s
  {
    if s != [] {
      RemoveFirstElements(s[1..], x);
      assert Elements(s) == {s[0]} + Elements(s[1..]);
      assert s[0] !in s[1..];
      if s[0] != x {
        var t := RemoveFirst(s[1..], x);
        assert RemoveFirst(s, x) == [s[0]] + t;
        assert s[0] !in Elements(t);
        assert Elements([s[0]] + t) == {s[0]} + Elements(t);
        ConsNoDuplicates(s[0], t);
        if x !in s {
          assert [s[0]] + s[1..] == s;
        }
      }
    }
  }

  lemma ConsNoDuplicates(x: int, t: seq<int>)
    requires x !in t && NoDuplicates(t)
    ensures NoDuplicates([x] + t)
  {
    forall i, j | 0 <= i < j < |t| + 1 ensures ([x] + t)[i] != ([x] + t)[j] {
      if i == 0 {
        assert ([x] + t)[j] == t[j - 1];
      } else {
        assert ([x] + t)[i] == t[i - 1] && ([x] + t)[j] == t[j - 1];
      }
    }
  }

  lemma {:induction false} RemoveFirstAt(s: seq<int>, x: int, i: nat)
    requires i <= |s| && (i < |s| ==> s[i] == x)
    requires forall k :: 0 <= k < i ==> s[k] != x
    ensures i < |s| ==> RemoveFirst(s, x) == s[..i] + s[i + 1..]
    ensures i == |s| ==> RemoveFirst(s, x) == s
  {
    if s != [] && i > 0 {
      RemoveFirstAt(s[1..], x, i - 1);
      assert s[..i] == [s[0]] + s[1..][..i - 1];
      if i < |s| {
        assert s[i + 1..] == s[1..][i..];
      }
    }
  }

  /** A list without duplicates has as many values as entries. */
  lemma {:induction false} DistinctCardinality(s: seq<int>)
    requires NoDuplicates(s)
    ensures |Elements(s)| == |s|
  {
    if s != [] {
      DistinctCardinality(s[1..]);
      assert Elements(s) == {s[0]} + Elements(s[1..]);
      assert s[0] !in s[1..];
    }
  }

  /** `AbstractCollection.toString`: the values in order, separated by ", ", between brackets. */
  function Render(s: seq<int>): (r: string)
    ensures |r| >= 2 && r[0] == '[' && r[|r| - 1] == ']'
    ensures r == "[]" <==> s == []
  {
    "[" + RenderItems(s) + "]"
  }

  function RenderItems(s: seq<int>): (r: string)
    ensures r == [] <==> s == []
  {
    if s == [] then []
    else if |s| == 1 then IntToString(s[0])
    else IntToString(s[0]) + ", " + RenderItems(s[1..])
  }

  /** The argument of `equals(Object)`: null, an `IntegerSet`, or an object of some other class. */
  datatype Object = NullObject | SetObject(integerSet: IntegerSet) | OtherObject {
    function Refs(): set<object> {
      if SetObject? then {integerSet} else {}
    }
  }

  class IntegerSet {
    /** The `ArrayList` behind the set, in insertion order. */
    var elements: seq<int>

    predicate Valid()
      reads this
    {
      NoDuplicates(elements)
    }

    /** The mathematical set this object stands for. */
    ghost function Contents(): set<int>
      reads this
    {
      Elements(elements)
    }

    constructor ()
      ensures Valid() && elements == []
    {
      elements := [];
    }

    /** `clear`: the set becomes empty. */
    method Clear()
      modifies this
      ensures Valid() && elements == []
    {
      elements := [];
    }

    /** `length`: the number of values in the set. */
    function Length(): (n: nat)
      reads this
      ensures n == |elements|
      ensures Valid() ==> n == |Contents()|
    {
      DistinctLength();
      |elements|
    }

    lemma DistinctLength()
      ensures Valid() ==> |elements| == |Contents()|
    {
      if Valid() {
        DistinctCardinality(elements);
      }
    }

    /** `contains(value)`. */
    function Contains(value: int): (b: bool)
      reads this
      ensures b <==> value in Contents()
    {
      value in elements
    }

    /** `isEmpty`: true exactly for the empty set. */
    function IsEmpty(): (b: bool)
      reads this
      ensures b <==> Contents() == {}
      ensures b <==> Length() == 0
    {
      assert elements != [] ==> elements[0] in Contents();
      |elements| == 0
    }

    /**
     * `equals(Object)`: the same object, or another `IntegerSet` of the same length that
     * holds every value of it; never null or an object of another class.
     */
    function Equals(o: Object): (r: bool)
      reads this, o.Refs()
      ensures !o.SetObject? ==> !r
      ensures o == SetObject(this) ==> r
      ensures o.SetObject? && o.integerSet != this ==>
        (r <==> |elements| == |o.integerSet.elements| && forall x :: x in o.integerSet.elements ==> x in elements)
    {
      match o
      case NullObject => false
      case OtherObject => false
      case SetObject(other) =>
        other == this || (|elements| == |other.elements| && forall x :: x in other.elements ==> x in elements)
    }

    /** For sets that keep their invariant, `equals` is equality of the values, in any order. */
    lemma EqualsIsSameValues(other: IntegerSet)
      requires Valid() && other.Valid()
      ensures Equals(SetObject(other)) <==> Contents() == other.Contents()
    {
      DistinctCardinality(elements);
      DistinctCardinality(other.elements);
      if other != this {
        if Contents() == other.Contents() {
          forall x | x in other.elements ensures x in elements {
            assert x in other.Contents();
          }
        }
        if |elements| == |other.elements| && forall x :: x in other.elements ==> x in elements {
          assert other.Contents() <= Contents();
          SubsetOfSameSize(other.Contents(), Contents());
        }
      }
    }

    /** `largest`: the maximum value; an `IllegalStateException` for the empty set. */
    method Largest() returns (r: Result<int, Exception>)
      ensures elements == [] ==> r == Failure(IllegalState("Set is empty"))
      ensures elements != [] ==> r.Success? && r.value in elements && forall x :: x in elements ==> x <= r.value
    {
      if IsEmpty() {
        return Failure(IllegalState("Set is empty"));
      }
      var m := elements[0];
      for i := 1 to |elements|
        invariant m in elements[..i]
        invariant forall k :: 0 <= k < i ==> elements[k] <= m
      {
        if elements[i] > m {
          m := elements[i];
        }
      }
      assert elements[..|elements|] == elements;
      return Success(m);
    }

    /** `smallest`: the minimum value; an `IllegalStateException` for the empty set. */
    method Smallest() returns (r: Result<int, Exception>)
      ensures elements == [] ==> r == Failure(IllegalState("Set is empty"))
      ensures elements != [] ==> r.Success? && r.value in elements && forall x :: x in elements ==> r.value <= x
    {
      if IsEmpty() {
        return Failure(IllegalState("Set is empty"));
      }
      var m := elements[0];
      for i := 1 to |elements|
        invariant m in elements[..i]
        invariant forall k :: 0 <= k < i ==> m <= elements[k]
      {
        if elements[i] < m {
          m := elements[i];
        }
      }
      assert elements[..|elements|] == elements;
      return Success(m);
    }

    /** `add(item)`: appended only when absent, so adding a value twice leaves the length unchanged. */
    method Add(item: int)
      requires Valid()
      modifies this
      ensures Valid()
      ensures elements == if item in old(elements) then old(elements) else old(elements) + [item]
      ensures Contents() == old(Contents()) + {item}
    {
      if !Contains(item) {
        elements := elements + [item];
      }
    }

    /** `remove(item)`: the value is taken out if present; afterwards `contains(item)` is false. */
    method Remove(item: int)
      requires Valid()
      modifies this
      ensures Valid()
      ensures elements == RemoveFirst(old(elements), item)
      ensures Contents() == old(Contents()) - {item}
      ensures !Contains(item)
    {
      var i := 0;
      while i < |elements| && elements[i] != item
        invariant 0 <= i <= |elements|
        invariant forall k :: 0 <= k < i ==> elements[k] != item
      {
        i := i + 1;
      }
      RemoveFirstAt(elements, item, i);
      RemoveFirstElements(elements, item);
      if i < |elements| {
        elements := elements[..i] + elements[i + 1..];
      }
    }

    /** `union(other)`: the loop over `other` appends each value this set lacks. */
    method Union(other: IntegerSet)
      requires Valid() && other.Valid()
      modifies this
      ensures Valid()
      ensures elements == UnionOf(old(elements), old(other.elements))
      ensures elements == old(elements) + Select(old(other.elements), old(elements), false)
      ensures Contents() == old(Contents()) + old(other.Contents())
    {
      var items := other.elements;
      UnionAppendsMissing(elements, items);
      UnionContents(elements, items);
      for i := 0 to |items|
        invariant UnionOf(elements, items[i..]) == UnionOf(old(elements), items)
      {
        assert items[i..][1..] == items[i + 1..];
        if !Contains(items[i]) {
          elements := elements + [items[i]];
        }
      }
    }

    /** `intersect(other)`: `retainAll` keeps, in order, the values also in `other`. */
    method Intersect(other: IntegerSet)
      requires Valid()
      modifies this
      ensures Valid()
      ensures elements == Select(old(elements), old(other.elements), true)
      ensures Contents() == old(Contents()) * old(other.Contents())
    {
      SelectNoDuplicates(elements, other.elements, true);
      SelectElements(elements, other.elements);
      elements := Select(elements, other.elements, true);
    }

    /** `diff(other)`: `removeAll` drops the values found in `other`, keeping the order of the rest. */
    method Diff(other: IntegerSet)
      requires Valid()
      modifies this
      ensures Valid()
      ensures elements == Select(old(elements), old(other.elements), false)
      ensures Contents() == old(Contents()) - old(other.Contents())
    {
      SelectNoDuplicates(elements, other.elements, false);
      SelectElements(elements, other.elements);
      elements := Select(elements, other.elements, false);
    }

    /** `complement(other)`: this set becomes the values of `other` it did not hold, in `other`'s order. */
    method Complement(other: IntegerSet)
      requires other.Valid()
      modifies this
      ensures Valid()
      ensures elements == Select(old(other.elements), old(elements), false)
      ensures Contents() == old(other.Contents()) - old(Contents())
    {
      var items := other.elements;
      var result: seq<int> := [];
      for i := 0 to |items|
        invariant elements == old(elements)
        invariant result == Select(items[..i], elements, false)
      {
        SelectAppend(items[..i], [items[i]], elements, false);
        assert items[..i + 1] == items[..i] + [items[i]];
        if !Contains(items[i]) {
          result := result + [items[i]];
        }
      }
      assert items[..|items|] == items;
      SelectNoDuplicates(items, elements, false);
      SelectElements(items, elements);
      elements := result;
    }

    /** `toString`: the values in insertion order, as `[a, b, c]`; the empty set is `[]`. */
    function ToString(): (s: string)
      reads this
      ensures |s| >= 2 && s[0] == '[' && s[|s| - 1] == ']'
      ensures s == "[]" <==> Contents() == {}
    {
      assert elements != [] ==> elements[0] in Contents();
      Render(elements)
    }
  }

  lemma SubsetOfSameSize(a: set<int>, b: set<int>)
    requires a <= b && |a| == |b|
    ensures a == b
  {
    assert b == a + (b - a);
    assert a * (b - a) == {};
    assert |b - a| == 0;
    assert b - a == {};
  }

  /**
   * The complement `Select(other, s, false)` is empty exactly when every value of `other`
   * is already in `s`; in particular an empty `other` empties the set.
   */
  lemma ComplementEmptyIffContained(other: seq<int>, s: seq<int>)
    ensures Select(other, s, false) == [] <==> forall x :: x in other ==> x in s
  {
    var r := Select(other, s, false);
    if r != [] {
      assert r[0] in r;
      var i :| 0 <= i < |other| && other[i] == r[0];
      assert other[i] !in s;
    } else {
      forall x | x in other
        ensures x in s
      {
        assert x !in r;
      }
    }
  }

  /** The rendering of the values 1, 2, 3 added in that order. */
  lemma RenderExample()
    ensures Render([1, 2, 3]) == "[1, 2, 3]"
  {
    assert [1, 2, 3][1..] == [2, 3] && [2, 3][1..] == [3];
  }
}
