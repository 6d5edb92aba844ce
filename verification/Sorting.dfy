/** Sorting by a string key, as the library's sort leaves it. */
module Sorting {
  import opened Values
  import Ordering

  predicate InOrder<T>(values: seq<T>, key: T -> Text) {
    forall i, j | 0 <= i < j < |values| :: !Ordering.Less(key(values[j]), key(values[i]))
  }

  predicate KeysIncrease<T>(values: seq<T>, key: T -> Text) {
    forall i, j | 0 <= i < j < |values| :: Ordering.Less(key(values[i]), key(values[j]))
  }

  predicate DistinctKeys<T>(values: seq<T>, key: T -> Text) {
    forall i, j | 0 <= i < j < |values| :: key(values[i]) != key(values[j])
  }

  /** The result of any sort; which of two equal keys comes first is left open. */
  predicate Sorts<T(==)>(ordered: seq<T>, values: seq<T>, key: T -> Text) {
    multiset(ordered) == multiset(values) && InOrder(ordered, key)
  }

  function Inserted<T>(ordered: seq<T>, value: T, key: T -> Text): seq<T> {
    if ordered == [] || !Ordering.Less(key(value), key(ordered[|ordered| - 1])) then ordered + [value]
    else Inserted(ordered[..|ordered| - 1], value, key) + [ordered[|ordered| - 1]]
  }

  function Ordered<T>(values: seq<T>, key: T -> Text): seq<T> {
    if values == [] then [] else Inserted(Ordered(values[..|values| - 1], key), values[|values| - 1], key)
  }

  lemma {:induction false} NotLessIsTransitive(a: Text, b: Text, c: Text)
    requires !Ordering.Less(b, a) && !Ordering.Less(c, b)
    ensures !Ordering.Less(c, a)
  {
    Ordering.LessIsTotal(a, b);
    Ordering.LessIsTotal(b, c);
    Ordering.LessIsTotal(a, c);
    if Ordering.Less(a, b) && Ordering.Less(b, c) {
      Ordering.LessIsTransitive(a, b, c);
    }
  }

  lemma {:induction false} InsertedHolds<T>(ordered: seq<T>, value: T, key: T -> Text)
    ensures multiset(Inserted(ordered, value, key)) == multiset(ordered) + multiset{value}
  {
    if ordered != [] && Ordering.Less(key(value), key(ordered[|ordered| - 1])) {
      InsertedHolds(ordered[..|ordered| - 1], value, key);
      assert ordered == ordered[..|ordered| - 1] + [ordered[|ordered| - 1]];
    }
  }

  lemma {:induction false} InsertedBefore<T>(ordered: seq<T>, value: T, last: T, key: T -> Text, i: nat)
    requires i < |Inserted(ordered, value, key)| && Ordering.Less(key(value), key(last))
    requires forall k | 0 <= k < |ordered| :: !Ordering.Less(key(last), key(ordered[k]))
    ensures !Ordering.Less(key(last), key(Inserted(ordered, value, key)[i]))
  {
    Ordering.LessIsTotal(key(value), key(last));
    InsertedHolds(ordered, value, key);
    assert Inserted(ordered, value, key)[i] in multiset(ordered) + multiset{value};
  }

  lemma {:induction false} InsertedSorts<T>(ordered: seq<T>, value: T, key: T -> Text)
    requires InOrder(ordered, key)
    ensures InOrder(Inserted(ordered, value, key), key)
  {
    var n := |ordered| - 1;
    if ordered == [] {
    } else if !Ordering.Less(key(value), key(ordered[n])) {
      forall i | 0 <= i < n
        ensures !Ordering.Less(key(value), key(ordered[i]))
      {
        NotLessIsTransitive(key(ordered[i]), key(ordered[n]), key(value));
      }
    } else {
      var rest := Inserted(ordered[..n], value, key);
      InsertedSorts(ordered[..n], value, key);
      forall i | 0 <= i < |rest|
        ensures !Ordering.Less(key(ordered[n]), key(rest[i]))
      {
        InsertedBefore(ordered[..n], value, ordered[n], key, i);
      }
    }
  }

  lemma {:induction false} OrderedSorts<T>(values: seq<T>, key: T -> Text)
    ensures Sorts(Ordered(values, key), values, key)
  {
    if values != [] {
      var n := |values| - 1;
      OrderedSorts(values[..n], key);
      InsertedSorts(Ordered(values[..n], key), values[n], key);
      InsertedHolds(Ordered(values[..n], key), values[n], key);
      assert values == values[..n] + [values[n]];
    }
  }

  /** The sort of the library, by insertion. */
  method SortByKey<T(==)>(values: seq<T>, key: T -> Text) returns (ordered: seq<T>)
    ensures Sorts(ordered, values, key)
  {
    ordered := [];
    for i := 0 to |values|
      invariant Sorts(ordered, values[..i], key)
    {
      InsertedSorts(ordered, values[i], key);
      InsertedHolds(ordered, values[i], key);
      ordered := Inserted(ordered, values[i], key);
      assert values[..i + 1] == values[..i] + [values[i]];
    }
    assert values[..|values|] == values;
  }

  lemma {:induction false} DistinctIncrease<T>(values: seq<T>, key: T -> Text)
    requires InOrder(values, key) && DistinctKeys(values, key)
    ensures KeysIncrease(values, key)
  {
    forall i, j | 0 <= i < j < |values|
      ensures Ordering.Less(key(values[i]), key(values[j]))
    {
      Ordering.LessIsTotal(key(values[i]), key(values[j]));
    }
  }

  /** With distinct keys there is only one way to sort. */
  lemma {:induction false} IncreasingIsOne<T>(left: seq<T>, right: seq<T>, key: T -> Text)
    requires KeysIncrease(left, key) && KeysIncrease(right, key) && multiset(left) == multiset(right)
    ensures left == right
  {
    assert |left| == |multiset(left)| == |multiset(right)| == |right|;
    if left != [] {
      var i := IndexIn(right, left[0]);
      var j := IndexIn(left, right[0]);
      Ordering.LessIsTotal(key(left[0]), key(right[0]));
      assert left[0] == right[0];
      assert left == [left[0]] + left[1..] && right == [right[0]] + right[1..];
      assert multiset(left[1..]) == multiset(left) - multiset{left[0]};
      assert multiset(right[1..]) == multiset(right) - multiset{right[0]};
      IncreasingIsOne(left[1..], right[1..], key);
    }
  }

  lemma {:induction false} IndexIn<T>(values: seq<T>, value: T) returns (i: nat)
    requires value in multiset(values)
    ensures i < |values| && values[i] == value
  {
    i :| i < |values| && values[i] == value;
  }

  lemma {:induction false} TwiceIsTwoIndices<T>(values: seq<T>, i: nat, j: nat)
    requires i < j < |values| && values[i] == values[j]
    ensures multiset(values)[values[i]] >= 2
  {
    var before, after := values[..j], values[j..];
    assert values == before + after;
    assert before[i] == values[i] && after[0] == values[j];
    assert values[i] in multiset(before) && values[i] in multiset(after);
  }

  lemma {:induction false} TwoIndices<T>(values: seq<T>, value: T) returns (i: nat, j: nat)
    requires multiset(values)[value] >= 2
    ensures i < j < |values| && values[i] == value && values[j] == value
  {
    j := IndexIn(values, value);
    assert values == values[..j] + [value] + values[j + 1..];
    if value in multiset(values[..j]) {
      i := IndexIn(values[..j], value);
    } else {
      assert value in multiset(values[j + 1..]);
      var k := IndexIn(values[j + 1..], value);
      i, j := j, j + 1 + k;
    }
  }

  lemma {:induction false} DistinctPermutes<T>(left: seq<T>, right: seq<T>, key: T -> Text)
    requires multiset(left) == multiset(right) && DistinctKeys(left, key)
    ensures DistinctKeys(right, key)
  {
    forall i, j | 0 <= i < j < |right|
      ensures key(right[i]) != key(right[j])
    {
      if right[i] == right[j] {
        TwiceIsTwoIndices(right, i, j);
        var k, l := TwoIndices(left, right[i]);
      } else {
        assert right[i] in multiset(right) && right[j] in multiset(right);
        var k := IndexIn(left, right[i]);
        var l := IndexIn(left, right[j]);
      }
    }
  }

  /** Any sort of values with distinct keys gives this one sequence. */
  lemma {:induction false} SortedIsOrdered<T>(ordered: seq<T>, values: seq<T>, key: T -> Text)
    requires Sorts(ordered, values, key) && DistinctKeys(values, key)
    ensures ordered == Ordered(values, key) && KeysIncrease(ordered, key)
  {
    OrderedSorts(values, key);
    DistinctPermutes(values, ordered, key);
    DistinctPermutes(values, Ordered(values, key), key);
    DistinctIncrease(ordered, key);
    DistinctIncrease(Ordered(values, key), key);
    IncreasingIsOne(ordered, Ordered(values, key), key);
  }

  lemma {:induction false} OrderedPermutes<T>(left: seq<T>, right: seq<T>, key: T -> Text)
    requires multiset(left) == multiset(right) && DistinctKeys(left, key)
    ensures Ordered(left, key) == Ordered(right, key)
  {
    OrderedSorts(right, key);
    SortedIsOrdered(Ordered(right, key), left, key);
  }

  /** What is in order already stays as it is. */
  lemma {:induction false} OrderedOfInOrder<T>(values: seq<T>, key: T -> Text)
    requires InOrder(values, key)
    ensures Ordered(values, key) == values
  {
    if values != [] {
      OrderedOfInOrder(values[..|values| - 1], key);
      if |values| > 1 {
        assert !Ordering.Less(key(values[|values| - 1]), key(values[|values| - 2]));
      }
    }
  }

  /** Sorting twice is sorting once. */
  lemma {:induction false} OrderedTwice<T>(values: seq<T>, key: T -> Text)
    ensures Ordered(Ordered(values, key), key) == Ordered(values, key)
  {
    OrderedSorts(values, key);
    OrderedOfInOrder(Ordered(values, key), key);
  }

  function Mapped<A, B>(values: seq<A>, f: A -> B): seq<B> {
    seq(|values|, i requires 0 <= i < |values| => f(values[i]))
  }

  lemma {:induction false} InsertedMapped<A, B>(ordered: seq<A>, value: A, key: A -> Text, f: A -> B)
    ensures multiset(Mapped(Inserted(ordered, value, key), f)) == multiset(Mapped(ordered, f)) + multiset{f(value)}
  {
    if ordered == [] || !Ordering.Less(key(value), key(ordered[|ordered| - 1])) {
      assert Mapped(ordered + [value], f) == Mapped(ordered, f) + [f(value)];
    } else {
      var n := |ordered| - 1;
      InsertedMapped(ordered[..n], value, key, f);
      var rest := Inserted(ordered[..n], value, key);
      assert Mapped(rest + [ordered[n]], f) == Mapped(rest, f) + [f(ordered[n])];
      assert Mapped(ordered, f) == Mapped(ordered[..n], f) + [f(ordered[n])];
    }
  }

  /** Sorting changes the order of what the values are mapped to, nothing else. */
  lemma {:induction false} OrderedMapped<A, B>(values: seq<A>, key: A -> Text, f: A -> B)
    ensures multiset(Mapped(Ordered(values, key), f)) == multiset(Mapped(values, f))
  {
    if values != [] {
      var n := |values| - 1;
      OrderedMapped(values[..n], key, f);
      InsertedMapped(Ordered(values[..n], key), values[n], key, f);
      assert Mapped(values, f) == Mapped(values[..n], f) + [f(values[n])];
    }
  }

  lemma {:induction false} WithoutOne<A, B>(values: seq<A>, f: A -> B, i: nat)
    requires i < |values|
    ensures multiset(Mapped(values, f)) == multiset(Mapped(values[..i] + values[i + 1..], f)) + multiset{f(values[i])}
  {
    var left, right := Mapped(values[..i], f), Mapped(values[i + 1..], f);
    assert Mapped(values, f) == left + [f(values[i])] + right;
    assert Mapped(values[..i] + values[i + 1..], f) == left + right;
  }

  lemma {:induction false} MappedIs<A, B>(values: seq<A>, f: A -> B, value: B) returns (i: nat)
    requires value in multiset(Mapped(values, f))
    ensures i < |values| && f(values[i]) == value
  {
    i := IndexIn(Mapped(values, f), value);
  }

  lemma {:induction false} Cancels<T>(left: multiset<T>, right: multiset<T>, value: T)
    requires left + multiset{value} == right + multiset{value}
    ensures left == right
  {
    forall v: T
      ensures left[v] == right[v]
    {
      assert (left + multiset{value})[v] == (right + multiset{value})[v];
    }
  }

  lemma {:induction false} WithoutBoth<A, B>(left: seq<A>, right: seq<A>, f: A -> B, j: nat)
    requires left != [] && j < |right| && f(left[0]) == f(right[j])
    ensures multiset(Mapped(left, f)) == multiset(Mapped(right, f)) <==>
            multiset(Mapped(left[1..], f)) == multiset(Mapped(right[..j] + right[j + 1..], f))
  {
    var rest := right[..j] + right[j + 1..];
    WithoutOne(left, f, 0);
    WithoutOne(right, f, j);
    assert left[..0] + left[1..] == left[1..];
    if multiset(Mapped(left, f)) == multiset(Mapped(right, f)) {
      Cancels(multiset(Mapped(left[1..], f)), multiset(Mapped(rest, f)), f(left[0]));
    }
  }

  /** Where equal values of f mean equal values of g, the same values of f mean the same values of g,
      whatever their order. */
  lemma {:induction false} MappedFollows<A, B, C>(left: seq<A>, right: seq<A>, f: A -> B, g: A -> C)
    requires multiset(Mapped(left, f)) == multiset(Mapped(right, f))
    requires forall x, y | x in left && y in right :: f(x) == f(y) ==> g(x) == g(y)
    ensures multiset(Mapped(left, g)) == multiset(Mapped(right, g))
  {
    if left != [] {
      assert Mapped(left, f)[0] in multiset(Mapped(right, f));
      var j := MappedIs(right, f, f(left[0]));
      assert left[0] in left && right[j] in right;
      WithoutBoth(left, right, f, j);
      WithoutBoth(left, right, g, j);
      MappedFollows(left[1..], right[..j] + right[j + 1..], f, g);
    } else {
      assert |Mapped(right, f)| == |multiset(Mapped(left, f))| == 0;
    }
  }
}
