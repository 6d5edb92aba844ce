/** Go's order on strings: byte by byte, a prefix before what extends it. */
module Ordering {
  import opened Values

  predicate Less(left: Text, right: Text) {
    right != [] &&
    (left == [] || left[0] < right[0] || (left[0] == right[0] && Less(left[1..], right[1..])))
  }

  lemma {:induction false} LessIsTotal(left: Text, right: Text)
    ensures Less(left, right) || left == right || Less(right, left)
    ensures !(Less(left, right) && (left == right || Less(right, left)))
  {
    if left != [] && right != [] && left[0] == right[0] {
      LessIsTotal(left[1..], right[1..]);
      assert left == [left[0]] + left[1..] && right == [right[0]] + right[1..];
    } else if left == right && left != [] {
      assert false;
    }
  }

  lemma {:induction false} LessIsTransitive(left: Text, middle: Text, right: Text)
    requires Less(left, middle) && Less(middle, right)
    ensures Less(left, right)
  {
    if left != [] && left[0] == middle[0] == right[0] {
      LessIsTransitive(left[1..], middle[1..], right[1..]);
    }
  }

  predicate Smallest(key: Text, keys: set<Text>) {
    key in keys && forall other | other in keys :: other == key || Less(key, other)
  }

  lemma {:induction false} SmallestExists(keys: set<Text>)
    requires keys != {}
    ensures exists key: Text :: Smallest(key, keys)
  {
    var one: Text :| one in keys;
    if keys == {one} {
      assert Smallest(one, keys);
    } else {
      SmallestExists(keys - {one});
      var key: Text :| Smallest(key, keys - {one});
      LessIsTotal(key, one);
      if Less(key, one) {
        assert Smallest(key, keys);
      } else {
        SmallerThanSmallest(one, key, keys);
      }
    }
  }

  lemma {:induction false} SmallerThanSmallest(one: Text, key: Text, keys: set<Text>)
    requires one in keys && Less(one, key) && Smallest(key, keys - {one})
    ensures Smallest(one, keys)
  {
    forall other | other in keys && other != one
      ensures Less(one, other)
    {
      if other != key {
        LessIsTransitive(one, key, other);
      }
    }
  }

  lemma {:induction false} SmallestIsOne(keys: set<Text>, left: Text, right: Text)
    requires Smallest(left, keys) && Smallest(right, keys)
    ensures left == right
  {
    LessIsTotal(left, right);
  }

  function FirstKey(keys: set<Text>): (key: Text)
    requires keys != {}
    ensures Smallest(key, keys)
  {
    SmallestExists(keys);
    assert forall left, right | Smallest(left, keys) && Smallest(right, keys) :: left == right by {
      forall left, right | Smallest(left, keys) && Smallest(right, keys)
        ensures left == right
      {
        SmallestIsOne(keys, left, right);
      }
    }
    var key: Text :| key in keys && Smallest(key, keys);
    key
  }

  /** The keys in ascending order: the same whatever order a map is walked in. */
  function Ascending(keys: set<Text>): (ordered: seq<Text>)
    ensures forall key :: key in ordered <==> key in keys
    ensures |ordered| == |keys|
  {
    if keys == {} then []
    else
      var first := FirstKey(keys);
      [first] + Ascending(keys - {first})
  }

  predicate Increasing(ordered: seq<Text>) {
    forall i, j | 0 <= i < j < |ordered| :: Less(ordered[i], ordered[j])
  }

  lemma {:induction false} AscendingIncreases(keys: set<Text>)
    ensures Increasing(Ascending(keys))
  {
    if keys != {} {
      var first := FirstKey(keys);
      AscendingIncreases(keys - {first});
      var rest := Ascending(keys - {first});
      assert forall i | 0 <= i < |rest| :: rest[i] in keys - {first};
    }
  }

  /** Only one increasing sequence holds a given set of keys, so any sort gives this one. */
  lemma {:induction false} IncreasingIsAscending(ordered: seq<Text>, keys: set<Text>)
    requires Increasing(ordered) && forall key :: key in ordered <==> key in keys
    ensures ordered == Ascending(keys)
  {
    if ordered == [] {
      assert forall key | key in keys :: key in ordered;
      assert keys == {};
    } else {
      var first := ordered[0];
      assert first in keys && FirstKey(keys) in ordered;
      assert Smallest(first, keys);
      SmallestIsOne(keys, first, FirstKey(keys));
      forall key
        ensures key in ordered[1..] <==> key in keys - {first}
      {
        LessIsTotal(first, key);
        if key in keys - {first} {
          assert key in ordered;
        }
      }
      IncreasingIsAscending(ordered[1..], keys - {first});
    }
  }
}
