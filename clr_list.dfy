/**
 * `List<T>` as the repository layer uses it: `Add` appends, `Remove` deletes the first
 * element equal to its argument (IndexOf, then RemoveAt) and reports whether it found one.
 */
module ClrList {
  import opened ClrInt

  /** `list.Remove(x)` on the contents `s`: the first element equal to `x` is dropped. */
  function RemoveFirst<T(==)>(s: seq<T>, x: T): seq<T>
    decreases |s|
  {
    if s == [] then []
    else if s[0] == x then s[1..]
    else [s[0]] + RemoveFirst(s[1..], x)
  }

  /** Removing an absent element changes nothing. */
  lemma {:induction false} RemoveFirstAbsent<T>(s: seq<T>, x: T)
    requires x !in s
    ensures RemoveFirst(s, x) == s
    decreases |s|
  {
    if s != [] {
      assert s == [s[0]] + s[1..];
      RemoveFirstAbsent(s[1..], x);
    }
  }

  /** When `i` is the first index holding `x`, exactly that element is dropped and the others
      keep their order. */
  lemma {:induction false} RemoveFirstAt<T>(s: seq<T>, x: T, i: nat)
    requires i < |s| && s[i] == x && x !in s[..i]
    ensures RemoveFirst(s, x) == s[..i] + s[i + 1..]
    decreases i
  {
    if i > 0 {
      assert s[0] in s[..i];
      assert s[1..][..i - 1] == s[1..i];
      assert x !in s[1..][..i - 1] by {
        forall k | 0 <= k < i - 1 ensures s[1..][k] != x {
          assert s[1..][k] == s[..i][k + 1];
        }
      }
      RemoveFirstAt(s[1..], x, i - 1);
      assert s[..i] == [s[0]] + s[1..][..i - 1];
      assert s[1..][i..] == s[i + 1..];
    }
  }

  /** Removing a present element shortens the list by one and takes exactly one copy of it
      out of the multiset of elements. */
  lemma {:induction false} RemoveFirstPresent<T>(s: seq<T>, x: T)
    requires x in s
    ensures |RemoveFirst(s, x)| == |s| - 1
    ensures multiset(RemoveFirst(s, x)) == multiset(s) - multiset{x}
    decreases |s|
  {
    assert s == [s[0]] + s[1..];
    if s[0] != x {
      RemoveFirstPresent(s[1..], x);
    }
  }

  /** Appending an element that was absent and then removing it restores the list. */
  lemma AppendThenRemove<T>(s: seq<T>, x: T)
    requires x !in s
    ensures RemoveFirst(s + [x], x) == s
  {
    assert (s + [x])[..|s|] == s;
    RemoveFirstAt(s + [x], x, |s|);
  }

  /** A `List<int>` object. */
  class Int32List {
    var items: seq<Int32>

    constructor(items: seq<Int32>)
      ensures this.items == items
    {
      this.items := items;
    }

    /** `Add(item)`. */
    method Add(item: Int32)
      modifies this
      ensures items == old(items) + [item]
    {
      items := items + [item];
    }

    /** `Remove(item)`: finds the first equal element and removes it. */
    method Remove(item: Int32) returns (removed: bool)
      modifies this
      ensures removed <==> item in old(items)
      ensures items == RemoveFirst(old(items), item)
    {
      var i := 0;
      while i < |items| && items[i] != item
        invariant 0 <= i <= |items|
        invariant item !in items[..i]
      {
        assert items[..i + 1] == items[..i] + [items[i]];
        i := i + 1;
      }
      if i < |items| {
        RemoveFirstAt(items, item, i);
        items := items[..i] + items[i + 1..];
        removed := true;
      } else {
        assert items[..i] == items;
        RemoveFirstAbsent(items, item);
        removed := false;
      }
    }
  }
}
