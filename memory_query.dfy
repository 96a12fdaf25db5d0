/**
 * The LINQ queries the in-memory repository runs over its collection: `Where` with the
 * compiled filter, `FirstOrDefault`, the stable `OrderBy`/`OrderByDescending` on an order
 * key, and `Skip`/`Take`.
 */
module MemoryQuery {
  import opened Wrappers
  import opened Entity
  import opened ClrList

  /** `collection.Where(filter)` when `keep` holds, otherwise the elements the filter rejects;
      collection order is kept. */
  function Select(c: seq<Post>, filter: Post -> bool, keep: bool): (r: seq<Post>)
    ensures |r| <= |c|
    ensures forall x :: x in r ==> x in c && filter(x) == keep
    decreases |c|
  {
    if c == [] then []
    else (if filter(c[0]) == keep then [c[0]] else []) + Select(c[1..], filter, keep)
  }

  /** Every element lands on exactly one side of the filter. */
  lemma {:induction false} SelectPartitions(c: seq<Post>, filter: Post -> bool)
    ensures multiset(Select(c, filter, true)) + multiset(Select(c, filter, false)) == multiset(c)
    ensures |Select(c, filter, true)| + |Select(c, filter, false)| == |c|
    decreases |c|
  {
    if c != [] {
      SelectPartitions(c[1..], filter);
      assert c == [c[0]] + c[1..];
    }
  }

  /** With nothing matching, the rejected elements are the whole collection. */
  lemma {:induction false} NothingSelected(c: seq<Post>, filter: Post -> bool)
    requires Select(c, filter, true) == []
    ensures Select(c, filter, false) == c
    decreases |c|
  {
    if c != [] {
      NothingSelected(c[1..], filter);
      assert c == [c[0]] + c[1..];
    }
  }

  /** The index `FirstOrDefault` finds: the first element the filter accepts. */
  function FirstMatch(c: seq<Post>, filter: Post -> bool): (r: Option<nat>)
    ensures r.Some? ==> r.value < |c| && filter(c[r.value])
    ensures r.Some? ==> forall k :: 0 <= k < r.value ==> !filter(c[k])
    ensures r.None? ==> forall k :: 0 <= k < |c| ==> !filter(c[k])
    decreases |c|
  {
    if c == [] then None
    else if filter(c[0]) then Some(0)
    else
      match FirstMatch(c[1..], filter)
      case None => None
      case Some(i) => Some(i + 1)
  }

  /** The first match is the head of `Where`. */
  lemma {:induction false} FirstMatchHeadsSelection(c: seq<Post>, filter: Post -> bool)
    ensures FirstMatch(c, filter).None? <==> Select(c, filter, true) == []
    ensures FirstMatch(c, filter).Some? ==> Select(c, filter, true)[0] == c[FirstMatch(c, filter).value]
    decreases |c|
  {
    if c != [] && !filter(c[0]) {
      FirstMatchHeadsSelection(c[1..], filter);
    }
  }

  /** `Collection.Remove(entity)` for the first match removes exactly that position: no
      earlier element equals it, since each earlier one fails the filter. */
  lemma RemoveFirstMatch(c: seq<Post>, filter: Post -> bool)
    requires FirstMatch(c, filter).Some?
    ensures var i := FirstMatch(c, filter).value;
            RemoveFirst(c, c[i]) == c[..i] + c[i + 1..]
  {
    var i := FirstMatch(c, filter).value;
    assert c[i] !in c[..i] by {
      forall k | 0 <= k < i ensures c[..i][k] != c[i] {
        assert !filter(c[k]);
      }
    }
    RemoveFirstAt(c, c[i], i);
  }

  /** Removing the head of `Where` shortens the matches by one and leaves the rest alone. */
  lemma {:induction false} RemoveSelectedHead(c: seq<Post>, filter: Post -> bool)
    requires Select(c, filter, true) != []
    ensures Select(RemoveFirst(c, Select(c, filter, true)[0]), filter, true) == Select(c, filter, true)[1..]
    ensures Select(RemoveFirst(c, Select(c, filter, true)[0]), filter, false) == Select(c, filter, false)
    decreases |c|
  {
    var m := Select(c, filter, true)[0];
    if filter(c[0]) {
      assert m == c[0];
    } else {
      assert Select(c, filter, true) == Select(c[1..], filter, true);
      assert m in Select(c, filter, true);
      assert m != c[0];
      RemoveSelectedHead(c[1..], filter);
      assert RemoveFirst(c, m) == [c[0]] + RemoveFirst(c[1..], m);
      assert ([c[0]] + RemoveFirst(c[1..], m))[1..] == RemoveFirst(c[1..], m);
    }
  }

  /** `Enumerable.Skip(n)`: nothing is skipped for n <= 0. */
  function Skip(s: seq<Post>, n: int): (r: seq<Post>)
    ensures n <= 0 ==> r == s
    ensures 0 < n < |s| ==> r == s[n..]
    ensures n >= |s| ==> r == []
  {
    if n <= 0 then s else if n >= |s| then [] else s[n..]
  }

  /** `Enumerable.Take(n)`: nothing is taken for n <= 0. */
  function Take(s: seq<Post>, n: int): (r: seq<Post>)
    ensures n <= 0 ==> r == []
    ensures 0 < n < |s| ==> r == s[..n]
    ensures n >= |s| ==> r == s
  {
    if n <= 0 then [] else if n >= |s| then s else s[..n]
  }

  /** A page is a contiguous run of the query, at most `take` long. */
  lemma PageIsWindow(s: seq<Post>, skip: int, take: int)
    ensures |Take(Skip(s, skip), take)| <= if take < 0 then 0 else take
    ensures var start := if skip < 0 then 0 else if skip > |s| then |s| else skip;
            exists end :: start <= end <= |s| && Take(Skip(s, skip), take) == s[start..end]
  {
    var start := if skip < 0 then 0 else if skip > |s| then |s| else skip;
    var rest := Skip(s, skip);
    assert rest == s[start..];
    if take <= 0 {
      assert Take(rest, take) == s[start..start];
    } else if take >= |rest| {
      assert Take(rest, take) == s[start..|s|];
    } else {
      assert Take(rest, take) == s[start..start + take];
    }
  }

  /** With the order key, `a` may come before `b`: ascending by key, or descending. */
  predicate InOrder(a: Post, b: Post, key: Post -> int, descending: bool)
  {
    if descending then key(a) >= key(b) else key(a) <= key(b)
  }

  predicate Sorted(s: seq<Post>, key: Post -> int, descending: bool)
  {
    forall i, j :: 0 <= i < j < |s| ==> InOrder(s[i], s[j], key, descending)
  }

  /** Puts `x` before the first element it may precede. */
  function InsertByKey(x: Post, s: seq<Post>, key: Post -> int, descending: bool): seq<Post>
    decreases |s|
  {
    if s == [] then [x]
    else if InOrder(x, s[0], key, descending) then [x] + s
    else [s[0]] + InsertByKey(x, s[1..], key, descending)
  }

  /** `OrderBy(key)` / `OrderByDescending(key)`: LINQ's sort, which is stable. */
  function SortByKey(s: seq<Post>, key: Post -> int, descending: bool): seq<Post>
    decreases |s|
  {
    if s == [] then [] else InsertByKey(s[0], SortByKey(s[1..], key, descending), key, descending)
  }

  /** The elements whose key is `v`, in order. */
  function WithKey(s: seq<Post>, key: Post -> int, v: int): seq<Post>
    decreases |s|
  {
    if s == [] then [] else (if key(s[0]) == v then [s[0]] else []) + WithKey(s[1..], key, v)
  }

  lemma {:induction false} InsertByKeyKeepsElements(x: Post, s: seq<Post>, key: Post -> int, descending: bool)
    ensures multiset(InsertByKey(x, s, key, descending)) == multiset(s) + multiset{x}
    decreases |s|
  {
    if s != [] && !InOrder(x, s[0], key, descending) {
      InsertByKeyKeepsElements(x, s[1..], key, descending);
      assert s == [s[0]] + s[1..];
    }
  }

  /** When `x` goes after the head of a sorted `s`, the head may precede everything the
      insertion into the tail produces. */
  lemma HeadPrecedesInsertion(x: Post, s: seq<Post>, key: Post -> int, descending: bool)
    requires Sorted(s, key, descending) && s != [] && !InOrder(x, s[0], key, descending)
    ensures forall j :: 0 <= j < |InsertByKey(x, s[1..], key, descending)| ==>
              InOrder(s[0], InsertByKey(x, s[1..], key, descending)[j], key, descending)
  {
    var rest := InsertByKey(x, s[1..], key, descending);
    InsertByKeyKeepsElements(x, s[1..], key, descending);
    forall j | 0 <= j < |rest| ensures InOrder(s[0], rest[j], key, descending) {
      assert rest[j] in multiset(rest);
      if rest[j] != x {
        assert rest[j] in multiset(s[1..]);
        var k :| 0 <= k < |s[1..]| && s[1..][k] == rest[j];
        assert InOrder(s[0], s[k + 1], key, descending);
      }
    }
  }

  lemma {:induction false} InsertByKeyKeepsSorted(x: Post, s: seq<Post>, key: Post -> int, descending: bool)
    requires Sorted(s, key, descending)
    ensures Sorted(InsertByKey(x, s, key, descending), key, descending)
    decreases |s|
  {
    if s == [] {
    } else if InOrder(x, s[0], key, descending) {
      var r := [x] + s;
      forall i, j | 0 <= i < j < |r| ensures InOrder(r[i], r[j], key, descending) {
        if i == 0 && j > 1 {
          assert InOrder(s[0], s[j - 1], key, descending);
        }
      }
    } else {
      var rest := InsertByKey(x, s[1..], key, descending);
      InsertByKeyKeepsSorted(x, s[1..], key, descending);
      HeadPrecedesInsertion(x, s, key, descending);
      var r := [s[0]] + rest;
      forall i, j | 0 <= i < j < |r| ensures InOrder(r[i], r[j], key, descending) {
        if i == 0 {
          assert r[j] == rest[j - 1];
        } else {
          assert r[i] == rest[i - 1] && r[j] == rest[j - 1];
        }
      }
    }
  }

  lemma {:induction false} InsertByKeyKeepsTies(x: Post, s: seq<Post>, key: Post -> int, descending: bool, v: int)
    ensures WithKey(InsertByKey(x, s, key, descending), key, v)
              == (if key(x) == v then [x] else []) + WithKey(s, key, v)
    decreases |s|
  {
    if s == [] {
      assert [x][1..] == [];
    } else if InOrder(x, s[0], key, descending) {
      assert ([x] + s)[1..] == s;
    } else {
      var rest := InsertByKey(x, s[1..], key, descending);
      InsertByKeyKeepsTies(x, s[1..], key, descending, v);
      assert ([s[0]] + rest)[1..] == rest;
      if key(s[0]) == v {
        assert key(x) != v;
      }
    }
  }

  /** The sort orders the matches by key, loses and adds none, and keeps the collection order
      of elements with equal keys. */
  lemma {:induction false} SortByKeyIsStableSort(s: seq<Post>, key: Post -> int, descending: bool)
    ensures Sorted(SortByKey(s, key, descending), key, descending)
    ensures multiset(SortByKey(s, key, descending)) == multiset(s)
    ensures forall v :: WithKey(SortByKey(s, key, descending), key, v) == WithKey(s, key, v)
    decreases |s|
  {
    if s != [] {
      var sorted := SortByKey(s[1..], key, descending);
      SortByKeyIsStableSort(s[1..], key, descending);
      InsertByKeyKeepsSorted(s[0], sorted, key, descending);
      InsertByKeyKeepsElements(s[0], sorted, key, descending);
      assert s == [s[0]] + s[1..];
      forall v ensures WithKey(SortByKey(s, key, descending), key, v) == WithKey(s, key, v) {
        InsertByKeyKeepsTies(s[0], sorted, key, descending, v);
      }
    }
  }

  /** The matches in query order: sorted only when an order key is given. */
  function Ordered(matches: seq<Post>, descending: bool, orderKey: Option<Post -> int>): seq<Post>
  {
    if orderKey.Some? then SortByKey(matches, orderKey.value, descending) else matches
  }
}
