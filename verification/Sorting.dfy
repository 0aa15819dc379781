/**
 Stable sorting by an integer key, the model of Python's `list.sort(key=...)`.

 A stable sort is pinned down by two facts: the result is ordered, and for every
 key the elements that carry it come out in the order in which they went in.
 `SortIsUnique` proves that these two facts leave exactly one result.
 */
module Sorting {
  import opened Sequences

  ghost predicate SortedBy<T(!new)>(s: seq<T>, key: T -> int) {
    forall i, j :: 0 <= i < j < |s| ==> key(s[i]) <= key(s[j])
  }

  /** The elements of `s` whose key is `k`, in their order in `s`. */
  function WithKey<T>(s: seq<T>, key: T -> int, k: int): seq<T> {
    if s == [] then []
    else if key(s[0]) == k then [s[0]] + WithKey(s[1..], key, k)
    else WithKey(s[1..], key, k)
  }

  ghost predicate SameByKey<T(!new)>(a: seq<T>, b: seq<T>, key: T -> int) {
    forall k :: WithKey(a, key, k) == WithKey(b, key, k)
  }

  /** How many elements of `s` have a key above `k`. */
  function CountAbove<T>(s: seq<T>, key: T -> int, k: int): nat {
    if s == [] then 0
    else (if key(s[0]) > k then 1 else 0) + CountAbove(s[1..], key, k)
  }

  /** Puts `x` in front of the first element whose key is not smaller. */
  function Insert<T>(x: T, s: seq<T>, key: T -> int): (r: seq<T>)
    ensures |r| == |s| + 1
    ensures multiset(r) == multiset(s) + multiset{x}
  {
    if s == [] || key(x) <= key(s[0]) then [x] + s
    else
      assert s == [s[0]] + s[1..];
      [s[0]] + Insert(x, s[1..], key)
  }

  function Sort<T>(s: seq<T>, key: T -> int): (r: seq<T>)
    ensures |r| == |s|
    ensures multiset(r) == multiset(s)
  {
    if s == [] then []
    else
      assert s == [s[0]] + s[1..];
      Insert(s[0], Sort(s[1..], key), key)
  }

  lemma {:induction false} WithKeyConcat<T>(a: seq<T>, b: seq<T>, key: T -> int, k: int)
    ensures WithKey(a + b, key, k) == WithKey(a, key, k) + WithKey(b, key, k)
  {
    if a == [] {
      assert a + b == b;
    } else {
      assert (a + b)[0] == a[0] && (a + b)[1..] == a[1..] + b;
      WithKeyConcat(a[1..], b, key, k);
      ConcatAssociative([a[0]], WithKey(a[1..], key, k), WithKey(b, key, k));
    }
  }

  lemma {:induction false} CountAboveConcat<T>(a: seq<T>, b: seq<T>, key: T -> int, k: int)
    ensures CountAbove(a + b, key, k) == CountAbove(a, key, k) + CountAbove(b, key, k)
  {
    if a == [] {
      assert a + b == b;
    } else {
      assert (a + b)[1..] == a[1..] + b;
      CountAboveConcat(a[1..], b, key, k);
    }
  }

  lemma {:induction false} CountAboveBounds<T>(s: seq<T>, key: T -> int, k: int)
    ensures CountAbove(s, key, k) <= |s|
    ensures (forall i :: 0 <= i < |s| ==> key(s[i]) > k) ==> CountAbove(s, key, k) == |s|
    ensures (forall i :: 0 <= i < |s| ==> key(s[i]) <= k) ==> CountAbove(s, key, k) == 0
  {
    if s != [] {
      CountAboveBounds(s[1..], key, k);
    }
  }

  lemma {:induction false} CountAboveMember<T>(s: seq<T>, i: nat, key: T -> int, k: int)
    requires i < |s|
    ensures key(s[i]) > k ==> CountAbove(s, key, k) >= 1
  {
    if i > 0 {
      CountAboveMember(s[1..], i - 1, key, k);
    }
  }

  lemma {:induction false} InsertMembers<T>(x: T, s: seq<T>, key: T -> int, j: nat)
    requires j < |Insert(x, s, key)|
    ensures Insert(x, s, key)[j] == x || Insert(x, s, key)[j] in s
  {
    assert Insert(x, s, key)[j] in multiset(Insert(x, s, key));
  }

  lemma {:induction false} InsertSorted<T(!new)>(x: T, s: seq<T>, key: T -> int)
    requires SortedBy(s, key)
    ensures SortedBy(Insert(x, s, key), key)
  {
    if s != [] && key(x) > key(s[0]) {
      InsertSorted(x, s[1..], key);
      forall j | 0 <= j < |s|
        ensures key(s[0]) <= key(Insert(x, s[1..], key)[j])
      {
        InsertMembers(x, s[1..], key, j);
      }
    }
  }

  lemma {:induction false} WithKeyFirst<T>(x: T, s: seq<T>, key: T -> int, k: int)
    ensures WithKey([x] + s, key, k) == if key(x) == k then [x] + WithKey(s, key, k) else WithKey(s, key, k)
  {
    assert ([x] + s)[1..] == s;
  }

  lemma {:induction false} InsertByKey<T>(x: T, s: seq<T>, key: T -> int, k: int)
    ensures WithKey(Insert(x, s, key), key, k)
         == if key(x) == k then [x] + WithKey(s, key, k) else WithKey(s, key, k)
  {
    if s == [] || key(x) <= key(s[0]) {
      WithKeyFirst(x, s, key, k);
    } else {
      InsertByKey(x, s[1..], key, k);
      WithKeyFirst(s[0], Insert(x, s[1..], key), key, k);
    }
  }

  lemma {:induction false} InsertCount<T>(x: T, s: seq<T>, key: T -> int, k: int)
    ensures CountAbove(Insert(x, s, key), key, k) == CountAbove([x], key, k) + CountAbove(s, key, k)
  {
    if s == [] || key(x) <= key(s[0]) {
      CountAboveConcat([x], s, key, k);
    } else {
      InsertCount(x, s[1..], key, k);
      CountAboveConcat([s[0]], Insert(x, s[1..], key), key, k);
      CountAboveConcat([s[0]], s[1..], key, k);
      assert s == [s[0]] + s[1..];
    }
  }

  lemma {:induction false} SortSorted<T(!new)>(s: seq<T>, key: T -> int)
    ensures SortedBy(Sort(s, key), key)
  {
    if s != [] {
      SortSorted(s[1..], key);
      InsertSorted(s[0], Sort(s[1..], key), key);
    }
  }

  lemma {:induction false} SortByKey<T>(s: seq<T>, key: T -> int, k: int)
    ensures WithKey(Sort(s, key), key, k) == WithKey(s, key, k)
    ensures CountAbove(Sort(s, key), key, k) == CountAbove(s, key, k)
  {
    if s != [] {
      var t := Sort(s[1..], key);
      SortByKey(s[1..], key, k);
      InsertByKey(s[0], t, key, k);
      InsertCount(s[0], t, key, k);
    }
  }

  /** Cutting the sorted sequence anywhere keeps every element, key by key. */
  lemma {:induction false} SortSplit<T>(s: seq<T>, n: nat, key: T -> int, k: int)
    requires n <= |s|
    ensures WithKey(Sort(s, key)[..n], key, k) + WithKey(Sort(s, key)[n..], key, k) == WithKey(s, key, k)
    ensures CountAbove(Sort(s, key)[..n], key, k) + CountAbove(Sort(s, key)[n..], key, k) == CountAbove(s, key, k)
  {
    var t := Sort(s, key);
    SortByKey(s, key, k);
    assert t == t[..n] + t[n..];
    WithKeyConcat(t[..n], t[n..], key, k);
    CountAboveConcat(t[..n], t[n..], key, k);
  }

  lemma {:induction false} WithKeyMembers<T>(s: seq<T>, key: T -> int, k: int)
    ensures forall x :: x in WithKey(s, key, k) <==> x in s && key(x) == k
  {
    if s != [] {
      WithKeyMembers(s[1..], key, k);
      assert s == [s[0]] + s[1..];
    }
  }

  /** `a` starts no later in key order than `b` when `b`'s first element also occurs in `a`. */
  lemma {:induction false} HeadIsLeast<T(!new)>(a: seq<T>, b: seq<T>, key: T -> int)
    requires a != [] && b != []
    requires SortedBy(a, key) && SameByKey(a, b, key)
    ensures key(a[0]) <= key(b[0])
  {
    WithKeyMembers(a, key, key(b[0]));
    WithKeyMembers(b, key, key(b[0]));
    assert b[0] in WithKey(a, key, key(b[0]));
    var i :| 0 <= i < |a| && a[i] == b[0];
  }

  lemma {:induction false} EmptyByKey<T(!new)>(a: seq<T>, key: T -> int)
    requires SameByKey(a, [], key)
    ensures a == []
  {
    assert a != [] ==> WithKey(a, key, key(a[0])) == [];
  }

  /** Ordered sequences that agree key by key are equal: a stable sort has one possible result. */
  lemma {:induction false} SortIsUnique<T(!new)>(a: seq<T>, b: seq<T>, key: T -> int)
    requires SortedBy(a, key) && SortedBy(b, key)
    requires SameByKey(a, b, key)
    ensures a == b
  {
    if a == [] {
      EmptyByKey(b, key);
    } else if b == [] {
      EmptyByKey(a, key);
    } else {
      HeadIsLeast(a, b, key);
      HeadIsLeast(b, a, key);
      assert WithKey(a, key, key(a[0]))[0] == a[0] && WithKey(b, key, key(a[0]))[0] == b[0];
      forall k
        ensures WithKey(a[1..], key, k) == WithKey(b[1..], key, k)
      {
        assert WithKey(a, key, k) == WithKey(b, key, k);
        var h := if key(a[0]) == k then 1 else 0;
        assert WithKey(a[1..], key, k) == WithKey(a, key, k)[h..];
        assert WithKey(b[1..], key, k) == WithKey(b, key, k)[h..];
      }
      SortIsUnique(a[1..], b[1..], key);
    }
  }

  lemma {:induction false} SortOfSorted<T(!new)>(s: seq<T>, key: T -> int)
    requires SortedBy(s, key)
    ensures Sort(s, key) == s
  {
    SortSorted(s, key);
    forall k ensures WithKey(Sort(s, key), key, k) == WithKey(s, key, k) {
      SortByKey(s, key, k);
    }
    SortIsUnique(Sort(s, key), s, key);
  }
}
