/**
 * Python's `sorted(xs, key=...)` and `xs.sort(key=...)`: a stable sort by an
 * integer key, written as insertion sort. Its three properties are proved
 * below: the result is ordered by the key, it is a permutation of the input,
 * and elements with equal keys keep their input order.
 */
module Sorting {

  ghost predicate SortedBy<T>(s: seq<T>, key: T -> int)
  {
    forall i, j :: 0 <= i < j < |s| ==> key(s[i]) <= key(s[j])
  }

  /** The subsequence of `s` whose elements have key `k`, in order. */
  function WithKey<T>(s: seq<T>, key: T -> int, k: int): seq<T>
  {
    if s == [] then []
    else (if key(s[0]) == k then [s[0]] else []) + WithKey(s[1..], key, k)
  }

  /** Places `x` before the first element whose key is not smaller. */
  function Insert<T>(x: T, s: seq<T>, key: T -> int): (r: seq<T>)
    ensures multiset(r) == multiset(s) + multiset{x}
  {
    if s == [] || key(x) <= key(s[0]) then [x] + s
    else
      assert s == [s[0]] + s[1..];
      [s[0]] + Insert(x, s[1..], key)
  }

  /** Every element of the insertion result is `x` or an element of `s`. */
  lemma InsertMember<T>(x: T, s: seq<T>, key: T -> int, j: nat)
    requires j < |Insert(x, s, key)|
    ensures Insert(x, s, key)[j] == x || Insert(x, s, key)[j] in s
  {
    var r := Insert(x, s, key);
    assert r[j] in multiset(r);
  }

  lemma SortedTail<T>(s: seq<T>, key: T -> int)
    requires s != [] && SortedBy(s, key)
    ensures SortedBy(s[1..], key)
  {
    forall i, j | 0 <= i < j < |s| - 1 ensures key(s[1..][i]) <= key(s[1..][j]) {
      assert s[1..][i] == s[i + 1] && s[1..][j] == s[j + 1];
    }
  }

  /** `[x] + s` is ordered when `s` is and `x` has a key no larger than any of `s`. */
  lemma SortedCons<T>(x: T, s: seq<T>, key: T -> int)
    requires SortedBy(s, key)
    requires forall j :: 0 <= j < |s| ==> key(x) <= key(s[j])
    ensures SortedBy([x] + s, key)
  {
    var r := [x] + s;
    forall i, j | 0 <= i < j < |r| ensures key(r[i]) <= key(r[j]) {
      assert r[j] == s[j - 1];
      if i > 0 {
        assert r[i] == s[i - 1];
      }
    }
  }

  /** Inserting into an ordered sequence keeps it ordered. */
  lemma {:induction false} InsertSorted<T>(x: T, s: seq<T>, key: T -> int)
    requires SortedBy(s, key)
    ensures SortedBy(Insert(x, s, key), key)
  {
    if s == [] || key(x) <= key(s[0]) {
      SortedCons(x, s, key);
    } else {
      var tail := s[1..];
      var rest := Insert(x, tail, key);
      SortedTail(s, key);
      InsertSorted(x, tail, key);
      forall j | 0 <= j < |rest| ensures key(s[0]) <= key(rest[j]) {
        InsertMember(x, tail, key, j);
        if rest[j] != x {
          var k :| 0 <= k < |tail| && tail[k] == rest[j];
          assert tail[k] == s[k + 1];
        }
      }
      SortedCons(s[0], rest, key);
    }
  }

  function SortBy<T>(s: seq<T>, key: T -> int): (r: seq<T>)
    ensures multiset(r) == multiset(s)
    ensures SortedBy(r, key)
  {
    if s == [] then []
    else
      assert s == [s[0]] + s[1..];
      InsertSorted(s[0], SortBy(s[1..], key), key);
      Insert(s[0], SortBy(s[1..], key), key)
  }

  /** Sorting an ordered sequence leaves it unchanged. */
  lemma {:induction false} SortBySorted<T>(s: seq<T>, key: T -> int)
    requires SortedBy(s, key)
    ensures SortBy(s, key) == s
  {
    if s != [] {
      var tail := s[1..];
      SortedTail(s, key);
      SortBySorted(tail, key);
      assert SortBy(s, key) == Insert(s[0], tail, key);
      if tail != [] {
        assert tail[0] == s[1];
      }
      assert Insert(s[0], tail, key) == [s[0]] + tail == s;
    }
  }

  /** The key-`k` elements of a cons: the head when it has key `k`, then the tail's. */
  lemma WithKeyCons<T>(x: T, s: seq<T>, key: T -> int, k: int)
    ensures WithKey([x] + s, key, k) == (if key(x) == k then [x] else []) + WithKey(s, key, k)
  {
    assert ([x] + s)[0] == x;
    assert ([x] + s)[1..] == s;
  }

  /** Putting an element of another key in front of both sides keeps a `WithKey` equation. */
  lemma WithKeyShift<T>(x: T, y: T, rest: seq<T>, tail: seq<T>, key: T -> int, k: int)
    requires key(x) != key(y)
    requires WithKey(rest, key, k) == (if key(x) == k then [x] else []) + WithKey(tail, key, k)
    ensures WithKey([y] + rest, key, k) == (if key(x) == k then [x] else []) + WithKey([y] + tail, key, k)
  {
    WithKeyCons(y, rest, key, k);
    WithKeyCons(y, tail, key, k);
    if key(y) == k {
      assert [y] + ([] + WithKey(tail, key, k)) == [] + ([y] + WithKey(tail, key, k));
    }
  }

  lemma {:induction false} InsertWithKey<T>(x: T, s: seq<T>, key: T -> int, k: int)
    ensures WithKey(Insert(x, s, key), key, k)
         == (if key(x) == k then [x] else []) + WithKey(s, key, k)
  {
    if s == [] || key(x) <= key(s[0]) {
      WithKeyCons(x, s, key, k);
    } else {
      var tail := s[1..];
      var rest := Insert(x, tail, key);
      assert Insert(x, s, key) == [s[0]] + rest;
      InsertWithKey(x, tail, key, k);
      assert [s[0]] + tail == s;
      WithKeyShift(x, s[0], rest, tail, key, k);
    }
  }

  /** Stability: for every key, the elements carrying it keep their order. */
  lemma {:induction false} SortByStable<T>(s: seq<T>, key: T -> int, k: int)
    ensures WithKey(SortBy(s, key), key, k) == WithKey(s, key, k)
  {
    if s != [] {
      SortByStable(s[1..], key, k);
      InsertWithKey(s[0], SortBy(s[1..], key), key, k);
    }
  }

  /** The first element of `s` with key `k` heads `WithKey(s, key, k)`. */
  lemma {:induction false} WithKeyHead<T>(s: seq<T>, key: T -> int, i: nat)
    requires i < |s|
    requires forall j :: 0 <= j < i ==> key(s[j]) != key(s[i])
    ensures WithKey(s, key, key(s[i])) != []
    ensures WithKey(s, key, key(s[i]))[0] == s[i]
  {
    if i > 0 {
      WithKeyHead(s[1..], key, i - 1);
    }
  }

  /** The first index whose element has the same key as `s[w]`. */
  function FirstWithKey<T>(s: seq<T>, key: T -> int, w: nat): (i: nat)
    requires w < |s|
    ensures i <= w && key(s[i]) == key(s[w])
    ensures forall j :: 0 <= j < i ==> key(s[j]) != key(s[w])
  {
    if key(s[0]) == key(s[w]) then 0
    else 1 + FirstWithKey(s[1..], key, w - 1)
  }

  /** The head of the sorted sequence comes from `s` and carries the least key. */
  lemma SortByHeadLeast<T>(s: seq<T>, key: T -> int)
    requires s != []
    ensures |SortBy(s, key)| == |s|
    ensures SortBy(s, key)[0] in s
    ensures forall j :: 0 <= j < |s| ==> key(SortBy(s, key)[0]) <= key(s[j])
  {
    var r := SortBy(s, key);
    assert |r| == |multiset(r)| == |multiset(s)| == |s|;
    assert r[0] in multiset(s);
    forall j | 0 <= j < |s| ensures key(r[0]) <= key(s[j]) {
      assert s[j] in multiset(r);
    }
  }

  /**
   * The head of the sorted sequence is the input's first element among
   * those with the least key.
   */
  lemma SortByHead<T>(s: seq<T>, key: T -> int) returns (i: nat)
    requires s != []
    ensures i < |s| && SortBy(s, key)[0] == s[i]
    ensures forall j :: 0 <= j < |s| ==> key(s[i]) <= key(s[j])
    ensures forall j :: 0 <= j < i ==> key(s[i]) < key(s[j])
  {
    SortByHeadLeast(s, key);
    var r := SortBy(s, key);
    var m := key(r[0]);
    var w :| 0 <= w < |s| && s[w] == r[0];
    i := FirstWithKey(s, key, w);
    WithKeyHead(s, key, i);
    WithKeyHead(r, key, 0);
    SortByStable(s, key, m);
  }

  /** The last element of the sorted sequence is the input's element at `l`, with the greatest key. */
  lemma SortByLast<T>(s: seq<T>, key: T -> int) returns (l: nat)
    requires s != []
    ensures |SortBy(s, key)| == |s|
    ensures l < |s| && SortBy(s, key)[|s| - 1] == s[l]
    ensures forall j :: 0 <= j < |s| ==> key(s[j]) <= key(s[l])
  {
    var r := SortBy(s, key);
    assert |r| == |multiset(r)| == |multiset(s)| == |s|;
    assert r[|s| - 1] in multiset(s);
    l :| 0 <= l < |s| && s[l] == r[|s| - 1];
    forall j | 0 <= j < |s| ensures key(s[j]) <= key(s[l]) {
      assert s[j] in multiset(r);
    }
  }
}
