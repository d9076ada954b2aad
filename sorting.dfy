/** Ordering of query results by an integer key (`ORDER BY key ASC`); descending
    orders use the negated key. */
module Sorting {

  ghost predicate SortedBy<T>(s: seq<T>, key: T -> int) {
    forall i, j :: 0 <= i < j < |s| ==> key(s[i]) <= key(s[j])
  }

  /** Every key in `s` is at least `b`. */
  ghost predicate KeysAtLeast<T>(s: seq<T>, key: T -> int, b: int) {
    forall k :: 0 <= k < |s| ==> b <= key(s[k])
  }

  /** Places `x` before the first element whose key is not smaller. */
  function Insert<T>(x: T, s: seq<T>, key: T -> int): (r: seq<T>)
    ensures |r| == |s| + 1
  {
    if s == [] || key(x) <= key(s[0]) then [x] + s else [s[0]] + Insert(x, s[1..], key)
  }

  lemma {:induction false} InsertKeeps<T>(x: T, s: seq<T>, key: T -> int)
    ensures multiset(Insert(x, s, key)) == multiset(s) + multiset{x}
  {
    if s != [] && key(x) > key(s[0]) {
      InsertKeeps(x, s[1..], key);
      assert s == [s[0]] + s[1..];
    }
  }

  lemma {:induction false} InsertBound<T>(x: T, s: seq<T>, key: T -> int, b: int)
    requires KeysAtLeast(s, key, b) && b <= key(x)
    ensures KeysAtLeast(Insert(x, s, key), key, b)
  {
    if s != [] && key(x) > key(s[0]) {
      InsertBound(x, s[1..], key, b);
      var r := Insert(x, s, key);
      assert forall k :: 1 <= k < |r| ==> r[k] == Insert(x, s[1..], key)[k - 1];
    }
  }

  lemma {:induction false} InsertSorted<T>(x: T, s: seq<T>, key: T -> int)
    requires SortedBy(s, key)
    ensures SortedBy(Insert(x, s, key), key)
  {
    var r := Insert(x, s, key);
    if s == [] || key(x) <= key(s[0]) {
      assert forall k :: 1 <= k < |r| ==> r[k] == s[k - 1];
    } else {
      var t := Insert(x, s[1..], key);
      InsertSorted(x, s[1..], key);
      InsertBound(x, s[1..], key, key(s[0]));
      assert forall k :: 1 <= k < |r| ==> r[k] == t[k - 1];
    }
  }

  /** A stable insertion sort by `key`. */
  function SortBy<T>(s: seq<T>, key: T -> int): (r: seq<T>)
    ensures |r| == |s|
  {
    if s == [] then [] else Insert(s[0], SortBy(s[1..], key), key)
  }

  /** The sorted sequence is ordered by `key` and is a permutation of the input. */
  lemma {:induction false} SortByFacts<T>(s: seq<T>, key: T -> int)
    ensures SortedBy(SortBy(s, key), key)
    ensures multiset(SortBy(s, key)) == multiset(s)
  {
    if s != [] {
      SortByFacts(s[1..], key);
      InsertKeeps(s[0], SortBy(s[1..], key), key);
      InsertSorted(s[0], SortBy(s[1..], key), key);
      assert s == [s[0]] + s[1..];
    }
  }

  /** Elements of `s` with the same key are the same element. */
  ghost predicate KeyDetermines<T>(s: seq<T>, key: T -> int) {
    forall x, y :: x in s && y in s && key(x) == key(y) ==> x == y
  }

  /** When the key tells elements apart, a collection has only one order
      sorted by that key, whoever sorted it. */
  lemma {:induction false} SortedUnique<T>(a: seq<T>, b: seq<T>, key: T -> int)
    requires SortedBy(a, key) && SortedBy(b, key)
    requires multiset(a) == multiset(b)
    requires KeyDetermines(a, key)
    ensures a == b
  {
    if a == [] {
      assert |multiset(b)| == 0;
    } else {
      assert |b| == |multiset(b)| == |multiset(a)| == |a|;
      SameHead(a, b, key);
      var a', b' := a[1..], b[1..];
      SameTails(a, b);
      assert KeyDetermines(a', key) by {
        assert forall x :: x in a' ==> x in a;
      }
      SortedUnique(a', b', key);
    }
  }

  /** Two sequences holding the same elements and the same first element
      hold the same elements after it. */
  lemma SameTails<T>(a: seq<T>, b: seq<T>)
    requires a != [] && b != [] && a[0] == b[0]
    requires multiset(a) == multiset(b)
    ensures multiset(a[1..]) == multiset(b[1..])
  {
    assert a == [a[0]] + a[1..] && b == [b[0]] + b[1..];
    forall e ensures multiset(a[1..])[e] == multiset(b[1..])[e] {
      assert multiset(a)[e] == multiset(b)[e];
    }
  }

  /** Two non-empty sorted orders of one collection start with the same key. */
  lemma SameHead<T>(a: seq<T>, b: seq<T>, key: T -> int)
    requires a != [] && b != []
    requires SortedBy(a, key) && SortedBy(b, key)
    requires multiset(a) == multiset(b)
    requires KeyDetermines(a, key)
    ensures a[0] == b[0]
  {
    assert a[0] in multiset(b) && b[0] in multiset(a);
    var j :| 0 <= j < |b| && b[j] == a[0];
    var i :| 0 <= i < |a| && a[i] == b[0];
    assert key(a[0]) <= key(a[i]) && key(b[0]) <= key(b[j]);
  }
}
