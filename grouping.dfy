/** `GROUP BY` over the search log: per key, the number of events and the sum
    of their result counts, then the groups ranked by a key in descending
    order (`ORDER BY … DESC LIMIT n`). The order of the groups before ranking,
    and of ties after it, is the engine's choice; here it is the order of
    first occurrence, kept stable by the sort. */
module Grouping {
  import Sorting
  import Store

  type Event = Store.SearchEvent

  datatype Group<K> = Group(key: K, count: nat, totalResults: int)

  function Count<K(==,!new)>(es: seq<Event>, f: Event -> K, k: K): (n: nat)
    ensures n <= |es|
    ensures n == 0 <==> forall i :: 0 <= i < |es| ==> f(es[i]) != k
  {
    if es == [] then 0 else (if f(es[0]) == k then 1 else 0) + Count(es[1..], f, k)
  }

  function Sum<K(==,!new)>(es: seq<Event>, f: Event -> K, k: K): int {
    if es == [] then 0 else (if f(es[0]) == k then es[0].resultsCount else 0) + Sum(es[1..], f, k)
  }

  function Keys<K(==,!new)>(es: seq<Event>, f: Event -> K): set<K> {
    set i | 0 <= i < |es| :: f(es[i])
  }

  /** The group of `k`. */
  function GroupOf<K(==,!new)>(es: seq<Event>, f: Event -> K, k: K): Group<K> {
    Group(k, Count(es, f, k), Sum(es, f, k))
  }

  /** The events whose key is not `k`. */
  function Without<K(==,!new)>(es: seq<Event>, f: Event -> K, k: K): (r: seq<Event>)
    ensures |r| + Count(es, f, k) == |es|
    ensures forall i :: 0 <= i < |r| ==> f(r[i]) != k
    ensures forall k' :: k' != k ==> Count(r, f, k') == Count(es, f, k') && Sum(r, f, k') == Sum(es, f, k')
  {
    if es == [] then []
    else if f(es[0]) == k then Without(es[1..], f, k)
    else [es[0]] + Without(es[1..], f, k)
  }

  lemma KeysCons<K(!new)>(e: Event, es: seq<Event>, f: Event -> K)
    ensures Keys([e] + es, f) == {f(e)} + Keys(es, f)
  {
    var t := [e] + es;
    forall x | x in Keys(t, f) ensures x in {f(e)} + Keys(es, f) {
      var i :| 0 <= i < |t| && f(t[i]) == x;
      if i > 0 { assert t[i] == es[i - 1]; } else { assert t[0] == e; }
    }
    assert t[0] == e;
    forall x | x in Keys(es, f) ensures x in Keys(t, f) {
      var i :| 0 <= i < |es| && f(es[i]) == x;
      assert t[i + 1] == es[i];
    }
  }

  lemma {:induction false} WithoutKeys<K(!new)>(es: seq<Event>, f: Event -> K, k: K)
    ensures Keys(Without(es, f, k), f) == Keys(es, f) - {k}
    decreases |es|
  {
    if es == [] {
      assert Keys(es, f) == {};
    } else {
      WithoutKeys(es[1..], f, k);
      assert es == [es[0]] + es[1..];
      KeysCons(es[0], es[1..], f);
      if f(es[0]) != k {
        KeysCons(es[0], Without(es[1..], f, k), f);
      }
    }
  }

  /** No more keys than events. */
  lemma {:induction false} KeysAtMost<K(!new)>(es: seq<Event>, f: Event -> K)
    ensures |Keys(es, f)| <= |es|
    decreases |es|
  {
    if es == [] {
      assert Keys(es, f) == {};
    } else {
      KeysAtMost(es[1..], f);
      assert es == [es[0]] + es[1..];
      KeysCons(es[0], es[1..], f);
    }
  }

  /** One group per key, in the order the keys first occur. */
  function GroupBy<K(==,!new)>(es: seq<Event>, f: Event -> K): (r: seq<Group<K>>)
    decreases |es|
  {
    if es == [] then []
    else
      var k := f(es[0]);
      assert Count(es, f, k) != 0;
      [GroupOf(es, f, k)] + GroupBy(Without(es, f, k), f)
  }

  /** The sum of the groups' counts. */
  function Total<K>(gs: seq<Group<K>>): nat {
    if gs == [] then 0 else gs[0].count + Total(gs[1..])
  }

  /** Each group has the true count and sum of its key, an occurring key,
      and at least one event. */
  ghost predicate TrueGroups<K(!new)>(r: seq<Group<K>>, es: seq<Event>, f: Event -> K) {
    forall i :: 0 <= i < |r| ==> r[i] == GroupOf(es, f, r[i].key) && r[i].key in Keys(es, f) && r[i].count >= 1
  }

  ghost predicate DistinctKeys<K(!new)>(r: seq<Group<K>>) {
    forall i, j :: 0 <= i < j < |r| ==> r[i].key != r[j].key
  }

  /** Every occurring key has a group. */
  ghost predicate CoversKeys<K(!new)>(r: seq<Group<K>>, es: seq<Event>, f: Event -> K) {
    forall k :: k in Keys(es, f) ==> exists i :: 0 <= i < |r| && r[i].key == k
  }

  lemma {:induction false} GroupsAreTrue<K(!new)>(es: seq<Event>, f: Event -> K)
    ensures TrueGroups(GroupBy(es, f), es, f)
    decreases |es|
  {
    if es != [] {
      var k := f(es[0]);
      var w := Without(es, f, k);
      var r := GroupBy(es, f);
      var rest := GroupBy(w, f);
      assert r == [GroupOf(es, f, k)] + rest;
      GroupsAreTrue(w, f);
      WithoutKeys(es, f, k);
      assert Count(es, f, k) != 0;
      assert k in Keys(es, f) by { assert f(es[0]) == k; }
      forall i | 0 < i < |r|
        ensures r[i] == GroupOf(es, f, r[i].key) && r[i].key in Keys(es, f) && r[i].count >= 1
      {
        assert r[i] == rest[i - 1];
      }
    }
  }

  lemma DistinctCons<K(!new)>(x: Group<K>, rest: seq<Group<K>>)
    requires DistinctKeys(rest)
    requires forall j :: 0 <= j < |rest| ==> rest[j].key != x.key
    ensures DistinctKeys([x] + rest)
  {
    var r := [x] + rest;
    forall i, j | 0 <= i < j < |r| ensures r[i].key != r[j].key {
      assert r[j] == rest[j - 1];
      if i > 0 { assert r[i] == rest[i - 1]; }
    }
  }

  /** No key has two groups. */
  lemma {:induction false} GroupsAreDistinct<K(!new)>(es: seq<Event>, f: Event -> K)
    ensures DistinctKeys(GroupBy(es, f))
    decreases |es|
  {
    if es != [] {
      var k := f(es[0]);
      var w := Without(es, f, k);
      var rest := GroupBy(w, f);
      assert GroupBy(es, f) == [GroupOf(es, f, k)] + rest;
      GroupsAreDistinct(w, f);
      GroupsAreTrue(w, f);
      WithoutKeys(es, f, k);
      forall j | 0 <= j < |rest| ensures rest[j].key != k {
        assert rest[j].key in Keys(w, f);
      }
      DistinctCons(GroupOf(es, f, k), rest);
    }
  }

  /** Every occurring key has a group, so there are as many groups as keys,
      and their counts add up to the number of events. */
  lemma {:induction false} GroupsCover<K(!new)>(es: seq<Event>, f: Event -> K)
    ensures CoversKeys(GroupBy(es, f), es, f)
    ensures |GroupBy(es, f)| == |Keys(es, f)|
    ensures Total(GroupBy(es, f)) == |es|
    decreases |es|
  {
    if es == [] {
      assert Keys(es, f) == {};
    } else {
      var k := f(es[0]);
      var w := Without(es, f, k);
      var r := GroupBy(es, f);
      var rest := GroupBy(w, f);
      assert r == [GroupOf(es, f, k)] + rest;
      GroupsCover(w, f);
      WithoutKeys(es, f, k);
      assert Count(es, f, k) != 0;
      assert k in Keys(es, f) by { assert f(es[0]) == k; }
      assert r[1..] == rest;
      forall x | x in Keys(es, f) ensures exists i :: 0 <= i < |r| && r[i].key == x {
        if x != k {
          assert x in Keys(w, f);
          var j :| 0 <= j < |rest| && rest[j].key == x;
          assert r[j + 1].key == x;
        } else {
          assert r[0].key == x;
        }
      }
      assert Keys(es, f) == Keys(w, f) + {k};
    }
  }

  function CountDesc<K>(g: Group<K>): int {
    var c: int := g.count; -c
  }

  /** The groups, most frequent first, cut to `limit`. */
  function Top<K(==,!new)>(es: seq<Event>, f: Event -> K, limit: nat): (r: seq<Group<K>>)
  {
    var s := Sorting.SortBy(GroupBy(es, f), CountDesc);
    if limit <= |s| then s[..limit] else s
  }

  function Min(a: nat, b: nat): nat {
    if a <= b then a else b
  }

  /** What any correct answer to `GROUP BY key ORDER BY count DESC LIMIT n`
      satisfies, however ties are broken: min(n, number of keys) true groups
      with distinct keys, by count descending, and no key left out that
      occurs more often than one that was kept. */
  ghost predicate IsTopRanking<K(!new)>(r: seq<Group<K>>, es: seq<Event>, f: Event -> K, limit: nat) {
    && |r| == Min(limit, |Keys(es, f)|)
    && TrueGroups(r, es, f)
    && DistinctKeys(r)
    && (forall i, j :: 0 <= i < j < |r| ==> r[i].count >= r[j].count)
    && (forall k :: k in Keys(es, f) && (forall i :: 0 <= i < |r| ==> r[i].key != k) ==>
          forall i :: 0 <= i < |r| ==> Count(es, f, k) <= r[i].count)
  }

  lemma CopiesAtTwo<T>(s: seq<T>, i: nat, j: nat)
    requires i < j < |s| && s[i] == s[j]
    ensures multiset(s)[s[i]] >= 2
  {
    assert s == s[..j] + s[j..];
    assert s[..j][i] == s[i];
    assert s[j..][0] == s[i];
    assert multiset(s) == multiset(s[..j]) + multiset(s[j..]);
  }

  lemma {:induction false} DistinctOnce<K(!new)>(g: seq<Group<K>>, x: Group<K>)
    requires DistinctKeys(g)
    ensures multiset(g)[x] <= 1
    decreases |g|
  {
    if g != [] {
      assert g == [g[0]] + g[1..];
      DistinctOnce(g[1..], x);
      if g[0] == x {
        forall j | 0 <= j < |g[1..]| ensures g[1..][j] != x {
          assert g[j + 1].key != g[0].key;
        }
        assert x !in g[1..];
      }
    }
  }

  /** A reordering of groups with distinct keys has distinct keys and only
      those groups, and each of them. */
  lemma PermutedGroups<K(!new)>(g: seq<Group<K>>, s: seq<Group<K>>)
    requires multiset(s) == multiset(g)
    requires DistinctKeys(g)
    ensures forall i :: 0 <= i < |s| ==> s[i] in g
    ensures forall a :: 0 <= a < |g| ==> exists b :: 0 <= b < |s| && s[b] == g[a]
    ensures forall i, j :: 0 <= i < j < |s| ==> s[i] != s[j]
  {
    forall i | 0 <= i < |s| ensures s[i] in g {
      assert s[i] in multiset(s);
    }
    forall a | 0 <= a < |g| ensures exists b :: 0 <= b < |s| && s[b] == g[a] {
      assert g[a] in multiset(s);
    }
    forall i, j | 0 <= i < j < |s| ensures s[i] != s[j] {
      DistinctOnce(g, s[i]);
      if s[i] == s[j] {
        CopiesAtTwo(s, i, j);
      }
    }
  }

  /** A reordering of true, distinct groups is true and distinct. */
  lemma PermutedTrue<K(!new)>(g: seq<Group<K>>, s: seq<Group<K>>, es: seq<Event>, f: Event -> K)
    requires multiset(s) == multiset(g)
    requires TrueGroups(g, es, f) && DistinctKeys(g)
    ensures TrueGroups(s, es, f) && DistinctKeys(s)
  {
    PermutedGroups(g, s);
    forall i | 0 <= i < |s|
      ensures s[i] == GroupOf(es, f, s[i].key) && s[i].key in Keys(es, f) && s[i].count >= 1
    {
      var a :| 0 <= a < |g| && g[a] == s[i];
    }
    forall i, j | 0 <= i < j < |s| ensures s[i].key != s[j].key {
      assert s[i] == GroupOf(es, f, s[i].key) && s[j] == GroupOf(es, f, s[j].key);
    }
  }

  lemma PrefixKeeps<K(!new)>(s: seq<Group<K>>, n: nat, es: seq<Event>, f: Event -> K)
    requires n <= |s|
    requires TrueGroups(s, es, f) && DistinctKeys(s)
    requires forall i, j :: 0 <= i < j < |s| ==> s[i].count >= s[j].count
    ensures TrueGroups(s[..n], es, f) && DistinctKeys(s[..n])
    ensures forall i, j :: 0 <= i < j < n ==> s[..n][i].count >= s[..n][j].count
  {
    assert forall i :: 0 <= i < n ==> s[..n][i] == s[i];
  }

  /** A prefix of the groups ranked by count meets the top-N specification. */
  lemma PrefixIsRanking<K(!new)>(s: seq<Group<K>>, es: seq<Event>, f: Event -> K, limit: nat)
    requires TrueGroups(s, es, f) && DistinctKeys(s) && CoversKeys(s, es, f) && |s| == |Keys(es, f)|
    requires forall i, j :: 0 <= i < j < |s| ==> s[i].count >= s[j].count
    ensures IsTopRanking(if limit <= |s| then s[..limit] else s, es, f, limit)
  {
    var n := if limit <= |s| then limit else |s|;
    var r := s[..n];
    assert r == if limit <= |s| then s[..limit] else s;
    PrefixKeeps(s, n, es, f);
    assert |r| == Min(limit, |Keys(es, f)|);
    forall k | k in Keys(es, f) && (forall i :: 0 <= i < |r| ==> r[i].key != k)
      ensures forall i :: 0 <= i < |r| ==> Count(es, f, k) <= r[i].count
    {
      var b :| 0 <= b < |s| && s[b].key == k;
      assert s[b] == GroupOf(es, f, k);
      forall i | 0 <= i < |r| ensures Count(es, f, k) <= r[i].count {
        assert r[i] == s[i];
      }
    }
  }

  /** The ranked cut meets the specification of a top-N query. */
  lemma TopIsRanking<K(!new)>(es: seq<Event>, f: Event -> K, limit: nat)
    ensures IsTopRanking(Top(es, f, limit), es, f, limit)
  {
    var g := GroupBy(es, f);
    var s := Sorting.SortBy(g, CountDesc);
    GroupsAreTrue(es, f);
    GroupsAreDistinct(es, f);
    GroupsCover(es, f);
    Sorting.SortByFacts(g, CountDesc);
    PermutedTrue(g, s, es, f);
    PermutedCovers(g, s, es, f);
    forall i, j | 0 <= i < j < |s| ensures s[i].count >= s[j].count {
      assert CountDesc(s[i]) <= CountDesc(s[j]);
    }
    PrefixIsRanking(s, es, f, limit);
  }

  lemma PermutedCovers<K(!new)>(g: seq<Group<K>>, s: seq<Group<K>>, es: seq<Event>, f: Event -> K)
    requires multiset(s) == multiset(g)
    requires CoversKeys(g, es, f)
    ensures CoversKeys(s, es, f) && |s| == |g|
  {
    forall k | k in Keys(es, f) ensures exists i :: 0 <= i < |s| && s[i].key == k {
      var a :| 0 <= a < |g| && g[a].key == k;
      assert g[a] in multiset(s);
    }
    assert |s| == |multiset(s)| == |multiset(g)| == |g|;
  }

  function KeyDesc(g: Group<int>): int {
    -g.key
  }

  /** Groups by an integer key, largest key first (`ORDER BY key DESC`). */
  function ByKeyDesc(es: seq<Event>, f: Event -> int): seq<Group<int>> {
    Sorting.SortBy(GroupBy(es, f), KeyDesc)
  }

  lemma {:induction false} InsertTotal<K>(x: Group<K>, s: seq<Group<K>>, key: Group<K> -> int)
    ensures Total(Sorting.Insert(x, s, key)) == x.count + Total(s)
    decreases |s|
  {
    if s != [] && key(x) > key(s[0]) {
      InsertTotal(x, s[1..], key);
    }
  }

  lemma {:induction false} SortTotal<K>(s: seq<Group<K>>, key: Group<K> -> int)
    ensures Total(Sorting.SortBy(s, key)) == Total(s)
    decreases |s|
  {
    if s != [] {
      SortTotal(s[1..], key);
      InsertTotal(s[0], Sorting.SortBy(s[1..], key), key);
    }
  }

  /** Ordered by key, the groups have strictly decreasing keys, true counts,
      every occurring key, and counts that add up to the number of events. */
  lemma ByKeyDescFacts(es: seq<Event>, f: Event -> int)
    ensures forall i, j :: 0 <= i < j < |ByKeyDesc(es, f)| ==> ByKeyDesc(es, f)[i].key > ByKeyDesc(es, f)[j].key
    ensures TrueGroups(ByKeyDesc(es, f), es, f)
    ensures CoversKeys(ByKeyDesc(es, f), es, f)
    ensures Total(ByKeyDesc(es, f)) == |es|
  {
    var g := GroupBy(es, f);
    var s := ByKeyDesc(es, f);
    GroupsAreTrue(es, f);
    GroupsAreDistinct(es, f);
    GroupsCover(es, f);
    Sorting.SortByFacts(g, KeyDesc);
    SortTotal(g, KeyDesc);
    PermutedTrue(g, s, es, f);
    PermutedCovers(g, s, es, f);
    forall i, j | 0 <= i < j < |s| ensures s[i].key > s[j].key {
      assert KeyDesc(s[i]) <= KeyDesc(s[j]);
      assert s[i].key != s[j].key;
    }
  }
}
