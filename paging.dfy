/** Offset pagination of the developer-portal listings: `page` and `limit`
    search parameters (1 and 10 by default, read with `parseInt`), the store's
    `skip: (page - 1) * limit` and `take: limit`, and `ceil(total / limit)`
    pages. A negative `take` pages backwards from the end of the listing. */
module Paging {
  import opened Wrappers
  import Numbers
  import Text
  import Http
  import Sorting

  /** Rows `skip` to `skip + take` of `s`, as far as they exist. */
  function Window<T>(s: seq<T>, skip: nat, take: nat): (r: seq<T>)
    ensures |r| == if skip >= |s| then 0 else if skip + take <= |s| then take else |s| - skip
    ensures forall i :: 0 <= i < |r| ==> skip + i < |s| && r[i] == s[skip + i]
  {
    var lo := if skip <= |s| then skip else |s|;
    var hi := if lo + take <= |s| then lo + take else |s|;
    s[lo..hi]
  }

  function Reverse<T>(s: seq<T>): (r: seq<T>)
    ensures |r| == |s| && forall i :: 0 <= i < |s| ==> r[i] == s[|s| - 1 - i]
  {
    seq(|s|, i requires 0 <= i < |s| => s[|s| - 1 - i])
  }

  /** The number of rows a `take` asks for, in either direction. */
  function Size(take: int): nat {
    if take >= 0 then take else -take
  }

  /** Where the rows of a `skip` and `take` start. */
  function TakeStart(n: nat, skip: nat, take: int): nat {
    if take >= 0 then (if skip <= n then skip else n)
    else
      var hi := if skip <= n then n - skip else 0;
      if hi >= -take then hi + take else 0
  }

  /** The store's `skip` and `take` over an ordered listing. A `take` that is
      not negative is `Window`; a negative one gives the `-take` rows that end
      `skip` rows before the end, still in listing order. Either way the page
      is a run of consecutive rows. */
  function Take<T>(s: seq<T>, skip: nat, take: int): (r: seq<T>)
    ensures take >= 0 ==> r == Window(s, skip, take)
    ensures |r| <= Size(take)
    ensures TakeStart(|s|, skip, take) + |r| <= |s|
    ensures r == s[TakeStart(|s|, skip, take)..TakeStart(|s|, skip, take) + |r|]
  {
    if take >= 0 then
      Window(s, skip, take)
    else
      var hi := if skip <= |s| then |s| - skip else 0;
      s[TakeStart(|s|, skip, take)..hi]
  }

  /** A negative `take` is the window of the reversed listing, reversed back:
      the listing is read from its end, `skip` rows are passed over, `-take`
      rows are kept, and they are returned in listing order. */
  lemma BackwardsTake<T>(s: seq<T>, skip: nat, n: nat)
    requires n > 0
    ensures Take(s, skip, -(n as int)) == Reverse(Window(Reverse(s), skip, n))
  {
    var w := Window(Reverse(s), skip, n);
    var r := Take(s, skip, -(n as int));
    assert |r| == |w|;
    forall j | 0 <= j < |r|
      ensures r[j] == Reverse(w)[j]
    {
      assert w[|w| - 1 - j] == Reverse(s)[skip + |w| - 1 - j];
    }
  }

  /** A page of an ordered listing is ordered, and holds only listed rows. */
  lemma TakeSorted<T>(s: seq<T>, skip: nat, take: int, key: T -> int)
    requires Sorting.SortedBy(s, key)
    ensures Sorting.SortedBy(Take(s, skip, take), key)
    ensures forall x :: x in Take(s, skip, take) ==> x in s
  {
    var r := Take(s, skip, take);
    var lo := TakeStart(|s|, skip, take);
    forall i, j | 0 <= i < j < |r|
      ensures key(r[i]) <= key(r[j])
    {
      assert r[i] == s[lo + i] && r[j] == s[lo + j];
    }
    forall x | x in r
      ensures x in s
    {
      var i :| 0 <= i < |r| && r[i] == x;
      assert s[lo + i] == x;
    }
  }

  /** The parsed parameters; `None` stands for `NaN`. */
  datatype Params = Params(page: Option<int>, limit: Option<int>)

  function ReadParams(req: Http.Request): Params {
    Params(Numbers.ParseInt(Text.OrElse(Http.Param(req, "page"), "1")),
           Numbers.ParseInt(Text.OrElse(Http.Param(req, "limit"), "10")))
  }

  /** A query the store accepts: numbers, and an offset that is not negative.
      The limit may be negative. */
  datatype Plan = Plan(page: int, limit: int, skip: nat)

  function MakePlan(p: Params): (r: Option<Plan>)
    ensures r.Some? <==> p.page.Some? && p.limit.Some? && (p.page.value - 1) * p.limit.value >= 0
    ensures r.Some? ==> && r.value.page == p.page.value && r.value.limit == p.limit.value
                        && r.value.skip == (p.page.value - 1) * p.limit.value
  {
    if p.page.None? || p.limit.None? || (p.page.value - 1) * p.limit.value < 0 then None
    else Some(Plan(p.page.value, p.limit.value, (p.page.value - 1) * p.limit.value))
  }

  /** `Math.ceil(total / limit)`: the least whole number at or above the
      quotient, whatever the limit's sign; with a zero limit the quotient is
      not a finite number and is sent as `null`. */
  function PageCount(total: nat, limit: int): (r: Option<int>)
    ensures limit != 0 <==> r.Some?
    ensures r.Some? && limit > 0 ==> limit * (r.value - 1) < total <= limit * r.value
    ensures r.Some? && limit < 0 ==> limit * r.value <= total < limit * (r.value - 1)
  {
    if limit == 0 then None
    else if limit > 0 then Some(Numbers.CeilDiv(total, limit))
    else
      var q := total / -limit;
      assert -limit * q <= total < -limit * (q + 1);
      Some(-q)
  }

  /** The `pagination` part of a listing. */
  datatype Pagination = Pagination(page: int, limit: int, total: nat, pages: Option<int>)

  function PaginationOf(plan: Plan, total: nat): Pagination {
    Pagination(plan.page, plan.limit, total, PageCount(total, plan.limit))
  }

  /** Pages 1 to n, one after another. */
  function FirstPages<T>(s: seq<T>, limit: nat, n: nat): seq<T> {
    if n == 0 then [] else FirstPages(s, limit, n - 1) + Window(s, (n - 1) * limit, limit)
  }

  lemma {:induction false} FirstPagesPrefix<T>(s: seq<T>, limit: nat, n: nat)
    ensures FirstPages(s, limit, n) == s[..if n * limit <= |s| then n * limit else |s|]
  {
    if n > 0 {
      FirstPagesPrefix(s, limit, n - 1);
      var lo := (n - 1) * limit;
      var a := if lo <= |s| then lo else |s|;
      var b := if n * limit <= |s| then n * limit else |s|;
      assert Window(s, lo, limit) == s[a..b];
      assert s[..a] + s[a..b] == s[..b];
    }
  }

  /** The pages 1 to `PageCount` hold every row once, in order. */
  lemma PagesPartition<T>(s: seq<T>, limit: nat)
    requires limit > 0
    ensures FirstPages(s, limit, PageCount(|s|, limit).value) == s
  {
    var n := PageCount(|s|, limit).value;
    FirstPagesPrefix(s, limit, n);
    assert s[..|s|] == s;
  }

  /** A page in range is never empty, and a page past the last one is. */
  lemma PageInRange<T>(s: seq<T>, limit: nat, page: int)
    requires limit > 0 && page >= 1
    ensures Window(s, (page - 1) * limit, limit) != [] <==> page <= PageCount(|s|, limit).value
  {
    var n := PageCount(|s|, limit).value;
    var skip := (page - 1) * limit;
    assert Window(s, skip, limit) != [] <==> skip < |s|;
    if page <= n {
      MulLe(page - 1, n - 1, limit);
    } else {
      MulLe(n, page - 1, limit);
    }
  }

  lemma MulLe(a: int, b: int, c: nat)
    requires a <= b
    ensures a * c <= b * c
  {
    assert b * c - a * c == (b - a) * c;
  }

  /** Without parameters the first ten rows are listed. */
  lemma DefaultParams(req: Http.Request)
    requires Http.Param(req, "page").None? && Http.Param(req, "limit").None?
    ensures MakePlan(ReadParams(req)) == Some(Plan(1, 10, 0))
  {
    Numbers.ParseIntOfToString(1);
    Numbers.ParseIntOfToString(10);
    assert Numbers.IntToString(1) == "1";
    assert Numbers.IntToString(10) == "10";
  }
}
