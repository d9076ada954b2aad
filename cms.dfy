/** Rules shared by the dock-item and app routes of the content manager:
    only administrators may use them, and two creation defaults. */
module Cms {
  import opened Wrappers
  import Auth
  import Http
  import Store
  import Sorting
  import Paging

  /** The caller, when authenticated and allowed to manage content. */
  function Manager(req: Http.Request, verify: Auth.Verifier, users: seq<Store.User>): (r: Option<Auth.AuthUser>)
    ensures r.Some? <==> var a := Auth.Authenticate(Http.Header(req, "authorization"), verify, users);
                         a.Some? && Auth.CanManageCMS(a.value.role)
    ensures r.Some? ==> r == Auth.Authenticate(Http.Header(req, "authorization"), verify, users) && r.value.role == "admin"
  {
    var a := Auth.Authenticate(Http.Header(req, "authorization"), verify, users);
    if a.Some? && Auth.CanManageCMS(a.value.role) then a else None
  }

  /** `order || 0`. */
  function OrderOf(order: Option<int>): int {
    if order.Some? then order.value else 0
  }

  /** `isActive !== undefined ? isActive : true`. */
  function ActiveOf(isActive: Option<bool>): bool {
    if isActive.Some? then isActive.value else true
  }

  /** Only a missing flag defaults to active; an explicit `false` is kept. */
  lemma ActiveDefault(isActive: Option<bool>)
    ensures ActiveOf(isActive) == false <==> isActive == Some(false)
  {
  }

  /** A technical user is turned away, as is an unauthenticated caller. */
  lemma TechnicalIsNotManager(req: Http.Request, verify: Auth.Verifier, users: seq<Store.User>)
    requires Auth.Authenticate(Http.Header(req, "authorization"), verify, users).Some?
    requires Auth.Authenticate(Http.Header(req, "authorization"), verify, users).value.role == "technical"
    ensures Manager(req, verify, users).None?
  {
  }

  /** One page of a content table ordered by `key`, ascending (`orderBy`,
      `skip` and `take`; a negative limit takes rows from the end). */
  function Page<T>(rows: seq<T>, key: T -> int, plan: Paging.Plan): seq<T> {
    Paging.Take(Sorting.SortBy(rows, key), plan.skip, plan.limit)
  }

  /** A page holds at most as many stored rows as the limit asks for, in
      ascending key order. */
  lemma PageFacts<T>(rows: seq<T>, key: T -> int, plan: Paging.Plan)
    ensures |Page(rows, key, plan)| <= Paging.Size(plan.limit)
    ensures forall x :: x in Page(rows, key, plan) ==> x in rows
    ensures Sorting.SortedBy(Page(rows, key, plan), key)
  {
    Sorting.SortByFacts(rows, key);
    Paging.TakeSorted(Sorting.SortBy(rows, key), plan.skip, plan.limit, key);
    forall x | x in Sorting.SortBy(rows, key)
      ensures x in rows
    {
      assert x in multiset(Sorting.SortBy(rows, key));
    }
  }

  /** Every row of the table is on exactly one of pages 1 to `pages`: the
      pages, one after another, are the ordered table. */
  lemma PagesCoverTable<T>(rows: seq<T>, key: T -> int, limit: nat)
    requires limit > 0
    ensures Paging.FirstPages(Sorting.SortBy(rows, key), limit, Paging.PageCount(|rows|, limit).value)
            == Sorting.SortBy(rows, key)
  {
    Sorting.SortByFacts(rows, key);
    assert |multiset(Sorting.SortBy(rows, key))| == |multiset(rows)|;
    Paging.PagesPartition(Sorting.SortBy(rows, key), limit);
  }

  /** With a key that tells rows apart, every order the store may return for
      `ORDER BY key` is the one sorted table, so its pages cover it too. */
  lemma PagesCoverAnyOrder<T>(rows: seq<T>, order: seq<T>, key: T -> int, limit: nat)
    requires limit > 0
    requires Sorting.SortedBy(order, key) && multiset(order) == multiset(rows)
    requires Sorting.KeyDetermines(rows, key)
    ensures order == Sorting.SortBy(rows, key)
    ensures Paging.FirstPages(order, limit, Paging.PageCount(|rows|, limit).value) == order
  {
    Sorting.SortByFacts(rows, key);
    assert forall x :: x in order <==> x in rows by {
      forall x ensures x in order <==> x in multiset(rows) {
        assert x in order <==> x in multiset(order);
      }
    }
    Sorting.SortedUnique(order, Sorting.SortBy(rows, key), key);
    PagesCoverTable(rows, key, limit);
  }
}
