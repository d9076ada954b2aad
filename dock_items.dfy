/** `/api/developer/dock-items`: the paginated list of dock shortcuts, in
    display order (`GET`), and the creation of one (`POST`). Both are for
    content managers only. */
module DockItems {
  import opened Wrappers
  import opened Json
  import Text
  import Sorting
  import Paging
  import Store
  import Http
  import Cms
  import Auth

  function OrderKey(d: Store.DockItem): int {
    d.order
  }

  /** A listed page: its items, the same items as the reply renders them, and
      the pagination block. */
  datatype Listing = Listing(dockItems: seq<Store.DockItem>, rendered: seq<Json>, pagination: Paging.Pagination)

  /** `GET`: `orderBy: { order: 'asc' }` over the whole table; `total` counts
      every item. A page or limit the store refuses (not a number, or a
      negative offset) is a 500; a negative limit pages backwards from the
      last item. */
  function List(req: Http.Request, verify: Auth.Verifier, users: seq<Store.User>, items: seq<Store.DockItem>)
    : (r: Result<Listing, Http.Response>)
    ensures Cms.Manager(req, verify, users).None? ==> r == Err(Http.Unauthorized)
    ensures Cms.Manager(req, verify, users).Some? ==>
      (r.Ok? <==> Paging.MakePlan(Paging.ReadParams(req)).Some?) && (r.Err? ==> r == Err(Http.InternalError))
    ensures r.Ok? ==>
      var plan := Paging.MakePlan(Paging.ReadParams(req)).value;
      && r.value.pagination == Paging.PaginationOf(plan, |items|)
      && r.value.dockItems == Cms.Page(items, OrderKey, plan)
      && |r.value.rendered| == |r.value.dockItems|
      && forall i :: 0 <= i < |r.value.dockItems| ==> r.value.rendered[i] == ItemJson(r.value.dockItems[i], users)
  {
    if Cms.Manager(req, verify, users).None? then Err(Http.Unauthorized)
    else match Paging.MakePlan(Paging.ReadParams(req))
      case None => Err(Http.InternalError)
      case Some(plan) =>
        var page := Cms.Page(items, OrderKey, plan);
        Ok(Listing(page, Rendered(page, users), Paging.PaginationOf(plan, |items|)))
  }

  /** A listed page holds at most as many stored items as the limit asks
      for, lowest `order` first. */
  lemma ListingFacts(req: Http.Request, verify: Auth.Verifier, users: seq<Store.User>, items: seq<Store.DockItem>)
    requires List(req, verify, users, items).Ok?
    ensures var l := List(req, verify, users, items).value;
      && |l.dockItems| <= Paging.Size(l.pagination.limit)
      && (forall x :: x in l.dockItems ==> x in items)
      && (forall i, j :: 0 <= i < j < |l.dockItems| ==> l.dockItems[i].order <= l.dockItems[j].order)
      && l.pagination.total == |items|
  {
    var plan := Paging.MakePlan(Paging.ReadParams(req)).value;
    Cms.PageFacts(items, OrderKey, plan);
    var p := Cms.Page(items, OrderKey, plan);
    forall i, j | 0 <= i < j < |p|
      ensures p[i].order <= p[j].order
    {
      assert OrderKey(p[i]) <= OrderKey(p[j]);
    }
  }

  /** The fields of a creation body; `None` is an absent field. */
  datatype DockBody = DockBody(title: Option<string>, icon: Option<string>, href: Option<string>,
                               order: Option<int>, isActive: Option<bool>)

  /** The columns a new item gets from its body. */
  datatype NewItem = NewItem(title: string, icon: string, href: string, order: int, isActive: bool)

  /** A relative link or one whose text begins with `http`. */
  predicate HrefAccepted(href: string) {
    Text.StartsWith(href, "/") || Text.StartsWith(href, "http")
  }

  /** Title, icon and link are required first, then the link's form is
      checked; `order || 0` and an active item by default. */
  function Validate(body: Option<DockBody>): (r: Result<NewItem, Http.Response>)
    ensures body.None? ==> r == Err(Http.InternalError)
    ensures body.Some? && (Text.NonEmpty(body.value.title).None? || Text.NonEmpty(body.value.icon).None?
                           || Text.NonEmpty(body.value.href).None?) ==>
      r == Err(Http.ErrorReply(400, "Title, icon, and href are required"))
    ensures r.Ok? <==> && body.Some? && Text.NonEmpty(body.value.title).Some? && Text.NonEmpty(body.value.icon).Some?
                       && Text.NonEmpty(body.value.href).Some? && HrefAccepted(body.value.href.value)
    ensures (&& r.Err? && body.Some? && Text.NonEmpty(body.value.title).Some?
             && Text.NonEmpty(body.value.icon).Some? && Text.NonEmpty(body.value.href).Some?) ==>
      r == Err(Http.ErrorReply(400, "Invalid href format"))
    ensures r.Ok? ==> && body.value.title == Some(r.value.title) && body.value.icon == Some(r.value.icon)
                      && body.value.href == Some(r.value.href)
                      && r.value.order == Cms.OrderOf(body.value.order)
                      && r.value.isActive == Cms.ActiveOf(body.value.isActive)
  {
    match body
    case None => Err(Http.InternalError)
    case Some(b) =>
      if Text.NonEmpty(b.title).None? || Text.NonEmpty(b.icon).None? || Text.NonEmpty(b.href).None? then
        Err(Http.ErrorReply(400, "Title, icon, and href are required"))
      else if !HrefAccepted(b.href.value) then Err(Http.ErrorReply(400, "Invalid href format"))
      else Ok(NewItem(b.title.value, b.icon.value, b.href.value, Cms.OrderOf(b.order), Cms.ActiveOf(b.isActive)))
  }

  /** The link check is a prefix test: a relative path and both web schemes
      pass; another scheme, an upper-case scheme and a bare word do not; and
      any text that merely begins with `http` passes. */
  lemma HrefForms()
    ensures HrefAccepted("/search") && HrefAccepted("https://example.com") && HrefAccepted("http://example.com")
    ensures !HrefAccepted("ftp://example.com") && !HrefAccepted("HTTP://example.com") && !HrefAccepted("search")
    ensures HrefAccepted("httpfoo")
  {
    assert "https://example.com"[..4] == "http";
    assert "http://example.com"[..4] == "http";
    assert "httpfoo"[..4] == "http";
    assert "/search"[..1] == "/";
    assert "ftp://example.com"[0] == 'f' && "HTTP://example.com"[0] == 'H' && "search"[0] == 's';
  }

  /** An item as the replies render it, with its creator's username. */
  function ItemJson(d: Store.DockItem, users: seq<Store.User>): (r: Json)
    ensures r.JObj?
    ensures r.fields.Keys == {"id", "title", "icon", "href", "order", "isActive", "createdBy", "createdAt", "updatedAt",
                              "createdByUser"}
    ensures r.fields["id"] == JStr(d.id) && r.fields["title"] == JStr(d.title) && r.fields["href"] == JStr(d.href)
    ensures r.fields["order"] == JNum(d.order) && r.fields["createdBy"] == JStr(d.createdBy)
    ensures r.fields["createdAt"] == JNum(d.createdAt) && r.fields["updatedAt"] == JNum(d.updatedAt)
    ensures r.fields["createdByUser"] == Auth.CreatorJson(users, d.createdBy)
  {
    JObj(map["id" := JStr(d.id), "title" := JStr(d.title), "icon" := JStr(d.icon), "href" := JStr(d.href),
             "order" := JNum(d.order), "isActive" := JBool(d.isActive), "createdBy" := JStr(d.createdBy),
             "createdAt" := JNum(d.createdAt), "updatedAt" := JNum(d.updatedAt),
             "createdByUser" := Auth.CreatorJson(users, d.createdBy)])
  }

  function Rendered(ds: seq<Store.DockItem>, users: seq<Store.User>): (r: seq<Json>)
    ensures |r| == |ds| && forall i :: 0 <= i < |ds| ==> r[i] == ItemJson(ds[i], users)
  {
    seq(|ds|, i requires 0 <= i < |ds| => ItemJson(ds[i], users))
  }

  /** The row a validated body becomes. */
  function Row(n: NewItem, id: string, creator: string, now: int): Store.DockItem {
    Store.DockItem(id, n.title, n.icon, n.href, n.order, n.isActive, creator, now, now)
  }

  /** `POST`. A failed write (`createFails`) is a 500; `freshId` and `now` are
      the store's generated identifier and timestamp. */
  method Create(req: Http.Request, body: Option<DockBody>, verify: Auth.Verifier, db: Store.Database,
                freshId: string, now: int, createFails: bool)
    returns (resp: Http.Response)
    modifies db`dockItems
    ensures Cms.Manager(req, verify, db.users).None? ==> resp == Http.Unauthorized && db.dockItems == old(db.dockItems)
    ensures Cms.Manager(req, verify, db.users).Some? && Validate(body).Err? ==>
      resp == Validate(body).error && db.dockItems == old(db.dockItems)
    ensures Cms.Manager(req, verify, db.users).Some? && Validate(body).Ok? ==>
      var d := Row(Validate(body).value, freshId, Cms.Manager(req, verify, db.users).value.id, now);
      && db.dockItems == old(db.dockItems) + (if createFails then [] else [d])
      && resp == if createFails then Http.InternalError
                 else Http.Reply(201, JObj(map["message" := JStr("Dock item created successfully"), "dockItem" := ItemJson(d, db.users)]))
    ensures Cms.Manager(req, verify, db.users).Some? && resp.Reply? && resp.status == 201 ==>
      resp.body.fields["dockItem"].fields["createdByUser"] ==
        JObj(map["username" := JStr(Cms.Manager(req, verify, db.users).value.username)])
  {
    var user := Cms.Manager(req, verify, db.users);
    if user.None? {
      return Http.Unauthorized;
    }
    var n := Validate(body);
    if n.Err? {
      return n.error;
    }
    if createFails {
      return Http.InternalError;
    }
    var d := Row(n.value, freshId, user.value.id, now);
    db.dockItems := db.dockItems + [d];
    resp := Http.Reply(201, JObj(map["message" := JStr("Dock item created successfully"), "dockItem" := ItemJson(d, db.users)]));
    Auth.CallerIsCreator(Http.Header(req, "authorization"), verify, db.users);
  }

  /** An item whose `order` is below every stored one is listed first on
      page 1. */
  lemma {:induction false} LowestOrderFirst(items: seq<Store.DockItem>, d: Store.DockItem)
    requires forall x :: x in items ==> d.order < x.order
    ensures Sorting.SortBy(items + [d], OrderKey)[0] == d
  {
    var s := Sorting.SortBy(items + [d], OrderKey);
    Sorting.SortByFacts(items + [d], OrderKey);
    assert d in multiset(items + [d]);
    assert d in s;
    var k :| 0 <= k < |s| && s[k] == d;
    assert s[0] in multiset(items + [d]);
    assert s[0] in items + [d];
  }
}
