/** `/api/developer/apps`: the paginated list of launcher apps, in display
    order (`GET`), and the creation of one (`POST`). Both are for content
    managers only. */
module Apps {
  import opened Wrappers
  import opened Json
  import Text
  import Paging
  import Store
  import Http
  import Cms
  import Auth

  function OrderKey(a: Store.App): int {
    a.order
  }

  /** A listed page: its apps, the same apps as the reply renders them, and
      the pagination block. */
  datatype Listing = Listing(apps: seq<Store.App>, rendered: seq<Json>, pagination: Paging.Pagination)

  /** `GET`: `orderBy: { order: 'asc' }` over the whole table; `total` counts
      every app. A page or limit the store refuses (not a number, or a
      negative offset) is a 500; a negative limit pages backwards from the
      last app. */
  function List(req: Http.Request, verify: Auth.Verifier, users: seq<Store.User>, apps: seq<Store.App>)
    : (r: Result<Listing, Http.Response>)
    ensures Cms.Manager(req, verify, users).None? ==> r == Err(Http.Unauthorized)
    ensures Cms.Manager(req, verify, users).Some? ==>
      (r.Ok? <==> Paging.MakePlan(Paging.ReadParams(req)).Some?) && (r.Err? ==> r == Err(Http.InternalError))
    ensures r.Ok? ==>
      var plan := Paging.MakePlan(Paging.ReadParams(req)).value;
      && r.value.pagination == Paging.PaginationOf(plan, |apps|)
      && r.value.apps == Cms.Page(apps, OrderKey, plan)
      && |r.value.rendered| == |r.value.apps|
      && forall i :: 0 <= i < |r.value.apps| ==> r.value.rendered[i] == AppJson(r.value.apps[i], users)
  {
    if Cms.Manager(req, verify, users).None? then Err(Http.Unauthorized)
    else match Paging.MakePlan(Paging.ReadParams(req))
      case None => Err(Http.InternalError)
      case Some(plan) =>
        var page := Cms.Page(apps, OrderKey, plan);
        Ok(Listing(page, Rendered(page, users), Paging.PaginationOf(plan, |apps|)))
  }

  /** A listed page holds at most as many stored apps as the limit asks for,
      lowest `order` first. */
  lemma ListingFacts(req: Http.Request, verify: Auth.Verifier, users: seq<Store.User>, apps: seq<Store.App>)
    requires List(req, verify, users, apps).Ok?
    ensures var l := List(req, verify, users, apps).value;
      && |l.apps| <= Paging.Size(l.pagination.limit)
      && (forall x :: x in l.apps ==> x in apps)
      && (forall i, j :: 0 <= i < j < |l.apps| ==> l.apps[i].order <= l.apps[j].order)
      && l.pagination.total == |apps|
  {
    var plan := Paging.MakePlan(Paging.ReadParams(req)).value;
    Cms.PageFacts(apps, OrderKey, plan);
    var p := Cms.Page(apps, OrderKey, plan);
    forall i, j | 0 <= i < j < |p|
      ensures p[i].order <= p[j].order
    {
      assert OrderKey(p[i]) <= OrderKey(p[j]);
    }
  }

  /** The fields of a creation body; `None` is an absent field. */
  datatype AppBody = AppBody(name: Option<string>, icon: Option<string>, url: Option<string>, color: Option<string>,
                             description: Option<string>, order: Option<int>, isActive: Option<bool>)

  /** The columns a new app gets from its body. */
  datatype NewApp = NewApp(name: string, icon: string, url: string, color: string, description: Option<string>,
                           order: int, isActive: bool)

  /** All four of name, icon, URL and colour are required first, then the URL
      must parse (`isUrl`, the platform's URL parser); `description || null`,
      `order || 0` and an active app by default. */
  function Validate(body: Option<AppBody>, isUrl: string -> bool): (r: Result<NewApp, Http.Response>)
    ensures body.None? ==> r == Err(Http.InternalError)
    ensures (&& body.Some?
             && (|| Text.NonEmpty(body.value.name).None? || Text.NonEmpty(body.value.icon).None?
                 || Text.NonEmpty(body.value.url).None? || Text.NonEmpty(body.value.color).None?)) ==>
      r == Err(Http.ErrorReply(400, "Name, icon, URL, and color are required"))
    ensures r.Ok? <==> && body.Some? && Text.NonEmpty(body.value.name).Some? && Text.NonEmpty(body.value.icon).Some?
                       && Text.NonEmpty(body.value.url).Some? && Text.NonEmpty(body.value.color).Some?
                       && isUrl(body.value.url.value)
    ensures (&& r.Err? && body.Some? && Text.NonEmpty(body.value.name).Some? && Text.NonEmpty(body.value.icon).Some?
             && Text.NonEmpty(body.value.url).Some? && Text.NonEmpty(body.value.color).Some?) ==>
      r == Err(Http.ErrorReply(400, "Invalid URL format"))
    ensures r.Ok? ==> && body.value.name == Some(r.value.name) && body.value.icon == Some(r.value.icon)
                      && body.value.url == Some(r.value.url) && body.value.color == Some(r.value.color)
                      && r.value.description == Text.NonEmpty(body.value.description)
                      && r.value.order == Cms.OrderOf(body.value.order)
                      && r.value.isActive == Cms.ActiveOf(body.value.isActive)
  {
    match body
    case None => Err(Http.InternalError)
    case Some(b) =>
      if || Text.NonEmpty(b.name).None? || Text.NonEmpty(b.icon).None?
         || Text.NonEmpty(b.url).None? || Text.NonEmpty(b.color).None? then
        Err(Http.ErrorReply(400, "Name, icon, URL, and color are required"))
      else if !isUrl(b.url.value) then Err(Http.ErrorReply(400, "Invalid URL format"))
      else Ok(NewApp(b.name.value, b.icon.value, b.url.value, b.color.value, Text.NonEmpty(b.description),
                     Cms.OrderOf(b.order), Cms.ActiveOf(b.isActive)))
  }

  /** An app as the replies render it, with its creator's username. */
  function AppJson(a: Store.App, users: seq<Store.User>): (r: Json)
    ensures r.JObj?
    ensures r.fields.Keys == {"id", "name", "icon", "url", "color", "description", "order", "isActive", "createdBy",
                              "createdAt", "updatedAt", "createdByUser"}
    ensures r.fields["id"] == JStr(a.id) && r.fields["name"] == JStr(a.name) && r.fields["url"] == JStr(a.url)
    ensures r.fields["order"] == JNum(a.order) && r.fields["createdBy"] == JStr(a.createdBy)
    ensures r.fields["createdAt"] == JNum(a.createdAt) && r.fields["updatedAt"] == JNum(a.updatedAt)
    ensures r.fields["createdByUser"] == Auth.CreatorJson(users, a.createdBy)
  {
    JObj(map["id" := JStr(a.id), "name" := JStr(a.name), "icon" := JStr(a.icon), "url" := JStr(a.url),
             "color" := JStr(a.color),
             "description" := (if a.description.Some? then JStr(a.description.value) else JNull),
             "order" := JNum(a.order), "isActive" := JBool(a.isActive), "createdBy" := JStr(a.createdBy),
             "createdAt" := JNum(a.createdAt), "updatedAt" := JNum(a.updatedAt),
             "createdByUser" := Auth.CreatorJson(users, a.createdBy)])
  }

  function Rendered(rows: seq<Store.App>, users: seq<Store.User>): (r: seq<Json>)
    ensures |r| == |rows| && forall i :: 0 <= i < |rows| ==> r[i] == AppJson(rows[i], users)
  {
    seq(|rows|, i requires 0 <= i < |rows| => AppJson(rows[i], users))
  }

  /** The row a validated body becomes. */
  function Row(n: NewApp, id: string, creator: string, now: int): Store.App {
    Store.App(id, n.name, n.icon, n.url, n.color, n.description, n.order, n.isActive, creator, now, now)
  }

  /** `POST`. A failed write (`createFails`) is a 500; `freshId` and `now` are
      the store's generated identifier and timestamp. */
  method Create(req: Http.Request, body: Option<AppBody>, isUrl: string -> bool, verify: Auth.Verifier,
                db: Store.Database, freshId: string, now: int, createFails: bool)
    returns (resp: Http.Response)
    modifies db`apps
    ensures Cms.Manager(req, verify, db.users).None? ==> resp == Http.Unauthorized && db.apps == old(db.apps)
    ensures Cms.Manager(req, verify, db.users).Some? && Validate(body, isUrl).Err? ==>
      resp == Validate(body, isUrl).error && db.apps == old(db.apps)
    ensures Cms.Manager(req, verify, db.users).Some? && Validate(body, isUrl).Ok? ==>
      var a := Row(Validate(body, isUrl).value, freshId, Cms.Manager(req, verify, db.users).value.id, now);
      && db.apps == old(db.apps) + (if createFails then [] else [a])
      && resp == if createFails then Http.InternalError
                 else Http.Reply(201, JObj(map["message" := JStr("App created successfully"), "app" := AppJson(a, db.users)]))
    ensures Cms.Manager(req, verify, db.users).Some? && resp.Reply? && resp.status == 201 ==>
      resp.body.fields["app"].fields["createdByUser"] ==
        JObj(map["username" := JStr(Cms.Manager(req, verify, db.users).value.username)])
  {
    var user := Cms.Manager(req, verify, db.users);
    if user.None? {
      return Http.Unauthorized;
    }
    var n := Validate(body, isUrl);
    if n.Err? {
      return n.error;
    }
    if createFails {
      return Http.InternalError;
    }
    var a := Row(n.value, freshId, user.value.id, now);
    db.apps := db.apps + [a];
    resp := Http.Reply(201, JObj(map["message" := JStr("App created successfully"), "app" := AppJson(a, db.users)]));
    Auth.CallerIsCreator(Http.Header(req, "authorization"), verify, db.users);
  }

  /** Leaving out the optional fields gives an active app at order 0 without
      a description, whatever the URL parser says beyond accepting the link. */
  lemma MinimalBody(name: string, icon: string, url: string, color: string, isUrl: string -> bool)
    requires name != "" && icon != "" && url != "" && color != "" && isUrl(url)
    ensures Validate(Some(AppBody(Some(name), Some(icon), Some(url), Some(color), None, None, None)), isUrl)
            == Ok(NewApp(name, icon, url, color, None, 0, true))
  {
  }
}
