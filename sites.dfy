/** `/api/developer/sites`: the paginated, searchable list of registered sites
    (`GET`) and the registration of a new site with its audit entry (`POST`).
    Both require an authenticated caller of any role. */
module Sites {
  import opened Wrappers
  import opened Json
  import Text
  import Sorting
  import Paging
  import Store
  import Http
  import Auth

  /** A site matches a search when its name, URL or description contains it,
      ignoring case. */
  predicate Matches(s: Store.Site, search: string) {
    || Text.ContainsIgnoreCase(s.name, search)
    || Text.ContainsIgnoreCase(s.url, search)
    || (s.description.Some? && Text.ContainsIgnoreCase(s.description.value, search))
  }

  /** The `where` filter: none for an empty search. Order and repeated rows
      are kept. */
  function Filter(sites: seq<Store.Site>, search: string): (r: seq<Store.Site>)
    ensures |r| <= |sites|
    ensures forall x :: x in r <==> x in sites && (search == "" || Matches(x, search))
    ensures forall x :: multiset(r)[x] == if search == "" || Matches(x, search) then multiset(sites)[x] else 0
  {
    if sites == [] then []
    else
      var rest := Filter(sites[1..], search);
      assert sites == [sites[0]] + sites[1..];
      assert forall x :: x in sites <==> x == sites[0] || x in sites[1..];
      if search == "" || Matches(sites[0], search) then [sites[0]] + rest else rest
  }

  function NewestKey(s: Store.Site): int {
    -s.createdAt
  }

  /** `orderBy: { createdAt: 'desc' }`. */
  function Newest(sites: seq<Store.Site>): seq<Store.Site> {
    Sorting.SortBy(sites, NewestKey)
  }

  /** A listed page: its sites, the same sites as the reply renders them, and
      the pagination block. */
  datatype Listing = Listing(sites: seq<Store.Site>, rendered: seq<Json>, pagination: Paging.Pagination)

  function Caller(req: Http.Request, verify: Auth.Verifier, users: seq<Store.User>): Option<Auth.AuthUser> {
    Auth.Authenticate(Http.Header(req, "authorization"), verify, users)
  }

  function SearchParam(req: Http.Request): string {
    Text.OrElse(Http.Param(req, "search"), "")
  }

  /** `GET`. A page or limit the store refuses (not a number, or a negative
      offset) is a 500; a negative limit pages backwards from the oldest site. */
  function List(req: Http.Request, verify: Auth.Verifier, users: seq<Store.User>, sites: seq<Store.Site>)
    : (r: Result<Listing, Http.Response>)
    ensures Caller(req, verify, users).None? ==> r == Err(Http.Unauthorized)
    ensures Caller(req, verify, users).Some? ==>
      (r.Ok? <==> Paging.MakePlan(Paging.ReadParams(req)).Some?) && (r.Err? ==> r == Err(Http.InternalError))
    ensures r.Ok? ==>
      var plan := Paging.MakePlan(Paging.ReadParams(req)).value;
      var matching := Filter(sites, SearchParam(req));
      && r.value.pagination == Paging.PaginationOf(plan, |matching|)
      && r.value.sites == Paging.Take(Newest(matching), plan.skip, plan.limit)
      && |r.value.rendered| == |r.value.sites|
      && forall i :: 0 <= i < |r.value.sites| ==> r.value.rendered[i] == SiteJson(r.value.sites[i], users)
  {
    if Caller(req, verify, users).None? then Err(Http.Unauthorized)
    else match Paging.MakePlan(Paging.ReadParams(req))
      case None => Err(Http.InternalError)
      case Some(plan) =>
        var matching := Filter(sites, SearchParam(req));
        var page := Paging.Take(Newest(matching), plan.skip, plan.limit);
        Ok(Listing(page, Rendered(page, users), Paging.PaginationOf(plan, |matching|)))
  }

  /** A listed page holds at most as many sites as the limit asks for, each
      of them stored and matching the search, newest first; `total` counts
      every match. */
  lemma ListingFacts(req: Http.Request, verify: Auth.Verifier, users: seq<Store.User>, sites: seq<Store.Site>)
    requires List(req, verify, users, sites).Ok?
    ensures var l := List(req, verify, users, sites).value;
      var search := SearchParam(req);
      && |l.sites| <= Paging.Size(l.pagination.limit)
      && (forall x :: x in l.sites ==> x in sites && (search == "" || Matches(x, search)))
      && (forall i, j :: 0 <= i < j < |l.sites| ==> l.sites[i].createdAt >= l.sites[j].createdAt)
      && l.pagination.total == |Filter(sites, search)|
  {
    var plan := Paging.MakePlan(Paging.ReadParams(req)).value;
    NewestPage(Filter(sites, SearchParam(req)), plan.skip, plan.limit);
  }

  /** A page of the newest-first order holds only the given sites, newest
      first. */
  lemma NewestPage(matching: seq<Store.Site>, skip: nat, take: int)
    ensures var w := Paging.Take(Newest(matching), skip, take);
      && (forall x :: x in w ==> x in matching)
      && (forall i, j :: 0 <= i < j < |w| ==> w[i].createdAt >= w[j].createdAt)
  {
    Sorting.SortByFacts(matching, NewestKey);
    Paging.TakeSorted(Newest(matching), skip, take, NewestKey);
    forall x | x in Newest(matching)
      ensures x in matching
    {
      assert x in multiset(Newest(matching));
    }
    var w := Paging.Take(Newest(matching), skip, take);
    forall i, j | 0 <= i < j < |w|
      ensures w[i].createdAt >= w[j].createdAt
    {
      assert NewestKey(w[i]) <= NewestKey(w[j]);
    }
  }

  /** An empty search lists every site. */
  lemma {:induction false} EmptySearchKeepsAll(sites: seq<Store.Site>)
    ensures Filter(sites, "") == sites
  {
    if sites != [] {
      EmptySearchKeepsAll(sites[1..]);
      assert [sites[0]] + sites[1..] == sites;
    }
  }

  /** The fields of a creation body; `None` is an absent field. */
  datatype SiteBody = SiteBody(name: Option<string>, url: Option<string>, description: Option<string>,
                               siteType: Option<string>)

  /** The columns a new site gets from its body. */
  datatype NewSite = NewSite(name: string, url: string, description: Option<string>, siteType: string)

  const DefaultType := "website"

  /** Name and URL are required first, then the URL must parse (`isUrl`, the
      platform's URL parser); `description || null` and `type || 'website'`. */
  function Validate(body: Option<SiteBody>, isUrl: string -> bool): (r: Result<NewSite, Http.Response>)
    ensures body.None? ==> r == Err(Http.InternalError)
    ensures body.Some? && (Text.NonEmpty(body.value.name).None? || Text.NonEmpty(body.value.url).None?) ==>
      r == Err(Http.ErrorReply(400, "Name and URL are required"))
    ensures r.Ok? <==> body.Some? && Text.NonEmpty(body.value.name).Some? && Text.NonEmpty(body.value.url).Some?
                       && isUrl(body.value.url.value)
    ensures r.Err? && body.Some? && Text.NonEmpty(body.value.name).Some? && Text.NonEmpty(body.value.url).Some? ==>
      r == Err(Http.ErrorReply(400, "Invalid URL format"))
    ensures r.Ok? ==> && body.value.name == Some(r.value.name) && r.value.name != ""
                      && body.value.url == Some(r.value.url)
                      && r.value.description == Text.NonEmpty(body.value.description)
                      && r.value.siteType == Text.OrElse(body.value.siteType, DefaultType)
  {
    match body
    case None => Err(Http.InternalError)
    case Some(b) =>
      if Text.NonEmpty(b.name).None? || Text.NonEmpty(b.url).None? then Err(Http.ErrorReply(400, "Name and URL are required"))
      else if !isUrl(b.url.value) then Err(Http.ErrorReply(400, "Invalid URL format"))
      else Ok(NewSite(b.name.value, b.url.value, Text.NonEmpty(b.description), Text.OrElse(b.siteType, DefaultType)))
  }

  function Put(m: map<string, Json>, key: string, v: Option<string>): map<string, Json> {
    if v.Some? then m[key := JStr(v.value)] else m
  }

  /** The submitted fields as the audit entry records them; absent ones are omitted. */
  function Changes(b: SiteBody): (r: map<string, Json>)
    ensures forall k :: k in r <==> (k == "name" && b.name.Some?) || (k == "url" && b.url.Some?)
                                    || (k == "description" && b.description.Some?) || (k == "type" && b.siteType.Some?)
  {
    Put(Put(Put(Put(map[], "name", b.name), "url", b.url), "description", b.description), "type", b.siteType)
  }

  /** A site as the replies render it, with its creator's username. */
  function SiteJson(s: Store.Site, users: seq<Store.User>): (r: Json)
    ensures r.JObj?
    ensures r.fields.Keys == {"id", "name", "url", "description", "type", "createdBy", "createdAt", "updatedAt",
                              "createdByUser"}
    ensures r.fields["id"] == JStr(s.id) && r.fields["name"] == JStr(s.name) && r.fields["url"] == JStr(s.url)
    ensures r.fields["createdBy"] == JStr(s.createdBy)
    ensures r.fields["createdAt"] == JNum(s.createdAt) && r.fields["updatedAt"] == JNum(s.updatedAt)
    ensures r.fields["createdByUser"] == Auth.CreatorJson(users, s.createdBy)
  {
    JObj(map["id" := JStr(s.id), "name" := JStr(s.name), "url" := JStr(s.url),
             "description" := (if s.description.Some? then JStr(s.description.value) else JNull),
             "type" := JStr(s.siteType), "createdBy" := JStr(s.createdBy), "createdAt" := JNum(s.createdAt),
             "updatedAt" := JNum(s.updatedAt), "createdByUser" := Auth.CreatorJson(users, s.createdBy)])
  }

  function Rendered(ss: seq<Store.Site>, users: seq<Store.User>): (r: seq<Json>)
    ensures |r| == |ss| && forall i :: 0 <= i < |ss| ==> r[i] == SiteJson(ss[i], users)
  {
    seq(|ss|, i requires 0 <= i < |ss| => SiteJson(ss[i], users))
  }

  /** `POST`. The site row and then the audit row are written; a failed write
      (`createFails`, `auditFails`) is a 500, and a site written before a
      failed audit write stays. `freshId` and `now` are the store's generated
      identifier and timestamp. */
  method Create(req: Http.Request, body: Option<SiteBody>, isUrl: string -> bool, verify: Auth.Verifier,
                db: Store.Database, freshId: string, now: int, createFails: bool, auditFails: bool)
    returns (resp: Http.Response)
    modifies db`sites, db`auditLog
    ensures Caller(req, verify, db.users).None? ==>
      resp == Http.Unauthorized && db.sites == old(db.sites) && db.auditLog == old(db.auditLog)
    ensures Caller(req, verify, db.users).Some? && Validate(body, isUrl).Err? ==>
      resp == Validate(body, isUrl).error && db.sites == old(db.sites) && db.auditLog == old(db.auditLog)
    ensures Caller(req, verify, db.users).Some? && Validate(body, isUrl).Ok? ==>
      var user := Caller(req, verify, db.users).value;
      var n := Validate(body, isUrl).value;
      var site := Store.Site(freshId, n.name, n.url, n.description, n.siteType, user.id, now, now);
      && db.sites == old(db.sites) + (if createFails then [] else [site])
      && db.auditLog == old(db.auditLog) +
           (if createFails || auditFails then [] else [Store.AuditEntry(user.id, "create", freshId, Changes(body.value))])
      && resp == if createFails || auditFails then Http.InternalError
                 else Http.Reply(201, JObj(map["message" := JStr("Site created successfully"), "site" := SiteJson(site, db.users)]))
    ensures Caller(req, verify, db.users).Some? && resp.Reply? && resp.status == 201 ==>
      resp.body.fields["site"].fields["createdByUser"] ==
        JObj(map["username" := JStr(Caller(req, verify, db.users).value.username)])
  {
    var user := Caller(req, verify, db.users);
    if user.None? {
      return Http.Unauthorized;
    }
    var n := Validate(body, isUrl);
    if n.Err? {
      return n.error;
    }
    if createFails {
      return Http.InternalError;
    }
    var site := Store.Site(freshId, n.value.name, n.value.url, n.value.description, n.value.siteType, user.value.id, now, now);
    db.sites := db.sites + [site];
    if auditFails {
      return Http.InternalError;
    }
    db.auditLog := db.auditLog + [Store.AuditEntry(user.value.id, "create", freshId, Changes(body.value))];
    resp := Http.Reply(201, JObj(map["message" := JStr("Site created successfully"), "site" := SiteJson(site, db.users)]));
    Auth.CallerIsCreator(Http.Header(req, "authorization"), verify, db.users);
  }

  /** A newly registered site is found by a search for its own name. */
  lemma CreatedSiteIsListed(sites: seq<Store.Site>, site: Store.Site)
    requires site.name != ""
    ensures site in Filter(sites + [site], site.name)
  {
    assert Text.StartsWith(Text.Lower(site.name), Text.Lower(site.name));
    assert Matches(site, site.name);
  }
}
