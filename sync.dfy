/** `POST /api/developer/sync`: rebuilds the `internal_sites` search index from
    the sites table. The index is emptied, refilled with one document per site,
    and its searchable and filterable attributes are set. The requests go out
    one after another; the first that fails ends the handler with a 500, and
    what the earlier ones did stays done. */
module Sync {
  import opened Wrappers
  import opened Json
  import Engine
  import Store
  import Http
  import Auth
  import Init

  const IndexName := Init.IndexName
  const SearchableAttributes: seq<string> := ["name", "url", "description", "type"]
  const FilterableAttributes: seq<string> := ["type"]

  /** The selected columns of a site, as a search document. */
  function SiteDoc(s: Store.Site): (d: Engine.Doc)
    ensures Engine.DocId(d, "id") == Some(s.id)
  {
    map["id" := JStr(s.id), "name" := JStr(s.name), "url" := JStr(s.url),
        "description" := (if s.description.Some? then JStr(s.description.value) else JNull),
        "type" := JStr(s.siteType)]
  }

  /** A site document has exactly the five selected fields; a missing
      description is sent as `null`. */
  lemma SiteDocKeys(s: Store.Site)
    ensures SiteDoc(s).Keys == {"id", "name", "url", "description", "type"}
    ensures SiteDoc(s)["description"] == if s.description.Some? then JStr(s.description.value) else JNull
  {
  }

  function Projection(sites: seq<Store.Site>): seq<Engine.Doc> {
    seq(|sites|, i requires 0 <= i < |sites| => SiteDoc(sites[i]))
  }

  /** The body of the `addDocuments` request. */
  function Batch(sites: seq<Store.Site>): seq<Json> {
    seq(|sites|, i requires 0 <= i < |sites| => JObj(SiteDoc(sites[i])))
  }

  /** The add request, made only when there is at least one site. */
  function Additions(sites: seq<Store.Site>): seq<Engine.Op> {
    if |sites| > 0 then [Engine.AddDocuments(IndexName, Batch(sites))] else []
  }

  /** The delete-all and the adds that open a sync. */
  function Refill(sites: seq<Store.Site>): seq<Engine.Op> {
    [Engine.DeleteAllDocuments(IndexName)] + Additions(sites)
  }

  /** The two attribute updates that end a sync. */
  const Settings := [Engine.UpdateSearchable(IndexName, SearchableAttributes),
                     Engine.UpdateFilterable(IndexName, FilterableAttributes)]

  /** The engine requests of a sync, in the order they are sent. */
  function SyncOps(sites: seq<Store.Site>): seq<Engine.Op> {
    Refill(sites) + Settings
  }

  /** The store keys sites by identifier. */
  ghost predicate DistinctSiteIds(sites: seq<Store.Site>) {
    forall i, j :: 0 <= i < j < |sites| ==> sites[i].id != sites[j].id
  }

  /** The answer for a run of the sync requests. */
  function SyncReply(syncedCount: nat, outcome: Engine.Outcome): Http.Response {
    match outcome
    case Done =>
      Http.Reply(200, JObj(map["message" := JStr("Meilisearch synchronized successfully"),
                               "syncedCount" := JNum(syncedCount)]))
    case Failed(f) => Http.ErrorDetails(500, "Sync failed", Engine.Message(f))
  }

  /** The handler. An unauthenticated call sends nothing; otherwise every sync
      request is sent until one fails. */
  method Sync(req: Http.Request, verify: Auth.Verifier, db: Store.Database, engine: Engine.Engine,
              fault: Engine.Fault) returns (resp: Http.Response)
    modifies engine
    ensures Auth.Authenticate(Http.Header(req, "authorization"), verify, db.users).None? ==>
      resp == Http.Unauthorized && engine.indexes == old(engine.indexes) && engine.calls == old(engine.calls)
    ensures Auth.Authenticate(Http.Header(req, "authorization"), verify, db.users).Some? ==>
      var r := Engine.RunOps(old(engine.indexes), SyncOps(db.sites), fault, 0);
      && engine.indexes == r.reg
      && engine.calls == old(engine.calls) + SyncOps(db.sites)[..r.performed]
      && resp == SyncReply(|db.sites|, r.outcome)
  {
    var user := Auth.Authenticate(Http.Header(req, "authorization"), verify, db.users);
    if user.None? {
      return Http.Unauthorized;
    }
    var sites := db.sites;
    var outcome := engine.PerformAll(SyncOps(sites), fault, 0);
    resp := SyncReply(|sites|, outcome);
  }

  /** With every site carrying an identifier in the "id" key, the batch is accepted
      as exactly the projected sites. */
  lemma BatchAccepted(sites: seq<Store.Site>)
    ensures Engine.AsDocs(Batch(sites), "id") == Some(Projection(sites))
  {
    Engine.AsDocsOfObjects(Batch(sites), "id", Projection(sites));
  }

  lemma ProjectionDistinct(sites: seq<Store.Site>)
    requires DistinctSiteIds(sites)
    ensures Engine.DistinctIds(Projection(sites), "id")
    ensures forall i :: 0 <= i < |sites| ==> Engine.DocId(Projection(sites)[i], "id").Some?
  {
  }

  /** The registry after the adds of a sync, from the state the delete-all left. */
  lemma AdditionsEffect(reg: Registry, sites: seq<Store.Site>, fault: Engine.Fault)
    requires IndexName in reg && reg[IndexName].primaryKey == "id" && reg[IndexName].docs == []
    requires DistinctSiteIds(sites)
    ensures var r := Engine.RunOps(reg, Additions(sites), fault, 1);
      && (r.outcome.Done? ==> r.reg == reg[IndexName := reg[IndexName].(docs := Projection(sites))])
      && (fault != Engine.FailAt(1) ==> r.outcome.Done?)
      && (|sites| > 0 && fault == Engine.FailAt(1) ==> r == Engine.Run(reg, 1, Engine.Failed(Engine.Unreachable)))
  {
    if |sites| > 0 {
      Engine.RunOpsSingle(reg, Engine.AddDocuments(IndexName, Batch(sites)), fault, 1);
      BatchAccepted(sites);
      ProjectionDistinct(sites);
      Engine.UpsertAllIntoEmpty("id", Projection(sites));
    } else {
      assert Projection(sites) == [];
      assert reg[IndexName := reg[IndexName].(docs := [])] == reg;
    }
  }

  type Registry = Engine.Registry

  /** The registry a successful sync leaves: the index holds exactly the projected
      sites, with the sync's attribute settings; every other index is as it was. */
  function Synced(reg: Registry, sites: seq<Store.Site>): Registry
    requires IndexName in reg
  {
    reg[IndexName := Engine.Index(reg[IndexName].primaryKey, Projection(sites), SearchableAttributes, FilterableAttributes)]
  }

  /** The delete-all and the adds: the index holds exactly the projected sites. */
  lemma ClearAndFill(reg: Registry, sites: seq<Store.Site>, fault: Engine.Fault)
    requires DistinctSiteIds(sites)
    requires IndexName in reg && reg[IndexName].primaryKey == "id"
    ensures var r := Engine.RunOps(reg, Refill(sites), fault, 0);
      && (r.outcome.Done? ==> r.reg == reg[IndexName := reg[IndexName].(docs := Projection(sites))])
      && (r.outcome.Done? ==> r.performed == 1 + |Additions(sites)|)
      && (fault == Engine.NoFault ==> r.outcome.Done?)
  {
    var d := [Engine.DeleteAllDocuments(IndexName)];
    Engine.RunOpsAppend(reg, d, Additions(sites), fault, 0);
    Engine.RunOpsSingle(reg, d[0], fault, 0);
    var reg1 := reg[IndexName := reg[IndexName].(docs := [])];
    AdditionsEffect(reg1, sites, fault);
    assert reg1[IndexName := reg1[IndexName].(docs := Projection(sites))]
        == reg[IndexName := reg[IndexName].(docs := Projection(sites))];
  }

  /** The two attribute updates. */
  lemma Configure(reg: Registry, fault: Engine.Fault, first: nat)
    requires IndexName in reg
    ensures var r := Engine.RunOps(reg, Settings, fault, first);
      && (r.outcome.Done? ==> r.reg == reg[IndexName := reg[IndexName].(searchable := SearchableAttributes,
                                                                        filterable := FilterableAttributes)])
      && (fault == Engine.NoFault ==> r.outcome.Done?)
  {
    var s := Engine.UpdateSearchable(IndexName, SearchableAttributes);
    var f := Engine.UpdateFilterable(IndexName, FilterableAttributes);
    Engine.RunOpsAppend(reg, [s], [f], fault, first);
    assert [s] + [f] == [s, f];
    Engine.RunOpsSingle(reg, s, fault, first);
    var reg1 := reg[IndexName := reg[IndexName].(searchable := SearchableAttributes)];
    Engine.RunOpsSingle(reg1, f, fault, first + 1);
  }

  /** A sync replaces the index contents completely, and succeeds whenever no
      request fails in transit and the index exists with primary key "id". */
  lemma SyncReplacesIndex(reg: Registry, sites: seq<Store.Site>, fault: Engine.Fault)
    requires DistinctSiteIds(sites)
    requires IndexName in reg && reg[IndexName].primaryKey == "id"
    ensures var r := Engine.RunOps(reg, SyncOps(sites), fault, 0);
      && (r.outcome.Done? ==> r.reg == Synced(reg, sites))
      && (fault == Engine.NoFault ==> r.outcome.Done?)
  {
    var reg2 := reg[IndexName := reg[IndexName].(docs := Projection(sites))];
    ClearAndFill(reg, sites, fault);
    Configure(reg2, fault, |Refill(sites)|);
    assert reg2[IndexName := reg2[IndexName].(searchable := SearchableAttributes, filterable := FilterableAttributes)]
        == Synced(reg, sites);
    Engine.RunOpsCompose(reg, Refill(sites), Settings, fault, 0, reg2, Synced(reg, sites));
  }

  /** Two syncs over unchanged sites leave the same registry as one. */
  lemma SyncIdempotent(reg: Registry, sites: seq<Store.Site>, fault1: Engine.Fault, fault2: Engine.Fault)
    requires DistinctSiteIds(sites)
    requires IndexName in reg && reg[IndexName].primaryKey == "id"
    requires Engine.RunOps(reg, SyncOps(sites), fault1, 0).outcome.Done?
    ensures var once := Engine.RunOps(reg, SyncOps(sites), fault1, 0).reg;
      Engine.RunOps(once, SyncOps(sites), fault2, 0).outcome.Done? ==>
        Engine.RunOps(once, SyncOps(sites), fault2, 0).reg == once
  {
    SyncReplacesIndex(reg, sites, fault1);
    var once := Engine.RunOps(reg, SyncOps(sites), fault1, 0).reg;
    SyncReplacesIndex(once, sites, fault2);
  }

  /** Without sites no add request is made, and the index ends up empty
      whatever its primary key. */
  lemma NoSitesNoAdd(reg: Registry)
    requires IndexName in reg
    ensures forall k :: 0 <= k < |SyncOps([])| ==> !SyncOps([])[k].AddDocuments?
    ensures var r := Engine.RunOps(reg, SyncOps([]), Engine.NoFault, 0);
      r.outcome.Done? && r.reg[IndexName].docs == []
  {
    var d := Engine.DeleteAllDocuments(IndexName);
    assert Refill([]) == [d];
    Engine.RunOpsSingle(reg, d, Engine.NoFault, 0);
    var reg1 := reg[IndexName := reg[IndexName].(docs := [])];
    Configure(reg1, Engine.NoFault, 1);
    Engine.RunOpsThen(reg, Refill([]), Settings, Engine.NoFault, 0);
  }

  /** A failure of the add request leaves the index emptied: the deleted
      documents are not restored. */
  lemma FailedAddLosesDocuments(reg: Registry, sites: seq<Store.Site>)
    requires DistinctSiteIds(sites) && |sites| > 0
    requires IndexName in reg && reg[IndexName].primaryKey == "id"
    ensures var r := Engine.RunOps(reg, SyncOps(sites), Engine.FailAt(1), 0);
      && r.outcome == Engine.Failed(Engine.Unreachable)
      && r.performed == 2
      && r.reg == reg[IndexName := reg[IndexName].(docs := [])]
  {
    var d := [Engine.DeleteAllDocuments(IndexName)];
    Engine.RunOpsSingle(reg, d[0], Engine.FailAt(1), 0);
    var reg1 := reg[IndexName := reg[IndexName].(docs := [])];
    AdditionsEffect(reg1, sites, Engine.FailAt(1));
    Engine.RunOpsThen(reg, d, Additions(sites), Engine.FailAt(1), 0);
    Engine.RunOpsStops(reg, Refill(sites), Settings, Engine.FailAt(1), 0);
  }

  /** Without the index the delete-all is refused and nothing else is sent. */
  lemma MissingIndexFails(reg: Registry, sites: seq<Store.Site>, fault: Engine.Fault)
    requires IndexName !in reg && fault != Engine.FailAt(0)
    ensures Engine.RunOps(reg, SyncOps(sites), fault, 0) == Engine.Run(reg, 1, Engine.Failed(Engine.IndexNotFound))
  {
    assert SyncOps(sites)[0] == Engine.DeleteAllDocuments(IndexName);
    Init.IndexNameIsValid();
    assert Engine.Apply(reg, Engine.DeleteAllDocuments(IndexName)) == Err(Engine.IndexNotFound);
    Engine.RunOpsCons(reg, SyncOps(sites), fault, 0);
  }
}
