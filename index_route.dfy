/** `/api/meilisearch/index`: creating an index (`POST`), deleting one
    (`DELETE`) and reading its statistics (`GET`). Each handler validates its
    input, then sends a single request to the engine. */
module IndexRoute {
  import opened Wrappers
  import opened Json
  import Engine
  import Http

  type Registry = Engine.Registry

  const DefaultPrimaryKey := "id"

  /** The `uid` and `primaryKey` sent to `createIndex`, as the body holds them. */
  datatype Creation = Creation(uid: Json, primaryKey: Json)

  /** The index a creation body asks for. A present, truthy `indexName` is
      required and sent as it is; `primaryKey || 'id'` picks the key. Whether
      they are strings, and a name an index can have, is for the engine to
      decide. */
  function CreateRequest(body: Option<Json>): (r: Result<Creation, Http.Response>)
    ensures !Http.Destructurable(body) ==>
      r == Err(Http.ErrorDetails(500, "Failed to create index", Http.MalformedBody))
    ensures Http.Destructurable(body) && !Http.Given(body.value, "indexName") ==>
      r == Err(Http.ErrorReply(400, "Index name is required"))
    ensures r.Ok? <==> Http.Destructurable(body) && Http.Given(body.value, "indexName")
    ensures r.Ok? ==> Http.Field(body.value, "indexName") == Some(r.value.uid) && Truthy(r.value.uid)
    ensures r.Ok? ==> && Truthy(r.value.primaryKey)
                      && if Http.Given(body.value, "primaryKey")
                         then Http.Field(body.value, "primaryKey") == Some(r.value.primaryKey)
                         else r.value.primaryKey == JStr(DefaultPrimaryKey)
  {
    if !Http.Destructurable(body) then Err(Http.ErrorDetails(500, "Failed to create index", Http.MalformedBody))
    else if !Http.Given(body.value, "indexName") then Err(Http.ErrorReply(400, "Index name is required"))
    else
      var key := if Http.Given(body.value, "primaryKey") then Http.Field(body.value, "primaryKey").value else JStr(DefaultPrimaryKey);
      Ok(Creation(Http.Field(body.value, "indexName").value, key))
  }

  function CreateReply(outcome: Engine.Outcome): Http.Response {
    match outcome
    case Done => Http.Reply(201, JObj(map["message" := JStr("Index created successfully")]))
    case Failed(f) => Http.ErrorDetails(500, "Failed to create index", Engine.Message(f))
  }

  /** `POST`: a refused body sends nothing; otherwise one `createIndex`. */
  method Create(req: Http.Request, engine: Engine.Engine, fault: Engine.Fault) returns (resp: Http.Response)
    modifies engine
    ensures CreateRequest(req.body).Err? ==>
      resp == CreateRequest(req.body).error && engine.indexes == old(engine.indexes) && engine.calls == old(engine.calls)
    ensures CreateRequest(req.body).Ok? ==>
      var c := CreateRequest(req.body).value;
      var op := Engine.CreateIndex(c.uid, c.primaryKey);
      && engine.calls == old(engine.calls) + [op]
      && engine.indexes == Engine.Step(old(engine.indexes), op, fault == Engine.FailAt(0)).0
      && resp == CreateReply(Engine.Step(old(engine.indexes), op, fault == Engine.FailAt(0)).1)
  {
    var c := CreateRequest(req.body);
    if c.Err? {
      return c.error;
    }
    var outcome := engine.Perform(Engine.CreateIndex(c.value.uid, c.value.primaryKey), fault == Engine.FailAt(0));
    resp := CreateReply(outcome);
  }

  /** The `name` search parameter, which must be present and non-empty. */
  function NameParam(req: Http.Request): (r: Result<string, Http.Response>)
    ensures r.Ok? <==> Http.Param(req, "name").Some? && Http.Param(req, "name").value != ""
    ensures r.Ok? ==> Http.Param(req, "name") == Some(r.value)
    ensures r.Err? ==> r.error == Http.ErrorReply(400, "Index name is required")
  {
    match Http.Param(req, "name")
    case Some(name) => if name == "" then Err(Http.ErrorReply(400, "Index name is required")) else Ok(name)
    case None => Err(Http.ErrorReply(400, "Index name is required"))
  }

  function DeleteReply(name: string, outcome: Engine.Outcome): Http.Response {
    match outcome
    case Done => Http.Reply(200, JObj(map["message" := JStr("Index '" + name + "' deleted successfully")]))
    case Failed(f) => Http.ErrorDetails(500, "Failed to delete index", Engine.Message(f))
  }

  /** `DELETE`: one `deleteIndex` for a named index. Unlike the teardown of
      the initialisation route, a missing index is a 500. */
  method Delete(req: Http.Request, engine: Engine.Engine, fault: Engine.Fault) returns (resp: Http.Response)
    modifies engine
    ensures NameParam(req).Err? ==>
      resp == NameParam(req).error && engine.indexes == old(engine.indexes) && engine.calls == old(engine.calls)
    ensures NameParam(req).Ok? ==>
      var name := NameParam(req).value;
      && engine.calls == old(engine.calls) + [Engine.DeleteIndex(name)]
      && resp.Reply? && (resp.status == 200 || resp.status == 500)
      && (resp.status == 200 <==> name in old(engine.indexes) && fault != Engine.FailAt(0))
      && engine.indexes == (if resp.status == 200 then old(engine.indexes) - {name} else old(engine.indexes))
      && resp == DeleteReply(name, Engine.Step(old(engine.indexes), Engine.DeleteIndex(name), fault == Engine.FailAt(0)).1)
  {
    var name := NameParam(req);
    if name.Err? {
      return name.error;
    }
    var outcome := engine.Perform(Engine.DeleteIndex(name.value), fault == Engine.FailAt(0));
    resp := DeleteReply(name.value, outcome);
  }

  function StatsReply(name: string, r: Result<nat, Engine.Failure>): Http.Response {
    match r
    case Ok(count) =>
      Http.Reply(200, JObj(map["indexName" := JStr(name), "stats" := JObj(map["numberOfDocuments" := JNum(count)])]))
    case Err(f) => Http.ErrorDetails(500, "Failed to get index stats", Engine.Message(f))
  }

  /** `GET`: the document count of a named index; the registry is unchanged. */
  method Stats(req: Http.Request, engine: Engine.Engine, fault: Engine.Fault) returns (resp: Http.Response)
    modifies engine`calls
    ensures NameParam(req).Err? ==> resp == NameParam(req).error && engine.calls == old(engine.calls)
    ensures NameParam(req).Ok? ==>
      var name := NameParam(req).value;
      && engine.calls == old(engine.calls) + [Engine.GetStats(name)]
      && resp == StatsReply(name, if fault == Engine.FailAt(0) then Err(Engine.Unreachable)
                                  else if name in engine.indexes then Ok(|engine.indexes[name].docs|)
                                  else Err(Engine.Missing(name)))
  {
    var name := NameParam(req);
    if name.Err? {
      return name.error;
    }
    var count := engine.Stats(name.value, fault == Engine.FailAt(0));
    resp := StatsReply(name.value, count);
  }

  /** A created index is empty, has the requested primary key, and a second
      creation under the same name is refused. */
  lemma CreateThenStats(reg: Registry, name: string, key: string)
    requires Engine.ValidUid(name) && name !in reg
    ensures var op := Engine.CreateIndex(JStr(name), JStr(key));
      var (reg1, outcome) := Engine.Step(reg, op, false);
      && outcome == Engine.Done
      && reg1 == reg[name := Engine.NewIndex(key)]
      && StatsReply(name, Ok(|reg1[name].docs|)) == StatsReply(name, Ok(0))
      && Engine.Step(reg1, op, false) == (reg1, Engine.Failed(Engine.IndexExists))
  {
  }

  /** The engine, not the route, refuses a name that is not a string or not a
      name an index can have, and a primary key that is not a string; the
      route answers 500 with the engine's reason and nothing changes. */
  lemma EngineRefusesCreation(reg: Registry, c: Creation)
    requires !c.uid.JStr? || !Engine.ValidUid(c.uid.s) || !c.primaryKey.JStr?
    ensures var (reg1, outcome) := Engine.Step(reg, Engine.CreateIndex(c.uid, c.primaryKey), false);
      && reg1 == reg
      && outcome == Engine.Failed(if !c.uid.JStr? || !Engine.ValidUid(c.uid.s) then Engine.InvalidIndexUid
                                  else Engine.InvalidPrimaryKey)
      && CreateReply(outcome).status == 500
  {
  }

  /** A numeric name passes the route's check and reaches the engine, which
      refuses it. */
  lemma NumericNameReachesEngine(reg: Registry, n: int)
    requires n != 0
    ensures CreateRequest(Some(JObj(map["indexName" := JNum(n)]))) == Ok(Creation(JNum(n), JStr(DefaultPrimaryKey)))
    ensures Engine.Step(reg, Engine.CreateIndex(JNum(n), JStr(DefaultPrimaryKey)), false)
            == (reg, Engine.Failed(Engine.InvalidIndexUid))
  {
    assert Http.Field(JObj(map["indexName" := JNum(n)]), "primaryKey").None?;
  }

  /** A body without a usable `primaryKey` gets the default key. */
  lemma PrimaryKeyDefaults(name: Json, key: Json)
    requires Truthy(name) && !Truthy(key)
    ensures CreateRequest(Some(JObj(map["indexName" := name]))) == Ok(Creation(name, JStr(DefaultPrimaryKey)))
    ensures CreateRequest(Some(JObj(map["indexName" := name, "primaryKey" := key])))
            == Ok(Creation(name, JStr(DefaultPrimaryKey)))
  {
    var b := JObj(map["indexName" := name, "primaryKey" := key]);
    assert Http.Field(b, "primaryKey") == Some(key);
    assert Http.Field(JObj(map["indexName" := name]), "primaryKey").None?;
  }
}
