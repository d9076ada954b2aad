/** `/api/meilisearch/documents`: adding documents to an index (`POST`),
    deleting some of them (`DELETE`) and listing a page of them (`GET`). Each
    handler validates its input, then sends a single request to the engine. */
module DocumentsRoute {
  import opened Wrappers
  import opened Json
  import Engine
  import Http
  import Numbers
  import Text
  import Paging

  type Registry = Engine.Registry

  datatype Addition = Addition(name: string, documents: seq<Json>)

  const NameRequired: Http.Response := Http.ErrorReply(400, "Index name is required")
  const DocumentsRequired: Http.Response := Http.ErrorReply(400, "Documents array is required and must not be empty")
  const IdsRequired: Http.Response := Http.ErrorReply(400, "Document IDs are required (string or array)")

  /** The index a route addresses: the string form of a truthy `indexName`,
      which the engine client puts in the request path and the reply in its
      message. */
  function IndexNameOf(body: Json): string
    requires Http.Given(body, "indexName")
  {
    JsString(Http.Field(body, "indexName").value)
  }

  /** A truthy `indexName` is checked first, then a non-empty `documents`
      array. A truthy name that is not a string is sent in its string form. */
  function AddRequest(body: Option<Json>): (r: Result<Addition, Http.Response>)
    ensures !Http.Destructurable(body) ==> r == Err(Http.ErrorDetails(500, "Failed to add documents", Http.MalformedBody))
    ensures Http.Destructurable(body) && !Http.Given(body.value, "indexName") ==> r == Err(NameRequired)
    ensures (&& Http.Destructurable(body) && Http.Given(body.value, "indexName")
             && !(Http.Field(body.value, "documents").Some? && Http.Field(body.value, "documents").value.JArr? &&
                  |Http.Field(body.value, "documents").value.items| > 0)) ==> r == Err(DocumentsRequired)
    ensures r.Ok? <==> Http.Destructurable(body) && Http.Given(body.value, "indexName") &&
                       Http.Field(body.value, "documents").Some? && Http.Field(body.value, "documents").value.JArr? &&
                       |Http.Field(body.value, "documents").value.items| > 0
    ensures r.Ok? ==> && r.value.name == IndexNameOf(body.value)
                      && Http.Field(body.value, "documents") == Some(JArr(r.value.documents))
                      && |r.value.documents| > 0
  {
    if !Http.Destructurable(body) then Err(Http.ErrorDetails(500, "Failed to add documents", Http.MalformedBody))
    else if !Http.Given(body.value, "indexName") then Err(NameRequired)
    else match Http.Field(body.value, "documents")
      case Some(JArr(items)) =>
        if |items| == 0 then Err(DocumentsRequired) else Ok(Addition(IndexNameOf(body.value), items))
      case _ => Err(DocumentsRequired)
  }

  /** A string name is sent unchanged. */
  lemma StringName(s: string, items: seq<Json>)
    requires s != "" && items != []
    ensures AddRequest(Some(JObj(map["indexName" := JStr(s), "documents" := JArr(items)]))) == Ok(Addition(s, items))
  {
    assert Http.Field(JObj(map["indexName" := JStr(s), "documents" := JArr(items)]), "documents") == Some(JArr(items));
  }

  /** A numeric name is sent as its decimal form: `{"indexName": 5}` adds to
      the index named "5". */
  lemma NumericName(n: int, items: seq<Json>)
    requires n != 0 && items != []
    ensures AddRequest(Some(JObj(map["indexName" := JNum(n), "documents" := JArr(items)])))
            == Ok(Addition(Numbers.IntToString(n), items))
  {
    assert Http.Field(JObj(map["indexName" := JNum(n), "documents" := JArr(items)]), "documents") == Some(JArr(items));
  }

  function AddReply(a: Addition, outcome: Engine.Outcome): Http.Response {
    match outcome
    case Done =>
      Http.Reply(201, JObj(map[
        "message" := JStr("Successfully added " + Numbers.IntToString(|a.documents|) + " documents to index '" + a.name + "'"),
        "documentsCount" := JNum(|a.documents|)]))
    case Failed(f) => Http.ErrorDetails(500, "Failed to add documents", Engine.Message(f))
  }

  /** `POST`: one `addDocuments` for a valid body, nothing otherwise. */
  method Add(req: Http.Request, engine: Engine.Engine, fault: Engine.Fault) returns (resp: Http.Response)
    modifies engine
    ensures AddRequest(req.body).Err? ==>
      resp == AddRequest(req.body).error && engine.indexes == old(engine.indexes) && engine.calls == old(engine.calls)
    ensures AddRequest(req.body).Ok? ==>
      var a := AddRequest(req.body).value;
      var op := Engine.AddDocuments(a.name, a.documents);
      && engine.calls == old(engine.calls) + [op]
      && engine.indexes == Engine.Step(old(engine.indexes), op, fault == Engine.FailAt(0)).0
      && resp == AddReply(a, Engine.Step(old(engine.indexes), op, fault == Engine.FailAt(0)).1)
  {
    var a := AddRequest(req.body);
    if a.Err? {
      return a.error;
    }
    var outcome := engine.Perform(Engine.AddDocuments(a.value.name, a.value.documents), fault == Engine.FailAt(0));
    resp := AddReply(a.value, outcome);
  }

  /** An accepted addition to a well-formed index, or to one it creates,
      whose documents have distinct identifiers puts every one of them in the
      index, keeps it well formed, keeps the documents it does not replace,
      and leaves other indexes alone. */
  lemma AddedDocumentsAreStored(reg: Registry, name: string, items: seq<Json>)
    requires Engine.Destination(reg, name, items).Ok?
    requires Engine.WellFormed(Engine.Destination(reg, name, items).value)
    requires var pk := Engine.Destination(reg, name, items).value.primaryKey;
      Engine.AsDocs(items, pk).Some? && Engine.DistinctIds(Engine.AsDocs(items, pk).value, pk)
    ensures var idx := Engine.Destination(reg, name, items).value;
      var r := Engine.Apply(reg, Engine.AddDocuments(name, items));
      && r.Ok? && name in r.value
      && r.value - {name} == reg - {name}
      && r.value[name].primaryKey == idx.primaryKey
      && Engine.WellFormed(r.value[name])
      && (forall i :: 0 <= i < |items| ==> items[i].JObj? && items[i].fields in r.value[name].docs)
      && (forall x :: x in idx.docs && (forall i :: 0 <= i < |items| ==>
                        Engine.DocId(x, idx.primaryKey) != Engine.DocId(items[i].fields, idx.primaryKey))
                      ==> x in r.value[name].docs)
  {
    var idx := Engine.Destination(reg, name, items).value;
    var docs := Engine.UpsertAll(idx.docs, idx.primaryKey, Engine.AsDocs(items, idx.primaryKey).value);
    AddResult(reg, name, items);
    assert Engine.Apply(reg, Engine.AddDocuments(name, items)).value[name] == idx.(docs := docs);
    BatchStored(idx, items);
  }

  /** The index facts of an accepted addition, stated on the request's items. */
  lemma BatchStored(idx: Engine.Index, items: seq<Json>)
    requires Engine.WellFormed(idx)
    requires Engine.AsDocs(items, idx.primaryKey).Some? && Engine.DistinctIds(Engine.AsDocs(items, idx.primaryKey).value, idx.primaryKey)
    ensures var docs := Engine.UpsertAll(idx.docs, idx.primaryKey, Engine.AsDocs(items, idx.primaryKey).value);
      && Engine.WellFormed(idx.(docs := docs))
      && (forall i :: 0 <= i < |items| ==> items[i].JObj? && items[i].fields in docs)
      && (forall x :: x in idx.docs && (forall i :: 0 <= i < |items| ==>
                        Engine.DocId(x, idx.primaryKey) != Engine.DocId(items[i].fields, idx.primaryKey))
                      ==> x in docs)
  {
    var pk := idx.primaryKey;
    var ds := Engine.AsDocs(items, pk).value;
    var docs := Engine.UpsertAll(idx.docs, pk, ds);
    Engine.UpsertAllFacts(idx, ds);
    forall i | 0 <= i < |items|
      ensures items[i].JObj? && items[i].fields in docs
    {
      assert items[i] == JObj(ds[i]);
    }
    forall x | x in idx.docs && (forall i :: 0 <= i < |items| ==> Engine.DocId(x, pk) != Engine.DocId(items[i].fields, pk))
      ensures x in docs
    {
      forall i | 0 <= i < |ds|
        ensures Engine.DocId(x, pk) != Engine.DocId(ds[i], pk)
      {
        assert items[i] == JObj(ds[i]);
      }
    }
  }

  /** An addition lands in the existing index, or in one it creates with the
      inferred primary key, and changes no other index. */
  lemma AddResult(reg: Registry, name: string, items: seq<Json>)
    requires Engine.Destination(reg, name, items).Ok?
    requires Engine.AsDocs(items, Engine.Destination(reg, name, items).value.primaryKey).Some?
    ensures var idx := Engine.Destination(reg, name, items).value;
      var ds := Engine.AsDocs(items, idx.primaryKey).value;
      var reg1 := reg[name := idx.(docs := Engine.UpsertAll(idx.docs, idx.primaryKey, ds))];
      && Engine.Apply(reg, Engine.AddDocuments(name, items)) == Ok(reg1)
      && reg1 - {name} == reg - {name}
      && (name in reg ==> idx == reg[name])
      && (name !in reg ==> Engine.Candidates(items[0].fields) == {idx.primaryKey} && idx.docs == [])
  {
  }

  /** A first batch to a missing index creates it with the one candidate
      attribute of its first document as primary key, and stores the batch. */
  lemma InferredKey(reg: Registry, name: string, d: Engine.Doc, k: string)
    requires Engine.ValidUid(name) && name !in reg
    requires Engine.Candidates(d) == {k} && Engine.DocId(d, k).Some?
    ensures Engine.Apply(reg, Engine.AddDocuments(name, [JObj(d)])) == Ok(reg[name := Engine.NewIndex(k).(docs := [d])])
  {
    assert Engine.Destination(reg, name, [JObj(d)]) == Ok(Engine.NewIndex(k));
    Engine.AsDocsOfObjects([JObj(d)], k, [d]);
    AddResult(reg, name, [JObj(d)]);
    Engine.UpsertAllIntoEmpty(k, [d]);
  }

  /** A first batch to a missing index is refused, and nothing changes, when
      its first document has no candidate attribute or several. */
  lemma InferenceRefused(reg: Registry, name: string, items: seq<Json>)
    requires Engine.ValidUid(name) && name !in reg && items != [] && items[0].JObj?
    ensures Engine.Candidates(items[0].fields) == {} ==>
      Engine.Apply(reg, Engine.AddDocuments(name, items)) == Err(Engine.NoPrimaryKeyCandidate)
    ensures |Engine.Candidates(items[0].fields)| > 1 ==>
      Engine.Apply(reg, Engine.AddDocuments(name, items)) == Err(Engine.MultiplePrimaryKeyCandidates)
  {
  }

  /** `{"sku_id": 1}` has the one candidate `sku_id`, `{"sku": 1}` none, and
      `{"id": 1, "user_id": 2}` two. */
  lemma CandidateExamples()
    ensures Engine.Candidates(map["sku_id" := JNum(1)]) == {"sku_id"}
    ensures Engine.Candidates(map["sku" := JNum(1)]) == {}
    ensures |Engine.Candidates(map["id" := JNum(1), "user_id" := JNum(2)])| > 1
  {
    assert "sku_id" in Engine.Candidates(map["sku_id" := JNum(1)]);
    assert !Engine.IdLike("sku");
    var c := Engine.Candidates(map["id" := JNum(1), "user_id" := JNum(2)]);
    assert Engine.IdLike("id") && Engine.IdLike("user_id");
    assert "id" in c && "user_id" in c;
    if |c| == 1 {
      Engine.OneElement(c);
      assert false;
    }
  }

  /** What a deletion body asks for: a batch of identifiers or a single one. */
  datatype Removal =
    | Batch(name: string, ids: seq<Json>)
    | Single(name: string, id: string)

  /** A truthy `indexName` is checked first, then `documentIds`, which must be
      an array (even an empty one) or a non-empty string. A truthy name that
      is not a string is sent in its string form. */
  function DeleteRequest(body: Option<Json>): (r: Result<Removal, Http.Response>)
    ensures !Http.Destructurable(body) ==> r == Err(Http.ErrorDetails(500, "Failed to delete documents", Http.MalformedBody))
    ensures Http.Destructurable(body) && !Http.Given(body.value, "indexName") ==> r == Err(NameRequired)
    ensures Http.Destructurable(body) && Http.Given(body.value, "indexName") ==>
      var ids := Http.Field(body.value, "documentIds");
      && (r.Ok? <==> ids.Some? && (ids.value.JArr? || (ids.value.JStr? && ids.value.s != "")))
      && (r.Err? ==> r == Err(IdsRequired))
    ensures r.Ok? ==> && r.value.name == IndexNameOf(body.value)
                      && match r.value
                         case Batch(_, ids) => Http.Field(body.value, "documentIds") == Some(JArr(ids))
                         case Single(_, id) => Http.Field(body.value, "documentIds") == Some(JStr(id)) && id != ""
  {
    if !Http.Destructurable(body) then Err(Http.ErrorDetails(500, "Failed to delete documents", Http.MalformedBody))
    else if !Http.Given(body.value, "indexName") then Err(NameRequired)
    else match Http.Field(body.value, "documentIds")
      case Some(JArr(ids)) => Ok(Batch(IndexNameOf(body.value), ids))
      case Some(JStr(id)) => if id == "" then Err(IdsRequired) else Ok(Single(IndexNameOf(body.value), id))
      case _ => Err(IdsRequired)
  }

  /** The engine request for a removal: an array goes to `deleteDocuments`, a
      string to `deleteDocument`. */
  function RemovalOp(rm: Removal): (op: Engine.Op)
    ensures rm.Batch? ==> op == Engine.DeleteDocuments(rm.name, rm.ids)
    ensures rm.Single? ==> op == Engine.DeleteDocument(rm.name, rm.id)
  {
    match rm
    case Batch(name, ids) => Engine.DeleteDocuments(name, ids)
    case Single(name, id) => Engine.DeleteDocument(name, id)
  }

  function DeleteReply(rm: Removal, outcome: Engine.Outcome): Http.Response {
    match outcome
    case Done => Http.Reply(200, JObj(map["message" := JStr("Successfully deleted documents from index '" + rm.name + "'")]))
    case Failed(f) => Http.ErrorDetails(500, "Failed to delete documents", Engine.Message(f))
  }

  /** `DELETE`: one deletion request for a valid body, nothing otherwise. */
  method Delete(req: Http.Request, engine: Engine.Engine, fault: Engine.Fault) returns (resp: Http.Response)
    modifies engine
    ensures DeleteRequest(req.body).Err? ==>
      resp == DeleteRequest(req.body).error && engine.indexes == old(engine.indexes) && engine.calls == old(engine.calls)
    ensures DeleteRequest(req.body).Ok? ==>
      var rm := DeleteRequest(req.body).value;
      && engine.calls == old(engine.calls) + [RemovalOp(rm)]
      && engine.indexes == Engine.Step(old(engine.indexes), RemovalOp(rm), fault == Engine.FailAt(0)).0
      && resp == DeleteReply(rm, Engine.Step(old(engine.indexes), RemovalOp(rm), fault == Engine.FailAt(0)).1)
  {
    var rm := DeleteRequest(req.body);
    if rm.Err? {
      return rm.error;
    }
    var op := RemovalOp(rm.value);
    var outcome := engine.Perform(op, fault == Engine.FailAt(0));
    resp := DeleteReply(rm.value, outcome);
  }

  /** A deletion keeps exactly the documents whose identifier is not listed. */
  lemma DeletionIsExact(reg: Registry, rm: Removal, x: Engine.Doc)
    requires rm.name in reg
    requires rm.Batch? ==> Engine.AsIds(rm.ids).Some?
    ensures var r := Engine.Apply(reg, RemovalOp(rm));
      var idx := reg[rm.name];
      var ids := if rm.Batch? then Engine.AsIds(rm.ids).value else [rm.id];
      && r.Ok? && r.value - {rm.name} == reg - {rm.name}
      && (x in r.value[rm.name].docs <==>
            x in idx.docs && forall id :: id in ids ==> Engine.DocId(x, idx.primaryKey) != Some(id))
  {
    var idx := reg[rm.name];
    var ids := if rm.Batch? then Engine.AsIds(rm.ids).value else [rm.id];
    Engine.WithoutExact(idx.docs, idx.primaryKey, ids, x);
  }

  /** The two branches agree: a string deletes what an array holding only
      that string deletes. */
  lemma SingleIsBatchOfOne(reg: Registry, name: string, id: string)
    ensures Engine.Apply(reg, RemovalOp(Single(name, id))) == Engine.Apply(reg, RemovalOp(Batch(name, [JStr(id)])))
  {
    assert [JStr(id)][1..] == [];
    assert Engine.AsIds([]) == Some([]);
    assert [id] + [] == [id];
    assert Engine.AsIds([JStr(id)]) == Some([id]);
  }

  /** An empty array passes validation and deletes nothing. */
  lemma EmptyBatchDeletesNothing(reg: Registry, name: string)
    requires name in reg && name != ""
    ensures DeleteRequest(Some(JObj(map["indexName" := JStr(name), "documentIds" := JArr([])]))) == Ok(Batch(name, []))
    ensures Engine.Apply(reg, RemovalOp(Batch(name, []))) == Ok(reg)
  {
    var body := JObj(map["indexName" := JStr(name), "documentIds" := JArr([])]);
    assert Http.Field(body, "documentIds") == Some(JArr([]));
    assert IndexNameOf(body) == name;
    Engine.WithoutNone(reg[name].docs, reg[name].primaryKey);
    assert reg[name := reg[name].(docs := reg[name].docs)] == reg;
  }

  datatype Listing = Listing(name: string, limit: Option<int>, offset: Option<int>)

  /** The `index` parameter is required; `limit` and `offset` default to 20
      and 0 and are read with `parseInt` (`None` standing for `NaN`). */
  function ListRequest(req: Http.Request): (r: Result<Listing, Http.Response>)
    ensures r.Ok? <==> Http.Param(req, "index").Some? && Http.Param(req, "index").value != ""
    ensures r.Err? ==> r.error == NameRequired
    ensures r.Ok? ==> && Http.Param(req, "index") == Some(r.value.name)
                      && r.value.limit == Numbers.ParseInt(Text.OrElse(Http.Param(req, "limit"), "20"))
                      && r.value.offset == Numbers.ParseInt(Text.OrElse(Http.Param(req, "offset"), "0"))
  {
    var limit := Numbers.ParseInt(Text.OrElse(Http.Param(req, "limit"), "20"));
    var offset := Numbers.ParseInt(Text.OrElse(Http.Param(req, "offset"), "0"));
    match Http.Param(req, "index")
    case Some(name) => if name == "" then Err(NameRequired) else Ok(Listing(name, limit, offset))
    case None => Err(NameRequired)
  }

  function DocsJson(docs: seq<Engine.Doc>): seq<Json> {
    seq(|docs|, i requires 0 <= i < |docs| => JObj(docs[i]))
  }

  function ListReply(l: Listing, r: Result<Engine.DocumentPage, Engine.Failure>): Http.Response {
    match r
    case Ok(page) =>
      Http.Reply(200, JObj(map[
        "indexName" := JStr(l.name),
        "documents" := JArr(DocsJson(page.results)),
        "pagination" := JObj(map["limit" := (if l.limit.Some? then JNum(l.limit.value) else JNull),
                                 "offset" := (if l.offset.Some? then JNum(l.offset.value) else JNull),
                                 "total" := JNum(page.total)])]))
    case Err(f) => Http.ErrorDetails(500, "Failed to get documents", Engine.Message(f))
  }

  /** `GET`: one page of documents; the registry is unchanged. */
  method List(req: Http.Request, engine: Engine.Engine, fault: Engine.Fault) returns (resp: Http.Response)
    modifies engine`calls
    ensures ListRequest(req).Err? ==> resp == NameRequired && engine.calls == old(engine.calls)
    ensures ListRequest(req).Ok? ==>
      var l := ListRequest(req).value;
      && engine.calls == old(engine.calls) + [Engine.GetDocuments(l.name, l.limit, l.offset)]
      && resp == ListReply(l, if fault == Engine.FailAt(0) then Err(Engine.Unreachable)
                              else Engine.PageOf(engine.indexes, l.name, l.limit, l.offset))
  {
    var l := ListRequest(req);
    if l.Err? {
      return l.error;
    }
    var page := engine.Documents(l.value.name, l.value.limit, l.value.offset, fault == Engine.FailAt(0));
    resp := ListReply(l.value, page);
  }

  /** A page is refused for a missing index or a limit or offset that is not
      a number or is negative; otherwise it holds the `limit` documents that
      follow the first `offset`, as far as they exist, and counts them all. */
  lemma PageContents(reg: Registry, name: string, limit: Option<int>, offset: Option<int>)
    ensures Engine.PageOf(reg, name, limit, offset).Err? <==>
      name !in reg || limit.None? || offset.None? || limit.value < 0 || offset.value < 0
    ensures name !in reg ==> Engine.PageOf(reg, name, limit, offset) == Err(Engine.Missing(name))
    ensures name in reg && Engine.PageOf(reg, name, limit, offset).Err? ==>
      Engine.PageOf(reg, name, limit, offset) == Err(Engine.InvalidParameter)
    ensures Engine.PageOf(reg, name, limit, offset).Ok? ==>
      var page := Engine.PageOf(reg, name, limit, offset).value;
      var docs := reg[name].docs;
      && page.total == |docs|
      && |page.results| <= limit.value
      && (offset.value < |docs| ==> |page.results| == if offset.value + limit.value <= |docs| then limit.value else |docs| - offset.value)
      && (forall i :: 0 <= i < |page.results| ==> page.results[i] == docs[offset.value + i])
  {
  }

  /** Without `limit` and `offset` the first twenty documents are asked for. */
  lemma ListDefaults(name: string)
    requires name != ""
    ensures ListRequest(Http.Request(map[], map["index" := name], None)) == Ok(Listing(name, Some(20), Some(0)))
  {
    Numbers.ParseIntOfToString(20);
    Numbers.ParseIntOfToString(0);
    assert Numbers.IntToString(20) == "20";
    assert Numbers.IntToString(0) == "0";
  }
}
