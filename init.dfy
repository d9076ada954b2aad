/** `POST /api/meilisearch/init` and `DELETE /api/meilisearch/init`: creating
    the `internal_sites` index with seed documents when it is absent, and
    tearing it down. The seed documents are passed in. */
module Init {
  import opened Wrappers
  import opened Json
  import Engine
  import Http

  type Registry = Engine.Registry

  const IndexName := "internal_sites"

  lemma IndexNameIsValid()
    ensures Engine.ValidUid(IndexName)
  {
  }
  /** Unlike a sync, initialisation does not make `url` searchable. */
  const SearchableAttributes: seq<string> := ["name", "description", "type"]
  const FilterableAttributes: seq<string> := ["type"]

  /** The requests made after the existence check, in order. */
  function SetupOps(seed: seq<Json>): seq<Engine.Op> {
    Populate(seed) + Settings
  }

  function Populate(seed: seq<Json>): seq<Engine.Op> {
    [Engine.CreateIndex(JStr(IndexName), JStr("id")), Engine.AddDocuments(IndexName, seed)]
  }

  const Settings: seq<Engine.Op> :=
    [Engine.UpdateSearchable(IndexName, SearchableAttributes), Engine.UpdateFilterable(IndexName, FilterableAttributes)]

  const AlreadyExists: Http.Response :=
    Http.Reply(409, JObj(map["message" := JStr("Index already exists with data. Use DELETE first if you want to reinitialize.")]))

  function SetupReply(documentsAdded: nat, outcome: Engine.Outcome): Http.Response {
    match outcome
    case Done =>
      Http.Reply(201, JObj(map["message" := JStr("Successfully initialized Meilisearch with sample data"),
                               "indexName" := JStr(IndexName), "documentsAdded" := JNum(documentsAdded)]))
    case Failed(f) => Http.ErrorDetails(500, "Failed to initialize Meilisearch", Engine.Message(f))
  }

  /** `POST`. An existing index answers 409 and nothing else is sent. A failed
      existence check, whatever its cause, counts as "absent". */
  method Setup(engine: Engine.Engine, seed: seq<Json>, fault: Engine.Fault) returns (resp: Http.Response)
    modifies engine
    ensures IndexName in old(engine.indexes) && fault != Engine.FailAt(0) ==>
      && resp == AlreadyExists
      && engine.indexes == old(engine.indexes)
      && engine.calls == old(engine.calls) + [Engine.GetIndex(IndexName)]
    ensures IndexName !in old(engine.indexes) || fault == Engine.FailAt(0) ==>
      var r := Engine.RunOps(old(engine.indexes), SetupOps(seed), fault, 1);
      && engine.indexes == r.reg
      && engine.calls == old(engine.calls) + [Engine.GetIndex(IndexName)] + SetupOps(seed)[..r.performed]
      && resp == SetupReply(|seed|, r.outcome)
  {
    var probe := engine.Perform(Engine.GetIndex(IndexName), fault == Engine.FailAt(0));
    if probe.Done? {
      return AlreadyExists;
    }
    var outcome := engine.PerformAll(SetupOps(seed), fault, 1);
    resp := SetupReply(|seed|, outcome);
  }

  function TeardownReply(outcome: Engine.Outcome): Http.Response {
    match outcome
    case Done => Http.Reply(200, JObj(map["message" := JStr("Successfully deleted the internal_sites index")]))
    case Failed(f) => Http.ErrorDetails(404, "Index not found or already deleted", Engine.Message(f))
  }

  /** `DELETE`: 200 when the index was deleted, 404 for any failure. */
  method Teardown(engine: Engine.Engine, fault: Engine.Fault) returns (resp: Http.Response)
    modifies engine
    ensures engine.calls == old(engine.calls) + [Engine.DeleteIndex(IndexName)]
    ensures resp.Reply? && (resp.status == 200 || resp.status == 404)
    ensures resp.status == 200 <==> IndexName in old(engine.indexes) && fault != Engine.FailAt(0)
    ensures engine.indexes == if resp.status == 200 then old(engine.indexes) - {IndexName} else old(engine.indexes)
    ensures resp == TeardownReply(Engine.Step(old(engine.indexes), Engine.DeleteIndex(IndexName), fault == Engine.FailAt(0)).1)
  {
    var outcome := engine.Perform(Engine.DeleteIndex(IndexName), fault == Engine.FailAt(0));
    resp := TeardownReply(outcome);
  }

  /** The registry a successful setup leaves. */
  function Initialised(reg: Registry, docs: seq<Engine.Doc>): Registry {
    reg[IndexName := Engine.Index("id", docs, SearchableAttributes, FilterableAttributes)]
  }

  /** Seed objects that each carry their own identifier under "id". */
  ghost predicate ValidSeed(seed: seq<Json>) {
    && Engine.AsDocs(seed, "id").Some?
    && Engine.DistinctIds(Engine.AsDocs(seed, "id").value, "id")
  }

  lemma CreateAndFill(reg: Registry, seed: seq<Json>, fault: Engine.Fault)
    requires IndexName !in reg && ValidSeed(seed)
    ensures var r := Engine.RunOps(reg, Populate(seed), fault, 1);
      && (r.outcome.Done? ==> r.reg == reg[IndexName := Engine.NewIndex("id").(docs := Engine.AsDocs(seed, "id").value)])
      && (fault == Engine.NoFault ==> r.outcome.Done?)
  {
    var c := Engine.CreateIndex(JStr(IndexName), JStr("id"));
    var a := Engine.AddDocuments(IndexName, seed);
    var reg1 := reg[IndexName := Engine.NewIndex("id")];
    var filled := Engine.NewIndex("id").(docs := Engine.AsDocs(seed, "id").value);
    CreateFresh(reg);
    FillCreated(reg1, seed);
    assert reg1[IndexName := filled] == reg[IndexName := filled];
    Engine.RunOpsPairApplied(reg, c, a, fault, 1, reg1, reg[IndexName := filled]);
  }

  /** The index is created empty, with primary key "id". */
  lemma CreateFresh(reg: Registry)
    requires IndexName !in reg
    ensures Engine.Apply(reg, Engine.CreateIndex(JStr(IndexName), JStr("id"))) == Ok(reg[IndexName := Engine.NewIndex("id")])
  {
    IndexNameIsValid();
  }

  /** The seed fills the freshly created index with exactly its documents. */
  lemma FillCreated(reg: Registry, seed: seq<Json>)
    requires IndexName in reg && reg[IndexName] == Engine.NewIndex("id") && ValidSeed(seed)
    ensures Engine.Apply(reg, Engine.AddDocuments(IndexName, seed))
            == Ok(reg[IndexName := Engine.NewIndex("id").(docs := Engine.AsDocs(seed, "id").value)])
  {
    assert Engine.Destination(reg, IndexName, seed) == Ok(Engine.NewIndex("id"));
    Engine.UpsertAllIntoEmpty("id", Engine.AsDocs(seed, "id").value);
  }

  lemma ConfigureIndex(reg: Registry, fault: Engine.Fault)
    requires IndexName in reg
    ensures var r := Engine.RunOps(reg, Settings, fault, 3);
      && (r.outcome.Done? ==> r.reg == reg[IndexName := reg[IndexName].(searchable := SearchableAttributes,
                                                                        filterable := FilterableAttributes)])
      && (fault == Engine.NoFault ==> r.outcome.Done?)
  {
    var s := Engine.UpdateSearchable(IndexName, SearchableAttributes);
    var f := Engine.UpdateFilterable(IndexName, FilterableAttributes);
    assert Settings == [s] + [f];
    Engine.RunOpsAppend(reg, [s], [f], fault, 3);
    Engine.RunOpsSingle(reg, s, fault, 3);
    var reg1 := reg[IndexName := reg[IndexName].(searchable := SearchableAttributes)];
    Engine.RunOpsSingle(reg1, f, fault, 4);
  }

  /** On an absent index, a successful setup creates it with primary key "id",
      exactly the seed documents and the attribute settings, and leaves every
      other index alone; with no transport failure it does succeed. */
  lemma SetupCreatesIndex(reg: Registry, seed: seq<Json>, fault: Engine.Fault)
    requires IndexName !in reg && ValidSeed(seed)
    ensures var r := Engine.RunOps(reg, SetupOps(seed), fault, 1);
      && (r.outcome.Done? ==> r.reg == Initialised(reg, Engine.AsDocs(seed, "id").value))
      && (fault == Engine.NoFault ==> r.outcome.Done?)
  {
    Engine.RunOpsAppend(reg, Populate(seed), Settings, fault, 1);
    CreateAndFill(reg, seed, fault);
    var reg2 := reg[IndexName := Engine.NewIndex("id").(docs := Engine.AsDocs(seed, "id").value)];
    ConfigureIndex(reg2, fault);
  }

  /** A failed existence check on an index that does exist leads to a refused
      creation: a 500, and nothing changes. */
  lemma FailedProbeOnExistingIndex(reg: Registry, seed: seq<Json>)
    requires IndexName in reg
    ensures var r := Engine.RunOps(reg, SetupOps(seed), Engine.FailAt(0), 1);
      r == Engine.Run(reg, 1, Engine.Failed(Engine.IndexExists))
    ensures SetupReply(|seed|, Engine.Failed(Engine.IndexExists)).status == 500
  {
    var c := Engine.CreateIndex(JStr(IndexName), JStr("id"));
    assert SetupOps(seed)[0] == c;
    IndexNameIsValid();
    assert Engine.Apply(reg, c) == Err(Engine.IndexExists);
    Engine.RunOpsCons(reg, SetupOps(seed), Engine.FailAt(0), 1);
  }

  /** Once the index is deleted, a second deletion is refused: two teardowns in
      a row answer 200, then 404. */
  lemma TeardownTwice(reg: Registry)
    requires IndexName in reg
    ensures var (reg1, first) := Engine.Step(reg, Engine.DeleteIndex(IndexName), false);
      && TeardownReply(first).status == 200
      && TeardownReply(Engine.Step(reg1, Engine.DeleteIndex(IndexName), false).1).status == 404
  {
  }

  /** Setting up after a teardown recreates the index: initialisation can be
      repeated by deleting first. */
  lemma TeardownThenSetup(reg: Registry, seed: seq<Json>)
    requires IndexName in reg && ValidSeed(seed)
    ensures var (reg1, _) := Engine.Step(reg, Engine.DeleteIndex(IndexName), false);
      Engine.RunOps(reg1, SetupOps(seed), Engine.NoFault, 1).reg
        == Initialised(reg - {IndexName}, Engine.AsDocs(seed, "id").value)
  {
    SetupCreatesIndex(reg - {IndexName}, seed, Engine.NoFault);
  }
}
