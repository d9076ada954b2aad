/** The external search engine as the route handlers drive it: a registry of
    named indexes, each with a primary key, its documents in the engine's
    internal order, and its searchable and filterable attributes. Writes take
    effect at once; a write that cannot apply reports an error and changes
    nothing. Ranking is left to an oracle (`SearchOracle`). */
module Engine {
  import opened Wrappers
  import opened Json
  import Numbers
  import Paging

  type Doc = map<string, Json>

  datatype Index = Index(primaryKey: string, docs: seq<Doc>, searchable: seq<string>, filterable: seq<string>)

  type Registry = map<string, Index>

  datatype Failure =
    | Unreachable        // transport or service failure
    | IndexExists
    | IndexNotFound
    | InvalidIndexUid    // not a string, or not a name an index can have
    | InvalidPrimaryKey  // not a string
    | NoPrimaryKeyCandidate         // no attribute of the first document ends with `id`
    | MultiplePrimaryKeyCandidates  // several do
    | InvalidDocument    // not an object, or without a usable primary key
    | InvalidParameter   // a NaN or negative page size or offset

  /** The `message` of the error a failed request throws. */
  function Message(f: Failure): string {
    match f
    case Unreachable => "fetch failed"
    case IndexExists => "Index already exists"
    case IndexNotFound => "Index not found"
    case InvalidIndexUid => "Invalid index uid"
    case InvalidPrimaryKey => "Invalid primary key"
    case NoPrimaryKeyCandidate => "The primary key inference failed: no field ends with `id`"
    case MultiplePrimaryKeyCandidates => "The primary key inference failed: several fields end with `id`"
    case InvalidDocument => "Invalid document"
    case InvalidParameter => "Invalid parameter"
  }

  datatype Outcome = Done | Failed(failure: Failure)

  /** One request to the engine. */
  datatype Op =
    | GetIndex(name: string)
    | CreateIndex(uid: Json, primaryKey: Json)
    | DeleteIndex(name: string)
    | AddDocuments(name: string, docs: seq<Json>)
    | DeleteAllDocuments(name: string)
    | DeleteDocuments(name: string, ids: seq<Json>)
    | DeleteDocument(name: string, id: string)
    | UpdateSearchable(name: string, attributes: seq<string>)
    | UpdateFilterable(name: string, attributes: seq<string>)
    | GetStats(name: string)
    | GetDocuments(name: string, limit: Option<int>, offset: Option<int>)

  /** Where, if anywhere, a handler's sequence of engine requests breaks down:
      `FailAt(k)` makes its k-th request (counting from 0) fail in transit. */
  datatype Fault = NoFault | FailAt(step: nat)

  /** Search parameters as the engine client receives them; `None` for `limit`
      or `offset` stands for `NaN`. */
  datatype SearchOptions = SearchOptions(
    limit: Option<int>, offset: Option<int>,
    highlight: seq<string>, retrieve: seq<string>,
    filter: Option<string>, sort: Option<seq<string>>, facets: Option<seq<string>>)

  datatype SearchRequest = SearchRequest(index: string, query: string, options: SearchOptions)

  /** The engine's answer to a search, with its optional pagination and facet metadata. */
  datatype SearchResult = SearchResult(
    hits: seq<Doc>, processingTimeMs: int, limit: Option<int>, offset: Option<int>,
    estimatedTotalHits: Option<int>, totalHits: Option<int>, totalPages: Option<int>,
    hitsPerPage: Option<int>, page: Option<int>, facetDistribution: Option<map<string, map<string, int>>>)

  /** The engine's ranking, tokenising and highlighting, left abstract. */
  type SearchOracle = SearchRequest -> Result<SearchResult, Failure>

  /** A page of raw documents. */
  datatype DocumentPage = DocumentPage(results: seq<Doc>, total: nat)

  const DefaultSearchable: seq<string> := ["*"]

  function NewIndex(primaryKey: string): Index {
    Index(primaryKey, [], DefaultSearchable, [])
  }

  /** A character an index uid may hold: an ASCII letter or digit, `-` or `_`. */
  predicate UidChar(c: char) {
    'a' <= c <= 'z' || 'A' <= c <= 'Z' || '0' <= c <= '9' || c == '-' || c == '_'
  }

  predicate UidChars(s: string) {
    s == [] || (UidChar(s[0]) && UidChars(s[1..]))
  }

  const MaxUidLength := 400

  /** A name an index can have: 1 to 400 uid characters. */
  predicate ValidUid(name: string) {
    0 < |name| <= MaxUidLength && UidChars(name)
  }

  /** The failure for a name no index has: not found, or, for a name no index
      can have, an invalid uid. */
  function Missing(name: string): Failure {
    if ValidUid(name) then IndexNotFound else InvalidIndexUid
  }

  /** A document identifier: a string, or a number written in decimal. */
  function IdOf(j: Json): Option<string> {
    match j
    case JStr(s) => Some(s)
    case JNum(n) => Some(Numbers.IntToString(n))
    case _ => None
  }

  function DocId(d: Doc, primaryKey: string): Option<string> {
    if primaryKey in d then IdOf(d[primaryKey]) else None
  }

  /** Every document has an identifier, and no two share one. */
  ghost predicate WellFormed(idx: Index) {
    && (forall i :: 0 <= i < |idx.docs| ==> DocId(idx.docs[i], idx.primaryKey).Some?)
    && (forall i, j :: 0 <= i < j < |idx.docs| ==> DocId(idx.docs[i], idx.primaryKey) != DocId(idx.docs[j], idx.primaryKey))
  }

  /** Position of the document with identifier `id`, if any. */
  function Find(docs: seq<Doc>, primaryKey: string, id: string): (r: Option<nat>)
    ensures r.Some? ==> r.value < |docs| && DocId(docs[r.value], primaryKey) == Some(id)
    ensures r.None? ==> forall i :: 0 <= i < |docs| ==> DocId(docs[i], primaryKey) != Some(id)
  {
    if docs == [] then None
    else if DocId(docs[0], primaryKey) == Some(id) then Some(0)
    else match Find(docs[1..], primaryKey, id)
      case None => None
      case Some(k) => Some(k + 1)
  }

  /** Add-or-replace: a document replaces the one with the same identifier in
      place, or is appended. */
  function Upsert(docs: seq<Doc>, primaryKey: string, d: Doc): seq<Doc>
    requires DocId(d, primaryKey).Some?
  {
    match Find(docs, primaryKey, DocId(d, primaryKey).value)
    case Some(k) => docs[k := d]
    case None => docs + [d]
  }

  function UpsertAll(docs: seq<Doc>, primaryKey: string, ds: seq<Doc>): seq<Doc>
    requires forall i :: 0 <= i < |ds| ==> DocId(ds[i], primaryKey).Some?
    decreases |ds|
  {
    if ds == [] then docs else UpsertAll(Upsert(docs, primaryKey, ds[0]), primaryKey, ds[1..])
  }

  /** No two of `ds` share an identifier. */
  ghost predicate DistinctIds(ds: seq<Doc>, primaryKey: string) {
    forall i, j :: 0 <= i < j < |ds| ==> DocId(ds[i], primaryKey) != DocId(ds[j], primaryKey)
  }

  /** Adding documents with fresh, distinct identifiers appends them in order. */
  lemma {:induction false} UpsertAllFresh(docs: seq<Doc>, primaryKey: string, ds: seq<Doc>)
    requires forall i :: 0 <= i < |ds| ==> DocId(ds[i], primaryKey).Some?
    requires DistinctIds(ds, primaryKey)
    requires forall i, j :: 0 <= i < |docs| && 0 <= j < |ds| ==> DocId(docs[i], primaryKey) != DocId(ds[j], primaryKey)
    ensures UpsertAll(docs, primaryKey, ds) == docs + ds
    decreases |ds|
  {
    if ds != [] {
      var id := DocId(ds[0], primaryKey).value;
      assert Find(docs, primaryKey, id).None?;
      var docs' := docs + [ds[0]];
      assert Upsert(docs, primaryKey, ds[0]) == docs';
      var rest := ds[1..];
      forall i, j | 0 <= i < |docs'| && 0 <= j < |rest|
        ensures DocId(docs'[i], primaryKey) != DocId(rest[j], primaryKey)
      {
        if i < |docs| {
          assert rest[j] == ds[j + 1];
        } else {
          assert docs'[i] == ds[0] && rest[j] == ds[j + 1];
        }
      }
      UpsertAllFresh(docs', primaryKey, rest);
      assert docs' + rest == docs + ds;
    }
  }

  /** Replacing a batch of documents into an empty index gives exactly the batch. */
  lemma UpsertAllIntoEmpty(primaryKey: string, ds: seq<Doc>)
    requires forall i :: 0 <= i < |ds| ==> DocId(ds[i], primaryKey).Some?
    requires DistinctIds(ds, primaryKey)
    ensures UpsertAll([], primaryKey, ds) == ds
  {
    UpsertAllFresh([], primaryKey, ds);
  }

  /** An upsert keeps an index well formed, and the new document is in it. */
  lemma UpsertWellFormed(idx: Index, d: Doc)
    requires WellFormed(idx) && DocId(d, idx.primaryKey).Some?
    ensures var docs := Upsert(idx.docs, idx.primaryKey, d);
      WellFormed(idx.(docs := docs)) && d in docs && |idx.docs| <= |docs| <= |idx.docs| + 1
  {
    var docs := Upsert(idx.docs, idx.primaryKey, d);
    match Find(idx.docs, idx.primaryKey, DocId(d, idx.primaryKey).value)
    case Some(k) =>
      assert docs[k] == d;
    case None =>
      assert docs[|idx.docs|] == d;
  }

  /** An upsert keeps every document with another identifier. */
  lemma UpsertKeepsOthers(docs: seq<Doc>, primaryKey: string, d: Doc, x: Doc)
    requires DocId(d, primaryKey).Some? && x in docs && DocId(x, primaryKey) != DocId(d, primaryKey)
    ensures x in Upsert(docs, primaryKey, d)
  {
    match Find(docs, primaryKey, DocId(d, primaryKey).value)
    case None =>
    case Some(k) =>
      var i :| 0 <= i < |docs| && docs[i] == x;
      assert Upsert(docs, primaryKey, d)[i] == x;
  }

  /** A batch with distinct identifiers, added to a well-formed index, leaves it
      well formed and holding every document of the batch, and keeps every
      document whose identifier the batch does not mention. */
  lemma {:induction false} UpsertAllFacts(idx: Index, ds: seq<Doc>)
    requires WellFormed(idx)
    requires forall i :: 0 <= i < |ds| ==> DocId(ds[i], idx.primaryKey).Some?
    requires DistinctIds(ds, idx.primaryKey)
    ensures var docs := UpsertAll(idx.docs, idx.primaryKey, ds);
      && WellFormed(idx.(docs := docs))
      && (forall i :: 0 <= i < |ds| ==> ds[i] in docs)
      && (forall x :: x in idx.docs && (forall i :: 0 <= i < |ds| ==> DocId(x, idx.primaryKey) != DocId(ds[i], idx.primaryKey))
                      ==> x in docs)
    decreases |ds|
  {
    if ds != [] {
      var pk := idx.primaryKey;
      var docs1 := Upsert(idx.docs, pk, ds[0]);
      var idx1 := idx.(docs := docs1);
      UpsertWellFormed(idx, ds[0]);
      var rest := ds[1..];
      assert forall i :: 0 <= i < |rest| ==> rest[i] == ds[i + 1];
      UpsertAllFacts(idx1, rest);
      var docs := UpsertAll(docs1, pk, rest);
      assert docs == UpsertAll(idx.docs, pk, ds);
      forall i | 0 <= i < |ds|
        ensures ds[i] in docs
      {
        if i == 0 {
          forall j | 0 <= j < |rest|
            ensures DocId(ds[0], pk) != DocId(rest[j], pk)
          {
            assert rest[j] == ds[j + 1];
          }
        } else {
          assert ds[i] == rest[i - 1];
        }
      }
      forall x | x in idx.docs && (forall i :: 0 <= i < |ds| ==> DocId(x, pk) != DocId(ds[i], pk))
        ensures x in docs
      {
        UpsertKeepsOthers(idx.docs, pk, ds[0], x);
        forall j | 0 <= j < |rest|
          ensures DocId(x, pk) != DocId(rest[j], pk)
        {
          assert rest[j] == ds[j + 1];
        }
      }
    }
  }

  /** The objects of a document batch, when every element is an object with an identifier. */
  function AsDocs(items: seq<Json>, primaryKey: string): (r: Option<seq<Doc>>)
    ensures r.Some? ==> |r.value| == |items|
    ensures r.Some? ==> forall i :: 0 <= i < |items| ==> items[i] == JObj(r.value[i]) && DocId(r.value[i], primaryKey).Some?
  {
    if items == [] then Some([])
    else if items[0].JObj? && DocId(items[0].fields, primaryKey).Some? then
      match AsDocs(items[1..], primaryKey)
      case None => None
      case Some(rest) => Some([items[0].fields] + rest)
    else None
  }

  /** A batch of objects that all carry an identifier is accepted as those objects. */
  lemma {:induction false} AsDocsOfObjects(items: seq<Json>, primaryKey: string, ds: seq<Doc>)
    requires |items| == |ds|
    requires forall i :: 0 <= i < |items| ==> items[i] == JObj(ds[i]) && DocId(ds[i], primaryKey).Some?
    ensures AsDocs(items, primaryKey) == Some(ds)
    decreases |items|
  {
    if items != [] {
      assert items[0] == JObj(ds[0]);
      AsDocsOfObjects(items[1..], primaryKey, ds[1..]);
      assert [ds[0]] + ds[1..] == ds;
    }
  }

  /** The identifiers of a deletion batch, when every element is a string or a number. */
  function AsIds(items: seq<Json>): (r: Option<seq<string>>)
    ensures r.Some? ==> |r.value| == |items| && forall i :: 0 <= i < |items| ==> IdOf(items[i]) == Some(r.value[i])
  {
    if items == [] then Some([])
    else match (IdOf(items[0]), AsIds(items[1..]))
      case (Some(id), Some(rest)) => Some([id] + rest)
      case _ => None
  }

  /** The documents whose identifier is not in `ids`, in their order. */
  function Without(docs: seq<Doc>, primaryKey: string, ids: seq<string>): (r: seq<Doc>)
    ensures |r| <= |docs|
    ensures forall i :: 0 <= i < |r| ==> r[i] in docs && forall id :: id in ids ==> DocId(r[i], primaryKey) != Some(id)
  {
    if docs == [] then []
    else
      var rest := Without(docs[1..], primaryKey, ids);
      if exists id :: id in ids && DocId(docs[0], primaryKey) == Some(id) then rest else [docs[0]] + rest
  }

  /** A document survives a deletion exactly when its identifier is not listed. */
  lemma {:induction false} WithoutExact(docs: seq<Doc>, primaryKey: string, ids: seq<string>, x: Doc)
    ensures x in Without(docs, primaryKey, ids) <==>
      x in docs && forall id :: id in ids ==> DocId(x, primaryKey) != Some(id)
    decreases |docs|
  {
    if docs != [] {
      WithoutExact(docs[1..], primaryKey, ids, x);
      assert x in docs <==> x == docs[0] || x in docs[1..];
    }
  }

  /** Deleting no identifiers keeps every document, in order. */
  lemma {:induction false} WithoutNone(docs: seq<Doc>, primaryKey: string)
    ensures Without(docs, primaryKey, []) == docs
    decreases |docs|
  {
    if docs != [] {
      WithoutNone(docs[1..], primaryKey);
      assert [docs[0]] + docs[1..] == docs;
    }
  }

  /** The index a settings update to `name` changes: an existing one, or a
      fresh one, which the update creates. */
  function Target(reg: Registry, name: string): Index {
    if name in reg then reg[name] else NewIndex("id")
  }

  /** A primary-key candidate: an attribute whose name ends with `id` in any
      letter case. */
  predicate IdLike(field: string) {
    |field| >= 2 && field[|field| - 2] in "iI" && field[|field| - 1] in "dD"
  }

  function Candidates(d: Doc): set<string> {
    set k | k in d && IdLike(k)
  }

  lemma OneElement(c: set<string>)
    requires |c| == 1
    ensures forall a, b :: a in c && b in c ==> a == b
  {
    var a :| a in c;
    assert |c - {a}| == 0;
    assert c - {a} == {};
  }

  /** The index a document batch for `name` lands in. An existing index keeps
      its primary key. A missing one is created by the write, under a valid
      uid, with the primary key inferred from the first document: its one
      attribute whose name ends with `id`. */
  function Destination(reg: Registry, name: string, items: seq<Json>): (r: Result<Index, Failure>)
    ensures name in reg ==> r == Ok(reg[name])
    ensures name !in reg ==>
      (r.Ok? <==> ValidUid(name) && items != [] && items[0].JObj? && |Candidates(items[0].fields)| == 1)
    ensures name !in reg && r.Ok? ==>
      r.value.docs == [] && Candidates(items[0].fields) == {r.value.primaryKey}
    ensures name !in reg && !ValidUid(name) ==> r == Err(InvalidIndexUid)
  {
    if name in reg then Ok(reg[name])
    else if !ValidUid(name) then Err(InvalidIndexUid)
    else if items == [] || !items[0].JObj? then Err(InvalidDocument)
    else
      var c := Candidates(items[0].fields);
      if |c| == 0 then Err(NoPrimaryKeyCandidate)
      else if |c| > 1 then Err(MultiplePrimaryKeyCandidates)
      else
        OneElement(c);
        var k :| k in c;
        assert c == {k};
        Ok(NewIndex(k))
  }

  /** What a request does to the registry when it reaches the engine. Reads
      leave it as it is. */
  function Apply(reg: Registry, op: Op): Result<Registry, Failure> {
    match op
    case GetIndex(name) =>
      if name in reg then Ok(reg) else Err(Missing(name))
    case CreateIndex(uid, pk) =>
      if !uid.JStr? || !ValidUid(uid.s) then Err(InvalidIndexUid)
      else if !pk.JStr? then Err(InvalidPrimaryKey)
      else if uid.s in reg then Err(IndexExists)
      else Ok(reg[uid.s := NewIndex(pk.s)])
    case DeleteIndex(name) =>
      if name in reg then Ok(reg - {name}) else Err(Missing(name))
    case AddDocuments(name, items) =>
      (match Destination(reg, name, items)
       case Err(f) => Err(f)
       case Ok(idx) =>
         (match AsDocs(items, idx.primaryKey)
          case None => Err(InvalidDocument)
          case Some(ds) => Ok(reg[name := idx.(docs := UpsertAll(idx.docs, idx.primaryKey, ds))])))
    case DeleteAllDocuments(name) =>
      if name in reg then Ok(reg[name := reg[name].(docs := [])]) else Err(Missing(name))
    case DeleteDocuments(name, items) =>
      if name !in reg then Err(Missing(name))
      else (match AsIds(items)
        case None => Err(InvalidDocument)
        case Some(ids) => Ok(reg[name := reg[name].(docs := Without(reg[name].docs, reg[name].primaryKey, ids))]))
    case DeleteDocument(name, id) =>
      if name in reg then Ok(reg[name := reg[name].(docs := Without(reg[name].docs, reg[name].primaryKey, [id]))])
      else Err(Missing(name))
    case UpdateSearchable(name, attributes) =>
      if name !in reg && !ValidUid(name) then Err(InvalidIndexUid)
      else Ok(reg[name := Target(reg, name).(searchable := attributes)])
    case UpdateFilterable(name, attributes) =>
      if name !in reg && !ValidUid(name) then Err(InvalidIndexUid)
      else Ok(reg[name := Target(reg, name).(filterable := attributes)])
    case GetStats(name) =>
      if name in reg then Ok(reg) else Err(Missing(name))
    case GetDocuments(name, limit, offset) =>
      if name !in reg then Err(Missing(name))
      else if limit.None? || offset.None? || limit.value < 0 || offset.value < 0 then Err(InvalidParameter)
      else Ok(reg)
  }

  /** One request: a transport failure changes nothing; otherwise `Apply`. */
  function Step(reg: Registry, op: Op, fail: bool): (r: (Registry, Outcome))
    ensures r.1.Failed? ==> r.0 == reg
  {
    if fail then (reg, Failed(Unreachable))
    else match Apply(reg, op)
      case Ok(reg') => (reg', Done)
      case Err(f) => (reg, Failed(f))
  }

  datatype Run = Run(reg: Registry, performed: nat, outcome: Outcome)

  /** Requests sent one after another until the first one fails; `first` is the
      number of requests the handler made before these. */
  function RunOps(reg: Registry, ops: seq<Op>, fault: Fault, first: nat): (r: Run)
    ensures 1 <= r.performed <= |ops| || (r.performed == 0 && ops == [])
    ensures r.outcome.Done? ==> r.performed == |ops|
  {
    RunWith(Step, reg, ops, fault, first)
  }

  /** `RunOps` with the single-request semantics `step` as a parameter; the
      facts about sequencing below hold whatever each request does. */
  function RunWith(step: (Registry, Op, bool) -> (Registry, Outcome), reg: Registry, ops: seq<Op>,
                   fault: Fault, first: nat): (r: Run)
    ensures 1 <= r.performed <= |ops| || (r.performed == 0 && ops == [])
    ensures r.outcome.Done? ==> r.performed == |ops|
    decreases |ops|
  {
    if ops == [] then Run(reg, 0, Done)
    else
      var (reg1, outcome) := step(reg, ops[0], fault == FailAt(first));
      if outcome.Failed? then Run(reg, 1, outcome)
      else
        var rest := RunWith(step, reg1, ops[1..], fault, first + 1);
        Run(rest.reg, 1 + rest.performed, rest.outcome)
  }

  lemma RunOpsCons(reg: Registry, ops: seq<Op>, fault: Fault, first: nat)
    requires ops != []
    ensures var (reg1, outcome) := Step(reg, ops[0], fault == FailAt(first));
      RunOps(reg, ops, fault, first) ==
        if outcome.Failed? then Run(reg, 1, outcome)
        else var rest := RunOps(reg1, ops[1..], fault, first + 1); Run(rest.reg, 1 + rest.performed, rest.outcome)
  {
  }

  /** After `i` requests of a run that ends as `target`, the rest of the run
      from `reg` ends the same way. */
  ghost predicate Resumes(reg: Registry, ops: seq<Op>, i: nat, fault: Fault, first: nat, target: Run) {
    i <= |ops| && i <= target.performed &&
    RunOps(reg, ops[i..], fault, first + i) == Run(target.reg, target.performed - i, target.outcome)
  }

  /** One request of a `RunOps` sequence: either it fails and ends the run, or
      the run goes on from the state it leaves. */
  lemma RunOpsAdvance(before: Registry, after: Registry, o: Outcome, ops: seq<Op>, i: nat,
                      fault: Fault, first: nat, target: Run)
    requires i < |ops|
    requires (after, o) == Step(before, ops[i], fault == FailAt(first + i))
    requires Resumes(before, ops, i, fault, first, target)
    ensures o.Failed? ==> after == target.reg && o == target.outcome && target.performed == i + 1
    ensures o.Done? ==> Resumes(after, ops, i + 1, fault, first, target)
  {
    RunOpsCons(before, ops[i..], fault, first + i);
    assert ops[i..][0] == ops[i] && ops[i..][1..] == ops[i + 1..];
  }

  lemma ResumesStart(reg: Registry, ops: seq<Op>, fault: Fault, first: nat)
    ensures Resumes(reg, ops, 0, fault, first, RunOps(reg, ops, fault, first))
  {
    assert ops[0..] == ops;
  }

  lemma ResumesEnd(reg: Registry, ops: seq<Op>, fault: Fault, first: nat, target: Run)
    requires Resumes(reg, ops, |ops|, fault, first, target)
    ensures reg == target.reg && target.outcome == Done && target.performed == |ops|
  {
    assert ops[|ops|..] == [];
  }

  /** A single request run on its own. */
  lemma RunOpsSingle(reg: Registry, op: Op, fault: Fault, first: nat)
    ensures var (reg1, outcome) := Step(reg, op, fault == FailAt(first));
      RunOps(reg, [op], fault, first) == Run(reg1, 1, outcome)
  {
    RunOpsCons(reg, [op], fault, first);
    assert [op][1..] == [];
  }

  /** A single request that the engine applies: it succeeds unless it fails in
      transit. */
  lemma RunOpsSingleApplied(reg: Registry, op: Op, fault: Fault, first: nat, reg': Registry)
    requires Apply(reg, op) == Ok(reg')
    ensures RunOps(reg, [op], fault, first) ==
      if fault == FailAt(first) then Run(reg, 1, Failed(Unreachable)) else Run(reg', 1, Done)
  {
    RunOpsSingle(reg, op, fault, first);
  }

  /** Two requests that the engine applies one after the other: the run ends
      in the second one's registry when it completes, and it completes unless
      a request fails in transit. */
  lemma RunOpsPairApplied(reg: Registry, op1: Op, op2: Op, fault: Fault, first: nat, reg1: Registry, reg2: Registry)
    requires Apply(reg, op1) == Ok(reg1) && Apply(reg1, op2) == Ok(reg2)
    ensures var r := RunOps(reg, [op1, op2], fault, first);
      && (r.outcome.Done? ==> r.reg == reg2)
      && (fault == NoFault ==> r.outcome.Done?)
  {
    RunOpsSingleApplied(reg, op1, fault, first, reg1);
    RunOpsSingleApplied(reg1, op2, fault, first + 1, reg2);
    RunOpsCompose(reg, [op1], [op2], fault, first, reg1, reg2);
    assert [op1] + [op2] == [op1, op2];
  }

  /** A run of `a + b` whose part `a` fails ends there. */
  lemma {:induction false} RunWithStops(step: (Registry, Op, bool) -> (Registry, Outcome), reg: Registry,
                                        a: seq<Op>, b: seq<Op>, fault: Fault, first: nat)
    requires RunWith(step, reg, a, fault, first).outcome.Failed?
    ensures RunWith(step, reg, a + b, fault, first) == RunWith(step, reg, a, fault, first)
    decreases |a|
  {
    assert (a + b)[0] == a[0] && (a + b)[1..] == a[1..] + b;
    var (reg1, outcome) := step(reg, a[0], fault == FailAt(first));
    if outcome.Done? {
      RunWithStops(step, reg1, a[1..], b, fault, first + 1);
    }
  }

  /** A run of `a + b` whose part `a` completes goes on with `b` from the
      registry `a` left. */
  lemma {:induction false} RunWithThen(step: (Registry, Op, bool) -> (Registry, Outcome), reg: Registry,
                                       a: seq<Op>, b: seq<Op>, fault: Fault, first: nat)
    requires RunWith(step, reg, a, fault, first).outcome.Done?
    ensures var rb := RunWith(step, RunWith(step, reg, a, fault, first).reg, b, fault, first + |a|);
      RunWith(step, reg, a + b, fault, first) == Run(rb.reg, |a| + rb.performed, rb.outcome)
    decreases |a|
  {
    if a == [] {
      assert a + b == b;
    } else {
      assert (a + b)[0] == a[0] && (a + b)[1..] == a[1..] + b;
      var (reg1, outcome) := step(reg, a[0], fault == FailAt(first));
      RunWithThen(step, reg1, a[1..], b, fault, first + 1);
    }
  }

  lemma RunOpsStops(reg: Registry, a: seq<Op>, b: seq<Op>, fault: Fault, first: nat)
    requires RunOps(reg, a, fault, first).outcome.Failed?
    ensures RunOps(reg, a + b, fault, first) == RunOps(reg, a, fault, first)
  {
    RunWithStops(Step, reg, a, b, fault, first);
  }

  lemma RunOpsThen(reg: Registry, a: seq<Op>, b: seq<Op>, fault: Fault, first: nat)
    requires RunOps(reg, a, fault, first).outcome.Done?
    ensures var rb := RunOps(RunOps(reg, a, fault, first).reg, b, fault, first + |a|);
      RunOps(reg, a + b, fault, first) == Run(rb.reg, |a| + rb.performed, rb.outcome)
  {
    RunWithThen(Step, reg, a, b, fault, first);
  }

  /** Two parts of a run that each end in a known registry when they
      complete, and complete when nothing fails in transit, compose. */
  lemma RunOpsCompose(reg: Registry, a: seq<Op>, b: seq<Op>, fault: Fault, first: nat, mid: Registry, end: Registry)
    requires RunOps(reg, a, fault, first).outcome.Done? ==> RunOps(reg, a, fault, first).reg == mid
    requires RunOps(mid, b, fault, first + |a|).outcome.Done? ==> RunOps(mid, b, fault, first + |a|).reg == end
    requires fault == NoFault ==> RunOps(reg, a, fault, first).outcome.Done? && RunOps(mid, b, fault, first + |a|).outcome.Done?
    ensures RunOps(reg, a + b, fault, first).outcome.Done? ==> RunOps(reg, a + b, fault, first).reg == end
    ensures fault == NoFault ==> RunOps(reg, a + b, fault, first).outcome.Done?
  {
    if RunOps(reg, a, fault, first).outcome.Failed? {
      RunOpsStops(reg, a, b, fault, first);
    } else {
      RunOpsThen(reg, a, b, fault, first);
    }
  }

  /** Running `a + b` runs `a`, then, unless `a` failed, `b` from where `a` left
      the registry. */
  lemma RunOpsAppend(reg: Registry, a: seq<Op>, b: seq<Op>, fault: Fault, first: nat)
    ensures var ra := RunOps(reg, a, fault, first);
      RunOps(reg, a + b, fault, first) ==
        if ra.outcome.Failed? then ra
        else var rb := RunOps(ra.reg, b, fault, first + |a|); Run(rb.reg, |a| + rb.performed, rb.outcome)
  {
    if RunOps(reg, a, fault, first).outcome.Failed? {
      RunOpsStops(reg, a, b, fault, first);
    } else {
      RunOpsThen(reg, a, b, fault, first);
    }
  }

  /** The answer to a `getDocuments` request that reaches the engine. */
  function PageOf(reg: Registry, name: string, limit: Option<int>, offset: Option<int>): Result<DocumentPage, Failure> {
    match Apply(reg, GetDocuments(name, limit, offset))
    case Err(f) => Err(f)
    case Ok(_) => Ok(DocumentPage(Paging.Window(reg[name].docs, offset.value, limit.value), |reg[name].docs|))
  }

  class Engine {
    var indexes: Registry
    /** Every request received, oldest first. */
    var calls: seq<Op>

    constructor (initial: Registry)
      ensures indexes == initial && calls == []
    {
      indexes := initial;
      calls := [];
    }

    /** Sends `op`; `fail` makes it fail in transit. */
    method Perform(op: Op, fail: bool) returns (outcome: Outcome)
      modifies this
      ensures calls == old(calls) + [op]
      ensures (indexes, outcome) == Step(old(indexes), op, fail)
    {
      calls := calls + [op];
      var (reg, o) := Step(indexes, op, fail);
      indexes, outcome := reg, o;
    }

    /** Sends `ops` in order and stops at the first failure. */
    method PerformAll(ops: seq<Op>, fault: Fault, first: nat) returns (outcome: Outcome)
      modifies this
      ensures var r := RunOps(old(indexes), ops, fault, first);
        indexes == r.reg && outcome == r.outcome && calls == old(calls) + ops[..r.performed]
    {
      ghost var target := RunOps(indexes, ops, fault, first);
      ResumesStart(indexes, ops, fault, first);
      var i := 0;
      outcome := Done;
      while i < |ops|
        invariant 0 <= i <= |ops|
        invariant outcome == Done
        invariant calls == old(calls) + ops[..i]
        invariant Resumes(indexes, ops, i, fault, first, target)
      {
        ghost var before := indexes;
        var o := Perform(ops[i], fault == FailAt(first + i));
        RunOpsAdvance(before, indexes, o, ops, i, fault, first, target);
        assert ops[..i + 1] == ops[..i] + [ops[i]];
        if o.Failed? {
          return o;
        }
        i := i + 1;
      }
      ResumesEnd(indexes, ops, fault, first, target);
      assert ops[..|ops|] == ops;
    }

    /** `getStats`: the number of documents of an existing index. */
    method Stats(name: string, fail: bool) returns (r: Result<nat, Failure>)
      modifies this`calls
      ensures calls == old(calls) + [GetStats(name)]
      ensures r == if fail then Err(Unreachable)
                   else if name in indexes then Ok(|indexes[name].docs|) else Err(Missing(name))
    {
      calls := calls + [GetStats(name)];
      if fail {
        return Err(Unreachable);
      }
      if name !in indexes {
        return Err(Missing(name));
      }
      return Ok(|indexes[name].docs|);
    }

    /** `getDocuments`: one page of raw documents and the index's document count. */
    method Documents(name: string, limit: Option<int>, offset: Option<int>, fail: bool)
      returns (r: Result<DocumentPage, Failure>)
      modifies this`calls
      ensures calls == old(calls) + [GetDocuments(name, limit, offset)]
      ensures r == if fail then Err(Unreachable) else PageOf(indexes, name, limit, offset)
    {
      calls := calls + [GetDocuments(name, limit, offset)];
      if fail {
        return Err(Unreachable);
      }
      match Apply(indexes, GetDocuments(name, limit, offset)) {
        case Err(f) => return Err(f);
        case Ok(_) =>
          var docs := indexes[name].docs;
          return Ok(DocumentPage(Paging.Window(docs, offset.value, limit.value), |docs|));
      }
    }
  }
}
