/** The search endpoint (`/api/meilisearch/search`, GET with query parameters
    and POST with a JSON body): it fills in defaults, builds the engine's
    search options, logs an analytics event for every search with a
    non-blank query, and echoes the engine's answer. */
module SearchRoute {
  import opened Wrappers
  import opened Json
  import Text
  import Numbers
  import Engine
  import Store
  import Http
  import SearchInput

  const DefaultIndex := "internal_sites"
  const DefaultHighlight: seq<string> := ["name", "description"]
  const DefaultRetrieve: seq<string> := ["id", "name", "url", "description", "type"]

  /** What the GET endpoint sends: the URL's query and index name with their
      defaults, `parseInt` of limit and offset (10 and 0 by default), a
      non-empty filter, the fixed highlight and retrieve lists, and no sort
      or facets. */
  predicate FromUrl(req: Http.Request, r: Engine.SearchRequest) {
    && r.query == Text.OrElse(Http.Param(req, "q"), "")
    && r.index == Text.OrElse(Http.Param(req, "index"), DefaultIndex)
    && r.options.limit == Numbers.ParseInt(Text.OrElse(Http.Param(req, "limit"), "10"))
    && r.options.offset == Numbers.ParseInt(Text.OrElse(Http.Param(req, "offset"), "0"))
    && r.options.highlight == DefaultHighlight && r.options.retrieve == DefaultRetrieve
    && r.options.filter == Text.NonEmpty(Http.Param(req, "filter"))
    && r.options.sort.None? && r.options.facets.None?
  }

  /** The options object built step by step from the URL. */
  method GetRequest(req: Http.Request) returns (r: Engine.SearchRequest)
    ensures FromUrl(req, r)
  {
    var query := Text.OrElse(Http.Param(req, "q"), "");
    var indexName := Text.OrElse(Http.Param(req, "index"), DefaultIndex);
    var limit := Numbers.ParseInt(Text.OrElse(Http.Param(req, "limit"), "10"));
    var offset := Numbers.ParseInt(Text.OrElse(Http.Param(req, "offset"), "0"));
    var filter := Http.Param(req, "filter");
    var options := Engine.SearchOptions(limit, offset, DefaultHighlight, DefaultRetrieve, None, None, None);
    if filter.Some? && filter.value != "" {
      options := options.(filter := filter);
    }
    r := Engine.SearchRequest(indexName, query, options);
  }

  /** The URL fixes every field of the request sent. */
  lemma UrlFixesRequest(req: Http.Request, a: Engine.SearchRequest, b: Engine.SearchRequest)
    requires FromUrl(req, a) && FromUrl(req, b)
    ensures a == b
  {
    assert a.options == b.options;
  }

  /** A URL without parameters searches `internal_sites` for the empty query,
      ten hits from the first, without a filter. */
  lemma UrlDefaults(r: Engine.SearchRequest)
    requires FromUrl(Http.Request(map[], map[], None), r)
    ensures r.query == "" && r.index == DefaultIndex
    ensures r.options.limit == Some(10) && r.options.offset == Some(0) && r.options.filter.None?
  {
    Numbers.ParseIntOfToString(10);
    Numbers.ParseIntOfToString(0);
    assert Numbers.IntToString(10) == "10";
    assert Numbers.IntToString(0) == "0";
  }

  /** The POST body's fields; `None` is a field the body leaves out. */
  datatype SearchBody = SearchBody(
    query: Option<string>, indexName: Option<string>, limit: Option<int>, offset: Option<int>,
    filter: Option<string>, sort: Option<seq<string>>, facets: Option<seq<string>>,
    highlight: Option<seq<string>>, retrieve: Option<seq<string>>)

  /** The POST endpoint's parameters: destructuring defaults replace only
      missing fields, while a filter is dropped when empty. Lists, even empty
      ones, are kept when given. */
  predicate FromBody(body: SearchBody, r: Engine.SearchRequest) {
    && r.query == body.query.GetOr("")
    && r.index == body.indexName.GetOr(DefaultIndex)
    && r.options.limit == Some(body.limit.GetOr(10))
    && r.options.offset == Some(body.offset.GetOr(0))
    && r.options.highlight == body.highlight.GetOr(DefaultHighlight)
    && r.options.retrieve == body.retrieve.GetOr(DefaultRetrieve)
    && r.options.filter == Text.NonEmpty(body.filter)
    && r.options.sort == body.sort && r.options.facets == body.facets
  }

  /** The options object built field by field from the body. */
  method PostRequest(body: SearchBody) returns (r: Engine.SearchRequest)
    ensures FromBody(body, r)
  {
    var options := Engine.SearchOptions(Some(body.limit.GetOr(10)), Some(body.offset.GetOr(0)),
      body.highlight.GetOr(DefaultHighlight), body.retrieve.GetOr(DefaultRetrieve), None, None, None);
    if body.filter.Some? && body.filter.value != "" {
      options := options.(filter := body.filter);
    }
    if body.sort.Some? {
      options := options.(sort := body.sort);
    }
    if body.facets.Some? {
      options := options.(facets := body.facets);
    }
    r := Engine.SearchRequest(body.indexName.GetOr(DefaultIndex), body.query.GetOr(""), options);
  }

  /** The analytics row a search produces, if any: only a query whose trim is
      non-empty is logged, trimmed, with the engine's estimated hit count (0
      when missing or zero) and the caller's address and user agent. */
  function EventFor(query: string, result: Engine.SearchResult, req: Http.Request, today: int): (r: Option<Store.SearchEvent>)
    ensures r.Some? <==> !Text.IsBlank(query)
    ensures r.Some? ==> r.value.query == Text.Trim(query) && r.value.query != "" && r.value.createdAt == today
    ensures r.Some? ==> r.value.resultsCount == (if result.estimatedTotalHits.Some? then result.estimatedTotalHits.value else 0)
    ensures r.Some? ==> r.value.userIp == ClientAddress(req) && r.value.userAgent == Text.NonEmpty(Http.Header(req, "user-agent"))
  {
    if query == "" || Text.IsBlank(query) then None
    else Some(Store.SearchEvent(Text.Trim(query), result.estimatedTotalHits.GetOr(0), ClientAddress(req),
                                Text.NonEmpty(Http.Header(req, "user-agent")), today))
  }

  /** `x-forwarded-for`, else `x-real-ip`, else nothing; empty values do not count. */
  function ClientAddress(req: Http.Request): (r: Option<string>)
    ensures r.Some? ==> r.value != ""
    ensures r.Some? ==> r == Http.Header(req, "x-forwarded-for") || r == Http.Header(req, "x-real-ip")
    ensures Text.NonEmpty(Http.Header(req, "x-forwarded-for")).Some? ==> r == Http.Header(req, "x-forwarded-for")
  {
    match Text.NonEmpty(Http.Header(req, "x-forwarded-for"))
    case Some(ip) => Some(ip)
    case None => Text.NonEmpty(Http.Header(req, "x-real-ip"))
  }

  /** `facetDistribution`: for each facet, the count of each of its values. */
  function Facets(f: map<string, map<string, int>>): (r: map<string, Json>)
    ensures r.Keys == f.Keys
    ensures forall k :: k in f ==> r[k].JObj? && r[k].fields.Keys == f[k].Keys
    ensures forall k, v :: k in f && v in f[k] ==> r[k].fields[v] == JNum(f[k][v])
  {
    map k | k in f :: JObj(map v | v in f[k] :: JNum(f[k][v]))
  }

  function HitsJson(hits: seq<Engine.Doc>): (r: seq<Json>)
    ensures |r| == |hits| && forall i :: 0 <= i < |hits| ==> r[i] == JObj(hits[i])
  {
    if hits == [] then [] else [JObj(hits[0])] + HitsJson(hits[1..])
  }

  /** `m` carries the engine's number under `key` exactly when the engine gave one. */
  predicate Passes(m: map<string, Json>, key: string, v: Option<int>) {
    (key in m <==> v.Some?) && (v.Some? ==> m[key] == JNum(v.value))
  }

  /** The metadata fields of a search answer, passed through unchanged. */
  const MetadataKeys: set<string> :=
    {"limit", "offset", "estimatedTotalHits", "totalHits", "totalPages", "hitsPerPage", "page", "facetDistribution"}

  function Num(v: Option<int>): Option<Json> {
    if v.Some? then Some(JNum(v.value)) else None
  }

  /** The engine's value for one metadata field, if it gave one. */
  function MetadataField(result: Engine.SearchResult, key: string): Option<Json> {
    if key == "limit" then Num(result.limit)
    else if key == "offset" then Num(result.offset)
    else if key == "estimatedTotalHits" then Num(result.estimatedTotalHits)
    else if key == "totalHits" then Num(result.totalHits)
    else if key == "totalPages" then Num(result.totalPages)
    else if key == "hitsPerPage" then Num(result.hitsPerPage)
    else if key == "page" then Num(result.page)
    else if key == "facetDistribution" && result.facetDistribution.Some? then
      Some(JObj(Facets(result.facetDistribution.value)))
    else None
  }

  /** The metadata the engine returned with the hits, passed through unchanged;
      a field the engine left out is left out of the serialised object. */
  function Metadata(result: Engine.SearchResult): (m: map<string, Json>)
    ensures m.Keys <= MetadataKeys
    ensures Passes(m, "limit", result.limit) && Passes(m, "offset", result.offset)
    ensures Passes(m, "estimatedTotalHits", result.estimatedTotalHits) && Passes(m, "totalHits", result.totalHits)
    ensures Passes(m, "totalPages", result.totalPages) && Passes(m, "hitsPerPage", result.hitsPerPage)
    ensures Passes(m, "page", result.page)
    ensures "facetDistribution" in m <==> result.facetDistribution.Some?
    ensures result.facetDistribution.Some? ==> m["facetDistribution"] == JObj(Facets(result.facetDistribution.value))
  {
    map k | k in MetadataKeys && MetadataField(result, k).Some? :: MetadataField(result, k).value
  }

  /** The success body: the query and index as received, the hits, and the
      engine's metadata unchanged; metadata the engine leaves out is left out
      of the serialised object, and there is nothing else. */
  function Echo(query: string, indexName: string, result: Engine.SearchResult): (r: Json)
    ensures r.JObj?
    ensures r.fields.Keys <= MetadataKeys + {"query", "indexName", "hits", "processingTimeMs"}
    ensures "query" in r.fields && r.fields["query"] == JStr(query)
    ensures "indexName" in r.fields && r.fields["indexName"] == JStr(indexName)
    ensures "hits" in r.fields && r.fields["hits"] == JArr(HitsJson(result.hits))
    ensures "processingTimeMs" in r.fields && r.fields["processingTimeMs"] == JNum(result.processingTimeMs)
    ensures Passes(r.fields, "limit", result.limit) && Passes(r.fields, "offset", result.offset)
    ensures Passes(r.fields, "estimatedTotalHits", result.estimatedTotalHits)
    ensures Passes(r.fields, "totalHits", result.totalHits) && Passes(r.fields, "totalPages", result.totalPages)
    ensures Passes(r.fields, "hitsPerPage", result.hitsPerPage) && Passes(r.fields, "page", result.page)
    ensures "facetDistribution" in r.fields <==> result.facetDistribution.Some?
    ensures result.facetDistribution.Some? ==>
      r.fields["facetDistribution"] == JObj(Facets(result.facetDistribution.value))
  {
    JObj(Metadata(result)["query" := JStr(query)]["indexName" := JStr(indexName)]
           ["hits" := JArr(HitsJson(result.hits))]["processingTimeMs" := JNum(result.processingTimeMs)])
  }

  /** Searching and logging, shared by both endpoints. A failed search is a
      500 with the failure's details; a failed analytics write (`writeFails`)
      is swallowed and does not change the answer. */
  method Run(sent: Engine.SearchRequest, search: Engine.SearchOracle, req: Http.Request,
             db: Store.Database, writeFails: bool, today: int) returns (resp: Http.Response)
    modifies db`searchEvents
    ensures search(sent).Err? ==> resp == Http.ErrorDetails(500, "Failed to search", Engine.Message(search(sent).error))
                                  && db.searchEvents == old(db.searchEvents)
    ensures search(sent).Ok? ==> resp == Http.Reply(200, Echo(sent.query, sent.index, search(sent).value))
    ensures search(sent).Ok? ==>
      var e := EventFor(sent.query, search(sent).value, req, today);
      db.searchEvents == old(db.searchEvents) + (if e.Some? && !writeFails then [e.value] else [])
  {
    var answer := search(sent);
    if answer.Err? {
      return Http.ErrorDetails(500, "Failed to search", Engine.Message(answer.error));
    }
    var e := EventFor(sent.query, answer.value, req, today);
    if e.Some? && !writeFails {
      db.searchEvents := db.searchEvents + [e.value];
    }
    resp := Http.Reply(200, Echo(sent.query, sent.index, answer.value));
  }

  /** `GET /api/meilisearch/search`. */
  method Get(req: Http.Request, search: Engine.SearchOracle, db: Store.Database, writeFails: bool, today: int)
    returns (resp: Http.Response, sent: Engine.SearchRequest)
    modifies db`searchEvents
    ensures FromUrl(req, sent)
    ensures search(sent).Ok? ==> resp == Http.Reply(200, Echo(sent.query, sent.index, search(sent).value))
    ensures search(sent).Ok? ==>
      var e := EventFor(sent.query, search(sent).value, req, today);
      db.searchEvents == old(db.searchEvents) + (if e.Some? && !writeFails then [e.value] else [])
    ensures search(sent).Err? ==>
      && resp == Http.ErrorDetails(500, "Failed to search", Engine.Message(search(sent).error))
      && db.searchEvents == old(db.searchEvents)
  {
    sent := GetRequest(req);
    resp := Run(sent, search, req, db, writeFails, today);
  }

  /** `POST /api/meilisearch/search`; a body that is not JSON is a 500. */
  method Post(req: Http.Request, body: Option<SearchBody>, search: Engine.SearchOracle, db: Store.Database,
              writeFails: bool, today: int)
    returns (resp: Http.Response, sent: Option<Engine.SearchRequest>)
    modifies db`searchEvents
    ensures body.None? ==>
      && sent.None? && resp == Http.ErrorDetails(500, "Failed to search", Http.MalformedBody)
      && db.searchEvents == old(db.searchEvents)
    ensures body.Some? ==> sent.Some? && FromBody(body.value, sent.value)
    ensures body.Some? && search(sent.value).Ok? ==>
      var e := EventFor(sent.value.query, search(sent.value).value, req, today);
      && resp == Http.Reply(200, Echo(sent.value.query, sent.value.index, search(sent.value).value))
      && db.searchEvents == old(db.searchEvents) + (if e.Some? && !writeFails then [e.value] else [])
    ensures body.Some? && search(sent.value).Err? ==>
      && resp == Http.ErrorDetails(500, "Failed to search", Engine.Message(search(sent.value).error))
      && db.searchEvents == old(db.searchEvents)
  {
    if body.None? {
      return Http.ErrorDetails(500, "Failed to search", Http.MalformedBody), None;
    }
    var r := PostRequest(body.value);
    sent := Some(r);
    resp := Run(r, search, req, db, writeFails, today);
  }

  /** The dropdown's request for a query. */
  function SuggestionFetch(query: string): Http.Request {
    Http.Request(map[], map["q" := query, "limit" := "8"], None)
  }

  /** Every suggestion request the dropdown sends is logged as a search of the
      trimmed text, and asks for eight hits. */
  lemma SuggestionFetchIsLogged(query: string, result: Engine.SearchResult, today: int)
    requires SearchInput.ShouldFetch(query)
    ensures Http.Param(SuggestionFetch(query), "q") == Some(query) && query != ""
    ensures Numbers.ParseInt(Http.Param(SuggestionFetch(query), "limit").value) == Some(8)
    ensures var e := EventFor(query, result, SuggestionFetch(query), today);
      e.Some? && e.value.query == Text.Trim(query)
  {
    SearchInput.FetchedQueryIsMeaningful(query);
    Numbers.ParseIntOfToString(8);
    assert Numbers.IntToString(8) == "8";
  }

  /** An empty query is searched (it lists documents) but never logged. */
  lemma EmptyQueryNotLogged(result: Engine.SearchResult, req: Http.Request, today: int)
    ensures EventFor("", result, req, today).None?
  {
  }
}
