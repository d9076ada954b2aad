/** The browser search-provider endpoints: the suggestions endpoint answers in
    the JSON format of the OpenSearch Suggestions 1.0 extension (query,
    completions, descriptions, URLs), and the search endpoint turns a query into
    a redirect. */
module OpenSearch {
  import opened Wrappers
  import opened Json
  import Text
  import Engine

  const SuggestionLimit := 8

  /** Queries that the suggestions endpoint sends on to the engine. */
  predicate WorthSearching(q: Option<string>) {
    q.Some? && q.value != "" && !Text.IsBlank(q.value) && Text.Utf16Length(q.value) >= 2
  }

  /** The request sent for a query that is worth searching. */
  function SuggestionRequest(q: string): (r: Engine.SearchRequest)
    ensures r.index == "internal_sites" && r.query == Text.Trim(q)
    ensures r.options.limit == Some(SuggestionLimit) && r.options.highlight == []
    ensures r.options.retrieve == ["name", "description"]
    ensures r.options.filter.None? && r.options.sort.None? && r.options.facets.None?
  {
    Engine.SearchRequest("internal_sites", Text.Trim(q),
      Engine.SearchOptions(Some(SuggestionLimit), None, [], ["name", "description"], None, None, None))
  }

  /** `[q || '', []]`, the answer for a short query or a failure. */
  function ShortAnswer(q: Option<string>): Json {
    JArr([JStr(Text.OrElse(q, "")), JArr([])])
  }

  /** `hit.name`; a hit without one serialises as `null` inside an array. */
  function NameOf(hit: Engine.Doc): Json {
    if "name" in hit then hit["name"] else JNull
  }

  function Names(hits: seq<Engine.Doc>): (r: seq<Json>)
    ensures |r| == |hits| && forall i :: 0 <= i < |hits| ==> r[i] == NameOf(hits[i])
  {
    if hits == [] then [] else [NameOf(hits[0])] + Names(hits[1..])
  }

  /** `GET /api/opensearch/suggestions?q=…`; `search` is the engine. It never
      answers with an HTTP error. */
  function Suggestions(q: Option<string>, search: Engine.SearchOracle): (r: Json)
    ensures !WorthSearching(q) ==> r == ShortAnswer(q)
    ensures WorthSearching(q) && search(SuggestionRequest(q.value)).Err? ==> r == ShortAnswer(q)
    ensures WorthSearching(q) && search(SuggestionRequest(q.value)).Ok? ==>
      var hits := search(SuggestionRequest(q.value)).value.hits;
      && r.JArr? && |r.items| == 4
      && r.items[0] == JStr(q.value)
      && r.items[1].JArr? && |r.items[1].items| == |hits|
      && (forall i :: 0 <= i < |hits| ==> r.items[1].items[i] == NameOf(hits[i]))
      && r.items[2] == JArr([]) && r.items[3] == JArr([])
  {
    if !WorthSearching(q) then ShortAnswer(q)
    else match search(SuggestionRequest(q.value))
      case Err(_) => ShortAnswer(q)
      case Ok(result) => JArr([JStr(q.value), JArr(Names(result.hits)), JArr([]), JArr([])])
  }

  /** An engine that honours the limit gives at most eight completions. */
  lemma AtMostEightCompletions(q: Option<string>, search: Engine.SearchOracle)
    requires WorthSearching(q)
    requires forall req :: search(req).Ok? && req.options.limit.Some? ==> |search(req).value.hits| <= req.options.limit.value
    ensures |Suggestions(q, search).items| == 4 ==> |Suggestions(q, search).items[1].items| <= SuggestionLimit
  {
    var req := SuggestionRequest(q.value);
    if search(req).Ok? {
      assert |search(req).value.hits| <= SuggestionLimit;
    }
  }

  /** The endpoint searches the trimmed text but echoes the query as received. */
  lemma EchoIsUntrimmed(search: Engine.SearchOracle)
    requires search(SuggestionRequest(" ab ")).Ok?
    ensures SuggestionRequest(" ab ").query == "ab"
    ensures Suggestions(Some(" ab "), search).items[0] == JStr(" ab ")
  {
    assert Text.LeadingSpace(" ab ") == 1;
    assert " ab "[1..] == "ab ";
    assert Text.TrailingCut("ab ") == 2;
    assert WorthSearching(Some(" ab ")) by {
      assert Text.Trim(" ab ") == "ab";
    }
  }

  /** Where the search endpoint sends the browser. */
  datatype Target = Home | ResultsPage(q: string)

  /** `GET /api/opensearch/search?q=…`: to the results page with the trimmed
      query, or home when there is nothing to search. */
  function SearchRedirect(q: Option<string>): (r: Target)
    ensures r.Home? <==> q.None? || Text.IsBlank(q.value)
    ensures r.ResultsPage? ==> r.q == Text.Trim(q.value)
  {
    if q.None? || q.value == "" || Text.IsBlank(q.value) then Home else ResultsPage(Text.Trim(q.value))
  }

  /** The forwarded query is never blank and has no white space at either end. */
  lemma ForwardedQueryIsClean(q: Option<string>)
    requires SearchRedirect(q).ResultsPage?
    ensures var f := SearchRedirect(q).q;
      f != "" && !Text.IsBlank(f) && !Text.IsSpace(f[0]) && !Text.IsSpace(f[|f| - 1])
  {
    Text.TrimIsMiddle(q.value);
    Text.TrimIdempotent(q.value);
  }
}
