# Search portal core — a Dafny model

This project models the core of an internal search portal written in Next.js:

- **Search box.** The home page's box debounces typing and fetches up to eight suggestions. It lets the user move through them with the arrow keys and submits a query to the results page.
- **Search engine endpoints.** These are thin routes over a Meilisearch engine:
  - search, which also logs each non-blank query as a search event;
  - index lifecycle (setup and teardown of `internal_sites`, create, delete, stats);
  - document add, delete and list.
- **Browser integration.** OpenSearch suggestion and redirect endpoints let a browser use the portal as a search provider.
- **Developer portal.** A bearer-token portal backed by a relational store offers:
  - a paginated, searchable site listing and site creation with an audit entry;
  - paginated dock items and apps, restricted to administrators;
  - search analytics (volume by day, top queries, zero-result queries, averages) and CSV/JSON export;
  - a full resync of the `internal_sites` index from the store;
  - role-dependent navigation.

## How the model is organised

- **Pure computation** becomes datatypes, functions and lemmas: request parsing, permission checks, listings, aggregation, CSV, navigation.
- **Engine state** is the class `Engine.Engine`:
  - fields: the registry of indexes (`map<string, Index>`) and the log of requests it received;
  - `Perform` and `PerformAll` change it one request at a time;
  - `Engine.Step` and `Engine.RunOps` specify those methods, and the route lemmas are stated over them.
  - A request's transport failure is an injected fault. `Fault.FailAt(k)` makes the `k`-th engine call of a handler fail.
- **Relational store** is the class `Store.Database`. It has one `seq` field per table, and route handlers append to those fields.
- **Search box** is the class `SearchInput.SearchBox`. It has one field per piece of React state, one method per event handler, and queues for the pending debounce and the requests in flight.
- **Parameters for what is out of scope.** The following are parameters, not implementations:
  - the Meilisearch search algorithm (`Engine.SearchOracle`);
  - JWT verification (`Auth.Verifier`);
  - URL validity (`isUrl`);
  - the clock (`today`, a day number);
  - ISO date rendering (`iso`).

## Model

| member | source | states |
|---|---|---|
| SearchInput.Project | src/components/search-input.tsx:77-83 | each search hit becomes one suggestion carrying its id, name, url, type and description, in order |
| SearchInput.FetchedQueryIsMeaningful | src/components/search-input.tsx:64-69 | a query that passes the fetch guard is at least two UTF-16 code units long and has a non-space character |
| SearchInput.ArrowDownIndex | src/components/search-input.tsx:119-124 | ArrowDown advances the highlight by one exactly while it is before the last suggestion and never past it |
| SearchInput.ArrowUpIndex | src/components/search-input.tsx:125-128 | ArrowUp moves the highlight back by one and never below -1 (the input itself) |
| SearchInput.SearchBox.constructor | src/components/search-input.tsx:38-42 | the box starts with the initial query, no suggestions, closed list, nothing highlighted, nothing loading |
| SearchInput.SearchBox.InitialQueryChanged | src/components/search-input.tsx:48-50 | a new initial query replaces the text in the box |
| SearchInput.SearchBox.InputChanged | src/components/search-input.tsx:98-108 | typing stores the text and (re)arms the debounce with that value, cancelling the earlier one |
| SearchInput.SearchBox.DebounceElapsed | src/components/search-input.tsx:105-107 | when the debounce fires, a request is issued iff the armed value passes the guard, and loading starts; otherwise the list is cleared and closed and loading is left as it was |
| SearchInput.SearchBox.FetchSuggestions | src/components/search-input.tsx:64-73 | a short or blank query clears and closes the list without a request; any other query issues a request and sets loading |
| SearchInput.SearchBox.AnswerArrived | src/components/search-input.tsx:75-95 | an ok answer replaces the suggestions, opens the list iff it is non-empty and clears the highlight; a failed status leaves the list; a thrown error clears it; loading always ends |
| SearchInput.SearchBox.Search | src/components/search-input.tsx:52-57 | a non-blank query closes the list and navigates to the results for the untrimmed text; a blank one does nothing |
| SearchInput.SearchBox.Select | src/components/search-input.tsx:145-150 | choosing a text puts it in the box, closes the list, clears the highlight and navigates to it |
| SearchInput.SearchBox.KeyDown | src/components/search-input.tsx:110-143 | the key handler as written: navigation keys move the highlight, Enter submits the highlighted suggestion or the query, Escape closes; Enter on the "Search for" row reads past the list and throws |
| SearchInput.SearchBox.KeyDownCorrected | src/components/search-input.tsx:129-137 | the same handler where Enter on the "Search for" row submits the query; every other key behaves as in `KeyDown`, and it never throws |
| SearchInput.SearchBox.Focus | src/components/search-input.tsx:188-192 | focusing opens the list when there are suggestions and the query is at least two UTF-16 code units long, and otherwise leaves it as it is |
| SearchInput.SearchBox.HoverSuggestion | src/components/search-input.tsx:253 | hovering a suggestion highlights exactly that suggestion |
| SearchInput.SearchBox.HoverSearchRow | src/components/search-input.tsx:283 | hovering the "Search for" row sets the highlight to one past the last suggestion |
| SearchInput.SearchBox.ClickSuggestion | src/components/search-input.tsx:252 | clicking a suggestion selects its name |
| SearchInput.SearchBox.ClickSearchRow | src/components/search-input.tsx:282 | clicking the "Search for" row selects the current query |
| SearchInput.SearchBox.MouseDown | src/components/search-input.tsx:152-166 | while the list is open, a press outside both the list and the input closes it and clears the highlight; otherwise nothing changes |
| SearchInput.SampleQueriesFetch | src/components/search-input.tsx:65 | two-character and longer non-blank queries are fetched |
| SearchInput.EmojiIsFetched | src/components/search-input.tsx:65 | a single emoji counts as two characters, so it passes the guard and is fetched |
| SearchInput.EnterOnSearchRowThrows | src/components/search-input.tsx:129-137 | hovering the "Search for" row and pressing Enter makes the handler throw |
| SearchInput.EnterOnSearchRowSubmits | src/components/search-input.tsx:129-137 | with the corrected handler the same sequence submits the typed query |
| SearchInput.LateAnswerOverwrites | src/components/search-input.tsx:64-96 | answers are not matched to the text that asked: an older answer arriving last overwrites the newer suggestions |
| Text.TrimIsMiddle | src/app/api/opensearch/suggestions/route.ts:9 | JavaScript `trim` returns the middle of the string after whitespace is stripped from both ends, and keeps no whitespace at either end |
| Text.BlankIffAllSpace | src/app/api/meilisearch/search/route.ts:35 | a string trims to empty iff every character is whitespace |
| Text.TrimIdempotent | src/app/api/opensearch/search/route.ts:12-13 | trimming twice is trimming once |
| Text.Utf16Length | src/components/search-input.tsx:65 | JavaScript `length` counts UTF-16 code units: one per character, two for a character outside the Basic Multilingual Plane, and equal to the character count iff there is none |
| Text.AstralLength | src/app/api/opensearch/suggestions/route.ts:9 | a lone astral character has length 2 |
| Numbers.ParseIntOfToString | src/app/api/meilisearch/search/route.ts:10-11 | JavaScript `parseInt` reads back every integer written in decimal |
| Numbers.CeilDiv | src/app/api/developer/sites/route.ts:50 | the ceiling of a quotient: the least `q` with `a <= b * q` |
| Sorting.SortByFacts | src/app/api/developer/dock-items/route.ts:27 | ordering by a key gives a sequence sorted by that key and a permutation of its input |
| Sorting.SortedUnique | src/app/api/developer/dock-items/route.ts:27 | when no two rows share a key, two sorted orders of the same rows are equal, so `ORDER BY` fixes the order |
| Sorting.SameHead | src/app/api/developer/dock-items/route.ts:27 | two sorted orders of the same rows with distinct keys start with the same row |
| OpenSearch.SuggestionRequest | src/app/api/opensearch/suggestions/route.ts:18-24 | the engine is asked for the trimmed query in `internal_sites`, at most eight hits, name and description only, no highlighting |
| OpenSearch.Suggestions | src/app/api/opensearch/suggestions/route.ts:4-46 | a missing, blank or one-character query, or an engine failure, answers `[q or "", []]`; otherwise `[q, names, [], []]` |
| OpenSearch.AtMostEightCompletions | src/app/api/opensearch/suggestions/route.ts:20-33 | a successful answer carries at most eight completions |
| OpenSearch.EchoIsUntrimmed | src/app/api/opensearch/suggestions/route.ts:20-29 | the engine sees the trimmed query but the answer echoes it untrimmed |
| OpenSearch.SearchRedirect | src/app/api/opensearch/search/route.ts:3-22 | a missing or blank query redirects home; any other redirects to the results page with the trimmed query |
| OpenSearch.ForwardedQueryIsClean | src/app/api/opensearch/search/route.ts:12-13 | the forwarded query is non-empty and already trimmed |
| SearchRoute.GetRequest | src/app/api/meilisearch/search/route.ts:7-30 | query, index, limit, offset and filter come from the URL with defaults "", `internal_sites`, 10 and 0, and the fixed highlight and retrieve lists |
| SearchRoute.UrlFixesRequest | src/app/api/meilisearch/search/route.ts:7-30 | two requests built from the same URL are equal: every field sent is determined by the URL |
| SearchRoute.UrlDefaults | src/app/api/meilisearch/search/route.ts:8-11 | a URL without parameters searches `internal_sites` for the empty query, 10 hits from offset 0, without a filter |
| SearchRoute.PostRequest | src/app/api/meilisearch/search/route.ts:77-105 | the body's fields with the same defaults; highlight, retrieve, sort and facets pass through when given |
| SearchRoute.EventFor | src/app/api/meilisearch/search/route.ts:34-49 | an event is recorded iff the query is not blank; it stores the trimmed query, the estimated hit count or 0, the client address and the user agent |
| SearchRoute.ClientAddress | src/app/api/meilisearch/search/route.ts:36 | the forwarded-for header when non-empty, else the real-ip header when non-empty, else none |
| SearchRoute.Echo | src/app/api/meilisearch/search/route.ts:51-64 | the reply holds the sent query and index, the engine's hits and timing, and each metadata field exactly when the engine gave it, unchanged; nothing else |
| SearchRoute.Metadata | src/app/api/meilisearch/search/route.ts:56-63 | the metadata fields (limit, offset, totals, pages, facet distribution) are passed through unchanged, and one the engine left out is absent |
| SearchRoute.Facets | src/app/api/meilisearch/search/route.ts:62 | the facet distribution keeps every facet and every value with its count |
| SearchRoute.HitsJson | src/app/api/meilisearch/search/route.ts:53 | the hits are passed through one for one, in order |
| SearchRoute.Run | src/app/api/meilisearch/search/route.ts:32-72 | an engine failure is a 500 and logs nothing; a success replies with the echo and appends the event unless the write fails |
| SearchRoute.Get | src/app/api/meilisearch/search/route.ts:5-73 | the request sent is the one the URL fixes (`FromUrl`: query, index, limit, offset, filter and the fixed lists); the reply and the log are `Run`'s, an engine failure being a 500 with its reason |
| SearchRoute.Post | src/app/api/meilisearch/search/route.ts:75-148 | an unreadable body is a 500 that sends and logs nothing; otherwise the request sent is the one the body fixes (`FromBody`: every field with its default), and the reply and the log are `Run`'s |
| SearchRoute.SuggestionFetchIsLogged | src/components/search-input.tsx:73 | every suggestion fetch the search box issues is logged as a search event for its trimmed text |
| SearchRoute.EmptyQueryNotLogged | src/app/api/meilisearch/search/route.ts:35 | a search for the empty query is never logged |
| Engine.Find | src/app/api/meilisearch/documents/route.ts:28 | the position of the stored document with a given id, or none when no document has it |
| Engine.UpsertAllFacts | src/app/api/meilisearch/documents/route.ts:28 | adding documents keeps ids distinct, stores every added document and keeps every stored document whose id was not added |
| Engine.UpsertAllIntoEmpty | src/app/api/developer/sync/route.ts:40-42 | adding distinct documents to an empty index stores exactly them, in order |
| Engine.AsDocs | src/app/api/meilisearch/documents/route.ts:15-28 | a batch is accepted iff every item is an object with an id under the primary key |
| Engine.Destination | src/app/api/meilisearch/documents/route.ts:27-28 | an add goes to the existing index, keeping its key; a missing index is created empty under a valid uid with the one attribute of the first document whose name ends with `id` as key, and is refused when there is none or several |
| Engine.WithoutExact | src/app/api/meilisearch/documents/route.ts:76-80 | after a deletion a document remains iff it was stored and its id is not among those deleted |
| Engine.RunOpsCompose | src/app/api/developer/sync/route.ts:37-53 | a sequence of engine calls run after another composes: stop at the first failure, otherwise continue from the intermediate state |
| Engine.RunOpsSingleApplied | src/app/api/meilisearch/init/route.ts:26-35 | one call the engine applies succeeds unless it fails in transit |
| Engine.RunOpsPairApplied | src/app/api/meilisearch/init/route.ts:26-35 | two calls the engine applies in turn end in the second one's state when the run completes, and it completes without a transport failure |
| Engine.Engine.Perform | src/app/api/meilisearch/index/route.ts:20-22 | one engine call: it is logged, and a transport failure changes nothing |
| Engine.Engine.PerformAll | src/app/api/developer/sync/route.ts:37-53 | calls run in order and stop at the first failure; the final state is the specification's |
| Engine.Engine.Stats | src/app/api/meilisearch/index/route.ts:92-93 | the document count of the named index; a missing index is not found, or an invalid uid when the name cannot be an index's |
| Engine.Engine.Documents | src/app/api/meilisearch/documents/route.ts:120-124 | a window of the named index's documents with its total |
| Init.Setup | src/app/api/meilisearch/init/route.ts:5-72 | an existing index is a 409 that changes nothing; otherwise the index is created with key `id`, filled with the sample data and configured, and any failure is a 500 |
| Init.Teardown | src/app/api/meilisearch/init/route.ts:74-102 | a 200 iff the index existed and the call got through, and the index is then gone; otherwise a 404 and nothing changes; the reply is the success message or the 404 with the engine's reason, as `TeardownReply` of the engine's outcome |
| Init.SetupCreatesIndex | src/app/api/meilisearch/init/route.ts:25-47 | a setup that completes leaves exactly the sample documents, searchable by name, description and type, filterable by type |
| Init.CreateAndFill | src/app/api/meilisearch/init/route.ts:26-35 | creating and filling an absent index stores the sample data under key `id` |
| Init.CreateFresh | src/app/api/meilisearch/init/route.ts:25-28 | the absent index is created empty with primary key `id` |
| Init.FillCreated | src/app/api/meilisearch/init/route.ts:34-35 | the fresh index then holds exactly the sample documents |
| Init.ConfigureIndex | src/app/api/meilisearch/init/route.ts:38-47 | the settings calls set the searchable and filterable attributes and touch nothing else |
| Init.FailedProbeOnExistingIndex | src/app/api/meilisearch/init/route.ts:15-28 | a failed existence probe is taken for absence, so the create then fails on the existing index and the reply is a 500 |
| Init.TeardownTwice | src/app/api/meilisearch/init/route.ts:83-93 | tearing down twice gives 200 then 404 |
| Init.TeardownThenSetup | src/app/api/meilisearch/init/route.ts:15-28 | after a teardown a setup proceeds to create the index |
| IndexRoute.CreateRequest | src/app/api/meilisearch/index/route.ts:6-22 | an unreadable body is a 500; a missing or falsy name is a 400; any truthy name, string or not, is passed on with the given truthy primary key or `id` |
| IndexRoute.Create | src/app/api/meilisearch/index/route.ts:4-41 | a bad request is answered without an engine call; otherwise one create call, a 201 on success and a 500 on failure |
| IndexRoute.NameParam | src/app/api/meilisearch/index/route.ts:46-53 | the name comes from the `name` parameter and must be non-empty, else a 400 |
| IndexRoute.Delete | src/app/api/meilisearch/index/route.ts:43-73 | one delete call; a 200 iff the index existed and the call got through, and the index is then gone; a missing index or a failure is a 500 and nothing changes; the reply is `DeleteReply` of the engine's outcome: "Index … deleted successfully" or "Failed to delete index" with the reason |
| IndexRoute.Stats | src/app/api/meilisearch/index/route.ts:75-107 | one stats call; the reply echoes the name with the document count, or is a 500 carrying the failure: transport, missing index or invalid name |
| IndexRoute.CreateThenStats | src/app/api/meilisearch/index/route.ts:20-22 | creating an absent index under a valid name leaves it empty with the requested primary key, and creating it again fails as existing |
| IndexRoute.EngineRefusesCreation | src/app/api/meilisearch/index/route.ts:20-22 | a name that is not a string or not a valid uid, or a non-string key, is refused by the engine with its reason, the reply is a 500 and nothing changes |
| IndexRoute.NumericNameReachesEngine | src/app/api/meilisearch/index/route.ts:6-22 | a numeric name passes the route's check and is refused by the engine as an invalid uid |
| IndexRoute.PrimaryKeyDefaults | src/app/api/meilisearch/index/route.ts:21 | a missing or falsy primary key becomes `id`, whatever the truthy name |
| DocumentsRoute.AddRequest | src/app/api/meilisearch/documents/route.ts:6-20 | an unreadable body is a 500; the request is accepted iff the name is truthy and the documents are a non-empty array, else a 400; the name is sent as JavaScript would write it into the path |
| DocumentsRoute.StringName | src/app/api/meilisearch/documents/route.ts:27 | a string name is sent unchanged |
| DocumentsRoute.NumericName | src/app/api/meilisearch/documents/route.ts:27 | a numeric name is sent as its decimal form |
| DocumentsRoute.Add | src/app/api/meilisearch/documents/route.ts:4-48 | a bad request makes no engine call; otherwise one add call, a 201 with the count on success and a 500 on failure |
| DocumentsRoute.AddedDocumentsAreStored | src/app/api/meilisearch/documents/route.ts:27-28 | a well-formed batch with distinct ids for an index it can reach is accepted, stores every item, keeps the index's key and distinct ids, and leaves every other index alone |
| DocumentsRoute.BatchStored | src/app/api/meilisearch/documents/route.ts:28 | each item of the batch is stored as given |
| DocumentsRoute.AddResult | src/app/api/meilisearch/documents/route.ts:27-28 | an add upserts the parsed documents into the existing index, or into a new one keyed by the first document's one `id` attribute, and leaves every other index alone |
| DocumentsRoute.InferredKey | src/app/api/meilisearch/documents/route.ts:27-28 | a first document with one `id` attribute creates the index with that key and stores the document |
| DocumentsRoute.InferenceRefused | src/app/api/meilisearch/documents/route.ts:27-28 | a first document with no `id` attribute, or several, is refused and nothing changes |
| DocumentsRoute.CandidateExamples | src/app/api/meilisearch/documents/route.ts:27-28 | `sku_id` is the one candidate of `{sku_id}`; `{sku}` has none and `{id, user_id}` has two |
| DocumentsRoute.DeleteRequest | src/app/api/meilisearch/documents/route.ts:52-73 | an unreadable body is a 500; a falsy name is a 400; a truthy name is accepted iff ids are an array or a non-empty string, else a 400; the name is sent as JavaScript writes it |
| DocumentsRoute.RemovalOp | src/app/api/meilisearch/documents/route.ts:76-80 | an array deletes a batch and a string deletes one document |
| DocumentsRoute.Delete | src/app/api/meilisearch/documents/route.ts:50-99 | a bad request makes no engine call; otherwise one delete call, a 200 on success and a 500 on failure |
| DocumentsRoute.DeletionIsExact | src/app/api/meilisearch/documents/route.ts:76-80 | a successful deletion removes exactly the documents whose ids were named |
| DocumentsRoute.SingleIsBatchOfOne | src/app/api/meilisearch/documents/route.ts:76-80 | deleting one id is deleting a batch holding that id |
| DocumentsRoute.EmptyBatchDeletesNothing | src/app/api/meilisearch/documents/route.ts:61-77 | an empty id array passes validation and changes nothing |
| DocumentsRoute.ListRequest | src/app/api/meilisearch/documents/route.ts:103-113 | the index must be named, else a 400; limit and offset default to 20 and 0 |
| DocumentsRoute.List | src/app/api/meilisearch/documents/route.ts:101-143 | one listing call; the reply holds the page, limit, offset and total, or is a 500 |
| DocumentsRoute.PageContents | src/app/api/meilisearch/documents/route.ts:120-124 | a listing is the window of the stored documents at the offset, with the index's full total |
| DocumentsRoute.ListDefaults | src/app/api/meilisearch/documents/route.ts:105-106 | a request naming only the index lists 20 documents from offset 0 |
| Sync.SiteDoc | src/app/api/developer/sync/route.ts:26-34 | a site becomes a document keyed by its id holding name, url, description and type |
| Sync.SiteDocKeys | src/app/api/developer/sync/route.ts:27-33 | the document has exactly the five selected fields; a missing description is null |
| Sync.Sync | src/app/api/developer/sync/route.ts:6-67 | an unauthenticated caller gets a 401 and no engine call; otherwise clear, add when there are sites, configure, and reply with the count or a 500 |
| Sync.BatchAccepted | src/app/api/developer/sync/route.ts:40-42 | the engine accepts the site batch as exactly the projected documents |
| Sync.ProjectionDistinct | src/app/api/developer/sync/route.ts:26-34 | distinct site ids give documents with distinct ids |
| Sync.AdditionsEffect | src/app/api/developer/sync/route.ts:40-42 | adding to the cleared index stores exactly the projected sites |
| Sync.ClearAndFill | src/app/api/developer/sync/route.ts:37-42 | clearing then adding leaves the index holding exactly the sites |
| Sync.Configure | src/app/api/developer/sync/route.ts:45-53 | the settings calls make name, url, description and type searchable and type filterable |
| Sync.SyncReplacesIndex | src/app/api/developer/sync/route.ts:37-53 | a sync that completes leaves the index equal to the store's sites, whatever it held before |
| Sync.SyncIdempotent | src/app/api/developer/sync/route.ts:37-53 | syncing again after a completed sync leaves the same index |
| Sync.NoSitesNoAdd | src/app/api/developer/sync/route.ts:40-42 | with no sites no add call is made and the index ends empty |
| Sync.FailedAddLosesDocuments | src/app/api/developer/sync/route.ts:37-42 | when the add fails after the clear, the index is left empty |
| Sync.MissingIndexFails | src/app/api/developer/sync/route.ts:37 | without the index the clear fails and the sync stops there |
| Paging.Window | src/app/api/developer/sites/route.ts:38-39 | skip then a non-negative take: the slice of the input starting at `skip`, at most `take` long |
| Paging.Take | src/app/api/developer/sites/route.ts:38-39 | skip then take in either direction: a run of consecutive rows, at most `|take|` long, the window for a non-negative take |
| Paging.BackwardsTake | src/app/api/developer/sites/route.ts:38-39 | a negative take counts from the end of the listing: it is the window of the reversed listing, reversed back |
| Paging.TakeSorted | src/app/api/developer/sites/route.ts:37-39 | a page of an ordered listing is ordered and holds only listed rows |
| Paging.MakePlan | src/app/api/developer/sites/route.ts:17-18 | page and limit must parse and the skip `(page - 1) * limit` must be non-negative; the limit may be negative |
| Paging.PageCount | src/app/api/developer/sites/route.ts:50 | the page count is the ceiling of total over limit, for either sign of the limit; there is none for a zero limit |
| Paging.FirstPagesPrefix | src/app/api/developer/sites/route.ts:38-39 | the first n pages put together are the first n × limit rows |
| Paging.PagesPartition | src/app/api/developer/sites/route.ts:38-50 | the pages counted by `pages` together cover the listing exactly |
| Paging.PageInRange | src/app/api/developer/sites/route.ts:38-50 | a page is non-empty iff it is at most the page count |
| Paging.DefaultParams | src/app/api/developer/sites/route.ts:17-18 | without parameters the listing shows page 1 of 10 rows |
| Cms.Manager | src/app/api/developer/dock-items/route.ts:7-14 | the caller passes iff authenticated with a role that may manage content |
| Cms.ActiveDefault | src/app/api/developer/dock-items/route.ts:87 | an entry is inactive iff the body says `isActive: false` |
| Cms.TechnicalIsNotManager | src/app/api/developer/apps/route.ts:9-14 | a technical user is refused |
| Cms.PageFacts | src/app/api/developer/apps/route.ts:20-32 | a listed page has at most `|limit|` rows, all stored, ordered by `order` |
| Cms.PagesCoverTable | src/app/api/developer/apps/route.ts:20-42 | the pages together list the whole table in order |
| Cms.PagesCoverAnyOrder | src/app/api/developer/apps/route.ts:20-42 | when the sort key tells rows apart, any order the database may return is the model's sorted order, and its pages cover the whole table |
| Sites.Filter | src/app/api/developer/sites/route.ts:21-27 | a site is listed iff the search is empty or appears in its name, url or description regardless of case, as many times as it is stored, in table order |
| Sites.List | src/app/api/developer/sites/route.ts:5-61 | 401 without a caller; 500 for unusable paging; otherwise the page of the matches, newest first, backwards for a negative limit, each with its creator's username, with a total counting every match |
| Sites.ListingFacts | src/app/api/developer/sites/route.ts:29-52 | a page has at most `|limit|` matching stored sites, newest first |
| Sites.NewestPage | src/app/api/developer/sites/route.ts:29-39 | any page of the newest-first order holds only given sites, newest first |
| Sites.SiteJson | src/app/api/developer/sites/route.ts:31-35 | a site is rendered with its columns, including `createdAt` and `updatedAt`, and `createdByUser` holding its creator's username |
| Sites.Rendered | src/app/api/developer/sites/route.ts:29-40 | each listed site is rendered in order |
| Sites.EmptySearchKeepsAll | src/app/api/developer/sites/route.ts:21-27 | an empty search filters nothing |
| Sites.Validate | src/app/api/developer/sites/route.ts:74-91 | name and url are required, else a 400; an invalid url is a 400; an unreadable body a 500 |
| Sites.Changes | src/app/api/developer/sites/route.ts:114 | the audit record holds the given fields of the body |
| Sites.Create | src/app/api/developer/sites/route.ts:63-130 | 401 without a caller; a rejected body changes nothing; otherwise one site row with type defaulting to `website`, created and updated at `now`, then one audit entry naming it; the reply names the caller as creator |
| Sites.CreatedSiteIsListed | src/app/api/developer/sites/route.ts:21-27 | a created site is found by searching for its name |
| DockItems.List | src/app/api/developer/dock-items/route.ts:5-51 | 401 unless an administrator; 500 for unusable paging; otherwise the page of the items by `order`, each with its creator's username, with their total |
| DockItems.ListingFacts | src/app/api/developer/dock-items/route.ts:20-42 | a page has at most `|limit|` stored items ordered by `order` |
| DockItems.ItemJson | src/app/api/developer/dock-items/route.ts:21-25 | an item is rendered with its columns, including `createdAt` and `updatedAt`, and `createdByUser` holding its creator's username |
| DockItems.Rendered | src/app/api/developer/dock-items/route.ts:20-30 | each listed item is rendered in order |
| DockItems.Validate | src/app/api/developer/dock-items/route.ts:64-79 | title, icon and href are required; href must start with "/" or "http"; else a 400 |
| DockItems.HrefForms | src/app/api/developer/dock-items/route.ts:74 | relative and http(s) links pass; other schemes, upper case and bare words fail; "httpfoo" passes |
| DockItems.Create | src/app/api/developer/dock-items/route.ts:53-109 | 401 unless an administrator; a rejected body changes nothing; otherwise one row with order 0 and active unless given, created and updated at `now`; the reply names the caller as creator |
| DockItems.LowestOrderFirst | src/app/api/developer/dock-items/route.ts:27 | an item with a lower order than all others is listed first |
| Apps.List | src/app/api/developer/apps/route.ts:5-51 | 401 unless an administrator; 500 for unusable paging; otherwise the page of the apps by `order`, each with its creator's username, with their total |
| Apps.ListingFacts | src/app/api/developer/apps/route.ts:20-42 | a page has at most `|limit|` stored apps ordered by `order` |
| Apps.AppJson | src/app/api/developer/apps/route.ts:21-25 | an app is rendered with its columns, including `createdAt` and `updatedAt`, and `createdByUser` holding its creator's username |
| Apps.Rendered | src/app/api/developer/apps/route.ts:20-30 | each listed app is rendered in order |
| Apps.Validate | src/app/api/developer/apps/route.ts:64-81 | name, icon, url and color are required and the url must be valid, else a 400 |
| Apps.Create | src/app/api/developer/apps/route.ts:53-113 | 401 unless an administrator; a rejected body changes nothing; otherwise one row with description null, order 0 and active unless given, created and updated at `now`; the reply names the caller as creator |
| Apps.MinimalBody | src/app/api/developer/apps/route.ts:64-99 | a body with only the required fields is accepted with the defaults |
| Auth.BearerToken | src/lib/auth.ts:38-44 | a token is read iff the header starts with "Bearer ", and it is the rest of the header |
| Auth.FindUser | src/lib/auth.ts:51-58 | the stored user with the id, or none when there is none |
| Auth.Authenticate | src/lib/auth.ts:37-65 | a caller is known iff a bearer token verifies and its user still exists; the result is that stored user's id, name and role |
| Auth.CreatorJson | src/app/api/developer/sites/route.ts:31-35 | the `createdByUser` relation is the creator's username, and `null` iff no stored user has the id |
| Auth.CallerIsCreator | src/lib/auth.ts:52-64 | a row the authenticated caller creates renders the caller's own username as its creator |
| Auth.PermissionsNest | src/lib/auth.ts:89-103 | analytics and content management are for administrators, sites and the portal for technical users and administrators, so each admin right implies the site right |
| Auth.EnsureAdmin | src/lib/auth.ts:67-86 | the user table afterwards has the username; it is unchanged iff the user existed, else it gains one admin row |
| Auth.EnsureAdminIdempotent | src/lib/auth.ts:71-75 | ensuring the default administrator a second time changes nothing, whatever hash and id are offered |
| Auth.CreateDefaultAdmin | src/lib/auth.ts:67-86 | the handler, with username and password defaulting to "admin" and "admin123" |
| Sidebar.Visible | src/components/developer/sidebar.tsx:65-67 | an item is shown iff its roles include the user's role, in navigation order |
| Sidebar.VisibleAppend | src/components/developer/sidebar.tsx:65-67 | filtering distributes over concatenation |
| Sidebar.AdminSeesAll | src/components/developer/sidebar.tsx:32-67 | an administrator sees all five items |
| Sidebar.TechnicalSeesDashboardAndSites | src/components/developer/sidebar.tsx:32-67 | a technical user sees Dashboard and Sites only |
| Sidebar.OtherRolesSeeNothing | src/components/developer/sidebar.tsx:32-67 | any other role sees nothing |
| Sidebar.VisibleIffPortalAccess | src/components/developer/sidebar.tsx:32-67 | a role sees some item iff it may access the portal |
| Sidebar.DashboardAndSitesTogether | src/components/developer/sidebar.tsx:33-44 | Dashboard and Sites share a link, so they are highlighted together |
| Sidebar.SubpageLeavesDashboardInactive | src/components/developer/sidebar.tsx:69-74 | the dashboard link is active only on its exact path, while others match by prefix |
| Analytics.InWindow | src/app/api/developer/analytics/route.ts:20-29 | the events counted are exactly those on or after the start day, each as often as it was logged |
| Analytics.ZeroResults | src/app/api/developer/analytics/route.ts:48-57 | the zero-result events are exactly those with no results, each as often as it was logged, and no query has more of them than events |
| Analytics.AverageResults | src/app/api/developer/analytics/route.ts:72-82 | the average is the sum of result counts over the number of events, and 0 for no events |
| Analytics.Dashboard | src/app/api/developer/analytics/route.ts:5-111 | 401 without a caller; a non-numeric period or limit is a 500; otherwise the aggregates for the window with defaults 7 days and 10 rows |
| Analytics.VolumeFacts | src/app/api/developer/analytics/route.ts:24-32 | volume has one row per distinct day with its true count, latest day first, adding up to the total |
| Analytics.RankingFacts | src/app/api/developer/analytics/route.ts:35-57 | top and zero-result queries are true counts, distinct, most frequent first, at most `limit`, and nothing left out outranks them |
| Analytics.UniqueAtMostTotal | src/app/api/developer/analytics/route.ts:60-70 | there are never more distinct queries than searches |
| Analytics.VolumeCoversWindow | src/app/api/developer/analytics/route.ts:24-32 | every day with a search in the window has a volume row |
| Analytics.EmptyWindowAverage | src/app/api/developer/analytics/route.ts:72-82 | an empty window has no searches and average 0 |
| Analytics.Cells | src/app/api/developer/analytics/route.ts:140-146 | a CSV row has five cells: the ISO time, the query, the result count in decimal (reading back as the count), and the address and user agent or empty |
| Analytics.DatePart | src/app/api/developer/analytics/route.ts:156 | the date part is the longest prefix of the timestamp without a "T": it stops at the first "T" or at the end |
| Analytics.DateBeforeT | src/app/api/developer/analytics/route.ts:156 | a timestamp's date part is the text before its first "T", whatever follows |
| Analytics.ExportData | src/app/api/developer/analytics/route.ts:114-179 | 401 without a caller; otherwise the window's records newest first, as CSV when asked and as JSON otherwise, over 30 days by default |
| Analytics.RecordsAreWindow | src/app/api/developer/analytics/route.ts:130-135 | exported records are the window's events, newest first |
| Analytics.CsvReadsBack | src/app/api/developer/analytics/route.ts:137-151 | the exported CSV read with RFC 4180 rules gives back the header and every row cell for cell |
| Analytics.ExportDefaults | src/app/api/developer/analytics/route.ts:125 | an empty body exports JSON over 30 days |
| Grouping.Count | src/app/api/developer/analytics/route.ts:38 | a count is at most the number of events and zero iff no event has the key |
| Grouping.KeysAtMost | src/app/api/developer/analytics/route.ts:67 | there are no more distinct keys than events |
| Grouping.GroupsAreTrue | src/app/api/developer/analytics/route.ts:36-42 | every group carries the true count and sum of its key |
| Grouping.GroupsAreDistinct | src/app/api/developer/analytics/route.ts:42 | no key is grouped twice |
| Grouping.GroupsCover | src/app/api/developer/analytics/route.ts:42 | every key has a group and the counts add up to the number of events |
| Grouping.TopIsRanking | src/app/api/developer/analytics/route.ts:43-44 | the top rows are a top-N ranking: true distinct groups, by count, at most N, none left out counting more |
| Grouping.ByKeyDescFacts | src/app/api/developer/analytics/route.ts:30-31 | groups by day are strictly latest first, true, covering, and add up to the total |
| Csv.Escape | src/app/api/developer/analytics/route.ts:150 | escaping never shortens a cell |
| Csv.QuotedRoundTrip | src/app/api/developer/analytics/route.ts:150 | doubled quotes read back as the original cell |
| Csv.QuoteRoundTrip | src/app/api/developer/analytics/route.ts:150 | a quoted cell reads back as itself |
| Csv.QuotedLineRoundTrip | src/app/api/developer/analytics/route.ts:150 | a row joined with commas reads back as its cells |
| Csv.PlainLineRoundTrip | src/app/api/developer/analytics/route.ts:149 | the unquoted header line reads back as its cells |
| Csv.RecordsRoundTrip | src/app/api/developer/analytics/route.ts:148-151 | the record lines joined with newlines read back as the records, cell for cell |
| Csv.DocumentRoundTrip | src/app/api/developer/analytics/route.ts:148-151 | the whole CSV reads back as the header followed by the rows |

## Left out

- **Meilisearch itself.**
  - Ranking, typo tolerance, highlighting and facet computation are not modelled. `Engine.SearchOracle` stands for them, and the routes are proved for every oracle.
  - Meilisearch applies writes as asynchronous tasks, and a task can fail after its route has answered. In the model a write the engine cannot apply fails at once and changes nothing.
  - Meilisearch task identifiers and statuses in replies are not modelled.
- **Stats.** `Engine.Engine.Stats` returns only the document count, not the full statistics object.
- **Engine.IdOf:** any string, and any integer written in decimal, is accepted as a document identifier. Meilisearch refuses identifiers that are empty, longer than 511 bytes, contain characters other than `A-Z a-z 0-9 - _`, or are negative numbers (`invalid_document_id`). So `Engine.AsDocs` and the lemmas over accepted batches also cover batches the engine would refuse.
- **Engine.Target:** a settings update to a missing index creates it with primary key `id`. Meilisearch leaves that key unset until the first documents arrive. No route of the portal updates settings of a missing index.
- **Engine.Destination:** an empty batch to a missing index fails in the model. Meilisearch creates the index without a primary key instead. No route of the portal sends an empty batch.
- **Engine.Message:** the engine's error texts are one fixed text per kind of failure, shorter than Meilisearch's own.
- **Json.JsString:** numbers of 10^21 and more are written in exponent form by JavaScript; the model always writes their decimal digits. The percent-encoding of an index name inside the request path is not modelled either.
- **Setup timing and seed data.**
  - The one-second pause in `Init.Setup` is not modelled; the model has no clock.
  - The sample data comes from src/lib/search-service.ts, which is not part of this model, so it is a parameter.
- **Authentication.**
  - JWT signing and expiry, and bcrypt hashing, are foreign code. `Auth.Verifier` is a parameter.
  - `Auth.CreateDefaultAdmin` takes the password hash as a parameter.
  - `hashPassword`, `comparePassword` and `generateToken` (src/lib/auth.ts:12-26) are not modelled.
- **Parameters for untrusted inputs.**
  - URL validity (`new URL`) is the `isUrl` parameter.
  - Request bodies arrive already parsed as JSON values or typed records. A body that does not parse is modelled as `None` and answered with a 500.
- **Timestamps.**
  - Timestamps are whole days. SQL `DATE()` grouping, time zones and the window boundary at a time of day are not modelled.
  - `toISOString` is the `iso` parameter.
- **Analytics.AverageResults:** returns the exact fraction (`Mean`), not the floating-point value SQL `AVG` produces.
- **Analytics.RankingFacts and Grouping.TopIsRanking:** the database breaks ties between equal counts in an unspecified way. These contracts therefore state a ranking property that holds for any tie order, not one particular order.
- **Paging.PageCount:** yields none where JavaScript's `Math.ceil(total / 0)` yields `Infinity` or `NaN`. The reply is the same, since `JSON.stringify` writes both as `null`.
- **Sites.Filter:** folds case for ASCII letters only. The database's `ILIKE` (`mode: 'insensitive'`) folds by the collation's locale rules, so "École" also matches a search for "école" there but not in the model.
- **Text.ContainsIgnoreCase:** the same ASCII-only folding. Only `Sites.Filter` uses it.
- **Cms.PagesCoverTable, Sites.List, DockItems.List, Apps.List:** rows with equal sort keys (two sites with the same `createdAt`, two items or apps with the same `order`) keep their table order, as the stable `Sorting.SortBy` does. PostgreSQL promises no order among ties, and separate `OFFSET`/`LIMIT` queries may break ties differently, so a row can then be skipped or repeated across pages. The model promises page coverage only for its own tie order; `Cms.PagesCoverAnyOrder` covers every order the database may return when the key tells rows apart.
- **Sites.List, DockItems.List, Apps.List, Analytics.Dashboard, Analytics.ExportData, Sync.Sync, Auth.Authenticate:** database reads never fail in the model. In the source a failed read is caught and answered with a 500. In `authenticateRequest` a failed user lookup is not caught there, so the route answers 500 rather than 401. Writes can fail in the model (`createFails`, `auditFails` and the like), reads cannot.
- **Http.MalformedBody:** one fixed details text ("Unexpected end of JSON input") for every body that fails to parse. The source passes on the parser's own message, which names the offending token, and a `null` body fails on destructuring with a `TypeError` text instead.
- **Integer limits.**
  - Integers are unbounded, so JavaScript number precision beyond 2^53 is not modelled.
  - Neither are the 32-bit limits the database enforces on `skip` and `take`.
- **Search box timing and rendering.**
  - The 150 ms debounce is modelled by `InputChanged`, which arms a pending value, and `DebounceElapsed`, which fires it. Elapsed time itself is not modelled.
  - Rendering, icons, CSS classes, `isHomepage` and `isCollapsed`, and the imperative handle (`getSearchQuery`, `performSearch`) are not modelled. The handle exposes `SearchInput.SearchBox.Search` unchanged.
- **Logging.** Console logging is not modelled; it has no observable effect on replies or stored state.
- **Sidebar logout.** The logout button of the sidebar calls a callback supplied by its parent and is not modelled.

## Findings

| source | as written | input that shows it | evidently intended | confidence | as-written member | corrected member |
|---|---|---|---|---|---|---|
| src/components/search-input.tsx:129-137 | Enter submits `suggestions[selectedSuggestionIndex].name` whenever the index is at least 0, but hovering the "Search for" row (line 283) sets the index to `suggestions.length` | type "ab", receive one suggestion, hover the "Search for" row, press Enter: the read is past the end and `.name` of `undefined` throws | Enter on the "Search for" row submits the typed query, as clicking it does (line 282) | not executed | SearchInput.EnterOnSearchRowThrows | SearchInput.EnterOnSearchRowSubmits |
