/** The analytics endpoints of the developer portal: a dashboard of
    aggregates over the searches of the last `days` days, and an export of
    those searches as JSON or CSV. Any authenticated user may call them.
    Times are day numbers; `today` is the current day. */
module Analytics {
  import opened Wrappers
  import Text
  import Numbers
  import Sorting
  import Csv
  import Store
  import Http
  import Auth
  import Grouping

  type Event = Store.SearchEvent

  /** The events on or after day `start`, in their order, each as often as
      it was logged. */
  function InWindow(es: seq<Event>, start: int): (r: seq<Event>)
    ensures |r| <= |es|
    ensures forall e :: e in r <==> e in es && e.createdAt >= start
    ensures forall e :: multiset(r)[e] == if e.createdAt >= start then multiset(es)[e] else 0
  {
    if es == [] then []
    else
      assert es == [es[0]] + es[1..];
      if es[0].createdAt >= start then [es[0]] + InWindow(es[1..], start)
      else InWindow(es[1..], start)
  }

  function QueryOf(e: Event): string { e.query }

  function DayOf(e: Event): int { e.createdAt }

  /** The events that found nothing, each as often as it was logged. */
  function ZeroResults(es: seq<Event>): (r: seq<Event>)
    ensures forall e :: e in r <==> e in es && e.resultsCount == 0
    ensures forall e :: multiset(r)[e] == if e.resultsCount == 0 then multiset(es)[e] else 0
    ensures forall q :: Grouping.Count(r, QueryOf, q) <= Grouping.Count(es, QueryOf, q)
  {
    if es == [] then []
    else
      assert es == [es[0]] + es[1..];
      if es[0].resultsCount == 0 then [es[0]] + ZeroResults(es[1..])
      else ZeroResults(es[1..])
  }

  function SumAll(es: seq<Event>): int {
    if es == [] then 0 else es[0].resultsCount + SumAll(es[1..])
  }

  /** An average as a fraction: `AVG(results_count) || 0`. */
  datatype Mean = Mean(sum: int, count: nat)

  function AverageResults(es: seq<Event>): (m: Mean)
    ensures m.count > 0
    ensures es == [] ==> m.sum == 0
    ensures es != [] ==> m == Mean(SumAll(es), |es|)
  {
    if es == [] then Mean(0, 1) else Mean(SumAll(es), |es|)
  }

  datatype Report = Report(
    totalSearches: nat, uniqueQueries: nat, avgResultsPerQuery: Mean,
    start: int, end: int, days: int,
    searchVolume: seq<Grouping.Group<int>>,
    topQueries: seq<Grouping.Group<string>>,
    noResultQueries: seq<Grouping.Group<string>>)

  /** The aggregates of a window of `days` days ending today, with at most
      `limit` rows in each ranking. */
  function Aggregate(es: seq<Event>, today: int, days: int, limit: nat): Report {
    var w := InWindow(es, today - days);
    Report(|w|, |Grouping.Keys(w, QueryOf)|, AverageResults(w), today - days, today, days,
           Grouping.ByKeyDesc(w, DayOf),
           Grouping.Top(w, QueryOf, limit),
           Grouping.Top(ZeroResults(w), QueryOf, limit))
  }

  /** `GET /api/developer/analytics?days=…&limit=…`. A period that is not a
      number gives an invalid start date, and a page size that is not a
      non-negative number an invalid query: both end in a 500. */
  function Dashboard(req: Http.Request, verify: Auth.Verifier, users: seq<Store.User>, es: seq<Event>, today: int)
    : (r: Result<Report, Http.Response>)
    ensures Auth.Authenticate(Http.Header(req, "authorization"), verify, users).None? ==> r == Err(Http.Unauthorized)
    ensures r.Ok? <==>
      && Auth.Authenticate(Http.Header(req, "authorization"), verify, users).Some?
      && Numbers.ParseInt(Text.OrElse(Http.Param(req, "days"), "7")).Some?
      && Numbers.ParseInt(Text.OrElse(Http.Param(req, "limit"), "10")).Some?
      && Numbers.ParseInt(Text.OrElse(Http.Param(req, "limit"), "10")).value >= 0
    ensures r.Ok? ==> r.value == Aggregate(es, today,
      Numbers.ParseInt(Text.OrElse(Http.Param(req, "days"), "7")).value,
      Numbers.ParseInt(Text.OrElse(Http.Param(req, "limit"), "10")).value)
    ensures r.Err? && Auth.Authenticate(Http.Header(req, "authorization"), verify, users).Some? ==> r == Err(Http.InternalError)
  {
    if Auth.Authenticate(Http.Header(req, "authorization"), verify, users).None? then Err(Http.Unauthorized)
    else
      var days := Numbers.ParseInt(Text.OrElse(Http.Param(req, "days"), "7"));
      var limit := Numbers.ParseInt(Text.OrElse(Http.Param(req, "limit"), "10"));
      if days.None? || limit.None? || limit.value < 0 then Err(Http.InternalError)
      else Ok(Aggregate(es, today, days.value, limit.value))
  }

  /** The search volume has one row per day with searches, most recent
      first, with true counts that add up to the total. */
  lemma VolumeFacts(es: seq<Event>, today: int, days: int, limit: nat)
    ensures var rep := Aggregate(es, today, days, limit);
      && (forall i, j :: 0 <= i < j < |rep.searchVolume| ==> rep.searchVolume[i].key > rep.searchVolume[j].key)
      && Grouping.TrueGroups(rep.searchVolume, InWindow(es, today - days), DayOf)
      && Grouping.Total(rep.searchVolume) == rep.totalSearches
  {
    Grouping.ByKeyDescFacts(InWindow(es, today - days), DayOf);
  }

  /** Both rankings meet the top-N specification, and a query's zero-result
      count never exceeds its count. */
  lemma RankingFacts(es: seq<Event>, today: int, days: int, limit: nat)
    ensures var rep := Aggregate(es, today, days, limit);
      var w := InWindow(es, today - days);
      && Grouping.IsTopRanking(rep.topQueries, w, QueryOf, limit)
      && Grouping.IsTopRanking(rep.noResultQueries, ZeroResults(w), QueryOf, limit)
      && (forall i :: 0 <= i < |rep.noResultQueries| ==>
            rep.noResultQueries[i].count <= Grouping.Count(w, QueryOf, rep.noResultQueries[i].key))
  {
    var w := InWindow(es, today - days);
    Grouping.TopIsRanking(w, QueryOf, limit);
    Grouping.TopIsRanking(ZeroResults(w), QueryOf, limit);
  }

  /** There are no more distinct queries than searches. */
  lemma UniqueAtMostTotal(es: seq<Event>, today: int, days: int, limit: nat)
    ensures Aggregate(es, today, days, limit).uniqueQueries <= Aggregate(es, today, days, limit).totalSearches
  {
    Grouping.KeysAtMost(InWindow(es, today - days), QueryOf);
  }

  /** Every event in the window is counted in the volume row of its day. */
  lemma VolumeCoversWindow(es: seq<Event>, today: int, days: int, limit: nat, e: Event)
    requires e in es && e.createdAt >= today - days
    ensures var v := Aggregate(es, today, days, limit).searchVolume;
      exists i :: 0 <= i < |v| && v[i].key == e.createdAt && v[i].count >= 1
  {
    var w := InWindow(es, today - days);
    Grouping.ByKeyDescFacts(w, DayOf);
    var k :| 0 <= k < |w| && w[k] == e;
    assert DayOf(w[k]) in Grouping.Keys(w, DayOf);
  }

  /** With no searches in the window the average is reported as 0. */
  lemma EmptyWindowAverage(es: seq<Event>, today: int, days: int, limit: nat)
    requires forall e :: e in es ==> e.createdAt < today - days
    ensures Aggregate(es, today, days, limit).totalSearches == 0
    ensures Aggregate(es, today, days, limit).avgResultsPerQuery.sum == 0
  {
  }

  const CsvHeader: seq<string> := ["Date", "Query", "Results Count", "User IP", "User Agent"]

  /** A record's cells: its time in ISO form, its query, its result count and
      its address and user agent, empty when missing. */
  function Cells(e: Event, iso: int -> string): (r: seq<string>)
    ensures |r| == 5 && r[0] == iso(e.createdAt) && r[1] == e.query
    ensures Numbers.ParseInt(r[2]) == Some(e.resultsCount)
    ensures r[3] == Text.OrElse(e.userIp, "") && r[4] == Text.OrElse(e.userAgent, "")
  {
    Numbers.ParseIntOfToString(e.resultsCount);
    [iso(e.createdAt), e.query, Numbers.IntToString(e.resultsCount),
     Text.OrElse(e.userIp, ""), Text.OrElse(e.userAgent, "")]
  }

  function Rows(es: seq<Event>, iso: int -> string): (r: seq<seq<string>>)
    ensures |r| == |es| && forall i :: 0 <= i < |es| ==> r[i] == Cells(es[i], iso)
  {
    if es == [] then [] else [Cells(es[0], iso)] + Rows(es[1..], iso)
  }

  /** The ISO date part, before the `T`. */
  function DatePart(iso: string): (r: string)
    ensures r <= iso && forall i :: 0 <= i < |r| ==> r[i] != 'T'
    ensures |r| == |iso| || iso[|r|] == 'T'
  {
    if iso == [] || iso[0] == 'T' then [] else [iso[0]] + DatePart(iso[1..])
  }

  /** `split('T')[0]` of a timestamp is its date, whatever follows the `T`. */
  lemma {:induction false} DateBeforeT(date: string, rest: string)
    requires 'T' !in date
    ensures DatePart(date + "T" + rest) == date
  {
    if date != [] {
      assert (date + "T" + rest)[1..] == date[1..] + "T" + rest;
      DateBeforeT(date[1..], rest);
    }
  }

  function NewestFirst(e: Event): int {
    -e.createdAt
  }

  datatype ExportBody = ExportBody(format: Option<string>, days: Option<int>)

  datatype Export =
    | CsvFile(text: string, filename: string)
    | JsonExport(exportDate: int, start: int, end: int, recordCount: nat, data: seq<Event>)

  /** The exported records: the window, most recent first. */
  function Records(es: seq<Event>, today: int, days: int): seq<Event> {
    Sorting.SortBy(InWindow(es, today - days), NewestFirst)
  }

  /** `POST /api/developer/analytics`: format `json` and 30 days unless the
      body says otherwise; a body that is not JSON is a 500. */
  function ExportData(req: Http.Request, body: Option<ExportBody>, verify: Auth.Verifier, users: seq<Store.User>,
                      es: seq<Event>, today: int, iso: int -> string): (r: Result<Export, Http.Response>)
    ensures Auth.Authenticate(Http.Header(req, "authorization"), verify, users).None? ==> r == Err(Http.Unauthorized)
    ensures Auth.Authenticate(Http.Header(req, "authorization"), verify, users).Some? ==>
      match body
      case None => r == Err(Http.InternalError)
      case Some(b) =>
        var recs := Records(es, today, b.days.GetOr(30));
        if b.format == Some("csv") then
          r == Ok(CsvFile(Csv.Document(CsvHeader, Rows(recs, iso)), "search-analytics-" + DatePart(iso(today)) + ".csv"))
        else
          r == Ok(JsonExport(today, today - b.days.GetOr(30), today, |recs|, recs))
  {
    if Auth.Authenticate(Http.Header(req, "authorization"), verify, users).None? then Err(Http.Unauthorized)
    else match body
      case None => Err(Http.InternalError)
      case Some(b) =>
        var days := b.days.GetOr(30);
        var recs := Records(es, today, days);
        if b.format == Some("csv") then
          Ok(CsvFile(Csv.Document(CsvHeader, Rows(recs, iso)), "search-analytics-" + DatePart(iso(today)) + ".csv"))
        else
          Ok(JsonExport(today, today - days, today, |recs|, recs))
  }

  /** The exported records are exactly the window's, newest first. */
  lemma RecordsAreWindow(es: seq<Event>, today: int, days: int)
    ensures multiset(Records(es, today, days)) == multiset(InWindow(es, today - days))
    ensures forall i, j :: 0 <= i < j < |Records(es, today, days)| ==>
      Records(es, today, days)[i].createdAt >= Records(es, today, days)[j].createdAt
  {
    var w := InWindow(es, today - days);
    Sorting.SortByFacts(w, NewestFirst);
    var r := Records(es, today, days);
    forall i, j | 0 <= i < j < |r| ensures r[i].createdAt >= r[j].createdAt {
      assert NewestFirst(r[i]) <= NewestFirst(r[j]);
    }
  }

  /** Reading the CSV export back gives the header and, line by line, every
      record's cells, whatever quotes, commas or line breaks they contain. */
  lemma CsvReadsBack(es: seq<Event>, today: int, days: int, iso: int -> string)
    ensures var rows := Rows(Records(es, today, days), iso);
      Csv.ParseDocument(Csv.Document(CsvHeader, rows)) == Some([CsvHeader] + rows)
  {
    var rows := Rows(Records(es, today, days), iso);
    HeaderIsPlain();
    forall i | 0 <= i < |rows|
      ensures rows[i] != []
    {
      assert |rows[i]| == 5;
    }
    Csv.DocumentRoundTrip(CsvHeader, rows);
  }

  /** The header needs no quoting. */
  lemma HeaderIsPlain()
    ensures CsvHeader != [] && forall i :: 0 <= i < |CsvHeader| ==> Csv.Plain(CsvHeader[i])
  {
    forall i | 0 <= i < |CsvHeader| ensures Csv.Plain(CsvHeader[i]) {
    }
  }

  /** An empty body exports the last 30 days as JSON, and the record count
      is the number of records exported. */
  lemma ExportDefaults(req: Http.Request, verify: Auth.Verifier, users: seq<Store.User>,
                       es: seq<Event>, today: int, iso: int -> string)
    requires Auth.Authenticate(Http.Header(req, "authorization"), verify, users).Some?
    ensures var r := ExportData(req, Some(ExportBody(None, None)), verify, users, es, today, iso);
      r.Ok? && r.value.JsonExport? && r.value.start == today - 30 &&
      r.value.recordCount == |r.value.data| == |InWindow(es, today - 30)|
  {
    Sorting.SortByFacts(InWindow(es, today - 30), NewestFirst);
  }
}
