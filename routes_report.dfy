/**
 * POST /report (backend/app/api/routes_report.py): normalise the request, answer from
 * the reports cache when it holds the exact (ticker, quarter, prev_quarter) key, and
 * otherwise generate, store and return a new report, mapping exceptions to HTTP errors.
 */
module RoutesReport {
  import opened Wrappers
  import opened Text
  import opened Models
  import opened Retriever
  import opened JsonValues
  import opened ReportGeneration

  /** The request body. */
  datatype ReportRequest = ReportRequest(ticker: string, quarter: string, prevQuarter: Option<string>)

  /** The key of the unique index ix_reports_ticker_quarter_prev. */
  datatype CacheKey = CacheKey(ticker: string, quarter: string, prevQuarter: Option<string>)

  /** A stored report. */
  datatype ReportRow = ReportRow(key: CacheKey, data: map<string, Json>)

  /** An HTTPException: its status code and detail. */
  datatype HttpError = HttpError(status: nat, detail: string)

  /** `x.upper().strip() if x else None`: an absent or empty previous quarter is None; a
      blank one normalises to the empty string. */
  function NormPrev(prevQuarter: Option<string>): Option<string> {
    if prevQuarter.Some? && prevQuarter.value != "" then Some(Norm(prevQuarter.value)) else None
  }

  function RequestKey(req: ReportRequest): CacheKey {
    CacheKey(Norm(req.ticker), Norm(req.quarter), NormPrev(req.prevQuarter))
  }

  /** No two cached reports share a key. */
  ghost predicate KeysUnique(rows: seq<ReportRow>) {
    forall i, j :: 0 <= i < j < |rows| ==> rows[i].key != rows[j].key
  }

  /** The first cached report under `key`. */
  function Lookup(rows: seq<ReportRow>, key: CacheKey): Option<map<string, Json>> {
    if rows == [] then None
    else if rows[0].key == key then Some(rows[0].data)
    else Lookup(rows[1..], key)
  }

  /** The lookup finds exactly the keys the cache holds, and what it finds is the data
      stored under the key. */
  lemma {:induction false} LookupSpec(rows: seq<ReportRow>, key: CacheKey)
    ensures Lookup(rows, key).Some? <==> exists row :: row in rows && row.key == key
    ensures Lookup(rows, key).Some? ==> ReportRow(key, Lookup(rows, key).value) in rows
  {
    if rows != [] {
      LookupSpec(rows[1..], key);
      assert forall row :: row in rows <==> row == rows[0] || row in rows[1..];
    }
  }

  /** The lookup after appending a row under a key the cache did not hold. */
  lemma {:induction false} LookupAppend(rows: seq<ReportRow>, row: ReportRow, key: CacheKey)
    requires Lookup(rows, row.key).None?
    ensures Lookup(rows + [row], key) == if Lookup(rows, key).Some? then Lookup(rows, key) else
                                          if key == row.key then Some(row.data) else None
  {
    if rows == [] {
      assert rows + [row] == [row];
    } else {
      assert (rows + [row])[1..] == rows[1..] + [row];
      LookupAppend(rows[1..], row, key);
    }
  }

  /** The exception handlers: a ValueError naming the missing current document is a 404
      with its message; anything else is a 500 naming the exception type. */
  function ErrorFor(prefix: string, e: Raised): HttpError {
    if e.isValueError && Contains(e.message, "Current quarter document not found") then HttpError(404, e.message)
    else HttpError(500, prefix + e.typeName + ": " + e.message)
  }

  const ReportFailed: string := "Report generation failed: "

  lemma ErrorForSpec(prefix: string, e: Raised)
    ensures ErrorFor(prefix, e).status == 404 <==>
      e.isValueError && exists i :: OccursAt(e.message, "Current quarter document not found", i)
    ensures ErrorFor(prefix, e).status == 404 ==> ErrorFor(prefix, e).detail == e.message
    ensures ErrorFor(prefix, e).status != 404 ==>
      ErrorFor(prefix, e).status == 500 && ErrorFor(prefix, e).detail == prefix + e.typeName + ": " + e.message
  {
  }

  /**
   * The route as a function of the cache: the response and the rows afterwards. A commit
   * that raises (`commit` holds its exception) rolls the new row back.
   */
  function CreateReportSpec(rows: seq<ReportRow>, docs: seq<Document>, chunks: seq<Chunk>, req: ReportRequest,
                            embed: QueryEmbedder, dist: Distance, gen: Generator, parse: JsonParser,
                            commit: Option<Raised>): (Result<map<string, Json>, HttpError>, seq<ReportRow>)
  {
    var key := RequestKey(req);
    match Lookup(rows, key)
    case Some(data) => (Success(data), rows)
    case None =>
      match Generate(docs, chunks, key.ticker, key.quarter, key.prevQuarter, embed, dist, gen, parse)
      case Failure(e) => (Failure(ErrorFor(ReportFailed, e)), rows)
      case Success(data) =>
        if commit.Some? then (Failure(ErrorFor(ReportFailed, commit.value)), rows)
        else (Success(data), rows + [ReportRow(key, data)])
  }

  /** The reports table, the route's cache. */
  class ReportCache {
    var rows: seq<ReportRow>

    ghost predicate Valid()
      reads this
    {
      KeysUnique(rows)
    }

    constructor ()
      ensures Valid() && rows == []
    {
      rows := [];
    }

    /** create_report */
    method CreateReport(docs: seq<Document>, chunks: seq<Chunk>, req: ReportRequest,
                        embed: QueryEmbedder, dist: Distance, gen: Generator, parse: JsonParser,
                        commit: Option<Raised>)
      returns (r: Result<map<string, Json>, HttpError>)
      requires Valid()
      modifies this
      ensures Valid()
      ensures r == CreateReportSpec(old(rows), docs, chunks, req, embed, dist, gen, parse, commit).0
      ensures rows == CreateReportSpec(old(rows), docs, chunks, req, embed, dist, gen, parse, commit).1
    {
      var ticker := Norm(req.ticker);
      var quarter := Norm(req.quarter);
      var prevQuarter := NormPrev(req.prevQuarter);
      var key := CacheKey(ticker, quarter, prevQuarter);
      var cached := Lookup(rows, key);
      if cached.Some? {
        return Success(cached.value);
      }
      var data := GenerateQuarterComparisonReport(docs, chunks, ticker, quarter, prevQuarter, embed, dist, gen, parse);
      if data.Failure? {
        return Failure(ErrorFor(ReportFailed, data.error));
      }
      if commit.Some? {
        return Failure(ErrorFor(ReportFailed, commit.value));
      }
      CreateReportKeepsUnique(rows, docs, chunks, req, embed, dist, gen, parse, commit);
      rows := rows + [ReportRow(key, data.value)];
      return Success(data.value);
    }
  }

  /**
   * The cache changes only on a miss whose generation and commit succeed, and then by one
   * row under the requested key (with the requested prev_quarter, even when generation
   * dropped it) holding the returned report; key uniqueness is kept.
   */
  lemma CreateReportKeepsUnique(rows: seq<ReportRow>, docs: seq<Document>, chunks: seq<Chunk>, req: ReportRequest,
                                embed: QueryEmbedder, dist: Distance, gen: Generator, parse: JsonParser,
                                commit: Option<Raised>)
    requires KeysUnique(rows)
    ensures var (r, rows') := CreateReportSpec(rows, docs, chunks, req, embed, dist, gen, parse, commit);
      && KeysUnique(rows')
      && (rows' == rows ||
            (Lookup(rows, RequestKey(req)).None? && r.Success? && rows' == rows + [ReportRow(RequestKey(req), r.value)]))
      && (r.Failure? ==> rows' == rows)
  {
    var key := RequestKey(req);
    var (r, rows') := CreateReportSpec(rows, docs, chunks, req, embed, dist, gen, parse, commit);
    if rows' != rows {
      LookupSpec(rows, key);
      forall i, j | 0 <= i < j < |rows'| ensures rows'[i].key != rows'[j].key {
        if j == |rows| {
          assert rows[i] in rows;
        } else {
          assert rows'[i] == rows[i] && rows'[j] == rows[j];
        }
      }
    }
  }

  /** A cache hit returns the stored report and writes nothing, whatever generation would
      have done. */
  lemma CreateReportHit(rows: seq<ReportRow>, docs: seq<Document>, chunks: seq<Chunk>, req: ReportRequest,
                        embed: QueryEmbedder, dist: Distance, gen: Generator, parse: JsonParser,
                        commit: Option<Raised>, row: ReportRow)
    requires KeysUnique(rows) && row in rows && row.key == RequestKey(req)
    ensures CreateReportSpec(rows, docs, chunks, req, embed, dist, gen, parse, commit) == (Success(row.data), rows)
  {
    LookupSpec(rows, row.key);
    var stored := ReportRow(row.key, Lookup(rows, row.key).value);
    var i :| 0 <= i < |rows| && rows[i] == row;
    var j :| 0 <= j < |rows| && rows[j] == stored;
    if i != j {
      assert false;
    }
  }

  /** Asking twice: the second call answers from the cache with the first call's report
      and writes nothing, whatever its generator and commit would do. */
  lemma CreateReportTwice(rows: seq<ReportRow>, docs: seq<Document>, chunks: seq<Chunk>, req: ReportRequest,
                          embed: QueryEmbedder, dist: Distance, gen: Generator, parse: JsonParser,
                          commit: Option<Raised>, gen': Generator, parse': JsonParser, commit': Option<Raised>)
    requires KeysUnique(rows)
    requires CreateReportSpec(rows, docs, chunks, req, embed, dist, gen, parse, commit).0.Success?
    ensures var (r, rows') := CreateReportSpec(rows, docs, chunks, req, embed, dist, gen, parse, commit);
      CreateReportSpec(rows', docs, chunks, req, embed, dist, gen', parse', commit') == (r, rows')
  {
    var key := RequestKey(req);
    var (r, rows') := CreateReportSpec(rows, docs, chunks, req, embed, dist, gen, parse, commit);
    if Lookup(rows, key).None? {
      LookupAppend(rows, ReportRow(key, r.value), key);
    }
  }

  /** Without a document for the normalised ticker and quarter, a miss is a 404 with the
      generator's message, and nothing is written. */
  lemma CreateReportNotFound(rows: seq<ReportRow>, docs: seq<Document>, chunks: seq<Chunk>, req: ReportRequest,
                             embed: QueryEmbedder, dist: Distance, gen: Generator, parse: JsonParser,
                             commit: Option<Raised>)
    requires Lookup(rows, RequestKey(req)).None?
    requires forall d :: d in docs ==> !Matches(d, req.ticker, req.quarter)
    ensures CreateReportSpec(rows, docs, chunks, req, embed, dist, gen, parse, commit) ==
      (Failure(HttpError(404, "Current quarter document not found.")), rows)
  {
    var key := RequestKey(req);
    NormIdempotent(req.ticker);
    NormIdempotent(req.quarter);
    GenerateNotFound(docs, chunks, key.ticker, key.quarter, key.prevQuarter, embed, dist, gen, parse);
    assert OccursAt(DocumentNotFound.message, "Current quarter document not found", 0);
  }
}
