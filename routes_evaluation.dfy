/**
 * POST /evaluation/report (backend/app/api/routes_evaluation.py): the report for the
 * request, from the reports cache or freshly generated, together with its evaluation.
 * The route reads the cache and never writes it.
 */
module RoutesEvaluation {
  import opened Wrappers
  import opened Text
  import opened Models
  import opened Retriever
  import opened JsonValues
  import opened ReportGeneration
  import opened Validate
  import opened RoutesReport

  /** The response body: the evaluation and the report it was computed on. */
  datatype EvaluationResponse = EvaluationResponse(evaluation: Evaluation, reportData: map<string, Json>)

  const EvaluationFailed: string := "Evaluation failed: "

  /** The report the route works on: the cached one, or a generated one. */
  function ReportFor(rows: seq<ReportRow>, docs: seq<Document>, chunks: seq<Chunk>, req: ReportRequest,
                     embed: QueryEmbedder, dist: Distance, gen: Generator, parse: JsonParser)
    : Result<map<string, Json>, Raised>
  {
    var key := RequestKey(req);
    match Lookup(rows, key)
    case Some(data) => Success(data)
    case None => Generate(docs, chunks, key.ticker, key.quarter, key.prevQuarter, embed, dist, gen, parse)
  }

  /** evaluate_report_endpoint. The cache is an argument and nothing is returned for it. */
  function EvaluateEndpoint(rows: seq<ReportRow>, docs: seq<Document>, chunks: seq<Chunk>, req: ReportRequest,
                            embed: QueryEmbedder, dist: Distance, gen: Generator, parse: JsonParser)
    : Result<EvaluationResponse, HttpError>
  {
    match ReportFor(rows, docs, chunks, req, embed, dist, gen, parse)
    case Failure(e) => Failure(ErrorFor(EvaluationFailed, e))
    case Success(data) =>
      match Evaluate(data)
      case Failure(crash) => Failure(HttpError(500, EvaluationFailed + "AttributeError: " + CrashMessage(crash)))
      case Success(evaluation) => Success(EvaluationResponse(evaluation, data))
  }

  /**
   * A successful answer carries the evaluation of exactly the report it returns, and
   * that report is the cached one on a hit and the generated one on a miss. It fails with
   * a 500 naming the AttributeError exactly when the report has a bad claim section item:
   * one that is not an object, or whose claim is a truthy value that is not a string.
   */
  lemma EvaluateEndpointSpec(rows: seq<ReportRow>, docs: seq<Document>, chunks: seq<Chunk>, req: ReportRequest,
                             embed: QueryEmbedder, dist: Distance, gen: Generator, parse: JsonParser)
    ensures var r := EvaluateEndpoint(rows, docs, chunks, req, embed, dist, gen, parse);
      var data := ReportFor(rows, docs, chunks, req, embed, dist, gen, parse);
      && (r.Success? ==> data == Success(r.value.reportData) && Evaluate(r.value.reportData) == Success(r.value.evaluation))
      && (data.Success? ==> (r.Success? <==> !HasBadItem(data.value, ClaimSections)))
      && (data.Success? && r.Failure? ==>
            && Evaluate(data.value).Failure?
            && r.error == HttpError(500, EvaluationFailed + "AttributeError: " + CrashMessage(Evaluate(data.value).error)))
  {
    var data := ReportFor(rows, docs, chunks, req, embed, dist, gen, parse);
    if data.Success? {
      EvaluationCrashIff(data.value);
    }
  }

  /** On a hit the answer depends on the cached report only: the generator, the parser and
      the documents make no difference. */
  lemma EvaluateEndpointHit(rows: seq<ReportRow>, docs: seq<Document>, chunks: seq<Chunk>, req: ReportRequest,
                            embed: QueryEmbedder, dist: Distance, gen: Generator, parse: JsonParser,
                            docs': seq<Document>, chunks': seq<Chunk>, gen': Generator, parse': JsonParser,
                            row: ReportRow)
    requires KeysUnique(rows) && row in rows && row.key == RequestKey(req)
    ensures ReportFor(rows, docs, chunks, req, embed, dist, gen, parse) == Success(row.data)
    ensures EvaluateEndpoint(rows, docs, chunks, req, embed, dist, gen, parse) ==
            EvaluateEndpoint(rows, docs', chunks', req, embed, dist, gen', parse')
  {
    CreateReportHit(rows, docs, chunks, req, embed, dist, gen, parse, None, row);
  }

  /** Without a document for the normalised ticker and quarter, a miss is a 404 with the
      generator's message. */
  lemma EvaluateEndpointNotFound(rows: seq<ReportRow>, docs: seq<Document>, chunks: seq<Chunk>, req: ReportRequest,
                                 embed: QueryEmbedder, dist: Distance, gen: Generator, parse: JsonParser)
    requires Lookup(rows, RequestKey(req)).None?
    requires forall d :: d in docs ==> !Matches(d, req.ticker, req.quarter)
    ensures EvaluateEndpoint(rows, docs, chunks, req, embed, dist, gen, parse) ==
      Failure(HttpError(404, "Current quarter document not found."))
  {
    CreateReportNotFound(rows, docs, chunks, req, embed, dist, gen, parse, None);
  }

  /**
   * After the report route has answered a request with a report, the evaluation route
   * evaluates that same report for the same request, whatever its own generator would
   * produce.
   */
  lemma EvaluateAfterCreate(rows: seq<ReportRow>, docs: seq<Document>, chunks: seq<Chunk>, req: ReportRequest,
                            embed: QueryEmbedder, dist: Distance, gen: Generator, parse: JsonParser,
                            commit: Option<Raised>, gen': Generator, parse': JsonParser)
    requires KeysUnique(rows)
    requires CreateReportSpec(rows, docs, chunks, req, embed, dist, gen, parse, commit).0.Success?
    ensures var (r, rows') := CreateReportSpec(rows, docs, chunks, req, embed, dist, gen, parse, commit);
      ReportFor(rows', docs, chunks, req, embed, dist, gen', parse') == Success(r.value)
  {
    var key := RequestKey(req);
    var (r, rows') := CreateReportSpec(rows, docs, chunks, req, embed, dist, gen, parse, commit);
    if Lookup(rows, key).None? {
      LookupAppend(rows, ReportRow(key, r.value), key);
    }
  }
}
