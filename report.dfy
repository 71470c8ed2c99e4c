/**
 * generate_quarter_comparison_report (backend/app/llm/report.py): look up the current
 * (and optionally the previous) quarter's transcript, collect de-duplicated context
 * chunks by running a fixed list of retrieval queries, hand them to the generator, and
 * turn its answer into a JSON object, repairing text that wraps the object in prose.
 */
module ReportGeneration {
  import opened Wrappers
  import opened Text
  import opened Models
  import opened Retriever
  import opened JsonValues

  /** An exception raised to the caller: its Python type name, its message, and whether
      it is a ValueError (JSONDecodeError is one). */
  datatype Raised = Raised(typeName: string, message: string, isValueError: bool)

  const DocumentNotFound: Raised := Raised("ValueError", "Current quarter document not found.", true)
  const NoContext: Raised :=
    Raised("RuntimeError", "No context chunks retrieved. Ensure documents are embedded.", false)
  const NoCandidates: Raised := Raised("RuntimeError", "Gemini returned no candidates for report generation.", false)
  const NoParts: Raised := Raised("RuntimeError", "Gemini response has no parts.", false)
  const NotAnObject: Raised := Raised("RuntimeError", "Report is not a JSON object.", false)

  function EmptyText(repr: string): Raised {
    Raised("RuntimeError", "Gemini returned empty text. Full response: " + repr, false)
  }

  /** The first 500 characters of `s` (Python's s[:500]). */
  function Head500(s: string): string {
    if |s| <= 500 then s else s[..500]
  }

  function Unparseable(raw: string): Raised {
    Raised("RuntimeError", "Could not parse JSON from Gemini. Raw text: " + Head500(raw), false)
  }

  /** The JSONDecodeError json.loads raises, with its message. */
  function DecodeError(message: string): Raised {
    Raised("JSONDecodeError", message, true)
  }

  // ---------------------------------------------------------------------------------
  // Document lookup
  // ---------------------------------------------------------------------------------

  /** s.upper().strip() */
  function Norm(s: string): string {
    Strip(Upper(s))
  }

  /** The WHERE clause of the lookup. */
  predicate Matches(d: Document, ticker: string, quarter: string) {
    d.ticker == Norm(ticker) && d.quarter == Norm(quarter)
  }

  /** The first document, in table order, whose ticker and quarter are the normalised
      arguments. */
  function GetDocument(docs: seq<Document>, ticker: string, quarter: string): Option<Document> {
    if docs == [] then None
    else if Matches(docs[0], ticker, quarter) then Some(docs[0])
    else GetDocument(docs[1..], ticker, quarter)
  }

  /**
   * The lookup finds a document exactly when one matches; what it finds is a matching
   * stored document; and since (ticker, quarter) is unique, it is the only one.
   */
  lemma {:induction false} GetDocumentSpec(docs: seq<Document>, ticker: string, quarter: string)
    ensures var r := GetDocument(docs, ticker, quarter);
      && (r.Some? <==> exists d :: d in docs && Matches(d, ticker, quarter))
      && (r.Some? ==> r.value in docs && Matches(r.value, ticker, quarter))
  {
    if docs != [] {
      GetDocumentSpec(docs[1..], ticker, quarter);
      assert forall d :: d in docs <==> d == docs[0] || d in docs[1..];
    }
  }

  lemma GetDocumentUnique(docs: seq<Document>, ticker: string, quarter: string, d: Document)
    requires DocumentsUnique(docs) && d in docs && Matches(d, ticker, quarter)
    ensures GetDocument(docs, ticker, quarter) == Some(d)
  {
    GetDocumentSpec(docs, ticker, quarter);
    var r := GetDocument(docs, ticker, quarter).value;
    var i :| 0 <= i < |docs| && docs[i] == d;
    var j :| 0 <= j < |docs| && docs[j] == r;
    if i != j {
      assert false;
    }
  }

  lemma UpperIdempotent(s: string)
    ensures Upper(Upper(s)) == Upper(s)
  {
  }

  /** Normalising twice is normalising once, so the route's normalisation and the
      lookup's agree. */
  lemma NormIdempotent(s: string)
    ensures Norm(Norm(s)) == Norm(s)
  {
    var u := Upper(s);
    var t := Strip(u);
    assert Upper(t) == t by {
      assert t == u[StripStart(u)..StripEnd(u)];
      forall i | 0 <= i < |t| ensures Upper(t)[i] == t[i] {
        assert t[i] == u[StripStart(u) + i];
      }
    }
    StripProperties(u);
    StripStripped(t);
  }

  // ---------------------------------------------------------------------------------
  // Context collection
  // ---------------------------------------------------------------------------------

  /** The retrieval queries, theme by theme. */
  const QueriesByTheme: seq<(string, seq<string>)> := [
    ("guidance", ["guidance outlook", "revenue outlook", "EPS guidance", "full year outlook"]),
    ("growth_drivers", ["growth drivers", "AI revenue", "cloud growth", "subscriptions growth"]),
    ("risks", ["macro headwinds", "regulatory risk", "currency headwind", "competition"]),
    ("margin_dynamics", ["operating margin", "margin expansion", "depreciation headwind", "cost of revenues"]),
    ("qa_pressure_points", ["analyst concerns", "follow up question", "can you elaborate", "clarify risk"])
  ]

  /** Chunks retrieved per query (k_per_query). */
  const KPerQuery: nat := 4

  /** The queries of all themes, in theme order and then query order. */
  function Flatten(themes: seq<(string, seq<string>)>): seq<string> {
    if themes == [] then []
    else
      var n := |themes| - 1;
      Flatten(themes[..n]) + themes[n].1
  }

  lemma {:induction false} FlattenLength(themes: seq<(string, seq<string>)>, m: nat)
    requires forall i :: 0 <= i < |themes| ==> |themes[i].1| == m
    ensures |Flatten(themes)| == m * |themes|
  {
    if themes != [] {
      var n := |themes| - 1;
      forall i | 0 <= i < n ensures |themes[..n][i].1| == m {
        assert themes[..n][i] == themes[i];
      }
      FlattenLength(themes[..n], m);
      assert |themes[n].1| == m;
      MulSucc(m, n);
    }
  }

  lemma FlattenNext(themes: seq<(string, seq<string>)>, t: nat)
    requires t < |themes|
    ensures Flatten(themes[..t + 1]) == Flatten(themes[..t]) + themes[t].1
  {
    assert themes[..t + 1][..t] == themes[..t];
  }

  function Queries(): seq<string> {
    Flatten(QueriesByTheme)
  }

  /** Twenty queries: five themes of four. */
  lemma QueriesCount()
    ensures |Queries()| == 20
  {
    FlattenLength(QueriesByTheme, 4);
  }

  datatype Role = Current | Prev

  /** One context chunk as handed to the generator. */
  datatype ContextRecord = ContextRecord(role: Role, section: string, documentId: Id, chunkId: Id,
                                         chunkIndex: nat, text: string)

  function RecordOf(c: Chunk, role: Role): ContextRecord {
    ContextRecord(role, c.section, c.documentId, c.id, c.chunkIndex, c.text)
  }

  function Records(chunks: seq<Chunk>, role: Role): (r: seq<ContextRecord>)
    ensures |r| == |chunks|
  {
    seq(|chunks|, i requires 0 <= i < |chunks| => RecordOf(chunks[i], role))
  }

  /** The de-duplication key: (role, chunk id). */
  function RecordKey(r: ContextRecord): (Role, Id) {
    (r.role, r.chunkId)
  }

  function KeySet(recs: seq<ContextRecord>): set<(Role, Id)> {
    set r | r in recs :: RecordKey(r)
  }

  lemma KeySetAppend(recs: seq<ContextRecord>, r: ContextRecord)
    ensures KeySet(recs + [r]) == KeySet(recs) + {RecordKey(r)}
  {
    assert forall x :: x in recs + [r] <==> x in recs || x == r;
  }

  /** Keep the first record of each key, in order. */
  function Dedup(recs: seq<ContextRecord>): seq<ContextRecord> {
    if recs == [] then []
    else
      var n := |recs| - 1;
      var d := Dedup(recs[..n]);
      if RecordKey(recs[n]) in KeySet(d) then d else d + [recs[n]]
  }

  /** One retrieval call: its query, the role its chunks take, and the document searched. */
  datatype Retrieval = Retrieval(query: string, role: Role, documentId: Id)

  function QueryRetrievals(q: string, current: Id, prev: Option<Id>): seq<Retrieval> {
    [Retrieval(q, Current, current)] + (if prev.Some? then [Retrieval(q, Prev, prev.value)] else [])
  }

  /** The retrieval calls for the queries, in order: for each query the current document,
      then the previous one when there is one. */
  function Retrievals(queries: seq<string>, current: Id, prev: Option<Id>): seq<Retrieval> {
    if queries == [] then []
    else
      var n := |queries| - 1;
      Retrievals(queries[..n], current, prev) + QueryRetrievals(queries[n], current, prev)
  }

  /** The records one retrieval call yields. */
  function Fetch(rows: seq<Chunk>, r: Retrieval, k: nat, embed: QueryEmbedder, dist: Distance): seq<ContextRecord> {
    Records(RetrieveTopK(rows, r.query, k, Some(r.documentId), embed, dist), r.role)
  }

  /** The records of all retrieval calls, before de-duplication. */
  function Stream(rets: seq<Retrieval>, fetch: Retrieval -> seq<ContextRecord>): seq<ContextRecord> {
    if rets == [] then []
    else
      var n := |rets| - 1;
      Stream(rets[..n], fetch) + fetch(rets[n])
  }

  /** Fetch as a function of the retrieval call alone. */
  function Fetcher(rows: seq<Chunk>, k: nat, embed: QueryEmbedder, dist: Distance): Retrieval -> seq<ContextRecord> {
    r => Fetch(rows, r, k, embed, dist)
  }

  function IdOf(d: Option<Document>): Option<Id> {
    if d.Some? then Some(d.value.id) else None
  }

  /** What _collect_context_for_report returns. */
  function Context(rows: seq<Chunk>, current: Document, prev: Option<Document>, k: nat,
                   embed: QueryEmbedder, dist: Distance): seq<ContextRecord>
  {
    Dedup(Stream(Retrievals(Queries(), current.id, IdOf(prev)), Fetcher(rows, k, embed, dist)))
  }

  lemma RecordsNext(before: seq<ContextRecord>, chunks: seq<Chunk>, i: nat, role: Role)
    requires i < |chunks|
    ensures before + Records(chunks[..i + 1], role) == (before + Records(chunks[..i], role)) + [RecordOf(chunks[i], role)]
  {
  }

  lemma DedupNext(recs: seq<ContextRecord>, x: ContextRecord)
    ensures Dedup(recs + [x]) == if RecordKey(x) in KeySet(Dedup(recs)) then Dedup(recs) else Dedup(recs) + [x]
  {
    assert (recs + [x])[..|recs|] == recs;
  }

  /** add_chunks: append each chunk's record unless its key was seen, and mark it seen. */
  method AddChunks(context: seq<ContextRecord>, seen: set<(Role, Id)>, chunks: seq<Chunk>, role: Role,
                   ghost before: seq<ContextRecord>)
    returns (context': seq<ContextRecord>, seen': set<(Role, Id)>)
    requires context == Dedup(before) && seen == KeySet(context)
    ensures context' == Dedup(before + Records(chunks, role)) && seen' == KeySet(context')
  {
    context', seen' := context, seen;
    assert before + Records(chunks[..0], role) == before;
    for i := 0 to |chunks|
      invariant context' == Dedup(before + Records(chunks[..i], role)) && seen' == KeySet(context')
    {
      var c := chunks[i];
      RecordsNext(before, chunks, i, role);
      DedupNext(before + Records(chunks[..i], role), RecordOf(c, role));
      var key := (role, c.id);
      if key !in seen' {
        var record := RecordOf(c, role);
        KeySetAppend(context', record);
        seen' := seen' + {key};
        context' := context' + [record];
      }
    }
    assert chunks[..|chunks|] == chunks;
  }

  /** The context after one more query: its current retrieval, then its previous one. */
  method AddQuery(rows: seq<Chunk>, context: seq<ContextRecord>, seen: set<(Role, Id)>, q: string,
                  current: Id, prev: Option<Id>, k: nat, embed: QueryEmbedder, dist: Distance,
                  ghost done: seq<string>)
    returns (context': seq<ContextRecord>, seen': set<(Role, Id)>)
    requires context == Dedup(Stream(Retrievals(done, current, prev), Fetcher(rows, k, embed, dist)))
    requires seen == KeySet(context)
    ensures context' == Dedup(Stream(Retrievals(done + [q], current, prev), Fetcher(rows, k, embed, dist)))
    ensures seen' == KeySet(context')
  {
    ghost var before := Stream(Retrievals(done, current, prev), Fetcher(rows, k, embed, dist));
    var currentChunks := RetrieveTopK(rows, q, k, Some(current), embed, dist);
    context', seen' := AddChunks(context, seen, currentChunks, Current, before);
    if prev.Some? {
      var prevChunks := RetrieveTopK(rows, q, k, Some(prev.value), embed, dist);
      context', seen' := AddChunks(context', seen', prevChunks, Prev, before + Records(currentChunks, Current));
    }
    QueryStream(rows, done, q, current, prev, k, embed, dist);
  }

  /** The records of one more query: its current-quarter retrieval, then its
      previous-quarter one when there is a previous document. */
  lemma QueryStream(rows: seq<Chunk>, done: seq<string>, q: string, current: Id, prev: Option<Id>,
                    k: nat, embed: QueryEmbedder, dist: Distance)
    ensures var fetch := Fetcher(rows, k, embed, dist);
      var before := Stream(Retrievals(done, current, prev), fetch);
      var cur := Records(RetrieveTopK(rows, q, k, Some(current), embed, dist), Current);
      Stream(Retrievals(done + [q], current, prev), fetch) ==
        if prev.Some? then before + cur + Records(RetrieveTopK(rows, q, k, Some(prev.value), embed, dist), Prev)
        else before + cur
  {
    var fetch := Fetcher(rows, k, embed, dist);
    var rets := Retrievals(done, current, prev);
    var rc := Retrieval(q, Current, current);
    RetrievalsAppend(done, q, current, prev);
    if prev.Some? {
      var rp := Retrieval(q, Prev, prev.value);
      SeqAppendTwo(rets, rc, rp);
      StreamTwo(rets, rc, rp, fetch);
    } else {
      StreamNext(rets, rc, fetch);
    }
  }

  lemma SeqAppendTwo<T>(s: seq<T>, a: T, b: T)
    ensures s + ([a] + [b]) == s + [a] + [b]
  {
  }

  /** The records of two more retrievals. */
  lemma StreamTwo(rets: seq<Retrieval>, a: Retrieval, b: Retrieval, fetch: Retrieval -> seq<ContextRecord>)
    ensures Stream(rets + [a] + [b], fetch) == Stream(rets, fetch) + fetch(a) + fetch(b)
  {
    StreamNext(rets, a, fetch);
    StreamNext(rets + [a], b, fetch);
  }

  lemma StreamNext(rets: seq<Retrieval>, r: Retrieval, fetch: Retrieval -> seq<ContextRecord>)
    ensures Stream(rets + [r], fetch) == Stream(rets, fetch) + fetch(r)
  {
    assert (rets + [r])[..|rets|] == rets;
  }

  lemma AppendNext<T>(done: seq<T>, s: seq<T>, j: nat)
    requires j < |s|
    ensures done + s[..j + 1] == (done + s[..j]) + [s[j]]
  {
    assert s[..j + 1] == s[..j] + [s[j]];
  }

  /** The inner loop of _collect_context_for_report: the queries of one theme, in order. */
  method AddTheme(rows: seq<Chunk>, context: seq<ContextRecord>, seen: set<(Role, Id)>, queries: seq<string>,
                  current: Id, prev: Option<Id>, k: nat, embed: QueryEmbedder, dist: Distance,
                  ghost done: seq<string>)
    returns (context': seq<ContextRecord>, seen': set<(Role, Id)>)
    requires context == Dedup(Stream(Retrievals(done, current, prev), Fetcher(rows, k, embed, dist)))
    requires seen == KeySet(context)
    ensures context' == Dedup(Stream(Retrievals(done + queries, current, prev), Fetcher(rows, k, embed, dist)))
    ensures seen' == KeySet(context')
  {
    context', seen' := context, seen;
    assert done + queries[..0] == done;
    for j := 0 to |queries|
      invariant context' == Dedup(Stream(Retrievals(done + queries[..j], current, prev), Fetcher(rows, k, embed, dist)))
      invariant seen' == KeySet(context')
    {
      context', seen' := AddQuery(rows, context', seen', queries[j], current, prev, k, embed, dist, done + queries[..j]);
      AppendNext(done, queries, j);
    }
    assert queries[..|queries|] == queries;
  }

  /** The loops of _collect_context_for_report: every query of every theme, in order. */
  method CollectThemes(rows: seq<Chunk>, themes: seq<(string, seq<string>)>, current: Id, prev: Option<Id>,
                       k: nat, embed: QueryEmbedder, dist: Distance)
    returns (context: seq<ContextRecord>)
    ensures context == Dedup(Stream(Retrievals(Flatten(themes), current, prev), Fetcher(rows, k, embed, dist)))
  {
    var seen: set<(Role, Id)> := {};
    context := [];
    ghost var done: seq<string> := [];
    for t := 0 to |themes|
      invariant done == Flatten(themes[..t])
      invariant context == Dedup(Stream(Retrievals(done, current, prev), Fetcher(rows, k, embed, dist)))
      invariant seen == KeySet(context)
    {
      context, seen := AddTheme(rows, context, seen, themes[t].1, current, prev, k, embed, dist, done);
      done := done + themes[t].1;
      FlattenNext(themes, t);
    }
    assert themes[..|themes|] == themes;
  }

  /** _collect_context_for_report over the fixed queries. */
  method CollectContext(rows: seq<Chunk>, current: Document, prev: Option<Document>, k: nat,
                        embed: QueryEmbedder, dist: Distance)
    returns (context: seq<ContextRecord>)
    ensures context == Context(rows, current, prev, k, embed, dist)
  {
    context := CollectThemes(rows, QueriesByTheme, current.id, IdOf(prev), k, embed, dist);
  }

  // ---------------------------------------------------------------------------------
  // What the collected context is
  // ---------------------------------------------------------------------------------

  /** The de-duplicated records come from the input and cover all of its keys. */
  lemma {:induction false} DedupKeys(recs: seq<ContextRecord>)
    ensures KeySet(Dedup(recs)) == KeySet(recs)
    ensures forall x :: x in Dedup(recs) ==> x in recs
  {
    if recs != [] {
      var n := |recs| - 1;
      DedupKeys(recs[..n]);
      assert recs == recs[..n] + [recs[n]];
      KeySetAppend(recs[..n], recs[n]);
      KeySetAppend(Dedup(recs[..n]), recs[n]);
    }
  }

  /** No two records share a (role, chunk id) key. */
  ghost predicate KeysDistinct(recs: seq<ContextRecord>) {
    forall i, j :: 0 <= i < j < |recs| ==> RecordKey(recs[i]) != RecordKey(recs[j])
  }

  lemma {:induction false} DedupDistinct(recs: seq<ContextRecord>)
    ensures KeysDistinct(Dedup(recs))
  {
    if recs != [] {
      var n := |recs| - 1;
      DedupDistinct(recs[..n]);
      var d := Dedup(recs[..n]);
      if RecordKey(recs[n]) !in KeySet(d) {
        var d' := d + [recs[n]];
        forall i, j | 0 <= i < j < |d'| ensures RecordKey(d'[i]) != RecordKey(d'[j]) {
          assert d'[i] == d[i] && d[i] in d;
          if j < |d| {
            assert d'[j] == d[j];
          }
        }
      }
    }
  }

  /** Records are only ever appended: the context of a prefix of the records is a prefix
      of the context of all of them. */
  lemma {:induction false} DedupPrefix(recs: seq<ContextRecord>, more: seq<ContextRecord>)
    ensures Dedup(recs) <= Dedup(recs + more)
    decreases |more|
  {
    if more == [] {
      assert recs + more == recs;
    } else {
      var n := |more| - 1;
      DedupPrefix(recs, more[..n]);
      assert recs + more == (recs + more[..n]) + [more[n]];
      DedupNext(recs + more[..n], more[n]);
    }
  }

  /** The first record of each key is the one kept. */
  lemma {:induction false} DedupKeepsFirst(recs: seq<ContextRecord>, i: nat)
    requires i < |recs|
    requires forall j :: 0 <= j < i ==> RecordKey(recs[j]) != RecordKey(recs[i])
    ensures recs[i] in Dedup(recs)
  {
    var n := |recs| - 1;
    assert recs == recs[..n] + [recs[n]];
    DedupNext(recs[..n], recs[n]);
    if i < n {
      DedupKeepsFirst(recs[..n], i);
      DedupPrefix(recs[..n], [recs[n]]);
    } else {
      DedupKeys(recs[..n]);
      forall r | r in recs[..n] ensures RecordKey(r) != RecordKey(recs[n]) {
        var j :| 0 <= j < n && recs[..n][j] == r;
      }
    }
  }

  /** The number of records of one role. */
  function CountRole(recs: seq<ContextRecord>, role: Role): nat {
    if recs == [] then 0
    else
      var n := |recs| - 1;
      CountRole(recs[..n], role) + (if recs[n].role == role then 1 else 0)
  }

  lemma {:induction false} CountRoleAppend(a: seq<ContextRecord>, b: seq<ContextRecord>, role: Role)
    ensures CountRole(a + b, role) == CountRole(a, role) + CountRole(b, role)
    decreases |b|
  {
    if b == [] {
      assert a + b == a;
    } else {
      var n := |b| - 1;
      CountRoleAppend(a, b[..n], role);
      assert (a + b)[..|a + b| - 1] == a + b[..n];
    }
  }

  lemma {:induction false} CountRoleRecords(chunks: seq<Chunk>, role: Role, r: Role)
    ensures CountRole(Records(chunks, role), r) == if role == r then |chunks| else 0
  {
    if chunks != [] {
      var n := |chunks| - 1;
      CountRoleRecords(chunks[..n], role, r);
      assert Records(chunks, role)[..n] == Records(chunks[..n], role);
    }
  }

  /** De-duplication never adds records of a role. */
  lemma {:induction false} DedupCountRole(recs: seq<ContextRecord>, role: Role)
    ensures CountRole(Dedup(recs), role) <= CountRole(recs, role)
  {
    if recs != [] {
      var n := |recs| - 1;
      DedupCountRole(recs[..n], role);
      CountRoleAppend(Dedup(recs[..n]), [recs[n]], role);
      assert CountRole([recs[n]], role) == if recs[n].role == role then 1 else 0 by {
        assert [recs[n]][..0] == [];
      }
    }
  }

  lemma DropLast<T>(a: seq<T>, b: seq<T>)
    requires b != []
    ensures (a + b)[..|a + b| - 1] == a + b[..|b| - 1] && (a + b)[|a + b| - 1] == b[|b| - 1]
  {
  }

  lemma {:induction false} StreamAppend(a: seq<Retrieval>, b: seq<Retrieval>, fetch: Retrieval -> seq<ContextRecord>)
    ensures Stream(a + b, fetch) == Stream(a, fetch) + Stream(b, fetch)
    decreases |b|
  {
    if b == [] {
      assert a + b == a;
    } else {
      var n := |b| - 1;
      StreamAppend(a, b[..n], fetch);
      DropLast(a, b);
    }
  }

  /**
   * One retrieval yields at most `k` records, each with the retrieval's role and
   * document, each the record of an embedded stored chunk.
   */
  lemma FetchSpec(rows: seq<Chunk>, r: Retrieval, k: nat, embed: QueryEmbedder, dist: Distance)
    ensures var recs := Fetch(rows, r, k, embed, dist);
      && |recs| <= k
      && forall x :: x in recs ==>
           && x.role == r.role && x.documentId == r.documentId
           && exists c :: c in rows && c.embedding.Some? && x == RecordOf(c, r.role)
  {
    var chunks := RetrieveTopK(rows, r.query, k, Some(r.documentId), embed, dist);
    RetrieveTopKFilter(rows, r.query, k, Some(r.documentId), embed, dist);
    forall x | x in Fetch(rows, r, k, embed, dist)
      ensures x.role == r.role && x.documentId == r.documentId
      ensures exists c :: c in rows && c.embedding.Some? && x == RecordOf(c, r.role)
    {
      var i :| 0 <= i < |chunks| && Records(chunks, r.role)[i] == x;
      assert chunks[i] in chunks;
    }
  }

  /** The retrievals for two query lists one after the other. */
  lemma {:induction false} RetrievalsAppend(a: seq<string>, q: string, current: Id, prev: Option<Id>)
    ensures Retrievals(a + [q], current, prev) == Retrievals(a, current, prev) + QueryRetrievals(q, current, prev)
  {
    assert (a + [q])[..|a|] == a;
  }

  /** Without a previous document: one retrieval per query, of the current document, in
      query order. */
  lemma {:induction false} RetrievalsWithoutPrev(queries: seq<string>, current: Id)
    ensures var rets := Retrievals(queries, current, None);
      && |rets| == |queries|
      && forall i :: 0 <= i < |queries| ==> rets[i] == Retrieval(queries[i], Current, current)
  {
    if queries != [] {
      var n := |queries| - 1;
      RetrievalsWithoutPrev(queries[..n], current);
    }
  }

  /** With a previous document: two retrievals per query, the current document's first. */
  lemma {:induction false} RetrievalsWithPrev(queries: seq<string>, current: Id, prev: Id)
    ensures var rets := Retrievals(queries, current, Some(prev));
      && |rets| == 2 * |queries|
      && forall i :: 0 <= i < |queries| ==>
           rets[2 * i] == Retrieval(queries[i], Current, current) && rets[2 * i + 1] == Retrieval(queries[i], Prev, prev)
  {
    if queries != [] {
      var n := |queries| - 1;
      RetrievalsWithPrev(queries[..n], current, prev);
      var rets := Retrievals(queries, current, Some(prev));
      forall i | 0 <= i < |queries|
        ensures rets[2 * i] == Retrieval(queries[i], Current, current) && rets[2 * i + 1] == Retrieval(queries[i], Prev, prev)
      {
        if i < n {
          assert queries[..n][i] == queries[i];
        }
      }
    }
  }

  /** Each retrieval searches the current document as Current, or the previous one as Prev. */
  lemma {:induction false} RetrievalsTargets(queries: seq<string>, current: Id, prev: Option<Id>)
    ensures forall r :: r in Retrievals(queries, current, prev) ==>
      (r.role == Current && r.documentId == current) || (r.role == Prev && prev == Some(r.documentId))
  {
    if queries != [] {
      var n := |queries| - 1;
      RetrievalsTargets(queries[..n], current, prev);
    }
  }

  /** Every streamed record comes from one of the retrievals. */
  lemma {:induction false} StreamSources(rets: seq<Retrieval>, fetch: Retrieval -> seq<ContextRecord>)
    ensures forall x :: x in Stream(rets, fetch) ==> exists r :: r in rets && x in fetch(r)
  {
    if rets != [] {
      var n := |rets| - 1;
      StreamSources(rets[..n], fetch);
      assert forall r :: r in rets[..n] ==> r in rets;
      assert rets[n] in rets;
    }
  }

  lemma StreamOne(r: Retrieval, fetch: Retrieval -> seq<ContextRecord>)
    ensures Stream([r], fetch) == fetch(r)
  {
    assert [r][..0] == [];
  }

  /** The records of one retrieval, counted by role. */
  lemma FetchCountRole(rows: seq<Chunk>, r: Retrieval, k: nat, embed: QueryEmbedder, dist: Distance, role: Role)
    ensures CountRole(Fetch(rows, r, k, embed, dist), role) <= (if r.role == role then k else 0)
  {
    FetchSpec(rows, r, k, embed, dist);
    CountRoleRecords(RetrieveTopK(rows, r.query, k, Some(r.documentId), embed, dist), r.role, role);
  }

  /** Each retrieval yields at most `k` records, all of its own role. */
  ghost predicate FetchBounded(fetch: Retrieval -> seq<ContextRecord>, k: nat) {
    forall r, role :: CountRole(fetch(r), role) <= (if r.role == role then k else 0)
  }

  lemma FetcherBounded(rows: seq<Chunk>, k: nat, embed: QueryEmbedder, dist: Distance)
    ensures FetchBounded(Fetcher(rows, k, embed, dist), k)
  {
    forall r, role ensures CountRole(Fetcher(rows, k, embed, dist)(r), role) <= (if r.role == role then k else 0) {
      FetchCountRole(rows, r, k, embed, dist, role);
    }
  }

  lemma QueryStreamCountRole(q: string, current: Id, prev: Option<Id>, k: nat, fetch: Retrieval -> seq<ContextRecord>)
    requires FetchBounded(fetch, k)
    ensures var recs := Stream(QueryRetrievals(q, current, prev), fetch);
      && CountRole(recs, Current) <= k
      && CountRole(recs, Prev) <= (if prev.Some? then k else 0)
  {
    var rc := Retrieval(q, Current, current);
    StreamOne(rc, fetch);
    assert CountRole(fetch(rc), Current) <= k && CountRole(fetch(rc), Prev) == 0;
    if prev.Some? {
      var rp := Retrieval(q, Prev, prev.value);
      assert QueryRetrievals(q, current, prev) == [rc] + [rp];
      StreamAppend([rc], [rp], fetch);
      StreamOne(rp, fetch);
      assert CountRole(fetch(rp), Current) == 0 && CountRole(fetch(rp), Prev) <= k;
      CountRoleAppend(fetch(rc), fetch(rp), Current);
      CountRoleAppend(fetch(rc), fetch(rp), Prev);
    } else {
      assert QueryRetrievals(q, current, prev) == [rc];
    }
  }

  lemma MulSucc(k: nat, n: nat)
    ensures k * (n + 1) == k * n + k
  {
  }

  /** Each query adds at most `k` records per role, and none of role Prev without a
      previous document. */
  lemma {:induction false} StreamCountRole(queries: seq<string>, current: Id, prev: Option<Id>, k: nat,
                                           fetch: Retrieval -> seq<ContextRecord>)
    requires FetchBounded(fetch, k)
    ensures var recs := Stream(Retrievals(queries, current, prev), fetch);
      && CountRole(recs, Current) <= k * |queries|
      && CountRole(recs, Prev) <= (if prev.Some? then k * |queries| else 0)
  {
    if queries != [] {
      var n := |queries| - 1;
      var q := queries[n];
      StreamCountRole(queries[..n], current, prev, k, fetch);
      var before := Retrievals(queries[..n], current, prev);
      StreamAppend(before, QueryRetrievals(q, current, prev), fetch);
      QueryStreamCountRole(q, current, prev, k, fetch);
      var head := Stream(before, fetch);
      var tail := Stream(QueryRetrievals(q, current, prev), fetch);
      CountRoleAppend(head, tail, Current);
      CountRoleAppend(head, tail, Prev);
      MulSucc(k, n);
    }
  }

  /**
   * The collected context: every record is the record of an embedded stored chunk of
   * the document its role names (Prev only when there is a previous document), and no
   * two records share a (role, chunk id) key.
   */
  lemma ContextSources(rows: seq<Chunk>, current: Document, prev: Option<Document>, k: nat,
                       embed: QueryEmbedder, dist: Distance)
    ensures var ctx := Context(rows, current, prev, k, embed, dist);
      && KeysDistinct(ctx)
      && forall x :: x in ctx ==>
           && (x.role == Current ==> x.documentId == current.id)
           && (x.role == Prev ==> prev.Some? && x.documentId == prev.value.id)
           && exists c :: c in rows && c.embedding.Some? && x == RecordOf(c, x.role)
  {
    var rets := Retrievals(Queries(), current.id, IdOf(prev));
    var recs := Stream(rets, Fetcher(rows, k, embed, dist));
    DedupDistinct(recs);
    DedupKeys(recs);
    StreamSources(rets, Fetcher(rows, k, embed, dist));
    RetrievalsTargets(Queries(), current.id, IdOf(prev));
    forall x | x in Dedup(recs)
      ensures x.role == Current ==> x.documentId == current.id
      ensures x.role == Prev ==> prev.Some? && x.documentId == prev.value.id
      ensures exists c :: c in rows && c.embedding.Some? && x == RecordOf(c, x.role)
    {
      var r :| r in rets && x in Fetcher(rows, k, embed, dist)(r);
      FetchSpec(rows, r, k, embed, dist);
    }
  }

  /**
   * The context keeps one record for every (role, chunk id) retrieved, the first one
   * retrieved, and it is empty exactly when no retrieval returned anything.
   */
  lemma ContextCoverage(rows: seq<Chunk>, current: Document, prev: Option<Document>, k: nat,
                        embed: QueryEmbedder, dist: Distance)
    ensures var recs := Stream(Retrievals(Queries(), current.id, IdOf(prev)), Fetcher(rows, k, embed, dist));
      var ctx := Context(rows, current, prev, k, embed, dist);
      && KeySet(ctx) == KeySet(recs)
      && (ctx == [] <==> recs == [])
      && (forall i :: 0 <= i < |recs| && (forall j :: 0 <= j < i ==> RecordKey(recs[j]) != RecordKey(recs[i])) ==>
            recs[i] in ctx)
  {
    DedupCoverage(Stream(Retrievals(Queries(), current.id, IdOf(prev)), Fetcher(rows, k, embed, dist)));
  }

  /** Deduplication keeps every key, is empty only on an empty input, and keeps the first
      record under each key. */
  lemma DedupCoverage(recs: seq<ContextRecord>)
    ensures KeySet(Dedup(recs)) == KeySet(recs)
    ensures Dedup(recs) == [] <==> recs == []
    ensures forall i :: 0 <= i < |recs| && (forall j :: 0 <= j < i ==> RecordKey(recs[j]) != RecordKey(recs[i])) ==>
              recs[i] in Dedup(recs)
  {
    DedupKeys(recs);
    if recs != [] {
      assert RecordKey(recs[0]) in KeySet(recs);
    }
    forall i | 0 <= i < |recs| && (forall j :: 0 <= j < i ==> RecordKey(recs[j]) != RecordKey(recs[i]))
      ensures recs[i] in Dedup(recs)
    {
      DedupKeepsFirst(recs, i);
    }
  }

  /** The context holds at most k records per query of each role: 20k of the current
      quarter, and 20k of the previous one, none without a previous document. */
  lemma ContextRoleBounds(rows: seq<Chunk>, current: Document, prev: Option<Document>, k: nat,
                          embed: QueryEmbedder, dist: Distance)
    ensures CountRole(Context(rows, current, prev, k, embed, dist), Current) <= 20 * k
    ensures CountRole(Context(rows, current, prev, k, embed, dist), Prev) <= (if prev.Some? then 20 * k else 0)
  {
    var recs := Stream(Retrievals(Queries(), current.id, IdOf(prev)), Fetcher(rows, k, embed, dist));
    QueriesCount();
    FetcherBounded(rows, k, embed, dist);
    StreamCountRole(Queries(), current.id, IdOf(prev), k, Fetcher(rows, k, embed, dist));
    DedupCountRole(recs, Current);
    DedupCountRole(recs, Prev);
  }

  // ---------------------------------------------------------------------------------
  // The generator's answer
  // ---------------------------------------------------------------------------------

  /** What the generator is sent besides the fixed instructions and schema. */
  datatype Payload = Payload(ticker: string, quarter: string, prevQuarter: Option<string>,
                             contextChunks: seq<ContextRecord>)

  /** A part's text may be absent. */
  datatype Part = Part(text: Option<string>)

  /** A candidate's parts; a missing content or parts list is an empty one. */
  datatype Candidate = Candidate(parts: seq<Part>)

  /** The generator's response and its printed form. */
  datatype Response = Response(candidates: seq<Candidate>, repr: string)

  /** The generation call: a response, or the exception the client raised. */
  type Generator = Payload -> Result<Response, Raised>

  /** json.loads: a value, or the JSONDecodeError message. */
  type JsonParser = string -> Result<Json, string>

  /** The response checks: the stripped text of the first part of the first candidate. */
  function ResponseText(resp: Response): Result<string, Raised> {
    if resp.candidates == [] then Failure(NoCandidates)
    else if resp.candidates[0].parts == [] then Failure(NoParts)
    else
      var text := resp.candidates[0].parts[0].text;
      if text.None? || Strip(text.value) == [] then Failure(EmptyText(resp.repr))
      else Success(Strip(text.value))
  }

  /**
   * A response is accepted exactly when it has a candidate whose first part has text
   * that is not all whitespace; the accepted text is that text stripped, never empty.
   */
  lemma ResponseTextSpec(resp: Response)
    ensures var r := ResponseText(resp);
      && (r.Success? <==>
            resp.candidates != [] && resp.candidates[0].parts != [] &&
            resp.candidates[0].parts[0].text.Some? && !AllSpace(resp.candidates[0].parts[0].text.value))
      && (r.Success? ==> r.value == Strip(resp.candidates[0].parts[0].text.value) && r.value != [] && IsStripped(r.value))
      && (resp.candidates == [] ==> r == Failure(NoCandidates))
      && (resp.candidates != [] && resp.candidates[0].parts == [] ==> r == Failure(NoParts))
  {
    if resp.candidates != [] && resp.candidates[0].parts != [] && resp.candidates[0].parts[0].text.Some? {
      StripProperties(resp.candidates[0].parts[0].text.value);
    }
  }

  /** The text from the first `{` to the last `}`, when the last comes after the first. */
  function BraceSpan(raw: string): Option<string> {
    var start := Find(raw, "{");
    var end := RFind(raw, "}");
    if start.None? || end.None? || end.value <= start.value then None
    else Some(raw[start.value..end.value + 1])
  }

  /** A one-character pattern occurs exactly where that character is. */
  lemma OccursChar(raw: string, c: char)
    ensures forall i :: OccursAt(raw, [c], i) <==> 0 <= i < |raw| && raw[i] == c
  {
    forall i | 0 <= i < |raw| ensures OccursAt(raw, [c], i) <==> raw[i] == c {
      assert raw[i..i + 1] == [raw[i]];
    }
  }

  /** The repair finds a span exactly when some `{` comes before some `}`. */
  lemma BraceSpanFound(raw: string)
    ensures BraceSpan(raw).Some? <==> exists i, j :: 0 <= i < j < |raw| && raw[i] == '{' && raw[j] == '}'
  {
    OccursChar(raw, '{');
    OccursChar(raw, '}');
    var start := Find(raw, "{");
    var end := RFind(raw, "}");
    if exists i, j :: 0 <= i < j < |raw| && raw[i] == '{' && raw[j] == '}' {
      var i, j :| 0 <= i < j < |raw| && raw[i] == '{' && raw[j] == '}';
      assert OccursAt(raw, "{", i) && OccursAt(raw, "}", j);
    }
    if start.Some? && end.Some? && start.value < end.value {
      assert raw[start.value] == '{' && raw[end.value] == '}';
    }
  }

  /** The span is the slice of the text from its first `{` to its last `}`. */
  lemma BraceSpanShape(raw: string)
    requires BraceSpan(raw).Some?
    ensures exists lo, hi ::
      && 0 <= lo < hi < |raw| && BraceSpan(raw).value == raw[lo..hi + 1]
      && raw[lo] == '{' && raw[hi] == '}'
      && (forall i :: 0 <= i < lo ==> raw[i] != '{')
      && (forall j :: hi < j < |raw| ==> raw[j] != '}')
  {
    OccursChar(raw, '{');
    OccursChar(raw, '}');
    var lo, hi := Find(raw, "{").value, RFind(raw, "}").value;
    assert raw[lo] == '{' && raw[hi] == '}';
  }

  /** The JSON handling: parse the text; failing that, parse the brace span. */
  function ParseReport(raw: string, parse: JsonParser): Result<Json, Raised> {
    match parse(raw)
    case Success(j) => Success(j)
    case Failure(_) =>
      match BraceSpan(raw)
      case None => Failure(Unparseable(raw))
      case Some(inner) =>
        match parse(inner)
        case Success(j) => Success(j)
        case Failure(message) => Failure(DecodeError(message))
  }

  /**
   * Text that parses is used as it is; text that does not is replaced by its brace span;
   * without a span the error quotes at most 500 characters of the text; a span that does
   * not parse raises the parser's error.
   */
  lemma ParseReportSpec(raw: string, parse: JsonParser)
    ensures var r := ParseReport(raw, parse);
      && (parse(raw).Success? ==> r == Success(parse(raw).value))
      && (parse(raw).Failure? && BraceSpan(raw).None? ==>
            r == Failure(Unparseable(raw)) && |Head500(raw)| <= 500 && Head500(raw) <= raw)
      && (parse(raw).Failure? && BraceSpan(raw).Some? ==>
            match parse(BraceSpan(raw).value)
            case Success(j) => r == Success(j)
            case Failure(m) => r == Failure(DecodeError(m)) && r.error.isValueError)
  {
  }

  /**
   * The repair recovers an object wrapped in text: when the text does not parse but is
   * `pre + body + post` where `pre` has no `{`, `post` has no `}`, and `body` is a
   * brace-delimited text that parses, the result is what `body` parses to.
   */
  lemma ParseReportUnwraps(pre: string, body: string, post: string, parse: JsonParser)
    requires parse(pre + body + post).Failure?
    requires |body| >= 2 && body[0] == '{' && body[|body| - 1] == '}'
    requires forall i :: 0 <= i < |pre| ==> pre[i] != '{'
    requires forall j :: 0 <= j < |post| ==> post[j] != '}'
    requires parse(body).Success?
    ensures ParseReport(pre + body + post, parse) == Success(parse(body).value)
  {
    var raw := pre + body + post;
    var lo, hi := |pre|, |pre| + |body| - 1;
    assert raw[lo..hi + 1] == body;
    assert raw[lo] == '{' && raw[hi] == '}';
    forall i | 0 <= i < lo ensures raw[i] != '{' {
      assert raw[i] == pre[i];
    }
    forall j | hi < j < |raw| ensures raw[j] != '}' {
      assert raw[j] == post[j - hi - 1];
    }
    FindCharIs(raw, '{', lo);
    RFindCharIs(raw, '}', hi);
  }

  /** The first occurrence of a character. */
  lemma FindCharIs(raw: string, c: char, lo: nat)
    requires lo < |raw| && raw[lo] == c && forall i :: 0 <= i < lo ==> raw[i] != c
    ensures Find(raw, [c]) == Some(lo)
  {
    OccursChar(raw, c);
  }

  /** The last occurrence of a character. */
  lemma RFindCharIs(raw: string, c: char, hi: nat)
    requires hi < |raw| && raw[hi] == c && forall j :: hi < j < |raw| ==> raw[j] != c
    ensures RFind(raw, [c]) == Some(hi)
  {
    OccursChar(raw, c);
    RFindIs(raw, [c], hi);
  }

  // ---------------------------------------------------------------------------------
  // generate_quarter_comparison_report
  // ---------------------------------------------------------------------------------

  /** `if prev_quarter:` — given and not empty. */
  predicate Given(prevQuarter: Option<string>) {
    prevQuarter.Some? && prevQuarter.value != ""
  }

  /** The previous quarter's document, when one is asked for and exists. */
  function PrevDocument(docs: seq<Document>, ticker: string, prevQuarter: Option<string>): Option<Document> {
    if Given(prevQuarter) then GetDocument(docs, ticker, prevQuarter.value) else None
  }

  /** The payload's prev_quarter: normalised when the previous document was found,
      otherwise None. */
  function PayloadPrev(docs: seq<Document>, ticker: string, prevQuarter: Option<string>): Option<string> {
    if PrevDocument(docs, ticker, prevQuarter).Some? then Some(Norm(prevQuarter.value)) else None
  }

  /** The payload sent for a request whose current document exists. */
  function PayloadFor(docs: seq<Document>, rows: seq<Chunk>, current: Document, ticker: string, quarter: string,
                      prevQuarter: Option<string>, embed: QueryEmbedder, dist: Distance): Payload
  {
    var prev := PrevDocument(docs, ticker, prevQuarter);
    Payload(Norm(ticker), Norm(quarter), PayloadPrev(docs, ticker, prevQuarter),
            Context(rows, current, prev, KPerQuery, embed, dist))
  }

  /** From the generator's answer to the report object. */
  function HandleResponse(answer: Result<Response, Raised>, parse: JsonParser): Result<map<string, Json>, Raised> {
    match answer
    case Failure(e) => Failure(e)
    case Success(resp) =>
      match ResponseText(resp)
      case Failure(e) => Failure(e)
      case Success(raw) =>
        match ParseReport(raw, parse)
        case Failure(e) => Failure(e)
        case Success(j) => if j.JObject? then Success(j.fields) else Failure(NotAnObject)
  }

  /** The whole generation, from the request to the report object or the exception. */
  function Generate(docs: seq<Document>, rows: seq<Chunk>, ticker: string, quarter: string,
                    prevQuarter: Option<string>, embed: QueryEmbedder, dist: Distance,
                    gen: Generator, parse: JsonParser): Result<map<string, Json>, Raised>
  {
    match GetDocument(docs, ticker, quarter)
    case None => Failure(DocumentNotFound)
    case Some(current) =>
      var payload := PayloadFor(docs, rows, current, ticker, quarter, prevQuarter, embed, dist);
      if payload.contextChunks == [] then Failure(NoContext)
      else HandleResponse(gen(payload), parse)
  }

  /** generate_quarter_comparison_report, step by step. */
  method GenerateQuarterComparisonReport(docs: seq<Document>, rows: seq<Chunk>, ticker: string, quarter: string,
                                         prevQuarter: Option<string>, embed: QueryEmbedder, dist: Distance,
                                         gen: Generator, parse: JsonParser)
    returns (r: Result<map<string, Json>, Raised>)
    ensures r == Generate(docs, rows, ticker, quarter, prevQuarter, embed, dist, gen, parse)
  {
    var current := GetDocument(docs, ticker, quarter);
    if current.None? {
      return Failure(DocumentNotFound);
    }
    var prevDoc: Option<Document> := None;
    var prevQ := prevQuarter;
    if Given(prevQuarter) {
      prevDoc := GetDocument(docs, ticker, prevQuarter.value);
      if prevDoc.None? {
        prevQ := None;
      }
    }
    var context := CollectContext(rows, current.value, prevDoc, KPerQuery, embed, dist);
    if |context| == 0 {
      return Failure(NoContext);
    }
    var payload := Payload(Norm(ticker), Norm(quarter), if Given(prevQ) then Some(Norm(prevQ.value)) else None, context);
    var response := gen(payload);
    if response.Failure? {
      return Failure(response.error);
    }
    var text := ResponseText(response.value);
    if text.Failure? {
      return Failure(text.error);
    }
    var report := ParseReport(text.value, parse);
    if report.Failure? {
      return Failure(report.error);
    }
    if !report.value.JObject? {
      return Failure(NotAnObject);
    }
    return Success(report.value.fields);
  }

  /** Without the current quarter's document the call fails at once, whatever the chunks,
      the generator and the parser. */
  lemma GenerateNotFound(docs: seq<Document>, rows: seq<Chunk>, ticker: string, quarter: string,
                         prevQuarter: Option<string>, embed: QueryEmbedder, dist: Distance,
                         gen: Generator, parse: JsonParser)
    requires forall d :: d in docs ==> !Matches(d, ticker, quarter)
    ensures Generate(docs, rows, ticker, quarter, prevQuarter, embed, dist, gen, parse) == Failure(DocumentNotFound)
  {
    GetDocumentSpec(docs, ticker, quarter);
  }

  /**
   * The payload names the normalised ticker and quarter; its prev_quarter is the
   * normalised previous quarter exactly when that was asked for and its document exists,
   * and without that document there are no Prev records; every Current record is of the
   * current document.
   */
  lemma PayloadSpec(docs: seq<Document>, rows: seq<Chunk>, current: Document, ticker: string, quarter: string,
                    prevQuarter: Option<string>, embed: QueryEmbedder, dist: Distance)
    ensures var p := PayloadFor(docs, rows, current, ticker, quarter, prevQuarter, embed, dist);
      var prev := PrevDocument(docs, ticker, prevQuarter);
      && p.ticker == Norm(ticker) && p.quarter == Norm(quarter)
      && (p.prevQuarter.Some? <==> Given(prevQuarter) && exists d :: d in docs && Matches(d, ticker, prevQuarter.value))
      && (p.prevQuarter.Some? ==> p.prevQuarter.value == Norm(prevQuarter.value))
      && (prev.None? ==> CountRole(p.contextChunks, Prev) == 0)
      && (forall x :: x in p.contextChunks && x.role == Current ==> x.documentId == current.id)
      && (forall x :: x in p.contextChunks && x.role == Prev ==> prev.Some? && x.documentId == prev.value.id)
  {
    if Given(prevQuarter) {
      GetDocumentSpec(docs, ticker, prevQuarter.value);
    }
    var prev := PrevDocument(docs, ticker, prevQuarter);
    ContextSources(rows, current, prev, KPerQuery, embed, dist);
    ContextRoleBounds(rows, current, prev, KPerQuery, embed, dist);
  }

  /** With the current document but no context, the call fails before the generator is
      asked, so the generator and the parser make no difference. */
  lemma GenerateNoContext(docs: seq<Document>, rows: seq<Chunk>, ticker: string, quarter: string,
                          prevQuarter: Option<string>, embed: QueryEmbedder, dist: Distance,
                          gen: Generator, parse: JsonParser, gen': Generator, parse': JsonParser)
    requires GetDocument(docs, ticker, quarter).Some?
    requires PayloadFor(docs, rows, GetDocument(docs, ticker, quarter).value, ticker, quarter, prevQuarter, embed, dist).contextChunks == []
    ensures Generate(docs, rows, ticker, quarter, prevQuarter, embed, dist, gen, parse) == Failure(NoContext)
    ensures Generate(docs, rows, ticker, quarter, prevQuarter, embed, dist, gen', parse') == Failure(NoContext)
  {
  }

  /**
   * A report is returned only when the current document exists, the context is not
   * empty, and the generator's first text, stripped, parses (directly or through its
   * brace span) to that very object.
   */
  lemma GenerateSuccess(docs: seq<Document>, rows: seq<Chunk>, ticker: string, quarter: string,
                        prevQuarter: Option<string>, embed: QueryEmbedder, dist: Distance,
                        gen: Generator, parse: JsonParser)
    ensures var r := Generate(docs, rows, ticker, quarter, prevQuarter, embed, dist, gen, parse);
      r.Success? ==>
        && GetDocument(docs, ticker, quarter).Some?
        && var p := PayloadFor(docs, rows, GetDocument(docs, ticker, quarter).value, ticker, quarter, prevQuarter, embed, dist);
        && p.contextChunks != []
        && gen(p).Success?
        && YieldsReport(gen(p).value, parse, r.value)
  {
    var r := Generate(docs, rows, ticker, quarter, prevQuarter, embed, dist, gen, parse);
    if r.Success? {
      var p := PayloadFor(docs, rows, GetDocument(docs, ticker, quarter).value, ticker, quarter, prevQuarter, embed, dist);
      ResponseTextSpec(gen(p).value);
    }
  }

  /** The response's stripped first text parses, directly or through its brace span, to
      the object `report`. */
  ghost predicate YieldsReport(resp: Response, parse: JsonParser, report: map<string, Json>) {
    && resp.candidates != [] && resp.candidates[0].parts != []
    && resp.candidates[0].parts[0].text.Some?
    && var raw := Strip(resp.candidates[0].parts[0].text.value);
    && raw != []
    && (parse(raw) == Success(JObject(report)) ||
        (parse(raw).Failure? && BraceSpan(raw).Some? && parse(BraceSpan(raw).value) == Success(JObject(report))))
  }

  /**
   * Conversely, a response whose first text is an object once stripped, or wraps one in
   * text without other braces around it, yields that object.
   */
  lemma GenerateAccepts(docs: seq<Document>, rows: seq<Chunk>, ticker: string, quarter: string,
                        prevQuarter: Option<string>, embed: QueryEmbedder, dist: Distance,
                        gen: Generator, parse: JsonParser, resp: Response, report: map<string, Json>)
    requires GetDocument(docs, ticker, quarter).Some?
    requires var p := PayloadFor(docs, rows, GetDocument(docs, ticker, quarter).value, ticker, quarter, prevQuarter, embed, dist);
      p.contextChunks != [] && gen(p) == Success(resp)
    requires YieldsReport(resp, parse, report)
    ensures Generate(docs, rows, ticker, quarter, prevQuarter, embed, dist, gen, parse) == Success(report)
  {
    StripProperties(resp.candidates[0].parts[0].text.value);
  }
}
