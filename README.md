# Earnings-report engine: a verified model of the backend core

The engine ingests earnings-call transcripts and answers requests for quarter-over-quarter
comparison reports. This project models its backend core in Dafny:

- **Ingestion** (`Parser`, `Chunker`, `Ingest`). A transcript's line endings are
  normalised. The text is split at the first Q&A marker into a `prepared_remarks` and a
  `qa` section. Each section is cut into overlapping windows of at most 1200 characters,
  ending at a paragraph or sentence break where there is one. One chunk row is stored per
  non-blank window.
- **Embedding and retrieval** (`VectorStore`, `Retriever`). The document's chunks that have
  no embedding are embedded batch by batch, in (section, index) order. A query is answered
  with the `k` embedded chunks nearest to the query's vector, optionally only from one
  document.
- **Report generation** (`ReportGeneration`). The requested quarter's transcript is looked
  up, and the previous quarter's when one is asked for. Twenty fixed queries are run
  against each. The hits are de-duplicated by (role, chunk id) in first-seen order and sent
  to the generator. Its answer is parsed as a JSON object; when the object is wrapped in
  prose, the text from the first `{` to the last `}` is parsed instead.
- **Evaluation** (`Validate`). A report gets schema checks, evidence coverage of its claims,
  a count of citations in its evidence quotes, a composite score and ranked
  recommendations.
- **HTTP routes** (`RoutesReport`, `RoutesEvaluation`).
  - `POST /report` answers from the reports cache, or generates, stores and returns a
    report. Exceptions become 404 or 500 responses.
  - `POST /evaluation/report` returns a report (cached or fresh) together with its
    evaluation.

The database tables are in-memory tables (`Models.ChunkTable`, and the rows of
`RoutesReport.ReportCache`). Their unique indexes are table invariants.

The model treats these as parameters:

- the embedding model (`Embedder`, `QueryEmbedder`);
- the pgvector distance operator (`Distance`);
- the generative model (`Generator`);
- `json.loads` (`JsonParser`);
- the outcome of a commit.

Shared modules:

- `Text`: Python's `str.strip`, `lower`, `upper`, `find`, `rfind` and `in`.
- `Sorting`: a stable insertion sort standing in for `ORDER BY`.
- `JsonValues`: decoded JSON.
- `Wrappers`: `Option` and `Result`.

Where the source changes state step by step, the model is imperative. These are methods with
the source's loops:

- `Chunker.ChunkSection`;
- `Ingest.CreateChunksForDocument`;
- `VectorStore.EmbedChunksForDocument`;
- the context collection in `ReportGeneration`;
- the checks in `Validate`;
- `RoutesReport.ReportCache.CreateReport`.

Each method is proved equal to a specification function, and the properties are proved about
that function. Parsing, retrieval and the route logic are pure functions.

**Chunking does not always terminate.** chunker.py:47 moves the cursor back to
`end - overlap_chars`. When the last paragraph break sits at the same place in successive
windows, the cursor returns to the same start and the loop runs forever.
`Chunker.LoopingSectionNeverFinishes` exhibits such a section under the default settings: 1000
letters, a blank line, then 2000 letters. Every chunking run therefore carries an iteration
budget (`fuel`) and reports `OutOfFuel` when the budget is spent. Two lemmas prove that runs
finish when the cursor always advances: `Chunker.ChunkSectionFinishesWithoutOverlap` and
`Chunker.ChunkSectionFinishesWithoutBreaks`.

## Model

| member | source | states |
|---|---|---|
| Text.StripProperties | backend/app/ingestion/chunker.py:20 | `strip()` leaves no leading or trailing whitespace, removes only whitespace, and yields the empty string exactly for an all-whitespace input |
| Text.StripStripped | backend/app/ingestion/chunker.py:39 | stripping an already stripped string changes nothing |
| Text.StripSliceOf | backend/app/ingestion/parser.py:30-31 | the strip of a slice of a text is again a contiguous slice of that text |
| Text.LeadingSpacesSpec | backend/app/ingestion/chunker.py:20 | the leading run counted is all whitespace and is followed by a non-space |
| Text.TrailingSpacesSpec | backend/app/ingestion/chunker.py:20 | the trailing run counted is all whitespace and is preceded by a non-space |
| Text.Lower | backend/app/ingestion/parser.py:17 | lower-casing keeps the length, so positions found in the lower-cased copy index the original text |
| Text.LowerKeepsSpace | backend/app/ingestion/parser.py:17 | lower-casing maps whitespace to whitespace and non-whitespace to non-whitespace, position by position |
| Text.LowerSuffix | backend/app/ingestion/parser.py:17-31 | lower-casing commutes with taking a suffix |
| Text.Upper | backend/app/llm/report.py:26-27 | upper-casing keeps the length |
| Text.FindFrom | backend/app/ingestion/parser.py:22 | the result is the first occurrence at or after `from`, and None means there is none |
| Text.Find | backend/app/ingestion/parser.py:22 | `find` returns the first occurrence of the pattern; None (−1) exactly when it occurs nowhere |
| Text.RFindBelow | backend/app/ingestion/chunker.py:32-34 | the result is the last occurrence at or below the bound, and None means there is none |
| Text.RFind | backend/app/ingestion/chunker.py:32-34 | `rfind` returns the last occurrence; None (−1) exactly when it occurs nowhere |
| Text.RFindIs | backend/app/llm/report.py:169 | an occurrence with none after it is what `rfind` returns |
| Text.StrLeTotal | backend/app/rag/vector_store.py:20 | string comparison is total |
| Text.StrLeTransitive | backend/app/rag/vector_store.py:20 | string comparison is transitive |
| Text.StrLeAntisymmetric | backend/app/rag/vector_store.py:20 | string comparison is antisymmetric |
| Sorting.Take | backend/app/rag/retriever.py:22 | `LIMIT k` keeps the first min(k, n) rows in order |
| Sorting.InsertByPermutes | backend/app/rag/retriever.py:22 | inserting adds exactly the one element |
| Sorting.InsertBySorted | backend/app/rag/retriever.py:22 | inserting into a sorted sequence keeps it sorted under a total preorder |
| Sorting.SortBySortedPermutation | backend/app/rag/retriever.py:22 | `ORDER BY` yields a sorted permutation of its rows |
| Sorting.TakeSortedKeepsLeast | backend/app/rag/retriever.py:22 | after sorting, the rows `LIMIT` keeps are each ordered before every row it drops, and the dropped rows are exactly the rest |
| Sorting.PermutationKeepsDistinct | backend/app/rag/vector_store.py:20 | reordering distinct elements keeps them distinct |
| Parser.NormalizeNewlines | backend/app/ingestion/parser.py:15 | replacing CRLF never lengthens the text |
| Parser.NormalizeIdentityIff | backend/app/ingestion/parser.py:15 | the replacement changes the text if and only if it contains CRLF |
| Parser.NormalizeShrinks | backend/app/ingestion/parser.py:15 | a text with CRLF becomes strictly shorter |
| Parser.NormalizeNoCrLf | backend/app/ingestion/parser.py:15 | a text without CRLF is unchanged |
| Parser.NormalizeIsSinglePass | backend/app/ingestion/parser.py:15 | `replace` is one left-to-right pass: "\r\r\n" becomes "\r\n", which still contains CRLF |
| Parser.FirstMarker | backend/app/ingestion/parser.py:18-25 | the chosen marker is the first in list order that occurs, at its first occurrence; every earlier marker occurs nowhere; None exactly when no marker occurs |
| Parser.SplitSections | backend/app/ingestion/parser.py:30-37 | the Q&A section is the stripped text from the marker on and is always present; prepared remarks come first and are present exactly when the stripped text before the marker is non-empty; every section is non-empty, stripped and a slice of the text |
| Parser.ParseTranscript | backend/app/ingestion/parser.py:14-39 | at most two sections, named prepared_remarks and qa, in that order; without a marker the whole normalised text is one prepared_remarks section, unstripped; with a marker the last section is qa and every section is non-empty and stripped |
| Parser.QaNotBlank | backend/app/ingestion/parser.py:31 | the text from a found marker on is never blank, because every marker contains a 'q' |
| Parser.MarkerParts | backend/app/ingestion/parser.py:18 | each marker is leading whitespace followed by a non-empty stripped head |
| Parser.QaHead | backend/app/ingestion/parser.py:31 | the qa section begins with the found marker's head, case aside |
| Parser.ParseSplitsAtFirstMarker | backend/app/ingestion/parser.py:20-37 | when marker j is the first in list order to occur, the transcript is split at its first occurrence and the qa section starts with that marker |
| Parser.SplitAtFirstMarker | backend/app/ingestion/parser.py:20-37 | parsing equals splitting at the first occurrence of the first listed marker that occurs |
| Parser.ListOrderBeatsTextOrder | backend/app/ingestion/parser.py:21-25 | markers are tried in list order, not text order: "Questions and answers\nQ&A" is split at "\nQ&A" even though the other marker occurs earlier |
| Chunker.CutEnd | backend/app/ingestion/chunker.py:29-37 | a cut never leaves the window: start ≤ end ≤ length, end − start ≤ max_chars; with max_chars > 0 the window is non-empty |
| Chunker.CutEndSpec | backend/app/ingestion/chunker.py:29-37 | a window reaching the end of the text is taken whole; otherwise the cut falls just after the first newline of the last "\n\n" in the window, else just after the dot of the last ". ", else at the window edge |
| Chunker.Cut | backend/app/ingestion/chunker.py:29-37 | the method computing one window's end returns the specified cut |
| Chunker.Emit | backend/app/ingestion/chunker.py:39-42 | emitting a window appends its stripped text with the next index when that is non-blank, and nothing otherwise |
| Chunker.Turn | backend/app/ingestion/chunker.py:29-47 | one loop iteration: after it, either the text is finished and the chunks are those of all windows visited, or the loop invariant holds at the next start with one iteration less |
| Chunker.ChunkText | backend/app/ingestion/chunker.py:24-48 | the loop over a stripped, non-empty text returns the chunks of the windows the cursor visits, or OutOfFuel when the budget runs out |
| Chunker.ChunkSection | backend/app/ingestion/chunker.py:14-49 | chunk_section returns exactly what the specification function ChunkSectionRun describes |
| Chunker.CutsStep | backend/app/ingestion/chunker.py:44-47 | a cut before the end of the text records its window and moves the cursor to max(0, end − overlap) |
| Chunker.CutsLast | backend/app/ingestion/chunker.py:44-45 | a cut at the end of the text is the last window |
| Chunker.CutsInText | backend/app/ingestion/chunker.py:28-47 | every window the cursor visits lies within the text |
| Chunker.CutsByAgrees | backend/app/ingestion/chunker.py:28-47 | the windows visited by the loop equal the windows of the specification |
| Chunker.ChunksOfByAgrees | backend/app/ingestion/chunker.py:39-42 | the chunks the loop emits for a list of windows equal the chunks of the specification |
| Chunker.ChunksByAgrees | backend/app/ingestion/chunker.py:28-47 | the run the loop computes equals the specified run ChunkTextRun |
| Chunker.ChunksOfWellFormed | backend/app/ingestion/chunker.py:39-42 | chunks carry the section name, no speaker and consecutive indices from 0; each is non-empty, stripped, at most max_chars long and a slice of the text; there are no more chunks than windows |
| Chunker.ChunksOfPrefix | backend/app/ingestion/chunker.py:39-42 | the chunks of the first k windows are a prefix of the chunks of all windows, so chunks are appended and never rewritten |
| Chunker.CutsShape | backend/app/ingestion/chunker.py:28-47 | a finished run is a chain: each window starts where the previous one's next start lies, and the last one reaches the end of the text or the next start falls beyond it |
| Chunker.ChainCovers | backend/app/ingestion/chunker.py:28-47 | with a non-negative overlap, every character from the first start on lies in some window |
| Chunker.CutsFuelMonotone | backend/app/ingestion/chunker.py:28-47 | a run that finishes within a budget gives the same windows under any larger budget |
| Chunker.CutsFinishWhenCursorAdvances | backend/app/ingestion/chunker.py:28-47 | if every cut either ends the text or moves the next start past the current one, a budget of the text's length suffices |
| Chunker.ChunkSectionSpec | backend/app/ingestion/chunker.py:14-49 | a blank section gives no chunks; finished chunks are well formed with respect to the stripped section; a non-blank section with max_chars > 0 gives at least one chunk |
| Chunker.ChunkSectionLabels | backend/app/ingestion/chunker.py:41-42 | chunk i carries the section name and index i |
| Chunker.ChunkSectionCovers | backend/app/ingestion/chunker.py:28-47 | with a non-negative overlap, every character of the stripped section lies in some window of a finished run |
| Chunker.ChunkSectionFuelMonotone | backend/app/ingestion/chunker.py:14-49 | a finished chunking is independent of the budget once the budget suffices |
| Chunker.ChunkSectionFinishesWithoutOverlap | backend/app/ingestion/chunker.py:47 | with max_chars > 0 and no overlap, chunking always finishes |
| Chunker.CutAdvancesWithoutBreaks | backend/app/ingestion/chunker.py:29-47 | in a text without "\n\n" and ". ", every cut before the end moves the cursor forward when overlap < max_chars |
| Chunker.ChunkSectionFinishesWithoutBreaks | backend/app/ingestion/chunker.py:28-47 | a section without "\n\n" and ". " always finishes when overlap < max_chars |
| Chunker.StuckCursorRunsOutOfFuel | backend/app/ingestion/chunker.py:47 | if the next start equals the current start, the loop never finishes, whatever the budget |
| Chunker.LoopingSectionCut | backend/app/ingestion/chunker.py:29-37 | in the looping example every window starting at or before the blank line is cut just after it |
| Chunker.LoopingSectionNeverFinishes | backend/app/ingestion/chunker.py:28-47 | under the default 1200/200 settings, the section of 1000 letters, a blank line and 2000 letters never finishes chunking |
| Models.ChunkTable.constructor | backend/app/models.py:31-46 | an empty chunks table satisfies the table invariant: ids below the next fresh id, distinct ids, distinct (document, section, index) keys |
| Ingest.CollectInputs | backend/app/ingestion/ingest.py:13-15 | the loop over the sections concatenates their chunk inputs in section order, or reports OutOfFuel |
| Ingest.BuildRows | backend/app/ingestion/ingest.py:17-27 | the loop building rows produces exactly the specified new rows |
| Ingest.NewRows | backend/app/ingestion/ingest.py:17-27 | one row per chunk input |
| Ingest.CreateChunksForDocument | backend/app/ingestion/ingest.py:10-34 | the table invariant is kept. No inputs: nothing is written and [] is returned. A key clash with stored rows: IntegrityError and nothing is written. Otherwise the rows are appended with fresh ids, in input order, and returned |
| Ingest.OutOfFuelStays | backend/app/ingestion/ingest.py:13-15 | once a section runs out of budget, the whole document does |
| Ingest.InputsOfSections | backend/app/ingestion/ingest.py:13-15 | every chunk input belongs to one of the parsed sections |
| Ingest.InputsOfKeysUnique | backend/app/ingestion/ingest.py:13-15 | sections with distinct names give chunk inputs with distinct (section, index) keys |
| Ingest.KeysAppendDistinct | backend/app/ingestion/ingest.py:15 | appending a fresh section's inputs, indexed from 0, keeps the keys distinct |
| Ingest.InputsWellFormed | backend/app/ingestion/ingest.py:13-15 | every chunk input has no speaker and is non-empty, stripped and at most 1200 characters |
| Ingest.ChunkInputsWellFormed | backend/app/ingestion/ingest.py:11-15 | a transcript's chunk inputs are all in prepared_remarks or qa, have no speaker, are non-empty, stripped and at most 1200 characters, and have distinct (section, index) keys |
| Ingest.RowsAppendUnique | backend/app/models.py:46 | appending rows for inputs with distinct keys, without clashes and with fresh ids, keeps ids and keys unique |
| Ingest.NewRowsKeepValid | backend/app/ingestion/ingest.py:29-32 | a successful commit leaves a table whose ids and (document, section, index) keys are unique and whose ids stay below the next fresh id |
| Ingest.FreshDocumentIngests | backend/app/ingestion/ingest.py:17-27 | for a document without stored chunks the commit never clashes, and each new row carries its input's section, speaker, index and text, the document id and no embedding |
| VectorStore.SlotLeTotalPreorder | backend/app/rag/vector_store.py:20 | ordering by (section, chunk_index) is a total preorder |
| VectorStore.Texts | backend/app/rag/vector_store.py:27 | one text per chunk of the batch |
| VectorStore.ApplyBatch | backend/app/rag/vector_store.py:28-29 | assigning the vectors keeps the number of rows |
| VectorStore.NextTurn | backend/app/rag/vector_store.py:16-32 | a stored batch strictly shrinks the set of the document's chunks without an embedding, so the loop terminates |
| VectorStore.Turner | backend/app/rag/vector_store.py:16-32 | every iteration that stores a batch makes progress |
| VectorStore.TurnerTurns | backend/app/rag/vector_store.py:16-32 | the iteration the loop performs is the specified one |
| VectorStore.RunAgrees | backend/app/rag/vector_store.py:15-34 | running the loop's iteration to completion gives the specified result and rows |
| VectorStore.BatchStoreShrinks | backend/app/rag/vector_store.py:16-29 | storing a non-empty batch leaves strictly fewer chunks without an embedding |
| VectorStore.EmbedNextBatch | backend/app/rag/vector_store.py:16-32 | one iteration: no pending chunks means nothing changes; a vector count that does not match means nothing is stored; otherwise the batch's vectors are stored and the batch size is counted |
| VectorStore.AssignVectors | backend/app/rag/vector_store.py:28-29 | the zip loop stores vector j in the batch's j-th row |
| VectorStore.EmbedChunksForDocument | backend/app/rag/vector_store.py:12-34 | the method returns the specified total (or the mismatch failure) and leaves the specified rows; the table invariant is kept |
| VectorStore.EmbedStep | backend/app/rag/vector_store.py:27-31 | a stored batch keeps chunk ids and keys unique and ids below the next fresh id |
| VectorStore.PendingSlotsSpec | backend/app/rag/vector_store.py:16-19 | the candidates are exactly the document's chunks without an embedding, in table order |
| VectorStore.SortedPendingFacts | backend/app/rag/vector_store.py:16-20 | the ordered candidates are a permutation of the pending chunks, sorted by (section, index), each at a distinct table position |
| VectorStore.BatchFacts | backend/app/rag/vector_store.py:16-23 | a batch holds min(batch_size, pending) distinct pending chunks in (section, index) order |
| VectorStore.BatchTakesLeast | backend/app/rag/vector_store.py:20-21 | every chunk left out of a batch sorts at or after every chunk in it |
| VectorStore.PendingCount | backend/app/rag/vector_store.py:16-19 | the candidate list and the set of pending positions have the same size |
| VectorStore.DistinctPositionsCount | backend/app/rag/vector_store.py:28-29 | distinct positions in a batch number as many as its chunks |
| VectorStore.ApplyBatchOnlyEmbeds | backend/app/rag/vector_store.py:28-29 | storing a batch changes only embeddings, only at the batch's positions, and sets each to its vector |
| VectorStore.OnlyEmbeddingsKeepValid | backend/app/rag/vector_store.py:28-31 | changing only embeddings keeps the table invariant |
| VectorStore.ApplyBatchShrinksPending | backend/app/rag/vector_store.py:28-29 | after storing a batch the pending set is the old one minus the batch's positions |
| VectorStore.EmbedRunFrame | backend/app/rag/vector_store.py:15-34 | the embedding step changes only embeddings, and only of the document's pending chunks |
| VectorStore.EmbedRunCompletes | backend/app/rag/vector_store.py:15-34 | on success with batch_size > 0, every chunk of the document has an embedding and the total is the number that had none |
| VectorStore.NothingPendingIsNoOp | backend/app/rag/vector_store.py:24-25 | with nothing pending the step returns 0 and changes nothing |
| VectorStore.SecondRunIsNoOp | backend/app/rag/vector_store.py:12-34 | embedding a document twice: the second run returns 0 and changes nothing |
| VectorStore.ZeroBatchSizeDoesNothing | backend/app/rag/vector_store.py:21-25 | with batch_size 0 the first query is empty, so 0 is returned and nothing changes |
| Retriever.CandidatesSpec | backend/app/rag/retriever.py:18-20 | the candidates are exactly the chunks with an embedding, of the requested document when one is given |
| Retriever.NearerTotalPreorder | backend/app/rag/retriever.py:22 | ordering by distance to the query vector is a total preorder |
| Retriever.RetrieveTopKFilter | backend/app/rag/retriever.py:16-24 | the result has min(k, candidates) chunks, drawn without repetition from the candidates, all embedded and all of the requested document |
| Retriever.RetrieveTopKOrder | backend/app/rag/retriever.py:22-24 | the result is nearest first, and no candidate left out is nearer than any returned chunk |
| ReportGeneration.GetDocumentSpec | backend/app/llm/report.py:23-29 | a document is found exactly when one matches the upper-cased, stripped ticker and quarter, and what is found matches |
| ReportGeneration.GetDocumentUnique | backend/app/models.py:28 | under the unique (ticker, quarter) index the lookup returns the one matching document |
| ReportGeneration.UpperIdempotent | backend/app/api/routes_report.py:26-27 | upper-casing twice is upper-casing once |
| ReportGeneration.NormIdempotent | backend/app/api/routes_report.py:26-27 | the route normalises and generation normalises again, with the same result |
| ReportGeneration.QueriesCount | backend/app/llm/report.py:38-69 | there are 20 queries |
| ReportGeneration.FlattenLength | backend/app/llm/report.py:91-92 | themes of m queries each give m × themes queries |
| ReportGeneration.Records | backend/app/llm/report.py:80-89 | one context record per retrieved chunk |
| ReportGeneration.AddChunks | backend/app/llm/report.py:74-89 | add_chunks keeps the context equal to the de-duplicated stream of all records seen so far, and the seen set equal to its keys |
| ReportGeneration.AddQuery | backend/app/llm/report.py:92-98 | one query adds its current-quarter hits, then its previous-quarter hits, to the de-duplicated context |
| ReportGeneration.AddTheme | backend/app/llm/report.py:92-98 | one theme adds the hits of its queries in order |
| ReportGeneration.CollectThemes | backend/app/llm/report.py:91-98 | the loops over themes and queries yield the de-duplicated stream of all retrievals in order |
| ReportGeneration.CollectContext | backend/app/llm/report.py:32-100 | the collected context is the specified Context |
| ReportGeneration.QueryStream | backend/app/llm/report.py:93-98 | one query appends the current-quarter hits, then the previous-quarter hits when there is a previous document |
| ReportGeneration.DedupKeys | backend/app/llm/report.py:76-79 | de-duplication keeps every key and invents no record |
| ReportGeneration.DedupDistinct | backend/app/llm/report.py:76-79 | no (role, chunk id) key occurs twice in the context |
| ReportGeneration.DedupPrefix | backend/app/llm/report.py:74-89 | later records only extend the context; earlier entries never move |
| ReportGeneration.DedupKeepsFirst | backend/app/llm/report.py:76-80 | the first record with each key is kept |
| ReportGeneration.CountRoleAppend | backend/app/llm/report.py:80 | role counts add over concatenation |
| ReportGeneration.CountRoleRecords | backend/app/llm/report.py:94-98 | records made for one role count only towards that role |
| ReportGeneration.DedupCountRole | backend/app/llm/report.py:76-79 | de-duplication never increases a role's count |
| ReportGeneration.StreamAppend | backend/app/llm/report.py:91-98 | the hits of consecutive retrievals concatenate |
| ReportGeneration.FetchSpec | backend/app/llm/report.py:93-98 | one retrieval gives at most k records, all of the retrieval's role and document, each made from an embedded stored chunk |
| ReportGeneration.RetrievalsAppend | backend/app/llm/report.py:92-98 | one more query appends its retrievals |
| ReportGeneration.RetrievalsWithoutPrev | backend/app/llm/report.py:93-94 | without a previous document each query is one current-quarter retrieval |
| ReportGeneration.RetrievalsWithPrev | backend/app/llm/report.py:93-98 | with a previous document each query is a current retrieval followed by a previous one |
| ReportGeneration.RetrievalsTargets | backend/app/llm/report.py:93-98 | current retrievals target the current document and previous ones the previous document |
| ReportGeneration.StreamSources | backend/app/llm/report.py:91-98 | every record comes from one of the retrievals |
| ReportGeneration.FetchCountRole | backend/app/llm/report.py:93-98 | one retrieval adds at most k records of its role and none of the other |
| ReportGeneration.QueryStreamCountRole | backend/app/llm/report.py:93-98 | one query adds at most k current records, and at most k previous ones only when there is a previous document |
| ReportGeneration.StreamCountRole | backend/app/llm/report.py:91-98 | n queries add at most k × n records of each role |
| ReportGeneration.ContextSources | backend/app/llm/report.py:32-100 | context keys are distinct; current records belong to the current document and previous ones to the previous document, which must exist; every record is an embedded stored chunk |
| ReportGeneration.ContextCoverage | backend/app/llm/report.py:74-100 | the context has the keys of all hits, is empty exactly when there are no hits, and keeps each key's first hit |
| ReportGeneration.DedupCoverage | backend/app/llm/report.py:74-89 | de-duplication keeps every key, is empty only for no input, and keeps each key's first occurrence |
| ReportGeneration.ContextRoleBounds | backend/app/llm/report.py:36-98 | at most 20 × k current records, and at most 20 × k previous ones only when there is a previous document |
| ReportGeneration.ResponseTextSpec | backend/app/llm/report.py:153-164 | the answer's text is the stripped text of the first part of the first candidate, and is non-blank; no candidates and no parts each raise their own error |
| ReportGeneration.OccursChar | backend/app/llm/report.py:168-169 | a one-character pattern occurs exactly where that character is |
| ReportGeneration.BraceSpanFound | backend/app/llm/report.py:168-170 | a brace span exists exactly when some `{` precedes some `}` |
| ReportGeneration.BraceSpanShape | backend/app/llm/report.py:168-172 | the span runs from the first `{` to the last `}`, inclusive |
| ReportGeneration.FindCharIs | backend/app/llm/report.py:168 | the first position of a character is what `find` returns |
| ReportGeneration.RFindCharIs | backend/app/llm/report.py:169 | the last position of a character is what `rfind` returns |
| ReportGeneration.ParseReportSpec | backend/app/llm/report.py:165-173 | parseable text is used as is. Otherwise the brace span is parsed, and a failure there is a ValueError (JSONDecodeError). With no span the error quotes at most the first 500 characters of the text |
| ReportGeneration.ParseReportUnwraps | backend/app/llm/report.py:165-173 | an object wrapped in prose free of braces is recovered |
| ReportGeneration.GenerateQuarterComparisonReport | backend/app/llm/report.py:103-178 | the method returns exactly what the specification Generate describes |
| ReportGeneration.GenerateNotFound | backend/app/llm/report.py:109-111 | with no matching current document the result is the ValueError "Current quarter document not found." |
| ReportGeneration.PayloadSpec | backend/app/llm/report.py:113-130 | ticker and quarter are normalised. prev_quarter is kept, normalised, exactly when it is non-empty and its document exists. Without a previous document no previous records are sent. Every record belongs to the document its role names |
| ReportGeneration.GenerateNoContext | backend/app/llm/report.py:121-122 | an empty context raises the RuntimeError before the generator is called, whatever it would answer |
| ReportGeneration.GenerateSuccess | backend/app/llm/report.py:103-178 | a report is returned only when the document exists, the context is non-empty, the generator answers and its text yields that JSON object |
| ReportGeneration.GenerateAccepts | backend/app/llm/report.py:153-178 | conversely, an answer whose text yields a JSON object is returned as the report |
| Validate.CheckRequiredFields | backend/app/llm/validate.py:13-16 | the loop reports the specified missing fields |
| Validate.CheckSummary | backend/app/llm/validate.py:18-28 | the summary checks report the specified errors |
| Validate.CheckListField | backend/app/llm/validate.py:32-38 | the per-field check reports the specified errors |
| Validate.CheckListFields | backend/app/llm/validate.py:30-38 | the loop over list fields reports the specified errors |
| Validate.ValidateReportStructure | backend/app/llm/validate.py:6-40 | the structure errors are the specified ones, in order |
| Validate.MissingFieldsSpec | backend/app/llm/validate.py:13-16 | a missing-field error is reported exactly for each required field absent from the report |
| Validate.ItemErrorsSpec | backend/app/llm/validate.py:36-38 | an item error is reported exactly for each index whose item is not an object |
| Validate.ListFieldErrorsSpec | backend/app/llm/validate.py:30-38 | the list-field errors are exactly the per-field errors of the list fields |
| Validate.MissingFieldsEmpty | backend/app/llm/validate.py:13-16 | no field missing means no error |
| Validate.ItemErrorsEmpty | backend/app/llm/validate.py:36-38 | all items objects means no error |
| Validate.ListFieldErrorsEmpty | backend/app/llm/validate.py:30-38 | no per-field error means no list-field error |
| Validate.MissingFieldsEmptyMeans | backend/app/llm/validate.py:13-16 | no missing-field error means every required field is present |
| Validate.ListFieldErrorsEmptyMeans | backend/app/llm/validate.py:30-38 | no list-field error means no per-field error |
| Validate.FieldErrorsEmptyMeans | backend/app/llm/validate.py:32-38 | a present field without errors is a list of objects |
| Validate.NoErrorsWhenWellStructured | backend/app/llm/validate.py:6-40 | a well-structured report has no structure errors |
| Validate.WellStructuredWhenNoErrors | backend/app/llm/validate.py:6-40 | a report without structure errors is well structured |
| Validate.StructureValidIff | backend/app/llm/validate.py:6-40 | there are no structure errors if and only if all required fields are present, the summary is an object with high_level and a valid tone, and every present list field is a list of objects |
| Validate.ListFieldErrorsKinds | backend/app/llm/validate.py:30-38 | list fields report only not-a-list and item errors |
| Validate.StructureErrorsMissing | backend/app/llm/validate.py:13-16 | missing-field errors are reported exactly for the absent required fields, and all of them come first |
| Validate.StructureErrorsItems | backend/app/llm/validate.py:30-38 | an item error names exactly a present list field whose item at that index is not an object |
| Validate.CheckEvidence | backend/app/llm/validate.py:56-78 | check_evidence classifies one item as specified |
| Validate.CoverItemsCrashStays | backend/app/llm/validate.py:80-98 | a crash on an item ends the whole coverage check with that crash |
| Validate.CoverSectionsCrashStays | backend/app/llm/validate.py:80-98 | a crash in a section ends the whole coverage check |
| Validate.CoverSectionItems | backend/app/llm/validate.py:80-98 | the loop over a section's items tallies as specified |
| Validate.ValidateEvidenceCoverage | backend/app/llm/validate.py:43-103 | validate_evidence_coverage returns the specified metrics, or the crash |
| Validate.TruncateSpec | backend/app/llm/validate.py:76 | claims of at most 100 characters are kept; longer ones become their first 100 characters and "...", so details never exceed 103 characters |
| Validate.CoverItemsOk | backend/app/llm/validate.py:61-78 | the tally stays consistent: total = with + without, one detail per claim without evidence, each at most 103 characters |
| Validate.CoverSectionsOk | backend/app/llm/validate.py:80-98 | the tally over all sections stays consistent |
| Validate.CoverageCounts | backend/app/llm/validate.py:43-103 | total = with + without; one detail per uncovered claim, each at most 103 characters; the rate lies in [0, 1] and is 1 exactly when there are claims and all are covered |
| Validate.RateBounds | backend/app/llm/validate.py:100-101 | a part over a total lies in [0, 1] and is 1 exactly when the part is the whole of a positive total |
| Validate.CoverItemsCrashIff | backend/app/llm/validate.py:56-66 | the coverage of a section crashes exactly when some item is not an object, or has a truthy claim value that is not a string |
| Validate.CoverSectionsCrashIff | backend/app/llm/validate.py:80-98 | the coverage over the sections crashes exactly when one of them holds a bad item |
| Validate.CoverageCrashIff | backend/app/llm/validate.py:43-103 | validate_evidence_coverage raises exactly when a claim section list holds a bad item |
| Validate.CheckCitations | backend/app/llm/validate.py:118-126 | check_citations counts as specified |
| Validate.CiteItemsCrashStays | backend/app/llm/validate.py:128-146 | a crash on an item ends the citation count |
| Validate.CiteSectionsCrashStays | backend/app/llm/validate.py:128-146 | a crash in a section ends the citation count |
| Validate.CiteSectionItems | backend/app/llm/validate.py:128-146 | the loop over a section's items counts as specified |
| Validate.ValidateCitationFormat | backend/app/llm/validate.py:106-151 | validate_citation_format returns the specified metrics, or the crash |
| Validate.CiteFieldsOk | backend/app/llm/validate.py:118-126 | each item adds at most one count per evidence field, and total = cited + uncited |
| Validate.CiteItemsOk | backend/app/llm/validate.py:128-146 | total = cited + uncited after a section |
| Validate.CiteSectionsOk | backend/app/llm/validate.py:128-146 | total = cited + uncited after all sections |
| Validate.CitationCounts | backend/app/llm/validate.py:106-151 | total = cited + uncited; the rate lies in [0, 1] and is 1 exactly when there is evidence and all of it is cited |
| Validate.CiteItemsCrashIff | backend/app/llm/validate.py:118-120 | the citation count of a section crashes exactly when some item is not an object |
| Validate.CiteSectionsCrashIff | backend/app/llm/validate.py:128-146 | the citation count over the sections crashes exactly when one holds a non-object item |
| Validate.CitationCrashIff | backend/app/llm/validate.py:106-151 | validate_citation_format raises exactly when a claim section list holds a non-object, and then the coverage check raises too |
| Validate.EvaluateReport | backend/app/llm/validate.py:154-203 | evaluate_report returns the specified evaluation, or the crash of its checks |
| Validate.Recommend | backend/app/llm/validate.py:172-191 | the recommendations are the specified ones |
| Validate.OverallScore | backend/app/llm/validate.py:193-199 | the score is the specified weighted sum |
| Validate.EvaluationScore | backend/app/llm/validate.py:154-203 | is_valid holds exactly for well-structured reports; the score lies in [0, 1] and is 1 exactly when the report is valid, all of at least one claim are covered and all of at least one evidence field are cited |
| Validate.RecommendationsParts | backend/app/llm/validate.py:172-191 | the recommendations are the four conditional parts in the source's order |
| Validate.RecommendationsRanked | backend/app/llm/validate.py:172-191 | recommendations appear in the fixed order structure, coverage, missing evidence, citation, each at most once |
| Validate.RecommendationsWhen | backend/app/llm/validate.py:172-191 | each recommendation appears exactly under its condition: invalid structure; coverage below 0.9 with claims; citation rate below 0.5 with evidence |
| Validate.RecommendationsMissingEvidence | backend/app/llm/validate.py:181-184 | the missing-evidence recommendation appears exactly when some claim lacks evidence, and names their number |
| Validate.RankedAppend | backend/app/llm/validate.py:172-191 | appending a later-ranked recommendation keeps the order |
| Validate.EvaluationRecommendations | backend/app/llm/validate.py:154-203 | an evaluation's recommendations are ranked, ask to fix the structure exactly when it is invalid, and report missing evidence exactly when some claim lacks it |
| Validate.EvaluationCrashIff | backend/app/llm/validate.py:154-161 | evaluate_report raises exactly when a claim section list holds a bad item |
| RoutesReport.LookupSpec | backend/app/api/routes_report.py:30-36 | the cache lookup finds a report exactly when a row has the key, and returns that row's data |
| RoutesReport.LookupAppend | backend/app/api/routes_report.py:47-54 | adding a row under a new key changes the lookup only for that key |
| RoutesReport.ErrorForSpec | backend/app/api/routes_report.py:56-70 | a ValueError whose message mentions the missing current document is a 404 with the message; anything else is a 500 with the prefix, the exception type and the message |
| RoutesReport.ReportCache.constructor | backend/app/models.py:49-60 | an empty reports cache has unique keys |
| RoutesReport.ReportCache.CreateReport | backend/app/api/routes_report.py:23-72 | the route answers and updates the cache exactly as CreateReportSpec says, keeping cache keys unique |
| RoutesReport.CreateReportKeepsUnique | backend/app/models.py:60 | cache keys stay unique; the cache either stays as it was or gains one row for a key it lacked, holding the returned report; a failure never writes |
| RoutesReport.CreateReportHit | backend/app/api/routes_report.py:36-38 | a cached key is answered from the cache without generating or writing |
| RoutesReport.CreateReportTwice | backend/app/api/routes_report.py:23-72 | after a successful request, repeating it returns the same report and changes nothing, whatever the generator would answer |
| RoutesReport.CreateReportNotFound | backend/app/api/routes_report.py:56-59 | an uncached request for a missing document is a 404 "Current quarter document not found." and writes nothing |
| RoutesEvaluation.EvaluateEndpointSpec | backend/app/api/routes_evaluation.py:19-66 | a success carries the report and its evaluation; once a report is obtained the route fails exactly when it has a bad claim section item, and then with a 500 whose detail is "Evaluation failed: AttributeError: " and the crash message |
| RoutesEvaluation.EvaluateEndpointHit | backend/app/api/routes_evaluation.py:35-38 | a cached key returns the cached report, independently of documents, chunks and generator |
| RoutesEvaluation.EvaluateEndpointNotFound | backend/app/api/routes_evaluation.py:54-57 | an uncached request for a missing document is a 404 |
| RoutesEvaluation.EvaluateAfterCreate | backend/app/api/routes_evaluation.py:35-47 | after POST /report succeeds, the evaluation route works on the report it stored |

## Left out

- Unicode case mapping: `Text.Lower` and `Text.Upper` map ASCII letters only; Python's full Unicode tables (including mappings that change the length) are not modelled.
- Database collation: `ORDER BY section` compares code points, as the C collation does.
- Floating point: rates and scores are exact `real`s. Rounding, and the `:.1%` formatting in recommendation texts, are not modelled; recommendations carry the rate as a value.
- Text of error messages: structure errors and recommendations are datatype values, not formatted strings; `InvalidTone` carries the JSON value rather than its Python `repr`.
- External services: the embedding model, the pgvector `<=>` operator, the generative model and `json.loads` are parameters. Their failures are modelled only where the core reacts to them: the generator's exception, the JSON decode error, and a vector count that does not match.
- The JSON schema and prompt texts sent to the generator are not part of this model; the payload is modelled without them.
- Chunker.ChunkSection: the source loop can run forever; the model bounds it by `fuel` and reports `OutOfFuel` instead.
- Chunker.ChunkSection: `max_chars` is a natural number; a negative value (never passed by the source's callers) would trigger Python's negative slicing.
- Ingest.CreateChunksForDocument: the commit can fail only through the unique (document, section, index) index. The session, `refresh` and database-assigned UUIDs are modelled by a counter of fresh ids.
- VectorStore.EmbedChunksForDocument: when `zip(strict=True)` fails, the in-memory assignments already made to the session's objects are not modelled; the table is left as committed.
- VectorStore.EmbedChunksForDocument: `batch_size` is a natural number; a negative `LIMIT` is not modelled.
- Retriever.RetrieveTopK: `k` is a natural number; a negative `LIMIT`, which the database rejects, is not modelled.
- Retriever.RetrieveTopKOrder: the database's order among chunks at equal distance is unspecified; the model uses a stable sort, so ties keep table order.
- ReportGeneration.GetDocumentSpec: `.first()` without `ORDER BY` returns some matching row; the model returns the first in table order, which is the only one under the unique index.
- ReportGeneration.ResponseTextSpec: a `content` of None in a candidate is treated like one with no parts; the repr of the full response in the empty-text error is a parameter string.
- RoutesReport.ReportCache.CreateReport: the commit's outcome is a parameter, so a failed commit is modelled without its cause.
- RoutesReport.ReportCache.CreateReport: the unique index treats NULL as distinct in PostgreSQL; the model keeps cache keys unique whatever `prev_quarter` is, which matches the route since it looks the key up before inserting.
- Concurrency between requests, logging, `GET /report/health`, and the FastAPI and SQLAlchemy plumbing are not part of this model.
