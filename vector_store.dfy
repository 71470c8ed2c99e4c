/**
 * embed_chunks_for_document (backend/app/rag/vector_store.py): repeatedly take up to
 * `batchSize` chunks of one document that have no embedding yet, in (section, index)
 * order, embed their texts in one call, store the vectors, and count them.
 */
module VectorStore {
  import opened Wrappers
  import opened Text
  import opened Sorting
  import opened Models

  /** The embedding model: a vector per text, or however many vectors it returns. */
  type Embedder = seq<string> -> seq<Vector>

  /** zip(batch, vectors, strict=True) raises ValueError when the model returned a
      different number of vectors than it was given texts. */
  datatype EmbedError = LengthMismatch

  const DefaultBatchSize: nat := 32

  /** A chunk selected by the batch query, with its position in the table. */
  datatype Slot = Slot(pos: nat, chunk: Chunk)

  /** A chunk of the document that has no embedding yet. */
  predicate IsPending(c: Chunk, documentId: Id) {
    c.documentId == documentId && c.embedding.None?
  }

  /** ORDER BY section ASC, chunk_index ASC. */
  predicate SlotLe(a: Slot, b: Slot) {
    if a.chunk.section == b.chunk.section then a.chunk.chunkIndex <= b.chunk.chunkIndex
    else StrLe(a.chunk.section, b.chunk.section)
  }

  lemma SlotLeTotalPreorder()
    ensures TotalPreorder(SlotLe)
  {
    forall a: Slot, b: Slot ensures SlotLe(a, b) || SlotLe(b, a) {
      StrLeTotal(a.chunk.section, b.chunk.section);
    }
    forall a: Slot, b: Slot, c: Slot | SlotLe(a, b) && SlotLe(b, c) ensures SlotLe(a, c) {
      var sa, sb, sc := a.chunk.section, b.chunk.section, c.chunk.section;
      if sa != sb && sb != sc {
        StrLeTransitive(sa, sb, sc);
        if sa == sc {
          StrLeAntisymmetric(sa, sb);
        }
      }
    }
  }

  /** The document's chunks without an embedding, in table order. */
  function PendingSlots(rows: seq<Chunk>, documentId: Id): seq<Slot> {
    if rows == [] then []
    else
      var n := |rows| - 1;
      PendingSlots(rows[..n], documentId) + (if IsPending(rows[n], documentId) then [Slot(n, rows[n])] else [])
  }

  /** The positions of the document's chunks without an embedding. */
  ghost function PendingSet(rows: seq<Chunk>, documentId: Id): set<nat> {
    set p | 0 <= p < |rows| && IsPending(rows[p], documentId)
  }

  /** The batch query: at most `batchSize` pending chunks, least (section, index) first. */
  function Batch(rows: seq<Chunk>, documentId: Id, batchSize: nat): seq<Slot> {
    Take(SortBy(PendingSlots(rows, documentId), SlotLe), batchSize)
  }

  /** The texts sent to the embedding model, in batch order. */
  function Texts(batch: seq<Slot>): (texts: seq<string>)
    ensures |texts| == |batch|
  {
    seq(|batch|, j requires 0 <= j < |batch| => batch[j].chunk.text)
  }

  ghost predicate InTable(batch: seq<Slot>, rows: seq<Chunk>) {
    forall j :: 0 <= j < |batch| ==> batch[j].pos < |rows|
  }

  /** Store the i-th vector as the embedding of the i-th chunk of the batch. */
  function ApplyBatch(rows: seq<Chunk>, batch: seq<Slot>, vectors: seq<Vector>): (r: seq<Chunk>)
    requires |vectors| == |batch| && InTable(batch, rows)
    ensures |r| == |rows|
    decreases |batch|
  {
    if batch == [] then rows
    else
      var p := batch[0].pos;
      ApplyBatch(rows[p := rows[p].(embedding := Some(vectors[0]))], batch[1..], vectors[1..])
  }

  /** What one turn of the loop does to the table. */
  datatype Turn = Empty | Mismatched | Advanced(count: nat, rows: seq<Chunk>)

  /** One turn: select the batch; stop when it is empty or when the model returns a
      different number of vectors; otherwise store them. */
  function NextTurn(rows: seq<Chunk>, documentId: Id, batchSize: nat, embed: Embedder): (t: Turn)
    ensures t.Advanced? ==> |PendingSet(t.rows, documentId)| < |PendingSet(rows, documentId)|
  {
    var batch := Batch(rows, documentId, batchSize);
    if batch == [] then Empty
    else
      var vectors := embed(Texts(batch));
      if |vectors| != |batch| then Mismatched
      else
        BatchStoreShrinks(rows, documentId, batchSize, vectors);
        Advanced(|batch|, ApplyBatch(rows, batch, vectors))
  }

  /** Every turn that stores leaves fewer chunks pending. */
  ghost predicate Shrinks(turn: seq<Chunk> -> Turn, documentId: Id) {
    forall rows :: turn(rows).Advanced? ==> |PendingSet(turn(rows).rows, documentId)| < |PendingSet(rows, documentId)|
  }

  /** The turns of embed_chunks_for_document as a function of the table. */
  function Turner(documentId: Id, batchSize: nat, embed: Embedder): (turn: seq<Chunk> -> Turn)
    ensures Shrinks(turn, documentId)
  {
    rows => NextTurn(rows, documentId, batchSize, embed)
  }

  /** `turn` takes the turns of embed_chunks_for_document. */
  ghost predicate TurnsAs(turn: seq<Chunk> -> Turn, documentId: Id, batchSize: nat, embed: Embedder) {
    forall rows {:trigger NextTurn(rows, documentId, batchSize, embed)} :: turn(rows) == NextTurn(rows, documentId, batchSize, embed)
  }

  lemma TurnerTurns(documentId: Id, batchSize: nat, embed: Embedder)
    ensures TurnsAs(Turner(documentId, batchSize, embed), documentId, batchSize, embed)
  {
  }

  lemma TurnsAsShrinks(turn: seq<Chunk> -> Turn, documentId: Id, batchSize: nat, embed: Embedder)
    requires TurnsAs(turn, documentId, batchSize, embed)
    ensures Shrinks(turn, documentId)
  {
    forall rows ensures turn(rows).Advanced? ==> |PendingSet(turn(rows).rows, documentId)| < |PendingSet(rows, documentId)| {
      assert turn(rows) == NextTurn(rows, documentId, batchSize, embed);
    }
  }

  /** Any function taking the same turns makes the same run. */
  lemma {:induction false} RunAgrees(turn: seq<Chunk> -> Turn, documentId: Id, batchSize: nat, embed: Embedder, rows: seq<Chunk>)
    requires TurnsAs(turn, documentId, batchSize, embed) && Shrinks(turn, documentId)
    ensures Run(turn, documentId, rows) == EmbedRun(rows, documentId, batchSize, embed)
    decreases |PendingSet(rows, documentId)|
  {
    EmbedRunUnfold(rows, documentId, batchSize, embed);
    var t := NextTurn(rows, documentId, batchSize, embed);
    assert turn(rows) == t;
    if t.Advanced? {
      RunAgrees(turn, documentId, batchSize, embed, t.rows);
    }
  }

  /** Turns repeated until one stores nothing: the outcome and the final table. */
  function Run(turn: seq<Chunk> -> Turn, documentId: Id, rows: seq<Chunk>): (Result<nat, EmbedError>, seq<Chunk>)
    requires Shrinks(turn, documentId)
    decreases |PendingSet(rows, documentId)|
  {
    match turn(rows)
    case Empty => (Success(0), rows)
    case Mismatched => (Failure(LengthMismatch), rows)
    case Advanced(n, next) => AddCount(n, Run(turn, documentId, next))
  }

  /** The outcome of the loop with the final table: on a length mismatch the batches before
      it are stored and the current one is not. */
  function EmbedRun(rows: seq<Chunk>, documentId: Id, batchSize: nat, embed: Embedder)
    : (Result<nat, EmbedError>, seq<Chunk>)
  {
    Run(Turner(documentId, batchSize, embed), documentId, rows)
  }

  /** The run is its first turn followed by the run from the table that turn left. */
  lemma EmbedRunUnfold(rows: seq<Chunk>, documentId: Id, batchSize: nat, embed: Embedder)
    ensures EmbedRun(rows, documentId, batchSize, embed) ==
      match NextTurn(rows, documentId, batchSize, embed)
      case Empty => (Success(0), rows)
      case Mismatched => (Failure(LengthMismatch), rows)
      case Advanced(n, next) => AddCount(n, EmbedRun(next, documentId, batchSize, embed))
  {
    assert Turner(documentId, batchSize, embed)(rows) == NextTurn(rows, documentId, batchSize, embed);
  }

  /** Storing a non-empty batch takes chunks of the table and leaves fewer pending. */
  lemma BatchStoreShrinks(rows: seq<Chunk>, documentId: Id, batchSize: nat, vectors: seq<Vector>)
    requires Batch(rows, documentId, batchSize) != []
    requires |vectors| == |Batch(rows, documentId, batchSize)|
    ensures InTable(Batch(rows, documentId, batchSize), rows)
    ensures |PendingSet(ApplyBatch(rows, Batch(rows, documentId, batchSize), vectors), documentId)|
          < |PendingSet(rows, documentId)|
  {
    BatchFacts(rows, documentId, batchSize);
    ApplyBatchShrinksPending(rows, documentId, Batch(rows, documentId, batchSize), vectors);
  }

  /** Add the chunks of one batch to the count of a successful rest of the run. */
  function AddCount(n: nat, run: (Result<nat, EmbedError>, seq<Chunk>)): (Result<nat, EmbedError>, seq<Chunk>) {
    (if run.0.Success? then Success(n + run.0.value) else run.0, run.1)
  }

  /**
   * The loop of embed_chunks_for_document. The table is the database after each commit;
   * the chunks of a batch whose vectors do not match it in number are left as they were.
   */
  method EmbedChunksForDocument(table: ChunkTable, documentId: Id, batchSize: nat, embed: Embedder)
    returns (r: Result<nat, EmbedError>)
    requires table.Valid()
    modifies table
    ensures table.Valid() && table.nextId == old(table.nextId)
    ensures r == EmbedRun(old(table.rows), documentId, batchSize, embed).0
    ensures table.rows == EmbedRun(old(table.rows), documentId, batchSize, embed).1
  {
    // The proof follows the run through `turn`, any function that takes the same turns.
    TurnerTurns(documentId, batchSize, embed);
    ghost var turn: seq<Chunk> -> Turn :| TurnsAs(turn, documentId, batchSize, embed);
    TurnsAsShrinks(turn, documentId, batchSize, embed);
    RunAgrees(turn, documentId, batchSize, embed, table.rows);
    var total: nat := 0;
    while true
      invariant table.Valid() && table.nextId == old(table.nextId)
      invariant Run(turn, documentId, old(table.rows)) == AddCount(total, Run(turn, documentId, table.rows))
      decreases |PendingSet(table.rows, documentId)|
    {
      ghost var rows := table.rows;
      var step := EmbedNextBatch(table, documentId, batchSize, embed, turn);
      match step
      case NoneLeft =>
        RunStops(turn, documentId, rows, total);
        return Success(total);
      case Mismatch =>
        RunStops(turn, documentId, rows, total);
        return Failure(LengthMismatch);
      case Stored(n) =>
        RunAdvances(turn, documentId, rows, n, table.rows);
        AddCountTwice(total, n, Run(turn, documentId, table.rows));
        total := total + n;
    }
  }

  /** Counting `total` stored chunks and then `n` more. */
  lemma AddCountTwice(total: nat, n: nat, run: (Result<nat, EmbedError>, seq<Chunk>))
    ensures AddCount(total, AddCount(n, run)) == AddCount(total + n, run)
  {
  }

  /** A turn that stores nothing ends the run there. */
  lemma RunStops(turn: seq<Chunk> -> Turn, documentId: Id, rows: seq<Chunk>, total: nat)
    requires Shrinks(turn, documentId) && !turn(rows).Advanced?
    ensures Run(turn, documentId, rows).1 == rows
    ensures AddCount(total, Run(turn, documentId, rows)).0 ==
      if turn(rows).Empty? then Success(total) else Failure(LengthMismatch)
  {
  }

  /** A turn that stores `n` chunks adds them to the count of the rest of the run. */
  lemma RunAdvances(turn: seq<Chunk> -> Turn, documentId: Id, rows: seq<Chunk>, n: nat, next: seq<Chunk>)
    requires Shrinks(turn, documentId) && turn(rows) == Advanced(n, next)
    ensures Run(turn, documentId, rows) == AddCount(n, Run(turn, documentId, next))
  {
  }

  /** What one turn of the loop did. */
  datatype BatchStep = NoneLeft | Mismatch | Stored(count: nat)

  /**
   * One turn of the loop: select the batch, stop when it is empty, embed its texts, and
   * store the vectors unless their number differs from the batch's.
   */
  method EmbedNextBatch(table: ChunkTable, documentId: Id, batchSize: nat, embed: Embedder,
                        ghost turn: seq<Chunk> -> Turn)
    returns (step: BatchStep)
    requires table.Valid() && TurnsAs(turn, documentId, batchSize, embed)
    modifies table
    ensures table.Valid() && table.nextId == old(table.nextId)
    ensures step.NoneLeft? ==> turn(old(table.rows)) == Empty && table.rows == old(table.rows)
    ensures step.Mismatch? ==> turn(old(table.rows)) == Mismatched && table.rows == old(table.rows)
    ensures step.Stored? ==> turn(old(table.rows)) == Advanced(step.count, table.rows)
  {
    assert turn(table.rows) == NextTurn(table.rows, documentId, batchSize, embed);
    var batch := Batch(table.rows, documentId, batchSize);
    if batch == [] {
      return NoneLeft;
    }
    var vectors := embed(Texts(batch));
    if |vectors| != |batch| {
      return Mismatch;
    }
    EmbedStep(table.rows, documentId, batchSize, embed, table.nextId);
    AssignVectors(table, batch, vectors);
    return Stored(|batch|);
  }

  /** Storing a batch keeps the table valid: its chunk ids and unique keys are unchanged. */
  lemma EmbedStep(rows: seq<Chunk>, documentId: Id, batchSize: nat, embed: Embedder, nextId: Id)
    requires ChunksUnique(rows) && forall p :: 0 <= p < |rows| ==> rows[p].id < nextId
    requires Batch(rows, documentId, batchSize) != []
    requires |embed(Texts(Batch(rows, documentId, batchSize)))| == |Batch(rows, documentId, batchSize)|
    ensures var batch := Batch(rows, documentId, batchSize);
      var vectors := embed(Texts(batch));
      && InTable(batch, rows)
      && var next := ApplyBatch(rows, batch, vectors);
      && ChunksUnique(next) && (forall p :: 0 <= p < |next| ==> next[p].id < nextId)
  {
    var batch := Batch(rows, documentId, batchSize);
    var vectors := embed(Texts(batch));
    BatchFacts(rows, documentId, batchSize);
    ApplyBatchOnlyEmbeds(rows, batch, vectors);
    OnlyEmbeddingsKeepValid(rows, ApplyBatch(rows, batch, vectors), nextId);
  }

  /** `for chunk, vec in zip(batch, vectors): chunk.embedding = vec`. */
  method AssignVectors(table: ChunkTable, batch: seq<Slot>, vectors: seq<Vector>)
    requires |vectors| == |batch| && InTable(batch, table.rows)
    modifies table
    ensures table.rows == ApplyBatch(old(table.rows), batch, vectors)
    ensures table.nextId == old(table.nextId)
  {
    var j := 0;
    while j < |batch|
      invariant 0 <= j <= |batch| && |table.rows| == |old(table.rows)|
      invariant table.nextId == old(table.nextId)
      invariant ApplyBatch(table.rows, batch[j..], vectors[j..]) == ApplyBatch(old(table.rows), batch, vectors)
    {
      var p := batch[j].pos;
      assert batch[j..][0] == batch[j] && batch[j..][1..] == batch[j + 1..];
      assert vectors[j..][0] == vectors[j] && vectors[j..][1..] == vectors[j + 1..];
      table.rows := table.rows[p := table.rows[p].(embedding := Some(vectors[j]))];
      j := j + 1;
    }
  }

  /** The pending slots are exactly the document's chunks without an embedding, each with
      its position, in increasing position order. */
  lemma {:induction false} PendingSlotsSpec(rows: seq<Chunk>, documentId: Id)
    ensures forall s :: s in PendingSlots(rows, documentId) ==>
              s.pos < |rows| && s.chunk == rows[s.pos] && IsPending(rows[s.pos], documentId)
    ensures forall p :: 0 <= p < |rows| && IsPending(rows[p], documentId) ==>
              Slot(p, rows[p]) in PendingSlots(rows, documentId)
    ensures forall i, j :: 0 <= i < j < |PendingSlots(rows, documentId)| ==>
              PendingSlots(rows, documentId)[i].pos < PendingSlots(rows, documentId)[j].pos
  {
    if rows != [] {
      var n := |rows| - 1;
      var init := rows[..n];
      PendingSlotsSpec(init, documentId);
      var prev := PendingSlots(init, documentId);
      var ps := PendingSlots(rows, documentId);
      forall s | s in ps ensures s.pos < |rows| && s.chunk == rows[s.pos] && IsPending(rows[s.pos], documentId) {
        if s in prev {
          assert init[s.pos] == rows[s.pos];
        }
      }
      forall p | 0 <= p < |rows| && IsPending(rows[p], documentId) ensures Slot(p, rows[p]) in ps {
        if p < n {
          assert init[p] == rows[p];
          assert Slot(p, rows[p]) in prev;
        }
      }
      forall i, j | 0 <= i < j < |ps| ensures ps[i].pos < ps[j].pos {
        if j < |prev| {
          assert ps[i] == prev[i] && ps[j] == prev[j];
        } else {
          assert ps[i] == prev[i] && ps[i] in prev;
        }
      }
    }
  }

  /** The positions of the slots of a batch. */
  ghost function Positions(batch: seq<Slot>): set<nat> {
    set j | 0 <= j < |batch| :: batch[j].pos
  }

  /** The pending slots in (section, index) order: a sorted permutation of the pending
      slots, so each pending chunk occurs once, with its position. */
  lemma SortedPendingFacts(rows: seq<Chunk>, documentId: Id)
    ensures var sorted := SortBy(PendingSlots(rows, documentId), SlotLe);
      && multiset(sorted) == multiset(PendingSlots(rows, documentId))
      && SortedBy(sorted, SlotLe)
      && |sorted| == |PendingSet(rows, documentId)|
      && (forall j :: 0 <= j < |sorted| ==>
            sorted[j].pos < |rows| && sorted[j].chunk == rows[sorted[j].pos]
            && IsPending(rows[sorted[j].pos], documentId))
      && (forall i, j :: 0 <= i < j < |sorted| ==> sorted[i].pos != sorted[j].pos)
  {
    var ps := PendingSlots(rows, documentId);
    PendingSlotsSpec(rows, documentId);
    PendingCount(rows, documentId);
    SlotLeTotalPreorder();
    var sorted := SortBy(ps, SlotLe);
    SortBySortedPermutation(ps, SlotLe);
    assert Distinct(ps) by {
      forall i, j | 0 <= i < j < |ps| ensures ps[i] != ps[j] {
      }
    }
    PermutationKeepsDistinct(ps, sorted);
    forall j | 0 <= j < |sorted|
      ensures sorted[j].pos < |rows| && sorted[j].chunk == rows[sorted[j].pos]
      ensures IsPending(rows[sorted[j].pos], documentId)
    {
      assert sorted[j] in multiset(ps);
    }
  }

  /**
   * The batch query selects pending chunks of the document, each at most once, in
   * (section, index) order: as many as `batchSize` allows, and every pending chunk left
   * out is not below any chunk taken.
   */
  lemma BatchFacts(rows: seq<Chunk>, documentId: Id, batchSize: nat)
    ensures var batch := Batch(rows, documentId, batchSize);
      && InTable(batch, rows)
      && (forall j :: 0 <= j < |batch| ==>
            batch[j].chunk == rows[batch[j].pos] && IsPending(rows[batch[j].pos], documentId))
      && (forall i, j :: 0 <= i < j < |batch| ==> batch[i].pos != batch[j].pos)
      && SortedBy(batch, SlotLe)
      && |batch| == (if batchSize < |PendingSet(rows, documentId)| then batchSize else |PendingSet(rows, documentId)|)
  {
    var sorted := SortBy(PendingSlots(rows, documentId), SlotLe);
    SortedPendingFacts(rows, documentId);
    var batch := Take(sorted, batchSize);
    forall j | 0 <= j < |batch|
      ensures batch[j].pos < |rows| && batch[j].chunk == rows[batch[j].pos]
      ensures IsPending(rows[batch[j].pos], documentId)
    {
      assert batch[j] == sorted[j];
    }
    forall i, j | 0 <= i < j < |batch| ensures batch[i].pos != batch[j].pos && SlotLe(batch[i], batch[j]) {
      assert batch[i] == sorted[i] && batch[j] == sorted[j];
    }
  }

  /** Every pending chunk the batch query leaves out is not below any chunk it takes. */
  lemma BatchTakesLeast(rows: seq<Chunk>, documentId: Id, batchSize: nat, p: nat)
    requires p in PendingSet(rows, documentId)
    ensures var batch := Batch(rows, documentId, batchSize);
      p !in Positions(batch) ==> forall j :: 0 <= j < |batch| ==> SlotLe(batch[j], Slot(p, rows[p]))
  {
    var ps := PendingSlots(rows, documentId);
    var sorted := SortBy(ps, SlotLe);
    var batch := Batch(rows, documentId, batchSize);
    PendingSlotsSpec(rows, documentId);
    SortedPendingFacts(rows, documentId);
    TakeSortedKeepsLeast(sorted, batchSize, SlotLe);
    var s := Slot(p, rows[p]);
    if p !in Positions(batch) {
      assert s in multiset(sorted);
      assert s !in batch by {
        forall j | 0 <= j < |batch| ensures batch[j] != s {
          assert batch[j].pos in Positions(batch);
        }
      }
      assert sorted == batch + sorted[|batch|..];
      assert s in sorted[|batch|..];
      forall j | 0 <= j < |batch| ensures SlotLe(batch[j], s) {
        assert batch[j] in Take(sorted, batchSize);
      }
    }
  }

  /** There are as many pending slots as pending positions. */
  lemma PendingCount(rows: seq<Chunk>, documentId: Id)
    ensures |PendingSlots(rows, documentId)| == |PendingSet(rows, documentId)|
  {
    var ps := PendingSlots(rows, documentId);
    PendingSlotsSpec(rows, documentId);
    assert PendingSet(rows, documentId) == set j | 0 <= j < |ps| :: ps[j].pos by {
      forall p | p in PendingSet(rows, documentId) ensures exists j :: 0 <= j < |ps| && ps[j].pos == p {
        assert Slot(p, rows[p]) in ps;
      }
    }
    DistinctPositionsCount(ps);
  }

  /** Slots with distinct positions have as many positions as slots. */
  lemma {:induction false} DistinctPositionsCount(batch: seq<Slot>)
    requires forall i, j :: 0 <= i < j < |batch| ==> batch[i].pos != batch[j].pos
    ensures |Positions(batch)| == |batch|
  {
    if batch != [] {
      var n := |batch| - 1;
      var init := batch[..n];
      assert forall i, j :: 0 <= i < j < |init| ==> init[i].pos != init[j].pos;
      DistinctPositionsCount(init);
      assert Positions(batch) == Positions(init) + {batch[n].pos} by {
        forall p | p in Positions(batch) ensures p in Positions(init) + {batch[n].pos} {
          var j :| 0 <= j < |batch| && batch[j].pos == p;
          if j < n {
            assert init[j] == batch[j];
          }
        }
        forall p | p in Positions(init) ensures p in Positions(batch) {
          var j :| 0 <= j < |init| && init[j].pos == p;
          assert batch[j] == init[j];
        }
      }
      assert batch[n].pos !in Positions(init) by {
        forall j | 0 <= j < |init| ensures init[j].pos != batch[n].pos {
          assert init[j] == batch[j];
        }
      }
    }
  }

  /**
   * Storing a batch changes embeddings only: the chunk at the position of the j-th slot
   * gets the j-th vector, and every other chunk is unchanged.
   */
  lemma {:induction false} ApplyBatchOnlyEmbeds(rows: seq<Chunk>, batch: seq<Slot>, vectors: seq<Vector>)
    requires |vectors| == |batch| && InTable(batch, rows)
    requires forall i, j :: 0 <= i < j < |batch| ==> batch[i].pos != batch[j].pos
    ensures var r := ApplyBatch(rows, batch, vectors);
      && (forall p :: 0 <= p < |rows| ==> r[p] == rows[p].(embedding := r[p].embedding))
      && (forall p :: 0 <= p < |rows| && p !in Positions(batch) ==> r[p] == rows[p])
      && (forall j :: 0 <= j < |batch| ==> r[batch[j].pos].embedding == Some(vectors[j]))
    decreases |batch|
  {
    if batch != [] {
      var p0 := batch[0].pos;
      var next := rows[p0 := rows[p0].(embedding := Some(vectors[0]))];
      var rest := batch[1..];
      assert forall i, j :: 0 <= i < j < |rest| ==> rest[i].pos != rest[j].pos;
      ApplyBatchOnlyEmbeds(next, rest, vectors[1..]);
      var r := ApplyBatch(rows, batch, vectors);
      assert r == ApplyBatch(next, rest, vectors[1..]);
      assert p0 !in Positions(rest) by {
        forall j | 0 <= j < |rest| ensures rest[j].pos != p0 {
          assert rest[j] == batch[j + 1];
        }
      }
      forall p | 0 <= p < |rows| && p !in Positions(batch) ensures r[p] == rows[p] {
        assert p != p0;
        assert p !in Positions(rest) by {
          forall j | 0 <= j < |rest| ensures rest[j].pos != p {
            assert rest[j] == batch[j + 1];
          }
        }
      }
      forall j | 0 <= j < |batch| ensures r[batch[j].pos].embedding == Some(vectors[j]) {
        if j > 0 {
          assert batch[j] == rest[j - 1];
        }
      }
    }
  }

  /** Rows that differ only in embeddings keep the table's unique keys and fresh ids. */
  lemma OnlyEmbeddingsKeepValid(rows: seq<Chunk>, rows': seq<Chunk>, nextId: Id)
    requires |rows'| == |rows| && forall p :: 0 <= p < |rows| ==> rows'[p] == rows[p].(embedding := rows'[p].embedding)
    requires ChunksUnique(rows) && forall p :: 0 <= p < |rows| ==> rows[p].id < nextId
    ensures ChunksUnique(rows') && forall p :: 0 <= p < |rows'| ==> rows'[p].id < nextId
  {
    forall i, j | 0 <= i < j < |rows'| ensures rows'[i].id != rows'[j].id && ChunkKey(rows'[i]) != ChunkKey(rows'[j]) {
      assert rows'[i].id == rows[i].id && ChunkKey(rows'[i]) == ChunkKey(rows[i]);
      assert rows'[j].id == rows[j].id && ChunkKey(rows'[j]) == ChunkKey(rows[j]);
    }
  }

  /** Storing a non-empty batch of pending chunks removes exactly them from the pending
      set, so the pending set shrinks by the batch size. */
  lemma ApplyBatchShrinksPending(rows: seq<Chunk>, documentId: Id, batch: seq<Slot>, vectors: seq<Vector>)
    requires |vectors| == |batch| && InTable(batch, rows)
    requires forall i, j :: 0 <= i < j < |batch| ==> batch[i].pos != batch[j].pos
    requires forall j :: 0 <= j < |batch| ==> IsPending(rows[batch[j].pos], documentId)
    ensures PendingSet(ApplyBatch(rows, batch, vectors), documentId) == PendingSet(rows, documentId) - Positions(batch)
    ensures |PendingSet(ApplyBatch(rows, batch, vectors), documentId)| == |PendingSet(rows, documentId)| - |batch|
  {
    var r := ApplyBatch(rows, batch, vectors);
    ApplyBatchOnlyEmbeds(rows, batch, vectors);
    DistinctPositionsCount(batch);
    assert PendingSet(r, documentId) == PendingSet(rows, documentId) - Positions(batch) by {
      forall p | p in Positions(batch) ensures p !in PendingSet(r, documentId) {
        var j :| 0 <= j < |batch| && batch[j].pos == p;
      }
    }
    assert Positions(batch) <= PendingSet(rows, documentId);
  }

  /** The run stores embeddings and nothing else, and only on chunks of the document that
      had none: other documents' chunks and chunks already embedded are unchanged. */
  lemma {:induction false} EmbedRunFrame(rows: seq<Chunk>, documentId: Id, batchSize: nat, embed: Embedder)
    ensures var final := EmbedRun(rows, documentId, batchSize, embed).1;
      && |final| == |rows|
      && (forall p :: 0 <= p < |rows| ==> final[p] == rows[p].(embedding := final[p].embedding))
      && (forall p :: 0 <= p < |rows| && !IsPending(rows[p], documentId) ==> final[p] == rows[p])
    decreases |PendingSet(rows, documentId)|
  {
    EmbedRunUnfold(rows, documentId, batchSize, embed);
    var batch := Batch(rows, documentId, batchSize);
    if batch != [] {
      var vectors := embed(Texts(batch));
      if |vectors| == |batch| {
        BatchFacts(rows, documentId, batchSize);
        var next := ApplyBatch(rows, batch, vectors);
        ApplyBatchShrinksPending(rows, documentId, batch, vectors);
        ApplyBatchOnlyEmbeds(rows, batch, vectors);
        EmbedRunFrame(next, documentId, batchSize, embed);
        forall p | 0 <= p < |rows| && !IsPending(rows[p], documentId) ensures p !in Positions(batch) {
          forall j | 0 <= j < |batch| ensures batch[j].pos != p {
          }
        }
      }
    }
  }

  /**
   * With a positive batch size a successful run leaves no chunk of the document without
   * an embedding, and returns the number of chunks that had none at the start.
   */
  lemma {:induction false} EmbedRunCompletes(rows: seq<Chunk>, documentId: Id, batchSize: nat, embed: Embedder)
    requires batchSize > 0
    ensures var (res, final) := EmbedRun(rows, documentId, batchSize, embed);
      res.Success? ==> PendingSet(final, documentId) == {} && res.value == |PendingSet(rows, documentId)|
    decreases |PendingSet(rows, documentId)|
  {
    EmbedRunUnfold(rows, documentId, batchSize, embed);
    var batch := Batch(rows, documentId, batchSize);
    BatchFacts(rows, documentId, batchSize);
    if batch != [] {
      var vectors := embed(Texts(batch));
      if |vectors| == |batch| {
        var next := ApplyBatch(rows, batch, vectors);
        ApplyBatchShrinksPending(rows, documentId, batch, vectors);
        EmbedRunCompletes(next, documentId, batchSize, embed);
      }
    }
  }

  /** With nothing pending the run returns 0 and changes nothing; in particular a second
      run after a successful one with a positive batch size is a no-op. */
  lemma NothingPendingIsNoOp(rows: seq<Chunk>, documentId: Id, batchSize: nat, embed: Embedder)
    requires PendingSet(rows, documentId) == {}
    ensures EmbedRun(rows, documentId, batchSize, embed) == (Success(0), rows)
  {
    EmbedRunUnfold(rows, documentId, batchSize, embed);
    BatchFacts(rows, documentId, batchSize);
  }

  lemma SecondRunIsNoOp(rows: seq<Chunk>, documentId: Id, batchSize: nat, embed: Embedder)
    requires batchSize > 0 && EmbedRun(rows, documentId, batchSize, embed).0.Success?
    ensures var final := EmbedRun(rows, documentId, batchSize, embed).1;
      EmbedRun(final, documentId, batchSize, embed) == (Success(0), final)
  {
    EmbedRunCompletes(rows, documentId, batchSize, embed);
    NothingPendingIsNoOp(EmbedRun(rows, documentId, batchSize, embed).1, documentId, batchSize, embed);
  }

  /** A batch size of 0 selects nothing (LIMIT 0): the run returns 0 at once, even with
      chunks still pending. */
  lemma ZeroBatchSizeDoesNothing(rows: seq<Chunk>, documentId: Id, embed: Embedder)
    ensures EmbedRun(rows, documentId, 0, embed) == (Success(0), rows)
  {
    EmbedRunUnfold(rows, documentId, 0, embed);
  }
}
