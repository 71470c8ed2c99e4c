/**
 * The stored entities (backend/app/models.py) as in-memory tables. Identifiers are
 * natural numbers handed out in sequence; the unique indexes of the schema become table
 * invariants.
 */
module Models {
  import opened Wrappers

  type Id = nat

  /** An embedding vector; its length and numeric type are those of the embedding model. */
  type Vector = seq<real>

  /** A transcript of one quarter of one ticker. */
  datatype Document = Document(id: Id, ticker: string, quarter: string, rawText: string)

  /** (ticker, quarter) is unique among documents: the index ix_documents_ticker_quarter. */
  ghost predicate DocumentsUnique(docs: seq<Document>) {
    forall i, j :: 0 <= i < j < |docs| ==>
      docs[i].id != docs[j].id && (docs[i].ticker, docs[i].quarter) != (docs[j].ticker, docs[j].quarter)
  }

  /** A stored chunk; `embedding` is None until the embedding step fills it in. */
  datatype Chunk = Chunk(id: Id, documentId: Id, section: string, speaker: Option<string>,
                         chunkIndex: nat, text: string, embedding: Option<Vector>)

  /** The key of the unique index ix_chunks_document_section_index. */
  function ChunkKey(c: Chunk): (Id, string, nat) {
    (c.documentId, c.section, c.chunkIndex)
  }

  /** Chunk ids are distinct, and so are the chunks' (document, section, index) keys. */
  ghost predicate ChunksUnique(rows: seq<Chunk>) {
    forall i, j :: 0 <= i < j < |rows| ==> rows[i].id != rows[j].id && ChunkKey(rows[i]) != ChunkKey(rows[j])
  }

  /** The chunks table, updated in place by ingestion and by the embedding step. */
  class ChunkTable {
    var rows: seq<Chunk>
    /** The next fresh chunk id. */
    var nextId: Id

    ghost predicate Valid()
      reads this
    {
      && ChunksUnique(rows)
      && forall i :: 0 <= i < |rows| ==> rows[i].id < nextId
    }

    constructor ()
      ensures Valid() && rows == [] && nextId == 0
    {
      rows := [];
      nextId := 0;
    }
  }
}
