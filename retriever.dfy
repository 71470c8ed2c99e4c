/**
 * retrieve_top_k (backend/app/rag/retriever.py): embed the query once, keep the chunks
 * that have an embedding (and belong to the requested document, when one is given),
 * order them by distance to the query vector, and return the first `k`.
 */
module Retriever {
  import opened Wrappers
  import opened Sorting
  import opened Models

  /** The embedding model applied to a query string. */
  type QueryEmbedder = string -> Vector

  /** The database's distance operator between a stored embedding and the query vector. */
  type Distance = (Vector, Vector) -> real

  /** The WHERE clause: an embedding is present and, if a document is given, it is that one. */
  predicate IsCandidate(c: Chunk, documentId: Option<Id>) {
    c.embedding.Some? && (documentId.None? || c.documentId == documentId.value)
  }

  /** The rows the WHERE clause keeps, in table order. */
  function Candidates(rows: seq<Chunk>, documentId: Option<Id>): seq<Chunk> {
    if rows == [] then []
    else
      var n := |rows| - 1;
      Candidates(rows[..n], documentId) + (if IsCandidate(rows[n], documentId) then [rows[n]] else [])
  }

  /** Distance of a chunk's embedding to the query vector (0 for a chunk without one, which
      the WHERE clause has already excluded). */
  function DistanceTo(c: Chunk, qvec: Vector, dist: Distance): real {
    match c.embedding
    case Some(v) => dist(v, qvec)
    case None => 0.0
  }

  /** ORDER BY distance to the query vector. */
  function Nearer(qvec: Vector, dist: Distance): (Chunk, Chunk) -> bool {
    (a: Chunk, b: Chunk) => DistanceTo(a, qvec, dist) <= DistanceTo(b, qvec, dist)
  }

  /** The query: filter, order by distance, LIMIT k. */
  function RetrieveTopK(rows: seq<Chunk>, query: string, k: nat, documentId: Option<Id>,
                        embedQuery: QueryEmbedder, dist: Distance): seq<Chunk>
  {
    var qvec := embedQuery(query);
    Take(SortBy(Candidates(rows, documentId), Nearer(qvec, dist)), k)
  }

  /** The candidates are exactly the rows that pass the WHERE clause. */
  lemma {:induction false} CandidatesSpec(rows: seq<Chunk>, documentId: Option<Id>)
    ensures forall c :: c in Candidates(rows, documentId) <==> c in rows && IsCandidate(c, documentId)
    ensures |Candidates(rows, documentId)| <= |rows|
  {
    if rows != [] {
      var n := |rows| - 1;
      CandidatesSpec(rows[..n], documentId);
      assert rows == rows[..n] + [rows[n]];
    }
  }

  lemma NearerTotalPreorder(qvec: Vector, dist: Distance)
    ensures TotalPreorder(Nearer(qvec, dist))
  {
  }

  /**
   * What the WHERE clause and LIMIT promise: as many results as `k` and the candidates
   * allow, each one embedded and of the requested document, each at most as often as it
   * is a candidate.
   */
  lemma RetrieveTopKFilter(rows: seq<Chunk>, query: string, k: nat, documentId: Option<Id>,
                           embedQuery: QueryEmbedder, dist: Distance)
    ensures var r := RetrieveTopK(rows, query, k, documentId, embedQuery, dist);
      var cands := Candidates(rows, documentId);
      && |r| == (if k < |cands| then k else |cands|)
      && (forall c :: c in r ==> c in rows && c.embedding.Some?)
      && (forall c :: c in r && documentId.Some? ==> c.documentId == documentId.value)
      && multiset(r) <= multiset(cands)
  {
    var cands := Candidates(rows, documentId);
    var sorted := SortBy(cands, Nearer(embedQuery(query), dist));
    var r := Take(sorted, k);
    CandidatesSpec(rows, documentId);
    NearerTotalPreorder(embedQuery(query), dist);
    SortBySortedPermutation(cands, Nearer(embedQuery(query), dist));
    assert sorted == r + sorted[|r|..];
    assert multiset(sorted) == multiset(r) + multiset(sorted[|r|..]);
    forall c | c in r ensures c in rows && IsCandidate(c, documentId) {
      assert c in multiset(sorted);
    }
  }

  /**
   * What ORDER BY distance with LIMIT promises: results in non-decreasing distance to the
   * query vector, and every candidate left out at least as far as every result.
   */
  lemma RetrieveTopKOrder(rows: seq<Chunk>, query: string, k: nat, documentId: Option<Id>,
                          embedQuery: QueryEmbedder, dist: Distance)
    ensures var r := RetrieveTopK(rows, query, k, documentId, embedQuery, dist);
      var cands := Candidates(rows, documentId);
      var qvec := embedQuery(query);
      && (forall i, j :: 0 <= i < j < |r| ==> DistanceTo(r[i], qvec, dist) <= DistanceTo(r[j], qvec, dist))
      && (forall c, x :: c in multiset(cands) - multiset(r) && x in r ==>
            DistanceTo(x, qvec, dist) <= DistanceTo(c, qvec, dist))
  {
    var qvec := embedQuery(query);
    var cands := Candidates(rows, documentId);
    var le := Nearer(qvec, dist);
    var sorted := SortBy(cands, le);
    var r := Take(sorted, k);
    NearerTotalPreorder(qvec, dist);
    SortBySortedPermutation(cands, le);
    TakeSortedKeepsLeast(sorted, k, le);
    forall c, x | c in multiset(cands) - multiset(r) && x in r
      ensures DistanceTo(x, qvec, dist) <= DistanceTo(c, qvec, dist)
    {
      assert c in sorted[|r|..];
      assert le(x, c);
    }
    forall i, j | 0 <= i < j < |r| ensures le(r[i], r[j]) {
      assert r[i] == sorted[i] && r[j] == sorted[j];
    }
  }
}
