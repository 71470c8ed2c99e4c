/**
 * create_chunks_for_document (backend/app/ingestion/ingest.py): parse the transcript,
 * chunk every section with the default window and overlap, and store one chunk row per
 * chunk input, all in one commit.
 */
module Ingest {
  import opened Wrappers
  import opened Text
  import opened Parser
  import opened Chunker
  import opened Models

  /** The outcome of ingestion: the stored rows, a commit refused by the unique index on
      (document, section, index), or a chunking loop that does not finish in its budget. */
  datatype IngestOutcome = Created(chunks: seq<Chunk>) | IntegrityError | IngestOutOfFuel

  /** Both runs finished: their chunks one after the other. */
  function AppendRuns(a: ChunkRun, b: ChunkRun): ChunkRun {
    if a.Chunked? && b.Chunked? then Chunked(a.chunks + b.chunks) else OutOfFuel
  }

  /** The chunk inputs of the sections, in section order, each section chunked with the
      default window and overlap and a budget of `fuel` iterations. */
  function InputsOf(sections: seq<Section>, fuel: nat): ChunkRun {
    if sections == [] then Chunked([])
    else
      var last := sections[|sections| - 1];
      AppendRuns(InputsOf(sections[..|sections| - 1], fuel),
                 ChunkSectionRun(last.name, last.text, DefaultMaxChars, DefaultOverlapChars, fuel))
  }

  /** The chunk inputs of a transcript. */
  function ChunkInputs(rawText: string, fuel: nat): ChunkRun {
    InputsOf(ParseTranscript(rawText), fuel)
  }

  /** The row stored for a chunk input: the input's fields, no embedding yet. */
  function RowOf(id: Id, documentId: Id, ci: ChunkInput): Chunk {
    Chunk(id, documentId, ci.section, ci.speaker, ci.index, ci.text, None)
  }

  /** One row per chunk input, in order, with consecutive fresh ids from `firstId`. */
  function NewRows(documentId: Id, inputs: seq<ChunkInput>, firstId: Id): (rows: seq<Chunk>)
    ensures |rows| == |inputs|
  {
    seq(|inputs|, i requires 0 <= i < |inputs| => RowOf(firstId + i, documentId, inputs[i]))
  }

  /** Some new row has the key of a stored row. */
  predicate Conflicts(stored: seq<Chunk>, created: seq<Chunk>) {
    exists i, j :: 0 <= i < |stored| && 0 <= j < |created| && ChunkKey(stored[i]) == ChunkKey(created[j])
  }

  /**
   * Ingest a stored document: the rows are created in chunk-input order; when there are
   * none nothing is written; a key clash with stored rows fails the commit and nothing is
   * written.
   */
  method CreateChunksForDocument(table: ChunkTable, doc: Document, fuel: nat) returns (r: IngestOutcome)
    requires table.Valid()
    modifies table
    ensures table.Valid()
    ensures match ChunkInputs(doc.rawText, fuel)
      case OutOfFuel =>
        r == IngestOutOfFuel && table.rows == old(table.rows) && table.nextId == old(table.nextId)
      case Chunked(inputs) =>
        var created := NewRows(doc.id, inputs, old(table.nextId));
        if created == [] then
          r == Created([]) && table.rows == old(table.rows) && table.nextId == old(table.nextId)
        else if Conflicts(old(table.rows), created) then
          r == IntegrityError && table.rows == old(table.rows) && table.nextId == old(table.nextId)
        else
          r == Created(created) && table.rows == old(table.rows) + created
          && table.nextId == old(table.nextId) + |created|
  {
    var run := CollectInputs(ParseTranscript(doc.rawText), fuel);
    if run.OutOfFuel? {
      return IngestOutOfFuel;
    }
    var created := BuildRows(doc.id, run.chunks, table.nextId);
    if created != [] {
      if Conflicts(table.rows, created) {
        return IntegrityError;
      }
      NewRowsKeepValid(table.rows, table.nextId, doc, fuel);
      table.rows := table.rows + created;
      table.nextId := table.nextId + |created|;
    }
    return Created(created);
  }

  /** The loop over the parsed sections, extending the chunk inputs section by section. */
  method CollectInputs(sections: seq<Section>, fuel: nat) returns (run: ChunkRun)
    ensures run == InputsOf(sections, fuel)
  {
    var inputs: seq<ChunkInput> := [];
    var i := 0;
    while i < |sections|
      invariant 0 <= i <= |sections|
      invariant InputsOf(sections[..i], fuel) == Chunked(inputs)
    {
      var sectionRun := ChunkSection(sections[i].name, sections[i].text, DefaultMaxChars, DefaultOverlapChars, fuel);
      assert sections[..i + 1][..i] == sections[..i];
      if sectionRun.OutOfFuel? {
        OutOfFuelStays(sections, i + 1, fuel);
        return OutOfFuel;
      }
      inputs := inputs + sectionRun.chunks;
      i := i + 1;
    }
    assert sections[..i] == sections;
    return Chunked(inputs);
  }

  /** The loop creating one row per chunk input. */
  method BuildRows(documentId: Id, inputs: seq<ChunkInput>, firstId: Id) returns (created: seq<Chunk>)
    ensures created == NewRows(documentId, inputs, firstId)
  {
    created := [];
    var j := 0;
    while j < |inputs|
      invariant 0 <= j <= |inputs|
      invariant created == NewRows(documentId, inputs[..j], firstId)
    {
      created := created + [RowOf(firstId + j, documentId, inputs[j])];
      j := j + 1;
    }
    assert inputs[..j] == inputs;
  }

  /** Once a section runs out of budget, so does every longer prefix of the sections. */
  lemma {:induction false} OutOfFuelStays(sections: seq<Section>, n: nat, fuel: nat)
    requires n <= |sections| && InputsOf(sections[..n], fuel) == OutOfFuel
    ensures InputsOf(sections, fuel) == OutOfFuel
    decreases |sections| - n
  {
    if n < |sections| {
      assert sections[..n + 1][..n] == sections[..n];
      OutOfFuelStays(sections, n + 1, fuel);
    } else {
      assert sections[..n] == sections;
    }
  }

  ghost function SectionNames(sections: seq<Section>): set<string> {
    set k | 0 <= k < |sections| :: sections[k].name
  }

  /** Every chunk input of finished sections carries the name of one of them. */
  lemma {:induction false} InputsOfSections(sections: seq<Section>, fuel: nat)
    ensures var run := InputsOf(sections, fuel);
      run.Chunked? ==> forall i :: 0 <= i < |run.chunks| ==> run.chunks[i].section in SectionNames(sections)
    decreases |sections|
  {
    var run := InputsOf(sections, fuel);
    if sections != [] && run.Chunked? {
      var init := sections[..|sections| - 1];
      var last := sections[|sections| - 1];
      InputsOfSections(init, fuel);
      ChunkSectionLabels(last.name, last.text, DefaultMaxChars, DefaultOverlapChars, fuel);
      var prev := InputsOf(init, fuel).chunks;
      var cur := ChunkSectionRun(last.name, last.text, DefaultMaxChars, DefaultOverlapChars, fuel).chunks;
      assert run.chunks == prev + cur;
      assert SectionNames(init) <= SectionNames(sections) by {
        forall k | 0 <= k < |init| ensures init[k].name in SectionNames(sections) {
          assert init[k] == sections[k];
        }
      }
      assert last.name in SectionNames(sections);
      forall i | 0 <= i < |run.chunks| ensures run.chunks[i].section in SectionNames(sections) {
        if i < |prev| {
          assert run.chunks[i] == prev[i];
        } else {
          assert run.chunks[i] == cur[i - |prev|];
        }
      }
    }
  }

  /**
   * The index of a chunk input is its position among the inputs of its section, so no two
   * inputs of sections with distinct names share a (section, index) pair.
   */
  lemma {:induction false} InputsOfKeysUnique(sections: seq<Section>, fuel: nat)
    requires forall a, b :: 0 <= a < b < |sections| ==> sections[a].name != sections[b].name
    ensures var run := InputsOf(sections, fuel);
      run.Chunked? ==> InputKeysDistinct(run.chunks)
    decreases |sections|
  {
    var run := InputsOf(sections, fuel);
    if sections != [] && run.Chunked? {
      var init := sections[..|sections| - 1];
      var last := sections[|sections| - 1];
      NamesDistinctSplit(sections);
      InputsOfKeysUnique(init, fuel);
      InputsOfSections(init, fuel);
      ChunkSectionLabels(last.name, last.text, DefaultMaxChars, DefaultOverlapChars, fuel);
      var prev := InputsOf(init, fuel).chunks;
      var cur := ChunkSectionRun(last.name, last.text, DefaultMaxChars, DefaultOverlapChars, fuel).chunks;
      assert run.chunks == prev + cur;
      KeysAppendDistinct(prev, cur, SectionNames(init), last.name);
    }
  }

  /** No two chunk inputs share a (section, index) pair. */
  ghost predicate InputKeysDistinct(cs: seq<ChunkInput>) {
    forall i, j :: 0 <= i < j < |cs| ==> (cs[i].section, cs[i].index) != (cs[j].section, cs[j].index)
  }

  /** With distinct section names, the last name is none of the others' and those stay distinct. */
  lemma NamesDistinctSplit(sections: seq<Section>)
    requires sections != []
    requires forall a, b :: 0 <= a < b < |sections| ==> sections[a].name != sections[b].name
    ensures var init := sections[..|sections| - 1];
      && (forall a, b :: 0 <= a < b < |init| ==> init[a].name != init[b].name)
      && sections[|sections| - 1].name !in SectionNames(init)
  {
    var init := sections[..|sections| - 1];
    forall a, b | 0 <= a < b < |init| ensures init[a].name != init[b].name {
      assert init[a] == sections[a] && init[b] == sections[b];
    }
    forall k | 0 <= k < |init| ensures init[k].name != sections[|sections| - 1].name {
      assert init[k] == sections[k];
    }
  }

  /** Appending the inputs of a section with a new name, numbered by position, keeps keys distinct. */
  lemma KeysAppendDistinct(prev: seq<ChunkInput>, cur: seq<ChunkInput>, names: set<string>, name: string)
    requires InputKeysDistinct(prev) && name !in names
    requires forall i :: 0 <= i < |prev| ==> prev[i].section in names
    requires forall i :: 0 <= i < |cur| ==> cur[i].section == name && cur[i].index == i
    ensures InputKeysDistinct(prev + cur)
  {
    var cs := prev + cur;
    forall i, j | 0 <= i < j < |cs| ensures (cs[i].section, cs[i].index) != (cs[j].section, cs[j].index) {
      if j < |prev| {
        assert cs[i] == prev[i] && cs[j] == prev[j];
      } else if i >= |prev| {
        assert cs[i] == cur[i - |prev|] && cs[j] == cur[j - |prev|];
      } else {
        assert cs[i] == prev[i] && cs[j] == cur[j - |prev|];
      }
    }
  }

  /**
   * What ingestion promises about the chunk inputs of a transcript: every input belongs
   * to prepared_remarks or qa, carries no speaker, has a non-empty stripped text of at
   * most the default window, and no two inputs share a (section, index) pair.
   */
  lemma ChunkInputsWellFormed(rawText: string, fuel: nat)
    ensures var run := ChunkInputs(rawText, fuel);
      run.Chunked? ==>
        && (forall i :: 0 <= i < |run.chunks| ==>
              && (run.chunks[i].section == PreparedRemarks || run.chunks[i].section == Qa)
              && run.chunks[i].speaker == None
              && run.chunks[i].text != [] && IsStripped(run.chunks[i].text)
              && |run.chunks[i].text| <= DefaultMaxChars)
        && (forall i, j :: 0 <= i < j < |run.chunks| ==>
              (run.chunks[i].section, run.chunks[i].index) != (run.chunks[j].section, run.chunks[j].index))
  {
    var sections := ParseTranscript(rawText);
    InputsOfKeysUnique(sections, fuel);
    InputsOfSections(sections, fuel);
    InputsWellFormed(sections, fuel);
    assert SectionNames(sections) <= {PreparedRemarks, Qa};
  }

  /** Each chunk input of finished sections is one its section's run emitted. */
  lemma {:induction false} InputsWellFormed(sections: seq<Section>, fuel: nat)
    ensures var run := InputsOf(sections, fuel);
      run.Chunked? ==>
        forall i :: 0 <= i < |run.chunks| ==>
          && run.chunks[i].speaker == None
          && run.chunks[i].text != [] && IsStripped(run.chunks[i].text)
          && |run.chunks[i].text| <= DefaultMaxChars
    decreases |sections|
  {
    var run := InputsOf(sections, fuel);
    if sections != [] && run.Chunked? {
      var init := sections[..|sections| - 1];
      var last := sections[|sections| - 1];
      InputsWellFormed(init, fuel);
      ChunkSectionSpec(last.name, last.text, DefaultMaxChars, DefaultOverlapChars, fuel);
      var prev := InputsOf(init, fuel).chunks;
      var cur := ChunkSectionRun(last.name, last.text, DefaultMaxChars, DefaultOverlapChars, fuel).chunks;
      assert run.chunks == prev + cur;
      forall i | 0 <= i < |run.chunks|
        ensures run.chunks[i].speaker == None && run.chunks[i].text != [] && IsStripped(run.chunks[i].text)
        ensures |run.chunks[i].text| <= DefaultMaxChars
      {
        if i < |prev| {
          assert run.chunks[i] == prev[i];
        } else {
          assert run.chunks[i] == cur[i - |prev|];
        }
      }
    }
  }

  /** The rows created for one document have distinct keys, and fresh ids. */
  lemma NewRowsKeepValid(stored: seq<Chunk>, nextId: Id, doc: Document, fuel: nat)
    requires ChunksUnique(stored) && forall i :: 0 <= i < |stored| ==> stored[i].id < nextId
    requires ChunkInputs(doc.rawText, fuel).Chunked?
    requires !Conflicts(stored, NewRows(doc.id, ChunkInputs(doc.rawText, fuel).chunks, nextId))
    ensures var created := NewRows(doc.id, ChunkInputs(doc.rawText, fuel).chunks, nextId);
      && ChunksUnique(stored + created)
      && forall i :: 0 <= i < |stored + created| ==> (stored + created)[i].id < nextId + |created|
  {
    ChunkInputsWellFormed(doc.rawText, fuel);
    RowsAppendUnique(stored, nextId, doc.id, ChunkInputs(doc.rawText, fuel).chunks);
  }

  /** Rows for inputs with distinct keys, with ids from `nextId`, added without conflict to
      rows with distinct keys and smaller ids keep ids and keys distinct. */
  lemma RowsAppendUnique(stored: seq<Chunk>, nextId: Id, documentId: Id, inputs: seq<ChunkInput>)
    requires ChunksUnique(stored) && forall i :: 0 <= i < |stored| ==> stored[i].id < nextId
    requires InputKeysDistinct(inputs)
    requires !Conflicts(stored, NewRows(documentId, inputs, nextId))
    ensures var created := NewRows(documentId, inputs, nextId);
      && ChunksUnique(stored + created)
      && forall i :: 0 <= i < |stored + created| ==> (stored + created)[i].id < nextId + |created|
  {
    var created := NewRows(documentId, inputs, nextId);
    var all := stored + created;
    forall i, j | 0 <= i < j < |all| ensures all[i].id != all[j].id && ChunkKey(all[i]) != ChunkKey(all[j]) {
      if j < |stored| {
        assert all[i] == stored[i] && all[j] == stored[j];
      } else if i >= |stored| {
        assert all[i] == created[i - |stored|] && all[j] == created[j - |stored|];
      } else {
        assert all[i] == stored[i] && all[j] == created[j - |stored|];
      }
    }
  }

  /**
   * A document with no stored chunks, as one just created, is always ingested: its rows
   * are all new, and they are the document's chunk inputs with the document's id, no
   * embedding, and the input's section, speaker, index and text.
   */
  lemma FreshDocumentIngests(stored: seq<Chunk>, nextId: Id, doc: Document, fuel: nat)
    requires forall i :: 0 <= i < |stored| ==> stored[i].documentId != doc.id
    requires ChunkInputs(doc.rawText, fuel).Chunked?
    ensures var inputs := ChunkInputs(doc.rawText, fuel).chunks;
      var created := NewRows(doc.id, inputs, nextId);
      && !Conflicts(stored, created)
      && forall i :: 0 <= i < |created| ==>
           && created[i].documentId == doc.id && created[i].embedding == None
           && created[i].section == inputs[i].section && created[i].speaker == inputs[i].speaker
           && created[i].chunkIndex == inputs[i].index && created[i].text == inputs[i].text
  {
    RowsOfFreshDocument(stored, nextId, doc.id, ChunkInputs(doc.rawText, fuel).chunks);
  }

  /** The rows of a document no stored row belongs to conflict with none, and carry the inputs. */
  lemma RowsOfFreshDocument(stored: seq<Chunk>, nextId: Id, documentId: Id, inputs: seq<ChunkInput>)
    requires forall i :: 0 <= i < |stored| ==> stored[i].documentId != documentId
    ensures var created := NewRows(documentId, inputs, nextId);
      && !Conflicts(stored, created)
      && forall i :: 0 <= i < |created| ==>
           && created[i].documentId == documentId && created[i].embedding == None
           && created[i].section == inputs[i].section && created[i].speaker == inputs[i].speaker
           && created[i].chunkIndex == inputs[i].index && created[i].text == inputs[i].text
  {
  }
}
