/**
 * Section chunking (backend/app/ingestion/chunker.py): overlapping windows of at most
 * `maxChars` characters, cut at the last paragraph break, else the last sentence break,
 * else the window edge; the cursor then moves back by `overlapChars`.
 *
 * The specification is split in two: CutsFrom lists the windows the cursor visits and
 * ChunksOf turns those windows into chunks. The loop of the source is not guaranteed to
 * terminate (LoopingSectionNeverFinishes), so every run carries a budget of iterations
 * (`fuel`) and reports OutOfFuel when the budget is spent.
 */
module Chunker {
  import opened Wrappers
  import opened Text

  /** A chunk before it is stored: section name, speaker (never set), index, text. */
  datatype ChunkInput = ChunkInput(section: string, speaker: Option<string>, index: nat, text: string)

  /** The result of running the loop with a budget of iterations. */
  datatype ChunkRun = Chunked(chunks: seq<ChunkInput>) | OutOfFuel

  const DefaultMaxChars: nat := 1200
  const DefaultOverlapChars: int := 200

  function Min(a: int, b: int): int {
    if a <= b then a else b
  }

  /** `max(0, end - overlap_chars)`: where the next window starts. */
  function NextStart(end: nat, overlapChars: int): nat {
    if end - overlapChars > 0 then end - overlapChars else 0
  }

  /**
   * The end of the chunk that starts at `start`. When the window does not reach the end
   * of the text, it ends just after the first newline of the last "\n\n" in the window,
   * or else just after the dot of the last ". ", or else at the window edge; a window
   * that reaches the end of the text ends there.
   */
  function CutEnd(text: string, start: nat, maxChars: nat): (end: nat)
    requires start < |text|
    ensures start <= end <= |text| && end - start <= maxChars
    ensures maxChars > 0 ==> start < end
  {
    var edge := Min(start + maxChars, |text|);
    var window := text[start..edge];
    var lastBreak := if RFind(window, "\n\n").Some? then RFind(window, "\n\n") else RFind(window, ". ");
    if lastBreak.Some? && edge != |text| then
      assert OccursAt(window, if RFind(window, "\n\n").Some? then "\n\n" else ". ", lastBreak.value);
      start + lastBreak.value + 1
    else edge
  }

  /**
   * Where a window is cut: a window reaching the end of the text is kept whole; otherwise
   * the cut falls just after the first newline of the last "\n\n" when there is one, else
   * just after the dot of the last ". ", else on the window edge.
   */
  lemma CutEndSpec(text: string, start: nat, maxChars: nat)
    requires start < |text|
    ensures var edge := Min(start + maxChars, |text|);
      var end := CutEnd(text, start, maxChars);
      && (edge == |text| ==> end == |text|)
      && (edge < |text| && end < edge ==> start < end)
      && (edge < |text| && Find(text[start..edge], "\n\n").Some? ==>
            OccursAt(text[start..edge], "\n\n", end - start - 1)
            && forall q :: end - start - 1 < q ==> !OccursAt(text[start..edge], "\n\n", q))
      && (edge < |text| && Find(text[start..edge], "\n\n").None? && Find(text[start..edge], ". ").Some? ==>
            OccursAt(text[start..edge], ". ", end - start - 1)
            && forall q :: end - start - 1 < q ==> !OccursAt(text[start..edge], ". ", q))
      && (edge < |text| && Find(text[start..edge], "\n\n").None? && Find(text[start..edge], ". ").None? ==>
            end == edge)
  {
  }

  /** A window [start, end) of the stripped section text that the loop visits. */
  datatype Window = Window(start: nat, end: nat)

  /** The outcome of the loop's cursor movement with a budget of iterations. */
  datatype CutRun = Cuts(windows: seq<Window>) | CutsOutOfFuel

  function PrependCuts(done: seq<Window>, rest: CutRun): CutRun {
    match rest
    case CutsOutOfFuel => CutsOutOfFuel
    case Cuts(ws) => Cuts(done + ws)
  }

  /**
   * The windows the loop visits from cursor `start`, allowing `fuel` more iterations: each
   * ends at CutEnd, the run stops after the window that reaches the end of the text, and
   * otherwise the cursor moves to NextStart.
   */
  function CutsFrom(text: string, start: nat, maxChars: nat, overlapChars: int, fuel: nat): (r: CutRun)
    decreases fuel
  {
    if start >= |text| then Cuts([])
    else if fuel == 0 then CutsOutOfFuel
    else
      var end := CutEnd(text, start, maxChars);
      if end == |text| then Cuts([Window(start, end)])
      else PrependCuts([Window(start, end)], CutsFrom(text, NextStart(end, overlapChars), maxChars, overlapChars, fuel - 1))
  }

  /** The chunk emitted for the window [start, end) with index `index`: none when the
      window strips to blank. */
  function Emitted(name: string, text: string, w: Window, index: nat): seq<ChunkInput>
    requires w.start <= w.end <= |text|
  {
    var piece := Strip(text[w.start..w.end]);
    if piece != [] then [ChunkInput(name, None, index, piece)] else []
  }

  ghost predicate WindowsIn(ws: seq<Window>, text: string) {
    forall i {:trigger ws[i].start} :: 0 <= i < |ws| ==> ws[i].start <= ws[i].end <= |text|
  }

  /** The chunks emitted for the windows `ws`, numbered from 0. */
  function ChunksOf(name: string, text: string, ws: seq<Window>): seq<ChunkInput>
    requires WindowsIn(ws, text)
  {
    if ws == [] then []
    else
      var prev := ChunksOf(name, text, ws[..|ws| - 1]);
      prev + Emitted(name, text, ws[|ws| - 1], |prev|)
  }

  /**
   * chunk_section, run for at most `fuel` iterations.
   */
  function ChunkSectionRun(sectionName: string, sectionText: string, maxChars: nat,
                           overlapChars: int, fuel: nat): (r: ChunkRun)
  {
    var text := Strip(sectionText);
    if text == [] then Chunked([]) else ChunkTextRun(sectionName, text, maxChars, overlapChars, fuel)
  }

  /** The chunks of the windows the loop visits over the stripped text. */
  function ChunkTextRun(name: string, text: string, maxChars: nat, overlapChars: int, fuel: nat): ChunkRun {
    match CutsFrom(text, 0, maxChars, overlapChars, fuel)
    case CutsOutOfFuel => OutOfFuel
    case Cuts(ws) =>
      CutsInText(text, 0, maxChars, overlapChars, fuel);
      Chunked(ChunksOf(name, text, ws))
  }

  lemma {:induction false} CutsInText(text: string, start: nat, maxChars: nat, overlapChars: int, fuel: nat)
    ensures CutsFrom(text, start, maxChars, overlapChars, fuel).Cuts? ==>
              WindowsIn(CutsFrom(text, start, maxChars, overlapChars, fuel).windows, text)
    decreases fuel
  {
    if start < |text| && fuel > 0 {
      var end := CutEnd(text, start, maxChars);
      if end < |text| {
        CutsInText(text, NextStart(end, overlapChars), maxChars, overlapChars, fuel - 1);
      }
    }
  }

  lemma CutsStep(text: string, start: nat, maxChars: nat, overlapChars: int, fuel: nat, end: nat)
    requires start < |text| && fuel > 0
    requires end == CutEnd(text, start, maxChars) && end < |text|
    ensures CutsFrom(text, start, maxChars, overlapChars, fuel)
         == PrependCuts([Window(start, end)], CutsFrom(text, NextStart(end, overlapChars), maxChars, overlapChars, fuel - 1))
  {
  }

  lemma CutsLast(text: string, start: nat, maxChars: nat, overlapChars: int, fuel: nat, end: nat)
    requires start < |text| && fuel > 0
    requires end == CutEnd(text, start, maxChars) && end == |text|
    ensures CutsFrom(text, start, maxChars, overlapChars, fuel) == Cuts([Window(start, end)])
  {
  }

  /** `cut` agrees with CutEnd on every cursor inside the text. */
  ghost predicate CutsAs(cut: nat -> nat, text: string, maxChars: nat) {
    forall s: nat {:trigger CutEnd(text, s, maxChars)} :: s < |text| ==> cut(s) == CutEnd(text, s, maxChars)
  }

  lemma CutterCuts(text: string, maxChars: nat)
    ensures CutsAs((s: nat) => if s < |text| then CutEnd(text, s, maxChars) else 0, text, maxChars)
  {
  }

  /** CutsFrom with the cut of each window given by `cut` over a text of length `len`. */
  function CutsBy(cut: nat -> nat, len: nat, start: nat, overlapChars: int, fuel: nat): CutRun
    decreases fuel
  {
    if start >= len then Cuts([])
    else if fuel == 0 then CutsOutOfFuel
    else if cut(start) == len then Cuts([Window(start, cut(start))])
    else PrependCuts([Window(start, cut(start))],
                     CutsBy(cut, len, NextStart(cut(start), overlapChars), overlapChars, fuel - 1))
  }

  lemma {:induction false} CutsByAgrees(cut: nat -> nat, text: string, start: nat, maxChars: nat,
                                        overlapChars: int, fuel: nat)
    requires CutsAs(cut, text, maxChars)
    ensures CutsBy(cut, |text|, start, overlapChars, fuel) == CutsFrom(text, start, maxChars, overlapChars, fuel)
    decreases fuel
  {
    if start < |text| && fuel > 0 {
      var end := CutEnd(text, start, maxChars);
      if end < |text| {
        CutsByAgrees(cut, text, NextStart(end, overlapChars), maxChars, overlapChars, fuel - 1);
      }
    }
  }

  /** The piece of text a window [a, b) keeps once stripped. */
  function Piece(text: string, a: nat, b: nat): string
    requires a <= b <= |text|
  {
    Strip(text[a..b])
  }

  /** `piece` agrees with Piece on every window inside the text. */
  ghost predicate PiecesAs(piece: (nat, nat) -> string, text: string) {
    forall a: nat, b: nat {:trigger Piece(text, a, b)} :: a <= b <= |text| ==> piece(a, b) == Piece(text, a, b)
  }

  lemma PiecerPieces(text: string)
    ensures PiecesAs((a: nat, b: nat) => if a <= b <= |text| then Piece(text, a, b) else [], text)
  {
  }

  /** Emitted with the stripped text of each window given by `piece`. */
  function EmittedBy(piece: (nat, nat) -> string, name: string, w: Window, index: nat): seq<ChunkInput> {
    if piece(w.start, w.end) != [] then [ChunkInput(name, None, index, piece(w.start, w.end))] else []
  }

  /** ChunksOf with the stripped text of each window given by `piece`. */
  function ChunksOfBy(piece: (nat, nat) -> string, name: string, ws: seq<Window>): seq<ChunkInput> {
    if ws == [] then []
    else
      var prev := ChunksOfBy(piece, name, ws[..|ws| - 1]);
      prev + EmittedBy(piece, name, ws[|ws| - 1], |prev|)
  }

  lemma ChunksOfBySnoc(piece: (nat, nat) -> string, name: string, ws: seq<Window>, w: Window)
    ensures ChunksOfBy(piece, name, ws + [w])
         == ChunksOfBy(piece, name, ws) + EmittedBy(piece, name, w, |ChunksOfBy(piece, name, ws)|)
  {
    assert (ws + [w])[..|ws|] == ws;
  }

  lemma {:induction false} ChunksOfByAgrees(piece: (nat, nat) -> string, name: string, text: string, ws: seq<Window>)
    requires PiecesAs(piece, text) && WindowsIn(ws, text)
    ensures ChunksOfBy(piece, name, ws) == ChunksOf(name, text, ws)
    decreases |ws|
  {
    if ws != [] {
      var init := ws[..|ws| - 1];
      assert WindowsIn(init, text) by {
        forall i | 0 <= i < |init| ensures init[i].start <= init[i].end <= |text| {
          assert init[i] == ws[i];
        }
      }
      ChunksOfByAgrees(piece, name, text, init);
      var w := ws[|ws| - 1];
      assert piece(w.start, w.end) == Piece(text, w.start, w.end);
    }
  }

  /** The chunks of the windows cut by `cut` over a text of length `len`, stripped by `piece`. */
  ghost function ChunksBy(cut: nat -> nat, piece: (nat, nat) -> string, name: string, len: nat,
                          overlapChars: int, fuel: nat): ChunkRun
  {
    match CutsBy(cut, len, 0, overlapChars, fuel)
    case CutsOutOfFuel => OutOfFuel
    case Cuts(ws) => Chunked(ChunksOfBy(piece, name, ws))
  }

  lemma ChunksByAgrees(cut: nat -> nat, piece: (nat, nat) -> string, name: string, text: string,
                       maxChars: nat, overlapChars: int, fuel: nat)
    requires CutsAs(cut, text, maxChars) && PiecesAs(piece, text)
    ensures ChunksBy(cut, piece, name, |text|, overlapChars, fuel) == ChunkTextRun(name, text, maxChars, overlapChars, fuel)
  {
    CutsByAgrees(cut, text, 0, maxChars, overlapChars, fuel);
    CutsInText(text, 0, maxChars, overlapChars, fuel);
    var all := CutsFrom(text, 0, maxChars, overlapChars, fuel);
    if all.Cuts? {
      ChunksOfByAgrees(piece, name, text, all.windows);
    }
  }

  /** One more window visited: the visited windows followed by the rest are still the whole run. */
  lemma CutsByAdvance(cut: nat -> nat, len: nat, ws: seq<Window>, start: nat, overlapChars: int,
                      fuel: nat, all: CutRun)
    requires start < len && fuel > 0 && cut(start) != len
    requires PrependCuts(ws, CutsBy(cut, len, start, overlapChars, fuel)) == all
    ensures PrependCuts(ws + [Window(start, cut(start))],
                        CutsBy(cut, len, NextStart(cut(start), overlapChars), overlapChars, fuel - 1)) == all
  {
    PrependCutsTwice(ws, [Window(start, cut(start))],
                     CutsBy(cut, len, NextStart(cut(start), overlapChars), overlapChars, fuel - 1));
  }

  lemma PrependCutsTwice(a: seq<Window>, b: seq<Window>, rest: CutRun)
    ensures PrependCuts(a, PrependCuts(b, rest)) == PrependCuts(a + b, rest)
  {
    if rest.Cuts? {
      assert a + (b + rest.windows) == (a + b) + rest.windows;
    }
  }

  /** chunk_section: strip the section text, then run the loop over it. */
  method ChunkSection(sectionName: string, sectionText: string, maxChars: nat,
                      overlapChars: int, fuel: nat) returns (r: ChunkRun)
    ensures r == ChunkSectionRun(sectionName, sectionText, maxChars, overlapChars, fuel)
  {
    var text := Strip(sectionText);
    if text == [] {
      return Chunked([]);
    }
    // The loop is proved against `cut`, any function that cuts as CutEnd does, and `piece`,
    // any function that strips a window as Piece does.
    CutterCuts(text, maxChars);
    ghost var cut: nat -> nat :| CutsAs(cut, text, maxChars);
    PiecerPieces(text);
    ghost var piece: (nat, nat) -> string :| PiecesAs(piece, text);
    r := ChunkText(sectionName, text, maxChars, overlapChars, fuel, cut, piece);
    ChunksByAgrees(cut, piece, sectionName, text, maxChars, overlapChars, fuel);
  }

  /** The loop of chunk_section over the stripped text, with at most `fuel` iterations. */
  method ChunkText(name: string, text: string, maxChars: nat, overlapChars: int, fuel: nat,
                   ghost cut: nat -> nat, ghost piece: (nat, nat) -> string)
    returns (r: ChunkRun)
    requires CutsAs(cut, text, maxChars) && PiecesAs(piece, text)
    ensures r == ChunksBy(cut, piece, name, |text|, overlapChars, fuel)
  {
    ghost var all := CutsBy(cut, |text|, 0, overlapChars, fuel);
    var chunks: seq<ChunkInput> := [];
    var start: nat := 0;
    var budget := fuel;
    ghost var ws: seq<Window> := [];
    if all.Cuts? {
      assert [] + all.windows == all.windows;
    }
    while start < |text|
      invariant Visited(name, |text|, cut, piece, overlapChars, ws, chunks, start, budget, all)
      decreases budget
    {
      if budget == 0 {
        return OutOfFuel;
      }
      var end;
      end, chunks, ws := Turn(name, text, maxChars, overlapChars, start, budget, chunks, ws, cut, piece, all);
      if end == |text| {
        return Chunked(chunks);
      }
      start := NextStart(end, overlapChars);
      budget := budget - 1;
    }
    assert ws + [] == ws;
    return Chunked(chunks);
  }

  /**
   * The loop's state: the chunks emitted so far are those of the windows `ws` visited so
   * far, and these windows followed by the windows still to visit from `start` with `budget`
   * iterations left make up the whole run `all`.
   */
  ghost predicate Visited(name: string, len: nat, cut: nat -> nat, piece: (nat, nat) -> string,
                          overlapChars: int, ws: seq<Window>, chunks: seq<ChunkInput>, start: nat,
                          budget: nat, all: CutRun) {
    && chunks == ChunksOfBy(piece, name, ws)
    && PrependCuts(ws, CutsBy(cut, len, start, overlapChars, budget)) == all
  }

  /** One turn of the loop: cut the window at the cursor and emit its chunk. */
  method Turn(name: string, text: string, maxChars: nat, overlapChars: int, start: nat, budget: nat,
              chunks: seq<ChunkInput>, ghost ws: seq<Window>, ghost cut: nat -> nat,
              ghost piece: (nat, nat) -> string, ghost all: CutRun)
    returns (end: nat, chunks': seq<ChunkInput>, ghost ws': seq<Window>)
    requires start < |text| && budget > 0 && CutsAs(cut, text, maxChars) && PiecesAs(piece, text)
    requires Visited(name, |text|, cut, piece, overlapChars, ws, chunks, start, budget, all)
    ensures end <= |text|
    ensures end == |text| ==> chunks' == ChunksOfBy(piece, name, ws') && all == Cuts(ws')
    ensures end < |text| ==>
              Visited(name, |text|, cut, piece, overlapChars, ws', chunks', NextStart(end, overlapChars), budget - 1, all)
  {
    end := Cut(text, start, maxChars);
    assert cut(start) == end;
    chunks' := Emit(name, text, start, end, chunks, piece);
    ws' := ws + [Window(start, end)];
    ChunksOfBySnoc(piece, name, ws, Window(start, end));
    if end < |text| {
      CutsByAdvance(cut, |text|, ws, start, overlapChars, budget, all);
    }
  }

  /** The chunk of one turn of the loop, appended unless it strips to blank. */
  method Emit(name: string, text: string, start: nat, end: nat, chunks: seq<ChunkInput>,
              ghost piece: (nat, nat) -> string)
    returns (chunks': seq<ChunkInput>)
    requires start <= end <= |text| && PiecesAs(piece, text)
    ensures chunks' == chunks + EmittedBy(piece, name, Window(start, end), |chunks|)
  {
    var chunkText := Strip(text[start..end]);
    assert piece(start, end) == Piece(text, start, end);
    if chunkText != [] {
      chunks' := chunks + [ChunkInput(name, None, |chunks|, chunkText)];
    } else {
      chunks' := chunks;
      assert chunks + [] == chunks;
    }
  }

  /** The window cut of one turn of the loop. */
  method Cut(text: string, start: nat, maxChars: nat) returns (end: nat)
    requires start < |text|
    ensures end == CutEnd(text, start, maxChars)
  {
    end := Min(start + maxChars, |text|);
    var window := text[start..end];
    var lastBreak := RFind(window, "\n\n");
    if lastBreak.None? {
      lastBreak := RFind(window, ". ");
    }
    if lastBreak.Some? && end != |text| {
      end := start + lastBreak.value + 1;
    }
  }

  /**
   * What every chunk of a run satisfies: its index is its position, it carries the
   * section name and no speaker, and its text is non-empty, stripped, at most `maxChars`
   * long and a slice of the stripped section text.
   */
  ghost predicate ChunksWellFormed(cs: seq<ChunkInput>, name: string, text: string, maxChars: nat) {
    forall i :: 0 <= i < |cs| ==>
      && cs[i].index == i
      && cs[i].section == name
      && cs[i].speaker == None
      && cs[i].text != []
      && IsStripped(cs[i].text)
      && |cs[i].text| <= maxChars
      && IsSliceOf(cs[i].text, text)
  }

  ghost predicate WindowsBounded(ws: seq<Window>, maxChars: nat) {
    forall i :: 0 <= i < |ws| ==> ws[i].end - ws[i].start <= maxChars
  }

  /** Windows inside the text and at most `maxChars` wide yield well-formed chunks, at
      most one per window. */
  lemma {:induction false} ChunksOfWellFormed(name: string, text: string, ws: seq<Window>, maxChars: nat)
    requires WindowsIn(ws, text) && WindowsBounded(ws, maxChars)
    ensures ChunksWellFormed(ChunksOf(name, text, ws), name, text, maxChars)
    ensures |ChunksOf(name, text, ws)| <= |ws|
    decreases |ws|
  {
    if ws != [] {
      var init, w := ws[..|ws| - 1], ws[|ws| - 1];
      assert WindowsIn(init, text) && WindowsBounded(init, maxChars) by {
        forall i | 0 <= i < |init| ensures init[i] == ws[i] {
        }
      }
      ChunksOfWellFormed(name, text, init, maxChars);
      var prev := ChunksOf(name, text, init);
      var piece := text[w.start..w.end];
      StripProperties(piece);
      StripSliceOf(piece, text, w.start);
      var e := Emitted(name, text, w, |prev|);
      var cs := prev + e;
      assert cs == ChunksOf(name, text, ws);
      forall i | 0 <= i < |cs|
        ensures cs[i].index == i && cs[i].section == name && cs[i].speaker == None
        ensures cs[i].text != [] && IsStripped(cs[i].text) && |cs[i].text| <= maxChars
        ensures IsSliceOf(cs[i].text, text)
      {
        if i < |prev| {
          assert cs[i] == prev[i];
        } else {
          assert cs[i] == e[0];
        }
      }
    }
  }

  /** The chunks of a prefix of the windows are a prefix of the chunks. */
  lemma {:induction false} ChunksOfPrefix(name: string, text: string, ws: seq<Window>, k: nat)
    requires WindowsIn(ws, text) && k <= |ws|
    ensures WindowsIn(ws[..k], text)
    ensures var p := ChunksOf(name, text, ws[..k]);
            |p| <= |ChunksOf(name, text, ws)| && ChunksOf(name, text, ws)[..|p|] == p
    decreases |ws|
  {
    WindowsInPrefix(ws, text, k);
    if k < |ws| {
      var init := ws[..|ws| - 1];
      WindowsInPrefix(ws, text, |ws| - 1);
      ChunksOfPrefix(name, text, init, k);
      assert init[..k] == ws[..k];
      var p := ChunksOf(name, text, ws[..k]);
      var prev := ChunksOf(name, text, init);
      PrefixOfAppend(prev, Emitted(name, text, ws[|ws| - 1], |prev|), |p|);
    } else {
      assert ws[..k] == ws;
    }
  }

  lemma WindowsInPrefix(ws: seq<Window>, text: string, k: nat)
    requires WindowsIn(ws, text) && k <= |ws|
    ensures WindowsIn(ws[..k], text)
  {
    forall i | 0 <= i < k ensures ws[..k][i] == ws[i] {
    }
  }

  lemma PrefixOfAppend<T>(a: seq<T>, b: seq<T>, n: nat)
    requires n <= |a|
    ensures (a + b)[..n] == a[..n]
  {
  }

  /**
   * The windows of a finished run from `start`: the first starts at `start`, each ends
   * where CutEnd cuts it, every window but the last stops short of the end of the text
   * and is followed by the window starting at NextStart of its end, and the last window
   * reaches the end of the text or moves the cursor past it (a negative overlap).
   */
  ghost predicate CutsChain(text: string, ws: seq<Window>, start: nat, maxChars: nat, overlapChars: int) {
    && |ws| >= 1
    && ws[0].start == start
    && (ws[|ws| - 1].end == |text| || NextStart(ws[|ws| - 1].end, overlapChars) >= |text|)
    && (forall i :: 0 <= i < |ws| ==>
          ws[i].start < |text| && ws[i].end == CutEnd(text, ws[i].start, maxChars))
    && (forall i :: 0 <= i < |ws| - 1 ==>
          ws[i].end < |text| && ws[i + 1].start == NextStart(ws[i].end, overlapChars))
  }

  /** A window cut at `start` that stops short of the end, followed by a chain from the
      next cursor, is a chain from `start`. */
  lemma ChainCons(text: string, ws: seq<Window>, start: nat, end: nat, maxChars: nat, overlapChars: int)
    requires start < |text| && end == CutEnd(text, start, maxChars) && end < |text|
    requires CutsChain(text, ws, NextStart(end, overlapChars), maxChars, overlapChars)
    ensures CutsChain(text, [Window(start, end)] + ws, start, maxChars, overlapChars)
  {
    var all := [Window(start, end)] + ws;
    forall i | 0 <= i < |all|
      ensures all[i].start < |text| && all[i].end == CutEnd(text, all[i].start, maxChars)
    {
      if i > 0 {
        assert all[i] == ws[i - 1];
      }
    }
    forall i | 0 <= i < |all| - 1
      ensures all[i].end < |text| && all[i + 1].start == NextStart(all[i].end, overlapChars)
    {
      assert all[i + 1] == ws[i];
      if i > 0 {
        assert all[i] == ws[i - 1];
      }
    }
  }

  /** A run from a cursor inside the text that finishes visits a chain of windows. */
  lemma {:induction false} CutsShape(text: string, start: nat, maxChars: nat, overlapChars: int, fuel: nat)
    requires start < |text|
    ensures var r := CutsFrom(text, start, maxChars, overlapChars, fuel);
            r.Cuts? ==> CutsChain(text, r.windows, start, maxChars, overlapChars)
    decreases fuel
  {
    if fuel > 0 {
      var end := CutEnd(text, start, maxChars);
      var next := NextStart(end, overlapChars);
      if end == |text| || next >= |text| {
        ChainOne(text, start, end, maxChars, overlapChars);
        if end < |text| {
          assert CutsFrom(text, next, maxChars, overlapChars, fuel - 1) == Cuts([]);
          assert [Window(start, end)] + [] == [Window(start, end)];
        }
      } else {
        var rest := CutsFrom(text, next, maxChars, overlapChars, fuel - 1);
        CutsShape(text, next, maxChars, overlapChars, fuel - 1);
        if rest.Cuts? {
          ChainCons(text, rest.windows, start, end, maxChars, overlapChars);
        }
      }
    }
  }

  /** A single window that reaches the end of the text, or leaves the cursor past it, is a chain. */
  lemma ChainOne(text: string, start: nat, end: nat, maxChars: nat, overlapChars: int)
    requires start < |text| && end == CutEnd(text, start, maxChars)
    requires end == |text| || NextStart(end, overlapChars) >= |text|
    ensures CutsChain(text, [Window(start, end)], start, maxChars, overlapChars)
  {
  }

  /** A chain without its first window is a chain from the next cursor. */
  lemma ChainTail(text: string, ws: seq<Window>, start: nat, maxChars: nat, overlapChars: int)
    requires CutsChain(text, ws, start, maxChars, overlapChars) && |ws| > 1
    ensures CutsChain(text, ws[1..], ws[1].start, maxChars, overlapChars)
  {
    var tail := ws[1..];
    forall i | 0 <= i < |tail| ensures tail[i] == ws[i + 1] {
    }
  }

  /** With a non-negative overlap the windows of a chain cover every position from its
      first cursor to the end of the text: nothing is skipped between consecutive windows. */
  lemma {:induction false} ChainCovers(text: string, ws: seq<Window>, start: nat, maxChars: nat,
                                       overlapChars: int, p: nat)
    requires CutsChain(text, ws, start, maxChars, overlapChars) && overlapChars >= 0
    requires start <= p < |text|
    ensures exists i :: 0 <= i < |ws| && ws[i].start <= p < ws[i].end
    decreases |ws|
  {
    if p >= ws[0].end {
      assert |ws| > 1;
      var tail := ws[1..];
      ChainTail(text, ws, start, maxChars, overlapChars);
      ChainCovers(text, tail, ws[1].start, maxChars, overlapChars, p);
      var i :| 0 <= i < |tail| && tail[i].start <= p < tail[i].end;
      assert ws[i + 1] == tail[i];
    }
  }

  /** A run that finishes within some budget gives the same result with any larger one. */
  lemma {:induction false} CutsFuelMonotone(text: string, start: nat, maxChars: nat, overlapChars: int,
                                            fuel: nat, more: nat)
    requires fuel <= more && CutsFrom(text, start, maxChars, overlapChars, fuel).Cuts?
    ensures CutsFrom(text, start, maxChars, overlapChars, more) == CutsFrom(text, start, maxChars, overlapChars, fuel)
    decreases fuel
  {
    if start < |text| {
      var end := CutEnd(text, start, maxChars);
      if end < |text| {
        CutsFuelMonotone(text, NextStart(end, overlapChars), maxChars, overlapChars, fuel - 1, more - 1);
      }
    }
  }

  /**
   * The run finishes when every cut it can make either reaches the end of the text or
   * leaves the next cursor past the current one, given one iteration per character.
   */
  lemma {:induction false} CutsFinishWhenCursorAdvances(text: string, start: nat, maxChars: nat,
                                                        overlapChars: int, fuel: nat)
    requires forall s: nat :: start <= s < |text| ==>
               CutEnd(text, s, maxChars) == |text| || CutEnd(text, s, maxChars) - overlapChars > s
    requires start + fuel >= |text|
    ensures CutsFrom(text, start, maxChars, overlapChars, fuel).Cuts?
    decreases fuel
  {
    if start < |text| {
      var end := CutEnd(text, start, maxChars);
      if end < |text| {
        CutsFinishWhenCursorAdvances(text, NextStart(end, overlapChars), maxChars, overlapChars, fuel - 1);
      }
    }
  }

  /**
   * What chunk_section promises: a section that is blank once stripped has no chunks; a
   * finished run yields well-formed chunks of the stripped text, and at least one when
   * the section is not blank and `maxChars` is positive; the windows cut cover the whole
   * stripped text.
   */
  lemma ChunkSectionSpec(name: string, sectionText: string, maxChars: nat, overlapChars: int, fuel: nat)
    ensures var r := ChunkSectionRun(name, sectionText, maxChars, overlapChars, fuel);
      && (AllSpace(sectionText) ==> r == Chunked([]))
      && (r.Chunked? ==> ChunksWellFormed(r.chunks, name, Strip(sectionText), maxChars))
      && (r.Chunked? && !AllSpace(sectionText) && maxChars > 0 ==> |r.chunks| >= 1)
  {
    var text := Strip(sectionText);
    StripProperties(sectionText);
    if text != [] {
      CutsShape(text, 0, maxChars, overlapChars, fuel);
      CutsInText(text, 0, maxChars, overlapChars, fuel);
      var all := CutsFrom(text, 0, maxChars, overlapChars, fuel);
      if all.Cuts? {
        var ws := all.windows;
        assert WindowsBounded(ws, maxChars) by {
          forall i | 0 <= i < |ws| ensures ws[i].end - ws[i].start <= maxChars {
            assert ws[i].end == CutEnd(text, ws[i].start, maxChars);
          }
        }
        ChunksOfWellFormed(name, text, ws, maxChars);
        if maxChars > 0 {
          var w := ws[0];
          assert w.start == 0 && 0 < w.end;
          ChunksOfPrefix(name, text, ws, 1);
          assert ws[..1] == [w];
          var piece := text[w.start..w.end];
          StripProperties(piece);
          assert piece[0] == text[0];
          assert Emitted(name, text, w, 0) != [];
        }
      }
    }
  }

  /** The labels of the chunks of a finished run: the section name and the position. */
  lemma ChunkSectionLabels(name: string, sectionText: string, maxChars: nat, overlapChars: int, fuel: nat)
    ensures var r := ChunkSectionRun(name, sectionText, maxChars, overlapChars, fuel);
      r.Chunked? ==> forall i :: 0 <= i < |r.chunks| ==> r.chunks[i].section == name && r.chunks[i].index == i
  {
    ChunkSectionSpec(name, sectionText, maxChars, overlapChars, fuel);
  }

  /** With a non-negative overlap, the windows of a finished run cover all the stripped
      section text. */
  lemma ChunkSectionCovers(sectionText: string, maxChars: nat, overlapChars: int, fuel: nat, p: nat)
    requires overlapChars >= 0 && p < |Strip(sectionText)|
    requires CutsFrom(Strip(sectionText), 0, maxChars, overlapChars, fuel).Cuts?
    ensures var ws := CutsFrom(Strip(sectionText), 0, maxChars, overlapChars, fuel).windows;
            exists i :: 0 <= i < |ws| && ws[i].start <= p < ws[i].end
  {
    CutsShape(Strip(sectionText), 0, maxChars, overlapChars, fuel);
    ChainCovers(Strip(sectionText), CutsFrom(Strip(sectionText), 0, maxChars, overlapChars, fuel).windows,
                0, maxChars, overlapChars, p);
  }

  /** A finished run of chunk_section gives the same chunks with a larger budget. */
  lemma ChunkSectionFuelMonotone(name: string, sectionText: string, maxChars: nat, overlapChars: int,
                                 fuel: nat, more: nat)
    requires fuel <= more && ChunkSectionRun(name, sectionText, maxChars, overlapChars, fuel).Chunked?
    ensures ChunkSectionRun(name, sectionText, maxChars, overlapChars, more)
         == ChunkSectionRun(name, sectionText, maxChars, overlapChars, fuel)
  {
    var text := Strip(sectionText);
    if text != [] {
      CutsFuelMonotone(text, 0, maxChars, overlapChars, fuel, more);
    }
  }

  /** Without overlap, chunk_section finishes within one iteration per character. */
  lemma ChunkSectionFinishesWithoutOverlap(name: string, sectionText: string, maxChars: nat,
                                           overlapChars: int, fuel: nat)
    requires maxChars > 0 && overlapChars <= 0 && fuel >= |sectionText|
    ensures ChunkSectionRun(name, sectionText, maxChars, overlapChars, fuel).Chunked?
  {
    var text := Strip(sectionText);
    if text != [] {
      forall s: nat | s < |text|
        ensures CutEnd(text, s, maxChars) == |text| || CutEnd(text, s, maxChars) - overlapChars > s
      {
      }
      CutsFinishWhenCursorAdvances(text, 0, maxChars, overlapChars, fuel);
    }
  }

  /** An occurrence inside a slice is an occurrence in the whole string. */
  lemma OccursInSlice(t: string, lo: nat, hi: nat, pat: string, j: int)
    requires lo <= hi <= |t| && OccursAt(t[lo..hi], pat, j)
    ensures OccursAt(t, pat, lo + j)
  {
    var u := t[lo..hi][j..j + |pat|];
    assert u == t[lo + j..lo + j + |pat|] by {
      forall k | 0 <= k < |pat| ensures u[k] == t[lo + j + k] {
      }
    }
  }

  /**
   * With an overlap shorter than the window and a section that has neither a paragraph
   * break nor a sentence break, every cut falls on the window edge, so chunk_section
   * finishes within one iteration per character.
   */
  lemma ChunkSectionFinishesWithoutBreaks(name: string, sectionText: string, maxChars: nat,
                                          overlapChars: int, fuel: nat)
    requires overlapChars < maxChars && fuel >= |sectionText|
    requires !Contains(sectionText, "\n\n") && !Contains(sectionText, ". ")
    ensures ChunkSectionRun(name, sectionText, maxChars, overlapChars, fuel).Chunked?
  {
    var text := Strip(sectionText);
    if text != [] {
      NoOccurrenceInStrip(sectionText, "\n\n");
      NoOccurrenceInStrip(sectionText, ". ");
      forall s: nat | s < |text|
        ensures CutEnd(text, s, maxChars) == |text| || CutEnd(text, s, maxChars) - overlapChars > s
      {
        CutAdvancesWithoutBreaks(text, s, maxChars, overlapChars);
      }
      CutsFinishWhenCursorAdvances(text, 0, maxChars, overlapChars, fuel);
    }
  }

  /** A pattern absent from a text is absent from the text stripped. */
  lemma NoOccurrenceInStrip(t: string, pat: string)
    requires !Contains(t, pat)
    ensures forall j :: !OccursAt(Strip(t), pat, j)
  {
    forall j | OccursAt(Strip(t), pat, j) ensures false {
      OccursInSlice(t, StripStart(t), StripEnd(t), pat, j);
    }
  }

  /** Without paragraph or sentence breaks every window is cut on its edge, so the cursor
      moves forward whenever the overlap is below the window size. */
  lemma CutAdvancesWithoutBreaks(text: string, s: nat, maxChars: nat, overlapChars: int)
    requires s < |text| && overlapChars < maxChars
    requires forall j :: !OccursAt(text, "\n\n", j)
    requires forall j :: !OccursAt(text, ". ", j)
    ensures CutEnd(text, s, maxChars) == |text| || CutEnd(text, s, maxChars) - overlapChars > s
  {
    var edge := Min(s + maxChars, |text|);
    CutEndSpec(text, s, maxChars);
    forall pat: string, j: int | (pat == "\n\n" || pat == ". ") && OccursAt(text[s..edge], pat, j)
      ensures false
    {
      OccursInSlice(text, s, edge, pat, j);
    }
  }

  /** A cursor whose cut does not reach the end of the text and whose next cursor is
      itself never gets out: the run exhausts any budget. */
  lemma {:induction false} StuckCursorRunsOutOfFuel(text: string, start: nat, maxChars: nat,
                                                    overlapChars: int, fuel: nat)
    requires start < |text| && CutEnd(text, start, maxChars) < |text|
    requires NextStart(CutEnd(text, start, maxChars), overlapChars) == start
    ensures CutsFrom(text, start, maxChars, overlapChars, fuel) == CutsOutOfFuel
    decreases fuel
  {
    if fuel > 0 {
      StuckCursorRunsOutOfFuel(text, start, maxChars, overlapChars, fuel - 1);
    }
  }

  /** 1000 letters, a paragraph break, then 2000 letters without any break. */
  const LoopingSection: string :=
    seq(3002, k requires 0 <= k < 3002 => if k < 1000 then 'a' else if k < 1002 then '\n' else 'b')

  /** In a window of LoopingSection that holds the paragraph break, that break is the
      last one. */
  lemma LoopingSectionLastBreak(start: nat)
    requires start <= 1000 && start + DefaultMaxChars < 3002
    ensures RFind(LoopingSection[start..start + DefaultMaxChars], "\n\n") == Some(1000 - start)
  {
    var text := LoopingSection;
    var w := text[start..start + DefaultMaxChars];
    var i := 1000 - start;
    assert w[i..i + 2] == "\n\n" by {
      assert w[i] == text[1000] == '\n';
      assert w[i + 1] == text[1001] == '\n';
    }
    forall j | i < j
      ensures !OccursAt(w, "\n\n", j)
    {
      if 0 <= j && j + 2 <= |w| {
        assert w[j + 1] == text[start + j + 1] == 'b';
        assert w[j..j + 2][1] == w[j + 1];
      }
    }
    RFindIs(w, "\n\n", i);
  }

  /** Every window of LoopingSection that holds the paragraph break and stops short of
      the end is cut just after its first newline. */
  lemma LoopingSectionCut(start: nat)
    requires start <= 1000 && start + DefaultMaxChars < 3002
    ensures CutEnd(LoopingSection, start, DefaultMaxChars) == 1001
  {
    LoopingSectionLastBreak(start);
  }

  /**
   * With the default window of 1200 and overlap of 200, chunk_section never finishes on
   * LoopingSection: the first cut ends at 1001, the cursor moves back to 801, and from
   * there every cut again ends at 1001.
   */
  lemma LoopingSectionNeverFinishes(name: string, fuel: nat)
    ensures ChunkSectionRun(name, LoopingSection, DefaultMaxChars, DefaultOverlapChars, fuel) == OutOfFuel
  {
    var text := LoopingSection;
    assert text[0] == 'a' && text[|text| - 1] == 'b';
    StripStripped(text);
    LoopingSectionCut(0);
    LoopingSectionCut(801);
    StuckCursorRunsOutOfFuel(text, 801, DefaultMaxChars, DefaultOverlapChars, if fuel > 0 then fuel - 1 else 0);
  }
}
