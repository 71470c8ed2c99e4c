/**
 * Transcript parsing (backend/app/ingestion/parser.py): normalise line endings, look for
 * the first Q&A marker of a fixed list on a lower-cased copy, and split the transcript
 * into a "prepared_remarks" section and a "qa" section there.
 */
module Parser {
  import opened Wrappers
  import opened Text

  /** One named section of a transcript; a parsed transcript is an ordered list of them,
      as the insertion-ordered dict of the source is. */
  datatype Section = Section(name: string, text: string)

  const PreparedRemarks: string := "prepared_remarks"
  const Qa: string := "qa"

  /** The markers, in the order they are tried. */
  const QaMarkers: seq<string> :=
    ["\nq&a", "\nq & a", "question-and-answer session", "questions and answers"]

  /** Each marker is some leading whitespace followed by its visible part. */
  const MarkerLeads: seq<string> := ["\n", "\n", "", ""]
  const MarkerHeads: seq<string> :=
    ["q&a", "q & a", "question-and-answer session", "questions and answers"]

  /** raw_text.replace("\r\n", "\n"): one left-to-right pass over non-overlapping matches. */
  function NormalizeNewlines(s: string): (r: string)
    ensures |r| <= |s|
  {
    if |s| >= 2 && s[0] == '\r' && s[1] == '\n' then "\n" + NormalizeNewlines(s[2..])
    else if s == [] then []
    else [s[0]] + NormalizeNewlines(s[1..])
  }

  predicate HasCrLf(s: string) {
    exists j :: 0 <= j < |s| && OccursAt(s, "\r\n", j)
  }

  /** The replacement leaves a string unchanged exactly when it holds no "\r\n". */
  lemma {:induction false} NormalizeIdentityIff(s: string)
    ensures NormalizeNewlines(s) == s <==> !HasCrLf(s)
  {
    if HasCrLf(s) {
      NormalizeShrinks(s);
    } else {
      NormalizeNoCrLf(s);
    }
  }

  lemma {:induction false} NormalizeShrinks(s: string)
    requires HasCrLf(s)
    ensures |NormalizeNewlines(s)| < |s|
  {
    var j :| 0 <= j < |s| && OccursAt(s, "\r\n", j);
    assert s[j] == '\r' && s[j + 1] == '\n' by {
      assert s[j..j + 2][0] == s[j] && s[j..j + 2][1] == s[j + 1];
    }
    if |s| >= 2 && s[0] == '\r' && s[1] == '\n' {
    } else {
      assert s[1..][j - 1..j + 1] == s[j..j + 2];
      assert OccursAt(s[1..], "\r\n", j - 1);
      NormalizeShrinks(s[1..]);
    }
  }

  lemma {:induction false} NormalizeNoCrLf(s: string)
    requires !HasCrLf(s)
    ensures NormalizeNewlines(s) == s
  {
    if s != [] {
      if |s| >= 2 {
        assert !OccursAt(s, "\r\n", 0);
        assert s[0..2] == [s[0], s[1]];
      }
      forall j | 0 <= j < |s| - 1 ensures !OccursAt(s[1..], "\r\n", j) {
        assert !OccursAt(s, "\r\n", j + 1);
        if j + 2 <= |s| - 1 {
          assert s[1..][j..j + 2] == s[j + 1..j + 3];
        }
      }
      NormalizeNoCrLf(s[1..]);
      assert s == [s[0]] + s[1..];
    }
  }

  /** A single pass: "\r\r\n" becomes "\r\n", which still holds a "\r\n". */
  lemma NormalizeIsSinglePass()
    ensures NormalizeNewlines("\r\r\n") == "\r\n"
    ensures HasCrLf(NormalizeNewlines("\r\r\n"))
  {
    assert NormalizeNewlines("\r\n") == "\n";
    assert NormalizeNewlines("\r\r\n") == "\r" + NormalizeNewlines("\r\n");
    assert OccursAt("\r\n", "\r\n", 0);
  }

  /** Position `marker` in the list and the index `index` where that marker was found. */
  datatype Hit = Hit(marker: nat, index: nat)

  /**
   * The `for marker in qa_markers: ... break` search: the first marker in LIST order that
   * occurs anywhere in `lower`, with the index of its first occurrence.
   */
  function FirstMarker(lower: string, markers: seq<string>): (r: Option<Hit>)
    ensures r.Some? ==> r.value.marker < |markers|
    ensures r.Some? ==> Find(lower, markers[r.value.marker]) == Some(r.value.index)
    ensures r.Some? ==> forall j :: 0 <= j < r.value.marker ==> Find(lower, markers[j]).None?
    ensures r.None? <==> forall j :: 0 <= j < |markers| ==> Find(lower, markers[j]).None?
  {
    if markers == [] then None
    else
      match Find(lower, markers[0])
      case Some(i) => Some(Hit(0, i))
      case None =>
        match FirstMarker(lower, markers[1..])
        case None => None
        case Some(h) => Some(Hit(h.marker + 1, h.index))
  }

  /** No marker occurs (case-insensitively) in the normalised transcript. */
  predicate NoMarker(raw: string) {
    forall j :: 0 <= j < |QaMarkers| ==> !Contains(Lower(NormalizeNewlines(raw)), QaMarkers[j])
  }

  /** The split at index `i`: the stripped text before it when that is not empty, then
      the stripped rest. */
  function SplitSections(text: string, i: nat): (r: seq<Section>)
    requires i <= |text| && !AllSpace(text[i..])
    ensures 1 <= |r| <= 2 && r[|r| - 1] == Section(Qa, Strip(text[i..]))
    ensures |r| == 2 <==> Strip(text[..i]) != []
    ensures |r| == 2 ==> r[0] == Section(PreparedRemarks, Strip(text[..i]))
    ensures forall k :: 0 <= k < |r| ==> r[k].text != [] && IsStripped(r[k].text)
    ensures forall k :: 0 <= k < |r| ==> IsSliceOf(r[k].text, text)
  {
    var prepared := Strip(text[..i]);
    var qa := Strip(text[i..]);
    StripSliceOf(text[..i], text, 0);
    StripSliceOf(text[i..], text, i);
    StripProperties(text[..i]);
    StripProperties(text[i..]);
    if prepared != [] then [Section(PreparedRemarks, prepared), Section(Qa, qa)]
    else [Section(Qa, qa)]
  }

  /**
   * parse_transcript. At most two sections, prepared remarks before Q&A; every section
   * text is a slice of the normalised transcript; with no marker the whole normalised
   * text (unstripped, even when empty) is the one prepared_remarks section; with a marker
   * every section is non-empty and stripped and a qa section is always present.
   */
  function ParseTranscript(raw: string): (r: seq<Section>)
    ensures |r| <= 2
    ensures forall k :: 0 <= k < |r| ==> r[k].name == PreparedRemarks || r[k].name == Qa
    ensures |r| == 2 ==> r[0].name == PreparedRemarks && r[1].name == Qa
    ensures forall k :: 0 <= k < |r| ==> IsSliceOf(r[k].text, NormalizeNewlines(raw))
    ensures NoMarker(raw) ==> r == [Section(PreparedRemarks, NormalizeNewlines(raw))]
    ensures !NoMarker(raw) ==> |r| >= 1 && r[|r| - 1].name == Qa
    ensures !NoMarker(raw) ==> forall k :: 0 <= k < |r| ==> r[k].text != [] && IsStripped(r[k].text)
  {
    var text := NormalizeNewlines(raw);
    var lower := Lower(text);
    var hit := FirstMarker(lower, QaMarkers);
    if hit.None? then
      assert text == text[0..|text|];
      [Section(PreparedRemarks, text)]
    else
      QaNotBlank(text, hit.value);
      SplitSections(text, hit.value.index)
  }

  /** A found marker contains a visible character, so the qa part never strips to empty. */
  lemma QaNotBlank(text: string, h: Hit)
    requires h.marker < |QaMarkers|
    requires Find(Lower(text), QaMarkers[h.marker]) == Some(h.index)
    ensures h.index <= |text| && !AllSpace(text[h.index..])
  {
    var m := QaMarkers[h.marker];
    MarkerHasQ(h.marker);
    var p := if m[0] == 'q' then 0 else 1;
    assert Lower(text)[h.index + p] == 'q' by {
      assert Lower(text)[h.index..h.index + |m|] == m;
      assert Lower(text)[h.index..h.index + |m|][p] == m[p];
    }
    LowerKeepsSpace(text);
    assert text[h.index..][p] == text[h.index + p];
  }

  /** Every marker has a 'q' among its first two characters. */
  lemma MarkerHasQ(j: nat)
    requires j < |QaMarkers|
    ensures |QaMarkers[j]| >= 2 && (QaMarkers[j][0] == 'q' || QaMarkers[j][1] == 'q')
  {
  }

  lemma MarkerParts(j: nat)
    requires j < |QaMarkers|
    ensures QaMarkers[j] == MarkerLeads[j] + MarkerHeads[j]
    ensures AllSpace(MarkerLeads[j])
    ensures MarkerHeads[j] != [] && IsStripped(MarkerHeads[j])
  {
    var head := MarkerHeads[j];
    assert head[0] == 'q' && head[|head| - 1] in {'a', 'n', 's'};
  }

  /**
   * If lower(t) begins with some whitespace `w` followed by a visible text `h` whose ends
   * are not whitespace, then t.strip() starts right after `w` and keeps all of `h`.
   */
  lemma StripBoundsAtHead(t: string, w: string, h: string)
    requires |w| + |h| <= |t| && Lower(t)[..|w| + |h|] == w + h
    requires AllSpace(w) && h != [] && IsStripped(h)
    ensures StripStart(t) == |w| && StripEnd(t) >= |w| + |h|
  {
    LowerKeepsSpace(t);
    LeadingSpacesSpec(t);
    TrailingSpacesSpec(t);
    var lt := Lower(t);
    forall k | 0 <= k < |w| ensures IsSpace(t[k]) {
      assert lt[k] == (w + h)[k] == w[k];
    }
    assert lt[|w|] == (w + h)[|w|] == h[0];
    assert !IsSpace(t[|w|]);
    var lead := LeadingSpaces(t);
    assert forall k :: 0 <= k < lead ==> IsSpace(t[k]) by {
      forall k | 0 <= k < lead ensures IsSpace(t[k]) {
        assert t[..lead][k] == t[k];
      }
    }
    var last := |w| + |h| - 1;
    assert lt[last] == (w + h)[last] == h[|h| - 1];
    assert !IsSpace(t[last]);
    var hi := StripEnd(t);
    assert forall k :: hi <= k < |t| ==> IsSpace(t[k]) by {
      forall k | hi <= k < |t| ensures IsSpace(t[k]) {
        assert t[hi..][k - hi] == t[k];
      }
    }
  }

  /** Under the same conditions, lower(t.strip()) begins with `h`. */
  lemma StripKeepsHead(t: string, w: string, h: string)
    requires |w| + |h| <= |t| && Lower(t)[..|w| + |h|] == w + h
    requires AllSpace(w) && h != [] && IsStripped(h)
    ensures |Strip(t)| >= |h| && Lower(Strip(t))[..|h|] == h
  {
    StripBoundsAtHead(t, w, h);
    var r := Strip(t);
    assert r == t[|w|..StripEnd(t)];
    var lt := Lower(t);
    forall k | 0 <= k < |h| ensures Lower(r)[k] == h[k] {
      assert Lower(r)[k] == LowerChar(r[k]) == LowerChar(t[|w| + k]) == lt[|w| + k];
      assert lt[|w| + k] == (w + h)[|w| + k];
    }
  }

  /**
   * With a marker, the transcript is split where the first listed marker that occurs
   * first occurs: the qa section is the stripped text from that index on, so its
   * lower-cased text begins with the visible part of that marker, and the
   * prepared_remarks section, when present, is the stripped text before it.
   */
  lemma {:induction false} ParseSplitsAtFirstMarker(raw: string, j: nat)
    requires j < |QaMarkers|
    requires Contains(Lower(NormalizeNewlines(raw)), QaMarkers[j])
    requires forall j' :: 0 <= j' < j ==> !Contains(Lower(NormalizeNewlines(raw)), QaMarkers[j'])
    ensures var text := NormalizeNewlines(raw);
            var i := Find(Lower(text), QaMarkers[j]).value;
            var r := ParseTranscript(raw);
            && i <= |text| && !AllSpace(text[i..])
            && r == SplitSections(text, i)
            && |Strip(text[i..])| >= |MarkerHeads[j]|
            && Lower(Strip(text[i..]))[..|MarkerHeads[j]|] == MarkerHeads[j]
  {
    var text := NormalizeNewlines(raw);
    var i := Find(Lower(text), QaMarkers[j]).value;
    SplitAtFirstMarker(raw, j);
    QaHead(text, i, j);
  }

  lemma SplitAtFirstMarker(raw: string, j: nat)
    requires j < |QaMarkers|
    requires Contains(Lower(NormalizeNewlines(raw)), QaMarkers[j])
    requires forall j' :: 0 <= j' < j ==> !Contains(Lower(NormalizeNewlines(raw)), QaMarkers[j'])
    ensures var text := NormalizeNewlines(raw);
            var i := Find(Lower(text), QaMarkers[j]).value;
            && OccursAt(Lower(text), QaMarkers[j], i)
            && i <= |text| && !AllSpace(text[i..])
            && ParseTranscript(raw) == SplitSections(text, i)
  {
    var text := NormalizeNewlines(raw);
    var lower := Lower(text);
    var i := Find(lower, QaMarkers[j]).value;
    var h := FirstMarker(lower, QaMarkers);
    assert h == Some(Hit(j, i)) by {
      assert h.Some?;
      assert Contains(lower, QaMarkers[h.value.marker]);
    }
    QaNotBlank(text, h.value);
  }

  /** Where marker `j` occurs at `i`, the stripped text from `i` begins with the visible
      part of the marker, case aside. */
  lemma QaHead(text: string, i: nat, j: nat)
    requires j < |QaMarkers| && OccursAt(Lower(text), QaMarkers[j], i)
    ensures |Strip(text[i..])| >= |MarkerHeads[j]|
    ensures Lower(Strip(text[i..]))[..|MarkerHeads[j]|] == MarkerHeads[j]
  {
    MarkerParts(j);
    var m := QaMarkers[j];
    var t := text[i..];
    assert Lower(t)[..|m|] == m by {
      LowerSuffix(text, i);
      PrefixOfSuffix(Lower(text), i, |m|);
    }
    StripKeepsHead(t, MarkerLeads[j], MarkerHeads[j]);
  }

  /** The list order decides, not the position in the text: here the fourth marker occurs
      at index 0 but the first marker, found at index 21, is the split point. */
  lemma ListOrderBeatsTextOrder()
    ensures ParseTranscript("Questions and answers\nQ&A") ==
      [Section(PreparedRemarks, "Questions and answers"), Section(Qa, "Q&A")]
  {
    var raw := "Questions and answers\nQ&A";
    ExampleHasNoCrLf();
    NormalizeIdentityIff(raw);
    assert NormalizeNewlines(raw) == raw;
    ExampleLower();
    var lower := "questions and answers\nq&a";
    ExampleFind();
    assert Contains(lower, QaMarkers[0]);
    ParseSplitsAtFirstMarker(raw, 0);
    assert ParseTranscript(raw) == SplitSections(raw, 21);
    ExampleSplit();
  }

  lemma ExampleSplit()
    ensures !AllSpace("Questions and answers\nQ&A"[21..])
    ensures SplitSections("Questions and answers\nQ&A", 21) ==
      [Section(PreparedRemarks, "Questions and answers"), Section(Qa, "Q&A")]
  {
    var raw := "Questions and answers\nQ&A";
    assert raw[..21] == "Questions and answers";
    assert raw[21..] == "\nQ&A";
    StripStripped("Questions and answers");
    ExampleStripQa();
  }

  lemma ExampleHasNoCrLf()
    ensures !HasCrLf("Questions and answers\nQ&A")
  {
    var raw := "Questions and answers\nQ&A";
    forall j | 0 <= j < |raw| ensures !OccursAt(raw, "\r\n", j) {
      assert raw[j] != '\r';
      if j + 2 <= |raw| {
        assert raw[j..j + 2][0] == raw[j];
      }
    }
  }

  lemma ExampleLower()
    ensures Lower("Questions and answers\nQ&A") == "questions and answers\nq&a"
  {
  }

  lemma ExampleFind()
    ensures Find("questions and answers\nq&a", "\nq&a") == Some(21)
  {
    var lower := "questions and answers\nq&a";
    assert OccursAt(lower, "\nq&a", 21);
    forall j | 0 <= j < 21 ensures !OccursAt(lower, "\nq&a", j) {
      assert lower[j] != '\n';
    }
  }

  lemma ExampleStripQa()
    ensures Strip("\nQ&A") == "Q&A"
  {
    assert "\nQ&A"[1..] == "Q&A";
    assert LeadingSpaces("\nQ&A") == 1;
    assert TrailingSpaces("\nQ&A") == 0;
  }
}
