/**
 * The report evaluator (backend/app/llm/validate.py): schema checks, evidence coverage of
 * the claims, citation counting in the evidence quotes, and the composite score with its
 * recommendations. Each check is a method with the source's loops, proved equal to a
 * specification function about which the properties are proved.
 */
module Validate {
  import opened Wrappers
  import opened Text
  import opened JsonValues

  /** A report is a decoded JSON object. */
  type Report = map<string, Json>

  const RequiredFields: seq<string> :=
    ["ticker", "quarter", "summary", "guidance", "growth_drivers", "risks", "margin_dynamics", "qa_pressure_points"]

  const ListFields: seq<string> := ["guidance", "growth_drivers", "risks", "margin_dynamics", "qa_pressure_points"]

  const Tones: seq<string> := ["neutral", "positive", "negative"]

  // ---------------------------------------------------------------------------------
  // validate_report_structure
  // ---------------------------------------------------------------------------------

  /** One entry of the error list; the texts are those of the source with these values. */
  datatype StructureError =
    | MissingField(field: string)          // "Missing required field: <field>"
    | SummaryNotObject                     // "Summary must be a dictionary"
    | SummaryMissingHighLevel              // "Summary missing 'high_level' field"
    | SummaryMissingTone                   // "Summary missing 'tone' field"
    | InvalidTone(tone: Json)              // "Invalid tone value: <tone>"
    | NotAList(field: string)              // "<field> must be a list"
    | ItemNotObject(field: string, index: nat)  // "<field>[<index>] must be a dictionary"

  /** Membership in the list of allowed tones: only those strings compare equal. */
  predicate IsTone(j: Json) {
    j.JString? && j.s in Tones
  }

  /** One error per absent field, in list order. */
  function MissingFields(fields: seq<string>, report: Report): seq<StructureError> {
    if fields == [] then []
    else
      var n := |fields| - 1;
      MissingFields(fields[..n], report) + (if fields[n] in report then [] else [MissingField(fields[n])])
  }

  /** The checks of the summary object, made only when it is present. */
  function SummaryErrors(report: Report): seq<StructureError> {
    if "summary" !in report then []
    else
      match report["summary"]
      case JObject(m) =>
        (if "high_level" in m then [] else [SummaryMissingHighLevel])
        + (if "tone" !in m then [SummaryMissingTone]
           else if IsTone(m["tone"]) then []
           else [InvalidTone(m["tone"])])
      case _ => [SummaryNotObject]
  }

  /** One error per list item that is not an object, naming its index. */
  function ItemErrors(field: string, items: seq<Json>): seq<StructureError> {
    if items == [] then []
    else
      var n := |items| - 1;
      ItemErrors(field, items[..n]) + (if items[n].JObject? then [] else [ItemNotObject(field, n)])
  }

  function FieldErrors(field: string, report: Report): seq<StructureError> {
    if field !in report then []
    else
      match report[field]
      case JArray(items) => ItemErrors(field, items)
      case _ => [NotAList(field)]
  }

  function ListFieldErrors(fields: seq<string>, report: Report): seq<StructureError> {
    if fields == [] then []
    else
      var n := |fields| - 1;
      ListFieldErrors(fields[..n], report) + FieldErrors(fields[n], report)
  }

  /** The error list of validate_report_structure. */
  function StructureErrors(report: Report): seq<StructureError> {
    MissingFields(RequiredFields, report) + SummaryErrors(report) + ListFieldErrors(ListFields, report)
  }

  /** A report that follows the schema, stated independently of the error list. */
  ghost predicate WellStructured(report: Report) {
    && (forall f :: f in RequiredFields ==> f in report)
    && report["summary"].JObject?
    && "high_level" in report["summary"].fields
    && "tone" in report["summary"].fields
    && IsTone(report["summary"].fields["tone"])
    && (forall f :: f in ListFields ==> report[f].JArray?)
    && (forall f, j :: f in ListFields && 0 <= j < |report[f].items| ==> report[f].items[j].JObject?)
  }

  method ValidateReportStructure(report: Report) returns (errors: seq<StructureError>)
    ensures errors == StructureErrors(report)
  {
    errors := CheckRequiredFields(RequiredFields, report);
    var summaryErrors := CheckSummary(report);
    var listErrors := CheckListFields(ListFields, report);
    errors := errors + summaryErrors + listErrors;
  }

  /** `for field in required_fields: if field not in report: errors.append(...)`. */
  method CheckRequiredFields(fields: seq<string>, report: Report) returns (errors: seq<StructureError>)
    ensures errors == MissingFields(fields, report)
  {
    errors := [];
    var i := 0;
    while i < |fields|
      invariant 0 <= i <= |fields|
      invariant errors == MissingFields(fields[..i], report)
    {
      assert fields[..i + 1][..i] == fields[..i];
      if fields[i] !in report {
        errors := errors + [MissingField(fields[i])];
      }
      i := i + 1;
    }
    assert fields[..i] == fields;
  }

  method CheckSummary(report: Report) returns (errors: seq<StructureError>)
    ensures errors == SummaryErrors(report)
  {
    errors := [];
    if "summary" in report {
      var summary := report["summary"];
      if !summary.JObject? {
        errors := errors + [SummaryNotObject];
      } else {
        if "high_level" !in summary.fields {
          errors := errors + [SummaryMissingHighLevel];
        }
        if "tone" !in summary.fields {
          errors := errors + [SummaryMissingTone];
        } else if !IsTone(summary.fields["tone"]) {
          errors := errors + [InvalidTone(summary.fields["tone"])];
        }
      }
    }
  }

  method CheckListFields(fields: seq<string>, report: Report) returns (errors: seq<StructureError>)
    ensures errors == ListFieldErrors(fields, report)
  {
    errors := [];
    var f := 0;
    while f < |fields|
      invariant 0 <= f <= |fields|
      invariant errors == ListFieldErrors(fields[..f], report)
    {
      assert fields[..f + 1][..f] == fields[..f];
      var more := CheckListField(fields[f], report);
      errors := errors + more;
      f := f + 1;
    }
    assert fields[..f] == fields;
  }

  /** The checks of one list field: not a list, or its items that are not objects. */
  method CheckListField(field: string, report: Report) returns (errors: seq<StructureError>)
    ensures errors == FieldErrors(field, report)
  {
    errors := [];
    if field in report {
      if !report[field].JArray? {
        errors := [NotAList(field)];
      } else {
        var items := report[field].items;
        var idx := 0;
        while idx < |items|
          invariant 0 <= idx <= |items|
          invariant errors == ItemErrors(field, items[..idx])
        {
          assert items[..idx + 1][..idx] == items[..idx];
          if !items[idx].JObject? {
            errors := errors + [ItemNotObject(field, idx)];
          }
          idx := idx + 1;
        }
        assert items[..idx] == items;
      }
    }
  }

  lemma {:induction false} MissingFieldsSpec(fields: seq<string>, report: Report)
    ensures forall e :: e in MissingFields(fields, report) <==> e.MissingField? && e.field in fields && e.field !in report
  {
    if fields != [] {
      var n := |fields| - 1;
      MissingFieldsSpec(fields[..n], report);
      assert fields == fields[..n] + [fields[n]];
    }
  }

  lemma {:induction false} ItemErrorsSpec(field: string, items: seq<Json>)
    ensures forall e :: e in ItemErrors(field, items) <==>
      e.ItemNotObject? && e.field == field && e.index < |items| && !items[e.index].JObject?
  {
    if items != [] {
      var n := |items| - 1;
      ItemErrorsSpec(field, items[..n]);
      forall e ensures e in ItemErrors(field, items) <==>
        e.ItemNotObject? && e.field == field && e.index < |items| && !items[e.index].JObject?
      {
        if e.ItemNotObject? && e.index < n {
          assert items[..n][e.index] == items[e.index];
        }
      }
    }
  }

  lemma {:induction false} ListFieldErrorsSpec(fields: seq<string>, report: Report)
    ensures forall e :: e in ListFieldErrors(fields, report) <==>
      exists i :: 0 <= i < |fields| && e in FieldErrors(fields[i], report)
  {
    if fields != [] {
      var n := |fields| - 1;
      ListFieldErrorsSpec(fields[..n], report);
      forall e | e in ListFieldErrors(fields, report)
        ensures exists i :: 0 <= i < |fields| && e in FieldErrors(fields[i], report)
      {
        if e in ListFieldErrors(fields[..n], report) {
          var i :| 0 <= i < n && e in FieldErrors(fields[..n][i], report);
          assert fields[..n][i] == fields[i];
        }
      }
      forall e, i | 0 <= i < |fields| && e in FieldErrors(fields[i], report)
        ensures e in ListFieldErrors(fields, report)
      {
        if i < n {
          assert fields[..n][i] == fields[i];
        }
      }
    }
  }

  lemma {:induction false} MissingFieldsEmpty(fields: seq<string>, report: Report)
    requires forall f :: f in fields ==> f in report
    ensures MissingFields(fields, report) == []
  {
    if fields != [] {
      var n := |fields| - 1;
      assert forall f :: f in fields[..n] ==> f in fields;
      MissingFieldsEmpty(fields[..n], report);
    }
  }

  lemma {:induction false} ItemErrorsEmpty(field: string, items: seq<Json>)
    requires forall j :: 0 <= j < |items| ==> items[j].JObject?
    ensures ItemErrors(field, items) == []
  {
    if items != [] {
      var n := |items| - 1;
      assert forall j :: 0 <= j < n ==> items[..n][j] == items[j];
      ItemErrorsEmpty(field, items[..n]);
    }
  }

  lemma {:induction false} ListFieldErrorsEmpty(fields: seq<string>, report: Report)
    requires forall i :: 0 <= i < |fields| ==> FieldErrors(fields[i], report) == []
    ensures ListFieldErrors(fields, report) == []
  {
    if fields != [] {
      var n := |fields| - 1;
      assert forall i :: 0 <= i < n ==> fields[..n][i] == fields[i];
      ListFieldErrorsEmpty(fields[..n], report);
    }
  }

  lemma NoErrorsWhenWellStructured(report: Report)
    requires WellStructured(report)
    ensures StructureErrors(report) == []
  {
    MissingFieldsEmpty(RequiredFields, report);
    forall i | 0 <= i < |ListFields| ensures FieldErrors(ListFields[i], report) == [] {
      var f := ListFields[i];
      ItemErrorsEmpty(f, report[f].items);
    }
    ListFieldErrorsEmpty(ListFields, report);
  }

  lemma MissingFieldsEmptyMeans(fields: seq<string>, report: Report)
    requires MissingFields(fields, report) == []
    ensures forall f :: f in fields ==> f in report
  {
    MissingFieldsSpec(fields, report);
    forall f | f in fields ensures f in report {
      assert MissingField(f) !in MissingFields(fields, report);
    }
  }

  lemma {:induction false} ListFieldErrorsEmptyMeans(fields: seq<string>, report: Report)
    requires ListFieldErrors(fields, report) == []
    ensures forall i :: 0 <= i < |fields| ==> FieldErrors(fields[i], report) == []
  {
    if fields != [] {
      var n := |fields| - 1;
      assert |ListFieldErrors(fields, report)| == |ListFieldErrors(fields[..n], report)| + |FieldErrors(fields[n], report)|;
      ListFieldErrorsEmptyMeans(fields[..n], report);
      forall i | 0 <= i < |fields| ensures FieldErrors(fields[i], report) == [] {
        if i < n {
          assert fields[..n][i] == fields[i];
        }
      }
    }
  }

  /** A present field without errors is a list of objects. */
  lemma FieldErrorsEmptyMeans(field: string, report: Report)
    requires field in report && FieldErrors(field, report) == []
    ensures report[field].JArray?
    ensures forall j :: 0 <= j < |report[field].items| ==> report[field].items[j].JObject?
  {
    ItemErrorsSpec(field, report[field].items);
    forall j | 0 <= j < |report[field].items| ensures report[field].items[j].JObject? {
      assert ItemNotObject(field, j) !in ItemErrors(field, report[field].items);
    }
  }

  lemma WellStructuredWhenNoErrors(report: Report)
    requires StructureErrors(report) == []
    ensures WellStructured(report)
  {
    var m, l := MissingFields(RequiredFields, report), ListFieldErrors(ListFields, report);
    assert |StructureErrors(report)| == |m| + |SummaryErrors(report)| + |l|;
    MissingFieldsEmptyMeans(RequiredFields, report);
    ListFieldErrorsEmptyMeans(ListFields, report);
    forall f | f in ListFields
      ensures report[f].JArray?
      ensures forall j :: 0 <= j < |report[f].items| ==> report[f].items[j].JObject?
    {
      var i :| 0 <= i < |ListFields| && ListFields[i] == f;
      FieldErrorsEmptyMeans(f, report);
    }
  }

  /** is_valid, the error list being empty, holds exactly for a report that follows the
      schema. */
  lemma StructureValidIff(report: Report)
    ensures StructureErrors(report) == [] <==> WellStructured(report)
  {
    if StructureErrors(report) == [] {
      WellStructuredWhenNoErrors(report);
    }
    if WellStructured(report) {
      NoErrorsWhenWellStructured(report);
    }
  }

  /** The errors about list fields are of the two list kinds only. */
  lemma {:induction false} ListFieldErrorsKinds(fields: seq<string>, report: Report)
    ensures forall e :: e in ListFieldErrors(fields, report) ==> e.NotAList? || e.ItemNotObject?
  {
    if fields != [] {
      var n := |fields| - 1;
      ListFieldErrorsKinds(fields[..n], report);
      var f := fields[n];
      if f in report && report[f].JArray? {
        ItemErrorsSpec(f, report[f].items);
      }
    }
  }

  /** Missing-field errors, in front of errors of any other kind. */
  lemma MissingFirst(m: seq<StructureError>, rest: seq<StructureError>)
    requires forall e :: e in m ==> e.MissingField?
    requires forall e :: e in rest ==> !e.MissingField?
    ensures forall i :: 0 <= i < |m + rest| ==> ((m + rest)[i].MissingField? <==> i < |m|)
  {
    forall i | 0 <= i < |m + rest| ensures (m + rest)[i].MissingField? <==> i < |m| {
      if i < |m| {
        assert (m + rest)[i] == m[i] && m[i] in m;
      } else {
        assert (m + rest)[i] == rest[i - |m|] && rest[i - |m|] in rest;
      }
    }
  }

  /** The missing-field errors name exactly the absent required fields and come first,
      before every other error. */
  lemma StructureErrorsMissing(report: Report)
    ensures forall f :: MissingField(f) in StructureErrors(report) <==> f in RequiredFields && f !in report
    ensures forall i :: 0 <= i < |StructureErrors(report)| ==>
              (StructureErrors(report)[i].MissingField? <==> i < |MissingFields(RequiredFields, report)|)
  {
    var m := MissingFields(RequiredFields, report);
    var rest := SummaryErrors(report) + ListFieldErrors(ListFields, report);
    MissingFieldsSpec(RequiredFields, report);
    ListFieldErrorsKinds(ListFields, report);
    assert StructureErrors(report) == m + rest;
    MissingFirst(m, rest);
  }

  /** An item error names a list field whose value is a list and the index of an item of it
      that is not an object, and every such item has one. */
  lemma StructureErrorsItems(report: Report, field: string, index: nat)
    ensures ItemNotObject(field, index) in StructureErrors(report) <==>
      && field in ListFields && field in report && report[field].JArray?
      && index < |report[field].items| && !report[field].items[index].JObject?
  {
    MissingFieldsSpec(RequiredFields, report);
    ListFieldErrorsSpec(ListFields, report);
    var e := ItemNotObject(field, index);
    if e in ListFieldErrors(ListFields, report) {
      var i :| 0 <= i < |ListFields| && e in FieldErrors(ListFields[i], report);
      var f := ListFields[i];
      if f in report && report[f].JArray? {
        ItemErrorsSpec(f, report[f].items);
      }
    }
    if field in ListFields && field in report && report[field].JArray? {
      var i :| 0 <= i < |ListFields| && ListFields[i] == field;
      ItemErrorsSpec(field, report[field].items);
    }
  }

  // ---------------------------------------------------------------------------------
  // validate_evidence_coverage
  // ---------------------------------------------------------------------------------

  /** A list section of the report: the field that holds its claim and the evidence fields
      that can support the claim. */
  datatype ClaimSection = ClaimSection(name: string, claimField: string, evidenceFields: seq<string>)

  /** The sections in the order both checks visit them. */
  const ClaimSections: seq<ClaimSection> := [
    ClaimSection("guidance", "claim", ["evidence_current", "evidence_prev"]),
    ClaimSection("growth_drivers", "claim", ["evidence"]),
    ClaimSection("risks", "claim", ["evidence_current", "evidence_first_mention"]),
    ClaimSection("margin_dynamics", "claim", ["evidence"]),
    ClaimSection("qa_pressure_points", "theme", ["evidence_question", "evidence_answer"])
  ]

  /** The AttributeError raised by calling a method the value's type does not have. */
  datatype Crash = AttributeError(typeName: string, attribute: string)

  function CrashMessage(c: Crash): string {
    "'" + c.typeName + "' object has no attribute '" + c.attribute + "'"
  }

  /** The items of a section: its value when that is a list, otherwise nothing is checked. */
  function SectionItems(report: Report, name: string): seq<Json> {
    if name in report && report[name].JArray? then report[name].items else []
  }

  /** Evidence that counts: a string that is neither blank nor "unknown" in any case. */
  predicate UsableEvidence(j: Json) {
    j.JString? && Strip(j.s) != [] && Lower(Strip(j.s)) != "unknown"
  }

  /** Some evidence field of the item holds evidence that counts. */
  predicate HasEvidence(fields: map<string, Json>, evidenceFields: seq<string>) {
    exists i :: 0 <= i < |evidenceFields| && evidenceFields[i] in fields && UsableEvidence(fields[evidenceFields[i]])
  }

  /** The claim text of a detail: at most 100 characters, then "..." when it was longer. */
  function Truncate(claim: string): (r: string) {
    if |claim| > 100 then claim[..100] + "..." else claim
  }

  datatype Detail = Detail(section: string, claim: string, missingEvidenceFields: seq<string>)

  /** What check_evidence does with one item. */
  datatype ClaimCheck = NoClaim | Covered | Uncovered(detail: Detail) | ClaimCrash(crash: Crash)

  /** The claim of an item, "" when absent (item.get(claim_field, "")). */
  function ClaimOf(fields: map<string, Json>, sec: ClaimSection): Json {
    if sec.claimField in fields then fields[sec.claimField] else JString("")
  }

  function CheckItem(item: Json, sec: ClaimSection): ClaimCheck {
    match item
    case JObject(m) =>
      var claim := ClaimOf(m, sec);
      if !Truthy(claim) then NoClaim
      else if !claim.JString? then ClaimCrash(AttributeError(TypeName(claim), "strip"))
      else if Strip(claim.s) == [] then NoClaim
      else if HasEvidence(m, sec.evidenceFields) then Covered
      else Uncovered(Detail(sec.name, Truncate(claim.s), sec.evidenceFields))
    case _ => ClaimCrash(AttributeError(TypeName(item), "get"))
  }

  /** An item on which check_evidence raises: not a dict, or a truthy claim that is not a
      string. */
  predicate BadItem(item: Json, sec: ClaimSection) {
    !item.JObject? || (Truthy(ClaimOf(item.fields, sec)) && !ClaimOf(item.fields, sec).JString?)
  }

  /** The counters of the coverage metrics. */
  datatype Tally = Tally(total: nat, withEvidence: nat, withoutEvidence: nat, details: seq<Detail>)

  function Count(t: Tally, c: ClaimCheck): Result<Tally, Crash> {
    match c
    case NoClaim => Success(t)
    case Covered => Success(t.(total := t.total + 1, withEvidence := t.withEvidence + 1))
    case Uncovered(d) =>
      Success(t.(total := t.total + 1, withoutEvidence := t.withoutEvidence + 1, details := t.details + [d]))
    case ClaimCrash(e) => Failure(e)
  }

  /** The items of one section counted in order from `start`; the first crash ends it. */
  function CoverItems(start: Tally, items: seq<Json>, sec: ClaimSection): Result<Tally, Crash> {
    if items == [] then Success(start)
    else
      var n := |items| - 1;
      match CoverItems(start, items[..n], sec)
      case Success(t) => Count(t, CheckItem(items[n], sec))
      case Failure(e) => Failure(e)
  }

  function CoverSections(report: Report, secs: seq<ClaimSection>): Result<Tally, Crash> {
    if secs == [] then Success(Tally(0, 0, 0, []))
    else
      var n := |secs| - 1;
      match CoverSections(report, secs[..n])
      case Success(t) => CoverItems(t, SectionItems(report, secs[n].name), secs[n])
      case Failure(e) => Failure(e)
  }

  datatype CoverageMetrics = CoverageMetrics(totalClaims: nat, claimsWithEvidence: nat,
                                             claimsWithoutEvidence: nat, evidenceCoverageRate: real,
                                             details: seq<Detail>)

  /** part / total, or 0 when there is nothing to count. */
  function Rate(part: nat, total: nat): real {
    if total > 0 then part as real / total as real else 0.0
  }

  /** The result of validate_evidence_coverage, or the exception it raises. */
  function EvidenceCoverage(report: Report): Result<CoverageMetrics, Crash> {
    match CoverSections(report, ClaimSections)
    case Success(t) =>
      Success(CoverageMetrics(t.total, t.withEvidence, t.withoutEvidence, Rate(t.withEvidence, t.total), t.details))
    case Failure(e) => Failure(e)
  }

  /** check_evidence: the loop over the evidence fields stops at the first that counts. */
  method CheckEvidence(item: Json, sec: ClaimSection) returns (c: ClaimCheck)
    ensures c == CheckItem(item, sec)
  {
    if !item.JObject? {
      return ClaimCrash(AttributeError(TypeName(item), "get"));
    }
    var m := item.fields;
    var claim := if sec.claimField in m then m[sec.claimField] else JString("");
    if !Truthy(claim) {
      return NoClaim;
    }
    if !claim.JString? {
      return ClaimCrash(AttributeError(TypeName(claim), "strip"));
    }
    if Strip(claim.s) == [] {
      return NoClaim;
    }
    var hasEvidence := false;
    var i := 0;
    while i < |sec.evidenceFields|
      invariant 0 <= i <= |sec.evidenceFields|
      invariant hasEvidence ==> HasEvidence(m, sec.evidenceFields)
      invariant !hasEvidence ==> forall k :: 0 <= k < i ==>
        !(sec.evidenceFields[k] in m && UsableEvidence(m[sec.evidenceFields[k]]))
    {
      var field := sec.evidenceFields[i];
      if field in m && UsableEvidence(m[field]) {
        hasEvidence := true;
        break;
      }
      i := i + 1;
    }
    if hasEvidence {
      return Covered;
    }
    return Uncovered(Detail(sec.name, Truncate(claim.s), sec.evidenceFields));
  }

  /** A crash in a prefix of the items is the crash of all of them. */
  lemma {:induction false} CoverItemsCrashStays(start: Tally, items: seq<Json>, sec: ClaimSection, k: nat, e: Crash)
    requires k <= |items| && CoverItems(start, items[..k], sec) == Failure(e)
    ensures CoverItems(start, items, sec) == Failure(e)
    decreases |items| - k
  {
    if k < |items| {
      assert items[..k + 1][..k] == items[..k];
      CoverItemsCrashStays(start, items, sec, k + 1, e);
    } else {
      assert items[..k] == items;
    }
  }

  lemma {:induction false} CoverSectionsCrashStays(report: Report, secs: seq<ClaimSection>, k: nat, e: Crash)
    requires k <= |secs| && CoverSections(report, secs[..k]) == Failure(e)
    ensures CoverSections(report, secs) == Failure(e)
    decreases |secs| - k
  {
    if k < |secs| {
      assert secs[..k + 1][..k] == secs[..k];
      CoverSectionsCrashStays(report, secs, k + 1, e);
    } else {
      assert secs[..k] == secs;
    }
  }

  /** The loop over the items of one section, updating the counters in place. */
  method CoverSectionItems(start: Tally, items: seq<Json>, sec: ClaimSection) returns (r: Result<Tally, Crash>)
    ensures r == CoverItems(start, items, sec)
  {
    var t := start;
    var i := 0;
    while i < |items|
      invariant 0 <= i <= |items|
      invariant CoverItems(start, items[..i], sec) == Success(t)
    {
      assert items[..i + 1][..i] == items[..i];
      var c := CheckEvidence(items[i], sec);
      match c {
        case NoClaim =>
        case Covered =>
          t := t.(total := t.total + 1, withEvidence := t.withEvidence + 1);
        case Uncovered(d) =>
          t := t.(total := t.total + 1, withoutEvidence := t.withoutEvidence + 1, details := t.details + [d]);
        case ClaimCrash(e) =>
          CoverItemsCrashStays(start, items, sec, i + 1, e);
          return Failure(e);
      }
      i := i + 1;
    }
    assert items[..i] == items;
    return Success(t);
  }

  method ValidateEvidenceCoverage(report: Report) returns (r: Result<CoverageMetrics, Crash>)
    ensures r == EvidenceCoverage(report)
  {
    var t := Tally(0, 0, 0, []);
    var s := 0;
    while s < |ClaimSections|
      invariant 0 <= s <= |ClaimSections|
      invariant CoverSections(report, ClaimSections[..s]) == Success(t)
    {
      assert ClaimSections[..s + 1][..s] == ClaimSections[..s];
      var res := CoverSectionItems(t, SectionItems(report, ClaimSections[s].name), ClaimSections[s]);
      if res.Failure? {
        CoverSectionsCrashStays(report, ClaimSections, s + 1, res.error);
        return Failure(res.error);
      }
      t := res.value;
      s := s + 1;
    }
    assert ClaimSections[..s] == ClaimSections;
    var rate := 0.0;
    if t.total > 0 {
      rate := t.withEvidence as real / t.total as real;
    }
    return Success(CoverageMetrics(t.total, t.withEvidence, t.withoutEvidence, rate, t.details));
  }

  lemma TruncateSpec(claim: string)
    ensures |claim| <= 100 ==> Truncate(claim) == claim
    ensures |claim| > 100 ==> Truncate(claim) == claim[..100] + "..." && |Truncate(claim)| == 103
    ensures |Truncate(claim)| <= 103
  {
  }

  /** The counters agree: every counted claim is covered or not, there is one detail per
      uncovered claim, and no detail's claim is longer than 103 characters. */
  ghost predicate TallyOk(t: Tally) {
    && t.total == t.withEvidence + t.withoutEvidence
    && |t.details| == t.withoutEvidence
    && forall i :: 0 <= i < |t.details| ==> |t.details[i].claim| <= 103
  }

  lemma {:induction false} CoverItemsOk(start: Tally, items: seq<Json>, sec: ClaimSection)
    requires TallyOk(start)
    ensures CoverItems(start, items, sec).Success? ==> TallyOk(CoverItems(start, items, sec).value)
  {
    if items != [] {
      var n := |items| - 1;
      CoverItemsOk(start, items[..n], sec);
      var c := CheckItem(items[n], sec);
      if c.Uncovered? && CoverItems(start, items[..n], sec).Success? {
        var t := CoverItems(start, items[..n], sec).value;
        var ds := t.details + [c.detail];
        TruncateSpec(items[n].fields[sec.claimField].s);
        assert forall i :: 0 <= i < |ds| ==> |ds[i].claim| <= 103 by {
          forall i | 0 <= i < |ds| ensures |ds[i].claim| <= 103 {
            if i < |t.details| {
              assert ds[i] == t.details[i];
            }
          }
        }
      }
    }
  }

  lemma {:induction false} CoverSectionsOk(report: Report, secs: seq<ClaimSection>)
    ensures CoverSections(report, secs).Success? ==> TallyOk(CoverSections(report, secs).value)
  {
    if secs != [] {
      var n := |secs| - 1;
      CoverSectionsOk(report, secs[..n]);
      if CoverSections(report, secs[..n]).Success? {
        CoverItemsOk(CoverSections(report, secs[..n]).value, SectionItems(report, secs[n].name), secs[n]);
      }
    }
  }

  /**
   * The coverage metrics are consistent: total = covered + uncovered, one detail per
   * uncovered claim with its text cut to at most 103 characters, and the rate lies in
   * [0, 1], reaching 1 exactly when there are claims and all of them are covered.
   */
  lemma CoverageCounts(report: Report)
    ensures var r := EvidenceCoverage(report);
      r.Success? ==>
        && r.value.totalClaims == r.value.claimsWithEvidence + r.value.claimsWithoutEvidence
        && |r.value.details| == r.value.claimsWithoutEvidence
        && (forall i :: 0 <= i < |r.value.details| ==> |r.value.details[i].claim| <= 103)
        && 0.0 <= r.value.evidenceCoverageRate <= 1.0
        && (r.value.evidenceCoverageRate == 1.0 <==> r.value.totalClaims > 0 && r.value.claimsWithoutEvidence == 0)
  {
    CoverSectionsOk(report, ClaimSections);
    var r := EvidenceCoverage(report);
    if r.Success? {
      RateBounds(r.value.claimsWithEvidence, r.value.totalClaims);
    }
  }

  /** A rate of part out of total lies in [0, 1] and is 1 exactly when part = total > 0. */
  lemma RateBounds(part: nat, total: nat)
    requires part <= total
    ensures 0.0 <= Rate(part, total) <= 1.0
    ensures Rate(part, total) == 1.0 <==> total > 0 && part == total
  {
    if total > 0 {
      assert Rate(part, total) * total as real == part as real;
    }
  }

  /** Some item of the given sections is one on which check_evidence raises. */
  ghost predicate HasBadItem(report: Report, secs: seq<ClaimSection>) {
    exists s, i :: 0 <= s < |secs| && 0 <= i < |SectionItems(report, secs[s].name)| &&
      BadItem(SectionItems(report, secs[s].name)[i], secs[s])
  }

  lemma {:induction false} CoverItemsCrashIff(start: Tally, items: seq<Json>, sec: ClaimSection)
    ensures CoverItems(start, items, sec).Failure? <==> exists i :: 0 <= i < |items| && BadItem(items[i], sec)
  {
    if items != [] {
      var n := |items| - 1;
      CoverItemsCrashIff(start, items[..n], sec);
      assert forall i :: 0 <= i < n ==> items[..n][i] == items[i];
    }
  }

  lemma {:induction false} CoverSectionsCrashIff(report: Report, secs: seq<ClaimSection>)
    ensures CoverSections(report, secs).Failure? <==> HasBadItem(report, secs)
  {
    if secs != [] {
      var n := |secs| - 1;
      CoverSectionsCrashIff(report, secs[..n]);
      assert forall s :: 0 <= s < n ==> secs[..n][s] == secs[s];
      if CoverSections(report, secs[..n]).Success? {
        CoverItemsCrashIff(CoverSections(report, secs[..n]).value, SectionItems(report, secs[n].name), secs[n]);
      }
      if HasBadItem(report, secs) {
        var s, i :| 0 <= s < |secs| && 0 <= i < |SectionItems(report, secs[s].name)| &&
          BadItem(SectionItems(report, secs[s].name)[i], secs[s]);
        if s < n {
          assert secs[..n][s] == secs[s];
          assert HasBadItem(report, secs[..n]);
        }
      }
    }
  }

  /** validate_evidence_coverage raises exactly when some item of a list section is not a
      dict or has a truthy claim that is not a string. */
  lemma CoverageCrashIff(report: Report)
    ensures EvidenceCoverage(report).Failure? <==> HasBadItem(report, ClaimSections)
  {
    CoverSectionsCrashIff(report, ClaimSections);
  }

  // ---------------------------------------------------------------------------------
  // validate_citation_format
  // ---------------------------------------------------------------------------------

  /** A quote cites its source when its lower-cased text names a document or chunk id. */
  predicate Cited(quote: string) {
    Contains(Lower(quote), "document_id") || Contains(Lower(quote), "chunk_id")
  }

  /** The counters of the citation metrics. */
  datatype CiteTally = CiteTally(total: nat, cited: nat, uncited: nat)

  /** The evidence fields of one item, counted in order from `start`. */
  function CiteFields(start: CiteTally, fields: map<string, Json>, evidenceFields: seq<string>): CiteTally {
    if evidenceFields == [] then start
    else
      var n := |evidenceFields| - 1;
      var t := CiteFields(start, fields, evidenceFields[..n]);
      var f := evidenceFields[n];
      if f in fields && UsableEvidence(fields[f]) then
        if Cited(fields[f].s) then t.(total := t.total + 1, cited := t.cited + 1)
        else t.(total := t.total + 1, uncited := t.uncited + 1)
      else t
  }

  /** check_citations on one item: item.get raises on anything but a dict. */
  function CiteItem(start: CiteTally, item: Json, sec: ClaimSection): Result<CiteTally, Crash> {
    match item
    case JObject(m) => Success(CiteFields(start, m, sec.evidenceFields))
    case _ => Failure(AttributeError(TypeName(item), "get"))
  }

  function CiteItems(start: CiteTally, items: seq<Json>, sec: ClaimSection): Result<CiteTally, Crash> {
    if items == [] then Success(start)
    else
      var n := |items| - 1;
      match CiteItems(start, items[..n], sec)
      case Success(t) => CiteItem(t, items[n], sec)
      case Failure(e) => Failure(e)
  }

  function CiteSections(report: Report, secs: seq<ClaimSection>): Result<CiteTally, Crash> {
    if secs == [] then Success(CiteTally(0, 0, 0))
    else
      var n := |secs| - 1;
      match CiteSections(report, secs[..n])
      case Success(t) => CiteItems(t, SectionItems(report, secs[n].name), secs[n])
      case Failure(e) => Failure(e)
  }

  datatype CitationMetrics = CitationMetrics(totalEvidenceFields: nat, evidenceWithCitations: nat,
                                             evidenceWithoutCitations: nat, citationRate: real)

  /** The result of validate_citation_format, or the exception it raises. */
  function CitationQuality(report: Report): Result<CitationMetrics, Crash> {
    match CiteSections(report, ClaimSections)
    case Success(t) => Success(CitationMetrics(t.total, t.cited, t.uncited, Rate(t.cited, t.total)))
    case Failure(e) => Failure(e)
  }

  /** The loop of check_citations over the evidence fields of one item. */
  method CheckCitations(start: CiteTally, fields: map<string, Json>, evidenceFields: seq<string>)
    returns (t: CiteTally)
    ensures t == CiteFields(start, fields, evidenceFields)
  {
    t := start;
    var i := 0;
    while i < |evidenceFields|
      invariant 0 <= i <= |evidenceFields|
      invariant t == CiteFields(start, fields, evidenceFields[..i])
    {
      assert evidenceFields[..i + 1][..i] == evidenceFields[..i];
      var f := evidenceFields[i];
      if f in fields && UsableEvidence(fields[f]) {
        t := t.(total := t.total + 1);
        if Cited(fields[f].s) {
          t := t.(cited := t.cited + 1);
        } else {
          t := t.(uncited := t.uncited + 1);
        }
      }
      i := i + 1;
    }
    assert evidenceFields[..i] == evidenceFields;
  }

  lemma {:induction false} CiteItemsCrashStays(start: CiteTally, items: seq<Json>, sec: ClaimSection, k: nat, e: Crash)
    requires k <= |items| && CiteItems(start, items[..k], sec) == Failure(e)
    ensures CiteItems(start, items, sec) == Failure(e)
    decreases |items| - k
  {
    if k < |items| {
      assert items[..k + 1][..k] == items[..k];
      CiteItemsCrashStays(start, items, sec, k + 1, e);
    } else {
      assert items[..k] == items;
    }
  }

  lemma {:induction false} CiteSectionsCrashStays(report: Report, secs: seq<ClaimSection>, k: nat, e: Crash)
    requires k <= |secs| && CiteSections(report, secs[..k]) == Failure(e)
    ensures CiteSections(report, secs) == Failure(e)
    decreases |secs| - k
  {
    if k < |secs| {
      assert secs[..k + 1][..k] == secs[..k];
      CiteSectionsCrashStays(report, secs, k + 1, e);
    } else {
      assert secs[..k] == secs;
    }
  }

  method CiteSectionItems(start: CiteTally, items: seq<Json>, sec: ClaimSection) returns (r: Result<CiteTally, Crash>)
    ensures r == CiteItems(start, items, sec)
  {
    var t := start;
    var i := 0;
    while i < |items|
      invariant 0 <= i <= |items|
      invariant CiteItems(start, items[..i], sec) == Success(t)
    {
      assert items[..i + 1][..i] == items[..i];
      if !items[i].JObject? {
        var e := AttributeError(TypeName(items[i]), "get");
        CiteItemsCrashStays(start, items, sec, i + 1, e);
        return Failure(e);
      }
      t := CheckCitations(t, items[i].fields, sec.evidenceFields);
      i := i + 1;
    }
    assert items[..i] == items;
    return Success(t);
  }

  method ValidateCitationFormat(report: Report) returns (r: Result<CitationMetrics, Crash>)
    ensures r == CitationQuality(report)
  {
    var t := CiteTally(0, 0, 0);
    var s := 0;
    while s < |ClaimSections|
      invariant 0 <= s <= |ClaimSections|
      invariant CiteSections(report, ClaimSections[..s]) == Success(t)
    {
      assert ClaimSections[..s + 1][..s] == ClaimSections[..s];
      var res := CiteSectionItems(t, SectionItems(report, ClaimSections[s].name), ClaimSections[s]);
      if res.Failure? {
        CiteSectionsCrashStays(report, ClaimSections, s + 1, res.error);
        return Failure(res.error);
      }
      t := res.value;
      s := s + 1;
    }
    assert ClaimSections[..s] == ClaimSections;
    var rate := 0.0;
    if t.total > 0 {
      rate := t.cited as real / t.total as real;
    }
    return Success(CitationMetrics(t.total, t.cited, t.uncited, rate));
  }

  lemma {:induction false} CiteFieldsOk(start: CiteTally, fields: map<string, Json>, evidenceFields: seq<string>)
    requires start.total == start.cited + start.uncited
    ensures var t := CiteFields(start, fields, evidenceFields);
      t.total == t.cited + t.uncited && start.total <= t.total <= start.total + |evidenceFields|
  {
    if evidenceFields != [] {
      CiteFieldsOk(start, fields, evidenceFields[..|evidenceFields| - 1]);
    }
  }

  lemma {:induction false} CiteItemsOk(start: CiteTally, items: seq<Json>, sec: ClaimSection)
    requires start.total == start.cited + start.uncited
    ensures var r := CiteItems(start, items, sec);
      r.Success? ==> r.value.total == r.value.cited + r.value.uncited
  {
    if items != [] {
      var n := |items| - 1;
      CiteItemsOk(start, items[..n], sec);
      var r := CiteItems(start, items[..n], sec);
      if r.Success? && items[n].JObject? {
        CiteFieldsOk(r.value, items[n].fields, sec.evidenceFields);
      }
    }
  }

  lemma {:induction false} CiteSectionsOk(report: Report, secs: seq<ClaimSection>)
    ensures var r := CiteSections(report, secs);
      r.Success? ==> r.value.total == r.value.cited + r.value.uncited
  {
    if secs != [] {
      var n := |secs| - 1;
      CiteSectionsOk(report, secs[..n]);
      var r := CiteSections(report, secs[..n]);
      if r.Success? {
        CiteItemsOk(r.value, SectionItems(report, secs[n].name), secs[n]);
      }
    }
  }

  /** The citation metrics are consistent: total = cited + uncited, and the rate lies in
      [0, 1], reaching 1 exactly when there is evidence and all of it is cited. */
  lemma CitationCounts(report: Report)
    ensures var r := CitationQuality(report);
      r.Success? ==>
        && r.value.totalEvidenceFields == r.value.evidenceWithCitations + r.value.evidenceWithoutCitations
        && 0.0 <= r.value.citationRate <= 1.0
        && (r.value.citationRate == 1.0 <==>
              r.value.totalEvidenceFields > 0 && r.value.evidenceWithoutCitations == 0)
  {
    CiteSectionsOk(report, ClaimSections);
    var r := CitationQuality(report);
    if r.Success? {
      RateBounds(r.value.evidenceWithCitations, r.value.totalEvidenceFields);
    }
  }

  /** Some item of the given sections is not a dict. */
  ghost predicate HasNonObjectItem(report: Report, secs: seq<ClaimSection>) {
    exists s, i :: 0 <= s < |secs| && 0 <= i < |SectionItems(report, secs[s].name)| &&
      !SectionItems(report, secs[s].name)[i].JObject?
  }

  lemma {:induction false} CiteItemsCrashIff(start: CiteTally, items: seq<Json>, sec: ClaimSection)
    ensures CiteItems(start, items, sec).Failure? <==> exists i :: 0 <= i < |items| && !items[i].JObject?
  {
    if items != [] {
      var n := |items| - 1;
      CiteItemsCrashIff(start, items[..n], sec);
      assert forall i :: 0 <= i < n ==> items[..n][i] == items[i];
    }
  }

  lemma {:induction false} CiteSectionsCrashIff(report: Report, secs: seq<ClaimSection>)
    ensures CiteSections(report, secs).Failure? <==> HasNonObjectItem(report, secs)
  {
    if secs != [] {
      var n := |secs| - 1;
      CiteSectionsCrashIff(report, secs[..n]);
      assert forall s :: 0 <= s < n ==> secs[..n][s] == secs[s];
      if CiteSections(report, secs[..n]).Success? {
        CiteItemsCrashIff(CiteSections(report, secs[..n]).value, SectionItems(report, secs[n].name), secs[n]);
      }
      if HasNonObjectItem(report, secs) {
        var s, i :| 0 <= s < |secs| && 0 <= i < |SectionItems(report, secs[s].name)| &&
          !SectionItems(report, secs[s].name)[i].JObject?;
        if s < n {
          assert secs[..n][s] == secs[s];
          assert HasNonObjectItem(report, secs[..n]);
        }
      }
    }
  }

  /** validate_citation_format raises exactly when an item of a list section is not a
      dict, and then validate_evidence_coverage, which runs first, has raised already. */
  lemma CitationCrashIff(report: Report)
    ensures CitationQuality(report).Failure? <==> HasNonObjectItem(report, ClaimSections)
    ensures CitationQuality(report).Failure? ==> EvidenceCoverage(report).Failure?
  {
    CiteSectionsCrashIff(report, ClaimSections);
    CoverageCrashIff(report);
    if HasNonObjectItem(report, ClaimSections) {
      var s, i :| 0 <= s < |ClaimSections| && 0 <= i < |SectionItems(report, ClaimSections[s].name)| &&
        !SectionItems(report, ClaimSections[s].name)[i].JObject?;
      assert BadItem(SectionItems(report, ClaimSections[s].name)[i], ClaimSections[s]);
    }
  }

  // ---------------------------------------------------------------------------------
  // evaluate_report
  // ---------------------------------------------------------------------------------

  /** The recommendations, in the order they can be appended. The texts format the rates
      as percentages; that formatting is not modelled. */
  datatype Recommendation =
    | FixStructure                 // "Fix schema structure errors before proceeding"
    | LowCoverage(rate: real)      // "Low evidence coverage (<rate>). ..."
    | MissingEvidence(count: nat)  // "<count> claims missing evidence quotes"
    | LowCitation(rate: real)      // "Low citation rate (<rate>). ..."

  datatype Evaluation = Evaluation(isValid: bool, structureErrors: seq<StructureError>,
                                   evidenceCoverage: CoverageMetrics, citationQuality: CitationMetrics,
                                   overallScore: real, recommendations: seq<Recommendation>)

  function Recommendations(isValid: bool, cov: CoverageMetrics, cit: CitationMetrics): seq<Recommendation> {
    (if !isValid then [FixStructure] else [])
    + (if cov.totalClaims > 0 && cov.evidenceCoverageRate < 0.9 then [LowCoverage(cov.evidenceCoverageRate)] else [])
    + (if cov.totalClaims > 0 && cov.claimsWithoutEvidence > 0 then [MissingEvidence(cov.claimsWithoutEvidence)] else [])
    + (if cit.totalEvidenceFields > 0 && cit.citationRate < 0.5 then [LowCitation(cit.citationRate)] else [])
  }

  /** 0.3 for a valid structure, 0.4 times the coverage rate, 0.3 times the citation rate. */
  function Score(isValid: bool, cov: CoverageMetrics, cit: CitationMetrics): real {
    (if isValid then 0.3 else 0.0)
    + (if cov.totalClaims > 0 then 0.4 * cov.evidenceCoverageRate else 0.0)
    + (if cit.totalEvidenceFields > 0 then 0.3 * cit.citationRate else 0.0)
  }

  /** The result of evaluate_report, or the exception one of its checks raises. */
  function Evaluate(report: Report): Result<Evaluation, Crash> {
    var errors := StructureErrors(report);
    match EvidenceCoverage(report)
    case Failure(e) => Failure(e)
    case Success(cov) =>
      match CitationQuality(report)
      case Failure(e) => Failure(e)
      case Success(cit) =>
        var valid := errors == [];
        Success(Evaluation(valid, errors, cov, cit, Score(valid, cov, cit), Recommendations(valid, cov, cit)))
  }

  method EvaluateReport(report: Report) returns (r: Result<Evaluation, Crash>)
    ensures r == Evaluate(report)
  {
    var structureErrors := ValidateReportStructure(report);
    var coverage := ValidateEvidenceCoverage(report);
    if coverage.Failure? {
      return Failure(coverage.error);
    }
    var citation := ValidateCitationFormat(report);
    if citation.Failure? {
      return Failure(citation.error);
    }
    var cov, cit := coverage.value, citation.value;
    var isValid := |structureErrors| == 0;
    var recommendations := Recommend(isValid, cov, cit);
    var overallScore := OverallScore(isValid, cov, cit);
    return Success(Evaluation(isValid, structureErrors, cov, cit, overallScore, recommendations));
  }

  /** The recommendations, appended in the order of the checks. */
  method Recommend(isValid: bool, cov: CoverageMetrics, cit: CitationMetrics) returns (recommendations: seq<Recommendation>)
    ensures recommendations == Recommendations(isValid, cov, cit)
  {
    recommendations := [];
    if !isValid {
      recommendations := recommendations + [FixStructure];
    }
    if cov.totalClaims > 0 {
      if cov.evidenceCoverageRate < 0.9 {
        recommendations := recommendations + [LowCoverage(cov.evidenceCoverageRate)];
      }
      if cov.claimsWithoutEvidence > 0 {
        recommendations := recommendations + [MissingEvidence(cov.claimsWithoutEvidence)];
      }
    }
    if cit.totalEvidenceFields > 0 {
      if cit.citationRate < 0.5 {
        recommendations := recommendations + [LowCitation(cit.citationRate)];
      }
    }
  }

  /** The score, accumulated with += as the checks pass. */
  method OverallScore(isValid: bool, cov: CoverageMetrics, cit: CitationMetrics) returns (overallScore: real)
    ensures overallScore == Score(isValid, cov, cit)
  {
    overallScore := 0.0;
    if isValid {
      overallScore := overallScore + 0.3;
    }
    if cov.totalClaims > 0 {
      overallScore := overallScore + 0.4 * cov.evidenceCoverageRate;
    }
    if cit.totalEvidenceFields > 0 {
      overallScore := overallScore + 0.3 * cit.citationRate;
    }
  }

  /** The position of a recommendation in the fixed order. */
  function Rank(r: Recommendation): nat {
    match r
    case FixStructure => 0
    case LowCoverage(_) => 1
    case MissingEvidence(_) => 2
    case LowCitation(_) => 3
  }

  /**
   * The evaluation's verdicts: valid exactly when the report follows the schema; the score
   * in [0, 1], and 1 exactly for a valid report whose claims (at least one) are all covered
   * and whose evidence (at least one) is all cited.
   */
  lemma EvaluationScore(report: Report)
    ensures var r := Evaluate(report);
      r.Success? ==>
        && (r.value.isValid <==> WellStructured(report))
        && 0.0 <= r.value.overallScore <= 1.0
        && (r.value.overallScore == 1.0 <==>
              && r.value.isValid
              && r.value.evidenceCoverage.totalClaims > 0 && r.value.evidenceCoverage.claimsWithoutEvidence == 0
              && r.value.citationQuality.totalEvidenceFields > 0
              && r.value.citationQuality.evidenceWithoutCitations == 0)
  {
    StructureValidIff(report);
    CoverageCounts(report);
    CitationCounts(report);
  }

  /** The recommendations of one evaluation, as four one-element-or-empty parts. */
  lemma RecommendationsParts(isValid: bool, cov: CoverageMetrics, cit: CitationMetrics)
    returns (a: seq<Recommendation>, b: seq<Recommendation>, c: seq<Recommendation>, d: seq<Recommendation>)
    ensures Recommendations(isValid, cov, cit) == a + b + c + d
    ensures a == if !isValid then [FixStructure] else []
    ensures b == if cov.totalClaims > 0 && cov.evidenceCoverageRate < 0.9 then [LowCoverage(cov.evidenceCoverageRate)] else []
    ensures c == if cov.totalClaims > 0 && cov.claimsWithoutEvidence > 0 then [MissingEvidence(cov.claimsWithoutEvidence)] else []
    ensures d == if cit.totalEvidenceFields > 0 && cit.citationRate < 0.5 then [LowCitation(cit.citationRate)] else []
    ensures forall x :: x in a + b + c + d <==> x in a || x in b || x in c || x in d
  {
    a := if !isValid then [FixStructure] else [];
    b := if cov.totalClaims > 0 && cov.evidenceCoverageRate < 0.9 then [LowCoverage(cov.evidenceCoverageRate)] else [];
    c := if cov.totalClaims > 0 && cov.claimsWithoutEvidence > 0 then [MissingEvidence(cov.claimsWithoutEvidence)] else [];
    d := if cit.totalEvidenceFields > 0 && cit.citationRate < 0.5 then [LowCitation(cit.citationRate)] else [];
  }

  /** The recommendations appear at most once each, in the fixed order. */
  lemma RecommendationsRanked(isValid: bool, cov: CoverageMetrics, cit: CitationMetrics)
    ensures Ranked(Recommendations(isValid, cov, cit))
  {
    var a, b, c, d := RecommendationsParts(isValid, cov, cit);
    RankedAppend(a, b);
    RankedAppend(a + b, c);
    RankedAppend(a + b + c, d);
  }

  /**
   * Each recommendation appears exactly when its condition holds: an invalid structure;
   * coverage below 90% when there are claims; a citation rate below 50% when there is
   * evidence.
   */
  lemma RecommendationsWhen(isValid: bool, cov: CoverageMetrics, cit: CitationMetrics)
    ensures var recs := Recommendations(isValid, cov, cit);
      && (FixStructure in recs <==> !isValid)
      && ((exists x :: LowCoverage(x) in recs) <==> cov.totalClaims > 0 && cov.evidenceCoverageRate < 0.9)
      && ((exists x :: LowCitation(x) in recs) <==> cit.totalEvidenceFields > 0 && cit.citationRate < 0.5)
  {
    var a, b, c, d := RecommendationsParts(isValid, cov, cit);
    if b != [] {
      assert b[0] in a + b + c + d;
    }
    if d != [] {
      assert d[0] in a + b + c + d;
    }
  }

  /** The count of claims without evidence is recommended exactly when it is not zero. */
  lemma RecommendationsMissingEvidence(isValid: bool, cov: CoverageMetrics, cit: CitationMetrics)
    requires cov.claimsWithoutEvidence <= cov.totalClaims
    ensures var recs := Recommendations(isValid, cov, cit);
      && ((exists n :: MissingEvidence(n) in recs) <==> cov.claimsWithoutEvidence > 0)
      && (forall n :: MissingEvidence(n) in recs ==> n == cov.claimsWithoutEvidence)
  {
    var a, b, c, d := RecommendationsParts(isValid, cov, cit);
    if c != [] {
      assert c[0] in a + b + c + d;
    }
  }

  /** Recommendations in strictly increasing rank. */
  ghost predicate Ranked(recs: seq<Recommendation>) {
    forall i, j :: 0 <= i < j < |recs| ==> Rank(recs[i]) < Rank(recs[j])
  }

  lemma RankedAppend(xs: seq<Recommendation>, ys: seq<Recommendation>)
    requires |xs| <= 3 && |ys| <= 1 && Ranked(xs)
    requires forall x, y :: x in xs && y in ys ==> Rank(x) < Rank(y)
    ensures Ranked(xs + ys)
  {
    var zs := xs + ys;
    forall i, j | 0 <= i < j < |zs| ensures Rank(zs[i]) < Rank(zs[j]) {
      if j >= |xs| {
        assert zs[i] == xs[i] && xs[i] in xs && zs[j] == ys[j - |xs|] && ys[j - |xs|] in ys;
      } else {
        assert zs[i] == xs[i] && zs[j] == xs[j];
      }
    }
  }

  /** The recommendations of an evaluation: in the fixed order, the structure one exactly
      for an invalid report, the missing-evidence one exactly when a claim is uncovered. */
  lemma EvaluationRecommendations(report: Report)
    ensures var r := Evaluate(report);
      r.Success? ==>
        var recs := r.value.recommendations;
        && Ranked(recs)
        && (FixStructure in recs <==> !r.value.isValid)
        && ((exists n :: MissingEvidence(n) in recs) <==> r.value.evidenceCoverage.claimsWithoutEvidence > 0)
  {
    CoverageCounts(report);
    var r := Evaluate(report);
    if r.Success? {
      RecommendationsRanked(r.value.isValid, r.value.evidenceCoverage, r.value.citationQuality);
      RecommendationsWhen(r.value.isValid, r.value.evidenceCoverage, r.value.citationQuality);
      RecommendationsMissingEvidence(r.value.isValid, r.value.evidenceCoverage, r.value.citationQuality);
    }
  }

  /** evaluate_report raises exactly when some list item is not a dict or has a truthy
      claim that is not a string. */
  lemma EvaluationCrashIff(report: Report)
    ensures Evaluate(report).Failure? <==> HasBadItem(report, ClaimSections)
  {
    CoverageCrashIff(report);
    CitationCrashIff(report);
  }
}
