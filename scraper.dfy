/**
 * The browser-independent logic of the portal scraper: finding the job's row in
 * the results table, assembling the job dictionary from its cells, classifying
 * status elements, choosing login fields by ordered selector fallback, and the
 * credentials check in front of every search.
 *
 * The parsed HTML is given as rows of cells, each reduced to its text nodes in
 * document order (what BeautifulSoup hands the code); the live page is given
 * as an oracle saying which selectors attach and are visible.
 */
module Scraper {
  import opened Wrappers
  import opened Text
  import opened Dicts
  import opened Records

  // ---------------------------------------------------------------------------
  // First match in declared order
  // ---------------------------------------------------------------------------

  /** The position of the first element of `s` satisfying `p`, if there is one. */
  function FirstIndex<T>(s: seq<T>, p: T -> bool): (r: Option<nat>)
    ensures r.Some? ==> r.value < |s| && p(s[r.value]) && forall j :: 0 <= j < r.value ==> !p(s[j])
    ensures r.None? ==> forall j :: 0 <= j < |s| ==> !p(s[j])
  {
    if s == [] then None
    else if p(s[0]) then Some(0)
    else match FirstIndex(s[1..], p)
      case None => None
      case Some(i) => Some(i + 1)
  }

  /** The two postconditions of `FirstIndex` determine it: any first match is the one it returns. */
  lemma FirstIndexUnique<T>(s: seq<T>, p: T -> bool, i: nat)
    requires i < |s| && p(s[i]) && forall j :: 0 <= j < i ==> !p(s[j])
    ensures FirstIndex(s, p) == Some(i)
  {
  }

  // ---------------------------------------------------------------------------
  // The parsed table
  // ---------------------------------------------------------------------------

  /** A `<td>` element, as its text nodes in document order. */
  datatype Cell = Cell(strings: seq<string>)

  /** A `<tr>` element: its `<td>` cells, and every text node of the row in document order. */
  datatype Row = Row(cells: seq<Cell>, strings: seq<string>)

  /** `tag.get_text(strip=True)`: each text node stripped, then all of them concatenated. */
  function StrippedText(strings: seq<string>): string {
    if strings == [] then "" else Strip(strings[0]) + StrippedText(strings[1..])
  }

  function CellText(c: Cell): string {
    StrippedText(c.strings)
  }

  function RowText(r: Row): string {
    StrippedText(r.strings)
  }

  /** `text.replace(" ", "").replace("\n", "")`. */
  function Squash(s: string): (r: string)
  {
    Remove(Remove(s, ' '), '\n')
  }

  predicate CellMatches(jobId: string, c: Cell) {
    Contains(Squash(CellText(c)), jobId)
  }

  /** First search strategy: some `<td>` of the row holds the job ID. */
  predicate HasMatchingCell(jobId: string, r: Row) {
    exists c :: c in r.cells && CellMatches(jobId, c)
  }

  /** Second search strategy: the whole row's text holds the job ID. */
  predicate RowTextMatches(jobId: string, r: Row) {
    Contains(Squash(RowText(r)), jobId)
  }

  /** The row the scraper settles on: the first row with a matching cell, else the first row whose text matches. */
  function LocateRow(jobId: string, rows: seq<Row>): Option<nat> {
    var byCell := FirstIndex(rows, (r: Row) => HasMatchingCell(jobId, r));
    if byCell.Some? then byCell else FirstIndex(rows, (r: Row) => RowTextMatches(jobId, r))
  }

  /** The row chosen is the first one, in document order, with a matching cell; the row-text test decides only when no cell anywhere matches. */
  lemma LocateRowIsFirstMatch(jobId: string, rows: seq<Row>)
    ensures (exists i :: 0 <= i < |rows| && HasMatchingCell(jobId, rows[i])) ==>
      var r := LocateRow(jobId, rows);
      r.Some? && r.value < |rows| && HasMatchingCell(jobId, rows[r.value])
      && forall j :: 0 <= j < r.value ==> !HasMatchingCell(jobId, rows[j])
    ensures (forall i :: 0 <= i < |rows| ==> !HasMatchingCell(jobId, rows[i])) ==>
      LocateRow(jobId, rows) == FirstIndex(rows, (r: Row) => RowTextMatches(jobId, r))
    ensures LocateRow(jobId, rows).None? <==>
      forall i :: 0 <= i < |rows| ==> !HasMatchingCell(jobId, rows[i]) && !RowTextMatches(jobId, rows[i])
  {
    var byCell := FirstIndex(rows, (r: Row) => HasMatchingCell(jobId, r));
    var byText := FirstIndex(rows, (r: Row) => RowTextMatches(jobId, r));
    if byCell.None? {
      assert forall i :: 0 <= i < |rows| ==> !HasMatchingCell(jobId, rows[i]);
      assert byText.None? ==> forall i :: 0 <= i < |rows| ==> !RowTextMatches(jobId, rows[i]);
    }
  }

  /** First strategy as the scraper runs it: nested loops over rows and their cells that stop at the first hit. */
  method FindRowByCell(jobId: string, rows: seq<Row>) returns (jobRow: Option<nat>)
    ensures jobRow == FirstIndex(rows, (r: Row) => HasMatchingCell(jobId, r))
  {
    jobRow := None;
    var i := 0;
    while i < |rows|
      invariant 0 <= i <= |rows|
      invariant jobRow.None?
      invariant forall j :: 0 <= j < i ==> !HasMatchingCell(jobId, rows[j])
    {
      var cells := rows[i].cells;
      var k := 0;
      while k < |cells|
        invariant 0 <= k <= |cells|
        invariant jobRow.None?
        invariant forall m :: 0 <= m < k ==> !CellMatches(jobId, cells[m])
      {
        var cellText := CellText(cells[k]);
        if Contains(Squash(cellText), jobId) {
          assert cells[k] in rows[i].cells && CellMatches(jobId, cells[k]);
          jobRow := Some(i);
          break;
        }
        k := k + 1;
      }
      if jobRow.Some? {
        FirstIndexUnique(rows, (r: Row) => HasMatchingCell(jobId, r), i);
        return;
      }
      forall c | c in cells ensures !CellMatches(jobId, c) {
        var m :| 0 <= m < |cells| && cells[m] == c;
      }
      i := i + 1;
    }
  }

  /** Second strategy as the scraper runs it: a loop over the rows' texts that stops at the first hit. */
  method FindRowByText(jobId: string, rows: seq<Row>) returns (jobRow: Option<nat>)
    ensures jobRow.Some? ==> jobRow.value < |rows| && RowTextMatches(jobId, rows[jobRow.value])
    ensures jobRow.Some? ==> forall m :: 0 <= m < jobRow.value ==> !RowTextMatches(jobId, rows[m])
    ensures jobRow.None? ==> forall m :: 0 <= m < |rows| ==> !RowTextMatches(jobId, rows[m])
    ensures jobRow == FirstIndex(rows, (r: Row) => RowTextMatches(jobId, r))
  {
    jobRow := None;
    var j := 0;
    while j < |rows|
      invariant 0 <= j <= |rows|
      invariant jobRow.None?
      invariant forall m :: 0 <= m < j ==> !RowTextMatches(jobId, rows[m])
    {
      var rowText := RowText(rows[j]);
      if Contains(Squash(rowText), jobId) {
        jobRow := Some(j);
        FirstIndexUnique(rows, (r: Row) => RowTextMatches(jobId, r), j);
        break;
      }
      j := j + 1;
    }
  }

  /** The row search: the cell strategy, and the row-text strategy only when it finds nothing. */
  method FindJobRow(jobId: string, rows: seq<Row>) returns (jobRow: Option<nat>)
    ensures jobRow == LocateRow(jobId, rows)
  {
    jobRow := FindRowByCell(jobId, rows);
    if jobRow.None? {
      jobRow := FindRowByText(jobId, rows);
    }
  }

  // ---------------------------------------------------------------------------
  // Assembling the job dictionary
  // ---------------------------------------------------------------------------

  /** The dictionary keys filled from cells 0 to 13, in that order. */
  const FieldNames: seq<string> := [
    "job_id", "account", "node_id", "result_type", "profile", "date_uploaded", "date_measured",
    "type", "serial_number", "org_chart", "technician", "company", "organization", "status"]

  /** The component value literals, kept exactly as the scraper spells them. */
  const Passed: string := "\U{201A}\U{FA}\U{D6} Passed"
  const Failed: string := "\U{201A}\U{F9}\U{E5} Failed"
  const Missing: string := "\U{201A}\U{FB}\U{F1} Missing"

  /** The status-cell abbreviations that are recorded as components. */
  const StatusAbbrevs: seq<string> := ["T", "G", "C", "P", "CRF", "TDR", "CPE"]

  /** The components reported when the status cell names none of the abbreviations. */
  const DefaultComponents: Dict := [
    ("tap", Passed), ("gnb_BI", Passed), ("Cpe", Passed), ("Pressure test", Missing), ("TDR", Missing)]

  /** Stripped text of cell `k` if the row has one, `default` otherwise. */
  function CellOr(cells: seq<Cell>, k: nat, default: string): string {
    if k < |cells| then CellText(cells[k]) else default
  }

  /** The fourteen positional fields of a matched row. */
  function JobFields(jobId: string, cells: seq<Cell>): (d: Dict)
    ensures |d| == |FieldNames|
    ensures forall k :: 0 <= k < |FieldNames| ==> d[k] == (FieldNames[k], CellOr(cells, k, if k == 0 then jobId else ""))
  {
    [ ("job_id", CellOr(cells, 0, jobId)),
      ("account", CellOr(cells, 1, "")),
      ("node_id", CellOr(cells, 2, "")),
      ("result_type", CellOr(cells, 3, "")),
      ("profile", CellOr(cells, 4, "")),
      ("date_uploaded", CellOr(cells, 5, "")),
      ("date_measured", CellOr(cells, 6, "")),
      ("type", CellOr(cells, 7, "")),
      ("serial_number", CellOr(cells, 8, "")),
      ("org_chart", CellOr(cells, 9, "")),
      ("technician", CellOr(cells, 10, "")),
      ("company", CellOr(cells, 11, "")),
      ("organization", CellOr(cells, 12, "")),
      ("status", CellOr(cells, 13, "")) ]
  }

  /** `"PASS" if "Pass" in status_text else status_text`. */
  function OverallStatus(statusText: string): string {
    if Contains(statusText, "Pass") then "PASS" else statusText
  }

  /** The verdict reads "PASS" exactly when the status text holds "Pass" or already is "PASS"; otherwise it is the text verbatim. */
  lemma OverallStatusIsPass(statusText: string)
    ensures OverallStatus(statusText) == "PASS" <==> Contains(statusText, "Pass") || statusText == "PASS"
    ensures !Contains(statusText, "Pass") ==> OverallStatus(statusText) == statusText
  {
  }

  /** What one text node of the status cell contributes: `components[abbrev_clean] = "Passed"` for a known abbreviation. */
  function AbbrevUpdate(fragment: string): Update {
    var abbrev := Strip(fragment);
    if abbrev in StatusAbbrevs then Some((abbrev, Passed)) else None
  }

  /** The updates of the status cell's text nodes, one per node, in document order. */
  function AbbrevUpdates(fragments: seq<string>): (u: seq<Update>)
    ensures |u| == |fragments| && forall i :: 0 <= i < |fragments| ==> u[i] == AbbrevUpdate(fragments[i])
    decreases |fragments|
  {
    if fragments == [] then []
    else AbbrevUpdates(fragments[..|fragments| - 1]) + [AbbrevUpdate(fragments[|fragments| - 1])]
  }

  /** The components named by the status cell's text nodes: the dictionary the loop builds. */
  function AbbrevComponents(fragments: seq<string>): Dict {
    Assignments(AbbrevUpdates(fragments))
  }

  /** The loop over the status cell's text nodes. */
  method CollectAbbrevComponents(fragments: seq<string>) returns (components: Dict)
    ensures components == AbbrevComponents(fragments)
  {
    components := [];
    for i := 0 to |fragments|
      invariant components == AbbrevComponents(fragments[..i])
    {
      ghost var u := AbbrevUpdates(fragments[..i + 1]);
      assert fragments[..i + 1][..i] == fragments[..i];
      assert u[..i] == AbbrevUpdates(fragments[..i]);
      var abbrevClean := Strip(fragments[i]);
      if abbrevClean in StatusAbbrevs {
        components := Put(components, abbrevClean, Passed);
      }
    }
    assert fragments[..|fragments|] == fragments;
  }

  /** The components' keys are exactly the stripped text nodes that are known abbreviations, each once, each mapped to Passed. */
  lemma AbbrevComponentsSpec(fragments: seq<string>)
    ensures NoDupKeys(AbbrevComponents(fragments))
    ensures forall k :: k in KeysOf(AbbrevComponents(fragments)) <==>
      k in StatusAbbrevs && exists i :: 0 <= i < |fragments| && Strip(fragments[i]) == k
    ensures forall e :: e in AbbrevComponents(fragments) ==> e.1 == Passed
  {
    var u := AbbrevUpdates(fragments);
    var d := Assignments(u);
    AssignmentsNoDupKeys(u);
    AssignmentsUniform(u, Passed);
    forall k ensures k in KeysOf(d) <==> k in StatusAbbrevs && exists i :: 0 <= i < |fragments| && Strip(fragments[i]) == k {
      AssignmentsLastWins(u, k);
      if k in KeysOf(d) {
        var i :| Assigns(u, i, k);
        assert Strip(fragments[i]) == k;
      }
      if k in StatusAbbrevs && exists i :: 0 <= i < |fragments| && Strip(fragments[i]) == k {
        var i :| 0 <= i < |fragments| && Strip(fragments[i]) == k;
        assert Assigns(u, i, k);
      }
    }
  }

  /** `components if components else {...}`: the abbreviations found, or the fixed five-entry default. */
  function Components(fragments: seq<string>): Dict {
    var found := AbbrevComponents(fragments);
    if found != [] then found else DefaultComponents
  }

  /** `parse_job_html`: the job dictionary for `jobId` in the parsed results table. */
  function ParsedJob(jobId: string, rows: seq<Row>): JobData {
    match LocateRow(jobId, rows)
    case None => Failure("Job ID " + jobId + " not found")
    case Some(i) =>
      var cells := rows[i].cells;
      if |cells| < 10 then Failure("Incomplete data for Job ID " + jobId)
      else if |cells| > 13 then
        var statusCell := cells[13];
        JobData(true, None,
          Put(JobFields(jobId, cells), "overall_status", OverallStatus(CellText(statusCell))),
          Some(Components(statusCell.strings)))
      else JobData(true, None, JobFields(jobId, cells), None)
  }

  /** `parse_job_html` as the scraper runs it: the row search loops, the positional fields, then the loop over the status cell. */
  method ParseJobHtml(jobId: string, rows: seq<Row>) returns (job: JobData)
    ensures job == ParsedJob(jobId, rows)
  {
    var jobRow := FindJobRow(jobId, rows);
    if jobRow.None? {
      return Failure("Job ID " + jobId + " not found");
    }
    var cells := rows[jobRow.value].cells;
    if |cells| < 10 {
      return Failure("Incomplete data for Job ID " + jobId);
    }
    var fields := JobFields(jobId, cells);
    if |cells| > 13 {
      var statusCell := cells[13];
      fields := Put(fields, "overall_status", OverallStatus(CellText(statusCell)));
      var components := CollectAbbrevComponents(statusCell.strings);
      if components == [] {
        components := DefaultComponents;
      }
      return JobData(true, None, fields, Some(components));
    }
    return JobData(true, None, fields, None);
  }

  /** The failure outcomes: no matching row, or a matching row with fewer than ten cells; both carry a message and no fields. */
  lemma ParsedJobFailures(jobId: string, rows: seq<Row>)
    ensures LocateRow(jobId, rows).None? ==> ParsedJob(jobId, rows) == Failure("Job ID " + jobId + " not found")
    ensures LocateRow(jobId, rows).Some? && |rows[LocateRow(jobId, rows).value].cells| < 10 ==>
      ParsedJob(jobId, rows) == Failure("Incomplete data for Job ID " + jobId)
    ensures ParsedJob(jobId, rows).success <==>
      LocateRow(jobId, rows).Some? && |rows[LocateRow(jobId, rows).value].cells| >= 10
  {
  }

  /** The names of the positional fields are pairwise distinct, and none of them is "overall_status". */
  lemma FieldNamesDistinct()
    ensures forall i, j :: 0 <= i < j < |FieldNames| ==> FieldNames[i] != FieldNames[j]
    ensures "overall_status" !in FieldNames
  {
  }

  /** Looking a positional field up finds its cell's text. */
  lemma JobFieldsLookup(jobId: string, cells: seq<Cell>)
    ensures NoDupKeys(JobFields(jobId, cells))
    ensures "overall_status" !in KeysOf(JobFields(jobId, cells))
    ensures forall k :: 0 <= k < |FieldNames| ==>
      Get(JobFields(jobId, cells), FieldNames[k]) == Some(CellOr(cells, k, if k == 0 then jobId else ""))
  {
    var d := JobFields(jobId, cells);
    FieldNamesDistinct();
    assert KeysOf(d) == FieldNames;
    forall k | 0 <= k < |FieldNames|
      ensures Get(d, FieldNames[k]) == Some(CellOr(cells, k, if k == 0 then jobId else ""))
    {
      GetUnique(d, k);
    }
  }

  /** On success, field k is the stripped text of cell k when the row has that cell and "" otherwise; fields 0 to 9 always come from cells. */
  lemma ParsedJobFields(jobId: string, rows: seq<Row>)
    requires ParsedJob(jobId, rows).success
    ensures LocateRow(jobId, rows).Some?
    ensures var cells := rows[LocateRow(jobId, rows).value].cells;
      var fields := ParsedJob(jobId, rows).fields;
      && |cells| >= 10
      && (forall k :: 0 <= k < |FieldNames| ==> Get(fields, FieldNames[k]) == Some(if k < |cells| then CellText(cells[k]) else ""))
      && (forall k :: 0 <= k < 10 ==> Get(fields, FieldNames[k]) == Some(CellText(cells[k])))
  {
    var cells := rows[LocateRow(jobId, rows).value].cells;
    JobFieldsLookup(jobId, cells);
    FieldNamesDistinct();
  }

  /** The verdict and the components are recorded exactly when the row has a status cell (at least fourteen cells), and then come from that cell. */
  lemma ParsedJobStatus(jobId: string, rows: seq<Row>)
    requires ParsedJob(jobId, rows).success
    ensures var cells := rows[LocateRow(jobId, rows).value].cells;
      var job := ParsedJob(jobId, rows);
      && (Get(job.fields, "overall_status").Some? <==> |cells| >= 14)
      && (job.components.Some? <==> |cells| >= 14)
      && (|cells| >= 14 ==>
            && Get(job.fields, "overall_status") == Some(OverallStatus(CellText(cells[13])))
            && job.components == Some(Components(cells[13].strings)))
  {
    var cells := rows[LocateRow(jobId, rows).value].cells;
    JobFieldsLookup(jobId, cells);
  }

  /** The component map holds the abbreviations found, all Passed, or else exactly the five defaults. */
  lemma ComponentsSpec(fragments: seq<string>)
    ensures var found := exists i :: 0 <= i < |fragments| && Strip(fragments[i]) in StatusAbbrevs;
      && (found ==> forall k :: k in KeysOf(Components(fragments)) <==>
            k in StatusAbbrevs && exists i :: 0 <= i < |fragments| && Strip(fragments[i]) == k)
      && (found ==> forall e :: e in Components(fragments) ==> e.1 == Passed)
      && (!found ==> Components(fragments) == DefaultComponents)
  {
    AbbrevComponentsSpec(fragments);
    if exists i :: 0 <= i < |fragments| && Strip(fragments[i]) in StatusAbbrevs {
      var i :| 0 <= i < |fragments| && Strip(fragments[i]) in StatusAbbrevs;
      assert Strip(fragments[i]) in KeysOf(AbbrevComponents(fragments));
    } else {
      ghost var ks := KeysOf(AbbrevComponents(fragments));
      assert ks != [] ==> ks[0] in ks;
    }
  }

  // ---------------------------------------------------------------------------
  // Status elements on the results page
  // ---------------------------------------------------------------------------

  /** The component a status element's text reports, and its value; `None` for an empty or unrelated text. */
  function ClassifyStatusText(text: string): Option<(string, string)> {
    var t := Lower(text);
    var pass := Contains(t, "pass");
    if text == "" then None
    else if Contains(t, "tap") then Some(("tap", if pass then Passed else Failed))
    else if Contains(t, "gnb") || Contains(t, "bi") then Some(("gnb_BI", if pass then Passed else Failed))
    else if Contains(t, "cpe") then Some(("Cpe", if pass then Passed else Failed))
    else if Contains(t, "pressure") then Some(("Pressure test", if pass then Passed else Missing))
    else if Contains(t, "tdr") then Some(("TDR", if pass then Passed else Missing))
    else None
  }

  /** The keyword priority: tap before gnb/bi before cpe before pressure before tdr, and "pass" decides the value. */
  lemma ClassifyStatusTextPriority(text: string)
    ensures var t := Lower(text);
      var c := ClassifyStatusText(text);
      // no keyword of an earlier tier occurs: tap, gnb/bi, then cpe, then pressure
      var before := (n: int) =>
        Contains(t, "tap") || Contains(t, "gnb") || Contains(t, "bi") ||
        (n >= 1 && Contains(t, "cpe")) || (n >= 2 && Contains(t, "pressure"));
      && (c.Some? ==> (c.value.1 == Passed <==> Contains(t, "pass")))
      && (text != "" && Contains(t, "tap") ==> c.Some? && c.value.0 == "tap")
      && (text != "" && !Contains(t, "tap") && (Contains(t, "gnb") || Contains(t, "bi")) ==> c.Some? && c.value.0 == "gnb_BI")
      && (text != "" && !before(0) && Contains(t, "cpe") ==> c.Some? && c.value.0 == "Cpe")
      && (text != "" && !before(1) && Contains(t, "pressure") ==> c.Some? && c.value.0 == "Pressure test")
      && (text != "" && !before(2) && Contains(t, "tdr") ==> c.Some? && c.value.0 == "TDR")
      && (c.None? <==> (text == "" || (!before(2) && !Contains(t, "tdr"))))
      && (c.Some? && c.value.0 in {"Pressure test", "TDR"} ==> c.value.1 in {Passed, Missing})
      && (c.Some? && c.value.0 in {"tap", "gnb_BI", "Cpe"} ==> c.value.1 in {Passed, Failed})
  {
  }

  /** Text `i` of `texts` reports component `k`. */
  predicate Reports(texts: seq<string>, i: int, k: string) {
    0 <= i < |texts| && ClassifyStatusText(texts[i]).Some? && ClassifyStatusText(texts[i]).value.0 == k
  }

  /** The classification of each status element's text, in page order. */
  function StatusUpdates(texts: seq<string>): (u: seq<Update>)
    ensures |u| == |texts| && forall i :: 0 <= i < |texts| ==> u[i] == ClassifyStatusText(texts[i])
    decreases |texts|
  {
    if texts == [] then []
    else StatusUpdates(texts[..|texts| - 1]) + [ClassifyStatusText(texts[|texts| - 1])]
  }

  /** `extract_detailed_status` over the texts of the status elements: each classified text assigns its component, later ones overwriting earlier ones. */
  function DetailedComponents(texts: seq<string>): Dict {
    Assignments(StatusUpdates(texts))
  }

  /** The loop over the status elements. */
  method ExtractDetailedStatus(texts: seq<string>) returns (components: Dict)
    ensures components == DetailedComponents(texts)
  {
    components := [];
    for i := 0 to |texts|
      invariant components == DetailedComponents(texts[..i])
    {
      ghost var u := StatusUpdates(texts[..i + 1]);
      assert texts[..i + 1][..i] == texts[..i];
      assert u[..i] == StatusUpdates(texts[..i]);
      assert u[i] == ClassifyStatusText(texts[i]);
      var text := texts[i];
      if text != "" {
        var t := Lower(text);
        if Contains(t, "tap") {
          components := Put(components, "tap", if Contains(t, "pass") then Passed else Failed);
        } else if Contains(t, "gnb") || Contains(t, "bi") {
          components := Put(components, "gnb_BI", if Contains(t, "pass") then Passed else Failed);
        } else if Contains(t, "cpe") {
          components := Put(components, "Cpe", if Contains(t, "pass") then Passed else Failed);
        } else if Contains(t, "pressure") {
          components := Put(components, "Pressure test", if Contains(t, "pass") then Passed else Missing);
        } else if Contains(t, "tdr") {
          components := Put(components, "TDR", if Contains(t, "pass") then Passed else Missing);
        }
      }
    }
    assert texts[..|texts|] == texts;
  }

  /** A component is absent exactly when no text reports it; otherwise its value is the one the last text reporting it gives. */
  lemma DetailedComponentsLastWins(texts: seq<string>, k: string)
    ensures Get(DetailedComponents(texts), k).None? <==> forall i :: !Reports(texts, i, k)
    ensures forall i :: Reports(texts, i, k) && (forall j :: i < j ==> !Reports(texts, j, k)) ==>
      Get(DetailedComponents(texts), k) == Some(ClassifyStatusText(texts[i]).value.1)
  {
    var u := StatusUpdates(texts);
    AssignmentsLastWins(u, k);
    assert forall i :: Reports(texts, i, k) <==> Assigns(u, i, k);
  }

  /** `job_data["components"] = detailed` after a successful parse, when the status elements reported something. */
  function ApplyDetailedStatus(job: JobData, detailed: Dict): (r: JobData)
    ensures r.success == job.success && r.message == job.message && r.fields == job.fields
    ensures r.components == if job.success && detailed != [] then Some(detailed) else job.components
  {
    if job.success && detailed != [] then job.(components := Some(detailed)) else job
  }

  // ---------------------------------------------------------------------------
  // Login form: ordered selector fallback
  // ---------------------------------------------------------------------------

  /** The selectors tried for the username field, in order of preference. */
  const UsernameSelectors: seq<string> := [
    "input[placeholder=\"Username\"]", "input[type=\"text\"]", "input[name=\"username\"]",
    "input#username", "input[formcontrolname=\"username\"]"]

  /** The selectors tried for the password field, in order of preference. */
  const PasswordSelectors: seq<string> := [
    "input[placeholder=\"Password\"]", "input[type=\"password\"]", "input[name=\"password\"]",
    "input#password", "input[formcontrolname=\"password\"]"]

  /**
   * What the live login page answers for a selector: whether its first match
   * attaches within the ten-second wait, whether it is then visible, and the text
   * of the exception, if any, that `fill` and `press("Enter")` raise on that field.
   */
  datatype Page = Page(
    attaches: string -> bool,
    visible: string -> bool,
    fill: string -> Option<string>,
    press: string -> Option<string>)

  predicate Usable(page: Page, selector: string) {
    page.attaches(selector) && page.visible(selector)
  }

  /** The selector loop: the first selector, in declared order, that attaches and is visible. */
  method ResolveSelector(selectors: seq<string>, page: Page) returns (found: Option<nat>)
    ensures found.Some? ==> found.value < |selectors| && Usable(page, selectors[found.value])
    ensures found.Some? ==> forall j :: 0 <= j < found.value ==> !Usable(page, selectors[j])
    ensures found.None? <==> forall j :: 0 <= j < |selectors| ==> !Usable(page, selectors[j])
    ensures found == FirstIndex(selectors, (s: string) => Usable(page, s))
  {
    found := None;
    var i := 0;
    while i < |selectors|
      invariant 0 <= i <= |selectors|
      invariant forall j :: 0 <= j < i ==> !Usable(page, selectors[j])
    {
      var selector := selectors[i];
      if page.attaches(selector) && page.visible(selector) {
        found := Some(i);
        FirstIndexUnique(selectors, (s: string) => Usable(page, s), i);
        return;
      }
      i := i + 1;
    }
  }

  /** The field a selector list finds: its first usable selector. */
  function FirstUsable(page: Page, selectors: seq<string>): Option<string> {
    match FirstIndex(selectors, (s: string) => Usable(page, s))
    case None => None
    case Some(i) => Some(selectors[i])
  }

  datatype LoginOutcome =
    | FormFilled(usernameSelector: string, passwordSelector: string)
    | FormError(message: string)

  const LoginFormPrefix: string := "Failed to fill login form: "

  /** The `except` of the login-form step: the failure's text behind the fixed prefix. */
  function LoginFailure(reason: string): (r: LoginOutcome)
    ensures r.FormError? && StartsWith(r.message, LoginFormPrefix) && r.message[|LoginFormPrefix|..] == reason
  {
    FormError(LoginFormPrefix + reason)
  }

  /**
   * The login-form step as one `try`: find the username field, fill it, find the password
   * field, fill it, press Enter on it. The first step that raises ends the step with its
   * message behind the prefix of the `except`.
   */
  function LoginForm(page: Page): LoginOutcome {
    match FirstUsable(page, UsernameSelectors)
    case None => LoginFailure("Could not find username field with any selector")
    case Some(user) =>
      if page.fill(user).Some? then LoginFailure(page.fill(user).value)
      else match FirstUsable(page, PasswordSelectors)
        case None => LoginFailure("Could not find password field with any selector")
        case Some(pass) =>
          if page.fill(pass).Some? then LoginFailure(page.fill(pass).value)
          else if page.press(pass).Some? then LoginFailure(page.press(pass).value)
          else FormFilled(user, pass)
  }

  /** `FirstUsable` is the first usable selector of the list, and is none exactly when no selector is usable. */
  lemma FirstUsableSpec(page: Page, selectors: seq<string>)
    ensures FirstUsable(page, selectors).None? <==> forall j :: 0 <= j < |selectors| ==> !Usable(page, selectors[j])
    ensures FirstUsable(page, selectors).Some? ==>
      exists i :: 0 <= i < |selectors| && selectors[i] == FirstUsable(page, selectors).value &&
        Usable(page, selectors[i]) && forall j :: 0 <= j < i ==> !Usable(page, selectors[j])
  {
    var f := FirstIndex(selectors, (s: string) => Usable(page, s));
    if f.Some? {
      assert Usable(page, selectors[f.value]);
    } else {
      assert forall j :: 0 <= j < |selectors| ==> !Usable(page, selectors[j]);
    }
  }

  /**
   * The form is filled exactly when both lists have a usable selector and neither filling
   * nor pressing Enter raises on the fields found, which are the first usable selectors.
   */
  lemma LoginFormFilled(page: Page)
    ensures LoginForm(page).FormFilled? <==>
      && (exists j :: 0 <= j < |UsernameSelectors| && Usable(page, UsernameSelectors[j]))
      && (exists j :: 0 <= j < |PasswordSelectors| && Usable(page, PasswordSelectors[j]))
      && page.fill(FirstUsable(page, UsernameSelectors).value).None?
      && page.fill(FirstUsable(page, PasswordSelectors).value).None?
      && page.press(FirstUsable(page, PasswordSelectors).value).None?
    ensures LoginForm(page).FormFilled? ==>
      && LoginForm(page).usernameSelector in UsernameSelectors && Usable(page, LoginForm(page).usernameSelector)
      && LoginForm(page).passwordSelector in PasswordSelectors && Usable(page, LoginForm(page).passwordSelector)
  {
    FirstUsableSpec(page, UsernameSelectors);
    FirstUsableSpec(page, PasswordSelectors);
  }

  /**
   * Every other path fails with the prefix and then the missing field's text or the
   * exception's text, the steps taken in the order of the `try`: a missing username field
   * ends it before any fill, and a failed username fill before the password search.
   */
  lemma LoginFormErrors(page: Page)
    ensures (forall j :: 0 <= j < |UsernameSelectors| ==> !Usable(page, UsernameSelectors[j])) ==>
      LoginForm(page) == FormError("Failed to fill login form: " + "Could not find username field with any selector")
    ensures FirstUsable(page, UsernameSelectors).Some? && page.fill(FirstUsable(page, UsernameSelectors).value).Some? ==>
      LoginForm(page) == FormError("Failed to fill login form: " + page.fill(FirstUsable(page, UsernameSelectors).value).value)
    ensures (&& FirstUsable(page, UsernameSelectors).Some? && page.fill(FirstUsable(page, UsernameSelectors).value).None?
             && (forall j :: 0 <= j < |PasswordSelectors| ==> !Usable(page, PasswordSelectors[j]))) ==>
      LoginForm(page) == FormError("Failed to fill login form: " + "Could not find password field with any selector")
    ensures (&& FirstUsable(page, UsernameSelectors).Some? && page.fill(FirstUsable(page, UsernameSelectors).value).None?
             && FirstUsable(page, PasswordSelectors).Some?) ==>
      var pass := FirstUsable(page, PasswordSelectors).value;
      && (page.fill(pass).Some? ==> LoginForm(page) == FormError("Failed to fill login form: " + page.fill(pass).value))
      && (page.fill(pass).None? && page.press(pass).Some? ==>
            LoginForm(page) == FormError("Failed to fill login form: " + page.press(pass).value))
    ensures LoginForm(page).FormError? ==> StartsWith(LoginForm(page).message, "Failed to fill login form: ")
  {
    FirstUsableSpec(page, UsernameSelectors);
    FirstUsableSpec(page, PasswordSelectors);
  }

  /** The login-form step as the scraper runs it: the two selector loops with a fill between, then the Enter key. */
  method FillLoginForm(page: Page) returns (outcome: LoginOutcome)
    ensures outcome == LoginForm(page)
  {
    var user := ResolveSelector(UsernameSelectors, page);
    if user.None? {
      return LoginFailure("Could not find username field with any selector");
    }
    var usernameField := UsernameSelectors[user.value];
    var userError := page.fill(usernameField);
    if userError.Some? {
      return LoginFailure(userError.value);
    }
    var pass := ResolveSelector(PasswordSelectors, page);
    if pass.None? {
      return LoginFailure("Could not find password field with any selector");
    }
    var passwordField := PasswordSelectors[pass.value];
    var passError := page.fill(passwordField);
    if passError.Some? {
      return LoginFailure(passError.value);
    }
    var pressError := page.press(passwordField);
    if pressError.Some? {
      return LoginFailure(pressError.value);
    }
    return FormFilled(usernameField, passwordField);
  }

  // ---------------------------------------------------------------------------
  // Entry point
  // ---------------------------------------------------------------------------

  /** What the browser search came back with: its job dictionary, or an exception's text. */
  datatype SearchOutcome = Completed(job: JobData) | Crashed(error: string)

  const CredentialsNotConfigured: JobData :=
    Failure("VeEX credentials not configured. Please check environment variables.")

  /** `get_job_info`: refuse before any search unless both credentials are set; otherwise the search's result, an escaped exception becoming a failure. */
  function GetJobInfo(username: Option<string>, password: Option<string>, search: SearchOutcome): (r: JobData)
    ensures !Configured(username) || !Configured(password) ==> r == CredentialsNotConfigured
    ensures r.success ==> Configured(username) && Configured(password) && search == Completed(r)
    ensures search.Crashed? && Configured(username) && Configured(password) ==>
      r == Failure("Error fetching job data: " + search.error)
    ensures search.Completed? && Configured(username) && Configured(password) ==> r == search.job
  {
    if !Configured(username) || !Configured(password) then CredentialsNotConfigured
    else match search
      case Completed(job) => job
      case Crashed(e) => Failure("Error fetching job data: " + e)
  }

  /** Without both credentials the answer does not depend on the search at all: no search takes place. */
  lemma GetJobInfoSkipsSearch(username: Option<string>, password: Option<string>, s1: SearchOutcome, s2: SearchOutcome)
    requires !Configured(username) || !Configured(password)
    ensures GetJobInfo(username, password, s1) == GetJobInfo(username, password, s2)
    ensures !GetJobInfo(username, password, s1).success
  {
  }
}
