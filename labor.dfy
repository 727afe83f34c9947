/**
 * `parseLaborData`: the line-oriented reader of a pasted labor-management
 * report. The text is cut into trimmed, non-blank lines, and each line is
 * handled in turn by a callback that reads and updates two pieces of state,
 * the current section and whether table rows are expected, and pushes rows
 * into the departments or areas list of the result.
 */
module LaborParser {
  import opened Options
  import opened Text

  const LAST_UPDATED := "Last Updated:"
  const FC := "FC:"
  const DEPARTMENT_HEADER := "Labor Department Totals"
  const AREA_HEADER := "Labor Area Totals"

  datatype Section = Departments | Areas

  /** One table row of the report. */
  datatype LaborRow = LaborRow(name: string, totalHours: real, totalUnits: int, uph: real,
                               totalTransactions: int, tph: real)

  /** The optional `metadata.lastUpdated` and `metadata.fc` fields. */
  datatype Metadata = Metadata(lastUpdated: Option<string>, fc: Option<string>)

  /** The parsed report object. */
  datatype LaborReport = LaborReport(departments: seq<LaborRow>, areas: seq<LaborRow>,
                                     functions: seq<LaborRow>, metadata: Metadata)

  /** `currentSection`, `isTableData` and the report built so far. */
  datatype ParserState = ParserState(section: Option<Section>, isTableData: bool, parsed: LaborReport)

  // ---------------------------------------------------------------- lines

  /** The pieces of the input, each trimmed, with the blank ones dropped. */
  function NonBlank(pieces: seq<string>): seq<string> {
    if pieces == [] then []
    else (if Trim(pieces[0]) != [] then [Trim(pieces[0])] else []) + NonBlank(pieces[1..])
  }

  /** `rawData.split('\n').map(line => line.trim()).filter(line => line)`. */
  function Lines(raw: string): seq<string> {
    NonBlank(SplitOnChar(raw, '\n'))
  }

  /** A trimmed piece is a slice of the piece, so it holds no character the piece lacks. */
  lemma TrimKeepsOut(s: string, c: char)
    requires c !in s
    ensures c !in Trim(s)
  {
    TrimSpec(s);
  }

  lemma {:induction false} NonBlankSpec(pieces: seq<string>, i: nat)
    requires forall k :: 0 <= k < |pieces| ==> '\n' !in pieces[k]
    requires i < |NonBlank(pieces)|
    ensures NonBlank(pieces)[i] != [] && IsTrimmed(NonBlank(pieces)[i]) && '\n' !in NonBlank(pieces)[i]
  {
    var head := if Trim(pieces[0]) != [] then [Trim(pieces[0])] else [];
    assert NonBlank(pieces) == head + NonBlank(pieces[1..]);
    if i < |head| {
      TrimSpec(pieces[0]);
      TrimKeepsOut(pieces[0], '\n');
    } else {
      NonBlankSpec(pieces[1..], i - |head|);
    }
  }

  /** The pieces are trimmed and filtered one by one, so the kept lines stay in input order. */
  lemma {:induction false} NonBlankAppend(a: seq<string>, b: seq<string>)
    ensures NonBlank(a + b) == NonBlank(a) + NonBlank(b)
    decreases |a|
  {
    if a == [] {
      assert a + b == b;
    } else {
      assert (a + b)[0] == a[0] && (a + b)[1..] == a[1..] + b;
      NonBlankAppend(a[1..], b);
    }
  }

  /** One piece is kept, trimmed, exactly when its trimmed text is not empty. */
  lemma NonBlankSingle(p: string)
    ensures NonBlank([p]) == if Trim(p) != [] then [Trim(p)] else []
  {
    assert [p][1..] == [];
  }

  /** The kept lines are exactly the trimmed pieces that are not blank. */
  lemma {:induction false} NonBlankMembers(pieces: seq<string>, l: string)
    ensures l in NonBlank(pieces) <==> exists k :: 0 <= k < |pieces| && Trim(pieces[k]) != [] && l == Trim(pieces[k])
    decreases |pieces|
  {
    if pieces != [] {
      var tail := pieces[1..];
      var head := if Trim(pieces[0]) != [] then [Trim(pieces[0])] else [];
      assert NonBlank(pieces) == head + NonBlank(tail);
      NonBlankMembers(tail, l);
      if l in NonBlank(tail) {
        var k :| 0 <= k < |tail| && Trim(tail[k]) != [] && l == Trim(tail[k]);
        assert tail[k] == pieces[k + 1];
      }
      if exists k :: 1 <= k < |pieces| && Trim(pieces[k]) != [] && l == Trim(pieces[k]) {
        var k :| 1 <= k < |pieces| && Trim(pieces[k]) != [] && l == Trim(pieces[k]);
        assert tail[k - 1] == pieces[k];
      }
    }
  }

  /** Every non-blank piece of the input reaches the parser trimmed, and every line is such a piece. */
  lemma LinesMembers(raw: string, l: string)
    ensures l in Lines(raw) <==>
            exists k :: 0 <= k < |SplitOnChar(raw, '\n')| && Trim(SplitOnChar(raw, '\n')[k]) != [] && l == Trim(SplitOnChar(raw, '\n')[k])
  {
    var pieces := SplitOnChar(raw, '\n');
    assert Lines(raw) == NonBlank(pieces);
    NonBlankMembers(pieces, l);
    if l in Lines(raw) {
      var k :| 0 <= k < |pieces| && Trim(pieces[k]) != [] && l == Trim(pieces[k]);
      assert Trim(SplitOnChar(raw, '\n')[k]) != [];
    }
  }

  /** Every line is non-blank, trimmed and free of line breaks. */
  lemma LinesAreTrimmed(raw: string, i: nat)
    requires i < |Lines(raw)|
    ensures Lines(raw)[i] != [] && IsTrimmed(Lines(raw)[i]) && '\n' !in Lines(raw)[i]
  {
    NonBlankSpec(SplitOnChar(raw, '\n'), i);
  }

  // ---------------------------------------------------------------- line kinds

  /** The header and navigation lines of the report page, which are skipped. */
  predicate IsNavigation(line: string) {
    Contains(line, "Chewy Labor Management") || Contains(line, "Welcome,")
    || Contains(line, "Reports") || Contains(line, "Actions")
  }

  /** A data line: at least five fields, and neither "Totals" nor "Labor" in it. */
  predicate IsRowLine(line: string) {
    |SplitFields(line)| >= 5 && !Contains(line, "Totals") && !Contains(line, "Labor")
  }

  /** A line that, reaching the reset at the end of the callback, turns table mode off. */
  predicate EndsTable(line: string) {
    Contains(line, "Totals") && !Contains(line, DEPARTMENT_HEADER) && !Contains(line, AREA_HEADER)
  }

  predicate NoDigit(s: string) {
    forall k :: 0 <= k < |s| ==> !IsDigit(s[k])
  }

  /** The row object built from the fields of a data line; every number falls back to 0. */
  function RowOf(parts: seq<string>): (r: LaborRow)
    requires |parts| >= 5
    ensures r.name == parts[0]
    ensures |parts| == 5 ==> r.tph == 0.0
  {
    LaborRow(parts[0], ParseFloatOr0(parts[1]), ParseIntOr0(parts[2]), ParseFloatOr0(parts[3]),
             ParseIntOr0(parts[4]), if |parts| > 5 then ParseFloatOr0(parts[5]) else 0.0)
  }

  /** A numeric field without a digit in it is read as 0. */
  lemma UnparsableFieldsAreZero(parts: seq<string>)
    requires |parts| >= 5
    ensures NoDigit(parts[1]) ==> RowOf(parts).totalHours == 0.0
    ensures NoDigit(parts[2]) ==> RowOf(parts).totalUnits == 0
    ensures NoDigit(parts[3]) ==> RowOf(parts).uph == 0.0
    ensures NoDigit(parts[4]) ==> RowOf(parts).totalTransactions == 0
    ensures |parts| > 5 && NoDigit(parts[5]) ==> RowOf(parts).tph == 0.0
  {
    forall k | 1 <= k < |parts| && NoDigit(parts[k])
      ensures ParseFloatOr0(parts[k]) == 0.0 && ParseIntOr0(parts[k]) == 0
    {
      NoDigitParsesToZero(parts[k]);
    }
  }

  // ---------------------------------------------------------------- the callback

  /** Which branch of the callback a line takes, in the order the callback tests them. */
  datatype LineKind = Navigation | LastUpdatedLine | FcLine | SectionHeader(section: Section) | TableHeader | Data

  function KindOf(line: string): LineKind {
    if IsNavigation(line) then Navigation
    else if Contains(line, LAST_UPDATED) then LastUpdatedLine
    else if Contains(line, FC) then FcLine
    else if line == DEPARTMENT_HEADER then SectionHeader(Departments)
    else if line == AREA_HEADER then SectionHeader(Areas)
    else if Contains(line, "Labor Function") || Contains(line, "Total Hours") then TableHeader
    else Data
  }

  /** A line that, reaching the section switch, turns table mode on. */
  predicate Opens(line: string) {
    KindOf(line).SectionHeader? || KindOf(line) == TableHeader
  }

  /** What the `lines.forEach` callback does to the state for one line. */
  function Step(st: ParserState, line: string): (r: ParserState)
    ensures r.parsed.functions == st.parsed.functions
    ensures st.parsed.departments <= r.parsed.departments && st.parsed.areas <= r.parsed.areas
    ensures |r.parsed.departments| + |r.parsed.areas| <= |st.parsed.departments| + |st.parsed.areas| + 1
  {
    var parsed := st.parsed;
    match KindOf(line)
    case Navigation => st
    case LastUpdatedLine =>
      st.(parsed := parsed.(metadata := parsed.metadata.(lastUpdated := Some(Trim(SecondPiece(line, LAST_UPDATED).value)))))
    case FcLine =>
      st.(parsed := parsed.(metadata := parsed.metadata.(fc := Some(Trim(SecondPiece(line, FC).value)))))
    case SectionHeader(section) => ParserState(Some(section), true, parsed)
    case TableHeader => st.(isTableData := true)
    case Data => DataStep(st, line)
  }

  /** The last part of the callback: record a row when one is expected, then the "Totals" reset. */
  function DataStep(st: ParserState, line: string): (r: ParserState)
    ensures r.section == st.section && r.parsed.metadata == st.parsed.metadata
  {
    var parsed := st.parsed;
    var parsed' :=
      if st.isTableData && st.section.Some? && IsRowLine(line) then
        var item := RowOf(SplitFields(line));
        if st.section.value == Departments then parsed.(departments := parsed.departments + [item])
        else parsed.(areas := parsed.areas + [item])
      else parsed;
    ParserState(st.section, st.isTableData && !EndsTable(line), parsed')
  }

  function Initial(): ParserState {
    ParserState(None, false, LaborReport([], [], [], Metadata(None, None)))
  }

  /** The state after the callback has run on every line, in order. */
  function Run(lines: seq<string>): ParserState {
    if lines == [] then Initial() else Step(Run(lines[..|lines| - 1]), lines[|lines| - 1])
  }

  /** The report `parseLaborData` returns. */
  function ParseLabor(raw: string): LaborReport {
    Run(Lines(raw)).parsed
  }

  lemma RunSnoc(lines: seq<string>, line: string)
    ensures Run(lines + [line]) == Step(Run(lines), line)
  {
    assert (lines + [line])[..|lines|] == lines;
  }

  // ---------------------------------------------------------------- the method

  /** The body of the callback, on the three pieces of state it touches. */
  method ProcessLine(section: Option<Section>, isTableData: bool, parsed: LaborReport, line: string)
    returns (section': Option<Section>, isTableData': bool, parsed': LaborReport)
    ensures ParserState(section', isTableData', parsed') == Step(ParserState(section, isTableData, parsed), line)
  {
    section', isTableData', parsed' := section, isTableData, parsed;
    if IsNavigation(line) {
      assert KindOf(line) == Navigation;
      return;
    }
    if Contains(line, LAST_UPDATED) {
      assert KindOf(line) == LastUpdatedLine;
      parsed' := parsed.(metadata := parsed.metadata.(lastUpdated := Some(Trim(SecondPiece(line, LAST_UPDATED).value))));
      return;
    }
    if Contains(line, FC) {
      assert KindOf(line) == FcLine;
      parsed' := parsed.(metadata := parsed.metadata.(fc := Some(Trim(SecondPiece(line, FC).value))));
      return;
    }
    if line == DEPARTMENT_HEADER {
      assert KindOf(line) == SectionHeader(Departments);
      section', isTableData' := Some(Departments), true;
      return;
    } else if line == AREA_HEADER {
      assert KindOf(line) == SectionHeader(Areas);
      section', isTableData' := Some(Areas), true;
      return;
    } else if Contains(line, "Labor Function") || Contains(line, "Total Hours") {
      assert KindOf(line) == TableHeader;
      isTableData' := true;
      return;
    }
    assert KindOf(line) == Data;
    isTableData', parsed' := ProcessTableLine(section, isTableData, parsed, line);
  }

  /** The part of the `lines.forEach` callback after the section switch: rows and the end of a table. */
  method ProcessTableLine(section: Option<Section>, isTableData: bool, parsed: LaborReport, line: string)
    returns (isTableData': bool, parsed': LaborReport)
    ensures ParserState(section, isTableData', parsed') == DataStep(ParserState(section, isTableData, parsed), line)
  {
    isTableData', parsed' := isTableData, parsed;
    if isTableData && section.Some? {
      var parts := SplitFields(line);
      if |parts| >= 5 && !Contains(line, "Totals") && !Contains(line, "Labor") {
        var item := RowOf(parts);
        if section.value == Departments {
          parsed' := parsed.(departments := parsed.departments + [item]);
        } else {
          parsed' := parsed.(areas := parsed.areas + [item]);
        }
      }
    }
    if Contains(line, "Totals") && !Contains(line, DEPARTMENT_HEADER) && !Contains(line, AREA_HEADER) {
      isTableData' := false;
    }
  }

  /** `parseLaborData(rawData)`. */
  method ParseLaborData(raw: string) returns (parsed: LaborReport)
    ensures parsed == ParseLabor(raw)
  {
    var lines := Lines(raw);
    var section: Option<Section> := None;
    var isTableData := false;
    parsed := LaborReport([], [], [], Metadata(None, None));
    var i := 0;
    while i < |lines|
      invariant 0 <= i <= |lines|
      invariant ParserState(section, isTableData, parsed) == Run(lines[..i])
    {
      RunSnoc(lines[..i], lines[i]);
      assert lines[..i + 1] == lines[..i] + [lines[i]];
      section, isTableData, parsed := ProcessLine(section, isTableData, parsed, lines[i]);
      i := i + 1;
    }
    assert lines[..|lines|] == lines;
  }

  // ---------------------------------------------------------------- properties

  /** A navigation line anywhere in the input changes nothing. */
  lemma {:induction false} NavigationLineIgnored(a: seq<string>, line: string, b: seq<string>)
    requires IsNavigation(line)
    ensures Run(a + [line] + b) == Run(a + b)
    decreases |b|
  {
    if b == [] {
      assert a + [line] + b == a + [line];
      assert a + b == a;
      RunSnoc(a, line);
    } else {
      var front, last := b[..|b| - 1], b[|b| - 1];
      NavigationLineIgnored(a, line, front);
      assert a + [line] + b == (a + [line] + front) + [last];
      assert a + b == (a + front) + [last];
      RunSnoc(a + [line] + front, last);
      RunSnoc(a + front, last);
    }
  }

  /** The section named by the most recent exact section header line. */
  function LastSection(lines: seq<string>): Option<Section> {
    if lines == [] then None
    else if lines[|lines| - 1] == DEPARTMENT_HEADER then Some(Departments)
    else if lines[|lines| - 1] == AREA_HEADER then Some(Areas)
    else LastSection(lines[..|lines| - 1])
  }

  /** A string lacking one of the characters of `p` does not contain `p`. */
  lemma MissingCharNotContained(s: string, p: string, k: nat)
    requires k < |p| && forall i :: 0 <= i < |s| ==> s[i] != p[k]
    ensures !Contains(s, p)
  {
    FindFromSpec(s, p, 0);
  }

  /** None of 'C', 'c', 'R' and ':' occurs in the line. */
  predicate LacksMarkers(line: string) {
    forall i :: 0 <= i < |line| ==> line[i] != 'C' && line[i] != 'c' && line[i] != 'R' && line[i] != ':'
  }

  lemma HeadersLackMarkers()
    ensures LacksMarkers(DEPARTMENT_HEADER) && LacksMarkers(AREA_HEADER)
  {
  }

  /**
   * Each phrase the callback looks for ahead of the section switch holds one of the marker
   * characters, so a line without them is caught by none of those tests.
   */
  lemma PassesEarlyTests(line: string)
    requires LacksMarkers(line)
    ensures !IsNavigation(line) && !Contains(line, LAST_UPDATED) && !Contains(line, FC)
  {
    MissingCharNotContained(line, "Chewy Labor Management", 0);
    MissingCharNotContained(line, "Welcome,", 3);
    MissingCharNotContained(line, "Reports", 0);
    MissingCharNotContained(line, "Actions", 1);
    MissingCharNotContained(line, LAST_UPDATED, 12);
    MissingCharNotContained(line, FC, 2);
  }

  /** Exactly the two section header lines take the section switch. */
  lemma HeaderKind(line: string)
    ensures KindOf(line) == SectionHeader(Departments) <==> line == DEPARTMENT_HEADER
    ensures KindOf(line) == SectionHeader(Areas) <==> line == AREA_HEADER
  {
    if line == DEPARTMENT_HEADER || line == AREA_HEADER {
      HeadersLackMarkers();
      PassesEarlyTests(line);
    }
  }

  /** The callback changes `currentSection` exactly on a section header line. */
  lemma StepSection(st: ParserState, line: string)
    ensures Step(st, line).section ==
      if line == DEPARTMENT_HEADER then Some(Departments)
      else if line == AREA_HEADER then Some(Areas)
      else st.section
  {
    HeaderKind(line);
  }

  /** `currentSection` is the one the latest header line named. */
  lemma {:induction false} SectionIsLatestHeader(lines: seq<string>)
    ensures Run(lines).section == LastSection(lines)
  {
    if lines != [] {
      SectionIsLatestHeader(lines[..|lines| - 1]);
      StepSection(Run(lines[..|lines| - 1]), lines[|lines| - 1]);
    }
  }

  /**
   * In table mode, a row line goes to the list of the current section and to
   * no other; the metadata is kept, and a "Totals" line ends table mode.
   */
  lemma StepRecordsRow(st: ParserState, line: string)
    requires st.isTableData && st.section.Some? && KindOf(line) == Data && IsRowLine(line)
    ensures st.section == Some(Departments) ==>
      Step(st, line).parsed == st.parsed.(departments := st.parsed.departments + [RowOf(SplitFields(line))])
    ensures st.section == Some(Areas) ==>
      Step(st, line).parsed == st.parsed.(areas := st.parsed.areas + [RowOf(SplitFields(line))])
    ensures Step(st, line).section == st.section && Step(st, line).isTableData == !EndsTable(line)
  {
  }

  /**
   * After lines `a` have left table mode on, a further row line is appended to
   * the departments when the latest section header was the department one,
   * and to the areas when it was the area one.
   */
  lemma RunRecordsRow(a: seq<string>, line: string)
    requires Run(a).isTableData && KindOf(line) == Data && IsRowLine(line) && LastSection(a).Some?
    ensures LastSection(a) == Some(Departments) ==>
      Run(a + [line]).parsed == Run(a).parsed.(departments := Run(a).parsed.departments + [RowOf(SplitFields(line))])
    ensures LastSection(a) == Some(Areas) ==>
      Run(a + [line]).parsed == Run(a).parsed.(areas := Run(a).parsed.areas + [RowOf(SplitFields(line))])
  {
    RunSnoc(a, line);
    SectionIsLatestHeader(a);
    StepRecordsRow(Run(a), line);
  }

  /** Before any section header line, no row is recorded. */
  lemma {:induction false} NoRowsBeforeHeader(lines: seq<string>)
    requires LastSection(lines) == None
    ensures Run(lines).parsed.departments == [] && Run(lines).parsed.areas == []
  {
    if lines != [] {
      var front := lines[..|lines| - 1];
      NoRowsBeforeHeader(front);
      SectionIsLatestHeader(front);
    }
  }

  /** The value of the latest "Last Updated:" line that is not a navigation line. */
  function LastUpdatedOf(lines: seq<string>): Option<string> {
    if lines == [] then None
    else
      var line := lines[|lines| - 1];
      if !IsNavigation(line) && Contains(line, LAST_UPDATED) then Some(Trim(SecondPiece(line, LAST_UPDATED).value))
      else LastUpdatedOf(lines[..|lines| - 1])
  }

  /** The value of the latest "FC:" line that is neither a navigation nor a "Last Updated:" line. */
  function FcOf(lines: seq<string>): Option<string> {
    if lines == [] then None
    else
      var line := lines[|lines| - 1];
      if !IsNavigation(line) && !Contains(line, LAST_UPDATED) && Contains(line, FC) then
        Some(Trim(SecondPiece(line, FC).value))
      else FcOf(lines[..|lines| - 1])
  }

  /** The callback writes a metadata field only on the line that carries it. */
  lemma StepMetadata(st: ParserState, line: string)
    ensures Step(st, line).parsed.metadata ==
      match KindOf(line)
      case LastUpdatedLine => st.parsed.metadata.(lastUpdated := Some(Trim(SecondPiece(line, LAST_UPDATED).value)))
      case FcLine => st.parsed.metadata.(fc := Some(Trim(SecondPiece(line, FC).value)))
      case _ => st.parsed.metadata
  {
  }

  /** The metadata fields hold the trimmed second pieces of the latest lines that carry them. */
  lemma {:induction false} MetadataIsLatest(lines: seq<string>)
    ensures Run(lines).parsed.metadata == Metadata(LastUpdatedOf(lines), FcOf(lines))
  {
    if lines != [] {
      var front := lines[..|lines| - 1];
      MetadataIsLatest(front);
      StepMetadata(Run(front), lines[|lines| - 1]);
    }
  }

  /** A metadata line is never a table row. */
  lemma MetadataLineAddsNoRow(st: ParserState, line: string)
    requires Contains(line, LAST_UPDATED) || Contains(line, FC)
    ensures Step(st, line).parsed.departments == st.parsed.departments
    ensures Step(st, line).parsed.areas == st.parsed.areas
    ensures Step(st, line).section == st.section && Step(st, line).isTableData == st.isTableData
  {
  }

  /** `functions` is never filled. */
  lemma {:induction false} FunctionsAlwaysEmpty(lines: seq<string>)
    ensures Run(lines).parsed.functions == []
  {
    if lines != [] {
      FunctionsAlwaysEmpty(lines[..|lines| - 1]);
    }
  }

  /** Rows are only appended: the rows of earlier lines stay in place, in order, ahead of later ones. */
  lemma {:induction false} RowsAppendOnly(a: seq<string>, b: seq<string>)
    ensures Run(a).parsed.departments <= Run(a + b).parsed.departments
    ensures Run(a).parsed.areas <= Run(a + b).parsed.areas
    decreases |b|
  {
    if b == [] {
      assert a + b == a;
    } else {
      var front, last := b[..|b| - 1], b[|b| - 1];
      RowsAppendOnly(a, front);
      assert a + b == (a + front) + [last];
      RunSnoc(a + front, last);
    }
  }

  /** The rows built from the data lines, in order, whatever the state. */
  function Candidates(lines: seq<string>): seq<LaborRow> {
    if lines == [] then []
    else
      var line := lines[|lines| - 1];
      Candidates(lines[..|lines| - 1]) + (if IsRowLine(line) then [RowOf(SplitFields(line))] else [])
  }

  /** A row the callback records is built from a data line. */
  lemma StepRow(st: ParserState, line: string, r: LaborRow)
    requires r in Step(st, line).parsed.departments || r in Step(st, line).parsed.areas
    ensures r in st.parsed.departments || r in st.parsed.areas || (IsRowLine(line) && r == RowOf(SplitFields(line)))
  {
    var parsed, parsed' := st.parsed, Step(st, line).parsed;
    if KindOf(line) != Data {
      assert parsed'.departments == parsed.departments && parsed'.areas == parsed.areas;
    } else if st.isTableData && st.section.Some? && IsRowLine(line) {
      var item := RowOf(SplitFields(line));
      assert parsed'.departments + parsed'.areas == parsed.departments + parsed.areas + [item]
          || parsed'.departments + parsed'.areas == parsed.departments + [item] + parsed.areas;
    } else {
      assert parsed'.departments == parsed.departments && parsed'.areas == parsed.areas;
    }
  }

  /** Every recorded row was built from a data line of the input. */
  lemma {:induction false} RowsComeFromDataLines(lines: seq<string>, r: LaborRow)
    requires r in Run(lines).parsed.departments || r in Run(lines).parsed.areas
    ensures r in Candidates(lines)
  {
    if lines != [] {
      var front := lines[..|lines| - 1];
      var st, line := Run(front), lines[|lines| - 1];
      assert Run(lines) == Step(st, line);
      StepRow(st, line, r);
      if r in st.parsed.departments || r in st.parsed.areas {
        RowsComeFromDataLines(front, r);
      }
    }
  }

  /**
   * With table mode off, lines that cannot turn it back on record nothing
   * and leave it off.
   */
  lemma {:induction false} TableOffRecordsNothing(a: seq<string>, b: seq<string>)
    requires !Run(a).isTableData
    requires forall k :: 0 <= k < |b| ==> !Opens(b[k])
    ensures !Run(a + b).isTableData
    ensures Run(a + b).parsed.departments == Run(a).parsed.departments
    ensures Run(a + b).parsed.areas == Run(a).parsed.areas
    decreases |b|
  {
    if b == [] {
      assert a + b == a;
    } else {
      var front, last := b[..|b| - 1], b[|b| - 1];
      TableOffRecordsNothing(a, front);
      assert a + b == (a + front) + [last];
      RunSnoc(a + front, last);
    }
  }

  /** A data line with "Totals" records nothing and turns table mode off. */
  lemma StepEndsTable(st: ParserState, line: string)
    requires KindOf(line) == Data && EndsTable(line)
    ensures Step(st, line) == st.(isTableData := false)
  {
    assert !IsRowLine(line);
  }

  /**
   * A line with "Totals" that reaches the end of the callback, and is not a
   * section header, ends the table: no row is recorded from it or from the
   * following lines until one turns table mode on again.
   */
  lemma TotalsLineEndsTable(a: seq<string>, line: string, b: seq<string>)
    requires KindOf(line) == Data && EndsTable(line)
    requires forall k :: 0 <= k < |b| ==> !Opens(b[k])
    ensures Run(a + [line] + b).parsed.departments == Run(a).parsed.departments
    ensures Run(a + [line] + b).parsed.areas == Run(a).parsed.areas
  {
    RunSnoc(a, line);
    StepEndsTable(Run(a), line);
    TableOffRecordsNothing(a + [line], b);
  }
}
