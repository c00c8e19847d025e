/** `ComparisonReporter`: the text of the two console tables. Each line is a
    row of cells, each cell left-justified and space-padded to its column's
    width (`%-Ns`), cells joined by `" | "`. Long field names and values are
    cut to fit their columns. */
module ComparisonReporter {
  import opened Wrappers
  import opened Decimal
  import opened ResultModel
  import opened FieldDiff
  import opened FileOperations

  const SeparatorWidth: nat := 3
  const DetailedFieldNameWidth: nat := 40
  const DetailedFilePresenceWidth: nat := 8
  const DetailedValueWidth: nat := 20
  const DetailedStatusWidth: nat := 15
  const DetailedDifferenceWidth: nat := 20
  /** The width of the detailed table's rules: its columns plus six separators. */
  const DetailedTableWidth: nat :=
    DetailedFieldNameWidth + DetailedFilePresenceWidth * 2 + DetailedValueWidth * 2 +
    DetailedStatusWidth + DetailedDifferenceWidth + SeparatorWidth * 6
  const FieldNameMaxLength: nat := 37
  const FieldNameTruncateLength: nat := 34
  const ValueMaxLength: nat := 17
  const ValueTruncateLength: nat := 14
  const SummaryMetricWidth: nat := 40
  const SummaryFileWidth: nat := 15
  const SummaryDifferenceWidth: nat := 20
  /** The width of the summary table's rules: its columns plus three separators. */
  const SummaryTableWidth: nat :=
    SummaryMetricWidth + SummaryFileWidth * 2 + SummaryDifferenceWidth + SeparatorWidth * 3

  /** The detailed table's columns, left to right. */
  const DetailedColumnWidths: seq<nat> :=
    [DetailedFieldNameWidth, DetailedFilePresenceWidth, DetailedFilePresenceWidth,
     DetailedValueWidth, DetailedValueWidth, DetailedStatusWidth, DetailedDifferenceWidth]
  /** The summary table's columns, left to right. */
  const SummaryColumnWidths: seq<nat> :=
    [SummaryMetricWidth, SummaryFileWidth, SummaryFileWidth, SummaryDifferenceWidth]

  const DetailedHeader: seq<string> :=
    ["Field Name", "File 1", "File 2", "Value in File 1", "Value in File 2", "Status", "Difference"]
  const SummaryHeader: seq<string> := ["Metric", "File 1", "File 2", "Difference"]

  function Sum(ws: seq<nat>): nat {
    if ws == [] then 0 else ws[0] + Sum(ws[1..])
  }

  /** The length of a row whose every cell fits: the columns plus a
      separator between each two. */
  function TableWidth(widths: seq<nat>): nat
    requires |widths| > 0
  {
    Sum(widths) + SeparatorWidth * (|widths| - 1)
  }

  /** The rule widths are those of the columns they span. */
  lemma TableWidthsMatchColumns()
    ensures DetailedTableWidth == TableWidth(DetailedColumnWidths) == 149
    ensures SummaryTableWidth == TableWidth(SummaryColumnWidths) == 99
  {
    assert Sum(DetailedColumnWidths[7..]) == 0;
    assert Sum(DetailedColumnWidths[6..]) == 20;
    assert Sum(DetailedColumnWidths[5..]) == 35;
    assert Sum(DetailedColumnWidths[4..]) == 55;
    assert Sum(DetailedColumnWidths[3..]) == 75;
    assert Sum(DetailedColumnWidths[2..]) == 83;
    assert Sum(DetailedColumnWidths[1..]) == 91;
    assert Sum(SummaryColumnWidths[4..]) == 0;
    assert Sum(SummaryColumnWidths[3..]) == 20;
    assert Sum(SummaryColumnWidths[2..]) == 35;
    assert Sum(SummaryColumnWidths[1..]) == 50;
  }

  /** `%-Ns`: `s` followed by as many spaces as it falls short of `width`;
      a longer `s` is kept whole. */
  function PadRight(s: string, width: nat): (padded: string)
    ensures |padded| == if |s| < width then width else |s|
    ensures padded[..|s|] == s
    ensures forall i :: |s| <= i < |padded| ==> padded[i] == ' '
  {
    if |s| < width then s + seq(width - |s|, _ => ' ') else s
  }

  /** One table line: the cells padded to their columns and joined by
      `" | "`. */
  function FormatRow(cells: seq<string>, widths: seq<nat>): (line: string)
    requires |cells| == |widths| > 0
    ensures |cells[0]| <= |line| && line[..|cells[0]|] == cells[0]
    decreases |cells|
  {
    if |cells| == 1 then PadRight(cells[0], widths[0])
    else PadRight(cells[0], widths[0]) + " | " + FormatRow(cells[1..], widths[1..])
  }

  /** Every cell is no wider than its column. */
  predicate Fits(cells: seq<string>, widths: seq<nat>)
    requires |cells| == |widths|
  {
    forall i :: 0 <= i < |cells| ==> |cells[i]| <= widths[i]
  }

  /** A line is never shorter than the rule, and exactly as long as it when
      and only when every cell fits its column. */
  lemma {:induction false} RowWidth(cells: seq<string>, widths: seq<nat>)
    requires |cells| == |widths| > 0
    ensures |FormatRow(cells, widths)| >= TableWidth(widths)
    ensures |FormatRow(cells, widths)| == TableWidth(widths) <==> Fits(cells, widths)
    decreases |cells|
  {
    if |cells| > 1 {
      RowWidth(cells[1..], widths[1..]);
      assert TableWidth(widths) == widths[0] + SeparatorWidth + TableWidth(widths[1..]);
      assert |FormatRow(cells, widths)|
          == |PadRight(cells[0], widths[0])| + 3 + |FormatRow(cells[1..], widths[1..])|;
      assert Fits(cells, widths) <==> |cells[0]| <= widths[0] && Fits(cells[1..], widths[1..]) by {
        if |cells[0]| <= widths[0] && Fits(cells[1..], widths[1..]) {
          forall i | 0 < i < |cells| ensures |cells[i]| <= widths[i] {
            assert cells[i] == cells[1..][i - 1] && widths[i] == widths[1..][i - 1];
          }
        }
      }
    } else {
      assert widths[1..] == [];
      assert TableWidth(widths) == widths[0];
      assert Fits(cells, widths) <==> |cells[0]| <= widths[0];
    }
  }

  /** Both header lines are exactly as wide as their rules. */
  lemma HeadersSpanTheirTables()
    ensures |FormatRow(DetailedHeader, DetailedColumnWidths)| == DetailedTableWidth
    ensures |FormatRow(SummaryHeader, SummaryColumnWidths)| == SummaryTableWidth
  {
    TableWidthsMatchColumns();
    RowWidth(DetailedHeader, DetailedColumnWidths);
    RowWidth(SummaryHeader, SummaryColumnWidths);
  }

  /** A text longer than `maxLength` is cut to its first `keepLength`
      characters and an ellipsis; a shorter one is shown whole. */
  function Truncate(s: string, maxLength: nat, keepLength: nat): (shown: string)
    requires keepLength + 3 <= maxLength
    ensures |shown| <= maxLength
    ensures |s| <= maxLength ==> shown == s
    ensures |s| > maxLength ==> |shown| == keepLength + 3 && shown[..keepLength] == s[..keepLength]
    ensures |s| > maxLength ==> shown[keepLength..] == "..."
  {
    if |s| > maxLength then s[..keepLength] + "..." else s
  }

  /** Cutting a text that was already cut changes nothing. */
  lemma TruncateIdempotent(s: string, maxLength: nat, keepLength: nat)
    requires keepLength + 3 <= maxLength
    ensures Truncate(Truncate(s, maxLength, keepLength), maxLength, keepLength)
         == Truncate(s, maxLength, keepLength)
  {
  }

  /** Two long texts that agree on their first `keepLength` characters are
      shown identically, so the table can show different values alike. */
  lemma TruncationConflates(s: string, t: string, maxLength: nat, keepLength: nat)
    requires keepLength + 3 <= maxLength
    requires |s| > maxLength && |t| > maxLength && s[..keepLength] == t[..keepLength]
    ensures Truncate(s, maxLength, keepLength) == Truncate(t, maxLength, keepLength)
  {
    var a, b := Truncate(s, maxLength, keepLength), Truncate(t, maxLength, keepLength);
    assert a == a[..keepLength] + a[keepLength..];
    assert b == b[..keepLength] + b[keepLength..];
  }

  /** A concrete instance: two 18-character values that differ only in
      their last letter look the same in the table. */
  lemma DifferentValuesShownAlike()
    ensures TruncateValue(Some("\"abcdefghijklmnop\"")) == TruncateValue(Some("\"abcdefghijklmnoq\""))
    ensures "\"abcdefghijklmnop\"" != "\"abcdefghijklmnoq\""
  {
    var s, t := "\"abcdefghijklmnop\"", "\"abcdefghijklmnoq\"";
    assert s[..ValueTruncateLength] == t[..ValueTruncateLength];
    TruncationConflates(s, t, ValueMaxLength, ValueTruncateLength);
    assert s[16] != t[16];
  }

  /** `truncateValue`: `null` stays `null`; a value longer than 17
      characters is cut to its first 14 and an ellipsis. */
  function TruncateValue(value: Option<string>): (shown: Option<string>)
    ensures shown.Some? <==> value.Some?
    ensures shown.Some? ==> |shown.value| <= ValueMaxLength
    ensures shown.Some? && |value.value| <= ValueMaxLength ==> shown == value
    ensures shown.Some? && |value.value| > ValueMaxLength ==>
      |shown.value| == ValueTruncateLength + 3 &&
      shown.value[..ValueTruncateLength] == value.value[..ValueTruncateLength] &&
      shown.value[ValueTruncateLength..] == "..."
  {
    match value
    case None => None
    case Some(v) => Some(Truncate(v, ValueMaxLength, ValueTruncateLength))
  }

  /** The field-name column's cut: a name longer than 37 characters is cut
      to its first 34 and an ellipsis. */
  function TruncateFieldName(name: string): (shown: string)
    ensures |shown| <= FieldNameMaxLength
    ensures |name| <= FieldNameMaxLength ==> shown == name
    ensures |name| > FieldNameMaxLength ==>
      |shown| == FieldNameTruncateLength + 3 &&
      shown[..FieldNameTruncateLength] == name[..FieldNameTruncateLength] &&
      shown[FieldNameTruncateLength..] == "..."
  {
    Truncate(name, FieldNameMaxLength, FieldNameTruncateLength)
  }

  /** A missing value is shown as `"-"`. */
  function DisplayValue(value: Option<string>): (text: string)
    ensures value.None? ==> text == "-"
    ensures value.Some? ==> text == value.value
  {
    if value.Some? then value.value else "-"
  }

  /** The seven cells of a report row's line, in column order. */
  function DetailedRowCells(row: DetailedFieldStatus): (cells: seq<string>)
    ensures |cells| == |DetailedColumnWidths|
    ensures cells[5] == row.status && cells[6] == row.difference
  {
    [TruncateFieldName(row.fieldName),
     PresenceLabel(row.inFile1),
     PresenceLabel(row.inFile2),
     DisplayValue(TruncateValue(row.value1)),
     DisplayValue(TruncateValue(row.value2)),
     row.status,
     row.difference]
  }

  /** A report row's line in the detailed table. */
  function DetailedLine(row: DetailedFieldStatus): string {
    FormatRow(DetailedRowCells(row), DetailedColumnWidths)
  }

  /** The name, presence and value cells always fit their columns, so a
      row's line is exactly as wide as the rule when and only when its
      status and difference labels fit theirs. */
  lemma DetailedLineWidth(row: DetailedFieldStatus)
    ensures |DetailedLine(row)| >= DetailedTableWidth
    ensures |DetailedLine(row)| == DetailedTableWidth
        <==> |row.status| <= DetailedStatusWidth && |row.difference| <= DetailedDifferenceWidth
  {
    var cells := DetailedRowCells(row);
    TableWidthsMatchColumns();
    RowWidth(cells, DetailedColumnWidths);
    assert |cells[0]| <= DetailedFieldNameWidth;
    assert |cells[3]| <= DetailedValueWidth && |cells[4]| <= DetailedValueWidth;
  }

  /** Of the four states' labels only those of a shared path with equal
      values fit their columns: the other three status labels are 16 to 18
      characters wide against a 15-character column. */
  lemma LabelsFitOnlyForSameValues(state: FieldState)
    ensures |DifferenceLabel(state)| <= DetailedDifferenceWidth
    ensures |StatusLabel(state)| <= DetailedStatusWidth <==> state == COMMON_SAME
  {
  }

  /** So the line of a classified path lines up with the rules exactly when
      the path is in both files with the same value. */
  lemma ClassifiedLineWidth(fields1: map<string, string>, fields2: map<string, string>, k: string)
    ensures |DetailedLine(RowFor(fields1, fields2, k))| == DetailedTableWidth
        <==> k in fields1 && k in fields2 && fields1[k] == fields2[k]
  {
    var row := RowFor(fields1, fields2, k);
    DetailedLineWidth(row);
    LabelsFitOnlyForSameValues(StateOf(fields1, fields2, k));
  }

  /** `%d`: a number's decimal text, with a minus sign when negative. */
  function IntText(n: int): (text: string)
    ensures n >= 0 ==> AllDigits(text) && ParseDigits(text) == n
    ensures n < 0 ==> |text| > 0 && text[0] == '-' && AllDigits(text[1..]) && ParseDigits(text[1..]) == -n
  {
    if n < 0 then
      ParseNatToString(-n);
      "-" + NatToString(-n)
    else
      ParseNatToString(n);
      NatToString(n)
  }

  /** The summary's difference column for the two field counts: `"Same"`
      when they are equal, otherwise the gap between them in digits. */
  function SummaryDifferenceLabel(size1: nat, size2: nat): (text: string)
    ensures text == "Same" <==> size1 == size2
    ensures size1 != size2 ==>
      AllDigits(text) && ParseDigits(text) == (if size1 > size2 then size1 - size2 else size2 - size1)
  {
    if size1 == size2 then "Same"
    else
      var gap: nat := if size1 > size2 then size1 - size2 else size2 - size1;
      ParseNatToString(gap);
      assert !IsDigit("Same"[0]);
      NatToString(gap)
  }

  /** The label does not depend on which file is the first. */
  lemma SummaryDifferenceSymmetric(size1: nat, size2: nat)
    ensures SummaryDifferenceLabel(size1, size2) == SummaryDifferenceLabel(size2, size1)
  {
  }

  /** The three data lines of the summary, as cells: total fields per file
      with their difference, the common count twice with `0`, and the
      per-file unique counts with `"N/A"`. */
  function SummaryRows(size1: nat, size2: nat, result: DetailedFieldComparisonResult): (rows: seq<seq<string>>)
    ensures |rows| == 3
    ensures forall i :: 0 <= i < 3 ==> |rows[i]| == |SummaryColumnWidths|
  {
    [["Total fields", IntText(size1), IntText(size2), SummaryDifferenceLabel(size1, size2)],
     ["Common fields", IntText(result.commonFields), IntText(result.commonFields), "0"],
     ["Unique fields", IntText(result.onlyInFile1), IntText(result.onlyInFile2), "N/A"]]
  }

  /** For a result that reports two flattened files, the summary's "Common
      fields" line counts only the shared paths whose values agree, and the
      "Unique fields" line counts the paths of each file the other lacks. */
  lemma SummaryCountsKeySets(fields1: map<string, string>, fields2: map<string, string>,
                             result: DetailedFieldComparisonResult)
    requires Reports(fields1, fields2, result)
    ensures SummaryRows(|fields1.Keys|, |fields2.Keys|, result)[1][1]
         == IntText(|set k | k in fields1 && k in fields2 && fields1[k] == fields2[k]|)
    ensures SummaryRows(|fields1.Keys|, |fields2.Keys|, result)[2][1] == IntText(|fields1.Keys - fields2.Keys|)
    ensures SummaryRows(|fields1.Keys|, |fields2.Keys|, result)[2][2] == IntText(|fields2.Keys - fields1.Keys|)
  {
    ReportedCounts(fields1, fields2, result);
    SummaryRowsShowCounters(|fields1.Keys|, |fields2.Keys|, result);
  }

  /** The summary's counter cells are the result's counters. */
  lemma SummaryRowsShowCounters(size1: nat, size2: nat, result: DetailedFieldComparisonResult)
    ensures SummaryRows(size1, size2, result)[1][1] == IntText(result.commonFields)
    ensures SummaryRows(size1, size2, result)[2][1] == IntText(result.onlyInFile1)
    ensures SummaryRows(size1, size2, result)[2][2] == IntText(result.onlyInFile2)
  {
  }

  /** The counters of a result that reports two flattened files, in terms of
      their key sets. */
  lemma ReportedCounts(fields1: map<string, string>, fields2: map<string, string>,
                       result: DetailedFieldComparisonResult)
    requires Reports(fields1, fields2, result)
    ensures result.commonFields == |set k | k in fields1 && k in fields2 && fields1[k] == fields2[k]|
    ensures result.onlyInFile1 == |fields1.Keys - fields2.Keys|
    ensures result.onlyInFile2 == |fields2.Keys - fields1.Keys|
  {
    CountersMatchKeySets(fields1, fields2, result.fieldStatusList, result.commonFields,
                         result.onlyInFile1, result.onlyInFile2, result.differentValues);
  }
}
