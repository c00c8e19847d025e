/** `FileOperations`: the base name shown for a file path, and the record of
    seven values that one report row becomes in the CSV export. */
module FileOperations {
  import opened Wrappers
  import opened JavaText
  import opened ResultModel
  import ProcessorComparator

  /** The two path separators the base-name extraction recognises. */
  predicate IsSeparator(c: char) {
    c == '/' || c == '\\'
  }

  /** `name` is the base name of `path`: a suffix of it without separators
      that is either all of `path` or starts right after a separator. */
  predicate IsBaseName(path: string, name: string) {
    && |name| <= |path|
    && name == path[|path| - |name|..]
    && '/' !in name && '\\' !in name
    && (|name| < |path| ==> IsSeparator(path[|path| - |name| - 1]))
  }

  /** `extractFileName`: no path at all gives the empty name; otherwise the
      base name of the path. */
  function ExtractFileName(filePath: Option<string>): (name: string)
    ensures filePath.None? ==> name == ""
    ensures filePath.Some? ==> IsBaseName(filePath.value, name)
  {
    match filePath
    case None => ""
    case Some(path) => BaseName(path)
  }

  /** The text after whichever of the last `/` and the last `\` comes later,
      or the whole path when it holds neither. */
  function BaseName(path: string): (name: string)
    ensures IsBaseName(path, name)
  {
    var slash := LastIndexOf(path, '/');
    var backslash := LastIndexOf(path, '\\');
    var lastSlash := if slash >= backslash then slash else backslash;
    NotInLaterSuffix(path, slash + 1, lastSlash + 1, '/');
    NotInLaterSuffix(path, backslash + 1, lastSlash + 1, '\\');
    SuffixAfterSeparator(path, lastSlash);
    if lastSlash >= 0 then path[lastSlash + 1..] else path
  }

  /** A path without separators is its own base name. */
  lemma NoSeparatorKeepsPath(path: string)
    requires '/' !in path && '\\' !in path
    ensures ExtractFileName(Some(path)) == path
  {
    var name := ExtractFileName(Some(path));
    if |name| < |path| {
      assert false;
    }
  }

  /** The text after a separator that no later separator follows (or the
      whole path, when it has no separator) is a base name. */
  lemma SuffixAfterSeparator(path: string, k: int)
    requires -1 <= k < |path|
    requires k >= 0 ==> IsSeparator(path[k])
    requires '/' !in path[k + 1..] && '\\' !in path[k + 1..]
    ensures IsBaseName(path, path[k + 1..])
  {
  }

  /** A character missing from a suffix is missing from every shorter one. */
  lemma NotInLaterSuffix(s: string, from: int, later: int, c: char)
    requires 0 <= from <= later <= |s|
    requires c !in s[from..]
    ensures c !in s[later..]
  {
    assert s[later..] == s[from..][later - from..];
  }

  /** The base-name property pins the name down: no other suffix of the path
      qualifies, so `ExtractFileName` is the only possible answer. */
  lemma BaseNameUnique(path: string, name: string)
    requires IsBaseName(path, name)
    ensures name == ExtractFileName(Some(path))
  {
    var expected := ExtractFileName(Some(path));
    if |name| > |expected| {
      assert false;
    } else if |name| < |expected| {
      assert false;
    }
  }

  /** Taking the base name of a base name changes nothing. */
  lemma ExtractFileNameIdempotent(path: string)
    ensures ExtractFileName(Some(ExtractFileName(Some(path)))) == ExtractFileName(Some(path))
  {
  }

  /** On a path without backslashes this agrees with the `/`-only base name
      the comparator stores as a file label. */
  lemma AgreesWithSlashOnlyBaseName(path: string)
    requires '\\' !in path
    ensures ExtractFileName(Some(path)) == ProcessorComparator.BaseNameAfterSlash(path)
  {
    var name := ProcessorComparator.BaseNameAfterSlash(path);
    assert '\\' !in name by {
      NotInLaterSuffix(path, 0, |path| - |name|, '\\');
      assert path[0..] == path;
    }
    BaseNameUnique(path, name);
  }

  /** On a Windows path the two extractions part ways: the comparator's
      `/`-only variant keeps the whole path. */
  lemma WindowsPathBaseNames()
    ensures ExtractFileName(Some("C:\\data\\a.json")) == "a.json"
    ensures ProcessorComparator.BaseNameAfterSlash("C:\\data\\a.json") == "C:\\data\\a.json"
  {
    BaseNameUnique("C:\\data\\a.json", "a.json");
  }

  /** `"Yes"`/`"No"` for a field's presence in one file. */
  function PresenceLabel(present: bool): (text: string)
    ensures text == "Yes" <==> present
    ensures text == "Yes" || text == "No"
  {
    if present then "Yes" else "No"
  }

  /** The values handed to the CSV printer for one row, in column order; a
      `None` is a Java `null` value. */
  function CsvRecord(row: DetailedFieldStatus): (record: seq<Option<string>>)
    ensures |record| == 7
    ensures forall i :: 0 <= i < 7 && i != 3 && i != 4 ==> record[i].Some?
  {
    [Some(row.fieldName),
     Some(PresenceLabel(row.inFile1)),
     Some(PresenceLabel(row.inFile2)),
     row.value1,
     row.value2,
     Some(row.status),
     Some(row.difference)]
  }

  /** Reads a presence column back. */
  function ParsePresence(cell: Option<string>): (present: Option<bool>)
    ensures present.Some? <==> cell == Some("Yes") || cell == Some("No")
  {
    if cell == Some("Yes") then Some(true)
    else if cell == Some("No") then Some(false)
    else None
  }

  /** Reads a CSV record back into the row it came from, or `None` when it
      is not shaped like one. */
  function ParseCsvRecord(record: seq<Option<string>>): (row: Option<DetailedFieldStatus>)
    ensures row.Some? ==> |record| == 7
  {
    if |record| != 7 || record[0].None? || record[5].None? || record[6].None? then None
    else
      match (ParsePresence(record[1]), ParsePresence(record[2]))
      case (Some(in1), Some(in2)) =>
        Some(DetailedFieldStatus(record[0].value, in1, in2, record[3], record[4],
                                 record[5].value, record[6].value))
      case _ => None
  }

  /** Every row survives the trip through its CSV record: the export loses
      nothing, and two different rows never give the same record. */
  lemma CsvRecordRoundTrip(row: DetailedFieldStatus)
    ensures ParseCsvRecord(CsvRecord(row)) == Some(row)
  {
  }

  /** Different rows are written as different records. */
  lemma CsvRecordInjective(a: DetailedFieldStatus, b: DetailedFieldStatus)
    requires CsvRecord(a) == CsvRecord(b)
    ensures a == b
  {
    CsvRecordRoundTrip(a);
    CsvRecordRoundTrip(b);
  }
}
