/** The top-level `JsonComparatorOperations`: the same classifier, without
    file names in the result. */
module RootComparator {
  import opened Wrappers
  import opened ResultModel
  import opened FieldDiff

  /** `compareFieldsWithValues(fields1, fields2)`: classify every path of the
      two flattened documents; the builder is never given file names. */
  method CompareFieldsWithValues(fields1: map<string, string>, fields2: map<string, string>)
    returns (r: DetailedFieldComparisonResult)
    ensures Reports(fields1, fields2, r)
    ensures r.file1Name == None && r.file2Name == None
  {
    var rows, common, only1, only2, different := ClassifyFields(fields1, fields2);
    r := BuildResult(rows, None, None, common, only1, only2, different);
    ResultReports(fields1, fields2, rows, common, only1, only2, different, r);
  }
}
