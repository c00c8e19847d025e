/** `processor.JsonComparatorOperations`: the structural comparison (see
    module StructuralEquality) and `compareFieldsWithValues`, which also
    labels the report with the base names of the two files. */
module ProcessorComparator {
  import opened Wrappers
  import opened ResultModel
  import opened FieldDiff
  import opened JavaText
  import opened JsonNode
  import opened StructuralEquality
  import opened JsonTraverser

  /** `path.substring(path.lastIndexOf('/') + 1)`: what follows the last
      `/`, or the whole path when it has none. */
  function BaseNameAfterSlash(path: string): (name: string)
    ensures '/' !in name
    ensures |name| <= |path| && name == path[|path| - |name|..]
    ensures |name| < |path| ==> path[|path| - |name| - 1] == '/'
    ensures '/' !in path ==> name == path
  {
    path[LastIndexOf(path, '/') + 1..]
  }

  /** `compareFieldsWithValues(file1Path, file2Path, fields1, fields2)`:
      classify every path of the two flattened documents and hand rows,
      counters and the two base names to the result builder. */
  method CompareFieldsWithValues(file1Path: string, file2Path: string,
                                 fields1: map<string, string>, fields2: map<string, string>)
    returns (r: DetailedFieldComparisonResult)
    ensures Reports(fields1, fields2, r)
    ensures r.file1Name == Some(BaseNameAfterSlash(file1Path))
    ensures r.file2Name == Some(BaseNameAfterSlash(file2Path))
  {
    var rows, common, only1, only2, different := ClassifyFields(fields1, fields2);
    r := BuildResult(rows, Some(BaseNameAfterSlash(file1Path)), Some(BaseNameAfterSlash(file2Path)),
                     common, only1, only2, different);
    ResultReports(fields1, fields2, rows, common, only1, only2, different, r);
  }

  /** The two comparisons of this class disagree on reordered nested
      fields: the structural one calls `{"x": {"a": 1, "b": 2}}` and
      `{"x": {"b": 2, "a": 1}}` equal, while the field-level report of their
      flattened maps counts a difference at `x`. */
  lemma ReorderedNestedFieldsDiffer(rows: seq<DetailedFieldStatus>,
                                    common: int, only1: int, only2: int, different: int)
    requires Classifies(Flatten(ReorderedDoc1()), Flatten(ReorderedDoc2()),
                        rows, common, only1, only2, different)
    ensures CompareJsonNodesIgnoringOrder(ReorderedDoc1(), ReorderedDoc2())
    ensures different > 0
  {
    ReorderedDocsStructurallyEqual();
    ReorderedDocsFlattenDifferently();
    DifferingValueCounted(Flatten(ReorderedDoc1()), Flatten(ReorderedDoc2()),
                          rows, common, only1, only2, different, "x");
  }
}
