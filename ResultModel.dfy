/** The records the classifier produces: the per-field state, one report row
    per field path, the whole comparison result, and the result's builder. */
module ResultModel {
  import opened Wrappers

  /** `FieldState`: where a field path occurs and whether its values agree. */
  datatype FieldState = COMMON_SAME | COMMON_DIFFERENT | ONLY_IN_FILE1 | ONLY_IN_FILE2

  /** `DetailedFieldStatus`: one report row. A value is `None` where the
      source holds `null` (the path is absent from that file). */
  datatype DetailedFieldStatus = DetailedFieldStatus(
    fieldName: string,
    inFile1: bool,
    inFile2: bool,
    value1: Option<string>,
    value2: Option<string>,
    status: string,
    difference: string)

  /** `DetailedFieldComparisonResult`: the rows, the two file labels (`None`
      where the builder was never given one) and the four counters. */
  datatype DetailedFieldComparisonResult = DetailedFieldComparisonResult(
    fieldStatusList: seq<DetailedFieldStatus>,
    file1Name: Option<string>,
    file2Name: Option<string>,
    commonFields: int,
    onlyInFile1: int,
    onlyInFile2: int,
    differentValues: int)

  /** `DetailedFieldComparisonResult.Builder`: seven mutable fields, one
      setter each, and `Build` to take a snapshot. Setters return the builder
      itself so that calls can be chained. */
  class Builder {
    var fieldStatusList: seq<DetailedFieldStatus>
    var file1Name: Option<string>
    var file2Name: Option<string>
    var commonFields: int
    var onlyInFile1: int
    var onlyInFile2: int
    var differentValues: int

    /** `builder()`: an empty row list, no file names, all counters zero. */
    constructor ()
      ensures fieldStatusList == []
      ensures file1Name == None && file2Name == None
      ensures commonFields == 0 && onlyInFile1 == 0 && onlyInFile2 == 0 && differentValues == 0
    {
      fieldStatusList := [];
      file1Name, file2Name := None, None;
      commonFields, onlyInFile1, onlyInFile2, differentValues := 0, 0, 0, 0;
    }

    /** A `null` list becomes the empty list; otherwise the builder keeps its
        own copy of the rows (a sequence is a value, so later changes to the
        caller's list cannot reach it). */
    method SetFieldStatusList(list: Option<seq<DetailedFieldStatus>>) returns (self: Builder)
      modifies this`fieldStatusList
      ensures self == this
      ensures fieldStatusList == (if list.Some? then list.value else [])
    {
      fieldStatusList := if list.Some? then list.value else [];
      self := this;
    }

    method SetFile1Name(name: Option<string>) returns (self: Builder)
      modifies this`file1Name
      ensures self == this && file1Name == name
    {
      file1Name := name;
      self := this;
    }

    method SetFile2Name(name: Option<string>) returns (self: Builder)
      modifies this`file2Name
      ensures self == this && file2Name == name
    {
      file2Name := name;
      self := this;
    }

    method SetCommonFields(n: int) returns (self: Builder)
      modifies this`commonFields
      ensures self == this && commonFields == n
    {
      commonFields := n;
      self := this;
    }

    method SetOnlyInFile1(n: int) returns (self: Builder)
      modifies this`onlyInFile1
      ensures self == this && onlyInFile1 == n
    {
      onlyInFile1 := n;
      self := this;
    }

    method SetOnlyInFile2(n: int) returns (self: Builder)
      modifies this`onlyInFile2
      ensures self == this && onlyInFile2 == n
    {
      onlyInFile2 := n;
      self := this;
    }

    method SetDifferentValues(n: int) returns (self: Builder)
      modifies this`differentValues
      ensures self == this && differentValues == n
    {
      differentValues := n;
      self := this;
    }

    /** `build()`: a record holding the builder's current values; the
        builder itself is left as it was. */
    method Build() returns (r: DetailedFieldComparisonResult)
      ensures r.fieldStatusList == fieldStatusList
      ensures r.file1Name == file1Name && r.file2Name == file2Name
      ensures r.commonFields == commonFields && r.onlyInFile1 == onlyInFile1
      ensures r.onlyInFile2 == onlyInFile2 && r.differentValues == differentValues
    {
      r := DetailedFieldComparisonResult(fieldStatusList, file1Name, file2Name,
        commonFields, onlyInFile1, onlyInFile2, differentValues);
    }
  }

  /** The chain `builder().fieldStatusList(…)…build()` at the end of
      `compareFieldsWithValues`: a fresh builder given the rows and the four
      counters, and a file label only where one is supplied. */
  method BuildResult(rows: seq<DetailedFieldStatus>, name1: Option<string>, name2: Option<string>,
                     common: int, only1: int, only2: int, different: int)
    returns (r: DetailedFieldComparisonResult)
    ensures r == DetailedFieldComparisonResult(rows, name1, name2, common, only1, only2, different)
  {
    var builder := new Builder();
    builder := builder.SetFieldStatusList(Some(rows));
    if name1.Some? {
      builder := builder.SetFile1Name(name1);
    }
    if name2.Some? {
      builder := builder.SetFile2Name(name2);
    }
    builder := builder.SetCommonFields(common);
    builder := builder.SetOnlyInFile1(only1);
    builder := builder.SetOnlyInFile2(only2);
    builder := builder.SetDifferentValues(different);
    r := builder.Build();
  }
}
