/** The field diff classifier shared by both comparator classes
    (`determineFieldState` and the loop of `compareFieldsWithValues`): every
    path of either flattened document, in ascending order, becomes one report
    row and bumps exactly one of four counters. Values are compared as plain
    strings. */
module FieldDiff {
  import opened Wrappers
  import opened ResultModel
  import opened StringOrder

  /** `determineFieldState`. A path present in neither file is classified
      ONLY_IN_FILE2, as the final `else` of the source does; the classifier
      never asks about such a path. */
  function DetermineFieldState(inFile1: bool, inFile2: bool, valuesEqual: bool): (s: FieldState)
    ensures s == COMMON_SAME <==> inFile1 && inFile2 && valuesEqual
    ensures s == COMMON_DIFFERENT <==> inFile1 && inFile2 && !valuesEqual
    ensures s == ONLY_IN_FILE1 <==> inFile1 && !inFile2
    ensures s == ONLY_IN_FILE2 <==> !inFile1
  {
    if inFile1 && inFile2 then
      (if valuesEqual then COMMON_SAME else COMMON_DIFFERENT)
    else if inFile1 then ONLY_IN_FILE1
    else ONLY_IN_FILE2
  }

  /** The status column for each state. */
  function StatusLabel(s: FieldState): (text: string)
    ensures |text| > 2 && text[1] == ' '
    ensures text[0] == '✓' <==> s == COMMON_SAME
  {
    match s
    case COMMON_SAME => "✓ Common"
    case COMMON_DIFFERENT => "⚠ Different Values"
    case ONLY_IN_FILE1 => "⚠ Only in File 1"
    case ONLY_IN_FILE2 => "⚠ Only in File 2"
  }

  /** The difference column for each state. */
  function DifferenceLabel(s: FieldState): (text: string)
    ensures text == "Same value" <==> s == COMMON_SAME
  {
    match s
    case COMMON_SAME => "Same value"
    case COMMON_DIFFERENT => "Values differ"
    case ONLY_IN_FILE1 => "Missing in File 2"
    case ONLY_IN_FILE2 => "Missing in File 1"
  }

  /** Each label belongs to one state only, so a reader of the report can
      recover the state from either column. */
  lemma LabelsIdentifyState(s: FieldState, t: FieldState)
    requires StatusLabel(s) == StatusLabel(t) || DifferenceLabel(s) == DifferenceLabel(t)
    ensures s == t
  {
  }

  /** `map.get(key)`: the value, or `None` (Java's `null`) for an absent key. */
  function Lookup(m: map<string, string>, k: string): Option<string> {
    if k in m then Some(m[k]) else None
  }

  /** The state the loop assigns to path `k`; the values are compared as
      `Objects.equals` compares them, so two absent values count as equal. */
  function StateOf(fields1: map<string, string>, fields2: map<string, string>, k: string): (s: FieldState)
    ensures s == COMMON_SAME <==> k in fields1 && k in fields2 && fields1[k] == fields2[k]
    ensures s == COMMON_DIFFERENT <==> k in fields1 && k in fields2 && fields1[k] != fields2[k]
    ensures s == ONLY_IN_FILE1 <==> k in fields1 && k !in fields2
    ensures s == ONLY_IN_FILE2 <==> k !in fields1
  {
    DetermineFieldState(k in fields1, k in fields2, Lookup(fields1, k) == Lookup(fields2, k))
  }

  /** The report row the loop builds for path `k`: its presence in each
      file, the value in each file (`None` where absent), and the labels of
      its state. */
  function RowFor(fields1: map<string, string>, fields2: map<string, string>, k: string): (r: DetailedFieldStatus)
    ensures r.fieldName == k
    ensures r.inFile1 == (k in fields1) && r.inFile2 == (k in fields2)
    ensures r.value1.Some? == (k in fields1) && (k in fields1 ==> r.value1.value == fields1[k])
    ensures r.value2.Some? == (k in fields2) && (k in fields2 ==> r.value2.value == fields2[k])
    ensures r.status == StatusLabel(StateOf(fields1, fields2, k))
    ensures r.difference == DifferenceLabel(StateOf(fields1, fields2, k))
  {
    var state := StateOf(fields1, fields2, k);
    DetailedFieldStatus(k, k in fields1, k in fields2, Lookup(fields1, k), Lookup(fields2, k),
                        StatusLabel(state), DifferenceLabel(state))
  }

  /** A row's status says where its path occurs and, when in both files,
      whether the two rendered values are the same string. */
  lemma RowStatusMeaning(fields1: map<string, string>, fields2: map<string, string>, k: string)
    ensures var r := RowFor(fields1, fields2, k);
      && (r.status == StatusLabel(COMMON_SAME) <==> k in fields1 && k in fields2 && fields1[k] == fields2[k])
      && (r.status == StatusLabel(COMMON_DIFFERENT) <==> k in fields1 && k in fields2 && fields1[k] != fields2[k])
      && (r.status == StatusLabel(ONLY_IN_FILE1) <==> k in fields1 && k !in fields2)
      && (r.status == StatusLabel(ONLY_IN_FILE2) <==> k !in fields1)
  {
    var state := StateOf(fields1, fields2, k);
    forall t: FieldState | StatusLabel(state) == StatusLabel(t) ensures state == t {
      LabelsIdentifyState(state, t);
    }
  }

  /** The number of rows whose status column is the label of `s`. */
  function CountStatus(rows: seq<DetailedFieldStatus>, s: FieldState): nat
    decreases |rows|
  {
    if rows == [] then 0
    else CountStatus(rows[..|rows| - 1], s) + (if rows[|rows| - 1].status == StatusLabel(s) then 1 else 0)
  }

  /** Appending a row adds one to the count of its own state only. */
  lemma CountStatusAppend(rows: seq<DetailedFieldStatus>, row: DetailedFieldStatus, state: FieldState)
    requires row.status == StatusLabel(state)
    ensures forall s :: CountStatus(rows + [row], s) == CountStatus(rows, s) + (if s == state then 1 else 0)
  {
    assert (rows + [row])[..|rows|] == rows;
    forall s ensures CountStatus(rows + [row], s) == CountStatus(rows, s) + (if s == state then 1 else 0) {
      if StatusLabel(s) == StatusLabel(state) {
        LabelsIdentifyState(s, state);
      }
    }
  }

  /** The field paths of the rows, in row order. */
  function FieldNames(rows: seq<DetailedFieldStatus>): (names: seq<string>)
    ensures |names| == |rows|
    ensures forall i :: 0 <= i < |rows| ==> names[i] == rows[i].fieldName
  {
    seq(|rows|, i requires 0 <= i < |rows| => rows[i].fieldName)
  }

  /** What `compareFieldsWithValues` produces for two flattened documents:
      one row per path of either document, in strictly ascending path order
      (so no path twice), each row describing its path, and each counter the
      number of rows in its state. */
  ghost predicate Classifies(fields1: map<string, string>, fields2: map<string, string>,
                             rows: seq<DetailedFieldStatus>,
                             common: int, only1: int, only2: int, different: int)
  {
    && StrictlyAscending(FieldNames(rows))
    && (forall k :: k in FieldNames(rows) <==> k in fields1 || k in fields2)
    && (forall i :: 0 <= i < |rows| ==> rows[i] == RowFor(fields1, fields2, rows[i].fieldName))
    && common == CountStatus(rows, COMMON_SAME)
    && different == CountStatus(rows, COMMON_DIFFERENT)
    && only1 == CountStatus(rows, ONLY_IN_FILE1)
    && only2 == CountStatus(rows, ONLY_IN_FILE2)
  }

  /** The rows for a list of paths, one per path in list order. */
  function RowsFor(fields1: map<string, string>, fields2: map<string, string>, keys: seq<string>): (rows: seq<DetailedFieldStatus>)
    ensures |rows| == |keys|
    ensures forall j :: 0 <= j < |keys| ==> rows[j] == RowFor(fields1, fields2, keys[j])
    decreases |keys|
  {
    if keys == [] then []
    else RowsFor(fields1, fields2, keys[..|keys| - 1]) + [RowFor(fields1, fields2, keys[|keys| - 1])]
  }

  /** A comparison result reports the classification of the two maps in
      its rows and counters. */
  ghost predicate Reports(fields1: map<string, string>, fields2: map<string, string>,
                          r: DetailedFieldComparisonResult)
  {
    Classifies(fields1, fields2, r.fieldStatusList, r.commonFields, r.onlyInFile1, r.onlyInFile2, r.differentValues)
  }

  /** A result holding a classification's rows and counters reports it. */
  lemma ResultReports(fields1: map<string, string>, fields2: map<string, string>,
                      rows: seq<DetailedFieldStatus>,
                      common: int, only1: int, only2: int, different: int,
                      r: DetailedFieldComparisonResult)
    requires Classifies(fields1, fields2, rows, common, only1, only2, different)
    requires r.fieldStatusList == rows && r.commonFields == common && r.onlyInFile1 == only1
    requires r.onlyInFile2 == only2 && r.differentValues == different
    ensures Reports(fields1, fields2, r)
  {
  }

  /** One more path adds its row at the end. */
  lemma RowsForExtend(fields1: map<string, string>, fields2: map<string, string>, keys: seq<string>, i: int)
    requires 0 <= i < |keys|
    ensures RowsFor(fields1, fields2, keys[..i + 1])
         == RowsFor(fields1, fields2, keys[..i]) + [RowFor(fields1, fields2, keys[i])]
  {
    assert keys[..i + 1][..i] == keys[..i];
  }

  /** The state of the loop after the paths `keys`: their rows in order and,
      in each counter, how many of those rows are in its state. */
  ghost predicate Tallied(fields1: map<string, string>, fields2: map<string, string>, keys: seq<string>,
                          rows: seq<DetailedFieldStatus>,
                          common: int, only1: int, only2: int, different: int)
  {
    && rows == RowsFor(fields1, fields2, keys)
    && common == CountStatus(rows, COMMON_SAME)
    && different == CountStatus(rows, COMMON_DIFFERENT)
    && only1 == CountStatus(rows, ONLY_IN_FILE1)
    && only2 == CountStatus(rows, ONLY_IN_FILE2)
  }

  /** Appending the row of the next path and bumping the counter of its
      state keeps the loop state. */
  lemma TalliedExtend(fields1: map<string, string>, fields2: map<string, string>, keys: seq<string>, i: int,
                      rows: seq<DetailedFieldStatus>, common: int, only1: int, only2: int, different: int,
                      state: FieldState)
    requires 0 <= i < |keys|
    requires Tallied(fields1, fields2, keys[..i], rows, common, only1, only2, different)
    requires state == StateOf(fields1, fields2, keys[i])
    ensures Tallied(fields1, fields2, keys[..i + 1], rows + [RowFor(fields1, fields2, keys[i])],
                    common + (if state == COMMON_SAME then 1 else 0),
                    only1 + (if state == ONLY_IN_FILE1 then 1 else 0),
                    only2 + (if state == ONLY_IN_FILE2 then 1 else 0),
                    different + (if state == COMMON_DIFFERENT then 1 else 0))
  {
    RowsForExtend(fields1, fields2, keys, i);
    CountStatusAppend(rows, RowFor(fields1, fields2, keys[i]), state);
  }

  /** One pass of the loop body: look path `keys[i]` up in both documents,
      decide its state, append its row and bump the counter of that state. */
  method ClassifyField(fields1: map<string, string>, fields2: map<string, string>, keys: seq<string>, i: int,
                       rows: seq<DetailedFieldStatus>, common: int, only1: int, only2: int, different: int)
    returns (rows': seq<DetailedFieldStatus>, common': int, only1': int, only2': int, different': int)
    requires 0 <= i < |keys|
    requires Tallied(fields1, fields2, keys[..i], rows, common, only1, only2, different)
    ensures Tallied(fields1, fields2, keys[..i + 1], rows', common', only1', only2', different')
  {
    var field := keys[i];
    var inFile1, inFile2 := field in fields1, field in fields2;
    var value1, value2 := Lookup(fields1, field), Lookup(fields2, field);
    var state := DetermineFieldState(inFile1, inFile2, value1 == value2);
    var row := DetailedFieldStatus(field, inFile1, inFile2, value1, value2,
                                   StatusLabel(state), DifferenceLabel(state));
    assert row == RowFor(fields1, fields2, field);
    TalliedExtend(fields1, fields2, keys, i, rows, common, only1, only2, different, state);
    rows' := rows + [row];
    common', only1', only2', different' := common, only1, only2, different;
    match state {
      case COMMON_SAME => common' := common + 1;
      case COMMON_DIFFERENT => different' := different + 1;
      case ONLY_IN_FILE1 => only1' := only1 + 1;
      case ONLY_IN_FILE2 => only2' := only2 + 1;
    }
  }

  /** The loop of `compareFieldsWithValues`: the union of both key sets,
      sorted, then one row and one counter increment per path. */
  method ClassifyFields(fields1: map<string, string>, fields2: map<string, string>)
    returns (rows: seq<DetailedFieldStatus>, common: int, only1: int, only2: int, different: int)
    ensures Classifies(fields1, fields2, rows, common, only1, only2, different)
  {
    var allFields := fields1.Keys + fields2.Keys;
    var sortedFields := SortKeys(allFields);
    rows := [];
    common, only1, only2, different := 0, 0, 0, 0;
    for i := 0 to |sortedFields|
      invariant Tallied(fields1, fields2, sortedFields[..i], rows, common, only1, only2, different)
    {
      rows, common, only1, only2, different :=
        ClassifyField(fields1, fields2, sortedFields, i, rows, common, only1, only2, different);
    }
    assert sortedFields[..|sortedFields|] == sortedFields;
    TalliedClassifies(fields1, fields2, sortedFields, rows, common, only1, only2, different);
  }

  /** The loop's state after every path of either document, in ascending
      order, is the classification. */
  lemma TalliedClassifies(fields1: map<string, string>, fields2: map<string, string>, keys: seq<string>,
                          rows: seq<DetailedFieldStatus>,
                          common: int, only1: int, only2: int, different: int)
    requires StrictlyAscending(keys)
    requires forall k :: k in keys <==> k in fields1 || k in fields2
    requires Tallied(fields1, fields2, keys, rows, common, only1, only2, different)
    ensures Classifies(fields1, fields2, rows, common, only1, only2, different)
  {
    RowsInKeyOrder(fields1, fields2, keys);
  }

  /** There are exactly as many rows as distinct paths in the two documents
      together. */
  lemma RowCountIsPathCount(fields1: map<string, string>, fields2: map<string, string>,
                            rows: seq<DetailedFieldStatus>,
                            common: int, only1: int, only2: int, different: int)
    requires Classifies(fields1, fields2, rows, common, only1, only2, different)
    ensures |rows| == |fields1.Keys + fields2.Keys|
  {
    var names := FieldNames(rows);
    AscendingCard(names);
    assert (set x | x in names) == fields1.Keys + fields2.Keys;
  }

  /** A sorted sequence without duplicates has as many elements as its set. */
  lemma {:induction false} AscendingCard(s: seq<string>)
    requires StrictlyAscending(s)
    ensures |set x | x in s| == |s|
    decreases |s|
  {
    if s != [] {
      var init := s[..|s| - 1];
      assert StrictlyAscending(init);
      AscendingCard(init);
      assert s == init + [s[|s| - 1]];
      assert (set x | x in s) == (set x | x in init) + {s[|s| - 1]};
      LastIsNew(s);
    }
  }

  /** Rows built one per key of a sorted key list carry that list as their
      paths, and so are sorted and cover exactly its keys. */
  lemma RowsInKeyOrder(fields1: map<string, string>, fields2: map<string, string>, keys: seq<string>)
    ensures FieldNames(RowsFor(fields1, fields2, keys)) == keys
  {
  }

  /** Every row is in exactly one state, so the four counters add up to the
      number of rows. */
  lemma CountersSumToRows(fields1: map<string, string>, fields2: map<string, string>,
                          rows: seq<DetailedFieldStatus>,
                          common: int, only1: int, only2: int, different: int)
    requires Classifies(fields1, fields2, rows, common, only1, only2, different)
    ensures common + different + only1 + only2 == |rows|
  {
    CountsPartition(fields1, fields2, rows);
  }

  lemma {:induction false} CountsPartition(fields1: map<string, string>, fields2: map<string, string>,
                                           rows: seq<DetailedFieldStatus>)
    requires forall i :: 0 <= i < |rows| ==> rows[i] == RowFor(fields1, fields2, rows[i].fieldName)
    ensures CountStatus(rows, COMMON_SAME) + CountStatus(rows, COMMON_DIFFERENT)
          + CountStatus(rows, ONLY_IN_FILE1) + CountStatus(rows, ONLY_IN_FILE2) == |rows|
    decreases |rows|
  {
    if rows != [] {
      var init, last := rows[..|rows| - 1], rows[|rows| - 1];
      assert forall i :: 0 <= i < |init| ==> init[i] == rows[i];
      CountsPartition(fields1, fields2, init);
      var k := last.fieldName;
      var state := DetermineFieldState(k in fields1, k in fields2, Lookup(fields1, k) == Lookup(fields2, k));
      CountStatusAppend(init, last, state);
      assert init + [last] == rows;
    }
  }

  /** In a sequence of strictly ascending paths the last one does not occur
      before. */
  lemma LastIsNew(names: seq<string>)
    requires StrictlyAscending(names) && names != []
    ensures names[|names| - 1] !in names[..|names| - 1]
  {
    if names[|names| - 1] in names[..|names| - 1] {
      var j :| 0 <= j < |names| - 1 && names[j] == names[|names| - 1];
      LexIrreflexive(names[j]);
    }
  }

  /** The paths of `names + [x]` in state `s`. */
  lemma FilterSnoc(fields1: map<string, string>, fields2: map<string, string>,
                   names: seq<string>, x: string, s: FieldState)
    ensures (set k | k in names + [x] && StateOf(fields1, fields2, k) == s)
         == (set k | k in names && StateOf(fields1, fields2, k) == s)
          + (if StateOf(fields1, fields2, x) == s then {x} else {})
  {
  }

  /** The paths of all rows are the paths of all but the last, then the
      last one's. */
  lemma FieldNamesSnoc(rows: seq<DetailedFieldStatus>)
    requires rows != []
    ensures FieldNames(rows[..|rows| - 1]) == FieldNames(rows)[..|rows| - 1]
    ensures FieldNames(rows) == FieldNames(rows[..|rows| - 1]) + [rows[|rows| - 1].fieldName]
  {
  }

  /** With distinct paths, the count of a state is the number of paths in
      that state. */
  lemma {:induction false} CountIsSetSize(fields1: map<string, string>, fields2: map<string, string>,
                                          rows: seq<DetailedFieldStatus>, s: FieldState)
    requires StrictlyAscending(FieldNames(rows))
    requires forall i :: 0 <= i < |rows| ==> rows[i].status == StatusLabel(StateOf(fields1, fields2, rows[i].fieldName))
    ensures CountStatus(rows, s) == |set k | k in FieldNames(rows) && StateOf(fields1, fields2, k) == s|
    decreases |rows|
  {
    if rows != [] {
      var init, last := rows[..|rows| - 1], rows[|rows| - 1];
      var names := FieldNames(rows);
      FieldNamesSnoc(rows);
      CountIsSetSize(fields1, fields2, init, s);
      LastIsNew(names);
      CountStatusAppend(init, last, StateOf(fields1, fields2, last.fieldName));
      assert init + [last] == rows;
      FilterSnoc(fields1, fields2, FieldNames(init), last.fieldName, s);
    }
  }

  /** The counters of the report are the sizes of the key sets they stand
      for: paths in both files with the same value, paths in both with
      different values, paths of file 1 only, paths of file 2 only. */
  lemma CountersMatchKeySets(fields1: map<string, string>, fields2: map<string, string>,
                             rows: seq<DetailedFieldStatus>,
                             common: int, only1: int, only2: int, different: int)
    requires Classifies(fields1, fields2, rows, common, only1, only2, different)
    ensures common == |set k | k in fields1 && k in fields2 && fields1[k] == fields2[k]|
    ensures different == |set k | k in fields1 && k in fields2 && fields1[k] != fields2[k]|
    ensures only1 == |fields1.Keys - fields2.Keys|
    ensures only2 == |fields2.Keys - fields1.Keys|
  {
    var names := FieldNames(rows);
    assert forall i :: 0 <= i < |rows| ==> rows[i].status == StatusLabel(StateOf(fields1, fields2, rows[i].fieldName));
    CountIsSetSize(fields1, fields2, rows, COMMON_SAME);
    CountIsSetSize(fields1, fields2, rows, COMMON_DIFFERENT);
    CountIsSetSize(fields1, fields2, rows, ONLY_IN_FILE1);
    CountIsSetSize(fields1, fields2, rows, ONLY_IN_FILE2);
    StateSets(fields1, fields2, names);
  }

  /** Over a list holding exactly the paths of both documents, the paths in
      each state form the key set that state stands for. */
  lemma StateSets(fields1: map<string, string>, fields2: map<string, string>, names: seq<string>)
    requires forall k :: k in names <==> k in fields1 || k in fields2
    ensures (set k | k in names && StateOf(fields1, fields2, k) == COMMON_SAME)
         == (set k | k in fields1 && k in fields2 && fields1[k] == fields2[k])
    ensures (set k | k in names && StateOf(fields1, fields2, k) == COMMON_DIFFERENT)
         == (set k | k in fields1 && k in fields2 && fields1[k] != fields2[k])
    ensures (set k | k in names && StateOf(fields1, fields2, k) == ONLY_IN_FILE1)
         == fields1.Keys - fields2.Keys
    ensures (set k | k in names && StateOf(fields1, fields2, k) == ONLY_IN_FILE2)
         == fields2.Keys - fields1.Keys
  {
  }

  /** A document compared with itself: every path is common with the same
      value, and nothing differs or is missing. */
  lemma SelfComparison(fields: map<string, string>, rows: seq<DetailedFieldStatus>,
                       common: int, only1: int, only2: int, different: int)
    requires Classifies(fields, fields, rows, common, only1, only2, different)
    ensures common == |rows| == |fields|
    ensures different == 0 && only1 == 0 && only2 == 0
  {
    CountersMatchKeySets(fields, fields, rows, common, only1, only2, different);
    RowCountIsPathCount(fields, fields, rows, common, only1, only2, different);
    assert (set k | k in fields && k in fields && fields[k] == fields[k]) == fields.Keys;
    assert (set k | k in fields && k in fields && fields[k] != fields[k]) == {};
    assert fields.Keys + fields.Keys == fields.Keys;
  }

  /** The classification of two documents is unique: the rows and the
      counters are determined by the two flattened maps alone. */
  lemma ClassificationDeterministic(fields1: map<string, string>, fields2: map<string, string>,
                                    rows: seq<DetailedFieldStatus>,
                                    common: int, only1: int, only2: int, different: int,
                                    rows': seq<DetailedFieldStatus>,
                                    common': int, only1': int, only2': int, different': int)
    requires Classifies(fields1, fields2, rows, common, only1, only2, different)
    requires Classifies(fields1, fields2, rows', common', only1', only2', different')
    ensures rows == rows'
    ensures common == common' && only1 == only1' && only2 == only2' && different == different'
  {
    AscendingUnique(FieldNames(rows), FieldNames(rows'));
    assert |rows| == |rows'|;
    forall i | 0 <= i < |rows| ensures rows[i] == rows'[i] {
      assert FieldNames(rows)[i] == FieldNames(rows')[i];
    }
  }

  /** A path present in both files with different values is counted as a
      difference. */
  lemma DifferingValueCounted(fields1: map<string, string>, fields2: map<string, string>,
                              rows: seq<DetailedFieldStatus>,
                              common: int, only1: int, only2: int, different: int, k: string)
    requires Classifies(fields1, fields2, rows, common, only1, only2, different)
    requires k in fields1 && k in fields2 && fields1[k] != fields2[k]
    ensures different > 0
  {
    CountersMatchKeySets(fields1, fields2, rows, common, only1, only2, different);
    var differing := set p | p in fields1 && p in fields2 && fields1[p] != fields2[p];
    assert k in differing;
    assert |differing| >= 1 by {
      assert {k} <= differing;
    }
  }
}
