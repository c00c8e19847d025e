# simple-json-comparator, modelled in Dafny

simple-json-comparator compares two JSON documents in two ways.

- **Structural comparison** (`compareJsonNodesIgnoringOrder`). Two trees are equal when:
  - they have the same node type;
  - objects have the same size, the same field names and structurally equal values per name, regardless of field order;
  - arrays have the same size and structurally equal elements position by position;
  - any other node is equal to the other by plain equality.
- **Field-by-field report**. Each document is first flattened (`JsonTraverser.extractFieldsWithValues`) into a map from a *path* to a textual value:
  - object members are reached as `parent.name` (a top-level member as plain `name`);
  - array elements as `parent[i]`;
  - each node below the root that is not a missing node puts an entry at its path, containers included. Strings are quoted, numbers and booleans give their text, `null` gives `null`, and containers give Jackson's compact rendering. Binary and POJO nodes give bracketed placeholders;
  - the root's path is empty, and a path that comes out empty is never recorded;
  - a later node whose path equals an earlier one's overwrites that entry.

  The keys of the map are therefore exactly the non-empty paths of the non-missing nodes (`JsonTraverser.VisitKeys`). There are at most as many entries as non-missing nodes below the root (`JsonTraverser.FlattenSizeBound`).

  The two maps are then classified (`compareFieldsWithValues`):
  - the union of their paths, in ascending string order, gives one row per path;
  - each row records presence in each file, both values, a status label and a difference label;
  - four counters count the rows of each kind: same value, different value, only in file 1, only in file 2.

  The result goes to a console table (`ComparisonReporter`) and a CSV export (`FileOperations`).

The model has one module per source component.

- `JsonNode`: the JSON tree that Jackson's `JsonNode` stands for. Objects are lists of `(name, value)` pairs. `Serialize` is the compact rendering.
- `StructuralEquality`: the structural comparison, shared by the `processor` and root copies of `JsonComparatorOperations`, which are identical there. It is proved to be an equivalence relation, to ignore field order and to respect array order.
- `JsonTraverser`: the flattening. A `FieldAccumulator` class holds the `HashMap` the traversal mutates. Imperative methods mirror the recursive traversal, and each is proved to produce the pure specification `Visit`/`Flatten`.
- `StringOrder`: `String`'s natural order and the sort of the path set.
- `ResultModel`: `FieldState`, `DetailedFieldStatus`, `DetailedFieldComparisonResult` and its mutable `Builder`.
- `FieldDiff`: `determineFieldState` and the classification loop shared by both `compareFieldsWithValues` variants. It is proved against a specification: `Classifies` says the rows are in ascending path order, cover exactly the union of the paths, give each path's row, and carry counters equal to the row counts. The lemmas then connect the counters to the maps' key sets.
- `ProcessorComparator` / `RootComparator`: the two `compareFieldsWithValues` variants. The processor variant also labels the result with the text after the last `/` of each path.
- `FileOperations`: `extractFileName` and the record `writeToCsv` hands to the CSV printer.
- `ComparisonReporter`: truncation, the `"-"` and `"Yes"`/`"No"` substitutions, the summary difference label, the table widths, and the layout of one table line.
- `JavaText`, `Decimal`, `Wrappers`: `String.lastIndexOf`, integer-to-decimal text, `Option` (a Java `null` is `None`).

Facts the proofs bring out about the program as written:

- The structural comparison treats two documents whose nested objects list the same members in different orders as equal. The field-by-field report marks the enclosing path as "Values differ", because the container's value is its text rendering, which keeps the member order (`ProcessorComparator.ReorderedNestedFieldsDiffer`).
- The documentation says arrays are compared "regardless of their order". The code compares them position by position, and the model follows the code (`StructuralEquality.ArraySwapUnequal`).
- An object member whose own name contains a dot can collide with a nested path. For example `{"a.b":1,"a":{"b":2}}` flattens to a single `a.b` entry, and the later value wins (`JsonTraverser.DottedNameCollision`).
- A top-level member named `""` has the empty path. It gets no entry, and its own members get the paths of top-level members: `{"":{"a":1}}` flattens exactly as `{"a":1}` does (`JsonTraverser.EmptyNamePromotesChildren`).
- The summary's "Common fields" line counts only the shared paths whose values agree (`ComparisonReporter.SummaryCountsKeySets`).
- Three of the four status labels are 16 to 18 characters wide, and the status column is 15 wide. A detailed-table line therefore matches the table width only for a path with equal values in both files (`ComparisonReporter.ClassifiedLineWidth`).

Source paths below are relative to the repository root.

## Model

| member | source | states |
|---|---|---|
| `StructuralEquality.CompareJsonNodesIgnoringOrder` | src/main/java/org/gorillacorp/comparator/processor/JsonComparatorOperations.java:66-74 | equal nodes have the same node type; a node that is neither object nor array is equal exactly to itself |
| `StructuralEquality.CompareObjectNodes` | src/main/java/org/gorillacorp/comparator/processor/JsonComparatorOperations.java:86-100 | equal objects have the same size and name set, and each name's two values have the same node type |
| `StructuralEquality.CompareArrayNodes` | src/main/java/org/gorillacorp/comparator/processor/JsonComparatorOperations.java:111-118 | equal arrays have the same length, and elements at the same index have the same node type |
| `StructuralEquality.KindMismatchUnequal` | src/main/java/org/gorillacorp/comparator/processor/JsonComparatorOperations.java:66-73 | nodes of different node types are never equal |
| `StructuralEquality.ScalarsUseNaturalEquality` | src/main/java/org/gorillacorp/comparator/processor/JsonComparatorOperations.java:71 | a node that is neither object nor array compares equal exactly when it is equal |
| `StructuralEquality.ObjectSizeMismatchUnequal` | src/main/java/org/gorillacorp/comparator/processor/JsonComparatorOperations.java:87-89 | objects of different sizes are unequal |
| `StructuralEquality.ObjectEqualByNames` | src/main/java/org/gorillacorp/comparator/processor/JsonComparatorOperations.java:86-100 | objects with distinct keys are equal iff same size, same name set and every name's values compare equal |
| `StructuralEquality.CollectFieldNames` | src/main/java/org/gorillacorp/comparator/processor/JsonComparatorOperations.java:127-131 | the loop collects exactly the object's member names: the name set `compareObjectNodes` compares; a non-object gives the empty set |
| `StructuralEquality.CompareReflexive` | src/main/java/org/gorillacorp/comparator/processor/JsonComparatorOperations.java:66-118 | every tree is structurally equal to itself |
| `StructuralEquality.CompareSymmetric` | src/main/java/org/gorillacorp/comparator/processor/JsonComparatorOperations.java:66-118 | structural equality is symmetric |
| `StructuralEquality.CompareTransitive` | src/main/java/org/gorillacorp/comparator/processor/JsonComparatorOperations.java:66-118 | structural equality is transitive |
| `StructuralEquality.ObjectsTransitive` | src/main/java/org/gorillacorp/comparator/processor/JsonComparatorOperations.java:86-100 | the object case of transitivity: equal sizes, equal name sets and equal values per name chain |
| `StructuralEquality.FieldOrderIrrelevant` | src/main/java/org/gorillacorp/comparator/processor/JsonComparatorOperations.java:86-100 | two objects with distinct keys holding the same members in any order are equal |
| `StructuralEquality.ArraySwapUnequal` | src/main/java/org/gorillacorp/comparator/processor/JsonComparatorOperations.java:111-118 | swapping two unequal array elements makes the array unequal to the original: arrays are positional |
| `StructuralEquality.SingleFieldObjects` | src/main/java/org/gorillacorp/comparator/processor/JsonComparatorOperations.java:86-100 | one-member objects with the same name are equal iff their values are |
| `StructuralEquality.ReorderedDocsStructurallyEqual` | src/test/java/org/gorillacorp/comparator/JsonComparatorOperationsTest.java:45-76 | documents whose nested object lists its members in another order are structurally equal |
| `JsonNode.Names` | src/main/java/org/gorillacorp/comparator/processor/JsonComparatorOperations.java:129 | the names yielded by `fieldNames()` are exactly the members' names |
| `JsonNode.IndexOf` | src/main/java/org/gorillacorp/comparator/processor/JsonComparatorOperations.java:97-98 | `get(name)` finds the first member with that name |
| `JsonNode.Get` | src/main/java/org/gorillacorp/comparator/processor/JsonComparatorOperations.java:97-98 | `get(name)` returns a value stored under that name |
| `JsonNode.GetAt` | src/main/java/org/gorillacorp/comparator/processor/JsonTraverser.java:133-134 | with distinct keys, `get` of a member's name returns that member's value |
| `JsonNode.UniqueKeysCard` | src/main/java/org/gorillacorp/comparator/processor/JsonComparatorOperations.java:87-94 | with distinct keys an object's size is the size of its name set |
| `JsonNode.SerializeDelimited` | src/main/java/org/gorillacorp/comparator/processor/JsonTraverser.java:174-175 | `toString()` of an object is braced, of an array bracketed, of a string quoted |
| `JsonNode.ReorderedDocTexts` | src/main/java/org/gorillacorp/comparator/processor/JsonTraverser.java:174-175 | an object's text rendering keeps member order: the two reordered objects render differently |
| `JsonNode.NestedObjectText` | src/main/java/org/gorillacorp/comparator/processor/JsonTraverser.java:174 | the compact rendering of `{"name":"Alice"}` |
| `JsonTraverser.FieldAccumulator.constructor` | src/main/java/org/gorillacorp/comparator/processor/JsonTraverser.java:38 | the accumulator starts empty |
| `JsonTraverser.FieldAccumulator.Put` | src/main/java/org/gorillacorp/comparator/processor/JsonTraverser.java:103 | `put` maps the path to the value, overwriting an earlier entry |
| `JsonTraverser.ChildPath` | src/main/java/org/gorillacorp/comparator/processor/JsonTraverser.java:133 | a top-level member's path is its name; otherwise the parent path, a dot, then the name |
| `JsonTraverser.ElementPath` | src/main/java/org/gorillacorp/comparator/processor/JsonTraverser.java:143 | an element's path strictly extends the array's path with `[` |
| `JsonTraverser.ElementPathIndex` | src/main/java/org/gorillacorp/comparator/processor/JsonTraverser.java:143 | the element path ends in `]` and holds the index's decimal digits |
| `JsonTraverser.ValueAsStringByKind` | src/main/java/org/gorillacorp/comparator/processor/JsonTraverser.java:168-178 | a string's text between quotes, a number's token, `true` exactly for true, `null` for null |
| `JsonTraverser.BinaryEntry` | src/main/java/org/gorillacorp/comparator/processor/JsonTraverser.java:148-155 | the failure message appears exactly when the bytes cannot be read; otherwise the digits between prefix and suffix read back as the byte count |
| `JsonTraverser.ByteCountReadsBack` | src/main/java/org/gorillacorp/comparator/processor/JsonTraverser.java:151 | the byte count sits between the fixed prefix and suffix, reads back as the count, and never equals the failure message |
| `JsonTraverser.AccumulateValueIfPathNotEmpty` | src/main/java/org/gorillacorp/comparator/processor/JsonTraverser.java:101-105 | puts the node's text under a non-empty path, and nothing under the empty path |
| `JsonTraverser.AccumulateBinaryDataLength` | src/main/java/org/gorillacorp/comparator/processor/JsonTraverser.java:148-155 | puts the byte count, or the unreadable-length text when reading fails |
| `JsonTraverser.AccumulateBinaryValueIfPathNotEmpty` | src/main/java/org/gorillacorp/comparator/processor/JsonTraverser.java:118-122 | the binary entry is put only under a non-empty path |
| `JsonTraverser.AccumulatePojoValueIfPathNotEmpty` | src/main/java/org/gorillacorp/comparator/processor/JsonTraverser.java:124-128 | puts `[POJO: <rendering>]` under a non-empty path |
| `JsonTraverser.TraverseWithValues` | src/main/java/org/gorillacorp/comparator/processor/JsonTraverser.java:53-88 | the traversal's effect on the map is exactly `Visit` of the node at that path |
| `JsonTraverser.TraverseObjectFields` | src/main/java/org/gorillacorp/comparator/processor/JsonTraverser.java:130-138 | visiting members in order has the effect of `VisitFields` over all members |
| `JsonTraverser.TraverseArrayElements` | src/main/java/org/gorillacorp/comparator/processor/JsonTraverser.java:140-146 | visiting elements in index order has the effect of `VisitElems` over all elements |
| `JsonTraverser.Flatten` | src/main/java/org/gorillacorp/comparator/processor/JsonTraverser.java:37-41 | the flattened map's keys are exactly the non-empty paths of the non-missing nodes |
| `JsonTraverser.VisitKeys` | src/main/java/org/gorillacorp/comparator/processor/JsonTraverser.java:53-88 | a traversal keeps the old keys and adds exactly the subtree's non-empty paths of non-missing nodes |
| `JsonTraverser.VisitFieldsKeys` | src/main/java/org/gorillacorp/comparator/processor/JsonTraverser.java:130-138 | visiting the members adds exactly the paths below them |
| `JsonTraverser.VisitElemsKeys` | src/main/java/org/gorillacorp/comparator/processor/JsonTraverser.java:140-146 | visiting the elements adds exactly the paths below them |
| `JsonTraverser.NodePathsExtend` | src/main/java/org/gorillacorp/comparator/processor/JsonTraverser.java:133-143 | every path in a subtree extends the subtree's own path |
| `JsonTraverser.FieldPathsExtend` | src/main/java/org/gorillacorp/comparator/processor/JsonTraverser.java:133 | below a non-empty object path, every member's subtree path properly extends it |
| `JsonTraverser.ElemPathsExtend` | src/main/java/org/gorillacorp/comparator/processor/JsonTraverser.java:143 | every element's subtree path properly extends the array's path |
| `JsonTraverser.NodePathsBound` | src/main/java/org/gorillacorp/comparator/processor/JsonTraverser.java:53-146 | a subtree has no more paths than non-missing nodes, one fewer at the root |
| `JsonTraverser.FlattenSizeBound` | src/main/java/org/gorillacorp/comparator/processor/JsonTraverser.java:37-41 | the flattened map has at most one entry per non-missing node below the root |
| `JsonTraverser.EmptyNamePromotesChildren` | src/main/java/org/gorillacorp/comparator/processor/JsonTraverser.java:101-105 | a top-level member named `""` gets no entry, and `{"":{"a":1}}` flattens as `{"a":1}` does |
| `JsonTraverser.ExtractFieldsWithValues` | src/main/java/org/gorillacorp/comparator/processor/JsonTraverser.java:37-41 | returns `Flatten(node)`, which never has an entry for the empty path |
| `JsonTraverser.VisitNoEmptyKey` | src/main/java/org/gorillacorp/comparator/processor/JsonTraverser.java:101-105 | the root, whose path is empty, never gets an entry |
| `JsonTraverser.VisitFrame` | src/main/java/org/gorillacorp/comparator/processor/JsonTraverser.java:53-88 | a visit keeps every existing key, every key it adds extends the path, and entries outside the subtree's paths are unchanged |
| `JsonTraverser.VisitFieldsFrame` | src/main/java/org/gorillacorp/comparator/processor/JsonTraverser.java:130-138 | below a non-empty parent path, visiting members keeps every key, adds only keys strictly below the path, and changes no entry outside it |
| `JsonTraverser.VisitElemsFrame` | src/main/java/org/gorillacorp/comparator/processor/JsonTraverser.java:140-146 | visiting elements keeps every key, adds only keys strictly below the array's path, and changes no entry outside it |
| `JsonTraverser.OwnEntry` | src/main/java/org/gorillacorp/comparator/processor/JsonTraverser.java:58-79 | every non-missing node under a non-empty path ends with its own text at that path; its descendants never overwrite it |
| `JsonTraverser.ElementPathInjective` | src/main/java/org/gorillacorp/comparator/processor/JsonTraverser.java:143 | different indexes give different element paths |
| `JsonTraverser.ChildPathInjective` | src/main/java/org/gorillacorp/comparator/processor/JsonTraverser.java:133 | different member names give different child paths |
| `JsonTraverser.QuotedStringsAreDistinct` | src/main/java/org/gorillacorp/comparator/processor/JsonTraverser.java:168-173 | a string's quoted text differs from `null` and boolean texts, and determines the string |
| `JsonTraverser.ScalarRootFlattensToNothing` | src/main/java/org/gorillacorp/comparator/processor/JsonTraverser.java:66-80 | a scalar root flattens to the empty map |
| `JsonTraverser.EmptyRootFlattensToNothing` | src/main/java/org/gorillacorp/comparator/processor/JsonTraverser.java:58-65 | an empty root object or array flattens to the empty map |
| `JsonTraverser.NestedObjectExample` | src/main/java/org/gorillacorp/comparator/processor/JsonTraverser.java:130-137 | `{"user":{"name":"Alice"}}` flattens to `user` ↦ its rendering and `user.name` ↦ `"Alice"` |
| `JsonTraverser.ArrayExample` | src/main/java/org/gorillacorp/comparator/processor/JsonTraverser.java:140-146 | `{"ids":[1,2]}` flattens to `ids`, `ids[0]` ↦ `1` and `ids[1]` ↦ `2` |
| `JsonTraverser.DottedNameCollision` | src/main/java/org/gorillacorp/comparator/processor/JsonTraverser.java:133 | a dotted member name and a nested path collide; the later value wins |
| `JsonTraverser.SingleFieldEntry` | src/main/java/org/gorillacorp/comparator/processor/JsonTraverser.java:133-135 | a top-level member's entry sits under its bare name and holds its text |
| `JsonTraverser.ReorderedDocsFlattenDifferently` | src/main/java/org/gorillacorp/comparator/processor/JsonTraverser.java:174-175 | the reordered documents give the enclosing path different values |
| `StringOrder.LexIrreflexive` | src/main/java/org/gorillacorp/comparator/processor/JsonComparatorOperations.java:203 | the sort's order is irreflexive |
| `StringOrder.LexTransitive` | src/main/java/org/gorillacorp/comparator/processor/JsonComparatorOperations.java:203 | the sort's order is transitive |
| `StringOrder.LexTotal` | src/main/java/org/gorillacorp/comparator/processor/JsonComparatorOperations.java:203 | any two different strings are ordered one way or the other |
| `StringOrder.AscendingUnique` | src/main/java/org/gorillacorp/comparator/processor/JsonComparatorOperations.java:203 | a set has only one strictly ascending listing, so the sorted order is determined |
| `StringOrder.SortKeys` | src/main/java/org/gorillacorp/comparator/processor/JsonComparatorOperations.java:199-203 | the sorted list is strictly ascending, holds exactly the set's members and has the set's size |
| `ResultModel.Builder.constructor` | src/main/java/org/gorillacorp/comparator/model/DetailedFieldComparisonResult.java:32-39 | a new builder has no rows, no file names and zero counters |
| `ResultModel.Builder.SetFieldStatusList` | src/main/java/org/gorillacorp/comparator/model/DetailedFieldComparisonResult.java:47-50 | a `null` list becomes empty; otherwise the rows are stored; returns the builder |
| `ResultModel.Builder.SetFile1Name` | src/main/java/org/gorillacorp/comparator/model/DetailedFieldComparisonResult.java:59-62 | stores the first file label and nothing else; returns the builder |
| `ResultModel.Builder.SetFile2Name` | src/main/java/org/gorillacorp/comparator/model/DetailedFieldComparisonResult.java:70-73 | stores the second file label and nothing else; returns the builder |
| `ResultModel.Builder.SetCommonFields` | src/main/java/org/gorillacorp/comparator/model/DetailedFieldComparisonResult.java:81-84 | stores the common counter and nothing else; returns the builder |
| `ResultModel.Builder.SetOnlyInFile1` | src/main/java/org/gorillacorp/comparator/model/DetailedFieldComparisonResult.java:92-95 | stores the file-1-only counter and nothing else; returns the builder |
| `ResultModel.Builder.SetOnlyInFile2` | src/main/java/org/gorillacorp/comparator/model/DetailedFieldComparisonResult.java:103-106 | stores the file-2-only counter and nothing else; returns the builder |
| `ResultModel.Builder.SetDifferentValues` | src/main/java/org/gorillacorp/comparator/model/DetailedFieldComparisonResult.java:114-117 | stores the differing counter and nothing else; returns the builder |
| `ResultModel.BuildResult` | src/main/java/org/gorillacorp/comparator/processor/JsonComparatorOperations.java:245-253 | the builder chain yields a result holding exactly the given rows, labels and counters |
| `ResultModel.Builder.Build` | src/main/java/org/gorillacorp/comparator/model/DetailedFieldComparisonResult.java:124-134 | the result holds the builder's seven current values |
| `FieldDiff.DetermineFieldState` | src/main/java/org/gorillacorp/comparator/processor/JsonComparatorOperations.java:170-180 | each of the four states holds exactly under its presence/equality condition |
| `FieldDiff.StatusLabel` | src/main/java/org/gorillacorp/comparator/processor/JsonComparatorOperations.java:219-226 | a symbol, a space and a word; the check mark appears exactly for a path with the same value in both files |
| `FieldDiff.DifferenceLabel` | src/main/java/org/gorillacorp/comparator/processor/JsonComparatorOperations.java:219-226 | `Same value` exactly for a path with the same value in both files |
| `FieldDiff.LabelsIdentifyState` | src/main/java/org/gorillacorp/comparator/processor/JsonComparatorOperations.java:219-227 | each status label, and each difference label, belongs to one state only |
| `FieldDiff.StateOf` | src/main/java/org/gorillacorp/comparator/processor/JsonComparatorOperations.java:212-218 | a path's state in terms of the two maps: shared and equal, shared and different, only in file 1, only in file 2 |
| `FieldDiff.RowFor` | src/main/java/org/gorillacorp/comparator/processor/JsonComparatorOperations.java:212-242 | a path's row holds the path, its presence in each map, the value from each map (`null` when absent) and the labels of its state |
| `FieldDiff.RowStatusMeaning` | src/main/java/org/gorillacorp/comparator/processor/JsonComparatorOperations.java:219-227 | a row's status label says "Common" iff the path is in both maps with equal values, and likewise for the other three labels |
| `FieldDiff.CountStatusAppend` | src/main/java/org/gorillacorp/comparator/processor/JsonComparatorOperations.java:231 | one more row bumps exactly the counter of its state |
| `FieldDiff.RowsFor` | src/main/java/org/gorillacorp/comparator/processor/JsonComparatorOperations.java:211-243 | one row per listed path, in list order, each that path's row |
| `FieldDiff.ClassifyField` | src/main/java/org/gorillacorp/comparator/processor/JsonComparatorOperations.java:212-242 | one loop iteration extends the rows by the next path's row and bumps its state's counter |
| `FieldDiff.ClassifyFields` | src/main/java/org/gorillacorp/comparator/processor/JsonComparatorOperations.java:199-243 | the rows are in ascending path order, cover exactly the union of both key sets, are each path's row, and the counters count the rows by state |
| `FieldDiff.RowCountIsPathCount` | src/main/java/org/gorillacorp/comparator/processor/JsonComparatorOperations.java:199-211 | there are as many rows as distinct paths in the two maps |
| `FieldDiff.RowsInKeyOrder` | src/main/java/org/gorillacorp/comparator/processor/JsonComparatorOperations.java:211-242 | the rows' field names are the iterated paths, in order |
| `FieldDiff.CountersSumToRows` | src/main/java/org/gorillacorp/comparator/processor/JsonComparatorOperations.java:206-231 | the four counters add up to the number of rows |
| `FieldDiff.CountsPartition` | src/main/java/org/gorillacorp/comparator/processor/JsonComparatorOperations.java:219-231 | every row is counted under exactly one state |
| `FieldDiff.CountIsSetSize` | src/main/java/org/gorillacorp/comparator/processor/JsonComparatorOperations.java:219-231 | each counter is the number of listed paths in that state |
| `FieldDiff.CountersMatchKeySets` | src/main/java/org/gorillacorp/comparator/processor/JsonComparatorOperations.java:206-252 | common = shared paths with equal values, different = shared paths with different values, only1 = keys1 − keys2, only2 = keys2 − keys1 |
| `FieldDiff.SelfComparison` | src/main/java/org/gorillacorp/comparator/processor/JsonComparatorOperations.java:195-254 | comparing a map with itself gives only common rows: one per path, the other counters zero |
| `FieldDiff.ClassificationDeterministic` | src/main/java/org/gorillacorp/comparator/processor/JsonComparatorOperations.java:199-243 | the rows and counters are determined by the two maps alone |
| `FieldDiff.DifferingValueCounted` | src/main/java/org/gorillacorp/comparator/processor/JsonComparatorOperations.java:217-222 | a shared path with different values makes the differing counter positive |
| `JavaText.LastIndexOf` | src/main/java/org/gorillacorp/comparator/processor/JsonComparatorOperations.java:247 | the last position of the character, or -1 exactly when it does not occur |
| `ProcessorComparator.BaseNameAfterSlash` | src/main/java/org/gorillacorp/comparator/processor/JsonComparatorOperations.java:247-248 | the suffix after the last `/`: it has no `/`, is a suffix of the path, follows a `/` unless it is the whole path |
| `ProcessorComparator.CompareFieldsWithValues` | src/main/java/org/gorillacorp/comparator/processor/JsonComparatorOperations.java:195-254 | the result reports the classification of the two maps and carries both base names as file labels |
| `ProcessorComparator.ReorderedNestedFieldsDiffer` | src/main/java/org/gorillacorp/comparator/processor/JsonComparatorOperations.java:66-254 | for the reordered documents the structural comparison says equal while the report counts a differing value |
| `RootComparator.CompareFieldsWithValues` | src/main/java/org/gorillacorp/comparator/JsonComparatorOperations.java:193-248 | the result reports the classification of the two maps and carries no file labels |
| `Decimal.NatToString` | src/main/java/org/gorillacorp/comparator/processor/JsonTraverser.java:143 | the decimal text of an index is non-empty, all digits, without a leading zero |
| `Decimal.ParseNatToString` | src/main/java/org/gorillacorp/comparator/processor/JsonTraverser.java:143 | reading the decimal text back gives the number |
| `Decimal.NatToStringInjective` | src/main/java/org/gorillacorp/comparator/processor/JsonTraverser.java:143 | different numbers have different decimal texts |
| `FileOperations.ExtractFileName` | src/main/java/org/gorillacorp/comparator/utils/FileOperations.java:20-25 | `null` gives `""`; otherwise a suffix without `/` or `\` that is the whole path or starts right after a separator |
| `FileOperations.BaseName` | src/main/java/org/gorillacorp/comparator/utils/FileOperations.java:22-24 | the text after the later of the two last separators is a base name of the path |
| `FileOperations.BaseNameUnique` | src/main/java/org/gorillacorp/comparator/utils/FileOperations.java:23-24 | that property leaves only one possible answer: the text after the later of the last `/` and the last `\` |
| `FileOperations.NoSeparatorKeepsPath` | src/main/java/org/gorillacorp/comparator/utils/FileOperations.java:24 | a path without separators is returned unchanged |
| `FileOperations.ExtractFileNameIdempotent` | src/main/java/org/gorillacorp/comparator/utils/FileOperations.java:20-25 | extracting from a file name changes nothing |
| `FileOperations.AgreesWithSlashOnlyBaseName` | src/main/java/org/gorillacorp/comparator/processor/JsonComparatorOperations.java:247-248 | without backslashes, `extractFileName` and the comparator's `/`-only label agree |
| `FileOperations.WindowsPathBaseNames` | src/main/java/org/gorillacorp/comparator/utils/FileOperations.java:22-24 | on `C:\data\a.json` `extractFileName` gives `a.json` while the `/`-only label keeps the whole path |
| `FileOperations.PresenceLabel` | src/main/java/org/gorillacorp/comparator/utils/FileOperations.java:39-40 | the label is `"Yes"` exactly when the field is present, and `"No"` otherwise |
| `FileOperations.CsvRecord` | src/main/java/org/gorillacorp/comparator/utils/FileOperations.java:37-45 | seven values; only the two value columns can be `null` |
| `FileOperations.ParsePresence` | src/main/java/org/gorillacorp/comparator/utils/FileOperations.java:39-40 | only `"Yes"` and `"No"` read back as a presence |
| `FileOperations.CsvRecordRoundTrip` | src/main/java/org/gorillacorp/comparator/utils/FileOperations.java:37-45 | reading a row's record back gives the row: the export loses nothing |
| `FileOperations.CsvRecordInjective` | src/main/java/org/gorillacorp/comparator/utils/FileOperations.java:37-45 | different rows give different records |
| `ComparisonReporter.TableWidthsMatchColumns` | src/main/java/org/gorillacorp/comparator/ComparisonReporter.java:32-62 | the rule widths are the column widths plus 3 per separator: 149 and 99 |
| `ComparisonReporter.PadRight` | src/main/java/org/gorillacorp/comparator/ComparisonReporter.java:92-95 | `%-Ns` keeps the text, pads it with spaces to the width, never cuts it |
| `ComparisonReporter.FormatRow` | src/main/java/org/gorillacorp/comparator/ComparisonReporter.java:92-95 | a line starts with its first cell's text |
| `ComparisonReporter.RowWidth` | src/main/java/org/gorillacorp/comparator/ComparisonReporter.java:92-102 | a line is never shorter than the rule, and is exactly as long iff every cell fits its column |
| `ComparisonReporter.HeadersSpanTheirTables` | src/main/java/org/gorillacorp/comparator/ComparisonReporter.java:77-81 | both header lines are exactly as wide as their rules |
| `ComparisonReporter.Truncate` | src/main/java/org/gorillacorp/comparator/ComparisonReporter.java:114 | the shown text is at most the maximum; short text is kept; long text keeps its leading characters and ends in `...` |
| `ComparisonReporter.TruncateIdempotent` | src/main/java/org/gorillacorp/comparator/ComparisonReporter.java:114 | truncating twice is truncating once |
| `ComparisonReporter.TruncationConflates` | src/main/java/org/gorillacorp/comparator/ComparisonReporter.java:114 | long texts with the same leading characters are shown alike |
| `ComparisonReporter.DifferentValuesShownAlike` | src/main/java/org/gorillacorp/comparator/ComparisonReporter.java:89-90 | two different 18-character values appear identical in the table |
| `ComparisonReporter.TruncateValue` | src/main/java/org/gorillacorp/comparator/ComparisonReporter.java:112-115 | `null` stays `null`; at most 17 characters; values of up to 17 unchanged; longer ones become 14 characters and `...` |
| `ComparisonReporter.TruncateFieldName` | src/main/java/org/gorillacorp/comparator/ComparisonReporter.java:85-87 | at most 37 characters; names of up to 37 unchanged; longer ones become 34 characters and `...` |
| `ComparisonReporter.DisplayValue` | src/main/java/org/gorillacorp/comparator/ComparisonReporter.java:99-100 | a `null` value is shown as `-`, any other as itself |
| `ComparisonReporter.DetailedRowCells` | src/main/java/org/gorillacorp/comparator/ComparisonReporter.java:96-102 | seven cells, the last two the row's status and difference |
| `ComparisonReporter.DetailedLineWidth` | src/main/java/org/gorillacorp/comparator/ComparisonReporter.java:84-102 | a row's line is at least the table width, and exactly that iff its status and difference labels fit their columns |
| `ComparisonReporter.LabelsFitOnlyForSameValues` | src/main/java/org/gorillacorp/comparator/ComparisonReporter.java:37-38 | every difference label fits its column; a status label fits iff the state is "same value" |
| `ComparisonReporter.ClassifiedLineWidth` | src/main/java/org/gorillacorp/comparator/ComparisonReporter.java:84-102 | a classified path's line matches the table width iff the path is in both maps with equal values |
| `ComparisonReporter.IntText` | src/main/java/org/gorillacorp/comparator/ComparisonReporter.java:135-149 | `%d` text reads back as the number, with a leading `-` when negative |
| `ComparisonReporter.SummaryDifferenceLabel` | src/main/java/org/gorillacorp/comparator/ComparisonReporter.java:141 | `"Same"` iff the two counts are equal; otherwise digits that read back as the absolute difference |
| `ComparisonReporter.SummaryDifferenceSymmetric` | src/main/java/org/gorillacorp/comparator/ComparisonReporter.java:141 | the label does not depend on which file comes first |
| `ComparisonReporter.SummaryRows` | src/main/java/org/gorillacorp/comparator/ComparisonReporter.java:135-157 | three data lines of four cells each |
| `ComparisonReporter.ReportedCounts` | src/main/java/org/gorillacorp/comparator/ComparisonReporter.java:146-156 | the counters a reporting result carries, in terms of the two maps' key sets |
| `ComparisonReporter.SummaryCountsKeySets` | src/main/java/org/gorillacorp/comparator/ComparisonReporter.java:143-157 | the summary shows the count of shared equal-valued paths as "Common fields", and the per-file unique key counts |

## Left out

- The file reading and parsing (`compareJson`, `loadJsonNodes`) are left out: they are I/O, Jackson parsing and the `StructuredTaskScope` fork/join with its exception handler. The model starts from parsed trees.
- Logging, the CLI argument parser and `ComparisonCsvExporter` (file creation, header line, `CSVPrinter`) are left out as I/O. `writeToCsv` is modelled only as the record it passes to the printer; its `IOException` wrapping is not.
- `printFilePaths` is left out, and so is the looping and printing in `printDetailedComparisonTable` and `printSummaryTable`. Their lines are modelled as cell lists and `FormatRow`.
- Jackson's `toString` for containers is modelled by `JsonNode.Serialize`, which leaves out:
  - the escaping of quotes and control characters inside strings;
  - base64 for binary nodes nested in a container;
  - the exact text of nested POJOs.
- A number is represented by its `asText()` token. Equality of numeric nodes is equality of those tokens, so Jackson's distinctions between numeric node classes (for example `1` vs `1.0`) are not modelled beyond the token.
- A POJO node is represented by its `toString` text, and its equality is text equality.
- `JsonNode.IndexOf`: an object's members are a list of pairs, and `get` returns the first match. Jackson objects cannot hold a name twice, so the lemmas that need it require `UniqueKeys`.
- `StringOrder.LexLess` compares Unicode scalar values. Java's `String.compareTo` compares UTF-16 units. The two agree on the Basic Multilingual Plane but not beyond it.
- `FieldDiff.ClassifyFields`: the counters are unbounded integers. The source's `AtomicInteger` would wrap past 2^31 − 1 paths, which is not modelled.
- The `AtomicInteger`s and the `Runnable` counter update are modelled as plain counters, because the loop is sequential.
- `ComparisonReporter.PadRight`, `ComparisonReporter.Truncate`, `ComparisonReporter.TruncateValue`, `ComparisonReporter.TruncateFieldName`, `ComparisonReporter.RowWidth` and `ComparisonReporter.DetailedLineWidth` count string lengths in Unicode characters. Java's `length()`, `%-Ns` padding and `substring(0, 14)` / `substring(0, 34)` count UTF-16 units. The two differ only outside the Basic Multilingual Plane. There Java's cut can split a surrogate pair, which the model cannot express.
