/** `processor.JsonTraverser`: flattening a parsed document into a map from
    field paths (`a.b`, `items[0].id`) to the string form of the value found
    there. The root itself has the empty path and is never recorded. */
module JsonTraverser {
  import opened Wrappers
  import opened JsonNode
  import opened Decimal

  /** The `HashMap<String, String>` the traversal fills in place. */
  class FieldAccumulator {
    var entries: map<string, string>

    constructor ()
      ensures entries == map[]
    {
      entries := map[];
    }

    /** `put`: a later value for the same path replaces the earlier one. */
    method Put(path: string, value: string)
      modifies this
      ensures entries == old(entries)[path := value]
    {
      entries := entries[path := value];
    }
  }

  /** The path of field `name` below `path`: the name alone at the root,
      otherwise `path.name`. */
  function ChildPath(path: string, name: string): (p: string)
    ensures path == "" ==> p == name
    ensures path != "" ==> path < p && p[|path|] == '.' && p[|path| + 1..] == name
  {
    if path == "" then name else path + "." + name
  }

  /** The path of element `i` below `path`: `path[i]`, the index in decimal. */
  function ElementPath(path: string, i: nat): (p: string)
    ensures path < p && p[|path|] == '['
  {
    path + "[" + NatToString(i) + "]"
  }

  /** The index can be read back from between the brackets. */
  lemma ElementPathIndex(path: string, i: nat)
    ensures var p := ElementPath(path, i);
      |p| == |path| + |NatToString(i)| + 2 && p[|p| - 1] == ']' && p[|path| + 1..|p| - 1] == NatToString(i)
  {
    var p := ElementPath(path, i);
    assert p == path + "[" + NatToString(i) + "]";
  }

  /** `getValueAsString`: `null`, a quoted string (not escaped), the text of
      a number, `true`/`false`, and the compact serialization otherwise. */
  function ValueAsString(j: Json): string {
    match j
    case Null => "null"
    case Str(t) => "\"" + t + "\""
    case Num(t) => t
    case Bool(b) => if b then "true" else "false"
    case Obj(_) => Serialize(j)
    case Arr(_) => Serialize(j)
    case _ => Serialize(j)
  }

  /** What `accumulateBinaryDataLength` records: the byte count, or a fixed
      message when the bytes cannot be read. */
  function BinaryEntry(data: Option<seq<bv8>>): (text: string)
    ensures text == "[BINARY DATA: Unable to read length]" <==> data.None?
    ensures data.Some? ==> 21 < |text| && AllDigits(text[14..|text| - 7])
    ensures data.Some? ==> ParseDigits(text[14..|text| - 7]) == |data.value|
  {
    match data
    case Some(bytes) =>
      ByteCountReadsBack(|bytes|);
      "[BINARY DATA: " + NatToString(|bytes|) + " bytes]"
    case None => "[BINARY DATA: Unable to read length]"
  }

  /** The count sits between the fixed prefix and suffix, and its first
      character, a digit, tells the entry apart from the failure message. */
  lemma ByteCountReadsBack(n: nat)
    ensures var text := "[BINARY DATA: " + NatToString(n) + " bytes]";
      && 21 < |text| && text[14..|text| - 7] == NatToString(n)
      && ParseDigits(text[14..|text| - 7]) == n
      && text != "[BINARY DATA: Unable to read length]"
  {
    var digits := NatToString(n);
    var text := "[BINARY DATA: " + digits + " bytes]";
    assert text[14..|text| - 7] == digits;
    assert text[14] == digits[0];
    ParseNatToString(n);
  }

  /** The value recorded for a node at a non-empty path, by node kind. */
  function EntryValue(j: Json): string {
    match j
    case Binary(data) => BinaryEntry(data)
    case Pojo(_) => "[POJO: " + Serialize(j) + "]"
    case _ => ValueAsString(j)
  }

  /** `accumulate…IfPathNotEmpty`: record `value` unless `path` is empty. */
  function PutIfPath(m: map<string, string>, path: string, value: string): map<string, string> {
    if path == "" then m else m[path := value]
  }

  /** The keys a visit of `node` at `path` can record: the non-empty paths
      of `node` and of the nodes below it, leaving out missing nodes. */
  function NodePaths(node: Json, path: string): set<string>
    decreases node, 1, 0
  {
    var own := if path != "" && !node.Missing? then {path} else {};
    match node
    case Obj(fs) => own + FieldPaths(node, path, |fs|)
    case Arr(es) => own + ElemPaths(node, path, |es|)
    case _ => own
  }

  /** The paths below the first `n` fields of object `node`. */
  function FieldPaths(node: Json, path: string, n: nat): set<string>
    requires node.Obj? && n <= |node.fields|
    decreases node, 0, n
  {
    if n == 0 then {}
    else FieldPaths(node, path, n - 1) + NodePaths(node.fields[n - 1].1, ChildPath(path, node.fields[n - 1].0))
  }

  /** The paths below the first `n` elements of array `node`. */
  function ElemPaths(node: Json, path: string, n: nat): set<string>
    requires node.Arr? && n <= |node.elems|
    decreases node, 0, n
  {
    if n == 0 then {}
    else ElemPaths(node, path, n - 1) + NodePaths(node.elems[n - 1], ElementPath(path, n - 1))
  }

  /** The number of nodes in the tree `node` that are not missing, `node`
      itself included. */
  function NodeCount(node: Json): nat
    decreases node, 1, 0
  {
    match node
    case Obj(fs) => 1 + FieldsCount(node, |fs|)
    case Arr(es) => 1 + ElemsCount(node, |es|)
    case Missing => 0
    case _ => 1
  }

  /** The nodes counted below the first `n` fields of object `node`. */
  function FieldsCount(node: Json, n: nat): nat
    requires node.Obj? && n <= |node.fields|
    decreases node, 0, n
  {
    if n == 0 then 0 else FieldsCount(node, n - 1) + NodeCount(node.fields[n - 1].1)
  }

  /** The nodes counted below the first `n` elements of array `node`. */
  function ElemsCount(node: Json, n: nat): nat
    requires node.Arr? && n <= |node.elems|
    decreases node, 0, n
  {
    if n == 0 then 0 else ElemsCount(node, n - 1) + NodeCount(node.elems[n - 1])
  }

  /** `traverseWithValues` as a function of the map before the call: the node
      records its own value, then its fields or elements are visited in
      order. A missing node records nothing. */
  function Visit(node: Json, path: string, m: map<string, string>): map<string, string>
    decreases node, 1, 0
  {
    match node
    case Obj(fs) => VisitFields(node, path, |fs|, PutIfPath(m, path, ValueAsString(node)))
    case Arr(es) => VisitElems(node, path, |es|, PutIfPath(m, path, ValueAsString(node)))
    case Str(_) => PutIfPath(m, path, ValueAsString(node))
    case Num(_) => PutIfPath(m, path, ValueAsString(node))
    case Bool(_) => PutIfPath(m, path, ValueAsString(node))
    case Null => PutIfPath(m, path, ValueAsString(node))
    case Binary(data) => PutIfPath(m, path, BinaryEntry(data))
    case Pojo(_) => PutIfPath(m, path, "[POJO: " + Serialize(node) + "]")
    case Missing => m
  }

  /** The first `n` fields of object `node` visited in order, starting from `m`. */
  function VisitFields(node: Json, path: string, n: nat, m: map<string, string>): map<string, string>
    requires node.Obj? && n <= |node.fields|
    decreases node, 0, n
  {
    if n == 0 then m
    else Visit(node.fields[n - 1].1, ChildPath(path, node.fields[n - 1].0), VisitFields(node, path, n - 1, m))
  }

  /** The first `n` elements of array `node` visited in order, starting from `m`. */
  function VisitElems(node: Json, path: string, n: nat, m: map<string, string>): map<string, string>
    requires node.Arr? && n <= |node.elems|
    decreases node, 0, n
  {
    if n == 0 then m
    else Visit(node.elems[n - 1], ElementPath(path, n - 1), VisitElems(node, path, n - 1, m))
  }

  /** `extractFieldsWithValues` as a function of the document: one key for
      each path of a node below the root. */
  function Flatten(node: Json): (r: map<string, string>)
    ensures r.Keys == NodePaths(node, "")
  {
    VisitKeys(node, "", map[]);
    Visit(node, "", map[])
  }

  /** `accumulateValueIfPathNotEmpty`. */
  method AccumulateValueIfPathNotEmpty(node: Json, path: string, acc: FieldAccumulator)
    modifies acc
    ensures acc.entries == PutIfPath(old(acc.entries), path, ValueAsString(node))
  {
    if path != "" {
      acc.Put(path, ValueAsString(node));
    }
  }

  /** `accumulateBinaryDataLength`: the read of the bytes either yields them
      or fails, and the failure is recorded as a message. */
  method AccumulateBinaryDataLength(data: Option<seq<bv8>>, path: string, acc: FieldAccumulator)
    modifies acc
    ensures acc.entries == old(acc.entries)[path := BinaryEntry(data)]
  {
    match data {
      case Some(bytes) =>
        acc.Put(path, "[BINARY DATA: " + NatToString(|bytes|) + " bytes]");
      case None =>
        acc.Put(path, "[BINARY DATA: Unable to read length]");
    }
  }

  /** `accumulateBinaryValueIfPathNotEmpty`. */
  method AccumulateBinaryValueIfPathNotEmpty(data: Option<seq<bv8>>, path: string, acc: FieldAccumulator)
    modifies acc
    ensures acc.entries == PutIfPath(old(acc.entries), path, BinaryEntry(data))
  {
    if path != "" {
      AccumulateBinaryDataLength(data, path, acc);
    }
  }

  /** `accumulatePojoValueIfPathNotEmpty`. */
  method AccumulatePojoValueIfPathNotEmpty(node: Json, path: string, acc: FieldAccumulator)
    modifies acc
    ensures acc.entries == PutIfPath(old(acc.entries), path, "[POJO: " + Serialize(node) + "]")
  {
    if path != "" {
      acc.Put(path, "[POJO: " + Serialize(node) + "]");
    }
  }

  /** `traverseWithValues`: dispatch on the node kind. */
  method TraverseWithValues(node: Json, path: string, acc: FieldAccumulator)
    modifies acc
    ensures acc.entries == Visit(node, path, old(acc.entries))
    decreases node, 1
  {
    match node {
      case Obj(_) =>
        AccumulateValueIfPathNotEmpty(node, path, acc);
        TraverseObjectFields(node, path, acc);
      case Arr(_) =>
        AccumulateValueIfPathNotEmpty(node, path, acc);
        TraverseArrayElements(node, path, acc);
      case Str(_) => AccumulateValueIfPathNotEmpty(node, path, acc);
      case Num(_) => AccumulateValueIfPathNotEmpty(node, path, acc);
      case Bool(_) => AccumulateValueIfPathNotEmpty(node, path, acc);
      case Null => AccumulateValueIfPathNotEmpty(node, path, acc);
      case Binary(data) => AccumulateBinaryValueIfPathNotEmpty(data, path, acc);
      case Pojo(_) => AccumulatePojoValueIfPathNotEmpty(node, path, acc);
      case Missing =>
    }
  }

  /** `traverseObjectFields`: each field in insertion order, at its child path. */
  method TraverseObjectFields(node: Json, path: string, acc: FieldAccumulator)
    requires node.Obj?
    modifies acc
    ensures acc.entries == VisitFields(node, path, |node.fields|, old(acc.entries))
    decreases node, 0
  {
    var i := 0;
    while i < |node.fields|
      invariant 0 <= i <= |node.fields|
      invariant acc.entries == VisitFields(node, path, i, old(acc.entries))
      decreases |node.fields| - i
    {
      var name, child := node.fields[i].0, node.fields[i].1;
      var fullPath := if path == "" then name else path + "." + name;
      TraverseWithValues(child, fullPath, acc);
      i := i + 1;
    }
  }

  /** `traverseArrayElements`: each element in index order, at `path[i]`. */
  method TraverseArrayElements(node: Json, path: string, acc: FieldAccumulator)
    requires node.Arr?
    modifies acc
    ensures acc.entries == VisitElems(node, path, |node.elems|, old(acc.entries))
    decreases node, 0
  {
    var i := 0;
    while i < |node.elems|
      invariant 0 <= i <= |node.elems|
      invariant acc.entries == VisitElems(node, path, i, old(acc.entries))
      decreases |node.elems| - i
    {
      var arrayPath := path + "[" + NatToString(i) + "]";
      TraverseWithValues(node.elems[i], arrayPath, acc);
      i := i + 1;
    }
  }

  /** `extractFieldsWithValues`: a fresh map filled from the root at the
      empty path. The root is never a key, so no path in the result is empty. */
  method ExtractFieldsWithValues(node: Json) returns (m: map<string, string>)
    ensures m == Flatten(node)
    ensures "" !in m
  {
    var acc := new FieldAccumulator();
    TraverseWithValues(node, "", acc);
    m := acc.entries;
    VisitNoEmptyKey(node, "", map[]);
  }

  // ---------------------------------------------------------------------
  // Properties of the flattening

  /** A visit keeps the old keys and adds exactly the paths of the subtree:
      every key is the path of some node, and every node that is not
      missing has its path among the keys. */
  lemma {:induction false} VisitKeys(node: Json, path: string, m: map<string, string>)
    ensures Visit(node, path, m).Keys == m.Keys + NodePaths(node, path)
    decreases node, 1, 0
  {
    match node {
      case Obj(fs) => VisitFieldsKeys(node, path, |fs|, PutIfPath(m, path, ValueAsString(node)));
      case Arr(es) => VisitElemsKeys(node, path, |es|, PutIfPath(m, path, ValueAsString(node)));
      case _ =>
    }
  }

  /** Visiting the first `n` fields adds exactly the paths below them. */
  lemma {:induction false} VisitFieldsKeys(node: Json, path: string, n: nat, m: map<string, string>)
    requires node.Obj? && n <= |node.fields|
    ensures VisitFields(node, path, n, m).Keys == m.Keys + FieldPaths(node, path, n)
    decreases node, 0, n
  {
    if n > 0 {
      VisitFieldsKeys(node, path, n - 1, m);
      VisitKeys(node.fields[n - 1].1, ChildPath(path, node.fields[n - 1].0), VisitFields(node, path, n - 1, m));
    }
  }

  /** Visiting the first `n` elements adds exactly the paths below them. */
  lemma {:induction false} VisitElemsKeys(node: Json, path: string, n: nat, m: map<string, string>)
    requires node.Arr? && n <= |node.elems|
    ensures VisitElems(node, path, n, m).Keys == m.Keys + ElemPaths(node, path, n)
    decreases node, 0, n
  {
    if n > 0 {
      VisitElemsKeys(node, path, n - 1, m);
      VisitKeys(node.elems[n - 1], ElementPath(path, n - 1), VisitElems(node, path, n - 1, m));
    }
  }

  /** Nothing is ever recorded under the empty path. */
  lemma {:induction false} VisitNoEmptyKey(node: Json, path: string, m: map<string, string>)
    requires "" !in m
    ensures "" !in Visit(node, path, m)
    decreases node, 1, 0
  {
    match node {
      case Obj(fs) => VisitFieldsNoEmptyKey(node, path, |fs|, PutIfPath(m, path, ValueAsString(node)));
      case Arr(es) => VisitElemsNoEmptyKey(node, path, |es|, PutIfPath(m, path, ValueAsString(node)));
      case _ =>
    }
  }

  lemma {:induction false} VisitFieldsNoEmptyKey(node: Json, path: string, n: nat, m: map<string, string>)
    requires node.Obj? && n <= |node.fields|
    requires "" !in m
    ensures "" !in VisitFields(node, path, n, m)
    decreases node, 0, n
  {
    if n > 0 {
      VisitFieldsNoEmptyKey(node, path, n - 1, m);
      VisitNoEmptyKey(node.fields[n - 1].1, ChildPath(path, node.fields[n - 1].0), VisitFields(node, path, n - 1, m));
    }
  }

  lemma {:induction false} VisitElemsNoEmptyKey(node: Json, path: string, n: nat, m: map<string, string>)
    requires node.Arr? && n <= |node.elems|
    requires "" !in m
    ensures "" !in VisitElems(node, path, n, m)
    decreases node, 0, n
  {
    if n > 0 {
      VisitElemsNoEmptyKey(node, path, n - 1, m);
      VisitNoEmptyKey(node.elems[n - 1], ElementPath(path, n - 1), VisitElems(node, path, n - 1, m));
    }
  }

  /** A prefix of a path's proper extension's prefix is a proper prefix. */
  lemma PrefixChain(a: string, b: string, c: string)
    requires a < b && b <= c
    ensures a < c
  {
    assert c[..|a|] == b[..|a|];
  }

  /** Every path of a subtree extends the subtree's own path. */
  lemma {:induction false} NodePathsExtend(node: Json, path: string)
    ensures forall k :: k in NodePaths(node, path) ==> path <= k
    decreases node, 1, 0
  {
    match node {
      case Obj(fs) => FieldPathsExtend(node, path, |fs|);
      case Arr(es) => ElemPathsExtend(node, path, |es|);
      case _ =>
    }
  }

  /** The paths below the fields of an object at a non-empty path properly
      extend that path. */
  lemma {:induction false} FieldPathsExtend(node: Json, path: string, n: nat)
    requires node.Obj? && n <= |node.fields|
    ensures path != "" ==> forall k :: k in FieldPaths(node, path, n) ==> path < k
    decreases node, 0, n
  {
    if n > 0 {
      FieldPathsExtend(node, path, n - 1);
      var p := ChildPath(path, node.fields[n - 1].0);
      NodePathsExtend(node.fields[n - 1].1, p);
      if path != "" {
        PrefixChainAll(path, p, NodePaths(node.fields[n - 1].1, p));
      }
    }
  }

  /** The paths below the elements of an array properly extend its path. */
  lemma {:induction false} ElemPathsExtend(node: Json, path: string, n: nat)
    requires node.Arr? && n <= |node.elems|
    ensures forall k :: k in ElemPaths(node, path, n) ==> path < k
    decreases node, 0, n
  {
    if n > 0 {
      ElemPathsExtend(node, path, n - 1);
      var p := ElementPath(path, n - 1);
      NodePathsExtend(node.elems[n - 1], p);
      PrefixChainAll(path, p, NodePaths(node.elems[n - 1], p));
    }
  }

  /** The keys a visit of an object's fields adds lie below its path. */
  lemma FieldsNewKeysBelow(node: Json, path: string, n: nat, m: map<string, string>)
    requires node.Obj? && n <= |node.fields| && path != ""
    ensures forall k :: k in VisitFields(node, path, n, m) && k !in m ==> path < k
  {
    FieldPathsExtend(node, path, n);
    VisitFieldsKeys(node, path, n, m);
    forall k | k in VisitFields(node, path, n, m) && k !in m ensures path < k {
      assert k in FieldPaths(node, path, n);
    }
  }

  /** The keys a visit of an array's elements adds lie below its path. */
  lemma ElemsNewKeysBelow(node: Json, path: string, n: nat, m: map<string, string>)
    requires node.Arr? && n <= |node.elems|
    ensures forall k :: k in VisitElems(node, path, n, m) && k !in m ==> path < k
  {
    ElemPathsExtend(node, path, n);
    VisitElemsKeys(node, path, n, m);
    forall k | k in VisitElems(node, path, n, m) && k !in m ensures path < k {
      assert k in ElemPaths(node, path, n);
    }
  }

  /** Whatever extends a proper extension of `a` properly extends `a`. */
  lemma PrefixChainAll(a: string, b: string, paths: set<string>)
    requires a < b && forall k :: k in paths ==> b <= k
    ensures forall k :: k in paths ==> a < k
  {
    forall k | k in paths ensures a < k {
      PrefixChain(a, b, k);
    }
  }

  /** Visiting a node at `path` only records paths that extend `path`: every
      new key extends it, every other entry is kept, and nothing is removed. */
  lemma {:induction false} VisitFrame(node: Json, path: string, m: map<string, string>)
    ensures m.Keys <= Visit(node, path, m).Keys
    ensures forall k :: k in Visit(node, path, m) && k !in m ==> path <= k
    ensures forall k :: k in m && !(path <= k) ==> Visit(node, path, m)[k] == m[k]
    decreases node, 1, 0
  {
    NodePathsExtend(node, path);
    VisitKeys(node, path, m);
    var m' := PutIfPath(m, path, ValueAsString(node));
    match node {
      case Obj(fs) =>
        VisitFieldsFrame(node, path, |fs|, m');
      case Arr(es) =>
        VisitElemsFrame(node, path, |es|, m');
      case _ =>
    }
  }

  /** The fields of an object at a non-empty `path` only record paths that
      properly extend `path`. */
  lemma {:induction false} VisitFieldsFrame(node: Json, path: string, n: nat, m: map<string, string>)
    requires node.Obj? && n <= |node.fields|
    ensures m.Keys <= VisitFields(node, path, n, m).Keys
    ensures path != "" ==> forall k :: k in VisitFields(node, path, n, m) && k !in m ==> path < k
    ensures path != "" ==> forall k :: k in m && !(path < k) ==> VisitFields(node, path, n, m)[k] == m[k]
    decreases node, 0, n
  {
    if path != "" {
      FieldsNewKeysBelow(node, path, n, m);
    }
    if n > 0 {
      VisitFieldsFrame(node, path, n - 1, m);
      var before := VisitFields(node, path, n - 1, m);
      var p := ChildPath(path, node.fields[n - 1].0);
      VisitFrame(node.fields[n - 1].1, p, before);
      forall k | k in m && path != "" && !(path < k) ensures !(p <= k) {
        if p <= k {
          PrefixChain(path, p, k);
        }
      }
    }
  }

  /** The elements of an array at `path` only record paths that properly
      extend `path`. */
  lemma {:induction false} VisitElemsFrame(node: Json, path: string, n: nat, m: map<string, string>)
    requires node.Arr? && n <= |node.elems|
    ensures m.Keys <= VisitElems(node, path, n, m).Keys
    ensures forall k :: k in VisitElems(node, path, n, m) && k !in m ==> path < k
    ensures forall k :: k in m && !(path < k) ==> VisitElems(node, path, n, m)[k] == m[k]
    decreases node, 0, n
  {
    ElemsNewKeysBelow(node, path, n, m);
    if n > 0 {
      VisitElemsFrame(node, path, n - 1, m);
      var before := VisitElems(node, path, n - 1, m);
      var p := ElementPath(path, n - 1);
      VisitFrame(node.elems[n - 1], p, before);
      forall k | k in m && !(path < k) ensures !(p <= k) {
        if p <= k {
          PrefixChain(path, p, k);
        }
      }
    }
  }

  /** A node below the root records its own value at its own path, and its
      descendants, whose paths are all longer, never overwrite it. */
  lemma OwnEntry(node: Json, path: string, m: map<string, string>)
    requires path != "" && !node.Missing?
    ensures path in Visit(node, path, m) && Visit(node, path, m)[path] == EntryValue(node)
  {
    var m' := m[path := ValueAsString(node)];
    match node {
      case Obj(fs) => VisitFieldsFrame(node, path, |fs|, m');
      case Arr(es) => VisitElemsFrame(node, path, |es|, m');
      case _ =>
    }
  }

  /** A subtree has no more paths than nodes that are not missing; at the
      root, whose path is empty, the root itself has none. */
  lemma {:induction false} NodePathsBound(node: Json, path: string)
    ensures |NodePaths(node, path)| + (if path == "" && !node.Missing? then 1 else 0) <= NodeCount(node)
    decreases node, 1, 0
  {
    match node {
      case Obj(fs) => FieldPathsBound(node, path, |fs|);
      case Arr(es) => ElemPathsBound(node, path, |es|);
      case _ =>
    }
  }

  lemma {:induction false} FieldPathsBound(node: Json, path: string, n: nat)
    requires node.Obj? && n <= |node.fields|
    ensures |FieldPaths(node, path, n)| <= FieldsCount(node, n)
    decreases node, 0, n
  {
    if n > 0 {
      FieldPathsBound(node, path, n - 1);
      NodePathsBound(node.fields[n - 1].1, ChildPath(path, node.fields[n - 1].0));
    }
  }

  lemma {:induction false} ElemPathsBound(node: Json, path: string, n: nat)
    requires node.Arr? && n <= |node.elems|
    ensures |ElemPaths(node, path, n)| <= ElemsCount(node, n)
    decreases node, 0, n
  {
    if n > 0 {
      ElemPathsBound(node, path, n - 1);
      NodePathsBound(node.elems[n - 1], ElementPath(path, n - 1));
    }
  }

  /** The flattened map has at most one entry per node below the root that
      is not missing; fewer when paths collide. */
  lemma FlattenSizeBound(node: Json)
    ensures |Flatten(node)| + (if node.Missing? then 0 else 1) <= NodeCount(node)
  {
    NodePathsBound(node, "");
    assert |Flatten(node)| == |Flatten(node).Keys|;
  }

  /** Distinct elements of one array get distinct paths. */
  lemma ElementPathInjective(path: string, i: nat, j: nat)
    requires ElementPath(path, i) == ElementPath(path, j)
    ensures i == j
  {
    ElementPathIndex(path, i);
    ElementPathIndex(path, j);
    var p := ElementPath(path, i);
    assert NatToString(i) == p[|path| + 1..|p| - 1] == NatToString(j);
    NatToStringInjective(i, j);
  }

  /** Distinct field names below a non-empty path get distinct paths. */
  lemma ChildPathInjective(path: string, a: string, b: string)
    requires ChildPath(path, a) == ChildPath(path, b)
    ensures a == b
  {
    if path != "" {
      var p := ChildPath(path, a);
      assert a == p[|path| + 1..] == b;
    }
  }

  /** What `getValueAsString` gives by kind: a string's text between
      quotes, a number's token, `true` exactly for true, and `null`. */
  lemma ValueAsStringByKind(j: Json)
    ensures var text := ValueAsString(j);
      && (j.Str? ==> |text| == |j.text| + 2 && text[0] == '"' && text[|text| - 1] == '"'
                     && text[1..|text| - 1] == j.text)
      && (j.Num? ==> text == j.token)
      && (j.Bool? ==> (text == "true" <==> j.truth) && (text == "false" <==> !j.truth))
      && (j.Null? ==> text == "null")
  {
  }

  /** A quoted string never reads as `null`, a boolean or another string. */
  lemma QuotedStringsAreDistinct(s: string, t: string, b: bool)
    ensures ValueAsString(Str(s)) != ValueAsString(Null)
    ensures ValueAsString(Str(s)) != ValueAsString(Bool(b))
    ensures ValueAsString(Str(s)) == ValueAsString(Str(t)) ==> s == t
  {
    assert ValueAsString(Str(s))[0] == '"';
    if ValueAsString(Str(s)) == ValueAsString(Str(t)) {
      assert s == ValueAsString(Str(s))[1..|s| + 1];
    }
  }

  /** A document that is not an object or an array flattens to nothing:
      the root is never recorded. */
  lemma ScalarRootFlattensToNothing(node: Json)
    requires !node.Obj? && !node.Arr?
    ensures Flatten(node) == map[]
  {
  }

  /** An empty object or array flattens to nothing. */
  lemma EmptyRootFlattensToNothing()
    ensures Flatten(Obj([])) == map[]
    ensures Flatten(Arr([])) == map[]
  {
  }

  /** A nested object records the inner object as compact text at its own
      path and the leaf below it at the dotted path. */
  lemma NestedObjectExample()
    ensures Flatten(Obj([("user", Obj([("name", Str("Alice"))]))]))
         == map["user" := "{\"name\":\"Alice\"}", "user.name" := "\"Alice\""]
  {
    var inner := Obj([("name", Str("Alice"))]);
    SingleFieldFlatten("user", inner);
    NestedObjectText();
    var withInner := map["user" := "{\"name\":\"Alice\"}"];
    assert ChildPath("user", "name") == "user.name";
    assert Visit(inner, "user", map[]) == VisitFields(inner, "user", 1, withInner);
    assert VisitFields(inner, "user", 1, withInner) == Visit(Str("Alice"), "user.name", withInner);
    assert ValueAsString(Str("Alice")) == "\"Alice\"";
    assert Visit(Str("Alice"), "user.name", withInner) == withInner["user.name" := "\"Alice\""];
  }

  /** Array elements are recorded at `path[i]`, after the array's own text. */
  lemma ArrayExample()
    ensures Flatten(Obj([("ids", Arr([Num("1"), Num("2")]))]))
         == map["ids" := "[1,2]", "ids[0]" := "1", "ids[1]" := "2"]
  {
    var arr := Arr([Num("1"), Num("2")]);
    var doc := Obj([("ids", arr)]);
    assert ChildPath("", "ids") == "ids";
    assert Flatten(doc) == VisitFields(doc, "", 1, map[]) == Visit(arr, "ids", map[]);
    assert SerializeElems(arr, 2) == "1,2";
    assert ValueAsString(arr) == "[1,2]";
    var withArr := map["ids" := "[1,2]"];
    assert NatToString(0) == "0" && NatToString(1) == "1";
    assert ElementPath("ids", 0) == "ids[0]" && ElementPath("ids", 1) == "ids[1]";
    assert Visit(arr, "ids", map[]) == VisitElems(arr, "ids", 2, withArr);
    assert VisitElems(arr, "ids", 1, withArr) == withArr["ids[0]" := "1"];
  }

  /** Paths are not unique: a field whose name contains a dot and a nested
      field can share a path, and the one visited later replaces the
      earlier value. */
  lemma DottedNameCollision()
    ensures var flat := Flatten(Obj([("a.b", Num("1")), ("a", Obj([("b", Num("2"))]))]));
      "a.b" in flat && flat["a.b"] == "2"
  {
    var inner := Obj([("b", Num("2"))]);
    var doc := Obj([("a.b", Num("1")), ("a", inner)]);
    var afterFirst := map["a.b" := "1"];
    assert VisitFields(doc, "", 1, map[]) == afterFirst;
    assert ChildPath("", "a") == "a";
    assert Flatten(doc) == VisitFields(doc, "", 2, map[]) == Visit(inner, "a", afterFirst);
    var withInner := afterFirst["a" := ValueAsString(inner)];
    assert ChildPath("a", "b") == "a.b";
    assert Visit(inner, "a", afterFirst) == VisitFields(inner, "a", 1, withInner)
        == Visit(Num("2"), "a.b", withInner);
  }

  /** A top-level field named `""` gets no entry of its own, and its fields
      are recorded as if they sat at the top level. */
  lemma EmptyNamePromotesChildren()
    ensures Flatten(Obj([("", Obj([("a", Num("1"))]))])) == map["a" := "1"]
    ensures Flatten(Obj([("a", Num("1"))])) == map["a" := "1"]
  {
    var inner := Obj([("a", Num("1"))]);
    SingleFieldFlatten("", inner);
    SingleFieldFlatten("a", Num("1"));
    assert Visit(inner, "", map[]) == Flatten(inner);
  }

  /** A one-field object flattens as its field's value visited at the
      field's name. */
  lemma SingleFieldFlatten(name: string, value: Json)
    ensures Flatten(Obj([(name, value)])) == Visit(value, name, map[])
  {
    var doc := Obj([(name, value)]);
    assert Flatten(doc) == VisitFields(doc, "", 1, map[]);
  }

  /** A one-field object records the field's own value at the field name. */
  lemma SingleFieldEntry(name: string, value: Json)
    requires name != "" && !value.Missing?
    ensures name in Flatten(Obj([(name, value)]))
    ensures Flatten(Obj([(name, value)]))[name] == EntryValue(value)
  {
    SingleFieldFlatten(name, value);
    OwnEntry(value, name, map[]);
  }

  /** The flattened maps hold each nested object's text in its own field
      order, so reordering nested fields changes the value at `x`. */
  lemma ReorderedDocsFlattenDifferently()
    ensures "x" in Flatten(ReorderedDoc1()) && "x" in Flatten(ReorderedDoc2())
    ensures Flatten(ReorderedDoc1())["x"] != Flatten(ReorderedDoc2())["x"]
  {
    SingleFieldEntry("x", ReorderedDoc1().fields[0].1);
    SingleFieldEntry("x", ReorderedDoc2().fields[0].1);
    ReorderedDocTexts();
    assert "{\"a\":1,\"b\":2}"[2] != "{\"b\":2,\"a\":1}"[2];
  }
}
