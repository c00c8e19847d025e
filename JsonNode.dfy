/** The parsed JSON tree the comparator works on: the node kinds of
    Jackson's `JsonNode` (`getNodeType()`), with object fields kept in
    insertion order. */
module JsonNode {
  import opened Wrappers

  /** Jackson's `JsonNodeType`. */
  datatype NodeType = OBJECT | ARRAY | STRING | NUMBER | BOOLEAN | NULL | BINARY | POJO | MISSING

  /** A parsed node.
      - `Obj`: the fields in insertion order; a parsed object never repeats a
        field name (see `UniqueKeys`).
      - `Num`: a number, kept as its canonical text (`asText()`); two numbers
        are equal when their texts are.
      - `Binary`: the bytes of a binary node, or `None` when reading them fails.
      - `Pojo`: an embedded object, known only by its `toString()` text.
      - `Missing`: a structurally absent node (not JSON `null`). */
  datatype Json =
    | Obj(fields: seq<(string, Json)>)
    | Arr(elems: seq<Json>)
    | Str(text: string)
    | Num(token: string)
    | Bool(truth: bool)
    | Null
    | Binary(data: Option<seq<bv8>>)
    | Pojo(rendering: string)
    | Missing

  function NodeTypeOf(j: Json): NodeType {
    match j
    case Obj(_) => OBJECT
    case Arr(_) => ARRAY
    case Str(_) => STRING
    case Num(_) => NUMBER
    case Bool(_) => BOOLEAN
    case Null => NULL
    case Binary(_) => BINARY
    case Pojo(_) => POJO
    case Missing => MISSING
  }

  /** The set of field names of an object (`fieldNames()` collected into a set). */
  function Names(fields: seq<(string, Json)>): (names: set<string>)
    ensures forall k :: k in names <==> exists i :: 0 <= i < |fields| && fields[i].0 == k
    decreases |fields|
  {
    if fields == [] then {}
    else
      var init := fields[..|fields| - 1];
      assert forall i :: 0 <= i < |init| ==> init[i] == fields[i];
      Names(init) + {fields[|fields| - 1].0}
  }

  /** No field name occurs twice, as in every object Jackson builds. */
  ghost predicate UniqueKeys(fields: seq<(string, Json)>) {
    forall i, j :: 0 <= i < j < |fields| ==> fields[i].0 != fields[j].0
  }

  /** Position of the first field named `k`. */
  function IndexOf(fields: seq<(string, Json)>, k: string): (i: nat)
    requires k in Names(fields)
    ensures i < |fields| && fields[i].0 == k
    ensures forall j :: 0 <= j < i ==> fields[j].0 != k
    decreases |fields|
  {
    if fields[0].0 == k then 0
    else
      assert k in Names(fields[1..]) by {
        var i :| 0 <= i < |fields| && fields[i].0 == k;
        assert fields[1..][i - 1].0 == k;
      }
      1 + IndexOf(fields[1..], k)
  }

  /** The value of field `k` (`get(fieldName)`). */
  function Get(fields: seq<(string, Json)>, k: string): (v: Json)
    requires k in Names(fields)
    ensures (k, v) in fields
  {
    fields[IndexOf(fields, k)].1
  }

  /** A one-field object has one name, and that field's value under it. */
  lemma SingleField(k: string, v: Json)
    ensures Names([(k, v)]) == {k}
    ensures Get([(k, v)], k) == v
  {
    assert [(k, v)][..0] == [];
  }

  /** With unique names, the field named `k` is the one at the position
      where `k` occurs. */
  lemma GetAt(fields: seq<(string, Json)>, i: nat)
    requires UniqueKeys(fields) && i < |fields|
    ensures fields[i].0 in Names(fields) && Get(fields, fields[i].0) == fields[i].1
  {
    assert fields[i].0 in Names(fields);
  }

  /** With unique names, an object has as many fields as distinct names
      (so `size()` equals the size of the name set). */
  lemma {:induction false} UniqueKeysCard(fields: seq<(string, Json)>)
    requires UniqueKeys(fields)
    ensures |Names(fields)| == |fields|
    decreases |fields|
  {
    if fields != [] {
      var init := fields[..|fields| - 1];
      assert UniqueKeys(init);
      UniqueKeysCard(init);
      assert fields[|fields| - 1].0 !in Names(init);
    }
  }

  /** Jackson's `toString()` of a node: compact JSON, fields in insertion
      order, separated by commas with no spaces. */
  function Serialize(j: Json): (text: string)
    decreases j, 1, 0
  {
    match j
    case Obj(fs) => "{" + SerializeFields(j, |fs|) + "}"
    case Arr(es) => "[" + SerializeElems(j, |es|) + "]"
    case Str(t) => "\"" + t + "\""
    case Num(t) => t
    case Bool(b) => if b then "true" else "false"
    case Null => "null"
    case Binary(_) => "\"[binary]\""
    case Pojo(r) => r
    case Missing => ""
  }

  /** A compact object text is enclosed in braces, an array text in
      brackets and a string text in quotes, whatever the contents. */
  lemma SerializeDelimited(j: Json)
    ensures var text := Serialize(j);
      && (j.Obj? ==> 2 <= |text| && text[0] == '{' && text[|text| - 1] == '}')
      && (j.Arr? ==> 2 <= |text| && text[0] == '[' && text[|text| - 1] == ']')
      && (j.Str? ==> 2 <= |text| && text[0] == '"' && text[|text| - 1] == '"')
  {
  }

  /** The first `n` fields of an object, `"name":value` joined by commas. */
  function SerializeFields(obj: Json, n: nat): string
    requires obj.Obj? && n <= |obj.fields|
    decreases obj, 0, n
  {
    if n == 0 then ""
    else
      var member := "\"" + obj.fields[n - 1].0 + "\":" + Serialize(obj.fields[n - 1].1);
      if n == 1 then member else SerializeFields(obj, n - 1) + "," + member
  }

  /** The first `n` elements of an array joined by commas. */
  function SerializeElems(arr: Json, n: nat): string
    requires arr.Arr? && n <= |arr.elems|
    decreases arr, 0, n
  {
    if n == 0 then ""
    else if n == 1 then Serialize(arr.elems[0])
    else SerializeElems(arr, n - 1) + "," + Serialize(arr.elems[n - 1])
  }

  /** `{"x": {"a": 1, "b": 2}}`. */
  function ReorderedDoc1(): Json {
    Obj([("x", Obj([("a", Num("1")), ("b", Num("2"))]))])
  }

  /** `{"x": {"b": 2, "a": 1}}`: the same document with the nested fields
      in the other order. */
  function ReorderedDoc2(): Json {
    Obj([("x", Obj([("b", Num("2")), ("a", Num("1"))]))])
  }

  /** The compact texts of the two nested objects. */
  lemma ReorderedDocTexts()
    ensures Serialize(ReorderedDoc1().fields[0].1) == "{\"a\":1,\"b\":2}"
    ensures Serialize(ReorderedDoc2().fields[0].1) == "{\"b\":2,\"a\":1}"
  {
    assert SerializeFields(ReorderedDoc1().fields[0].1, 1) == "\"a\":1";
    assert SerializeFields(ReorderedDoc2().fields[0].1, 1) == "\"b\":2";
  }

  /** The compact text of `{"name": "Alice"}`. */
  lemma NestedObjectText()
    ensures Serialize(Obj([("name", Str("Alice"))])) == "{\"name\":\"Alice\"}"
  {
    assert SerializeFields(Obj([("name", Str("Alice"))]), 1) == "\"name\":\"Alice\"";
  }
}
