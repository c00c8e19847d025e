/** The order-insensitive equality engine shared by both comparator classes
    (`compareJsonNodesIgnoringOrder`, `compareObjectNodes`,
    `compareArrayNodes`, `collectFieldNames`): object fields are matched by
    name, array elements by position, everything else by plain equality. */
module StructuralEquality {
  import opened JsonNode

  /** `compareJsonNodesIgnoringOrder`: equal node types, then objects and
      arrays compared recursively and every other kind by natural equality. */
  function CompareJsonNodesIgnoringOrder(a: Json, b: Json): (equal: bool)
    ensures equal ==> NodeTypeOf(a) == NodeTypeOf(b)
    ensures !a.Obj? && !a.Arr? ==> (equal <==> a == b)
    decreases a, 1
  {
    NodeTypeOf(a) == NodeTypeOf(b) &&
    match NodeTypeOf(a)
    case OBJECT => CompareObjectNodes(a, b)
    case ARRAY => CompareArrayNodes(a, b)
    case _ => a == b
  }

  /** `compareObjectNodes`: same size, same field-name set, and every field
      equal under the engine. */
  function CompareObjectNodes(a: Json, b: Json): (equal: bool)
    requires a.Obj? && b.Obj?
    ensures equal ==> |a.fields| == |b.fields| && Names(a.fields) == Names(b.fields)
    ensures equal ==> forall k :: k in Names(a.fields) ==>
      NodeTypeOf(Get(a.fields, k)) == NodeTypeOf(Get(b.fields, k))
    decreases a, 0
  {
    |a.fields| == |b.fields| &&
    Names(a.fields) == Names(b.fields) &&
    forall k :: k in Names(a.fields) ==>
      CompareJsonNodesIgnoringOrder(Get(a.fields, k), Get(b.fields, k))
  }

  /** `compareArrayNodes`: same length, and element `i` equal to element `i`. */
  function CompareArrayNodes(a: Json, b: Json): (equal: bool)
    requires a.Arr? && b.Arr?
    ensures equal ==> |a.elems| == |b.elems|
    ensures equal ==> forall i :: 0 <= i < |a.elems| ==> NodeTypeOf(a.elems[i]) == NodeTypeOf(b.elems[i])
    decreases a, 0
  {
    |a.elems| == |b.elems| &&
    forall i :: 0 <= i < |a.elems| ==> CompareJsonNodesIgnoringOrder(a.elems[i], b.elems[i])
  }

  /** `collectFieldNames`: adds the names of a node's fields to a fresh set one
      at a time; a node that is not an object has no field names. */
  method CollectFieldNames(node: Json) returns (names: set<string>)
    ensures forall k :: k in names <==>
      node.Obj? && exists i :: 0 <= i < |node.fields| && node.fields[i].0 == k
    ensures names == if node.Obj? then Names(node.fields) else {}
  {
    names := {};
    if node.Obj? {
      var fields := node.fields;
      var i := 0;
      while i < |fields|
        invariant 0 <= i <= |fields|
        invariant forall k :: k in names <==> exists j :: 0 <= j < i && fields[j].0 == k
      {
        names := names + {fields[i].0};
        i := i + 1;
      }
    }
  }

  /** Nodes of different types are never equal. */
  lemma KindMismatchUnequal(a: Json, b: Json)
    requires NodeTypeOf(a) != NodeTypeOf(b)
    ensures !CompareJsonNodesIgnoringOrder(a, b)
  {
  }

  /** Nodes that are neither objects nor arrays are equal exactly when they
      are the same value. */
  lemma ScalarsUseNaturalEquality(a: Json, b: Json)
    requires !a.Obj? && !a.Arr?
    ensures CompareJsonNodesIgnoringOrder(a, b) <==> a == b
  {
  }

  /** Objects of different sizes are unequal, whatever their fields hold. */
  lemma ObjectSizeMismatchUnequal(f1: seq<(string, Json)>, f2: seq<(string, Json)>)
    requires |f1| != |f2|
    ensures !CompareJsonNodesIgnoringOrder(Obj(f1), Obj(f2))
  {
  }

  /** Every tree equals itself. */
  lemma {:induction false} CompareReflexive(a: Json)
    ensures CompareJsonNodesIgnoringOrder(a, a)
    decreases a
  {
    match a
    case Obj(fs) =>
      forall k | k in Names(fs)
        ensures CompareJsonNodesIgnoringOrder(Get(fs, k), Get(fs, k))
      {
        CompareReflexive(fs[IndexOf(fs, k)].1);
      }
    case Arr(es) =>
      forall i | 0 <= i < |es| ensures CompareJsonNodesIgnoringOrder(es[i], es[i]) {
        CompareReflexive(es[i]);
      }
    case _ =>
  }

  /** The engine does not depend on which tree comes first. */
  lemma {:induction false} CompareSymmetric(a: Json, b: Json)
    requires CompareJsonNodesIgnoringOrder(a, b)
    ensures CompareJsonNodesIgnoringOrder(b, a)
    decreases a
  {
    match a
    case Obj(fs) =>
      var gs := b.fields;
      forall k | k in Names(gs)
        ensures CompareJsonNodesIgnoringOrder(Get(gs, k), Get(fs, k))
      {
        CompareSymmetric(fs[IndexOf(fs, k)].1, Get(gs, k));
      }
    case Arr(es) =>
      forall i | 0 <= i < |es| ensures CompareJsonNodesIgnoringOrder(b.elems[i], es[i]) {
        CompareSymmetric(es[i], b.elems[i]);
      }
    case _ =>
  }

  /** Equality under the engine chains. */
  lemma {:induction false} CompareTransitive(a: Json, b: Json, c: Json)
    requires CompareJsonNodesIgnoringOrder(a, b) && CompareJsonNodesIgnoringOrder(b, c)
    ensures CompareJsonNodesIgnoringOrder(a, c)
    decreases a
  {
    match a
    case Obj(fs) => ObjectsTransitive(a, b, c);
    case Arr(es) =>
      forall i | 0 <= i < |es| ensures CompareJsonNodesIgnoringOrder(es[i], c.elems[i]) {
        CompareTransitive(es[i], b.elems[i], c.elems[i]);
      }
    case _ =>
  }

  /** The object case of `CompareTransitive`: sizes and name sets chain, and
      so do the values under each name. */
  lemma {:induction false} ObjectsTransitive(a: Json, b: Json, c: Json)
    requires a.Obj? && b.Obj? && c.Obj?
    requires CompareObjectNodes(a, b) && CompareObjectNodes(b, c)
    ensures CompareObjectNodes(a, c)
    decreases a, 0
  {
    assert |a.fields| == |c.fields|;
    assert Names(a.fields) == Names(b.fields) == Names(c.fields);
    forall k | k in Names(a.fields)
      ensures CompareJsonNodesIgnoringOrder(Get(a.fields, k), Get(c.fields, k))
    {
      CompareTransitive(a.fields[IndexOf(a.fields, k)].1, Get(b.fields, k), Get(c.fields, k));
    }
  }

  /** For objects as Jackson builds them (no repeated names), the size check
      is implied by the name check: two objects are equal exactly when they
      have the same names and equal values under each name. */
  lemma ObjectEqualByNames(f1: seq<(string, Json)>, f2: seq<(string, Json)>)
    requires UniqueKeys(f1) && UniqueKeys(f2)
    ensures CompareJsonNodesIgnoringOrder(Obj(f1), Obj(f2)) <==>
      Names(f1) == Names(f2) &&
      forall k :: k in Names(f1) ==> CompareJsonNodesIgnoringOrder(Get(f1, k), Get(f2, k))
  {
    UniqueKeysCard(f1);
    UniqueKeysCard(f2);
  }

  /** The order in which an object's fields were inserted does not matter:
      an object equals any reordering of its own fields. */
  lemma FieldOrderIrrelevant(f1: seq<(string, Json)>, f2: seq<(string, Json)>)
    requires UniqueKeys(f1) && UniqueKeys(f2)
    requires multiset(f1) == multiset(f2)
    ensures CompareJsonNodesIgnoringOrder(Obj(f1), Obj(f2))
  {
    assert |f1| == |multiset(f1)| == |multiset(f2)| == |f2|;
    forall i | 0 <= i < |f1|
      ensures f1[i].0 in Names(f2) && Get(f2, f1[i].0) == f1[i].1
    {
      assert f1[i] in multiset(f2);
      var j :| 0 <= j < |f2| && f2[j] == f1[i];
      GetAt(f2, j);
    }
    forall j | 0 <= j < |f2| ensures f2[j].0 in Names(f1) {
      assert f2[j] in multiset(f1);
      var i :| 0 <= i < |f1| && f1[i] == f2[j];
    }
    assert Names(f1) == Names(f2);
    forall k | k in Names(f1)
      ensures CompareJsonNodesIgnoringOrder(Get(f1, k), Get(f2, k))
    {
      CompareReflexive(f1[IndexOf(f1, k)].1);
    }
  }

  /** Arrays are compared by position: exchanging two elements that are not
      equal to each other makes the arrays unequal. */
  lemma ArraySwapUnequal(s: seq<Json>, i: nat, j: nat)
    requires i < |s| && j < |s|
    requires !CompareJsonNodesIgnoringOrder(s[i], s[j])
    ensures !CompareJsonNodesIgnoringOrder(Arr(s), Arr(s[i := s[j]][j := s[i]]))
  {
    var t := s[i := s[j]][j := s[i]];
    if i != j {
      assert t[i] == s[j];
    }
  }

  /** Two one-field objects with the same name compare as their values do. */
  lemma SingleFieldObjects(k: string, v1: Json, v2: Json)
    ensures CompareJsonNodesIgnoringOrder(Obj([(k, v1)]), Obj([(k, v2)]))
        <==> CompareJsonNodesIgnoringOrder(v1, v2)
  {
    SingleField(k, v1);
    SingleField(k, v2);
  }

  /** The structural comparison ignores the order of nested fields. */
  lemma ReorderedDocsStructurallyEqual()
    ensures CompareJsonNodesIgnoringOrder(ReorderedDoc1(), ReorderedDoc2())
  {
    var inner1, inner2 := ReorderedDoc1().fields[0].1, ReorderedDoc2().fields[0].1;
    assert inner2.fields == [inner1.fields[1], inner1.fields[0]];
    FieldOrderIrrelevant(inner1.fields, inner2.fields);
    SingleFieldObjects("x", inner1, inner2);
  }
}
