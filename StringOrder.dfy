/** Java's natural order on strings (`String.compareTo`: the first differing
    character decides, otherwise the shorter string comes first) and the
    `stream().sorted()` step that puts a set of field paths in that order. */
module StringOrder {

  /** `a` sorts strictly before `b`. */
  predicate LexLess(a: string, b: string)
    decreases |a|
  {
    if |a| == 0 then |b| > 0
    else if |b| == 0 then false
    else if a[0] != b[0] then a[0] < b[0]
    else LexLess(a[1..], b[1..])
  }

  lemma {:induction false} LexIrreflexive(a: string)
    ensures !LexLess(a, a)
    decreases |a|
  {
    if |a| > 0 {
      LexIrreflexive(a[1..]);
    }
  }

  lemma {:induction false} LexAsymmetric(a: string, b: string)
    requires LexLess(a, b)
    ensures !LexLess(b, a)
    decreases |a|
  {
    if |a| > 0 && |b| > 0 && a[0] == b[0] {
      LexAsymmetric(a[1..], b[1..]);
    }
  }

  lemma {:induction false} LexTransitive(a: string, b: string, c: string)
    requires LexLess(a, b) && LexLess(b, c)
    ensures LexLess(a, c)
    decreases |a|
  {
    if |a| > 0 && a[0] == b[0] && b[0] == c[0] {
      LexTransitive(a[1..], b[1..], c[1..]);
    }
  }

  /** Any two different strings are ordered one way or the other. */
  lemma {:induction false} LexTotal(a: string, b: string)
    requires a != b
    ensures LexLess(a, b) || LexLess(b, a)
    decreases |a|
  {
    if |a| > 0 && |b| > 0 && a[0] == b[0] {
      assert a == [a[0]] + a[1..] && b == [b[0]] + b[1..];
      LexTotal(a[1..], b[1..]);
    }
  }

  /** Every element sorts strictly before every later one: sorted, no duplicates. */
  ghost predicate StrictlyAscending(s: seq<string>) {
    forall i, j :: 0 <= i < j < |s| ==> LexLess(s[i], s[j])
  }

  /** Inserts `k` at its place in a sorted sequence that does not hold it yet. */
  function Insert(s: seq<string>, k: string): (r: seq<string>)
    requires StrictlyAscending(s) && k !in s
    ensures StrictlyAscending(r)
    ensures forall x :: x in r <==> x in s || x == k
    ensures |r| == |s| + 1
    decreases |s|
  {
    if s == [] then [k]
    else if LexLess(k, s[0]) then
      assert forall j :: 0 <= j < |s| ==> LexLess(k, s[j]) by {
        forall j | 0 < j < |s| ensures LexLess(k, s[j]) {
          LexTransitive(k, s[0], s[j]);
        }
      }
      [k] + s
    else
      LexTotal(k, s[0]);
      var rest := Insert(s[1..], k);
      assert forall x :: x in rest ==> LexLess(s[0], x) by {
        forall x | x in rest ensures LexLess(s[0], x) {
          if x != k {
            var j :| 0 <= j < |s[1..]| && s[1..][j] == x;
            assert s[j + 1] == x;
          }
        }
      }
      [s[0]] + rest
  }

  /** Two sorted sequences with the same elements are the same sequence:
      the sorted order of a set is unique. */
  lemma {:induction false} AscendingUnique(a: seq<string>, b: seq<string>)
    requires StrictlyAscending(a) && StrictlyAscending(b)
    requires forall x :: x in a <==> x in b
    ensures a == b
    decreases |a|
  {
    if a != [] {
      assert a[0] in a;
    }
    if b != [] {
      assert b[0] in b;
    }
    if a != [] && b != [] {
      if a[0] != b[0] {
        var i :| 0 <= i < |b| && b[i] == a[0];
        var j :| 0 <= j < |a| && a[j] == b[0];
        assert i > 0 && j > 0;
        LexAsymmetric(a[0], a[j]);
      } else {
        forall x ensures x in a[1..] <==> x in b[1..] {
          InTail(a, b, x);
          InTail(b, a, x);
        }
        AscendingUnique(a[1..], b[1..]);
        assert a == [a[0]] + a[1..] && b == [b[0]] + b[1..];
      }
    }
  }

  /** Helper for AscendingUnique: an element of the tail of one sorted
      sequence is in the tail of the other when both have the same head. */
  lemma InTail(a: seq<string>, b: seq<string>, x: string)
    requires StrictlyAscending(a) && StrictlyAscending(b)
    requires forall y :: y in a <==> y in b
    requires a != [] && b != [] && a[0] == b[0]
    ensures x in a[1..] ==> x in b[1..]
  {
    if x in a[1..] {
      var i :| 0 <= i < |a[1..]| && a[1..][i] == x;
      assert a[i + 1] == x && LexLess(a[0], x);
      LexIrreflexive(x);
      assert x in b;
      var j :| 0 <= j < |b| && b[j] == x;
      assert j > 0;
      assert b[1..][j - 1] == x;
    }
  }

  /** `allFields.stream().sorted().toList()`: the set in ascending order,
      each element once. */
  method SortKeys(keys: set<string>) returns (sorted: seq<string>)
    ensures StrictlyAscending(sorted)
    ensures forall k :: k in sorted <==> k in keys
    ensures |sorted| == |keys|
  {
    sorted := [];
    var remaining := keys;
    while remaining != {}
      invariant remaining <= keys
      invariant StrictlyAscending(sorted)
      invariant forall k :: k in sorted <==> k in keys && k !in remaining
      invariant |sorted| + |remaining| == |keys|
      decreases |remaining|
    {
      var k :| k in remaining;
      sorted := Insert(sorted, k);
      remaining := remaining - {k};
    }
  }
}
