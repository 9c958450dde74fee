/**
 * The final step of the introspection pass: `modelsData.sorted { $0.name < $1.name }`,
 * realised as an insertion sort on the record name.
 */
module NameSort {
  import opened Records
  import opened StringOrder

  /** No record is followed by one whose name is smaller. */
  predicate SortedByName(s: seq<ModelData>) {
    forall i, j :: 0 <= i < j < |s| ==> !Less(s[j].name, s[i].name)
  }

  /** No two records share a name. */
  predicate DistinctNames(s: seq<ModelData>) {
    forall i, j :: 0 <= i < j < |s| ==> s[i].name != s[j].name
  }

  /** Every record of `s` has a name no smaller than `lo`. */
  predicate AllAtLeast(lo: string, s: seq<ModelData>) {
    forall m :: m in s ==> !Less(m.name, lo)
  }

  lemma AllAtLeastPermutation(lo: string, s: seq<ModelData>, t: seq<ModelData>)
    requires AllAtLeast(lo, t)
    requires multiset(s) == multiset(t)
    ensures AllAtLeast(lo, s)
  {
    forall m | m in s
      ensures !Less(m.name, lo)
    {
      assert m in multiset(s);
    }
  }

  lemma SortedCons(m: ModelData, s: seq<ModelData>)
    requires SortedByName(s)
    requires AllAtLeast(m.name, s)
    ensures SortedByName([m] + s)
  {
    var r := [m] + s;
    forall i, j | 0 <= i < j < |r|
      ensures !Less(r[j].name, r[i].name)
    {
      if i == 0 {
        assert r[j] == s[j - 1];
        assert r[j] in s;
      } else {
        assert r[i] == s[i - 1] && r[j] == s[j - 1];
      }
    }
  }

  /** A sorted sequence's first record is no larger than any of its records. */
  lemma SortedHeadIsLeast(s: seq<ModelData>)
    requires SortedByName(s) && |s| > 0
    ensures AllAtLeast(s[0].name, s)
  {
    forall m | m in s
      ensures !Less(m.name, s[0].name)
    {
      var k :| 0 <= k < |s| && s[k] == m;
      if k == 0 {
        LessIrreflexive(m.name);
      }
    }
  }

  /** Inserts `m` into the sorted `s` in front of the first record whose name is not smaller. */
  function Insert(m: ModelData, s: seq<ModelData>): (r: seq<ModelData>)
    requires SortedByName(s)
    ensures SortedByName(r)
    ensures multiset(r) == multiset(s) + multiset{m}
    decreases |s|
  {
    if |s| == 0 then
      [m]
    else if !Less(s[0].name, m.name) then
      SortedHeadIsLeast(s);
      forall x | x in s ensures !Less(x.name, m.name) {
        NotLessTransitive(m.name, s[0].name, x.name);
      }
      SortedCons(m, s);
      assert s == [s[0]] + s[1..];
      [m] + s
    else
      var rest := Insert(m, s[1..]);
      assert s == [s[0]] + s[1..];
      SortedHeadIsLeast(s);
      LessAsymmetric(s[0].name, m.name);
      assert AllAtLeast(s[0].name, s[1..] + [m]);
      AllAtLeastPermutation(s[0].name, rest, s[1..] + [m]);
      SortedCons(s[0], rest);
      [s[0]] + rest
  }

  /** `sorted(by:)` on names: a sorted permutation of `s`. */
  function SortByName(s: seq<ModelData>): (r: seq<ModelData>)
    ensures SortedByName(r)
    ensures multiset(r) == multiset(s)
    decreases |s|
  {
    if |s| == 0 then
      []
    else
      assert s == [s[0]] + s[1..];
      Insert(s[0], SortByName(s[1..]))
  }

  /**
   * When names are distinct there is only one sorted arrangement of a
   * collection of records, so the result does not depend on the sorting
   * algorithm or on its stability.
   */
  lemma {:induction false} SortedPermutationUnique(a: seq<ModelData>, b: seq<ModelData>)
    requires SortedByName(a) && SortedByName(b)
    requires multiset(a) == multiset(b)
    requires DistinctNames(a)
    ensures a == b
    decreases |a|
  {
    if |a| == 0 {
      assert |multiset(b)| == 0;
    } else {
      SortedPermutationHeads(a, b);
      assert DistinctNames(a[1..]) by {
        DistinctTail(a);
      }
      assert SortedByName(a[1..]) && SortedByName(b[1..]);
      MultisetTail(a, b);
      SortedPermutationUnique(a[1..], b[1..]);
      assert a == [a[0]] + a[1..] && b == [b[0]] + b[1..];
    }
  }

  /** Two sorted permutations of records with distinct names start alike. */
  lemma SortedPermutationHeads(a: seq<ModelData>, b: seq<ModelData>)
    requires SortedByName(a) && SortedByName(b)
    requires multiset(a) == multiset(b)
    requires DistinctNames(a)
    requires |a| > 0
    ensures |b| > 0 && a[0] == b[0]
  {
    assert |b| == |multiset(b)| == |a|;
    assert a[0] in multiset(b) && b[0] in multiset(a);
    SortedHeadIsLeast(a);
    SortedHeadIsLeast(b);
    NotLessAntisymmetric(a[0].name, b[0].name);
    var k :| 0 <= k < |a| && a[k] == b[0];
    assert k == 0;
  }

  lemma MultisetTail(a: seq<ModelData>, b: seq<ModelData>)
    requires |a| > 0 && |b| > 0 && a[0] == b[0]
    requires multiset(a) == multiset(b)
    ensures multiset(a[1..]) == multiset(b[1..])
  {
    assert a == [a[0]] + a[1..] && b == [b[0]] + b[1..];
    assert multiset(a[1..]) == multiset(a) - multiset{a[0]};
    assert multiset(b[1..]) == multiset(b) - multiset{a[0]};
  }

  lemma DistinctTail(s: seq<ModelData>)
    requires DistinctNames(s) && |s| > 0
    ensures DistinctNames(s[1..])
  {
    forall i, j | 0 <= i < j < |s[1..]|
      ensures s[1..][i].name != s[1..][j].name
    {
      assert s[1..][i] == s[i + 1] && s[1..][j] == s[j + 1];
    }
  }

  /** Prepending a record whose name no other record has keeps the names distinct. */
  lemma DistinctCons(m: ModelData, s: seq<ModelData>)
    requires DistinctNames(s)
    requires forall x :: x in s ==> x.name != m.name
    ensures DistinctNames([m] + s)
  {
    var r := [m] + s;
    forall i, j | 0 <= i < j < |r|
      ensures r[i].name != r[j].name
    {
      assert r[j] == s[j - 1];
      if i == 0 {
        assert r[j] in s;
      } else {
        assert r[i] == s[i - 1];
      }
    }
  }

  /** Distinct names survive a permutation. */
  lemma DistinctPermutation(s: seq<ModelData>, t: seq<ModelData>)
    requires DistinctNames(s)
    requires multiset(s) == multiset(t)
    ensures DistinctNames(t)
  {
    forall i, j | 0 <= i < j < |t|
      ensures t[i].name != t[j].name
    {
      if t[i].name == t[j].name {
        assert t[i] in multiset(s) && t[j] in multiset(s);
        var p :| 0 <= p < |s| && s[p] == t[i];
        var q :| 0 <= q < |s| && s[q] == t[j];
        assert p == q;
        assert t[i] == t[j];
        assert multiset(t)[t[i]] >= 2 by {
          assert t == t[..i] + [t[i]] + t[i+1..j] + [t[j]] + t[j+1..];
        }
        OccursAtMostOnce(s, t[i]);
      }
    }
  }

  /** In a sequence with distinct names no record occurs twice. */
  lemma {:induction false} OccursAtMostOnce(s: seq<ModelData>, x: ModelData)
    requires DistinctNames(s)
    ensures multiset(s)[x] <= 1
    decreases |s|
  {
    if |s| > 0 {
      assert s == [s[0]] + s[1..];
      DistinctTail(s);
      OccursAtMostOnce(s[1..], x);
      if x == s[0] {
        assert x !in s[1..] by {
          forall k | 0 <= k < |s[1..]| ensures s[1..][k] != x {
            assert s[1..][k] == s[k + 1];
          }
        }
      }
    }
  }
}
