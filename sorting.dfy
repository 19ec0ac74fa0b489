/** The weight comparator shared by the display order (src/App.tsx:36-38)
    and the create-weight computation (src/store.ts:84-86), and the stable
    sort that `Array.prototype.sort` performs with it. */
module Sorting {
  import opened Records

  /** `(a, b) => a.weight && b.weight ? a.weight - b.weight : 0` */
  function Compare(a: Project, b: Project): (c: int)
    ensures !TruthyWeight(a.weight) || !TruthyWeight(b.weight) ==> c == 0
    ensures TruthyWeight(a.weight) && TruthyWeight(b.weight) ==>
              (c < 0 <==> a.weight.value < b.weight.value) &&
              (c == 0 <==> a.weight.value == b.weight.value)
  {
    if TruthyWeight(a.weight) && TruthyWeight(b.weight)
    then a.weight.value - b.weight.value else 0
  }

  /** The display sort compares `(a, b)`; the create sort compares `(b, a)`. */
  datatype Direction = Ascending | Descending

  /** Ascending puts the lower truthy weight first, descending the higher;
      a falsy weight on either side makes the two compare equal. */
  function Order(d: Direction, a: Project, b: Project): (c: int)
    ensures !TruthyWeight(a.weight) || !TruthyWeight(b.weight) ==> c == 0
    ensures TruthyWeight(a.weight) && TruthyWeight(b.weight) ==>
              (c == 0 <==> a.weight.value == b.weight.value)
    ensures TruthyWeight(a.weight) && TruthyWeight(b.weight) && d == Ascending ==>
              (c < 0 <==> a.weight.value < b.weight.value)
    ensures TruthyWeight(a.weight) && TruthyWeight(b.weight) && d == Descending ==>
              (c < 0 <==> b.weight.value < a.weight.value)
  {
    if d == Ascending then Compare(a, b) else Compare(b, a)
  }

  /** Inserts `x` in front of the first element it does not come after. */
  function Insert(x: Project, s: seq<Project>, d: Direction): (r: seq<Project>)
    ensures multiset(r) == multiset(s) + multiset{x}
    ensures |r| == |s| + 1
  {
    if s == [] then [x]
    else if Order(d, x, s[0]) <= 0 then [x] + s
    else
      assert s == [s[0]] + s[1..];
      [s[0]] + Insert(x, s[1..], d)
  }

  /** A stable sort under `Order(d, _, _)`; earlier elements stay in front
      of later ones they compare equal to. Where some weights are falsy the
      comparator is not a consistent order, and the result of the
      JavaScript engine's sort is engine-specific; this stable insertion
      sort is one such result. */
  function Sort(s: seq<Project>, d: Direction): (r: seq<Project>)
    ensures multiset(r) == multiset(s)
    ensures |r| == |s|
  {
    if s == [] then []
    else
      assert s == [s[0]] + s[1..];
      Insert(s[0], Sort(s[1..], d), d)
  }

  /** Every record carries a truthy weight, so `Compare` is a total order. */
  ghost predicate AllWeighted(s: seq<Project>) {
    forall i :: 0 <= i < |s| ==> TruthyWeight(s[i].weight)
  }

  ghost predicate SortedBy(s: seq<Project>, d: Direction) {
    forall i, j :: 0 <= i < j < |s| ==> Order(d, s[i], s[j]) <= 0
  }

  /** Weights strictly increase along `s`. */
  ghost predicate Increasing(s: seq<Project>) {
    AllWeighted(s) &&
    forall i, j :: 0 <= i < j < |s| ==> s[i].weight.value < s[j].weight.value
  }

  /** Every weight is defined and positive. */
  ghost predicate Positive(s: seq<Project>) {
    forall i :: 0 <= i < |s| ==> s[i].weight.Some? && s[i].weight.value > 0
  }

  lemma PositiveWeighted(s: seq<Project>)
    requires Positive(s)
    ensures AllWeighted(s)
  {
  }

  /** No two records share a weight. */
  ghost predicate DistinctWeights(s: seq<Project>) {
    forall i, j :: 0 <= i < j < |s| ==> s[i].weight != s[j].weight
  }

  /** The records of `s` whose weight is exactly `k`, in order. */
  function WithWeight(s: seq<Project>, k: int): (r: seq<Project>)
    ensures |r| <= |s|
    ensures forall i :: 0 <= i < |r| ==> r[i].weight == Some(k)
  {
    if s == [] then []
    else (if s[0].weight == Some(k) then [s[0]] else []) + WithWeight(s[1..], k)
  }

  lemma AllWeightedPermutation(s: seq<Project>, t: seq<Project>)
    requires multiset(s) == multiset(t)
    requires AllWeighted(s)
    ensures AllWeighted(t)
  {
    forall i | 0 <= i < |t| ensures TruthyWeight(t[i].weight) {
      assert t[i] in multiset(t);
      assert t[i] in multiset(s);
      var j :| 0 <= j < |s| && s[j] == t[i];
    }
  }

  lemma {:induction false} InsertSorted(x: Project, s: seq<Project>, d: Direction)
    requires TruthyWeight(x.weight) && AllWeighted(s) && SortedBy(s, d)
    ensures SortedBy(Insert(x, s, d), d)
  {
    if s != [] && Order(d, x, s[0]) > 0 {
      SortedTail(s, d);
      InsertSorted(x, s[1..], d);
      var r := Insert(x, s, d);
      var tail := Insert(x, s[1..], d);
      assert r == [s[0]] + tail;
      forall i, j | 0 <= i < j < |r| ensures Order(d, r[i], r[j]) <= 0 {
        assert r[j] == tail[j - 1];
        if i == 0 {
          HeadBeforeInserted(x, s, d, tail[j - 1]);
        } else {
          assert r[i] == tail[i - 1];
        }
      }
    } else if s != [] {
      InsertSortedFront(x, s, d);
    }
  }

  /** `x` goes in front of a sorted list whose head it does not follow. */
  lemma InsertSortedFront(x: Project, s: seq<Project>, d: Direction)
    requires TruthyWeight(x.weight) && AllWeighted(s) && SortedBy(s, d)
    requires s != [] && Order(d, x, s[0]) <= 0
    ensures SortedBy([x] + s, d)
  {
    var r := [x] + s;
    forall i, j | 0 <= i < j < |r| ensures Order(d, r[i], r[j]) <= 0 {
      assert r[j] == s[j - 1];
      if i == 0 {
        if j > 1 {
          OrderTransitive(d, x, s[0], s[j - 1]);
        }
      } else {
        assert r[i] == s[i - 1];
      }
    }
  }

  lemma OrderTransitive(d: Direction, x: Project, y: Project, z: Project)
    requires TruthyWeight(x.weight) && TruthyWeight(y.weight) && TruthyWeight(z.weight)
    requires Order(d, x, y) <= 0 && Order(d, y, z) <= 0
    ensures Order(d, x, z) <= 0
  {
  }

  lemma SortedTail(s: seq<Project>, d: Direction)
    requires s != [] && AllWeighted(s) && SortedBy(s, d)
    ensures AllWeighted(s[1..]) && SortedBy(s[1..], d)
  {
    forall i | 0 <= i < |s[1..]| ensures TruthyWeight(s[1..][i].weight) {
      assert s[1..][i] == s[i + 1];
    }
    forall i, j | 0 <= i < j < |s[1..]| ensures Order(d, s[1..][i], s[1..][j]) <= 0 {
      assert s[1..][i] == s[i + 1] && s[1..][j] == s[j + 1];
    }
  }

  /** What the insertion carries past the head `s[0]` of a sorted list,
      `x` included, does not come before it. */
  lemma HeadBeforeInserted(x: Project, s: seq<Project>, d: Direction, y: Project)
    requires TruthyWeight(x.weight) && AllWeighted(s) && SortedBy(s, d)
    requires s != [] && Order(d, x, s[0]) > 0
    requires y in multiset(Insert(x, s[1..], d))
    ensures Order(d, s[0], y) <= 0
  {
    if y != x {
      assert y in multiset(s[1..]);
      var k :| 0 <= k < |s[1..]| && s[1..][k] == y;
      assert s[k + 1] == y;
    }
  }

  /** On records with truthy weights the sort really orders them. */
  lemma {:induction false} SortSorted(s: seq<Project>, d: Direction)
    requires AllWeighted(s)
    ensures SortedBy(Sort(s, d), d)
  {
    if s != [] {
      SortSorted(s[1..], d);
      AllWeightedPermutation(s[1..], Sort(s[1..], d));
      InsertSorted(s[0], Sort(s[1..], d), d);
    }
  }

  lemma {:induction false} InsertStable(x: Project, s: seq<Project>, d: Direction, k: int)
    requires k != 0
    ensures WithWeight(Insert(x, s, d), k) ==
            (if x.weight == Some(k) then [x] else []) + WithWeight(s, k)
  {
    if s == [] {
    } else if Order(d, x, s[0]) <= 0 {
      assert ([x] + s)[1..] == s;
    } else {
      // x is skipped past s[0] only when both weights are truthy and differ
      var t := Insert(x, s[1..], d);
      InsertStable(x, s[1..], d, k);
      assert Insert(x, s, d) == [s[0]] + t;
      assert ([s[0]] + t)[1..] == t;
      assert x.weight != s[0].weight;
      var hx := if x.weight == Some(k) then [x] else [];
      var hs := if s[0].weight == Some(k) then [s[0]] else [];
      var rest := WithWeight(s[1..], k);
      assert WithWeight(Insert(x, s, d), k) == hs + (hx + rest);
      assert WithWeight(s, k) == hs + rest;
      if hx == [] {
        assert hx + rest == rest;
        assert hx + (hs + rest) == hs + rest;
      } else {
        assert hs == [];
        assert hs + (hx + rest) == hx + rest;
        assert hs + rest == rest;
      }
    }
  }

  /** Stability: for every truthy weight, the records carrying it come out
      of the sort in their original relative order. */
  lemma {:induction false} SortStable(s: seq<Project>, d: Direction, k: int)
    requires k != 0
    ensures WithWeight(Sort(s, d), k) == WithWeight(s, k)
  {
    if s != [] {
      SortStable(s[1..], d, k);
      InsertStable(s[0], Sort(s[1..], d), d, k);
    }
  }

  lemma MultisetTail(s: seq<Project>)
    requires s != []
    ensures multiset(s[1..]) == multiset(s) - multiset{s[0]}
  {
    assert s == [s[0]] + s[1..];
  }

  lemma SortedPermutationHead(z: seq<Project>, y: seq<Project>)
    requires SortedBy(z, Ascending) && Increasing(y)
    requires multiset(z) == multiset(y) && z != []
    ensures y != [] && z[0] == y[0]
  {
    assert z[0] in multiset(y);
    var j :| 0 <= j < |y| && y[j] == z[0];
    assert y[0] in multiset(z);
    var k :| 0 <= k < |z| && z[k] == y[0];
    AllWeightedPermutation(y, z);
    if k > 0 {
      assert Order(Ascending, z[0], z[k]) <= 0;
    }
    assert z[0].weight.value <= y[0].weight.value;
    if j > 0 {
      assert false;
    }
  }

  /** A sorted permutation of a strictly increasing sequence is that
      sequence: with distinct weights there is only one sorted order. */
  lemma {:induction false} SortedPermutationUnique(z: seq<Project>, y: seq<Project>)
    requires SortedBy(z, Ascending) && Increasing(y)
    requires multiset(z) == multiset(y)
    ensures z == y
  {
    if z == [] {
      assert |multiset(y)| == 0;
    } else {
      SortedPermutationHead(z, y);
      MultisetTail(z);
      MultisetTail(y);
      var z', y' := z[1..], y[1..];
      assert SortedBy(z', Ascending) by {
        forall i, j | 0 <= i < j < |z'| ensures Order(Ascending, z'[i], z'[j]) <= 0 {
          assert z'[i] == z[i + 1] && z'[j] == z[j + 1];
        }
      }
      assert Increasing(y') by {
        forall i | 0 <= i < |y'| ensures TruthyWeight(y'[i].weight) {
          assert y'[i] == y[i + 1];
        }
        forall i, j | 0 <= i < j < |y'| ensures y'[i].weight.value < y'[j].weight.value {
          assert y'[i] == y[i + 1] && y'[j] == y[j + 1];
        }
      }
      SortedPermutationUnique(z', y');
      assert z == [z[0]] + z' && y == [y[0]] + y';
    }
  }

  /** The weight that sorts first in descending order is a maximum. */
  lemma MaxCandidate(s: seq<Project>, r: seq<Project>, i: nat)
    requires i < |s| && multiset(r) == multiset(s) && AllWeighted(s)
    requires AllWeighted(r) && SortedBy(r, Descending)
    ensures r != [] && s[i].weight.value <= r[0].weight.value
  {
    assert s[i] in multiset(s);
    var j := IndexIn(r, s[i]);
    if j > 0 {
      assert Order(Descending, r[0], r[j]) <= 0;
    }
  }

  lemma SortDescendingHeadIsMax(s: seq<Project>)
    requires AllWeighted(s) && s != []
    ensures TruthyWeight(Sort(s, Descending)[0].weight)
    ensures forall i :: 0 <= i < |s| ==> s[i].weight.value <= Sort(s, Descending)[0].weight.value
  {
    var r := Sort(s, Descending);
    SortSorted(s, Descending);
    AllWeightedPermutation(s, r);
    forall i | 0 <= i < |s| ensures s[i].weight.value <= r[0].weight.value {
      MaxCandidate(s, r, i);
    }
  }

  // ---------------------------------------------------------------------
  // Properties that depend only on the multiset of records
  // ---------------------------------------------------------------------

  ghost predicate NoDuplicates(s: seq<Project>) {
    forall i, j :: 0 <= i < j < |s| ==> s[i] != s[j]
  }

  lemma {:induction false} NoDuplicatesCount(s: seq<Project>, x: Project)
    requires NoDuplicates(s)
    ensures multiset(s)[x] <= 1
  {
    if s != [] {
      assert NoDuplicates(s[1..]) by {
        forall i, j | 0 <= i < j < |s[1..]| ensures s[1..][i] != s[1..][j] {
          assert s[1..][i] == s[i + 1] && s[1..][j] == s[j + 1];
        }
      }
      NoDuplicatesCount(s[1..], x);
      MultisetTail(s);
      if s[0] == x {
        assert x !in s[1..];
        assert multiset(s[1..])[x] == 0;
      }
    }
  }

  lemma RepeatedCount(s: seq<Project>, i: nat, j: nat)
    requires i < j < |s| && s[i] == s[j]
    ensures multiset(s)[s[i]] >= 2
  {
    assert s == s[..j] + [s[j]] + s[j + 1..];
    assert s[i] in s[..j];
  }

  lemma NoDuplicatesPermutation(s: seq<Project>, t: seq<Project>)
    requires multiset(t) <= multiset(s) && NoDuplicates(s)
    ensures NoDuplicates(t)
  {
    forall i, j | 0 <= i < j < |t| ensures t[i] != t[j] {
      if t[i] == t[j] {
        RepeatedCount(t, i, j);
        NoDuplicatesCount(s, t[i]);
      }
    }
  }

  /** An index of `s` holding the given element of `t`'s multiset. */
  lemma IndexIn(s: seq<Project>, x: Project) returns (k: nat)
    requires x in multiset(s)
    ensures k < |s| && s[k] == x
  {
    k :| 0 <= k < |s| && s[k] == x;
  }

  /** Distinct ids and distinct weights survive a permutation, and taking
      records away. */
  lemma SeparatedPermutation(s: seq<Project>, t: seq<Project>)
    requires multiset(t) <= multiset(s)
    requires UniqueIds(s)
    ensures UniqueIds(t)
    ensures DistinctWeights(s) ==> DistinctWeights(t)
    ensures Positive(s) ==> Positive(t)
  {
    assert NoDuplicates(s);
    NoDuplicatesPermutation(s, t);
    forall i, j | 0 <= i < j < |t|
      ensures t[i].id != t[j].id && (DistinctWeights(s) ==> t[i].weight != t[j].weight)
    {
      var i' := IndexIn(s, t[i]);
      var j' := IndexIn(s, t[j]);
      assert i' != j';
    }
    forall i | 0 <= i < |t| ensures Positive(s) ==> t[i].weight.Some? && t[i].weight.value > 0 {
      var i' := IndexIn(s, t[i]);
    }
  }

  /** Strictly ascending is the same as sorted with distinct weights. */
  lemma SortedDistinctIncreasing(s: seq<Project>)
    requires AllWeighted(s) && SortedBy(s, Ascending) && DistinctWeights(s)
    ensures Increasing(s)
  {
    forall i, j | 0 <= i < j < |s| ensures s[i].weight.value < s[j].weight.value {
      assert Order(Ascending, s[i], s[j]) <= 0;
    }
  }
}
