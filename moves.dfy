/** Moving one element of a list to another position: the reordering a
    drag-and-drop asks for (src/App.tsx:57-91), stated on plain sequences. */
module Moves {

  /** Take the element at `a` out and put it back so that it lands at
      index `o`; the elements in between shift by one place. */
  function Move<T>(s: seq<T>, a: nat, o: nat): (r: seq<T>)
    requires a < |s| && o < |s|
    ensures |r| == |s|
  {
    if a > o then s[..o] + [s[a]] + s[o..a] + s[a + 1..]
    else if a < o then s[..a] + s[a + 1..o + 1] + [s[a]] + s[o + 1..]
    else s
  }

  /** A move only rearranges: it keeps every element, as often as it occurs. */
  lemma MovePermutes<T>(s: seq<T>, a: nat, o: nat)
    requires a < |s| && o < |s|
    ensures multiset(Move(s, a, o)) == multiset(s)
  {
    if a > o {
      var x, y, z := s[..o], s[o..a], s[a + 1..];
      assert s == x + y + [s[a]] + z;
      SwapPermutes(x, s[a], y, z);
    } else if a < o {
      var x, y, z := s[..a], s[a + 1..o + 1], s[o + 1..];
      assert s == x + [s[a]] + y + z;
      SwapPermutes(x, s[a], y, z);
    }
  }

  lemma SwapPermutes<T>(x: seq<T>, m: T, y: seq<T>, z: seq<T>)
    ensures multiset(x + [m] + y + z) == multiset(x + y + [m] + z)
  {
    calc {
      multiset(x + [m] + y + z);
      multiset(x) + multiset{m} + multiset(y) + multiset(z);
      multiset(x) + multiset(y) + multiset{m} + multiset(z);
      multiset(x + y + [m] + z);
    }
  }

  /** Where the element now at index `j` came from. */
  function Source(a: nat, o: nat, j: nat): nat {
    if a > o then
      (if j < o || j > a then j else if j == o then a else j - 1)
    else if a < o then
      (if j < a || j > o then j else if j == o then a else j + 1)
    else j
  }

  lemma MoveAt<T>(s: seq<T>, a: nat, o: nat, j: nat)
    requires a < |s| && o < |s| && j < |s|
    ensures Source(a, o, j) < |s|
    ensures Move(s, a, o)[j] == s[Source(a, o, j)]
  {
    if a > o {
      MoveUpAt(s, a, o, j);
    } else if a < o {
      MoveDownAt(s, a, o, j);
    }
  }

  lemma MoveUpAt<T>(s: seq<T>, a: nat, o: nat, j: nat)
    requires o < a < |s| && j < |s|
    ensures Move(s, a, o)[j] == s[Source(a, o, j)]
  {
    var x, y, z := s[..o], s[o..a], s[a + 1..];
    var r := x + [s[a]] + y + z;
    assert Move(s, a, o) == r;
    if j < o {
      assert r[j] == x[j];
    } else if j == o {
      assert r[j] == s[a];
    } else if j <= a {
      assert r[j] == y[j - o - 1];
    } else {
      assert r[j] == z[j - a - 1];
    }
  }

  lemma MoveDownAt<T>(s: seq<T>, a: nat, o: nat, j: nat)
    requires a < o < |s| && j < |s|
    ensures Move(s, a, o)[j] == s[Source(a, o, j)]
  {
    var x, y, z := s[..a], s[a + 1..o + 1], s[o + 1..];
    var r := x + y + [s[a]] + z;
    assert Move(s, a, o) == r;
    if j < a {
      assert r[j] == x[j];
    } else if j < o {
      assert r[j] == y[j - a];
    } else if j == o {
      assert r[j] == s[a];
    } else {
      assert r[j] == z[j - o - 1];
    }
  }

  /** The moved element lands at the target index. */
  lemma MoveLandsAtTarget<T>(s: seq<T>, a: nat, o: nat)
    requires a < |s| && o < |s|
    ensures Move(s, a, o)[o] == s[a]
  {
    MoveAt(s, a, o, o);
  }

  /** Moving back from the target index to the origin undoes a move. */
  lemma MoveInverse<T>(s: seq<T>, a: nat, o: nat)
    requires a < |s| && o < |s|
    ensures Move(Move(s, a, o), o, a) == s
  {
    var m := Move(s, a, o);
    var back := Move(m, o, a);
    forall j | 0 <= j < |s| ensures back[j] == s[j] {
      var i := Source(o, a, j);
      MoveAt(m, o, a, j);
      assert back[j] == m[i];
      MoveAt(s, a, o, i);
      assert Source(a, o, i) == j;
    }
    assert |back| == |s|;
  }
}
