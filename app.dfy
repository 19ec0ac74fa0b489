/** The list screen (src/App.tsx): the display order, the weight patches a
    drag-and-drop produces, and the delete-confirmation gate. */
module App {
  import opened Records
  import opened Sorting
  import opened Store
  import opened Moves

  // ---------------------------------------------------------------------
  // Display order (src/App.tsx:36-38)
  // ---------------------------------------------------------------------

  /** `[...rawProjects].sort((a, b) => a.weight && b.weight ? a.weight - b.weight : 0)` */
  function DisplayOrder(raw: seq<Project>): (r: seq<Project>)
    ensures multiset(r) == multiset(raw)
  {
    Sort(raw, Ascending)
  }

  /** With truthy weights the display order is ascending by weight, and
      records of equal weight keep their store order. */
  lemma DisplayOrderIsStableSort(raw: seq<Project>)
    requires AllWeighted(raw)
    ensures AllWeighted(DisplayOrder(raw))
    ensures forall i, j :: 0 <= i < j < |DisplayOrder(raw)| ==>
              DisplayOrder(raw)[i].weight.value <= DisplayOrder(raw)[j].weight.value
    ensures forall k :: k != 0 ==> WithWeight(DisplayOrder(raw), k) == WithWeight(raw, k)
  {
    var r := DisplayOrder(raw);
    SortSorted(raw, Ascending);
    AllWeightedPermutation(raw, r);
    forall i, j | 0 <= i < j < |r| ensures r[i].weight.value <= r[j].weight.value {
      assert Order(Ascending, r[i], r[j]) <= 0;
    }
    forall k | k != 0 ensures WithWeight(r, k) == WithWeight(raw, k) {
      SortStable(raw, Ascending, k);
    }
  }

  // ---------------------------------------------------------------------
  // Drag-and-drop patches (src/App.tsx:57-91)
  // ---------------------------------------------------------------------

  /** `{id, weight}` */
  function WeightPatch(id: Id, w: Option<int>): Patch {
    Patch(id, Keep, Keep, Put(w))
  }

  /** `project.weight ? project.weight + delta : undefined` */
  function Bump(w: Option<int>, delta: int): (r: Option<int>)
    ensures r.Some? <==> TruthyWeight(w)
    ensures r.Some? ==> r.value == w.value + delta
  {
    if TruthyWeight(w) then Some(w.value + delta) else None
  }

  /** The edits built for moving the record at `a` onto the record at `o`:
      first the active record, then (moving up) the records from `o` up to
      `a - 1`, or (moving down) the records from `o` down to `a + 1`. */
  function ReorderPatches(ps: seq<Project>, a: nat, o: nat): (es: seq<Patch>)
    requires a < |ps| && o < |ps|
    ensures |es| == (if a > o then a - o else o - a) + 1
    ensures es[0] == WeightPatch(ps[a].id, ps[o].weight)
    ensures forall k :: 0 <= k < |es| ==> es[k].name.Keep? && es[k].dateCreated.Keep? && es[k].weight.Put?
  {
    [WeightPatch(ps[a].id, ps[o].weight)] +
    if a > o then UpShifts(ps, o, a - o) else DownShifts(ps, o, o - a)
  }

  /** Patches raising the weights of the `n` records from index `o` on. */
  function UpShifts(ps: seq<Project>, o: nat, n: nat): (es: seq<Patch>)
    requires o + n <= |ps|
    ensures |es| == n
    ensures forall k :: 0 <= k < n ==> es[k].id == ps[o + k].id
    ensures forall k :: 0 <= k < n ==> es[k].name.Keep? && es[k].dateCreated.Keep?
    ensures forall k :: 0 <= k < n ==> es[k].weight == Put(Bump(ps[o + k].weight, 1))
  {
    var es := seq(n, k requires 0 <= k < n => WeightPatch(ps[o + k].id, Bump(ps[o + k].weight, 1)));
    // restates the comprehension element-wise, which the solver needs here
    assert forall k :: 0 <= k < n ==> es[k] == WeightPatch(ps[o + k].id, Bump(ps[o + k].weight, 1));
    es
  }

  /** Patches lowering the weights of the `n` records from index `o` down. */
  function DownShifts(ps: seq<Project>, o: nat, n: nat): (es: seq<Patch>)
    requires n <= o < |ps|
    ensures |es| == n
    ensures forall k :: 0 <= k < n ==> es[k].id == ps[o - k].id
    ensures forall k :: 0 <= k < n ==> es[k].name.Keep? && es[k].dateCreated.Keep?
    ensures forall k :: 0 <= k < n ==> es[k].weight == Put(Bump(ps[o - k].weight, -1))
  {
    var es := seq(n, k requires 0 <= k < n => WeightPatch(ps[o - k].id, Bump(ps[o - k].weight, -1)));
    // restates the comprehension element-wise, which the solver needs here
    assert forall k :: 0 <= k < n ==> es[k] == WeightPatch(ps[o - k].id, Bump(ps[o - k].weight, -1));
    es
  }

  lemma UpShiftsSnoc(h: seq<Patch>, ps: seq<Project>, o: nat, n: nat)
    requires o + n < |ps|
    ensures h + UpShifts(ps, o, n + 1) ==
            h + UpShifts(ps, o, n) + [WeightPatch(ps[o + n].id, Bump(ps[o + n].weight, 1))]
  {
    var x := WeightPatch(ps[o + n].id, Bump(ps[o + n].weight, 1));
    assert UpShifts(ps, o, n + 1) == UpShifts(ps, o, n) + [x];
  }

  lemma DownShiftsSnoc(h: seq<Patch>, ps: seq<Project>, o: nat, n: nat)
    requires n < o < |ps|
    ensures h + DownShifts(ps, o, n + 1) ==
            h + DownShifts(ps, o, n) + [WeightPatch(ps[o - n].id, Bump(ps[o - n].weight, -1))]
  {
    var x := WeightPatch(ps[o - n].id, Bump(ps[o - n].weight, -1));
    assert DownShifts(ps, o, n + 1) == DownShifts(ps, o, n) + [x];
  }

  // The two branches of `ReorderPatches`, unfolded once for the loops of
  // `BuildEdits`.
  lemma ReorderPatchesUp(ps: seq<Project>, a: nat, o: nat)
    requires o < a < |ps|
    ensures ReorderPatches(ps, a, o) == [WeightPatch(ps[a].id, ps[o].weight)] + UpShifts(ps, o, a - o)
  {
  }

  lemma ReorderPatchesDown(ps: seq<Project>, a: nat, o: nat)
    requires a <= o < |ps|
    ensures ReorderPatches(ps, a, o) == [WeightPatch(ps[a].id, ps[o].weight)] + DownShifts(ps, o, o - a)
  {
  }

  /** The drop event names records of the list it was raised on. */
  ghost predicate DropOnList(projects: seq<Project>, active: Option<Id>, over: Option<Id>) {
    active.Some? && over.Some? && active.value != over.value ==>
      IndexOf(projects, active.value) >= 0 && IndexOf(projects, over.value) >= 0
  }

  /** `handleDragEnd`: returns the command it dispatches, if any. */
  method HandleDragEnd(projects: seq<Project>, active: Option<Id>, over: Option<Id>)
    returns (dispatched: Option<Command>)
    requires DropOnList(projects, active, over)
    ensures dispatched.Some? <==> active.Some? && over.Some? && active.value != over.value
    ensures dispatched.Some? ==>
              dispatched == Some(EditMany(ReorderPatches(projects,
                                  IndexOf(projects, active.value), IndexOf(projects, over.value))))
  {
    dispatched := None;
    if active.Some? && over.Some? && active.value != over.value {
      var activeIdx := IndexOf(projects, active.value);
      var overIdx := IndexOf(projects, over.value);
      var edits := BuildEdits(projects, activeIdx, overIdx);
      dispatched := Some(EditMany(edits));
    }
  }

  /** The body of `handleDragEnd` once both indices are known: the active
      record's patch, then one loop pushing the shifted neighbours. */
  method BuildEdits(projects: seq<Project>, activeIdx: nat, overIdx: nat) returns (edits: seq<Patch>)
    requires activeIdx < |projects| && overIdx < |projects|
    ensures edits == ReorderPatches(projects, activeIdx, overIdx)
  {
    edits := [];
    edits := edits + [WeightPatch(projects[activeIdx].id, projects[overIdx].weight)];
    ghost var first := edits;
    if activeIdx > overIdx {
      // active is moving up
      var i := overIdx;
      while i < activeIdx
        invariant overIdx <= i <= activeIdx
        invariant edits == first + UpShifts(projects, overIdx, i - overIdx)
      {
        var project := projects[i];
        UpShiftsSnoc(first, projects, overIdx, i - overIdx);
        edits := edits + [WeightPatch(project.id, Bump(project.weight, 1))];
        i := i + 1;
      }
      ReorderPatchesUp(projects, activeIdx, overIdx);
    } else {
      // active is moving down
      var i := overIdx;
      while i > activeIdx
        invariant activeIdx <= i <= overIdx
        invariant edits == first + DownShifts(projects, overIdx, overIdx - i)
      {
        var project := projects[i];
        DownShiftsSnoc(first, projects, overIdx, overIdx - i);
        edits := edits + [WeightPatch(project.id, Bump(project.weight, -1))];
        i := i - 1;
      }
      ReorderPatchesDown(projects, activeIdx, overIdx);
    }
  }

  // ---------------------------------------------------------------------
  // What the patches do
  // ---------------------------------------------------------------------

  /** The weight record `i` is meant to end up with after the move of the
      record at `a` onto the record at `o`. */
  function Reweighed(ps: seq<Project>, a: nat, o: nat, i: nat): Option<int>
    requires a < |ps| && o < |ps| && i < |ps|
  {
    if i == a then ps[o].weight
    else if o <= i < a then Bump(ps[i].weight, 1)
    else if a < i <= o then Bump(ps[i].weight, -1)
    else ps[i].weight
  }

  /** `i` lies in the closed index range between `a` and `o`. */
  predicate Between(a: nat, o: nat, i: nat) {
    if a > o then o <= i <= a else a <= i <= o
  }

  /** The index of the record the `k`-th patch is for. */
  function PatchTarget(a: nat, o: nat, k: nat): int {
    if k == 0 then a else if a > o then o + k - 1 else o - k + 1
  }

  /** The patch list: one patch per record of the closed range between `a`
      and `o`, the active record's first (taking the target's weight), then
      the records in between, from `o` towards `a`, each shifted by one
      towards the active record's old place; a record whose weight is
      falsy gets `undefined`. */
  lemma ReorderPatchesShape(ps: seq<Project>, a: nat, o: nat)
    requires a < |ps| && o < |ps| && a != o
    ensures |ReorderPatches(ps, a, o)| == (if a > o then a - o else o - a) + 1
    ensures forall k :: 0 <= k < |ReorderPatches(ps, a, o)| ==>
              var t := PatchTarget(a, o, k);
              Between(a, o, t) &&
              ReorderPatches(ps, a, o)[k] == WeightPatch(ps[t].id, Reweighed(ps, a, o, t))
  {
    forall k | 0 <= k < |ReorderPatches(ps, a, o)|
      ensures var t := PatchTarget(a, o, k);
              Between(a, o, t) &&
              ReorderPatches(ps, a, o)[k] == WeightPatch(ps[t].id, Reweighed(ps, a, o, t))
    {
      ReorderPatchAt(ps, a, o, k);
    }
  }

  /** The `k`-th patch, on its own. */
  lemma ReorderPatchAt(ps: seq<Project>, a: nat, o: nat, k: nat)
    requires a < |ps| && o < |ps| && a != o
    ensures |ReorderPatches(ps, a, o)| == (if a > o then a - o else o - a) + 1
    ensures k < |ReorderPatches(ps, a, o)| ==>
              Between(a, o, PatchTarget(a, o, k)) &&
              ReorderPatches(ps, a, o)[k] ==
                WeightPatch(ps[PatchTarget(a, o, k)].id, Reweighed(ps, a, o, PatchTarget(a, o, k)))
  {
    var es := ReorderPatches(ps, a, o);
    if 0 < k < |es| {
      if a > o {
        assert es[k] == UpShifts(ps, o, a - o)[k - 1];
      } else {
        assert es[k] == DownShifts(ps, o, o - a)[k - 1];
      }
    }
  }

  /** With distinct ids the patches name distinct records, every record of
      the range gets one, and no record outside the range is patched. */
  lemma ReorderPatchIds(ps: seq<Project>, a: nat, o: nat)
    requires a < |ps| && o < |ps| && a != o && UniqueIds(ps)
    ensures forall k, l :: 0 <= k < l < |ReorderPatches(ps, a, o)| ==>
              ReorderPatches(ps, a, o)[k].id != ReorderPatches(ps, a, o)[l].id
    ensures forall i, k :: 0 <= i < |ps| && 0 <= k < |ReorderPatches(ps, a, o)| && !Between(a, o, i) ==>
              ReorderPatches(ps, a, o)[k].id != ps[i].id
    ensures forall i :: 0 <= i < |ps| && Between(a, o, i) ==>
              exists k :: 0 <= k < |ReorderPatches(ps, a, o)| && ReorderPatches(ps, a, o)[k].id == ps[i].id
  {
    var es := ReorderPatches(ps, a, o);
    forall k, l | 0 <= k < l < |es| ensures es[k].id != es[l].id {
      ReorderPatchAt(ps, a, o, k);
      ReorderPatchAt(ps, a, o, l);
      PatchTargetDistinct(a, o, k, l);
    }
    forall i, k | 0 <= i < |ps| && 0 <= k < |es| && !Between(a, o, i) ensures es[k].id != ps[i].id {
      ReorderPatchAt(ps, a, o, k);
    }
    forall i | 0 <= i < |ps| && Between(a, o, i)
      ensures exists k :: 0 <= k < |es| && es[k].id == ps[i].id
    {
      var k := PatchIndex(a, o, i);
      ReorderPatchAt(ps, a, o, k);
      assert es[k].id == ps[i].id;
    }
  }

  /** The patch for the record at index `i` of the range. */
  function PatchIndex(a: nat, o: nat, i: nat): (k: nat)
    requires a != o && Between(a, o, i)
    ensures k <= (if a > o then a - o else o - a)
    ensures PatchTarget(a, o, k) == i
  {
    if i == a then 0 else if a > o then i - o + 1 else o - i + 1
  }

  lemma PatchTargetDistinct(a: nat, o: nat, k: nat, l: nat)
    requires a != o && k < l <= (if a > o then a - o else o - a)
    ensures PatchTarget(a, o, k) != PatchTarget(a, o, l)
  {
  }

  lemma ReorderEffectAt(ps: seq<Project>, a: nat, o: nat, i: nat)
    requires a < |ps| && o < |ps| && a != o && UniqueIds(ps) && i < |ps|
    ensures Patched(ps[i], ReorderPatches(ps, a, o)) == ps[i].(weight := Reweighed(ps, a, o, i))
  {
    var es := ReorderPatches(ps, a, o);
    if Between(a, o, i) {
      var k := PatchIndex(a, o, i);
      ReorderPatchAt(ps, a, o, k);
      OnlyPatchFor(ps, a, o, i);
      PatchedSingle(ps[i], es, k);
    } else {
      ReorderPatchIds(ps, a, o);
    }
  }

  /** On distinct ids, a record of the range is named by its own patch only. */
  lemma OnlyPatchFor(ps: seq<Project>, a: nat, o: nat, i: nat)
    requires a < |ps| && o < |ps| && a != o && UniqueIds(ps) && i < |ps| && Between(a, o, i)
    ensures forall j :: 0 <= j < |ReorderPatches(ps, a, o)| && j != PatchIndex(a, o, i) ==>
              ReorderPatches(ps, a, o)[j].id != ps[i].id
  {
    var es := ReorderPatches(ps, a, o);
    var k := PatchIndex(a, o, i);
    forall j | 0 <= j < |es| && j != k ensures es[j].id != ps[i].id {
      ReorderPatchAt(ps, a, o, j);
      if j < k { PatchTargetDistinct(a, o, j, k); } else { PatchTargetDistinct(a, o, k, j); }
    }
  }

  /** Applying the patches to the list they were built from changes only
      weights, and gives each record its `Reweighed` weight. */
  lemma ReorderEffect(ps: seq<Project>, a: nat, o: nat)
    requires a < |ps| && o < |ps| && a != o && UniqueIds(ps)
    ensures forall i :: 0 <= i < |ps| ==>
              ApplyEdits(ps, ReorderPatches(ps, a, o))[i] == ps[i].(weight := Reweighed(ps, a, o, i))
  {
    ApplyEditsPointwise(ps, ReorderPatches(ps, a, o));
    forall i | 0 <= i < |ps|
      ensures ApplyEdits(ps, ReorderPatches(ps, a, o))[i] == ps[i].(weight := Reweighed(ps, a, o, i))
    {
      ReorderEffectAt(ps, a, o, i);
    }
  }

  /** The weight at index `j` of the moved list, after the patches. */
  lemma MovedWeightAt(ps: seq<Project>, a: nat, o: nat, j: nat)
    requires a < |ps| && o < |ps| && a != o && UniqueIds(ps) && j < |ps|
    ensures Source(a, o, j) < |ps|
    ensures Move(ApplyEdits(ps, ReorderPatches(ps, a, o)), a, o)[j].weight ==
            Reweighed(ps, a, o, Source(a, o, j))
  {
    var es := ReorderPatches(ps, a, o);
    var after := ApplyEdits(ps, es);
    MoveAt(after, a, o, j);
    var i := Source(a, o, j);
    ApplyEditsPointwise(ps, es);
    ReorderEffectAt(ps, a, o, i);
    assert after[i] == ps[i].(weight := Reweighed(ps, a, o, i));
  }

  /** The key the moved list carries at index `j`, on distinct positive
      weights. */
  function MovedKey(ps: seq<Project>, a: nat, o: nat, j: nat): int
    requires a < |ps| && o < |ps| && j < |ps| && Positive(ps)
  {
    var w := (i: nat) requires i < |ps| => ps[i].weight.value;
    if a > o then
      (if j < o || j > a then w(j) else if j == o then w(o) else w(j - 1) + 1)
    else
      (if j < a || j > o then w(j) else if j == o then w(o) else w(j + 1) - 1)
  }

  lemma MovedKeyIncreasing(ps: seq<Project>, a: nat, o: nat, i: nat, j: nat)
    requires a < |ps| && o < |ps| && a != o && Increasing(ps) && Positive(ps)
    requires i < j < |ps|
    ensures 0 < MovedKey(ps, a, o, i) < MovedKey(ps, a, o, j)
  {
    if a > o {
      if i < o {
        assert ps[i].weight.value < ps[o].weight.value;
      }
      if o < j <= a {
        assert ps[o].weight.value <= ps[j - 1].weight.value;
        if o < i {
          assert ps[i - 1].weight.value < ps[j - 1].weight.value;
        }
      }
      if j > a {
        assert ps[a - 1].weight.value < ps[a].weight.value < ps[j].weight.value;
        if o < i <= a {
          assert ps[i - 1].weight.value < ps[a].weight.value;
        }
        if i <= o {
          assert ps[i].weight.value < ps[j].weight.value;
        }
      }
    } else {
      if i < a {
        assert ps[i].weight.value < ps[a].weight.value < ps[a + 1].weight.value;
      }
      if a <= i < o {
        assert ps[a].weight.value < ps[i + 1].weight.value;
        if j < o {
          assert ps[i + 1].weight.value < ps[j + 1].weight.value;
        }
        if j >= o {
          assert ps[i + 1].weight.value <= ps[o].weight.value;
        }
      }
      if j > o {
        assert ps[o].weight.value < ps[j].weight.value;
        if i > o {
          assert ps[i].weight.value < ps[j].weight.value;
        }
      }
    }
  }

  lemma ReweighedIsMovedKey(ps: seq<Project>, a: nat, o: nat, j: nat)
    requires a < |ps| && o < |ps| && a != o && Increasing(ps) && Positive(ps)
    requires j < |ps|
    ensures Source(a, o, j) < |ps|
    ensures Reweighed(ps, a, o, Source(a, o, j)) == Some(MovedKey(ps, a, o, j))
  {
    var t := Source(a, o, j);
    assert ps[t].weight.value > 0;
  }

  lemma MovedKeyPositive(ps: seq<Project>, a: nat, o: nat, j: nat)
    requires a < |ps| && o < |ps| && a != o && Increasing(ps) && Positive(ps)
    requires j < |ps|
    ensures 0 < MovedKey(ps, a, o, j)
  {
    if j == 0 {
      MovedKeyIncreasing(ps, a, o, 0, 1);
    } else {
      MovedKeyIncreasing(ps, a, o, 0, j);
    }
  }

  /** After the patches, the list with the active record moved to the
      target index is strictly ascending by positive weight. */
  lemma MovedIncreasing(ps: seq<Project>, a: nat, o: nat)
    requires a < |ps| && o < |ps| && a != o
    requires UniqueIds(ps) && Increasing(ps) && Positive(ps)
    ensures Increasing(Move(ApplyEdits(ps, ReorderPatches(ps, a, o)), a, o))
    ensures Positive(Move(ApplyEdits(ps, ReorderPatches(ps, a, o)), a, o))
  {
    var m := Move(ApplyEdits(ps, ReorderPatches(ps, a, o)), a, o);
    MovedPositive(ps, a, o);
    PositiveWeighted(m);
    forall i, j | 0 <= i < j < |m| ensures m[i].weight.value < m[j].weight.value {
      MovedWeightIsKey(ps, a, o, i);
      MovedWeightIsKey(ps, a, o, j);
      MovedKeyIncreasing(ps, a, o, i, j);
    }
  }

  lemma MovedPositive(ps: seq<Project>, a: nat, o: nat)
    requires a < |ps| && o < |ps| && a != o
    requires UniqueIds(ps) && Increasing(ps) && Positive(ps)
    ensures Positive(Move(ApplyEdits(ps, ReorderPatches(ps, a, o)), a, o))
  {
    var m := Move(ApplyEdits(ps, ReorderPatches(ps, a, o)), a, o);
    forall j | 0 <= j < |m| ensures m[j].weight.Some? && m[j].weight.value > 0 {
      MovedWeightIsKey(ps, a, o, j);
      MovedKeyPositive(ps, a, o, j);
    }
  }

  lemma MovedWeightIsKey(ps: seq<Project>, a: nat, o: nat, j: nat)
    requires a < |ps| && o < |ps| && a != o
    requires UniqueIds(ps) && Increasing(ps) && Positive(ps) && j < |ps|
    ensures Move(ApplyEdits(ps, ReorderPatches(ps, a, o)), a, o)[j].weight == Some(MovedKey(ps, a, o, j))
  {
    MovedWeightAt(ps, a, o, j);
    ReweighedIsMovedKey(ps, a, o, j);
  }

  lemma IdsMove(s: seq<Project>, a: nat, o: nat)
    requires a < |s| && o < |s|
    ensures Ids(Move(s, a, o)) == Move(Ids(s), a, o)
  {
    forall j | 0 <= j < |s| ensures Ids(Move(s, a, o))[j] == Move(Ids(s), a, o)[j] {
      MoveAt(s, a, o, j);
      MoveAt(Ids(s), a, o, j);
    }
  }

  /** On the displayed list itself: once the patches are applied, the
      display order is the old one with the active record moved to the
      target's index and everything in between shifted by one place. */
  lemma ReorderSortsIntoPlace(ps: seq<Project>, a: nat, o: nat)
    requires a < |ps| && o < |ps| && a != o
    requires UniqueIds(ps) && Increasing(ps) && Positive(ps)
    ensures DisplayOrder(ApplyEdits(ps, ReorderPatches(ps, a, o))) ==
            Move(ApplyEdits(ps, ReorderPatches(ps, a, o)), a, o)
    ensures Ids(DisplayOrder(ApplyEdits(ps, ReorderPatches(ps, a, o)))) == Move(Ids(ps), a, o)
  {
    var after := ApplyEdits(ps, ReorderPatches(ps, a, o));
    var m := Move(after, a, o);
    MovedIncreasing(ps, a, o);
    MovePermutes(after, a, o);
    AllWeightedPermutation(m, after);
    SortSorted(after, Ascending);
    SortedPermutationUnique(DisplayOrder(after), m);
    IdsMove(after, a, o);
  }

  /** A consistent store is displayed in strictly ascending weight order. */
  lemma ShownIncreasing(raw: seq<Project>)
    requires Consistent(raw)
    ensures UniqueIds(DisplayOrder(raw)) && Positive(DisplayOrder(raw))
    ensures Increasing(DisplayOrder(raw))
  {
    SeparatedPermutation(raw, DisplayOrder(raw));
    PositiveWeighted(raw);
    SortSorted(raw, Ascending);
    PositiveWeighted(DisplayOrder(raw));
    SortedDistinctIncreasing(DisplayOrder(raw));
  }

  /** The store's list after the drag sorts into the moved display list. */
  lemma StoreSortsIntoPlace(raw: seq<Project>, a: nat, o: nat)
    requires a < |raw| && o < |raw| && a != o && Consistent(raw)
    ensures var shown := DisplayOrder(raw);
            var es := ReorderPatches(shown, a, o);
            DisplayOrder(ApplyEdits(raw, es)) == Move(ApplyEdits(shown, es), a, o)
  {
    var shown := DisplayOrder(raw);
    var es := ReorderPatches(shown, a, o);
    var after := ApplyEdits(raw, es);
    var m := Move(ApplyEdits(shown, es), a, o);
    ShownIncreasing(raw);
    MovedIncreasing(shown, a, o);
    ApplyEditsPermutation(raw, shown, es);
    MovePermutes(ApplyEdits(shown, es), a, o);
    assert multiset(after) == multiset(m);
    AllWeightedPermutation(m, after);
    SortSorted(after, Ascending);
    SortedPermutationUnique(DisplayOrder(after), m);
  }

  /** The whole drag round: the list is displayed, a drop of the record
      shown at index `a` onto the one shown at `o` builds the patches, the
      store applies them to its own (unsorted) list. The new display order is
      the old one with one record moved, and the store stays consistent. */
  lemma ReorderFromStore(raw: seq<Project>, a: nat, o: nat)
    requires a < |raw| && o < |raw| && a != o && Consistent(raw)
    ensures var shown := DisplayOrder(raw);
            var after := ApplyEdits(raw, ReorderPatches(shown, a, o));
            Ids(DisplayOrder(after)) == Move(Ids(shown), a, o) && Consistent(after)
  {
    var shown := DisplayOrder(raw);
    StoreSortsIntoPlace(raw, a, o);
    ShownIncreasing(raw);
    ReorderSortsIntoPlace(shown, a, o);
    ReorderKeepsConsistent(raw, a, o);
  }

  /** Why the reorder theorems need distinct weights: three records tied at
      a positive weight `w` are shown in store order; dragging the one shown
      at index 1 onto index 0 sends `[b -> w, a -> w + 1]`, after which `b`
      and `c` still tie and `a` is shown last, not second. */
  lemma TiedWeightsMisplace(pa: Project, pb: Project, pc: Project, w: int)
    requires w > 0 && pa.weight == Some(w) && pb.weight == Some(w) && pc.weight == Some(w)
    requires pa.id != pb.id && pa.id != pc.id && pb.id != pc.id
    ensures var shown := DisplayOrder([pa, pb, pc]);
            var after := ApplyEdits([pa, pb, pc], ReorderPatches(shown, 1, 0));
            Ids(DisplayOrder(after)) == [pb.id, pc.id, pa.id] &&
            Move(Ids(shown), 1, 0) == [pb.id, pa.id, pc.id] &&
            Ids(DisplayOrder(after)) != Move(Ids(shown), 1, 0)
  {
    var raw := [pa, pb, pc];
    TiedShown(pa, pb, pc, w);
    TiedPatches(pa, pb, pc, w);
    TiedApplied(pa, pb, pc, w);
    var moved := pa.(weight := Some(w + 1));
    TiedResorted(moved, pb, pc, w);
    IdsOfThree(pb, pc, moved);
    IdsOfThree(pa, pb, pc);
    MoveSecondToFront(pa.id, pb.id, pc.id);
    assert [pb.id, pc.id, pa.id][1] != [pb.id, pa.id, pc.id][1];
  }

  lemma IdsOfThree(pa: Project, pb: Project, pc: Project)
    ensures Ids([pa, pb, pc]) == [pa.id, pb.id, pc.id]
  {
  }

  lemma MoveSecondToFront<T>(x: T, y: T, z: T)
    ensures Move([x, y, z], 1, 0) == [y, x, z]
  {
    var s := [x, y, z];
    assert s[..0] == [] && s[0..1] == [x] && s[2..] == [z];
  }

  /** Records of one truthy weight are shown in store order. */
  lemma TiedShown(pa: Project, pb: Project, pc: Project, w: int)
    requires w != 0 && pa.weight == Some(w) && pb.weight == Some(w) && pc.weight == Some(w)
    ensures DisplayOrder([pa, pb, pc]) == [pa, pb, pc]
  {
    var t := [pa, pb, pc];
    assert t[1..] == [pb, pc];
    TiedPair(pb, pc, w);
    assert Order(Ascending, pa, pb) == 0;
    assert Insert(pa, [pb, pc], Ascending) == [pa] + [pb, pc];
  }

  lemma TiedPatches(pa: Project, pb: Project, pc: Project, w: int)
    requires w != 0 && pa.weight == Some(w) && pb.weight == Some(w)
    ensures ReorderPatches([pa, pb, pc], 1, 0) ==
            [WeightPatch(pb.id, Some(w)), WeightPatch(pa.id, Some(w + 1))]
  {
    var t := [pa, pb, pc];
    assert UpShifts(t, 0, 1) == [WeightPatch(pa.id, Some(w + 1))];
  }

  lemma TiedApplied(pa: Project, pb: Project, pc: Project, w: int)
    requires pb.weight == Some(w)
    requires pa.id != pb.id && pa.id != pc.id && pb.id != pc.id
    ensures ApplyEdits([pa, pb, pc], [WeightPatch(pb.id, Some(w)), WeightPatch(pa.id, Some(w + 1))]) ==
            [pa.(weight := Some(w + 1)), pb, pc]
  {
    var t := [pa, pb, pc];
    var es := [WeightPatch(pb.id, Some(w)), WeightPatch(pa.id, Some(w + 1))];
    assert es[..1] == [es[0]] && [es[0]][..0] == [];
    assert IndexOf(t, pb.id) == 1 by {
      assert t[1..] == [pb, pc];
    }
    assert Merge(pb, es[0]) == pb;
    assert ApplyEdits(t, [es[0]]) == t;
    assert IndexOf(t, pa.id) == 0;
  }

  /** With `a` one above the tie of `b` and `c`, the display puts it last. */
  lemma TiedResorted(pa: Project, pb: Project, pc: Project, w: int)
    requires w > 0 && pa.weight == Some(w + 1) && pb.weight == Some(w) && pc.weight == Some(w)
    ensures DisplayOrder([pa, pb, pc]) == [pb, pc, pa]
  {
    var t := [pa, pb, pc];
    assert t[1..] == [pb, pc];
    TiedPair(pb, pc, w);
    InsertAboveTie(pa, pb, pc, w);
  }

  lemma TiedPair(pb: Project, pc: Project, w: int)
    requires w != 0 && pb.weight == Some(w) && pc.weight == Some(w)
    ensures Sort([pb, pc], Ascending) == [pb, pc]
  {
    assert [pb, pc][1..] == [pc] && [pc][1..] == [];
    assert Sort([pc], Ascending) == [pc];
  }

  lemma InsertAboveTie(pa: Project, pb: Project, pc: Project, w: int)
    requires w > 0 && pa.weight == Some(w + 1) && pb.weight == Some(w) && pc.weight == Some(w)
    ensures Insert(pa, [pb, pc], Ascending) == [pb, pc, pa]
  {
    assert [pb, pc][1..] == [pc] && [pc][1..] == [];
    assert Insert(pa, [pc], Ascending) == [pc, pa];
  }

  lemma ReorderKeepsConsistent(raw: seq<Project>, a: nat, o: nat)
    requires a < |raw| && o < |raw| && a != o && Consistent(raw)
    ensures Consistent(ApplyEdits(raw, ReorderPatches(DisplayOrder(raw), a, o)))
  {
    var shown := DisplayOrder(raw);
    var es := ReorderPatches(shown, a, o);
    var after := ApplyEdits(raw, es);
    var m := Move(ApplyEdits(shown, es), a, o);
    StoreSortsIntoPlace(raw, a, o);
    ShownIncreasing(raw);
    MovedIncreasing(shown, a, o);
    ApplyEditsPermutation(raw, shown, es);
    MovePermutes(ApplyEdits(shown, es), a, o);
    assert multiset(after) == multiset(m);
    ApplyEditsKeepsUniqueIds(raw, es);
    SeparatedPermutation(after, m);
    assert DistinctWeights(m);
    SeparatedPermutation(m, after);
  }

  /** Moving a record and then moving it straight back, using the new
      positions, restores the original display order. */
  lemma ReorderThereAndBack(raw: seq<Project>, a: nat, o: nat)
    requires a < |raw| && o < |raw| && a != o && Consistent(raw)
    ensures var after := ApplyEdits(raw, ReorderPatches(DisplayOrder(raw), a, o));
            var back := ApplyEdits(after, ReorderPatches(DisplayOrder(after), o, a));
            Ids(DisplayOrder(back)) == Ids(DisplayOrder(raw))
  {
    var after := ApplyEdits(raw, ReorderPatches(DisplayOrder(raw), a, o));
    ReorderFromStore(raw, a, o);
    assert |after| == |raw|;
    ReorderFromStore(after, o, a);
    MoveInverse(Ids(DisplayOrder(raw)), a, o);
  }

  /** A drop named by ids, as `handleDragEnd` receives it: the two ids are
      looked up in the shown list, the patches are built at those indices
      and the store applies them to its own list. The dragged record is then
      shown at the index the record it was dropped on had, the other shown
      ids shift by one place, and the store stays consistent. */
  lemma DragRound(raw: seq<Project>, x: Id, y: Id)
    requires Consistent(raw) && x != y
    requires IndexOf(DisplayOrder(raw), x) >= 0 && IndexOf(DisplayOrder(raw), y) >= 0
    ensures var shown := DisplayOrder(raw);
            var a := IndexOf(shown, x);
            var o := IndexOf(shown, y);
            var after := ApplyEdits(raw, ReorderPatches(shown, a, o));
            Ids(DisplayOrder(after)) == Move(Ids(shown), a, o) && Consistent(after) &&
            IndexOf(DisplayOrder(after), x) == o
  {
    var shown := DisplayOrder(raw);
    var a := IndexOf(shown, x);
    var o := IndexOf(shown, y);
    var after := ApplyEdits(raw, ReorderPatches(shown, a, o));
    ReorderFromStore(raw, a, o);
    ShownIncreasing(after);
    LandsAtTarget(DisplayOrder(after), Ids(shown), a, o);
  }

  /** In a list of distinct ids laid out as `Move(ids, a, o)`, the id that
      was at `a` is found at `o`. */
  lemma LandsAtTarget(d: seq<Project>, ids: seq<Id>, a: nat, o: nat)
    requires a < |ids| && o < |ids| && UniqueIds(d) && Ids(d) == Move(ids, a, o)
    ensures IndexOf(d, ids[a]) == o
  {
    MoveLandsAtTarget(ids, a, o);
    assert d[o].id == ids[a];
    IndexOfUnique(d, o);
  }

  /** A drop on the screen, dispatched into the store: `handleDragEnd` on
      the shown list, then the store runs the command it returns. */
  method DropOnStore(store: ProjectStore, active: Option<Id>, over: Option<Id>)
    requires Consistent(store.projects)
    requires DropOnList(DisplayOrder(store.projects), active, over)
    modifies store
    ensures Consistent(store.projects)
    ensures !(active.Some? && over.Some? && active.value != over.value) ==>
              store.projects == old(store.projects) && store.status == old(store.status)
    ensures active.Some? && over.Some? && active.value != over.value ==>
              var shown := DisplayOrder(old(store.projects));
              store.status == Loading &&
              Ids(DisplayOrder(store.projects)) ==
                Move(Ids(shown), IndexOf(shown, active.value), IndexOf(shown, over.value)) &&
              IndexOf(DisplayOrder(store.projects), active.value) == IndexOf(shown, over.value)
  {
    var shown := DisplayOrder(store.projects);
    var dispatched := HandleDragEnd(shown, active, over);
    if dispatched.Some? {
      DragRound(store.projects, active.value, over.value);
      // a batch edit uses neither the fresh id nor the clock
      store.Run(dispatched.value, "", 0);
    }
  }

  // ---------------------------------------------------------------------
  // Delete confirmation (src/App.tsx:93-110)
  // ---------------------------------------------------------------------

  /** The screen's `pendingDelete` state: the id waiting for the user to
      confirm its deletion, or none. The modal is open while it is set. */
  class DeleteGate {
    var pendingDelete: Option<Id>

    constructor ()
      ensures pendingDelete == None && !ModalOpen()
    {
      pendingDelete := None;
    }

    /** `open={pendingDelete !== null}`: the dialog shows while an id waits
        for confirmation. */
    function ModalOpen(): (open: bool)
      reads this
      ensures open <==> pendingDelete != None
    {
      pendingDelete.Some?
    }

    /** `setDeleteConfirm`: an immediate request is dispatched at once; any
        other only records the id and opens the modal. */
    method SetDeleteConfirm(id: Id, immediate: bool) returns (dispatched: Option<Command>)
      modifies this
      ensures immediate ==> dispatched == Some(Delete(id)) && pendingDelete == old(pendingDelete)
      ensures !immediate ==> dispatched == None && pendingDelete == Some(id) && ModalOpen()
    {
      dispatched := None;
      if immediate {
        dispatched := Some(Delete(id));
      } else {
        pendingDelete := Some(id);
      }
    }

    /** `clearDeleteConfirm`, the modal's cancel: nothing is deleted. */
    method ClearDeleteConfirm()
      modifies this
      ensures pendingDelete == None && !ModalOpen()
    {
      pendingDelete := None;
    }

    /** `deleteProject`, the modal's OK: the pending id, when truthy, is
        dispatched and cleared; an empty pending id stays as it is. */
    method DeleteProject() returns (dispatched: Option<Command>)
      modifies this
      ensures TruthyName(old(pendingDelete)) ==>
                dispatched == Some(Delete(old(pendingDelete).value)) && pendingDelete == None && !ModalOpen()
      ensures !TruthyName(old(pendingDelete)) ==>
                dispatched == None && pendingDelete == old(pendingDelete)
    {
      dispatched := None;
      if TruthyName(pendingDelete) {
        dispatched := Some(Delete(pendingDelete.value));
        pendingDelete := None;
      }
    }
  }
}
