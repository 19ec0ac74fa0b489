/** The project store (src/store.ts): the list of records and the status
    flag, the payloads the four commands derive, and the reducer cases that
    apply each command's pending, fulfilled and rejected events. */
module Store {
  import opened Records
  import opened Sorting

  /** The four async commands, with the argument each is dispatched with:
      `addProjectAsync`, `deleteProjectAsync`, `editProjectAsync` and
      `editProjectsAsync`. */
  datatype Command =
    | Add(name: Option<string>)
    | Delete(id: Id)
    | Edit(project: Patch)
    | EditMany(projects: seq<Patch>)

  // ---------------------------------------------------------------------
  // Specification functions for the reducer cases
  // ---------------------------------------------------------------------

  /** `findIndex(p => p.id === id)`: the first index carrying `id`, or -1. */
  function IndexOf(ps: seq<Project>, id: Id): (i: int)
    ensures -1 <= i < |ps|
    ensures i == -1 <==> forall k :: 0 <= k < |ps| ==> ps[k].id != id
    ensures 0 <= i ==> ps[i].id == id && forall k :: 0 <= k < i ==> ps[k].id != id
  {
    if ps == [] then -1
    else if ps[0].id == id then 0
    else
      var j := IndexOf(ps[1..], id);
      if j == -1 then -1 else j + 1
  }

  /** On distinct ids, `findIndex` of the id at index `j` is `j`. */
  lemma IndexOfUnique(ps: seq<Project>, j: nat)
    requires UniqueIds(ps) && j < |ps|
    ensures IndexOf(ps, ps[j].id) == j
  {
  }

  /** `projects.filter(p => p.id !== id)` */
  function Without(ps: seq<Project>, id: Id): (r: seq<Project>)
    ensures |r| <= |ps|
  {
    if ps == [] then []
    else (if ps[0].id != id then [ps[0]] else []) + Without(ps[1..], id)
  }

  /** One edit: merge the patch into the first record with its id. */
  function EditFirst(ps: seq<Project>, patch: Patch): (r: seq<Project>)
    ensures |r| == |ps|
    ensures Ids(r) == Ids(ps)
    ensures IndexOf(ps, patch.id) == -1 ==> r == ps
    ensures 0 <= IndexOf(ps, patch.id) ==>
              r[IndexOf(ps, patch.id)] == Merge(ps[IndexOf(ps, patch.id)], patch)
    ensures forall i :: 0 <= i < |ps| && i != IndexOf(ps, patch.id) ==> r[i] == ps[i]
  {
    var k := IndexOf(ps, patch.id);
    if k < 0 then ps else ps[k := Merge(ps[k], patch)]
  }

  /** A batch edit: the patches applied one after another, left to right. */
  function ApplyEdits(ps: seq<Project>, es: seq<Patch>): (r: seq<Project>)
    ensures |r| == |ps|
    ensures Ids(r) == Ids(ps)
    decreases |es|
  {
    if es == [] then ps
    else EditFirst(ApplyEdits(ps, es[..|es| - 1]), es[|es| - 1])
  }

  lemma ApplyEditsSnoc(ps: seq<Project>, es: seq<Patch>, i: nat)
    requires i < |es|
    ensures ApplyEdits(ps, es[..i + 1]) == EditFirst(ApplyEdits(ps, es[..i]), es[i])
  {
    assert es[..i + 1][..i] == es[..i];
  }

  /** What a batch of patches does to one record, taken on its own: those
      patches carrying its id, merged in the order given. */
  function Patched(p: Project, es: seq<Patch>): (r: Project)
    ensures r.id == p.id
    ensures (forall k :: 0 <= k < |es| ==> es[k].id != p.id) ==> r == p
    decreases |es|
  {
    if es == [] then p
    else
      var q := Patched(p, es[..|es| - 1]);
      var e := es[|es| - 1];
      if e.id == p.id then Merge(q, e) else q
  }

  /** The create command's payload (src/store.ts:39-46); the fresh id and
      the current time are parameters. */
  function CreatePayload(name: Option<string>, uuid: Id, now: int): (p: Project)
    ensures p.id == uuid && p.dateCreated == Some(now) && p.weight == None
    ensures p.name.Some? <==> TruthyName(name)
    ensures p.name.Some? ==> p.name == name
  {
    Project(uuid, if TruthyName(name) then name else None, Some(now), None)
  }

  /** The weight given to a created record: one more than the weight of the
      record the descending sort puts first, or 1. */
  function CreateWeight(ps: seq<Project>): (w: int)
    ensures ps == [] ==> w == 1
  {
    if |ps| == 0 then 1
    else
      var top := Sort(ps, Descending)[0];
      if TruthyWeight(top.weight) then top.weight.value + 1 else 1
  }

  /** The created record as pushed: the payload with its computed weight. */
  function Created(ps: seq<Project>, payload: Project): (p: Project)
    ensures p.id == payload.id && p.name == payload.name
    ensures p.dateCreated == payload.dateCreated
    ensures p.weight == Some(CreateWeight(ps))
  {
    payload.(weight := Some(CreateWeight(ps)))
  }

  /** The store's records keep distinct ids and distinct positive weights:
      the state in which the display order is a strict order. */
  ghost predicate Consistent(raw: seq<Project>) {
    UniqueIds(raw) && DistinctWeights(raw) && Positive(raw)
  }

  // ---------------------------------------------------------------------
  // The store
  // ---------------------------------------------------------------------

  class ProjectStore {
    var projects: seq<Project>
    var status: Status

    /** `initialState` */
    constructor ()
      ensures projects == [] && status == Idle
    {
      projects := [];
      status := Idle;
    }

    method AddPending()
      modifies this
      ensures status == Loading && projects == old(projects)
    {
      status := Loading;
    }

    method AddFulfilled(payload: Project)
      modifies this
      ensures status == Idle
      ensures projects == old(projects) + [Created(old(projects), payload)]
    {
      status := Idle;
      var weight := 1;
      if |projects| > 0 {
        var sorted := Sort(projects, Descending);
        weight := if TruthyWeight(sorted[0].weight) then sorted[0].weight.value + 1 else 1;
      }
      projects := projects + [payload.(weight := Some(weight))];
    }

    method AddRejected()
      modifies this
      ensures status == Idle && projects == old(projects)
    {
      status := Idle;
    }

    method DeletePending()
      modifies this
      ensures status == Loading && projects == old(projects)
    {
      status := Loading;
    }

    /** Leaves `status` as it was: the source does not reset it here. */
    method DeleteFulfilled(id: Id)
      modifies this
      ensures status == old(status)
      ensures projects == Without(old(projects), id)
    {
      projects := Without(projects, id);
    }

    method DeleteRejected()
      modifies this
      ensures status == Idle && projects == old(projects)
    {
      status := Idle;
    }

    method EditPending()
      modifies this
      ensures status == Loading && projects == old(projects)
    {
      status := Loading;
    }

    /** Leaves `status` as it was: the source does not reset it here. */
    method EditFulfilled(patch: Patch)
      modifies this
      ensures status == old(status)
      ensures projects == EditFirst(old(projects), patch)
    {
      var idx := IndexOf(projects, patch.id);
      if idx >= 0 {
        projects := projects[idx := Merge(projects[idx], patch)];
      }
    }

    method EditRejected()
      modifies this
      ensures status == Idle && projects == old(projects)
    {
      status := Idle;
    }

    method EditManyPending()
      modifies this
      ensures status == Loading && projects == old(projects)
    {
      status := Loading;
    }

    /** Leaves `status` as it was: the source does not reset it here. */
    method EditManyFulfilled(patches: seq<Patch>)
      modifies this
      ensures status == old(status)
      ensures projects == ApplyEdits(old(projects), patches)
    {
      var i := 0;
      while i < |patches|
        invariant 0 <= i <= |patches|
        invariant status == old(status)
        invariant projects == ApplyEdits(old(projects), patches[..i])
      {
        ApplyEditsSnoc(old(projects), patches, i);
        var payload := patches[i];
        var idx := IndexOf(projects, payload.id);
        if idx >= 0 {
          projects := projects[idx := Merge(projects[idx], payload)];
        }
        i := i + 1;
      }
      assert patches[..i] == patches;
    }

    method EditManyRejected()
      modifies this
      ensures status == Idle && projects == old(projects)
    {
      status := Idle;
    }

    /** Dispatching a command: its pending event, then (the payload
        creators cannot fail) its fulfilled event. Only create returns the
        status to IDLE. */
    method Run(cmd: Command, uuid: Id, now: int)
      modifies this
      ensures cmd.Add? ==>
                (status == Idle &&
                 projects == old(projects) + [Created(old(projects), CreatePayload(cmd.name, uuid, now))])
      ensures cmd.Delete? ==> status == Loading && projects == Without(old(projects), cmd.id)
      ensures cmd.Edit? ==> status == Loading && projects == EditFirst(old(projects), cmd.project)
      ensures cmd.EditMany? ==> status == Loading && projects == ApplyEdits(old(projects), cmd.projects)
    {
      match cmd
      case Add(name) =>
        AddPending();
        AddFulfilled(CreatePayload(name, uuid, now));
      case Delete(id) =>
        DeletePending();
        DeleteFulfilled(id);
      case Edit(patch) =>
        EditPending();
        EditFulfilled(patch);
      case EditMany(patches) =>
        EditManyPending();
        EditManyFulfilled(patches);
    }
  }

  // ---------------------------------------------------------------------
  // Properties
  // ---------------------------------------------------------------------

  /** Delete keeps the surviving records in their original relative order:
      filtering distributes over concatenation. */
  lemma {:induction false} WithoutAppend(a: seq<Project>, b: seq<Project>, id: Id)
    ensures Without(a + b, id) == Without(a, id) + Without(b, id)
  {
    if a != [] {
      WithoutAppend(a[1..], b, id);
      WithoutAppendStep(a, b, id);
    } else {
      assert a + b == b;
    }
  }

  /** The inductive step of `WithoutAppend`, from its tail. */
  lemma WithoutAppendStep(a: seq<Project>, b: seq<Project>, id: Id)
    requires a != []
    requires Without(a[1..] + b, id) == Without(a[1..], id) + Without(b, id)
    ensures Without(a + b, id) == Without(a, id) + Without(b, id)
  {
    var t := a[1..];
    var head := if a[0].id != id then [a[0]] else [];
    assert a + b == [a[0]] + (t + b);
    WithoutCons(a[0], t + b, id);
    SeqAssoc(head, Without(t, id), Without(b, id));
    assert a == [a[0]] + t;
    WithoutCons(a[0], t, id);
  }

  lemma SeqAssoc(x: seq<Project>, y: seq<Project>, z: seq<Project>)
    ensures x + (y + z) == (x + y) + z
  {
  }

  lemma WithoutCons(p: Project, s: seq<Project>, id: Id)
    ensures Without([p] + s, id) == (if p.id != id then [p] else []) + Without(s, id)
  {
    assert ([p] + s)[1..] == s;
  }

  /** Deleting an id no record has leaves the list as it is. */
  lemma {:induction false} WithoutNoMatch(ps: seq<Project>, id: Id)
    requires forall k :: 0 <= k < |ps| ==> ps[k].id != id
    ensures Without(ps, id) == ps
  {
    if ps != [] {
      WithoutNoMatch(ps[1..], id);
      assert ps == [ps[0]] + ps[1..];
    }
  }

  /** Delete removes every record with the id and keeps every other one. */
  lemma {:induction false} WithoutMembers(ps: seq<Project>, id: Id)
    ensures forall p :: p in Without(ps, id) <==> p in ps && p.id != id
  {
    if ps != [] {
      WithoutMembers(ps[1..], id);
      assert ps == [ps[0]] + ps[1..];
    }
  }

  /** With distinct ids, delete takes out exactly the one record. */
  lemma {:induction false} WithoutUnique(ps: seq<Project>, i: nat)
    requires UniqueIds(ps) && i < |ps|
    ensures Without(ps, ps[i].id) == ps[..i] + ps[i + 1..]
  {
    var id, tail := ps[i].id, ps[1..];
    if i == 0 {
      WithoutFirst(ps);
    } else {
      UniqueIdsTail(ps);
      assert tail[i - 1] == ps[i];
      WithoutUnique(tail, i - 1);
      var rest := tail[..i - 1] + tail[i..];
      assert ps[0].id != id;
      assert Without(ps, id) == [ps[0]] + rest;
      ConsSplit(ps, i);
    }
  }

  lemma ConsSplit(ps: seq<Project>, i: nat)
    requires 0 < i < |ps|
    ensures [ps[0]] + (ps[1..][..i - 1] + ps[1..][i..]) == ps[..i] + ps[i + 1..]
  {
    assert [ps[0]] + ps[1..][..i - 1] == ps[..i];
    assert ps[1..][i..] == ps[i + 1..];
  }

  lemma WithoutFirst(ps: seq<Project>)
    requires UniqueIds(ps) && ps != []
    ensures Without(ps, ps[0].id) == ps[1..]
  {
    var id, tail := ps[0].id, ps[1..];
    forall k | 0 <= k < |tail| ensures tail[k].id != id {
      assert tail[k] == ps[k + 1];
    }
    WithoutNoMatch(tail, id);
  }

  lemma UniqueIdsTail(ps: seq<Project>)
    requires UniqueIds(ps) && ps != []
    ensures UniqueIds(ps[1..])
  {
    var tail := ps[1..];
    forall k, l | 0 <= k < l < |tail| ensures tail[k].id != tail[l].id {
      assert tail[k] == ps[k + 1] && tail[l] == ps[l + 1];
    }
  }

  /** Create on a non-empty list of truthy weights: the new weight is the
      maximum weight plus one. */
  lemma CreateWeightIsMaxPlusOne(ps: seq<Project>)
    requires AllWeighted(ps) && ps != []
    ensures forall i :: 0 <= i < |ps| ==> ps[i].weight.value < CreateWeight(ps)
    ensures exists i :: 0 <= i < |ps| && ps[i].weight.value + 1 == CreateWeight(ps)
  {
    SortDescendingHeadIsMax(ps);
    var top := Sort(ps, Descending)[0];
    assert top in multiset(ps);
    var i :| 0 <= i < |ps| && ps[i] == top;
  }

  /** Create on a list where no weight is truthy gives weight 1. */
  lemma CreateWeightUnweighted(ps: seq<Project>)
    requires forall i :: 0 <= i < |ps| ==> !TruthyWeight(ps[i].weight)
    ensures CreateWeight(ps) == 1
  {
    if ps != [] {
      var top := Sort(ps, Descending)[0];
      assert top in multiset(ps);
      var i :| 0 <= i < |ps| && ps[i] == top;
    }
  }

  /** A batch edit on records with distinct ids acts record by record. */
  lemma {:induction false} ApplyEditsPointwise(ps: seq<Project>, es: seq<Patch>)
    requires UniqueIds(ps)
    ensures forall i :: 0 <= i < |ps| ==> ApplyEdits(ps, es)[i] == Patched(ps[i], es)
    decreases |es|
  {
    if es != [] {
      var init, e := es[..|es| - 1], es[|es| - 1];
      ApplyEditsPointwise(ps, init);
      var a := ApplyEdits(ps, init);
      assert Ids(a) == Ids(ps);
      var k := IndexOf(a, e.id);
      forall i | 0 <= i < |ps| ensures ApplyEdits(ps, es)[i] == Patched(ps[i], es) {
        assert a[i].id == Ids(a)[i] == Ids(ps)[i] == ps[i].id;
        if k >= 0 && i != k {
          assert a[k].id == Ids(a)[k] == Ids(ps)[k] == ps[k].id;
        }
      }
    }
  }

  /** A record matched by exactly one patch of a batch gets that patch merged. */
  lemma {:induction false} PatchedSingle(p: Project, es: seq<Patch>, k: nat)
    requires k < |es| && es[k].id == p.id
    requires forall j :: 0 <= j < |es| && j != k ==> es[j].id != p.id
    ensures Patched(p, es) == Merge(p, es[k])
    decreases |es|
  {
    var init := es[..|es| - 1];
    if k < |es| - 1 {
      PatchedSingle(p, init, k);
    } else {
      assert forall j :: 0 <= j < |init| ==> init[j].id != p.id;
    }
  }

  /** Batch edit, left to right: the weight a record ends up with is the
      one its LAST weight-carrying patch puts there. */
  lemma {:induction false} PatchedLastWeightWins(p: Project, es: seq<Patch>, k: nat)
    requires k < |es| && es[k].id == p.id && es[k].weight.Put?
    requires forall j :: k < j < |es| && es[j].id == p.id ==> es[j].weight.Keep?
    ensures Patched(p, es).weight == es[k].weight.value
    decreases |es|
  {
    if k < |es| - 1 {
      PatchedLastWeightWins(p, es[..|es| - 1], k);
    }
  }

  /** Batch edit on records with distinct ids: patches for ids that are not
      in the list are skipped, and the last weight patch for an id wins. */
  lemma ApplyEditsLastWeightWins(ps: seq<Project>, es: seq<Patch>, i: nat, k: nat)
    requires UniqueIds(ps) && i < |ps|
    requires k < |es| && es[k].id == ps[i].id && es[k].weight.Put?
    requires forall j :: k < j < |es| && es[j].id == ps[i].id ==> es[j].weight.Keep?
    ensures ApplyEdits(ps, es)[i].weight == es[k].weight.value
  {
    ApplyEditsPointwise(ps, es);
    PatchedLastWeightWins(ps[i], es, k);
  }

  /** Records no patch names come out of a batch edit unchanged. */
  lemma ApplyEditsUntouched(ps: seq<Project>, es: seq<Patch>, i: nat)
    requires UniqueIds(ps) && i < |ps|
    requires forall k :: 0 <= k < |es| ==> es[k].id != ps[i].id
    ensures ApplyEdits(ps, es)[i] == ps[i]
  {
    ApplyEditsPointwise(ps, es);
  }

  /** Every record of `s` run through the batch on its own. */
  function PatchAll(s: seq<Project>, es: seq<Patch>): (r: seq<Project>)
    ensures |r| == |s|
  {
    seq(|s|, i requires 0 <= i < |s| => Patched(s[i], es))
  }

  lemma PatchAllAppend(u: seq<Project>, v: seq<Project>, es: seq<Patch>)
    ensures PatchAll(u + v, es) == PatchAll(u, es) + PatchAll(v, es)
  {
  }

  /** Running the records through a batch one by one commutes with
      reordering them. */
  lemma {:induction false} PatchAllPermutation(s: seq<Project>, t: seq<Project>, es: seq<Patch>)
    requires multiset(s) == multiset(t)
    ensures multiset(PatchAll(s, es)) == multiset(PatchAll(t, es))
    decreases |s|
  {
    if s == [] {
      assert |multiset(t)| == 0;
    } else {
      var j := IndexIn(t, s[0]);
      var s1, t1 := s[1..], t[..j] + t[j + 1..];
      PatchAllRemove(t, j, es);
      PatchAllCons(s, es);
      PatchAllPermutation(s1, t1, es);
    }
  }

  lemma PatchAllCons(s: seq<Project>, es: seq<Patch>)
    requires s != []
    ensures multiset(s[1..]) == multiset(s) - multiset{s[0]}
    ensures multiset(PatchAll(s, es)) == multiset(PatchAll(s[1..], es)) + multiset{Patched(s[0], es)}
  {
    assert s == [s[0]] + s[1..];
    PatchAllAppend([s[0]], s[1..], es);
    assert PatchAll([s[0]], es) == [Patched(s[0], es)];
  }

  /** Taking one record out of a list takes its patched form out of the
      patched list. */
  lemma PatchAllRemove(t: seq<Project>, j: nat, es: seq<Patch>)
    requires j < |t|
    ensures multiset(t[..j] + t[j + 1..]) == multiset(t) - multiset{t[j]}
    ensures multiset(PatchAll(t, es)) ==
            multiset(PatchAll(t[..j] + t[j + 1..], es)) + multiset{Patched(t[j], es)}
  {
    var x, y := t[..j], t[j + 1..];
    assert t == x + [t[j]] + y;
    PatchAllAppend(x + [t[j]], y, es);
    PatchAllAppend(x, [t[j]], es);
    PatchAllAppend(x, y, es);
    assert PatchAll([t[j]], es) == [Patched(t[j], es)];
  }

  /** A batch edit on a permutation of a list of distinct ids yields a
      permutation of the edited list. */
  lemma ApplyEditsPermutation(s: seq<Project>, t: seq<Project>, es: seq<Patch>)
    requires multiset(s) == multiset(t) && UniqueIds(s)
    ensures multiset(ApplyEdits(s, es)) == multiset(ApplyEdits(t, es))
  {
    SeparatedPermutation(s, t);
    ApplyEditsPointwise(s, es);
    ApplyEditsPointwise(t, es);
    assert ApplyEdits(s, es) == PatchAll(s, es);
    assert ApplyEdits(t, es) == PatchAll(t, es);
    PatchAllPermutation(s, t, es);
  }

  /** Create keeps the store consistent when the new id is fresh: the new
      weight is above every existing one. */
  lemma CreateKeepsConsistent(raw: seq<Project>, payload: Project)
    requires Consistent(raw)
    requires forall i :: 0 <= i < |raw| ==> raw[i].id != payload.id
    ensures Consistent(raw + [Created(raw, payload)])
  {
    var w := CreateWeight(raw);
    if raw != [] {
      PositiveWeighted(raw);
      CreateWeightIsMaxPlusOne(raw);
      assert raw[0].weight.value < w;
    }
    var r := raw + [Created(raw, payload)];
    forall i, j | 0 <= i < j < |r| ensures r[i].id != r[j].id && r[i].weight != r[j].weight {
      if j == |raw| {
        assert r[i] == raw[i];
      }
    }
  }

  lemma {:induction false} WithoutSubMultiset(ps: seq<Project>, id: Id)
    ensures multiset(Without(ps, id)) <= multiset(ps)
  {
    if ps != [] {
      var r := Without(ps[1..], id);
      WithoutSubMultiset(ps[1..], id);
      MultisetCons(ps);
      if ps[0].id != id {
        assert multiset(Without(ps, id)) == multiset{ps[0]} + multiset(r);
      } else {
        assert Without(ps, id) == [] + r;
      }
    }
  }

  lemma MultisetCons(s: seq<Project>)
    requires s != []
    ensures multiset(s) == multiset{s[0]} + multiset(s[1..])
  {
    assert s == [s[0]] + s[1..];
  }

  /** Delete keeps the store consistent. */
  lemma DeleteKeepsConsistent(raw: seq<Project>, id: Id)
    requires Consistent(raw)
    ensures Consistent(Without(raw, id))
  {
    WithoutSubMultiset(raw, id);
    SeparatedPermutation(raw, Without(raw, id));
  }

  /** An edit that carries no weight keeps the store consistent. */
  lemma EditKeepsConsistent(raw: seq<Project>, patch: Patch)
    requires Consistent(raw) && patch.weight.Keep?
    ensures Consistent(EditFirst(raw, patch))
  {
    var r := EditFirst(raw, patch);
    forall i | 0 <= i < |r| ensures r[i].id == raw[i].id && r[i].weight == raw[i].weight {
      assert r[i].id == Ids(r)[i];
    }
  }

  /** Edits never change ids, so distinct ids stay distinct. */
  lemma ApplyEditsKeepsUniqueIds(ps: seq<Project>, es: seq<Patch>)
    requires UniqueIds(ps)
    ensures UniqueIds(ApplyEdits(ps, es))
  {
    var r := ApplyEdits(ps, es);
    forall i, j | 0 <= i < j < |r| ensures r[i].id != r[j].id {
      assert r[i].id == Ids(r)[i] && r[j].id == Ids(r)[j];
    }
  }
}
