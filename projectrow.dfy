/** One row of the list (src/ProjectRow.tsx): the rename routing, the
    delete icon, and the row's `editing` flag. */
module ProjectRow {
  import opened Records
  import opened Store

  /** A call of the screen's `setDeleteConfirm(id, immediate)`. */
  datatype DeleteRequest = DeleteRequest(id: Id, immediate: bool)

  /** What a finished rename leads to. */
  datatype RenameOutcome =
    | RequestDelete(request: DeleteRequest)
    | NoChange
    | Dispatch(command: Command)

  /** A row: its record and whether its name is being edited. */
  datatype Row = Row(project: Project, editing: bool)

  /** `useState(!project.name)`: a row starts in editing mode exactly when
      its record has no name. */
  function Mount(p: Project): (r: Row)
    ensures r.project == p
    ensures r.editing <==> !TruthyName(p.name)
  {
    Row(p, !TruthyName(p.name))
  }

  /** `changeName(name)`: editing ends; an empty name on a nameless record
      asks for an immediate delete, an empty name on a named record does
      nothing, and any other name dispatches one edit of `{id, name}`. */
  function ChangeName(row: Row, name: string): (r: (Row, RenameOutcome))
    ensures r.0 == row.(editing := false)
    ensures name == "" && !TruthyName(row.project.name) ==>
              r.1 == RequestDelete(DeleteRequest(row.project.id, true))
    ensures name == "" && TruthyName(row.project.name) ==> r.1 == NoChange
    ensures name != "" ==>
              r.1 == Dispatch(Edit(Patch(row.project.id, Put(Some(name)), Keep, Keep)))
  {
    var done := row.(editing := false);
    if name == "" && !TruthyName(row.project.name) then
      (done, RequestDelete(DeleteRequest(row.project.id, true)))
    else if name == "" then
      (done, NoChange)
    else
      (done, Dispatch(Edit(Patch(row.project.id, Put(Some(name)), Keep, Keep))))
  }

  /** `startEdit`: the row enters editing mode; its record is untouched. */
  function StartEdit(row: Row): (r: Row)
    ensures r.editing && r.project == row.project
  {
    row.(editing := true)
  }

  /** The delete icon's click handler: the element's `data-id`, when
      present and non-empty, is passed on as a request that waits for
      confirmation. */
  function DeleteClicked(dataId: Option<string>): (r: Option<DeleteRequest>)
    ensures r.Some? <==> TruthyName(dataId)
    ensures r.Some? ==> r.value == DeleteRequest(dataId.value, false)
  {
    if TruthyName(dataId) then Some(DeleteRequest(dataId.value, false)) else None
  }

  /** A rename with a non-empty name, applied by the store, sets that name
      on that record and changes nothing else. */
  lemma RenameSetsName(ps: seq<Project>, i: nat, name: string)
    requires UniqueIds(ps) && i < |ps| && name != ""
    ensures ChangeName(Mount(ps[i]), name).1.Dispatch?
    ensures var patch := ChangeName(Mount(ps[i]), name).1.command.project;
            var r := EditFirst(ps, patch);
            r[i] == ps[i].(name := Some(name)) &&
            forall j :: 0 <= j < |ps| && j != i ==> r[j] == ps[j]
  {
    var patch := ChangeName(Mount(ps[i]), name).1.command.project;
    assert IndexOf(ps, patch.id) == i;
  }

  /** Clearing the name of a nameless record deletes exactly that record. */
  lemma ClearingDraftDeletesIt(ps: seq<Project>, i: nat)
    requires UniqueIds(ps) && i < |ps| && !TruthyName(ps[i].name)
    ensures ChangeName(Mount(ps[i]), "").1 == RequestDelete(DeleteRequest(ps[i].id, true))
    ensures Without(ps, ps[i].id) == ps[..i] + ps[i + 1..]
  {
    WithoutUnique(ps, i);
  }
}
