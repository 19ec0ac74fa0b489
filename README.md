# Project list: store, drag reorder and rename, in Dafny

This project models the core of a small project-list app. The app keeps a
list of project records, each with an id, an optional name, an optional
creation time and an optional integer `weight`. The screen shows the records
sorted by weight. The user can add a record, rename it, delete it (with a
confirmation dialog) and drag it to a new place in the list. A drag rewrites
the weights of the records it passes over.

The model has six modules:

- `Records` (`records.dfy`): the record and patch types. It also holds the
  JavaScript truthiness tests the code applies: a weight of `0` counts as
  missing, and so does an empty string. It defines the object-spread merge,
  where a present `undefined` key clears the field.
- `Sorting` (`sorting.dfy`): the weight comparator shared by the display sort
  and the create-weight sort, and a stable insertion sort that it drives.
- `Store` (`store.dfy`): the store's reducer. Class `ProjectStore` has one
  method per pending/fulfilled/rejected event of the four commands (add,
  delete, edit, batch edit). Each method is stated against a specification
  function (`Without`, `EditFirst`, `ApplyEdits`, `Created`). The batch edit
  is a loop over the patches, proved against `ApplyEdits`.
- `Moves` (`moves.dfy`): moving one element of a list to another index, the
  reordering a drop asks for, with its index map and its inverse.
- `App` (`app.dfy`): the display order and `handleDragEnd`. Method
  `HandleDragEnd` looks up the two indices and calls method `BuildEdits`,
  which holds the source's two counted loops and is proved to build
  `ReorderPatches`. The module also has the delete-confirmation gate as
  class `DeleteGate`.
  - The main theorem is `App.ReorderFromStore`. Take a store with distinct
    ids and distinct positive weights. Apply the patches built from the
    shown list. The new display order is then the old one with the dragged
    record moved to the target index, and the store keeps that invariant.
  - `App.DragRound` states the same for a drop given by two ids, and
    `App.DropOnStore` joins `HandleDragEnd` with the store's `Run`: the
    dragged record ends up shown at the index of the record it was dropped
    on.
- `ProjectRow` (`projectrow.dfy`): the rename routing, the delete icon and
  the row's `editing` flag, as pure functions.

The fresh id (`uuidv4()`) and the clock (`new Date().getTime()`) are
parameters of `Store.CreatePayload` and `Store.ProjectStore.Run`.

Only create-fulfilled and the four rejected events reset `status` to `Idle`
(src/store.ts:81, 92, 103, 120, 139). Delete-fulfilled and both
edit-fulfilled events leave it as it was, so a dispatched delete or edit
ends `Loading` (see `Store.ProjectStore.DeleteFulfilled` and
`Store.ProjectStore.Run`).

## Model

| member | source | states |
|---|---|---|
| Records.Merge | src/store.ts:113-116 | `{...record, ...patch}`: every key the patch carries overrides the record's, a present `undefined` included; keys it lacks keep the record's value; the id is the patch's |
| Records.Ids | src/App.tsx:124 | `projects.map((i) => i.id)`: the ids of a list, position by position |
| Sorting.Compare | src/App.tsx:36-38 | the comparator is 0 whenever either weight is falsy; on two truthy weights its sign is that of their difference |
| Sorting.Order | src/store.ts:84-86 | the create sort uses the comparator with its arguments swapped: ascending puts the lower truthy weight first, descending the higher; a falsy weight on either side compares equal |
| Sorting.Insert | src/App.tsx:36-38 | one insertion step of the sort keeps every record: the result is the input plus the new record, as a multiset |
| Sorting.Sort | src/App.tsx:36-38 | the sort is a permutation of its input |
| Sorting.WithWeight | src/App.tsx:36-38 | the records of one weight, in order; each has that weight and there are no more than in the input |
| Sorting.InsertSorted | src/App.tsx:36-38 | inserting a truthy-weight record into a sorted list of truthy weights gives a sorted list |
| Sorting.SortSorted | src/App.tsx:36-38 | on truthy weights the sort's output is ordered by the comparator, in either direction |
| Sorting.InsertStable | src/App.tsx:36-38 | an insertion never moves a record past another of the same truthy weight |
| Sorting.SortStable | src/App.tsx:36-38 | stability: for every truthy weight, the records carrying it keep their relative order |
| Sorting.SortedPermutationUnique | src/App.tsx:36-38 | a sorted permutation of a strictly increasing list is that list: with distinct weights the display order is unique |
| Sorting.SortDescendingHeadIsMax | src/store.ts:84-87 | on a non-empty list of truthy weights, the record the descending sort puts first has a weight that is at least every weight in the list |
| Sorting.SeparatedPermutation | src/store.ts:97-101 | distinct ids, distinct weights and positive weights survive any permutation and any removal of records |
| Sorting.SortedDistinctIncreasing | src/App.tsx:36-38 | a sorted list of distinct truthy weights is strictly increasing |
| Store.IndexOf | src/store.ts:109-111 | `findIndex`: -1 exactly when no record has the id, otherwise the first index that has it |
| Store.Without | src/store.ts:98-100 | `filter` by id never grows the list |
| Store.WithoutNoMatch | src/store.ts:97-101 | deleting an id no record has leaves the list unchanged |
| Store.WithoutMembers | src/store.ts:97-101 | after delete, a record is in the list exactly when it was before and has another id |
| Store.WithoutAppend | src/store.ts:97-101 | delete distributes over concatenation, so the records that stay keep their relative order |
| Store.WithoutUnique | src/store.ts:97-101 | with distinct ids, deleting the id at index `i` removes exactly that record |
| Store.EditFirst | src/store.ts:108-118 | single edit: same length and ids; no matching id means no change; the first match gets the merge; every other index is untouched |
| Store.ApplyEdits | src/store.ts:125-137 | batch edit keeps the length and the ids of the list |
| Store.ApplyEditsSnoc | src/store.ts:126-136 | one more loop iteration is one more single edit, applied last |
| Store.Patched | src/store.ts:125-137 | what a batch does to one record keeps its id; a batch that never names it leaves it unchanged |
| Store.ApplyEditsPointwise | src/store.ts:125-137 | on distinct ids the batch acts record by record: each record gets its own patches merged in batch order |
| Store.PatchedSingle | src/store.ts:125-137 | a record named by exactly one patch of the batch gets that patch merged |
| Store.PatchedLastWeightWins | src/store.ts:125-137 | left to right: the weight a record ends with is the one its last weight-carrying patch sets |
| Store.ApplyEditsLastWeightWins | src/store.ts:125-137 | the same for a record of the store's list, with distinct ids; patches for other ids do not interfere |
| Store.ApplyEditsUntouched | src/store.ts:125-137 | a record that no patch names comes out of the batch unchanged; patches for missing ids are dropped |
| Store.PatchAllPermutation | src/store.ts:125-137 | patching records one by one commutes with reordering them |
| Store.ApplyEditsPermutation | src/store.ts:125-137 | on distinct ids, a batch edit applied to a permutation of a list gives a permutation of the result |
| Store.ApplyEditsKeepsUniqueIds | src/store.ts:125-137 | a batch edit keeps ids distinct |
| Store.CreatePayload | src/store.ts:39-46 | the payload always has the fresh id and the time, never a weight, and a name exactly when the name given is non-empty |
| Store.CreateWeight | src/store.ts:82-88 | the weight of a record created on an empty list is 1 |
| Store.CreateWeightIsMaxPlusOne | src/store.ts:82-88 | on a non-empty list of truthy weights the new weight is the largest weight plus one |
| Store.CreateWeightUnweighted | src/store.ts:82-88 | on a list with no truthy weight the new weight is 1 |
| Store.Created | src/store.ts:89 | the pushed record is the payload with the computed weight |
| Store.CreateKeepsConsistent | src/store.ts:80-90 | create with a fresh id keeps ids distinct and weights distinct and positive |
| Store.DeleteKeepsConsistent | src/store.ts:97-101 | delete keeps ids distinct and weights distinct and positive |
| Store.EditKeepsConsistent | src/store.ts:108-118 | a single edit without a weight key (a rename) keeps ids distinct and weights distinct and positive |
| Store.ProjectStore.constructor | src/store.ts:30-33 | the store starts empty and idle |
| Store.ProjectStore.AddPending | src/store.ts:77-79 | status becomes `Loading`; the list is untouched |
| Store.ProjectStore.AddFulfilled | src/store.ts:80-90 | status becomes `Idle`; the list is the old list with the created record appended last |
| Store.ProjectStore.AddRejected | src/store.ts:91-93 | status becomes `Idle`; the list is untouched |
| Store.ProjectStore.DeletePending | src/store.ts:94-96 | status becomes `Loading`; the list is untouched |
| Store.ProjectStore.DeleteFulfilled | src/store.ts:97-101 | the list loses the records with the id; status is left as it was |
| Store.ProjectStore.DeleteRejected | src/store.ts:102-104 | status becomes `Idle`; the list is untouched |
| Store.ProjectStore.EditPending | src/store.ts:105-107 | status becomes `Loading`; the list is untouched |
| Store.ProjectStore.EditFulfilled | src/store.ts:108-118 | the list is the single edit of the old list; status is left as it was |
| Store.ProjectStore.EditRejected | src/store.ts:119-121 | status becomes `Idle`; the list is untouched |
| Store.ProjectStore.EditManyPending | src/store.ts:122-124 | status becomes `Loading`; the list is untouched |
| Store.ProjectStore.EditManyFulfilled | src/store.ts:125-137 | the `forEach` loop leaves the list equal to the batch edit of the old list; status is left as it was |
| Store.ProjectStore.EditManyRejected | src/store.ts:138-140 | status becomes `Idle`; the list is untouched |
| Store.ProjectStore.Run | src/store.ts:36-140 | a dispatched command that succeeds: add ends `Idle` with the created record appended; delete, edit and batch edit end `Loading` with the new list |
| App.DisplayOrder | src/App.tsx:36-38 | the displayed list is a permutation of the store's list |
| App.DisplayOrderIsStableSort | src/App.tsx:36-38 | with truthy weights the display is ascending by weight, and records of equal weight keep their store order |
| App.Bump | src/App.tsx:76 | `project.weight ? project.weight + delta : undefined`: a truthy weight is shifted by `delta`, a falsy one becomes `undefined` |
| App.ReorderPatches | src/App.tsx:65-88 | the edits list: one patch more than the distance between the two indices, the first gives the active record the target's weight, and every patch carries only a weight key |
| App.UpShifts | src/App.tsx:72-78 | the moving-up loop: patch `k` is for the record at `o + k` and carries only its weight plus one, or `undefined` when falsy |
| App.DownShifts | src/App.tsx:81-87 | the moving-down loop: patch `k` is for the record at `o - k` and carries only its weight minus one, or `undefined` when falsy |
| App.HandleDragEnd | src/App.tsx:57-91 | a command is dispatched exactly when both ends exist and their ids differ; it is a batch edit of `ReorderPatches` at the two `findIndex` results |
| App.BuildEdits | src/App.tsx:65-88 | the two loops push exactly `ReorderPatches`: the active record's patch, then the shifted neighbours |
| App.ReorderPatchesShape | src/App.tsx:65-88 | there is one patch more than the distance between the two indices; patch `k` is for a record of the closed range between the two indices and carries that record's new weight: the target's weight for the active record, otherwise its own weight plus 1 (moving up) or minus 1 (moving down), or `undefined` when its weight is falsy |
| App.ReorderPatchIds | src/App.tsx:65-88 | on distinct ids the patches name distinct records; every record of the range gets one; no record outside the range gets one |
| App.ReorderEffect | src/App.tsx:57-91 | on a list with distinct ids, applying the patches changes only weights, and gives each record its intended weight |
| App.MovedIncreasing | src/App.tsx:57-91 | on distinct positive increasing weights: after the patches, the list with the active record moved to the target index is strictly increasing and positive |
| App.ReorderSortsIntoPlace | src/App.tsx:57-91 | on a list with distinct ids and strictly increasing positive weights (the shown list of a consistent store), the new display order is the old one with the active record moved to the target index |
| App.ShownIncreasing | src/App.tsx:36-38 | a store with distinct ids and distinct positive weights is displayed strictly ascending |
| App.StoreSortsIntoPlace | src/App.tsx:57-91 | the store's own unsorted list, after the batch, sorts into the moved display list |
| App.ReorderFromStore | src/App.tsx:57-91 | the whole drag round: the displayed ids become the old ones with one moved, and the store keeps distinct ids and distinct positive weights |
| App.TiedWeightsMisplace | src/App.tsx:65-88 | on three records tied at a positive weight, dragging the second onto the first leaves it shown last: the new shown ids differ from the moved ones, so the reorder theorems need distinct weights |
| App.ReorderKeepsConsistent | src/App.tsx:57-91 | a drag keeps distinct ids and distinct positive weights |
| App.DragRound | src/App.tsx:57-91 | a drop given by two distinct ids of a consistent store's shown list: the shown ids become the old ones with one moved, the dragged record is shown at the index of the record it was dropped on, and the store stays consistent |
| App.DropOnStore | src/App.tsx:57-91 | `handleDragEnd` dispatched into the store: with no distinct pair of ids nothing changes; otherwise the store ends `Loading`, consistent, and shows the dragged record at the drop target's index |
| Store.IndexOfUnique | src/store.ts:109-111 | on distinct ids, `findIndex` of the id at index `j` is `j` |
| App.ReorderThereAndBack | src/App.tsx:57-91 | dragging a record back from its new index to its old one restores the old display order |
| App.DeleteGate.constructor | src/App.tsx:40 | nothing is pending at first, so the dialog is closed |
| App.DeleteGate.ModalOpen | src/App.tsx:142 | `open={pendingDelete !== null}`: the dialog is open exactly while an id is pending; the gate's methods state when it opens and closes |
| App.DeleteGate.SetDeleteConfirm | src/App.tsx:93-99 | an immediate request dispatches the delete and leaves the pending id alone; any other request dispatches nothing, records the id and opens the dialog |
| App.DeleteGate.ClearDeleteConfirm | src/App.tsx:101-103 | cancel clears the pending id, which closes the dialog, and deletes nothing |
| App.DeleteGate.DeleteProject | src/App.tsx:105-110 | confirm with a non-empty pending id dispatches its delete, clears it and closes the dialog; with none or an empty one it does nothing |
| Moves.Move | src/App.tsx:57-91 | moving one element keeps the length |
| Moves.MovePermutes | src/App.tsx:57-91 | moving one element keeps the same elements, as a multiset |
| Moves.MoveAt | src/App.tsx:57-91 | the element at index `j` after the move is the one at `Source(a, o, j)` before |
| Moves.MoveLandsAtTarget | src/App.tsx:57-91 | the moved element lands at the target index |
| Moves.MoveInverse | src/App.tsx:57-91 | moving back from the target index to the origin undoes a move |
| ProjectRow.Mount | src/ProjectRow.tsx:54 | a row starts in editing mode exactly when its record has no name |
| ProjectRow.StartEdit | src/ProjectRow.tsx:51-53 | `startEdit` turns editing on and leaves the record alone |
| ProjectRow.ChangeName | src/ProjectRow.tsx:36-50 | editing always ends; an empty name on a nameless record asks for an immediate delete; an empty name on a named record does nothing; a non-empty name dispatches exactly one edit `{id, name}` |
| ProjectRow.DeleteClicked | src/ProjectRow.tsx:28-34 | the delete icon asks for a delete that waits for confirmation, and only when the element carries a non-empty id |
| ProjectRow.RenameSetsName | src/ProjectRow.tsx:36-50 | a rename the store applies sets that name on that record and changes no other record |
| ProjectRow.ClearingDraftDeletesIt | src/ProjectRow.tsx:36-50 | clearing the name of a nameless record deletes exactly that record |

## Left out

- React rendering, JSX, CSS, the antd widgets and the `useState` hooks are UI only. `pendingDelete` and `editing` are plain fields.
- The dnd-kit sensors and collision detection are foreign gesture handling. The drag event is taken as two optional ids.
- Redux Toolkit's thunks, `configureStore` and dispatch are library machinery. The events are explicit methods, and a dispatch is the returned `Command`.
- `uuidv4()` and the clock are nondeterministic. They are parameters.
- The locale date formatting in a row has no logic and is not modelled.
- JavaScript numbers are modelled as unbounded integers. Floating point, `NaN` and precision loss are not captured.
- Sorting.Sort: the source calls `Array.prototype.sort` with a comparator that is not a consistent order when some weights are falsy, so the engine's result is unspecified. The model fixes one stable insertion sort. Where weights are falsy, the lemmas claim nothing beyond the permutation and the stability of each truthy weight.
- Store.CreateWeightIsMaxPlusOne: proved only when every weight is truthy. It depends on the sort engine otherwise, except when no weight is truthy (`Store.CreateWeightUnweighted`).
- App.HandleDragEnd: requires that both ids of a drop be in the shown list. The source would read a property of `undefined` otherwise.
- App.ReorderFromStore: the reorder theorems assume distinct ids and distinct positive weights (`Store.Consistent`). With tied truthy weights the order after a drag is fully determined (the comparator is then a consistent order and the sort is stable), but the dragged record can land in the wrong place: `App.TiedWeightsMisplace` takes records a, b, c tied at weight w, drags the one shown at index 1 onto index 0, and the patches `[b -> w, a -> w + 1]` give the shown ids `[b, c, a]` where the move asks for `[b, a, c]`. With falsy weights the order after a drag depends on the sort engine. Neither kind of store is reached from the empty initial store, because `Store.CreateKeepsConsistent` (with a fresh id), `Store.DeleteKeepsConsistent`, `Store.EditKeepsConsistent` (the screen's only single edit is a rename) and `App.ReorderKeepsConsistent` each keep `Consistent`.
- The store is modelled as one object whose methods run one at a time. Interleaving of dispatches is not modelled.
