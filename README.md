# Kanban board: task repository and board renderer

A model, in Dafny, of the two classes that carry the logic of a single-page
kanban board written in TypeScript:

- `TaskService` (module `TaskServices`, file `task_service.dfy`): the task
  repository. It owns an ordered collection of tasks, changes it in place
  (append, splice out the first task with an id, overwrite one task's status)
  or replaces it with an empty one, writes it to local storage after every successful change and
  then publishes it to an ordered, duplicate-free list of observers.
- `TaskView` (module `TaskViews`, file `task_view.dfy`): the board renderer.
  It clears three column containers and appends each task to the container
  of its status, and toggles the visibility of the create-task modal.
- `Status` and `Task` (module `TaskModel`, file `task.dfy`): the closed
  three-valued status and the task record.

The repository is a class with fields `tasks` and `observers` and two ghost
fields: `persisted`, the value last written under the storage key, and
`deliveries`, the log of every observer `update` call with the collection it
was handed. Its invariant `Valid()` says that the observer list has no
duplicates and that loading the storage key now (`load(...) || []`) gives back
the in-memory collection. Deletion and moving are specified twice: by the
index-based code (`FindIndex` + `RemoveAt` / `WithStatusAt`) and by
independent structural recursions (`DeleteFirst`, `MoveFirst`), and lemmas
prove the two agree. Notification is specified by `Broadcast`, and a lemma
proves that one notification reaches each attached observer exactly once.

The renderer is a class with the three containers as `seq<Task>` fields and a
`modalHidden` flag. `RenderAll` is proved to leave each container equal to
`OfStatus(tasks, s)`, the tasks of that status in collection order; lemmas
about `OfStatus` prove that the three containers together hold every task
exactly once.

## Model

| member | source | states |
|---|---|---|
| `TaskServices.FindIndex` | src/services/TaskService.ts:38 | the result is -1 exactly when no task has the id; otherwise it is a position holding the id with no earlier position holding it |
| `TaskServices.IndexOf` | src/services/TaskService.ts:79 | the result is -1 exactly when the observer is absent; otherwise it holds the observer and no earlier position does |
| `TaskServices.RemoveAt` | src/services/TaskService.ts:41 | splicing one element shortens the sequence by one, keeps the elements before it and shifts the ones after it down by one, and loses exactly that element from the multiset |
| `TaskServices.WithStatusAt` | src/services/TaskService.ts:61-63 | writing the status of one task keeps the length, every other task, and that task's id, title, description and creation time |
| `TaskServices.DeleteFirstAt` | src/services/TaskService.ts:41 | when the first task with the id sits at k, removing it is the splice at k |
| `TaskServices.DeleteFirstAbsent` | src/services/TaskService.ts:40 | removing an id no task carries leaves the collection as it is |
| `TaskServices.SpliceIsDeleteFirst` | src/services/TaskService.ts:37-45 | splicing at `findIndex` equals removing the first task with the id; when no task has it the reference removal is the identity |
| `TaskServices.StatusWriteIsMoveFirst` | src/services/TaskService.ts:57-68 | writing the status at `findIndex` equals moving the first task with the id; when no task has it the reference move is the identity |
| `TaskServices.DeleteFirstRemovesOne` | src/services/TaskService.ts:37-45 | deleting a present id shortens the collection by one, keeps the tasks before and after the first match in order, and loses exactly that one task |
| `TaskServices.MoveFirstKeepsShape` | src/services/TaskService.ts:57-68 | moving keeps the length and every field except status of every task, and changes at most the task at the first matching position |
| `TaskServices.Attached` | src/services/TaskService.ts:70-76 | attaching keeps the list duplicate-free, adds exactly the observer to the members, keeps the existing list as a prefix and grows it only when the observer was absent |
| `TaskServices.Detached` | src/services/TaskService.ts:78-84 | detaching an absent observer leaves the list unchanged; a present one is spliced out at its first position, the rest keeping their order; the list stays duplicate-free and, when it was, loses exactly that member |
| `TaskServices.Broadcast` | src/services/TaskService.ts:86-90 | one notification delivers, in list order, one entry per observer, each carrying the full collection |
| `TaskServices.BroadcastReachesEachOnce` | src/services/TaskService.ts:86-90 | with a duplicate-free list, one notification reaches each attached observer exactly once and no other observer |
| `TaskServices.AttachDetachDelivery` | src/services/TaskService.ts:70-90 | after attaching an observer a notification reaches it exactly once; after detaching it, not at all |
| `TaskServices.TaskService.constructor` | src/services/TaskService.ts:16-19 | the collection is the stored one or empty when nothing is stored, no observers, and the invariant holds |
| `TaskServices.TaskService.Save` | src/services/TaskService.ts:12-14 | the stored value becomes the current collection |
| `TaskServices.TaskService.Notify` | src/services/TaskService.ts:86-90 | the delivery log grows by exactly one entry per observer, in attachment order, each carrying the current collection |
| `TaskServices.TaskService.AddTask` | src/services/TaskService.ts:21-35 | the new task with the given title, description and status and `id == createdAt == now` is appended last, earlier tasks unchanged; the collection is then saved and broadcast; the invariant holds |
| `TaskServices.TaskService.DeleteTask` | src/services/TaskService.ts:37-45 | with the id present, the first task with it is spliced out, then the collection is saved and broadcast; with it absent, nothing changes, nothing is saved, nobody is notified |
| `TaskServices.TaskService.ClearTasks` | src/services/TaskService.ts:47-51 | the collection becomes empty and is saved and broadcast, also when it was already empty |
| `TaskServices.TaskService.GetAllTasks` | src/services/TaskService.ts:53-55 | returns the current collection and changes nothing |
| `TaskServices.TaskService.MoveTask` | src/services/TaskService.ts:57-68 | with the id present, only the status of the first task with it changes, then the collection is saved and broadcast; with it absent, nothing changes, nothing is saved, nobody is notified |
| `TaskServices.TaskService.Attach` | src/services/TaskService.ts:70-76 | an attached observer leaves the list as it is, a new one is appended; the list stays duplicate-free and the tasks are untouched |
| `TaskServices.TaskService.Detach` | src/services/TaskService.ts:78-84 | a present observer is spliced out at its `indexOf` position, the others keeping their attachment order; an absent one leaves the list as it is; the observer is no longer in the list; the tasks are untouched |
| `TaskServices.AddMoveDeleteScenario` | src/services/TaskService.ts:21-68 | from an empty store, add then move to DOING then delete gives one TODO task, then one DOING task, then an empty collection, and the stored value is then the empty collection |
| `TaskViews.OfStatus` | src/views/TaskView.ts:31-41 | a container holds only tasks of its status and is no longer than the collection |
| `TaskViews.BorderColor` | src/views/TaskView.ts:17-24 | TODO maps to `border-blue-500`, DOING to `border-yellow-500`, DONE to `border-green-500`; the gray fallback is never produced |
| `TaskViews.BorderColorInjective` | src/views/TaskView.ts:17-24 | different statuses get different accents |
| `TaskViews.OfStatusAppend` | src/views/TaskView.ts:57-59 | rendering a concatenation renders the first part and then the second |
| `TaskViews.OfStatusMembers` | src/views/TaskView.ts:31-41 | a task is in the container of status s exactly when it is in the collection with status s |
| `TaskViews.PartitionSizes` | src/views/TaskView.ts:57-59 | the three container lengths sum to the collection's length |
| `TaskViews.PartitionIsPermutation` | src/views/TaskView.ts:26-60 | the three containers together are a rearrangement of the collection |
| `TaskViews.OfStatusKeepsAll` | src/views/TaskView.ts:31-41 | a collection of one status renders entirely, in its own order, into that status's container |
| `TaskViews.RenderedOnce` | src/views/TaskView.ts:31-41 | after a render each task of the collection is in the container of its own status and in no other |
| `TaskViews.TaskView.constructor` | src/views/TaskView.ts:10-15 | the containers start empty and the modal as the page has it |
| `TaskViews.TaskView.RenderTask` | src/views/TaskView.ts:26-52 | the card is appended to the container its status selects; the other containers and the modal are untouched |
| `TaskViews.TaskView.RenderAll` | src/views/TaskView.ts:54-60 | whatever the board showed before, each container afterwards holds exactly the tasks of its status in collection order; the modal is untouched |
| `TaskViews.TaskView.ClearAll` | src/views/TaskView.ts:62-66 | the three containers become empty; the modal is untouched |
| `TaskViews.TaskView.ShowModal` | src/views/TaskView.ts:68-70 | the modal becomes visible; only the modal flag may change |
| `TaskViews.TaskView.HideModal` | src/views/TaskView.ts:72-74 | the modal becomes hidden; only the modal flag may change |
| `TaskViews.RerenderChangesNothing` | src/views/TaskView.ts:54-66 | rendering a collection onto a board that already shows it changes nothing, so rendering twice equals rendering once |

## Left out

- src/services/SorageService.ts is not part of this model. Its JSON serialisation and `localStorage` access are abstracted as the ghost `persisted` value; `load` is the constructor parameter `stored`.
- TaskServices.TaskService.Save: assumes the write succeeds. In the source a serialisation or quota error is logged and the write is dropped, so the stored value can lag behind the collection; the invariant `Valid()` holds only under this assumption.
- Ids are `Date.now()` readings and are not unique; two adds in the same millisecond collide.
- src/controllers/BoardController.ts:92-139 registers `dragover`, `dragleave` and `drop` on the columns and `dragstart`/`dragend` on the cards; the drop handler calls `moveTask` with the column's status.
- TaskServices.TaskService.AddTask: both `Date.now()` reads are one parameter `now`. In the source they are two calls that can straddle a millisecond, so `id == createdAt` is an assumption of the model.
- Object aliasing is not modelled. In the source `moveTask` mutates a task object shared with earlier `getAllTasks` copies and with the array handed to observers, and `notify` hands out the live array; the model uses values.
- Observers are integer ids. What an observer's `update` does (the controller re-renders) is outside the model; re-entrant calls into the service during `notify` are not modelled.
- TaskView markup: the HTML string, the `data-id` attribute, `toLocaleDateString` and `isChildOfTaskModal` are DOM and locale calls and are left out. Containers hold `Task` values, not DOM nodes. The containers' initial page content is not modelled; they start empty.
- The `default` branch of `getBorderColor` (the gray accent) cannot be reached with the closed `Status` type and is not modelled. The container switch in `renderTask` has no default branch: with an unlisted status `parentDiv` would stay unassigned and `appendChild` would throw; the closed `Status` type rules that case out.
- src/controllers/BoardController.ts (DOM event wiring, the form's empty-input check, the drop handler's column choice) and src/main.ts are not part of this model.
