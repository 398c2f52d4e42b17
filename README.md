# Task tracker: a verified model of the task-list store

The task tracker is a single-page React component that keeps a list of to-do
items (tasks). Users add, edit, complete (toggle), delete, search and filter
them. This project models the part of the component that follows precise rules:

- the **filter engine**: the effect that derives the displayed list from the
  stored tasks, the search query, the status filter and the priority filter;
- the **collection operations**: add, edit, delete, toggle and reset-filters,
  with the drafts (the "new task" form and the task being edited) they read
  and clear.

Layout, one module per file:

- `seqs.dfy` (`Seqs`): `Keep` and `Map`, the array `filter` and `map` the
  component uses, with their facts: order-preserving subsequence, exact
  multiplicities, membership, composition of two filters, partition.
- `text.dfy` (`Text`): `trim()` (whitespace is the ECMAScript WhiteSpace and
  LineTerminator set), ASCII `toLowerCase()` and `includes()`, each tied to a
  plain definition (blank string, substring occurrence at an index).
- `task_model.dfy` (`TaskModel`): the `Task` record, the form draft, the
  filter settings.
- `filter_engine.dfy` (`FilterEngine`): `FilterTasks`, the three stages in
  the order the effect runs them, and the per-filter meaning `Passes`. The
  main lemma proves that the staged filter equals one filter by the
  conjunction.
- `collection.dfy` (`Collection`): the pure `map`/`filter` transformations
  that the handlers pass to `setTasks`.
- `store.dfy` (`Store`): class `TaskManager`. Its fields are the component's
  state variables. Its methods are the handlers, and each one states the whole
  new state. The file also has cross-cutting lemmas and a client method,
  `BuyMilkSession`, that walks through add, toggle and the two status filters.

Ids and timestamps come from the clock in the component (`Date.now()`,
`new Date()`). Here they are parameters of `AddTask`. Ids are meant to be
unique, but the code does not enforce that: two adds in the same millisecond
get the same id. So edit, delete and toggle are modelled as the code does
them, acting on every task with the matching id. The task record's `category`
is typed `string` in the code, although the form offers only five values, so
it is a string here.

## Model

| member | source | states |
|---|---|---|
| Seqs.Keep | src/App.tsx:74-91 | the array filter keeps no more elements than it was given, and only elements of the input that pass the test |
| Seqs.Map | src/App.tsx:139-141 | the array map keeps the length, and element i of the result is the callback applied to element i |
| Seqs.KeepIsSubsequence | src/App.tsx:70-91 | a filter step never reorders: its result is an order-preserving subsequence of its input |
| Seqs.KeepCount | src/App.tsx:70-91 | a filter step keeps every copy of an accepted element and drops every copy of a rejected one |
| Seqs.KeepMembership | src/App.tsx:70-91 | an element is in a filter's result iff it is in the input and passes the test |
| Seqs.KeepAll | src/App.tsx:73-89 | a skipped stage is a filter whose test accepts everything: it returns its input unchanged |
| Seqs.KeepCongruent | src/App.tsx:74-78 | two tests that agree on the input's elements filter it alike |
| Seqs.KeepKeep | src/App.tsx:70-91 | two filter steps in sequence equal one filter by the conjunction of their tests |
| Seqs.KeepPartition | src/App.tsx:82-85 | filtering by a test and by its negation splits the input into two parts whose multisets add up to the input's |
| Text.TrimStart | src/App.tsx:98 | the result is a suffix of the input, every dropped character is whitespace, and the result does not start with whitespace |
| Text.TrimEnd | src/App.tsx:98 | the result is a prefix of the input, every dropped character is whitespace, and the result does not end with whitespace |
| Text.Trim | src/App.tsx:98 | `trim()` is the input with a blank prefix and a blank suffix cut off, leaves no whitespace at either end, and yields the empty (falsy) string iff every character of the title is whitespace |
| Text.LowerChar | src/App.tsx:76-77 | an upper-case ASCII letter becomes the matching lower-case letter ('A' to 'a', ..., 'Z' to 'z'); every other character is unchanged; the result is never upper-case ASCII |
| Text.LowerCharSameIff | src/App.tsx:76-77 | two characters lowercase alike iff they are equal or are the same ASCII letter in different case |
| Text.LowerSameIff | src/App.tsx:76-77 | two strings lowercase alike iff they have the same length and differ, position by position, at most in ASCII case |
| Text.Lower | src/App.tsx:76-77 | lowercasing keeps the length and lowercases each character in place |
| Text.LowerIdempotent | src/App.tsx:76-77 | lowercasing an already lowercased string changes nothing |
| Text.Includes | src/App.tsx:76-77 | `includes` answers true iff the needle occurs in the haystack at some index (so the empty needle is always included) |
| FilterEngine.SearchStageMeaning | src/App.tsx:73-79 | the search stage, run or skipped on an empty query, keeps exactly the tasks whose lowercased title or description contains the lowercased query |
| FilterEngine.StatusStageMeaning | src/App.tsx:82-86 | the status stage, run or skipped on "all", keeps exactly the completed tasks for "completed" and the uncompleted ones for "active" |
| FilterEngine.PriorityStageMeaning | src/App.tsx:89-91 | the priority stage, run or skipped on "all", keeps exactly the tasks of the selected priority |
| FilterEngine.FilterTasks | src/App.tsx:69-94 | the filter effect shows no more tasks than are stored, and every shown task is stored and passes search, status and priority; the exact list is given by FilterTasksIsConjunction and FilterTasksExact |
| FilterEngine.FilterTasksIsConjunction | src/App.tsx:69-94 | the three sequential stages equal a single filter of the tasks by the conjunction search and status and priority |
| FilterEngine.FilterTasksExact | src/App.tsx:70-93 | the filtered list is an order-preserving subsequence of the tasks; a task occurs in it as often as in the tasks if it passes every filter, and otherwise never |
| FilterEngine.FilterTasksMembership | src/App.tsx:73-90 | a task is shown iff it is stored and passes search (title or description), status and priority |
| FilterEngine.FilterTasksNoFilters | src/App.tsx:70-93 | with an empty query and both filters on "all", the filtered list is the task list itself, same elements in the same order |
| FilterEngine.StatusFiltersPartition | src/App.tsx:82-85 | "completed" shows exactly the completed tasks that "all" shows, "active" exactly the uncompleted ones, and the two together are what "all" shows |
| FilterEngine.SearchIgnoresCase | src/App.tsx:76-77 | two queries that lowercase to the same string show the same tasks |
| FilterEngine.SearchLastSameResult | src/App.tsx:70-91 | running the search after the status and priority stages, instead of before them, gives the same list |
| FilterEngine.FilterTasksCommute | src/App.tsx:70-91 | applying two sets of filter settings one after the other gives the same list in either order, so any two stages can be swapped |
| FilterEngine.StagesReversedSameResult | src/App.tsx:70-91 | running the priority stage, then the status stage, then the search gives the same list as the effect's order |
| FilterEngine.FilterTasksIdempotent | src/App.tsx:70-91 | filtering the filtered list again with the same settings changes nothing |
| FilterEngine.FilterAfterPrepend | src/App.tsx:110 | after a task is prepended, the filtered list is that task (if it passes the filters) followed by the old filtered list |
| Collection.ReplaceById | src/App.tsx:124-126 | edit keeps the length; every task with the edited task's id becomes the edited task and every other task is unchanged in place |
| Collection.ToggleById | src/App.tsx:137-143 | toggle keeps length and order; `completed` is negated exactly on the tasks with the id; no other field of any task changes |
| Collection.DeleteById | src/App.tsx:132-134 | a task remains after delete iff it was stored and its id differs from the deleted id |
| Collection.ReplaceByIdKeepsTitled | src/App.tsx:122-125 | if every stored title is non-blank and the edited title is non-blank (the guard before the commit), every title after the edit is non-blank |
| Collection.ToggleByIdKeepsTitled | src/App.tsx:139-141 | toggling keeps every stored title non-blank |
| Collection.DeleteByIdKeepsTitled | src/App.tsx:133 | deleting keeps every remaining title non-blank |
| Collection.ToggleByIdTwice | src/App.tsx:139-141 | toggling the same id twice restores the original list |
| Collection.ToggleByIdAbsent | src/App.tsx:139-141 | toggling an id no task has leaves the list unchanged |
| Collection.DeleteByIdExact | src/App.tsx:133 | delete keeps the remaining tasks in order and keeps every copy of a task with a different id |
| Collection.DeleteByIdAbsent | src/App.tsx:133 | deleting an id no task has leaves the list unchanged |
| Collection.DeleteByIdIdempotent | src/App.tsx:133 | deleting the same id twice is the same as deleting it once |
| Collection.ReplaceByIdIdempotent | src/App.tsx:125 | saving the same edit twice is the same as saving it once |
| Collection.ReplaceByIdAbsent | src/App.tsx:125 | saving an edit whose id no task has leaves the list unchanged |
| Store.TaskManager.constructor | src/App.tsx:26-45 | the initial state: no tasks, empty query, both filters "all", nothing being edited, the form at title "", description "", medium, personal; every stored title is non-blank (vacuously) |
| Store.TaskManager.RefreshFilteredTasks | src/App.tsx:69-94 | the displayed list becomes exactly the stored tasks that pass every active filter, in their order |
| Store.TaskManager.AddTask | src/App.tsx:97-118 | a blank title leaves tasks and form unchanged; otherwise a new uncompleted task with the form's title, description, priority and category and the given id and time is prepended, the length grows by one, and the form is reset; if every stored title was non-blank, it still is |
| Store.TaskManager.EditTask | src/App.tsx:121-129 | with nothing being edited or a blank title, nothing changes; otherwise every task with the edited task's id is replaced by it and nothing is being edited any more; if every stored title was non-blank, it still is |
| Store.TaskManager.DeleteTask | src/App.tsx:132-134 | the task list becomes the list without the tasks carrying the id; if every stored title was non-blank, it still is |
| Store.TaskManager.ToggleTaskCompletion | src/App.tsx:137-143 | the task list becomes the list with `completed` negated on the tasks carrying the id; if every stored title was non-blank, it still is |
| Store.TaskManager.OpenEditDialog | src/App.tsx:146-149 | the task being edited becomes the chosen task |
| Store.TaskManager.ChangeEditForm | src/App.tsx:483-590 | the edit form's inputs overwrite title, description, priority, category and completed of the task being edited, keeping its id and creation time |
| Store.TaskManager.SetNewTask | src/App.tsx:394-452 | the "new task" form takes the values its inputs give it |
| Store.TaskManager.SetSearchQuery | src/App.tsx:171 | the search query becomes the typed text |
| Store.TaskManager.SetFilterStatus | src/App.tsx:205-209 | the status filter becomes the selected value |
| Store.TaskManager.SetFilterPriority | src/App.tsx:222-226 | the priority filter becomes the selected value |
| Store.TaskManager.ResetFilters | src/App.tsx:152-156 | all three filters return to their defaults, after which every stored task is shown, in order |
| Store.FilterAfterDelete | src/App.tsx:132-134 | filtering after a delete shows the same list as deleting from the filtered list |
| Store.ToggleSwapsStatusView | src/App.tsx:137-143 | a task shown under "completed" is, once toggled, shown under "active", and a task shown under "active" is, once toggled, shown under "completed" |

## Left out

- Loading from and saving to local storage (src/App.tsx:48-66): browser I/O
  with JSON parsing and `Date` reconstruction. A parse failure only logs.
- The clock reads `Date.now()` and `new Date()` (src/App.tsx:101, 107): the id
  and the creation time are parameters of `AddTask`. The timestamp is a number
  of milliseconds.
- Rendering: the JSX, the `priorityColors` class map (src/App.tsx:18-22) and
  date formatting.
- The filter dropdown's direct DOM class toggle (src/App.tsx:187-191) and the
  dialog-open booleans (src/App.tsx:37-38, 117, 127). They control visibility
  only and hold no business rule.
- React's effect scheduling: the filtered list is recomputed by calling
  `RefreshFilteredTasks` after a change. `TaskManager.Shown` gives the list the
  effect would produce from the current state.
- Text.LowerChar: lowercases only the ASCII letters A-Z. `toLowerCase` also
  maps other Unicode letters (and can change a string's length); that mapping
  is not modelled.
- Store.TaskManager: the non-blank-title invariant (`AllTitled`) is stated as
  kept by every handler that changes the tasks, not as a class invariant,
  because tasks loaded from local storage are not checked and may break it.
- Strings: a Dafny `string` is a sequence of Unicode scalar values, while a
  JavaScript string is a sequence of UTF-16 code units. `trim()` and
  `includes()` give the same answers on well-formed text; only strings with
  lone surrogates, which a scalar-value sequence cannot hold, are not modelled.
- The per-field `onChange` handlers of the two forms are modelled together:
  `SetNewTask` takes the whole new form value, and `ChangeEditForm` takes all
  editable fields at once.
- The remove buttons of the "active filters" chips (src/App.tsx:265, 276, 285)
  set one filter back to its default. They are the plain setters
  `SetFilterStatus`, `SetFilterPriority` and `SetSearchQuery` with the default
  value.
