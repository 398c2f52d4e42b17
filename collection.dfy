/**
 * The pure list transformations the handlers hand to `setTasks`: replace by id
 * (edit), remove by id (delete) and flip `completed` by id (toggle). Ids are not
 * guaranteed unique (two adds in the same millisecond share one), so each
 * operation acts on every task that carries the id.
 */
module Collection {
  import opened Seqs
  import opened TaskModel
  import opened Text

  /** The `map` callback of `handleEditTask`: a task with the edited task's id becomes the edited task. */
  function ReplaceIfSameId(edited: Task): Task -> Task
  {
    (t: Task) => if t.id == edited.id then edited else t
  }

  /** The `map` callback of `toggleTaskCompletion`: a task with the id gets `completed` negated. */
  function FlipIfId(id: string): Task -> Task
  {
    (t: Task) => if t.id == id then t.(completed := !t.completed) else t
  }

  /** The `filter` callback of `handleDeleteTask`: keep a task whose id differs. */
  function HasOtherId(id: string): Task -> bool
  {
    (t: Task) => t.id != id
  }

  /** Edit: every task with the edited task's id is replaced by it; all others stay, in place. */
  function ReplaceById(tasks: seq<Task>, edited: Task): (r: seq<Task>)
    ensures |r| == |tasks|
    ensures forall i :: 0 <= i < |tasks| && tasks[i].id == edited.id ==> r[i] == edited
    ensures forall i :: 0 <= i < |tasks| && tasks[i].id != edited.id ==> r[i] == tasks[i]
  {
    Map(tasks, ReplaceIfSameId(edited))
  }

  /**
   * Toggle: the tasks with the id have `completed` negated and every other field
   * kept; the tasks without it are unchanged; length and order are kept.
   */
  function ToggleById(tasks: seq<Task>, id: string): (r: seq<Task>)
    ensures |r| == |tasks|
    ensures forall i :: 0 <= i < |tasks| ==> r[i].completed == (tasks[i].completed != (tasks[i].id == id))
    ensures forall i :: 0 <= i < |tasks| ==> r[i].(completed := tasks[i].completed) == tasks[i]
  {
    Map(tasks, FlipIfId(id))
  }

  /** Delete: the tasks without the id, in their order; none with it remains. */
  function DeleteById(tasks: seq<Task>, id: string): (r: seq<Task>)
    ensures forall t :: t in r <==> t in tasks && t.id != id
  {
    KeepMembership(tasks, HasOtherId(id));
    Keep(tasks, HasOtherId(id))
  }

  /** Every task has a title that is not blank: what the add and edit handlers check before they commit. */
  ghost predicate AllTitled(tasks: seq<Task>)
  {
    forall t :: t in tasks ==> !IsBlank(t.title)
  }

  /** Saving an edit whose title is not blank keeps every stored title non-blank. */
  lemma ReplaceByIdKeepsTitled(tasks: seq<Task>, edited: Task)
    requires AllTitled(tasks) && !IsBlank(edited.title)
    ensures AllTitled(ReplaceById(tasks, edited))
  {
    var r := ReplaceById(tasks, edited);
    forall t | t in r
      ensures !IsBlank(t.title)
    {
      var i :| 0 <= i < |r| && r[i] == t;
      assert tasks[i] in tasks;
    }
  }

  /** Toggling changes no title, so every stored title stays non-blank. */
  lemma ToggleByIdKeepsTitled(tasks: seq<Task>, id: string)
    requires AllTitled(tasks)
    ensures AllTitled(ToggleById(tasks, id))
  {
    var r := ToggleById(tasks, id);
    forall t | t in r
      ensures !IsBlank(t.title)
    {
      var i :| 0 <= i < |r| && r[i] == t;
      assert tasks[i] in tasks;
      assert r[i].title == r[i].(completed := tasks[i].completed).title;
    }
  }

  /** Deleting keeps every remaining title non-blank. */
  lemma DeleteByIdKeepsTitled(tasks: seq<Task>, id: string)
    requires AllTitled(tasks)
    ensures AllTitled(DeleteById(tasks, id))
  {
  }

  /** Toggling the same id twice gives back the original list. */
  lemma ToggleByIdTwice(tasks: seq<Task>, id: string)
    ensures ToggleById(ToggleById(tasks, id), id) == tasks
  {
  }

  /** Toggling an id no task has changes nothing. */
  lemma ToggleByIdAbsent(tasks: seq<Task>, id: string)
    requires forall t :: t in tasks ==> t.id != id
    ensures ToggleById(tasks, id) == tasks
  {
  }

  /**
   * Delete keeps the order of what remains, and keeps every copy of a task
   * whose id differs while dropping every task with the id.
   */
  lemma DeleteByIdExact(tasks: seq<Task>, id: string)
    ensures IsSubsequence(DeleteById(tasks, id), tasks)
    ensures forall t :: multiset(DeleteById(tasks, id))[t] == if t.id == id then 0 else multiset(tasks)[t]
  {
    KeepIsSubsequence(tasks, HasOtherId(id));
    forall t ensures multiset(DeleteById(tasks, id))[t] == if t.id == id then 0 else multiset(tasks)[t] {
      KeepCount(tasks, HasOtherId(id), t);
    }
  }

  /** Deleting an id no task has changes nothing. */
  lemma DeleteByIdAbsent(tasks: seq<Task>, id: string)
    requires forall t :: t in tasks ==> t.id != id
    ensures DeleteById(tasks, id) == tasks
  {
    KeepAll(tasks, HasOtherId(id));
  }

  /** Deleting the same id a second time changes nothing. */
  lemma DeleteByIdIdempotent(tasks: seq<Task>, id: string)
    ensures DeleteById(DeleteById(tasks, id), id) == DeleteById(tasks, id)
  {
    DeleteByIdAbsent(DeleteById(tasks, id), id);
  }

  /** Saving the same edit a second time changes nothing. */
  lemma ReplaceByIdIdempotent(tasks: seq<Task>, edited: Task)
    ensures ReplaceById(ReplaceById(tasks, edited), edited) == ReplaceById(tasks, edited)
  {
  }

  /** Saving an edit whose id no task has changes nothing. */
  lemma ReplaceByIdAbsent(tasks: seq<Task>, edited: Task)
    requires forall t :: t in tasks ==> t.id != edited.id
    ensures ReplaceById(tasks, edited) == tasks
  {
  }
}
