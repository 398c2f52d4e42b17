/**
 * The state of the task-list component and the handlers that update it. Each
 * React state variable is a field; each handler is a method that assigns the
 * fields its `set…` calls assign. The filter effect is `RefreshFilteredTasks`,
 * to be run after any change to the fields it depends on.
 */
module Store {
  import opened Seqs
  import opened Text
  import opened TaskModel
  import opened FilterEngine
  import opened Collection

  class TaskManager {
    var tasks: seq<Task>
    var filteredTasks: seq<Task>
    var searchQuery: string
    var filterStatus: StatusFilter
    var filterPriority: PriorityFilter
    var currentTask: Option<Task>
    var newTask: Draft

    /** The initial state: no tasks, no query, both filters on "all", an empty form, nothing being edited. */
    constructor ()
      ensures tasks == [] && filteredTasks == []
      ensures searchQuery == "" && filterStatus == All && filterPriority == AnyPriority
      ensures currentTask == None && newTask == EmptyDraft
      ensures AllTitled(tasks)
    {
      tasks := [];
      filteredTasks := [];
      searchQuery := "";
      filterStatus := All;
      filterPriority := AnyPriority;
      currentTask := None;
      newTask := EmptyDraft;
    }

    /** What the list shows for the current tasks and settings. */
    function Shown(): seq<Task>
      reads this
    {
      FilterTasks(tasks, searchQuery, filterStatus, filterPriority)
    }

    /** The filter effect: the displayed list is exactly the stored tasks that pass every filter. */
    method RefreshFilteredTasks()
      modifies this`filteredTasks
      ensures filteredTasks == Shown()
      ensures filteredTasks == Keep(tasks, Criteria(searchQuery, filterStatus, filterPriority))
    {
      filteredTasks := FilterTasks(tasks, searchQuery, filterStatus, filterPriority);
      FilterTasksIsConjunction(tasks, searchQuery, filterStatus, filterPriority);
    }

    /**
     * Add: a blank title changes nothing. Otherwise a new, uncompleted task built
     * from the form goes in front of the list and the form is reset.
     */
    method AddTask(id: string, createdAt: int)
      modifies this`tasks, this`newTask
      ensures AllTitled(old(tasks)) ==> AllTitled(tasks)
      ensures IsBlank(old(newTask.title)) ==> tasks == old(tasks) && newTask == old(newTask)
      ensures !IsBlank(old(newTask.title)) ==>
        && |tasks| == |old(tasks)| + 1
        && tasks[1..] == old(tasks)
        && tasks[0] == Task(id, old(newTask.title), old(newTask.description), false,
                            old(newTask.priority), old(newTask.category), createdAt)
        && newTask == EmptyDraft
    {
      if Trim(newTask.title) == "" {
        return;
      }
      var task := Task(id, newTask.title, newTask.description, false, newTask.priority, newTask.category, createdAt);
      tasks := [task] + tasks;
      newTask := EmptyDraft;
    }

    /**
     * Save the edit: with nothing being edited or a blank title nothing changes.
     * Otherwise every task with the edited task's id becomes the edited task and
     * nothing is being edited any more.
     */
    method EditTask()
      modifies this`tasks, this`currentTask
      ensures AllTitled(old(tasks)) ==> AllTitled(tasks)
      ensures old(currentTask).None? || IsBlank(old(currentTask).value.title) ==>
        tasks == old(tasks) && currentTask == old(currentTask)
      ensures old(currentTask).Some? && !IsBlank(old(currentTask).value.title) ==>
        tasks == ReplaceById(old(tasks), old(currentTask).value) && currentTask == None
    {
      if currentTask.None? {
        return;
      }
      if Trim(currentTask.value.title) == "" {
        return;
      }
      if AllTitled(tasks) {
        ReplaceByIdKeepsTitled(tasks, currentTask.value);
      }
      tasks := ReplaceById(tasks, currentTask.value);
      currentTask := None;
    }

    /** Delete: every task with the id goes; the rest stay, in order. */
    method DeleteTask(id: string)
      modifies this`tasks
      ensures tasks == DeleteById(old(tasks), id)
      ensures AllTitled(old(tasks)) ==> AllTitled(tasks)
    {
      tasks := DeleteById(tasks, id);
    }

    /** Toggle: every task with the id has `completed` negated. */
    method ToggleTaskCompletion(id: string)
      modifies this`tasks
      ensures tasks == ToggleById(old(tasks), id)
      ensures AllTitled(old(tasks)) ==> AllTitled(tasks)
    {
      if AllTitled(tasks) {
        ToggleByIdKeepsTitled(tasks, id);
      }
      tasks := ToggleById(tasks, id);
    }

    /** Open the edit dialog on a task: the edit form starts as a copy of it. */
    method OpenEditDialog(task: Task)
      modifies this`currentTask
      ensures currentTask == Some(task)
    {
      currentTask := Some(task);
    }

    /**
     * The edit form's inputs: they overwrite the editable fields of the task being
     * edited and keep its id and creation time. The form is only on screen while a
     * task is being edited.
     */
    method ChangeEditForm(title: string, description: string, priority: Priority, category: string, completed: bool)
      requires currentTask.Some?
      modifies this`currentTask
      ensures currentTask.Some?
      ensures currentTask.value.id == old(currentTask).value.id
      ensures currentTask.value.createdAt == old(currentTask).value.createdAt
      ensures currentTask.value == old(currentTask).value.(title := title, description := description,
                                    priority := priority, category := category, completed := completed)
    {
      currentTask := Some(currentTask.value.(title := title, description := description,
                                             priority := priority, category := category, completed := completed));
    }

    /** The whole "new task" form, as its inputs leave it. */
    method SetNewTask(draft: Draft)
      modifies this`newTask
      ensures newTask == draft
    {
      newTask := draft;
    }

    method SetSearchQuery(query: string)
      modifies this`searchQuery
      ensures searchQuery == query
    {
      searchQuery := query;
    }

    method SetFilterStatus(status: StatusFilter)
      modifies this`filterStatus
      ensures filterStatus == status
    {
      filterStatus := status;
    }

    method SetFilterPriority(priority: PriorityFilter)
      modifies this`filterPriority
      ensures filterPriority == priority
    {
      filterPriority := priority;
    }

    /** Reset: all three filters back to their defaults, after which every task is shown, in order. */
    method ResetFilters()
      modifies this`searchQuery, this`filterStatus, this`filterPriority
      ensures searchQuery == "" && filterStatus == All && filterPriority == AnyPriority
      ensures Shown() == tasks
    {
      searchQuery := "";
      filterStatus := All;
      filterPriority := AnyPriority;
      FilterTasksNoFilters(tasks);
    }
  }

  /** Deleting from the stored list and then filtering shows what deleting from the shown list would. */
  lemma FilterAfterDelete(tasks: seq<Task>, id: string, query: string, status: StatusFilter, priority: PriorityFilter)
    ensures FilterTasks(DeleteById(tasks, id), query, status, priority)
         == DeleteById(FilterTasks(tasks, query, status, priority), id)
  {
    var both := (t: Task) => t.id != id && Passes(t, query, status, priority);
    FilterTasksIsConjunction(DeleteById(tasks, id), query, status, priority);
    FilterTasksIsConjunction(tasks, query, status, priority);
    KeepKeep(tasks, HasOtherId(id), Criteria(query, status, priority), both);
    KeepKeep(tasks, Criteria(query, status, priority), HasOtherId(id), both);
  }

  /**
   * Toggling a task moves it between the "completed" and "active" views: a task
   * shown under one status filter is, once toggled, shown under the other.
   */
  lemma ToggleSwapsStatusView(tasks: seq<Task>, i: int, query: string, priority: PriorityFilter)
    requires 0 <= i < |tasks|
    ensures tasks[i] in FilterTasks(tasks, query, Completed, priority) ==>
      ToggleById(tasks, tasks[i].id)[i] in FilterTasks(ToggleById(tasks, tasks[i].id), query, Active, priority)
    ensures tasks[i] in FilterTasks(tasks, query, Active, priority) ==>
      ToggleById(tasks, tasks[i].id)[i] in FilterTasks(ToggleById(tasks, tasks[i].id), query, Completed, priority)
  {
    var toggled := ToggleById(tasks, tasks[i].id);
    var t := toggled[i];
    FilterTasksMembership(tasks, query, Completed, priority);
    FilterTasksMembership(tasks, query, Active, priority);
    FilterTasksMembership(toggled, query, Active, priority);
    FilterTasksMembership(toggled, query, Completed, priority);
    assert t.title == tasks[i].title && t.description == tasks[i].description && t.priority == tasks[i].priority;
  }

  /**
   * The sequence of steps of a typical session: add "Buy milk" (low, shopping),
   * toggle it, and look at it under the "completed" and "active" filters.
   */
  method BuyMilkSession()
  {
    var app, done := AddAndToggleMilk();

    app.SetFilterStatus(Completed);
    app.RefreshFilteredTasks();
    assert app.filteredTasks == [done];

    app.SetFilterStatus(Active);
    app.RefreshFilteredTasks();
    assert app.filteredTasks == [];
  }

  /** The first half of the session: a fresh store, one task added and then toggled. */
  method AddAndToggleMilk() returns (app: TaskManager, done: Task)
    ensures fresh(app)
    ensures app.tasks == [done] && done.completed && done.title == "Buy milk"
    ensures app.searchQuery == "" && app.filterPriority == AnyPriority
  {
    app := new TaskManager();
    var milk := Draft("Buy milk", "", Low, "shopping");
    app.SetNewTask(milk);
    assert !IsWhitespace(milk.title[0]);
    app.AddTask("1", 0);
    done := Task("1", "Buy milk", "", true, Low, "shopping", 0);
    assert app.tasks == [done.(completed := false)];
    app.ToggleTaskCompletion("1");
  }
}
