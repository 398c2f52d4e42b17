/**
 * The records the task list stores and the settings it filters by.
 */
module TaskModel {

  datatype Option<T> = None | Some(value: T)

  datatype Priority = Low | Medium | High

  /**
   * One to-do item. `id` is the decimal string of one clock reading and
   * `createdAt` (milliseconds) comes from a second, separate clock reading taken
   * just after, so the two can differ; both are supplied by the caller.
   * `category` is free text: the form offers personal, work, shopping, health and
   * education, but the record type does not restrict it.
   */
  datatype Task = Task(
    id: string,
    title: string,
    description: string,
    completed: bool,
    priority: Priority,
    category: string,
    createdAt: int)

  /** The "new task" form: what `handleAddTask` turns into a Task. */
  datatype Draft = Draft(title: string, description: string, priority: Priority, category: string)

  /** The form's initial value, and what it is reset to after a successful add. */
  const EmptyDraft := Draft("", "", Medium, "personal")

  /** The status dropdown: "all", "completed" or "active". */
  datatype StatusFilter = All | Completed | Active

  /** The priority dropdown: "all", or one priority. */
  datatype PriorityFilter = AnyPriority | Only(priority: Priority)
}
