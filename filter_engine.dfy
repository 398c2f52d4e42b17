/**
 * The filter effect of the task list: the displayed tasks are derived from the
 * stored tasks, the search query, the status filter and the priority filter.
 * `FilterTasks` runs the three stages in the order the effect does; `Passes`
 * states, predicate by predicate, which tasks ought to be shown.
 */
module FilterEngine {
  import opened Seqs
  import opened Text
  import opened TaskModel

  // ---- The three stages, as the effect writes them ----

  /** Search stage: the lowercased query is included in the lowercased title or description. */
  function SearchStage(query: string): Task -> bool
  {
    (t: Task) => Includes(Lower(t.title), Lower(query)) || Includes(Lower(t.description), Lower(query))
  }

  /** Status stage, only run when the status filter is not "all". */
  function StatusStage(status: StatusFilter): Task -> bool
  {
    (t: Task) => if status == Completed then t.completed else !t.completed
  }

  /** Priority stage, only run when the priority filter is not "all". */
  function PriorityStage(priority: PriorityFilter): Task -> bool
  {
    (t: Task) => priority == Only(t.priority)
  }

  /** The filtered list: each stage narrows the result of the previous one, or is skipped. */
  function FilterTasks(tasks: seq<Task>, query: string, status: StatusFilter, priority: PriorityFilter): (r: seq<Task>)
    ensures |r| <= |tasks|
    ensures forall t :: t in r ==> t in tasks && Passes(t, query, status, priority)
  {
    var afterSearch := if query != "" then Keep(tasks, SearchStage(query)) else tasks;
    var afterStatus := if status != All then Keep(afterSearch, StatusStage(status)) else afterSearch;
    if priority != AnyPriority then Keep(afterStatus, PriorityStage(priority)) else afterStatus
  }

  // ---- What each filter means ----

  /** An empty query matches everything; otherwise the query, ignoring case, occurs in the title or the description. */
  ghost predicate MatchesSearch(t: Task, query: string)
  {
    query == "" ||
    (exists i :: OccursAt(Lower(query), Lower(t.title), i)) ||
    (exists i :: OccursAt(Lower(query), Lower(t.description), i))
  }

  ghost predicate MatchesStatus(t: Task, status: StatusFilter)
  {
    match status
    case All => true
    case Completed => t.completed
    case Active => !t.completed
  }

  ghost predicate MatchesPriority(t: Task, priority: PriorityFilter)
  {
    match priority
    case AnyPriority => true
    case Only(p) => t.priority == p
  }

  /** A task is shown when it passes all three filters. */
  ghost predicate Passes(t: Task, query: string, status: StatusFilter, priority: PriorityFilter)
  {
    MatchesSearch(t, query) && MatchesStatus(t, status) && MatchesPriority(t, priority)
  }

  ghost function SearchSpec(query: string): Task -> bool { (t: Task) => MatchesSearch(t, query) }
  ghost function StatusSpec(status: StatusFilter): Task -> bool { (t: Task) => MatchesStatus(t, status) }
  ghost function PrioritySpec(priority: PriorityFilter): Task -> bool { (t: Task) => MatchesPriority(t, priority) }
  ghost function Criteria(query: string, status: StatusFilter, priority: PriorityFilter): Task -> bool
  {
    (t: Task) => Passes(t, query, status, priority)
  }

  // ---- Each stage, run or skipped, keeps exactly the tasks its filter accepts ----

  lemma SearchStageMeaning(tasks: seq<Task>, query: string)
    ensures (if query != "" then Keep(tasks, SearchStage(query)) else tasks) == Keep(tasks, SearchSpec(query))
  {
    if query != "" {
      assert forall t: Task :: SearchStage(query)(t) == SearchSpec(query)(t);
      KeepCongruent(tasks, SearchStage(query), SearchSpec(query));
    } else {
      KeepAll(tasks, SearchSpec(query));
    }
  }

  lemma StatusStageMeaning(tasks: seq<Task>, status: StatusFilter)
    ensures (if status != All then Keep(tasks, StatusStage(status)) else tasks) == Keep(tasks, StatusSpec(status))
  {
  }

  lemma PriorityStageMeaning(tasks: seq<Task>, priority: PriorityFilter)
    ensures (if priority != AnyPriority then Keep(tasks, PriorityStage(priority)) else tasks)
         == Keep(tasks, PrioritySpec(priority))
  {
  }

  // ---- Properties of the filtered list ----

  /** The staged filter is one Keep by the conjunction of the three filters. */
  lemma FilterTasksIsConjunction(tasks: seq<Task>, query: string, status: StatusFilter, priority: PriorityFilter)
    ensures FilterTasks(tasks, query, status, priority) == Keep(tasks, Criteria(query, status, priority))
  {
    var searchAndStatus := (t: Task) => MatchesSearch(t, query) && MatchesStatus(t, status);
    var afterSearch := if query != "" then Keep(tasks, SearchStage(query)) else tasks;
    var afterStatus := if status != All then Keep(afterSearch, StatusStage(status)) else afterSearch;
    SearchStageMeaning(tasks, query);
    StatusStageMeaning(afterSearch, status);
    PriorityStageMeaning(afterStatus, priority);
    KeepKeep(tasks, SearchSpec(query), StatusSpec(status), searchAndStatus);
    KeepKeep(tasks, searchAndStatus, PrioritySpec(priority), Criteria(query, status, priority));
  }

  /**
   * The filtered list is an order-preserving subsequence of the tasks, and each
   * task occurs in it as often as in the tasks if it passes all filters, else never.
   */
  lemma FilterTasksExact(tasks: seq<Task>, query: string, status: StatusFilter, priority: PriorityFilter)
    ensures IsSubsequence(FilterTasks(tasks, query, status, priority), tasks)
    ensures forall t :: multiset(FilterTasks(tasks, query, status, priority))[t]
                        == if Passes(t, query, status, priority) then multiset(tasks)[t] else 0
  {
    FilterTasksIsConjunction(tasks, query, status, priority);
    KeepIsSubsequence(tasks, Criteria(query, status, priority));
    forall t ensures multiset(FilterTasks(tasks, query, status, priority))[t]
                     == if Passes(t, query, status, priority) then multiset(tasks)[t] else 0
    {
      KeepCount(tasks, Criteria(query, status, priority), t);
    }
  }

  /** A task is shown exactly when it is stored and passes every filter. */
  lemma FilterTasksMembership(tasks: seq<Task>, query: string, status: StatusFilter, priority: PriorityFilter)
    ensures forall t :: t in FilterTasks(tasks, query, status, priority) <==> t in tasks && Passes(t, query, status, priority)
  {
    FilterTasksIsConjunction(tasks, query, status, priority);
    KeepMembership(tasks, Criteria(query, status, priority));
  }

  /** With no query and both filters on "all", every task is shown, in order. */
  lemma FilterTasksNoFilters(tasks: seq<Task>)
    ensures FilterTasks(tasks, "", All, AnyPriority) == tasks
  {
  }

  /**
   * "completed" shows exactly the completed tasks "all" shows, "active" exactly
   * the uncompleted ones, and together they are what "all" shows.
   */
  lemma StatusFiltersPartition(tasks: seq<Task>, query: string, priority: PriorityFilter)
    ensures forall t :: t in FilterTasks(tasks, query, Completed, priority)
                        <==> t in FilterTasks(tasks, query, All, priority) && t.completed
    ensures forall t :: t in FilterTasks(tasks, query, Active, priority)
                        <==> t in FilterTasks(tasks, query, All, priority) && !t.completed
    ensures multiset(FilterTasks(tasks, query, Completed, priority)) + multiset(FilterTasks(tasks, query, Active, priority))
         == multiset(FilterTasks(tasks, query, All, priority))
  {
    var shown := FilterTasks(tasks, query, All, priority);
    FilterTasksMembership(tasks, query, Completed, priority);
    FilterTasksMembership(tasks, query, Active, priority);
    FilterTasksMembership(tasks, query, All, priority);
    FilterTasksIsConjunction(tasks, query, All, priority);
    FilterTasksIsConjunction(tasks, query, Completed, priority);
    FilterTasksIsConjunction(tasks, query, Active, priority);
    KeepKeep(tasks, Criteria(query, All, priority), StatusSpec(Completed), Criteria(query, Completed, priority));
    KeepKeep(tasks, Criteria(query, All, priority), StatusSpec(Active), Criteria(query, Active, priority));
    KeepPartition(shown, StatusSpec(Completed), StatusSpec(Active));
  }

  /** The search ignores case: queries that lowercase alike show the same tasks. */
  lemma SearchIgnoresCase(tasks: seq<Task>, q1: string, q2: string, status: StatusFilter, priority: PriorityFilter)
    requires Lower(q1) == Lower(q2)
    ensures FilterTasks(tasks, q1, status, priority) == FilterTasks(tasks, q2, status, priority)
  {
  }

  /** Searching last gives the same list. */
  lemma SearchLastSameResult(tasks: seq<Task>, query: string, status: StatusFilter, priority: PriorityFilter)
    ensures FilterTasks(FilterTasks(tasks, "", status, priority), query, All, AnyPriority)
         == FilterTasks(tasks, query, status, priority)
  {
    FilterTasksIsConjunction(tasks, "", status, priority);
    FilterTasksIsConjunction(FilterTasks(tasks, "", status, priority), query, All, AnyPriority);
    FilterTasksIsConjunction(tasks, query, status, priority);
    KeepKeep(tasks, Criteria("", status, priority), Criteria(query, All, AnyPriority), Criteria(query, status, priority));
  }

  /**
   * Applying two sets of filter settings one after the other gives the same list
   * in either order. Each single stage is a FilterTasks call with the other two
   * settings at their defaults, so any two stages can be swapped;
   * `StagesReversedSameResult` uses this for the reversed order.
   */
  lemma FilterTasksCommute(tasks: seq<Task>, q1: string, s1: StatusFilter, p1: PriorityFilter,
                           q2: string, s2: StatusFilter, p2: PriorityFilter)
    ensures FilterTasks(FilterTasks(tasks, q1, s1, p1), q2, s2, p2)
         == FilterTasks(FilterTasks(tasks, q2, s2, p2), q1, s1, p1)
  {
    var both := (t: Task) => Passes(t, q1, s1, p1) && Passes(t, q2, s2, p2);
    FilterTasksIsConjunction(tasks, q1, s1, p1);
    FilterTasksIsConjunction(tasks, q2, s2, p2);
    FilterTasksIsConjunction(FilterTasks(tasks, q1, s1, p1), q2, s2, p2);
    FilterTasksIsConjunction(FilterTasks(tasks, q2, s2, p2), q1, s1, p1);
    KeepKeep(tasks, Criteria(q1, s1, p1), Criteria(q2, s2, p2), both);
    KeepKeep(tasks, Criteria(q2, s2, p2), Criteria(q1, s1, p1), both);
  }

  /** Running the stages in reverse order (priority, then status, then search) gives the effect's result. */
  lemma StagesReversedSameResult(tasks: seq<Task>, query: string, status: StatusFilter, priority: PriorityFilter)
    ensures FilterTasks(FilterTasks(FilterTasks(tasks, "", All, priority), "", status, AnyPriority), query, All, AnyPriority)
         == FilterTasks(tasks, query, status, priority)
  {
    var bySearch := FilterTasks(tasks, query, All, AnyPriority);
    FilterTasksCommute(bySearch, "", status, AnyPriority, "", All, priority);
    FilterTasksCommute(tasks, query, All, AnyPriority, "", All, priority);
    FilterTasksCommute(FilterTasks(tasks, "", All, priority), query, All, AnyPriority, "", status, AnyPriority);
  }

  /** Filtering an already filtered list with the same settings changes nothing. */
  lemma FilterTasksIdempotent(tasks: seq<Task>, query: string, status: StatusFilter, priority: PriorityFilter)
    ensures FilterTasks(FilterTasks(tasks, query, status, priority), query, status, priority)
         == FilterTasks(tasks, query, status, priority)
  {
    var shown := FilterTasks(tasks, query, status, priority);
    FilterTasksMembership(tasks, query, status, priority);
    FilterTasksIsConjunction(shown, query, status, priority);
    KeepAll(shown, Criteria(query, status, priority));
  }

  /** A task put in front of the list is shown in front of the old filtered list when it passes, and not at all otherwise. */
  lemma FilterAfterPrepend(t: Task, tasks: seq<Task>, query: string, status: StatusFilter, priority: PriorityFilter)
    ensures FilterTasks([t] + tasks, query, status, priority)
         == (if Passes(t, query, status, priority) then [t] else []) + FilterTasks(tasks, query, status, priority)
  {
    FilterTasksIsConjunction([t] + tasks, query, status, priority);
    FilterTasksIsConjunction(tasks, query, status, priority);
    assert ([t] + tasks)[1..] == tasks;
  }
}
