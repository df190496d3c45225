/**
 The `TaskManager` object of the application: the list of tasks, the selected
 filter and the guard flag that makes a toggle ignore clicks while another one
 is in progress. Its methods change these fields in place and return the
 notification they show, if any.

 What the browser supplies becomes a parameter: the id taken from the clock
 when a task is added, the already trimmed text of the input field, the answer
 to the confirmation dialog, and the list read back from local storage.

 Each method that changes the list saves it and refreshes the page afterwards,
 with nothing to catch an exception there (local storage may refuse the write
 when it is full, for one). The parameter `saveThrows` says whether that
 happens: the change to the list has then already been made and stays, and the
 rest of the method, its notification included, is skipped.
 */
module App {
  import opened TaskList
  import opened Messages

  /** The filter selected when the application starts. */
  const InitialFilter := "all"

  class TaskManager {
    var tasks: seq<Task>
    var currentFilter: string
    var isProcessing: bool

    /**
     `stored` is the list read back from local storage: `None` when nothing was
     stored or what was stored did not parse, which both start an empty list.
     */
    constructor (stored: Option<seq<Task>>)
      ensures tasks == (if stored.Some? then stored.value else [])
      ensures currentFilter == InitialFilter && !isProcessing
    {
      tasks := if stored.Some? then stored.value else [];
      currentFilter := InitialFilter;
      isProcessing := false;
    }

    /** `addTask`: an empty text is ignored; otherwise a new pending task goes first. */
    method AddTask(id: string, text: string, saveThrows: bool) returns (toast: Option<Toast>)
      modifies this
      ensures text == "" ==> tasks == old(tasks) && toast == None
      ensures text != "" ==> tasks == [Task(id, text, false)] + old(tasks)
      ensures text != "" ==> toast == if saveThrows then None else Some(AddedToast(text))
      ensures currentFilter == old(currentFilter) && isProcessing == old(isProcessing)
    {
      if text == "" {
        return None;
      }
      tasks := [Task(id, text, false)] + tasks;
      if saveThrows {
        return None;
      }
      toast := Some(AddedToast(text));
    }

    /**
     `toggleTask`: ignored while the guard is raised and for an unknown id;
     otherwise flips the first task with the id. The guard is raised for the
     duration of the update and lowered at its end; when saving throws it is never
     lowered, so every later toggle is ignored.
     */
    method ToggleTask(id: string, saveThrows: bool) returns (toast: Option<Toast>)
      modifies this
      ensures old(isProcessing) ==> tasks == old(tasks) && toast == None
      ensures !old(isProcessing) ==> tasks == Toggled(old(tasks), id)
      ensures !old(isProcessing) ==>
        match FirstIndex(old(tasks), id)
        case None => toast == None
        case Some(i) => toast == if saveThrows then None else Some(ToggledToast(tasks[i]))
      ensures isProcessing == (old(isProcessing) || (saveThrows && FirstIndex(old(tasks), id).Some?))
      ensures currentFilter == old(currentFilter)
    {
      if isProcessing {
        return None;
      }
      var found := FirstIndex(tasks, id);
      if found.None? {
        return None;
      }
      var i := found.value;
      isProcessing := true;
      tasks := tasks[i := tasks[i].(completed := !tasks[i].completed)];
      if saveThrows {
        return None;
      }
      toast := Some(ToggledToast(tasks[i]));
      isProcessing := false;
    }

    /** `deleteTask`: when confirmed, drops every task with the id. */
    method DeleteTask(id: string, confirmed: bool, saveThrows: bool) returns (toast: Option<Toast>)
      modifies this
      ensures tasks == if confirmed then Filter(old(tasks), KeepOtherThan(id)) else old(tasks)
      ensures toast == if confirmed && !saveThrows then Some(DeletedToast) else None
      ensures currentFilter == old(currentFilter) && isProcessing == old(isProcessing)
    {
      toast := None;
      if confirmed {
        tasks := Filter(tasks, KeepOtherThan(id));
        if saveThrows {
          return None;
        }
        toast := Some(DeletedToast);
      }
    }

    /**
     `clearCompleted`: when some task is completed and the user confirms, keeps
     only the pending tasks. With no completed task it returns before asking, which
     leaves the same list as clearing would.
     */
    method ClearCompleted(confirmed: bool, saveThrows: bool) returns (toast: Option<Toast>)
      modifies this
      ensures tasks == if confirmed then Filter(old(tasks), KeepPending) else old(tasks)
      ensures var count := |Filter(old(tasks), KeepCompleted)|;
        toast == if confirmed && count > 0 && !saveThrows then Some(ClearedToast(count)) else None
      ensures currentFilter == old(currentFilter) && isProcessing == old(isProcessing)
    {
      var count := |Filter(tasks, KeepCompleted)|;
      if count == 0 {
        FilterEmpty(tasks, KeepCompleted);
        ClearNoneCompleted(tasks);
        return None;
      }
      toast := None;
      if confirmed {
        tasks := Filter(tasks, KeepPending);
        if saveThrows {
          return None;
        }
        toast := Some(ClearedToast(count));
      }
    }

    /** `setFilter`: selects the filter the list is shown through. */
    method SetFilter(filter: string)
      modifies this
      ensures currentFilter == filter
      ensures tasks == old(tasks) && isProcessing == old(isProcessing)
    {
      currentFilter := filter;
    }

    /** `getFilteredTasks`: what the selected filter shows. */
    function FilteredTasks(): (r: seq<Task>)
      reads this
      ensures forall t :: t in r <==>
        t in tasks && (currentFilter == "pending" ==> !t.completed) && (currentFilter == "completed" ==> t.completed)
      ensures multiset(r) <= multiset(tasks)
      ensures currentFilter == "pending" ==> r == Filter(tasks, KeepPending)
      ensures currentFilter == "completed" ==> r == Filter(tasks, KeepCompleted)
      ensures currentFilter != "pending" && currentFilter != "completed" ==> r == tasks
    {
      FilteredView(tasks, currentFilter)
    }

    /** The figures `updateStats` writes into the statistics panel. */
    function CurrentStats(): (r: Stats)
      reads this
      ensures r.total == |tasks| && r.pending + r.completed == r.total
      ensures r.completed == |Filter(tasks, KeepCompleted)|
      ensures r.percentage == Percentage(r.completed, r.total) && r.percentage <= 100
    {
      Statistics(tasks)
    }

    /** The figures `updateFilters` writes next to the filter buttons. */
    function CurrentBadges(): (r: Badges)
      reads this
      ensures r.all == |tasks| && r.pending + r.completed == r.all
      ensures r.completed == |Filter(tasks, KeepCompleted)|
      ensures r == Badges(CurrentStats().total, CurrentStats().pending, CurrentStats().completed)
    {
      FilterBadges(tasks)
    }
  }
}
