/**
 * The newer App component: the board loaded from storage or seeded, the
 * display theme, the drag session, and the handlers that change them. Adding
 * goes through the AddInput component's callback.
 */
module App {
  import opened Wrappers
  import opened Tasks
  import AddInput
  import Strings

  /** The result of reading one storage entry: reading (or parsing) failed,
      there was no usable entry, or the entry holds a value. */
  datatype Stored<T> = Unavailable | Missing | Found(value: T)

  /** `toggleTheme`: "dark" becomes "light", anything else becomes "dark". */
  function ToggledTheme(prev: string): (next: string)
    ensures next == "light" || next == "dark"
    ensures next == "light" <==> prev == "dark"
  {
    if prev == "dark" then "light" else "dark"
  }

  lemma ToggleTwice(theme: string)
    requires theme == "light" || theme == "dark"
    ensures ToggledTheme(ToggledTheme(theme)) == theme
  {
  }

  /** The starting theme: a stored "light" or "dark" wins; otherwise the
      system's dark-mode preference decides; a failed read gives "light". */
  function InitialTheme(saved: Stored<string>, prefersDark: bool): (theme: string)
    ensures theme == "light" || theme == "dark"
    ensures saved.Found? && (saved.value == "light" || saved.value == "dark") ==> theme == saved.value
    ensures saved.Missing? || (saved.Found? && saved.value != "light" && saved.value != "dark") ==>
              (theme == "dark" <==> prefersDark)
    ensures saved.Unavailable? ==> theme == "light"
  {
    if saved.Unavailable? then "light"
    else if saved.Found? && (saved.value == "light" || saved.value == "dark") then saved.value
    else if prefersDark then "dark" else "light"
  }

  class App {
    const tasks: Board
    var theme: string
    var draggingTask: Option<DragSession>

    ghost predicate Valid()
      reads this, tasks
    {
      && tasks.Valid()
      && (theme == "light" || theme == "dark")
      && (draggingTask.Some? ==> draggingTask.value.column in tasks.columns)
    }

    /** Ids are unique across the board and the dragged task is in no column but its source. */
    ghost predicate Consistent()
      reads this, tasks
    {
      Tasks.Consistent(tasks.View(), draggingTask)
    }

    /** The board starts from the stored snapshot, or from the seed when the
        entry is missing or cannot be read or parsed. */
    constructor (savedTasks: Stored<Snapshot>, savedTheme: Stored<string>, prefersDark: bool)
      requires savedTasks.Found? ==> WellFormed(savedTasks.value)
      ensures Valid() && fresh(tasks)
      ensures savedTasks.Found? ==> tasks.View() == savedTasks.value
      ensures !savedTasks.Found? ==> tasks.View() == InitialTasks()
      ensures theme == InitialTheme(savedTheme, prefersDark) && draggingTask == None
      ensures (savedTasks.Found? ==> Unique(savedTasks.value)) ==> Consistent()
    {
      tasks := new Board(if savedTasks.Found? then savedTasks.value else InitialTasks());
      theme := InitialTheme(savedTheme, prefersDark);
      draggingTask := None;
    }

    method ToggleTheme()
      requires Valid()
      modifies this
      ensures Valid() && theme == ToggledTheme(old(theme))
      ensures draggingTask == old(draggingTask)
    {
      theme := ToggledTheme(theme);
    }

    /** `onAddTask`: push the task onto the column, with no check of its own. */
    method OnAddTask(task: Task, column: ColumnKey)
      requires Valid() && column in tasks.columns
      modifies this, tasks
      ensures Valid() && tasks.View() == Appended(old(tasks.View()), column, task)
      ensures theme == old(theme) && draggingTask == old(draggingTask)
      ensures (&& old(Consistent()) && old(Absent(tasks.View(), task.id))
               && (draggingTask.Some? ==> draggingTask.value.item.id != task.id)) ==> Consistent()
    {
      ghost var before := tasks.View();
      tasks.Push(column, task);
      if Tasks.Consistent(before, draggingTask) && Absent(before, task.id)
         && (draggingTask.Some? ==> draggingTask.value.item.id != task.id) {
        AppendedConsistent(before, draggingTask, column, task);
      }
    }

    /** `removeTask`: filter every item with the id out of one column. */
    method RemoveTask(column: ColumnKey, id: TaskId)
      requires Valid() && column in tasks.columns
      modifies this, tasks
      ensures Valid() && tasks.View() == Removed(old(tasks.View()), column, id)
      ensures theme == old(theme) && draggingTask == old(draggingTask)
      ensures old(Consistent()) ==> Consistent()
    {
      ghost var before := tasks.View();
      tasks.Filter(column, id);
      if Tasks.Consistent(before, draggingTask) {
        RemovedConsistent(before, draggingTask, column, id);
      }
    }

    /** `handleDragStart`: a new session replaces any earlier one. */
    method HandleDragStart(column: ColumnKey, item: Task)
      requires Valid() && column in tasks.columns
      modifies this
      ensures Valid() && draggingTask == Some(DragSession(column, item)) && theme == old(theme)
      ensures old(Unique(tasks.View())) && item in tasks.columns[column].items ==> Consistent()
    {
      draggingTask := Some(DragSession(column, item));
      if Unique(tasks.View()) && item in tasks.columns[column].items {
        DragStartConsistent(tasks.View(), column, item);
      }
    }

    /** `handleDrop`: without a session, or onto the session's own column, nothing
        happens (and in the second case the session stays); otherwise the item's
        id is filtered out of the source, the item is pushed onto the target and
        the session ends. Whether the item is still on the board is not checked. */
    method HandleDrop(column: ColumnKey)
      requires Valid() && column in tasks.columns
      modifies this, tasks
      ensures Valid() && theme == old(theme)
      ensures old(draggingTask).None? ==> tasks.View() == old(tasks.View()) && draggingTask == None
      ensures old(draggingTask).Some? && old(draggingTask).value.column == column ==>
                tasks.View() == old(tasks.View()) && draggingTask == old(draggingTask)
      ensures old(draggingTask).Some? && old(draggingTask).value.column != column ==>
                && tasks.View() == Moved(old(tasks.View()), old(draggingTask).value.column, column,
                                         old(draggingTask).value.item)
                && draggingTask == None
      ensures old(Consistent()) ==> Consistent()
    {
      if draggingTask.None? {
        return;
      }
      var DragSession(source, item) := draggingTask.value;
      if source == column {
        return;
      }
      ghost var before := tasks.View();
      tasks.Filter(source, item.id);
      tasks.Push(column, item);
      if Tasks.Consistent(before, draggingTask) {
        MovedConsistent(before, draggingTask.value, column);
      }
      draggingTask := None;
    }

    /** The AddInput component wired to `onAddTask`: a non-blank text becomes a
        task at the tail of the selected column and the text is cleared. */
    method Submit(input: AddInput.AddInput, newId: TaskId)
      requires Valid() && input.Valid() && input.activeColumn in tasks.columns
      modifies this, tasks, input
      ensures Valid() && input.Valid() && theme == old(theme) && draggingTask == old(draggingTask)
      ensures input.activeColumn == old(input.activeColumn)
      ensures Strings.AllWhitespace(old(input.newTaskContent)) ==>
                tasks.View() == old(tasks.View()) && input.newTaskContent == old(input.newTaskContent)
      ensures !Strings.AllWhitespace(old(input.newTaskContent)) ==>
                && tasks.View() == Appended(old(tasks.View()), old(input.activeColumn),
                                            Task(newId, old(input.newTaskContent)))
                && input.newTaskContent == ""
      ensures (&& old(Consistent()) && old(Absent(tasks.View(), newId))
               && (draggingTask.Some? ==> draggingTask.value.item.id != newId)) ==> Consistent()
    {
      var request := input.HandleAddTask(newId);
      if request.Some? {
        OnAddTask(request.value.task, request.value.column);
      }
    }
  }
}
