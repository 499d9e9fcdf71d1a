/**
 * The older App component: always seeded, with the add form's text and
 * selected column kept in the component itself, and the same remove and
 * drag-and-drop handlers as the newer App.
 */
module LegacyApp {
  import opened Wrappers
  import opened Tasks
  import opened Strings

  class LegacyApp {
    const tasks: Board
    var newTaskContent: string
    var activeColumn: ColumnKey
    var draggingTask: Option<DragSession>

    ghost predicate Valid()
      reads this, tasks
    {
      && tasks.Valid()
      && activeColumn in tasks.columns
      && IsTrimmed(newTaskContent)
      && (draggingTask.Some? ==> draggingTask.value.column in tasks.columns)
    }

    ghost predicate Consistent()
      reads this, tasks
    {
      Tasks.Consistent(tasks.View(), draggingTask)
    }

    /** The board starts as the seed, the text empty, "todo" selected, no drag. */
    constructor ()
      ensures Valid() && Consistent() && fresh(tasks)
      ensures tasks.View() == InitialTasks()
      ensures newTaskContent == "" && activeColumn == "todo" && draggingTask == None
    {
      tasks := new Board(InitialTasks());
      newTaskContent := "";
      activeColumn := "todo";
      draggingTask := None;
    }

    /** The text field's `onChange`: store the trimmed value. */
    method OnContentChange(value: string)
      requires Valid()
      modifies this
      ensures Valid() && newTaskContent == Trim(value)
      ensures activeColumn == old(activeColumn) && draggingTask == old(draggingTask)
    {
      var trimmed := Trim(value);
      assert IsTrimmed(trimmed);
      newTaskContent := trimmed;
    }

    /** The selector's `onChange`; it offers only the board's keys. */
    method OnColumnChange(column: ColumnKey)
      requires Valid() && column in tasks.columns
      modifies this
      ensures Valid() && activeColumn == column
      ensures newTaskContent == old(newTaskContent) && draggingTask == old(draggingTask)
    {
      activeColumn := column;
    }

    /** `addTask`: refuse blank text; otherwise push a task with the fresh id and
        the current text onto the selected column and clear the text. */
    method AddTask(newId: TaskId)
      requires Valid()
      modifies this, tasks
      ensures Valid() && activeColumn == old(activeColumn) && draggingTask == old(draggingTask)
      ensures AllWhitespace(old(newTaskContent)) ==>
                tasks.View() == old(tasks.View()) && newTaskContent == old(newTaskContent)
      ensures !AllWhitespace(old(newTaskContent)) ==>
                && tasks.View() == Appended(old(tasks.View()), activeColumn, Task(newId, old(newTaskContent)))
                && newTaskContent == ""
      ensures (&& old(Consistent()) && old(Absent(tasks.View(), newId))
               && (draggingTask.Some? ==> draggingTask.value.item.id != newId)) ==> Consistent()
    {
      if Trim(newTaskContent) == "" {
        TrimEmpty(newTaskContent);
        return;
      }
      assert !AllWhitespace(newTaskContent) by { TrimEmpty(newTaskContent); }
      ghost var before := tasks.View();
      var task := Task(newId, newTaskContent);
      tasks.Push(activeColumn, task);
      if Tasks.Consistent(before, draggingTask) && Absent(before, newId)
         && (draggingTask.Some? ==> draggingTask.value.item.id != newId) {
        AppendedConsistent(before, draggingTask, activeColumn, task);
      }
      newTaskContent := "";
    }

    /** `removeTask`: filter every item with the id out of one column. */
    method RemoveTask(column: ColumnKey, id: TaskId)
      requires Valid() && column in tasks.columns
      modifies this, tasks
      ensures Valid() && tasks.View() == Removed(old(tasks.View()), column, id)
      ensures newTaskContent == old(newTaskContent) && activeColumn == old(activeColumn)
      ensures draggingTask == old(draggingTask)
      ensures old(Consistent()) ==> Consistent()
    {
      ghost var before := tasks.View();
      tasks.Filter(column, id);
      if Tasks.Consistent(before, draggingTask) {
        RemovedConsistent(before, draggingTask, column, id);
      }
    }

    /** `handleDragStart`: a new session replaces any earlier one. */
    method HandleDragStart(column: ColumnKey, item: Task)
      requires Valid() && column in tasks.columns
      modifies this
      ensures Valid() && draggingTask == Some(DragSession(column, item))
      ensures newTaskContent == old(newTaskContent) && activeColumn == old(activeColumn)
      ensures old(Unique(tasks.View())) && item in tasks.columns[column].items ==> Consistent()
    {
      draggingTask := Some(DragSession(column, item));
      if Unique(tasks.View()) && item in tasks.columns[column].items {
        DragStartConsistent(tasks.View(), column, item);
      }
    }

    /** `handleDrop`: as in the newer App. */
    method HandleDrop(column: ColumnKey)
      requires Valid() && column in tasks.columns
      modifies this, tasks
      ensures Valid() && newTaskContent == old(newTaskContent) && activeColumn == old(activeColumn)
      ensures old(draggingTask).None? ==> tasks.View() == old(tasks.View()) && draggingTask == None
      ensures old(draggingTask).Some? && old(draggingTask).value.column == column ==>
                tasks.View() == old(tasks.View()) && draggingTask == old(draggingTask)
      ensures old(draggingTask).Some? && old(draggingTask).value.column != column ==>
                && tasks.View() == Moved(old(tasks.View()), old(draggingTask).value.column, column,
                                         old(draggingTask).value.item)
                && draggingTask == None
      ensures old(Consistent()) ==> Consistent()
    {
      if draggingTask.None? {
        return;
      }
      var DragSession(source, item) := draggingTask.value;
      if source == column {
        return;
      }
      ghost var before := tasks.View();
      tasks.Filter(source, item.id);
      tasks.Push(column, item);
      if Tasks.Consistent(before, draggingTask) {
        MovedConsistent(before, draggingTask.value, column);
      }
      draggingTask := None;
    }
  }
}
