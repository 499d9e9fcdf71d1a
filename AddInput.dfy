/**
 * The input bar of the newer App: a text field whose value is stored trimmed,
 * a selector of the column to add to, and the add action that hands a new
 * task to the board through the `addingTask` callback.
 */
module AddInput {
  import opened Wrappers
  import opened Tasks
  import opened Strings

  /** The call `addingTask(newTask, activeColumn)` the add action makes. */
  datatype AddRequest = AddRequest(task: Task, column: ColumnKey)

  /** One `<option>` of the column selector: its value and its caption. */
  datatype ColumnOption = ColumnOption(value: ColumnKey, caption: string)

  /** The selector offers one option per board key, in the board's key order,
      captioned with the column's name. */
  function SelectorOptions(keys: seq<ColumnKey>, columns: map<ColumnKey, Column>): (r: seq<ColumnOption>)
    requires forall k :: k in keys ==> k in columns
    ensures |r| == |keys|
    ensures forall i :: 0 <= i < |r| ==> r[i].value == keys[i] && r[i].caption == columns[keys[i]].name
  {
    if keys == [] then []
    else [ColumnOption(keys[0], columns[keys[0]].name)] + SelectorOptions(keys[1..], columns)
  }

  /** Every option names a column of the board and every column is offered. */
  lemma SelectorCoversBoard(s: Snapshot)
    requires WellFormed(s)
    ensures forall o :: o in SelectorOptions(s.keys, s.columns) ==> o.value in s.columns
    ensures forall k :: k in s.columns ==> ColumnOption(k, s.columns[k].name) in SelectorOptions(s.keys, s.columns)
  {
    var r := SelectorOptions(s.keys, s.columns);
    forall k | k in s.columns ensures ColumnOption(k, s.columns[k].name) in r {
      var i :| 0 <= i < |s.keys| && s.keys[i] == k;
      assert r[i] == ColumnOption(k, s.columns[k].name);
    }
  }

  /** Because the stored text is trimmed on every change, a space typed after
      the text is dropped at once. */
  lemma TypedTrailingSpaceDropped(content: string)
    requires IsTrimmed(content) && content != ""
    ensures Trim(content + " ") == content
  {
    var s := content + " ";
    assert Leading(s) == 0;
    assert s[..|s| - 1] == content;
    assert Trailing(s) == 1;
  }

  class AddInput {
    var newTaskContent: string
    var activeColumn: ColumnKey

    /** The stored text never starts or ends with white space. */
    ghost predicate Valid()
      reads this
    {
      IsTrimmed(newTaskContent)
    }

    constructor ()
      ensures Valid() && newTaskContent == "" && activeColumn == "todo"
    {
      newTaskContent := "";
      activeColumn := "todo";
    }

    /** The text field's `onChange`: store the trimmed value. */
    method OnContentChange(value: string)
      modifies this
      ensures Valid() && newTaskContent == Trim(value) && activeColumn == old(activeColumn)
    {
      newTaskContent := Trim(value);
    }

    /** The selector's `onChange`: the only way the active column changes. */
    method OnColumnChange(column: ColumnKey)
      modifies this
      ensures Valid() == old(Valid())
      ensures activeColumn == column && newTaskContent == old(newTaskContent)
    {
      activeColumn := column;
    }

    /** `handleAddTask`: refuse blank text; otherwise request one add of a task
        carrying the current text and the fresh id, then clear the text. */
    method HandleAddTask(newId: TaskId) returns (request: Option<AddRequest>)
      requires Valid()
      modifies this
      ensures Valid() && activeColumn == old(activeColumn)
      ensures request.None? <==> AllWhitespace(old(newTaskContent))
      ensures request.None? ==> newTaskContent == old(newTaskContent)
      ensures request.Some? ==>
                && request.value == AddRequest(Task(newId, old(newTaskContent)), old(activeColumn))
                && newTaskContent == ""
      ensures request.Some? ==> request.value.task.content != "" && IsTrimmed(request.value.task.content)
    {
      if Trim(newTaskContent) == "" {
        TrimEmpty(newTaskContent);
        return None;
      }
      assert !AllWhitespace(newTaskContent) by { TrimEmpty(newTaskContent); }
      request := Some(AddRequest(Task(newId, newTaskContent), activeColumn));
      newTaskContent := "";
    }
  }
}
