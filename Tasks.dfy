/**
 * The board shared by both App components: columns keyed by a string, each
 * holding a display name and an ordered list of tasks, and the three ways the
 * board changes (append a task, filter a task out by id, move a task to the
 * tail of another column).
 *
 * The pure functions on `Snapshot` values are the specification; the class
 * `Board` is the object the components mutate in place (the `{ ...tasks }`
 * copy in the source is shallow, so every `items.push` and `items =` changes
 * the column objects the board already holds).
 */
module Tasks {
  import opened Wrappers

  /** Seeded tasks carry numbers and created tasks carry UUID strings; the
      source compares ids with `!==`, so a number never equals a string. */
  datatype TaskId = Numeric(n: int) | Uuid(text: string)

  datatype Task = Task(id: TaskId, content: string)

  type ColumnKey = string

  datatype Column = Column(name: string, items: seq<Task>)

  /** The whole board: column keys in display order, and each key's column. */
  datatype Snapshot = Snapshot(keys: seq<ColumnKey>, columns: map<ColumnKey, Column>)

  /** An in-flight drag: the column the task was picked up from and the task. */
  datatype DragSession = DragSession(column: ColumnKey, item: Task)

  predicate DistinctKeys(keys: seq<ColumnKey>) {
    forall i, j :: 0 <= i < j < |keys| ==> keys[i] != keys[j]
  }

  /** The keys listed in order are exactly the keys of the column map. */
  predicate WellFormed(s: Snapshot) {
    && DistinctKeys(s.keys)
    && (forall k :: k in s.keys ==> k in s.columns)
    && (forall k :: k in s.columns ==> k in s.keys)
  }

  // ---------------------------------------------------------------------------
  // Counting and filtering one column's items
  // ---------------------------------------------------------------------------

  /** How many items of the list carry the id. */
  function Occurrences(items: seq<Task>, id: TaskId): nat {
    if items == [] then 0
    else Occurrences(items[..|items| - 1], id) + (if items[|items| - 1].id == id then 1 else 0)
  }

  lemma {:induction false} OccurrencesOfMember(items: seq<Task>, t: Task)
    requires t in items
    ensures Occurrences(items, t.id) > 0
  {
    var last := items[|items| - 1];
    if last != t {
      assert t in items[..|items| - 1] by {
        var i :| 0 <= i < |items| && items[i] == t;
        assert i < |items| - 1;
        assert items[..|items| - 1][i] == t;
      }
      OccurrencesOfMember(items[..|items| - 1], t);
    }
  }

  /** `items.filter(task => task.id !== id)`: every item with another id, in order. */
  function Without(items: seq<Task>, id: TaskId): (r: seq<Task>)
    ensures forall x :: Occurrences(r, x) == if x == id then 0 else Occurrences(items, x)
    ensures |r| == |items| - Occurrences(items, id)
  {
    if items == [] then []
    else
      var rest := Without(items[..|items| - 1], id);
      var last := items[|items| - 1];
      assert items == items[..|items| - 1] + [last];
      if last.id == id then rest
      else
        assert (rest + [last])[..|rest|] == rest;
        rest + [last]
  }

  /** Filtering distributes over concatenation: the kept items stay in their order. */
  lemma {:induction false} WithoutAppend(a: seq<Task>, b: seq<Task>, id: TaskId)
    ensures Without(a + b, id) == Without(a, id) + Without(b, id)
  {
    if b == [] {
      assert a + b == a;
    } else {
      var init := b[..|b| - 1];
      assert (a + b)[..|a + b| - 1] == a + init;
      WithoutAppend(a, init, id);
    }
  }

  /** Filtering out an id the list does not hold changes nothing. */
  lemma {:induction false} WithoutAbsent(items: seq<Task>, id: TaskId)
    requires Occurrences(items, id) == 0
    ensures Without(items, id) == items
  {
    if items != [] {
      WithoutAbsent(items[..|items| - 1], id);
      assert items == items[..|items| - 1] + [items[|items| - 1]];
    }
  }

  lemma WithoutIdempotent(items: seq<Task>, id: TaskId)
    ensures Without(Without(items, id), id) == Without(items, id)
  {
    WithoutAbsent(Without(items, id), id);
  }

  // ---------------------------------------------------------------------------
  // The board as a value
  // ---------------------------------------------------------------------------

  /** How many times the id occurs in column `k` (zero for a key the board lacks). */
  function InColumn(s: Snapshot, k: ColumnKey, id: TaskId): nat {
    if k in s.columns then Occurrences(s.columns[k].items, id) else 0
  }

  /** The central invariant: every id that occurs at all occurs once, in one column. */
  ghost predicate Unique(s: Snapshot) {
    && (forall k, id :: InColumn(s, k, id) <= 1)
    && (forall k1, k2, id :: k1 != k2 && InColumn(s, k1, id) > 0 ==> InColumn(s, k2, id) == 0)
  }

  /** The id occurs in no column. */
  ghost predicate Absent(s: Snapshot, id: TaskId) {
    forall k :: InColumn(s, k, id) == 0
  }

  /** A drag session is consistent with the board when its source column exists
      and the dragged id occurs in no other column. */
  ghost predicate SessionConsistent(s: Snapshot, session: Option<DragSession>) {
    session.Some? ==>
      && session.value.column in s.columns
      && forall k :: k != session.value.column ==> InColumn(s, k, session.value.item.id) == 0
  }

  ghost predicate Consistent(s: Snapshot, session: Option<DragSession>) {
    Unique(s) && SessionConsistent(s, session)
  }

  /** Only the items of column `c` change, by one task at the tail. */
  function Appended(s: Snapshot, c: ColumnKey, t: Task): (r: Snapshot)
    requires c in s.columns
    ensures r.keys == s.keys && r.columns.Keys == s.columns.Keys
    ensures forall k :: k in s.columns ==> r.columns[k].name == s.columns[k].name
    ensures forall k :: k in s.columns && k != c ==> r.columns[k] == s.columns[k]
    ensures |r.columns[c].items| == |s.columns[c].items| + 1
    ensures r.columns[c].items[..|s.columns[c].items|] == s.columns[c].items
    ensures r.columns[c].items[|s.columns[c].items|] == t
    ensures forall k, x :: InColumn(r, k, x) == InColumn(s, k, x) + (if k == c && x == t.id then 1 else 0)
  {
    var items := s.columns[c].items + [t];
    assert items[..|items| - 1] == s.columns[c].items;
    s.(columns := s.columns[c := s.columns[c].(items := items)])
  }

  /** Only the items of column `c` change: every item with the id is dropped. */
  function Removed(s: Snapshot, c: ColumnKey, id: TaskId): (r: Snapshot)
    requires c in s.columns
    ensures r.keys == s.keys && r.columns.Keys == s.columns.Keys
    ensures forall k :: k in s.columns ==> r.columns[k].name == s.columns[k].name
    ensures forall k :: k in s.columns && k != c ==> r.columns[k] == s.columns[k]
    ensures forall k, x :: InColumn(r, k, x) == if k == c && x == id then 0 else InColumn(s, k, x)
  {
    s.(columns := s.columns[c := s.columns[c].(items := Without(s.columns[c].items, id))])
  }

  /** The net effect of a drop: filter the item's id out of `from`, then push the item onto `to`. */
  function Moved(s: Snapshot, from: ColumnKey, to: ColumnKey, item: Task): (r: Snapshot)
    requires from in s.columns && to in s.columns
    ensures r.keys == s.keys && r.columns.Keys == s.columns.Keys
    ensures forall k :: k in s.columns ==> r.columns[k].name == s.columns[k].name
    ensures forall k :: k in s.columns && k != from && k != to ==> r.columns[k] == s.columns[k]
    ensures forall k, x :: InColumn(r, k, x) ==
                          (if k == from && x == item.id then 0 else InColumn(s, k, x))
                          + (if k == to && x == item.id then 1 else 0)
    ensures from != to ==> r.columns[from].items == Without(s.columns[from].items, item.id)
    ensures from != to ==> r.columns[to].items == s.columns[to].items + [item]
  {
    Appended(Removed(s, from, item.id), to, item)
  }

  // ---------------------------------------------------------------------------
  // Properties of the board operations
  // ---------------------------------------------------------------------------

  /** Removing an id a column does not hold leaves the board as it was. */
  lemma RemovedAbsent(s: Snapshot, c: ColumnKey, id: TaskId)
    requires c in s.columns && InColumn(s, c, id) == 0
    ensures Removed(s, c, id) == s
  {
    WithoutAbsent(s.columns[c].items, id);
    assert Removed(s, c, id).columns == s.columns;
  }

  /** Removing twice is removing once. */
  lemma RemovedIdempotent(s: Snapshot, c: ColumnKey, id: TaskId)
    requires c in s.columns
    ensures Removed(Removed(s, c, id), c, id) == Removed(s, c, id)
  {
    RemovedAbsent(Removed(s, c, id), c, id);
  }

  /** The kept items of the column keep their order: removing from a column
      built as `a + b` is removing from each part. */
  lemma RemovedKeepsOrder(s: Snapshot, c: ColumnKey, id: TaskId, a: seq<Task>, b: seq<Task>)
    requires c in s.columns && s.columns[c].items == a + b
    ensures Removed(s, c, id).columns[c].items == Without(a, id) + Without(b, id)
  {
    WithoutAppend(a, b, id);
  }

  /** The item-count badge of column `c` drops by the number of removed items. */
  lemma RemovedLength(s: Snapshot, c: ColumnKey, id: TaskId)
    requires c in s.columns
    ensures |Removed(s, c, id).columns[c].items| == |s.columns[c].items| - InColumn(s, c, id)
  {
  }

  /** Adding a task whose id is new keeps ids unique and puts the id in exactly column `c`. */
  lemma AppendedKeepsUnique(s: Snapshot, c: ColumnKey, t: Task)
    requires c in s.columns && Unique(s) && Absent(s, t.id)
    ensures Unique(Appended(s, c, t))
    ensures InColumn(Appended(s, c, t), c, t.id) == 1
  {
  }

  lemma RemovedKeepsUnique(s: Snapshot, c: ColumnKey, id: TaskId)
    requires c in s.columns && Unique(s)
    ensures Unique(Removed(s, c, id))
    ensures InColumn(Removed(s, c, id), c, id) == 0
  {
  }

  /** Moving a task that lives only in its source column to another column keeps
      ids unique; afterwards the id is held by the destination alone, at its tail. */
  lemma MovedKeepsUnique(s: Snapshot, from: ColumnKey, to: ColumnKey, item: Task)
    requires from in s.columns && to in s.columns && from != to
    requires Unique(s)
    requires forall k :: k != from ==> InColumn(s, k, item.id) == 0
    ensures Unique(Moved(s, from, to, item))
    ensures InColumn(Moved(s, from, to, item), to, item.id) == 1
    ensures forall k :: k != to ==> InColumn(Moved(s, from, to, item), k, item.id) == 0
    ensures Moved(s, from, to, item).columns[to].items == s.columns[to].items + [item]
  {
  }

  /** A drop whose task was deleted while it was being dragged leaves the source
      column as it is and still appends the task to the destination. */
  lemma MovedAfterDelete(s: Snapshot, from: ColumnKey, to: ColumnKey, item: Task)
    requires from in s.columns && to in s.columns && from != to
    requires Absent(s, item.id)
    ensures Moved(s, from, to, item).columns[from] == s.columns[from]
    ensures Moved(s, from, to, item).columns[to].items == s.columns[to].items + [item]
    ensures InColumn(Moved(s, from, to, item), to, item.id) == 1
  {
    RemovedAbsent(s, from, item.id);
  }

  // ---------------------------------------------------------------------------
  // The drag session and the invariant across operations
  // ---------------------------------------------------------------------------

  /** Starting a drag on a task that is in its column yields a consistent session. */
  lemma DragStartConsistent(s: Snapshot, c: ColumnKey, item: Task)
    requires c in s.columns && Unique(s) && item in s.columns[c].items
    ensures Consistent(s, Some(DragSession(c, item)))
  {
    OccurrencesOfMember(s.columns[c].items, item);
    assert InColumn(s, c, item.id) > 0;
  }

  /** Adding a task with a fresh id (held by no column and not the dragged task's). */
  lemma AppendedConsistent(s: Snapshot, session: Option<DragSession>, c: ColumnKey, t: Task)
    requires c in s.columns && Consistent(s, session) && Absent(s, t.id)
    requires session.Some? ==> session.value.item.id != t.id
    ensures Consistent(Appended(s, c, t), session)
  {
  }

  lemma RemovedConsistent(s: Snapshot, session: Option<DragSession>, c: ColumnKey, id: TaskId)
    requires c in s.columns && Consistent(s, session)
    ensures Consistent(Removed(s, c, id), session)
  {
  }

  /** A drop onto another column keeps the invariant with the session cleared. */
  lemma MovedConsistent(s: Snapshot, session: DragSession, to: ColumnKey)
    requires to in s.columns && to != session.column
    requires Consistent(s, Some(session))
    ensures Consistent(Moved(s, session.column, to, session.item), None)
  {
    MovedKeepsUnique(s, session.column, to, session.item);
  }

  // ---------------------------------------------------------------------------
  // The seed board
  // ---------------------------------------------------------------------------

  /** `initialTasks`: three columns, seeded tasks 1 and 2 to do, 3 in progress. */
  function InitialTasks(): (s: Snapshot)
    ensures WellFormed(s) && Unique(s)
    ensures s.keys == ["todo", "inProgress", "done"]
    ensures s.columns["todo"].name == "To do" && s.columns["inProgress"].name == "In Progress"
    ensures s.columns["done"].name == "Done"
  {
    var s := Snapshot(
      ["todo", "inProgress", "done"],
      map[
        "todo" := Column("To do", [Task(Numeric(1), "Write project"), Task(Numeric(2), "Set up repository")]),
        "inProgress" := Column("In Progress", [Task(Numeric(3), "Design UI mockups")]),
        "done" := Column("Done", [])
      ]);
    SeedUnique(s);
    s
  }

  lemma SeedUnique(s: Snapshot)
    requires s.columns.Keys == {"todo", "inProgress", "done"}
    requires s.columns["todo"].items == [Task(Numeric(1), "Write project"), Task(Numeric(2), "Set up repository")]
    requires s.columns["inProgress"].items == [Task(Numeric(3), "Design UI mockups")]
    requires s.columns["done"].items == []
    ensures Unique(s)
  {
    var todo := s.columns["todo"].items;
    var prog := s.columns["inProgress"].items;
    assert todo[..1] == [todo[0]] && todo[..1][..0] == [];
    assert prog[..0] == [];
    forall id
      ensures InColumn(s, "todo", id) == (if id == Numeric(1) || id == Numeric(2) then 1 else 0)
      ensures InColumn(s, "inProgress", id) == (if id == Numeric(3) then 1 else 0)
      ensures InColumn(s, "done", id) == 0
    {
      assert Occurrences(todo[..1], id) == if id == Numeric(1) then 1 else 0;
      assert Occurrences(prog, id) == Occurrences(prog[..0], id) + (if id == Numeric(3) then 1 else 0);
    }
  }

  // ---------------------------------------------------------------------------
  // The board object the components mutate
  // ---------------------------------------------------------------------------

  class Board {
    const keys: seq<ColumnKey>
    var columns: map<ColumnKey, Column>

    function View(): Snapshot
      reads this
    {
      Snapshot(keys, columns)
    }

    ghost predicate Valid()
      reads this
    {
      WellFormed(View())
    }

    constructor (s: Snapshot)
      requires WellFormed(s)
      ensures Valid() && View() == s
    {
      keys := s.keys;
      columns := s.columns;
    }

    /** `tasks[c].items.push(t)` */
    method Push(c: ColumnKey, t: Task)
      requires Valid() && c in columns
      modifies this
      ensures Valid() && View() == Appended(old(View()), c, t)
    {
      columns := columns[c := columns[c].(items := columns[c].items + [t])];
    }

    /** `tasks[c].items = tasks[c].items.filter(task => task.id !== id)` */
    method Filter(c: ColumnKey, id: TaskId)
      requires Valid() && c in columns
      modifies this
      ensures Valid() && View() == Removed(old(View()), c, id)
    {
      columns := columns[c := columns[c].(items := Without(columns[c].items, id))];
    }
  }
}
