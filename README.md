# Kanban board state engine

A model of the state logic of a small kanban board web app. The board is a
fixed list of column keys in display order; each key maps to a column with a
display name and an ordered list of tasks, and each task has an id and a text.
The board changes in three ways: a task is appended at the tail of a column, a
task is filtered out of a column by id, and a dragged task is moved (filtered
out of its source column, appended to the target column). A drag session holds
the column a task was picked up from and the task, or nothing.

The repository holds two versions of the app component:

- `src/components/app/App.jsx`, the older one, always starts from the seed
  board and keeps the add form's text and selected column in itself
  (module `LegacyApp`);
- `src/components/App.jsx`, the newer one, loads the board from storage, has a
  light/dark theme, and delegates the add form to `AddInput.jsx`
  (modules `App` and `AddInput`).

`ColumnHeader.jsx` turns a column name into a style key and shows the item
count (module `ColumnHeader`). JavaScript's `String.prototype.trim` is
modelled in module `Strings`.

Layout:

- `Tasks.dfy`: tasks, columns, the board as a value (`Snapshot`), the pure
  board operations `Appended`, `Removed` and `Moved`, the id-uniqueness
  invariant and the lemmas about them, the seed board, and the class `Board`,
  the object the components mutate in place. The components copy the board
  with `{ ...tasks }`, which is shallow, so `items.push(...)` and
  `items = ...filter(...)` change the column objects the current board holds;
  `Board.Push` and `Board.Filter` update the board object in place and are
  specified by `Appended` and `Removed`.
- `App.dfy`, `LegacyApp.dfy`, `AddInput.dfy`: the components as classes whose
  fields are their state (`tasks`, `theme`, `draggingTask`, `newTaskContent`,
  `activeColumn`), with one method per handler.
- `ColumnHeader.dfy`: `toLowerCase().split(" ").join("")`, the style table and
  the header's contents, all pure.
- `Strings.dfy`: white space, `trim` and its properties.

The central invariant (`Tasks.Unique`) is that no id occurs twice in one
column and no id occurs in two columns. `Tasks.Consistent` adds that a dragged
task's id occurs in no column other than the session's source. Every handler
preserves `Consistent`, given that the new id of an added task is fresh and
that a task picked up for a drag is in the column it is picked up from. A drop of a
task that was present leaves its id in the target column alone, at its tail.

Ids are `Numeric(n)` (the seeded tasks) or `Uuid(s)` (created tasks). The code
compares them with `!==`, so the number 1 and the string "1" are different ids,
and the model keeps that distinction.

## Model

| member | source | states |
|---|---|---|
| Tasks.Without | src/components/App.jsx:90-92 | filtering by id leaves no item with that id, keeps every other id's count, and shortens the list by exactly the removed items |
| Tasks.WithoutAppend | src/components/app/App.jsx:67-69 | filtering distributes over concatenation, so the kept items stay in their order |
| Tasks.WithoutAbsent | src/components/app/App.jsx:67-69 | filtering an id the list does not hold returns the list unchanged |
| Tasks.WithoutIdempotent | src/components/App.jsx:90-92 | filtering twice by the same id is filtering once |
| Tasks.Appended | src/components/App.jsx:80-85 | adding changes only the target column: same keys and names, the old items as a prefix, the task at the new tail, one more occurrence of its id there |
| Tasks.Removed | src/components/App.jsx:87-95 | removing changes only the named column, which then holds no item with the id; every other count, key and name is kept |
| Tasks.Moved | src/components/App.jsx:114-117 | a drop's net effect: the id's count in the source becomes 0, the target gains exactly one item with it, other columns, keys and names are untouched; between two columns, the source is its items filtered by the id, in order, and the target is its old items followed by the task |
| Tasks.RemovedAbsent | src/components/app/App.jsx:67-69 | removing an id the column does not hold leaves the board as it was |
| Tasks.RemovedIdempotent | src/components/app/App.jsx:64-71 | removing twice equals removing once |
| Tasks.RemovedKeepsOrder | src/components/app/App.jsx:67-69 | the remaining items keep their relative order |
| Tasks.RemovedLength | src/components/app/App.jsx:67-69 | the column shrinks by the number of items that carried the id |
| Tasks.AppendedKeepsUnique | src/components/app/App.jsx:53-60 | adding a task with a fresh id keeps ids unique and the id then occurs exactly once, in the target column |
| Tasks.RemovedKeepsUnique | src/components/app/App.jsx:64-71 | removing keeps ids unique and leaves the id absent from the column |
| Tasks.MovedKeepsUnique | src/components/app/App.jsx:87-98 | moving a task held only by its source keeps ids unique; afterwards only the target holds the id, and the target is its old items followed by the task |
| Tasks.MovedAfterDelete | src/components/App.jsx:114-117 | a drop whose task was deleted mid-drag leaves the source as it is and still appends the task to the target |
| Tasks.DragStartConsistent | src/components/app/App.jsx:74-76 | starting a drag on a task that is in its column gives a session consistent with a unique board |
| Tasks.AppendedConsistent | src/components/App.jsx:80-85 | adding a fresh id that is not the dragged task's keeps the board and session consistent |
| Tasks.RemovedConsistent | src/components/App.jsx:87-95 | removing keeps the board and session consistent |
| Tasks.MovedConsistent | src/components/App.jsx:110-121 | a drop onto another column keeps uniqueness, with the session cleared |
| Tasks.InitialTasks | src/components/App.jsx:6-33 | the seed board has keys todo, inProgress, done in that order, names "To do", "In Progress", "Done", is well formed and has unique ids |
| Tasks.SeedUnique | src/components/app/App.jsx:3-30 | the seeded items 1, 2 (todo) and 3 (inProgress) give each id one column and one occurrence |
| Tasks.Board.constructor | src/components/app/App.jsx:45 | the board object starts as the given well-formed board |
| Tasks.Board.Push | src/components/app/App.jsx:58 | `items.push` on the shared column: the new board is `Appended` of the old |
| Tasks.Board.Filter | src/components/app/App.jsx:67-69 | the `items` reassignment on the shared column: the new board is `Removed` of the old |
| Strings.Trim | src/components/AddInput.jsx:26 | the result starts and ends with no white space and is no longer than the input |
| Strings.TrimIsMiddle | src/components/AddInput.jsx:26 | the result is the input minus a white-space prefix and a white-space suffix |
| Strings.TrimEmpty | src/components/AddInput.jsx:8 | the trimmed text is empty exactly when every character is white space |
| Strings.TrimTrimmed | src/components/AddInput.jsx:26 | trimming text with no white space at either end returns it unchanged |
| Strings.TrimIdempotent | src/components/AddInput.jsx:26 | trimming twice is trimming once |
| ColumnHeader.Lower | src/components/ColumnHeader.jsx:10 | every capital A-Z becomes its small letter, every other character stays in place, so the length and the spaces are kept and no capital is left |
| ColumnHeader.Split | src/components/ColumnHeader.jsx:10 | splitting on " " gives one piece more than there are spaces, and no piece holds a space |
| ColumnHeader.SplitJoin | src/components/ColumnHeader.jsx:10 | joining the split pieces with " " gives the text back, so the pieces are exactly the runs between spaces |
| ColumnHeader.JoinWith | src/components/ColumnHeader.jsx:10 | `join(sep)`: the result's length is the pieces' total length plus one separator between each pair of neighbours |
| ColumnHeader.RemoveSpaces | src/components/ColumnHeader.jsx:10 | the result is shorter by the number of spaces and holds none |
| ColumnHeader.JoinSplit | src/components/ColumnHeader.jsx:10 | joining the split pieces with "" deletes exactly the spaces |
| ColumnHeader.Normalise | src/components/ColumnHeader.jsx:10 | the style key is the lower-cased name with its spaces deleted: it holds no space and no upper-case letter, and its length is the name's minus its spaces |
| ColumnHeader.StyleFor | src/components/ColumnHeader.jsx:3-7 | the table maps todo to blue, inprogress to yellow and done to green, and every other key to no style |
| ColumnHeader.NormaliseFixed | src/components/ColumnHeader.jsx:10 | a name with no space and no capital is its own key |
| ColumnHeader.NormaliseIdempotent | src/components/ColumnHeader.jsx:10 | normalising a key again changes nothing |
| ColumnHeader.Header | src/components/ColumnHeader.jsx:9-23 | the header shows the column's name and its item count; its style is blue exactly when the key is todo, yellow exactly when it is inprogress, green exactly when it is done, and none for any other key |
| ColumnHeader.SeedStyles | src/components/ColumnHeader.jsx:3-7 | the seed board's headers: "To do" is blue, "In Progress" yellow and "Done" green |
| ColumnHeader.NormaliseToDo | src/components/ColumnHeader.jsx:10 | "To do" normalises to todo |
| ColumnHeader.NormaliseInProgress | src/components/ColumnHeader.jsx:10 | "In Progress" normalises to inprogress |
| ColumnHeader.NormaliseDone | src/components/ColumnHeader.jsx:10 | "Done" normalises to done |
| ColumnHeader.HeaderCountTracksBoard | src/components/ColumnHeader.jsx:20 | the count goes up by one after an add and down by the removed items after a remove |
| AddInput.SelectorOptions | src/components/AddInput.jsx:36-40 | one option per board key, in board order, captioned with the column's name |
| AddInput.SelectorCoversBoard | src/components/AddInput.jsx:36-40 | every option is a column of the board and every column is offered |
| AddInput.TypedTrailingSpaceDropped | src/components/AddInput.jsx:25-27 | since the text is trimmed on every change, a space typed after non-blank text is dropped at once |
| AddInput.AddInput.constructor | src/components/AddInput.jsx:4-5 | the text starts empty and the selected column starts as "todo" |
| AddInput.AddInput.OnContentChange | src/components/AddInput.jsx:25-27 | the stored text is the trimmed value; the selected column is kept |
| AddInput.AddInput.OnColumnChange | src/components/AddInput.jsx:34 | the selected column becomes the chosen one; the text is kept |
| AddInput.AddInput.HandleAddTask | src/components/AddInput.jsx:7-17 | blank text makes no request and changes nothing; otherwise exactly one request carries the current text, the fresh id and the selected column, and the text is cleared |
| App.ToggledTheme | src/components/App.jsx:76-78 | the result is "light" or "dark", and "light" exactly when the previous theme was "dark" |
| App.ToggleTwice | src/components/App.jsx:76-78 | toggling twice is the identity on "light" and "dark" |
| App.InitialTheme | src/components/App.jsx:45-56 | a stored "light" or "dark" is used as is; any other or no stored value follows the dark-mode preference; a failed read gives "light" |
| App.App.constructor | src/components/App.jsx:36-43 | the board is the stored snapshot when one is read and parsed, else the seed; the theme is the initial theme; no drag |
| App.App.ToggleTheme | src/components/App.jsx:76-78 | the theme becomes its toggle and nothing else changes |
| App.App.OnAddTask | src/components/App.jsx:80-85 | the board becomes `Appended` of the old one, with no validation of its own; consistency is kept for a fresh id |
| App.App.RemoveTask | src/components/App.jsx:87-95 | the board becomes `Removed` of the old one; consistency is kept |
| App.App.HandleDragStart | src/components/App.jsx:97-99 | the session becomes the column and the task, replacing any earlier one |
| App.App.HandleDrop | src/components/App.jsx:105-122 | no session: nothing changes; drop on the source: nothing changes and the session stays; otherwise the board becomes `Moved` of the old one and the session is cleared; consistency is kept |
| App.App.Submit | src/components/App.jsx:148 | the add form wired to `onAddTask`: blank text changes nothing, otherwise the text becomes a task at the tail of the selected column and the form is cleared |
| LegacyApp.LegacyApp.constructor | src/components/app/App.jsx:45-48 | the seed board, empty text, "todo" selected, no drag, consistent |
| LegacyApp.LegacyApp.OnContentChange | src/components/app/App.jsx:113-115 | the stored text is the trimmed value |
| LegacyApp.LegacyApp.OnColumnChange | src/components/app/App.jsx:122 | the selected column becomes the chosen board key |
| LegacyApp.LegacyApp.AddTask | src/components/app/App.jsx:50-62 | blank text leaves board and text unchanged; otherwise the board becomes `Appended` with a task carrying the fresh id and the text, and the text is reset to "" |
| LegacyApp.LegacyApp.RemoveTask | src/components/app/App.jsx:64-72 | the board becomes `Removed` of the old one; consistency is kept |
| LegacyApp.LegacyApp.HandleDragStart | src/components/app/App.jsx:74-76 | the session becomes the column and the task |
| LegacyApp.LegacyApp.HandleDrop | src/components/app/App.jsx:82-99 | as in the newer App: no-ops without a session or on the source column, else `Moved` and the session cleared; consistency is kept |

## Behaviour worth noting

- A drop whose task was deleted while it was being dragged is not stopped:
  the source is filtered (nothing to remove) and the task is appended to the
  target again (`Tasks.MovedAfterDelete`, src/components/App.jsx:114-117).
- Ids are compared with `!==`, which tells the number 1 from the string "1"
  (`Tasks.TaskId`).
- Adding blank text returns silently (`AddInput.AddInput.HandleAddTask`
  returns `None`, `LegacyApp.LegacyApp.AddTask` changes nothing).
- An unknown column key throws a `TypeError` at `undefined.items`. The
  handlers require the key to be on the board. The drop, remove and drag
  handlers are bound to the rendered columns, and the older App's selector is
  the only way its selected column changes, so there the requirement always
  holds. The newer App's add form starts with "todo" selected whatever board
  was loaded, so a stored board without a "todo" column makes the first add
  throw; that case is left out (see `App.App.Submit` below).

## Left out

- JSX markup, class strings and styling, and `Card.jsx`, which only forwards a
  task's id to the remove handler.
- `localStorage` and `JSON.parse`/`JSON.stringify`: the stored board and theme
  are parameters of the `App.App` constructor (`App.Stored`), and writing them
  back (the two effects) is not modelled. A parsed snapshot is assumed to be a
  well-formed board (`App.App.constructor` requires it), since the parser's
  output is not part of this model.
- `crypto.randomUUID()`: the new task's id is a parameter; its freshness is a
  hypothesis of the consistency postconditions, not a precondition.
- `window.matchMedia`: the dark-mode preference is a boolean parameter.
- Native drag events and `preventDefault`: only the session state and the drop
  decision are modelled. No drag sensor, activation threshold or collision rule
  is part of this model.
- React state batching and the stale closure inside `handleDrop`: the model
  gives the net effect, filter from the source then push to the target, on the
  one board object.
- Column-object aliasing: the board's copies share column objects; the model
  keeps one `Tasks.Board` object whose columns are values, so it does not
  capture an outside reference to a column object observing the change.
- The older App's header colour, looked up by column key in its own table, is
  presentation only.
- ColumnHeader.Lower: maps only the ASCII letters A-Z, not the full Unicode
  case mapping of `toLowerCase`.
- App.App.OnAddTask, App.App.Submit, LegacyApp.LegacyApp.AddTask: id uniqueness
  afterwards is promised only when the new id occurs nowhere on the board and is
  not the dragged task's id, since the random id is outside the model.
- App.App.HandleDragStart, LegacyApp.LegacyApp.HandleDragStart: the session is
  promised consistent only when the dragged task is in its column, which the
  rendered columns guarantee.
- App.App.Submit: requires the form's selected column to be on the board, so
  it does not model the `TypeError` thrown when a stored board has no column
  with the form's initial key "todo" and the user adds before choosing another
  column (the add then aborts with the board and the form's text unchanged).
