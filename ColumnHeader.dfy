/**
 * The column header: the column's name is normalised to a style key with
 * `name.toLowerCase().split(" ").join("")`, the key selects the header's colour
 * from a fixed table, and the badge shows how many items the column holds.
 */
module ColumnHeader {
  import opened Wrappers
  import opened Tasks

  predicate IsUpper(c: char) {
    'A' <= c <= 'Z'
  }

  function LowerChar(c: char): char {
    if IsUpper(c) then (c as int - 'A' as int + 'a' as int) as char else c
  }

  function Spaces(s: string): nat {
    if s == [] then 0 else (if s[0] == ' ' then 1 else 0) + Spaces(s[1..])
  }

  /** `toLowerCase` on the ASCII letters: every capital becomes its small letter
      and every other character stays where it is. */
  function Lower(s: string): (r: string)
    ensures |r| == |s| && forall i :: 0 <= i < |r| ==> !IsUpper(r[i])
    ensures forall i :: 0 <= i < |s| ==>
              && (IsUpper(s[i]) ==> r[i] as int == s[i] as int + ('a' as int - 'A' as int))
              && (!IsUpper(s[i]) ==> r[i] == s[i])
    ensures Spaces(r) == Spaces(s)
  {
    var r := seq(|s|, i requires 0 <= i < |s| => LowerChar(s[i]));
    LowerKeepsSpaces(s, r);
    r
  }

  lemma {:induction false} LowerKeepsSpaces(s: string, r: string)
    requires |r| == |s| && forall i :: 0 <= i < |s| ==> r[i] == LowerChar(s[i])
    ensures Spaces(r) == Spaces(s)
  {
    if s != [] {
      LowerKeepsSpaces(s[1..], r[1..]);
    }
  }

  /** `split(" ")`: the pieces between single spaces, an empty piece between two
      adjacent spaces, one piece more than there are spaces. */
  function Split(s: string): (parts: seq<string>)
    ensures |parts| == Spaces(s) + 1
    ensures forall p :: p in parts ==> ' ' !in p
  {
    if s == [] then [""]
    else
      var rest := Split(s[1..]);
      if s[0] == ' ' then [""] + rest
      else [[s[0]] + rest[0]] + rest[1..]
  }

  /** `parts.join(sep)`: the pieces in order with `sep` between neighbours. */
  function JoinWith(parts: seq<string>, sep: string): (r: string)
    ensures |r| == Lengths(parts) + (if parts == [] then 0 else (|parts| - 1) * |sep|)
  {
    if parts == [] then ""
    else if |parts| == 1 then parts[0]
    else parts[0] + sep + JoinWith(parts[1..], sep)
  }

  /** The summed lengths of the pieces. */
  function Lengths(parts: seq<string>): nat {
    if parts == [] then 0 else |parts[0]| + Lengths(parts[1..])
  }

  /** `split(" ")` is undone by `join(" ")`: the pieces are exactly the text
      between the spaces. */
  lemma {:induction false} SplitJoin(s: string)
    ensures JoinWith(Split(s), " ") == s
  {
    if s != [] {
      SplitJoin(s[1..]);
      var rest := Split(s[1..]);
      if s[0] == ' ' {
        assert ([""] + rest)[1..] == rest;
        assert JoinWith([""] + rest, " ") == "" + " " + JoinWith(rest, " ");
      } else {
        var parts := [[s[0]] + rest[0]] + rest[1..];
        if |rest| == 1 {
          assert JoinWith(parts, " ") == [s[0]] + rest[0];
        } else {
          assert parts[1..] == rest[1..];
          assert JoinWith(rest, " ") == rest[0] + " " + JoinWith(rest[1..], " ");
          assert JoinWith(parts, " ") == ([s[0]] + rest[0]) + " " + JoinWith(rest[1..], " ");
        }
        assert s == [s[0]] + s[1..];
      }
    }
  }

  /** The characters of `s` that are not spaces, in order. */
  function RemoveSpaces(s: string): (r: string)
    ensures |r| == |s| - Spaces(s) && ' ' !in r
  {
    if s == [] then ""
    else if s[0] == ' ' then RemoveSpaces(s[1..])
    else [s[0]] + RemoveSpaces(s[1..])
  }

  /** Splitting on spaces and joining with nothing deletes the spaces. */
  lemma {:induction false} JoinSplit(s: string)
    ensures JoinWith(Split(s), "") == RemoveSpaces(s)
  {
    if s != [] {
      JoinSplit(s[1..]);
      var rest := Split(s[1..]);
      if s[0] == ' ' {
        assert ([""] + rest)[1..] == rest;
        assert JoinWith([""] + rest, "") == "" + "" + JoinWith(rest, "");
      } else {
        var parts := [[s[0]] + rest[0]] + rest[1..];
        if |rest| == 1 {
          assert JoinWith(parts, "") == [s[0]] + rest[0];
        } else {
          assert parts[1..] == rest[1..];
          assert JoinWith(rest, "") == rest[0] + "" + JoinWith(rest[1..], "");
          assert JoinWith(parts, "") == ([s[0]] + rest[0]) + "" + JoinWith(rest[1..], "");
        }
      }
    }
  }

  /** The style key of a column name: the lower-cased name without its spaces. */
  function Normalise(name: string): (key: string)
    ensures key == RemoveSpaces(Lower(name))
    ensures ' ' !in key
    ensures forall i :: 0 <= i < |key| ==> !IsUpper(key[i])
    ensures |key| == |name| - Spaces(name)
  {
    var lower := Lower(name);
    JoinSplit(lower);
    RemoveSpacesNoUpper(lower);
    JoinWith(Split(lower), "")
  }

  lemma {:induction false} RemoveSpacesNoUpper(s: string)
    requires forall i :: 0 <= i < |s| ==> !IsUpper(s[i])
    ensures forall i :: 0 <= i < |RemoveSpaces(s)| ==> !IsUpper(RemoveSpaces(s)[i])
  {
    if s != [] {
      RemoveSpacesNoUpper(s[1..]);
    }
  }

  lemma {:induction false} RemoveSpacesNone(s: string)
    requires ' ' !in s
    ensures RemoveSpaces(s) == s
  {
    if s != [] {
      RemoveSpacesNone(s[1..]);
      assert s == [s[0]] + s[1..];
    }
  }

  /** A name without spaces or upper-case letters is already its own key. */
  lemma NormaliseFixed(key: string)
    requires ' ' !in key
    requires forall i :: 0 <= i < |key| ==> !IsUpper(key[i])
    ensures Normalise(key) == key
  {
    assert Lower(key) == key;
    JoinSplit(key);
    RemoveSpacesNone(key);
  }

  lemma NormaliseIdempotent(name: string)
    ensures Normalise(Normalise(name)) == Normalise(name)
  {
    NormaliseFixed(Normalise(name));
  }

  /** The gradient of the header, one per key of the `columnStyle` table. */
  datatype Style = Blue | Yellow | Green

  /** `columnStyle[key]`: the table entry, or none for any other key. */
  function StyleFor(key: string): (style: Option<Style>)
    ensures style == Some(Blue) <==> key == "todo"
    ensures style == Some(Yellow) <==> key == "inprogress"
    ensures style == Some(Green) <==> key == "done"
    ensures style.None? <==> key !in {"todo", "inprogress", "done"}
  {
    if key == "todo" then Some(Blue)
    else if key == "inprogress" then Some(Yellow)
    else if key == "done" then Some(Green)
    else None
  }

  /** What the header shows for a column: its name, its style and its item count. */
  datatype HeaderView = HeaderView(title: string, style: Option<Style>, count: nat)

  function Header(column: Column): (h: HeaderView)
    ensures h.title == column.name && h.count == |column.items|
    ensures h.style.Some? <==> Normalise(column.name) in {"todo", "inprogress", "done"}
    ensures h.style == Some(Blue) <==> Normalise(column.name) == "todo"
    ensures h.style == Some(Yellow) <==> Normalise(column.name) == "inprogress"
    ensures h.style == Some(Green) <==> Normalise(column.name) == "done"
  {
    HeaderView(column.name, StyleFor(Normalise(column.name)), |column.items|)
  }

  /** The seed board's columns get the blue, yellow and green headers. */
  lemma SeedStyles()
    ensures Header(InitialTasks().columns["todo"]).style == Some(Blue)
    ensures Header(InitialTasks().columns["inProgress"]).style == Some(Yellow)
    ensures Header(InitialTasks().columns["done"]).style == Some(Green)
  {
    NormaliseToDo();
    NormaliseInProgress();
    NormaliseDone();
  }

  lemma NormaliseToDo()
    ensures Normalise("To do") == "todo"
  {
    ToDoPieces();
    LowerCapital('T', "o do");
    NormaliseTwoWords("To do", "to", "do");
  }

  lemma NormaliseInProgress()
    ensures Normalise("In Progress") == "inprogress"
  {
    InProgressPieces();
    LowerAppend("In ", "Progress");
    LowerCapital('I', "n ");
    LowerCapital('P', "rogress");
    NormaliseTwoWords("In Progress", "in", "progress");
  }

  lemma NormaliseDone()
    ensures Normalise("Done") == "done"
  {
    DonePieces();
    LowerCapital('D', "one");
    NormaliseOneWord("Done", "done");
  }

  // Proof helpers: facts about the literal seed names alone, cut where a capital
  // or a space falls, kept apart from the lemmas that use them.
  lemma ToDoPieces()
    ensures "To do" == ['T'] + "o do" && LowerChar('T') == 't'
    ensures forall i :: 0 <= i < 4 ==> !IsUpper("o do"[i])
    ensures ['t'] + "o do" == "to" + " " + "do"
    ensures ' ' !in "to" && ' ' !in "do" && "to" + "do" == "todo"
  {
  }

  lemma InProgressPieces()
    ensures "In Progress" == "In " + "Progress"
    ensures "In " == ['I'] + "n " && "Progress" == ['P'] + "rogress"
    ensures LowerChar('I') == 'i' && LowerChar('P') == 'p'
    ensures forall i :: 0 <= i < 2 ==> !IsUpper("n "[i])
    ensures forall i :: 0 <= i < 7 ==> !IsUpper("rogress"[i])
    ensures (['i'] + "n ") + (['p'] + "rogress") == "in" + " " + "progress"
    ensures ' ' !in "in" && ' ' !in "progress" && "in" + "progress" == "inprogress"
  {
  }

  lemma DonePieces()
    ensures "Done" == ['D'] + "one" && LowerChar('D') == 'd'
    ensures forall i :: 0 <= i < 3 ==> !IsUpper("one"[i])
    ensures ['d'] + "one" == "done" && ' ' !in "done"
  {
  }

  lemma NormaliseOneWord(name: string, a: string)
    requires ' ' !in a && Lower(name) == a
    ensures Normalise(name) == a
  {
    RemoveSpacesNone(a);
    JoinSplit(a);
  }

  /** Lower-casing distributes over concatenation. */
  lemma LowerAppend(a: string, b: string)
    ensures Lower(a + b) == Lower(a) + Lower(b)
  {
    assert forall i :: 0 <= i < |a| + |b| ==> Lower(a + b)[i] == (Lower(a) + Lower(b))[i];
  }

  /** A capitalised word loses only its capital. */
  lemma LowerCapital(c: char, rest: string)
    requires forall i :: 0 <= i < |rest| ==> !IsUpper(rest[i])
    ensures Lower([c] + rest) == [LowerChar(c)] + rest
  {
    LowerAppend([c], rest);
    assert Lower(rest) == rest;
    assert Lower([c]) == [LowerChar(c)];
  }

  lemma NormaliseTwoWords(name: string, a: string, b: string)
    requires ' ' !in a && ' ' !in b && Lower(name) == a + " " + b
    ensures Normalise(name) == a + b
  {
    RemoveSpacesWords(a, b);
    JoinSplit(a + " " + b);
  }

  lemma RemoveSpacesWords(a: string, b: string)
    requires ' ' !in a && ' ' !in b
    ensures RemoveSpaces(a + " " + b) == a + b
  {
    var tail := " " + b;
    assert a + " " + b == a + tail;
    RemoveSpacesAppend(a, tail);
    assert tail[0] == ' ' && tail[1..] == b;
    assert RemoveSpaces(tail) == RemoveSpaces(b);
    RemoveSpacesNone(a);
    RemoveSpacesNone(b);
  }

  lemma {:induction false} RemoveSpacesAppend(a: string, b: string)
    ensures RemoveSpaces(a + b) == RemoveSpaces(a) + RemoveSpaces(b)
  {
    if a != [] {
      assert (a + b)[1..] == a[1..] + b;
      RemoveSpacesAppend(a[1..], b);
    } else {
      assert a + b == b;
    }
  }

  /** The badge follows the board: one more after an add, fewer by the removed
      items after a remove. */
  lemma HeaderCountTracksBoard(s: Snapshot, c: ColumnKey, t: Task, id: TaskId)
    requires c in s.columns
    ensures Header(Appended(s, c, t).columns[c]).count == Header(s.columns[c]).count + 1
    ensures Header(Removed(s, c, id).columns[c]).count == Header(s.columns[c]).count - InColumn(s, c, id)
  {
  }
}
