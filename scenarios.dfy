/** Worked examples of the task-list operations on concrete lines. */
module Scenarios {
  import opened Wrappers
  import opened Strings
  import opened TodoList

  /** Two pieces between empty ones are laid out with one space between them. */
  lemma LayoutMiddlePair(a: string, b: string)
    requires a != "" && b != ""
    ensures Layout(["", a, b, "", ""]) == a + " " + b
  {
    var parts := ["", a, b, "", ""];
    assert Layout(parts[4..]) == "";
    assert Layout(parts[3..]) == "";
    assert Layout(parts[2..]) == b;
    assert Layout(parts[1..]) == a + " " + b;
  }

  /** A record with only the description `Milk`, the priority `A` and the project `shop`. */
  predicate IsMilkTask(t: Todo)
  {
    && t.description == Some("Milk") && t.priority == Some("A") && t.project == Some("shop")
    && t.creationDate == None && t.completionDate == None && t.context == None && t.specialTag == None
  }

  /** A record with only a priority. */
  const PriorityOnlyTask: Todo := Todo(None, Some("B"), None, None, None, None, None)

  /** The fields after the priority of the `Milk` record. */
  lemma MilkTail(t: Todo)
    requires IsMilkTask(t)
    ensures Tail(t) == "Milk +shop"
  {
    assert Tagged("+", t.project) == "+shop";
    assert TailParts(t) == ["", "Milk", "+shop", "", ""];
    LayoutMiddlePair("Milk", "+shop");
  }

  /** `add` builds the line from the given fields only; no creation date is filled in. */
  lemma AddExample(t: Todo)
    requires IsMilkTask(t)
    ensures AddLine(t) == "(A) Milk +shop"
  {
    MilkTail(t);
    assert PriorityText(t) == "(A)";
    AddLineGlued(t, "(A)", "Milk +shop", "(A) Milk +shop");
  }

  /** The line of a record without completion date whose priority and tail are both present. */
  lemma AddLineGlued(t: Todo, p: string, tail: string, line: string)
    requires !Truthy(t.completionDate) && PriorityText(t) == p && Tail(t) == tail
    requires p != "" && tail != "" && line == p + " " + tail
    ensures AddLine(t) == line
  {
    AddLineShape(t);
  }

  /** Two lines around an empty one are written with two line breaks between them. */
  lemma JoinAroundEmpty(x: string, y: string)
    ensures Join([x, "", y], "\n") == x + "\n\n" + y
  {
    var parts := [x, "", y];
    assert parts[1..] == ["", y] && parts[1..][1..] == [y];
    assert Join(parts[1..], "\n") == "" + "\n" + y;
    assert x + "\n" + ("" + "\n" + y) == x + "\n\n" + y;
  }

  /** `readTodos` skips an empty line between two lines and keeps those two in their order. */
  lemma ReadSkipsEmptyLine(x: string, y: string, text: string)
    requires '\n' !in x && '\n' !in y && !IsBlank(x) && !IsBlank(y)
    requires text == x + "\n\n" + y
    ensures ReadLines(Some(text)) == [x, y]
  {
    var parts := [x, "", y];
    JoinAroundEmpty(x, y);
    SplitJoin(parts, '\n');
    assert parts == [x] + ([""] + [y]);
    NonBlankAppend([x], [""] + [y]);
    NonBlankAppend([""], [y]);
    assert NonBlank([""]) == [] by {
      assert IsBlank("");
    }
  }

  /** The file `a`, an empty line, `b` reads as `["a", "b"]`. */
  lemma ReadSkipsBlank()
    ensures ReadLines(Some("a\n\nb")) == ["a", "b"]
  {
    assert !IsWhitespace("a"[0]) && !IsWhitespace("b"[0]);
    ReadSkipsEmptyLine("a", "b", "a\n\nb");
  }

  /** A record with only a priority builds the line `(P)`. */
  lemma PriorityOnlyLine()
    ensures UpdateLine(PriorityOnlyTask) == "(B)"
  {
    var t := PriorityOnlyTask;
    assert TailParts(t) == ["", "", "", "", ""];
    assert Tail(t) == "" by {
      var parts := TailParts(t);
      assert Layout(parts[4..]) == "";
      assert Layout(parts[3..]) == "";
      assert Layout(parts[2..]) == "";
      assert Layout(parts[1..]) == "";
    }
    assert PriorityText(t) == "(B)";
    UpdateLineOfPriority(t, "(B)");
  }

  /** A record without completion date whose tail is empty is updated to its priority alone. */
  lemma UpdateLineOfPriority(t: Todo, p: string)
    requires !Truthy(t.completionDate) && PriorityText(t) == p && Tail(t) == ""
    ensures UpdateLine(t) == p
  {
    UpdateLineShape(t);
    AddLineShape(t);
  }

  /** The first example line contains `Milk`. */
  lemma MilkInFirst()
    ensures Contains("(A) Milk +shop", "Milk")
  {
    var first := "(A) Milk +shop";
    assert OccursAt(first, "Milk", 4);
    ContainsAt(first, "Milk");
  }

  /** The second example line does not. */
  lemma MilkNotInSecond()
    ensures !Contains("Bread", "Milk")
  {
    ContainsAt("Bread", "Milk");
    forall i: nat ensures !OccursAt("Bread", "Milk", i) {
      if i <= 1 {
        assert "Bread"[i] != "Milk"[0];
      }
    }
  }

  /** `update` with only a new priority replaces the matching line by `(B)`: nothing of the old line is kept. */
  lemma UpdateExample()
    ensures UpdateTodos(["(A) Milk +shop", "Bread"], "Milk",
                        PriorityOnlyTask)
      == ["(B)", "Bread"]
  {
    var t := PriorityOnlyTask;
    var todos := ["(A) Milk +shop", "Bread"];
    PriorityOnlyLine();
    MilkInFirst();
    MilkNotInSecond();
    UpdateTodosAt(todos, "Milk", t, 0);
    UpdateTodosAt(todos, "Milk", t, 1);
  }

  /** `delete` with a fragment two lines contain is ambiguous and writes nothing. */
  lemma DeleteAmbiguousExample(confirmed: bool)
    ensures DeletePolicy(["Milk", "Mint"], "Mi", confirmed).Ambiguous?
  {
    assert StartsWith("Milk", "Mi") && StartsWith("Mint", "Mi");
  }

  /** `done` prefixes `x ` once; a second `done` leaves the line as it is. */
  lemma DoneExample()
    ensures MarkDone(["Walk dog"], "Walk dog") == ["x Walk dog"]
    ensures MarkDone(["x Walk dog"], "Walk dog") == ["x Walk dog"]
  {
    assert StartsWith("Walk dog", "Walk dog");
    assert "Walk dog"[..2][0] != "x "[0];
    MarkDoneAt(["Walk dog"], "Walk dog", 0);
    assert |MarkDone(["Walk dog"], "Walk dog")| == 1;
    assert MarkDone(["Walk dog"], "Walk dog")[0] == "x " + "Walk dog";
    assert "x " + "Walk dog" == "x Walk dog";
    assert StartsWith("x Walk dog", "x ");
    MarkDoneAt(["x Walk dog"], "Walk dog", 0);
  }
}
