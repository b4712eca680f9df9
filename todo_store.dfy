/**
 * The task file `todo.txt` and the read-modify-write operations of
 * `index.js`. The file is its text, or nothing when it cannot be read; every
 * operation reads the whole list, transforms it and writes the whole list back.
 */
module TodoStore {
  import opened Wrappers
  import opened Strings
  import opened TodoList

  /** Lines built by `updateTodo` and `doneTodo` from storable lines are storable. */
  lemma UpdateTodosStorable(todos: seq<string>, fragment: string, t: Todo)
    requires AllStorable(todos) && Storable(UpdateLine(t))
    ensures AllStorable(UpdateTodos(todos, fragment, t))
  {
    forall i | 0 <= i < |todos| ensures Storable(UpdateTodos(todos, fragment, t)[i]) {
      UpdateTodosAt(todos, fragment, t, i);
    }
  }

  /** Prefixing `x ` keeps a line storable. */
  lemma MarkDoneStorable(todos: seq<string>, fragment: string)
    requires AllStorable(todos)
    ensures AllStorable(MarkDone(todos, fragment))
  {
    forall i | 0 <= i < |todos| ensures Storable(MarkDone(todos, fragment)[i]) {
      MarkDoneAt(todos, fragment, i);
      var line := todos[i];
      if MarkDone(todos, fragment)[i] != line {
        var marked := "x " + line;
        assert !IsBlank(marked) by { assert !IsWhitespace(marked[0]); }
        assert '\n' !in marked by {
          forall j | 0 <= j < |marked| ensures marked[j] != '\n' {
            if j >= 2 { assert marked[j] == line[j - 2]; }
          }
        }
      }
    }
  }

  /** Removing lines keeps the others storable. */
  lemma RemainingStorable(todos: seq<string>, fragment: string)
    requires AllStorable(todos)
    ensures AllStorable(Remaining(todos, fragment))
  {
    forall i | 0 <= i < |Remaining(todos, fragment)| ensures Storable(Remaining(todos, fragment)[i]) {
      var line := Remaining(todos, fragment)[i];
      assert line in todos;
    }
  }

  class TodoFile {
    /** The text of the file, or None when it is missing or cannot be read. */
    var text: Option<string>

    constructor (initial: Option<string>)
      ensures text == initial
    {
      text := initial;
    }

    /** The list of tasks a read of the file yields now. */
    function Todos(): seq<string>
      reads this
    {
      ReadLines(text)
    }

    /** `readTodos`: never blank lines, never a line break, and [] when the read fails. */
    method ReadTodos() returns (todos: seq<string>)
      ensures todos == Todos()
      ensures AllStorable(todos)
      ensures text.None? ==> todos == []
    {
      ReadLinesStorable(text);
      match text
      case None => todos := [];
      case Some(data) => todos := NonBlank(Split(data, '\n'));
    }

    /** `writeTodos`: the list joined by line breaks replaces the whole file. */
    method WriteTodos(todos: seq<string>)
      modifies this
      ensures text == Some(WriteText(todos))
      ensures AllStorable(todos) ==> Todos() == todos
    {
      text := Some(Join(todos, "\n"));
      if AllStorable(todos) {
        ReadAfterWrite(todos);
      }
    }

    /** `addTodo`: exactly one line appended at the end, all earlier lines unchanged and in order. */
    method AddTodo(t: Todo)
      modifies this
      ensures text == Some(WriteText(old(Todos()) + [AddLine(t)]))
      ensures Storable(AddLine(t)) ==> Todos() == old(Todos()) + [AddLine(t)]
    {
      var todos := ReadTodos();
      todos := todos + [AddLine(t)];
      WriteTodos(todos);
    }

    /** `updateTodo`: every line containing the fragment becomes the line built from `t`. */
    method UpdateTodo(fragment: string, t: Todo)
      modifies this
      ensures text == Some(WriteText(UpdateTodos(old(Todos()), fragment, t)))
      ensures Storable(UpdateLine(t)) ==> Todos() == UpdateTodos(old(Todos()), fragment, t)
    {
      var todos := ReadTodos();
      var updated := UpdateTodos(todos, fragment, t);
      if Storable(UpdateLine(t)) {
        UpdateTodosStorable(todos, fragment, t);
      }
      WriteTodos(updated);
    }

    /**
     * `deleteTodo`: the file is rewritten only when exactly one line matches
     * and the user confirms; `confirmed` stands for the answer to the prompt.
     */
    method DeleteTodo(fragment: string, confirmed: bool) returns (outcome: DeleteOutcome)
      modifies this
      ensures outcome == DeletePolicy(old(Todos()), fragment, confirmed)
      ensures !outcome.Deleted? ==> text == old(text)
      ensures outcome.Deleted? ==> text == Some(WriteText(outcome.remaining))
      ensures outcome.Deleted? ==> Todos() == outcome.remaining
    {
      var todos := ReadTodos();
      var matches := Matching(todos, fragment);
      if |matches| == 0 {
        return NotFound;
      } else if |matches| > 1 {
        return Ambiguous(matches);
      }
      if !confirmed {
        return Declined;
      }
      var updated := Remaining(todos, fragment);
      RemainingStorable(todos, fragment);
      WriteTodos(updated);
      outcome := Deleted(updated);
    }

    /** `doneTodo`: `x ` prefixed to every matching line that does not already start with it. */
    method DoneTodo(fragment: string)
      modifies this
      ensures text == Some(WriteText(MarkDone(old(Todos()), fragment)))
      ensures Todos() == MarkDone(old(Todos()), fragment)
    {
      var todos := ReadTodos();
      var updated := MarkDone(todos, fragment);
      MarkDoneStorable(todos, fragment);
      WriteTodos(updated);
    }
  }
}
