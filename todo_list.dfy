/**
 * The task-list logic of `index.js`: the record a command builds, the two
 * line builders, and the list transformations behind add, update, delete,
 * done and the read of the task file. A task file is an ordered list of lines.
 */
module TodoList {
  import opened Wrappers
  import opened Strings

  /**
   * The fields a command hands to the task list (`d`, `p`, `c`, `C`, `P`,
   * `t`, `s` in the source). Each is a JavaScript string or `undefined`.
   */
  datatype Todo = Todo(
    description: Option<string>,
    priority: Option<string>,
    creationDate: Option<string>,
    completionDate: Option<string>,
    project: Option<string>,
    context: Option<string>,
    specialTag: Option<string>)

  /** JavaScript truthiness of a string-or-undefined: defined and not empty. */
  predicate Truthy(v: Option<string>)
  {
    v.Some? && v.value != ""
  }

  /** `v ? v : ''` */
  function Text(v: Option<string>): string
  {
    if Truthy(v) then v.value else ""
  }

  /** `v ? prefix + v : ''` */
  function Tagged(prefix: string, v: Option<string>): string
  {
    if Truthy(v) then prefix + v.value else ""
  }

  /** The priority rendered as `(P)`, or nothing. */
  function PriorityText(t: Todo): string
  {
    if Truthy(t.priority) then "(" + t.priority.value + ")" else ""
  }

  /** The fields both builders place after the priority and the dates marker, in order. */
  function TailParts(t: Todo): seq<string>
  {
    [Text(t.creationDate), Text(t.description), Tagged("+", t.project),
     Tagged("@", t.context), Text(t.specialTag)]
  }

  /** The array `addTodo` builds: `x`, `(P)`, completion date, then the tail fields. */
  function AddParts(t: Todo): seq<string>
  {
    [if Truthy(t.completionDate) then "x" else "", PriorityText(t), Text(t.completionDate)]
    + TailParts(t)
  }

  /** The array `updateTodo` builds: `x <C>` as one piece, before the priority. */
  function UpdateParts(t: Todo): seq<string>
  {
    [Tagged("x ", t.completionDate), PriorityText(t)] + TailParts(t)
  }

  /** `filter(Boolean)` on strings: keeps the non-empty ones, in order. */
  function NonEmpty(parts: seq<string>): (r: seq<string>)
    ensures forall k :: 0 <= k < |r| ==> r[k] != ""
    decreases |parts|
  {
    if |parts| == 0 then []
    else if parts[0] == "" then NonEmpty(parts[1..])
    else [parts[0]] + NonEmpty(parts[1..])
  }

  /** `parts.filter(Boolean).join(' ')` */
  function Line(parts: seq<string>): string
  {
    Join(NonEmpty(parts), " ")
  }

  /** The line `addTodo` appends for a record. */
  function AddLine(t: Todo): string
  {
    Line(AddParts(t))
  }

  /** The line `updateTodo` writes in place of every matching line. */
  function UpdateLine(t: Todo): string
  {
    Line(UpdateParts(t))
  }

  /** Two pieces of a line side by side: a single space between them, and none when either is empty. */
  function Glue(a: string, b: string): string
  {
    if a == "" then b else if b == "" then a else a + " " + b
  }

  /** A reference layout of a line: every piece glued to the layout of those after it. */
  function Layout(parts: seq<string>): string
    decreases |parts|
  {
    if |parts| == 0 then "" else Glue(parts[0], Layout(parts[1..]))
  }

  /** The join of non-empty strings is empty only when there are none. */
  lemma {:induction false} JoinNonEmptyIsEmpty(parts: seq<string>)
    requires forall k :: 0 <= k < |parts| ==> parts[k] != ""
    ensures Join(parts, " ") == "" <==> parts == []
  {
    if |parts| > 1 {
      JoinCons(parts[0], parts[1..], " ");
      assert [parts[0]] + parts[1..] == parts;
    }
  }

  /**
   * Filtering out the empty pieces and joining with single spaces is the same
   * as gluing the pieces one to the next: every present piece appears, in
   * order, once, with exactly one space between neighbours.
   */
  lemma {:induction false} LineIsLayout(parts: seq<string>)
    ensures Line(parts) == Layout(parts)
    decreases |parts|
  {
    if |parts| > 0 {
      LineIsLayout(parts[1..]);
      var rest := NonEmpty(parts[1..]);
      if parts[0] != "" {
        JoinNonEmptyIsEmpty(rest);
        if rest != [] {
          JoinCons(parts[0], rest, " ");
        }
      }
    }
  }

  /** The layout of the tail fields (creation date, description, project, context, special tag). */
  function Tail(t: Todo): string
  {
    Layout(TailParts(t))
  }

  /** Layout of a list that starts with three explicit pieces. */
  lemma LayoutOfThree(a: string, b: string, c: string, tail: seq<string>)
    ensures Layout([a, b, c] + tail) == Glue(a, Glue(b, Glue(c, Layout(tail))))
  {
    assert ([a, b, c] + tail)[1..] == [b, c] + tail;
    LayoutOfTwo(b, c, tail);
  }

  /** Layout of a list that starts with two explicit pieces. */
  lemma LayoutOfTwo(a: string, b: string, tail: seq<string>)
    ensures Layout([a, b] + tail) == Glue(a, Glue(b, Layout(tail)))
  {
    assert ([a, b] + tail)[1..] == [b] + tail;
    assert ([b] + tail)[1..] == tail;
  }

  /**
   * The shape of the added line. With a completion date it is `x`, then the
   * priority if any, then the completion date, then the tail fields. Without
   * one there is no marker and no completion date: priority, then the tail.
   */
  lemma AddLineShape(t: Todo)
    ensures Truthy(t.completionDate) ==>
      AddLine(t) == "x " + Glue(PriorityText(t), Glue(t.completionDate.value, Tail(t)))
    ensures !Truthy(t.completionDate) ==> AddLine(t) == Glue(PriorityText(t), Tail(t))
  {
    LineIsLayout(AddParts(t));
    LayoutOfThree(if Truthy(t.completionDate) then "x" else "", PriorityText(t),
      Text(t.completionDate), TailParts(t));
  }

  /** With a priority and a completion date, `addTodo` writes `x (P) C ...`: the date comes after the priority. */
  lemma AddLineDateAfterPriority(t: Todo)
    requires Truthy(t.completionDate) && Truthy(t.priority)
    ensures AddLine(t) ==
      "x (" + t.priority.value + ") " + Glue(t.completionDate.value, Tail(t))
  {
    AddLineShape(t);
    var p := t.priority.value;
    var rest := Glue(t.completionDate.value, Tail(t));
    assert |rest| > 0;
    assert Glue(PriorityText(t), rest) == "(" + p + ")" + " " + rest;
    assert "x " + ("(" + p + ")" + " " + rest) == "x (" + p + ") " + rest;
  }

  /**
   * The added line starts with `x ` exactly when a completion date was given,
   * or when the same record without one would already start with `x ` (a
   * description such as `x ray` with no priority and no creation date).
   */
  lemma AddLineMarker(t: Todo)
    ensures StartsWith(AddLine(t), "x ") <==>
      Truthy(t.completionDate) || StartsWith(AddLine(t.(completionDate := None)), "x ")
  {
    AddLineShape(t);
    AddLineShape(t.(completionDate := None));
    assert Tail(t.(completionDate := None)) == Tail(t);
  }

  /** No field can smuggle in a marker when the free-text fields do not start with `x`. */
  predicate NoLeadingX(v: Option<string>)
  {
    !Truthy(v) || v.value[0] != 'x'
  }

  /** A piece that is empty or does not start with `x`. */
  predicate NoX(piece: string)
  {
    piece == "" || piece[0] != 'x'
  }

  /** A layout of pieces none of which starts with `x` does not start with `x` either. */
  lemma {:induction false} LayoutNoX(parts: seq<string>)
    requires forall k :: 0 <= k < |parts| ==> NoX(parts[k])
    ensures NoX(Layout(parts))
    decreases |parts|
  {
    if |parts| > 0 {
      LayoutNoX(parts[1..]);
      if parts[0] != "" && Layout(parts[1..]) != "" {
        assert Layout(parts)[0] == parts[0][0];
      }
    }
  }

  /** The tail never starts with `x` when the creation date, description and special tag do not. */
  lemma TailNoMarker(t: Todo)
    requires NoLeadingX(t.creationDate) && NoLeadingX(t.description) && NoLeadingX(t.specialTag)
    ensures NoX(Tail(t))
  {
    var parts := TailParts(t);
    assert Truthy(t.project) ==> parts[2][0] == '+';
    assert Truthy(t.context) ==> parts[3][0] == '@';
    LayoutNoX(parts);
  }

  /**
   * When the free-text fields do not start with `x`, the added line starts with
   * `x ` if and only if a completion date was given.
   */
  lemma AddLineMarkerIff(t: Todo)
    requires NoLeadingX(t.creationDate) && NoLeadingX(t.description) && NoLeadingX(t.specialTag)
    ensures StartsWith(AddLine(t), "x ") <==> Truthy(t.completionDate)
  {
    AddLineShape(t);
    TailNoMarker(t);
    var pr := PriorityText(t);
    assert pr != "" ==> pr[0] == '(';
    if !Truthy(t.completionDate) {
      var line := Glue(pr, Tail(t));
      assert line == "" || line[0] != 'x';
    }
  }

  /**
   * The shape of the updated line: `x C` comes first, BEFORE the priority.
   * Without a completion date it is the line `addTodo` would build.
   */
  lemma UpdateLineShape(t: Todo)
    ensures Truthy(t.completionDate) ==>
      UpdateLine(t) == "x " + Glue(t.completionDate.value, Glue(PriorityText(t), Tail(t)))
    ensures !Truthy(t.completionDate) ==> UpdateLine(t) == AddLine(t)
  {
    LineIsLayout(UpdateParts(t));
    LayoutOfTwo(Tagged("x ", t.completionDate), PriorityText(t), TailParts(t));
    AddLineShape(t);
  }

  /** The two builders agree unless a record has both a completion date and a priority. */
  lemma BuildersAgree(t: Todo)
    requires !Truthy(t.completionDate) || !Truthy(t.priority)
    ensures UpdateLine(t) == AddLine(t)
  {
    UpdateLineShape(t);
    AddLineShape(t);
  }

  /** With both a completion date and a priority the builders put them in opposite orders. */
  lemma BuildersDiffer(t: Todo)
    requires Truthy(t.completionDate) && Truthy(t.priority)
    ensures AddLine(t) == "x (" + t.priority.value + ") " + Glue(t.completionDate.value, Tail(t))
    ensures UpdateLine(t) == "x " + t.completionDate.value + " (" + t.priority.value + ")"
      + (if Tail(t) == "" then "" else " " + Tail(t))
  {
    AddLineShape(t);
    UpdateLineShape(t);
    var pr := PriorityText(t);
    var c := t.completionDate.value;
    assert pr == "(" + t.priority.value + ")";
    assert Glue(pr, Tail(t)) == pr + (if Tail(t) == "" then "" else " " + Tail(t));
    assert Glue(c, Glue(pr, Tail(t))) == c + " " + Glue(pr, Tail(t));
    assert Glue(pr, Glue(c, Tail(t))) == pr + " " + Glue(c, Tail(t));
  }

  // ---------------------------------------------------------------------------
  // Reading the task file

  /** `filter(line => line.trim() !== '')` */
  function NonBlank(lines: seq<string>): (r: seq<string>)
    ensures forall k :: 0 <= k < |r| ==> !IsBlank(r[k])
    ensures forall k :: 0 <= k < |r| ==> r[k] in lines
    ensures forall k :: 0 <= k < |lines| && !IsBlank(lines[k]) ==> lines[k] in r
    decreases |lines|
  {
    if |lines| == 0 then []
    else if IsBlank(lines[0]) then NonBlank(lines[1..])
    else [lines[0]] + NonBlank(lines[1..])
  }

  /** The filter works line by line: the kept lines of two parts are kept in their order. */
  lemma {:induction false} NonBlankAppend(a: seq<string>, b: seq<string>)
    ensures NonBlank(a + b) == NonBlank(a) + NonBlank(b)
    decreases |a|
  {
    if |a| > 0 {
      assert (a + b)[0] == a[0] && (a + b)[1..] == a[1..] + b;
      NonBlankAppend(a[1..], b);
    } else {
      assert a + b == b;
    }
  }

  /** `readTodos`: the non-blank lines of the file's text, or none when it cannot be read. */
  function ReadLines(file: Option<string>): seq<string>
  {
    match file
    case None => []
    case Some(text) => NonBlank(Split(text, '\n'))
  }

  /** `writeTodos`: the text written for a list of lines. */
  function WriteText(todos: seq<string>): string
  {
    Join(todos, "\n")
  }

  /** A line the file keeps as it is: not blank and without a line break. */
  predicate Storable(line: string)
  {
    !IsBlank(line) && '\n' !in line
  }

  /** A list whose every line reads back unchanged. */
  predicate AllStorable(todos: seq<string>)
  {
    forall k :: 0 <= k < |todos| ==> Storable(todos[k])
  }

  /** Filtering out blanks leaves a list without blanks unchanged. */
  lemma {:induction false} NonBlankKeepsNonBlank(lines: seq<string>)
    requires forall k :: 0 <= k < |lines| ==> !IsBlank(lines[k])
    ensures NonBlank(lines) == lines
    decreases |lines|
  {
    if |lines| > 0 {
      NonBlankKeepsNonBlank(lines[1..]);
      assert [lines[0]] + lines[1..] == lines;
    }
  }

  /** What `readTodos` returns is never blank and never holds a line break. */
  lemma ReadLinesStorable(file: Option<string>)
    ensures AllStorable(ReadLines(file))
  {
    if file.Some? {
      var pieces := Split(file.value, '\n');
      forall k | 0 <= k < |ReadLines(file)| ensures '\n' !in ReadLines(file)[k] {
        var line := ReadLines(file)[k];
        assert line in pieces;
        var m :| 0 <= m < |pieces| && pieces[m] == line;
      }
    }
  }

  /** Reading back what `writeTodos` wrote returns the same list, for storable lines. */
  lemma ReadAfterWrite(todos: seq<string>)
    requires AllStorable(todos)
    ensures ReadLines(Some(WriteText(todos))) == todos
  {
    if todos == [] {
      assert Split("", '\n') == [""];
      assert IsBlank("");
    } else {
      SplitJoin(todos, '\n');
      NonBlankKeepsNonBlank(todos);
    }
  }

  /** Writing back what was read is idempotent: the next read returns the same list. */
  lemma ReadWriteRead(file: Option<string>)
    ensures ReadLines(Some(WriteText(ReadLines(file)))) == ReadLines(file)
  {
    ReadLinesStorable(file);
    ReadAfterWrite(ReadLines(file));
  }

  // ---------------------------------------------------------------------------
  // update: replace every matching line

  /** `todos.map(todo => todo.includes(fragment) ? <line built from t> : todo)` */
  function UpdateTodos(todos: seq<string>, fragment: string, t: Todo): (r: seq<string>)
    ensures |r| == |todos|
    decreases |todos|
  {
    if |todos| == 0 then []
    else
      [if Contains(todos[0], fragment) then UpdateLine(t) else todos[0]]
      + UpdateTodos(todos[1..], fragment, t)
  }

  /**
   * Every line containing the fragment becomes the line built from the new
   * fields alone, whatever it held before; every other line stays in place.
   */
  lemma {:induction false} UpdateTodosAt(todos: seq<string>, fragment: string, t: Todo, i: nat)
    requires i < |todos|
    ensures Contains(todos[i], fragment) ==> UpdateTodos(todos, fragment, t)[i] == UpdateLine(t)
    ensures !Contains(todos[i], fragment) ==> UpdateTodos(todos, fragment, t)[i] == todos[i]
    decreases i
  {
    if i > 0 {
      UpdateTodosAt(todos[1..], fragment, t, i - 1);
    }
  }

  /** Updating twice with the same fragment and fields is the same as updating once. */
  lemma UpdateTodosIdempotent(todos: seq<string>, fragment: string, t: Todo)
    ensures UpdateTodos(UpdateTodos(todos, fragment, t), fragment, t) == UpdateTodos(todos, fragment, t)
  {
    var once := UpdateTodos(todos, fragment, t);
    var twice := UpdateTodos(once, fragment, t);
    forall i | 0 <= i < |todos| ensures twice[i] == once[i] {
      UpdateTodosAt(todos, fragment, t, i);
      UpdateTodosAt(once, fragment, t, i);
    }
  }

  // ---------------------------------------------------------------------------
  // done: mark matching lines

  /** One line after `doneTodo`: `x ` prefixed when the line matches and is unmarked, otherwise the line itself. */
  function MarkLine(line: string, fragment: string): string
  {
    if Contains(line, fragment) && !StartsWith(line, "x ") then "x " + line else line
  }

  /** `todos.map(...)` in `doneTodo`: prefix `x ` to every matching, unmarked line. */
  function MarkDone(todos: seq<string>, fragment: string): (r: seq<string>)
    ensures |r| == |todos|
    decreases |todos|
  {
    if |todos| == 0 then [] else [MarkLine(todos[0], fragment)] + MarkDone(todos[1..], fragment)
  }

  /** Each line of the result is the original line, with `x ` prefixed exactly when it matched and was unmarked. */
  lemma {:induction false} MarkDoneAt(todos: seq<string>, fragment: string, i: nat)
    requires i < |todos|
    ensures Contains(todos[i], fragment) && !StartsWith(todos[i], "x ") ==>
      MarkDone(todos, fragment)[i] == "x " + todos[i]
    ensures !Contains(todos[i], fragment) || StartsWith(todos[i], "x ") ==>
      MarkDone(todos, fragment)[i] == todos[i]
    decreases i
  {
    if i > 0 {
      MarkDoneAt(todos[1..], fragment, i - 1);
    }
  }

  /** After `doneTodo` every line that contained the fragment starts with `x `. */
  lemma MarkDoneMarksAll(todos: seq<string>, fragment: string, i: nat)
    requires i < |todos| && Contains(todos[i], fragment)
    ensures StartsWith(MarkDone(todos, fragment)[i], "x ")
  {
    MarkDoneAt(todos, fragment, i);
  }

  /** Marking twice is the same as marking once. */
  lemma MarkDoneIdempotent(todos: seq<string>, fragment: string)
    ensures MarkDone(MarkDone(todos, fragment), fragment) == MarkDone(todos, fragment)
  {
    var once := MarkDone(todos, fragment);
    var twice := MarkDone(once, fragment);
    forall i | 0 <= i < |todos| ensures twice[i] == once[i] {
      MarkDoneAt(todos, fragment, i);
      MarkDoneAt(once, fragment, i);
      if once[i] != todos[i] {
        assert ("x " + todos[i])[..2] == "x ";
      }
    }
  }

  // ---------------------------------------------------------------------------
  // delete: the three-way match policy

  /** `todos.filter(todo => todo.includes(fragment))` */
  function Matching(todos: seq<string>, fragment: string): (r: seq<string>)
    ensures |r| <= |todos|
    ensures forall k :: 0 <= k < |r| ==> Contains(r[k], fragment)
    decreases |todos|
  {
    if |todos| == 0 then []
    else if Contains(todos[0], fragment) then [todos[0]] + Matching(todos[1..], fragment)
    else Matching(todos[1..], fragment)
  }

  /** `todos.filter(todo => !todo.includes(fragment))` */
  function Remaining(todos: seq<string>, fragment: string): (r: seq<string>)
    ensures |r| + |Matching(todos, fragment)| == |todos|
    ensures forall k :: 0 <= k < |r| ==> !Contains(r[k], fragment)
    ensures forall k :: 0 <= k < |r| ==> r[k] in todos
    decreases |todos|
  {
    if |todos| == 0 then []
    else if Contains(todos[0], fragment) then Remaining(todos[1..], fragment)
    else [todos[0]] + Remaining(todos[1..], fragment)
  }

  /** How `deleteTodo` ends. */
  datatype DeleteOutcome =
    | NotFound                        // no line matches: an error is reported
    | Ambiguous(matches: seq<string>) // several lines match: the user must refine the search
    | Declined                        // one line matches but the user answered no
    | Deleted(remaining: seq<string>) // one line matches and the user answered yes

  /** The decision `deleteTodo` takes; `confirmed` is the answer to the yes/no prompt. */
  function DeletePolicy(todos: seq<string>, fragment: string, confirmed: bool): DeleteOutcome
  {
    var matches := Matching(todos, fragment);
    if |matches| == 0 then NotFound
    else if |matches| > 1 then Ambiguous(matches)
    else if !confirmed then Declined
    else Deleted(Remaining(todos, fragment))
  }

  /** A matching line makes the list of matches non-empty. */
  lemma {:induction false} MatchingNonEmpty(todos: seq<string>, fragment: string, k: nat)
    requires k < |todos| && Contains(todos[k], fragment)
    ensures |Matching(todos, fragment)| > 0
    decreases k
  {
    if k > 0 && !Contains(todos[0], fragment) {
      MatchingNonEmpty(todos[1..], fragment, k - 1);
    }
  }

  /** The matches and the remaining lines together are the lines of the list, each as often as it occurs. */
  lemma {:induction false} MatchingRemainingPartition(todos: seq<string>, fragment: string)
    ensures multiset(Matching(todos, fragment)) + multiset(Remaining(todos, fragment)) == multiset(todos)
    decreases |todos|
  {
    if |todos| > 0 {
      MatchingRemainingPartition(todos[1..], fragment);
      assert todos == [todos[0]] + todos[1..];
    }
  }

  /** Every line that contains the fragment is among the matches. */
  lemma {:induction false} MatchingComplete(todos: seq<string>, fragment: string, k: nat)
    requires k < |todos| && Contains(todos[k], fragment)
    ensures todos[k] in Matching(todos, fragment)
    decreases k
  {
    if k > 0 {
      MatchingComplete(todos[1..], fragment, k - 1);
    }
  }

  /** Two lines containing the fragment make at least two matches. */
  lemma {:induction false} MatchingTwo(todos: seq<string>, fragment: string, i: nat, j: nat)
    requires i < j < |todos| && Contains(todos[i], fragment) && Contains(todos[j], fragment)
    ensures |Matching(todos, fragment)| >= 2
    decreases i
  {
    if i == 0 {
      MatchingNonEmpty(todos[1..], fragment, j - 1);
    } else if Contains(todos[0], fragment) {
      MatchingNonEmpty(todos[1..], fragment, j - 1);
    } else {
      MatchingTwo(todos[1..], fragment, i - 1, j - 1);
    }
  }

  /** `delete` is ambiguous whenever two different lines contain the fragment, whatever the answer. */
  lemma DeleteAmbiguousIfTwo(todos: seq<string>, fragment: string, confirmed: bool, i: nat, j: nat)
    requires i < j < |todos| && Contains(todos[i], fragment) && Contains(todos[j], fragment)
    ensures DeletePolicy(todos, fragment, confirmed) == Ambiguous(Matching(todos, fragment))
  {
    MatchingTwo(todos, fragment, i, j);
  }

  /** With nothing matching, filtering out the matches removes nothing. */
  lemma {:induction false} RemainingNoMatch(todos: seq<string>, fragment: string)
    requires |Matching(todos, fragment)| == 0
    ensures Remaining(todos, fragment) == todos
    decreases |todos|
  {
    if |todos| > 0 {
      RemainingNoMatch(todos[1..], fragment);
      assert [todos[0]] + todos[1..] == todos;
    }
  }

  /** With exactly one match at index k, the filter removes that line and keeps the others in order. */
  lemma {:induction false} RemainingUniqueMatch(todos: seq<string>, fragment: string, k: nat)
    requires k < |todos| && Contains(todos[k], fragment)
    requires |Matching(todos, fragment)| == 1
    ensures Remaining(todos, fragment) == todos[..k] + todos[k + 1..]
    decreases k
  {
    if k == 0 {
      RemainingNoMatch(todos[1..], fragment);
    } else {
      if Contains(todos[0], fragment) {
        MatchingNonEmpty(todos[1..], fragment, k - 1);
        assert false;
      }
      RemainingUniqueMatch(todos[1..], fragment, k - 1);
      assert todos[..k] == [todos[0]] + todos[1..][..k - 1];
      assert todos[k + 1..] == todos[1..][k..];
    }
  }

  /** A single match is a line of the list. */
  lemma {:induction false} UniqueMatchIndex(todos: seq<string>, fragment: string) returns (k: nat)
    requires |Matching(todos, fragment)| == 1
    ensures k < |todos| && Contains(todos[k], fragment)
    decreases |todos|
  {
    if Contains(todos[0], fragment) {
      k := 0;
    } else {
      var j := UniqueMatchIndex(todos[1..], fragment);
      k := j + 1;
    }
  }

  /**
   * The three-way policy: nothing written for no match or several matches;
   * with exactly one match a yes removes that line and keeps the others in
   * order, a no keeps everything.
   */
  lemma DeletePolicyCases(todos: seq<string>, fragment: string, confirmed: bool, k: nat)
    requires k < |todos| && Contains(todos[k], fragment)
    ensures |Matching(todos, fragment)| > 1 <==> DeletePolicy(todos, fragment, confirmed).Ambiguous?
    ensures |Matching(todos, fragment)| == 1 && confirmed ==>
      DeletePolicy(todos, fragment, confirmed) == Deleted(todos[..k] + todos[k + 1..])
    ensures |Matching(todos, fragment)| == 1 && !confirmed ==>
      DeletePolicy(todos, fragment, confirmed) == Declined
    ensures !DeletePolicy(todos, fragment, confirmed).NotFound?
  {
    MatchingNonEmpty(todos, fragment, k);
    if |Matching(todos, fragment)| == 1 {
      RemainingUniqueMatch(todos, fragment, k);
    }
  }

  /** A fragment no line contains is reported as not found. */
  lemma {:induction false} DeletePolicyNotFound(todos: seq<string>, fragment: string, confirmed: bool)
    requires forall k :: 0 <= k < |todos| ==> !Contains(todos[k], fragment)
    ensures DeletePolicy(todos, fragment, confirmed) == NotFound
    decreases |todos|
  {
    if |todos| > 0 {
      assert !Contains(todos[0], fragment);
      DeletePolicyNotFound(todos[1..], fragment, confirmed);
    }
  }
}
