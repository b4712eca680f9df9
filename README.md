# jadwal: a verified model of the todo.txt task list

`jadwal` is a command-line task manager that keeps its tasks in one plain-text
file, `todo.txt`, one task per line. This project models its core in Dafny:

- `index.js`: reading and writing the task file (`readTodos`, `writeTodos`), the
  two line builders (`addTodo` and `updateTodo` put the fields in different
  orders), and the list operations `addTodo`, `updateTodo`, `deleteTodo` and
  `doneTodo`, each a read-modify-write of the whole file;
- `cli.js`: `parseOptions`, `validateOptions` with its error messages, and the
  `add` and `update` branches of `main`, which map the options to the record
  handed to `index.js`.

Files and modules:

| file | module | what it holds |
|---|---|---|
| `wrappers.dfy` | `Wrappers` | `Option` (a string or `undefined`) and `Outcome` (pass, or fail with an error) |
| `strings.dfy` | `Strings` | the JavaScript string built-ins used: `startsWith`, `includes`, the blank test `trim() === ''`, `split`, `join`; split/join round trips |
| `todo_list.dfy` | `TodoList` | the `Todo` record, JavaScript truthiness, both line builders, the list transformations, the delete policy, how a file's text reads as lines |
| `todo_store.dfy` | `TodoStore` | class `TodoFile`: the file's text (or nothing when it cannot be read) and the read-modify-write methods |
| `cli.dfy` | `Cli` | `parseOptions` as a loop, `validateOptions` as a loop plus its rulebook, messages, records, the `add` and `update` commands |
| `scenarios.dfy` | `Scenarios` | worked examples on concrete lines |

Modelling choices:

- The file is `text: Option<string>`. `None` means the file is missing or
  cannot be read. `readTodos` then yields `[]`. Writing always succeeds and
  replaces the whole text.
- A field of the record is `Option<string>`: `None` is `undefined`.
  `Truthy(v)` is JavaScript truthiness for such a value, that is, defined and
  non-empty. `filter(Boolean)` is `NonEmpty`.
- The yes/no prompt of `deleteTodo` is the parameter `confirmed`. It is
  consulted only when exactly one line matches.
- The object `parseOptions` builds is `Options`: its keys in the order they were
  first assigned, plus a map from key to value. Assigning an existing key again
  keeps its position, as JavaScript does.
- `validateOptions` is a method with the source's loop. It is proved equal to
  the function `Validation`, which reports the first failing check. The lemma
  `ValidationIff` proves that validation passes exactly when the declarative
  rulebook `Acceptable` holds, whatever the key order.

Where the code does less than a full todo.txt tool would, the model follows the
code:

- There is no line parser and no field merge. `updateTodo` rebuilds every
  matching line only from the new fields, so `update -o Milk -p B` turns
  `(A) Milk +shop` into `(B)` (`Scenarios.UpdateExample`).
- `add` fills in no creation date. The line has only the fields given
  (`Scenarios.AddExample`).
- `doneTodo` asks for no confirmation and has no three-way policy. It marks
  every matching line that is not yet marked.
- `updateTodo` has no three-way policy either. It replaces every matching line.
  Only `deleteTodo` refuses when zero or several lines match.
- `updateTodo` writes `x C` before the priority, while `addTodo` writes `x`, the
  priority, then `C` (`TodoList.BuildersDiffer`).

## Model

| member | source | states |
|---|---|---|
| `Strings.StartsWith` | index.js:113 | definition of `startsWith`: the string begins with the prefix |
| `Strings.Contains` | index.js:63 | definition of `includes`: the string starts with the fragment, or its tail contains it |
| `Strings.IsWhitespace` | index.js:21 | definition of the characters `trim` removes: the ECMAScript white space and line terminators |
| `Strings.IsBlank` | index.js:21 | definition of `line.trim() === ''`: every character is white space |
| `Strings.Join` | index.js:30 | definition of `join(sep)`: `""` for no parts, the part itself for one, otherwise the first part, the separator and the join of the rest |
| `Strings.Split` | index.js:21 | `split('\n')` always yields at least one piece, and no piece holds the separator |
| `Strings.ContainsAt` | index.js:63 | `includes` holds exactly when the fragment occurs at some index of the line |
| `Strings.SplitJoin` | index.js:21-30 | splitting the joined lines gives the lines back when none holds a line break |
| `Strings.JoinSplit` | index.js:21-30 | joining the pieces of a split gives the original text back |
| `TodoList.Truthy` | index.js:41-48 | definition of JavaScript truthiness for an optional string: present and not empty |
| `TodoList.Text` | index.js:44-48 | definition of `v ? v : ''` and of `v` or `''`: the value when truthy, otherwise `""` |
| `TodoList.Tagged` | index.js:46-47 | definition of `v ? '+' + v : ''` (and `@` for the context): the prefix and the value when truthy, otherwise `""` |
| `TodoList.PriorityText` | index.js:42 | definition of `p ? '(' + p + ')' : ''` |
| `TodoList.AddParts` | index.js:40-48 | definition of the array `addTodo` builds: `x` or `""`, priority, completion date, creation date, description, project, context, special tag |
| `TodoList.UpdateParts` | index.js:64-71 | definition of the array `updateTodo` builds: `x C` or `""`, priority, then the same tail fields |
| `TodoList.AddLine` | index.js:40-49 | definition of the added line: the pieces of `AddParts` filtered and joined by a space |
| `TodoList.UpdateLine` | index.js:64-72 | definition of the replacement line: the pieces of `UpdateParts` filtered and joined by a space |
| `TodoList.NonEmpty` | index.js:49 | `filter(Boolean)` keeps only non-empty pieces |
| `TodoList.LineIsLayout` | index.js:40-49 | filter-then-join equals gluing the pieces: each present field appears once, in order, one space apart, empty fields dropped |
| `TodoList.AddLineShape` | index.js:40-49 | the added line is `x`, priority, completion date, then the tail fields when a completion date is given; otherwise priority and tail, with no marker |
| `TodoList.AddLineDateAfterPriority` | index.js:41-43 | with a priority and a completion date the line starts `x (P) C` |
| `TodoList.AddLineMarker` | index.js:41-49 | the line starts with `x ` iff a completion date is given or the same record without it already starts with `x ` |
| `TodoList.AddLineMarkerIff` | index.js:41-49 | when creation date, description and special tag do not start with `x`, the line starts with `x ` iff a completion date is given |
| `TodoList.UpdateLineShape` | index.js:64-72 | the updated line puts `x C` first, before the priority; without a completion date it equals the added line |
| `TodoList.BuildersAgree` | index.js:40-72 | the two builders agree unless both a completion date and a priority are present |
| `TodoList.BuildersDiffer` | index.js:40-72 | with both present, `addTodo` writes `x (P) C ...` and `updateTodo` writes `x C (P) ...` |
| `TodoList.NonBlank` | index.js:21 | the lines kept are never blank, all come from the input, and every non-blank input line is kept |
| `TodoList.NonBlankAppend` | index.js:21 | the filter works line by line: filtering `a + b` keeps the lines of `a`, then those of `b`, in order |
| `TodoList.ReadLines` | index.js:18-26 | definition of `readTodos`: `[]` when the file cannot be read, otherwise the non-blank pieces of `split('\n')` |
| `TodoList.WriteText` | index.js:30 | definition of the text `writeTodos` writes: the lines joined by `\n` |
| `TodoList.ReadLinesStorable` | index.js:18-26 | what `readTodos` returns has no blank line and no line break; `[]` when the read fails |
| `TodoList.ReadAfterWrite` | index.js:21-30 | reading back what `writeTodos` wrote gives the same list, for non-blank lines without line breaks |
| `TodoList.ReadWriteRead` | index.js:18-35 | writing back what was read changes nothing that a later read sees |
| `TodoList.UpdateTodos` | index.js:62-76 | the update keeps the number of lines |
| `TodoList.UpdateTodosAt` | index.js:62-76 | every matching line becomes the line built from the new fields alone; every other line stays in its place |
| `TodoList.UpdateTodosIdempotent` | index.js:62-76 | updating twice with the same fragment and fields equals updating once |
| `TodoList.MarkLine` | index.js:113-116 | definition of one line after `doneTodo`: `x ` prefixed when it matches and is unmarked, otherwise the line itself |
| `TodoList.MarkDone` | index.js:112-117 | marking keeps the number of lines |
| `TodoList.MarkDoneAt` | index.js:112-117 | a line gets `x ` prefixed exactly when it matches and does not start with `x `; other lines are unchanged |
| `TodoList.MarkDoneMarksAll` | index.js:112-117 | afterwards every matching line starts with `x ` |
| `TodoList.MarkDoneIdempotent` | index.js:112-117 | marking twice equals marking once |
| `TodoList.Matching` | index.js:88 | the matches all contain the fragment and are no more than the lines |
| `TodoList.MatchingComplete` | index.js:88 | every line that contains the fragment is among the matches |
| `TodoList.Remaining` | index.js:101 | the lines kept contain no match, come from the list, and together with the matches account for every line |
| `TodoList.MatchingRemainingPartition` | index.js:88-101 | the matches and the remaining lines together are the lines of the list, each as often as it occurs |
| `TodoList.DeletePolicy` | index.js:88-103 | definition of the decision of `deleteTodo`: not found for no match, ambiguous for several, declined when not confirmed, otherwise the remaining lines |
| `TodoList.MatchingTwo` | index.js:88 | two different lines containing the fragment give at least two matches |
| `TodoList.DeleteAmbiguousIfTwo` | index.js:88-95 | whenever two different lines contain the fragment, delete is ambiguous whatever the answer |
| `TodoList.RemainingUniqueMatch` | index.js:101 | with exactly one match at index k, deleting keeps `todos[..k] + todos[k+1..]` |
| `TodoList.UniqueMatchIndex` | index.js:88-95 | a single match is some line of the list |
| `TodoList.DeletePolicyCases` | index.js:88-103 | several matches mean ambiguous; one match and yes removes exactly that line keeping the order; one match and no declines; a matching line is never "not found" |
| `TodoList.DeletePolicyNotFound` | index.js:88-91 | a fragment no line contains is reported as not found |
| `TodoStore.TodoFile.constructor` | index.js:16 | the store starts with the given file text |
| `TodoStore.TodoFile.ReadTodos` | index.js:18-26 | returns the file's non-blank lines, none blank or holding a line break, and `[]` when the file cannot be read |
| `TodoStore.TodoFile.WriteTodos` | index.js:28-35 | the file becomes the lines joined by `\n`; storable lines read back unchanged |
| `TodoStore.TodoFile.AddTodo` | index.js:37-57 | the file becomes the old lines plus the built line at the end; a storable line reads back as exactly one appended line |
| `TodoStore.TodoFile.UpdateTodo` | index.js:59-83 | the file becomes the updated list; with a storable new line the read list is that update |
| `TodoStore.TodoFile.DeleteTodo` | index.js:85-107 | the outcome is the three-way policy; the file is untouched unless the single match was confirmed, then it holds exactly the remaining lines |
| `TodoStore.TodoFile.DoneTodo` | index.js:109-123 | the file and the read list become the marked list |
| `TodoStore.UpdateTodosStorable` | index.js:62-76 | the update keeps every line storable when the new line is |
| `TodoStore.MarkDoneStorable` | index.js:112-117 | prefixing `x ` keeps lines storable |
| `TodoStore.RemainingStorable` | index.js:101 | deleting keeps the remaining lines storable |
| `Cli.Set` | cli.js:16 | definition of `options[key] = value`: a new key goes last, an existing key keeps its place, the value is replaced |
| `Cli.Get` | cli.js:29 | definition of `options[key]`: `undefined` for a missing key |
| `Cli.StripDashes` | cli.js:14 | the key is a suffix of the argument that does not start with `-` |
| `Cli.StripDashesRemovesDashes` | cli.js:14 | everything removed before the key is a dash: exactly the leading run of dashes goes (`/^-+/`) |
| `Cli.ArgAt` | cli.js:15 | definition of `args[i + 1]`: `undefined` past the end |
| `Cli.ParseStep` | cli.js:13-17 | definition of one pass of the loop body: an argument starting with `-` sets its stripped key to the next argument |
| `Cli.ParseFrom` | cli.js:12-18 | definition of the loop from index `i` in steps of two |
| `Cli.Parsed` | cli.js:10-20 | definition of `parseOptions`: the loop from 0 on an empty object |
| `Cli.ParseOptions` | cli.js:10-20 | the loop in steps of two yields the parsed options |
| `Cli.SetConsistent` | cli.js:16 | assigning a key keeps each key listed once |
| `Cli.ParseFromConsistent` | cli.js:12-18 | the loop keeps the object consistent |
| `Cli.StepLookup` | cli.js:13-17 | one step sets exactly the key its even-indexed dashed argument names, to the next argument |
| `Cli.ParseFromHasKey` | cli.js:12-18 | a key is set iff some later even-indexed option names it or it was set already |
| `Cli.ParseFromKeeps` | cli.js:12-18 | a key no later option names keeps its value |
| `Cli.ParseFromLast` | cli.js:12-18 | the value of a key is the argument after the last option naming it |
| `Cli.ParsedLookup` | cli.js:12-17 | only even-indexed dashed arguments define keys; a key's value is the argument after its last occurrence, or `undefined` at the end |
| `Cli.AllowedOptions` | cli.js:137-143 | definition of `validOptions`: the fourteen options of `add`, then `o` and `old-description` for `update` |
| `Cli.Or` | cli.js:29 | JavaScript `or` on two values: truthy iff either is, and the first when it is truthy |
| `Cli.Either` | cli.js:29-35 | definition of `options.x`, or `options['long']` when that is falsy |
| `Cli.DateShape` | cli.js:188 | definition of `/^\d{4}-\d{2}-\d{2}$/`: ten characters, four digits, a dash, two digits, a dash, two digits |
| `Cli.KeyCheck` | cli.js:151-179 | definition of the checks for one key, in order: unknown option, missing value, special tag without `:` |
| `Cli.CheckKeys` | cli.js:150-180 | definition of the loop over the keys: the error of the first key that fails |
| `Cli.DateChecks` | cli.js:182-194 | definition of the checks after the loop, in order: completion date without creation date, bad completion date, bad creation date |
| `Cli.ValidationWith` | cli.js:145-194 | definition of the checks of `validateOptions` against a given list of valid options, in the source's order |
| `Cli.Validation` | cli.js:136-195 | definition of what `validateOptions` throws: the checks against `AllowedOptions` |
| `Cli.ValidateOptions` | cli.js:136-195 | the method returns exactly the first failing check of `Validation`, in the source's order |
| `Cli.CheckOptionKeys` | cli.js:150-180 | the loop over the keys returns the error of the first key that fails, or passes |
| `Cli.DateChecksPass` | cli.js:182-194 | the date checks pass iff a completion date comes with a creation date and both dates are shaped `DDDD-DD-DD` |
| `Cli.ValidationWithIff` | cli.js:145-194 | for any list of non-empty valid option names, the checks pass iff the rulebook holds |
| `Cli.AllowedNotEmpty` | cli.js:137 | every allowed option name has at least one character |
| `Cli.KeyCheckNone` | cli.js:150-180 | the per-key checks let a key through iff it is allowed, has a value, and a special tag holds `:` |
| `Cli.CheckKeysPass` | cli.js:150-180 | the key loop passes iff every key is acceptable |
| `Cli.ValidationIff` | cli.js:136-195 | validation passes iff the options obey the whole rulebook, in any key order |
| `Cli.ValidationRejects` | cli.js:146-194 | no description in add mode fails first; unknown keys, empty values, a special tag without `:`, a completion date without a creation date, and dates not shaped `DDDD-DD-DD` are each rejected |
| `Cli.OldDescriptionOnlyInUpdate` | cli.js:137-164 | `o` and `old-description` are rejected in add mode |
| `Cli.IndexOf` | cli.js:155 | the first index holding the option; `indexOf` gives -1 when there is none, the model the length, but the filter only asks about options of the list, where both agree |
| `Cli.FirstOrShort` | cli.js:152-156 | definition of the duplicate filter: keep an option at its first index or when it is one letter long |
| `Cli.Dashed` | cli.js:157-159 | definition of the dashed form: `-x` for one letter, `--name` otherwise |
| `Cli.DashedAll` | cli.js:157-160 | each option gets one dash if one letter long, two otherwise |
| `Cli.FirstOrShortKeepsAll` | cli.js:152-156 | without duplicates the duplicate filter keeps every option in order |
| `Cli.AllowedNoDuplicates` | cli.js:137-143 | neither list of valid options repeats an option |
| `Cli.ValidOptionsListed` | cli.js:152-163 | the invalid-option message lists every valid option once, in order, dashed |
| `Cli.ValidOptionsString` | cli.js:152-161 | definition of the list in the invalid-option message: filtered, dashed, joined by `, ` |
| `Cli.ValidationMessage` | cli.js:147-193 | definition of the text of each error `validateOptions` throws, colour escapes included; the message of a missing old description (cli.js:47) is the constant `MissingOldDescriptionMessage` |
| `Cli.AddRecord` | cli.js:28-36 | the description comes from `-d` when it is truthy, else from `--description` |
| `Cli.UpdateRecord` | cli.js:53-60 | the update record is the add record without a completion date |
| `Cli.OldDescription` | cli.js:44 | the fragment comes from `--old-description` when truthy, else from `-o` |
| `Cli.EitherFromKey` | cli.js:28-36 | a value the record takes comes from a key that is present |
| `Cli.ValidatedAddRecord` | cli.js:136-195 | after validation in add mode the record has a description, a creation date whenever a completion date, well-shaped dates and a special tag with `:` |
| `Cli.UpdateDropsCompletionDate` | cli.js:53-60 | validation in update mode accepts `-C`, which the update record then drops |
| `Cli.RunAdd` | cli.js:24-41 | `add` passes iff the parsed options are acceptable; on failure the file is untouched, otherwise the built line is appended |
| `Cli.RunUpdate` | cli.js:42-65 | `update` fails without an old description, then passes iff the options are acceptable; on failure the file is untouched, otherwise matching lines are rebuilt |
| `Scenarios.AddExample` | index.js:40-49 | description `Milk`, priority `A`, project `shop` give `(A) Milk +shop` |
| `Scenarios.PriorityOnlyLine` | index.js:64-72 | a record with only priority `B` builds `(B)` |
| `Scenarios.MilkInFirst` | index.js:63 | `(A) Milk +shop` contains `Milk` |
| `Scenarios.MilkNotInSecond` | index.js:63 | `Bread` does not contain `Milk` |
| `Scenarios.UpdateExample` | index.js:62-76 | updating `Milk` with priority `B` gives `["(B)", "Bread"]` |
| `Scenarios.DeleteAmbiguousExample` | index.js:88-95 | deleting `Mi` from `Milk` and `Mint`, which both contain it, is ambiguous |
| `Scenarios.ReadSkipsEmptyLine` | index.js:21 | a text `x`, empty line, `y` reads as `[x, y]` for any two non-blank lines without line breaks |
| `Scenarios.ReadSkipsBlank` | index.js:21 | the text `a\n\nb` reads as `["a", "b"]` |
| `Scenarios.DoneExample` | index.js:112-117 | `Walk dog` becomes `x Walk dog`, and marking again leaves it so |

## Left out

- `syncWithGit` (index.js:138-149): it only calls a git client and the network.
- `listTodos` (index.js:125-136): it only prints the lines `readTodos` returns. The
  lines themselves are modelled by `TodoFile.ReadTodos`.
- Environment configuration (`dotenv`, `LOCAL_REPO`, `process.exit`, index.js:7-16):
  the file path is not modelled; a `TodoFile` object is the file.
- Console and colour output, and the help text (cli.js:87-130): output only.
  `ValidationMessage` and `MissingOldDescriptionMessage` give the error texts, but
  printing them is not modelled.
- The `delete`, `done`, `list`, `sync`, `reveal` and `help` branches of `main`, and
  the dispatch on `process.argv`. `revealInExplorer` is imported at cli.js:4, but
  `index.js` does not define it.
- `readlineSync.keyInYN` (index.js:97): the yes/no answer is a parameter.
- Write failures of `writeTodos` (index.js:32-34): they are only logged. The model's
  write always succeeds.
- `async`/`await`: sequencing only, with no concurrency.
- JavaScript object key order: objects list integer-like keys (such as `1`) first,
  in numeric order. The model keeps insertion order. This can change only which
  error `ValidateOptions` reports when several keys fail. Whether validation passes
  does not depend on order (`ValidationIff`).
- JavaScript coercion edge cases: a `__proto__` option (ignored by a JavaScript
  object), and `doneTodo(undefined)`. The model takes the fragment as a string.
- TodoList.AddLineMarkerIff: this plain "iff" needs creation date, description and
  special tag not starting with `x`, because the code does not escape a
  description like `x ray`. `AddLineMarker` states the exact condition with no
  precondition.
