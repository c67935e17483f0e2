# HyteScript task scanner, modelled in Dafny

This project models the HyteScript lexer in `src/core/Lexer.js`. The lexer
walks a string with a cursor and a line counter. At every `#(`, `#!(` or `#*(`
it parses a *task*. A task has an optional `!` (negated) or `*` (handled)
marker, a name made of `[A-Za-z0-9_-]` and, when the configured separator
follows the name, a body. The body is cut into trimmed *fields* at every `|`
met at parenthesis depth 1. A fresh lexer is then run over each field, and the
tasks it finds become the task's *overloads*. Each overload is stamped with its
parent's id, a running overload number (`from`) and the lexer's path.

The model has two layers:

- **Specification functions** (module `Scanner`). These describe, as values,
  what one lexer run produces: `ScanLoop` (the `compile` loop), `ScanTask` and
  `Finish` (`#parseTask`), `SplitLoop`/`ScanBody` (the body loop of
  `#parseInside`), `ScanFields` (the recursion over the fields) and `Scan` (a
  whole nested lexer). The recursion terminates because every field is shorter
  than the text it was cut from.
- **The imperative lexer** (module `Lexing`). The `Lexer` class has the
  source's fields (`input`, `pos`, `line`, `path`, `tasks`). Its methods
  `Compile`, `ParseTask`, `ParseInside`, the name loop, the body loop and the
  field loop are written as the source writes them, except that the name loop
  stops at the end of the input, where the source's loop does not stop and
  runs until the engine's string-length limit throws (see Findings). Each is
  proved to leave the lexer in exactly the state the specification functions
  give. The task under construction is the `Tasks.Task` class, with the
  source's mutators; they return nothing, where the source's return the task
  itself for chaining. A finished task is stored as a `Tasks.Node` value.

On top of that:

- `Fields` gives an independent definition of the field list (`Pieces`,
  `FieldsOf`, `Cuts`) and proves the body loop computes it.
- `Order` proves the ordering and line facts of `compile`.
- `Rescan` proves that scanning what `toString` prints gives the task back,
  for a task whose name is made of name characters, which is not both negated
  and handled, and whose fields are printable (trimmed and balanced) and not
  the list `[""]`. A scanned task can have the fields `[""]` (`#(a  )`), and
  such a task does not read back.
- `Scenarios` and `Reference` work through concrete inputs. These include the
  test-suite fixture `#(sum #(get currentValue) | 1)`.
- `Divergence` exhibits the one defect found in the name loop.

Modelling decisions:

- **Ids.** `getFunctionId` uses `Math.random`. Ids here are drawn from a counter
  (`nextId`) threaded through every lexer, so `parentId` equalities can be
  stated.
- **Separator.** The process-wide `Lexer.separator` is modelled by
  `SeparatorSetting` for `setSeparator`. Each lexer takes the separator as an
  immutable value, which must be one of `>`, `:`, space and `=`. `Tokenize`
  covers the entry point: a bad separator fails before any scanning.
  `ToString` takes the separator that `toString` reads from the global.
- **Past the end.** `#c()` returns the string `"undefined"` past the end of the
  input. `Text.At` is false there, because `"undefined"` equals none of the
  single characters the scanner compares against.
- **`from`.** The doc comment at `src/core/Lexer.js:60` calls `from` the field
  index. The code (`argi++` at line 555) numbers the overloads 0, 1, 2, …
  across all fields. The model follows the code.
- **`path`.** Each overload's `path` is a snapshot of the lexer's path when the
  overload is stamped. That is the parent lexer's path, which ends with this
  task's name and includes the names of earlier sibling tasks that had bodies.
- **Whitespace.** `Trim` removes the ECMAScript WhiteSpace and LineTerminator
  characters.

## Model

| member | source | states |
|---|---|---|
| Tasks.Marker | src/core/Lexer.js:104 | the printed marker is `!` exactly when negated, `*` exactly when handled and not negated, empty exactly when neither |
| Tasks.ToString | src/core/Lexer.js:103-108 | `#`, the marker, `(`, the name, then, when the field list is not null (even when it is empty), the separator and the fields joined by the source's glue, then `)`; scanning it back is `Rescan.RescanToString` |
| Tasks.Node.IsHandled | src/core/Lexer.js:234-236 | the `isHandled` getter is the `handled` flag |
| Tasks.Node.IsNegated | src/core/Lexer.js:242-244 | the `isNegated` getter is the `negated` flag |
| Tasks.OverloadsFor | src/core/Lexer.js:151-153 | `getOverloadsFor` returns exactly the direct overloads the callback accepts, and never more than there are |
| Tasks.FilterSnoc | src/core/Lexer.js:152 | `filter` keeps order and repeats: nothing gives nothing, and one more overload at the end adds it at the end exactly when the callback accepts it |
| Tasks.Task.constructor | src/core/Lexer.js:15-97 | a new task has an empty name, every flag false, `fields`/`inside`/`from`/`parentId` null, and no lines, bounds, path or overloads |
| Tasks.Task.SetName | src/core/Lexer.js:115-121 | sets the name and changes nothing else |
| Tasks.Task.SetFields | src/core/Lexer.js:128-131 | creates the field list when it is null, appends the given fields, and changes nothing else |
| Tasks.Task.SetInside | src/core/Lexer.js:138-144 | sets `inside` and changes nothing else |
| Tasks.Task.SetStartPoint | src/core/Lexer.js:160-166 | sets `bounds[0]` and changes nothing else |
| Tasks.Task.SetEndPoint | src/core/Lexer.js:173-179 | sets `bounds[1]` and changes nothing else |
| Tasks.Task.AddLine | src/core/Lexer.js:186-192 | appends one line number and changes nothing else |
| Tasks.Task.AddOverloads | src/core/Lexer.js:557 | appends to `overloads` and changes nothing else |
| Tasks.Task.SetOpened | src/core/Lexer.js:198-201 | sets `opened` and changes nothing else |
| Tasks.Task.SetClosed | src/core/Lexer.js:207-210 | sets `closed` and changes nothing else |
| Tasks.Task.MarkNegated | src/core/Lexer.js:216-219 | sets `negated` and changes nothing else |
| Tasks.Task.MarkHandled | src/core/Lexer.js:225-228 | sets `handled` and changes nothing else |
| Text.TrimShape | src/core/Lexer.js:521 | `trim` gives a slice of the text with only whitespace around it, and the slice neither begins nor ends with whitespace |
| Text.TrimIdempotent | src/core/Lexer.js:537 | trimming a field again changes nothing |
| Text.Trim | src/core/Lexer.js:521 | `trim`: the text without its leading and trailing whitespace, never longer than the text; its shape is `Text.TrimShape` |
| Text.Join | src/core/Lexer.js:540 | `join`: the parts with the glue between each two, nothing for no parts; its step is `Text.JoinSnoc` and its inverse on fields is `Rescan.FieldsOfJoin` |
| Text.JoinSnoc | src/core/Lexer.js:540 | joining one more field appends the glue and that field |
| Lexing.SeparatorSetting.constructor | src/core/Lexer.js:308 | the separator is a space until it is set |
| Lexing.SeparatorSetting.SetSeparator | src/core/Lexer.js:320-325 | succeeds exactly for `>`, `:`, space and `=`; on failure it gives the source's message and leaves the separator unchanged |
| Lexing.SeparatorError | src/core/Lexer.js:322 | the message `setSeparator` throws, naming the rejected separator and the allowed list `>, :,  , =` |
| Lexing.Lexer.constructor | src/core/Lexer.js:333-336 | a lexer starts at position 0 on line 1 with no tasks, the given path, and the input wrapped as `#(MAIN_FUNCTION<sep>input)` when `addMainTask` is set |
| Lexing.Lexer.SetInput | src/core/Lexer.js:344-355 | replaces and possibly wraps the input, rewinds the cursor, and appends to the path; the line and the tasks found so far stay |
| Lexing.Lexer.Compile | src/core/Lexer.js:361-376 | the loop leaves the lexer in the state `ScanLoop` gives, and returns its tasks |
| Lexing.Lexer.ParseTask | src/core/Lexer.js:440-491 | appends the task `ScanTask` describes and moves the cursor just past it |
| Lexing.Lexer.StartTask | src/core/Lexer.js:442-463 | a fresh task with the next id, started at the cursor on the current line, marked by a following `!` or `*`, and opened |
| Lexing.Lexer.ReadMarker | src/core/Lexer.js:450-459 | `!` marks the task negated and `*` marks it handled, each moving the cursor past the marker; otherwise nothing changes |
| Lexing.Lexer.ReadName | src/core/Lexer.js:466-470 | reads the run of name characters at the cursor, stopping where `NameEnd` says |
| Lexing.Lexer.OpenTask | src/core/Lexer.js:440-473 | the task is the `Head` of the task at the cursor, and the cursor stops after the name |
| Lexing.Lexer.FinishTask | src/core/Lexer.js:475-484 | after the name, the body and the closure are what `Finish` gives |
| Lexing.Lexer.CloseTask | src/core/Lexer.js:480-484 | with the cursor on `)` the task is closed and its end recorded there; otherwise it is unchanged |
| Lexing.Lexer.ParseInside | src/core/Lexer.js:498-560 | records the body's fields and their join, pushes the task's name on the path, and appends the stamped tasks of every field |
| Lexing.Lexer.CutBody | src/core/Lexer.js:505-529 | the body loop ends with the variables `SplitLoop` gives |
| Lexing.Lexer.SplitBody | src/core/Lexer.js:509-537 | the fields are `ScanBody`'s fields and the cursor stops where its loop stopped |
| Lexing.Lexer.CompileFields | src/core/Lexer.js:547-559 | appends to `overloads` exactly what `ScanFields` gives, counting `from` across all fields |
| Lexing.CompileField | src/core/Lexer.js:549-550 | a fresh non-wrapping lexer over one field finds what `Scan` finds |
| Lexing.StampOverloads | src/core/Lexer.js:553-558 | each overload gets the parent id, the next overload number and the path |
| Lexing.Tokenize | src/core/Lexer.js:333-376 | a separator outside the allowed list fails with the source's message before any scanning; otherwise the result is `Scan` of the possibly wrapped text |
| Scanner.NameEnd | src/core/Lexer.js:466-470 | the name run ends at the end of the input or at a character outside `[A-Za-z0-9_-]` |
| Scanner.NameEndRun | src/core/Lexer.js:467 | every character before `NameEnd` is a name character, so the name is the longest run |
| Scanner.NameEndAt | src/core/Lexer.js:467 | a run of name characters ending at a non-name character ends where `NameEnd` says |
| Scanner.Wrap | src/core/Lexer.js:350 | with `addMainTask` the input becomes `#(MAIN_FUNCTION<separator>input)`, otherwise it is kept; its first task is `Scenarios.MainTaskFirst` |
| Scanner.StartsAt | src/core/Lexer.js:424-426 | `#starts`: `#` followed by `(`, `!(` or `*(`, false past the end of the input; the loop's use of it is `Order.ScanLoopFound` |
| Scanner.NameStart | src/core/Lexer.js:440-463 | the name begins after `#`, the marker if one follows, and `(` |
| Scanner.SplitLoop | src/core/Lexer.js:509-529 | the body loop stops either on the `)` that takes the depth to 0, with the cursor on it, or at the end of the input with the depth still at least 1 |
| Scanner.ScanBody | src/core/Lexer.js:498-537 | the body stops at the end of the input or on a `)` |
| Scanner.ScanBodyShort | src/core/Lexer.js:509-537 | no field is longer than the body text read, which is what makes the recursion over the fields terminate |
| Scanner.BodyFields | src/core/Lexer.js:531-537 | after the loop: the dead `)` fallback, then the last piece, trimmed, only if its untrimmed text is non-empty; its meaning is `Fields.BodyIsPieces` |
| Scanner.ScanLoop | src/core/Lexer.js:361-376 | the `compile` loop: count a line feed, then parse the task that starts here or move one on; its properties are `Order.ScanLoopFound`, `Order.ScanLoopIncreasing` and `Order.ScanLoopFirstLine` |
| Scanner.Scan | src/core/Lexer.js:333-376 | a fresh lexer's tasks from position 0 on line 1, with a non-decreasing id counter; what `Lexing.Lexer.Compile` returns |
| Scanner.ScanTask | src/core/Lexer.js:440-491 | `#parseTask` at a task start: the cursor moves forward and at most one past the end, and the task and its nested tasks take at least one id; its shape is `Scanner.ScanTaskShape` |
| Scanner.Finish | src/core/Lexer.js:475-491 | after the name: the body when the separator follows, then the closure, the cursor moving forward; its closure is `Scanner.FinishClosure` |
| Scanner.ScanFields | src/core/Lexer.js:544-558 | a fresh lexer over each field in turn, its tasks stamped; its links are `Scanner.ScanFieldsLinks` |
| Scanner.Stamp | src/core/Lexer.js:553-558 | each overload gets the parent id, `from` counting on from the overloads so far, and the path |
| Scanner.Head | src/core/Lexer.js:442-473 | the task starts at the `#` on the current line, is opened, is negated exactly after `!` and handled exactly after `*` (never both), and is named by the longest, possibly empty, run of name characters |
| Scanner.HeadNameChars | src/core/Lexer.js:466-473 | a task's name is made of name characters only |
| Scanner.ScanTaskShape | src/core/Lexer.js:440-491 | a task has fields exactly when the separator follows its name; then `inside` is the fields joined by the source's glue and the lexer's path gains its name; otherwise `fields`, `inside` and `overloads` stay empty and the cursor stops just past the character after the name |
| Scanner.ScanTaskClosure | src/core/Lexer.js:480-484 | a task is closed, with `bounds[1]` set, exactly when the cursor stops on `)`, and then `bounds[0] + 2 <= bounds[1]` |
| Scanner.FinishClosure | src/core/Lexer.js:476-484 | after the name, the task is closed exactly when the cursor stops on `)`, and its end is that position |
| Scanner.ScanTaskOverloads | src/core/Lexer.js:544-558 | every overload of a task points back to it, has `from` equal to its place (0, 1, 2, …) and carries the lexer's new path |
| Scanner.ScanFieldsLinks | src/core/Lexer.js:547-558 | across all fields, the nested tasks are numbered by their place and all point to the same parent |
| Fields.BodyIsPieces | src/core/Lexer.js:509-537 | the fields are the pieces of the body text cut at each pipe met at depth 1, all trimmed, with the last kept only when its untrimmed text is non-empty |
| Fields.SplitLoopFollowsPieces | src/core/Lexer.js:509-529 | at every step the body loop's `args`, `currentValue` and `depth` match the pieces of the text read so far |
| Fields.FallbackNeverFires | src/core/Lexer.js:531-534 | the "append a last char" branch never fires: the loop never ends at depth 1 on `)`, and it ends at depth 0 exactly on `)` |
| Fields.PiecesJoin | src/core/Lexer.js:519-525 | joining the pieces with the pipe gives back the body text, so cutting loses only the cut characters |
| Fields.PiecesCount | src/core/Lexer.js:520 | there is exactly one piece more than there are pipes met at depth 1, so a pipe inside nested parentheses never cuts |
| Fields.FieldsTrimmed | src/core/Lexer.js:521-537 | every field is trimmed: it neither begins nor ends with whitespace, and trimming it again changes nothing |
| Order.TaskStep | src/core/Lexer.js:362-370 | at a task start the loop appends the parsed task on the unchanged line and resumes after it, without counting the line feeds the task spans |
| Order.ScanLoopKeeps | src/core/Lexer.js:384 | the loop only appends tasks |
| Order.ScanLoopFound | src/core/Lexer.js:361-375 | every task found starts at a `#(`, `#!(` or `#*(` at or after the cursor, records one line no lower than the loop's, and has no parent |
| Order.ScanLoopIncreasing | src/core/Lexer.js:361-375 | the tasks found come in strictly increasing order of `bounds[0]`, on non-decreasing lines |
| Order.ScanLoopFirstLine | src/core/Lexer.js:362-373 | the first task found starts at the first task start after the cursor, and its line is the loop's line plus the line feeds the loop visited before it |
| Order.ScanOrder | src/core/Lexer.js:361-376 | `compile` returns tasks found at task starts, in strictly increasing order of their start, none with a parent |
| Rescan.ToStringBalanced | src/core/Lexer.js:103-108 | a printed task with balanced fields is balanced text, so printed tasks nest as fields |
| Rescan.FieldsOfJoin | src/core/Lexer.js:107 | the body loop cuts balanced, trimmed fields joined by the glue back into exactly those fields, except that one empty field reads back as none |
| Rescan.RescanToString | src/core/Lexer.js:103-108 | for a task whose name is made of name characters, which is not both negated and handled, and whose fields are printable and not `[""]`, scanning its `toString` gives one closed task with the same name, flags and fields (null fields stay null), spanning the whole text |
| Scenarios.ScanOneField | src/core/Lexer.js:547-558 | the overloads of a one-field body are the field's tasks, stamped |
| Scenarios.EmptyBody | src/core/Lexer.js:537 | `#(a )` has the field list `[]`, not null |
| Scenarios.TrailingCut | src/core/Lexer.js:520-537 | the body `b` followed by a pipe has the fields `["b"]`: the empty last piece is dropped |
| Scenarios.TrailingCutSpace | src/core/Lexer.js:520-537 | the body `b`, a pipe and a space has the fields `["b", ""]`: a blank last piece is kept, trimmed |
| Scenarios.NestedBarKept | src/core/Lexer.js:511-520 | a pipe inside nested parentheses does not cut a field |
| Scenarios.Unclosed | src/core/Lexer.js:480-484 | `#(foo bar` gives one task, not closed and without an end; nothing fails |
| Scenarios.MainTaskFirst | src/core/Lexer.js:350 | with `addMainTask` the first task is `MAIN_FUNCTION` at offset 0, with fields |
| Reference.ReferenceFixture | __test__/Lexer.test.js:13-49 | the test input, wrapped, gives one task; its one overload is `sum`, with two fields; `sum`'s first overload is `get`, from its first field |
| Reference.NestedFixture | __test__/Lexer.test.js:13-49 | the fixture's shape holds for any names and plain words |
| Reference.ColonSeparator | src/core/Lexer.js:476-541 | with separator `:`, the print of `name` with fields `a` and `b` is the task `name` with the fields `a` and `b` |
| Reference.NegatedTask | src/core/Lexer.js:450-454 | `#!(x y)` is negated, not handled, with the one field `y` |
| Reference.UnclosedFoo | src/core/Lexer.js:480-484 | `#(foo bar` is one task `foo`, not closed, without an end, with the field `bar` |
| Divergence.NameTestPastEnd | src/core/Lexer.js:400-402 | past the end of the input the name loop's test always passes |
| Divergence.UnterminatedName | src/core/Lexer.js:467 | on `#(a` without the main task the name loop's test passes at every position from the name on, while `NameEnd` stops at 3 |

## Left out

- `getFunctionId` (random ids) is replaced by ids drawn from a counter. No lemma states that the ids of one scan are pairwise distinct.
- `areParensBalanced` is never called and is not exported. It is not part of this model.
- The root `Lexer.js` is a superseded prototype that is not exported. It is not part of this model.
- The runtime `typeof` checks of the mutators, `setInput` and the `Task` constructor's `Object.assign` from partial data are not modelled. Dafny's types rule out the bad arguments, and the scanner never passes data to the constructor.
- The process-wide `Lexer.separator` is not shared: each lexer and each `ToString` call takes the separator as a value. Interleaving lexers with different separators, and a `toString` that reads a later separator, are not modelled.
- `path` aliasing is not modelled. In the source every overload stamped by one lexer shares that lexer's mutable `#path` array, which keeps growing as later sibling tasks push their names. The model stores a snapshot taken when the overload is stamped.
- Lexing.Lexer.constructor: requires an allowed separator instead of throwing. The throwing path is modelled by `Lexing.Tokenize` and `Lexing.SeparatorSetting.SetSeparator`.
- Scanner.NameEnd: stops at the end of the input, where the source's name loop does not stop and runs until the engine's string-length limit throws (see Findings).
- Positions count Unicode code points, not UTF-16 code units: the source indexes the input string and sets `bounds` from the cursor in UTF-16 code units, so after each character outside the Basic Multilingual Plane every `bounds[0]`, `bounds[1]` and cursor of the model is one smaller than the source's.
- Tasks.Task.constructor: the name starts as the empty string, where the source leaves it `undefined` until `setName`; `#parseTask` always names a task before storing it, so the difference is never seen.
- The default arguments of the constructor and `setInput` (`addMainTask = true`, `separator = Lexer.separator`, `path = []`) are not modelled: callers pass every argument explicitly.
- Object identity of tasks is not modelled: finished tasks are values, and overloads are stamped by value update rather than by mutating shared objects.

## Findings

| source | as written | input that shows it | evidently intended | confidence | as-written member | corrected member |
|---|---|---|---|---|---|---|
| src/core/Lexer.js:467 | the name loop tests `#c()`, which is `"undefined"` past the end of the input; that string matches `[a-zA-Z_\-0-9]`, so the loop does not stop at the end of the input and, appending `"undefined"` to the name on every pass, runs until the engine's string-length limit throws | `#(a` (or `#(`) compiled with `addMainTask` false | stop the name at the end of the input, giving the task `a`, open and not closed | high, not executed | Divergence.UnterminatedName | Scanner.NameEnd |
