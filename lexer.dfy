/**
 * The lexer as the source writes it: an object that walks its input with a
 * cursor and a line counter, pushes the tasks it finds, and runs a fresh lexer
 * over every field of a task body. Each method is proved to leave the lexer in
 * the state the `Scanner` functions describe.
 */
module Lexing {
  import opened Options
  import opened Text
  import opened Tasks
  import opened Scanner

  /** The message `setSeparator` throws for a separator outside the allowed list. */
  function SeparatorError(separator: string): string {
    "The separator \"" + separator + "\" is not allowed; you must use one of \">, :,  , =\"."
  }

  /**
   * The process-wide separator setting (`Lexer.separator`), initially a space.
   * The lexers themselves take the separator as an immutable value.
   */
  class SeparatorSetting {
    var separator: string

    constructor ()
      ensures separator == " "
    {
      separator := " ";
    }

    /**
     * `setSeparator`: accepts exactly the one-character strings `>`, `:`, space
     * and `=`; on any other value it fails with the source's message and leaves
     * the setting as it was.
     */
    method SetSeparator(requested: string) returns (r: Result<(), string>)
      modifies this
      ensures r.Success? <==> |requested| == 1 && requested[0] in SEPARATORS
      ensures r.Failure? ==> r.error == SeparatorError(requested) && separator == old(separator)
      ensures r.Success? ==> separator == requested
    {
      if |requested| == 1 && requested[0] in SEPARATORS {
        separator := requested;
        r := Success(());
      } else {
        r := Failure(SeparatorError(requested));
      }
    }
  }

  class Lexer {
    var addMainTask: bool
    var input: string
    var line: int
    var path: seq<string>
    var pos: nat
    var tasks: seq<Node>
    const separator: char
    /** The next task id; replaces the random ids of the source. */
    var nextId: nat

    function State(): LexState
      reads this
    {
      LexState(pos, line, path, tasks, nextId)
    }

    /**
     * A lexer over `input` (wrapped in the main task when `addMainTask`), at
     * position 0 on line 1, with no tasks yet and the given path.
     */
    constructor (input: string, addMainTask: bool, separator: char, path: seq<string>, firstId: nat)
      requires separator in SEPARATORS
      ensures this.separator == separator && this.addMainTask == addMainTask
      ensures this.input == Wrap(input, addMainTask, separator)
      ensures State() == LexState(0, 1, path, [], firstId)
    {
      this.separator := separator;
      this.addMainTask := addMainTask;
      this.input := "";
      line := 1;
      this.path := [];
      pos := 0;
      tasks := [];
      nextId := firstId;
      new;
      SetInput(input, addMainTask, path);
    }

    /**
     * `setInput`: replaces the input (wrapping it when asked), rewinds the
     * cursor and appends `more` to the path; the line counter and the tasks
     * found so far stay.
     */
    method SetInput(input: string, addMainTask: bool, more: seq<string>)
      modifies this
      ensures this.addMainTask == addMainTask && this.input == Wrap(input, addMainTask, separator)
      ensures State() == old(State()).(pos := 0, path := old(path) + more)
    {
      this.addMainTask := addMainTask;
      this.input := Wrap(input, addMainTask, separator);
      pos := 0;
      path := path + more;
    }

    /** `compile`: runs the scanning loop to the end of the input and returns all tasks found. */
    method Compile() returns (r: seq<Node>)
      requires separator in SEPARATORS
      modifies this
      decreases |input|, 4
      ensures input == old(input) && addMainTask == old(addMainTask)
      ensures State() == ScanLoop(input, separator, old(State()))
      ensures r == tasks
    {
      while pos < |input|
        invariant input == old(input) && addMainTask == old(addMainTask)
        invariant ScanLoop(input, separator, State()) == ScanLoop(input, separator, old(State()))
        decreases |input| + 1 - pos
      {
        if input[pos] == '\n' {
          line := line + 1;
        }
        if StartsAt(input, pos) {
          ParseTask();
          continue;
        }
        pos := pos + 1;
      }
      r := tasks;
    }

    /** `#parseTask` at a task start: appends the task and moves the cursor past it. */
    method ParseTask()
      requires separator in SEPARATORS
      requires StartsAt(input, pos)
      modifies this
      decreases |input|, 3
      ensures input == old(input) && addMainTask == old(addMainTask) && line == old(line)
      ensures var t := ScanTask(input, separator, old(pos), old(line), old(path), old(nextId));
              State() == LexState(t.pos, line, t.path, old(tasks) + [t.node], t.nextId)
    {
      var task := OpenTask();
      FinishTask(task);
      tasks := tasks + [task.Value()];
      pos := pos + 1;
    }

    /**
     * The rest of `#parseTask`, with the cursor after the name: the body when the
     * separator follows, then the closure if the cursor is on `)`. The cursor
     * stays on the last character read.
     */
    method FinishTask(task: Task)
      requires separator in SEPARATORS
      requires pos <= |input| && task.fields.None? && task.overloads == [] && !task.isClosed && task.end.None?
      modifies this, task
      decreases |input|, 2
      ensures input == old(input) && addMainTask == old(addMainTask) && line == old(line) && tasks == old(tasks)
      ensures var f := Finish(input, separator, old(task.Value()), old(pos), old(path), old(nextId));
              task.Value() == f.node && pos + 1 == f.pos && path == f.path && nextId == f.nextId
    {
      ghost var text := input;
      ghost var head := task.Value();
      if At(input, pos, separator) {
        ghost var body := ScanBody(text, pos + 1);
        ghost var kids := ScanFields(body.fields, separator, path + [head.name], head.id, nextId);
        assert [] + body.fields == body.fields && [] + kids.nodes == kids.nodes;
        ParseInside(task);
        assert task.Value() == head.(fields := Some(body.fields), inside := Some(Join(body.fields, " | ")),
                                     overloads := kids.nodes);
      }
      CloseTask(task);
    }

    /** The closure of `#parseTask`: with the cursor on `)` the task is closed and its end recorded there. */
    method CloseTask(task: Task)
      requires !task.isClosed && task.end.None?
      modifies task
      ensures task.Value() == old(task.Value()).(isClosed := At(input, pos, ')'),
                                                 end := if At(input, pos, ')') then Some(pos) else None)
    {
      if At(input, pos, ')') {
        task.SetClosed();
        task.SetEndPoint(pos);
      }
    }

    /**
     * The first part of `#parseTask`: a new task with the next id, started here
     * on the current line, marked by `!` or `*` when one follows `#`, opened, and
     * named by the name characters after `(`; the cursor stops after the name.
     */
    method OpenTask() returns (task: Task)
      requires StartsAt(input, pos)
      modifies this
      ensures fresh(task)
      ensures input == old(input) && addMainTask == old(addMainTask)
      ensures task.Value() == Head(input, old(pos), old(line), old(nextId))
      ensures State() == old(State()).(pos := NameEnd(input, NameStart(input, old(pos))), nextId := old(nextId) + 1)
    {
      task := StartTask();
      var name := ReadName();
      task.SetName(name);
    }

    /** `#parseTask` up to the name: a new task with the next id, started here, marked and opened. */
    method StartTask() returns (task: Task)
      requires StartsAt(input, pos)
      modifies this
      ensures fresh(task)
      ensures input == old(input) && addMainTask == old(addMainTask)
      ensures task.Value() == Blank(old(nextId)).(start := Some(old(pos)), lines := [line],
                                                  negated := At(input, old(pos) + 1, '!'),
                                                  handled := At(input, old(pos) + 1, '*'), isOpened := true)
      ensures State() == old(State()).(pos := NameStart(input, old(pos)), nextId := old(nextId) + 1)
    {
      ghost var p0 := pos;
      task := new Task(nextId);
      nextId := nextId + 1;
      task.SetStartPoint(pos);
      task.AddLine(line);
      assert task.Value() == Blank(old(nextId)).(start := Some(p0), lines := [line]);
      pos := pos + 1;
      ReadMarker(task);
      assert pos + 1 == NameStart(input, p0);
      pos := pos + 1;
      task.SetOpened();
    }

    /** The marker test of `#parseTask`: `!` marks the task negated, `*` handled, and the cursor moves past either. */
    method ReadMarker(task: Task)
      modifies this, task
      ensures input == old(input) && addMainTask == old(addMainTask)
      ensures State() == old(State()).(pos := if At(input, old(pos), '!') || At(input, old(pos), '*') then old(pos) + 1 else old(pos))
      ensures task.Value() == old(task.Value()).(negated := old(task.negated) || At(input, old(pos), '!'),
                                                 handled := old(task.handled) || At(input, old(pos), '*'))
    {
      if At(input, pos, '!') {
        task.MarkNegated();
        pos := pos + 1;
      } else if At(input, pos, '*') {
        task.MarkHandled();
        pos := pos + 1;
      }
    }

    /**
     * `#parseInside` with the cursor on the separator: splits the body into
     * fields, records them on `task`, pushes the task's name on the path, and
     * appends the stamped tasks of a fresh lexer over each field.
     */
    method ParseInside(task: Task)
      requires separator in SEPARATORS
      requires At(input, pos, separator)
      modifies this, task
      decreases |input|, 1
      ensures input == old(input) && addMainTask == old(addMainTask) && line == old(line)
      ensures tasks == old(tasks)
      ensures var body := ScanBody(input, old(pos) + 1);
              var kids := ScanFields(body.fields, separator, old(path) + [old(task.name)],
                                     task.id, old(nextId));
              && pos == body.end && path == old(path) + [old(task.name)] && nextId == kids.nextId
              && task.Value() == old(task.Value()).(fields := Some(old(task.fields).GetOr([]) + body.fields),
                                                    inside := Some(Join(body.fields, " | ")),
                                                    overloads := old(task.overloads) + kids.nodes)
    {
      pos := pos + 1;
      ScanBodyShort(input, pos);
      var args := SplitBody();
      task.SetInside(Join(args, " | "));
      task.SetFields(args);
      path := path + [task.name];
      CompileFields(task, args);
    }

    /** The name loop of `#parseTask`: reads the run of name characters at the cursor. */
    method ReadName() returns (name: string)
      requires pos <= |input|
      modifies this
      ensures input == old(input) && addMainTask == old(addMainTask)
      ensures State() == old(State()).(pos := NameEnd(input, old(pos)))
      ensures name == input[old(pos)..pos]
    {
      var i := pos;
      name := "";
      while i < |input| && IsNameChar(input[i])
        invariant pos <= i <= |input|
        invariant NameEnd(input, i) == NameEnd(input, pos)
        invariant name == input[pos..i]
        decreases |input| - i
      {
        name := name + [input[i]];
        i := i + 1;
      }
      pos := i;
    }

    /**
     * The body of `#parseInside` from the cursor just past the separator: the
     * fields the body loop cuts, and the cursor left where the loop stopped.
     */
    method SplitBody() returns (args: seq<string>)
      requires pos <= |input|
      modifies this
      ensures input == old(input) && addMainTask == old(addMainTask)
      ensures State() == old(State()).(pos := ScanBody(input, old(pos)).end)
      ensures args == ScanBody(input, old(pos)).fields
    {
      var cur, depth, end;
      args, cur, depth, end := CutBody();
      if depth == 1 && At(input, end, ')') {
        cur := cur + [')'];
      }
      if cur != "" {
        args := args + [Trim(cur)];
      }
      pos := end;
    }

    /**
     * The body loop of `#parseInside`: from the cursor on, cuts the text into
     * trimmed pieces at each `|` of depth 1 and stops on the `)` that brings the
     * depth to 0 or at the end of the input. It leaves the lexer as it is.
     */
    method CutBody() returns (args: seq<string>, cur: string, depth: int, end: nat)
      requires pos <= |input|
      ensures Split(args, cur, depth, end) == SplitLoop(input, pos, 1, [], "")
    {
      var text := input;
      var i := pos;
      args := [];
      cur := "";
      depth := 1;
      ghost var target := SplitLoop(text, pos, 1, [], "");
      while i < |text|
        invariant pos <= i <= |text| && depth >= 1
        invariant SplitLoop(text, i, depth, args, cur) == target
        decreases |text| - i
      {
        ghost var rest := SplitLoop(text, i, depth, args, cur);
        var c := text[i];
        ghost var before := depth;
        if c == '(' {
          depth := depth + 1;
        } else if c == ')' {
          depth := depth - 1;
        }
        assert depth == Step(before, c);
        if depth == 0 && c == ')' {
          assert rest == Split(args, cur, depth, i);
          break;
        }
        if c == '|' && depth == 1 {
          assert SplitLoop(text, i + 1, depth, args + [Trim(cur)], "") == rest;
          args := args + [Trim(cur)];
          cur := "";
        } else {
          assert SplitLoop(text, i + 1, depth, args, cur + [c]) == rest;
          cur := cur + [c];
        }
        i := i + 1;
      }
      end := i;
    }

    /**
     * The recursion of `#parseInside`: a fresh lexer, without the main task and
     * with this lexer's path, over each field in turn; each task it returns is
     * stamped with `task`'s id, the running overload number and the path, and
     * appended to `task`'s overloads.
     */
    method CompileFields(task: Task, args: seq<string>)
      requires separator in SEPARATORS
      requires Longest(args) < |input|
      modifies this, task
      decreases |input|, 0
      ensures input == old(input) && addMainTask == old(addMainTask) && line == old(line)
      ensures tasks == old(tasks) && pos == old(pos) && path == old(path)
      ensures var kids := ScanFields(args, separator, path, task.id, old(nextId));
              nextId == kids.nextId && task.Value() == old(task.Value()).(overloads := old(task.overloads) + kids.nodes)
    {
      var parent := task.id;
      var trail := path;
      var next := nextId;
      ghost var done: seq<Node> := [];
      var argi := 0;
      var i := 0;
      while i < |args|
        modifies task
        invariant 0 <= i <= |args|
        invariant task.Value() == old(task.Value()).(overloads := old(task.overloads) + done)
        invariant argi == |done|
        invariant Forest(done, next) == ScanFields(args[..i], separator, trail, parent, old(nextId))
      {
        ScanFieldsNext(args, i, separator, trail, parent, old(nextId));
        LongestAtLeast(args, i);
        var overloads;
        overloads, next := CompileField(args[i], separator, trail, next);
        var stamped := StampOverloads(overloads, parent, argi, trail);
        task.AddOverloads(stamped);
        AppendAssociative(old(task.overloads), done, stamped);
        argi := argi + |overloads|;
        done := done + stamped;
        i := i + 1;
      }
      assert args[..i] == args;
      nextId := next;
    }
  }

  /**
   * A nested lexer over one field, without the main task, with the given path
   * and first id: it finds what the scanner functions find in the field.
   */
  method CompileField(field: string, separator: char, path: seq<string>, firstId: nat)
    returns (nodes: seq<Node>, nextId: nat)
    requires separator in SEPARATORS
    decreases |field|, 5
    ensures Forest(nodes, nextId) == Scan(field, separator, path, firstId)
  {
    var lexer := new Lexer(field, false, separator, path, firstId);
    nodes := lexer.Compile();
    nextId := lexer.nextId;
  }

  /** The fields up to `i` and one more: the tasks of field `i`, stamped after those before it. */
  lemma ScanFieldsNext(args: seq<string>, i: nat, separator: char, path: seq<string>, parent: nat, id: nat)
    requires i < |args|
    ensures var init := ScanFields(args[..i], separator, path, parent, id);
            var last := Scan(args[i], separator, path, init.nextId);
            ScanFields(args[..i + 1], separator, path, parent, id)
            == Forest(init.nodes + Stamp(last.nodes, parent, |init.nodes|, path), last.nextId)
  {
    assert args[..i + 1][..i] == args[..i];
  }

  lemma AppendAssociative<T>(a: seq<T>, b: seq<T>, c: seq<T>)
    ensures (a + b) + c == a + (b + c)
  {
  }

  /**
   * The stamping loop of `#parseInside`: each task a nested lexer returned gets
   * the parent's id, the next overload number counted from `from`, and the path.
   */
  method StampOverloads(overloads: seq<Node>, parent: nat, from: nat, path: seq<string>) returns (r: seq<Node>)
    ensures r == Stamp(overloads, parent, from, path)
  {
    r := [];
    var argi := from;
    var j := 0;
    while j < |overloads|
      invariant 0 <= j <= |overloads| && argi == from + j
      invariant r == Stamp(overloads[..j], parent, from, path)
    {
      r := r + [overloads[j].(parentId := Some(parent), from := Some(argi), path := path)];
      argi := argi + 1;
      j := j + 1;
    }
    assert overloads[..j] == overloads;
  }

  /**
   * The entry point: `setSeparator` with the given separator, then a lexer
   * over `text` with that separator, compiled. A separator outside the allowed
   * list fails in `setSeparator`, before any scanning; otherwise the result is
   * what the scanner functions give for the (possibly wrapped) text, with an
   * empty path.
   */
  method Tokenize(text: string, addMainTask: bool, separator: string) returns (r: Result<seq<Node>, string>)
    ensures r.Failure? <==> !(|separator| == 1 && separator[0] in SEPARATORS)
    ensures r.Failure? ==> r.error == SeparatorError(separator)
    ensures r.Success? ==> r.value == Scan(Wrap(text, addMainTask, separator[0]), separator[0], [], 0).nodes
  {
    var setting := new SeparatorSetting();
    var outcome := setting.SetSeparator(separator);
    if outcome.Failure? {
      return Failure(outcome.error);
    }
    var lexer := new Lexer(text, addMainTask, setting.separator[0], [], 0);
    var tasks := lexer.Compile();
    return Success(tasks);
  }
}
