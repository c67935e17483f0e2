/**
 * What the `compile` loop promises about the tasks it collects: a task starts
 * only where `#(`, `#!(` or `#*(` stands, the tasks come in strictly
 * increasing order of their start, each carries the single line number the
 * loop had counted when it reached its `#`, and none of them has a parent.
 */
module Order {
  import opened Options
  import opened Text
  import opened Tasks
  import opened Scanner

  /** The number of line feeds in `s`. */
  function Newlines(s: string): nat {
    if s == [] then 0 else (if s[0] == '\n' then 1 else 0) + Newlines(s[1..])
  }

  /**
   * A top-level task found by the loop from `pos` on, on line `line` or later:
   * it starts at a task start at or after `pos`, records one line, and has no
   * parent and no overload number.
   */
  predicate FoundAfter(input: string, n: Node, pos: nat, line: int) {
    && n.start.Some? && pos <= n.start.value < |input| && StartsAt(input, n.start.value)
    && |n.lines| == 1 && line <= n.lines[0]
    && n.parentId.None? && n.from.None?
  }

  /** Tasks in strictly increasing order of their start, on non-decreasing lines. */
  predicate Increasing(tasks: seq<Node>) {
    forall i, j :: 0 <= i < j < |tasks| ==>
      && tasks[i].start.Some? && tasks[j].start.Some? && tasks[i].start.value < tasks[j].start.value
      && |tasks[i].lines| == 1 && |tasks[j].lines| == 1 && tasks[i].lines[0] <= tasks[j].lines[0]
  }

  /** One step of the loop on a task start: the task `#parseTask` returns, and the state after it. */
  lemma TaskStep(input: string, separator: char, s: LexState)
    requires s.pos < |input| && StartsAt(input, s.pos)
    ensures var line := if input[s.pos] == '\n' then s.line + 1 else s.line;
            var t := ScanTask(input, separator, s.pos, line, s.path, s.nextId);
            && line == s.line
            && ScanLoop(input, separator, s)
               == ScanLoop(input, separator, LexState(t.pos, line, t.path, s.tasks + [t.node], t.nextId))
            && FoundAfter(input, t.node, s.pos, s.line) && t.node.start == Some(s.pos) && t.node.lines == [s.line]
            && s.pos < t.pos
  {
    var t := ScanTask(input, separator, s.pos, s.line, s.path, s.nextId);
    ScanTaskShape(input, separator, s.pos, s.line, s.path, s.nextId);
    assert t.node.start == Head(input, s.pos, s.line, s.nextId).start;
    assert t.node.lines == Head(input, s.pos, s.line, s.nextId).lines;
  }

  /** The loop only appends: the tasks found before stay where they are. */
  lemma {:induction false} ScanLoopKeeps(input: string, separator: char, s: LexState)
    ensures var r := ScanLoop(input, separator, s);
            |s.tasks| <= |r.tasks| && r.tasks[..|s.tasks|] == s.tasks
    decreases |input| - s.pos
  {
    if s.pos < |input| {
      var line := if input[s.pos] == '\n' then s.line + 1 else s.line;
      if StartsAt(input, s.pos) {
        var t := ScanTask(input, separator, s.pos, line, s.path, s.nextId);
        var next := LexState(t.pos, line, t.path, s.tasks + [t.node], t.nextId);
        ScanLoopKeeps(input, separator, next);
        assert (s.tasks + [t.node])[..|s.tasks|] == s.tasks;
      } else {
        ScanLoopKeeps(input, separator, s.(pos := s.pos + 1, line := line));
      }
    }
  }

  /** Every task the loop appends from `s` on was found at a task start at or after the cursor, on a line no lower. */
  lemma {:induction false} ScanLoopFound(input: string, separator: char, s: LexState)
    ensures var r := ScanLoop(input, separator, s);
            forall i :: |s.tasks| <= i < |r.tasks| ==> FoundAfter(input, r.tasks[i], s.pos, s.line)
    decreases |input| - s.pos
  {
    if s.pos < |input| {
      var line := if input[s.pos] == '\n' then s.line + 1 else s.line;
      if StartsAt(input, s.pos) {
        TaskStep(input, separator, s);
        var t := ScanTask(input, separator, s.pos, line, s.path, s.nextId);
        var next := LexState(t.pos, line, t.path, s.tasks + [t.node], t.nextId);
        ScanLoopFound(input, separator, next);
        ScanLoopKeeps(input, separator, next);
        var r := ScanLoop(input, separator, next);
        assert r.tasks[|s.tasks|] == r.tasks[..|s.tasks| + 1][|s.tasks|] == t.node;
      } else {
        var next := s.(pos := s.pos + 1, line := line);
        assert ScanLoop(input, separator, s) == ScanLoop(input, separator, next);
        ScanLoopFound(input, separator, next);
        var r := ScanLoop(input, separator, next);
        forall i | |s.tasks| <= i < |r.tasks|
          ensures FoundAfter(input, r.tasks[i], s.pos, s.line)
        {
          assert FoundAfter(input, r.tasks[i], next.pos, next.line);
        }
      }
    }
  }

  /** The tasks the loop appends from `s` on come in strictly increasing order of their start. */
  lemma {:induction false} ScanLoopIncreasing(input: string, separator: char, s: LexState)
    ensures var r := ScanLoop(input, separator, s);
            |s.tasks| <= |r.tasks| && Increasing(r.tasks[|s.tasks|..])
    decreases |input| - s.pos
  {
    ScanLoopKeeps(input, separator, s);
    if s.pos < |input| {
      var line := if input[s.pos] == '\n' then s.line + 1 else s.line;
      if StartsAt(input, s.pos) {
        TaskStep(input, separator, s);
        var t := ScanTask(input, separator, s.pos, line, s.path, s.nextId);
        var next := LexState(t.pos, line, t.path, s.tasks + [t.node], t.nextId);
        ScanLoopIncreasing(input, separator, next);
        ScanLoopKeeps(input, separator, next);
        ScanLoopFound(input, separator, next);
        var r := ScanLoop(input, separator, next);
        var found := r.tasks[|s.tasks|..];
        assert found[0] == r.tasks[..|s.tasks| + 1][|s.tasks|] == t.node;
        assert found[1..] == r.tasks[|s.tasks| + 1..];
        forall j | 1 <= j < |found|
          ensures found[j] == r.tasks[|s.tasks| + j]
          ensures FoundAfter(input, found[j], t.pos, line)
        {
        }
      } else {
        ScanLoopIncreasing(input, separator, s.(pos := s.pos + 1, line := line));
      }
    } else {
      assert ScanLoop(input, separator, s).tasks[|s.tasks|..] == [];
    }
  }

  /**
   * The first task the loop appends from `s` on starts at the first task start
   * at or after the cursor, and its line is the loop's line plus the line
   * feeds between the cursor and its `#`.
   */
  lemma {:induction false} ScanLoopFirstLine(input: string, separator: char, s: LexState)
    ensures FirstFound(input, ScanLoop(input, separator, s).tasks, |s.tasks|, s.pos, s.line)
    decreases |input| - s.pos
  {
    if s.pos < |input| {
      var line := if input[s.pos] == '\n' then s.line + 1 else s.line;
      if StartsAt(input, s.pos) {
        FirstAtStart(input, separator, s);
      } else {
        var next := s.(pos := s.pos + 1, line := line);
        ScanLoopFirstLine(input, separator, next);
        FirstFoundStep(input, ScanLoop(input, separator, next).tasks, |s.tasks|, s.pos, s.line);
      }
    }
  }

  /**
   * Task `k` of `tasks`, if there is one, starts at or after `pos` with no task
   * start before it, and its line is `line` plus the line feeds in between.
   */
  predicate FirstFound(input: string, tasks: seq<Node>, k: nat, pos: nat, line: int) {
    |tasks| > k ==>
      var n := tasks[k];
      && n.start.Some? && pos <= n.start.value < |input|
      && (forall p :: pos <= p < n.start.value ==> !StartsAt(input, p))
      && n.lines == [line + Newlines(input[pos..n.start.value])]
  }

  /** On a task start, the next task the loop finds is the one `#parseTask` reads there. */
  lemma FirstAtStart(input: string, separator: char, s: LexState)
    requires s.pos < |input| && StartsAt(input, s.pos)
    ensures FirstFound(input, ScanLoop(input, separator, s).tasks, |s.tasks|, s.pos, s.line)
  {
    TaskStep(input, separator, s);
    var t := ScanTask(input, separator, s.pos, s.line, s.path, s.nextId);
    var next := LexState(t.pos, s.line, t.path, s.tasks + [t.node], t.nextId);
    ScanLoopKeeps(input, separator, next);
    FirstOfAppended(input, ScanLoop(input, separator, next).tasks, s.tasks, t.node, s.pos, s.line);
  }

  /** A task appended right at `pos`, on line `line`, is the first one found from `pos` on. */
  lemma FirstOfAppended(input: string, tasks: seq<Node>, before: seq<Node>, n: Node, pos: nat, line: int)
    requires |before| < |tasks| && tasks[..|before| + 1] == before + [n]
    requires n.start == Some(pos) && pos < |input| && n.lines == [line]
    ensures FirstFound(input, tasks, |before|, pos, line)
  {
    assert tasks[|before|] == tasks[..|before| + 1][|before|] == n;
    assert input[pos..pos] == [];
  }

  /** Skipping a character that starts no task counts its line feed and finds the same task. */
  lemma FirstFoundStep(input: string, tasks: seq<Node>, k: nat, pos: nat, line: int)
    requires pos < |input| && !StartsAt(input, pos)
    requires FirstFound(input, tasks, k, pos + 1, if input[pos] == '\n' then line + 1 else line)
    ensures FirstFound(input, tasks, k, pos, line)
  {
    if |tasks| > k {
      var p := tasks[k].start.value;
      assert input[pos..p][1..] == input[pos + 1..p];
    }
  }

  /**
   * What `compile` returns: tasks found at task starts, in strictly
   * increasing order of their start, each on one line of at least 1, none of
   * them with a parent.
   */
  lemma ScanOrder(input: string, separator: char, path: seq<string>, id: nat)
    ensures var tasks := Scan(input, separator, path, id).nodes;
            && Increasing(tasks)
            && forall i :: 0 <= i < |tasks| ==> FoundAfter(input, tasks[i], 0, 1)
  {
    var s := LexState(0, 1, path, [], id);
    ScanLoopIncreasing(input, separator, s);
    ScanLoopFound(input, separator, s);
    assert ScanLoop(input, separator, s).tasks[0..] == ScanLoop(input, separator, s).tasks;
  }
}
