/**
 * The scanner as functions of its input: what one run of the lexer over a
 * string produces, with the cursor, line counter, path and id counter threaded
 * through as values. The `Lexing.Lexer` class is proved to compute exactly this.
 */
module Scanner {
  import opened Options
  import opened Text
  import opened Tasks

  /** The separators `setSeparator` accepts between a task's name and its body. */
  const SEPARATORS: seq<char> := ['>', ':', ' ', '=']

  /** The name of the task `addMainTask` wraps the whole input in. */
  const MAIN_NAME := "MAIN_FUNCTION"

  /** The text a lexer scans: with `addMainTask` the input becomes `#(MAIN_FUNCTION<sep>input)`. */
  function Wrap(input: string, addMainTask: bool, separator: char): string {
    if addMainTask then "#(" + MAIN_NAME + [separator] + input + ")" else input
  }

  /** A task starts at `pos`: `#` followed by `(`, `!(` or `*(`. */
  predicate StartsAt(input: string, pos: int) {
    && At(input, pos, '#')
    && (|| At(input, pos + 1, '(')
        || ((At(input, pos + 1, '!') || At(input, pos + 1, '*')) && At(input, pos + 2, '(')))
  }

  /** Where the name of the task that starts at `pos` begins: after `#`, the marker if any, and `(`. */
  function NameStart(input: string, pos: nat): nat {
    if At(input, pos + 1, '!') || At(input, pos + 1, '*') then pos + 3 else pos + 2
  }

  /**
   * The end of the run of name characters that begins at `i`. The source reads
   * "undefined" past the end of its input, which matches the name class, so its
   * loop does not stop there and runs until the engine's string-length limit
   * throws; this one stops at the end of the input.
   */
  function NameEnd(input: string, i: nat): (k: nat)
    requires i <= |input|
    ensures i <= k <= |input|
    ensures k < |input| ==> !IsNameChar(input[k])
    decreases |input| - i
  {
    if i < |input| && IsNameChar(input[i]) then NameEnd(input, i + 1) else i
  }

  /** Everything from `i` up to `NameEnd` is a name character, so the run `NameEnd` ends is the longest. */
  lemma {:induction false} NameEndRun(input: string, i: nat)
    requires i <= |input|
    ensures forall j :: i <= j < NameEnd(input, i) ==> IsNameChar(input[j])
    decreases |input| - i
  {
    if i < |input| && IsNameChar(input[i]) {
      NameEndRun(input, i + 1);
    }
  }

  /** Conversely, a run of name characters ending at a character of another kind ends where `NameEnd` says. */
  lemma {:induction false} NameEndAt(input: string, i: nat, k: nat)
    requires i <= k < |input| && !IsNameChar(input[k])
    requires forall j :: i <= j < k ==> IsNameChar(input[j])
    ensures NameEnd(input, i) == k
    decreases k - i
  {
    if i < k {
      NameEndAt(input, i + 1, k);
    }
  }

  /** The parenthesis depth after reading `c` at depth `depth`. */
  function Step(depth: int, c: char): int {
    if c == '(' then depth + 1 else if c == ')' then depth - 1 else depth
  }

  /** The variables of the body loop when it stops. */
  datatype Split = Split(args: seq<string>, cur: string, depth: int, pos: nat)

  /**
   * The body loop from `pos` at depth `depth`, having cut `args` so far and
   * collected `cur` since the last cut. It stops on the `)` that brings the depth
   * to 0, with the cursor on it, or at the end of the input with the depth still
   * at least 1.
   */
  function SplitLoop(input: string, pos: nat, depth: int, args: seq<string>, cur: string): (r: Split)
    requires pos <= |input| && depth >= 1
    ensures pos <= r.pos <= |input|
    ensures r.pos < |input| ==> input[r.pos] == ')' && r.depth == 0
    ensures r.pos == |input| ==> r.depth >= 1
    ensures |r.cur| <= |cur| + (r.pos - pos)
    decreases |input| - pos
  {
    if pos == |input| then Split(args, cur, depth, pos)
    else
      var c := input[pos];
      var d := Step(depth, c);
      if d == 0 && c == ')' then Split(args, cur, d, pos)
      else if c == '|' && d == 1 then SplitLoop(input, pos + 1, d, args + [Trim(cur)], "")
      else SplitLoop(input, pos + 1, d, args, cur + [c])
  }

  /** Every piece the body loop cuts comes from the text it read: none is longer than that text. */
  lemma {:induction false} SplitLoopPieces(input: string, pos: nat, depth: int, args: seq<string>, cur: string)
    requires pos <= |input| && depth >= 1
    ensures var r := SplitLoop(input, pos, depth, args, cur);
            forall a :: a in r.args ==> a in args || |a| <= |cur| + (r.pos - pos)
    decreases |input| - pos
  {
    if pos < |input| {
      var c := input[pos];
      var d := Step(depth, c);
      if d == 0 && c == ')' {
      } else if c == '|' && d == 1 {
        SplitLoopPieces(input, pos + 1, d, args + [Trim(cur)], "");
      } else {
        SplitLoopPieces(input, pos + 1, d, args, cur + [c]);
      }
    }
  }

  /**
   * The field list once the body loop has stopped: the trailing `)` fallback of
   * the source (never taken, see `SplitLoop`), then the last piece if its
   * untrimmed text is non-empty.
   */
  function BodyFields(input: string, s: Split): seq<string> {
    var last := if s.depth == 1 && At(input, s.pos, ')') then s.cur + [')'] else s.cur;
    if last != "" then s.args + [Trim(last)] else s.args
  }

  /** A body's fields and the position where its loop stopped. */
  datatype Body = Body(fields: seq<string>, end: nat)

  /**
   * `#parseInside` up to the recursion, for a body that begins at `start`: the
   * loop stops at the end of the input or on a `)`.
   */
  function ScanBody(input: string, start: nat): (b: Body)
    requires start <= |input|
    ensures start <= b.end <= |input|
    ensures b.end < |input| ==> input[b.end] == ')'
  {
    var s := SplitLoop(input, start, 1, [], "");
    Body(BodyFields(input, s), s.pos)
  }

  /** No field of a body is longer than the text from `start` on. */
  lemma ScanBodyShort(input: string, start: nat)
    requires start <= |input|
    ensures Longest(ScanBody(input, start).fields) <= |input| - start
  {
    var s := SplitLoop(input, start, 1, [], "");
    SplitLoopPieces(input, start, 1, [], "");
    var fields := BodyFields(input, s);
    assert forall f :: f in fields ==> f in s.args || |f| <= |s.cur|;
    LongestAtMost(fields, |input| - start);
  }

  /** Gives each node the parent id, the running overload number and the path. */
  function Stamp(nodes: seq<Node>, parent: nat, from: nat, path: seq<string>): seq<Node> {
    seq(|nodes|, i requires 0 <= i < |nodes| =>
      nodes[i].(parentId := Some(parent), from := Some(from + i), path := path))
  }

  /** The state of one lexer. */
  datatype LexState = LexState(pos: nat, line: int, path: seq<string>, tasks: seq<Node>, nextId: nat)

  /** What parsing one task yields: the task and the lexer's new cursor, path and id counter. */
  datatype TaskScan = TaskScan(node: Node, pos: nat, path: seq<string>, nextId: nat)

  /** A list of tasks and the next unused id. */
  datatype Forest = Forest(nodes: seq<Node>, nextId: nat)

  /** All the tasks one lexer finds in `input`, starting from line 1 with path `path`. */
  function Scan(input: string, separator: char, path: seq<string>, id: nat): (r: Forest)
    ensures r.nextId >= id
    decreases |input|, 4
  {
    var s := ScanLoop(input, separator, LexState(0, 1, path, [], id));
    Forest(s.tasks, s.nextId)
  }

  /**
   * The `compile` loop: count a line feed, then either parse the task that
   * starts here or move one position on.
   */
  function ScanLoop(input: string, separator: char, s: LexState): (r: LexState)
    ensures r.nextId >= s.nextId
    decreases |input|, 3, |input| + 1 - s.pos
  {
    if s.pos >= |input| then s
    else
      var line := if input[s.pos] == '\n' then s.line + 1 else s.line;
      if StartsAt(input, s.pos) then
        var t := ScanTask(input, separator, s.pos, line, s.path, s.nextId);
        ScanLoop(input, separator, LexState(t.pos, line, t.path, s.tasks + [t.node], t.nextId))
      else
        ScanLoop(input, separator, s.(pos := s.pos + 1, line := line))
  }

  /**
   * The task `#parseTask` creates at `pos` before it looks past the name: id `id`,
   * start `pos`, line `line`, opened, `negated` exactly when `!` follows `#` and
   * `handled` exactly when `*` does (so never both), and named by the longest
   * run of name characters after `(` (possibly empty).
   */
  function Head(input: string, pos: nat, line: int, id: nat): (n: Node)
    requires StartsAt(input, pos)
    ensures n.id == id && n.start == Some(pos) && n.lines == [line] && n.isOpened
    ensures n.negated == At(input, pos + 1, '!') && n.handled == At(input, pos + 1, '*')
    ensures !(n.negated && n.handled)
    ensures NameStart(input, pos) <= |input|
    ensures n.name == input[NameStart(input, pos)..NameEnd(input, NameStart(input, pos))]
    ensures !n.isClosed && n.end.None? && n.fields.None? && n.inside.None? && n.overloads == []
    ensures n.parentId.None? && n.from.None? && n.path == []
  {
    var ns := NameStart(input, pos);
    Blank(id).(start := Some(pos), lines := [line], negated := At(input, pos + 1, '!'),
               handled := At(input, pos + 1, '*'), isOpened := true,
               name := input[ns..NameEnd(input, ns)])
  }

  /** A task's name is made of name characters only. */
  lemma HeadNameChars(input: string, pos: nat, line: int, id: nat)
    requires StartsAt(input, pos)
    ensures var n := Head(input, pos, line, id);
            forall i :: 0 <= i < |n.name| ==> IsNameChar(n.name[i])
  {
    NameEndRun(input, NameStart(input, pos));
  }

  /**
   * `#parseTask`, with `#parseInside`, at `pos`: the task, the cursor just past
   * it, the lexer's new path and the next unused id. Its properties are stated
   * by `ScanTaskShape`.
   */
  function ScanTask(input: string, separator: char, pos: nat, line: int, path: seq<string>, id: nat): (r: TaskScan)
    requires StartsAt(input, pos)
    ensures pos < r.pos <= |input| + 1
    ensures r.nextId > id
    decreases |input|, 2
  {
    Finish(input, separator, Head(input, pos, line, id), NameEnd(input, NameStart(input, pos)), path, id + 1)
  }

  /**
   * `#parseTask` after the name, with the cursor at `ne`: the body and its
   * nested tasks when the separator is there, then the closure.
   */
  function Finish(input: string, separator: char, head: Node, ne: nat, path: seq<string>, id: nat): (r: TaskScan)
    requires ne <= |input|
    ensures ne < r.pos <= |input| + 1
    ensures r.nextId >= id
    decreases |input|, 1
  {
    if At(input, ne, separator) then
      var body := ScanBody(input, ne + 1);
      ScanBodyShort(input, ne + 1);
      var path' := path + [head.name];
      var kids := ScanFields(body.fields, separator, path', head.id, id);
      var closed := At(input, body.end, ')');
      var node := head.(fields := Some(body.fields), inside := Some(Join(body.fields, " | ")),
                        overloads := kids.nodes, isClosed := closed,
                        end := if closed then Some(body.end) else None);
      TaskScan(node, body.end + 1, path', kids.nextId)
    else
      var closed := At(input, ne, ')');
      TaskScan(head.(isClosed := closed, end := if closed then Some(ne) else None), ne + 1, path, id)
  }

  /**
   * What `#parseTask` promises about the task it builds. Apart from its body and
   * closure the task is its `Head`. It has fields exactly when the separator
   * follows the name, and then `inside` is those fields joined by " | " and the
   * lexer's path gains the task's name; otherwise the cursor stops just past
   * the character after the name. It is closed, with its end recorded, exactly
   * when the cursor stops on `)`, at least two positions after `#`. Its
   * overloads all point back to it, are numbered 0, 1, 2, ... and carry the
   * lexer's new path.
   */
  lemma ScanTaskShape(input: string, separator: char, pos: nat, line: int, path: seq<string>, id: nat)
    requires StartsAt(input, pos)
    ensures var r := ScanTask(input, separator, pos, line, path, id);
      && r.node.(fields := None, inside := None, overloads := [], isClosed := false, end := None)
         == Head(input, pos, line, id)
      && (r.node.fields.Some? <==> At(input, NameEnd(input, NameStart(input, pos)), separator))
      && (r.node.fields.Some? ==> r.node.inside == Some(Join(r.node.fields.value, " | "))
                                  && r.path == path + [r.node.name])
      && (r.node.fields.None? ==> r.node.inside.None? && r.node.overloads == [] && r.path == path
                                  && r.pos == NameEnd(input, NameStart(input, pos)) + 1)
  {
  }

  /** A task is closed, with its end recorded, exactly when `#parseTask` stops on `)`, two or more positions after `#`. */
  lemma ScanTaskClosure(input: string, separator: char, pos: nat, line: int, path: seq<string>, id: nat)
    requires StartsAt(input, pos)
    ensures var r := ScanTask(input, separator, pos, line, path, id);
      && (r.node.isClosed <==> r.pos <= |input| && input[r.pos - 1] == ')')
      && (r.node.isClosed <==> r.node.end.Some?)
      && (r.node.end.Some? ==> r.node.end.value == r.pos - 1 && pos + 2 <= r.node.end.value)
  {
    var ne := NameEnd(input, NameStart(input, pos));
    var r := Finish(input, separator, Head(input, pos, line, id), ne, path, id + 1);
    assert ScanTask(input, separator, pos, line, path, id) == r;
    assert pos + 2 <= ne;
    FinishClosure(input, separator, Head(input, pos, line, id), ne, path, id + 1);
  }

  /** After the name, the task is closed exactly when the cursor stops on `)`, and its end is that position. */
  lemma FinishClosure(input: string, separator: char, head: Node, ne: nat, path: seq<string>, id: nat)
    requires ne <= |input|
    ensures var r := Finish(input, separator, head, ne, path, id);
      && (r.node.isClosed <==> r.pos <= |input| && input[r.pos - 1] == ')')
      && (r.node.isClosed <==> r.node.end.Some?)
      && (r.node.end.Some? ==> r.node.end.value == r.pos - 1 && ne <= r.node.end.value)
  {
  }

  /** The overloads of a task point back to it, are numbered 0, 1, 2, ... and carry the lexer's new path. */
  lemma ScanTaskOverloads(input: string, separator: char, pos: nat, line: int, path: seq<string>, id: nat)
    requires StartsAt(input, pos)
    ensures var r := ScanTask(input, separator, pos, line, path, id);
      forall i :: 0 <= i < |r.node.overloads| ==>
        r.node.overloads[i].parentId == Some(id) && r.node.overloads[i].from == Some(i)
        && r.node.overloads[i].path == r.path
  {
    var head := Head(input, pos, line, id);
    var ne := NameEnd(input, NameStart(input, pos));
    var r := Finish(input, separator, head, ne, path, id + 1);
    assert ScanTask(input, separator, pos, line, path, id) == r;
    if At(input, ne, separator) {
      var body := ScanBody(input, ne + 1);
      var kids := ScanFields(body.fields, separator, path + [head.name], id, id + 1);
      assert r.node.overloads == kids.nodes && r.path == path + [head.name];
      ScanFieldsLinks(body.fields, separator, path + [head.name], id, id + 1);
    } else {
      assert r.node.overloads == [];
    }
  }

  /** The length of the longest field (0 for none); it bounds the recursion of `ScanFields`. */
  function Longest(fields: seq<string>): nat {
    if fields == [] then 0
    else
      var init := Longest(fields[..|fields| - 1]);
      if init < |fields[|fields| - 1]| then |fields[|fields| - 1]| else init
  }

  /** Every field is at most as long as the longest. */
  lemma {:induction false} LongestAtLeast(fields: seq<string>, i: nat)
    requires i < |fields|
    ensures |fields[i]| <= Longest(fields)
  {
    if i < |fields| - 1 {
      LongestAtLeast(fields[..|fields| - 1], i);
    }
  }

  /** No field is longer than a common bound, so neither is the longest. */
  lemma {:induction false} LongestAtMost(fields: seq<string>, bound: nat)
    requires forall f :: f in fields ==> |f| <= bound
    ensures Longest(fields) <= bound
  {
    if fields != [] {
      assert forall f :: f in fields[..|fields| - 1] ==> f in fields;
      LongestAtMost(fields[..|fields| - 1], bound);
    }
  }

  /**
   * The nested tasks of a body, as the field loop of `#parseInside` builds them:
   * the tasks of the fields before the last, then a fresh lexer over the last
   * field, each of its tasks stamped with the parent's id, the overload number
   * (counted across all fields) and the path.
   */
  function ScanFields(fields: seq<string>, separator: char, path: seq<string>, parent: nat, id: nat): (r: Forest)
    ensures r.nextId >= id
    decreases Longest(fields) + 1, 0, |fields|
  {
    if fields == [] then Forest([], id)
    else
      var init := ScanFields(fields[..|fields| - 1], separator, path, parent, id);
      var last := Scan(fields[|fields| - 1], separator, path, init.nextId);
      Forest(init.nodes + Stamp(last.nodes, parent, |init.nodes|, path), last.nextId)
  }

  /** Every nested task points back to the parent, is numbered by its place among all of them, and carries the path. */
  lemma {:induction false} ScanFieldsLinks(fields: seq<string>, separator: char, path: seq<string>, parent: nat, id: nat)
    ensures var r := ScanFields(fields, separator, path, parent, id);
      forall i :: 0 <= i < |r.nodes| ==>
        r.nodes[i].parentId == Some(parent) && r.nodes[i].from == Some(i) && r.nodes[i].path == path
  {
    if fields != [] {
      var init := ScanFields(fields[..|fields| - 1], separator, path, parent, id);
      var last := Scan(fields[|fields| - 1], separator, path, init.nextId);
      var stamped := Stamp(last.nodes, parent, |init.nodes|, path);
      var r := ScanFields(fields, separator, path, parent, id);
      assert r.nodes == init.nodes + stamped;
      ScanFieldsLinks(fields[..|fields| - 1], separator, path, parent, id);
      forall i | 0 <= i < |r.nodes|
        ensures r.nodes[i].parentId == Some(parent) && r.nodes[i].from == Some(i) && r.nodes[i].path == path
      {
        if i >= |init.nodes| {
          assert r.nodes[i] == stamped[i - |init.nodes|];
        }
      }
    }
  }
}
