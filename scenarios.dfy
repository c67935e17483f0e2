/**
 * Concrete inputs run through the scanner: the reference input of the test
 * suite, the edge cases of the field list, an unclosed task, and the main
 * task the wrapper adds. Each is a short chain of the general lemmas.
 */
module Scenarios {
  import opened Options
  import opened Text
  import opened Tasks
  import opened Scanner
  import opened Fields
  import opened Order
  import opened Rescan
  import opened Lexing

  /** Where no `#` follows the cursor, the loop finds no task. */
  lemma {:induction false} ScanLoopPlain(input: string, separator: char, s: LexState)
    requires forall k :: s.pos <= k < |input| ==> input[k] != '#'
    ensures ScanLoop(input, separator, s).tasks == s.tasks
    decreases |input| - s.pos
  {
    if s.pos < |input| {
      var line := if input[s.pos] == '\n' then s.line + 1 else s.line;
      ScanLoopPlain(input, separator, s.(pos := s.pos + 1, line := line));
    }
  }

  /** Nested lexers over a single field find that field's tasks, stamped. */
  lemma ScanOneField(field: string, separator: char, path: seq<string>, parent: nat, id: nat)
    ensures var kids := Scan(field, separator, path, id);
            ScanFields([field], separator, path, parent, id).nodes == Stamp(kids.nodes, parent, 0, path)
  {
    assert [field][..0] == [];
  }

  /** A printed task with balanced fields can itself be printed as a field: it is balanced and trimmed. */
  lemma PrintedPrintable(n: Node, separator: char)
    requires separator in SEPARATORS
    requires forall i :: 0 <= i < |n.name| ==> IsNameChar(n.name[i])
    requires n.fields.Some? ==> forall i :: 0 <= i < |n.fields.value| ==> Balanced(n.fields.value[i])
    ensures Printable(ToString(n, separator))
  {
    var x := ToString(n, separator);
    ToStringBalanced(n, separator);
    assert x[0] == '#' && x[|x| - 1] == ')';
    TrimBare(x);
  }

  /**
   * An input that is a single closed task, from its first character to its
   * last: the name ends at `ne`, the separator follows, and the body from
   * there reads as `fs` and ends on the final `)`.
   */
  lemma ScanClosedBody(x: string, separator: char, path: seq<string>, id: nat, ne: nat, fs: seq<string>)
    requires StartsAt(x, 0) && NameEnd(x, NameStart(x, 0)) == ne
    requires ne + 1 < |x| && x[ne] == separator && x[|x| - 1] == ')'
    requires ScanBody(x, ne + 1).fields == fs && ScanBody(x, ne + 1).end == |x| - 1
    ensures var tasks := Scan(x, separator, path, id).nodes;
            |tasks| == 1 && tasks[0].name == x[NameStart(x, 0)..ne] && tasks[0].fields == Some(fs) && tasks[0].isClosed
  {
    var head := Head(x, 0, 1, id);
    TaskFinish(x, separator, path, id);
    FinishReads(x, separator, head, ne, path, id + 1, fs);
    ScanSingle(x, separator, path, id);
  }


  /** `#(name<separator>body)`: a task without marker whose body runs to the last character. */
  function TaskText(name: string, separator: char, body: string): (x: string)
    ensures |x| == |name| + |body| + 4
  {
    "#(" + name + [separator] + body + ")"
  }

  /** Scanning `#(name<separator>body)` for a body that closes at depth 1: one closed task with that name and the body's fields. */
  lemma ScanTaskText(name: string, separator: char, body: string, fs: seq<string>, path: seq<string>, id: nat)
    requires separator in SEPARATORS && forall i :: 0 <= i < |name| ==> IsNameChar(name[i])
    requires Depth(body) == 1 && Guarded(body, 1, ')') && FieldsOf(Pieces(body)) == fs
    ensures var tasks := Scan(TaskText(name, separator, body), separator, path, id).nodes;
            |tasks| == 1 && tasks[0].name == name && tasks[0].fields == Some(fs) && tasks[0].isClosed
  {
    var n := Blank(0).(name := name);
    var x := TaskText(name, separator, body);
    var rest := [separator] + body + ")";
    TaskTextLayout(n, separator, body, rest, x);
    PrintedHead(n, rest, 1, id);
    BodyReads(x, 2 + |name| + 1, |x| - 1, fs);
    ScanClosedBody(x, separator, path, id, 2 + |name|, fs);
  }

  /** `TaskText` is an unmarked print whose body sits between the separator and the last `)`. */
  lemma TaskTextLayout(n: Node, separator: char, body: string, rest: string, x: string)
    requires Marker(n) == "" && rest == [separator] + body + ")" && x == TaskText(n.name, separator, body)
    ensures x == "#" + Marker(n) + "(" + n.name + rest
    ensures x[2 + |n.name| + 1..|x| - 1] == body
  {
    assert x == "#(" + n.name + rest;
  }

  /** A balanced field read from the start of a body is a single piece. */
  lemma PiecesOfBalanced(f: string)
    requires Balanced(f)
    ensures Pieces(f) == [f]
  {
    assert "" + f == f && "" + f + "" == f;
    PiecesAppendGuarded("", f);
  }

  /** The fields of two pieces: the first trimmed, and the second trimmed unless it is empty. */
  lemma FieldsOfTwo(a: string, b: string)
    ensures FieldsOf([a, b]) == [Trim(a)] + if b != "" then [Trim(b)] else []
  {
    var p := [a, b];
    assert p[..1] == [a] && [a][..0] == [];
    assert TrimAll([a]) == TrimAll([]) + [Trim(a)];
  }

  /**
   * `#(a )`: the separator followed directly by `)` gives an empty field list,
   * not a missing one.
   */
  lemma EmptyBody(name: string, separator: char, path: seq<string>, id: nat)
    requires separator in SEPARATORS && forall i :: 0 <= i < |name| ==> IsNameChar(name[i])
    ensures var tasks := Scan(TaskText(name, separator, ""), separator, path, id).nodes;
            |tasks| == 1 && tasks[0].name == name && tasks[0].fields == Some([]) && tasks[0].isClosed
  {
    assert Pieces("") == [""];
    ScanTaskText(name, separator, "", [], path, id);
  }

  /**
   * `#(a b|)`: a cut followed by nothing leaves an empty last piece, which is
   * dropped; the field before the cut is kept, even when it is empty.
   */
  lemma TrailingCut(name: string, separator: char, f: string, path: seq<string>, id: nat)
    requires separator in SEPARATORS && forall i :: 0 <= i < |name| ==> IsNameChar(name[i])
    requires Printable(f)
    ensures var tasks := Scan(TaskText(name, separator, f + "|"), separator, path, id).nodes;
            |tasks| == 1 && tasks[0].name == name && tasks[0].fields == Some([f]) && tasks[0].isClosed
  {
    var body := f + "|";
    PiecesOfBalanced(f);
    assert body == f + ['|'];
    PiecesSnoc(f, '|');
    assert Guarded("|", 1, ')');
    GuardedAppend(f, "|", 1, ')');
    assert Pieces(body) == [f, ""];
    FieldsOfTwo(f, "");
    ScanTaskText(name, separator, body, [f], path, id);
  }

  /** A balanced field, a cut and a space: two pieces, the field and the space, and the text closes at depth 1. */
  lemma PiecesCutSpace(f: string)
    requires Balanced(f)
    ensures Pieces(f + "| ") == [f, " "] && Depth(f + "| ") == 1 && Guarded(f + "| ", 1, ')')
  {
    var body := f + "| ";
    PiecesOfBalanced(f);
    assert f + "|" == f + ['|'] && body == (f + "|") + [' '];
    PiecesSnoc(f, '|');
    PiecesSnoc(f + "|", ' ');
    var p := [f, ""];
    assert Pieces(f + "|") == p;
    assert p[..1] == [f] && p[1] + [' '] == " ";
    assert [f] + [" "] == [f, " "];
    assert Depth("| ") == 1 && Guarded("| ", 1, ')') by {
      assert "| "[..1] == "|";
    }
    DepthAppend(f, "| ");
    GuardedAppend(f, "| ", 1, ')');
  }

  /**
   * `#(a b| )`: a cut followed by whitespace leaves a last piece that is not
   * empty until trimmed, so it is kept as an empty field.
   */
  lemma TrailingCutSpace(name: string, separator: char, f: string, path: seq<string>, id: nat)
    requires separator in SEPARATORS && forall i :: 0 <= i < |name| ==> IsNameChar(name[i])
    requires Printable(f)
    ensures var tasks := Scan(TaskText(name, separator, f + "| "), separator, path, id).nodes;
            |tasks| == 1 && tasks[0].name == name && tasks[0].fields == Some([f, ""]) && tasks[0].isClosed
  {
    PiecesCutSpace(f);
    assert Trim(" ") == "" by {
      assert LeadingSpace(" ") == 1;
    }
    FieldsOfTwo(f, " ");
    ScanTaskText(name, separator, f + "| ", [f, ""], path, id);
  }

  /** `(`, a balanced field and `|`: the text ends at depth 2 and meets no `)` or `|` at depth 1. */
  lemma OpenHalf(a: string)
    requires Balanced(a)
    ensures var v := "(" + a + "|";
            Depth(v) == 2 && Guarded(v, 1, ')') && Guarded(v, 1, '|')
  {
    assert Depth("(") == 2 && Guarded("(", 1, ')') && Guarded("(", 1, '|');
    DepthAppend("(", a);
    GuardedAppend("(", a, 1, ')');
    GuardedAppend("(", a, 1, '|');
    var u := "(" + a;
    assert Depth("|") == 1 && Guarded("|", 2, '|') && Guarded("|", 2, ')') by {
      assert "|"[..0] == [];
    }
    DepthAppend(u, "|");
    GuardedAppend(u, "|", 1, ')');
    GuardedAppend(u, "|", 1, '|');
  }

  /** Text at depth 2 with nothing to guard, then a balanced field and `)`: balanced. */
  lemma CloseHalf(v: string, b: string)
    requires Depth(v) == 2 && Guarded(v, 1, ')') && Guarded(v, 1, '|') && Balanced(b)
    ensures Balanced(v + b + ")")
  {
    DepthAppend(v, b);
    GuardedAppend(v, b, 1, ')');
    GuardedAppend(v, b, 1, '|');
    var w := v + b;
    assert Depth(")") == 0 && Guarded(")", 2, ')') && Guarded(")", 2, '|') by {
      assert ")"[..0] == [];
    }
    DepthAppend(w, ")");
    GuardedAppend(w, ")", 1, ')');
    GuardedAppend(w, ")", 1, '|');
  }

  /** A parenthesised pair of balanced fields cut by `|` is balanced: the `|` sits at depth 2. */
  lemma NestedBalanced(a: string, b: string)
    requires Balanced(a) && Balanced(b)
    ensures Balanced("(" + a + "|" + b + ")")
  {
    OpenHalf(a);
    CloseHalf("(" + a + "|", b);
  }

  /** `#(f (a|b))`: a `|` inside parentheses does not cut the body, which is one field. */
  lemma NestedBarKept(name: string, separator: char, a: string, b: string, path: seq<string>, id: nat)
    requires separator in SEPARATORS && forall i :: 0 <= i < |name| ==> IsNameChar(name[i])
    requires Balanced(a) && Balanced(b)
    ensures var f := "(" + a + "|" + b + ")";
            var tasks := Scan(TaskText(name, separator, f), separator, path, id).nodes;
            |tasks| == 1 && tasks[0].name == name && tasks[0].fields == Some([f]) && tasks[0].isClosed
  {
    var f := "(" + a + "|" + b + ")";
    NestedBalanced(a, b);
    PiecesOfBalanced(f);
    assert f[0] == '(' && f[|f| - 1] == ')';
    TrimBare(f);
    assert FieldsOf([f]) == [f] by {
      assert [f][..0] == [];
    }
    ScanTaskText(name, separator, f, [f], path, id);
  }

  /** `#(name<separator>body` with no closing `)`. */
  function OpenText(name: string, separator: char, body: string): (x: string)
    ensures |x| == |name| + |body| + 3
  {
    "#(" + name + [separator] + body
  }

  /**
   * `#(foo bar`: a task whose body runs off the end of the input without
   * parentheses or cuts is one task, not closed and with no end, whose
   * single field is the trimmed body (none when the body is empty).
   */
  lemma Unclosed(name: string, separator: char, body: string, path: seq<string>, id: nat)
    requires separator in SEPARATORS && forall i :: 0 <= i < |name| ==> IsNameChar(name[i])
    requires Plain(body)
    ensures var tasks := Scan(OpenText(name, separator, body), separator, path, id).nodes;
            && |tasks| == 1 && tasks[0].name == name && !tasks[0].isClosed && tasks[0].end.None?
            && tasks[0].fields == Some(if body != "" then [Trim(body)] else [])
  {
    var x := OpenText(name, separator, body);
    var n := Blank(0).(name := name);
    var rest := [separator] + body;
    var ne := 2 + |name|;
    OpenTextLayout(n, separator, body, rest, x);
    PrintedHead(n, rest, 1, id);
    UnclosedBody(x, ne + 1, body);
    TaskFinish(x, separator, path, id);
    ScanSingle(x, separator, path, id);
  }

  /** `OpenText` is an unmarked print cut short, whose body runs from after the separator to the end. */
  lemma OpenTextLayout(n: Node, separator: char, body: string, rest: string, x: string)
    requires Marker(n) == "" && rest == [separator] + body && x == OpenText(n.name, separator, body)
    ensures x == "#" + Marker(n) + "(" + n.name + rest
    ensures x[2 + |n.name| + 1..] == body
  {
    assert x == "#(" + n.name + rest;
  }

  /** A plain body running to the end of the input is one field, the trimmed body, or none when it is empty. */
  lemma UnclosedBody(x: string, start: nat, body: string)
    requires start <= |x| && x[start..] == body && Plain(body)
    ensures ScanBody(x, start).fields == (if body != "" then [Trim(body)] else []) && ScanBody(x, start).end == |x|
  {
    assert ScanBody(x, start).end == |x|;
    PlainOneField(body);
    assert x[start..|x|] == body;
    BodyFieldsAt(x, start, |x|, if body != "" then [Trim(body)] else []);
  }

  /** A plain text read as a body is one field, itself trimmed, or none when it is empty. */
  lemma PlainOneField(body: string)
    requires Plain(body)
    ensures FieldsOf(Pieces(body)) == if body != "" then [Trim(body)] else []
  {
    PlainBalanced(body, 1);
    PiecesOfBalanced(body);
    assert [body][..0] == [];
  }

  /** The wrapper's name is a name: every character of `MAIN_FUNCTION` is a name character. */
  lemma MainNameChars()
    ensures forall i :: 0 <= i < |MAIN_NAME| ==> IsNameChar(MAIN_NAME[i])
  {
  }

  /** When a task starts at 0, it is the first task found. */
  lemma FirstTaskAtStart(x: string, separator: char, path: seq<string>, id: nat)
    requires StartsAt(x, 0)
    ensures var tasks := Scan(x, separator, path, id).nodes;
            tasks != [] && tasks[0] == ScanTask(x, separator, 0, 1, path, id).node
  {
    var s := LexState(0, 1, path, [], id);
    assert x[0] == '#';
    TaskStep(x, separator, s);
    var t := ScanTask(x, separator, 0, 1, path, id);
    var next := LexState(t.pos, 1, t.path, s.tasks + [t.node], t.nextId);
    assert s.tasks + [t.node] == [t.node];
    ScanLoopKeeps(x, separator, next);
    var r := ScanLoop(x, separator, next);
    assert ScanLoop(x, separator, s) == r;
    assert r.tasks[0] == r.tasks[..1][0];
  }

  /**
   * With `addMainTask` the first task found is the main task: named
   * `MAIN_FUNCTION`, starting at 0, and with fields, since the separator
   * follows its name.
   */
  lemma MainTaskFirst(text: string, separator: char, path: seq<string>, id: nat)
    requires separator in SEPARATORS
    ensures var tasks := Scan(Wrap(text, true, separator), separator, path, id).nodes;
            && tasks != [] && tasks[0].name == MAIN_NAME && tasks[0].start == Some(0) && tasks[0].fields.Some?
  {
    var x := Wrap(text, true, separator);
    var n := Blank(0).(name := MAIN_NAME);
    var rest := [separator] + text + ")";
    MainNameChars();
    assert x == "#" + Marker(n) + "(" + n.name + rest;
    PrintedHead(n, rest, 1, id);
    FirstTaskAtStart(x, separator, path, id);
    ScanTaskShape(x, separator, 0, 1, path, id);
    assert x[2 + |MAIN_NAME|] == separator;
  }
}
