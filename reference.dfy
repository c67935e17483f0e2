/**
 * The fixture of the test suite and further worked inputs (a `:` separator,
 * a negated task, an unclosed task), scanned through the general lemmas: each
 * input is the print of a node, so `RescanToString` reads it back level by
 * level.
 */
module Reference {
  import opened Options
  import opened Text
  import opened Tasks
  import opened Scanner
  import opened Rescan
  import opened Scenarios

  /** A node with the given name, fields and marker flags, everything else blank. */
  function Shaped(name: string, negated: bool, fields: seq<string>): Node {
    Blank(0).(name := name, negated := negated, fields := Some(fields))
  }

  /** Text with no parenthesis, no `|` and no whitespace at its ends is a printable field. */
  lemma PlainPrintable(f: string)
    requires f != [] && !IsWhitespace(f[0]) && !IsWhitespace(f[|f| - 1])
    requires Plain(f)
    ensures Printable(f)
  {
    PlainBalanced(f, 1);
    TrimBare(f);
  }

  /** A printable field that is plain text, not blank at either end. */
  predicate Word(f: string) {
    f != [] && !IsWhitespace(f[0]) && !IsWhitespace(f[|f| - 1]) && Plain(f)
  }

  /** Made of name characters only. */
  predicate Name(name: string) {
    forall i :: 0 <= i < |name| ==> IsNameChar(name[i])
  }

  /** A shaped node whose name is a name and whose fields are printable prints as a printable field. */
  lemma ShapedPrintable(name: string, negated: bool, fs: seq<string>, separator: char)
    requires separator in SEPARATORS && Name(name)
    requires forall i :: 0 <= i < |fs| ==> Printable(fs[i])
    ensures Printable(ToString(Shaped(name, negated, fs), separator))
  {
    PrintedPrintable(Shaped(name, negated, fs), separator);
  }

  /** An unmarked shaped node with printable fields prints as a printable field that scans back to one closed task, that node. */
  lemma ShapedRescan(name: string, fs: seq<string>, separator: char, path: seq<string>, below: seq<string>, id: nat)
    requires separator in SEPARATORS && Name(name) && fs != [""] && below == path + [name]
    requires forall i :: 0 <= i < |fs| ==> Printable(fs[i])
    ensures var x := ToString(Shaped(name, false, fs), separator);
            var t := Scan(x, separator, path, id).nodes;
            && Printable(x) && x != ""
            && |t| == 1 && t[0].id == id && t[0].name == name && t[0].fields == Some(fs) && t[0].isClosed
            && t[0].overloads == ScanFields(fs, separator, below, id, id + 1).nodes
  {
    ShapedPrintable(name, false, fs, separator);
    RescanToString(Shaped(name, false, fs), separator, path, id);
  }

  /** `#(a b)` is the print of the task `a` with the one field `b`. */
  lemma OneFieldText(name: string, f: string, separator: char, x: string)
    requires x == "#(" + name + [separator] + f + ")"
    ensures ToString(Shaped(name, false, [f]), separator) == x
  {
    assert Join([f], " | ") == f;
  }

  /** `#(s g | w)` is the print of the task `s` with the two fields `g` and `w`. */
  lemma TwoFieldText(name: string, g: string, w: string, separator: char, x: string)
    requires x == "#(" + name + [separator] + g + " | " + w + ")"
    ensures ToString(Shaped(name, false, [g, w]), separator) == x
  {
    JoinTwo(g, w, " | ");
    PrintedAs(Shaped(name, false, [g, w]), separator, g + " | " + w, x);
  }

  /** Two parts joined are the first, the glue and the second. */
  lemma JoinTwo(a: string, b: string, glue: string)
    ensures Join([a, b], glue) == a + glue + b
  {
    assert [a, b][1..] == [b];
  }

  /** An unmarked task with fields prints as `#(`, its name, the separator, its joined fields and `)`. */
  lemma PrintedAs(n: Node, separator: char, body: string, x: string)
    requires Marker(n) == "" && n.fields.Some? && Join(n.fields.value, " | ") == body
    requires x == "#(" + n.name + [separator] + body + ")"
    ensures ToString(n, separator) == x
  {
    assert "#" + Marker(n) + "(" == "#(";
  }

  /** The nested lexers over two fields find the tasks of the first field first. */
  lemma ScanTwoFields(a: string, b: string, separator: char, path: seq<string>, parent: nat, id: nat)
    ensures var kids := Scan(a, separator, path, id);
            var r := ScanFields([a, b], separator, path, parent, id);
            |r.nodes| >= |kids.nodes| && r.nodes[..|kids.nodes|] == Stamp(kids.nodes, parent, 0, path)
  {
    assert [a, b][..1] == [a];
    ScanOneField(a, separator, path, parent, id);
  }

  /** A stamped node is the node with the parent, its overload number and the path set. */
  lemma StampFirst(nodes: seq<Node>, parent: nat, path: seq<string>)
    requires nodes != []
    ensures var r := Stamp(nodes, parent, 0, path);
            |r| == |nodes| && r[0] == nodes[0].(parentId := Some(parent), from := Some(0), path := path)
  {
  }

  /** The innermost level of the fixture: `#(g v)` is the one task `g`, with the field `v`. */
  lemma InnerLevel(g: string, v: string, separator: char, get: string, path: seq<string>, id: nat)
    requires separator in SEPARATORS && Name(g) && Word(v)
    requires get == "#(" + g + [separator] + v + ")"
    ensures Printable(get)
    ensures var t := Scan(get, separator, path, id).nodes;
            |t| == 1 && t[0].name == g && t[0].fields == Some([v])
  {
    PlainPrintable(v);
    OneFieldText(g, v, separator, get);
    ShapedRescan(g, [v], separator, path, path + [g], id);
  }

  /**
   * The middle level of the fixture: `#(s get | w)` is the one closed task `s`,
   * with id `id` and the fields `get` and `w`, whose first overload is the
   * first task of `get`, stamped.
   */
  lemma MiddleLevel(s: string, get: string, w: string, separator: char, sum: string, path: seq<string>, id: nat)
    requires separator in SEPARATORS && Name(s) && Printable(get) && Word(w)
    requires sum == "#(" + s + [separator] + get + " | " + w + ")"
    requires Scan(get, separator, path + [s], id + 1).nodes != []
    ensures Printable(sum) && sum != ""
    ensures var t := Scan(sum, separator, path, id).nodes;
            var kids := Scan(get, separator, path + [s], id + 1).nodes;
            && |t| == 1 && t[0].id == id && t[0].name == s && t[0].fields == Some([get, w]) && t[0].isClosed
            && |t[0].overloads| > 0
            && t[0].overloads[0] == kids[0].(parentId := Some(id), from := Some(0), path := path + [s])
  {
    PlainPrintable(w);
    TwoFieldText(s, get, w, separator, sum);
    ShapedRescan(s, [get, w], separator, path, path + [s], id);
    ScanTwoFields(get, w, separator, path + [s], id, id + 1);
    var kids := Scan(get, separator, path + [s], id + 1).nodes;
    var sumKids := ScanFields([get, w], separator, path + [s], id, id + 1).nodes;
    StampFirst(kids, id, path + [s]);
    assert sumKids[0] == sumKids[..|kids|][0];
  }

  /** The outer level of the fixture: `#(main sum)` is the one task `main`, whose overloads are the tasks of `sum`, stamped. */
  lemma OuterLevel(main: string, sum: string, separator: char, x: string)
    requires separator in SEPARATORS && Name(main) && Printable(sum) && sum != ""
    requires x == "#(" + main + [separator] + sum + ")"
    ensures var t := Scan(x, separator, [], 0).nodes;
            && |t| == 1 && t[0].id == 0 && t[0].name == main && t[0].fields == Some([sum])
            && t[0].overloads == Stamp(Scan(sum, separator, [main], 1).nodes, 0, 0, [main])
  {
    OneFieldText(main, sum, separator, x);
    OuterScan(main, sum, separator);
  }

  /** The print of the main task around one printable field scans to that task, whose overloads are the field's tasks, stamped. */
  lemma OuterScan(main: string, sum: string, separator: char)
    requires separator in SEPARATORS && Name(main) && Printable(sum) && sum != ""
    ensures var t := Scan(ToString(Shaped(main, false, [sum]), separator), separator, [], 0).nodes;
            && |t| == 1 && t[0].id == 0 && t[0].name == main && t[0].fields == Some([sum])
            && t[0].overloads == Stamp(Scan(sum, separator, [main], 1).nodes, 0, 0, [main])
  {
    TopPath(main);
    OneFieldRescan(main, sum, separator, [], [main], 0);
  }

  /** An unmarked task with one printable field scans back to itself, with the field's tasks, stamped, as its overloads. */
  lemma OneFieldRescan(name: string, f: string, separator: char, path: seq<string>, below: seq<string>, id: nat)
    requires separator in SEPARATORS && Name(name) && Printable(f) && f != "" && below == path + [name]
    ensures var t := Scan(ToString(Shaped(name, false, [f]), separator), separator, path, id).nodes;
            && |t| == 1 && t[0].id == id && t[0].name == name && t[0].fields == Some([f])
            && t[0].overloads == Stamp(Scan(f, separator, below, id + 1).nodes, id, 0, below)
  {
    ShapedRescan(name, [f], separator, path, below, id);
    ScanOneField(f, separator, below, id, id + 1);
  }

  /** Appending a top-level task's name to the empty path gives the name alone. */
  lemma TopPath(main: string)
    ensures [] + [main] == [main]
  {
  }

  /**
   * The shape of the fixture, for any names and plain words: the main task
   * around `#(s #(g v) | w)` has the one overload `s`, with the two fields
   * `#(g v)` and `w`, whose first overload is `g`, from its first field.
   */
  lemma NestedFixture(main: string, s: string, g: string, v: string, w: string, separator: char,
                      get: string, sum: string, x: string)
    requires separator in SEPARATORS && Name(main) && Name(s) && Name(g) && Word(v) && Word(w)
    requires get == "#(" + g + [separator] + v + ")"
    requires sum == "#(" + s + [separator] + get + " | " + w + ")"
    requires x == "#(" + main + [separator] + sum + ")"
    ensures var tokens := Scan(x, separator, [], 0).nodes;
      && |tokens| == 1 && tokens[0].name == main && tokens[0].fields == Some([sum])
      && |tokens[0].overloads| == 1
      && var top := tokens[0].overloads[0];
         && top.name == s && top.fields == Some([get, w]) && top.isClosed
         && top.parentId == Some(tokens[0].id) && top.from == Some(0) && top.path == [main]
         && |top.overloads| > 0
         && top.overloads[0].name == g && top.overloads[0].fields == Some([v])
         && top.overloads[0].parentId == Some(top.id) && top.overloads[0].from == Some(0)
         && top.overloads[0].path == [main, s]
  {
    InnerLevel(g, v, separator, get, [main, s], 2);
    assert [main] + [s] == [main, s];
    MiddleLevel(s, get, w, separator, sum, [main], 1);
    OuterLevel(main, sum, separator, x);
    StampFirst(Scan(sum, separator, [main], 1).nodes, 0, [main]);
  }

  /** The nested call of the fixture. */
  const GET := "#(get currentValue)"

  /** The input of the fixture. */
  const SUM := "#(sum #(get currentValue) | 1)"

  /** The fixture is laid out as `NestedFixture` expects: a nested call and a number inside the main task. */
  lemma FixtureLayout()
    ensures GET == "#(" + "get" + [' '] + "currentValue" + ")"
    ensures SUM == "#(" + "sum" + [' '] + GET + " | " + "1" + ")"
    ensures Wrap(SUM, true, ' ') == "#(" + MAIN_NAME + [' '] + SUM + ")"
  {
    GetLayout();
    SumLayout();
  }

  /** The inner call of the fixture. */
  lemma GetLayout()
    ensures GET == "#(" + "get" + [' '] + "currentValue" + ")"
  {
  }

  /** The middle call of the fixture. */
  lemma SumLayout()
    ensures SUM == "#(" + "sum" + [' '] + GET + " | " + "1" + ")"
  {
  }

  /** The names of the fixture are names and its plain fields are words. */
  lemma FixtureWords()
    ensures Name(MAIN_NAME) && Name("sum") && Name("get") && Word("currentValue") && Word("1")
  {
    MainNameChars();
  }

  /**
   * The fixture: `#(sum #(get currentValue) | 1)`, wrapped in the main task
   * with a space separator, gives one task, `MAIN_FUNCTION`, whose one
   * overload is `sum`; `sum` has the two fields `#(get currentValue)` and
   * `1`, and among its overloads `get`, found first in its first field.
   */
  lemma ReferenceFixture()
    ensures var tokens := Scan(Wrap(SUM, true, ' '), ' ', [], 0).nodes;
      && |tokens| == 1 && tokens[0].name == MAIN_NAME && tokens[0].fields == Some([SUM])
      && |tokens[0].overloads| == 1
      && var sum := tokens[0].overloads[0];
         && sum.name == "sum" && sum.fields == Some([GET, "1"]) && sum.isClosed
         && sum.parentId == Some(tokens[0].id) && sum.from == Some(0) && sum.path == [MAIN_NAME]
         && |sum.overloads| > 0
         && sum.overloads[0].name == "get" && sum.overloads[0].fields == Some(["currentValue"])
         && sum.overloads[0].parentId == Some(sum.id) && sum.overloads[0].from == Some(0)
         && sum.overloads[0].path == [MAIN_NAME, "sum"]
  {
    FixtureLayout();
    FixtureWords();
    NestedFixture(MAIN_NAME, "sum", "get", "currentValue", "1", ' ', GET, SUM, Wrap(SUM, true, ' '));
  }

  /** A task with a name and plain fields reads back from its print with exactly those fields. */
  lemma WordsTask(name: string, negated: bool, fs: seq<string>, separator: char, x: string)
    requires separator in SEPARATORS && Name(name) && fs != []
    requires forall i :: 0 <= i < |fs| ==> Word(fs[i])
    requires x == ToString(Shaped(name, negated, fs), separator)
    ensures var tasks := Scan(x, separator, [], 0).nodes;
            && |tasks| == 1 && tasks[0].name == name && tasks[0].fields == Some(fs) && tasks[0].isClosed
            && tasks[0].IsNegated() == negated && !tasks[0].IsHandled()
  {
    forall i | 0 <= i < |fs|
      ensures Printable(fs[i])
    {
      PlainPrintable(fs[i]);
    }
    assert Word(fs[0]);
    RescanToString(Shaped(name, negated, fs), separator, [], 0);
  }

  /** With `:` as separator, `#(name:a | b)` is one closed task `name` with the fields `a` and `b`. */
  lemma ColonSeparator()
    ensures var tasks := Scan("#(name:a | b)", ':', [], 0).nodes;
            |tasks| == 1 && tasks[0].name == "name" && tasks[0].fields == Some(["a", "b"]) && tasks[0].isClosed
  {
    WordsTask("name", false, ["a", "b"], ':', "#(name:a | b)");
  }

  /** `#!(x y)` is negated and not handled, with the one field `y`. */
  lemma NegatedTask()
    ensures var tasks := Scan("#!(x y)", ' ', [], 0).nodes;
            && |tasks| == 1 && tasks[0].name == "x" && tasks[0].IsNegated() && !tasks[0].IsHandled()
            && tasks[0].fields == Some(["y"])
  {
    WordsTask("x", true, ["y"], ' ', "#!(x y)");
  }

  /** `#(foo bar` never closes: one task `foo`, not closed, without an end, with the field `bar`; nothing fails. */
  lemma UnclosedFoo()
    ensures var tasks := Scan("#(foo bar", ' ', [], 0).nodes;
            && |tasks| == 1 && tasks[0].name == "foo" && !tasks[0].isClosed && tasks[0].end.None?
            && tasks[0].fields == Some(["bar"])
  {
    assert OpenText("foo", ' ', "bar") == "#(foo bar";
    assert Plain("bar");
    Unclosed("foo", ' ', "bar", [], 0);
    TrimBare("bar");
  }
}
