/**
 * Scanning what `toString` prints gives the task back. A field prints as text
 * that, read inside a body, never stops the body loop or cuts it (it is
 * `Balanced`); a printed task whose fields are balanced is balanced itself, so
 * printed tasks nest.
 */
module Rescan {
  import opened Options
  import opened Text
  import opened Tasks
  import opened Scanner
  import opened Fields

  /** Every `c` in `text`, read from depth `depth`, is met at depth 2 or more. */
  predicate Guarded(text: string, depth: int, c: char) {
    forall k :: 0 <= k < |text| && text[k] == c ==> depth + Depth(text[..k]) - 1 >= 2
  }

  /**
   * Text that reads as part of a single field: read from depth 1 it never meets
   * a `)` or a `|` at depth 1, and it ends at depth 1.
   */
  predicate Balanced(f: string) {
    Depth(f) == 1 && Guarded(f, 1, ')') && Guarded(f, 1, '|')
  }

  /** A field `toString` can print so that it reads back: balanced, and already trimmed. */
  predicate Printable(f: string) {
    Balanced(f) && Trim(f) == f
  }

  /** No parenthesis and no `|`. */
  predicate Plain(text: string) {
    forall k :: 0 <= k < |text| ==> text[k] != '(' && text[k] != ')' && text[k] != '|'
  }

  /** Depths add up over a concatenation. */
  lemma {:induction false} DepthAppend(a: string, b: string)
    ensures Depth(a + b) == Depth(a) + Depth(b) - 1
    decreases |b|
  {
    if b == [] {
      assert a + b == a;
    } else {
      var init := b[..|b| - 1];
      var ab := a + b;
      assert ab[..|ab| - 1] == a + init && ab[|ab| - 1] == b[|b| - 1];
      DepthAppend(a, init);
    }
  }

  /** A guard on `a` and a guard on `b`, read from where `a` leaves off, guard `a + b`. */
  lemma GuardedAppend(a: string, b: string, depth: int, c: char)
    requires Guarded(a, depth, c) && Guarded(b, depth + Depth(a) - 1, c)
    ensures Guarded(a + b, depth, c)
  {
    var ab := a + b;
    forall k | 0 <= k < |ab| && ab[k] == c
      ensures depth + Depth(ab[..k]) - 1 >= 2
    {
      if k < |a| {
        assert ab[..k] == a[..k];
      } else {
        assert ab[..k] == a + b[..k - |a|];
        assert b[k - |a|] == c;
        DepthAppend(a, b[..k - |a|]);
      }
    }
  }

  /** Plain text keeps the depth at 1 all along. */
  lemma {:induction false} PlainDepth(text: string)
    requires Plain(text)
    ensures Depth(text) == 1
    decreases |text|
  {
    if text != [] {
      var init := text[..|text| - 1];
      assert Plain(init) by {
        forall k | 0 <= k < |init| ensures init[k] == text[k] { }
      }
      PlainDepth(init);
    }
  }

  /** Plain text is balanced, and needs no guard from any depth. */
  lemma PlainBalanced(text: string, depth: int)
    requires Plain(text)
    ensures Balanced(text) && Guarded(text, depth, ')') && Guarded(text, depth, '|')
  {
    PlainDepth(text);
  }

  /** The glue `toString` puts between fields reads at depth 1, and its `|` is guarded once inside a body. */
  lemma GlueFacts()
    ensures Depth(" | ") == 1 && Guarded(" | ", 1, ')') && Guarded(" | ", 2, '|')
  {
    var g := " | ";
    assert g[..0] == [] && g[..1] == " " && g[..2] == " |" && g[..3] == g;
    assert Depth(" ") == 1;
    assert Depth(" |") == 1;
    forall k | 0 <= k < 3 && g[k] == '|'
      ensures 2 + Depth(g[..k]) - 1 >= 2
    {
      assert k == 1;
    }
  }

  /**
   * Started at `i` at depth `depth`, the body loop stops on the `)` at `j` when
   * the text in between never meets a `)` at depth 1 and brings the depth back
   * to 1.
   */
  lemma {:induction false} SplitLoopStopsAt(input: string, i: nat, depth: int, args: seq<string>, cur: string, j: nat)
    requires i <= j < |input| && depth >= 1 && input[j] == ')'
    requires Guarded(input[i..j], depth, ')') && depth + Depth(input[i..j]) - 1 == 1
    ensures SplitLoop(input, i, depth, args, cur).pos == j
    decreases j - i
  {
    var t := input[i..j];
    if i < j {
      var c := input[i];
      var u := input[i + 1..j];
      var d := Step(depth, c);
      assert t == [c] + u && t[..0] == [];
      assert Depth([c]) == Step(1, c) by { assert [c][..0] == []; }
      DepthAppend([c], u);
      forall k | 0 <= k < |u| && u[k] == ')'
        ensures d + Depth(u[..k]) - 1 >= 2
      {
        assert t[k + 1] == ')' && t[..k + 1] == [c] + u[..k];
        DepthAppend([c], u[..k]);
      }
      if c == '|' && d == 1 {
        SplitLoopStopsAt(input, i + 1, d, args + [Trim(cur)], "", j);
      } else {
        SplitLoopStopsAt(input, i + 1, d, args, cur + [c], j);
      }
    }
  }

  /** Appending a character after appending text. */
  lemma SnocAssoc(t: string, v: string, c: char)
    ensures t + (v + [c]) == (t + v) + [c]
  {
  }

  /** One guarded character more goes to the last piece. */
  lemma PiecesGuardedStep(t: string, v: string, c: char)
    requires var p := Pieces(t); Pieces(t + v) == p[..|p| - 1] + [p[|p| - 1] + v]
    requires c == '|' ==> Depth(t) + Depth(v) - 1 >= 2
    ensures var p := Pieces(t); Pieces(t + (v + [c])) == p[..|p| - 1] + [p[|p| - 1] + (v + [c])]
  {
    var p := Pieces(t);
    SnocAssoc(t, v, c);
    PiecesSnoc(t + v, c);
    DepthAppend(t, v);
    SnocAssoc(p[|p| - 1], v, c);
    LastGrows(Pieces(t + v), p[..|p| - 1], p[|p| - 1] + v, [c]);
  }


  /** Text whose `|` are all guarded adds to the last piece and cuts nothing. */
  lemma {:induction false} PiecesAppendGuarded(t: string, u: string)
    requires Guarded(u, Depth(t), '|')
    ensures var p := Pieces(t);
            Pieces(t + u) == p[..|p| - 1] + [p[|p| - 1] + u]
    decreases |u|
  {
    var p := Pieces(t);
    if u == [] {
      assert t + u == t && p[|p| - 1] + u == p[|p| - 1];
      assert p[..|p| - 1] + [p[|p| - 1]] == p;
    } else {
      var v := u[..|u| - 1];
      var c := u[|u| - 1];
      forall k | 0 <= k < |v| && v[k] == '|'
        ensures Depth(t) + Depth(v[..k]) - 1 >= 2
      {
        assert u[k] == v[k] && u[..k] == v[..k];
      }
      PiecesAppendGuarded(t, v);
      assert u[..|v|] == v && u == v + [c];
      PiecesGuardedStep(t, v, c);
    }
  }

  /** Balanced fields joined by `toString`'s glue read at depth 1, and none of their `|` cuts a body they are printed in. */
  lemma {:induction false} JoinBalanced(fs: seq<string>)
    requires forall i :: 0 <= i < |fs| ==> Balanced(fs[i])
    ensures var j := Join(fs, " | ");
            Depth(j) == 1 && Guarded(j, 1, ')') && Guarded(j, 2, '|')
    decreases |fs|
  {
    if fs != [] {
      var init := fs[..|fs| - 1];
      var f := fs[|fs| - 1];
      assert fs == init + [f];
      JoinSnoc(init, f, " | ");
      assert Balanced(f);
      if init != [] {
        JoinBalanced(init);
        var a := Join(init, " | ");
        GlueFacts();
        DepthAppend(a, " | ");
        GuardedAppend(a, " | ", 1, ')');
        GuardedAppend(a, " | ", 2, '|');
        DepthAppend(a + " | ", f);
        GuardedAppend(a + " | ", f, 1, ')');
        GuardedAppend(a + " | ", f, 2, '|');
      }
    }
  }

  /** The raw pieces of joined fields: every field but the first gains a leading space, every one but the last a trailing one. */
  function Padded(fs: seq<string>): (p: seq<string>)
    requires fs != []
  {
    seq(|fs|, i requires 0 <= i < |fs| => (if 0 < i then " " else "") + fs[i] + (if i < |fs| - 1 then " " else ""))
  }

  /** Cutting joined balanced fields gives each field back, padded with the spaces of the glue. */
  lemma {:induction false} PiecesOfJoin(fs: seq<string>)
    requires fs != [] && forall i :: 0 <= i < |fs| ==> Balanced(fs[i])
    ensures Pieces(Join(fs, " | ")) == Padded(fs)
    decreases |fs|
  {
    var init := fs[..|fs| - 1];
    var f := fs[|fs| - 1];
    assert fs == init + [f];
    assert Balanced(f);
    JoinSnoc(init, f, " | ");
    if init == [] {
      assert "" + f == f && "" + f + "" == f;
      PiecesAppendGuarded("", f);
    } else {
      PiecesOfJoin(init);
      JoinBalanced(init);
      PiecesGlue(Join(init, " | "), f);
      PaddedSnoc(init, f);
    }
  }

  /** The ` |` of the glue, read at depth 1, adds a space to the last piece and starts an empty one. */
  lemma PiecesBar(a: string)
    requires Depth(a) == 1
    ensures var p := Pieces(a);
            Depth(a + " |") == 1 && Pieces(a + " |") == p[..|p| - 1] + [p[|p| - 1] + " "] + [""]
  {
    assert Guarded(" ", 1, '|');
    PiecesAppendGuarded(a, " ");
    DepthAppend(a, " ");
    assert a + " |" == (a + " ") + ['|'];
    PiecesSnoc(a + " ", '|');
  }

  /** A balanced field padded on its left by one space still guards all its `|`. */
  lemma PaddedGuarded(f: string)
    requires Balanced(f)
    ensures Guarded(" " + f, 1, '|')
  {
    assert Guarded(" ", 1, '|');
    GuardedAppend(" ", f, 1, '|');
  }

  /** Gluing a balanced field on: the last piece gains a space and the field, padded on its left, is a new piece. */
  lemma PiecesGlue(a: string, f: string)
    requires Depth(a) == 1 && Balanced(f)
    ensures var p := Pieces(a);
            Pieces(a + " | " + f) == p[..|p| - 1] + [p[|p| - 1] + " "] + [" " + f]
  {
    var p := Pieces(a);
    PiecesBar(a);
    PaddedGuarded(f);
    GlueText(a, f);
    GuardedAfterCut(a + " |", " " + f, p[..|p| - 1] + [p[|p| - 1] + " "]);
  }

  /** The glue splits around its bar. */
  lemma GlueText(a: string, f: string)
    ensures a + " | " + f == (a + " |") + (" " + f)
  {
  }

  /** Guarded text after a cut is the whole of the last piece. */
  lemma GuardedAfterCut(b: string, g: string, q: seq<string>)
    requires Depth(b) == 1 && Pieces(b) == q + [""] && Guarded(g, 1, '|')
    ensures Pieces(b + g) == q + [g]
  {
    PiecesAppendGuarded(b, g);
    LastGrows(Pieces(b), q, "", g);
    assert "" + g == g;
  }

  /** Adding text to the last of `init + [last]` leaves `init` alone. */
  lemma LastGrows(r: seq<string>, init: seq<string>, last: string, g: string)
    requires r == init + [last]
    ensures r[..|r| - 1] + [r[|r| - 1] + g] == init + [last + g]
  {
    assert r[..|r| - 1] == init;
  }


  /** Padding one more field puts a space after the last one and pads the new one on its left. */
  lemma PaddedSnoc(fs: seq<string>, f: string)
    requires fs != []
    ensures var p := Padded(fs);
            Padded(fs + [f]) == p[..|p| - 1] + [p[|p| - 1] + " "] + [" " + f]
  {
    var p := Padded(fs);
    var q := p[..|p| - 1] + [p[|p| - 1] + " "] + [" " + f];
    var r := Padded(fs + [f]);
    forall i | 0 <= i < |r|
      ensures r[i] == q[i]
    {
      if i == |fs| {
        assert " " + f + "" == " " + f;
      } else if i == |fs| - 1 {
        assert (fs + [f])[i] == fs[i];
        var pre := if 0 < i then " " else "";
        assert p[i] == pre + fs[i] + "";
        assert pre + fs[i] + "" + " " == pre + fs[i] + " ";
      }
    }
  }

  /** Each padded piece of a trimmed field trims back to the field. */
  lemma PaddedTrim(fs: seq<string>, i: nat)
    requires i < |fs| && Trim(fs[i]) == fs[i]
    ensures Trim(Padded(fs)[i]) == fs[i]
  {
    var f := fs[i];
    TrimPadded(f);
    if 0 < i && i < |fs| - 1 {
      assert Padded(fs)[i] == " " + f + " ";
    } else if 0 < i {
      assert Padded(fs)[i] == " " + f + "" == " " + f;
    } else if i < |fs| - 1 {
      assert Padded(fs)[i] == "" + f + " " == f + " ";
    } else {
      assert Padded(fs)[i] == "" + f + "" == f;
    }
  }

  /** The last padded piece is empty only for a list of one empty field. */
  lemma PaddedLast(fs: seq<string>)
    requires fs != [] && fs != [""]
    ensures Padded(fs)[|fs| - 1] != ""
  {
    var n := |fs|;
    if n == 1 {
      assert Padded(fs)[0] == "" + fs[0] + "" == fs[0];
    } else {
      assert Padded(fs)[n - 1] == " " + fs[n - 1] + "";
    }
  }

  /** The first `m` padded pieces of trimmed fields trim back to the first `m` fields. */
  lemma {:induction false} TrimAllPadded(fs: seq<string>, m: nat)
    requires fs != [] && m <= |fs| && forall i :: 0 <= i < |fs| ==> Trim(fs[i]) == fs[i]
    ensures TrimAll(Padded(fs)[..m]) == fs[..m]
  {
    if m > 0 {
      var x := Padded(fs)[..m];
      assert x[..m - 1] == Padded(fs)[..m - 1];
      TrimAllPadded(fs, m - 1);
      PaddedTrim(fs, m - 1);
      assert fs[..m] == fs[..m - 1] + [fs[m - 1]];
    }
  }

  /** Trimmed fields come back from their padded pieces, unless the list is one empty field, whose piece is dropped. */
  lemma FieldsOfPadded(fs: seq<string>)
    requires fs != [] && fs != [""] && forall i :: 0 <= i < |fs| ==> Trim(fs[i]) == fs[i]
    ensures FieldsOf(Padded(fs)) == fs
  {
    var n := |fs|;
    var p := Padded(fs);
    assert |p| == n;
    PaddedLast(fs);
    PaddedTrim(fs, n - 1);
    TrimAllPadded(fs, n - 1);
    assert p[..|p| - 1] == p[..n - 1];
    assert TrimAll(p[..|p| - 1]) == fs[..n - 1];
    assert p[|p| - 1] != "" && Trim(p[|p| - 1]) == fs[n - 1];
    assert FieldsOf(p) == fs[..n - 1] + [fs[n - 1]];
    assert fs == fs[..n - 1] + [fs[n - 1]];
  }

  /**
   * Reading back the fields `toString` prints: the body loop cuts the joined
   * balanced, trimmed fields into exactly those fields, with one exception:
   * a list of one empty field prints as nothing and reads back as no field.
   */
  lemma FieldsOfJoin(fs: seq<string>)
    requires forall i :: 0 <= i < |fs| ==> Balanced(fs[i]) && Trim(fs[i]) == fs[i]
    ensures FieldsOf(Pieces(Join(fs, " | "))) == if fs == [""] then [] else fs
  {
    if fs == [] || fs == [""] {
      assert Pieces("") == [""];
    } else {
      PiecesOfJoin(fs);
      FieldsOfPadded(fs);
    }
  }

  /** Appending plain text keeps the depth and every guard. */
  lemma AppendPlain(a: string, b: string, depth: int)
    requires Plain(b)
    ensures Depth(a + b) == Depth(a)
    ensures Guarded(a, depth, ')') ==> Guarded(a + b, depth, ')')
    ensures Guarded(a, depth, '|') ==> Guarded(a + b, depth, '|')
  {
    PlainBalanced(b, depth + Depth(a) - 1);
    DepthAppend(a, b);
    if Guarded(a, depth, ')') {
      GuardedAppend(a, b, depth, ')');
    }
    if Guarded(a, depth, '|') {
      GuardedAppend(a, b, depth, '|');
    }
  }

  /** What `toString` prints up to the name: `#`, the marker, `(`, and the name; it ends at depth 2 with nothing to guard. */
  lemma PrintedOpening(n: Node)
    requires forall i :: 0 <= i < |n.name| ==> IsNameChar(n.name[i])
    ensures var o := "#" + Marker(n) + "(" + n.name;
            Depth(o) == 2 && Guarded(o, 1, ')') && Guarded(o, 1, '|')
  {
    var a := "#" + Marker(n);
    assert Plain(a);
    PlainBalanced(a, 1);
    assert Depth("(") == 2 && Guarded("(", 1, ')') && Guarded("(", 1, '|');
    DepthAppend(a, "(");
    GuardedAppend(a, "(", 1, ')');
    GuardedAppend(a, "(", 1, '|');
    assert Plain(n.name);
    AppendPlain(a + "(", n.name, 1);
  }

  /**
   * A printed task whose name is made of name characters and whose fields are
   * balanced is balanced itself: printed tasks can be nested as fields.
   */
  lemma ToStringBalanced(n: Node, separator: char)
    requires separator in SEPARATORS
    requires forall i :: 0 <= i < |n.name| ==> IsNameChar(n.name[i])
    requires n.fields.Some? ==> forall i :: 0 <= i < |n.fields.value| ==> Balanced(n.fields.value[i])
    ensures Balanced(ToString(n, separator))
  {
    var o := "#" + Marker(n) + "(" + n.name;
    PrintedOpening(n);
    var e := o;
    if n.fields.Some? {
      var j := Join(n.fields.value, " | ");
      assert Plain([separator]);
      AppendPlain(o, [separator], 1);
      JoinBalanced(n.fields.value);
      DepthAppend(o + [separator], j);
      GuardedAppend(o + [separator], j, 1, ')');
      GuardedAppend(o + [separator], j, 1, '|');
      e := o + [separator] + j;
    }
    assert Depth(")") == 0 && Guarded(")", 2, ')') && Guarded(")", 2, '|') by {
      assert ")"[..0] == [];
    }
    DepthAppend(e, ")");
    GuardedAppend(e, ")", 1, ')');
    GuardedAppend(e, ")", 1, '|');
    assert ToString(n, separator) == e + ")";
  }
  /** `#parseTask` at 0 on line 1 reads the head, then finishes after the name. */
  lemma TaskFinish(x: string, separator: char, path: seq<string>, id: nat)
    requires StartsAt(x, 0)
    ensures ScanTask(x, separator, 0, 1, path, id)
            == Finish(x, separator, Head(x, 0, 1, id), NameEnd(x, NameStart(x, 0)), path, id + 1)
  {
  }

  /** An input that is one task from its first character to its last scans to that task alone. */
  lemma ScanSingle(input: string, separator: char, path: seq<string>, id: nat)
    requires StartsAt(input, 0) && ScanTask(input, separator, 0, 1, path, id).pos >= |input|
    ensures Scan(input, separator, path, id).nodes == [ScanTask(input, separator, 0, 1, path, id).node]
  {
    var t := ScanTask(input, separator, 0, 1, path, id);
    var s := LexState(0, 1, path, [], id);
    assert ScanLoop(input, separator, s)
           == ScanLoop(input, separator, LexState(t.pos, 1, t.path, [t.node], t.nextId));
  }



  /** The task `#parseTask` creates at 0, on line 1, for the print of `n`, before it looks past the name. */
  function PrintedHeadNode(n: Node, id: nat): Node {
    Blank(id).(start := Some(0), lines := [1], negated := n.negated, handled := n.handled, isOpened := true, name := n.name)
  }

  /**
   * The head of a printed task: a task starts at 0, its name is the node's
   * name and its flags are the node's flags, and the cursor after the name is
   * where the print goes on.
   */
  lemma PrintedHead(n: Node, rest: string, line: int, id: nat)
    requires !(n.negated && n.handled)
    requires forall i :: 0 <= i < |n.name| ==> IsNameChar(n.name[i])
    requires rest != [] && !IsNameChar(rest[0])
    ensures var x := "#" + Marker(n) + "(" + n.name + rest;
            var ns := 2 + |Marker(n)|;
            && StartsAt(x, 0) && NameStart(x, 0) == ns && NameEnd(x, ns) == ns + |n.name|
            && x[ns + |n.name|..] == rest
            && Head(x, 0, line, id) == Blank(id).(start := Some(0), lines := [line], negated := n.negated,
                                                 handled := n.handled, isOpened := true, name := n.name)
  {
    var m := Marker(n);
    var x := "#" + m + "(" + n.name + rest;
    var ns := 2 + |m|;
    assert x[0] == '#' && x[ns - 1] == '(';
    assert |m| == 1 ==> x[1] == m[0];
    assert x[ns..ns + |n.name|] == n.name && x[ns + |n.name|..] == rest;
    forall j | ns <= j < ns + |n.name|
      ensures IsNameChar(x[j])
    {
      assert x[j] == n.name[j - ns];
    }
    NameEndAt(x, ns, ns + |n.name|);
  }

  /** The task `#parseTask` reads from a print without fields: the head, closed on the `)` that ends the print. */
  lemma PrintedBare(n: Node, separator: char, path: seq<string>, id: nat)
    requires separator in SEPARATORS && n.fields.None?
    requires !(n.negated && n.handled)
    requires forall i :: 0 <= i < |n.name| ==> IsNameChar(n.name[i])
    ensures var x := ToString(n, separator);
            StartsAt(x, 0)
            && ScanTask(x, separator, 0, 1, path, id)
               == TaskScan(PrintedHeadNode(n, id).(isClosed := true, end := Some(|x| - 1)), |x|, path, id + 1)
  {
    var x := ToString(n, separator);
    PrintedHead(n, ")", 1, id);
    var ne := 2 + |Marker(n)| + |n.name|;
    assert x[ne] == ')' && ne == |x| - 1;
  }

  /** A body text that closes at depth 1 on a `)` at `end`, and never meets `)` at depth 1 before, reads as the fields of its pieces. */
  lemma BodyReads(x: string, start: nat, end: nat, fs: seq<string>)
    requires start <= end < |x| && x[end] == ')'
    requires var t := x[start..end];
             Depth(t) == 1 && Guarded(t, 1, ')') && FieldsOf(Pieces(t)) == fs
    ensures ScanBody(x, start).fields == fs && ScanBody(x, start).end == end
  {
    BodyEnds(x, start, end);
    BodyFieldsAt(x, start, end, fs);
  }

  /** A body whose loop stops at `end` reads as the fields of the pieces of its text. */
  lemma BodyFieldsAt(x: string, start: nat, end: nat, fs: seq<string>)
    requires start <= |x| && ScanBody(x, start).end == end
    requires FieldsOf(Pieces(x[start..end])) == fs
    ensures ScanBody(x, start).fields == fs
  {
    BodyIsPiecesAt(x, start, end);
  }

  /** A body text that closes at depth 1 on a `)` at `end`, and never meets `)` at depth 1 before, ends there. */
  lemma BodyEnds(x: string, start: nat, end: nat)
    requires start <= end < |x| && x[end] == ')'
    requires var t := x[start..end]; Depth(t) == 1 && Guarded(t, 1, ')')
    ensures ScanBody(x, start).end == end
  {
    SplitLoopStopsAt(x, start, 1, [], "", end);
  }

  /** Joined balanced, trimmed fields close at depth 1 and cut back into those fields. */
  lemma JoinReads(fs: seq<string>)
    requires fs != [""] && forall i {:trigger Printable(fs[i])} :: 0 <= i < |fs| ==> Printable(fs[i])
    ensures var j := Join(fs, " | ");
            Depth(j) == 1 && Guarded(j, 1, ')') && FieldsOf(Pieces(j)) == fs
  {
    forall i | 0 <= i < |fs|
      ensures Balanced(fs[i]) && Trim(fs[i]) == fs[i]
    {
      assert Printable(fs[i]);
    }
    JoinBalanced(fs);
    FieldsOfJoin(fs);
  }

  /** After the name, a separator and a body read as `fs` up to the `)` ending `x`: the task gets `fs`, closes there, and the cursor leaves `x`. */
  lemma FinishReads(x: string, separator: char, head: Node, ne: nat, path: seq<string>, id: nat, fs: seq<string>)
    requires ne + 1 < |x| && x[ne] == separator && x[|x| - 1] == ')'
    requires ScanBody(x, ne + 1).fields == fs && ScanBody(x, ne + 1).end == |x| - 1
    ensures var kids := ScanFields(fs, separator, path + [head.name], head.id, id);
            Finish(x, separator, head, ne, path, id)
            == TaskScan(head.(fields := Some(fs), inside := Some(Join(fs, " | ")), overloads := kids.nodes,
                              isClosed := true, end := Some(|x| - 1)),
                        |x|, path + [head.name], kids.nextId)
  {
  }

  /** Where a print with fields puts the name's end, the separator, the joined fields and the closing `)`. */
  lemma PrintedLayout(n: Node, separator: char, id: nat)
    requires separator in SEPARATORS && n.fields.Some?
    requires !(n.negated && n.handled)
    requires forall i :: 0 <= i < |n.name| ==> IsNameChar(n.name[i])
    ensures var x := ToString(n, separator);
            var ne := 2 + |Marker(n)| + |n.name|;
            && StartsAt(x, 0) && NameEnd(x, NameStart(x, 0)) == ne && ne + 1 < |x| && x[ne] == separator
            && x[ne + 1..|x| - 1] == Join(n.fields.value, " | ") && x[|x| - 1] == ')'
            && Head(x, 0, 1, id) == PrintedHeadNode(n, id)
  {
    var x := ToString(n, separator);
    var rest := [separator] + Join(n.fields.value, " | ") + ")";
    assert x == "#" + Marker(n) + "(" + n.name + rest;
    PrintedHead(n, rest, 1, id);
  }

  /** A task at 0 whose name ends at `ne`, followed by a separator and printable fields joined up to the `)` ending `x`. */
  lemma TaskReads(x: string, separator: char, path: seq<string>, id: nat, ne: nat, fs: seq<string>)
    requires StartsAt(x, 0) && NameEnd(x, NameStart(x, 0)) == ne
    requires ne + 1 < |x| && x[ne] == separator && x[|x| - 1] == ')'
    requires x[ne + 1..|x| - 1] == Join(fs, " | ")
    requires fs != [""] && forall i {:trigger Printable(fs[i])} :: 0 <= i < |fs| ==> Printable(fs[i])
    ensures var head := Head(x, 0, 1, id);
            var kids := ScanFields(fs, separator, path + [head.name], id, id + 1);
            ScanTask(x, separator, 0, 1, path, id)
            == TaskScan(head.(fields := Some(fs), inside := Some(Join(fs, " | ")), overloads := kids.nodes,
                              isClosed := true, end := Some(|x| - 1)),
                        |x|, path + [head.name], kids.nextId)
  {
    var head := Head(x, 0, 1, id);
    TaskFinish(x, separator, path, id);
    BodyOfJoinReads(x, ne + 1, |x| - 1, fs);
    FinishReads(x, separator, head, ne, path, id + 1, fs);
  }

  /** A body from `start` to a `)` at `end` whose text is printable fields joined reads as those fields. */
  lemma BodyOfJoinReads(x: string, start: nat, end: nat, fs: seq<string>)
    requires start <= end < |x| && x[end] == ')' && x[start..end] == Join(fs, " | ")
    requires fs != [""] && forall i {:trigger Printable(fs[i])} :: 0 <= i < |fs| ==> Printable(fs[i])
    ensures ScanBody(x, start).fields == fs && ScanBody(x, start).end == end
  {
    JoinReads(fs);
    BodyReads(x, start, end, fs);
  }

  /** The task `#parseTask` reads from a print with fields: the head with the fields read back, closed on the last `)`. */
  lemma PrintedWithFields(n: Node, separator: char, path: seq<string>, id: nat)
    requires separator in SEPARATORS && n.fields.Some? && n.fields.value != [""]
    requires !(n.negated && n.handled)
    requires forall i :: 0 <= i < |n.name| ==> IsNameChar(n.name[i])
    requires forall i {:trigger Printable(n.fields.value[i])} :: 0 <= i < |n.fields.value| ==> Printable(n.fields.value[i])
    ensures var x := ToString(n, separator);
            var fs := n.fields.value;
            var kids := ScanFields(fs, separator, path + [n.name], id, id + 1);
            StartsAt(x, 0)
            && ScanTask(x, separator, 0, 1, path, id)
               == TaskScan(PrintedHeadNode(n, id).(fields := Some(fs), inside := Some(Join(fs, " | ")), overloads := kids.nodes,
                                                  isClosed := true, end := Some(|x| - 1)),
                           |x|, path + [n.name], kids.nextId)
  {
    var x := ToString(n, separator);
    var fs := n.fields.value;
    PrintedLayout(n, separator, id);
    TaskReads(x, separator, path, id, 2 + |Marker(n)| + |n.name|, fs);
  }

  /**
   * Scanning what `toString` prints gives the task back: one closed task from
   * the first character to the last, with the node's name, flags and fields,
   * and as overloads the tasks of those fields. Without fields it is the task
   * `#m(name)`. The name must be made of name characters, the task must not
   * be both negated and handled, the fields must be trimmed and balanced, and
   * a list of one empty field is the one list that does not come back, since
   * it prints as nothing.
   */
  lemma RescanToString(n: Node, separator: char, path: seq<string>, id: nat)
    requires separator in SEPARATORS
    requires !(n.negated && n.handled)
    requires forall i :: 0 <= i < |n.name| ==> IsNameChar(n.name[i])
    requires n.fields.Some? ==> n.fields.value != [""]
    requires n.fields.Some? ==> forall i {:trigger Printable(n.fields.value[i])} :: 0 <= i < |n.fields.value| ==> Printable(n.fields.value[i])
    ensures var x := ToString(n, separator);
            var tasks := Scan(x, separator, path, id).nodes;
            && |tasks| == 1
            && tasks[0].id == id && tasks[0].name == n.name
            && tasks[0].negated == n.negated && tasks[0].handled == n.handled
            && tasks[0].fields == n.fields
            && tasks[0].isClosed && tasks[0].start == Some(0) && tasks[0].end == Some(|x| - 1)
            && tasks[0].inside == (if n.fields.Some? then Some(Join(n.fields.value, " | ")) else None)
            && tasks[0].overloads == (if n.fields.Some? then ScanFields(n.fields.value, separator, path + [n.name], id, id + 1).nodes else [])
  {
    var x := ToString(n, separator);
    if n.fields.None? {
      PrintedBare(n, separator, path, id);
    } else {
      PrintedWithFields(n, separator, path, id);
    }
    ScanSingle(x, separator, path, id);
  }
}
