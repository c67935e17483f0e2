/**
 * What the body loop of `#parseInside` computes, stated independently of the
 * loop: the body text read is cut at every `|` met at depth 1 and nowhere
 * else, every cut piece is trimmed, and the last piece is kept only when its
 * untrimmed text is non-empty.
 */
module Fields {
  import opened Text
  import opened Scanner

  /** The parenthesis depth reached after reading `text` from depth 1. */
  function Depth(text: string): int {
    if text == [] then 1 else Step(Depth(text[..|text| - 1]), text[|text| - 1])
  }

  /**
   * The untrimmed pieces of a body text: a new piece begins after every `|`
   * read at depth 1, and every other character goes to the piece being
   * collected. There is always at least that one.
   */
  function Pieces(text: string): (p: seq<string>)
    ensures p != []
  {
    if text == [] then [""]
    else
      var init := Pieces(text[..|text| - 1]);
      var c := text[|text| - 1];
      if c == '|' && Depth(text[..|text| - 1]) == 1 then init + [""]
      else init[..|init| - 1] + [init[|init| - 1] + [c]]
  }

  /** Each piece trimmed, in order. */
  function TrimAll(raws: seq<string>): seq<string> {
    if raws == [] then [] else TrimAll(raws[..|raws| - 1]) + [Trim(raws[|raws| - 1])]
  }

  /** The positions of `text` where a piece ends: a `|` read at depth 1. */
  function Cuts(text: string): set<nat> {
    set k: nat | k < |text| && text[k] == '|' && Depth(text[..k]) == 1
  }

  /** The fields of a body whose text splits into `p`: all pieces trimmed, the last one only if it is non-empty. */
  function FieldsOf(p: seq<string>): seq<string>
    requires p != []
  {
    TrimAll(p[..|p| - 1]) + if p[|p| - 1] != "" then [Trim(p[|p| - 1])] else []
  }

  /** `TrimAll` keeps the number of pieces and trims each one where it stands. */
  lemma {:induction false} TrimAllEach(raws: seq<string>)
    ensures |TrimAll(raws)| == |raws|
    ensures forall i :: 0 <= i < |raws| ==> TrimAll(raws)[i] == Trim(raws[i])
  {
    if raws != [] {
      TrimAllEach(raws[..|raws| - 1]);
    }
  }

  /** Reading one more character either starts a new piece or extends the last one. */
  lemma PiecesSnoc(text: string, c: char)
    ensures Depth(text + [c]) == Step(Depth(text), c)
    ensures var p := Pieces(text);
            Pieces(text + [c]) == if c == '|' && Depth(text) == 1 then p + [""]
                                  else p[..|p| - 1] + [p[|p| - 1] + [c]]
  {
    assert (text + [c])[..|text|] == text;
  }

  /** The variables of the body loop after reading `input[start..i]` at depth `depth` match the pieces of that text. */
  predicate Follows(input: string, start: nat, i: nat, depth: int, args: seq<string>, cur: string) {
    && start <= i <= |input|
    && var p := Pieces(input[start..i]);
       depth == Depth(input[start..i]) && args == TrimAll(p[..|p| - 1]) && cur == p[|p| - 1]
  }

  /** Reading a `|` that leaves the depth at 1 cuts: the trimmed piece joins `args` and a new piece starts. */
  lemma FollowsCut(input: string, start: nat, i: nat, depth: int, args: seq<string>, cur: string)
    requires i < |input| && Follows(input, start, i, depth, args, cur)
    requires input[i] == '|' && Step(depth, '|') == 1
    ensures Follows(input, start, i + 1, 1, args + [Trim(cur)], "")
  {
    var text := input[start..i];
    var p := Pieces(text);
    assert input[start..i + 1] == text + ['|'];
    PiecesSnoc(text, '|');
    assert (p + [""])[..|p|] == p;
    assert p[..|p| - 1] + [p[|p| - 1]] == p;
  }

  /** Reading any other character adds it to the piece being collected. */
  lemma FollowsKeep(input: string, start: nat, i: nat, depth: int, args: seq<string>, cur: string)
    requires i < |input| && Follows(input, start, i, depth, args, cur)
    requires !(input[i] == '|' && Step(depth, input[i]) == 1)
    ensures Follows(input, start, i + 1, Step(depth, input[i]), args, cur + [input[i]])
  {
    var c := input[i];
    var text := input[start..i];
    var p := Pieces(text);
    assert input[start..i + 1] == text + [c];
    PiecesSnoc(text, c);
    var q := p[..|p| - 1] + [cur + [c]];
    assert q[..|q| - 1] == p[..|p| - 1];
  }

  /**
   * The body loop, resumed at `i` with the variables it has after reading
   * `input[start..i]`, keeps them equal to the pieces of the text read: the
   * trimmed pieces cut so far and the piece being collected. When it stops on
   * `)` the text read ends at depth 1.
   */
  lemma {:induction false} SplitLoopFollowsPieces(input: string, start: nat, i: nat, depth: int,
                                                  args: seq<string>, cur: string)
    requires depth >= 1 && Follows(input, start, i, depth, args, cur)
    ensures var r := SplitLoop(input, i, depth, args, cur);
            Follows(input, start, r.pos, if r.pos < |input| then 1 else r.depth, r.args, r.cur)
    decreases |input| - i, 1
  {
    if i < |input| {
      var c := input[i];
      var d := Step(depth, c);
      if d == 0 && c == ')' {
      } else if c == '|' && d == 1 {
        CutThenFollows(input, start, i, depth, args, cur);
      } else {
        KeepThenFollows(input, start, i, depth, args, cur);
      }
    }
  }

  /** `SplitLoopFollowsPieces` when the loop cuts at `i` and goes on. */
  lemma {:induction false} CutThenFollows(input: string, start: nat, i: nat, depth: int,
                                          args: seq<string>, cur: string)
    requires i < |input| && depth >= 1 && Follows(input, start, i, depth, args, cur)
    requires input[i] == '|' && Step(depth, '|') == 1
    ensures var r := SplitLoop(input, i, depth, args, cur);
            Follows(input, start, r.pos, if r.pos < |input| then 1 else r.depth, r.args, r.cur)
    decreases |input| - i, 0
  {
    FollowsCut(input, start, i, depth, args, cur);
    SplitLoopFollowsPieces(input, start, i + 1, 1, args + [Trim(cur)], "");
  }

  /** `SplitLoopFollowsPieces` when the loop keeps the character at `i` and goes on. */
  lemma {:induction false} KeepThenFollows(input: string, start: nat, i: nat, depth: int,
                                           args: seq<string>, cur: string)
    requires i < |input| && depth >= 1 && Follows(input, start, i, depth, args, cur)
    requires !(input[i] == '|' && Step(depth, input[i]) == 1) && !(Step(depth, input[i]) == 0 && input[i] == ')')
    ensures var r := SplitLoop(input, i, depth, args, cur);
            Follows(input, start, r.pos, if r.pos < |input| then 1 else r.depth, r.args, r.cur)
    decreases |input| - i, 0
  {
    FollowsKeep(input, start, i, depth, args, cur);
    SplitLoopFollowsPieces(input, start, i + 1, Step(depth, input[i]), args, cur + [input[i]]);
  }


  /**
   * The fields `#parseInside` finds for a body that begins at `start` are the
   * fields of the pieces of the text up to where its loop stopped; when it
   * stopped on `)`, that text ends at depth 1, so the `)` closes the body.
   */
  lemma BodyIsPieces(input: string, start: nat)
    requires start <= |input|
    ensures var b := ScanBody(input, start);
            && b.fields == FieldsOf(Pieces(input[start..b.end]))
            && (b.end < |input| ==> Depth(input[start..b.end]) == 1)
  {
    assert input[start..start] == [];
    assert Follows(input, start, start, 1, [], "");
    SplitLoopFollowsPieces(input, start, start, 1, [], "");
  }

  /** `BodyIsPieces` for a body whose loop is known to stop at `end`. */
  lemma BodyIsPiecesAt(input: string, start: nat, end: nat)
    requires start <= |input| && ScanBody(input, start).end == end
    ensures ScanBody(input, start).fields == FieldsOf(Pieces(input[start..end]))
  {
    BodyIsPieces(input, start);
  }

  /**
   * The fallback of the source that appends a `)` to the last piece when the
   * loop ends at depth 1 on a `)` never fires: the loop never stops at depth 1
   * with the cursor on `)`, and it stops at depth 0 exactly on a `)`.
   */
  lemma FallbackNeverFires(input: string, start: nat)
    requires start <= |input|
    ensures var s := SplitLoop(input, start, 1, [], "");
            && !(s.depth == 1 && At(input, s.pos, ')'))
            && (s.depth == 0 <==> At(input, s.pos, ')'))
  {
  }

  /** Joining the pieces with `|` gives back the text: cutting loses nothing but the cut characters. */
  lemma {:induction false} PiecesJoin(text: string)
    ensures Join(Pieces(text), "|") == text
    decreases |text|
  {
    if text != [] {
      var pre := text[..|text| - 1];
      var c := text[|text| - 1];
      PiecesJoin(pre);
      assert text == pre + [c];
      PiecesSnoc(pre, c);
      if c == '|' && Depth(pre) == 1 {
        JoinSnoc(Pieces(pre), "", "|");
      } else {
        JoinGrowLast(Pieces(pre), c, "|");
      }
    }
  }

  /** Adding a character to the last part adds it to the end of the joined text. */
  lemma JoinGrowLast(p: seq<string>, c: char, glue: string)
    requires p != []
    ensures Join(p[..|p| - 1] + [p[|p| - 1] + [c]], glue) == Join(p, glue) + [c]
  {
    var init := p[..|p| - 1];
    assert p == init + [p[|p| - 1]];
    JoinSnoc(init, p[|p| - 1], glue);
    JoinSnoc(init, p[|p| - 1] + [c], glue);
  }

  /** Reading one more character adds its position to the cuts exactly when it is a `|` at depth 1. */
  lemma CutsSnoc(text: string, c: char)
    ensures Cuts(text + [c]) == Cuts(text) + if c == '|' && Depth(text) == 1 then {|text|} else {}
  {
    var t := text + [c];
    var added: set<nat> := if c == '|' && Depth(text) == 1 then {|text|} else {};
    forall k: nat
      ensures k in Cuts(t) <==> k in Cuts(text) + added
    {
      if k < |text| {
        assert t[..k] == text[..k] && t[k] == text[k];
      } else if k == |text| {
        assert t[..k] == text;
      }
    }
  }

  /** There is one piece more than there are `|` read at depth 1: no other character starts a piece. */
  lemma {:induction false} PiecesCount(text: string)
    ensures |Pieces(text)| == |Cuts(text)| + 1
    decreases |text|
  {
    if text != [] {
      var pre := text[..|text| - 1];
      var c := text[|text| - 1];
      assert text == pre + [c];
      PiecesCount(pre);
      PiecesSnoc(pre, c);
      CutsSnoc(pre, c);
      assert |pre| !in Cuts(pre);
    }
  }

  /** A field as `#parseInside` keeps it: it neither begins nor ends with whitespace, and trimming it again changes nothing. */
  predicate IsTrimmed(f: string) {
    Trim(f) == f && (f == [] || (!IsWhitespace(f[0]) && !IsWhitespace(f[|f| - 1])))
  }

  /** Every field of a body is trimmed. */
  lemma FieldsTrimmed(input: string, start: nat)
    requires start <= |input|
    ensures var fields := ScanBody(input, start).fields;
            forall i :: 0 <= i < |fields| ==> IsTrimmed(fields[i])
  {
    BodyIsPieces(input, start);
    PiecesTrimmed(Pieces(input[start..ScanBody(input, start).end]));
  }

  /** Every field the pieces `p` give is trimmed. */
  lemma PiecesTrimmed(p: seq<string>)
    requires p != []
    ensures forall i :: 0 <= i < |FieldsOf(p)| ==> IsTrimmed(FieldsOf(p)[i])
  {
    FieldsOfEach(p);
    forall i | 0 <= i < |FieldsOf(p)|
      ensures IsTrimmed(FieldsOf(p)[i])
    {
      TrimmedField(p[i]);
    }
  }

  /** Field `i` of the pieces `p` is piece `i` trimmed. */
  lemma FieldsOfEach(p: seq<string>)
    requires p != []
    ensures |FieldsOf(p)| <= |p|
    ensures forall i :: 0 <= i < |FieldsOf(p)| ==> FieldsOf(p)[i] == Trim(p[i])
  {
    TrimAllEach(p[..|p| - 1]);
  }

  /** A trimmed text neither begins nor ends with whitespace, and trimming it again changes nothing. */
  lemma TrimmedField(raw: string)
    ensures IsTrimmed(Trim(raw))
  {
    TrimIdempotent(raw);
    TrimShape(raw);
  }
}
