/**
 * Characters and strings as the scanner sees them: reading one character at a
 * cursor, the name character class, and the two JavaScript string helpers it
 * calls (`String.prototype.trim` and `Array.prototype.join`).
 */
module Text {

  /**
   * The character at `i` is `c`. Past the end of its input the scanner reads the
   * string "undefined", which is equal to none of the single characters it ever
   * compares against, so `At` is simply false there.
   */
  predicate At(s: string, i: int, c: char) {
    0 <= i < |s| && s[i] == c
  }

  /** The character class [a-zA-Z_\-0-9] that task names are made of. */
  predicate IsNameChar(c: char) {
    ('a' <= c <= 'z') || ('A' <= c <= 'Z') || ('0' <= c <= '9') || c == '_' || c == '-'
  }

  /**
   * The characters `String.prototype.trim` removes: ECMAScript WhiteSpace
   * (tab, vertical tab, form feed, the byte order mark and every space separator)
   * and LineTerminator (line feed, carriage return, line and paragraph separator).
   */
  predicate IsWhitespace(c: char) {
    || c == '\t' || c == '\n' || c == '\U{000B}' || c == '\U{000C}' || c == '\r'
    || c == ' ' || c == '\U{00A0}' || c == '\U{1680}' || ('\U{2000}' <= c <= '\U{200A}')
    || c == '\U{2028}' || c == '\U{2029}' || c == '\U{202F}' || c == '\U{205F}'
    || c == '\U{3000}' || c == '\U{FEFF}'
  }

  /** Length of the run of whitespace that begins `s`. */
  function LeadingSpace(s: string): (k: nat)
    ensures k <= |s|
  {
    if s != [] && IsWhitespace(s[0]) then 1 + LeadingSpace(s[1..]) else 0
  }

  /** `LeadingSpace` counts whitespace only, and stops at the first other character. */
  lemma {:induction false} LeadingSpaceRun(s: string)
    ensures forall i :: 0 <= i < LeadingSpace(s) ==> IsWhitespace(s[i])
    ensures LeadingSpace(s) < |s| ==> !IsWhitespace(s[LeadingSpace(s)])
  {
    if s != [] && IsWhitespace(s[0]) {
      LeadingSpaceRun(s[1..]);
    }
  }

  /** Index at which the run of whitespace that ends `s` begins. */
  function TrailingSpace(s: string): (k: nat)
    ensures k <= |s|
  {
    if s != [] && IsWhitespace(s[|s| - 1]) then TrailingSpace(s[..|s| - 1]) else |s|
  }

  /** `TrailingSpace` skips whitespace only, and stops after the last other character. */
  lemma {:induction false} TrailingSpaceRun(s: string)
    ensures forall i :: TrailingSpace(s) <= i < |s| ==> IsWhitespace(s[i])
    ensures 0 < TrailingSpace(s) ==> !IsWhitespace(s[TrailingSpace(s) - 1])
  {
    if s != [] && IsWhitespace(s[|s| - 1]) {
      TrailingSpaceRun(s[..|s| - 1]);
    }
  }

  /** `s.trim()`: `s` without its leading and trailing whitespace (see `TrimShape`). */
  function Trim(s: string): (r: string)
    ensures |r| <= |s|
  {
    var a := LeadingSpace(s);
    s[a..][..TrailingSpace(s[a..])]
  }

  /**
   * The trimmed string is a slice of `s` with only whitespace around it, and it
   * neither begins nor ends with whitespace.
   */
  lemma TrimShape(s: string)
    ensures var r := Trim(s);
      && (r == [] || (!IsWhitespace(r[0]) && !IsWhitespace(r[|r| - 1])))
      && exists i :: 0 <= i <= |s| - |r| && r <= s[i..]
                     && (forall k :: 0 <= k < i ==> IsWhitespace(s[k]))
                     && (forall k :: i + |r| <= k < |s| ==> IsWhitespace(s[k]))
  {
    var a := LeadingSpace(s);
    var t := s[a..];
    var b := TrailingSpace(t);
    LeadingSpaceRun(s);
    TrailingSpaceRun(t);
    assert t[..b] <= s[a..];
    assert forall k :: a + b <= k < |s| ==> s[k] == t[k - a];
  }

  /** Trimming twice trims nothing more. */
  lemma TrimIdempotent(s: string)
    ensures Trim(Trim(s)) == Trim(s)
  {
    var r := Trim(s);
    TrimShape(s);
    if r != [] {
      assert LeadingSpace(r) == 0;
      assert r[0..] == r;
      assert TrailingSpace(r) == |r|;
    }
  }

  /** A string with no whitespace at either end is its own trim. */
  lemma TrimBare(s: string)
    requires s != [] && !IsWhitespace(s[0]) && !IsWhitespace(s[|s| - 1])
    ensures Trim(s) == s
  {
    assert LeadingSpace(s) == 0;
    assert s[0..] == s;
    assert TrailingSpace(s) == |s|;
  }

  /** A trimmed string padded with a space on either side or both trims back to itself. */
  lemma TrimPadded(s: string)
    requires Trim(s) == s
    ensures Trim(" " + s) == s && Trim(s + " ") == s && Trim(" " + s + " ") == s
  {
    var l, r, b := " " + s, s + " ", " " + s + " ";
    assert l[1..] == s && b[1..] == r;
    assert r[..|s|] == s;
    if s == [] {
      assert LeadingSpace(r) == 1;
    } else {
      TrimShape(s);
      assert LeadingSpace(s) == 0;
      assert TrailingSpace(s) == |s|;
      assert LeadingSpace(r) == 0;
      assert TrailingSpace(r) == |s|;
      assert r[0..] == r && s[0..] == s;
    }
  }

  /** `parts.join(glue)`. */
  function Join(parts: seq<string>, glue: string): string {
    if |parts| == 0 then ""
    else if |parts| == 1 then parts[0]
    else parts[0] + glue + Join(parts[1..], glue)
  }

  /** Joining one more part appends the glue and that part. */
  lemma {:induction false} JoinSnoc(parts: seq<string>, last: string, glue: string)
    ensures Join(parts + [last], glue) == if parts == [] then last else Join(parts, glue) + glue + last
  {
    if |parts| > 1 {
      assert (parts + [last])[1..] == parts[1..] + [last];
      JoinSnoc(parts[1..], last, glue);
    } else if |parts| == 1 {
      assert (parts + [last])[1..] == [last];
    }
  }
}
