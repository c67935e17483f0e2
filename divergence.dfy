/**
 * The name loop of `#parseTask` as the source writes it. Its test reads the
 * current character as a string, which past the end of the input is
 * "undefined"; that string contains name characters, so once the loop
 * reaches the end of the input it does not stop: it appends "undefined" to
 * the name on every pass until the engine's string-length limit throws.
 * `Scanner.NameEnd` is the loop as intended, stopping at the end of the input.
 */
module Divergence {
  import opened Text
  import opened Scanner

  /** `#c()`: the character at `i` as a one-character string, or "undefined" past the end. */
  function Current(input: string, i: nat): string {
    if i < |input| then [input[i]] else "undefined"
  }

  /** The test of the name loop: a non-empty string in which `[a-zA-Z_\-0-9]` finds a match. */
  predicate NameTest(c: string) {
    c != "" && exists k :: 0 <= k < |c| && IsNameChar(c[k])
  }

  /** Past the end of the input the test of the name loop always passes, so the loop does not stop there. */
  lemma NameTestPastEnd(input: string, i: nat)
    requires i >= |input|
    ensures forall j :: j >= i ==> NameTest(Current(input, j))
  {
    forall j | j >= i
      ensures NameTest(Current(input, j))
    {
      assert Current(input, j)[0] == 'u' && IsNameChar('u');
    }
  }

  /**
   * On the input `#(a` compiled without the main task, the name loop starts
   * at 2 and its test passes at every position from there on: the loop does
   * not stop at the end of the input. The intended loop stops there, with the
   * name `a`.
   */
  lemma UnterminatedName()
    ensures StartsAt("#(a", 0) && NameStart("#(a", 0) == 2
    ensures forall j :: j >= 2 ==> NameTest(Current("#(a", j))
    ensures NameEnd("#(a", 2) == 3
  {
    var x := "#(a";
    assert NameTest(Current(x, 2)) by {
      assert Current(x, 2) == "a" && Current(x, 2)[0] == 'a';
    }
    NameTestPastEnd(x, 3);
  }
}
