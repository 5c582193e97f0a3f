/**
 * The string operations the core relies on: upper-casing, substring
 * containment and the "null or white space" test.
 */
module Text {

  /**
   * Upper-casing of one character, restricted to the Basic Latin and Latin-1
   * letters: a-z and U+00E0..U+00FE (except the division sign U+00F7) map to
   * the letter 32 code points below; every other character is left as it is.
   */
  function UpperChar(c: char): char
  {
    if 'a' <= c <= 'z' || ('\U{E0}' <= c <= '\U{FE}' && c != '\U{F7}') then (c as int - 32) as char else c
  }

  /** Upper-casing of a string, character by character. */
  function Upper(s: string): string
  {
    seq(|s|, i requires 0 <= i < |s| => UpperChar(s[i]))
  }

  /** `k` occurs in `s` starting at position `i`. */
  predicate OccursAt(s: string, k: string, i: int)
  {
    0 <= i && i + |k| <= |s| && s[i..i + |k|] == k
  }

  /**
   * Substring containment, computed by trying each start position in turn;
   * the empty string is contained in every string.
   */
  function Contains(s: string, k: string): (b: bool)
    ensures b <==> exists i :: OccursAt(s, k, i)
  {
    if |k| > |s| then
      false
    else if s[..|k|] == k then
      assert OccursAt(s, k, 0);
      true
    else
      var b := Contains(s[1..], k);
      if b then
        var i :| OccursAt(s[1..], k, i);
        assert OccursAt(s, k, i + 1) by { assert s[i + 1..i + 1 + |k|] == s[1..][i..i + |k|]; }
        true
      else
        forall i | OccursAt(s, k, i) ensures OccursAt(s[1..], k, i - 1) {
          assert i != 0;
          assert s[1..][i - 1..i - 1 + |k|] == s[i..i + |k|];
        }
        false
  }

  /** Every string contains every prefix of itself, and so itself. */
  lemma ContainsPrefix(s: string, k: string)
    requires k <= s
    ensures Contains(s, k)
  {
    assert OccursAt(s, k, 0);
  }

  /** A character is white space in the sense of the runtime's char.IsWhiteSpace. */
  predicate IsWhiteSpace(c: char)
  {
    || '\U{9}' <= c <= '\U{D}'
    || c == ' ' || c == '\U{85}' || c == '\U{A0}' || c == '\U{1680}'
    || '\U{2000}' <= c <= '\U{200A}'
    || c == '\U{2028}' || c == '\U{2029}' || c == '\U{202F}' || c == '\U{205F}' || c == '\U{3000}'
  }

  /** string.IsNullOrWhiteSpace for a non-null string: every character is white space. */
  predicate IsBlank(s: string)
  {
    forall i :: 0 <= i < |s| ==> IsWhiteSpace(s[i])
  }
}
