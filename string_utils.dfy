/**
 * The part of Apache Commons Lang's `StringUtils` that the manager relies on:
 * `isBlank`, which is true of `null`, of the empty string and of a string made
 * only of characters that `Character.isWhitespace` accepts.
 */
module StringUtils {
  import opened Wrappers

  /**
   * `Character.isWhitespace` as of Java 9 (Unicode 6.3 and later): the ASCII
   * controls TAB, LF, VT, FF, CR and the separators FS, GS, RS, US, the space,
   * and the Unicode space, line and paragraph separators other than the
   * no-break spaces U+00A0, U+2007, U+202F. The path delimiter `/` is never
   * whitespace.
   */
  predicate IsWhitespace(c: char)
    ensures IsWhitespace(c) ==> c != '/' && c != '\U{A0}' && c != '\U{2007}' && c != '\U{202F}'
  {
    || ('\t' <= c <= '\r')
    || ('\U{1C}' <= c <= '\U{1F}')
    || c == ' '
    || c == '\U{1680}'
    || ('\U{2000}' <= c <= '\U{2006}')
    || ('\U{2008}' <= c <= '\U{200A}')
    || c == '\U{2028}'
    || c == '\U{2029}'
    || c == '\U{205F}'
    || c == '\U{3000}'
  }

  /** The scan `isBlank` performs on a non-null string: no character that is not whitespace. */
  predicate AllWhitespace(s: string)
    ensures AllWhitespace(s) ==> '/' !in s
    decreases |s|
  {
    |s| == 0 || (IsWhitespace(s[0]) && AllWhitespace(s[1..]))
  }

  /** `StringUtils.isBlank`: null, empty or whitespace only. */
  predicate IsBlank(s: Option<string>)
    ensures s == None || s == Some("") ==> IsBlank(s)
    ensures s.Some? && '/' in s.value ==> !IsBlank(s)
  {
    if s.None? then true
    else
      AllWhitespaceIff(s.value);
      AllWhitespace(s.value)
  }

  /** The scan agrees with its declarative reading: every character is whitespace. */
  lemma {:induction false} AllWhitespaceIff(s: string)
    ensures AllWhitespace(s) <==> forall i | 0 <= i < |s| :: IsWhitespace(s[i])
  {
    if |s| > 0 {
      AllWhitespaceIff(s[1..]);
      assert forall i | 1 <= i < |s| :: s[i] == s[1..][i - 1];
    }
  }

  /** A concatenation is blank exactly when both parts are. */
  lemma AllWhitespaceAppend(a: string, b: string)
    ensures AllWhitespace(a + b) <==> AllWhitespace(a) && AllWhitespace(b)
  {
    AllWhitespaceIff(a);
    AllWhitespaceIff(b);
    AllWhitespaceIff(a + b);
    assert forall i | 0 <= i < |a| :: (a + b)[i] == a[i];
    assert forall i | 0 <= i < |b| :: (a + b)[|a| + i] == b[i];
  }
}
