/** Spring's `StringUtils.hasText`: a string "has text" when it is non-null and holds at least
    one character that `Character.isWhitespace` rejects. */
module StringUtils {
  import opened Wrappers

  /** Java's `Character.isWhitespace`: the ASCII controls TAB..CR, the separators FS..US, and the
      Unicode space, line and paragraph separators other than the three no-break spaces. */
  predicate IsWhitespace(c: char)
  {
    || '\U{9}' <= c <= '\U{D}'
    || '\U{1C}' <= c <= '\U{1F}'
    || c == ' '
    || c == '\U{1680}'
    || ('\U{2000}' <= c <= '\U{200A}' && c != '\U{2007}')
    || c == '\U{2028}' || c == '\U{2029}'
    || c == '\U{205F}'
    || c == '\U{3000}'
  }

  /** True when some character of `s` is not whitespace. */
  function ContainsText(s: string): (r: bool)
    ensures r <==> exists i | 0 <= i < |s| :: !IsWhitespace(s[i])
  {
    if s == [] then false
    else if !IsWhitespace(s[0]) then true
    else
      var rest := ContainsText(s[1..]);
      assert rest ==> exists i | 0 <= i < |s| :: !IsWhitespace(s[i]) by {
        if rest {
          var j :| 0 <= j < |s[1..]| && !IsWhitespace(s[1..][j]);
          assert s[j + 1] == s[1..][j];
        }
      }
      assert (exists i | 0 <= i < |s| :: !IsWhitespace(s[i])) ==> rest by {
        if exists i | 0 <= i < |s| :: !IsWhitespace(s[i]) {
          var i :| 0 <= i < |s| && !IsWhitespace(s[i]);
          assert i > 0 && s[1..][i - 1] == s[i];
        }
      }
      rest
  }

  /** `StringUtils.hasText`: null, empty and all-whitespace strings have no text. */
  function HasText(str: Option<string>): (r: bool)
    ensures r <==> str.Some? && exists i | 0 <= i < |str.value| :: !IsWhitespace(str.value[i])
    ensures r ==> |str.value| > 0
  {
    str.Some? && |str.value| > 0 && ContainsText(str.value)
  }
}
