/** Whitespace and trimming, as the handlers use them to decide whether a
    text buffer is blank (`newItemText.trim() !== ''`). */
module Text {

  /** The characters ECMAScript's String.prototype.trim removes: the
      WhiteSpace production (TAB, VT, FF, SPACE, NO-BREAK SPACE, ZERO WIDTH
      NO-BREAK SPACE and the Unicode space separators) and the
      LineTerminator production (LF, CR, LINE SEPARATOR, PARAGRAPH SEPARATOR). */
  predicate IsWhitespace(c: char) {
    c == '\t' || c == '\U{000B}' || c == '\U{000C}' || c == ' ' ||
    c == '\U{00A0}' || c == '\U{FEFF}' ||
    c == '\U{1680}' || ('\U{2000}' <= c <= '\U{200A}') ||
    c == '\U{202F}' || c == '\U{205F}' || c == '\U{3000}' ||
    c == '\n' || c == '\r' || c == '\U{2028}' || c == '\U{2029}'
  }

  /** Every character of `s` is whitespace (the empty string included). */
  predicate IsBlank(s: string) {
    forall i :: 0 <= i < |s| ==> IsWhitespace(s[i])
  }

  /** `s` without its leading whitespace: a suffix of `s`, everything dropped
      is whitespace, and what is left does not start with whitespace. */
  function TrimStart(s: string): (r: string)
    ensures |r| <= |s| && r == s[|s| - |r|..]
    ensures IsBlank(s[..|s| - |r|])
    ensures r == [] || !IsWhitespace(r[0])
  {
    if s == [] || !IsWhitespace(s[0]) then s else TrimStart(s[1..])
  }

  /** `s` without its trailing whitespace: a prefix of `s`, everything dropped
      is whitespace, and what is left does not end with whitespace. */
  function TrimEnd(s: string): (r: string)
    ensures |r| <= |s| && r == s[..|r|]
    ensures IsBlank(s[|r|..])
    ensures r == [] || !IsWhitespace(r[|r| - 1])
  {
    if s == [] || !IsWhitespace(s[|s| - 1]) then s else TrimEnd(s[..|s| - 1])
  }

  /** String.prototype.trim: both ends stripped. */
  function Trim(s: string): string {
    TrimEnd(TrimStart(s))
  }

  /** The blank test the handlers perform, `s.trim() !== ''`, fails exactly
      when every character of `s` is whitespace. */
  lemma TrimEmptyIffBlank(s: string)
    ensures Trim(s) == "" <==> IsBlank(s)
  {
  }

  /** A string with a character that is not whitespace passes the blank test. */
  lemma TrimNotEmpty(s: string, i: nat)
    requires i < |s| && !IsWhitespace(s[i])
    ensures Trim(s) != ""
  {
  }
}
