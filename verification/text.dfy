/** The two string operations the interface relies on: `s.split(' ')[0]`
    (the first word of a display name) and `s.trim()` (the blank-input test). */
module Text {

  /** `s.split(' ')[0]`: the longest prefix of `s` that holds no space. */
  function FirstWord(s: string): (w: string)
    ensures w <= s
    ensures ' ' !in w
    ensures |w| == |s| || s[|w|] == ' '
  {
    if s == [] || s[0] == ' ' then [] else [s[0]] + FirstWord(s[1..])
  }

  /** The three properties above pin the first word down: no other prefix has them. */
  lemma FirstWordUnique(s: string, w: string)
    requires w <= s && ' ' !in w
    requires |w| == |s| || s[|w|] == ' '
    ensures w == FirstWord(s)
  {
    var f := FirstWord(s);
    if |w| < |f| {
      assert false;
    } else if |f| < |w| {
      assert false;
    }
  }

  /** The characters JavaScript's `trim` removes: WhiteSpace and LineTerminator
      of section 12.2 and 12.3 of ECMA-262. */
  predicate IsJsWhitespace(c: char) {
    || c == '\t' || c == '\n' || c == '\U{000B}' || c == '\U{000C}' || c == '\r' || c == ' '
    || c == '\U{00A0}' || c == '\U{1680}' || ('\U{2000}' <= c <= '\U{200A}')
    || c == '\U{2028}' || c == '\U{2029}' || c == '\U{202F}' || c == '\U{205F}'
    || c == '\U{3000}' || c == '\U{FEFF}'
  }

  /** Every character is whitespace (in particular, the empty string). */
  predicate IsBlank(s: string) {
    forall i :: 0 <= i < |s| ==> IsJsWhitespace(s[i])
  }

  /** Drops leading whitespace. */
  function TrimStart(s: string): (r: string)
    ensures |r| <= |s| && r == s[|s| - |r|..]
    ensures r == [] || !IsJsWhitespace(r[0])
    ensures IsBlank(s[..|s| - |r|])
  {
    if s != [] && IsJsWhitespace(s[0]) then
      var r := TrimStart(s[1..]);
      assert s[1..][..|s[1..]| - |r|] == s[1..|s| - |r|];
      r
    else s
  }

  /** Drops trailing whitespace. */
  function TrimEnd(s: string): (r: string)
    ensures r <= s
    ensures r == [] || !IsJsWhitespace(r[|r| - 1])
    ensures IsBlank(s[|r|..])
  {
    if s != [] && IsJsWhitespace(s[|s| - 1]) then
      var r := TrimEnd(s[..|s| - 1]);
      assert s[..|s| - 1][|r|..] == s[|r|..|s| - 1];
      r
    else s
  }

  /** `s.trim()`. */
  function Trim(s: string): string {
    TrimEnd(TrimStart(s))
  }

  /** `!s.trim()` in the source: the trimmed text is empty exactly when every
      character is whitespace. */
  lemma TrimEmptyIffBlank(s: string)
    ensures Trim(s) == [] <==> IsBlank(s)
  {
    var a := TrimStart(s);
    var b := TrimEnd(a);
    if b == [] {
      assert a == a[|b|..];
      assert a == [];
      assert s == s[..|s| - |a|];
    } else {
      assert b[0] == a[0];
      assert a[0] == s[|s| - |a|];
    }
  }

  /** A string whose first character is not whitespace is never blank. */
  lemma NotBlankWhenLeadingNonWhitespace(s: string)
    requires s != [] && !IsJsWhitespace(s[0])
    ensures !IsBlank(s)
  {
  }
}
