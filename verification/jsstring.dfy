/**
 The two JavaScript string operations the components rely on:
 `String.prototype.trim` (used as a blank-input gate) and
 `String.prototype.replace` with a string pattern, which replaces only the
 first occurrence.
 */
module JsString {

  import opened Types

  /** WhiteSpace and LineTerminator code points of ECMAScript, the characters
      `trim` strips from both ends. */
  predicate IsJsWhitespace(c: char) {
    || c == '\t' || c == '\n' || c == '\U{000B}' || c == '\U{000C}' || c == '\r'
    || c == ' ' || c == '\U{00A0}' || c == '\U{1680}'
    || ('\U{2000}' <= c <= '\U{200A}')
    || c == '\U{2028}' || c == '\U{2029}' || c == '\U{202F}' || c == '\U{205F}'
    || c == '\U{3000}' || c == '\U{FEFF}'
  }

  /** Every character of `s` is whitespace. */
  predicate AllWhitespace(s: string) {
    forall i :: 0 <= i < |s| ==> IsJsWhitespace(s[i])
  }

  /** `s.trimStart()`: drops the leading whitespace run. */
  function TrimStart(s: string): (r: string)
    ensures |r| <= |s| && r == s[|s| - |r|..]
    ensures r == [] || !IsJsWhitespace(r[0])
    ensures AllWhitespace(s[..|s| - |r|])
  {
    if |s| == 0 || !IsJsWhitespace(s[0]) then s
    else
      var t := TrimStart(s[1..]);
      assert s[1..][..|s[1..]| - |t|] == s[1..|s| - |t|];
      t
  }

  /** `s.trimEnd()`: drops the trailing whitespace run. */
  function TrimEnd(s: string): (r: string)
    ensures |r| <= |s| && r == s[..|r|]
    ensures r == [] || !IsJsWhitespace(r[|r| - 1])
    ensures AllWhitespace(s[|r|..])
  {
    if |s| == 0 || !IsJsWhitespace(s[|s| - 1]) then s
    else
      var t := TrimEnd(s[..|s| - 1]);
      assert s[..|s| - 1][|t|..] == s[|t|..|s| - 1];
      t
  }

  /** `s.trim()`. */
  function Trim(s: string): string {
    TrimEnd(TrimStart(s))
  }

  /** `!s.trim()`: the string holds whitespace only, so trimming it leaves
      the falsy empty string (see `TrimEmptyIffBlank`). */
  predicate IsBlank(s: string) {
    AllWhitespace(s)
  }

  /** Trimming leaves the empty string exactly when the string is blank. */
  lemma TrimEmptyIffBlank(s: string)
    ensures Trim(s) == "" <==> IsBlank(s)
  {
    var t := TrimStart(s);
    if Trim(s) == "" {
      assert TrimEnd(t) == [];
      assert AllWhitespace(t) by { assert t[0..] == t; }
      assert s == s[..|s| - |t|] + t;
    }
  }

  /** `s.startsWith(p)`. */
  predicate StartsWith(s: string, p: string) {
    |p| <= |s| && s[..|p|] == p
  }

  /** `p` occurs in `s` at position `i`. */
  predicate OccursAt(s: string, p: string, i: int) {
    0 <= i && i + |p| <= |s| && s[i..i + |p|] == p
  }

  /** `s.indexOf(p)`: the least position of an occurrence of `p`, or `None`
      for the source's `-1`. */
  function IndexOf(s: string, p: string): (r: Option<nat>)
    ensures r.Some? ==> OccursAt(s, p, r.value)
    ensures r.Some? ==> forall j :: 0 <= j < r.value ==> !OccursAt(s, p, j)
    ensures r.None? ==> forall j :: 0 <= j <= |s| ==> !OccursAt(s, p, j)
  {
    IndexFrom(s, p, 0)
  }

  /** Search for `p` in `s` starting at position `k`. */
  function IndexFrom(s: string, p: string, k: nat): (r: Option<nat>)
    requires k <= |s| + 1
    requires forall j :: 0 <= j < k ==> !OccursAt(s, p, j)
    ensures r.Some? ==> k <= r.value && OccursAt(s, p, r.value)
    ensures r.Some? ==> forall j :: 0 <= j < r.value ==> !OccursAt(s, p, j)
    ensures r.None? ==> forall j :: 0 <= j <= |s| ==> !OccursAt(s, p, j)
    decreases |s| + 1 - k
  {
    if k + |p| > |s| then None
    else if s[k..k + |p|] == p then Some(k)
    else IndexFrom(s, p, k + 1)
  }

  /** `s.replace(pat, rep)` with a string pattern: only the first occurrence
      is replaced, and a string without the pattern comes back unchanged.
      (The replacement strings used by the application contain no `$`, so
      the replacement-pattern syntax of `replace` is not modelled.) */
  function ReplaceFirst(s: string, pat: string, rep: string): (r: string)
    ensures (forall j :: 0 <= j <= |s| ==> !OccursAt(s, pat, j)) ==> r == s
    ensures forall i :: OccursAt(s, pat, i) && (forall j :: 0 <= j < i ==> !OccursAt(s, pat, j)) ==>
      r == s[..i] + rep + s[i + |pat|..]
  {
    match IndexOf(s, pat)
    case None => s
    case Some(i) => s[..i] + rep + s[i + |pat|..]
  }

  /** A string that starts with the pattern gets the replacement as its new
      prefix, followed by the rest of the original string. */
  lemma ReplaceLeadingPattern(s: string, pat: string, rep: string)
    requires StartsWith(s, pat)
    ensures ReplaceFirst(s, pat, rep) == rep + s[|pat|..]
    ensures StartsWith(ReplaceFirst(s, pat, rep), rep)
  {
    assert OccursAt(s, pat, 0);
    var r := ReplaceFirst(s, pat, rep);
    assert r == s[..0] + rep + s[|pat|..];
    assert r[..|rep|] == rep;
  }
}
