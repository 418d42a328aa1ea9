/**
 * The part of JavaScript's String.prototype.trim that the add-task guard
 * relies on: which code points count as white space, and how trimming
 * strips them from both ends of a string.
 */
module Text {

  /** ECMAScript WhiteSpace and LineTerminator code points, the set that trim() strips. */
  predicate IsWhitespace(c: char) {
    || c == '\t' || c == '\n' || c == '\U{000B}' || c == '\U{000C}' || c == '\r'
    || c == ' ' || c == '\U{00A0}' || c == '\U{1680}'
    || ('\U{2000}' <= c <= '\U{200A}')
    || c == '\U{2028}' || c == '\U{2029}' || c == '\U{202F}' || c == '\U{205F}'
    || c == '\U{3000}' || c == '\U{FEFF}'
  }

  /** A string made of white space only (the empty string included). */
  predicate IsBlank(s: string) {
    forall i :: 0 <= i < |s| ==> IsWhitespace(s[i])
  }

  /** `r` occurs in `s` at index `a`, with only white space before and after it. */
  ghost predicate BlankAround(s: string, a: int, r: string) {
    0 <= a <= |s| - |r| && r == s[a..a + |r|] && IsBlank(s[..a]) && IsBlank(s[a + |r|..])
  }

  /** Drops the leading white space: the result is the suffix of `s` that starts at its first non-white character. */
  function TrimStart(s: string): (r: string)
    ensures |r| <= |s| && r == s[|s| - |r|..]
    ensures IsBlank(s[..|s| - |r|])
    ensures r != [] ==> !IsWhitespace(r[0])
  {
    if s != [] && IsWhitespace(s[0]) then TrimStart(s[1..]) else s
  }

  /** Drops the trailing white space: the result is the prefix of `s` that ends at its last non-white character. */
  function TrimEnd(s: string): (r: string)
    ensures |r| <= |s| && r == s[..|r|]
    ensures IsBlank(s[|r|..])
    ensures r != [] ==> !IsWhitespace(r[|r| - 1])
  {
    if s != [] && IsWhitespace(s[|s| - 1]) then TrimEnd(s[..|s| - 1]) else s
  }

  /**
   * String.prototype.trim: the slice of `s` left once the white space at both
   * ends is removed. It is empty exactly when `s` is blank, so the guard
   * `trim() !== ""` of the add handler accepts exactly the non-blank inputs.
   */
  function Trim(s: string): (r: string)
    ensures exists a :: BlankAround(s, a, r)
    ensures r != [] ==> !IsWhitespace(r[0]) && !IsWhitespace(r[|r| - 1])
    ensures r == [] <==> IsBlank(s)
  {
    var t := TrimStart(s);
    var r := TrimEnd(t);
    TrimBothEnds(s, t, r);
    r
  }

  /**
   * Cutting white space off the start of `s` (leaving `t`) and then off the
   * end of `t` (leaving `r`) leaves a slice of `s` with only white space
   * around it, and white-free ends; it is empty exactly when `s` is blank.
   */
  lemma TrimBothEnds(s: string, t: string, r: string)
    requires |t| <= |s| && t == s[|s| - |t|..] && IsBlank(s[..|s| - |t|])
    requires t != [] ==> !IsWhitespace(t[0])
    requires |r| <= |t| && r == t[..|r|] && IsBlank(t[|r|..])
    requires r != [] ==> !IsWhitespace(r[|r| - 1])
    ensures exists a :: BlankAround(s, a, r)
    ensures r != [] ==> !IsWhitespace(r[0]) && !IsWhitespace(r[|r| - 1])
    ensures r == [] <==> IsBlank(s)
  {
    var a := |s| - |t|;
    assert r == s[a..a + |r|];
    assert t[|r|..] == s[a + |r|..];
    assert BlankAround(s, a, r);
    if r == [] {
      assert t[|r|..] == t;
      assert t == [];
      assert s[..a] == s;
    } else {
      assert r[0] == t[0];
      assert !IsBlank(s) by { assert s[a] == t[0]; }
    }
  }

  /**
   * Evaluates the add handler's guard `s.trim() !== ""`; it holds exactly
   * when `s` is not blank.
   */
  method TrimmedIsNonEmpty(s: string) returns (nonEmpty: bool)
    ensures nonEmpty <==> !IsBlank(s)
  {
    nonEmpty := Trim(s) != "";
  }
}
