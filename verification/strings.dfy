/**
 The two string primitives the source relies on: `String.prototype.includes`
 (substring containment, used by the exclusion list) and
 `String.prototype.trim` (used by the route guards).  Each is written as the
 scan the primitive performs and proved equal to a declarative definition.
 */
module Strings {

  /** `pattern` occurs in `s` starting at offset `i`. */
  predicate OccursAt(s: string, pattern: string, i: nat)
  {
    i + |pattern| <= |s| && s[i..i + |pattern|] == pattern
  }

  /** Declarative meaning of `s.includes(pattern)`. */
  ghost predicate IsSubstring(pattern: string, s: string)
  {
    exists i: nat :: OccursAt(s, pattern, i)
  }

  /** Scan for `pattern` at offsets `i`, `i + 1`, ... */
  function IncludesFrom(s: string, pattern: string, i: nat): (r: bool)
    ensures r <==> exists k: nat :: i <= k && OccursAt(s, pattern, k)
    decreases |s| - i
  {
    if i + |pattern| > |s| then false
    else if s[i..i + |pattern|] == pattern then
      assert OccursAt(s, pattern, i);
      true
    else
      assert |pattern| > 0;
      IncludesFrom(s, pattern, i + 1)
  }

  /** `s.includes(pattern)`: case-sensitive substring containment. */
  function Includes(s: string, pattern: string): (r: bool)
    ensures r <==> IsSubstring(pattern, s)
  {
    IncludesFrom(s, pattern, 0)
  }

  /** The empty pattern occurs in every string, as in JavaScript. */
  lemma EmptyPatternIncluded(s: string)
    ensures Includes(s, "")
  {
  }

  /**
   The characters `trim` removes: ECMAScript WhiteSpace (tab, vertical tab,
   form feed, space, no-break space, byte order mark and the Unicode
   space separators) and LineTerminator (LF, CR, U+2028, U+2029).
   */
  predicate IsWhitespace(c: char)
  {
    || c == '\t' || c == '\n' || c == '\U{000B}' || c == '\U{000C}' || c == '\r'
    || c == ' ' || c == '\U{00A0}' || c == '\U{1680}'
    || ('\U{2000}' <= c <= '\U{200A}')
    || c == '\U{2028}' || c == '\U{2029}' || c == '\U{202F}' || c == '\U{205F}'
    || c == '\U{3000}' || c == '\U{FEFF}'
  }

  /** `s` has at least one character `trim` would keep. */
  predicate HasNonWhitespace(s: string)
  {
    exists i :: 0 <= i < |s| && !IsWhitespace(s[i])
  }

  /** Drops leading whitespace. */
  function TrimStart(s: string): (r: string)
    ensures |r| <= |s| && r == s[|s| - |r|..]
    ensures forall i :: 0 <= i < |s| - |r| ==> IsWhitespace(s[i])
    ensures |r| > 0 ==> !IsWhitespace(r[0])
  {
    if |s| > 0 && IsWhitespace(s[0]) then TrimStart(s[1..]) else s
  }

  /** Drops trailing whitespace. */
  function TrimEnd(s: string): (r: string)
    ensures |r| <= |s| && r == s[..|r|]
    ensures forall i :: |r| <= i < |s| ==> IsWhitespace(s[i])
    ensures |r| > 0 ==> !IsWhitespace(r[|r| - 1])
  {
    if |s| > 0 && IsWhitespace(s[|s| - 1]) then TrimEnd(s[..|s| - 1]) else s
  }

  /** `r` is `s[lo..hi]` and everything outside that slice is whitespace. */
  ghost predicate TrimmedAt(s: string, r: string, lo: int, hi: int)
  {
    && 0 <= lo <= hi <= |s| && r == s[lo..hi]
    && (forall i :: 0 <= i < lo ==> IsWhitespace(s[i]))
    && (forall i :: hi <= i < |s| ==> IsWhitespace(s[i]))
  }

  /**
   `s.trim()`: the slice of `s` left after removing exactly the leading and
   trailing whitespace.  It is empty exactly when `s` is whitespace only.
   */
  function Trim(s: string): (r: string)
    ensures exists lo, hi :: TrimmedAt(s, r, lo, hi)
    ensures |r| > 0 ==> !IsWhitespace(r[0]) && !IsWhitespace(r[|r| - 1])
    ensures |r| > 0 <==> HasNonWhitespace(s)
  {
    var t := TrimStart(s);
    var r := TrimEnd(t);
    TrimEndOfSuffix(s, t, r);
    assert TrimmedAt(s, r, |s| - |t|, |s| - |t| + |r|);
    r
  }

  /** Removing `t`'s trailing whitespace leaves a slice of `s` with whitespace outside it. */
  lemma TrimEndOfSuffix(s: string, t: string, r: string)
    requires |t| <= |s| && t == s[|s| - |t|..]
    requires forall i :: 0 <= i < |s| - |t| ==> IsWhitespace(s[i])
    requires |t| > 0 ==> !IsWhitespace(t[0])
    requires |r| <= |t| && r == t[..|r|]
    requires forall i :: |r| <= i < |t| ==> IsWhitespace(t[i])
    requires |r| > 0 ==> !IsWhitespace(r[|r| - 1])
    ensures TrimmedAt(s, r, |s| - |t|, |s| - |t| + |r|)
    ensures |r| > 0 ==> !IsWhitespace(r[0])
    ensures |r| > 0 <==> HasNonWhitespace(s)
  {
    var lo := |s| - |t|;
    var hi := lo + |r|;
    assert r == s[lo..hi];
    forall i | hi <= i < |s|
      ensures IsWhitespace(s[i])
    {
      assert s[i] == t[i - lo];
    }
    if |r| > 0 {
      assert s[lo] == r[0] == t[0];
    }
  }

}
