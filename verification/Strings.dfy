/**
 * Whitespace, prefixes and trimming, as JavaScript strings have them.
 */
module Strings {
  /** JavaScript's \s, which is also what `trim` removes. */
  predicate IsSpace(c: char) {
    || c == ' ' || '\t' <= c <= '\r' || c == '\U{a0}' || c == '\U{feff}' || c == '\U{1680}'
    || '\U{2000}' <= c <= '\U{200a}' || c == '\U{2028}' || c == '\U{2029}' || c == '\U{202f}'
    || c == '\U{205f}' || c == '\U{3000}'
  }

  predicate Blank(s: string) {
    forall i :: 0 <= i < |s| ==> IsSpace(s[i])
  }

  predicate StartsWith(s: string, p: string) {
    |p| <= |s| && s[..|p|] == p
  }

  /** JavaScript's `<` on strings: by code units, a beginning before its continuations. */
  predicate Less(x: string, y: string) {
    y != "" && (x == "" || x[0] < y[0] || (x[0] == y[0] && Less(x[1..], y[1..])))
  }

  /** And its `<=`. */
  predicate AtMost(x: string, y: string) {
    !Less(y, x)
  }

  function TrimStart(s: string): (r: string)
    ensures |r| <= |s|
  {
    if s == "" || !IsSpace(s[0]) then s else TrimStart(s[1..])
  }

  function TrimEnd(s: string): (r: string)
    ensures |r| <= |s|
  {
    if s == "" || !IsSpace(s[|s| - 1]) then s else TrimEnd(s[..|s| - 1])
  }

  function Trim(s: string): string {
    TrimEnd(TrimStart(s))
  }
}
