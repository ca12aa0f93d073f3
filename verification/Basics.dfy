/** What several of the modelled programs use: optional values and strings. */
module Basics {

  datatype Option<+T> = None | Some(value: T)

  predicate Distinct<T(==)>(s: seq<T>) {
    forall i, j | 0 <= i < j < |s| :: s[i] != s[j]
  }

  function SetOf<T(==)>(s: seq<T>): set<T> { set x | x in s }

  /** All the values, if all are there. */
  function AllOf<T>(xs: seq<Option<T>>): (r: Option<seq<T>>)
    ensures r.Some? ==> |r.value| == |xs| && forall i | 0 <= i < |xs| :: xs[i] == Some(r.value[i])
    ensures r.None? ==> exists i | 0 <= i < |xs| :: xs[i].None?
  {
    if xs == [] then Some([])
    else
      var front, last := AllOf(xs[..|xs| - 1]), xs[|xs| - 1];
      if front.None? || last.None? then None else Some(front.value + [last.value])
  }

  predicate IsDigit(c: char) { '0' <= c <= '9' }

  /** The whitespace of JavaScript's `\s` and `trim`. */
  predicate IsSpace(c: char) {
    || c == ' ' || '\U{0009}' <= c <= '\U{000d}' || c == '\U{00a0}' || c == '\U{1680}'
    || '\U{2000}' <= c <= '\U{200a}' || c == '\U{2028}' || c == '\U{2029}' || c == '\U{202f}'
    || c == '\U{205f}' || c == '\U{3000}' || c == '\U{feff}'
  }

  predicate StartsWith(s: string, prefix: string) {
    |prefix| <= |s| && s[..|prefix|] == prefix
  }

  predicate Starts2(s: string, a: char, b: char) {
    |s| >= 2 && s[0] == a && s[1] == b
  }

  predicate Starts3(s: string, a: char, b: char, c: char) {
    |s| >= 3 && s[0] == a && s[1] == b && s[2] == c
  }

  predicate EndsWith(s: string, suffix: string) {
    |suffix| <= |s| && s[|s| - |suffix|..] == suffix
  }

  predicate Includes(s: string, part: string) {
    exists i | 0 <= i <= |s| :: StartsWith(s[i..], part)
  }

  function TrimStart(s: string, drop: char -> bool): string {
    if s != "" && drop(s[0]) then TrimStart(s[1..], drop) else s
  }

  function TrimEnd(s: string, drop: char -> bool): string {
    if s != "" && drop(s[|s| - 1]) then TrimEnd(s[..|s| - 1], drop) else s
  }

  function TrimBy(s: string, drop: char -> bool): string { TrimEnd(TrimStart(s, drop), drop) }

  function Trim(s: string): string { TrimBy(s, IsSpace) }

  /** `s` up to the first `c`. */
  function UpTo(s: string, c: char): (r: string)
    ensures r <= s && c !in r && (|r| < |s| ==> s[|r|] == c)
  {
    if s == "" || s[0] == c then "" else [s[0]] + UpTo(s[1..], c)
  }

  /** `s` after the first `c`; empty when there is none. */
  function Past(s: string, c: char): string {
    var head := UpTo(s, c);
    if |head| < |s| then s[|head| + 1..] else ""
  }
}
