/** JavaScript values and the few String built-ins the link-preview pipeline
    relies on: truthiness, `||`, `indexOf` and `slice`. Strings are sequences
    of UTF-16 code units in JavaScript; here they are `seq<char>`. */
module Js {

  datatype Option<T> = None | Some(value: T)

  /** The values a record field can hold: `undefined`, `null` or a string. */
  datatype Val = Undefined | Null | Str(s: string)

  /** JavaScript truthiness restricted to `Val`: only a non-empty string is truthy. */
  predicate Truthy(v: Val) {
    v.Str? && v.s != ""
  }

  /** `a || b`: the left operand when it is truthy, otherwise the right one. */
  function Or(a: Val, b: Val): Val {
    if Truthy(a) then a else b
  }

  /** `(a || d)` used as a string, where `d` is a string literal. */
  function OrString(a: Val, d: string): string {
    if Truthy(a) then a.s else d
  }

  /** `pat` occurs in `s` starting at index `k`. */
  predicate OccursAt(s: string, pat: string, k: int) {
    0 <= k && k + |pat| <= |s| && s[k..k + |pat|] == pat
  }

  /** `k` is the first index at which `pat` occurs in `s`. */
  ghost predicate FirstOccurrence(s: string, pat: string, k: int) {
    OccursAt(s, pat, k) && forall q :: 0 <= q < k ==> !OccursAt(s, pat, q)
  }

  /** `pat` does not occur in `s` at all. */
  ghost predicate NoOccurrence(s: string, pat: string) {
    forall k :: !OccursAt(s, pat, k)
  }

  /** The search loop behind `indexOf`, starting at index `k`. */
  function IndexFrom(s: string, pat: string, k: nat): (r: int)
    ensures r == -1 || (k <= r && OccursAt(s, pat, r))
    ensures r >= 0 ==> forall q :: k <= q < r ==> !OccursAt(s, pat, q)
    ensures r == -1 <==> forall q :: k <= q ==> !OccursAt(s, pat, q)
    decreases |s| - k
  {
    if k + |pat| > |s| then -1
    else if s[k..k + |pat|] == pat then k
    else IndexFrom(s, pat, k + 1)
  }

  /** `s.indexOf(pat, from)`: the start position is clamped to `[0, |s|]`, and
      the result is the first occurrence at or after it, or -1. */
  function IndexOf(s: string, pat: string, from: int): (r: int)
    ensures var st := Clamp(from, |s|);
      (r == -1 <==> forall q :: st <= q ==> !OccursAt(s, pat, q)) &&
      (r >= 0 ==> st <= r && OccursAt(s, pat, r) && forall q :: st <= q < r ==> !OccursAt(s, pat, q))
  {
    IndexFrom(s, pat, Clamp(from, |s|))
  }

  function Clamp(x: int, hi: nat): nat {
    if x < 0 then 0 else if x > hi then hi else x
  }

  /** `s.indexOf(pat) >= 0`. */
  predicate Contains(s: string, pat: string)
    ensures Contains(s, pat) <==> exists k :: OccursAt(s, pat, k)
  {
    IndexOf(s, pat, 0) >= 0
  }

  /** `s.slice(b, e)` for non-negative arguments: both ends are clamped to the
      length, and an empty string results when the start is not before the end. */
  function Slice(s: string, b: nat, e: nat): string {
    var lo := if b < |s| then b else |s|;
    var hi := if e < |s| then e else |s|;
    if lo >= hi then "" else s[lo..hi]
  }

  /** A one-character pattern occurs exactly where that character stands. */
  lemma OccursAtChar(s: string, c: char, k: int)
    ensures OccursAt(s, [c], k) <==> 0 <= k < |s| && s[k] == c
  {
    if 0 <= k < |s| {
      assert s[k..k + 1] == [s[k]];
    }
  }
}
