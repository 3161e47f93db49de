/** Character classes and the "longest run of a class" scan on which the
    hand-written matchers for the pipeline's three regular expressions rest. */
module Chars {

  /** `[a-z]` under the `i` flag: an ASCII letter of either case (outside
      Unicode mode no other character folds onto an ASCII letter). */
  predicate IsLetter(c: char) {
    'a' <= c <= 'z' || 'A' <= c <= 'Z'
  }

  /** `\d`: an ASCII decimal digit. */
  predicate IsDigit(c: char) {
    '0' <= c <= '9'
  }

  /** `[a-z0-9_]` without the `i` flag: lower-case letters, digits, underscore. */
  predicate IsChannelChar(c: char) {
    'a' <= c <= 'z' || IsDigit(c) || c == '_'
  }

  /** The characters that `.` does not match: the four ECMAScript line terminators. */
  predicate IsLineTerminator(c: char) {
    c == '\n' || c == '\r' || c == '\U{2028}' || c == '\U{2029}'
  }

  /** The character classes the three patterns use. */
  datatype CharClass = Letters | Digits | ChannelChars

  predicate InClass(cls: CharClass, c: char) {
    match cls
    case Letters => IsLetter(c)
    case Digits => IsDigit(c)
    case ChannelChars => IsChannelChar(c)
  }

  /** Case folding as the `i` flag applies it to ASCII. */
  function Upper(c: char): char {
    if 'a' <= c <= 'z' then (c as int - 32) as char else c
  }

  /** `s` starts with `w`, compared case-insensitively. */
  ghost predicate CiPrefix(s: string, w: string) {
    |w| <= |s| && forall k :: 0 <= k < |w| ==> Upper(s[k]) == Upper(w[k])
  }

  /** The executable form of `CiPrefix`, character by character. */
  function StartsWithCi(s: string, w: string): (b: bool)
    ensures b <==> CiPrefix(s, w)
  {
    if w == [] then true
    else if s == [] then false
    else Upper(s[0]) == Upper(w[0]) && StartsWithCi(s[1..], w[1..])
  }

  /** The length of the longest run of characters of class `cls` that starts
      at index `i`: a greedy scan. */
  function Span(s: string, i: nat, cls: CharClass): (n: nat)
    requires i <= |s|
    ensures i + n <= |s|
    decreases |s| - i
  {
    if i < |s| && InClass(cls, s[i]) then 1 + Span(s, i + 1, cls) else 0
  }

  /** The run `Span` measures is all of class `cls` and ends at the end of
      the string or at a character outside `cls`. */
  lemma {:induction false} SpanRun(s: string, i: nat, cls: CharClass)
    requires i <= |s|
    ensures forall k :: i <= k < i + Span(s, i, cls) ==> InClass(cls, s[k])
    ensures i + Span(s, i, cls) == |s| || !InClass(cls, s[i + Span(s, i, cls)])
    decreases |s| - i
  {
    if i < |s| && InClass(cls, s[i]) {
      SpanRun(s, i + 1, cls);
    }
  }

  /** A run that is all `cls` and is followed by the end or by a character
      outside `cls` is the one `Span` finds. */
  lemma SpanMaximal(s: string, i: nat, cls: CharClass, n: nat)
    requires i + n <= |s|
    requires forall k :: i <= k < i + n ==> InClass(cls, s[k])
    requires i + n == |s| || !InClass(cls, s[i + n])
    ensures Span(s, i, cls) == n
  {
    SpanRun(s, i, cls);
  }
}
