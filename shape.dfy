/** The URL shape test applied before any request is made (src/main.js:105):
    the pattern `^http(s)?:\/\/[a-z]+\.[a-z]+(.)+` with the `i` flag. It is
    anchored at the start only: a scheme, a run of letters, a dot, at least one
    letter and at least one further character that is not a line terminator. */
module UrlShape {
  import opened Chars

  /** The length of the case-insensitive scheme prefix `http://` or `https://`,
      or 0 when the string starts with neither. */
  function SchemeLength(s: string): nat {
    if StartsWithCi(s, "http://") then 7
    else if StartsWithCi(s, "https://") then 8
    else 0
  }

  /** The hand-written matcher. The first letter run must be followed by the
      dot, so it is the greedy run; after the dot one letter followed by any
      character other than a line terminator is all the rest of the pattern
      needs, however the engine backtracks. */
  predicate LooksLikeUrl(s: string) {
    var h := SchemeLength(s);
    h > 0 &&
    var n := Span(s, h, Letters);
    n >= 1 && h + n + 2 < |s| && s[h + n] == '.' && IsLetter(s[h + n + 1]) &&
    !IsLineTerminator(s[h + n + 2])
  }

  /** The pattern read literally: scheme of length `h`, `n` letters, a dot,
      `m` letters and `r` characters matched by `.`, in this order. */
  ghost predicate ShapeAt(s: string, h: nat, n: nat, m: nat, r: nat) {
    ((h == 7 && CiPrefix(s, "http://")) || (h == 8 && CiPrefix(s, "https://"))) &&
    n >= 1 && m >= 1 && r >= 1 && h + n + 1 + m + r <= |s| &&
    (forall k :: h <= k < h + n ==> IsLetter(s[k])) &&
    s[h + n] == '.' &&
    (forall k :: h + n + 1 <= k < h + n + 1 + m ==> IsLetter(s[k])) &&
    (forall k :: h + n + 1 + m <= k < h + n + 1 + m + r ==> !IsLineTerminator(s[k]))
  }

  ghost predicate ShapeRegexMatches(s: string) {
    exists h: nat, n: nat, m: nat, r: nat :: ShapeAt(s, h, n, m, r)
  }

  /** The matcher accepts exactly the strings the regular expression matches. */
  lemma LooksLikeUrlIsShapeRegex(s: string)
    ensures LooksLikeUrl(s) <==> ShapeRegexMatches(s)
  {
    if LooksLikeUrl(s) {
      LooksLikeUrlSound(s);
    }
    if ShapeRegexMatches(s) {
      var h: nat, n: nat, m: nat, r: nat :| ShapeAt(s, h, n, m, r);
      LooksLikeUrlComplete(s, h, n, m, r);
    }
  }

  /** An accepted string matches with the greedy letter run, one letter
      after the dot and one further character. */
  lemma LooksLikeUrlSound(s: string)
    requires LooksLikeUrl(s)
    ensures ShapeAt(s, SchemeLength(s), Span(s, SchemeLength(s), Letters), 1, 1)
  {
    SpanRun(s, SchemeLength(s), Letters);
  }

  /** Any way the pattern matches is seen by the matcher. */
  lemma LooksLikeUrlComplete(s: string, h: nat, n: nat, m: nat, r: nat)
    requires ShapeAt(s, h, n, m, r)
    ensures LooksLikeUrl(s)
  {
    if h == 8 {
      // the fifth character is an `s`, so the `http://` prefix fails
      assert Upper(s[4]) == Upper("https://"[4]) != Upper("http://"[4]);
    }
    assert SchemeLength(s) == h;
    SpanMaximal(s, h, Letters, n);
    if m == 1 {
      assert !IsLineTerminator(s[h + n + 2]);
    } else {
      assert IsLetter(s[h + n + 2]);
    }
  }

  /** A string that starts with neither scheme, in any case, fails the test. */
  lemma NoSchemeRejected(s: string)
    requires !StartsWithCi(s, "http://") && !StartsWithCi(s, "https://")
    ensures !LooksLikeUrl(s)
  {
  }

  /** "not a url" fails the test, so it resolves to the error record. */
  lemma NotAUrlRejected()
    ensures !LooksLikeUrl("not a url")
  {
  }
}
