/** Twitch URL recognition and embed construction (src/main.js:5-18).
    The two patterns are unanchored:
      MATCH_VIDEO_URL   = (?:www\.|go\.)?twitch\.tv\/videos\/(\d+)($|\?)
      MATCH_CHANNEL_URL = (?:www\.|go\.)?twitch\.tv\/([a-z0-9_]+)($|\?)
    The optional `www.`/`go.` group never decides whether a match exists nor
    what group 1 captures: two occurrences of `twitch.tv/` lie at least ten
    characters apart, so the leftmost match is the one whose `twitch.tv/` comes
    first. This argument is not itself proved here: the matchers scan for the
    core pattern from the left, and the lemmas below are about that core. */
module Twitch {
  import opened Js
  import opened Chars

  const VIDEO_PREFIX := "twitch.tv/videos/"
  const CHANNEL_PREFIX := "twitch.tv/"
  const PLAYER_PREFIX := "https://player.twitch.tv/?allowfullscreen&autoplay&"

  /** The core of a pattern read literally: `prefix`, then the identifier
      `id` (one or more characters of class `cls`), then the end of the string
      or a `?`, all starting at index `p`. */
  ghost predicate MatchesAt(s: string, p: int, prefix: string, cls: CharClass, id: string) {
    0 <= p && p + |prefix| + |id| <= |s| &&
    s[p..p + |prefix|] == prefix &&
    |id| >= 1 && s[p + |prefix|..p + |prefix| + |id|] == id &&
    (forall k :: 0 <= k < |id| ==> InClass(cls, id[k])) &&
    (p + |prefix| + |id| == |s| || s[p + |prefix| + |id|] == '?')
  }

  /** `p` is the leftmost position where the pattern matches, capturing `id`. */
  ghost predicate Leftmost(s: string, p: int, prefix: string, cls: CharClass, id: string) {
    MatchesAt(s, p, prefix, cls, id) &&
    forall q, id' :: q < p ==> !MatchesAt(s, q, prefix, cls, id')
  }

  /** The pattern's tail once `prefix` has been matched up to index `st`: the
      greedy run of `cls` must be non-empty and be followed by the end or `?`. */
  function Capture(s: string, st: nat, cls: CharClass): Option<string>
    requires st <= |s|
  {
    var n := Span(s, st, cls);
    if n >= 1 && (st + n == |s| || s[st + n] == '?') then Some(s[st..st + n]) else None
  }

  /** The matcher at one position, consuming `prefix` from its `k`-th
      character on, with index `i` of `s` aligned to it. */
  function CaptureAfter(s: string, i: nat, prefix: string, k: nat, cls: CharClass): Option<string>
    decreases |prefix| - k
  {
    if k < |prefix| then
      if i < |s| && s[i] == prefix[k] then CaptureAfter(s, i + 1, prefix, k + 1, cls) else None
    else if i <= |s| then Capture(s, i, cls)
    else None
  }

  /** The matcher at position `p`. */
  function IdAt(s: string, p: nat, prefix: string, cls: CharClass): Option<string> {
    CaptureAfter(s, p, prefix, 0, cls)
  }

  lemma {:induction false} CaptureAfterPrefix(s: string, p: nat, prefix: string, k: nat, cls: CharClass)
    requires k <= |prefix|
    ensures CaptureAfter(s, p + k, prefix, k, cls) ==
      if p + |prefix| <= |s| && s[p + k..p + |prefix|] == prefix[k..] then Capture(s, p + |prefix|, cls) else None
    decreases |prefix| - k
  {
    if k < |prefix| {
      CaptureAfterPrefix(s, p, prefix, k + 1, cls);
      if p + |prefix| <= |s| {
        assert s[p + k..p + |prefix|] == [s[p + k]] + s[p + k + 1..p + |prefix|];
        assert prefix[k..] == [prefix[k]] + prefix[k + 1..];
      }
    }
  }

  lemma IdAtMatches(s: string, p: nat, prefix: string, cls: CharClass, id: string)
    requires !InClass(cls, '?')
    ensures IdAt(s, p, prefix, cls) == Some(id) <==> MatchesAt(s, p, prefix, cls, id)
  {
    if IdAt(s, p, prefix, cls) == Some(id) {
      IdAtSound(s, p, prefix, cls, id);
    }
    if MatchesAt(s, p, prefix, cls, id) {
      IdAtComplete(s, p, prefix, cls, id);
    }
  }

  lemma IdAtSound(s: string, p: nat, prefix: string, cls: CharClass, id: string)
    requires IdAt(s, p, prefix, cls) == Some(id)
    ensures MatchesAt(s, p, prefix, cls, id)
  {
    CaptureAfterPrefix(s, p, prefix, 0, cls);
    assert prefix[0..] == prefix;
    var st := p + |prefix|;
    assert st <= |s| && s[p..st] == prefix;
    assert Capture(s, st, cls) == Some(id);
    var n := Span(s, st, cls);
    SpanRun(s, st, cls);
    assert id == s[st..st + n];
    assert forall k :: 0 <= k < |id| ==> id[k] == s[st + k];
  }

  lemma IdAtComplete(s: string, p: nat, prefix: string, cls: CharClass, id: string)
    requires !InClass(cls, '?')
    requires MatchesAt(s, p, prefix, cls, id)
    ensures IdAt(s, p, prefix, cls) == Some(id)
  {
    CaptureAfterPrefix(s, p, prefix, 0, cls);
    assert prefix[0..] == prefix;
    var st := p + |prefix|;
    forall k | st <= k < st + |id| ensures InClass(cls, s[k]) {
      assert s[k] == id[k - st];
    }
    SpanMaximal(s, st, cls, |id|);
  }

  /** The scan for the leftmost match from position `from` on. */
  function FirstMatch(s: string, prefix: string, cls: CharClass, from: nat): Option<string>
    decreases |s| + 1 - from
  {
    if from > |s| then None
    else match IdAt(s, from, prefix, cls)
      case Some(id) => Some(id)
      case None => FirstMatch(s, prefix, cls, from + 1)
  }

  lemma {:induction false} FirstMatchFrom(s: string, prefix: string, cls: CharClass, from: nat)
    ensures var r := FirstMatch(s, prefix, cls, from);
      (r.Some? ==> exists p :: from <= p && IdAt(s, p, prefix, cls) == r &&
                     forall q :: from <= q < p ==> IdAt(s, q, prefix, cls).None?) &&
      (r.None? ==> forall q :: from <= q ==> IdAt(s, q, prefix, cls).None?)
    decreases |s| + 1 - from
  {
    if from > |s| {
      forall q | from <= q ensures IdAt(s, q, prefix, cls).None? {
        CaptureAfterPrefix(s, q, prefix, 0, cls);
      }
    } else if IdAt(s, from, prefix, cls).None? {
      FirstMatchFrom(s, prefix, cls, from + 1);
    }
  }

  /** The scan finds the capture of the leftmost match, and nothing exactly
      when the pattern matches nowhere. */
  lemma {:induction false} FirstMatchIsLeftmost(s: string, prefix: string, cls: CharClass, id: string)
    requires !InClass(cls, '?')
    ensures FirstMatch(s, prefix, cls, 0) == Some(id) <==> exists p :: Leftmost(s, p, prefix, cls, id)
    ensures FirstMatch(s, prefix, cls, 0) == None <==> forall p, id' :: !MatchesAt(s, p, prefix, cls, id')
  {
    var r := FirstMatch(s, prefix, cls, 0);
    FirstMatchFrom(s, prefix, cls, 0);
    if r.Some? {
      var p :| 0 <= p && IdAt(s, p, prefix, cls) == r &&
               forall q :: 0 <= q < p ==> IdAt(s, q, prefix, cls).None?;
      IdAtMatches(s, p, prefix, cls, r.value);
      forall q, id' | q < p ensures !MatchesAt(s, q, prefix, cls, id') {
        if 0 <= q { IdAtMatches(s, q, prefix, cls, id'); }
      }
      assert Leftmost(s, p, prefix, cls, r.value);
      if exists p' :: Leftmost(s, p', prefix, cls, id) {
        var p' :| Leftmost(s, p', prefix, cls, id);
        IdAtMatches(s, p', prefix, cls, id);
        IdAtMatches(s, p, prefix, cls, id);
      }
    } else {
      forall p, id' ensures !MatchesAt(s, p, prefix, cls, id') {
        if 0 <= p { IdAtMatches(s, p, prefix, cls, id'); }
      }
    }
  }

  /** `MATCH_VIDEO_URL` applied to `url`: group 1 of the match, if any. */
  function MatchVideo(url: string): Option<string> {
    FirstMatch(url, VIDEO_PREFIX, Digits, 0)
  }

  /** `MATCH_CHANNEL_URL` applied to `url`: group 1 of the match, if any. */
  function MatchChannel(url: string): Option<string> {
    FirstMatch(url, CHANNEL_PREFIX, ChannelChars, 0)
  }

  /** `isTwitch` (src/main.js:8-10). */
  predicate IsTwitch(url: string) {
    MatchVideo(url).Some? || MatchChannel(url).Some?
  }

  /** What a Twitch URL refers to: a channel (live stream) or a recorded video. */
  datatype TwitchRef = Channel(name: string) | Video(id: string)

  /** The reference `collectTwitchMeta` derives from the page URL
      (src/main.js:15-16): the channel pattern is tried first. */
  function Target(url: string): (r: Option<TwitchRef>)
    ensures r.Some? <==> IsTwitch(url)
  {
    match MatchChannel(url)
    case Some(name) => Some(Channel(name))
    case None =>
      match MatchVideo(url)
      case Some(id) => Some(Video(id))
      case None => None
  }

  /** The player URL built at src/main.js:18. */
  function EmbedUrl(ref: TwitchRef): string {
    match ref
    case Channel(name) => PLAYER_PREFIX + "channel=" + name
    case Video(id) => PLAYER_PREFIX + "video=" + id
  }

  /** A channel match anywhere wins over a video match: the reference is the
      channel captured by the leftmost channel match; a video reference means
      no channel match exists and it carries the leftmost video capture. */
  lemma TargetPrecedence(url: string)
    ensures forall name :: Target(url) == Some(Channel(name)) <==>
      exists p :: Leftmost(url, p, CHANNEL_PREFIX, ChannelChars, name)
    ensures forall id :: Target(url) == Some(Video(id)) <==>
      (forall p, name :: !MatchesAt(url, p, CHANNEL_PREFIX, ChannelChars, name)) &&
      exists p :: Leftmost(url, p, VIDEO_PREFIX, Digits, id)
  {
    forall name ensures Target(url) == Some(Channel(name)) <==>
      exists p :: Leftmost(url, p, CHANNEL_PREFIX, ChannelChars, name)
    {
      FirstMatchIsLeftmost(url, CHANNEL_PREFIX, ChannelChars, name);
    }
    forall id ensures Target(url) == Some(Video(id)) <==>
      (forall p, name :: !MatchesAt(url, p, CHANNEL_PREFIX, ChannelChars, name)) &&
      exists p :: Leftmost(url, p, VIDEO_PREFIX, Digits, id)
    {
      FirstMatchIsLeftmost(url, CHANNEL_PREFIX, ChannelChars, id);
      FirstMatchIsLeftmost(url, VIDEO_PREFIX, Digits, id);
    }
  }

  /** The embed URL determines the reference it was built from. */
  lemma EmbedUrlInjective(a: TwitchRef, b: TwitchRef)
    requires EmbedUrl(a) == EmbedUrl(b)
    ensures a == b
  {
    var k := |PLAYER_PREFIX|;
    assert EmbedUrl(a)[k] == if a.Channel? then 'c' else 'v';
    assert EmbedUrl(b)[k] == if b.Channel? then 'c' else 'v';
    var tag := if a.Channel? then "channel=" else "video=";
    var x := if a.Channel? then a.name else a.id;
    var y := if b.Channel? then b.name else b.id;
    assert EmbedUrl(a) == (PLAYER_PREFIX + tag) + x;
    assert EmbedUrl(b) == (PLAYER_PREFIX + tag) + y;
    assert x == EmbedUrl(a)[|PLAYER_PREFIX + tag|..];
    assert y == EmbedUrl(b)[|PLAYER_PREFIX + tag|..];
  }

  /** What a recognised reference carries: a channel name is non-empty and
      made of lower-case letters, digits and underscores only, so a name with
      a capital letter is never captured; a video id is a non-empty run of
      digits. Either way the capture stands in the URL right after its prefix
      and is followed by the end of the URL or by `?`. */
  lemma TargetCapture(url: string)
    ensures Target(url).Some? && Target(url).value.Channel? ==>
      var n := Target(url).value.name;
      n != "" && (forall k :: 0 <= k < |n| ==> IsChannelChar(n[k])) &&
      exists p :: MatchesAt(url, p, CHANNEL_PREFIX, ChannelChars, n)
    ensures Target(url).Some? && Target(url).value.Video? ==>
      var id := Target(url).value.id;
      id != "" && (forall k :: 0 <= k < |id| ==> IsDigit(id[k])) &&
      exists p :: MatchesAt(url, p, VIDEO_PREFIX, Digits, id)
  {
    TargetPrecedence(url);
  }
}
