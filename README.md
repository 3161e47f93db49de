# link-preview, modelled in Dafny

`link-preview` takes one URL and resolves it to a preview record. It works in
these steps:

1. It rejects an empty or absent URL.
2. It gives the canonical error record for a URL that does not look like
   `http(s)://letters.letters…`.
3. It fetches the page and reads the `<meta property=…>` tags and `<title>`
   of the page.
4. It builds the record with `||` fallback chains.
5. It splits a video value into a generic `ogVideoUrl` and a YouTube-specific
   `youtube` field.
6. When a Twitch client id is given and the page offered no video, it
   recognises Twitch channel and video URLs. It sets a Twitch player URL and
   overwrites title, description and image with what the Twitch API answers.

All of this lives in `src/main.js`. The model covers it apart from its I/O.

Modules:

- `Js` (`js.dfy`) covers the JavaScript values a record field holds
  (`undefined`, `null`, string), truthiness and `||`. It also covers
  `indexOf` with its clamped start position and `slice` with its clamped ends.
- `Chars` (`chars.dfy`) holds the character classes of the three regular
  expressions and the greedy "longest run of a class" scan.
- `UrlShape` (`shape.dfy`) is a hand-written matcher for the URL shape test
  at src/main.js:105. It is proved equal to a literal reading of the pattern.
- `Twitch` (`twitch.dfy`) has hand-written matchers for the two unanchored
  Twitch patterns, proved to find the leftmost match of each pattern's core
  (`twitch.tv/…` onwards). The header of `twitch.dfy` argues, without a
  proof, that the optional `www.`/`go.` group cannot change whether there is
  a match or what it captures. The module also builds the
  channel-before-video reference and the player URL.
- `LinkMeta` (`record.dfy`) holds the preview record, the error record
  (`getError`) and the outside calls one resolution makes.
- `Extract` (`extract.dfy`) covers:
  - `getByProp` on an abstract document, checked against a declarative
    "first tag with that property" reference;
  - `getByTag`;
  - `getValue`, with its index arithmetic as written;
  - the record literal of `collectMeta` and its fallback and video-split
    properties.
- `Enrich` (`enrich.dfy`) models `collectTwitchMeta` as a method of a
  mutable record object. It is specified by a pure merge function, which
  comes with properties for every API outcome.
- `Pipeline` (`pipeline.dfy`) holds `collectMeta` and `linkPreview` as
  methods, each proved equal to a value-level description. It also has the
  dispatch and call-trace properties.

The outside world is a set of parameters:

- The page request is a function from URL and timeout to "no response" or
  "status code and parsed document".
- The Twitch API is a pair of functions from a channel name or a video id to
  a reply.
- Each method also returns the sequence of outside calls it made, in order.

### Behaviour worth knowing

- `twitch.tv/someChannel` is not recognised as a Twitch URL. The channel
  class `[a-z0-9_]` has no `i` flag, so a capital letter stops the capture,
  and what follows is not end-of-string or `?`. `Twitch.TargetCapture`
  states that a captured channel name is made of lower-case letters, digits
  and underscores only.
- Only channel and video URLs are recognised; Twitch clip URLs are not.
- The client id is stored in the API client's global state rather than
  passed with each lookup; that state is left out here.
- The Twitch path looks only at the input URL, never at `og:url` or the
  page's video tags. It runs only when `ogVideoUrl` is falsy and `youtube`
  is null.
- A YouTube `og:video*` value goes into `youtube` raw. It is not turned
  into an embed URL.
- `ogVideoUrl` is the empty string when the page has no video tag. It is not
  null.
- `getValue` does a substring search, not query-string parsing.
  - It finds `v=` anywhere, including inside another parameter's name such
    as `nav=`.
  - When `v=` is absent it returns the slice that starts at index 1 (the
    length of `v`). `Extract.YoutubeEmbedWithoutV` states this for a URL
    without `&`.

## Model

| member | source | states |
|---|---|---|
| Js.IndexFrom | src/main.js:86-87 | the search returns the first position at or after `k` where the pattern occurs, and -1 exactly when it occurs nowhere from `k` on |
| Js.IndexOf | src/main.js:86-87 | `indexOf` with its start clamped to `[0, length]`: the first occurrence at or after the clamped start, or -1 exactly when there is none |
| Js.Contains | src/main.js:71-76 | `indexOf(...) >= 0` holds exactly when the pattern occurs somewhere |
| Chars.StartsWithCi | src/main.js:105 | the character-by-character case-insensitive prefix test agrees with case-folded equality on the first `|w|` characters |
| Chars.SpanRun | src/main.js:5-6 | the greedy run is all of the class and ends at the end of the string or at a character outside the class |
| Chars.SpanMaximal | src/main.js:5-6 | any all-class run followed by the end or a non-class character is the one the greedy scan measures |
| UrlShape.LooksLikeUrlIsShapeRegex | src/main.js:105 | the hand-written matcher accepts a string exactly when the pattern `^http(s)?:\/\/[a-z]+\.[a-z]+(.)+` with the `i` flag matches it for some split |
| UrlShape.LooksLikeUrlSound | src/main.js:105 | an accepted string matches with the greedy letter run, one letter after the dot and one more character that is not a line terminator |
| UrlShape.LooksLikeUrlComplete | src/main.js:105 | every way the pattern can match (either scheme, any run lengths) is accepted by the matcher |
| UrlShape.LooksLikeUrl | src/main.js:105 | the shape test; specified by LooksLikeUrlIsShapeRegex, LooksLikeUrlSound and LooksLikeUrlComplete |
| UrlShape.NoSchemeRejected | src/main.js:105 | a string that starts with neither `http://` nor `https://` (in any case) fails the shape test |
| UrlShape.NotAUrlRejected | src/main.js:105 | the string `not a url` fails the shape test |
| Twitch.CaptureAfterPrefix | src/main.js:5-6 | the character-by-character prefix check fails exactly when the literal prefix is not there, and otherwise hands over to the capture |
| Twitch.IdAtMatches | src/main.js:5-6 | at a fixed position, the matcher captures `id` exactly when the literal pattern core matches there with group 1 equal to `id` |
| Twitch.IdAtSound | src/main.js:5-6 | a capture at a position is a literal match of prefix, class run and end-or-`?` there |
| Twitch.IdAtComplete | src/main.js:5-6 | a literal match at a position is found by the matcher with the same capture |
| Twitch.FirstMatchFrom | src/main.js:5-6 | scanning from `from`, the result is the capture at the first position at or after `from` where one exists, and none exactly when no later position has one |
| Twitch.FirstMatchIsLeftmost | src/main.js:5-6 | the scan returns group 1 of the leftmost match, and nothing exactly when the pattern matches nowhere in the string |
| Twitch.MatchVideo | src/main.js:5 | `MATCH_VIDEO_URL`'s group 1; specified by FirstMatchIsLeftmost with the `twitch.tv/videos/` prefix and digits |
| Twitch.MatchChannel | src/main.js:6 | `MATCH_CHANNEL_URL`'s group 1; specified by FirstMatchIsLeftmost with the `twitch.tv/` prefix and `[a-z0-9_]` |
| Twitch.IsTwitch | src/main.js:8-10 | either pattern matches; specified through Target and TargetPrecedence |
| Twitch.EmbedUrl | src/main.js:18 | the player URL template; specified by EmbedUrlInjective and MergeEmbeds |
| Twitch.Target | src/main.js:8-10 | a reference is derived exactly when `isTwitch` holds |
| Twitch.TargetPrecedence | src/main.js:15-16 | a channel match anywhere takes precedence, with the leftmost channel capture; a video reference means the channel pattern matches nowhere and carries the leftmost video capture |
| Twitch.TargetCapture | src/main.js:5-6 | a channel name is non-empty lower-case letters, digits and `_`; a video id is non-empty digits; each stands in the URL after its prefix and before the end or `?` |
| Twitch.EmbedUrlInjective | src/main.js:18 | different channel or video references never give the same player URL |
| Extract.PropValue | src/main.js:48-51 | the reference value of a property is null or a non-empty string |
| Extract.FindFrom | src/main.js:48-50 | the search returns the first tag at or after `k` with the property, and none exactly when no such tag exists |
| Extract.GetByProp | src/main.js:48-51 | the `|| null` normalisation: the value is null or a non-empty string |
| Extract.GetByPropIsPropValue | src/main.js:48-51 | `getByProp` returns the content of the first tag with the property, and null when there is no such tag or its content is missing or empty |
| Extract.GetByTag | src/main.js:53-56 | the first `<title>` content when there is one and it is non-empty, and null otherwise |
| Extract.GetByPropIgnoresLaterTags | src/main.js:48-51 | tags appended after the first tag with a property never change what `getByProp` returns for it |
| Extract.GetValue | src/main.js:85-90 | `getValue` with its index arithmetic as written; specified by GetValueNoAmp, GetValueFound and GetValueMissing |
| Js.Slice | src/main.js:89 | `slice` with both ends clamped; specified through AmpSliceIsSegment |
| Extract.GetValueNoAmp | src/main.js:85-90 | what `getValue` returns never contains `&` |
| Extract.GetValueFound | src/main.js:85-90 | when `name=` occurs, the result is the `&`-free stretch that starts right after its first occurrence and ends at the next `&` or the end |
| Extract.GetValueMissing | src/main.js:85-90 | when `name=` does not occur, the result is the `&`-free stretch that starts at index `name.length` (empty for a shorter URL); the `i < 0` guard cannot fire |
| Extract.AmpSliceIsSegment | src/main.js:87-89 | slicing from `i` to the next `&` or the end yields the `&`-free stretch from `i`, or the empty string past the end |
| Extract.YoutubeEmbedWithoutV | src/main.js:76 | a youtube `og:url` without `v=` and without `&` gets everything after its first character as the embed id |
| Extract.CollectRecord | src/main.js:59-77 | the record literal of `collectMeta`; specified by CollectTitle, CollectDescription, CollectPlainFields, CollectVideoSplit and CollectTwitchGate |
| LinkMeta.ErrorRecord | src/main.js:92-101 | `getError`; told apart from every collected record by CollectedHasOgUrl and ResolvedRecord |
| Extract.VideoFieldsArePropValues | src/main.js:59-60 | the three tags the video split reads are read as first-tag values |
| Extract.CollectTitle | src/main.js:68 | `title` is the og:title value when there is one, else `getByTag`'s value; it is never undefined |
| Extract.CollectDescription | src/main.js:69 | `description` is the first non-null of og:description, description and Description |
| Extract.CollectPlainFields | src/main.js:62-72 | url is echoed; image fields, siteName and ogUrl are their single tag's value with no fallback |
| Extract.CollectVideoSplit | src/main.js:60-76 | a candidate containing `youtube.com` goes raw into `youtube` and leaves `ogVideoUrl` null; otherwise `ogVideoUrl` is the candidate or `""`, and `youtube` is the embed URL from og:url's `v` exactly when og:url contains `youtube.com`, else null |
| Extract.CollectTwitchGate | src/main.js:79 | the gate opens exactly when a client id is given, the page has no video tag value and og:url is not on youtube.com |
| Enrich.Merge | src/main.js:12-46 | the record after the Twitch step; specified by MergeSkipped, MergeEmbeds, MergeChannelFound, MergeVideoFound, MergeLookupFailed, MergeFrame and MergeIdempotent |
| Enrich.MergeCallsShape | src/main.js:21-32 | the step makes at most one lookup, makes one exactly when it runs, and never requests a page |
| Enrich.MetaObject.constructor | src/main.js:62-77 | the object holds the given record |
| Enrich.MetaObject.CollectTwitchMeta | src/main.js:12-46 | the in-place update leaves the object holding the merged record and reports the lookup it made |
| Enrich.MergeSkipped | src/main.js:14 | no Twitch URL or no truthy client id: the record is unchanged and no lookup is made |
| Enrich.MergeEmbeds | src/main.js:14-18 | the player URL for the derived reference is set whatever the API answers, and the one lookup is for the captured name or id |
| Enrich.MergeChannelFound | src/main.js:22-28 | with a non-empty user list, title is the first user's display name, description the bio or else the display name, image the logo |
| Enrich.MergeVideoFound | src/main.js:32-37 | with a video reply, title is its title, description equals title, image is the large preview |
| Enrich.MergeLookupFailed | src/main.js:23-37 | an error or an empty user list changes nothing but the player URL |
| Enrich.MergeFrame | src/main.js:12-46 | url, image size and type, siteName, ogUrl and youtube are never touched |
| Enrich.MergeIdempotent | src/main.js:12-46 | running the step twice against the same API gives the same record as once |
| Pipeline.CollectMeta | src/main.js:58-83 | builds the record and runs the Twitch step only through the gate, with the result and lookups of the value-level description |
| Pipeline.LinkPreview | src/main.js:103-111 | the method settles as the value-level dispatch says and makes exactly the calls it lists |
| Pipeline.RejectedIffFalsyUrl | src/main.js:104 | the promise is rejected exactly for a falsy URL, with the fixed message and no request |
| Pipeline.MalformedUrlIsError | src/main.js:105 | a non-empty URL the shape pattern does not match resolves to the error record without a request |
| Pipeline.FailedFetchIsError | src/main.js:106-110 | a well-shaped URL is requested once with the given or default timeout; no response or a status other than 200 gives the error record whatever the body |
| Pipeline.OkResponseCollects | src/main.js:108 | a 200 response resolves to the collected record, merged with the Twitch reply exactly when the gate conditions hold |
| Pipeline.CallTrace | src/main.js:79-110 | no call, or the page request followed by at most one Twitch lookup; the lookup happens exactly for a 200 response whose record opens the gate on a Twitch URL |
| Pipeline.CollectedHasOgUrl | src/main.js:72 | a collected record echoes the URL, its ogUrl is og:url's value and never undefined, so it is never the error record |
| Pipeline.ResolvedRecord | src/main.js:92-110 | every resolved record echoes the URL and is the error record exactly when it has no ogUrl |

## Left out

- The page request (`linkPreview.makeRequest`, the `request` library, the
  timeout's effect) is a parameter. Only the URL and timeout it is called
  with are recorded.
- HTML parsing and CSS selectors (`cheerio`) are not modelled. A parsed
  page is its `<meta property>` tags in document order plus the inner HTML of
  its `<title>` elements, taken as opaque strings.
- The Twitch API client is a parameter, and the global `api.clientID`
  assignment is left out.
  - A `users` field that is missing from the reply is modelled as an empty
    list, since the code treats both alike.
  - A video reply without a `preview` object makes the callback throw, and
    the promise then never settles. That path is not modelled.
- Promises and callbacks are modelled as sequential calls.
- A non-string truthy `url` (for which `url.match` would throw) is not
  modelled. The URL is `undefined`, `null` or a string.
- `timeout`: a left-out argument is `None` and gets the default 100000.
  Passing `null` explicitly is not modelled.
- A left-out client id defaults to `null`. It behaves like any other falsy
  value, so it is not modelled separately.
- Object keys: the error record has no `ogUrl`, `ogVideoUrl` or `youtube`
  key. The model gives these fields the value `undefined`, which is what
  reading them yields. The difference `in` or `Object.keys` would see is not
  modelled.
- JavaScript strings are UTF-16 code units. Here a string is a sequence of
  Dafny characters, so indices agree only for text in the Basic
  Multilingual Plane.
- Twitch.TargetCapture: concrete URLs such as `https://twitch.tv/videos/12345`
  are not stated as instance lemmas. Their behaviour follows from the general
  precedence and capture lemmas.
