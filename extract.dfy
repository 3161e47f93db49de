/** Tag extraction with fallback chains, query-value extraction and the
    record literal of `collectMeta` (src/main.js:48-90). The parsed page is
    abstracted to what the pipeline asks of it: its `<meta property=…>` tags in
    document order and the inner HTML of its `<title>` elements. */
module Extract {
  import opened Js
  import opened LinkMeta

  /** A `<meta property="…" content="…">` tag; `content` may be missing. */
  datatype MetaTag = MetaTag(property: string, content: Option<string>)

  datatype Document = Document(metas: seq<MetaTag>, titles: seq<string>)

  const YOUTUBE_HOST := "youtube.com"
  const YOUTUBE_EMBED := "https://youtube.com/embed/"

  // ---------------------------------------------------------------------
  // Reference definition of "the value declared for a property"

  /** `i` is the position of the first tag whose property is `p`. */
  ghost predicate FirstTagAt(ms: seq<MetaTag>, p: string, i: int) {
    0 <= i < |ms| && ms[i].property == p && forall j :: 0 <= j < i ==> ms[j].property != p
  }

  /** A missing or empty content is no value. */
  function ContentValue(c: Option<string>): Val {
    match c
    case None => Null
    case Some(x) => if x == "" then Null else Str(x)
  }

  /** The content of the first tag with property `p` when it is a non-empty
      string, and null otherwise (also when no tag has that property). */
  ghost function PropValue(ms: seq<MetaTag>, p: string): (v: Val)
    ensures v == Null || (v.Str? && v.s != "")
  {
    if exists i :: FirstTagAt(ms, p, i) then
      var i :| FirstTagAt(ms, p, i); ContentValue(ms[i].content)
    else Null
  }

  // ---------------------------------------------------------------------
  // The extractor

  /** Document-order search for a tag with property `p` from position `k`. */
  function FindFrom(ms: seq<MetaTag>, p: string, k: nat): (r: Option<nat>)
    ensures r.Some? ==> k <= r.value < |ms| && ms[r.value].property == p &&
                        forall j :: k <= j < r.value ==> ms[j].property != p
    ensures r.None? ==> forall j :: k <= j < |ms| ==> ms[j].property != p
    decreases |ms| - k
  {
    if k >= |ms| then None
    else if ms[k].property == p then Some(k)
    else FindFrom(ms, p, k + 1)
  }

  /** `.attr("content")` of `.first()` of the selection: undefined when the
      selection is empty or the attribute is missing. */
  function FirstContent(ms: seq<MetaTag>, p: string): Val {
    match FindFrom(ms, p, 0)
    case None => Undefined
    case Some(i) =>
      match ms[i].content
      case None => Undefined
      case Some(c) => Str(c)
  }

  /** `getByProp` (src/main.js:48-51): only the first matching tag is read,
      and a falsy content becomes null. */
  function GetByProp(doc: Document, p: string): (r: Val)
    ensures r == Null || (r.Str? && r.s != "")
  {
    Or(FirstContent(doc.metas, p), Null)
  }

  /** The extractor yields the reference value. */
  lemma GetByPropIsPropValue(doc: Document, p: string)
    ensures GetByProp(doc, p) == PropValue(doc.metas, p)
  {
    var f := FindFrom(doc.metas, p, 0);
    if f.Some? {
      assert FirstTagAt(doc.metas, p, f.value);
      forall i | FirstTagAt(doc.metas, p, i) ensures i == f.value { }
    } else {
      assert forall i :: !FirstTagAt(doc.metas, p, i);
    }
  }

  /** `getByTag` (src/main.js:53-56): the inner HTML of the first `<title>`,
      or null when there is none or it is empty. Its second argument is unused. */
  function GetByTag(doc: Document, tag: string): (r: Val)
    ensures r == Null || (r.Str? && r.s != "")
    ensures r.Str? <==> doc.titles != [] && doc.titles[0] != ""
    ensures r.Str? ==> r.s == doc.titles[0]
  {
    Or(if doc.titles == [] then Null else Str(doc.titles[0]), Null)
  }

  /** Only the first tag with a property is ever read: tags after it, with
      that property or any other, change nothing. */
  lemma {:induction false} GetByPropIgnoresLaterTags(ms: seq<MetaTag>, rest: seq<MetaTag>, titles: seq<string>, p: string, i: nat)
    requires i < |ms| && ms[i].property == p
    ensures GetByProp(Document(ms + rest, titles), p) == GetByProp(Document(ms, titles), p)
  {
    var all := ms + rest;
    var f := FindFrom(ms, p, 0).value;
    assert FirstTagAt(ms, p, f);
    assert FirstTagAt(all, p, f) by {
      assert forall j :: 0 <= j <= f ==> all[j] == ms[j];
    }
    forall j | FirstTagAt(all, p, j) ensures j == f { }
    forall j | FirstTagAt(ms, p, j) ensures j == f { }
    assert all[f] == ms[f];
  }

  // ---------------------------------------------------------------------
  // Query values

  /** `getValue` (src/main.js:85-90), index arithmetic as written. When
      `name=` is absent, `indexOf` gives -1 and `i` becomes `|name|`: the
      `i < 0` guard cannot fire. */
  function GetValue(url: string, name: string): string {
    var i := IndexOf(url, name + "=", 0) + |name| + 1;
    var j := IndexOf(url, "&", i);
    var end := if j < 0 then |url| else j;
    if i < 0 then "" else Slice(url, i, end)
  }

  /** `r` is the longest `&`-free stretch of `url` that starts at `st`. */
  ghost predicate AmpSegment(url: string, st: int, r: string) {
    0 <= st && st + |r| <= |url| && url[st..st + |r|] == r && '&' !in r &&
    (st + |r| == |url| || url[st + |r|] == '&')
  }

  /** What `getValue` returns never contains `&`. */
  lemma GetValueNoAmp(url: string, name: string)
    ensures '&' !in GetValue(url, name)
  {
    var i := IndexOf(url, name + "=", 0) + |name| + 1;
    var j := IndexOf(url, "&", i);
    assert GetValue(url, name) == Slice(url, i, if j < 0 then |url| else j);
    AmpSliceIsSegment(url, i);
  }

  /** When `name=` occurs, `getValue` returns the stretch after its first
      occurrence up to the next `&` or the end. */
  lemma GetValueFound(url: string, name: string, k: int)
    requires FirstOccurrence(url, name + "=", k)
    ensures AmpSegment(url, k + |name| + 1, GetValue(url, name))
  {
    IndexOfFirst(url, name + "=", k);
    var i := k + |name| + 1;
    var j := IndexOf(url, "&", i);
    assert GetValue(url, name) == Slice(url, i, if j < 0 then |url| else j);
    AmpSliceIsSegment(url, i);
  }

  /** When `name=` does not occur, `getValue` returns the stretch from index
      `|name|` on (empty when the URL is shorter than that): not an empty
      string, as the dead `i < 0` guard suggests was intended. */
  lemma GetValueMissing(url: string, name: string)
    requires NoOccurrence(url, name + "=")
    ensures if |name| <= |url| then AmpSegment(url, |name|, GetValue(url, name)) else GetValue(url, name) == ""
  {
    assert IndexOf(url, name + "=", 0) == -1;
    AmpSliceIsSegment(url, |name|);
  }

  lemma IndexOfFirst(s: string, pat: string, k: int)
    requires FirstOccurrence(s, pat, k)
    ensures IndexOf(s, pat, 0) == k
  {
  }

  /** The slice from `i` up to the next `&` at or after `i` (or the end) is the
      `&`-free stretch starting at `i`, or empty when `i` lies past the end. */
  lemma AmpSliceIsSegment(url: string, i: nat)
    ensures var j := IndexOf(url, "&", i);
      var r := Slice(url, i, if j < 0 then |url| else j);
      '&' !in r && (i <= |url| ==> AmpSegment(url, i, r)) && (i > |url| ==> r == "")
  {
    var j := IndexOf(url, "&", i);
    var end := if j < 0 then |url| else j;
    var r := Slice(url, i, end);
    if i <= |url| {
      assert r == url[i..end];
      forall q | i <= q < end ensures url[q] != '&' {
        OccursAtChar(url, '&', q);
      }
      if j >= 0 {
        OccursAtChar(url, '&', j);
      }
      assert AmpSegment(url, i, r);
    }
  }

  /** An `og:url` on youtube.com without a `v=` parameter gets an embed id
      cut from the URL itself, from its second character on. */
  lemma YoutubeEmbedWithoutV(u: string)
    requires NoOccurrence(u, "v=") && '&' !in u && |u| >= 1
    ensures GetValue(u, "v") == u[1..]
  {
    assert "v" + "=" == "v=";
    GetValueMissing(u, "v");
    var r := GetValue(u, "v");
    assert u[1..1 + |r|] == r;
  }

  // ---------------------------------------------------------------------
  // The record literal of collectMeta

  /** `res` in `collectMeta` (src/main.js:59-77), before the Twitch step. */
  function CollectRecord(doc: Document, url: string): Meta {
    var ogUrl := GetByProp(doc, "og:url");
    var ogVideoUrl := Or(Or(GetByProp(doc, "og:video:secure_url"), GetByProp(doc, "og:video:url")), Str(""));
    var isYoutube := Contains(OrString(ogVideoUrl, ""), YOUTUBE_HOST);
    Meta(
      url := url,
      image := GetByProp(doc, "og:image"),
      imageWidth := GetByProp(doc, "og:image:width"),
      imageHeight := GetByProp(doc, "og:image:height"),
      imageType := GetByProp(doc, "og:image:type"),
      title := Or(GetByProp(doc, "og:title"), GetByTag(doc, "title")),
      description := Or(Or(GetByProp(doc, "og:description"), GetByProp(doc, "description")),
                        GetByProp(doc, "Description")),
      siteName := GetByProp(doc, "og:site_name"),
      ogVideoUrl := if isYoutube then Null else ogVideoUrl,
      ogUrl := ogUrl,
      youtube :=
        if isYoutube then ogVideoUrl
        else if !Truthy(ogUrl) then Null
        else if Contains(ogUrl.s, YOUTUBE_HOST) then Str(YOUTUBE_EMBED + GetValue(ogUrl.s, "v"))
        else Null)
  }

  /** The candidate video value: `og:video:secure_url`, else `og:video:url`,
      else the empty string. */
  ghost function VideoCandidate(ms: seq<MetaTag>): string {
    var sec := PropValue(ms, "og:video:secure_url");
    var plain := PropValue(ms, "og:video:url");
    if sec.Str? then sec.s else if plain.Str? then plain.s else ""
  }

  lemma VideoFieldsArePropValues(doc: Document)
    ensures GetByProp(doc, "og:video:secure_url") == PropValue(doc.metas, "og:video:secure_url")
    ensures GetByProp(doc, "og:video:url") == PropValue(doc.metas, "og:video:url")
    ensures GetByProp(doc, "og:url") == PropValue(doc.metas, "og:url")
  {
    GetByPropIsPropValue(doc, "og:video:secure_url");
    GetByPropIsPropValue(doc, "og:video:url");
    GetByPropIsPropValue(doc, "og:url");
  }

  /** `title`: the first og:title tag's content if non-empty, else the first
      `<title>` content if non-empty, else null; never undefined. */
  lemma CollectTitle(doc: Document, url: string)
    ensures var t := CollectRecord(doc, url).title;
      t != Undefined &&
      (t.Str? ==> t.s != "") &&
      (PropValue(doc.metas, "og:title").Str? ==> t == PropValue(doc.metas, "og:title")) &&
      (PropValue(doc.metas, "og:title") == Null ==> t == GetByTag(doc, "title"))
  {
    GetByPropIsPropValue(doc, "og:title");
  }

  /** `description`: the first non-null of og:description, description and
      Description, each read from the first tag with that exact property. */
  lemma CollectDescription(doc: Document, url: string)
    ensures var d := CollectRecord(doc, url).description;
      var a := PropValue(doc.metas, "og:description");
      var b := PropValue(doc.metas, "description");
      var c := PropValue(doc.metas, "Description");
      d == (if a.Str? then a else if b.Str? then b else c)
  {
    GetByPropIsPropValue(doc, "og:description");
    GetByPropIsPropValue(doc, "description");
    GetByPropIsPropValue(doc, "Description");
  }

  /** The image fields, the site name and og:url have no fallback, and the
      URL is echoed. */
  lemma CollectPlainFields(doc: Document, url: string)
    ensures var r := CollectRecord(doc, url);
      r.url == url &&
      r.image == PropValue(doc.metas, "og:image") &&
      r.imageWidth == PropValue(doc.metas, "og:image:width") &&
      r.imageHeight == PropValue(doc.metas, "og:image:height") &&
      r.imageType == PropValue(doc.metas, "og:image:type") &&
      r.siteName == PropValue(doc.metas, "og:site_name") &&
      r.ogUrl == PropValue(doc.metas, "og:url")
  {
    GetByPropIsPropValue(doc, "og:image");
    GetByPropIsPropValue(doc, "og:image:width");
    GetByPropIsPropValue(doc, "og:image:height");
    GetByPropIsPropValue(doc, "og:image:type");
    GetByPropIsPropValue(doc, "og:site_name");
    GetByPropIsPropValue(doc, "og:url");
  }

  /** The video split: a candidate on youtube.com goes raw into `youtube`
      and leaves `ogVideoUrl` null; any other candidate (the empty string when
      there is no video tag) becomes `ogVideoUrl`, and `youtube` is then an
      embed URL built from og:url's `v` value exactly when og:url is on
      youtube.com, and null otherwise. */
  lemma CollectVideoSplit(doc: Document, url: string)
    ensures var r := CollectRecord(doc, url);
      var c := VideoCandidate(doc.metas);
      var og := PropValue(doc.metas, "og:url");
      (Contains(c, YOUTUBE_HOST) ==> r.ogVideoUrl == Null && r.youtube == Str(c)) &&
      (!Contains(c, YOUTUBE_HOST) ==>
        r.ogVideoUrl == Str(c) &&
        r.youtube == (if og.Str? && Contains(og.s, YOUTUBE_HOST)
                      then Str(YOUTUBE_EMBED + GetValue(og.s, "v")) else Null))
  {
    VideoFieldsArePropValues(doc);
  }

  /** The gate at src/main.js:79 on a freshly collected record: the Twitch
      step is considered exactly when a client id is given, the page declares
      no video and its og:url is not on youtube.com. */
  lemma CollectTwitchGate(doc: Document, url: string, clientId: Val)
    ensures var r := CollectRecord(doc, url);
      var og := PropValue(doc.metas, "og:url");
      (Truthy(clientId) && !Truthy(r.ogVideoUrl) && !Truthy(r.youtube)) <==>
      (Truthy(clientId) && VideoCandidate(doc.metas) == "" &&
       !(og.Str? && Contains(og.s, YOUTUBE_HOST)))
  {
    VideoFieldsArePropValues(doc);
    var c := VideoCandidate(doc.metas);
    if Contains(c, YOUTUBE_HOST) {
      var k :| OccursAt(c, YOUTUBE_HOST, k);
      assert c != "";
    }
  }
}
