/** The link-preview record and the canonical error record. */
module LinkMeta {
  import opened Js

  /** The record `collectMeta` assembles (src/main.js:62-77). Every field but
      `url` holds `undefined`, `null` or a string. A key the record does not
      have at all reads as `undefined`, and is modelled so. */
  datatype Meta = Meta(
    url: string,
    image: Val,
    imageWidth: Val,
    imageHeight: Val,
    imageType: Val,
    title: Val,
    description: Val,
    siteName: Val,
    ogVideoUrl: Val,
    ogUrl: Val,
    youtube: Val)

  /** `getError` (src/main.js:92-101): the URL echoed, the image, description
      and site fields null, `title` deliberately left undefined, and no
      `ogVideoUrl`, `ogUrl` or `youtube` key. */
  function ErrorRecord(url: string): Meta {
    Meta(url, Null, Null, Null, Null, Undefined, Null, Null, Undefined, Undefined, Undefined)
  }

  /** The outside interactions one call makes, in order: the page request and
      the Twitch lookups. */
  datatype Call =
    | HttpGet(url: string, timeout: int)
    | UsersByName(name: string)
    | GetVideo(id: string)
}
