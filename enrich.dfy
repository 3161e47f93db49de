/** The Twitch enrichment step `collectTwitchMeta` (src/main.js:12-46). The
    record is an object whose fields the step overwrites in place; the two
    Twitch API lookups are an input whose replies the model takes as given. */
module Enrich {
  import opened Js
  import opened LinkMeta
  import opened Twitch

  /** The parts of a Twitch user the step reads. */
  datatype TwitchUser = TwitchUser(displayName: Val, bio: Val, logo: Val)

  /** The reply to `users.usersByName`: an error, or a `users` list (a missing
      list reads like an empty one). */
  datatype UsersReply = UsersFailed | Users(users: seq<TwitchUser>)

  /** The reply to `videos.getVideo`: an error, or a video with its title and
      `preview.large`. */
  datatype VideoReply = VideoFailed | VideoFound(title: Val, previewLarge: Val)

  /** What the Twitch API answers for a channel name and for a video id. */
  datatype TwitchApi = TwitchApi(usersByName: string -> UsersReply, getVideo: string -> VideoReply)

  /** The step runs only for a Twitch URL and a truthy client id. */
  predicate Enriches(url: string, clientId: Val) {
    IsTwitch(url) && Truthy(clientId)
  }

  /** The record after the step, as a value: the player URL is set first,
      then the reply, if usable, overwrites title, description and image. */
  function Merge(m: Meta, clientId: Val, api: TwitchApi): Meta {
    if !Enriches(m.url, clientId) then m
    else
      var t := Target(m.url).value;
      var embedded := m.(ogVideoUrl := Str(EmbedUrl(t)));
      match t
      case Channel(name) =>
        (match api.usersByName(name)
         case Users(us) =>
           if |us| > 0 then
             var title := us[0].displayName;
             embedded.(title := title, description := Or(us[0].bio, title), image := us[0].logo)
           else embedded
         case UsersFailed => embedded)
      case Video(id) =>
        (match api.getVideo(id)
         case VideoFound(vt, large) =>
           var title := vt;
           embedded.(title := title, description := Or(vt, title), image := large)
         case VideoFailed => embedded)
  }

  /** The lookups the step makes: one, for the channel or the video, or none. */
  function MergeCalls(url: string, clientId: Val): seq<Call> {
    if !Enriches(url, clientId) then []
    else match Target(url).value
      case Channel(name) => [UsersByName(name)]
      case Video(id) => [GetVideo(id)]
  }

  /** At most one lookup, made exactly when the step runs, and never a page
      request. */
  lemma MergeCallsShape(url: string, clientId: Val)
    ensures |MergeCalls(url, clientId)| <= 1
    ensures |MergeCalls(url, clientId)| == 1 <==> Enriches(url, clientId)
    ensures |MergeCalls(url, clientId)| == 1 ==> !MergeCalls(url, clientId)[0].HttpGet?
  {
  }

  /** The record object `collectMeta` builds and `collectTwitchMeta` mutates. */
  class MetaObject {
    var url: string
    var image: Val
    var imageWidth: Val
    var imageHeight: Val
    var imageType: Val
    var title: Val
    var description: Val
    var siteName: Val
    var ogVideoUrl: Val
    var ogUrl: Val
    var youtube: Val

    function Value(): Meta
      reads this
    {
      Meta(url, image, imageWidth, imageHeight, imageType, title, description,
           siteName, ogVideoUrl, ogUrl, youtube)
    }

    constructor (m: Meta)
      ensures Value() == m
    {
      url := m.url;
      image := m.image;
      imageWidth := m.imageWidth;
      imageHeight := m.imageHeight;
      imageType := m.imageType;
      title := m.title;
      description := m.description;
      siteName := m.siteName;
      ogVideoUrl := m.ogVideoUrl;
      ogUrl := m.ogUrl;
      youtube := m.youtube;
    }

    /** `collectTwitchMeta`: updates the object in place and returns the
        lookups it made. */
    method CollectTwitchMeta(clientId: Val, api: TwitchApi) returns (calls: seq<Call>)
      modifies this
      ensures Value() == Merge(old(Value()), clientId, api)
      ensures calls == MergeCalls(old(url), clientId)
    {
      calls := [];
      var target := Target(url);
      if target.Some? && Truthy(clientId) {
        ogVideoUrl := Str(EmbedUrl(target.value));
        match target.value {
          case Channel(name) =>
            calls := [UsersByName(name)];
            var reply := api.usersByName(name);
            if reply.Users? && |reply.users| > 0 {
              var user := reply.users[0];
              title := user.displayName;
              description := Or(user.bio, title);
              image := user.logo;
            }
          case Video(id) =>
            calls := [GetVideo(id)];
            var reply := api.getVideo(id);
            if reply.VideoFound? {
              title := reply.title;
              description := Or(reply.title, title);
              image := reply.previewLarge;
            }
        }
      }
    }
  }

  // ---------------------------------------------------------------------
  // Properties of the step

  /** Without a Twitch URL or without a truthy client id the record is
      returned untouched and the API is not consulted. */
  lemma MergeSkipped(m: Meta, clientId: Val, api: TwitchApi)
    requires !IsTwitch(m.url) || !Truthy(clientId)
    ensures Merge(m, clientId, api) == m && MergeCalls(m.url, clientId) == []
  {
  }

  /** Otherwise the player URL for the recognised channel or video is set
      whatever the API answers, and exactly one lookup is made, for the
      captured name or id. */
  lemma MergeEmbeds(m: Meta, clientId: Val, api: TwitchApi)
    requires IsTwitch(m.url) && Truthy(clientId)
    ensures var r := Merge(m, clientId, api);
      var t := Target(m.url).value;
      r.ogVideoUrl == Str(EmbedUrl(t)) &&
      r.ogVideoUrl.s[..|PLAYER_PREFIX|] == PLAYER_PREFIX &&
      MergeCalls(m.url, clientId) == (if t.Channel? then [UsersByName(t.name)] else [GetVideo(t.id)])
  {
  }

  /** A channel lookup that returns at least one user: title, description and
      image come from the first user, the description falling back to the
      display name when the bio is falsy. */
  lemma MergeChannelFound(m: Meta, clientId: Val, api: TwitchApi, name: string)
    requires Truthy(clientId) && Target(m.url) == Some(Channel(name))
    requires api.usersByName(name).Users? && |api.usersByName(name).users| > 0
    ensures var r := Merge(m, clientId, api);
      var u := api.usersByName(name).users[0];
      IsTwitch(m.url) &&
      r.title == u.displayName && r.image == u.logo &&
      r.description == (if Truthy(u.bio) then u.bio else u.displayName)
  {
  }

  /** A successful video lookup: the description is the title, which is the
      video title (the fallback reads the title just assigned). */
  lemma MergeVideoFound(m: Meta, clientId: Val, api: TwitchApi, id: string)
    requires Truthy(clientId) && Target(m.url) == Some(Video(id))
    requires api.getVideo(id).VideoFound?
    ensures var r := Merge(m, clientId, api);
      IsTwitch(m.url) &&
      r.title == api.getVideo(id).title && r.description == r.title &&
      r.image == api.getVideo(id).previewLarge
  {
  }

  /** A failed lookup, or a user list that is empty, leaves title,
      description and image as the page gave them. */
  lemma MergeLookupFailed(m: Meta, clientId: Val, api: TwitchApi)
    requires IsTwitch(m.url) && Truthy(clientId)
    requires match Target(m.url).value
      case Channel(name) => api.usersByName(name) == UsersFailed || api.usersByName(name) == Users([])
      case Video(id) => api.getVideo(id) == VideoFailed
    ensures var r := Merge(m, clientId, api);
      r == m.(ogVideoUrl := Str(EmbedUrl(Target(m.url).value)))
  {
  }

  /** The step touches only the player URL, title, description and image. */
  lemma MergeFrame(m: Meta, clientId: Val, api: TwitchApi)
    ensures var r := Merge(m, clientId, api);
      r.url == m.url && r.imageWidth == m.imageWidth && r.imageHeight == m.imageHeight &&
      r.imageType == m.imageType && r.siteName == m.siteName && r.ogUrl == m.ogUrl &&
      r.youtube == m.youtube
  {
  }

  /** Running the step twice against the same API gives the record once:
      everything it writes depends only on the URL, which it leaves alone. */
  lemma MergeIdempotent(m: Meta, clientId: Val, api: TwitchApi)
    ensures Merge(Merge(m, clientId, api), clientId, api) == Merge(m, clientId, api)
  {
  }
}
