/** The entry point `linkPreview` (src/main.js:103-111) and the assembly step
    `collectMeta` (src/main.js:58-83). The page request is an input: a function
    from the URL and the timeout to what the request library reports. */
module Pipeline {
  import opened Js
  import opened LinkMeta
  import opened UrlShape
  import opened Twitch
  import opened Extract
  import opened Enrich

  const INVALID_URL_MESSAGE := "You must add a valid url"
  const DEFAULT_TIMEOUT := 100000

  /** What the request reports: no response at all, or a status code and a
      body, here already parsed. */
  datatype FetchOutcome = NoResponse | Response(statusCode: int, body: Document)

  /** How the promise settles: rejected with a message object, or resolved
      with a record. */
  datatype Outcome = Rejected(message: string) | Resolved(meta: Meta)

  /** The condition at src/main.js:79 on the collected record. */
  predicate TwitchGate(r: Meta, clientId: Val) {
    Truthy(clientId) && !Truthy(r.ogVideoUrl) && !Truthy(r.youtube)
  }

  /** The record `collectMeta` resolves with. */
  function CollectMetaSpec(doc: Document, url: string, clientId: Val, api: TwitchApi): Meta {
    var r := CollectRecord(doc, url);
    if TwitchGate(r, clientId) then Merge(r, clientId, api) else r
  }

  /** The Twitch lookups `collectMeta` makes. */
  function CollectMetaCalls(doc: Document, url: string, clientId: Val): seq<Call> {
    var r := CollectRecord(doc, url);
    if TwitchGate(r, clientId) then MergeCalls(url, clientId) else []
  }

  /** `collectMeta`: builds the record object and hands it to the Twitch step
      when the gate lets it through. */
  method CollectMeta(doc: Document, url: string, clientId: Val, api: TwitchApi)
    returns (meta: Meta, calls: seq<Call>)
    ensures meta == CollectMetaSpec(doc, url, clientId, api)
    ensures calls == CollectMetaCalls(doc, url, clientId)
  {
    var res := new MetaObject(CollectRecord(doc, url));
    calls := [];
    if Truthy(clientId) && !Truthy(res.ogVideoUrl) && !Truthy(res.youtube) {
      calls := res.CollectTwitchMeta(clientId, api);
    }
    meta := res.Value();
  }

  /** The timeout actually used: the default when the argument is left out. */
  function EffectiveTimeout(timeout: Option<int>): int {
    if timeout.Some? then timeout.value else DEFAULT_TIMEOUT
  }

  /** How `linkPreview` settles, as a value. */
  function Expected(url: Val, timeout: Option<int>, clientId: Val,
                    fetch: (string, int) -> FetchOutcome, api: TwitchApi): Outcome
  {
    if !Truthy(url) then Rejected(INVALID_URL_MESSAGE)
    else if !LooksLikeUrl(url.s) then Resolved(ErrorRecord(url.s))
    else match fetch(url.s, EffectiveTimeout(timeout))
      case NoResponse => Resolved(ErrorRecord(url.s))
      case Response(code, body) =>
        if code == 200 then Resolved(CollectMetaSpec(body, url.s, clientId, api))
        else Resolved(ErrorRecord(url.s))
  }

  /** The outside calls `linkPreview` makes, in order. */
  function ExpectedCalls(url: Val, timeout: Option<int>, clientId: Val,
                         fetch: (string, int) -> FetchOutcome): seq<Call>
  {
    if !Truthy(url) || !LooksLikeUrl(url.s) then []
    else
      var request := HttpGet(url.s, EffectiveTimeout(timeout));
      match fetch(url.s, EffectiveTimeout(timeout))
      case NoResponse => [request]
      case Response(code, body) =>
        if code == 200 then [request] + CollectMetaCalls(body, url.s, clientId)
        else [request]
  }

  /** `linkPreview`. */
  method LinkPreview(url: Val, timeout: Option<int>, clientId: Val,
                     fetch: (string, int) -> FetchOutcome, api: TwitchApi)
    returns (o: Outcome, calls: seq<Call>)
    ensures o == Expected(url, timeout, clientId, fetch, api)
    ensures calls == ExpectedCalls(url, timeout, clientId, fetch)
  {
    calls := [];
    if !Truthy(url) {
      return Rejected(INVALID_URL_MESSAGE), calls;
    }
    if !LooksLikeUrl(url.s) {
      return Resolved(ErrorRecord(url.s)), calls;
    }
    var t := EffectiveTimeout(timeout);
    var reply := fetch(url.s, t);
    calls := [HttpGet(url.s, t)];
    if reply.Response? && reply.statusCode == 200 {
      var meta, twitchCalls := CollectMeta(reply.body, url.s, clientId, api);
      o := Resolved(meta);
      calls := calls + twitchCalls;
    } else {
      o := Resolved(ErrorRecord(url.s));
    }
  }

  // ---------------------------------------------------------------------
  // Properties of the pipeline

  /** The promise is rejected exactly for a falsy URL (missing, null or
      empty), and then nothing is requested. */
  lemma RejectedIffFalsyUrl(url: Val, timeout: Option<int>, clientId: Val,
                            fetch: (string, int) -> FetchOutcome, api: TwitchApi)
    ensures Expected(url, timeout, clientId, fetch, api).Rejected? <==> !Truthy(url)
    ensures !Truthy(url) ==>
      Expected(url, timeout, clientId, fetch, api) == Rejected(INVALID_URL_MESSAGE) &&
      ExpectedCalls(url, timeout, clientId, fetch) == []
  {
  }

  /** A URL of the wrong shape resolves to the error record without a request. */
  lemma MalformedUrlIsError(u: string, timeout: Option<int>, clientId: Val,
                            fetch: (string, int) -> FetchOutcome, api: TwitchApi)
    requires u != "" && !ShapeRegexMatches(u)
    ensures Expected(Str(u), timeout, clientId, fetch, api) == Resolved(ErrorRecord(u))
    ensures ExpectedCalls(Str(u), timeout, clientId, fetch) == []
  {
    LooksLikeUrlIsShapeRegex(u);
  }

  /** A well-shaped URL is requested once, with the given or the default
      timeout; a missing response or a status other than 200 resolves to the
      error record whatever the body. */
  lemma FailedFetchIsError(u: string, timeout: Option<int>, clientId: Val,
                           fetch: (string, int) -> FetchOutcome, api: TwitchApi)
    requires ShapeRegexMatches(u)
    requires var f := fetch(u, EffectiveTimeout(timeout)); f.NoResponse? || f.statusCode != 200
    ensures Expected(Str(u), timeout, clientId, fetch, api) == Resolved(ErrorRecord(u))
    ensures ExpectedCalls(Str(u), timeout, clientId, fetch) ==
      [HttpGet(u, if timeout.Some? then timeout.value else DEFAULT_TIMEOUT)]
  {
    LooksLikeUrlIsShapeRegex(u);
  }

  /** A 200 response resolves to the collected record, enriched from Twitch
      exactly when the gate and the URL allow it. */
  lemma OkResponseCollects(u: string, timeout: Option<int>, clientId: Val,
                           fetch: (string, int) -> FetchOutcome, api: TwitchApi, doc: Document)
    requires ShapeRegexMatches(u)
    requires fetch(u, EffectiveTimeout(timeout)) == Response(200, doc)
    ensures var r := CollectRecord(doc, u);
      var og := PropValue(doc.metas, "og:url");
      var asked := Truthy(clientId) && VideoCandidate(doc.metas) == "" &&
                   !(og.Str? && Contains(og.s, YOUTUBE_HOST));
      Expected(Str(u), timeout, clientId, fetch, api) ==
        Resolved(if asked then Merge(r, clientId, api) else r)
  {
    LooksLikeUrlIsShapeRegex(u);
    CollectTwitchGate(doc, u, clientId);
  }

  /** The call trace: nothing, or the page request followed by at most one
      Twitch lookup; a lookup happens exactly when the page came back with
      200, the gate opens and the URL is a Twitch URL. */
  lemma CallTrace(url: Val, timeout: Option<int>, clientId: Val,
                  fetch: (string, int) -> FetchOutcome)
    ensures var calls := ExpectedCalls(url, timeout, clientId, fetch);
      |calls| <= 2 &&
      (|calls| > 0 <==> Truthy(url) && LooksLikeUrl(url.s)) &&
      (|calls| > 0 ==> calls[0] == HttpGet(url.s, EffectiveTimeout(timeout))) &&
      (|calls| == 2 <==>
        Truthy(url) && LooksLikeUrl(url.s) &&
        var f := fetch(url.s, EffectiveTimeout(timeout));
        f.Response? && f.statusCode == 200 &&
        TwitchGate(CollectRecord(f.body, url.s), clientId) && IsTwitch(url.s)) &&
      (|calls| == 2 ==> !calls[1].HttpGet?)
  {
    var calls := ExpectedCalls(url, timeout, clientId, fetch);
    if Truthy(url) && LooksLikeUrl(url.s) {
      var f := fetch(url.s, EffectiveTimeout(timeout));
      var request := HttpGet(url.s, EffectiveTimeout(timeout));
      if f.Response? && f.statusCode == 200 {
        var tail := CollectMetaCalls(f.body, url.s, clientId);
        assert calls == [request] + tail;
        MergeCallsShape(url.s, clientId);
      } else {
        assert calls == [request];
      }
    } else {
      assert calls == [];
    }
  }

  /** A collected record echoes the URL and always has an `ogUrl` that is null or a string,
      while the error record has none; the Twitch step keeps it. */
  lemma CollectedHasOgUrl(doc: Document, url: string, clientId: Val, api: TwitchApi)
    ensures CollectMetaSpec(doc, url, clientId, api).url == url
    ensures CollectMetaSpec(doc, url, clientId, api).ogUrl == PropValue(doc.metas, "og:url")
    ensures CollectMetaSpec(doc, url, clientId, api).ogUrl != Undefined
    ensures CollectMetaSpec(doc, url, clientId, api) != ErrorRecord(url)
  {
    MergeFrame(CollectRecord(doc, url), clientId, api);
    GetByPropIsPropValue(doc, "og:url");
  }

  /** Every resolved record echoes the URL, and it is the error record exactly
      when it has no `ogUrl`. */
  lemma ResolvedRecord(url: Val, timeout: Option<int>, clientId: Val,
                       fetch: (string, int) -> FetchOutcome, api: TwitchApi)
    requires Expected(url, timeout, clientId, fetch, api).Resolved?
    ensures var m := Expected(url, timeout, clientId, fetch, api).meta;
      url.Str? && m.url == url.s && (m == ErrorRecord(url.s) <==> m.ogUrl == Undefined)
  {
    var m := Expected(url, timeout, clientId, fetch, api).meta;
    var f := fetch(url.s, EffectiveTimeout(timeout));
    if LooksLikeUrl(url.s) && f.Response? && f.statusCode == 200 {
      assert m == CollectMetaSpec(f.body, url.s, clientId, api);
      CollectedHasOgUrl(f.body, url.s, clientId, api);
    } else {
      assert m == ErrorRecord(url.s);
    }
  }
}
