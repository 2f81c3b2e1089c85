/**
  `InteractionService.verificarInteracoes`: did a user follow the target page,
  retweet it and reply to a given tweet, with an engagement score. In
  development mode the answers come from three saved fixtures; in production
  mode from the scrapers, with the follower list cached per page.
 */
module InteractionService {
  import opened Optional
  import opened Errors
  import opened JsonValues
  import opened Matching
  import opened TweetUrl
  import opened Scrapers
  import opened FollowerCache
  import opened Calendar
  import opened Strings
  import opened TweetTypes
  import opened Sequences

  /** The run mode (`config.app.env`). */
  datatype Mode = Development | Production

  /** `TimeFilterOptions`; a request without a filter carries `TimeFilter(None, None)`. */
  datatype TimeFilter = TimeFilter(checkSince: Option<string>, maxCacheAge: Option<int>)

  const NoFilter := TimeFilter(None, None)

  /** The three checked interactions; `curtiu` is always null and is not represented. */
  datatype UserInteraction = UserInteraction(seguindo: bool, retweetou: bool, comentou: bool)

  /** `InteractionResult`; `timestamp` is the instant of the answer in milliseconds. */
  datatype InteractionResult = InteractionResult(
    usuario: string,
    tweetUrl: string,
    paginaAlvo: string,
    interacoes: UserInteraction,
    score: int,
    timestamp: int,
    source: Mode,
    cacheUsed: bool,
    newDataSince: Option<string>)

  /** What the production path reports besides the interactions. */
  datatype ProductionVerification = ProductionVerification(interacoes: UserInteraction, cacheUsed: bool, newDataSince: Option<string>)

  /**
    Everything outside the engine: the scrapers, `new Date(text)`, the clock,
    and whether the cache directory accepts writes.
   */
  datatype Environment = Environment(
    source: DataSource,
    parseDate: string -> Option<TimeValue>,
    now: TimeValue,
    cacheWritable: bool)

  /** The examples directory (file name to parsed JSON) and the cache directory. */
  datatype Stores = Stores(fixtures: map<string, Json>, cache: CacheStore)

  /** The answer of a request and the cache directory after it. */
  datatype Response = Response(result: Result<InteractionResult>, cache: CacheStore)

  // ---- score ------------------------------------------------------------

  /** How many of the three interactions took place. */
  function Positives(i: UserInteraction): (k: nat)
    ensures k <= 3
    ensures k == 0 <==> !i.seguindo && !i.retweetou && !i.comentou
    ensures k == 3 <==> i.seguindo && i.retweetou && i.comentou
    ensures k == |Filter([i.seguindo, i.retweetou, i.comentou], (b: bool) => b)|
  {
    var isTrue := (b: bool) => b;
    FilterSnoc([], i.seguindo, isTrue);
    FilterSnoc([i.seguindo], i.retweetou, isTrue);
    FilterSnoc([i.seguindo, i.retweetou], i.comentou, isTrue);
    assert [i.seguindo, i.retweetou] + [i.comentou] == [i.seguindo, i.retweetou, i.comentou];
    (if i.seguindo then 1 else 0) + (if i.retweetou then 1 else 0) + (if i.comentou then 1 else 0)
  }

  /** `calcularScore`: `Math.round(positives / 3 * 100)`, computed in integers. */
  function Score(i: UserInteraction): (s: int)
    ensures s as real <= 100.0 * Positives(i) as real / 3.0 + 0.5 < s as real + 1.0
    ensures s in {0, 33, 67, 100}
  {
    (200 * Positives(i) + 3) / 6
  }

  /** One more interaction never lowers the score. */
  lemma ScoreMonotone(a: UserInteraction, b: UserInteraction)
    requires a.seguindo ==> b.seguindo
    requires a.retweetou ==> b.retweetou
    requires a.comentou ==> b.comentou
    ensures Score(a) <= Score(b)
    ensures Positives(a) < Positives(b) ==> Score(a) < Score(b)
  {
  }

  /** The score depends only on how many interactions took place, not on which. */
  lemma ScoreCountsOnly(a: UserInteraction, b: UserInteraction)
    requires Positives(a) == Positives(b)
    ensures Score(a) == Score(b)
  {
  }

  // ---- development ------------------------------------------------------

  const FollowersFixture := "followers_of_target_page.json"
  const TimelineFixture := "user_timeline_retweets.json"
  const CommentsFixture := "comments_example.json"

  /** `carregarExemplo`: the parsed fixture, or an error when the file cannot be read. */
  function LoadFixture(fixtures: map<string, Json>, name: string): (r: Result<Json>)
    ensures r.Ok? <==> name in fixtures
    ensures r.Ok? ==> r.value == fixtures[name]
    ensures r.Err? ==> r.error == FixtureUnavailable(name)
  {
    if name in fixtures then Ok(fixtures[name]) else Err(FixtureUnavailable(name))
  }

  /** The TypeError of calling `.some` on parsed JSON that is not an array. */
  const NotAnArray := TypeError("some")

  /** Calling `.some` on parsed JSON: only arrays have it. */
  function AsArray(v: Json): (r: Result<seq<Json>>)
    ensures r.Ok? <==> v.JArray?
    ensures r.Ok? ==> r.value == v.items
  {
    if v.JArray? then Ok(v.items) else Err(NotAnArray)
  }

  /** All three fixtures are in the examples directory. */
  predicate HasFixtures(fixtures: map<string, Json>) {
    FollowersFixture in fixtures && TimelineFixture in fixtures && CommentsFixture in fixtures
  }

  /**
    `verificarInteracoesDevelopment`: load the three fixtures, then run the
    follower, retweet and (null-tolerant) comment scans over them.
   */
  function VerifyDevelopment(fixtures: map<string, Json>, usuario: string, paginaAlvo: string): (r: Result<UserInteraction>)
    ensures FollowersFixture !in fixtures ==> r == Err(FixtureUnavailable(FollowersFixture))
    ensures FollowersFixture in fixtures && TimelineFixture !in fixtures ==> r == Err(FixtureUnavailable(TimelineFixture))
    ensures FollowersFixture in fixtures && TimelineFixture in fixtures && CommentsFixture !in fixtures ==>
      r == Err(FixtureUnavailable(CommentsFixture))
    ensures HasFixtures(fixtures) ==>
      var followers, timeline, comments := fixtures[FollowersFixture], fixtures[TimelineFixture], fixtures[CommentsFixture];
      && (r.Ok? <==>
            && followers.JArray? && Follows(followers.items, usuario).Ok?
            && timeline.JArray? && Retweeted(timeline.items, paginaAlvo).Ok?
            && comments.JArray? && CommentedInFixture(comments.items, usuario).Ok?)
      && (!followers.JArray? ==> r == Err(NotAnArray))
      && (followers.JArray? && Follows(followers.items, usuario).Err? ==>
            r == Err(Follows(followers.items, usuario).error))
      && (followers.JArray? && Follows(followers.items, usuario).Ok? && !timeline.JArray? ==> r == Err(NotAnArray))
      && (followers.JArray? && Follows(followers.items, usuario).Ok? && timeline.JArray? && Retweeted(timeline.items, paginaAlvo).Err? ==>
            r == Err(Retweeted(timeline.items, paginaAlvo).error))
      && ((followers.JArray? && Follows(followers.items, usuario).Ok? && timeline.JArray? && Retweeted(timeline.items, paginaAlvo).Ok?
           && !comments.JArray?) ==> r == Err(NotAnArray))
      && ((followers.JArray? && Follows(followers.items, usuario).Ok? && timeline.JArray? && Retweeted(timeline.items, paginaAlvo).Ok?
           && comments.JArray? && CommentedInFixture(comments.items, usuario).Err?) ==>
            r == Err(CommentedInFixture(comments.items, usuario).error))
    ensures r.Ok? ==>
      && HasFixtures(fixtures)
      && fixtures[FollowersFixture].JArray? && fixtures[TimelineFixture].JArray? && fixtures[CommentsFixture].JArray?
      && Follows(fixtures[FollowersFixture].items, usuario) == Ok(r.value.seguindo)
      && Retweeted(fixtures[TimelineFixture].items, paginaAlvo) == Ok(r.value.retweetou)
      && CommentedInFixture(fixtures[CommentsFixture].items, usuario) == Ok(r.value.comentou)
  {
    var followingData :- LoadFixture(fixtures, FollowersFixture);
    var retweetData :- LoadFixture(fixtures, TimelineFixture);
    var comentariosData :- LoadFixture(fixtures, CommentsFixture);
    var followers :- AsArray(followingData);
    var seguindo :- Follows(followers, usuario);
    var timeline :- AsArray(retweetData);
    var retweetou :- Retweeted(timeline, paginaAlvo);
    var comments :- AsArray(comentariosData);
    var comentou :- CommentedInFixture(comments, usuario);
    Ok(UserInteraction(seguindo, retweetou, comentou))
  }

  // ---- production -------------------------------------------------------

  /** The outcome of the production path and the cache directory after it. */
  datatype ProductionStep = ProductionStep(result: Result<ProductionVerification>, cache: CacheStore)

  /**
    `verificarRetweetNaTimeline`: search the user's 50 latest native
    retweets, keep the tweet data, and scan it for a retweet of the page.
   */
  function RetweetedOnTimeline(src: DataSource, usuario: string, paginaAlvo: string): (r: Result<bool>)
    ensures var answer := src.tweetScraper(SearchQuery(["from:" + usuario + " filter:nativeretweets"], 50));
      && (answer.Err? ==> r == Err(answer.error))
      && (answer.Ok? ==> r == Retweeted(ParseApifyTweetData(answer.value), paginaAlvo))
      && (r == Ok(true) ==> exists x :: x in answer.value && IsTweetData(x) && RetweetOf(x, paginaAlvo))
      && (answer.Ok? && (forall x :: x in answer.value && IsTweetData(x) ==> RetweetReadable(x)) ==>
            r == Ok(exists x :: x in answer.value && IsTweetData(x) && RetweetOf(x, paginaAlvo)))
  {
    var timeline :- SearchTweets(src, TimelineQuery(usuario));
    RetweetScanOverTweetData(src.tweetScraper(TimelineQuery(usuario)).value, paginaAlvo);
    Retweeted(timeline, paginaAlvo)
  }

  /** The retweet scan over the tweet data of a search answer, in terms of the answer's items. */
  lemma RetweetScanOverTweetData(items: seq<Json>, paginaAlvo: string)
    ensures Retweeted(ParseApifyTweetData(items), paginaAlvo) == Ok(true) ==>
      exists x :: x in items && IsTweetData(x) && RetweetOf(x, paginaAlvo)
    ensures (forall x :: x in items && IsTweetData(x) ==> RetweetReadable(x)) ==>
      Retweeted(ParseApifyTweetData(items), paginaAlvo) == Ok(exists x :: x in items && IsTweetData(x) && RetweetOf(x, paginaAlvo))
  {
    var t := ParseApifyTweetData(items);
    RetweetScanOverKept(t, items, paginaAlvo, Retweeted(t, paginaAlvo));
  }

  lemma RetweetScanOverKept(t: seq<Json>, items: seq<Json>, paginaAlvo: string, r: Result<bool>)
    requires forall x :: x in t <==> x in items && IsTweetData(x)
    requires r == Ok(true) ==> exists i :: 0 <= i < |t| && RetweetOf(t[i], paginaAlvo)
    requires (forall i :: 0 <= i < |t| ==> RetweetReadable(t[i])) ==>
      r == Ok(exists i :: 0 <= i < |t| && RetweetOf(t[i], paginaAlvo))
    ensures r == Ok(true) ==> exists x :: x in items && IsTweetData(x) && RetweetOf(x, paginaAlvo)
    ensures (forall x :: x in items && IsTweetData(x) ==> RetweetReadable(x)) ==>
      r == Ok(exists x :: x in items && IsTweetData(x) && RetweetOf(x, paginaAlvo))
  {
    if r == Ok(true) {
      var i :| 0 <= i < |t| && RetweetOf(t[i], paginaAlvo);
      assert t[i] in t;
    }
    if forall x :: x in items && IsTweetData(x) ==> RetweetReadable(x) {
      assert forall i :: 0 <= i < |t| ==> t[i] in t;
      if x :| x in items && IsTweetData(x) && RetweetOf(x, paginaAlvo) {
        var j :| 0 <= j < |t| && t[j] == x;
      }
    }
  }

  /** `verificarComentarioComFiltroTemporal`: build the comment search, run it, then the live comment scan. */
  function CommentedInThread(env: Environment, usuario: string, tweetId: string, checkSince: Option<string>): (r: Result<bool>)
    ensures CommentQuery(tweetId, checkSince, env.parseDate).Err? ==> r == Err(InvalidDate(checkSince.value))
    ensures CommentQuery(tweetId, checkSince, env.parseDate).Ok? ==>
      var answer := env.source.tweetScraper(CommentQuery(tweetId, checkSince, env.parseDate).value);
      && (answer.Err? ==> r == Err(answer.error))
      && (answer.Ok? ==> r == Commented(ParseApifyTweetData(answer.value), usuario))
      && (r == Ok(true) ==> exists x :: x in answer.value && IsTweetData(x) && ReplyBy(x, NormalizeHandle(usuario)))
      && (answer.Ok? && (forall x :: x in answer.value && IsTweetData(x) ==> TypeOf(AuthorName(x)) == StringType) ==>
            r == Ok(exists x :: x in answer.value && IsTweetData(x) && ReplyBy(x, NormalizeHandle(usuario))))
  {
    var query :- CommentQuery(tweetId, checkSince, env.parseDate);
    var comentariosData :- SearchTweets(env.source, query);
    ReplyScanOverTweetData(env.source.tweetScraper(query).value, usuario);
    Commented(comentariosData, usuario)
  }

  /** The live comment scan over the tweet data of a search answer, in terms of the answer's items. */
  lemma ReplyScanOverTweetData(items: seq<Json>, usuario: string)
    ensures Commented(ParseApifyTweetData(items), usuario) == Ok(true) ==>
      exists x :: x in items && IsTweetData(x) && ReplyBy(x, NormalizeHandle(usuario))
    ensures (forall x :: x in items && IsTweetData(x) ==> TypeOf(AuthorName(x)) == StringType) ==>
      Commented(ParseApifyTweetData(items), usuario) == Ok(exists x :: x in items && IsTweetData(x) && ReplyBy(x, NormalizeHandle(usuario)))
  {
    var t := ParseApifyTweetData(items);
    ReplyScanOverKept(t, items, NormalizeHandle(usuario), Commented(t, usuario));
  }

  lemma ReplyScanOverKept(t: seq<Json>, items: seq<Json>, subject: string, r: Result<bool>)
    requires forall x :: x in t <==> x in items && IsTweetData(x)
    requires r == Ok(true) ==> exists i :: 0 <= i < |t| && ReplyBy(t[i], subject)
    requires (forall i :: 0 <= i < |t| ==> TypeOf(AuthorName(t[i])) == StringType) ==>
      r == Ok(exists i :: 0 <= i < |t| && ReplyBy(t[i], subject))
    ensures r == Ok(true) ==> exists x :: x in items && IsTweetData(x) && ReplyBy(x, subject)
    ensures (forall x :: x in items && IsTweetData(x) ==> TypeOf(AuthorName(x)) == StringType) ==>
      r == Ok(exists x :: x in items && IsTweetData(x) && ReplyBy(x, subject))
  {
    if r == Ok(true) {
      var i :| 0 <= i < |t| && ReplyBy(t[i], subject);
      assert t[i] in t;
    }
    if forall x :: x in items && IsTweetData(x) ==> TypeOf(AuthorName(x)) == StringType {
      assert forall i :: 0 <= i < |t| ==> t[i] in t;
      if x :| x in items && IsTweetData(x) && ReplyBy(x, subject) {
        var j :| 0 <= j < |t| && t[j] == x;
      }
    }
  }

  /**
    `verificarInteracoesProduction`: extract the tweet id, check the follower
    list through the cache, then the retweets and the replies. A cache
    update made before a later step fails is kept.
   */
  function VerifyProduction(env: Environment, cache: CacheStore, usuario: string, tweetUrl: string, paginaAlvo: string, tf: TimeFilter): (step: ProductionStep)
    ensures ExtractTweetId(tweetUrl).Err? ==> step == ProductionStep(Err(InvalidTweetUrl(tweetUrl)), cache)
    ensures ExtractTweetId(tweetUrl).Ok? ==>
      step.cache == LoadFollowers(env.source, cache, paginaAlvo, env.now, tf.maxCacheAge, env.cacheWritable).store
    ensures ExtractTweetId(tweetUrl).Ok? ==>
      var loaded := LoadFollowers(env.source, cache, paginaAlvo, env.now, tf.maxCacheAge, env.cacheWritable);
      var tweetId := ExtractTweetId(tweetUrl).value;
      && (step.result.Ok? <==>
            && loaded.result.Ok? && Follows(loaded.result.value.list, usuario).Ok?
            && RetweetedOnTimeline(env.source, usuario, paginaAlvo).Ok?
            && CommentedInThread(env, usuario, tweetId, tf.checkSince).Ok?)
      && (loaded.result.Err? ==> step.result == Err(loaded.result.error))
      && (loaded.result.Ok? && Follows(loaded.result.value.list, usuario).Err? ==>
            step.result == Err(Follows(loaded.result.value.list, usuario).error))
      && ((loaded.result.Ok? && Follows(loaded.result.value.list, usuario).Ok?
           && RetweetedOnTimeline(env.source, usuario, paginaAlvo).Err?) ==>
            step.result == Err(RetweetedOnTimeline(env.source, usuario, paginaAlvo).error))
      && ((loaded.result.Ok? && Follows(loaded.result.value.list, usuario).Ok?
           && RetweetedOnTimeline(env.source, usuario, paginaAlvo).Ok?
           && CommentedInThread(env, usuario, tweetId, tf.checkSince).Err?) ==>
            step.result == Err(CommentedInThread(env, usuario, tweetId, tf.checkSince).error))
    ensures step.result.Ok? ==>
      var loaded := LoadFollowers(env.source, cache, paginaAlvo, env.now, tf.maxCacheAge, env.cacheWritable);
      && ExtractTweetId(tweetUrl).Ok?
      && loaded.result.Ok?
      && step.result.value.cacheUsed == loaded.result.value.fromCache
      && step.result.value.newDataSince == tf.checkSince
      && Follows(loaded.result.value.list, usuario) == Ok(step.result.value.interacoes.seguindo)
      && RetweetedOnTimeline(env.source, usuario, paginaAlvo) == Ok(step.result.value.interacoes.retweetou)
      && CommentedInThread(env, usuario, ExtractTweetId(tweetUrl).value, tf.checkSince) == Ok(step.result.value.interacoes.comentou)
  {
    match ExtractTweetId(tweetUrl)
    case Err(e) => ProductionStep(Err(e), cache)
    case Ok(tweetId) =>
      var loaded := LoadFollowers(env.source, cache, paginaAlvo, env.now, tf.maxCacheAge, env.cacheWritable);
      var result := (
        var followers :- loaded.result;
        var seguindo :- Follows(followers.list, usuario);
        var retweetou :- RetweetedOnTimeline(env.source, usuario, paginaAlvo);
        var comentou :- CommentedInThread(env, usuario, tweetId, tf.checkSince);
        Ok(ProductionVerification(UserInteraction(seguindo, retweetou, comentou), followers.fromCache, tf.checkSince)));
      ProductionStep(result, loaded.store)
  }

  // ---- request ----------------------------------------------------------

  /** `verificarInteracoes`: dispatch on the mode, then score and stamp the answer. */
  function VerifyInteractions(mode: Mode, env: Environment, stores: Stores, usuario: string, tweetUrl: string, paginaAlvo: string, tf: TimeFilter): (resp: Response)
    ensures resp.result.Ok? ==>
      var res := resp.result.value;
      && res.usuario == usuario && res.tweetUrl == tweetUrl && res.paginaAlvo == paginaAlvo
      && res.source == mode && res.timestamp == env.now
      && res.score == Score(res.interacoes)
    ensures mode == Development && resp.result.Err? ==>
      VerifyDevelopment(stores.fixtures, usuario, paginaAlvo) == Err(resp.result.error)
    ensures mode == Production && resp.result.Err? ==>
      VerifyProduction(env, stores.cache, usuario, tweetUrl, paginaAlvo, tf).result == Err(resp.result.error)
    ensures mode == Development ==>
      && resp.cache == stores.cache
      && (resp.result.Ok? <==> VerifyDevelopment(stores.fixtures, usuario, paginaAlvo).Ok?)
      && (resp.result.Ok? ==>
            && resp.result.value.interacoes == VerifyDevelopment(stores.fixtures, usuario, paginaAlvo).value
            && !resp.result.value.cacheUsed
            && resp.result.value.newDataSince == None)
    ensures mode == Production ==>
      var step := VerifyProduction(env, stores.cache, usuario, tweetUrl, paginaAlvo, tf);
      && resp.cache == step.cache
      && (resp.result.Ok? <==> step.result.Ok?)
      && (resp.result.Ok? ==>
            && resp.result.value.interacoes == step.result.value.interacoes
            && resp.result.value.cacheUsed == step.result.value.cacheUsed
            && resp.result.value.newDataSince == tf.checkSince)
  {
    match mode
    case Development =>
      var result := (
        var interacoes :- VerifyDevelopment(stores.fixtures, usuario, paginaAlvo);
        Ok(InteractionResult(usuario, tweetUrl, paginaAlvo, interacoes, Score(interacoes), env.now, Development, false, None)));
      Response(result, stores.cache)
    case Production =>
      var step := VerifyProduction(env, stores.cache, usuario, tweetUrl, paginaAlvo, tf);
      var result := (
        var verified :- step.result;
        Ok(InteractionResult(usuario, tweetUrl, paginaAlvo, verified.interacoes, Score(verified.interacoes), env.now,
                             Production, verified.cacheUsed, verified.newDataSince)));
      Response(result, step.cache)
  }

  // ---- properties of a request --------------------------------------------

  /**
    Replay mode never parses the URL, ignores the time filter, never calls a
    scraper and never touches the cache: two requests that share fixtures,
    subject and page get the same interactions.
   */
  lemma ReplayIgnoresLiveInputs(env1: Environment, env2: Environment, stores1: Stores, stores2: Stores,
                                usuario: string, url1: string, url2: string, paginaAlvo: string, tf1: TimeFilter, tf2: TimeFilter)
    requires stores1.fixtures == stores2.fixtures
    ensures var r1 := VerifyInteractions(Development, env1, stores1, usuario, url1, paginaAlvo, tf1);
      var r2 := VerifyInteractions(Development, env2, stores2, usuario, url2, paginaAlvo, tf2);
      && r1.cache == stores1.cache && r2.cache == stores2.cache
      && (r1.result.Ok? <==> r2.result.Ok?)
      && (r1.result.Ok? ==> r1.result.value.interacoes == r2.result.value.interacoes && r1.result.value.score == r2.result.value.score)
      && (r1.result.Err? ==> r1.result.error == r2.result.error)
  {
  }

  /** A replay request fails with the first fixture that is missing. */
  lemma ReplayNeedsEveryFixture(env: Environment, stores: Stores, usuario: string, tweetUrl: string, paginaAlvo: string, tf: TimeFilter)
    requires FollowersFixture !in stores.fixtures || TimelineFixture !in stores.fixtures || CommentsFixture !in stores.fixtures
    ensures VerifyInteractions(Development, env, stores, usuario, tweetUrl, paginaAlvo, tf).result.Err?
    ensures VerifyInteractions(Development, env, stores, usuario, tweetUrl, paginaAlvo, tf).result.error.FixtureUnavailable?
  {
  }

  /** A live request for a URL without a tweet id fails before any scraper call and leaves the cache alone. */
  lemma LiveRejectsBadUrl(env: Environment, stores: Stores, usuario: string, tweetUrl: string, paginaAlvo: string, tf: TimeFilter)
    requires forall i :: 0 <= i < |tweetUrl| ==> !StatusAt(tweetUrl, i)
    ensures VerifyInteractions(Production, env, stores, usuario, tweetUrl, paginaAlvo, tf) ==
      Response(Err(InvalidTweetUrl(tweetUrl)), stores.cache)
  {
  }

  /**
    A live answer reports `cacheUsed` exactly when a fresh follower entry
    for the page was in the cache, and echoes `checkSince`.
   */
  lemma LiveCacheUsedIffFresh(env: Environment, stores: Stores, usuario: string, tweetUrl: string, paginaAlvo: string, tf: TimeFilter)
    requires VerifyInteractions(Production, env, stores, usuario, tweetUrl, paginaAlvo, tf).result.Ok?
    ensures var res := VerifyInteractions(Production, env, stores, usuario, tweetUrl, paginaAlvo, tf).result.value;
      && (res.cacheUsed <==> CachedFollowers(stores.cache, paginaAlvo, env.now, tf.maxCacheAge).Some?)
      && res.newDataSince == tf.checkSince
      && res.source == Production
  {
  }

  /**
    After a live request the cache differs from before at most in the entry
    for the page, and that entry is rewritten exactly when the cache was not
    used: it then holds the fetched list stamped with the request's instant.
   */
  lemma LiveCacheUpdate(env: Environment, stores: Stores, usuario: string, tweetUrl: string, paginaAlvo: string, tf: TimeFilter)
    ensures var resp := VerifyInteractions(Production, env, stores, usuario, tweetUrl, paginaAlvo, tf);
      && (forall k :: k != CacheKey(paginaAlvo) ==> (k in resp.cache <==> k in stores.cache))
      && (forall k :: k != CacheKey(paginaAlvo) && k in stores.cache ==> resp.cache[k] == stores.cache[k])
      && (resp.result.Ok? && resp.result.value.cacheUsed ==> resp.cache == stores.cache)
      && (resp.result.Ok? && !resp.result.value.cacheUsed ==>
            && CacheKey(paginaAlvo) in resp.cache
            && resp.cache[CacheKey(paginaAlvo)].timestamp == env.now
            && resp.cache[CacheKey(paginaAlvo)].lastCheck == env.now
            && PageFollowers(env.source, paginaAlvo) == Ok(resp.cache[CacheKey(paginaAlvo)].data))
  {
  }

  /**
    The follower answer and the cache do not depend on `checkSince`: two
    live requests that differ only there agree on both.
   */
  lemma FollowsIgnoresCheckSince(env: Environment, stores: Stores, usuario: string, tweetUrl: string, paginaAlvo: string,
                                 since1: Option<string>, since2: Option<string>, maxCacheAge: Option<int>)
    ensures var r1 := VerifyInteractions(Production, env, stores, usuario, tweetUrl, paginaAlvo, TimeFilter(since1, maxCacheAge));
      var r2 := VerifyInteractions(Production, env, stores, usuario, tweetUrl, paginaAlvo, TimeFilter(since2, maxCacheAge));
      && r1.cache == r2.cache
      && (r1.result.Ok? && r2.result.Ok? ==>
            r1.result.value.interacoes.seguindo == r2.result.value.interacoes.seguindo
            && r1.result.value.cacheUsed == r2.result.value.cacheUsed)
  {
  }
}
