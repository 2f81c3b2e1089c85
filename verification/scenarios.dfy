/**
  Worked requests over small concrete data: the example status URL, a
  replay run over three fixtures, and the inputs on which the live and the
  replay comment checks part ways.
 */
module Scenarios {
  import opened Optional
  import opened Errors
  import opened Strings
  import opened JsonValues
  import opened Matching
  import opened TweetUrl
  import opened InteractionService

  function Obj1(k: string, v: Json): Json {
    JObject(map[k := v])
  }

  function Follower(name: string): Json {
    Obj1("userName", JString(name))
  }

  /** A reply-or-post by `name`. */
  function Post(name: string, isReply: bool): Json {
    JObject(map["author" := Follower(name), "isReply" := JBool(isReply)])
  }

  /** A native retweet of a tweet by `page`. */
  function RetweetOfTweetBy(page: string): Json {
    JObject(map["isRetweet" := JBool(true), "retweetedTweet" := Obj1("author", Follower(page))])
  }

  const ExamplePrefix := "https://x.com/RoguesNFT/"
  const ExampleId := "1960014365333299601"
  const ExampleUrl := "https://x.com/RoguesNFT/status/1960014365333299601"

  lemma ExampleUrlSplits()
    ensures ExampleUrl == ExamplePrefix + Marker + ExampleId + ""
  {
  }

  lemma ExamplePrefixHasNoMatch()
    ensures forall j :: 0 <= j < |ExamplePrefix| ==> !StatusAt(ExamplePrefix, j)
  {
  }

  /** The id of the example status URL is its trailing digit run. */
  lemma ExampleUrlId()
    ensures ExtractTweetId(ExampleUrl) == Ok(ExampleId)
  {
    ExampleUrlSplits();
    ExamplePrefixHasNoMatch();
    ExtractBuiltUrl(ExamplePrefix, ExampleId, "");
  }

  /** Text without "status/" has no tweet id. */
  lemma NotAUrlRejected()
    ensures ExtractTweetId("not-a-url") == Err(InvalidTweetUrl("not-a-url"))
  {
  }

  const FollowerList := [Follower("Alice"), Follower("carol")]
  const Timeline := [RetweetOfTweetBy("roguesnft")]
  const Thread := [Post("alice", false), Post("Bob", true)]

  const Fixtures := map[
    FollowersFixture := JArray(FollowerList),
    TimelineFixture := JArray(Timeline),
    CommentsFixture := JArray(Thread)]

  lemma FixtureContents()
    ensures FollowersFixture in Fixtures && Fixtures[FollowersFixture] == JArray(FollowerList)
    ensures TimelineFixture in Fixtures && Fixtures[TimelineFixture] == JArray(Timeline)
    ensures CommentsFixture in Fixtures && Fixtures[CommentsFixture] == JArray(Thread)
  {
  }

  lemma NamesLowered()
    ensures Lower("Alice") == "alice" && Lower("carol") == "carol" && Lower("Bob") == "bob"
    ensures Lower("roguesnft") == "roguesnft" && Lower("RoguesNFT") == "roguesnft"
  {
  }

  lemma SubjectsNormalised()
    ensures NormalizeHandle("@Alice") == "alice" && NormalizeHandle("bob") == "bob"
  {
    assert IndexOf("@Alice", '@') == 0;
    assert RemoveFirst("@Alice", '@') == "Alice";
    NamesLowered();
  }

  lemma FollowerListScans()
    ensures Follows(FollowerList, "@Alice") == Ok(true)
    ensures Follows(FollowerList, "bob") == Ok(false)
  {
    SubjectsNormalised();
    NamesLowered();
    assert HasUserName(FollowerList[0]) && HasUserName(FollowerList[1]);
    assert UserNamed(FollowerList[0], "alice");
    assert !UserNamed(FollowerList[0], "bob") && !UserNamed(FollowerList[1], "bob");
  }

  lemma TimelineScan()
    ensures Retweeted(Timeline, "RoguesNFT") == Ok(true)
  {
    NamesLowered();
    assert RetweetReadable(Timeline[0]);
    assert RetweetOf(Timeline[0], "RoguesNFT");
  }

  lemma ThreadItems()
    ensures FixtureReplyReadable(Thread[0]) && FixtureReplyReadable(Thread[1])
    ensures !ReplyBy(Thread[0], "alice") && !ReplyBy(Thread[1], "alice")
    ensures ReplyBy(Thread[1], "bob")
  {
    NamesLowered();
  }

  lemma ThreadScans()
    ensures CommentedInFixture(Thread, "@Alice") == Ok(false)
    ensures CommentedInFixture(Thread, "bob") == Ok(true)
  {
    SubjectsNormalised();
    ThreadItems();
  }

  lemma ReplayScans(usuario: string, seguindo: bool, comentou: bool)
    requires Follows(FollowerList, usuario) == Ok(seguindo)
    requires CommentedInFixture(Thread, usuario) == Ok(comentou)
    ensures VerifyDevelopment(Fixtures, usuario, "RoguesNFT") == Ok(UserInteraction(seguindo, true, comentou))
  {
    FixtureContents();
    TimelineScan();
    assert LoadFixture(Fixtures, FollowersFixture) == Ok(JArray(FollowerList));
    assert LoadFixture(Fixtures, TimelineFixture) == Ok(JArray(Timeline));
    assert LoadFixture(Fixtures, CommentsFixture) == Ok(JArray(Thread));
  }

  lemma AliceReplayed()
    ensures VerifyDevelopment(Fixtures, "@Alice", "RoguesNFT") == Ok(UserInteraction(true, true, false))
  {
    FollowerListScans();
    ThreadScans();
    ReplayScans("@Alice", true, false);
  }

  lemma BobReplayed()
    ensures VerifyDevelopment(Fixtures, "bob", "RoguesNFT") == Ok(UserInteraction(false, true, true))
  {
    FollowerListScans();
    ThreadScans();
    ReplayScans("bob", false, true);
  }

  lemma ReplayRequest(env: Environment, cache: map<string, FollowerCache.CacheEntry>, usuario: string, tweetUrl: string,
                      interacoes: UserInteraction)
    requires VerifyDevelopment(Fixtures, usuario, "RoguesNFT") == Ok(interacoes)
    ensures var resp := VerifyInteractions(Development, env, Stores(Fixtures, cache), usuario, tweetUrl, "RoguesNFT", NoFilter);
      && resp.result.Ok?
      && resp.result.value.interacoes == interacoes
      && resp.result.value.score == Score(interacoes)
      && resp.cache == cache
  {
  }

  /**
    Replay: "@Alice" follows the page and her timeline holds a retweet of
    it, but her only post in the thread is not a reply, so two of three
    interactions count. The URL is not looked at.
   */
  lemma ReplayAlice(env: Environment, cache: map<string, FollowerCache.CacheEntry>)
    ensures var resp := VerifyInteractions(Development, env, Stores(Fixtures, cache), "@Alice", "not-a-url", "RoguesNFT", NoFilter);
      && resp.result.Ok?
      && resp.result.value.interacoes == UserInteraction(true, true, false)
      && resp.result.value.score == 67
      && resp.cache == cache
  {
    AliceReplayed();
    ReplayRequest(env, cache, "@Alice", "not-a-url", UserInteraction(true, true, false));
  }

  /** Replay: "bob" is not a follower but replied in the thread. */
  lemma ReplayBob(env: Environment, cache: map<string, FollowerCache.CacheEntry>)
    ensures var resp := VerifyInteractions(Development, env, Stores(Fixtures, cache), "bob", ExampleUrl, "RoguesNFT", NoFilter);
      && resp.result.Ok?
      && resp.result.value.interacoes == UserInteraction(false, true, true)
      && resp.result.value.score == 67
  {
    BobReplayed();
    ReplayRequest(env, cache, "bob", ExampleUrl, UserInteraction(false, true, true));
  }

  /** The retweet check compares the page as given: "@RoguesNFT" is not "RoguesNFT". */
  lemma RetweetTargetNotStripped()
    ensures Retweeted([RetweetOfTweetBy("RoguesNFT")], "RoguesNFT") == Ok(true)
    ensures Retweeted([RetweetOfTweetBy("RoguesNFT")], "@RoguesNFT") == Ok(false)
  {
    var t := RetweetOfTweetBy("RoguesNFT");
    assert RetweetedAuthorName(t) == Some(JString("RoguesNFT"));
    NamesLowered();
    assert Lower("@RoguesNFT") == "@roguesnft";
    assert RetweetReadable(t) && RetweetOf(t, "RoguesNFT") && !RetweetOf(t, "@RoguesNFT");
  }

  /** A follower record without a `userName` makes the follower check throw. */
  lemma FollowerWithoutNameThrows()
    ensures Follows([JObject(map[])], "alice").Err?
  {
  }

  /**
    A thread item whose author has no `userName`: the live check throws,
    the replay check passes over it.
   */
  lemma LiveAndReplayCommentsDiffer()
    ensures Commented([Obj1("author", JObject(map[]))], "alice").Err?
    ensures CommentedInFixture([Obj1("author", JObject(map[]))], "alice") == Ok(false)
  {
    var t := Obj1("author", JObject(map[]));
    assert AuthorName(t) == None;
    assert FixtureReplyReadable(t) && !ReplyBy(t, NormalizeHandle("alice"));
  }
}
