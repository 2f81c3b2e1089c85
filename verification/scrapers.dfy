/**
  The two scraper actors the engine calls, as oracles, and the queries it
  sends them: the follower list of a page (`obterSeguidoresDaPagina`), the
  recent retweets of a user (`obterTimelineUsuarioParaRetweets`) and the
  replies in a thread (`verificarComentarioComFiltroTemporal`). Tweet searches
  go through `ApifyService.searchTweets`, which keeps only the items that pass
  `isTweetData`.
 */
module Scrapers {
  import opened Optional
  import opened Errors
  import opened Strings
  import opened JsonValues
  import opened TweetTypes
  import opened Calendar

  /** The input of the user scraper actor. */
  datatype FollowersQuery = FollowersQuery(twitterHandles: seq<string>, getFollowers: bool, maxItems: nat)

  /** The input of a tweet search. */
  datatype SearchQuery = SearchQuery(searchTerms: seq<string>, maxItems: nat)

  /**
    What the actors return for a query: the raw dataset items, or the failure
    the client raised. Follower items are not validated by the engine.
   */
  datatype DataSource = DataSource(
    userScraper: FollowersQuery -> Result<seq<Json>>,
    tweetScraper: SearchQuery -> Result<seq<Json>>)

  const FollowersLimit := 5000
  const TimelineLimit := 50
  const CommentsLimit := 100

  /** The query for the followers of `paginaAlvo`. */
  function FollowersOfPage(paginaAlvo: string): (q: FollowersQuery)
    ensures q.twitterHandles == [paginaAlvo] && q.getFollowers
    ensures q.maxItems == FollowersLimit
  {
    FollowersQuery([paginaAlvo], true, FollowersLimit)
  }

  /** `obterSeguidoresDaPagina`: the follower records as the actor returns them. */
  function PageFollowers(src: DataSource, paginaAlvo: string): Result<seq<Json>> {
    src.userScraper(FollowersOfPage(paginaAlvo))
  }

  /** `ApifyService.searchTweets`: the search items that pass `isTweetData`, in order. */
  function SearchTweets(src: DataSource, q: SearchQuery): (r: Result<seq<Json>>)
    ensures r.Ok? <==> src.tweetScraper(q).Ok?
    ensures r.Err? ==> r == Err(src.tweetScraper(q).error)
    ensures r.Ok? ==> forall x :: x in r.value ==> IsTweetData(x) && x in src.tweetScraper(q).value
    ensures r.Ok? ==> forall x :: x in src.tweetScraper(q).value && IsTweetData(x) ==> x in r.value
    ensures r.Ok? ==> r.value == ParseApifyTweetData(src.tweetScraper(q).value)
  {
    var items :- src.tweetScraper(q);
    Ok(ParseApifyTweetData(items))
  }

  /** The search for the user's own recent native retweets. */
  function TimelineQuery(usuario: string): (q: SearchQuery)
    ensures q.searchTerms == ["from:" + usuario + " filter:nativeretweets"]
    ensures q.maxItems == TimelineLimit
  {
    SearchQuery(["from:" + usuario + " filter:nativeretweets"], TimelineLimit)
  }

  /** The search term that selects the replies of a thread. */
  function ConversationTerm(tweetId: string): string {
    "conversation_id:" + tweetId
  }

  /**
    The comment search. A non-empty `checkSince` narrows it to replies since
    the UTC calendar date of that instant; `new Date(checkSince)` is the
    `parseDate` oracle, and `toISOString` of an invalid date throws.
   */
  function CommentQuery(tweetId: string, checkSince: Option<string>, parseDate: string -> Option<TimeValue>): (r: Result<SearchQuery>)
    ensures r.Ok? ==> |r.value.searchTerms| == 1 && r.value.maxItems == CommentsLimit
    ensures r.Err? <==> checkSince.Some? && checkSince.value != "" && parseDate(checkSince.value).None?
    ensures r.Err? ==> r.error == InvalidDate(checkSince.value)
    ensures (checkSince == None || checkSince == Some("")) ==> r == Ok(SearchQuery([ConversationTerm(tweetId)], CommentsLimit))
    ensures checkSince.Some? && checkSince.value != "" && parseDate(checkSince.value).Some? ==>
      r == Ok(SearchQuery([ConversationTerm(tweetId) + " since:" + IsoDatePart(parseDate(checkSince.value).value)], CommentsLimit))
  {
    if checkSince.None? || checkSince.value == "" then
      Ok(SearchQuery([ConversationTerm(tweetId)], CommentsLimit))
    else
      match parseDate(checkSince.value)
      case None => Err(InvalidDate(checkSince.value))
      case Some(t) => Ok(SearchQuery([ConversationTerm(tweetId) + " since:" + IsoDatePart(t)], CommentsLimit))
  }

  /**
    For instants up to the year 9999 the `since:` clause carries a
    `full-date` (section 5.6 of RFC 3339) that reads back as the UTC calendar
    date of `checkSince`.
   */
  lemma CommentQuerySinceDate(tweetId: string, since: string, parseDate: string -> Option<TimeValue>)
    requires since != "" && parseDate(since).Some?
    requires UtcDate(parseDate(since).value).year <= 9999
    ensures var r := CommentQuery(tweetId, Some(since), parseDate);
      && r.Ok?
      && var term := r.value.searchTerms[0];
      && |term| == |ConversationTerm(tweetId)| + 17
      && term[..|ConversationTerm(tweetId)|] == ConversationTerm(tweetId)
      && term[|ConversationTerm(tweetId)|..|ConversationTerm(tweetId)| + 7] == " since:"
      && ParseFullDate(term[|ConversationTerm(tweetId)| + 7..]) == Some(UtcDate(parseDate(since).value))
  {
    var t := parseDate(since).value;
    IsoDatePartReadsBack(t);
    var c := ConversationTerm(tweetId);
    var term := c + " since:" + IsoDatePart(t);
    assert term[|c| + 7..] == IsoDatePart(t);
    assert term[..|c|] == c;
    assert term[|c|..|c| + 7] == " since:";
  }
}
