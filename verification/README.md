# Interaction verification engine — a Dafny model

This project models the interaction-verification engine of
`src/services/InteractionService.ts`, together with the runtime type guards of
`src/types/index.ts` that filter what the tweet scraper returns.

A request names a subject (`usuario`), a tweet URL and a target page
(`paginaAlvo`). The engine answers three questions:

- **seguindo**: is the subject in the page's follower list?
- **retweetou**: does the subject's recent timeline hold a retweet of a tweet by the page?
- **comentou**: did the subject reply in the tweet's thread?

It then computes an engagement score, `Math.round(100 · k / 3)`. `curtiu` (likes) is always null.

The engine runs in one of two modes:

- **Development** replays three saved JSON fixtures.
- **Production** calls the scrapers. Before any call it extracts the tweet id from the URL. The follower list goes through a time-limited cache keyed `"followers_" + paginaAlvo`. A non-empty `checkSince` narrows the comment search to replies `since:` the UTC calendar date of that instant.

Modules, in dependency order:

| module | file | contents |
|---|---|---|
| `Optional`, `Errors` | option.dfy, errors.dfy | `Option`; the exceptions a request can end with; `Result` |
| `Strings` | strings.dfy | ASCII lower-casing; `String.replace` with a one-character pattern; the subject normalisation `usuario.replace("@", "").toLowerCase()` |
| `JsonValues` | json.dfy | JSON values as `JSON.parse` returns them; `typeof`, `x.k` (which throws on null/undefined), `x?.k`, truthiness, `toLowerCase` |
| `Sequences` | sequences.dfy | `Array.prototype.filter` and the positions it keeps |
| `TweetTypes` | tweet_types.dfy | `isTweetData`, `isTweetAuthor`, `parseApifyTweetData`, `parseApifyTweetItem` |
| `Calendar` | calendar.dfy | the UTC calendar date of a time value; the date part of `toISOString` (RFC 3339 section 5.6 `full-date`, or the expanded `+YYYYYY` year) |
| `Matching` | matching.dfy | `Array.prototype.some` with a callback that can throw; the follower, retweet and comment scans |
| `TweetUrl` | tweet_url.dfy | `extrairTweetId`: the match of `status\/(\d+)` |
| `Scrapers` | scrapers.dfy | the scraper actors as oracles; the follower, timeline and comment queries |
| `FollowerCache` | follower_cache.dfy | the cache decision and update of `verificarSeguidorComCache` |
| `InteractionService` | interaction_service.dfy | score; development and production paths; `verificarInteracoes` |
| `Scenarios` | scenarios.dfy | worked requests over concrete data |

Modelling choices:

- **JSON data.** Items are kept as raw JSON, as the source treats them (`any[]`).
- **Missing fields and `.some`.**
  - A missing `userName` is `undefined` (an absent key). Calling `.toLowerCase()` on it throws a TypeError.
  - So each scan is `.some` with a callback that may throw:
    - items are tried left to right;
    - the scan stops at the first match;
    - an exception raised before any match aborts the request.
  - The production comment check and both follower checks throw on a missing name. The replay comment check uses `?.` and treats a missing name as a non-match.
- **External inputs are parameters.** The scrapers, `new Date(text)`, the clock and the writability of the cache directory are all passed in.
  - The examples directory and the cache directory are maps.
  - Times are integer milliseconds.
  - The follower-list fetch returns unvalidated items. Tweet searches are filtered by `isTweetData`, as `ApifyService.searchTweets` does.

Behaviour of the code that the model keeps on purpose:

- **Score.** The score counts three actions: follow, retweet and comment. A subject who follows and comments but does not retweet scores 67.
- **Cache write failure.** A failed cache write aborts the request.
  - The cache update happens before the retweet and comment scans. When one of those later steps fails, the update stays.
- **Cache key.** The key is `"followers_"` followed by the page name exactly as the request gives it.
- **Follower-scraper failure.** A failed follower fetch aborts the request.
- **Retweet target.** The retweet check lower-cases the target page but keeps any "@" in it. The follower and comment checks drop the subject's first "@".

## Model

| member | source | states |
|---|---|---|
| Strings.RemoveFirst | src/services/InteractionService.ts:462 | `replace` with a one-character string pattern: a string without the character is unchanged; otherwise exactly its first occurrence is removed and all else kept in order |
| Strings.NormalizeHandle | src/services/InteractionService.ts:462 | without an "@" the subject is only lower-cased; with one, the first "@" is removed and the rest lower-cased |
| Strings.LeadingAtIgnored | src/services/InteractionService.ts:462 | "@u" and "u" normalise to the same handle when u has no "@" |
| Strings.CaseIgnored | src/services/InteractionService.ts:462 | subjects equal up to letter case normalise to the same handle |
| Strings.RemoveFirstAtCommutesWithLower | src/services/InteractionService.ts:462 | removing the first "@" and lower-casing can be done in either order |
| JsonValues.TypeOf | src/types/index.ts:123-128 | `typeof` reports "object" exactly for null, arrays and objects, "undefined" exactly for a missing value, and "string", "number" and "boolean" exactly for values of those kinds |
| TweetTypes.IsTweetData | src/types/index.ts:121-130 | holds iff the value is an object whose `id` and `text` are strings and whose `author` is an object or an array (both are "object" to `typeof`) |
| TweetTypes.IsTweetAuthor | src/types/index.ts:132-139 | holds iff the value is an object with a string `userName` and a numeric `followers` |
| TweetTypes.ParseApifyTweetData | src/types/index.ts:142-144 | the output is no longer than the input, holds only tweet data from the input, and keeps every tweet-data item |
| TweetTypes.ParseKeepsExactlyTweetData | src/types/index.ts:142-144 | the output is the input's tweet-data items at strictly increasing positions, unchanged, and a position is kept iff its item is tweet data |
| TweetTypes.ParseIdempotent | src/types/index.ts:142-144 | filtering twice is filtering once |
| TweetTypes.ParseApifyTweetItem | src/types/index.ts:146-148 | returns the item unchanged iff it is tweet data, and null otherwise |
| TweetTypes.ParseAgreesWithItemParser | src/types/index.ts:142-148 | the list filter equals collecting the non-null results of the item parser, in order |
| Matching.SomeItem | src/services/InteractionService.ts:460-463 | `.some` answers true iff an item holds with no earlier item throwing; false iff every item is a clean non-match; it throws iff an item throws before any match, and then with the error of the first throwing item, every earlier item being a clean non-match; without exceptions it is plain existence |
| Matching.SomeItemIgnoresOrder | src/services/InteractionService.ts:460-463 | when no item throws, permuting the items does not change `.some` |
| Matching.FollowerIsSubject | src/services/InteractionService.ts:461-462 | the follower test throws, always a type error, iff the record has no string `userName`, and otherwise holds iff the lower-cased name is the subject |
| Matching.Follows | src/services/InteractionService.ts:460-463 | true iff a record named like the normalised subject comes before any record without a name; it throws, always with a type error, iff a record without a name comes first; when every record is named, it is plain existence |
| Matching.FollowsFails | src/services/InteractionService.ts:460-463 | the follower scan throws exactly when a record without a string `userName` comes before any match, and answers true exactly when a match comes first |
| Matching.FollowsIgnoresLeadingAt | src/services/InteractionService.ts:476-479 | the follower answer is the same for "@alice" and "alice" |
| Matching.FollowsIgnoresCase | src/services/InteractionService.ts:476-479 | the follower answer does not depend on the subject's letter case |
| Matching.FollowsIgnoresOrder | src/services/InteractionService.ts:460-463 | with every record named, the follower answer does not depend on the order of the list |
| Matching.IsRetweetOfPage | src/services/InteractionService.ts:353-357 | the retweet test throws, always a type error, iff the item is null, or is a retweet whose nested author name is neither nullish nor a string; otherwise it holds iff `isRetweet` is truthy and that name equals the page case-insensitively |
| Matching.Retweeted | src/services/InteractionService.ts:351-358 | true iff a retweet of a tweet by the page comes before any unreadable item; it throws, always with a type error, iff an unreadable item comes first; a missing nested field is a non-match; with every item readable, it is plain existence |
| Matching.RetweetedFails | src/services/InteractionService.ts:491-497 | the retweet scan throws exactly when an unreadable item precedes any retweet of the page, and answers true exactly when such a retweet comes first |
| Matching.RetweetedIgnoresOrder | src/services/InteractionService.ts:491-497 | with every item readable, the retweet answer does not depend on the order of the timeline |
| Matching.IsReplyBySubject | src/services/InteractionService.ts:403-405 | the live comment test throws, always a type error, iff the author's `userName` is not a string, and otherwise holds iff that name matches the subject and `isReply` is truthy |
| Matching.Commented | src/services/InteractionService.ts:402-406 | true iff a reply by the normalised subject comes before any item without an author name; it throws, always with a type error, iff such an item comes first; with every author named, it is plain existence |
| Matching.CommentedFails | src/services/InteractionService.ts:402-406 | the live comment scan throws exactly when an item without a string author name comes before any match, and answers true exactly when a match comes first |
| Matching.CommentedIgnoresLeadingAt | src/services/InteractionService.ts:402-406 | both comment scans give the same answer for "@alice" and "alice" |
| Matching.CommentedIgnoresCase | src/services/InteractionService.ts:402-406 | both comment scans ignore the subject's letter case |
| Matching.CommentedIgnoresOrder | src/services/InteractionService.ts:402-406 | with every author named, the live comment answer does not depend on the order of the thread |
| Matching.CommentedInFixtureIgnoresOrder | src/services/InteractionService.ts:507-511 | with every item readable by the replay test, the replay comment answer does not depend on the order of the thread |
| Matching.IsReplyBySubjectOptional | src/services/InteractionService.ts:508-510 | the replay comment test throws, always a type error, exactly on a null item or a non-string, non-nullish name; a missing author or name is a non-match |
| Matching.CommentedInFixture | src/services/InteractionService.ts:507-511 | true iff a reply by the normalised subject comes before any unreadable item; it throws, always with a type error, iff an unreadable item comes first; with every item readable, it is plain existence |
| Matching.CommentedInFixtureFails | src/services/InteractionService.ts:507-511 | the replay comment scan throws exactly when an unreadable item precedes any match, and answers true exactly when a match comes first |
| Matching.NonRepliesNeverCount | src/services/InteractionService.ts:402-406 | when no item has a truthy `isReply`, neither comment scan answers true |
| Matching.LiveAndReplayCommentsAgree | src/services/InteractionService.ts:507-511 | where every author name is a string, the live and the replay comment scans give the same answer |
| TweetUrl.ExtractTweetId | src/services/InteractionService.ts:530-536 | fails with the invalid-URL error iff no "status/" is followed by a digit; otherwise returns the whole non-empty digit run after the leftmost such "status/" |
| TweetUrl.ExtractBuiltUrl | src/services/InteractionService.ts:530-536 | the id of prefix + "status/" + id + suffix is id, when the prefix has no match and the suffix does not start with a digit |
| Scrapers.SearchTweets | src/services/ApifyService.ts:140-146 | a search fails iff the actor fails, and otherwise returns exactly the actor's items that pass `isTweetData`, in the actor's order |
| Scrapers.CommentQuery | src/services/InteractionService.ts:384-398 | one term and at most 100 items; an absent or empty `checkSince` gives "conversation_id:<id>"; otherwise " since:" and the date are appended; the query fails iff the date is invalid |
| Scrapers.CommentQuerySinceDate | src/services/InteractionService.ts:389-395 | for years up to 9999, the text after " since:" is a `full-date` that reads back as the UTC calendar date of `checkSince` |
| Calendar.UtcDate | src/services/InteractionService.ts:391-393 | the calendar date of a time value is a valid date whose day number is the time value divided by the milliseconds in a day |
| Calendar.IsoDatePartReadsBack | src/services/InteractionService.ts:391-393 | the date part of `toISOString` is a `full-date` that parses back to the UTC date for years up to 9999, and has the 13-character "+YYYYYY-MM-DD" form beyond |
| Calendar.ExpandedDateReadsBack | src/services/InteractionService.ts:391-393 | after the year 9999 the date part is "+YYYYYY-MM-DD", and its year, month and day read back exactly: six year digits always suffice |
| Calendar.DayNumberInjective | src/services/InteractionService.ts:391-393 | two valid dates with the same day number are the same date |
| FollowerCache.MaxCacheAge | src/services/InteractionService.ts:429 | the limit is the caller's `maxCacheAge` unless it is absent or 0, in which case it is 24 hours |
| FollowerCache.AgeInHours | src/services/InteractionService.ts:588-593 | the age times 3 600 000 is the elapsed milliseconds, and it is negative exactly for a timestamp in the future |
| FollowerCache.FreshInMilliseconds | src/services/InteractionService.ts:588-593 | the age in hours is below the limit iff the elapsed milliseconds are below limit × 3 600 000 |
| FollowerCache.CachedFollowers | src/services/InteractionService.ts:428-440 | the cache serves a list iff an entry for "followers_" + page exists and its age is below the limit, and then serves that entry's list |
| FollowerCache.LoadFollowers | src/services/InteractionService.ts:428-458 | on a fresh entry the stored list is used and the store is unchanged. Otherwise the followers are fetched, and only the page's key is overwritten, with the new list stamped `now` twice. A failed fetch or write is an error that leaves the store unchanged: the fetch's own error, or a cache-write error naming the page's key. All other keys are untouched |
| FollowerCache.RefetchThenHit | src/services/InteractionService.ts:440-457 | after a refetch, any later request within the age limit is served the same list from the cache, whatever the scraper would say |
| FollowerCache.ExpiredEntryRefetched | src/services/InteractionService.ts:433-440 | once an entry is as old as the limit it is no longer served |
| FollowerCache.NegativeLimitNeverHits | src/services/InteractionService.ts:429-440 | a negative `maxCacheAge` turns the cache off |
| InteractionService.Positives | src/services/InteractionService.ts:518-523 | counts the true answers: it equals the length of the truthy filter of [seguindo, retweetou, comentou], is between 0 and 3, is 0 iff none and is 3 iff all |
| InteractionService.Score | src/services/InteractionService.ts:517-525 | the score is `Math.round(100 · k / 3)`, i.e. the integer s with s ≤ 100k/3 + 1/2 < s + 1, and is one of 0, 33, 67, 100 |
| InteractionService.ScoreMonotone | src/services/InteractionService.ts:517-525 | more interactions never lower the score, and strictly more raise it |
| InteractionService.ScoreCountsOnly | src/services/InteractionService.ts:517-525 | the score depends only on how many interactions took place |
| InteractionService.LoadFixture | src/services/InteractionService.ts:550-560 | a fixture loads iff it is present, and a missing one is the "cannot load example" error naming the file |
| InteractionService.VerifyDevelopment | src/services/InteractionService.ts:170-215 | the first missing fixture, in file order, is the error. With all three present, the replay succeeds iff each fixture is an array and each scan answers without throwing; otherwise the error is that of the first failing step, in the order followers, timeline, comments. A success carries the three scans' answers |
| InteractionService.RetweetedOnTimeline | src/services/InteractionService.ts:337-366 | the retweet check fails with the search's error when the search fails; it answers true only if some tweet-data item of the 50-item "from:<usuario> filter:nativeretweets" search is a retweet of the page; when every such item is readable, it answers whether one is; whenever the search succeeds, the answer, including a type error from an unreadable item, is the in-order retweet scan of the filtered items |
| InteractionService.CommentedInThread | src/services/InteractionService.ts:372-414 | an unparsable `checkSince` is an invalid-date error; a failed comment search fails the check; it answers true only if some tweet-data item of the search is a reply by the normalised subject; when every such item has a string author name, it answers whether one is; whenever the search succeeds, the answer, including a type error, is the in-order reply scan of the filtered items |
| InteractionService.VerifyProduction | src/services/InteractionService.ts:220-264 | a URL without an id fails before anything else, with the cache untouched. Otherwise the cache is what the cache step left, even if a later step fails. The request succeeds iff the cache step, the follower scan, the retweet check and the comment check all succeed, and otherwise fails with the first failing step's error. A success reports `fromCache` as `cacheUsed`, echoes `checkSince`, and carries the three answers |
| InteractionService.VerifyInteractions | src/services/InteractionService.ts:116-165 | an answer echoes the request, stamps the mode and the clock, and scores its interactions. Replay leaves the cache alone and reports no cache use and no `newDataSince`. Live reports what the production path found. A failed answer carries exactly the error of the replay or live verification it dispatched to |
| InteractionService.ReplayIgnoresLiveInputs | src/services/InteractionService.ts:134-139 | in replay mode the URL, time filter, scrapers, clock and cache do not affect the interactions, the score or any error |
| InteractionService.ReplayNeedsEveryFixture | src/services/InteractionService.ts:179-187 | a replay request with any fixture missing fails with a missing-fixture error |
| InteractionService.LiveRejectsBadUrl | src/services/InteractionService.ts:229 | a live request whose URL has no tweet id fails with the invalid-URL error and leaves the cache unchanged |
| InteractionService.LiveCacheUsedIffFresh | src/services/InteractionService.ts:255-258 | a live answer has `cacheUsed` iff a fresh entry for the page was cached, and `newDataSince` equals `checkSince` |
| InteractionService.LiveCacheUpdate | src/services/InteractionService.ts:446-458 | a live request changes at most the page's entry. It is left as it was when the cache was used, and otherwise holds the fetched list stamped with the request's instant |
| InteractionService.FollowsIgnoresCheckSince | src/services/InteractionService.ts:428-429 | two live requests differing only in `checkSince` leave the same cache and agree on `seguindo` and `cacheUsed` |
| Scenarios.ExampleUrlId | src/services/InteractionService.ts:78-79 | "https://x.com/RoguesNFT/status/1960014365333299601" yields "1960014365333299601" |
| Scenarios.NotAUrlRejected | src/services/InteractionService.ts:531-534 | "not-a-url" is rejected with the invalid-URL error |
| Scenarios.ReplayAlice | src/services/InteractionService.ts:170-215 | replaying for "@Alice", who follows and retweeted but posted a non-reply, gives (true, true, false) and score 67 even with an unparsable URL |
| Scenarios.ReplayBob | src/services/InteractionService.ts:170-215 | replaying for "bob", who only retweeted and replied, gives (false, true, true) and score 67 |
| Scenarios.RetweetTargetNotStripped | src/services/InteractionService.ts:355-356 | a retweet of "RoguesNFT" counts for page "RoguesNFT" but not for "@RoguesNFT" |
| Scenarios.FollowerWithoutNameThrows | src/services/InteractionService.ts:462 | a follower record without `userName` makes the follower check throw |
| Scenarios.LiveAndReplayCommentsDiffer | src/services/InteractionService.ts:509 | an item whose author has no name makes the live comment check throw, while the replay check passes over it |

## Left out

- `src/services/ApifyService.ts` beyond the `isTweetData` filter of `searchTweets`: the actor input defaults (`Math.max(maxItems || 100, 50)` and the optional search fields), the client calls and `getFollowers`. The scrapers are oracles from query to items or failure.
- `gerarExemplosReais`, `obterComentariosReal` and `salvarExemplo`: they only generate fixtures.
- `Scrapers.PageFollowers`: `obterSeguidoresDaPagina` (src/services/InteractionService.ts:270-285) is an oracle call, and its items are used without validation. It carries no contract of its own, because any contract would only repeat its one-line body. Its query, followers of exactly the target page with at most 5000 items, is the literal `FollowersOfPage` value.
- `verificarSeguidorReal`: no request path calls it. Its test is the one `Matching.Follows` models.
- Routes, configuration loading and the HTTP front end. The run mode is an explicit parameter.
- File I/O and JSON (de)serialisation. Fixtures and the cache are maps.
  - An unreadable or unparsable fixture is an absent key.
  - An unreadable cache file is an absent key, which is what `carregarCache`'s `null` means.
  - A cache file that parses to something other than an entry is not represented.
- The cache is a map from key to entry, so two file-system effects of `salvarCache` (src/services/InteractionService.ts:565-570) are not represented:
  - the file is `path.join(cacheDir, key + ".json")`, so a page containing `/` or `..` can share another key's file or land outside the cache directory, while distinct keys here are always distinct entries;
  - `fs.writeFile` truncates the old file before writing, so a write that fails midway loses the old entry, while here a failed write leaves it in place.
- Cache timestamps are integer milliseconds, not ISO strings. The `toISOString`/`new Date` round trip on them is taken to be exact, so an unparsable stored timestamp (NaN age) is not represented.
- The clock is read once per request. The source reads it separately for the cache stamps, the cache age and the answer's timestamp.
- `new Date(checkSince)` is an oracle returning a time value in [0, 8.64·10^15] or "invalid". Instants before 1970 are not represented.
- `FollowerCache.AgeInHours`: the age is an exact real quotient, while the source divides in double precision. Rounding can only matter for an age within a fraction of a millisecond of the limit, which integer timestamps cannot produce for any realistic limit.
- `FollowerCache.MaxCacheAge`: `maxCacheAge` is an integer number of hours. The source accepts any number, including fractions and NaN.
- `Strings.Lower`: `toLowerCase` is ASCII lower-casing, not full Unicode case mapping.
- `InteractionService.Score`: the score is computed exactly, not in floating point. For k in 0..3 the floating-point expression rounds to the same four values.
- Error messages are reduced to error kinds with the offending value, and logging is dropped.
- Concurrency: two requests racing on the same cache file are not modelled. Requests are sequential.
- `curtiu` is always null and is not represented in `UserInteraction`.
