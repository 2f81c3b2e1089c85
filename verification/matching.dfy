/**
  The "any match" scans of src/services/InteractionService.ts: does a follower
  list hold the subject, does a timeline hold a retweet of the target page,
  does a thread hold a reply by the subject. Each runs JavaScript's
  `Array.prototype.some` over raw JSON items with a callback that can throw.
 */
module Matching {
  import opened Optional
  import opened Errors
  import opened Strings
  import opened JsonValues

  /** No item before position `i` satisfies `p`, and none of them throws. */
  predicate NoneBefore(xs: seq<Json>, p: Json -> Result<bool>, i: int)
    requires 0 <= i <= |xs|
  {
    forall j :: 0 <= j < i ==> p(xs[j]) == Ok(false)
  }

  /**
    `xs.some(p)` for a callback that may throw: items are tried from the
    left, the scan stops at the first item for which `p` holds, and an
    exception raised before that aborts the whole scan.
   */
  function SomeItem(xs: seq<Json>, p: Json -> Result<bool>): (r: Result<bool>)
    ensures r == Ok(true) <==>
      exists i :: 0 <= i < |xs| && p(xs[i]) == Ok(true) && NoneBefore(xs, p, i)
    ensures r == Ok(false) <==> NoneBefore(xs, p, |xs|)
    ensures r.Err? <==> exists i :: 0 <= i < |xs| && p(xs[i]).Err? && NoneBefore(xs, p, i)
    ensures r.Err? ==> exists i :: 0 <= i < |xs| && p(xs[i]).Err? && NoneBefore(xs, p, i) && r == p(xs[i])
    ensures (forall i :: 0 <= i < |xs| ==> p(xs[i]).Ok?) ==>
      r == Ok(exists i :: 0 <= i < |xs| && p(xs[i]) == Ok(true))
  {
    if |xs| == 0 then Ok(false)
    else
      assert forall i :: 0 < i < |xs| ==> xs[1..][i - 1] == xs[i];
      assert forall i :: 1 <= i <= |xs| ==> (NoneBefore(xs, p, i) <==> p(xs[0]) == Ok(false) && NoneBefore(xs[1..], p, i - 1));
      match p(xs[0])
      case Err(e) => Err(e)
      case Ok(found) => if found then Ok(true) else SomeItem(xs[1..], p)
  }

  /** When no item throws, `.some` does not depend on the order of the items. */
  lemma SomeItemIgnoresOrder(xs: seq<Json>, ys: seq<Json>, p: Json -> Result<bool>)
    requires multiset(xs) == multiset(ys)
    requires forall i :: 0 <= i < |xs| ==> p(xs[i]).Ok?
    ensures SomeItem(xs, p) == SomeItem(ys, p)
  {
    forall j | 0 <= j < |ys|
      ensures p(ys[j]).Ok?
      ensures p(ys[j]) == Ok(true) ==> exists i :: 0 <= i < |xs| && p(xs[i]) == Ok(true)
    {
      assert ys[j] in multiset(xs);
      var i :| 0 <= i < |xs| && xs[i] == ys[j];
    }
    forall i | 0 <= i < |xs| && p(xs[i]) == Ok(true)
      ensures exists j :: 0 <= j < |ys| && p(ys[j]) == Ok(true)
    {
      assert xs[i] in multiset(ys);
      var j :| 0 <= j < |ys| && ys[j] == xs[i];
    }
  }

  /**
    `SomeItem` in terms of two properties of an item: whether the callback
    throws on it (`fails`) and whether it holds for it (`holds`).
   */
  lemma SomeItemByCases(xs: seq<Json>, p: Json -> Result<bool>, fails: Json -> bool, holds: Json -> bool)
    requires forall i :: 0 <= i < |xs| ==> (p(xs[i]).Err? <==> fails(xs[i]))
    requires forall i :: 0 <= i < |xs| ==> p(xs[i]).Ok? ==> (p(xs[i]).value <==> holds(xs[i]))
    ensures (forall i :: 0 <= i < |xs| ==> !fails(xs[i])) ==>
      SomeItem(xs, p) == Ok(exists i :: 0 <= i < |xs| && holds(xs[i]))
  {
  }

  // ---- follows -----------------------------------------------------------

  /** The record carries a string `userName`. */
  predicate HasUserName(user: Json) {
    StringMember(user, "userName").Some?
  }

  /** The record's lower-cased `userName` is `subject`. */
  predicate UserNamed(user: Json, subject: string) {
    HasUserName(user) && Lower(StringMember(user, "userName").value) == subject
  }

  /** `user.userName.toLowerCase() === subject`: throws unless `userName` is a string. */
  function FollowerIsSubject(user: Json, subject: string): (r: Result<bool>)
    ensures r.Err? <==> !HasUserName(user)
    ensures r.Err? ==> r.error.TypeError?
    ensures r.Ok? ==> (r.value <==> UserNamed(user, subject))
  {
    var name :- StrictMember(Some(user), "userName");
    var lower :- ToLowerCase(name);
    Ok(lower == subject)
  }

  /** Every record before position `i` has a string `userName` other than `subject`. */
  predicate NoFollowerMatchBefore(followers: seq<Json>, subject: string, i: int)
    requires 0 <= i <= |followers|
  {
    forall j :: 0 <= j < i ==> HasUserName(followers[j]) && !UserNamed(followers[j], subject)
  }

  function FollowerMatch(subject: string): Json -> Result<bool> {
    user => FollowerIsSubject(user, subject)
  }

  /**
    `followers.some(user => user.userName.toLowerCase() === usuario.replace("@", "").toLowerCase())`.
   */
  function Follows(followers: seq<Json>, usuario: string): (r: Result<bool>)
    ensures (forall i :: 0 <= i < |followers| ==> HasUserName(followers[i])) ==>
      r == Ok(exists i :: 0 <= i < |followers| && UserNamed(followers[i], NormalizeHandle(usuario)))
    ensures r == Ok(true) <==>
      exists i :: 0 <= i < |followers| && UserNamed(followers[i], NormalizeHandle(usuario)) && NoFollowerMatchBefore(followers, NormalizeHandle(usuario), i)
    ensures r.Err? <==>
      exists i :: 0 <= i < |followers| && !HasUserName(followers[i]) && NoFollowerMatchBefore(followers, NormalizeHandle(usuario), i)
    ensures r.Err? ==> r.error.TypeError?
  {
    var subject := NormalizeHandle(usuario);
    FollowsTotal(followers, subject);
    FollowsFails(followers, subject);
    SomeItem(followers, FollowerMatch(subject))
  }

  /** When every record has a string `userName`, the scan is a plain existence test. */
  lemma FollowsTotal(followers: seq<Json>, subject: string)
    ensures (forall i :: 0 <= i < |followers| ==> HasUserName(followers[i])) ==>
      SomeItem(followers, FollowerMatch(subject)) == Ok(exists i :: 0 <= i < |followers| && UserNamed(followers[i], subject))
  {
    var fails, holds := user => !HasUserName(user), user => UserNamed(user, subject);
    SomeItemByCases(followers, FollowerMatch(subject), fails, holds);
  }

  /**
    The scan throws exactly when a record without a string `userName` comes
    before any match, and answers true exactly when a match comes first.
   */
  lemma FollowsFails(followers: seq<Json>, subject: string)
    ensures SomeItem(followers, FollowerMatch(subject)).Err? <==>
      exists i :: 0 <= i < |followers| && !HasUserName(followers[i]) && NoFollowerMatchBefore(followers, subject, i)
    ensures SomeItem(followers, FollowerMatch(subject)) == Ok(true) <==>
      exists i :: 0 <= i < |followers| && UserNamed(followers[i], subject) && NoFollowerMatchBefore(followers, subject, i)
  {
    var p := FollowerMatch(subject);
    forall i | 0 <= i <= |followers|
      ensures NoneBefore(followers, p, i) <==> NoFollowerMatchBefore(followers, subject, i)
    {
      forall j | 0 <= j < i
        ensures p(followers[j]) == Ok(false) <==> HasUserName(followers[j]) && !UserNamed(followers[j], subject)
      {
        var _ := FollowerIsSubject(followers[j], subject);
      }
    }
    forall i | 0 <= i < |followers|
      ensures p(followers[i]).Err? <==> !HasUserName(followers[i])
      ensures p(followers[i]) == Ok(true) <==> UserNamed(followers[i], subject)
    {
      var _ := FollowerIsSubject(followers[i], subject);
    }
  }

  // ---- retweeted ---------------------------------------------------------

  /** `tweet.retweetedTweet?.author?.userName`. */
  function RetweetedAuthorName(tweet: Json): JsValue {
    OptionalMember(OptionalMember(Member(tweet, "retweetedTweet"), "author"), "userName")
  }

  /** The tweet is flagged as a retweet of a tweet whose author is `page`, case-insensitively. */
  predicate RetweetOf(tweet: Json, page: string) {
    && Truthy(Member(tweet, "isRetweet"))
    && TypeOf(RetweetedAuthorName(tweet)) == StringType
    && Lower(RetweetedAuthorName(tweet).value.s) == Lower(page)
  }

  /** Evaluating the retweet test on the item does not throw. */
  predicate RetweetReadable(tweet: Json) {
    && tweet != JNull
    && (Truthy(Member(tweet, "isRetweet")) ==>
          IsNullish(RetweetedAuthorName(tweet)) || TypeOf(RetweetedAuthorName(tweet)) == StringType)
  }

  /** `tweet.isRetweet && tweet.retweetedTweet?.author?.userName?.toLowerCase() === paginaAlvo.toLowerCase()`. */
  function IsRetweetOfPage(tweet: Json, page: string): (r: Result<bool>)
    ensures r.Err? <==> !RetweetReadable(tweet)
    ensures r.Err? ==> r.error.TypeError?
    ensures r.Ok? ==> (r.value <==> RetweetOf(tweet, page))
  {
    var isRetweet :- StrictMember(Some(tweet), "isRetweet");
    if !Truthy(isRetweet) then Ok(false)
    else
      var name :- OptionalToLowerCase(RetweetedAuthorName(tweet));
      Ok(name == Some(Lower(page)))
  }

  /** Every item before position `i` is readable and not a retweet of `page`. */
  predicate NoRetweetBefore(timeline: seq<Json>, page: string, i: int)
    requires 0 <= i <= |timeline|
  {
    forall j :: 0 <= j < i ==> RetweetReadable(timeline[j]) && !RetweetOf(timeline[j], page)
  }

  function RetweetMatch(page: string): Json -> Result<bool> {
    tweet => IsRetweetOfPage(tweet, page)
  }

  /**
    `timeline.some(tweet => tweet.isRetweet && tweet.retweetedTweet?.author?.userName?.toLowerCase() === paginaAlvo.toLowerCase())`.
   */
  function Retweeted(timeline: seq<Json>, paginaAlvo: string): (r: Result<bool>)
    ensures (forall i :: 0 <= i < |timeline| ==> RetweetReadable(timeline[i])) ==>
      r == Ok(exists i :: 0 <= i < |timeline| && RetweetOf(timeline[i], paginaAlvo))
    ensures r == Ok(true) <==>
      exists i :: 0 <= i < |timeline| && RetweetOf(timeline[i], paginaAlvo) && NoRetweetBefore(timeline, paginaAlvo, i)
    ensures r.Err? <==>
      exists i :: 0 <= i < |timeline| && !RetweetReadable(timeline[i]) && NoRetweetBefore(timeline, paginaAlvo, i)
    ensures r.Err? ==> r.error.TypeError?
  {
    RetweetedTotal(timeline, paginaAlvo);
    RetweetedFails(timeline, paginaAlvo);
    SomeItem(timeline, RetweetMatch(paginaAlvo))
  }

  /** When no item makes the test throw, the scan is a plain existence test. */
  lemma RetweetedTotal(timeline: seq<Json>, paginaAlvo: string)
    ensures (forall i :: 0 <= i < |timeline| ==> RetweetReadable(timeline[i])) ==>
      SomeItem(timeline, RetweetMatch(paginaAlvo)) == Ok(exists i :: 0 <= i < |timeline| && RetweetOf(timeline[i], paginaAlvo))
  {
    var fails, holds := t => !RetweetReadable(t), t => RetweetOf(t, paginaAlvo);
    SomeItemByCases(timeline, RetweetMatch(paginaAlvo), fails, holds);
  }

  /**
    The scan throws exactly when an unreadable item comes before any retweet
    of the page, and answers true exactly when such a retweet comes first.
   */
  lemma RetweetedFails(timeline: seq<Json>, paginaAlvo: string)
    ensures SomeItem(timeline, RetweetMatch(paginaAlvo)).Err? <==>
      exists i :: 0 <= i < |timeline| && !RetweetReadable(timeline[i]) && NoRetweetBefore(timeline, paginaAlvo, i)
    ensures SomeItem(timeline, RetweetMatch(paginaAlvo)) == Ok(true) <==>
      exists i :: 0 <= i < |timeline| && RetweetOf(timeline[i], paginaAlvo) && NoRetweetBefore(timeline, paginaAlvo, i)
  {
    var p := RetweetMatch(paginaAlvo);
    forall i | 0 <= i <= |timeline|
      ensures NoneBefore(timeline, p, i) <==> NoRetweetBefore(timeline, paginaAlvo, i)
    {
      forall j | 0 <= j < i
        ensures p(timeline[j]) == Ok(false) <==> RetweetReadable(timeline[j]) && !RetweetOf(timeline[j], paginaAlvo)
      {
        var _ := IsRetweetOfPage(timeline[j], paginaAlvo);
      }
    }
    forall i | 0 <= i < |timeline|
      ensures p(timeline[i]).Err? <==> !RetweetReadable(timeline[i])
      ensures p(timeline[i]) == Ok(true) <==> RetweetOf(timeline[i], paginaAlvo)
    {
      var _ := IsRetweetOfPage(timeline[i], paginaAlvo);
    }
  }

  // ---- commented ---------------------------------------------------------

  /** `tweet.author?.userName` (the same value as `tweet.author.userName` whenever that does not throw). */
  function AuthorName(tweet: Json): JsValue {
    OptionalMember(Member(tweet, "author"), "userName")
  }

  /** The item is a reply (`isReply` truthy) whose author's lower-cased `userName` is `subject`. */
  predicate ReplyBy(tweet: Json, subject: string) {
    && TypeOf(AuthorName(tweet)) == StringType
    && Lower(AuthorName(tweet).value.s) == subject
    && Truthy(Member(tweet, "isReply"))
  }

  /** `tweet.author.userName.toLowerCase() === subject && tweet.isReply`: throws unless the author's name is a string. */
  function IsReplyBySubject(tweet: Json, subject: string): (r: Result<bool>)
    ensures r.Err? <==> TypeOf(AuthorName(tweet)) != StringType
    ensures r.Err? ==> r.error.TypeError?
    ensures r.Ok? ==> (r.value <==> ReplyBy(tweet, subject))
  {
    var author :- StrictMember(Some(tweet), "author");
    var name :- StrictMember(author, "userName");
    var lower :- ToLowerCase(name);
    Ok(lower == subject && Truthy(Member(tweet, "isReply")))
  }

  /** Evaluating the replay comment test on the item does not throw. */
  predicate FixtureReplyReadable(tweet: Json) {
    tweet != JNull && (IsNullish(AuthorName(tweet)) || TypeOf(AuthorName(tweet)) == StringType)
  }

  /**
    `tweet.author?.userName?.toLowerCase() === subject && tweet.isReply`: a
    missing author or name is a non-match instead of an exception.
   */
  function IsReplyBySubjectOptional(tweet: Json, subject: string): (r: Result<bool>)
    ensures r.Err? <==> !FixtureReplyReadable(tweet)
    ensures r.Err? ==> r.error.TypeError?
    ensures r.Ok? ==> (r.value <==> ReplyBy(tweet, subject))
  {
    var author :- StrictMember(Some(tweet), "author");
    var name :- OptionalToLowerCase(OptionalMember(author, "userName"));
    Ok(name == Some(subject) && Truthy(Member(tweet, "isReply")))
  }

  /** Every item before position `i` has a string author name and is not a reply by `subject`. */
  predicate NoReplyBefore(comments: seq<Json>, subject: string, i: int)
    requires 0 <= i <= |comments|
  {
    forall j :: 0 <= j < i ==> TypeOf(AuthorName(comments[j])) == StringType && !ReplyBy(comments[j], subject)
  }

  /** Every item before position `i` is readable by the replay test and is not a reply by `subject`. */
  predicate NoFixtureReplyBefore(comments: seq<Json>, subject: string, i: int)
    requires 0 <= i <= |comments|
  {
    forall j :: 0 <= j < i ==> FixtureReplyReadable(comments[j]) && !ReplyBy(comments[j], subject)
  }

  function ReplyMatch(subject: string): Json -> Result<bool> {
    tweet => IsReplyBySubject(tweet, subject)
  }

  function FixtureReplyMatch(subject: string): Json -> Result<bool> {
    tweet => IsReplyBySubjectOptional(tweet, subject)
  }

  /** The live comment scan (`verificarComentarioComFiltroTemporal`). */
  function Commented(comments: seq<Json>, usuario: string): (r: Result<bool>)
    ensures (forall i :: 0 <= i < |comments| ==> TypeOf(AuthorName(comments[i])) == StringType) ==>
      r == Ok(exists i :: 0 <= i < |comments| && ReplyBy(comments[i], NormalizeHandle(usuario)))
    ensures r == Ok(true) <==>
      exists i :: 0 <= i < |comments| && ReplyBy(comments[i], NormalizeHandle(usuario)) && NoReplyBefore(comments, NormalizeHandle(usuario), i)
    ensures r.Err? <==>
      exists i :: 0 <= i < |comments| && TypeOf(AuthorName(comments[i])) != StringType && NoReplyBefore(comments, NormalizeHandle(usuario), i)
    ensures r.Err? ==> r.error.TypeError?
  {
    var subject := NormalizeHandle(usuario);
    CommentedTotal(comments, subject);
    CommentedFails(comments, subject);
    SomeItem(comments, ReplyMatch(subject))
  }

  /** When every item has a string author name, the live scan is a plain existence test. */
  lemma CommentedTotal(comments: seq<Json>, subject: string)
    ensures (forall i :: 0 <= i < |comments| ==> TypeOf(AuthorName(comments[i])) == StringType) ==>
      SomeItem(comments, ReplyMatch(subject)) == Ok(exists i :: 0 <= i < |comments| && ReplyBy(comments[i], subject))
  {
    var fails, holds := t => TypeOf(AuthorName(t)) != StringType, t => ReplyBy(t, subject);
    SomeItemByCases(comments, ReplyMatch(subject), fails, holds);
  }

  /**
    The live scan throws exactly when an item without a string author name
    comes before any match, and answers true exactly when a match comes first.
   */
  lemma CommentedFails(comments: seq<Json>, subject: string)
    ensures SomeItem(comments, ReplyMatch(subject)).Err? <==>
      exists i :: 0 <= i < |comments| && TypeOf(AuthorName(comments[i])) != StringType && NoReplyBefore(comments, subject, i)
    ensures SomeItem(comments, ReplyMatch(subject)) == Ok(true) <==>
      exists i :: 0 <= i < |comments| && ReplyBy(comments[i], subject) && NoReplyBefore(comments, subject, i)
  {
    var p := ReplyMatch(subject);
    forall i | 0 <= i <= |comments|
      ensures NoneBefore(comments, p, i) <==> NoReplyBefore(comments, subject, i)
    {
      forall j | 0 <= j < i
        ensures p(comments[j]) == Ok(false) <==> TypeOf(AuthorName(comments[j])) == StringType && !ReplyBy(comments[j], subject)
      {
        var _ := IsReplyBySubject(comments[j], subject);
      }
    }
    forall i | 0 <= i < |comments|
      ensures p(comments[i]).Err? <==> TypeOf(AuthorName(comments[i])) != StringType
      ensures p(comments[i]) == Ok(true) <==> ReplyBy(comments[i], subject)
    {
      var _ := IsReplyBySubject(comments[i], subject);
    }
  }

  /** The replay comment scan (`verificarComentarioNosExemplos`). */
  function CommentedInFixture(comments: seq<Json>, usuario: string): (r: Result<bool>)
    ensures (forall i :: 0 <= i < |comments| ==> FixtureReplyReadable(comments[i])) ==>
      r == Ok(exists i :: 0 <= i < |comments| && ReplyBy(comments[i], NormalizeHandle(usuario)))
    ensures r == Ok(true) <==>
      exists i :: 0 <= i < |comments| && ReplyBy(comments[i], NormalizeHandle(usuario)) && NoFixtureReplyBefore(comments, NormalizeHandle(usuario), i)
    ensures r.Err? <==>
      exists i :: 0 <= i < |comments| && !FixtureReplyReadable(comments[i]) && NoFixtureReplyBefore(comments, NormalizeHandle(usuario), i)
    ensures r.Err? ==> r.error.TypeError?
  {
    var subject := NormalizeHandle(usuario);
    CommentedInFixtureTotal(comments, subject);
    CommentedInFixtureFails(comments, subject);
    SomeItem(comments, FixtureReplyMatch(subject))
  }

  /** When no item makes the replay test throw, the replay scan is a plain existence test. */
  lemma CommentedInFixtureTotal(comments: seq<Json>, subject: string)
    ensures (forall i :: 0 <= i < |comments| ==> FixtureReplyReadable(comments[i])) ==>
      SomeItem(comments, FixtureReplyMatch(subject)) == Ok(exists i :: 0 <= i < |comments| && ReplyBy(comments[i], subject))
  {
    var fails, holds := t => !FixtureReplyReadable(t), t => ReplyBy(t, subject);
    SomeItemByCases(comments, FixtureReplyMatch(subject), fails, holds);
  }

  /**
    The replay scan throws exactly when an unreadable item comes before any
    match, and answers true exactly when a match comes first.
   */
  lemma CommentedInFixtureFails(comments: seq<Json>, subject: string)
    ensures SomeItem(comments, FixtureReplyMatch(subject)).Err? <==>
      exists i :: 0 <= i < |comments| && !FixtureReplyReadable(comments[i]) && NoFixtureReplyBefore(comments, subject, i)
    ensures SomeItem(comments, FixtureReplyMatch(subject)) == Ok(true) <==>
      exists i :: 0 <= i < |comments| && ReplyBy(comments[i], subject) && NoFixtureReplyBefore(comments, subject, i)
  {
    var p := FixtureReplyMatch(subject);
    forall i | 0 <= i <= |comments|
      ensures NoneBefore(comments, p, i) <==> NoFixtureReplyBefore(comments, subject, i)
    {
      forall j | 0 <= j < i
        ensures p(comments[j]) == Ok(false) <==> FixtureReplyReadable(comments[j]) && !ReplyBy(comments[j], subject)
      {
        var _ := IsReplyBySubjectOptional(comments[j], subject);
      }
    }
    forall i | 0 <= i < |comments|
      ensures p(comments[i]).Err? <==> !FixtureReplyReadable(comments[i])
      ensures p(comments[i]) == Ok(true) <==> ReplyBy(comments[i], subject)
    {
      var _ := IsReplyBySubjectOptional(comments[i], subject);
    }
  }

  // ---- properties of the scans -------------------------------------------

  /** "@alice" and "alice" are the same subject for the follower scan. */
  lemma FollowsIgnoresLeadingAt(followers: seq<Json>, u: string)
    requires '@' !in u
    ensures Follows(followers, "@" + u) == Follows(followers, u)
  {
    LeadingAtIgnored(u);
  }

  /** Subjects that differ only in letter case are the same subject for the follower scan. */
  lemma FollowsIgnoresCase(followers: seq<Json>, u: string, v: string)
    requires Lower(u) == Lower(v)
    ensures Follows(followers, u) == Follows(followers, v)
  {
    CaseIgnored(u, v);
  }

  /** "@alice" and "alice" are the same subject for both comment scans. */
  lemma CommentedIgnoresLeadingAt(comments: seq<Json>, u: string)
    requires '@' !in u
    ensures Commented(comments, "@" + u) == Commented(comments, u)
    ensures CommentedInFixture(comments, "@" + u) == CommentedInFixture(comments, u)
  {
    LeadingAtIgnored(u);
  }

  /** Subjects that differ only in letter case are the same subject for both comment scans. */
  lemma CommentedIgnoresCase(comments: seq<Json>, u: string, v: string)
    requires Lower(u) == Lower(v)
    ensures Commented(comments, u) == Commented(comments, v)
    ensures CommentedInFixture(comments, u) == CommentedInFixture(comments, v)
  {
    CaseIgnored(u, v);
  }

  /** When every record has a string `userName`, reordering the follower list does not change the answer. */
  lemma FollowsIgnoresOrder(xs: seq<Json>, ys: seq<Json>, usuario: string)
    requires multiset(xs) == multiset(ys)
    requires forall i :: 0 <= i < |xs| ==> HasUserName(xs[i])
    ensures Follows(xs, usuario) == Follows(ys, usuario)
  {
    var p := FollowerMatch(NormalizeHandle(usuario));
    assert forall i :: 0 <= i < |xs| ==> p(xs[i]).Ok?;
    SomeItemIgnoresOrder(xs, ys, p);
  }

  /** When no item makes the test throw, reordering the timeline does not change the answer. */
  lemma RetweetedIgnoresOrder(xs: seq<Json>, ys: seq<Json>, paginaAlvo: string)
    requires multiset(xs) == multiset(ys)
    requires forall i :: 0 <= i < |xs| ==> RetweetReadable(xs[i])
    ensures Retweeted(xs, paginaAlvo) == Retweeted(ys, paginaAlvo)
  {
    var p := RetweetMatch(paginaAlvo);
    assert forall i :: 0 <= i < |xs| ==> p(xs[i]).Ok?;
    SomeItemIgnoresOrder(xs, ys, p);
  }

  /** When every item has a string author name, reordering the thread does not change the live answer. */
  lemma CommentedIgnoresOrder(xs: seq<Json>, ys: seq<Json>, usuario: string)
    requires multiset(xs) == multiset(ys)
    requires forall i :: 0 <= i < |xs| ==> TypeOf(AuthorName(xs[i])) == StringType
    ensures Commented(xs, usuario) == Commented(ys, usuario)
  {
    var p := ReplyMatch(NormalizeHandle(usuario));
    assert forall i :: 0 <= i < |xs| ==> p(xs[i]).Ok?;
    SomeItemIgnoresOrder(xs, ys, p);
  }

  /** When every item is readable by the replay test, reordering the thread does not change the replay answer. */
  lemma CommentedInFixtureIgnoresOrder(xs: seq<Json>, ys: seq<Json>, usuario: string)
    requires multiset(xs) == multiset(ys)
    requires forall i :: 0 <= i < |xs| ==> FixtureReplyReadable(xs[i])
    ensures CommentedInFixture(xs, usuario) == CommentedInFixture(ys, usuario)
  {
    var p := FixtureReplyMatch(NormalizeHandle(usuario));
    assert forall i :: 0 <= i < |xs| ==> p(xs[i]).Ok?;
    SomeItemIgnoresOrder(xs, ys, p);
  }

  /** A post that is not a reply never counts as a comment, in either scan. */
  lemma NonRepliesNeverCount(comments: seq<Json>, usuario: string)
    requires forall i :: 0 <= i < |comments| ==> !Truthy(Member(comments[i], "isReply"))
    ensures Commented(comments, usuario) != Ok(true)
    ensures CommentedInFixture(comments, usuario) != Ok(true)
  {
  }

  /**
    Where every item carries a string author name the live and the replay
    comment scans agree.
   */
  lemma {:induction false} LiveAndReplayCommentsAgree(comments: seq<Json>, usuario: string)
    requires forall i :: 0 <= i < |comments| ==> TypeOf(AuthorName(comments[i])) == StringType
    ensures Commented(comments, usuario) == CommentedInFixture(comments, usuario)
  {
    assert forall i :: 0 <= i < |comments| ==> FixtureReplyReadable(comments[i]);
  }
}
