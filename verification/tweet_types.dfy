/**
  The runtime type guards over untyped scraper output and the filters built on
  them (src/types/index.ts).
 */
module TweetTypes {
  import opened Optional
  import opened JsonValues
  import opened Sequences

  /**
    `isTweetData`: an object whose `id` and `text` are strings and whose
    `author` is an object. Because `typeof` says "object" for arrays, an array
    author passes; a top-level array never does, since it has no `id`.
   */
  predicate IsTweetData(v: Json)
    ensures IsTweetData(v) <==>
      && v.JObject?
      && "id" in v.fields && v.fields["id"].JString?
      && "text" in v.fields && v.fields["text"].JString?
      && "author" in v.fields && (v.fields["author"].JObject? || v.fields["author"].JArray?)
  {
    && TypeOf(Some(v)) == ObjectType
    && v != JNull
    && TypeOf(Member(v, "id")) == StringType
    && TypeOf(Member(v, "text")) == StringType
    && TypeOf(Member(v, "author")) == ObjectType
    && Member(v, "author") != Some(JNull)
  }

  /** `isTweetAuthor`: an object whose `userName` is a string and whose `followers` is a number. */
  predicate IsTweetAuthor(v: Json)
    ensures IsTweetAuthor(v) <==>
      && v.JObject?
      && "userName" in v.fields && v.fields["userName"].JString?
      && "followers" in v.fields && v.fields["followers"].JNumber?
  {
    && TypeOf(Some(v)) == ObjectType
    && v != JNull
    && TypeOf(Member(v, "userName")) == StringType
    && TypeOf(Member(v, "followers")) == NumberType
  }

  /** `parseApifyTweetData`: `items.filter(isTweetData)`. */
  function ParseApifyTweetData(items: seq<Json>): (r: seq<Json>)
    ensures |r| <= |items|
    ensures forall x :: x in r ==> IsTweetData(x) && x in items
    ensures forall i :: 0 <= i < |items| && IsTweetData(items[i]) ==> items[i] in r
  {
    FilterMembers(items, IsTweetData);
    Filter(items, IsTweetData)
  }

  /** `parseApifyTweetItem`: the item itself when it is tweet data, null (here `None`) otherwise. */
  function ParseApifyTweetItem(item: Json): (r: Option<Json>)
    ensures r.Some? <==> IsTweetData(item)
    ensures r.Some? ==> r.value == item
  {
    if IsTweetData(item) then Some(item) else None
  }

  /** The non-null results of `parseApifyTweetItem` over `items`, in order. */
  function CollectParsedItems(items: seq<Json>): seq<Json> {
    if |items| == 0 then []
    else
      var rest := CollectParsedItems(items[..|items| - 1]);
      match ParseApifyTweetItem(items[|items| - 1])
      case Some(v) => rest + [v]
      case None => rest
  }

  /**
    The filter keeps exactly the items that satisfy `isTweetData`, in their
    original order and unchanged: `idx` lists their positions in `items`.
   */
  lemma ParseKeepsExactlyTweetData(items: seq<Json>) returns (idx: seq<nat>)
    ensures |idx| == |ParseApifyTweetData(items)|
    ensures forall k :: 0 <= k < |idx| ==> idx[k] < |items| && ParseApifyTweetData(items)[k] == items[idx[k]]
    ensures forall k, l :: 0 <= k < l < |idx| ==> idx[k] < idx[l]
    ensures forall i :: 0 <= i < |items| ==> (IsTweetData(items[i]) <==> i in idx)
  {
    idx := FilterPositions(items, IsTweetData);
  }

  /** `parseApifyTweetData` is idempotent. */
  lemma ParseIdempotent(items: seq<Json>)
    ensures ParseApifyTweetData(ParseApifyTweetData(items)) == ParseApifyTweetData(items)
  {
    var r := ParseApifyTweetData(items);
    assert forall i :: 0 <= i < |r| ==> r[i] in r;
    FilterKeepsPassing(r, IsTweetData);
  }

  /** Filtering with `isTweetData` and collecting the non-null `parseApifyTweetItem` results agree. */
  lemma {:induction false} ParseAgreesWithItemParser(items: seq<Json>)
    ensures ParseApifyTweetData(items) == CollectParsedItems(items)
  {
    if |items| > 0 {
      ParseAgreesWithItemParser(items[..|items| - 1]);
    }
  }
}
