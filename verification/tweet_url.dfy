/**
  `extrairTweetId`: the id of the tweet a status URL points at, found with the
  regular expression `status\/(\d+)` (leftmost match, greedy digit run).
 */
module TweetUrl {
  import opened Errors
  import opened Strings

  const Marker := "status/"

  /** The pattern matches at position `i`: "status/" followed by at least one digit. */
  predicate StatusAt(url: string, i: int) {
    0 <= i && i + |Marker| < |url| && url[i..i + |Marker|] == Marker && IsDigit(url[i + |Marker|])
  }

  /** `id` is the whole digit run that starts right after the "status/" at position `i`. */
  predicate IdAt(url: string, i: int, id: string) {
    && 0 <= i && i + |Marker| + |id| <= |url|
    && id == url[i + |Marker| .. i + |Marker| + |id|]
    && (forall k :: 0 <= k < |id| ==> IsDigit(id[k]))
    && (i + |Marker| + |id| == |url| || !IsDigit(url[i + |Marker| + |id|]))
  }

  /** The end of the run of digits that starts at `from`. */
  function DigitRunEnd(s: string, from: nat): (e: nat)
    requires from <= |s|
    ensures from <= e <= |s|
    ensures forall k :: from <= k < e ==> IsDigit(s[k])
    ensures e == |s| || !IsDigit(s[e])
    decreases |s| - from
  {
    if from < |s| && IsDigit(s[from]) then DigitRunEnd(s, from + 1) else from
  }

  /** The leftmost position at or after `from` where the pattern matches, or `|url|` if there is none. */
  function FirstStatusFrom(url: string, from: nat): (i: nat)
    requires from <= |url|
    ensures from <= i <= |url|
    ensures i < |url| ==> StatusAt(url, i)
    ensures forall k :: from <= k < i ==> !StatusAt(url, k)
    decreases |url| - from
  {
    if from == |url| then |url|
    else if StatusAt(url, from) then from
    else FirstStatusFrom(url, from + 1)
  }

  /**
    `tweetUrl.match(/status\/(\d+)/)[1]`, or the "invalid tweet URL" error when
    the pattern does not match anywhere.
   */
  function ExtractTweetId(url: string): (r: Result<string>)
    ensures r.Err? <==> forall i :: 0 <= i < |url| ==> !StatusAt(url, i)
    ensures r.Err? ==> r.error == InvalidTweetUrl(url)
    ensures r.Ok? ==> |r.value| > 0 && forall k :: 0 <= k < |r.value| ==> IsDigit(r.value[k])
    ensures r.Ok? ==> exists i :: StatusAt(url, i) && IdAt(url, i, r.value) && forall k :: 0 <= k < i ==> !StatusAt(url, k)
  {
    var i := FirstStatusFrom(url, 0);
    if i == |url| then Err(InvalidTweetUrl(url))
    else
      var e := DigitRunEnd(url, i + |Marker|);
      assert IdAt(url, i, url[i + |Marker| .. e]);
      Ok(url[i + |Marker| .. e])
  }

  /** The digit run starting at `from` ends exactly where the digits stop. */
  lemma {:induction false} DigitRunEndIs(s: string, from: nat, e: nat)
    requires from <= e <= |s|
    requires forall k :: from <= k < e ==> IsDigit(s[k])
    requires e == |s| || !IsDigit(s[e])
    ensures DigitRunEnd(s, from) == e
    decreases e - from
  {
    if from < e {
      DigitRunEndIs(s, from + 1, e);
    }
  }

  /** No match of the pattern can start inside `prefix` and run into a following "status/". */
  lemma NoMatchBeforeMarker(prefix: string, rest: string, k: int)
    requires forall j :: 0 <= j < |prefix| ==> !StatusAt(prefix, j)
    requires 0 <= k < |prefix|
    ensures !StatusAt(prefix + Marker + rest, k)
  {
    var url := prefix + Marker + rest;
    if k + |Marker| < |prefix| {
      assert url[k..k + |Marker|] == prefix[k..k + |Marker|];
      assert url[k + |Marker|] == prefix[k + |Marker|];
      assert !StatusAt(prefix, k);
    } else if k + |Marker| == |prefix| {
      assert url[k + |Marker|] == 's';
    } else {
      assert url[k + 6] == Marker[k + 6 - |prefix|];
    }
  }

  /** With no match inside `prefix`, the leftmost match is the "status/" right after it. */
  lemma {:induction false} FirstMatchAfterPrefix(prefix: string, rest: string)
    requires forall j :: 0 <= j < |prefix| ==> !StatusAt(prefix, j)
    requires |rest| > 0 && IsDigit(rest[0])
    ensures FirstStatusFrom(prefix + Marker + rest, 0) == |prefix|
  {
    var url := prefix + Marker + rest;
    var n := |prefix|;
    forall k | 0 <= k < n
      ensures !StatusAt(url, k)
    {
      NoMatchBeforeMarker(prefix, rest, k);
    }
    assert url[n..n + |Marker|] == Marker;
    assert url[n + |Marker|] == rest[0];
    assert StatusAt(url, n);
  }

  /** In a built URL the digit run after "status/" is exactly the id. */
  lemma {:induction false} IdRunInBuiltUrl(prefix: string, id: string, suffix: string)
    requires forall k :: 0 <= k < |id| ==> IsDigit(id[k])
    requires suffix == [] || !IsDigit(suffix[0])
    ensures var url := prefix + Marker + id + suffix;
      var start := |prefix| + |Marker|;
      && start + |id| <= |url|
      && url[start..start + |id|] == id
      && DigitRunEnd(url, start) == start + |id|
  {
    var url := prefix + Marker + id + suffix;
    var start := |prefix| + |Marker|;
    assert forall k :: start <= k < start + |id| ==> url[k] == id[k - start];
    assert start + |id| == |url| || url[start + |id|] == suffix[0];
    DigitRunEndIs(url, start, start + |id|);
    assert url[start..start + |id|] == id;
  }

  /**
    Building a status URL and extracting its id gives the id back, whatever
    follows it, as long as the text before "status/" holds no match itself
    and the text after the id does not start with a digit.
   */
  lemma {:induction false} ExtractBuiltUrl(prefix: string, id: string, suffix: string)
    requires forall j :: 0 <= j < |prefix| ==> !StatusAt(prefix, j)
    requires |id| > 0 && forall k :: 0 <= k < |id| ==> IsDigit(id[k])
    requires suffix == [] || !IsDigit(suffix[0])
    ensures ExtractTweetId(prefix + Marker + id + suffix) == Ok(id)
  {
    assert prefix + Marker + id + suffix == prefix + Marker + (id + suffix);
    FirstMatchAfterPrefix(prefix, id + suffix);
    IdRunInBuiltUrl(prefix, id, suffix);
  }
}
