/** JavaScript's `Array.prototype.filter` on sequences, and what it keeps. */
module Sequences {

  /** `xs.filter(p)`, peeled from the last element. */
  function Filter<T>(xs: seq<T>, p: T -> bool): (r: seq<T>)
    ensures |r| <= |xs|
  {
    if |xs| == 0 then []
    else
      var last := xs[|xs| - 1];
      Filter(xs[..|xs| - 1], p) + (if p(last) then [last] else [])
  }

  /** The filtered sequence holds exactly the elements of `xs` that satisfy `p`. */
  lemma {:induction false} FilterMembers<T>(xs: seq<T>, p: T -> bool)
    ensures forall x :: x in Filter(xs, p) <==> x in xs && p(x)
  {
    if |xs| > 0 {
      var init, last := xs[..|xs| - 1], xs[|xs| - 1];
      FilterMembers(init, p);
      assert xs == init + [last];
    }
  }

  /** The positions of the elements of `xs` that satisfy `p`, in increasing order. */
  function Passing<T>(xs: seq<T>, p: T -> bool): (idx: seq<nat>)
    ensures |idx| == |Filter(xs, p)|
    ensures forall k :: 0 <= k < |idx| ==> idx[k] < |xs|
  {
    if |xs| == 0 then []
    else Passing(xs[..|xs| - 1], p) + (if p(xs[|xs| - 1]) then [|xs| - 1] else [])
  }

  lemma {:induction false} PassingSelectsFiltered<T>(xs: seq<T>, p: T -> bool)
    ensures forall k :: 0 <= k < |Passing(xs, p)| ==> Filter(xs, p)[k] == xs[Passing(xs, p)[k]]
  {
    if |xs| > 0 {
      var init := xs[..|xs| - 1];
      PassingSelectsFiltered(init, p);
      var idx, r := Passing(xs, p), Filter(xs, p);
      forall k | 0 <= k < |idx|
        ensures r[k] == xs[idx[k]]
      {
        if k < |Passing(init, p)| {
          assert r[k] == Filter(init, p)[k];
          assert idx[k] == Passing(init, p)[k];
          assert xs[idx[k]] == init[idx[k]];
        }
      }
    }
  }

  lemma {:induction false} PassingIncreasing<T>(xs: seq<T>, p: T -> bool)
    ensures forall k, l :: 0 <= k < l < |Passing(xs, p)| ==> Passing(xs, p)[k] < Passing(xs, p)[l]
  {
    if |xs| > 0 {
      PassingIncreasing(xs[..|xs| - 1], p);
    }
  }

  lemma {:induction false} PassingExactly<T>(xs: seq<T>, p: T -> bool)
    ensures forall i :: 0 <= i < |xs| ==> (p(xs[i]) <==> i in Passing(xs, p))
  {
    if |xs| > 0 {
      var init := xs[..|xs| - 1];
      PassingExactly(init, p);
      forall i | 0 <= i < |xs|
        ensures p(xs[i]) <==> i in Passing(xs, p)
      {
        if i < |xs| - 1 {
          assert xs[i] == init[i];
        }
      }
    }
  }

  /**
    The filter keeps exactly the elements satisfying `p`, in their original
    order and unchanged: `idx` lists their positions in `xs`, increasing.
   */
  lemma FilterPositions<T>(xs: seq<T>, p: T -> bool) returns (idx: seq<nat>)
    ensures |idx| == |Filter(xs, p)|
    ensures forall k :: 0 <= k < |idx| ==> idx[k] < |xs| && Filter(xs, p)[k] == xs[idx[k]]
    ensures forall k, l :: 0 <= k < l < |idx| ==> idx[k] < idx[l]
    ensures forall i :: 0 <= i < |xs| ==> (p(xs[i]) <==> i in idx)
  {
    idx := Passing(xs, p);
    PassingSelectsFiltered(xs, p);
    PassingIncreasing(xs, p);
    PassingExactly(xs, p);
  }

  /** Filtering a sequence extended by one element. */
  lemma FilterSnoc<T>(init: seq<T>, last: T, p: T -> bool)
    ensures Filter(init + [last], p) == Filter(init, p) + (if p(last) then [last] else [])
  {
    var xs := init + [last];
    assert xs[..|xs| - 1] == init;
  }

  /** Filtering a sequence whose every element passes changes nothing. */
  lemma {:induction false} FilterKeepsPassing<T>(xs: seq<T>, p: T -> bool)
    requires forall i :: 0 <= i < |xs| ==> p(xs[i])
    ensures Filter(xs, p) == xs
  {
    if |xs| > 0 {
      var init, last := xs[..|xs| - 1], xs[|xs| - 1];
      forall i | 0 <= i < |init|
        ensures p(init[i])
      {
        assert init[i] == xs[i];
      }
      FilterKeepsPassing(init, p);
      assert init + [last] == xs;
      FilterSnoc(init, last, p);
    }
  }
}
