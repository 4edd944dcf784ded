/** Array helpers of the frontend: `xs.filter(keep)` and its uses. */
module Lists {
  import opened Wrappers

  /** `xs.filter(keep)`: the kept elements, in their original order. */
  function Filter<T(==,!new)>(xs: seq<T>, keep: T -> bool): (r: seq<T>)
    ensures |r| <= |xs|
    ensures forall y :: y in r <==> y in xs && keep(y)
  {
    if |xs| == 0 then []
    else
      var init, last := xs[..|xs| - 1], xs[|xs| - 1];
      assert xs == init + [last];
      Filter(init, keep) + (if keep(last) then [last] else [])
  }

  /** `idx` lists positions below `n` in strictly increasing order. */
  ghost predicate Increasing(idx: seq<int>, n: int)
  {
    && (forall k :: 0 <= k < |idx| ==> 0 <= idx[k] < n)
    && (forall k, l :: 0 <= k < l < |idx| ==> idx[k] < idx[l])
  }

  /** `r[k]` is the element of `xs` at position `idx[k]`, for increasing positions. */
  ghost predicate PicksInOrder<T>(xs: seq<T>, r: seq<T>, idx: seq<int>)
  {
    Increasing(idx, |xs|) && |idx| == |r| && forall k :: 0 <= k < |idx| ==> r[k] == xs[idx[k]]
  }

  /** Positions below `n` stay increasing, and below `n + 1`, when `n` is appended. */
  lemma IncreasingExtend(idx: seq<int>, n: int)
    requires n >= 0 && Increasing(idx, n)
    ensures Increasing(idx, n + 1) && Increasing(idx + [n], n + 1)
    ensures n !in idx
  {
    var j := idx + [n];
    assert forall k :: 0 <= k < |idx| ==> j[k] == idx[k];
    assert j[|idx|] == n;
  }

  /** A selection from `xs` extends to `xs + [x]`, taking `x` or not. */
  lemma PicksAppend<T>(xs: seq<T>, r: seq<T>, idx: seq<int>, x: T, take: bool)
    requires PicksInOrder(xs, r, idx)
    ensures PicksInOrder(xs + [x], r + (if take then [x] else []), idx + (if take then [|xs|] else []))
    ensures forall i :: 0 <= i < |xs| ==> (i in idx + (if take then [|xs|] else []) <==> i in idx)
    ensures |xs| in idx + (if take then [|xs|] else []) <==> take
  {
    IncreasingExtend(idx, |xs|);
    var ys := xs + [x];
    assert forall i :: 0 <= i < |xs| ==> ys[i] == xs[i];
    if take {
      var r' := r + [x];
      assert forall k :: 0 <= k < |r| ==> r'[k] == r[k];
    }
  }

  /**
   * `r` holds the present values of `datas`, in order and one per present value:
   * `r[k]` is the value at position `idx[k]`, and the positions in `idx` are exactly
   * those holding a value.
   */
  ghost predicate PicksSome<U>(datas: seq<Option<U>>, r: seq<U>, idx: seq<int>)
  {
    && Increasing(idx, |datas|) && |idx| == |r|
    && (forall k :: 0 <= k < |idx| ==> datas[idx[k]] == Some(r[k]))
    && (forall i :: 0 <= i < |datas| ==> (datas[i].Some? <==> i in idx))
  }

  /** The present values of `datas` extend to `datas + [d]`. */
  lemma PicksSomeAppend<U>(datas: seq<Option<U>>, r: seq<U>, idx: seq<int>, d: Option<U>)
    requires PicksSome(datas, r, idx)
    ensures PicksSome(datas + [d], r + (if d.Some? then [d.value] else []), idx + (if d.Some? then [|datas|] else []))
  {
    IncreasingExtend(idx, |datas|);
    var ds := datas + [d];
    assert forall i :: 0 <= i < |datas| ==> ds[i] == datas[i];
    if d.Some? {
      var r', idx' := r + [d.value], idx + [|datas|];
      assert forall k :: 0 <= k < |r| ==> r'[k] == r[k] && idx'[k] == idx[k];
    }
  }

  /** `r` is the elements of `xs` at the positions `idx`, in order, and `idx` is exactly the positions `keep` accepts. */
  ghost predicate KeptAt<T>(xs: seq<T>, keep: T -> bool, r: seq<T>, idx: seq<int>)
  {
    PicksInOrder(xs, r, idx) && forall i :: 0 <= i < |xs| ==> (keep(xs[i]) <==> i in idx)
  }

  /** Positions kept by `keep` in `init` extend to `xs == init + [last]`. */
  lemma KeptAppend<T>(xs: seq<T>, init: seq<T>, r: seq<T>, idx: seq<int>, last: T, keep: T -> bool)
    requires xs == init + [last]
    requires KeptAt(init, keep, r, idx)
    ensures KeptAt(xs, keep, r + (if keep(last) then [last] else []), idx + (if keep(last) then [|init|] else []))
  {
    PicksAppend(init, r, idx, last, keep(last));
    assert forall i :: 0 <= i < |init| ==> xs[i] == init[i];
  }

  /**
   * The filter keeps exactly the positions whose element passes `keep`, in their
   * original order and each once: order and multiplicity, not only membership.
   */
  lemma {:induction false} FilterInOrder<T(!new)>(xs: seq<T>, keep: T -> bool)
    ensures exists idx :: KeptAt(xs, keep, Filter(xs, keep), idx)
  {
    if |xs| == 0 {
      assert KeptAt(xs, keep, Filter(xs, keep), []);
    } else {
      var n := |xs| - 1;
      var init, last := xs[..n], xs[n];
      assert xs == init + [last];
      FilterInOrder(init, keep);
      var idx :| KeptAt(init, keep, Filter(init, keep), idx);
      KeptAppend(xs, init, Filter(init, keep), idx, last, keep);
      assert Filter(xs, keep) == Filter(init, keep) + (if keep(last) then [last] else []);
      assert KeptAt(xs, keep, Filter(xs, keep), idx + (if keep(last) then [n] else []));
    }
  }

  /** Filtering an appended element keeps it exactly when `keep` holds. */
  lemma FilterAppend<T(!new)>(xs: seq<T>, x: T, keep: T -> bool)
    ensures Filter(xs + [x], keep) == Filter(xs, keep) + (if keep(x) then [x] else [])
  {
    assert (xs + [x])[..|xs|] == xs;
  }

  /** A filter that keeps every element is the identity. */
  lemma {:induction false} FilterKeepsAll<T(!new)>(xs: seq<T>, keep: T -> bool)
    requires forall y :: y in xs ==> keep(y)
    ensures Filter(xs, keep) == xs
  {
    if |xs| > 0 {
      var init, last := xs[..|xs| - 1], xs[|xs| - 1];
      assert xs == init + [last];
      assert forall y :: y in init ==> y in xs;
      FilterKeepsAll(init, keep);
      FilterAppend(init, last, keep);
    }
  }

  /** A filter that rejects some element is shorter than its input. */
  lemma {:induction false} FilterShrinks<T(!new)>(xs: seq<T>, keep: T -> bool, x: T)
    requires x in xs && !keep(x)
    ensures |Filter(xs, keep)| < |xs|
  {
    var init, last := xs[..|xs| - 1], xs[|xs| - 1];
    assert xs == init + [last];
    if last != x {
      FilterShrinks(init, keep, x);
    }
  }

  /** `xs.filter((y) => y !== x)`: every element equal to `x` removed, the rest kept in order. */
  function Without<T(==,!new)>(xs: seq<T>, x: T): (r: seq<T>)
    ensures x !in r
    ensures forall y :: y != x ==> (y in r <==> y in xs)
    ensures x in xs ==> |r| < |xs|
    ensures exists idx :: PicksInOrder(xs, r, idx) && forall i :: 0 <= i < |xs| ==> (xs[i] != x <==> i in idx)
  {
    var keep := y => y != x;
    FilterInOrder(xs, keep);
    if x in xs then FilterShrinks(xs, keep, x); Filter(xs, keep)
    else Filter(xs, keep)
  }

  /** Removing an absent element changes nothing. */
  lemma WithoutAbsent<T(!new)>(xs: seq<T>, x: T)
    requires x !in xs
    ensures Without(xs, x) == xs
  {
    FilterKeepsAll(xs, y => y != x);
  }

  /** Appending a new element and then removing it gives back the list. */
  lemma WithoutAppended<T(!new)>(xs: seq<T>, x: T)
    requires x !in xs
    ensures Without(xs + [x], x) == xs
  {
    FilterAppend(xs, x, y => y != x);
    WithoutAbsent(xs, x);
  }

  predicate Distinct<T(==,!new)>(xs: seq<T>)
  {
    forall i, j :: 0 <= i < j < |xs| ==> xs[i] != xs[j]
  }

  /** Filtering a list without duplicates leaves one without duplicates. */
  lemma {:induction false} FilterDistinct<T(!new)>(xs: seq<T>, keep: T -> bool)
    requires Distinct(xs)
    ensures Distinct(Filter(xs, keep))
  {
    if |xs| > 0 {
      var init, last := xs[..|xs| - 1], xs[|xs| - 1];
      FilterDistinct(init, keep);
      assert last !in init;
    }
  }
}
