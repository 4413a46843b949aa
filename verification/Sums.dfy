/** Sums over sequences. */
module Sums {
  import opened Wrappers
  import opened StableSort

  function Sum<T>(xs: seq<T>, f: T -> int): int {
    if xs == [] then 0 else Sum(xs[..|xs| - 1], f) + f(xs[|xs| - 1])
  }

  lemma {:induction false} SumSnoc<T>(xs: seq<T>, x: T, f: T -> int)
    ensures Sum(xs + [x], f) == Sum(xs, f) + f(x)
  {
    assert (xs + [x])[..|xs|] == xs;
  }

  lemma {:induction false} SumConcat<T>(xs: seq<T>, ys: seq<T>, f: T -> int)
    ensures Sum(xs + ys, f) == Sum(xs, f) + Sum(ys, f)
    decreases |ys|
  {
    if ys == [] {
      assert xs + ys == xs;
    } else {
      SumConcat(xs, ys[..|ys| - 1], f);
      assert xs + ys == (xs + ys[..|ys| - 1]) + [ys[|ys| - 1]];
      SumSnoc(xs + ys[..|ys| - 1], ys[|ys| - 1], f);
    }
  }

  lemma {:induction false} SumInsert<T>(sorted: seq<T>, x: T, key: T -> Key, f: T -> int)
    ensures Sum(Insert(sorted, x, key), f) == Sum(sorted, f) + f(x)
    decreases |sorted|
  {
    if sorted == [] || KeyLe(key(sorted[|sorted| - 1]), key(x)) {
      SumSnoc(sorted, x, f);
    } else {
      SumInsert(sorted[..|sorted| - 1], x, key, f);
      SumSnoc(Insert(sorted[..|sorted| - 1], x, key), sorted[|sorted| - 1], f);
    }
  }

  lemma {:induction false} SumSort<T>(xs: seq<T>, key: T -> Key, f: T -> int)
    ensures Sum(Sort(xs, key), f) == Sum(xs, f)
  {
    if xs != [] {
      SumSort(xs[..|xs| - 1], key, f);
      SumInsert(Sort(xs[..|xs| - 1], key), xs[|xs| - 1], key, f);
    }
  }

  lemma {:induction false} SumBounds<T>(xs: seq<T>, f: T -> int, low: int, high: int)
    requires forall i :: 0 <= i < |xs| ==> low <= f(xs[i]) <= high
    ensures low * |xs| <= Sum(xs, f) <= high * |xs|
  {
    if xs != [] {
      SumBounds(xs[..|xs| - 1], f, low, high);
      assert low * |xs| == low * (|xs| - 1) + low;
      assert high * |xs| == high * (|xs| - 1) + high;
    }
  }

  /** Selecting by two disjoint conditions splits the sum of selecting by either. */
  lemma {:induction false} SumSplit<T>(xs: seq<T>, p: T -> bool, q: T -> bool, either: T -> bool, f: T -> int)
    requires forall i :: 0 <= i < |xs| ==> (either(xs[i]) <==> p(xs[i]) || q(xs[i])) && !(p(xs[i]) && q(xs[i]))
    ensures Sum(Filter(xs, either), f) == Sum(Filter(xs, p), f) + Sum(Filter(xs, q), f)
  {
    if xs != [] {
      var front, last := xs[..|xs| - 1], xs[|xs| - 1];
      SumSplit(front, p, q, either, f);
      SumSnoc(Filter(front, either), last, f);
      SumSnoc(Filter(front, p), last, f);
      SumSnoc(Filter(front, q), last, f);
    }
  }
}
