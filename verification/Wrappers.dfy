/** Small value types shared by every module. */
module Wrappers {
  datatype Option<+T> = None | Some(value: T)

  function MinInt(a: int, b: int): int { if b < a then b else a }
  function MaxInt(a: int, b: int): int { if b > a then b else a }
  function MinReal(a: real, b: real): real { if b < a then b else a }
  function MaxReal(a: real, b: real): real { if b > a then b else a }

  /** The elements of `xs` that satisfy `keep`, in their order. */
  function Filter<T>(xs: seq<T>, keep: T -> bool): (kept: seq<T>)
    ensures forall i :: 0 <= i < |kept| ==> kept[i] in xs && keep(kept[i])
  {
    if xs == [] then []
    else
      var rest := Filter(xs[..|xs| - 1], keep);
      if keep(xs[|xs| - 1]) then rest + [xs[|xs| - 1]] else rest
  }

  lemma {:induction false} FilterConcat<T>(xs: seq<T>, ys: seq<T>, keep: T -> bool)
    ensures Filter(xs + ys, keep) == Filter(xs, keep) + Filter(ys, keep)
    decreases |ys|
  {
    if ys == [] {
      assert xs + ys == xs;
    } else {
      var front := ys[..|ys| - 1];
      FilterConcat(xs, front, keep);
      assert (xs + ys)[..|xs + ys| - 1] == xs + front;
    }
  }

  lemma {:induction false} FilterOne<T>(x: T, keep: T -> bool)
    ensures Filter([x], keep) == if keep(x) then [x] else []
  {
    assert [x][..0] == [];
  }

  lemma {:induction false} FilterAll<T>(xs: seq<T>, keep: T -> bool)
    requires forall i :: 0 <= i < |xs| ==> keep(xs[i])
    ensures Filter(xs, keep) == xs
  {
    if xs != [] {
      FilterAll(xs[..|xs| - 1], keep);
    }
  }

  lemma {:induction false} FilterNone<T>(xs: seq<T>, keep: T -> bool)
    requires forall i :: 0 <= i < |xs| ==> !keep(xs[i])
    ensures Filter(xs, keep) == []
  {
    if xs != [] {
      FilterNone(xs[..|xs| - 1], keep);
    }
  }

  lemma {:induction false} FilterMember<T>(xs: seq<T>, keep: T -> bool, x: T)
    ensures x in Filter(xs, keep) <==> x in xs && keep(x)
  {
    if xs != [] {
      FilterMember(xs[..|xs| - 1], keep, x);
      assert xs == xs[..|xs| - 1] + [xs[|xs| - 1]];
    }
  }

  lemma {:induction false} FilterCounts<T>(xs: seq<T>, keep: T -> bool, x: T)
    ensures multiset(Filter(xs, keep))[x] == if keep(x) then multiset(xs)[x] else 0
  {
    if xs != [] {
      FilterCounts(xs[..|xs| - 1], keep, x);
      assert xs == xs[..|xs| - 1] + [xs[|xs| - 1]];
    }
  }

  /** The lists `f` gives for each key, joined. */
  function FlatMap<K, V>(keys: seq<K>, f: K -> seq<V>): seq<V> {
    if keys == [] then [] else FlatMap(keys[..|keys| - 1], f) + f(keys[|keys| - 1])
  }

  lemma {:induction false} FlatMapStep<K, V>(keys: seq<K>, f: K -> seq<V>, n: nat)
    requires n < |keys|
    ensures FlatMap(keys[..n + 1], f) == FlatMap(keys[..n], f) + f(keys[n])
  {
    assert keys[..n + 1][..n] == keys[..n];
  }

  /** The lists `f` gives for 0, 1, ..., `n` - 1, joined. */
  function Concat<V>(f: nat -> seq<V>, n: nat): seq<V> {
    if n == 0 then [] else Concat(f, n - 1) + f(n - 1)
  }

  /** Every element of the joined list is one of some list. */
  lemma {:induction false} ConcatSource<V>(f: nat -> seq<V>, n: nat, c: nat) returns (r: nat, i: nat)
    requires c < |Concat(f, n)|
    ensures r < n && i < |f(r)| && Concat(f, n)[c] == f(r)[i]
  {
    var before := Concat(f, n - 1);
    if c < |before| {
      r, i := ConcatSource(f, n - 1, c);
    } else {
      r, i := n - 1, c - |before|;
    }
  }

  /** Every element of every list is in the joined one. */
  lemma {:induction false} ConcatPlace<V>(f: nat -> seq<V>, n: nat, r: nat, i: nat) returns (c: nat)
    requires r < n && i < |f(r)|
    ensures c < |Concat(f, n)| && Concat(f, n)[c] == f(r)[i]
  {
    var before := Concat(f, n - 1);
    if r < n - 1 {
      c := ConcatPlace(f, n - 1, r, i);
    } else {
      c := |before| + i;
    }
  }
}
