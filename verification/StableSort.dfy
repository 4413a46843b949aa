/** The stable sort both Python's `list.sort` and JavaScript's `Array.sort` promise, with pairs as keys. */
module StableSort {
  import opened Wrappers

  type Key = (int, int)

  predicate KeyLe(a: Key, b: Key) {
    a.0 < b.0 || (a.0 == b.0 && a.1 <= b.1)
  }

  /** `x` goes after everything whose key is no greater. */
  function Insert<T>(sorted: seq<T>, x: T, key: T -> Key): seq<T> {
    if sorted == [] || KeyLe(key(sorted[|sorted| - 1]), key(x)) then sorted + [x]
    else Insert(sorted[..|sorted| - 1], x, key) + [sorted[|sorted| - 1]]
  }

  function Sort<T>(xs: seq<T>, key: T -> Key): seq<T> {
    if xs == [] then [] else Insert(Sort(xs[..|xs| - 1], key), xs[|xs| - 1], key)
  }

  lemma {:induction false} InsertPermutes<T>(sorted: seq<T>, x: T, key: T -> Key)
    ensures multiset(Insert(sorted, x, key)) == multiset(sorted) + multiset{x}
  {
    if sorted != [] && !KeyLe(key(sorted[|sorted| - 1]), key(x)) {
      InsertPermutes(sorted[..|sorted| - 1], x, key);
      assert sorted == sorted[..|sorted| - 1] + [sorted[|sorted| - 1]];
    }
  }

  lemma {:induction false} SortPermutes<T>(xs: seq<T>, key: T -> Key)
    ensures multiset(Sort(xs, key)) == multiset(xs)
  {
    if xs != [] {
      SortPermutes(xs[..|xs| - 1], key);
      InsertPermutes(Sort(xs[..|xs| - 1], key), xs[|xs| - 1], key);
      assert xs == xs[..|xs| - 1] + [xs[|xs| - 1]];
    }
  }

  /** What holds of every element still does after sorting. */
  lemma {:induction false} SortKeeps<T>(xs: seq<T>, key: T -> Key)
    ensures |Sort(xs, key)| == |xs|
    ensures forall x :: x in Sort(xs, key) <==> x in xs
  {
    SortPermutes(xs, key);
    assert |multiset(Sort(xs, key))| == |multiset(xs)|;
    forall x
      ensures x in Sort(xs, key) <==> x in xs
    {
      assert x in Sort(xs, key) <==> x in multiset(Sort(xs, key));
      assert x in xs <==> x in multiset(xs);
    }
  }

  ghost predicate Sorted<T>(xs: seq<T>, key: T -> Key) {
    forall i, j :: 0 <= i < j < |xs| ==> KeyLe(key(xs[i]), key(xs[j]))
  }

  lemma {:induction false} InsertSorted<T>(sorted: seq<T>, x: T, key: T -> Key)
    requires Sorted(sorted, key)
    ensures Sorted(Insert(sorted, x, key), key)
  {
    if sorted != [] && !KeyLe(key(sorted[|sorted| - 1]), key(x)) {
      var front, last := sorted[..|sorted| - 1], sorted[|sorted| - 1];
      InsertSorted(front, x, key);
      InsertPermutes(front, x, key);
      var r := Insert(front, x, key);
      forall i | 0 <= i < |r|
        ensures KeyLe(key(r[i]), key(last))
      {
        assert r[i] in multiset(r);
        assert r[i] in multiset(front) + multiset{x};
      }
    }
  }

  lemma {:induction false} SortSorted<T>(xs: seq<T>, key: T -> Key)
    ensures Sorted(Sort(xs, key), key)
  {
    if xs != [] {
      SortSorted(xs[..|xs| - 1], key);
      InsertSorted(Sort(xs[..|xs| - 1], key), xs[|xs| - 1], key);
    }
  }

  lemma {:induction false} SortIdentity<T>(xs: seq<T>, key: T -> Key)
    requires Sorted(xs, key)
    ensures Sort(xs, key) == xs
  {
    if xs != [] {
      SortIdentity(xs[..|xs| - 1], key);
      InsertAtEnd(xs[..|xs| - 1], xs[|xs| - 1], key);
    }
  }

  lemma {:induction false} FilterSnoc<T>(xs: seq<T>, x: T, keep: T -> bool)
    ensures Filter(xs + [x], keep) == if keep(x) then Filter(xs, keep) + [x] else Filter(xs, keep)
  {
    assert (xs + [x])[..|xs|] == xs;
  }

  lemma {:induction false} InsertAtEnd<T>(sorted: seq<T>, x: T, key: T -> Key)
    requires forall i :: 0 <= i < |sorted| ==> KeyLe(key(sorted[i]), key(x))
    ensures Insert(sorted, x, key) == sorted + [x]
  {
  }

  lemma {:induction false} InsertBeforeLast<T>(front: seq<T>, last: T, x: T, key: T -> Key)
    requires !KeyLe(key(last), key(x))
    ensures Insert(front + [last], x, key) == Insert(front, x, key) + [last]
  {
    assert (front + [last])[..|front|] == front;
  }

  lemma {:induction false} InsertFilter<T>(sorted: seq<T>, x: T, key: T -> Key, keep: T -> bool)
    requires Sorted(sorted, key)
    ensures Filter(Insert(sorted, x, key), keep) ==
            if keep(x) then Insert(Filter(sorted, keep), x, key) else Filter(sorted, keep)
  {
    if sorted == [] || KeyLe(key(sorted[|sorted| - 1]), key(x)) {
      FilterSnoc(sorted, x, keep);
      InsertAtEnd(Filter(sorted, keep), x, key);
    } else {
      var front, last := sorted[..|sorted| - 1], sorted[|sorted| - 1];
      InsertFilter(front, x, key, keep);
      FilterSnoc(Insert(front, x, key), last, keep);
      InsertBeforeLast(Filter(front, keep), last, x, key);
    }
  }

  /** Sorting and selecting commute: in particular equal keys keep their order. */
  lemma {:induction false} SortFilter<T>(xs: seq<T>, key: T -> Key, keep: T -> bool)
    ensures Filter(Sort(xs, key), keep) == Sort(Filter(xs, keep), key)
  {
    if xs != [] {
      var front, last := xs[..|xs| - 1], xs[|xs| - 1];
      SortFilter(front, key, keep);
      SortSorted(front, key);
      InsertFilter(Sort(front, key), last, key, keep);
      assert keep(last) ==> (Filter(front, keep) + [last])[..|Filter(front, keep)|] == Filter(front, keep);
    }
  }

  lemma {:induction false} SortStable<T>(xs: seq<T>, key: T -> Key, k: Key)
    ensures Filter(Sort(xs, key), x => key(x) == k) == Filter(xs, x => key(x) == k)
  {
    SortFilter(xs, key, x => key(x) == k);
    SortIdentity(Filter(xs, x => key(x) == k), key);
  }
}
