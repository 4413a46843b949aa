/** The scan behind three features: walk a list once and keep an element unless it clashes with something
    already kept. Dedup, zoom acceptance and the founders of recurring groups are all this scan. */
module GreedyScan {
  predicate ClashesWith<T>(x: T, kept: seq<T>, clash: (T, T) -> bool) {
    exists k :: 0 <= k < |kept| && clash(x, kept[k])
  }

  /** The elements of `xs` the scan keeps, given what `base` already holds. */
  function Scan<T>(base: seq<T>, xs: seq<T>, clash: (T, T) -> bool): seq<T> {
    if xs == [] then []
    else
      var kept, x := Scan(base, xs[..|xs| - 1], clash), xs[|xs| - 1];
      if ClashesWith(x, base, clash) || ClashesWith(x, kept, clash) then kept else kept + [x]
  }

  /** Where in `xs` each kept element stands. */
  function Positions<T>(base: seq<T>, xs: seq<T>, clash: (T, T) -> bool): (at: seq<nat>)
    ensures |at| == |Scan(base, xs, clash)|
    ensures forall a :: 0 <= a < |at| ==> at[a] < |xs| && Scan(base, xs, clash)[a] == xs[at[a]]
  {
    if xs == [] then []
    else
      var kept, x := Scan(base, xs[..|xs| - 1], clash), xs[|xs| - 1];
      var at := Positions(base, xs[..|xs| - 1], clash);
      if ClashesWith(x, base, clash) || ClashesWith(x, kept, clash) then at else at + [|xs| - 1]
  }

  lemma {:induction false} ClashesConcat<T>(x: T, ys: seq<T>, zs: seq<T>, clash: (T, T) -> bool)
    ensures ClashesWith(x, ys + zs, clash) <==> ClashesWith(x, ys, clash) || ClashesWith(x, zs, clash)
  {
    var both := ys + zs;
    assert forall k :: 0 <= k < |ys| ==> both[k] == ys[k];
    assert forall k :: 0 <= k < |zs| ==> both[|ys| + k] == zs[k];
  }

  /** One more element: the step a loop over `xs` takes. */
  lemma {:induction false} ScanStep<T>(base: seq<T>, xs: seq<T>, x: T, clash: (T, T) -> bool)
    ensures Scan(base, xs + [x], clash) ==
            if ClashesWith(x, base, clash) || ClashesWith(x, Scan(base, xs, clash), clash)
            then Scan(base, xs, clash) else Scan(base, xs, clash) + [x]
  {
    var all := xs + [x];
    assert all[..|all| - 1] == xs;
  }

  ghost predicate StrictlyIncreasing(at: seq<nat>) {
    forall a, b :: 0 <= a < b < |at| ==> at[a] < at[b]
  }

  ghost predicate Within(at: seq<nat>, n: nat) {
    forall a :: 0 <= a < |at| ==> at[a] < n
  }

  /** No kept element clashes with the base or with one kept before it. */
  ghost predicate Independent<T>(base: seq<T>, xs: seq<T>, at: seq<nat>, clash: (T, T) -> bool)
    requires Within(at, |xs|)
  {
    && (forall a, b :: 0 <= a < b < |at| ==> !clash(xs[at[b]], xs[at[a]]))
    && (forall a :: 0 <= a < |at| ==> !ClashesWith(xs[at[a]], base, clash))
  }

  ghost predicate HasWitness<T>(base: seq<T>, xs: seq<T>, at: seq<nat>, clash: (T, T) -> bool, i: nat)
    requires i < |xs| && Within(at, |xs|)
  {
    || ClashesWith(xs[i], base, clash)
    || exists a :: 0 <= a < |at| && at[a] < i && clash(xs[i], xs[at[a]])
  }

  /** Every dropped element clashes with the base or with an earlier kept one. */
  ghost predicate Dominated<T>(base: seq<T>, xs: seq<T>, at: seq<nat>, clash: (T, T) -> bool)
    requires Within(at, |xs|)
  {
    forall i: nat :: i < |xs| && i !in at ==> HasWitness(base, xs, at, clash, i)
  }

  ghost predicate Greedy<T>(base: seq<T>, xs: seq<T>, at: seq<nat>, clash: (T, T) -> bool) {
    && Within(at, |xs|) && StrictlyIncreasing(at)
    && Independent(base, xs, at, clash) && Dominated(base, xs, at, clash)
  }

  lemma {:induction false} ScanDominates<T>(base: seq<T>, xs: seq<T>, clash: (T, T) -> bool, i: nat)
    requires i < |xs| && i !in Positions(base, xs, clash)
    ensures HasWitness(base, xs, Positions(base, xs, clash), clash, i)
  {
    var front, last := xs[..|xs| - 1], xs[|xs| - 1];
    var earlier, at, kept := Positions(base, front, clash), Positions(base, xs, clash), Scan(base, front, clash);
    assert at == earlier || at == earlier + [|front|];
    if !ClashesWith(xs[i], base, clash) {
      if i < |front| {
        assert i !in earlier;
        ScanDominates(base, front, clash, i);
        var a :| 0 <= a < |earlier| && earlier[a] < i && clash(front[i], front[earlier[a]]);
        assert at[a] == earlier[a];
      } else {
        assert at != earlier + [i] by { assert (earlier + [i])[|earlier|] == i; }
        var a :| 0 <= a < |kept| && clash(last, kept[a]);
        assert at[a] < i;
      }
    }
  }

  lemma {:induction false} ScanIsIndependent<T>(base: seq<T>, xs: seq<T>, clash: (T, T) -> bool)
    ensures StrictlyIncreasing(Positions(base, xs, clash))
    ensures Independent(base, xs, Positions(base, xs, clash), clash)
  {
    if xs != [] {
      ScanIsIndependent(base, xs[..|xs| - 1], clash);
    }
  }

  lemma {:induction false} ScanIsGreedy<T>(base: seq<T>, xs: seq<T>, clash: (T, T) -> bool)
    ensures Greedy(base, xs, Positions(base, xs, clash), clash)
  {
    ScanIsIndependent(base, xs, clash);
    forall i: nat | i < |xs| && i !in Positions(base, xs, clash)
      ensures HasWitness(base, xs, Positions(base, xs, clash), clash, i)
    {
      ScanDominates(base, xs, clash, i);
    }
  }

  lemma {:induction false} KeptHasNoWitness<T>(base: seq<T>, xs: seq<T>, at: seq<nat>, clash: (T, T) -> bool, i: nat)
    requires Greedy(base, xs, at, clash) && i in at
    ensures !HasWitness(base, xs, at, clash, i)
  {
    var d :| 0 <= d < |at| && at[d] == i;
    assert forall a :: 0 <= a < |at| && at[a] < at[d] ==> a < d;
  }

  lemma {:induction false} WitnessMoves<T>(base: seq<T>, xs: seq<T>, p: seq<nat>, q: seq<nat>, clash: (T, T) -> bool, i: nat)
    requires Within(p, |xs|) && Within(q, |xs|) && i < |xs|
    requires forall j :: 0 <= j < i && j in q ==> j in p
    ensures HasWitness(base, xs, q, clash, i) ==> HasWitness(base, xs, p, clash, i)
  {
    if HasWitness(base, xs, q, clash, i) && !ClashesWith(xs[i], base, clash) {
      var a :| 0 <= a < |q| && q[a] < i && clash(xs[i], xs[q[a]]);
      assert q[a] in q && q[a] in p;
      var c :| 0 <= c < |p| && p[c] == q[a];
    }
  }

  lemma {:induction false} SameMembers<T>(base: seq<T>, xs: seq<T>, p: seq<nat>, q: seq<nat>, clash: (T, T) -> bool, i: nat)
    requires Greedy(base, xs, p, clash) && Greedy(base, xs, q, clash) && i < |xs|
    ensures i in p <==> i in q
    decreases i
  {
    forall j: nat | j < i
      ensures j in p <==> j in q
    {
      SameMembers(base, xs, p, q, clash, j);
    }
    WitnessMoves(base, xs, p, q, clash, i);
    WitnessMoves(base, xs, q, p, clash, i);
    if i in p {
      KeptHasNoWitness(base, xs, p, clash, i);
    }
    if i in q {
      KeptHasNoWitness(base, xs, q, clash, i);
    }
  }

  lemma {:induction false} IncreasingDetermined(p: seq<nat>, q: seq<nat>)
    requires StrictlyIncreasing(p) && StrictlyIncreasing(q)
    requires forall i :: i in p <==> i in q
    ensures p == q
    decreases |p|
  {
    assert p != [] ==> p[0] in q;
    assert q != [] ==> q[0] in p;
    if p != [] && q != [] {
      var m, n := |p| - 1, |q| - 1;
      assert p[m] in q && q[n] in p;
      assert p[m] == q[n];
      forall i ensures i in p[..m] <==> i in q[..n]
      {
        assert i in p[..m] <==> i in p && i != p[m];
        assert i in q[..n] <==> i in q && i != q[n];
      }
      IncreasingDetermined(p[..m], q[..n]);
    }
  }

  /** The properties leave no choice: only the scan's result has them. */
  lemma {:induction false} GreedyIsUnique<T>(base: seq<T>, xs: seq<T>, at: seq<nat>, clash: (T, T) -> bool)
    requires Greedy(base, xs, at, clash)
    ensures at == Positions(base, xs, clash)
  {
    var mine := Positions(base, xs, clash);
    ScanIsGreedy(base, xs, clash);
    forall i
      ensures i in at <==> i in mine
    {
      if 0 <= i < |xs| {
        SameMembers(base, xs, at, mine, clash, i);
      }
    }
    IncreasingDetermined(at, mine);
  }

  /** A list in which nothing clashes with something before it is kept whole. */
  lemma {:induction false} IndependentListIsKept<T>(xs: seq<T>, clash: (T, T) -> bool)
    requires forall a, b :: 0 <= a < b < |xs| ==> !clash(xs[b], xs[a])
    ensures Scan([], xs, clash) == xs
  {
    if xs != [] {
      IndependentListIsKept(xs[..|xs| - 1], clash);
    }
  }
}
