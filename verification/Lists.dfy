/** Keeping what a partial function makes of a list. */
module Lists {
  import opened Wrappers
  import opened Text
  import opened Sorting

  function FilterMap<A, B>(f: A -> Option<B>, xs: seq<A>): seq<B> {
    if xs == [] then [] else
      FilterMap(f, xs[..|xs| - 1]) + (match f(xs[|xs| - 1]) case None => [] case Some(y) => [y])
  }

  lemma FilterMapNext<A, B>(f: A -> Option<B>, xs: seq<A>, i: nat)
    requires i < |xs|
    ensures FilterMap(f, xs[..i + 1])
            == FilterMap(f, xs[..i]) + (match f(xs[i]) case None => [] case Some(y) => [y])
  {
    assert xs[..i + 1][..i] == xs[..i];
  }

  lemma {:induction false} FilterMapHolds<A(!new), B>(f: A -> Option<B>, xs: seq<A>, y: B)
    ensures y in FilterMap(f, xs) <==> exists x | x in xs :: f(x) == Some(y)
  {
    if xs == [] {
    } else {
      var n := |xs| - 1;
      FilterMapHolds(f, xs[..n], y);
      assert forall x :: x in xs <==> x in xs[..n] || x == xs[n];
    }
  }

  /** A function that keeps the key keeps the order. */
  lemma {:induction false} FilterMapSorted<A(!new), B(!new)>(f: A -> Option<B>, xs: seq<A>,
                                                             kx: A -> string, ky: B -> string)
    requires Sorted(kx, xs) && forall x, y | f(x) == Some(y) :: ky(y) == kx(x)
    ensures Sorted(ky, FilterMap(f, xs))
  {
    if xs == [] {
    } else {
      var n := |xs| - 1;
      FilterMapSorted(f, xs[..n], kx, ky);
      var before := FilterMap(f, xs[..n]);
      forall i | 0 <= i < |before| ensures Less(ky(before[i]), kx(xs[n])) {
        FilterMapHolds(f, xs[..n], before[i]);
        var x :| x in xs[..n] && f(x) == Some(before[i]);
        var j :| 0 <= j < n && xs[j] == x;
        assert Less(kx(xs[j]), kx(xs[n]));
      }
    }
  }

  lemma {:induction false} FilterMapAgrees<A, C, B>(f: A -> Option<B>, xs: seq<A>, g: C -> Option<B>, ys: seq<C>)
    requires |xs| == |ys| && forall i | 0 <= i < |xs| :: f(xs[i]) == g(ys[i])
    ensures FilterMap(f, xs) == FilterMap(g, ys)
  {
    if xs == [] {
    } else {
      FilterMapAgrees(f, xs[..|xs| - 1], g, ys[..|ys| - 1]);
    }
  }
}
