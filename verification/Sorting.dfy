/** A stable sort, standing for the library's `sort_by`. */
module Sorting {

  ghost predicate TotalPreorder<T(!new)>(leq: (T, T) -> bool) {
    && (forall a, b :: leq(a, b) || leq(b, a))
    && (forall a, b, c :: leq(a, b) && leq(b, c) ==> leq(a, c))
  }

  ghost predicate Pairwise<T>(xs: seq<T>, r: (T, T) -> bool) {
    forall i, j :: 0 <= i < j < |xs| ==> r(xs[i], xs[j])
  }

  /** In order, and elements the order does not tell apart are related by `r`. */
  ghost predicate SortedKeeping<T>(xs: seq<T>, leq: (T, T) -> bool, r: (T, T) -> bool) {
    forall i, j :: 0 <= i < j < |xs| ==> leq(xs[i], xs[j]) && (leq(xs[j], xs[i]) ==> r(xs[i], xs[j]))
  }

  /** `x` behind everything that is not after it. */
  function Insert<T>(sorted: seq<T>, x: T, leq: (T, T) -> bool): (r: seq<T>)
    ensures multiset(r) == multiset(sorted) + multiset{x}
  {
    if sorted == [] then [x]
    else
      var init, last := sorted[..|sorted| - 1], sorted[|sorted| - 1];
      assert sorted == init + [last];
      if leq(last, x) then sorted + [x] else Insert(init, x, leq) + [last]
  }

  method StableSort<T(!new)>(xs: seq<T>, leq: (T, T) -> bool, ghost r: (T, T) -> bool) returns (sorted: seq<T>)
    requires TotalPreorder(leq) && Pairwise(xs, r)
    ensures multiset(sorted) == multiset(xs) && |sorted| == |xs|
    ensures SortedKeeping(sorted, leq, r)
  {
    sorted := [];
    for i := 0 to |xs|
      invariant multiset(sorted) == multiset(xs[..i]) && SortedKeeping(sorted, leq, r)
    {
      forall e | e in sorted ensures r(e, xs[i]) {
        assert e in multiset(xs[..i]);
      }
      InsertKeeps(sorted, xs[i], leq, r);
      assert xs[..i + 1] == xs[..i] + [xs[i]];
      sorted := Insert(sorted, xs[i], leq);
    }
    assert xs[..|xs|] == xs;
    SameSize(sorted, xs);
  }

  lemma SameSize<T>(a: seq<T>, b: seq<T>)
    requires multiset(a) == multiset(b)
    ensures |a| == |b|
  {
    assert |multiset(a)| == |a| && |multiset(b)| == |b|;
  }

  lemma {:induction false} InsertKeeps<T(!new)>(sorted: seq<T>, x: T, leq: (T, T) -> bool, r: (T, T) -> bool)
    requires TotalPreorder(leq) && SortedKeeping(sorted, leq, r)
    requires forall e :: e in sorted ==> r(e, x)
    ensures SortedKeeping(Insert(sorted, x, leq), leq, r)
  {
    if sorted != [] {
      var init, last := sorted[..|sorted| - 1], sorted[|sorted| - 1];
      if leq(last, x) {
        AppendKeeps(sorted, x, leq, r);
      } else {
        InsertKeeps(init, x, leq, r);
        var front := Insert(init, x, leq);
        forall e | e in front ensures leq(e, last) && (leq(last, e) ==> r(e, last)) {
          assert e in multiset(front);
          if e != x {
            var i :| 0 <= i < |init| && init[i] == e;
            assert sorted[i] == e;
          }
        }
        LastKeeps(front, last, leq, r);
      }
    }
  }

  lemma AppendKeeps<T(!new)>(sorted: seq<T>, x: T, leq: (T, T) -> bool, r: (T, T) -> bool)
    requires TotalPreorder(leq) && SortedKeeping(sorted, leq, r) && sorted != [] && leq(sorted[|sorted| - 1], x)
    requires forall e :: e in sorted ==> r(e, x)
    ensures SortedKeeping(sorted + [x], leq, r)
  {
    forall e | e in sorted ensures leq(e, x) {
      var i :| 0 <= i < |sorted| && sorted[i] == e;
      assert i < |sorted| - 1 ==> leq(e, sorted[|sorted| - 1]);
    }
    LastKeeps(sorted, x, leq, r);
  }

  lemma LastKeeps<T(!new)>(front: seq<T>, last: T, leq: (T, T) -> bool, r: (T, T) -> bool)
    requires SortedKeeping(front, leq, r)
    requires forall e :: e in front ==> leq(e, last) && (leq(last, e) ==> r(e, last))
    ensures SortedKeeping(front + [last], leq, r)
  {
  }

  /** A strict order leaves only one way to list a set of values. */
  lemma {:induction false} StrictOrderIsUnique<T(!new)>(a: seq<T>, b: seq<T>, before: (T, T) -> bool)
    requires multiset(a) == multiset(b) && Pairwise(a, before) && Pairwise(b, before)
    requires forall x, y :: before(x, y) ==> !before(y, x)
    ensures a == b
    decreases |a|
  {
    SameSize(a, b);
    if a != [] {
      assert a[0] in multiset(a) && b[0] in multiset(b);
      assert a[0] in b && b[0] in a;
      assert a[0] == b[0];
      assert a == [a[0]] + a[1..] && b == [b[0]] + b[1..];
      assert multiset(a[1..]) == multiset(a) - multiset{a[0]};
      StrictOrderIsUnique(a[1..], b[1..], before);
    }
  }
}
