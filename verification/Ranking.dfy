/** Stable sorting by a strict weak order, the standard library sort's contract. */
module Ranking {

  ghost predicate WeakOrder<T(!new)>(outranks: (T, T) -> bool)
  {
    && (forall a, b :: outranks(a, b) ==> !outranks(b, a))
    && (forall a, b, c :: outranks(a, c) ==> outranks(a, b) || outranks(b, c))
  }

  function Insert<T>(x: T, xs: seq<T>, outranks: (T, T) -> bool): seq<T>
  {
    if |xs| == 0 || !outranks(xs[0], x) then [x] + xs else [xs[0]] + Insert(x, xs[1..], outranks)
  }

  /** Those that outrank come first; ties keep their order. */
  function Ranked<T>(xs: seq<T>, outranks: (T, T) -> bool): seq<T>
  {
    if |xs| == 0 then [] else Insert(xs[0], Ranked(xs[1..], outranks), outranks)
  }

  ghost predicate InRankOrder<T>(xs: seq<T>, outranks: (T, T) -> bool)
  {
    forall i, j :: 0 <= i < j < |xs| ==> !outranks(xs[j], xs[i])
  }

  lemma {:induction false} InsertKeepsMembers<T(!new)>(x: T, xs: seq<T>, outranks: (T, T) -> bool)
    ensures multiset(Insert(x, xs, outranks)) == multiset(xs) + multiset{x}
    ensures forall y :: y in Insert(x, xs, outranks) <==> y == x || y in xs
  {
    if |xs| > 0 && outranks(xs[0], x) {
      InsertKeepsMembers(x, xs[1..], outranks);
      assert xs == [xs[0]] + xs[1..];
    }
  }

  lemma {:induction false} InsertKeepsOrder<T(!new)>(x: T, xs: seq<T>, outranks: (T, T) -> bool)
    requires WeakOrder(outranks) && InRankOrder(xs, outranks)
    ensures InRankOrder(Insert(x, xs, outranks), outranks)
  {
    if |xs| > 0 && outranks(xs[0], x) {
      InsertKeepsOrder(x, xs[1..], outranks);
      InsertKeepsMembers(x, xs[1..], outranks);
      forall y | y in Insert(x, xs[1..], outranks) ensures !outranks(y, xs[0]) {
        assert y == x || y in xs[1..];
      }
    } else {
      forall y | y in xs ensures !outranks(y, x) {
        assert y == xs[0] || !outranks(y, xs[0]);
      }
    }
  }

  lemma {:induction false} RankedIsOrderedPermutation<T(!new)>(xs: seq<T>, outranks: (T, T) -> bool)
    requires WeakOrder(outranks)
    ensures InRankOrder(Ranked(xs, outranks), outranks)
    ensures multiset(Ranked(xs, outranks)) == multiset(xs)
  {
    if |xs| > 0 {
      RankedIsOrderedPermutation(xs[1..], outranks);
      InsertKeepsOrder(xs[0], Ranked(xs[1..], outranks), outranks);
      InsertKeepsMembers(xs[0], Ranked(xs[1..], outranks), outranks);
      assert xs == [xs[0]] + xs[1..];
    }
  }

  lemma RankedHasSameMembers<T(!new)>(xs: seq<T>, outranks: (T, T) -> bool)
    requires WeakOrder(outranks)
    ensures forall x :: x in Ranked(xs, outranks) <==> x in xs
    ensures |Ranked(xs, outranks)| == |xs|
  {
    RankedIsOrderedPermutation(xs, outranks);
    forall x ensures x in Ranked(xs, outranks) <==> x in xs {
      assert x in Ranked(xs, outranks) <==> x in multiset(Ranked(xs, outranks));
    }
    assert |Ranked(xs, outranks)| == |multiset(Ranked(xs, outranks))|;
  }

  /** The elements neither above nor below `x`, in their given order. */
  ghost function Peers<T>(x: T, xs: seq<T>, outranks: (T, T) -> bool): seq<T>
  {
    if |xs| == 0 then []
    else (if outranks(xs[0], x) || outranks(x, xs[0]) then [] else [xs[0]]) + Peers(x, xs[1..], outranks)
  }

  lemma {:induction false} InsertIsStable<T(!new)>(y: T, xs: seq<T>, x: T, outranks: (T, T) -> bool)
    requires WeakOrder(outranks)
    ensures Peers(x, Insert(y, xs, outranks), outranks) == Peers(x, [y], outranks) + Peers(x, xs, outranks)
  {
    if |xs| == 0 || !outranks(xs[0], y) {
      assert ([y] + xs)[1..] == xs;
    } else {
      InsertIsStable(y, xs[1..], x, outranks);
      assert ([xs[0]] + Insert(y, xs[1..], outranks))[1..] == Insert(y, xs[1..], outranks);
    }
  }

  lemma {:induction false} RankedIsStable<T(!new)>(xs: seq<T>, x: T, outranks: (T, T) -> bool)
    requires WeakOrder(outranks)
    ensures Peers(x, Ranked(xs, outranks), outranks) == Peers(x, xs, outranks)
  {
    if |xs| > 0 {
      RankedIsStable(xs[1..], x, outranks);
      InsertIsStable(xs[0], Ranked(xs[1..], outranks), x, outranks);
    }
  }

  ghost predicate DistinctKeys<T>(xs: seq<T>, key: T -> int)
  {
    forall i, j :: 0 <= i < j < |xs| ==> key(xs[i]) != key(xs[j])
  }

  lemma {:induction false} InsertKeepsDistinct<T(!new)>(x: T, xs: seq<T>, outranks: (T, T) -> bool, key: T -> int)
    requires DistinctKeys(xs, key) && forall y :: y in xs ==> key(y) != key(x)
    ensures DistinctKeys(Insert(x, xs, outranks), key)
  {
    if |xs| > 0 && outranks(xs[0], x) {
      InsertKeepsDistinct(x, xs[1..], outranks, key);
      InsertKeepsMembers(x, xs[1..], outranks);
      forall y | y in Insert(x, xs[1..], outranks) ensures key(y) != key(xs[0]) {
        assert y == x || y in xs[1..];
      }
    }
  }

  lemma {:induction false} RankedKeepsDistinct<T(!new)>(xs: seq<T>, outranks: (T, T) -> bool, key: T -> int)
    requires DistinctKeys(xs, key)
    ensures DistinctKeys(Ranked(xs, outranks), key)
    ensures forall y :: y in Ranked(xs, outranks) <==> y in xs
  {
    if |xs| > 0 {
      RankedKeepsDistinct(xs[1..], outranks, key);
      InsertKeepsDistinct(xs[0], Ranked(xs[1..], outranks), outranks, key);
      InsertKeepsMembers(xs[0], Ranked(xs[1..], outranks), outranks);
      assert xs == [xs[0]] + xs[1..];
    }
  }
}
