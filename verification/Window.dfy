/** Rolling windows: samples appended at the back and trimmed from the front. */
module Window {
  import opened Types

  datatype Stamped<T> = Stamped(value: T, at: Time)

  ghost predicate InOrder<T>(xs: seq<Stamped<T>>)
  {
    forall i, j :: 0 <= i < j < |xs| ==> xs[i].at <= xs[j].at
  }

  predicate Recent<T>(x: Stamped<T>, now: Time, window: nat) { Elapsed(now, x.at) <= window }

  /** The samples of a whole history that are no older than the window. */
  ghost function Kept<T>(xs: seq<Stamped<T>>, now: Time, window: nat): seq<Stamped<T>>
  {
    if |xs| == 0 then []
    else Kept(xs[..|xs| - 1], now, window) + if Recent(xs[|xs| - 1], now, window) then [xs[|xs| - 1]] else []
  }

  /** Pops from the front while the front is too old. */
  method Trim<T>(xs: seq<Stamped<T>>, now: Time, window: nat) returns (r: seq<Stamped<T>>)
    requires InOrder(xs)
    ensures r == Kept(xs, now, window)
  {
    var i := 0;
    while i < |xs| && Elapsed(now, xs[i].at) > window
      invariant 0 <= i <= |xs|
      invariant forall k :: 0 <= k < i ==> !Recent(xs[k], now, window)
    {
      i := i + 1;
    }
    r := xs[i..];
    KeptIsSuffix(xs, now, window, i);
  }

  lemma {:induction false} KeptIsSuffix<T>(xs: seq<Stamped<T>>, now: Time, window: nat, i: nat)
    requires InOrder(xs) && i <= |xs|
    requires forall k :: 0 <= k < i ==> !Recent(xs[k], now, window)
    requires i < |xs| ==> Recent(xs[i], now, window)
    ensures Kept(xs, now, window) == xs[i..]
  {
    if |xs| > i {
      var n := |xs| - 1;
      assert xs[i].at <= xs[n].at;
      if i < n {
        KeptIsSuffix(xs[..n], now, window, i);
      } else {
        KeptIsEmpty(xs[..n], now, window);
      }
      assert xs[i..] == xs[..n][i..] + [xs[n]];
    } else {
      KeptIsEmpty(xs, now, window);
    }
  }

  lemma {:induction false} KeptIsEmpty<T>(xs: seq<Stamped<T>>, now: Time, window: nat)
    requires forall k :: 0 <= k < |xs| ==> !Recent(xs[k], now, window)
    ensures Kept(xs, now, window) == []
  {
    if |xs| > 0 {
      KeptIsEmpty(xs[..|xs| - 1], now, window);
    }
  }

  lemma {:induction false} KeptMember<T>(xs: seq<Stamped<T>>, now: Time, window: nat, x: Stamped<T>)
    ensures x in Kept(xs, now, window) <==> x in xs && Recent(x, now, window)
  {
    if |xs| > 0 {
      KeptMember(xs[..|xs| - 1], now, window, x);
      assert xs == xs[..|xs| - 1] + [xs[|xs| - 1]];
    }
  }

  lemma {:induction false} KeptInOrder<T>(xs: seq<Stamped<T>>, now: Time, window: nat)
    requires InOrder(xs)
    ensures InOrder(Kept(xs, now, window))
  {
    if |xs| > 0 {
      var n := |xs| - 1;
      var front := Kept(xs[..n], now, window);
      KeptInOrder(xs[..n], now, window);
      forall i | 0 <= i < |front| ensures front[i].at <= xs[n].at {
        KeptMember(xs[..n], now, window, front[i]);
      }
    }
  }

  /** Trimming at every step loses nothing that one trim at the end would keep. */
  lemma {:induction false} KeptTwice<T>(xs: seq<Stamped<T>>, earlier: Time, later: Time, window: nat)
    requires earlier <= later
    ensures Kept(Kept(xs, earlier, window), later, window) == Kept(xs, later, window)
  {
    if |xs| > 0 {
      var n := |xs| - 1;
      KeptTwice(xs[..n], earlier, later, window);
      var front := Kept(xs[..n], earlier, window);
      if Recent(xs[n], earlier, window) {
        assert (front + [xs[n]])[..|front|] == front;
      } else {
        assert !Recent(xs[n], later, window);
        assert front + [] == front;
      }
    }
  }

  lemma KeptAppend<T>(xs: seq<Stamped<T>>, x: Stamped<T>, now: Time, window: nat)
    requires x.at == now
    ensures Kept(xs + [x], now, window) == Kept(xs, now, window) + [x]
  {
    assert (xs + [x])[..|xs|] == xs;
  }

  /** The incremental step: append to a trimmed window, trim again. */
  lemma KeptStep<T>(xs: seq<Stamped<T>>, x: Stamped<T>, before: Time, window: nat)
    requires before <= x.at
    ensures Kept(Kept(xs, before, window) + [x], x.at, window) == Kept(xs + [x], x.at, window)
  {
    KeptAppend(Kept(xs, before, window), x, x.at, window);
    KeptAppend(xs, x, x.at, window);
    KeptTwice(xs, before, x.at, window);
  }
}
