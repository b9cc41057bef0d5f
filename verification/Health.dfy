/** The moving average of available RAM that gates unfreezing and restoring. */
module Health {
  import opened Types

  /** `x` lies between two samples of `h`. */
  ghost predicate Between(x: real, h: seq<Kb>)
  {
    exists i, j :: 0 <= i < |h| && 0 <= j < |h| && h[i] as real <= x <= h[j] as real
  }

  /** The average after a history of samples. */
  ghost function Ema(h: seq<Kb>): real
  {
    if |h| == 0 then 0.0
    else if |h| == 1 then h[0] as real
    else 0.05 * (h[|h| - 1] as real) + 0.95 * Ema(h[..|h| - 1])
  }

  lemma {:induction false} EmaStaysAmongSamples(h: seq<Kb>)
    requires |h| > 0
    ensures Between(Ema(h), h)
  {
    if |h| == 1 {
      assert h[0] as real <= Ema(h) <= h[0] as real;
    } else {
      var n := |h| - 1;
      var before := h[..n];
      EmaStaysAmongSamples(before);
      var i, j :| 0 <= i < n && 0 <= j < n && before[i] as real <= Ema(before) <= before[j] as real;
      var lo := if h[n] < h[i] then n else i;
      var hi := if h[n] > h[j] then n else j;
      assert h[lo] as real <= Ema(h) <= h[hi] as real;
    }
  }

  ghost function Power(base: real, n: nat): real { if n == 0 then 1.0 else base * Power(base, n - 1) }

  /** A constant reading closes 5 % of the gap at every sample. */
  lemma {:induction false} EmaConverges(h: seq<Kb>, level: Kb, n: nat)
    requires |h| > 0
    ensures Ema(h + seq(n, _ => level)) - level as real == Power(0.95, n) * (Ema(h) - level as real)
  {
    if n == 0 {
      assert h + seq(0, _ => level) == h;
    } else {
      EmaConverges(h, level, n - 1);
      var longer := h + seq(n, _ => level);
      assert longer[..|longer| - 1] == h + seq(n - 1, _ => level);
      var gap := Ema(h) - level as real;
      var p := Power(0.95, n - 1);
      assert 0.95 * (p * gap) == 0.95 * p * gap;
    }
  }

  /** Whether a baseline lets `rss` be taken from the available RAM. */
  predicate Allows(avg: real, samples: U32, available: Kb, total: Kb, rss: Kb)
  {
    var after := SatSub(available, rss);
    if samples < 10 then after > total * 10 / 100 else after as real > avg * 0.85
  }

  class HealthBaseline {
    var avg: real
    var samples: U32
    ghost var history: seq<Kb>

    ghost predicate Valid()
      reads this
    {
      && avg == Ema(history)
      && samples == if |history| > 0xFFFF_FFFF then 0xFFFF_FFFF else |history|
    }

    constructor ()
      ensures Valid() && history == []
    {
      avg, samples, history := 0.0, 0, [];
    }

    method Observe(available: Kb)
      requires Valid()
      modifies this
      ensures Valid() && history == old(history) + [available]
    {
      history := history + [available];
      assert history[..|history| - 1] == old(history);
      if samples == 0 {
        avg := available as real;
      } else {
        avg := 0.05 * (available as real) + 0.95 * avg;
      }
      samples := if samples == 0xFFFF_FFFF then samples else samples + 1;
    }

    predicate SafeToRestore(available: Kb, total: Kb, rss: Kb)
      reads this
    {
      Allows(avg, samples, available, total, rss)
    }
  }

  /** A restore is safe when it leaves more than a tenth of the RAM, as long as fewer
      than ten samples were seen, and from then on more than 85 percent of the
      average. */
  lemma AllowsExactly(avg: real, samples: U32, available: Kb, total: Kb, rss: Kb)
    requires avg >= 0.0
    ensures Allows(avg, samples, available, total, rss) <==>
      && rss < available
      && if samples < 10 then 10 * (available - rss) > total else 100.0 * (available - rss) as real > 85.0 * avg
  {
  }

  /** What is refused for one process is refused for every larger one. */
  lemma AllowsIsAntitone(avg: real, samples: U32, available: Kb, total: Kb, small: Kb, large: Kb)
    requires small <= large
    ensures Allows(avg, samples, available, total, large) ==> Allows(avg, samples, available, total, small)
  {
    assert SatSub(available, large) <= SatSub(available, small);
  }

  /** With a warm baseline, 85 % of the smallest sample is always too little and
      anything above 85 % of the largest is always enough. */
  lemma WarmBaselineBounds(b: HealthBaseline, available: Kb, total: Kb)
    requires b.Valid() && |b.history| >= 10
    ensures (forall i :: 0 <= i < |b.history| ==> available as real <= 0.85 * b.history[i] as real) ==>
              !b.SafeToRestore(available, total, 0)
    ensures (forall i :: 0 <= i < |b.history| ==> available as real > 0.85 * b.history[i] as real) ==>
              b.SafeToRestore(available, total, 0)
  {
    EmaStaysAmongSamples(b.history);
    var i, j :| 0 <= i < |b.history| && 0 <= j < |b.history|
      && b.history[i] as real <= b.avg <= b.history[j] as real;
  }
}
