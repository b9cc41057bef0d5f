/** Passive calibration: seconds-weighted histograms of pressure the daemon is not
    treating, and the thresholds they suggest. */
module Calibrate {
  import opened Types
  import Psi

  const BINS: nat := 100
  const STALL_FULL_PCT: real := 1.0
  const ELEVATED_MARGIN_PCT: real := 2.0
  const MIN_OBSERVED_SECS: nat := 24 * 3600
  const MIN_STALL_EVENTS: nat := 10
  const MIN_STALL_SECS: nat := 60
  const U32_MAX: nat := 0xFFFF_FFFF

  function Bin(pct: real): (b: nat)
    ensures b < BINS
    ensures b < BINS - 1 ==> pct < (b + 1) as real
    ensures b > 0 ==> b as real <= pct
  {
    var whole := (if pct > 0.0 then pct else 0.0).Floor;
    if whole < BINS - 1 then whole else BINS - 1
  }

  // ── what was observed ────────────────────────────────────────────────────

  datatype Sample = Sample(some10: real, full10: real, treated: bool, weight: U64)
  {
    predicate Stalling() { full10 >= STALL_FULL_PCT }
  }

  datatype Kind = Benign | Stall | Full

  /** The sample goes into the histogram of this kind. */
  predicate Counts(x: Sample, kind: Kind) { !x.treated && (kind == Benign <==> !x.Stalling()) }

  function BinOf(x: Sample, kind: Kind): nat { Bin(if kind == Full then x.full10 else x.some10) }

  /** Seconds observed of one kind in one bin. */
  ghost function WeightAt(history: seq<Sample>, kind: Kind, b: int): nat
  {
    if |history| == 0 then 0
    else
      var x := history[|history| - 1];
      WeightAt(history[..|history| - 1], kind, b) + if Counts(x, kind) && BinOf(x, kind) == b then x.weight else 0
  }

  /** Seconds observed of one kind. */
  ghost function WeightOf(history: seq<Sample>, kind: Kind): nat
  {
    if |history| == 0 then 0
    else
      var x := history[|history| - 1];
      WeightOf(history[..|history| - 1], kind) + if Counts(x, kind) then x.weight else 0
  }

  ghost function UntreatedWeight(history: seq<Sample>): nat
  {
    if |history| == 0 then 0
    else
      var x := history[|history| - 1];
      UntreatedWeight(history[..|history| - 1]) + if !x.treated then x.weight else 0
  }

  /** Untreated samples that stall right after one, treated or not, that does not. */
  ghost function RisingEdges(history: seq<Sample>): nat
  {
    if |history| == 0 then 0
    else
      var (before, x) := (history[..|history| - 1], history[|history| - 1]);
      RisingEdges(before) + if !x.treated && x.Stalling() && !(|before| > 0 && before[|before| - 1].Stalling()) then 1 else 0
  }

  ghost function Histogram(history: seq<Sample>, kind: Kind): seq<nat>
  {
    seq(BINS, b requires 0 <= b < BINS => WeightAt(history, kind, b))
  }

  ghost function WeightBelow(history: seq<Sample>, kind: Kind, edge: int): nat
  {
    if |history| == 0 then 0
    else
      var x := history[|history| - 1];
      WeightBelow(history[..|history| - 1], kind, edge) + if Counts(x, kind) && BinOf(x, kind) < edge then x.weight else 0
  }

  /** The bins below an edge hold exactly the seconds spent below it. */
  lemma {:induction false} PrefixIsWeightBelow(history: seq<Sample>, kind: Kind, edge: nat)
    requires edge <= BINS
    ensures Total(Histogram(history, kind)[..edge]) == WeightBelow(history, kind, edge)
  {
    if edge == 0 {
      NothingBelowZero(history, kind);
    } else {
      PrefixIsWeightBelow(history, kind, edge - 1);
      assert Histogram(history, kind)[..edge][..edge - 1] == Histogram(history, kind)[..edge - 1];
      OneBinMore(history, kind, edge - 1);
    }
  }

  /** Untreated seconds of one kind with a reading below an edge: `some` for benign
      and stall, `full` for full. */
  ghost function SecondsBelow(history: seq<Sample>, kind: Kind, edge: nat): nat
  {
    if |history| == 0 then 0
    else
      var x := history[|history| - 1];
      var (stalls, reading) := (x.full10 >= 1.0, if kind == Full then x.full10 else x.some10);
      SecondsBelow(history[..|history| - 1], kind, edge)
        + if !x.treated && (kind == Benign <==> !stalls) && reading < edge as real then x.weight else 0
  }

  /** The bins below an edge are those seconds; the last bin takes what lies above. */
  lemma {:induction false} BinsAreSecondsBelow(history: seq<Sample>, kind: Kind, edge: nat)
    requires 1 <= edge <= 99
    ensures |Histogram(history, kind)| == 100
    ensures Total(Histogram(history, kind)[..edge]) == SecondsBelow(history, kind, edge)
  {
    PrefixIsWeightBelow(history, kind, edge);
    WeightIsSeconds(history, kind, edge);
  }

  lemma {:induction false} WeightIsSeconds(history: seq<Sample>, kind: Kind, edge: nat)
    requires 1 <= edge <= 99
    ensures WeightBelow(history, kind, edge) == SecondsBelow(history, kind, edge)
  {
    if |history| > 0 {
      WeightIsSeconds(history[..|history| - 1], kind, edge);
    }
  }

  ghost predicate StartsEpisode(history: seq<Sample>, i: int)
  {
    && 0 <= i < |history|
    && !history[i].treated && history[i].full10 >= 1.0
    && (i == 0 || history[i - 1].full10 < 1.0)
  }

  ghost function Episodes(history: seq<Sample>): set<int> { set i | 0 <= i < |history| && StartsEpisode(history, i) }

  /** The episodes counted are the untreated samples that stall where the sample before,
      treated or not, did not. */
  lemma {:induction false} EpisodesAreCounted(history: seq<Sample>)
    ensures RisingEdges(history) == |Episodes(history)|
  {
    if |history| > 0 {
      var n := |history| - 1;
      EpisodesAreCounted(history[..n]);
      forall i | 0 <= i < n ensures StartsEpisode(history, i) <==> StartsEpisode(history[..n], i) {
      }
      hide StartsEpisode;
      assert Episodes(history) == Episodes(history[..n]) + if StartsEpisode(history, n) then {n} else {};
    } else {
      assert Episodes(history) == {};
    }
  }

  lemma {:induction false} NothingBelowZero(history: seq<Sample>, kind: Kind)
    ensures WeightBelow(history, kind, 0) == 0
  {
    if |history| > 0 {
      NothingBelowZero(history[..|history| - 1], kind);
    }
  }

  lemma {:induction false} OneBinMore(history: seq<Sample>, kind: Kind, b: int)
    ensures WeightBelow(history, kind, b + 1) == WeightBelow(history, kind, b) + WeightAt(history, kind, b)
  {
    if |history| > 0 {
      OneBinMore(history[..|history| - 1], kind, b);
    }
  }

  lemma {:induction false} AllBelowTheTop(history: seq<Sample>, kind: Kind)
    ensures WeightBelow(history, kind, BINS) == WeightOf(history, kind)
  {
    if |history| > 0 {
      AllBelowTheTop(history[..|history| - 1], kind);
    }
  }

  lemma {:induction false} KindsSplit(history: seq<Sample>)
    ensures WeightOf(history, Benign) + WeightOf(history, Stall) == UntreatedWeight(history)
    ensures WeightOf(history, Full) == WeightOf(history, Stall)
  {
    if |history| > 0 {
      KindsSplit(history[..|history| - 1]);
    }
  }

  /** Benign and stall mass make up what was observed untreated, and every stalling
      second is in the full histogram too. */
  lemma MassIsConserved(history: seq<Sample>)
    ensures Total(Histogram(history, Benign)) + Total(Histogram(history, Stall)) == UntreatedWeight(history)
    ensures Total(Histogram(history, Full)) == Total(Histogram(history, Stall))
  {
    MassOfKind(history, Benign);
    MassOfKind(history, Stall);
    MassOfKind(history, Full);
    KindsSplit(history);
  }

  lemma MassOfKind(history: seq<Sample>, kind: Kind)
    ensures Total(Histogram(history, kind)) == WeightOf(history, kind)
  {
    PrefixIsWeightBelow(history, kind, BINS);
    AllBelowTheTop(history, kind);
    assert Histogram(history, kind)[..BINS] == Histogram(history, kind);
  }

  // ── percentiles ──────────────────────────────────────────────────────────

  /** `part` is `pct` percent of `total` or more. */
  ghost predicate Reaches(part: nat, total: nat, pct: real) { part as real * 100.0 >= Product(total as real, pct) }

  /** A plain 64-bit sum, which wraps around. */
  function Wrapped(sum: nat): U64 { sum % 0x1_0000_0000_0000_0000 }

  ghost predicate ReachesAt(hist: seq<nat>, pct: real, edge: nat)
    requires edge <= |hist|
  {
    Reaches(Wrapped(Total(hist[..edge])), Wrapped(Total(hist)), pct)
  }

  /** The first upper bin edge with `pct` percent of the mass below it, as 64-bit
      sums tell it. */
  ghost predicate IsPercentile(hist: seq<nat>, pct: real, edge: int)
  {
    && 1 <= edge <= |hist|
    && ReachesAt(hist, pct, edge)
    && forall e :: 0 <= e < edge ==> !ReachesAt(hist, pct, e)
  }

  /** There is one, and its bin is not empty. */
  lemma PercentileIsUnique(hist: seq<nat>, pct: real, a: int, b: int)
    requires IsPercentile(hist, pct, a) && IsPercentile(hist, pct, b)
    ensures a == b
    ensures hist[a - 1] > 0
  {
    assert hist[..a][..a - 1] == hist[..a - 1];
    hide Reaches;
    assert !ReachesAt(hist, pct, a - 1);
  }

  /** Where the mass fits 64 bits it is the least edge that really has its share
      below it, and every edge from there on has. */
  lemma PercentileIsLeast(hist: seq<nat>, pct: real, edge: int, other: nat)
    requires IsPercentile(hist, pct, edge) && Total(hist) <= U64_MAX && other <= |hist|
    ensures Reaches(Total(hist[..other]), Total(hist), pct) <==> other >= edge
  {
    PrefixFits(hist, pct, edge);
    PrefixFits(hist, pct, other);
    assert other < edge ==> !ReachesAt(hist, pct, other);
    hide Reaches, ReachesAt;
    if other >= edge {
      PrefixGrows(hist, edge, other);
      ReachesGrows(Total(hist[..edge]), Total(hist[..other]), Total(hist), pct);
    }
  }

  lemma PrefixFits(hist: seq<nat>, pct: real, edge: nat)
    requires edge <= |hist| && Total(hist) <= U64_MAX
    ensures ReachesAt(hist, pct, edge) <==> Reaches(Total(hist[..edge]), Total(hist), pct)
  {
    hide Reaches, Wrapped, Total;
    PrefixGrows(hist, edge, |hist|);
    assert hist[..|hist|] == hist;
    FitsUnwrapped(Total(hist[..edge]));
    FitsUnwrapped(Total(hist));
  }

  lemma FitsUnwrapped(sum: nat)
    requires sum <= U64_MAX
    ensures Wrapped(sum) == sum
  {
  }

  lemma ReachesGrows(part: nat, more: nat, total: nat, pct: real)
    requires part <= more && Reaches(part, total, pct)
    ensures Reaches(more, total, pct)
  {
    hide Product;
  }

  lemma {:induction false} PrefixGrows(hist: seq<nat>, a: nat, b: nat)
    requires a <= b <= |hist|
    ensures Total(hist[..a]) <= Total(hist[..b])
  {
    if a < b {
      PrefixGrows(hist, a, b - 1);
      assert hist[..b][..b - 1] == hist[..b - 1];
    }
  }

  /** A percentile, or a default when the histogram is empty. */
  ghost predicate PercentileOr(hist: seq<nat>, pct: real, otherwise: real, value: real)
  {
    if Wrapped(Total(hist)) == 0 then value == otherwise
    else exists edge :: IsEdgeAt(hist, pct, edge, value)
  }

  ghost predicate IsEdgeAt(hist: seq<nat>, pct: real, edge: int, value: real)
  {
    IsPercentile(hist, pct, edge) && value == edge as real
  }

  function CeilU64(x: real): U64 { TruncU64((-((-x).Floor)) as real) }

  function TargetOf(total: U64, pct: real): U64 { CeilU64(Product(total as real, pct) / 100.0) }

  lemma TargetReaches(total: U64, pct: real, cum: nat)
    requires 0.0 < pct <= 100.0
    ensures cum >= TargetOf(total, pct) <==> Reaches(cum, total, pct)
    ensures TargetOf(total, pct) <= total
    ensures total > 0 ==> TargetOf(total, pct) > 0
  {
    ShareBounds(total as real, pct);
    hide Product;
  }

  lemma ShareBounds(x: real, pct: real)
    requires 0.0 <= x && 0.0 < pct <= 100.0
    ensures 0.0 <= Product(x, pct) <= x * 100.0
    ensures x > 0.0 ==> Product(x, pct) > 0.0
  {
    var rest := 100.0 - pct;
    ProductSign(x, pct);
    ProductSign(x, rest);
    ProductSplits(x, pct, rest);
  }

  lemma ProductSign(x: real, y: real)
    requires 0.0 <= x && 0.0 <= y
    ensures Product(x, y) >= 0.0 && (x > 0.0 && y > 0.0 ==> Product(x, y) > 0.0)
  {
  }

  lemma ProductSplits(x: real, y: real, z: real)
    ensures Product(x, y + z) == Product(x, y) + Product(x, z)
  {
  }

  method SumOf(hist: array<U64>) returns (total: U64)
    ensures total == Wrapped(Total(hist[..]))
  {
    total := 0;
    var i := 0;
    while i < hist.Length
      invariant 0 <= i <= hist.Length
      invariant total == Wrapped(Total(hist[..i]))
    {
      NextBin(hist[..], i);
      assert hist[..][..i + 1] == hist[..i + 1] && hist[..][..i] == hist[..i];
      total := Wrapped(total + hist[i]);
      i := i + 1;
    }
    assert hist[..i] == hist[..];
  }

  /** The final fall-through of the search is never taken, not even when the sums
      wrap around. */
  method Percentile(hist: array<U64>, pct: real) returns (r: Option<real>)
    requires 0.0 < pct <= 100.0
    ensures r.None? <==> Wrapped(Total(hist[..])) == 0
    ensures r.Some? ==> exists edge :: IsEdgeAt(hist[..], pct, edge, r.value)
  {
    var total := SumOf(hist);
    if total == 0 { return None; }
    var target := TargetOf(total, pct);
    TargetReaches(total, pct, 0);
    hide TargetOf, Reaches;
    assert hist[..][..hist.Length] == hist[..];
    var cum: U64 := 0;
    var i := 0;
    while i < hist.Length
      invariant 0 <= i <= hist.Length
      invariant cum == Wrapped(Total(hist[..][..i])) < target
      invariant forall e :: 0 <= e <= i ==> !ReachesAt(hist[..], pct, e)
    {
      NextBin(hist[..], i);
      cum := Wrapped(cum + hist[i]);
      TargetReaches(total, pct, cum);
      if cum >= target {
        assert IsEdgeAt(hist[..], pct, i + 1, (i + 1) as real);
        return Some((i + 1) as real);
      }
      i := i + 1;
    }
    assert false;
  }

  lemma NextBin(hist: seq<nat>, i: nat)
    requires i < |hist|
    ensures Total(hist[..i + 1]) == Total(hist[..i]) + hist[i]
    ensures Wrapped(Total(hist[..i + 1])) == Wrapped(Wrapped(Total(hist[..i])) + hist[i])
  {
    assert hist[..i + 1][..i] == hist[..i];
  }

  // ── the calibrator ───────────────────────────────────────────────────────

  function AtMost(x: nat, top: nat): nat { if x > top then top else x }

  datatype Suggestion = Suggestion(thresholds: Psi.Thresholds, benignP95: real, stallOnsetP10: real)

  function Clamp(x: real, low: real, high: real): real
    requires low <= high
  {
    if x < low then low else if x > high then high else x
  }

  function MinReal(a: real, b: real): real { if a < b then a else b }

  /** Above the noise by a margin, but not above where stalls begin. */
  function ElevatedFor(benignP95: real, stallOnset: real): real
  {
    var margin := Clamp(benignP95 + ELEVATED_MARGIN_PCT, 2.0, 15.0);
    if stallOnset < margin then (if stallOnset < 2.0 then 2.0 else stallOnset) else margin
  }

  /** The histogram is that of the history, up to its width. */
  ghost predicate Tallies(hist: seq<U64>, history: seq<Sample>, kind: Kind)
  {
    |hist| == BINS && forall b :: 0 <= b < BINS ==> hist[b] == AtMost(WeightAt(history, kind, b), U64_MAX)
  }

  lemma CountsStep(history: seq<Sample>, x: Sample)
    ensures AtMost(UntreatedWeight(history + [x]), U64_MAX)
         == if x.treated then AtMost(UntreatedWeight(history), U64_MAX) else SatAdd(AtMost(UntreatedWeight(history), U64_MAX), x.weight)
    ensures RisingEdges(history + [x]) == RisingEdges(history)
         + if !x.treated && x.Stalling() && !(|history| > 0 && history[|history| - 1].Stalling()) then 1 else 0
  {
    assert (history + [x])[..|history|] == history;
  }

  /** The histogram after one more sample. */
  function Tallied(hist: seq<U64>, kind: Kind, x: Sample): seq<U64>
    requires |hist| == BINS
  {
    if Counts(x, kind) then hist[BinOf(x, kind) := SatAdd(hist[BinOf(x, kind)], x.weight)] else hist
  }

  lemma TallyStep(hist: seq<U64>, history: seq<Sample>, kind: Kind, x: Sample)
    requires Tallies(hist, history, kind)
    ensures Tallies(Tallied(hist, kind, x), history + [x], kind)
    ensures x.treated ==> Tallied(hist, kind, x) == hist
  {
    assert (history + [x])[..|history|] == history;
  }

  method Add(hist: array<U64>, b: nat, weight: U64)
    requires b < hist.Length
    modifies hist
    ensures hist[..] == old(hist[..])[b := SatAdd(old(hist[..])[b], weight)]
  {
    hist[b] := SatAdd(hist[b], weight);
  }

  class Calibrator {
    const benign: array<U64>
    const stall: array<U64>
    const full: array<U64>
    var observed: U64
    var stallEvents: U32
    var inStall: bool
    ghost var history: seq<Sample>

    ghost predicate Shape()
    {
      && benign.Length == stall.Length == full.Length == BINS
      && benign != stall && benign != full && stall != full
    }

    /** Every counter is what the history says, up to its width. */
    ghost predicate Valid()
      reads this, benign, stall, full
    {
      && Shape()
      && Tallies(benign[..], history, Benign) && Tallies(stall[..], history, Stall) && Tallies(full[..], history, Full)
      && observed == AtMost(UntreatedWeight(history), U64_MAX)
      && stallEvents == AtMost(RisingEdges(history), U32_MAX)
      && inStall == (|history| > 0 && history[|history| - 1].Stalling())
    }

    constructor ()
      ensures Valid() && history == []
    {
      benign := new U64[BINS](_ => 0);
      stall := new U64[BINS](_ => 0);
      full := new U64[BINS](_ => 0);
      observed, stallEvents, inStall, history := 0, 0, false, [];
    }

    method Observe(x: Sample)
      requires Valid()
      modifies this, benign, stall, full
      ensures Valid() && history == old(history) + [x]
    {
      CountsStep(history, x);
      TallyStep(benign[..], history, Benign, x);
      TallyStep(stall[..], history, Stall, x);
      TallyStep(full[..], history, Full, x);
      hide Tallies, Tallied, SatAdd, UntreatedWeight, RisingEdges, Bin;
      var stalling := x.full10 >= STALL_FULL_PCT;
      if x.treated {
        inStall := stalling;
      } else {
        if stalling && !inStall {
          stallEvents := if stallEvents == U32_MAX then stallEvents else stallEvents + 1;
        }
        inStall := stalling;
        observed := SatAdd(observed, x.weight);
        Record(x);
      }
      history := history + [x];
    }

    /** Puts an untreated sample into its histograms. */
    method Record(x: Sample)
      requires Shape() && !x.treated
      modifies benign, stall, full
      ensures benign[..] == Tallied(old(benign[..]), Benign, x)
      ensures stall[..] == Tallied(old(stall[..]), Stall, x)
      ensures full[..] == Tallied(old(full[..]), Full, x)
    {
      hide SatAdd, Bin;
      if x.full10 >= STALL_FULL_PCT {
        Add(stall, Bin(x.some10), x.weight);
        Add(full, Bin(x.full10), x.weight);
      } else {
        Add(benign, Bin(x.some10), x.weight);
      }
    }

    /** Reads any state of the right shape, also one loaded from disk. */
    method Suggest() returns (r: Option<Suggestion>)
      requires Shape()
      ensures r.Some? <==>
                observed >= 86400 && stallEvents >= 10 && Wrapped(Total(stall[..])) >= 60
      ensures r.Some? ==>
                && r.value.thresholds.Valid()
                && PercentileOr(benign[..], 95.0, 0.0, r.value.benignP95)
                && PercentileOr(stall[..], 10.0, 100.0, r.value.stallOnsetP10)
                && r.value.thresholds.elevated == ElevatedFor(r.value.benignP95, r.value.stallOnsetP10)
                && (exists f :: PercentileOr(full[..], 95.0, 20.0, f) && r.value.thresholds.fullCritical == Clamp(f, 5.0, 50.0))
      // The upper tiers keep the default ratios up to their ceilings.
      ensures r.Some? ==>
                var t := r.value.thresholds;
                && t.high == 5.0 * t.elevated
                && t.critical == MinReal(10.0 * t.elevated, 99.0)
                && t.emergency == MinReal(14.0 * t.elevated, 100.0)
    {
      var stallTotal := SumOf(stall);
      if observed < MIN_OBSERVED_SECS || stallEvents < MIN_STALL_EVENTS || stallTotal < MIN_STALL_SECS {
        return None;
      }
      var b := Percentile(benign, 95.0);
      var benignP95 := if b.Some? then b.value else 0.0;
      var s := Percentile(stall, 10.0);
      var stallOnsetP10 := if s.Some? then s.value else 100.0;
      var elevated := Clamp(benignP95 + ELEVATED_MARGIN_PCT, 2.0, 15.0);
      if stallOnsetP10 < elevated {
        elevated := if stallOnsetP10 < 2.0 then 2.0 else stallOnsetP10;
      }
      var f := Percentile(full, 95.0);
      var full95 := if f.Some? then f.value else 20.0;
      assert PercentileOr(full[..], 95.0, 20.0, full95);
      var fullCritical := Clamp(full95, 5.0, 50.0);
      hide PercentileOr;
      var scale := elevated / 5.0;
      var emergency := MinReal(70.0 * scale, 100.0);
      var critical := MinReal(50.0 * scale, emergency - 1.0);
      var high := MinReal(25.0 * scale, critical - 1.0);
      r := Some(Suggestion(Psi.Thresholds(elevated, high, critical, emergency, fullCritical), benignP95, stallOnsetP10));
    }
  }

  // ── what a suggestion is worth ───────────────────────────────────────────

  /** Below saturation the counters are exact and their sums do not wrap. */
  lemma ExactBelowSaturation(hist: seq<U64>, history: seq<Sample>, kind: Kind)
    requires Tallies(hist, history, kind) && UntreatedWeight(history) <= U64_MAX
    ensures hist == Histogram(history, kind)
    ensures Total(hist) == WeightOf(history, kind) <= U64_MAX
  {
    MassOfKind(history, kind);
    KindsSplit(history);
    forall b | 0 <= b < BINS ensures WeightAt(history, kind, b) <= U64_MAX {
      BinAtMostAll(history, kind, b);
    }
  }

  lemma {:induction false} BinAtMostAll(history: seq<Sample>, kind: Kind, b: int)
    ensures WeightAt(history, kind, b) <= WeightOf(history, kind)
  {
    if |history| > 0 {
      BinAtMostAll(history[..|history| - 1], kind, b);
    }
  }

  /** Benign seconds the thresholds call Normal. */
  ghost function NormalWeight(history: seq<Sample>, t: Psi.Thresholds): nat
  {
    if |history| == 0 then 0
    else
      var x := history[|history| - 1];
      NormalWeight(history[..|history| - 1], t)
      + if Counts(x, Benign) && Psi.LevelWith(Psi.Pressure(x.some10, x.full10), t) == Psi.Normal then x.weight else 0
  }

  lemma {:induction false} BelowEdgeIsNormal(history: seq<Sample>, t: Psi.Thresholds, edge: nat)
    requires t.Valid() && edge as real <= t.elevated && edge < BINS && t.fullCritical >= STALL_FULL_PCT
    ensures WeightBelow(history, Benign, edge) <= NormalWeight(history, t)
  {
    if |history| > 0 {
      BelowEdgeIsNormal(history[..|history| - 1], t, edge);
      var x := history[|history| - 1];
      assert BinOf(x, Benign) < edge ==> x.some10 < (BinOf(x, Benign) + 1) as real <= edge as real;
    }
  }

  /** Unless it was capped below the noise ceiling, a suggested threshold leaves 95%
      of the benign time it was derived from at level Normal. */
  lemma QuietTimeStaysNormal(history: seq<Sample>, hist: seq<U64>, s: Suggestion)
    requires UntreatedWeight(history) <= U64_MAX && Tallies(hist, history, Benign)
    requires s.thresholds.Valid() && s.thresholds.fullCritical >= 5.0
    requires PercentileOr(hist, 95.0, 0.0, s.benignP95)
    requires s.benignP95 <= s.thresholds.elevated <= 15.0
    ensures Reaches(NormalWeight(history, s.thresholds), WeightOf(history, Benign), 95.0)
  {
    ExactBelowSaturation(hist, history, Benign);
    if Total(hist) > 0 {
      var edge :| IsEdgeAt(hist, 95.0, edge, s.benignP95);
      PercentileIsLeast(hist, 95.0, edge, edge);
      assert hist[..edge] == Histogram(history, Benign)[..edge];
      PrefixIsWeightBelow(history, Benign, edge);
      BelowEdgeIsNormal(history, s.thresholds, edge);
    }
    hide Product;
  }

  /** The suggested `elevated` is the largest value up to 15, up to two above the noise
      and up to where stalls set in, but at least 2. */
  lemma ElevatedIsLargest(benignP95: real, stallOnset: real)
    requires benignP95 >= 0.0
    ensures var e := ElevatedFor(benignP95, stallOnset);
      && 2.0 <= e <= 15.0
      && (e > 2.0 ==> e <= benignP95 + 2.0 && e <= stallOnset)
      && (e == 15.0 || e == benignP95 + 2.0 || e == stallOnset || (e == 2.0 && stallOnset < 2.0))
  {
  }

  /** The suggested `elevated` lies below the noise ceiling exactly when the ceiling
      is above the cap or stalls set in below it. */
  lemma CappedExactly(benignP95: real, stallOnset: real)
    requires benignP95 >= 0.0
    ensures ElevatedFor(benignP95, stallOnset) < benignP95 <==>
      benignP95 > 15.0 || (benignP95 > 2.0 && stallOnset < benignP95)
  {
  }
}
