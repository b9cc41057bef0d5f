/** One tracked process of spike mode: Observing until its RSS has peaked and
    dropped, Tracking until it idles. */
module SpikeState {
  import opened Types
  import opened Window

  datatype Phase = Observing | Tracking

  datatype Params = Params(
    windowSec: nat,
    minRss: Kb,
    growthThreshold: Kb,
    majfltThreshold: U64,
    dropFactor: real,
    minSamples: nat,
    headroomFactor: real,
    cpuThresholdPct: real,
    idleCpuThresholdPct: real,
    idleRssDelta: Kb,
    idleTicksRequired: nat,
    included: string -> bool,
    excluded: string -> bool)
  {
    function Window(): nat { windowSec * 1000 }
  }

  datatype State = State(
    pid: Pid,
    phase: Phase,
    samples: seq<Stamped<Kb>>,
    initialRss: Kb,
    rssMax: Kb,
    hasPeaked: bool,
    hasOscillated: bool,
    cpuThrottled: bool,
    idleTicks: nat,
    cgroup: Option<string>)

  function New(pid: Pid, baseline: Kb, cgroup: Option<string>): State
  {
    State(pid, Observing, [], baseline, baseline, false, false, false, 0, cgroup)
  }

  /** A size times a factor, truncated. */
  function Scaled(x: Kb, factor: real): Kb { TruncU64(Product(x as real, factor)) }

  function MaxRss(xs: seq<Stamped<Kb>>): Kb
    requires |xs| > 0
  {
    if |xs| == 1 then xs[0].value
    else
      var m := MaxRss(xs[..|xs| - 1]);
      if xs[|xs| - 1].value > m then xs[|xs| - 1].value else m
  }

  lemma {:induction false} MaxRssIsMaximum(xs: seq<Stamped<Kb>>)
    requires |xs| > 0
    ensures forall x :: x in xs ==> x.value <= MaxRss(xs)
    ensures exists x :: x in xs && x.value == MaxRss(xs)
  {
    var last := xs[|xs| - 1];
    assert last in xs;
    if |xs| > 1 {
      MaxRssIsMaximum(xs[..|xs| - 1]);
      assert xs == xs[..|xs| - 1] + [last];
      var w :| w in xs[..|xs| - 1] && w.value == MaxRss(xs[..|xs| - 1]);
      assert w in xs;
    }
  }

  // ── one observation ──────────────────────────────────────────────────────

  /** What one update sees of one process. */
  datatype Obs = Obs(now: Time, rss: Kb, rssDelta: Kb, cpuPct: real, cgroup: Option<string>, foreground: bool)

  datatype Throttling = Throttle(cgroup: string) | Restore(cgroup: string)

  ghost function Sampled(s: State, o: Obs, p: Params): State
  {
    var samples := Kept(s.samples + [Stamped(o.rss, o.now)], o.now, p.Window());
    KeptAppend(s.samples, Stamped(o.rss, o.now), o.now, p.Window());
    s.(cgroup := o.cgroup, samples := samples, rssMax := MaxRss(samples))
  }

  function Judged(s: State, o: Obs, p: Params): State
  {
    var peaked := s.hasPeaked || s.rssMax > SatAdd(s.initialRss, p.growthThreshold);
    var valleyFloor := Scaled(s.rssMax, p.dropFactor);
    var oscillated := s.hasOscillated || (peaked && o.rss < valleyFloor);
    s.(hasPeaked := peaked, hasOscillated := oscillated)
  }

  predicate IsIdleTick(o: Obs, p: Params)
  {
    o.cpuPct < p.idleCpuThresholdPct && o.rssDelta < p.idleRssDelta
  }

  function Demoted(s: State, o: Obs): State
  {
    s.(phase := Observing, hasPeaked := false, hasOscillated := false, idleTicks := 0, samples := [],
       initialRss := o.rss, rssMax := o.rss, cpuThrottled := false)
  }

  function Moved(s: State, o: Obs, p: Params): State
  {
    if s.phase == Observing then
      if s.hasPeaked && s.hasOscillated && |s.samples| >= p.minSamples then s.(phase := Tracking, idleTicks := 0)
      else s
    else if !IsIdleTick(o, p) then s.(idleTicks := 0)
    else if s.idleTicks + 1 >= p.idleTicksRequired then Demoted(s, o)
    else s.(idleTicks := s.idleTicks + 1)
  }

  /** The state after the second step of an update. */
  ghost function Observed(s: State, o: Obs, p: Params): State
  {
    Moved(Judged(Sampled(s, o, p), o, p), o, p)
  }

  ghost predicate IsDemoted(s: State, o: Obs, p: Params)
  {
    s.phase == Tracking && Observed(s, o, p).phase == Observing
  }

  /** The restore a demotion emits. */
  ghost function DemotionEmits(s: State, o: Obs, p: Params): seq<Throttling>
  {
    if IsDemoted(s, o, p) && s.cpuThrottled && o.cgroup.Some? then [Restore(o.cgroup.value)] else []
  }

  /** The CPU check of the last step. */
  function CpuChecked(s: State, o: Obs, p: Params): State
  {
    if s.phase != Tracking || o.foreground || s.cgroup.None? then s
    else s.(cpuThrottled := o.cpuPct >= p.cpuThresholdPct)
  }

  function CpuEmits(s: State, o: Obs, p: Params): seq<Throttling>
  {
    if CpuChecked(s, o, p).cpuThrottled == s.cpuThrottled then []
    else if s.cpuThrottled then [Restore(s.cgroup.value)]
    else [Throttle(s.cgroup.value)]
  }

  ghost function Tick(s: State, o: Obs, p: Params): State
  {
    CpuChecked(Observed(s, o, p), o, p)
  }

  ghost function TickEmits(s: State, o: Obs, p: Params): seq<Throttling>
  {
    DemotionEmits(s, o, p) + CpuEmits(Observed(s, o, p), o, p)
  }

  /** Pushes the new sample, evicts the old ones, recomputes the maximum. */
  method TakeSample(s: State, o: Obs, p: Params) returns (s': State)
    requires InOrder(s.samples + [Stamped(o.rss, o.now)])
    ensures s' == Sampled(s, o, p)
  {
    var samples := Trim(s.samples + [Stamped(o.rss, o.now)], o.now, p.Window());
    KeptAppend(s.samples, Stamped(o.rss, o.now), o.now, p.Window());
    hide Kept;
    var rssMax := samples[0].value;
    var i := 1;
    while i < |samples|
      invariant 1 <= i <= |samples|
      invariant rssMax == MaxRss(samples[..i])
    {
      assert samples[..i + 1][..i] == samples[..i];
      if samples[i].value > rssMax {
        rssMax := samples[i].value;
      }
      i := i + 1;
    }
    assert samples[..|samples|] == samples;
    s' := s.(cgroup := o.cgroup, samples := samples, rssMax := rssMax);
  }

  /** The second step's work on one process. */
  method Observe(s: State, o: Obs, p: Params) returns (s': State, demoted: bool, emits: seq<Throttling>)
    requires InOrder(s.samples + [Stamped(o.rss, o.now)])
    ensures s' == Observed(s, o, p)
    ensures demoted <==> IsDemoted(s, o, p)
    ensures emits == DemotionEmits(s, o, p)
  {
    s' := TakeSample(s, o, p);
    SampledKeeps(s, o, p);
    s' := Judge(s', o, p);
    s', demoted, emits := Move(s', o, p);
    hide Sampled, IsIdleTick, Scaled, SatAdd;
  }

  /** Has it peaked, and dropped from the peak? */
  method Judge(s: State, o: Obs, p: Params) returns (s': State)
    ensures s' == Judged(s, o, p)
  {
    s' := s;
    if !s'.hasPeaked && s'.rssMax > SatAdd(s'.initialRss, p.growthThreshold) {
      s' := s'.(hasPeaked := true);
    }
    if s'.hasPeaked && !s'.hasOscillated {
      var valleyFloor := Scaled(s'.rssMax, p.dropFactor);
      if o.rss < valleyFloor {
        s' := s'.(hasOscillated := true);
      }
    }
  }

  /** The phase transition. */
  method Move(s: State, o: Obs, p: Params) returns (s': State, demoted: bool, emits: seq<Throttling>)
    ensures s' == Moved(s, o, p)
    ensures demoted <==> s.phase == Tracking && s'.phase == Observing
    ensures emits == if demoted && s.cpuThrottled && s.cgroup.Some? then [Restore(s.cgroup.value)] else []
  {
    s', demoted, emits := s, false, [];
    if s'.phase == Observing && s'.hasPeaked && s'.hasOscillated && |s'.samples| >= p.minSamples {
      s' := s'.(phase := Tracking, idleTicks := 0);
    } else if s'.phase == Tracking {
      if IsIdleTick(o, p) {
        s' := s'.(idleTicks := s'.idleTicks + 1);
        if s'.idleTicks >= p.idleTicksRequired {
          if s'.cpuThrottled && s'.cgroup.Some? {
            emits := [Restore(s'.cgroup.value)];
          }
          s' := Demoted(s', o);
          demoted := true;
        }
      } else {
        s' := s'.(idleTicks := 0);
      }
    }
  }

  lemma SampledKeeps(s: State, o: Obs, p: Params)
    ensures var s' := Sampled(s, o, p);
      s' == s.(cgroup := o.cgroup, samples := s'.samples, rssMax := s'.rssMax)
  {
  }

  // ── invariant of every reachable state ───────────────────────────────────

  ghost predicate Inv(s: State)
  {
    && (s.hasOscillated ==> s.hasPeaked)
    && (s.phase == Tracking ==> s.hasPeaked && s.hasOscillated)
    && (s.phase == Observing ==> !s.cpuThrottled && s.idleTicks == 0)
    && InOrder(s.samples)
  }

  /** The state has seen nothing later than `now`. */
  ghost predicate SeenBy(s: State, now: Time)
  {
    forall x :: x in s.samples ==> x.at <= now
  }

  lemma AppendInOrder(s: State, o: Obs)
    requires InOrder(s.samples) && SeenBy(s, o.now)
    ensures InOrder(s.samples + [Stamped(o.rss, o.now)])
  {
    forall i | 0 <= i < |s.samples| ensures s.samples[i].at <= o.now {
      assert s.samples[i] in s.samples;
    }
  }

  lemma TickKeepsInv(s: State, o: Obs, p: Params)
    requires Inv(s) && SeenBy(s, o.now)
    ensures Inv(Observed(s, o, p)) && SeenBy(Observed(s, o, p), o.now)
    ensures Inv(Tick(s, o, p)) && SeenBy(Tick(s, o, p), o.now)
  {
    var all := s.samples + [Stamped(o.rss, o.now)];
    AppendInOrder(s, o);
    KeptInOrder(all, o.now, p.Window());
    forall x | x in Kept(all, o.now, p.Window()) ensures x.at <= o.now {
      KeptMember(all, o.now, p.Window(), x);
    }
    hide Kept, Scaled, SatAdd, IsIdleTick, MaxRss;
  }

  // ── whole runs of one process under fixed parameters ─────────────────────

  ghost function RunOf(s: State, os: seq<Obs>, p: Params): State
  {
    if |os| == 0 then s else Tick(RunOf(s, os[..|os| - 1], p), os[|os| - 1], p)
  }

  ghost predicate ClockRuns(os: seq<Obs>)
  {
    forall i, j :: 0 <= i <= j < |os| ==> os[i].now <= os[j].now
  }

  /** The samples seen since the process was registered or last demoted. */
  ghost function History(s: State, os: seq<Obs>, p: Params): seq<Stamped<Kb>>
  {
    if |os| == 0 then []
    else
      var (before, o) := (os[..|os| - 1], os[|os| - 1]);
      if IsDemoted(RunOf(s, before, p), o, p) then []
      else History(s, before, p) + [Stamped(o.rss, o.now)]
  }

  /** The incrementally trimmed window holds exactly the history's recent samples,
      and `rssMax` is their true maximum. */
  lemma {:induction false} WindowIsExact(s: State, os: seq<Obs>, p: Params)
    requires s == New(s.pid, s.initialRss, s.cgroup) && |os| > 0 && ClockRuns(os)
    ensures var end := RunOf(s, os, p);
      && end.samples == Kept(History(s, os, p), os[|os| - 1].now, p.Window())
      && (end.samples != [] ==> end.rssMax == MaxRss(end.samples))
      && (end.samples == [] ==> end.rssMax == os[|os| - 1].rss)
      && Inv(end) && SeenBy(end, os[|os| - 1].now)
  {
    var n := |os| - 1;
    var (before, o) := (os[..n], os[n]);
    var prev := RunOf(s, before, p);
    var x := Stamped(o.rss, o.now);
    if n > 0 {
      WindowIsExact(s, before, p);
      assert os[n - 1].now <= o.now;
      KeptStep(History(s, before, p), x, os[n - 1].now, p.Window());
    } else {
      assert prev == s;
    }
    TickKeepsInv(prev, o, p);
    TickSamples(prev, o, p);
    hide Tick, Kept, MaxRss, Inv, SeenBy, IsDemoted;
  }

  lemma SampledMeans(s: State, o: Obs, p: Params)
    ensures var s' := Sampled(s, o, p);
      && s'.samples == Kept(s.samples + [Stamped(o.rss, o.now)], o.now, p.Window())
      && s'.samples != [] && s'.rssMax == MaxRss(s'.samples)
  {
    KeptAppend(s.samples, Stamped(o.rss, o.now), o.now, p.Window());
    hide Kept, MaxRss;
  }

  lemma TickSamples(s: State, o: Obs, p: Params)
    ensures var s' := Tick(s, o, p);
      if IsDemoted(s, o, p) then s'.samples == [] && s'.rssMax == o.rss
      else
        && s'.samples == Kept(s.samples + [Stamped(o.rss, o.now)], o.now, p.Window())
        && s'.samples != [] && s'.rssMax == MaxRss(s'.samples)
  {
    SampledKeeps(s, o, p);
    SampledMeans(s, o, p);
    hide Sampled, Kept, MaxRss, Scaled, IsIdleTick, SatAdd;
  }

  /** A process whose RSS never decreases is never held against anyone: it stays
      Observing, unthrottled, for the whole run. */
  lemma {:induction false} GrowthAloneIsNotASpike(s: State, os: seq<Obs>, p: Params)
    requires s == New(s.pid, s.initialRss, s.cgroup) && p.dropFactor <= 1.0
    requires forall i, j :: 0 <= i <= j < |os| ==> os[i].rss <= os[j].rss
    ensures RunOf(s, os, p).phase == Observing && !RunOf(s, os, p).cpuThrottled
    ensures !RunOf(s, os, p).hasOscillated
    ensures |os| > 0 ==> forall x :: x in RunOf(s, os, p).samples ==> x.value <= os[|os| - 1].rss
    ensures |os| == 0 ==> RunOf(s, os, p).samples == []
  {
    hide Tick;
    if |os| > 0 {
      var n := |os| - 1;
      GrowthAloneIsNotASpike(s, os[..n], p);
      assert n > 0 ==> os[n - 1].rss <= os[n].rss;
      GrowthTick(RunOf(s, os[..n], p), os[n], p);
    }
  }

  lemma GrowthTick(s: State, o: Obs, p: Params)
    requires s.phase == Observing && !s.cpuThrottled && !s.hasOscillated && p.dropFactor <= 1.0
    requires forall x :: x in s.samples ==> x.value <= o.rss
    ensures var s' := Tick(s, o, p);
      && s'.phase == Observing && !s'.cpuThrottled && !s'.hasOscillated
      && forall x :: x in s'.samples ==> x.value <= o.rss
  {
    SampledGrowth(s, o, p);
    SampledKeeps(s, o, p);
    ScaledDown(Sampled(s, o, p).rssMax, p.dropFactor);
    hide Sampled, Scaled, SatAdd;
  }

  lemma SampledGrowth(s: State, o: Obs, p: Params)
    requires forall x :: x in s.samples ==> x.value <= o.rss
    ensures forall x :: x in Sampled(s, o, p).samples ==> x.value <= o.rss
    ensures Sampled(s, o, p).rssMax <= o.rss
  {
    var all: seq<Stamped<Kb>> := s.samples + [Stamped(o.rss, o.now)];
    var kept: seq<Stamped<Kb>> := Kept(all, o.now, p.Window());
    forall x | x in kept ensures x.value <= o.rss {
      KeptMember(all, o.now, p.Window(), x);
    }
    KeptAppend(s.samples, Stamped(o.rss, o.now), o.now, p.Window());
    MaxRssIsMaximum(kept);
    hide Kept, MaxRss;
  }

  lemma ScaledDown(x: Kb, factor: real)
    requires factor <= 1.0
    ensures Scaled(x, factor) <= x
  {
    ProductShrinks(x as real, factor);
    hide Product;
    TruncBelow(Product(x as real, factor), x);
  }

  // ── entering Tracking ────────────────────────────────────────────────────

  /** The RSS the process is measured against: its baseline, or what it had when it
      was last demoted. */
  ghost function Base(s: State, os: seq<Obs>, p: Params): Kb
  {
    if |os| == 0 then s.initialRss
    else if IsDemoted(RunOf(s, os[..|os| - 1], p), os[|os| - 1], p) then os[|os| - 1].rss
    else Base(s, os[..|os| - 1], p)
  }

  ghost predicate Peaked(h: seq<Stamped<Kb>>, base: Kb, p: Params)
  {
    exists j :: 0 <= j < |h| && h[j].value > base + p.growthThreshold
  }

  /** At sample `i` the RSS has dropped below the given share of a recent one. */
  ghost predicate DropsAt(h: seq<Stamped<Kb>>, i: int, p: Params)
    requires 0 <= i < |h|
  {
    exists j :: 0 <= j <= i && Elapsed(h[i].at, h[j].at) <= p.windowSec * 1000 && FarBelow(h[i].value, h[j].value, p.dropFactor)
  }

  ghost predicate FarBelow(rss: Kb, peak: Kb, factor: real)
  {
    rss < U64_MAX && (rss + 1) as real <= Product(peak as real, factor)
  }

  ghost predicate Oscillated(h: seq<Stamped<Kb>>, base: Kb, p: Params)
  {
    exists i :: 0 <= i < |h| && Peaked(h[..i + 1], base, p) && DropsAt(h, i, p)
  }

  lemma BelowScaled(rss: Kb, peak: Kb, factor: real)
    ensures rss < Scaled(peak, factor) <==> FarBelow(rss, peak, factor)
  {
    hide Product;
  }

  lemma ScaledGrows(small: Kb, large: Kb, factor: real)
    requires small <= large
    ensures Scaled(small, factor) <= Scaled(large, factor)
  {
    if factor >= 0.0 {
      assert (large - small) as real * factor >= 0.0;
      assert large as real * factor == small as real * factor + (large - small) as real * factor;
    } else {
      assert small as real * factor <= 0.0;
    }
  }

  lemma PeakedAppend(h: seq<Stamped<Kb>>, x: Stamped<Kb>, base: Kb, p: Params)
    ensures Peaked(h + [x], base, p) <==> Peaked(h, base, p) || x.value > base + p.growthThreshold
  {
    var longer := h + [x];
    assert forall j :: 0 <= j < |h| ==> longer[j] == h[j];
    assert longer[|h|] == x;
  }

  lemma OscillatedAppend(h: seq<Stamped<Kb>>, x: Stamped<Kb>, base: Kb, p: Params)
    ensures Oscillated(h + [x], base, p) <==>
      Oscillated(h, base, p) || (Peaked(h + [x], base, p) && DropsAt(h + [x], |h|, p))
  {
    var longer := h + [x];
    assert longer[..|h| + 1] == longer;
    forall i | 0 <= i < |h|
      ensures longer[..i + 1] == h[..i + 1] && (DropsAt(longer, i, p) <==> DropsAt(h, i, p))
    {
      assert forall j :: 0 <= j <= i ==> longer[j] == h[j];
    }
    hide DropsAt, Peaked;
    if Oscillated(h, base, p) {
      var i :| 0 <= i < |h| && Peaked(h[..i + 1], base, p) && DropsAt(h, i, p);
      assert Peaked(longer[..i + 1], base, p) && DropsAt(longer, i, p);
    }
  }

  /** The maximum of the recent samples is one of them, and none is above it. */
  lemma TopMeans(h: seq<Stamped<Kb>>, now: Time, window: nat) returns (w: int)
    requires Kept(h, now, window) != []
    ensures 0 <= w < |h| && Elapsed(now, h[w].at) <= window && h[w].value == MaxRss(Kept(h, now, window))
    ensures forall j :: 0 <= j < |h| && Elapsed(now, h[j].at) <= window ==> h[j].value <= MaxRss(Kept(h, now, window))
  {
    var kept := Kept(h, now, window);
    MaxRssIsMaximum(kept);
    var top :| top in kept && top.value == MaxRss(kept);
    KeptMember(h, now, window, top);
    w :| 0 <= w < |h| && h[w] == top;
    hide Kept, MaxRss;
    forall j | 0 <= j < |h| && Elapsed(now, h[j].at) <= window ensures h[j].value <= MaxRss(kept) {
      KeptMember(h, now, window, h[j]);
    }
  }

  /** So it tells whether the process has peaked and whether it drops. */
  lemma TopTells(h: seq<Stamped<Kb>>, base: Kb, p: Params)
    requires |h| > 0 && Kept(h, h[|h| - 1].at, p.Window()) != []
    ensures var (x, top) := (h[|h| - 1], MaxRss(Kept(h, h[|h| - 1].at, p.Window())));
      && (top > SatAdd(base, p.growthThreshold) ==> Peaked(h, base, p))
      && (x.value > base + p.growthThreshold ==> top > SatAdd(base, p.growthThreshold))
      && (x.value < Scaled(top, p.dropFactor) <==> DropsAt(h, |h| - 1, p))
  {
    hide Kept, MaxRss, Scaled, DropsAt;
    var w := TopMeans(h, h[|h| - 1].at, p.Window());
    TopDrops(h, |h| - 1, w, p);
  }

  lemma TopDrops(h: seq<Stamped<Kb>>, i: nat, top: int, p: Params)
    requires i < |h| && 0 <= top <= i && Elapsed(h[i].at, h[top].at) <= p.windowSec * 1000
    requires forall j :: 0 <= j <= i && Elapsed(h[i].at, h[j].at) <= p.windowSec * 1000 ==> h[j].value <= h[top].value
    ensures h[i].value < Scaled(h[top].value, p.dropFactor) <==> DropsAt(h, i, p)
  {
    hide Scaled, FarBelow;
    BelowScaled(h[i].value, h[top].value, p.dropFactor);
    if DropsAt(h, i, p) {
      var j :| 0 <= j <= i && Elapsed(h[i].at, h[j].at) <= p.windowSec * 1000 && FarBelow(h[i].value, h[j].value, p.dropFactor);
      BelowScaled(h[i].value, h[j].value, p.dropFactor);
      ScaledGrows(h[j].value, h[top].value, p.dropFactor);
    }
  }

  lemma {:induction false} FlagsAreHistory(s: State, os: seq<Obs>, p: Params)
    requires s == New(s.pid, s.initialRss, s.cgroup) && ClockRuns(os)
    ensures var (end, h, base) := (RunOf(s, os, p), History(s, os, p), Base(s, os, p));
      && end.initialRss == base
      && (end.hasPeaked <==> Peaked(h, base, p))
      && (end.hasOscillated <==> Oscillated(h, base, p))
  {
    if |os| > 0 {
      var n := |os| - 1;
      var (before, o) := (os[..n], os[n]);
      FlagsAreHistory(s, before, p);
      WindowBefore(s, before, o, p);
      FlagsTick(RunOf(s, before, p), o, History(s, before, p), p);
    }
    hide Tick, IsDemoted, Peaked, Oscillated;
  }

  /** The window of the next tick is that of the whole history. */
  lemma WindowBefore(s: State, before: seq<Obs>, o: Obs, p: Params)
    requires s == New(s.pid, s.initialRss, s.cgroup) && ClockRuns(before + [o])
    ensures Kept(RunOf(s, before, p).samples + [Stamped(o.rss, o.now)], o.now, p.Window())
         == Kept(History(s, before, p) + [Stamped(o.rss, o.now)], o.now, p.Window())
  {
    if |before| > 0 {
      assert forall i :: 0 <= i < |before| ==> (before + [o])[i] == before[i];
      assert ClockRuns(before);
      WindowIsExact(s, before, p);
      var last := before[|before| - 1].now;
      assert last == (before + [o])[|before| - 1].now <= (before + [o])[|before|].now;
      KeptStep(History(s, before, p), Stamped(o.rss, o.now), last, p.Window());
    }
    hide Kept;
  }

  lemma FlagsTick(s: State, o: Obs, h: seq<Stamped<Kb>>, p: Params)
    requires Kept(s.samples + [Stamped(o.rss, o.now)], o.now, p.Window()) == Kept(h + [Stamped(o.rss, o.now)], o.now, p.Window())
    requires s.hasPeaked <==> Peaked(h, s.initialRss, p)
    requires s.hasOscillated <==> Oscillated(h, s.initialRss, p)
    ensures var s' := Tick(s, o, p);
      var h' := if IsDemoted(s, o, p) then [] else h + [Stamped(o.rss, o.now)];
      && s'.initialRss == (if IsDemoted(s, o, p) then o.rss else s.initialRss)
      && (s'.hasPeaked <==> Peaked(h', s'.initialRss, p))
      && (s'.hasOscillated <==> Oscillated(h', s'.initialRss, p))
  {
    var x := Stamped(o.rss, o.now);
    SampledKeeps(s, o, p);
    SampledMeans(s, o, p);
    hide Sampled, Kept, MaxRss, Scaled, DropsAt, IsIdleTick;
    assert (h + [x])[|h|] == x;
    TopTells(h + [x], s.initialRss, p);
    PeakedAppend(h, x, s.initialRss, p);
    OscillatedAppend(h, x, s.initialRss, p);
    assert !Peaked([], o.rss, p) && !Oscillated([], o.rss, p);
    hide Peaked, Oscillated;
  }

  /** An Observing process is Tracking after a tick if and only if, since it was
      registered or demoted, its RSS has exceeded the base by more than the growth
      threshold and, then or later, dropped below the given share of what it had
      within the window, and the window now holds enough samples. */
  lemma EntersTrackingExactly(s: State, os: seq<Obs>, p: Params)
    requires s == New(s.pid, s.initialRss, s.cgroup) && |os| > 0 && ClockRuns(os)
    requires RunOf(s, os[..|os| - 1], p).phase == Observing
    ensures var (h, now) := (History(s, os, p), os[|os| - 1].now);
      RunOf(s, os, p).phase == Tracking <==>
        Oscillated(h, Base(s, os, p), p) && |Kept(h, now, p.windowSec * 1000)| >= p.minSamples
  {
    var before := os[..|os| - 1];
    var prev := RunOf(s, before, p);
    FlagsAreHistory(s, os, p);
    FlagsAreHistory(s, before, p);
    WindowIsExact(s, os, p);
    OscillatedMeansPeaked(History(s, before, p), Base(s, before, p), p);
    EntersTick(prev, os[|os| - 1], p);
    assert RunOf(s, os, p) == Tick(prev, os[|os| - 1], p);
    assert p.Window() == p.windowSec * 1000;
    hide *;
  }

  lemma OscillatedMeansPeaked(h: seq<Stamped<Kb>>, base: Kb, p: Params)
    ensures Oscillated(h, base, p) ==> Peaked(h, base, p)
  {
    if Oscillated(h, base, p) {
      var i :| 0 <= i < |h| && Peaked(h[..i + 1], base, p) && DropsAt(h, i, p);
      var j :| 0 <= j < i + 1 && h[..i + 1][j].value > base + p.growthThreshold;
      assert h[j] == h[..i + 1][j];
    }
  }

  lemma EntersTick(s: State, o: Obs, p: Params)
    requires s.phase == Observing && (s.hasOscillated ==> s.hasPeaked)
    ensures var s' := Tick(s, o, p); s'.phase == Tracking <==> s'.hasOscillated && |s'.samples| >= p.minSamples
  {
    SampledKeeps(s, o, p);
    hide Sampled, Scaled, SatAdd;
  }

  // ── leaving Tracking ─────────────────────────────────────────────────────

  /** Consecutive idle ticks that found the process Tracking. */
  ghost function IdleStreak(s: State, os: seq<Obs>, p: Params): nat
  {
    if |os| == 0 then 0
    else
      var (before, o) := (os[..|os| - 1], os[|os| - 1]);
      if RunOf(s, before, p).phase == Tracking && o.cpuPct < p.idleCpuThresholdPct && o.rssDelta < p.idleRssDelta then
        IdleStreak(s, before, p) + 1
      else 0
  }

  function IdleNeeded(p: Params): nat { if p.idleTicksRequired < 1 then 1 else p.idleTicksRequired }

  /** A tracked process is demoted at exactly the tick that completes the
      required streak of idle ones, and never otherwise. */
  lemma {:induction false} DemotionTakesAnIdleStreak(s: State, os: seq<Obs>, p: Params)
    requires s == New(s.pid, s.initialRss, s.cgroup)
    ensures |os| > 0 && RunOf(s, os[..|os| - 1], p).phase == Tracking ==>
              (RunOf(s, os, p).phase == Observing <==> IdleStreak(s, os, p) >= IdleNeeded(p))
    ensures RunOf(s, os, p).phase == Tracking ==>
              RunOf(s, os, p).idleTicks == IdleStreak(s, os, p) < IdleNeeded(p)
  {
    if |os| > 0 {
      var before := os[..|os| - 1];
      DemotionTakesAnIdleStreak(s, before, p);
      IdleTick(RunOf(s, before, p), os[|os| - 1], p);
      hide Tick, IsIdleTick;
    }
  }

  lemma IdleTick(s: State, o: Obs, p: Params)
    ensures var s' := Tick(s, o, p);
      && (s.phase == Tracking ==>
            (s'.phase == Observing <==> IsIdleTick(o, p) && s.idleTicks + 1 >= p.idleTicksRequired)
            && (s'.phase == Tracking ==> s'.idleTicks == if IsIdleTick(o, p) then s.idleTicks + 1 else 0))
      && (s.phase == Observing && s'.phase == Tracking ==> s'.idleTicks == 0)
  {
    SampledKeeps(s, o, p);
    hide Sampled, Scaled, IsIdleTick, SatAdd;
  }

  // ── throttling ───────────────────────────────────────────────────────────

  ghost function Emissions(s: State, os: seq<Obs>, p: Params): seq<Throttling>
  {
    if |os| == 0 then []
    else Emissions(s, os[..|os| - 1], p) + TickEmits(RunOf(s, os[..|os| - 1], p), os[|os| - 1], p)
  }

  /** Throttle first, then strictly in turn, always on the same cgroup. */
  ghost predicate Alternates(es: seq<Throttling>, cgroup: string)
  {
    forall i :: 0 <= i < |es| ==> es[i] == if i % 2 == 0 then Throttle(cgroup) else Restore(cgroup)
  }

  /** While a process keeps its cgroup its throttle decisions strictly alternate,
      at most one comes from a tick, and the last one tells the cgroup's state. */
  lemma {:induction false} ThrottlingAlternates(s: State, os: seq<Obs>, p: Params, cgroup: string)
    requires s == New(s.pid, s.initialRss, s.cgroup)
    requires forall i :: 0 <= i < |os| ==> os[i].cgroup == Some(cgroup)
    ensures Alternates(Emissions(s, os, p), cgroup)
    ensures RunOf(s, os, p).cpuThrottled <==> |Emissions(s, os, p)| % 2 == 1
    ensures RunOf(s, os, p).phase == Observing ==> !RunOf(s, os, p).cpuThrottled
    ensures |os| > 0 ==> |TickEmits(RunOf(s, os[..|os| - 1], p), os[|os| - 1], p)| <= 1
  {
    hide Tick, TickEmits, Alternates;
    if |os| > 0 {
      var before := os[..|os| - 1];
      ThrottlingAlternates(s, before, p, cgroup);
      ThrottlingTick(RunOf(s, before, p), os[|os| - 1], p, cgroup);
      AlternatesExtends(Emissions(s, before, p), TickEmits(RunOf(s, before, p), os[|os| - 1], p), cgroup);
    } else {
      AlternatesExtends([], [], cgroup);
    }
  }

  lemma AlternatesExtends(es: seq<Throttling>, more: seq<Throttling>, cgroup: string)
    requires es == [] || Alternates(es, cgroup)
    requires more == [] || more == [if |es| % 2 == 0 then Throttle(cgroup) else Restore(cgroup)]
    ensures Alternates(es + more, cgroup)
    ensures |es + more| % 2 == (|es| + |more|) % 2
  {
  }

  lemma ThrottlingTick(s: State, o: Obs, p: Params, cgroup: string)
    requires o.cgroup == Some(cgroup) && (s.phase == Observing ==> !s.cpuThrottled)
    ensures var (s', es) := (Tick(s, o, p), TickEmits(s, o, p));
      && (s'.phase == Observing ==> !s'.cpuThrottled)
      && es == if s.cpuThrottled == s'.cpuThrottled then [] else if s.cpuThrottled then [Restore(cgroup)] else [Throttle(cgroup)]
  {
    SampledKeeps(s, o, p);
    hide Sampled, Scaled, IsIdleTick;
  }

  /** A throttled process demoted while it has no cgroup is forgotten as throttled
      and no restore is emitted; otherwise the restore names the cgroup it has now. */
  lemma DemotionRestoresUnlessCgroupGone(s: State, o: Obs, p: Params)
    requires Inv(s) && s.cpuThrottled && IsDemoted(s, o, p)
    ensures !Tick(s, o, p).cpuThrottled
    ensures TickEmits(s, o, p) == [] <==> o.cgroup.None?
    ensures o.cgroup.Some? ==> TickEmits(s, o, p) == [Restore(o.cgroup.value)]
  {
  }

  /** At this tick the process is Tracking in the background, in a cgroup, and uses
      the given CPU share or more. */
  ghost predicate HotAt(s: State, os: seq<Obs>, p: Params, i: int)
  {
    && 0 <= i < |os|
    && RunOf(s, os[..i + 1], p).phase == Tracking
    && !os[i].foreground && os[i].cgroup.Some? && os[i].cpuPct >= p.cpuThresholdPct
  }

  /** Nothing at this tick speaks against throttling. */
  ghost predicate NotCoolAt(s: State, os: seq<Obs>, p: Params, i: int)
    requires 0 <= i < |os|
  {
    && RunOf(s, os[..i + 1], p).phase == Tracking
    && (os[i].foreground || os[i].cgroup.None? || os[i].cpuPct >= p.cpuThresholdPct)
  }

  ghost predicate HotSince(s: State, os: seq<Obs>, p: Params, i: int)
  {
    HotAt(s, os, p, i) && forall k :: i <= k < |os| ==> NotCoolAt(s, os, p, k)
  }

  /** A process is throttled if and only if it was hot at some tick and has not been
      seen cool in the background or been demoted since. */
  lemma {:induction false} ThrottledExactly(s: State, os: seq<Obs>, p: Params)
    requires s == New(s.pid, s.initialRss, s.cgroup)
    ensures RunOf(s, os, p).cpuThrottled <==> exists i :: HotSince(s, os, p, i)
    ensures RunOf(s, os, p).phase == Observing ==> !RunOf(s, os, p).cpuThrottled
  {
    hide Tick;
    if |os| > 0 {
      var n := |os| - 1;
      var (before, o) := (os[..n], os[n]);
      ThrottledExactly(s, before, p);
      FlagRule(RunOf(s, before, p), o, p);
      assert os[..n + 1] == os;
      assert RunOf(s, os, p) == Tick(RunOf(s, before, p), o, p);
      hide RunOf;
      HotStep(s, os, p, n);
      if exists i :: HotSince(s, before, p, i) {
        var i :| HotSince(s, before, p, i);
        HotStep(s, os, p, i);
      }
      if exists j :: HotSince(s, os, p, j) {
        var j :| HotSince(s, os, p, j);
        HotStep(s, os, p, j);
      }
      hide HotSince;
    }
  }

  lemma HotStep(s: State, os: seq<Obs>, p: Params, i: int)
    requires |os| > 0
    ensures var (n, before) := (|os| - 1, os[..|os| - 1]);
      HotSince(s, os, p, i) <==> (i == n && HotAt(s, os, p, n)) || (HotSince(s, before, p, i) && NotCoolAt(s, os, p, n))
  {
    hide RunOf;
    var (n, before) := (|os| - 1, os[..|os| - 1]);
    forall k | 0 <= k < n
      ensures HotAt(s, os, p, k) <==> HotAt(s, before, p, k)
      ensures NotCoolAt(s, os, p, k) <==> NotCoolAt(s, before, p, k)
    {
      assert before[..k + 1] == os[..k + 1];
    }
    assert HotAt(s, os, p, n) ==> NotCoolAt(s, os, p, n);
    hide HotAt, NotCoolAt;
  }

  lemma FlagRule(s: State, o: Obs, p: Params)
    requires s.phase == Observing ==> !s.cpuThrottled
    ensures var s' := Tick(s, o, p);
      && (s'.phase == Observing ==> !s'.cpuThrottled)
      && (s'.phase == Tracking ==>
            (s'.cpuThrottled <==>
               if o.foreground || o.cgroup.None? then s.cpuThrottled else o.cpuPct >= p.cpuThresholdPct))
  {
    SampledKeeps(s, o, p);
    hide Sampled, Scaled, IsIdleTick;
  }

  // ── is every throttle undone? ────────────────────────────────────────────

  /** The cgroups that decisions carried out in order leave throttled. */
  ghost function Slowed(es: seq<Throttling>): set<string>
  {
    if |es| == 0 then {}
    else SlowedBy(Slowed(es[..|es| - 1]), es[|es| - 1])
  }

  function SlowedBy(slowed: set<string>, e: Throttling): set<string>
  {
    if e.Throttle? then slowed + {e.cgroup} else slowed - {e.cgroup}
  }

  /** The cgroup that was throttled when the flag was last set, while it is set. */
  ghost function ThrottledOn(s: State, os: seq<Obs>, p: Params): Option<string>
  {
    if |os| == 0 || !RunOf(s, os, p).cpuThrottled then None
    else if RunOf(s, os[..|os| - 1], p).cpuThrottled then ThrottledOn(s, os[..|os| - 1], p)
    else os[|os| - 1].cgroup
  }

  function SetOf(cgroup: Option<string>): set<string> { if cgroup.Some? then {cgroup.value} else {} }

  /** At every tick so far, exactly the cgroup the process is believed to be
      throttled on has been left throttled. */
  ghost predicate Tracks(s: State, os: seq<Obs>, p: Params)
  {
    && Slowed(Emissions(s, os, p)) == SetOf(ThrottledOn(s, os, p))
    && (|os| > 0 ==> Tracks(s, os[..|os| - 1], p))
  }

  /** Whenever a tick cleared the flag, the process was in the cgroup that had been
      throttled. */
  ghost predicate ClearedInPlace(s: State, os: seq<Obs>, p: Params)
  {
    |os| > 0 ==>
      var (before, o) := (os[..|os| - 1], os[|os| - 1]);
      && ClearedInPlace(s, before, p)
      && (RunOf(s, before, p).cpuThrottled && !RunOf(s, os, p).cpuThrottled ==> o.cgroup == ThrottledOn(s, before, p))
  }

  /** How a process stops being tracked: not yet, by exiting, which emits nothing,
      or by a shutdown, which restores the cgroup a throttled process has then. */
  datatype Ending = Running | Exited | ShutDown

  ghost function EndEmits(s: State, e: Ending): seq<Throttling>
  {
    if e.ShutDown? && s.cpuThrottled && s.cgroup.Some? then [Restore(s.cgroup.value)] else []
  }

  /** No throttle is left behind, neither on the way nor at the end. */
  ghost predicate EveryThrottleUndone(s: State, os: seq<Obs>, e: Ending, p: Params)
  {
    && Tracks(s, os, p)
    && (e != Running ==> Slowed(Emissions(s, os, p) + EndEmits(RunOf(s, os, p), e)) == {})
  }

  /** What a tick emits when it flips the flag, in whatever cgroup the process is. */
  lemma FlagTick(s: State, o: Obs, p: Params)
    requires s.phase == Observing ==> !s.cpuThrottled
    ensures var (s', es) := (Tick(s, o, p), TickEmits(s, o, p));
      && (s'.phase == Observing ==> !s'.cpuThrottled)
      && s'.cgroup == o.cgroup
      && (s'.cpuThrottled && !s.cpuThrottled ==> o.cgroup.Some?)
      && es == if s.cpuThrottled == s'.cpuThrottled || o.cgroup.None? then []
               else if s.cpuThrottled then [Restore(o.cgroup.value)]
               else [Throttle(o.cgroup.value)]
  {
    SampledKeeps(s, o, p);
    hide Sampled, Scaled, IsIdleTick;
  }

  lemma SlowedAppends(es: seq<Throttling>, more: seq<Throttling>)
    requires |more| <= 1
    ensures Slowed(es + more) == if |more| == 0 then Slowed(es) else SlowedBy(Slowed(es), more[0])
  {
    if |more| == 0 {
      assert es + more == es;
    } else {
      assert (es + more)[..|es|] == es;
    }
  }

  lemma {:induction false} FlagMeansThrottledOn(s: State, os: seq<Obs>, p: Params)
    requires s == New(s.pid, s.initialRss, s.cgroup)
    ensures RunOf(s, os, p).cpuThrottled <==> ThrottledOn(s, os, p).Some?
    ensures RunOf(s, os, p).phase == Observing ==> !RunOf(s, os, p).cpuThrottled
  {
    hide Tick, TickEmits;
    if |os| > 0 {
      FlagMeansThrottledOn(s, os[..|os| - 1], p);
      FlagTick(RunOf(s, os[..|os| - 1], p), os[|os| - 1], p);
    }
  }

  lemma {:induction false} TracksExactly(s: State, os: seq<Obs>, p: Params)
    requires s == New(s.pid, s.initialRss, s.cgroup)
    ensures Tracks(s, os, p) <==> ClearedInPlace(s, os, p)
  {
    hide Tick, TickEmits, Slowed;
    if |os| == 0 {
      SlowedNothing();
    } else {
      var (before, o) := (os[..|os| - 1], os[|os| - 1]);
      var prev := RunOf(s, before, p);
      TracksExactly(s, before, p);
      FlagMeansThrottledOn(s, before, p);
      FlagTick(prev, o, p);
      SlowedAppends(Emissions(s, before, p), TickEmits(prev, o, p));
    }
  }

  lemma SlowedNothing()
    ensures Slowed([]) == {}
  {
  }

  /** Every throttle of a process is undone exactly when each tick that clears its
      flag finds it in the cgroup that was throttled, and it neither exits while
      throttled nor is shut down in another cgroup. */
  lemma ThrottleUndoneExactly(s: State, os: seq<Obs>, e: Ending, p: Params)
    requires s == New(s.pid, s.initialRss, s.cgroup)
    ensures EveryThrottleUndone(s, os, e, p) <==>
      && ClearedInPlace(s, os, p)
      && (e.Exited? ==> !RunOf(s, os, p).cpuThrottled)
      && (e.ShutDown? && RunOf(s, os, p).cpuThrottled ==> RunOf(s, os, p).cgroup == ThrottledOn(s, os, p))
  {
    TracksExactly(s, os, p);
    FlagMeansThrottledOn(s, os, p);
    hide RunOf, Slowed, Emissions, ThrottledOn, ClearedInPlace;
    if Tracks(s, os, p) {
      TracksMeans(s, os, p);
      EndUndoes(Emissions(s, os, p), RunOf(s, os, p), ThrottledOn(s, os, p), e);
    }
    hide Tracks, EndEmits;
  }

  lemma EndUndoes(es: seq<Throttling>, end: State, on: Option<string>, e: Ending)
    requires Slowed(es) == SetOf(on) && (end.cpuThrottled <==> on.Some?)
    ensures e != Running ==>
      (Slowed(es + EndEmits(end, e)) == {} <==>
        (e.Exited? ==> !end.cpuThrottled) && (e.ShutDown? && end.cpuThrottled ==> end.cgroup == on))
  {
    SlowedAppends(es, EndEmits(end, e));
    hide Slowed;
    if end.cpuThrottled {
      assert on.value in SetOf(on);
      assert end.cgroup == on ==> SetOf(on) - {end.cgroup.value} == {};
      assert end.cgroup.Some? && end.cgroup != on ==> on.value in SetOf(on) - {end.cgroup.value};
    } else {
      assert EndEmits(end, e) == [];
    }
  }

  lemma TracksMeans(s: State, os: seq<Obs>, p: Params)
    requires Tracks(s, os, p)
    ensures Slowed(Emissions(s, os, p)) == SetOf(ThrottledOn(s, os, p))
  {
  }

  // A process that spikes in cgroup "a" and is quiet again in cgroup "b".

  const SMALL := Params(60, 0, 0, 0, 1.0, 1, 1.5, 80.0, 0.0, 0, 3, n => false, n => false)
  const SPIKE := New(7, 5, Some("a"))
  const PEAK := Obs(0, 10, 0, 100.0, Some("a"), false)
  const VALLEY := Obs(1000, 1, 0, 100.0, Some("a"), false)
  const ELSEWHERE := Obs(2000, 1, 0, 0.0, Some("b"), false)

  const AT_PEAK := SPIKE.(samples := [Stamped(10, 0)], rssMax := 10, hasPeaked := true)
  const THROTTLED := AT_PEAK.(samples := [Stamped(10, 0), Stamped(1, 1000)], phase := Tracking, hasOscillated := true,
                              cpuThrottled := true)

  lemma SmallSample(s: State, o: Obs, rssMax: Kb)
    requires InOrder(s.samples + [Stamped(o.rss, o.now)]) && o.now <= 60000
    requires MaxRss(s.samples + [Stamped(o.rss, o.now)]) == rssMax
    ensures Sampled(s, o, SMALL) == s.(cgroup := o.cgroup, samples := s.samples + [Stamped(o.rss, o.now)], rssMax := rssMax)
  {
    KeptIsSuffix(s.samples + [Stamped(o.rss, o.now)], o.now, SMALL.Window(), 0);
    hide MaxRss, Kept;
  }

  lemma PeakTick()
    ensures Tick(SPIKE, PEAK, SMALL) == AT_PEAK && TickEmits(SPIKE, PEAK, SMALL) == []
  {
    SmallSample(SPIKE, PEAK, 10);
    hide Sampled;
  }

  lemma ValleyTick()
    ensures Tick(AT_PEAK, VALLEY, SMALL) == THROTTLED && TickEmits(AT_PEAK, VALLEY, SMALL) == [Throttle("a")]
  {
    SmallSample(AT_PEAK, VALLEY, 10);
    hide Sampled, MaxRss;
  }

  lemma ElsewhereTick()
    ensures TickEmits(THROTTLED, ELSEWHERE, SMALL) == [Restore("b")] && !Tick(THROTTLED, ELSEWHERE, SMALL).cpuThrottled
  {
    SmallSample(THROTTLED, ELSEWHERE, 10);
    hide Sampled, MaxRss, Scaled;
  }

  /** Its second decision restores a cgroup that was never throttled and leaves the
      throttled one as it is. */
  lemma MovedSpikeLeavesThrottle()
    ensures var os := [PEAK, VALLEY, ELSEWHERE];
      && Emissions(SPIKE, os, SMALL) == [Throttle("a"), Restore("b")]
      && Slowed(Emissions(SPIKE, os, SMALL)) == {"a"}
      && !RunOf(SPIKE, os, SMALL).cpuThrottled
  {
    hide Tick, TickEmits;
    PeakTick();
    ValleyTick();
    ElsewhereTick();
    assert [PEAK, VALLEY, ELSEWHERE][..2] == [PEAK, VALLEY] && [PEAK, VALLEY][..1] == [PEAK] && [PEAK][..0] == [];
    assert RunOf(SPIKE, [PEAK], SMALL) == AT_PEAK && Emissions(SPIKE, [PEAK], SMALL) == [];
    assert RunOf(SPIKE, [PEAK, VALLEY], SMALL) == THROTTLED;
    assert Emissions(SPIKE, [PEAK, VALLEY], SMALL) == [Throttle("a")];
    SlowedNothing();
    SlowedAppends([], [Throttle("a")]);
    SlowedAppends([Throttle("a")], [Restore("b")]);
    assert [] + [Throttle("a")] == [Throttle("a")] && [Throttle("a")] + [Restore("b")] == [Throttle("a"), Restore("b")];
    assert "a" != "b";
  }
}
