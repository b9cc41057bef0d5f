/** The pressure controller: composite score, damped state machine, swap timer. */
module Scoring {
  import opened Types
  import Psi

  datatype ControlState = Calm | Warning | Evicting | Critical | Emergency
  {
    function Rank(): nat
    {
      match this
      case Calm => 0
      case Warning => 1
      case Evicting => 2
      case Critical => 3
      case Emergency => 4
    }
  }

  function TargetStateFor(score: real, trend: real, psiSome10: real, swapIoKbs: real): ControlState
  {
    if score >= 0.70 || (score >= 0.55 && trend > 0.05) then Emergency
    else if score >= 0.50 || (score >= 0.35 && trend > 0.03) then Critical
    else if score >= 0.30 || (score >= 0.20 && trend > 0.02) then Evicting
    else if score >= 0.15 then
      if psiSome10 > 0.5 || swapIoKbs > 1000.0 then Warning else Calm
    else Calm
  }

  // ── damping as a function of history ─────────────────────────────────────

  datatype Input = Input(target: ControlState, trend: real)

  /** How many of the last inputs in a row ask for the same target. */
  ghost function TrailingRun(h: seq<Input>): nat
  {
    var n := |h|;
    if n == 0 then 0
    else if n == 1 || h[n - 1].target != h[n - 2].target then 1
    else 1 + TrailingRun(h[..n - 1])
  }

  /** The jump that skips damping. */
  ghost predicate Instant(current: ControlState, x: Input)
  {
    x.target.Rank() > current.Rank() && x.target in {Emergency, Critical} && x.trend > 0.08
  }

  /** Consecutive requests a change of state needs. */
  ghost function Need(current: ControlState, target: ControlState): nat
  {
    if target.Rank() > current.Rank() then 2
    else match target
      case Calm => 12
      case Warning => 6
      case _ => 4
  }

  /** The last input of `h` moves a machine that was in `current` before it. */
  ghost predicate Switches(current: ControlState, h: seq<Input>)
    requires |h| > 0
  {
    var x := h[|h| - 1];
    x.target != current && (Instant(current, x) || TrailingRun(h) >= Need(current, x.target))
  }

  /** The state a history of inputs leads to from Calm. No counter, no pending
      state: only the inputs are consulted. */
  ghost function StateAfter(h: seq<Input>): ControlState
  {
    if |h| == 0 then Calm
    else
      var before := StateAfter(h[..|h| - 1]);
      if Switches(before, h) then h[|h| - 1].target else before
  }

  lemma OneMore(h: seq<Input>, x: Input)
    ensures TrailingRun(h + [x]) == if |h| > 0 && h[|h| - 1].target == x.target then TrailingRun(h) + 1 else 1
    ensures StateAfter(h + [x]) == if Switches(StateAfter(h), h + [x]) then x.target else StateAfter(h)
  {
    assert (h + [x])[..|h|] == h;
  }

  class StateMachine {
    var current: ControlState
    var pending: ControlState
    var pendingTicks: nat
    ghost var history: seq<Input>

    /** The counter is the length of the trailing run while it asks for a
        change, and zero otherwise. */
    ghost predicate Valid()
      reads this
    {
      && current == StateAfter(history)
      && pending == (if |history| == 0 then Calm else history[|history| - 1].target)
      && pendingTicks == (if pending == current then 0 else TrailingRun(history))
      && (pending != current ==> pendingTicks < Need(current, pending))
    }

    constructor ()
      ensures Valid() && history == [] && current == Calm
    {
      current, pending, pendingTicks, history := Calm, Calm, 0, [];
    }

    /** Advances one tick; the result reports an instant escalation. */
    method Advance(target: ControlState, trend: real) returns (instant: bool)
      requires Valid()
      modifies this
      ensures Valid() && history == old(history) + [Input(target, trend)]
      ensures current != old(current) <==> Switches(old(current), history)
      ensures current == old(current) || current == target
      ensures instant <==> Instant(old(current), Input(target, trend))
      ensures pendingTicks == 0 <==> pending == current
    {
      OneMore(history, Input(target, trend));
      history := history + [Input(target, trend)];
      instant := false;
      if target.Rank() > current.Rank() {
        if (target == Emergency || target == Critical) && trend > 0.08 {
          current, pending, pendingTicks := target, target, 0;
          return true;
        }
        if target == pending {
          pendingTicks := pendingTicks + 1;
          if pendingTicks >= 2 {
            current, pendingTicks := target, 0;
          }
        } else {
          pending, pendingTicks := target, 1;
        }
      } else if target.Rank() < current.Rank() {
        var required := match target
          case Calm => 12
          case Warning => 6
          case _ => 4;
        if target == pending {
          pendingTicks := pendingTicks + 1;
          if pendingTicks >= required {
            current, pendingTicks := target, 0;
          }
        } else {
          pending, pendingTicks := target, 1;
        }
      } else {
        pending, pendingTicks := current, 0;
      }
    }
  }

  /** However the machine got where it is, a target asked for `Need` times in a
      row is the state; while it is not, the run is still too short. */
  lemma {:induction false} PersistentTargetWins(h: seq<Input>)
    requires |h| > 0
    ensures StateAfter(h) != h[|h| - 1].target ==> TrailingRun(h) < Need(StateAfter(h), h[|h| - 1].target)
    ensures TrailingRun(h) >= 12 ==> StateAfter(h) == h[|h| - 1].target
  {
    if |h| > 1 {
      PersistentTargetWins(h[..|h| - 1]);
    }
  }

  /** A run of equal targets changes the state when it is two long upwards, and
      downwards twelve long for Calm, six for Warning and four otherwise; a sharp
      trend towards Critical or worse changes it at once. */
  lemma {:induction false} RunsChangeTheState(h: seq<Input>, k: nat)
    requires 0 < k == TrailingRun(h) <= |h|
    ensures var (from, target) := (StateAfter(h[..|h| - k]), h[|h| - 1].target);
      var sharp := target.Rank() > from.Rank() && target.Rank() >= 3 && exists i :: |h| - k <= i < |h| && h[i].trend > 0.08;
      StateAfter(h) ==
        if sharp || k >= (if target.Rank() > from.Rank() then 2 else if target == Calm then 12 else if target == Warning then 6 else 4)
        then target else from
  {
    var n := |h| - 1;
    var shorter := h[..n];
    if k > 1 {
      RunsChangeTheState(shorter, k - 1);
      assert shorter[..|shorter| - (k - 1)] == h[..|h| - k];
      assert forall i :: |h| - k <= i < n ==> shorter[i] == h[i];
    }
  }

  // ── oscillation bounds ───────────────────────────────────────────────────

  ghost function Before(h: seq<Input>): ControlState
    requires |h| > 0
  {
    StateAfter(h[..|h| - 1])
  }

  ghost function Drops(h: seq<Input>): nat
  {
    if |h| == 0 then 0
    else Drops(h[..|h| - 1]) + if StateAfter(h).Rank() < Before(h).Rank() then 1 else 0
  }

  ghost function Rises(h: seq<Input>): nat
  {
    if |h| == 0 then 0
    else Rises(h[..|h| - 1]) + if StateAfter(h).Rank() > Before(h).Rank() then 1 else 0
  }

  /** Ranks given up by all drops together. */
  ghost function Fallen(h: seq<Input>): nat
  {
    if |h| == 0 then 0
    else
      var (a, b) := (Before(h).Rank(), StateAfter(h).Rank());
      Fallen(h[..|h| - 1]) + if b < a then a - b else 0
  }

  /** Ticks already spent on a drop that has not happened yet. */
  ghost function Spent(h: seq<Input>): nat
  {
    if |h| > 0 && h[|h| - 1].target.Rank() < StateAfter(h).Rank() then TrailingRun(h) else 0
  }

  /** Every drop pays for itself: four ticks at least, two for each rank. */
  lemma {:induction false} DropsArePaidFor(h: seq<Input>)
    ensures 4 * Drops(h) + Spent(h) <= |h|
    ensures 2 * Fallen(h) + Spent(h) <= |h|
    ensures Rises(h) <= StateAfter(h).Rank() + Fallen(h)
  {
    if |h| > 0 {
      var g := h[..|h| - 1];
      DropsArePaidFor(g);
      if |g| > 0 {
        PersistentTargetWins(g);
      }
      PersistentTargetWins(h);
      var x := h[|h| - 1].target;
      if x.Rank() < StateAfter(g).Rank() {
        assert TrailingRun(h) <= Spent(g) + 1;
        if Switches(StateAfter(g), h) {
          var need := Need(StateAfter(g), x);
          assert need >= 4 && need >= 2 * (StateAfter(g).Rank() - x.Rank());
        }
      }
    }
  }

  /** From Calm, `n` ticks hold at most n/4 de-escalations and 4 + n/2 escalations. */
  lemma OscillationBound(h: seq<Input>)
    ensures Drops(h) <= |h| / 4
    ensures Rises(h) <= 4 + |h| / 2
  {
    DropsArePaidFor(h);
  }

  // ── composite score ──────────────────────────────────────────────────────

  function Clamp01(x: real): real { if x < 0.0 then 0.0 else if x > 1.0 then 1.0 else x }

  datatype MemInfo = MemInfo(available: Kb, total: Kb, swapFree: Kb, swapTotal: Kb)
  {
    function SwapUsedPct(): (pct: real)
      ensures 0.0 <= pct <= 100.0
      ensures swapTotal > 0 ==> (pct == 100.0 <==> swapFree == 0)
    {
      if swapTotal == 0 then 0.0
      else
        var used := SatSub(swapTotal, swapFree);
        var ratio := used as real / swapTotal as real;
        assert ratio <= 1.0 by { assert used as real <= swapTotal as real; }
        assert ratio == 1.0 <==> used == swapTotal;
        ratio * 100.0
    }
  }

  /** The percentage is the used part of the total; free beyond total counts as none. */
  lemma UsedPctExactly(m: MemInfo)
    ensures m.swapTotal == 0 ==> m.SwapUsedPct() == 0.0
    ensures m.SwapUsedPct() * m.swapTotal as real ==
      if m.swapFree <= m.swapTotal then 100.0 * (m.swapTotal - m.swapFree) as real else 0.0
  {
  }

  /** The weighted score of four fractions, each clamped first. */
  function Composite(psi: real, swap: real, gpu: real, io: real): (score: real)
    ensures 0.0 <= score <= 1.0
    ensures psi >= 1.0 && swap >= 1.0 && gpu >= 1.0 && io >= 1.0 <==> score == 1.0
    ensures psi <= 0.0 && swap <= 0.0 && gpu <= 0.0 && io <= 0.0 <==> score == 0.0
  {
    0.55 * Clamp01(psi) + 0.20 * Clamp01(swap) + 0.15 * Clamp01(gpu) + 0.10 * Clamp01(io)
  }

  /** A worse reading never lowers the score, and without stalls the rest together
      stays below the bar of Critical. */
  lemma CompositeIsMonotone(a: (real, real, real, real), b: (real, real, real, real))
    requires a.0 <= b.0 && a.1 <= b.1 && a.2 <= b.2 && a.3 <= b.3
    ensures Composite(a.0, a.1, a.2, a.3) <= Composite(b.0, b.1, b.2, b.3)
    ensures a.0 <= 0.0 ==> Composite(a.0, a.1, a.2, a.3) < 0.50
  {
  }

  /** The documented shares: each reading contributes alone and in proportion, in full
      55, 20, 15 and 10 percent. */
  lemma SharesAdd(psi: real, swap: real, gpu: real, io: real)
    ensures Composite(psi, swap, gpu, io)
         == Composite(psi, 0.0, 0.0, 0.0) + Composite(0.0, swap, 0.0, 0.0)
          + Composite(0.0, 0.0, gpu, 0.0) + Composite(0.0, 0.0, 0.0, io)
    ensures 0.0 <= psi <= 1.0 ==> Composite(psi, 0.0, 0.0, 0.0) == 0.55 * psi
    ensures 0.0 <= swap <= 1.0 ==> Composite(0.0, swap, 0.0, 0.0) == 0.20 * swap
    ensures 0.0 <= gpu <= 1.0 ==> Composite(0.0, 0.0, gpu, 0.0) == 0.15 * gpu
    ensures 0.0 <= io <= 1.0 ==> Composite(0.0, 0.0, 0.0, io) == 0.10 * io
  {
  }

  datatype CycleScore = CycleScore(score: real, trend: real, swapIoKbs: real, gpuVal: real)

  class ScoreTracker {
    var lastScore: real
    var lastTime: Time
    var lastPswpin: U64
    var lastPswpout: U64

    constructor (now: Time, pswpin: U64, pswpout: U64)
      ensures lastScore == 0.0 && lastTime == now && lastPswpin == pswpin && lastPswpout == pswpout
    {
      lastScore, lastTime, lastPswpin, lastPswpout := 0.0, now, pswpin, pswpout;
    }

    /** Folds one cycle's readings in. The score stays within the unit interval;
        too short a cycle contributes neither swap rate nor trend. */
    method UpdateWith(some10: real, mem: MemInfo, pswpin: U64, pswpout: U64, totalGpu: Kb, now: Time)
      returns (c: CycleScore)
      modifies this
      ensures c.score == Composite(
                some10 / 100.0, mem.SwapUsedPct() / 100.0,
                if mem.total > 0 then totalGpu as real / mem.total as real else 0.0, c.swapIoKbs / 51200.0)
      ensures c.gpuVal == Clamp01(if mem.total > 0 then totalGpu as real / mem.total as real else 0.0)
      ensures lastScore == c.score && lastTime == now && lastPswpin == pswpin && lastPswpout == pswpout
      ensures Elapsed(now, old(lastTime)) <= 100 ==> c.trend == 0.0 && c.swapIoKbs == 0.0
      ensures Elapsed(now, old(lastTime)) > 100 ==>
                c.trend * (Elapsed(now, old(lastTime)) as real / 1000.0) == c.score - old(lastScore)
      ensures Elapsed(now, old(lastTime)) > 100 ==>
                c.swapIoKbs * (Elapsed(now, old(lastTime)) as real / 1000.0)
                == (4 * SatAdd(SatSub(pswpin, old(lastPswpin)), SatSub(pswpout, old(lastPswpout)))) as real
    {
      var elapsed := Elapsed(now, lastTime);
      var dt := elapsed as real / 1000.0;
      var pages: nat := SatAdd(SatSub(pswpin, lastPswpin), SatSub(pswpout, lastPswpout));
      lastPswpin, lastPswpout := pswpin, pswpout;
      var ioKbs := if dt > 0.1 then (pages * 4) as real / dt else 0.0;
      var gpuVal := if mem.total > 0 then Clamp01(totalGpu as real / mem.total as real) else 0.0;
      var swapVal := if mem.swapTotal > 0 then Clamp01(mem.SwapUsedPct() / 100.0) else 0.0;
      var score := 0.55 * Clamp01(some10 / 100.0) + 0.20 * swapVal + 0.15 * gpuVal + 0.10 * Clamp01(ioKbs / 51200.0);
      var trend := if dt > 0.1 then (score - lastScore) / dt else 0.0;
      lastScore, lastTime := score, now;
      c := CycleScore(score, trend, ioKbs, gpuVal);
    }
  }

  /** A worse reading never asks for a calmer state. */
  lemma TargetIsMonotone(s: real, t: real, p: real, w: real, s': real, t': real, p': real, w': real)
    requires s <= s' && t <= t' && p <= p' && w <= w'
    ensures TargetStateFor(s, t, p, w).Rank() <= TargetStateFor(s', t', p', w').Rank()
  {
  }

  /** The least score that asks for a state or a worse one. A rising trend lowers it;
      Warning needs a stall or swap traffic. */
  function Bar(state: ControlState, trend: real, live: bool): real
  {
    match state
    case Calm => 0.0
    case Warning => if live then 0.15 else if trend > 0.02 then 0.20 else 0.30
    case Evicting => if trend > 0.02 then 0.20 else 0.30
    case Critical => if trend > 0.03 then 0.35 else 0.50
    case Emergency => if trend > 0.05 then 0.55 else 0.70
  }

  lemma TargetReachesBar(state: ControlState, score: real, trend: real, psiSome10: real, swapIoKbs: real)
    requires 0.0 <= score
    ensures TargetStateFor(score, trend, psiSome10, swapIoKbs).Rank() >= state.Rank() <==>
      score >= Bar(state, trend, psiSome10 > 0.5 || swapIoKbs > 1000.0)
  {
  }

  /** Swap that merely sits full, with nothing stalling and nothing moving, asks
      for Calm unless the score jumps; with a full swap the exact bar is a trend
      above 0.02. */
  lemma StaleSwapAsksForCalm(mem: MemInfo, trend: real)
    ensures var t := TargetStateFor(Composite(0.0, mem.SwapUsedPct() / 100.0, 0.0, 0.0), trend, 0.0, 0.0);
      t == Calm || (t == Evicting && mem.swapTotal > 0 && mem.swapFree == 0 && trend > 0.02)
    ensures mem.swapTotal > 0 && mem.swapFree == 0 && trend > 0.02 ==>
      TargetStateFor(Composite(0.0, mem.SwapUsedPct() / 100.0, 0.0, 0.0), trend, 0.0, 0.0) == Evicting
  {
  }

  // ── swap overrides and the 45 s timer ────────────────────────────────────

  function MaxLevel(a: Psi.Level, b: Psi.Level): Psi.Level { if a.AtLeast(b) then a else b }

  function ApplySwapOverrides(level: Psi.Level, swapUsedPct: real, swapTotal: Kb, start: Option<Time>, now: Time)
    : (Psi.Level, Option<Time>)
  {
    var exhausted := swapTotal > 0 && swapUsedPct >= 95.0;
    var effective := if exhausted && !level.AtLeast(Psi.Critical) then Psi.Critical else level;
    var nearFull := swapTotal > 0 && swapUsedPct >= 98.0;
    var sustained :=
      if nearFull && effective.AtLeast(Psi.Critical) then
        if start.Some? then start else Some(now)
      else if effective.AtLeast(Psi.Emergency) then start
      else None;
    if sustained.Some? && AsSecs(Elapsed(now, sustained.value)) >= 45 && !effective.AtLeast(Psi.Emergency) then
      (Psi.Emergency, sustained)
    else
      (effective, sustained)
  }

  /** One full controller cycle, as the timer sees it. */
  datatype Cycle = Cycle(level: Psi.Level, swapUsedPct: real, swapTotal: Kb, now: Time)
  {
    predicate NearFull() { swapTotal > 0 && swapUsedPct >= 98.0 }
    predicate Exhausted() { swapTotal > 0 && swapUsedPct >= 95.0 }
    /** The timer survives this cycle. */
    predicate Keeps() { NearFull() || level == Psi.Emergency }
  }

  ghost predicate ClockRuns(cs: seq<Cycle>)
  {
    forall i, j :: 0 <= i <= j < |cs| ==> cs[i].now <= cs[j].now
  }

  /** The timer after a run that began with none. */
  function TimerAfter(cs: seq<Cycle>): Option<Time>
  {
    if |cs| == 0 then None
    else
      var c := cs[|cs| - 1];
      ApplySwapOverrides(c.level, c.swapUsedPct, c.swapTotal, TimerAfter(cs[..|cs| - 1]), c.now).1
  }

  /** The level the last cycle of the run comes out with. */
  function LevelOut(cs: seq<Cycle>): Psi.Level
    requires |cs| > 0
  {
    var c := cs[|cs| - 1];
    ApplySwapOverrides(c.level, c.swapUsedPct, c.swapTotal, TimerAfter(cs[..|cs| - 1]), c.now).0
  }

  /** Swap was near full at cycle `i` and nothing reset the timer since. */
  ghost predicate HeldSince(cs: seq<Cycle>, i: int)
  {
    0 <= i < |cs| && cs[i].NearFull() && forall k :: i <= k < |cs| ==> cs[k].Keeps()
  }

  lemma HoldStep(cs: seq<Cycle>, i: int)
    requires |cs| > 0
    ensures HeldSince(cs, i) <==>
      || (i == |cs| - 1 && cs[i].NearFull())
      || (HeldSince(cs[..|cs| - 1], i) && cs[|cs| - 1].Keeps())
  {
    var before := cs[..|cs| - 1];
    assert forall k :: 0 <= k < |before| ==> cs[k] == before[k];
  }

  /** The timer is the earliest near-full cycle held ever since. */
  lemma {:induction false} TimerIsEarliestHold(cs: seq<Cycle>)
    requires ClockRuns(cs)
    ensures TimerAfter(cs).None? ==> forall i :: !HeldSince(cs, i)
    ensures TimerAfter(cs).Some? ==> exists i :: HeldSince(cs, i) && cs[i].now == TimerAfter(cs).value
    ensures TimerAfter(cs).Some? ==> forall i :: HeldSince(cs, i) ==> TimerAfter(cs).value <= cs[i].now
  {
    if |cs| > 0 {
      var n := |cs| - 1;
      var before := cs[..n];
      TimerIsEarliestHold(before);
      forall i ensures HeldSince(cs, i) <==> (i == n && cs[n].NearFull()) || (HeldSince(before, i) && cs[n].Keeps()) {
        HoldStep(cs, i);
      }
      if TimerAfter(before).Some? {
        var w :| HeldSince(before, w) && before[w].now == TimerAfter(before).value;
        assert cs[w].now <= cs[n].now;
        if cs[n].Keeps() {
          assert HeldSince(cs, w) && cs[w].now == TimerAfter(cs).value;
        }
      } else if cs[n].NearFull() {
        assert HeldSince(cs, n);
      }
    }
  }

  /** The whole override, both ways: Emergency comes out exactly when it went in
      or swap has been held near full for 45 s; otherwise exhausted swap lifts
      the level to Critical and nothing else changes it. */
  lemma SwapOverrideExactly(cs: seq<Cycle>)
    requires |cs| > 0 && ClockRuns(cs)
    ensures var last := cs[|cs| - 1];
      LevelOut(cs) == Psi.Emergency <==>
        || last.level == Psi.Emergency
        || exists i :: HeldSince(cs, i) && AsSecs(Elapsed(last.now, cs[i].now)) >= 45
    ensures var last := cs[|cs| - 1];
      LevelOut(cs) != Psi.Emergency ==>
        LevelOut(cs) == if last.Exhausted() then MaxLevel(last.level, Psi.Critical) else last.level
    ensures LevelOut(cs).AtLeast(cs[|cs| - 1].level)
  {
    TimerIsEarliestHold(cs);
    var last := cs[|cs| - 1];
    var timer := TimerAfter(cs);
    if timer.Some? {
      var i :| HeldSince(cs, i) && cs[i].now == timer.value;
      forall j | HeldSince(cs, j) ensures AsSecs(Elapsed(last.now, cs[j].now)) <= AsSecs(Elapsed(last.now, cs[i].now)) {
        assert cs[i].now <= cs[j].now <= last.now;
      }
    }
  }
}
