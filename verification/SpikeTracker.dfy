/** Spike mode's tracker: which processes spike, which victims are held for them. */
module SpikeTracker {
  import opened Types
  import opened Collections
  import opened Window
  import opened SpikeState
  import opened VictimLog

  datatype Decision =
    | FreezeForHeadroom(needed: Kb)
    | ThrottleSpike(pid: Pid, cgroup: string)
    | RestoreThrottle(pid: Pid, cgroup: string)
    | ReleaseVictims(victims: seq<Victim>)

  /** The throttle decisions about one process, in order. */
  ghost function ThrottlesOf(ds: seq<Decision>, pid: Pid): seq<Throttling>
  {
    if |ds| == 0 then []
    else
      var d := ds[|ds| - 1];
      ThrottlesOf(ds[..|ds| - 1], pid)
        + if d.ThrottleSpike? && d.pid == pid then [Throttle(d.cgroup)]
          else if d.RestoreThrottle? && d.pid == pid then [Restore(d.cgroup)]
          else []
  }

  ghost function FreezesIn(ds: seq<Decision>): seq<Decision>
  {
    if |ds| == 0 then []
    else FreezesIn(ds[..|ds| - 1]) + if ds[|ds| - 1].FreezeForHeadroom? then [ds[|ds| - 1]] else []
  }

  ghost function ReleasesIn(ds: seq<Decision>): seq<Decision>
  {
    if |ds| == 0 then []
    else ReleasesIn(ds[..|ds| - 1]) + if ds[|ds| - 1].ReleaseVictims? then [ds[|ds| - 1]] else []
  }

  lemma {:induction false} FreezesAppend(xs: seq<Decision>, ys: seq<Decision>)
    ensures FreezesIn(xs + ys) == FreezesIn(xs) + FreezesIn(ys)
  {
    if |ys| == 0 {
      assert xs + ys == xs;
    } else {
      FreezesAppend(xs, ys[..|ys| - 1]);
      assert (xs + ys)[..|xs + ys| - 1] == xs + ys[..|ys| - 1];
    }
  }

  lemma {:induction false} ReleasesAppend(xs: seq<Decision>, ys: seq<Decision>)
    ensures ReleasesIn(xs + ys) == ReleasesIn(xs) + ReleasesIn(ys)
  {
    if |ys| == 0 {
      assert xs + ys == xs;
    } else {
      ReleasesAppend(xs, ys[..|ys| - 1]);
      assert (xs + ys)[..|xs + ys| - 1] == xs + ys[..|ys| - 1];
    }
  }

  lemma {:induction false} ThrottlesOnly(ds: seq<Decision>)
    requires forall d :: d in ds ==> d.ThrottleSpike? || d.RestoreThrottle?
    ensures FreezesIn(ds) == [] && ReleasesIn(ds) == []
  {
    if |ds| > 0 {
      assert ds[|ds| - 1] in ds;
      ThrottlesOnly(ds[..|ds| - 1]);
    }
  }

  lemma SingleFilters(ds: seq<Decision>)
    requires |ds| <= 1
    ensures FreezesIn(ds) == if |ds| == 1 && ds[0].FreezeForHeadroom? then ds else []
    ensures ReleasesIn(ds) == if |ds| == 1 && ds[0].ReleaseVictims? then ds else []
  {
    assert |ds| == 1 ==> ds == [ds[0]] && ds[..0] == [];
  }

  lemma SingleIsNoThrottle(ds: seq<Decision>, pid: Pid)
    requires |ds| <= 1
    requires |ds| == 1 ==> ds[0].ReleaseVictims? || ds[0].FreezeForHeadroom?
    ensures ThrottlesOf(ds, pid) == []
  {
    assert |ds| == 1 ==> ds[..0] == [];
  }

  /** The decisions of one update, put together in the order they are made. */
  ghost predicate Composed(
    ds: seq<Decision>, restores: seq<Decision>, releases: seq<Decision>, headroom: seq<Decision>, cpu: seq<Decision>)
  {
    && FreezesIn(ds) == headroom
    && ReleasesIn(ds) == releases
    && forall pid :: ThrottlesOf(ds, pid) == ThrottlesOf(restores, pid) + ThrottlesOf(cpu, pid)
  }

  lemma DecisionsCompose(restores: seq<Decision>, releases: seq<Decision>, headroom: seq<Decision>, cpu: seq<Decision>)
    requires forall d :: d in restores ==> d.RestoreThrottle?
    requires releases == [] || (|releases| == 1 && releases[0].ReleaseVictims?)
    requires headroom == [] || (|headroom| == 1 && headroom[0].FreezeForHeadroom?)
    requires forall d :: d in cpu ==> d.ThrottleSpike? || d.RestoreThrottle?
    ensures Composed(restores + releases + headroom + cpu, restores, releases, headroom, cpu)
  {
    ThrottlesOnly(restores);
    ThrottlesOnly(cpu);
    SingleFilters(releases);
    SingleFilters(headroom);
    hide FreezesIn, ReleasesIn, ThrottlesOf;
    FiltersCompose(restores, releases, headroom, cpu);
    forall pid ensures ThrottlesOf(restores + releases + headroom + cpu, pid) == ThrottlesOf(restores, pid) + ThrottlesOf(cpu, pid) {
      ThrottlesCompose(restores, releases, headroom, cpu, pid);
    }
  }

  lemma FiltersCompose(restores: seq<Decision>, releases: seq<Decision>, headroom: seq<Decision>, cpu: seq<Decision>)
    requires FreezesIn(restores) == FreezesIn(releases) == FreezesIn(cpu) == [] && FreezesIn(headroom) == headroom
    requires ReleasesIn(restores) == ReleasesIn(headroom) == ReleasesIn(cpu) == [] && ReleasesIn(releases) == releases
    ensures FreezesIn(restores + releases + headroom + cpu) == headroom
    ensures ReleasesIn(restores + releases + headroom + cpu) == releases
  {
    hide FreezesIn, ReleasesIn;
    FreezesAppend(restores, releases);
    FreezesAppend(restores + releases, headroom);
    FreezesAppend(restores + releases + headroom, cpu);
    ReleasesAppend(restores, releases);
    ReleasesAppend(restores + releases, headroom);
    ReleasesAppend(restores + releases + headroom, cpu);
  }

  lemma ThrottlesCompose(
    restores: seq<Decision>, releases: seq<Decision>, headroom: seq<Decision>, cpu: seq<Decision>, pid: Pid)
    requires |releases| <= 1 && (|releases| == 1 ==> releases[0].ReleaseVictims?)
    requires |headroom| <= 1 && (|headroom| == 1 ==> headroom[0].FreezeForHeadroom?)
    ensures ThrottlesOf(restores + releases + headroom + cpu, pid) == ThrottlesOf(restores, pid) + ThrottlesOf(cpu, pid)
  {
    SingleIsNoThrottle(releases, pid);
    SingleIsNoThrottle(headroom, pid);
    hide ThrottlesOf;
    ThrottlesAppend(restores, releases, pid);
    ThrottlesAppend(restores + releases, headroom, pid);
    ThrottlesAppend(restores + releases + headroom, cpu, pid);
  }

  /** The scan by process id. */
  ghost function ByPid(procs: seq<Process>): map<Pid, Process>
  {
    if |procs| == 0 then map[]
    else ByPid(procs[..|procs| - 1])[procs[|procs| - 1].pid := procs[|procs| - 1]]
  }

  lemma {:induction false} ByPidHolds(procs: seq<Process>)
    requires DistinctPids(procs)
    ensures forall pr :: pr in procs ==> pr.pid in ByPid(procs) && ByPid(procs)[pr.pid] == pr
    ensures forall pid :: pid in ByPid(procs) ==> ByPid(procs)[pid] in procs && ByPid(procs)[pid].pid == pid
  {
    if |procs| > 0 {
      var n := |procs| - 1;
      ByPidHolds(procs[..n]);
      assert procs == procs[..n] + [procs[n]];
    }
  }

  lemma ScannedPids(procs: seq<Process>)
    requires DistinctPids(procs) && forall pr :: pr in procs ==> pr.pid != PID_NONE
    ensures forall pid :: pid in ByPid(procs) ==> ByPid(procs)[pid].pid == pid != PID_NONE
  {
    ByPidHolds(procs);
  }

  lemma ByPidExtends(procs: seq<Process>, i: nat)
    requires DistinctPids(procs) && i < |procs|
    ensures ByPid(procs[..i + 1]) == ByPid(procs[..i])[procs[i].pid := procs[i]]
    ensures procs[i].pid !in ByPid(procs[..i])
  {
    assert procs[..i + 1][..i] == procs[..i];
    ByPidHolds(procs[..i]);
  }

  ghost function RssIn(scan: map<Pid, Process>): map<Pid, Kb> { map pid | pid in scan :: scan[pid].rss }

  ghost function MajfltIn(scan: map<Pid, Process>): map<Pid, U64> { map pid | pid in scan :: scan[pid].majflt }

  function RssDelta(prevRss: map<Pid, Kb>, pr: Process): Kb
  {
    SatSub(pr.rss, if pr.pid in prevRss then prevRss[pr.pid] else pr.rss)
  }

  function MajfltDelta(prevMajflt: map<Pid, U64>, pr: Process): U64
  {
    SatSub(pr.majflt, if pr.pid in prevMajflt then prevMajflt[pr.pid] else pr.majflt)
  }

  predicate IsCandidate(pr: Process, prevRss: map<Pid, Kb>, prevMajflt: map<Pid, U64>, p: Params)
  {
    && !p.excluded(pr.name)
    && (p.included(pr.name)
        || (pr.rss >= p.minRss && (RssDelta(prevRss, pr) > p.growthThreshold || MajfltDelta(prevMajflt, pr) > p.majfltThreshold)))
  }

  function Registered(pr: Process, prevRss: map<Pid, Kb>): State
  {
    New(pr.pid, if pr.pid in prevRss then prevRss[pr.pid] else pr.rss, pr.cgroup)
  }

  // ── the steps of an update, on all processes at once ─────────────────────

  ghost function AfterRegistration(
    spikes: map<Pid, State>, scan: map<Pid, Process>, prevRss: map<Pid, Kb>, prevMajflt: map<Pid, U64>, p: Params
  ): map<Pid, State>
  {
    spikes + map pid | pid in scan && pid !in spikes && IsCandidate(scan[pid], prevRss, prevMajflt, p) :: Registered(scan[pid], prevRss)
  }

  lemma RegistrationExtends(
    spikes: map<Pid, State>, scan: map<Pid, Process>, prevRss: map<Pid, Kb>, prevMajflt: map<Pid, U64>, p: Params,
    pr: Process)
    requires pr.pid !in scan
    ensures var before := AfterRegistration(spikes, scan, prevRss, prevMajflt, p);
      AfterRegistration(spikes, scan[pr.pid := pr], prevRss, prevMajflt, p) ==
        if pr.pid !in before && IsCandidate(pr, prevRss, prevMajflt, p) then before[pr.pid := Registered(pr, prevRss)] else before
  {
    hide IsCandidate, Registered;
  }

  /** Who is tracked after registration: who was, and every scanned process not
      excluded that is on the include list, or is large and has since the last scan
      grown, or faulted pages in, by more than its threshold. Its baseline is what it
      had at the last scan, so a process first seen at its peak can still peak. */
  lemma RegisteredExactly(
    spikes: map<Pid, State>, scan: map<Pid, Process>, prevRss: map<Pid, Kb>, prevMajflt: map<Pid, U64>, p: Params,
    pid: Pid)
    requires pid in scan ==> scan[pid].pid == pid
    ensures var (after, pr) := (AfterRegistration(spikes, scan, prevRss, prevMajflt, p), if pid in scan then Some(scan[pid]) else None);
      && (pid in after <==>
            || pid in spikes
            || (pr.Some? && !p.excluded(pr.value.name)
                && (p.included(pr.value.name)
                    || (pr.value.rss >= p.minRss
                        && ((pid in prevRss && pr.value.rss > prevRss[pid] + p.growthThreshold)
                            || (pid in prevMajflt && pr.value.majflt > prevMajflt[pid] + p.majfltThreshold))))))
      && (pid in spikes ==> after[pid] == spikes[pid])
      && (pid in after && pid !in spikes ==>
            && after[pid] == New(pid, after[pid].initialRss, pr.value.cgroup) && after[pid].phase == Observing
            && after[pid].initialRss == if pid in prevRss then prevRss[pid] else pr.value.rss)
  {
  }

  /** One update's readings besides the scan itself. */
  datatype Reading = Reading(prevRss: map<Pid, Kb>, foreground: Option<Pid>, now: Time, p: Params)
  {
    function ObsFor(pr: Process): Obs
    {
      Obs(now, pr.rss, RssDelta(prevRss, pr), pr.cpuPct, pr.cgroup, foreground == Some(pr.pid))
    }
  }

  ghost function AfterObservation(spikes: map<Pid, State>, scan: map<Pid, Process>, u: Reading): map<Pid, State>
  {
    map pid | pid in spikes :: if pid in scan then Observed(spikes[pid], u.ObsFor(scan[pid]), u.p) else spikes[pid]
  }

  ghost predicate AnyDemoted(spikes: map<Pid, State>, scan: map<Pid, Process>, u: Reading)
  {
    exists pid :: pid in spikes && pid in scan && IsDemoted(spikes[pid], u.ObsFor(scan[pid]), u.p)
  }

  ghost function DemotionsEmit(spikes: map<Pid, State>, scan: map<Pid, Process>, u: Reading, pid: Pid): seq<Throttling>
  {
    if pid in spikes && pid in scan then DemotionEmits(spikes[pid], u.ObsFor(scan[pid]), u.p) else []
  }

  lemma ObservationExtends(spikes: map<Pid, State>, scan: map<Pid, Process>, u: Reading, pr: Process)
    requires pr.pid !in scan
    ensures var (before, after) := (AfterObservation(spikes, scan, u), AfterObservation(spikes, scan[pr.pid := pr], u));
      && (pr.pid in before <==> pr.pid in spikes)
      && (pr.pid in spikes ==>
            before[pr.pid] == spikes[pr.pid] && after == before[pr.pid := Observed(spikes[pr.pid], u.ObsFor(pr), u.p)])
      && (pr.pid !in spikes ==> after == before)
    ensures AnyDemoted(spikes, scan[pr.pid := pr], u) <==>
      AnyDemoted(spikes, scan, u) || (pr.pid in spikes && IsDemoted(spikes[pr.pid], u.ObsFor(pr), u.p))
  {
    hide Observed, IsDemoted;
    if AnyDemoted(spikes, scan, u) {
      var pid :| pid in spikes && pid in scan && IsDemoted(spikes[pid], u.ObsFor(scan[pid]), u.p);
      assert pid in scan[pr.pid := pr];
    }
  }

  lemma DemotionAppends(
    ds: seq<Decision>, spikes: map<Pid, State>, scan: map<Pid, Process>, u: Reading, pr: Process,
    emits: seq<Throttling>)
    requires pr.pid !in scan && |emits| <= 1
    requires emits == if pr.pid in spikes then DemotionEmits(spikes[pr.pid], u.ObsFor(pr), u.p) else []
    requires forall pid :: ThrottlesOf(ds, pid) == DemotionsEmit(spikes, scan, u, pid)
    requires (forall d :: d in ds ==> d.RestoreThrottle?) && (|emits| == 1 ==> emits[0].Restore?)
    ensures var one := if |emits| == 0 then [] else [AsDecision(emits[0], pr.pid)]; forall d :: d in ds + one ==> d.RestoreThrottle?
    ensures var one := if |emits| == 0 then [] else [AsDecision(emits[0], pr.pid)];
      forall pid :: ThrottlesOf(ds + one, pid) == DemotionsEmit(spikes, scan[pr.pid := pr], u, pid)
  {
    var one := if |emits| == 0 then [] else [AsDecision(emits[0], pr.pid)];
    hide DemotionEmits, ThrottlesOf;
    forall pid ensures ThrottlesOf(ds + one, pid) == DemotionsEmit(spikes, scan[pr.pid := pr], u, pid) {
      if |emits| == 0 {
        assert ds + one == ds;
      } else {
        ThrottlesAppend(ds, one, pid);
        OneThrottle(emits[0], pr.pid, pid);
      }
    }
  }

  ghost function AfterCpuCheck(spikes: map<Pid, State>, scan: map<Pid, Process>, u: Reading): map<Pid, State>
  {
    map pid | pid in spikes :: if pid in scan then CpuChecked(spikes[pid], u.ObsFor(scan[pid]), u.p) else spikes[pid]
  }

  ghost function CpuChecksEmit(spikes: map<Pid, State>, scan: map<Pid, Process>, u: Reading, pid: Pid): seq<Throttling>
  {
    if pid in spikes && pid in scan then CpuEmits(spikes[pid], u.ObsFor(scan[pid]), u.p) else []
  }

  /** Both throttle decisions one update may make about a process. */
  ghost function TicksEmit(spikes: map<Pid, State>, scan: map<Pid, Process>, u: Reading, pid: Pid): seq<Throttling>
  {
    if pid in spikes && pid in scan then TickEmits(spikes[pid], u.ObsFor(scan[pid]), u.p) else []
  }

  ghost predicate AllValid(spikes: map<Pid, State>, now: Time)
  {
    forall pid :: pid in spikes ==> pid != PID_NONE && spikes[pid].pid == pid && Inv(spikes[pid]) && SeenBy(spikes[pid], now)
  }

  lemma RegistrationKeepsValid(
    spikes: map<Pid, State>, scan: map<Pid, Process>, prevRss: map<Pid, Kb>, prevMajflt: map<Pid, U64>, p: Params,
    now: Time)
    requires AllValid(spikes, now)
    requires forall pid :: pid in scan ==> scan[pid].pid == pid != PID_NONE
    ensures AllValid(AfterRegistration(spikes, scan, prevRss, prevMajflt, p), now)
    ensures AnyTracking(spikes) <==> AnyTracking(AfterRegistration(spikes, scan, prevRss, prevMajflt, p))
  {
    hide IsCandidate;
    var after := AfterRegistration(spikes, scan, prevRss, prevMajflt, p);
    assert forall pid :: pid in spikes ==> pid in after && after[pid] == spikes[pid];
  }

  lemma ObservationKeepsValid(spikes: map<Pid, State>, scan: map<Pid, Process>, u: Reading)
    requires AllValid(spikes, u.now)
    ensures AllValid(AfterObservation(spikes, scan, u), u.now)
    ensures AnyTracking(spikes) && !AnyDemoted(spikes, scan, u) ==> AnyTracking(AfterObservation(spikes, scan, u))
  {
    var after := AfterObservation(spikes, scan, u);
    forall pid | pid in spikes
      ensures after[pid].pid == pid && Inv(after[pid]) && SeenBy(after[pid], u.now)
    {
      if pid in scan {
        TickKeepsInv(spikes[pid], u.ObsFor(scan[pid]), u.p);
        ObservedKeepsPid(spikes[pid], u.ObsFor(scan[pid]), u.p);
      }
    }
    hide Observed, Inv, SeenBy;
    if AnyTracking(spikes) && !AnyDemoted(spikes, scan, u) {
      var pid :| pid in spikes && spikes[pid].phase == Tracking;
      assert pid in after && after[pid].phase == Tracking;
    }
  }

  lemma ObservedKeepsPid(s: State, o: Obs, p: Params)
    ensures Observed(s, o, p).pid == s.pid
  {
  }

  /** The CPU check touches the throttle flag of tracked states and nothing else. */
  lemma CpuCheckKeepsValid(spikes: map<Pid, State>, scan: map<Pid, Process>, u: Reading)
    requires AllValid(spikes, u.now)
    ensures AllValid(AfterCpuCheck(spikes, scan, u), u.now)
    ensures AnyTracking(AfterCpuCheck(spikes, scan, u)) <==> AnyTracking(spikes)
    ensures TrackedRss(AfterCpuCheck(spikes, scan, u)) == TrackedRss(spikes)
  {
    var after := AfterCpuCheck(spikes, scan, u);
    assert forall pid :: pid in spikes ==> pid in after && after[pid].phase == spikes[pid].phase && after[pid].rssMax == spikes[pid].rssMax;
  }

  lemma DemotionEmitsOneRestore(s: State, o: Obs, p: Params)
    ensures var es := DemotionEmits(s, o, p); |es| <= 1 && (|es| == 1 ==> es[0].Restore?)
  {
  }

  lemma AppendInOrderFor(s: State, o: Obs)
    requires Inv(s) && SeenBy(s, o.now)
    ensures InOrder(s.samples + [Stamped(o.rss, o.now)])
  {
    AppendInOrder(s, o);
  }

  lemma {:induction false} ThrottlesAppend(xs: seq<Decision>, ys: seq<Decision>, pid: Pid)
    ensures ThrottlesOf(xs + ys, pid) == ThrottlesOf(xs, pid) + ThrottlesOf(ys, pid)
  {
    if |ys| == 0 {
      assert xs + ys == xs;
    } else {
      ThrottlesAppend(xs, ys[..|ys| - 1], pid);
      assert (xs + ys)[..|xs + ys| - 1] == xs + ys[..|ys| - 1];
    }
  }

  function AsDecision(t: Throttling, pid: Pid): Decision
  {
    match t
    case Throttle(cgroup) => ThrottleSpike(pid, cgroup)
    case Restore(cgroup) => RestoreThrottle(pid, cgroup)
  }

  lemma OneThrottle(t: Throttling, pid: Pid, other: Pid)
    ensures ThrottlesOf([AsDecision(t, pid)], other) == if other == pid then [t] else []
  {
    assert [AsDecision(t, pid)][..0] == [];
  }

  ghost predicate AnyTracking(spikes: map<Pid, State>)
  {
    exists pid :: pid in spikes && spikes[pid].phase == Tracking
  }

  ghost function TrackedRss(spikes: map<Pid, State>): map<Pid, nat>
  {
    map pid | pid in spikes && spikes[pid].phase == Tracking :: spikes[pid].rssMax
  }

  /** RAM all tracked spikes together peak at. */
  ghost function TrackedPeak(spikes: map<Pid, State>): Kb
  {
    if MapTotal(TrackedRss(spikes)) > U64_MAX then U64_MAX else MapTotal(TrackedRss(spikes))
  }

  ghost function Required(spikes: map<Pid, State>, p: Params): Kb
  {
    Scaled(TrackedPeak(spikes), p.headroomFactor)
  }

  /** `out` holds each record of `m` once, in some order. */
  ghost predicate Lists(out: seq<Victim>, m: map<Pid, Victim>)
  {
    && (forall i :: 0 <= i < |out| ==> out[i].pid in m && m[out[i].pid] == out[i])
    && (forall pid :: pid in m ==> m[pid].pid == pid && m[pid] in out)
    && (forall i, j :: 0 <= i < j < |out| ==> out[i].pid != out[j].pid)
  }

  ghost function Restrict(m: map<Pid, Victim>, pids: set<Pid>): map<Pid, Victim>
  {
    map pid | pid in m && pid in pids :: m[pid]
  }

  lemma RestrictExtends(m: map<Pid, Victim>, pids: set<Pid>, pid: Pid)
    requires pid in m && pid !in pids
    ensures Restrict(m, pids + {pid}) == Restrict(m, pids)[pid := m[pid]]
    ensures pid !in Restrict(m, pids)
  {
  }

  lemma ListsExtends(out: seq<Victim>, m: map<Pid, Victim>, v: Victim)
    requires Lists(out, m) && v.pid !in m
    ensures Lists(out + [v], m[v.pid := v])
  {
    var larger := m[v.pid := v];
    forall pid | pid in larger ensures larger[pid] in out + [v] {
      assert pid != v.pid ==> m[pid] in out;
    }
  }

  class SpikeTracker {
    var spikes: map<Pid, State>
    var victims: map<Pid, Victim>
    var cooldowns: map<Pid, Time>
    var prevRss: map<Pid, Kb>
    var prevMajflt: map<Pid, U64>
    ghost var log: seq<Event>
    ghost var clock: Time

    ghost predicate SpikesValid()
      reads this`spikes, this`clock
    {
      AllValid(spikes, clock)
    }

    /** The cooldown table remembers every forced return of the last five minutes. */
    ghost predicate CooldownsValid()
      reads this`cooldowns, this`log, this`clock
    {
      && (forall pid :: pid in cooldowns ==> cooldowns[pid] <= clock)
      && forall i :: 0 <= i < |log| && log[i].Returned? && log[i].forced ==>
           && log[i].at <= clock
           && (AsSecs(Elapsed(clock, log[i].at)) < COOLDOWN_KEPT_SECS ==>
                 log[i].v.pid in cooldowns && log[i].at <= cooldowns[log[i].v.pid])
    }

    /** The victim table is what the history leaves. */
    ghost predicate VictimsValid()
      reads this`victims, this`log
    {
      && victims == Replay(log)
      && forall pid :: pid in victims ==> victims[pid].pid == pid
    }

    ghost predicate Valid()
      reads this`spikes, this`clock, this`cooldowns, this`log, this`victims
    {
      SpikesValid() && CooldownsValid() && VictimsValid()
    }

    /** The history so far keeps its promises. */
    ghost predicate Honest()
      reads this`log
    {
      Consistent(log) && CooldownsRespected(log)
    }

    /** Victims are held only while something is Tracking. */
    ghost predicate HeldForAReason()
      reads this`victims, this`spikes
    {
      victims != map[] ==> AnyTracking(spikes)
    }

    constructor (now: Time)
      ensures Valid() && Honest() && HeldForAReason() && clock == now
      ensures spikes == map[] && victims == map[] && log == []
    {
      spikes, victims, cooldowns, prevRss, prevMajflt := map[], map[], map[], map[], map[];
      log, clock := [], now;
    }

    /** Time passes; nothing else. */
    ghost method Reach(now: Time)
      requires Valid() && clock <= now
      modifies this`clock
      ensures Valid() && clock == now
    {
      clock := now;
    }

    predicate IsVictimCooldown(pid: Pid, cooldownSecs: nat, now: Time)
      reads this`cooldowns
    {
      pid in cooldowns && AsSecs(Elapsed(now, cooldowns[pid])) < cooldownSecs
    }

    // ── victims ────────────────────────────────────────────────────────────

    method RecordVictimFrozen(v: Victim, now: Time)
      requires Valid() && clock <= now
      modifies this
      ensures Valid() && clock == now
      ensures victims == old(victims)[v.pid := v] && log == old(log) + [Recorded(v, now)]
      ensures spikes == old(spikes) && cooldowns == old(cooldowns)
      ensures prevRss == old(prevRss) && prevMajflt == old(prevMajflt)
      ensures old(Honest()) && v.pid !in old(victims) && !old(IsVictimCooldown(v.pid, COOLDOWN_SECS, now)) ==> Honest()
    {
      Reach(now);
      RecordKeepsPromises(v);
      ReplayExtends(log, Recorded(v, now));
      hide Honest, AllValid, Replay;
      victims := victims[v.pid := v];
      log := log + [Recorded(v, now)];
    }

    lemma RecordKeepsPromises(v: Victim)
      requires CooldownsValid() && VictimsValid()
      ensures Honest() && v.pid !in victims && !IsVictimCooldown(v.pid, COOLDOWN_SECS, clock) ==>
                Consistent(log + [Recorded(v, clock)]) && CooldownsRespected(log + [Recorded(v, clock)])
    {
      if Honest() && v.pid !in victims && !IsVictimCooldown(v.pid, COOLDOWN_SECS, clock) {
        NoCooldownMeansAMinute(v.pid);
        hide CooldownsRespected, CooldownsValid, Replay;
        ReplayExtends(log, Recorded(v, clock));
        RecordKeepsCooldowns(log, Recorded(v, clock));
      }
    }

    /** Although the cooldown table is pruned, whoever is not in cooldown was last
        given back by force a minute ago or earlier. */
    lemma NoCooldownMeansAMinute(pid: Pid)
      requires CooldownsValid() && !IsVictimCooldown(pid, COOLDOWN_SECS, clock)
      ensures forall i :: 0 <= i < |log| && log[i].Returned? && log[i].forced && log[i].v.pid == pid ==>
                AsSecs(Elapsed(clock, log[i].at)) >= 60
    {
    }

    method TakeVictim(pid: Pid, ghost forced: bool) returns (v: Victim)
      requires Valid() && pid in victims
      requires forced ==> pid in cooldowns && cooldowns[pid] == clock
      modifies this`victims, this`log
      ensures Valid()
      ensures v == old(victims)[pid] && victims == old(victims) - {pid}
      ensures log == old(log) + [Returned(v, clock, forced)]
      ensures old(Honest()) ==> Honest()
    {
      v := victims[pid];
      ReplayExtends(log, Returned(v, clock, forced));
      if CooldownsRespected(log) {
        ReturnKeepsCooldowns(log, Returned(v, clock, forced));
      }
      log := log + [Returned(v, clock, forced)];
      victims := victims - {pid};
    }

    /** Part-way: `out` lists the records of `done` that were taken out so far. */
    ghost predicate Taken(victims0: map<Pid, Victim>, log0: seq<Event>, out: seq<Victim>, done: set<Pid>, forced: bool)
      reads this
    {
      && victims == victims0 - done
      && Lists(out, Restrict(victims0, done))
      && log == log0 + Returns(out, clock, forced)
    }

    method TakeNext(pid: Pid, out: seq<Victim>, done: set<Pid>, ghost forced: bool,
                    ghost victims0: map<Pid, Victim>, ghost log0: seq<Event>)
      returns (out': seq<Victim>)
      requires Valid() && Taken(victims0, log0, out, done, forced)
      requires pid in victims0 && pid !in done
      requires forced ==> pid in cooldowns && cooldowns[pid] == clock
      modifies this`victims, this`log
      ensures Valid() && Taken(victims0, log0, out', done + {pid}, forced)
      ensures old(Honest()) ==> Honest()
    {
      VictimPid(pid);
      hide *;
      TakenMeans(victims0, log0, out, done, forced);
      var v := TakeVictim(pid, forced);
      out' := out + [v];
      assert victims == victims0 - (done + {pid});
      RestrictExtends(victims0, done, pid);
      ListsExtends(out, Restrict(victims0, done), v);
      ReturnsExtend(out, v, clock, forced);
      assert log == log0 + Returns(out', clock, forced);
      AllTaken(victims0, log0, out', done + {pid}, forced);
    }

    /** Takes the records of `pids` out, in any order. */
    method TakeVictims(pids: set<Pid>, now: Time, ghost forced: bool) returns (out: seq<Victim>)
      requires Valid() && clock <= now && pids <= victims.Keys
      requires forced ==> forall pid :: pid in pids ==> pid in cooldowns && cooldowns[pid] == now
      modifies this`victims, this`log, this`clock
      ensures Valid() && clock == now
      ensures victims == old(victims) - pids
      ensures Lists(out, Restrict(old(victims), pids))
      ensures log == old(log) + Returns(out, now, forced)
      ensures old(Honest()) ==> Honest()
    {
      Reach(now);
      out := [];
      var done: set<Pid> := {};
      NoneTaken(forced);
      hide *;
      while pids - done != {}
        invariant done <= pids && clock == now && Valid()
        invariant Taken(old(victims), old(log), out, done, forced)
        invariant old(Honest()) ==> Honest()
        decreases pids - done
      {
        var pid :| pid in pids - done;
        out := TakeNext(pid, out, done, forced, old(victims), old(log));
        done := done + {pid};
      }
      assert done == pids;
      TakenMeans(old(victims), old(log), out, done, forced);
    }

    lemma AllTaken(victims0: map<Pid, Victim>, log0: seq<Event>, out: seq<Victim>, done: set<Pid>, forced: bool)
      requires victims == victims0 - done && Lists(out, Restrict(victims0, done))
      requires log == log0 + Returns(out, clock, forced)
      ensures Taken(victims0, log0, out, done, forced)
    {
    }

    lemma NoneTaken(forced: bool)
      ensures Taken(victims, log, [], {}, forced)
    {
    }

    lemma TakenMeans(victims0: map<Pid, Victim>, log0: seq<Event>, out: seq<Victim>, done: set<Pid>, forced: bool)
      requires Taken(victims0, log0, out, done, forced)
      ensures victims == victims0 - done
      ensures Lists(out, Restrict(victims0, done))
      ensures log == log0 + Returns(out, clock, forced)
    {
    }

    lemma VictimPid(pid: Pid)
      requires Valid() && pid in victims
      ensures victims[pid].pid == pid
    {
    }

    /** All victims or none: one spike still Tracking keeps everybody's. */
    method DrainIfNoneTracking(now: Time) returns (out: seq<Victim>)
      requires Valid() && clock <= now
      modifies this`victims, this`log, this`clock
      ensures Valid() && clock == now && HeldForAReason()
      ensures AnyTracking(spikes) ==> out == [] && victims == old(victims)
      ensures !AnyTracking(spikes) ==> victims == map[] && Lists(out, old(victims))
      ensures log == old(log) + Returns(out, now, false)
      ensures old(Honest()) ==> Honest()
    {
      var tracking := exists pid :: pid in spikes && spikes[pid].phase == Tracking;
      if victims == map[] || tracking {
        Reach(now);
        out := [];
        ReturnsNone(now, false);
        return;
      }
      out := TakeVictims(victims.Keys, now, false);
      assert Restrict(old(victims), old(victims).Keys) == old(victims);
    }

    method OnSpikeExit(spike: Pid, now: Time) returns (out: seq<Victim>)
      requires Valid() && clock <= now
      modifies this
      ensures Valid() && clock == now && HeldForAReason()
      ensures spikes == old(spikes) - {spike} && cooldowns == old(cooldowns)
      ensures prevRss == old(prevRss) - {spike} && prevMajflt == old(prevMajflt) - {spike}
      ensures AnyTracking(spikes) ==> out == [] && victims == old(victims)
      ensures !AnyTracking(spikes) ==> victims == map[] && Lists(out, old(victims))
      ensures log == old(log) + Returns(out, now, false)
      ensures old(Honest()) ==> Honest()
    {
      spikes := spikes - {spike};
      prevRss := prevRss - {spike};
      prevMajflt := prevMajflt - {spike};
      out := DrainIfNoneTracking(now);
    }

    /** Starts a cooldown for `pids` and takes their records out. */
    method ForceOut(pids: set<Pid>, now: Time) returns (out: seq<Victim>)
      requires Valid() && clock <= now && pids <= victims.Keys
      modifies this
      ensures Valid() && clock == now
      ensures spikes == old(spikes) && prevRss == old(prevRss) && prevMajflt == old(prevMajflt)
      ensures victims == old(victims) - pids
      ensures Lists(out, Restrict(old(victims), pids))
      ensures log == old(log) + Returns(out, now, true)
      ensures old(Honest()) ==> Honest()
      ensures forall pid :: pid in pids ==> IsVictimCooldown(pid, COOLDOWN_SECS, now)
    {
      Reach(now);
      cooldowns := cooldowns + map pid | pid in pids :: now;
      out := TakeVictims(pids, now, true);
    }

    method DrainTimedOutVictims(maxSecs: nat, now: Time) returns (out: seq<Victim>)
      requires Valid() && clock <= now
      modifies this
      ensures Valid() && clock == now && spikes == old(spikes)
      ensures prevRss == old(prevRss) && prevMajflt == old(prevMajflt)
      ensures log == old(log) + Returns(out, now, true)
      ensures old(Honest()) ==> Honest()
      // Exactly the victims held too long go.
      ensures maxSecs == 0 ==> out == [] && victims == old(victims)
      ensures maxSecs > 0 ==>
                var late := map pid | pid in old(victims) && AsSecs(Elapsed(now, old(victims)[pid].frozenAt)) >= maxSecs
                  :: old(victims)[pid];
                Lists(out, late) && victims == old(victims) - late.Keys
    {
      if maxSecs == 0 {
        Reach(now);
        ReturnsNone(now, true);
        return [];
      }
      var late := set pid | pid in victims && AsSecs(Elapsed(now, victims[pid].frozenAt)) >= maxSecs;
      out := ForceOut(late, now);
      assert Restrict(old(victims), late) ==
        (map pid | pid in old(victims) && AsSecs(Elapsed(now, old(victims)[pid].frozenAt)) >= maxSecs :: old(victims)[pid]);
    }

    method ReleaseRequested(pids: seq<Pid>, now: Time) returns (out: seq<Victim>)
      requires Valid() && clock <= now
      modifies this
      ensures Valid() && clock == now && spikes == old(spikes)
      ensures prevRss == old(prevRss) && prevMajflt == old(prevMajflt)
      ensures log == old(log) + Returns(out, now, true)
      ensures old(Honest()) ==> Honest()
      ensures var asked := map pid | pid in old(victims) && pid in pids :: old(victims)[pid];
        Lists(out, asked) && victims == old(victims) - asked.Keys
    {
      var asked := set pid | pid in victims && pid in pids;
      out := ForceOut(asked, now);
      assert Restrict(old(victims), asked) ==
        (map pid | pid in old(victims) && pid in pids :: old(victims)[pid]);
    }

    /** The states an update starts from: those it had and the new candidates. */
    ghost function Started(procs: seq<Process>, p: Params): map<Pid, State>
      reads this`spikes, this`prevRss, this`prevMajflt
    {
      AfterRegistration(spikes, ByPid(procs), prevRss, prevMajflt, p)
    }

    // ── update ─────────────────────────────────────────────────────────────

    method RegisterCandidates(procs: seq<Process>, p: Params)
      requires DistinctPids(procs)
      modifies this`spikes
      ensures spikes == AfterRegistration(old(spikes), ByPid(procs), prevRss, prevMajflt, p)
    {
      assert spikes == AfterRegistration(spikes, map[], prevRss, prevMajflt, p);
      hide AfterRegistration, IsCandidate, Registered;
      var i := 0;
      while i < |procs|
        invariant 0 <= i <= |procs|
        invariant spikes == AfterRegistration(old(spikes), ByPid(procs[..i]), prevRss, prevMajflt, p)
      {
        ByPidExtends(procs, i);
        var pr := procs[i];
        RegistrationExtends(old(spikes), ByPid(procs[..i]), prevRss, prevMajflt, p, pr);
        if pr.pid !in spikes && IsCandidate(pr, prevRss, prevMajflt, p) {
          spikes := spikes[pr.pid := Registered(pr, prevRss)];
        }
        i := i + 1;
      }
      assert procs[..|procs|] == procs;
    }

    /** What the second step has done once it has seen `scan`. */
    ghost predicate ObservedSoFar(
      spikes0: map<Pid, State>, scan: map<Pid, Process>, u: Reading, demoted: bool, ds: seq<Decision>)
      reads this`spikes
    {
      && spikes == AfterObservation(spikes0, scan, u)
      && (demoted <==> AnyDemoted(spikes0, scan, u))
      && (forall d :: d in ds ==> d.RestoreThrottle?)
      && forall pid :: ThrottlesOf(ds, pid) == DemotionsEmit(spikes0, scan, u, pid)
    }

    method ObserveNext(pr: Process, u: Reading, demoted: bool, ds: seq<Decision>,
                       ghost spikes0: map<Pid, State>, ghost scan: map<Pid, Process>)
      returns (demoted': bool, ds': seq<Decision>)
      requires ObservedSoFar(spikes0, scan, u, demoted, ds) && pr.pid !in scan
      requires forall pid :: pid in spikes0 ==> Inv(spikes0[pid]) && SeenBy(spikes0[pid], u.now)
      modifies this`spikes
      ensures ObservedSoFar(spikes0, scan[pr.pid := pr], u, demoted', ds')
    {
      demoted', ds' := demoted, ds;
      assert u.ObsFor(pr).now == u.now;
      hide *;
      ObservedMeans(spikes0, scan, u, demoted, ds);
      ObservationExtends(spikes0, scan, u, pr);
      if pr.pid in spikes {
        var state := spikes[pr.pid];
        var obs := u.ObsFor(pr);
        AppendInOrderFor(state, obs);
        var state', isDemoted, emits := Observe(state, obs, u.p);
        DemotionEmitsOneRestore(state, obs, u.p);
        var one := if |emits| == 0 then [] else [AsDecision(emits[0], pr.pid)];
        DemotionAppends(ds, spikes0, scan, u, pr, emits);
        spikes := spikes[pr.pid := state'];
        demoted', ds' := demoted || isDemoted, ds + one;
      } else {
        DemotionAppends(ds, spikes0, scan, u, pr, []);
        assert ds + [] == ds;
      }
      AllObserved(spikes0, scan[pr.pid := pr], u, demoted', ds');
    }

    lemma AllObserved(spikes0: map<Pid, State>, scan: map<Pid, Process>, u: Reading, demoted: bool, ds: seq<Decision>)
      requires spikes == AfterObservation(spikes0, scan, u)
      requires demoted <==> AnyDemoted(spikes0, scan, u)
      requires forall d :: d in ds ==> d.RestoreThrottle?
      requires forall pid :: ThrottlesOf(ds, pid) == DemotionsEmit(spikes0, scan, u, pid)
      ensures ObservedSoFar(spikes0, scan, u, demoted, ds)
    {
    }

    method ObserveAll(procs: seq<Process>, u: Reading) returns (demoted: bool, ds: seq<Decision>)
      requires DistinctPids(procs) && SpikesValid() && clock <= u.now
      modifies this`spikes
      ensures ObservedSoFar(old(spikes), ByPid(procs), u, demoted, ds)
    {
      demoted, ds := false, [];
      assert ObservedSoFar(old(spikes), map[], u, demoted, ds);
      SeenLater(u.now);
      hide ObservedSoFar, SpikesValid, Inv, SeenBy;
      var i := 0;
      while i < |procs|
        invariant 0 <= i <= |procs|
        invariant ObservedSoFar(old(spikes), ByPid(procs[..i]), u, demoted, ds)
      {
        ByPidExtends(procs, i);
        demoted, ds := ObserveNext(procs[i], u, demoted, ds, old(spikes), ByPid(procs[..i]));
        i := i + 1;
      }
      assert procs[..|procs|] == procs;
    }

    lemma SeenLater(now: Time)
      requires SpikesValid() && clock <= now
      ensures forall pid :: pid in spikes ==> Inv(spikes[pid]) && SeenBy(spikes[pid], now)
    {
    }

    ghost predicate CheckedSoFar(spikes0: map<Pid, State>, scan: map<Pid, Process>, u: Reading, ds: seq<Decision>)
      reads this`spikes
    {
      && spikes == AfterCpuCheck(spikes0, scan, u)
      && (forall d :: d in ds ==> d.ThrottleSpike? || d.RestoreThrottle?)
      && forall pid :: ThrottlesOf(ds, pid) == CpuChecksEmit(spikes0, scan, u, pid)
    }

    method CpuCheckNext(
      pr: Process, u: Reading, ds: seq<Decision>, ghost spikes0: map<Pid, State>, ghost scan: map<Pid, Process>)
      returns (ds': seq<Decision>)
      requires CheckedSoFar(spikes0, scan, u, ds) && pr.pid !in scan
      modifies this`spikes
      ensures CheckedSoFar(spikes0, scan[pr.pid := pr], u, ds')
    {
      hide *;
      CheckedMeans(spikes0, scan, u, ds);
      CpuChecksExtend(spikes0, scan, u, pr);
      ds' := ds;
      if pr.pid in spikes {
        var state, one := CpuCheck(spikes[pr.pid], pr, u);
        spikes := spikes[pr.pid := state];
        CpuCheckAppends(ds, spikes0, scan, u, pr, one);
        ds' := ds + one;
      } else {
        CpuCheckAppends(ds, spikes0, scan, u, pr, []);
        assert ds + [] == ds;
      }
      AllChecked(spikes0, scan[pr.pid := pr], u, ds');
    }

    lemma AllChecked(spikes0: map<Pid, State>, scan: map<Pid, Process>, u: Reading, ds: seq<Decision>)
      requires spikes == AfterCpuCheck(spikes0, scan, u)
      requires forall d :: d in ds ==> d.ThrottleSpike? || d.RestoreThrottle?
      requires forall pid :: ThrottlesOf(ds, pid) == CpuChecksEmit(spikes0, scan, u, pid)
      ensures CheckedSoFar(spikes0, scan, u, ds)
    {
    }

    method CpuCheckAll(procs: seq<Process>, u: Reading) returns (ds: seq<Decision>)
      requires DistinctPids(procs)
      modifies this`spikes
      ensures CheckedSoFar(old(spikes), ByPid(procs), u, ds)
    {
      ds := [];
      assert CheckedSoFar(old(spikes), map[], u, ds);
      hide CheckedSoFar;
      var i := 0;
      while i < |procs|
        invariant 0 <= i <= |procs|
        invariant CheckedSoFar(old(spikes), ByPid(procs[..i]), u, ds)
      {
        ByPidExtends(procs, i);
        ds := CpuCheckNext(procs[i], u, ds, old(spikes), ByPid(procs[..i]));
        i := i + 1;
      }
      assert procs[..|procs|] == procs;
    }

    /** RAM the tracked spikes reach together, summed in any order. */
    method SumTracked() returns (sum: Kb)
      ensures sum == TrackedPeak(spikes)
    {
      sum := 0;
      var left := set pid | pid in spikes && spikes[pid].phase == Tracking;
      ghost var done: map<Pid, nat> := map[];
      while left != {}
        invariant left <= TrackedRss(spikes).Keys
        invariant done == TrackedRss(spikes) - left
        invariant sum == if MapTotal(done) > U64_MAX then U64_MAX else MapTotal(done)
        decreases left
      {
        var pid :| pid in left;
        PutIn(done, pid, spikes[pid].rssMax);
        assert done - {pid} == done;
        sum := SatAdd(sum, spikes[pid].rssMax);
        done := done[pid := spikes[pid].rssMax];
        left := left - {pid};
      }
      assert done == TrackedRss(spikes);
    }

    method HeadroomCheck(available: Kb, p: Params) returns (ds: seq<Decision>)
      ensures ds == HeadroomFor(spikes, available, p)
    {
      ds := [];
      var sum := SumTracked();
      if sum > 0 {
        var required := Scaled(sum, p.headroomFactor);
        assert required == Required(spikes, p);
        hide Scaled;
        if available < required {
          ds := [FreezeForHeadroom(SatSub(required, available))];
        }
      }
    }

    /** The caches hold every process of `scan`. */
    ghost predicate Cached(scan: map<Pid, Process>)
      reads this`prevRss, this`prevMajflt
    {
      && (forall pid :: pid in scan ==> pid in prevRss && prevRss[pid] == scan[pid].rss)
      && forall pid :: pid in scan ==> pid in prevMajflt && prevMajflt[pid] == scan[pid].majflt
    }

    method CacheNext(pr: Process, ghost scan: map<Pid, Process>)
      requires Cached(scan)
      modifies this`prevRss, this`prevMajflt
      ensures Cached(scan[pr.pid := pr])
    {
      prevRss := prevRss[pr.pid := pr.rss];
      prevMajflt := prevMajflt[pr.pid := pr.majflt];
    }

    method CacheScan(procs: seq<Process>) returns (live: set<Pid>)
      modifies this`prevRss, this`prevMajflt
      ensures Cached(ByPid(procs)) && live == ByPid(procs).Keys
    {
      live := {};
      var i := 0;
      while i < |procs|
        invariant 0 <= i <= |procs|
        invariant live == ByPid(procs[..i]).Keys && Cached(ByPid(procs[..i]))
      {
        assert procs[..i + 1][..i] == procs[..i];
        CacheNext(procs[i], ByPid(procs[..i]));
        live := live + {procs[i].pid};
        i := i + 1;
      }
      assert procs[..|procs|] == procs;
    }

    /** Caches follow the scan; cooldowns older than five minutes are dropped. */
    method AdvanceCaches(procs: seq<Process>, now: Time)
      requires CooldownsValid() && clock == now
      modifies this`prevRss, this`prevMajflt, this`cooldowns
      ensures CooldownsValid()
      ensures prevRss == RssIn(ByPid(procs)) && prevMajflt == MajfltIn(ByPid(procs))
      ensures forall pid :: pid in cooldowns <==> pid in old(cooldowns) && Elapsed(now, old(cooldowns)[pid]) < 300_000
      ensures forall pid :: pid in cooldowns ==> cooldowns[pid] == old(cooldowns)[pid]
    {
      var live := CacheScan(procs);
      prevRss := map pid | pid in prevRss && pid in live :: prevRss[pid];
      prevMajflt := map pid | pid in prevMajflt && pid in live :: prevMajflt[pid];
      PruneCooldowns(now);
    }

    method PruneCooldowns(now: Time)
      requires CooldownsValid() && clock == now
      modifies this`cooldowns
      ensures CooldownsValid()
      ensures forall pid :: pid in cooldowns <==> pid in old(cooldowns) && Elapsed(now, old(cooldowns)[pid]) < 300_000
      ensures forall pid :: pid in cooldowns ==> cooldowns[pid] == old(cooldowns)[pid]
    {
      cooldowns := map pid | pid in cooldowns && AsSecs(Elapsed(now, cooldowns[pid])) < COOLDOWN_KEPT_SECS :: cooldowns[pid];
    }

    /** The first three steps: register, observe, move the caches on. */
    method ObserveScan(procs: seq<Process>, p: Params, foreground: Option<Pid>, now: Time)
      returns (demoted: bool, restores: seq<Decision>, u: Reading, ghost started: map<Pid, State>)
      requires Valid() && clock <= now
      requires DistinctPids(procs) && forall pr :: pr in procs ==> pr.pid != PID_NONE
      modifies this`spikes, this`prevRss, this`prevMajflt, this`cooldowns, this`clock
      ensures Valid() && clock == now
      ensures u == Reading(old(prevRss), foreground, now, p) && started == old(Started(procs, p))
      ensures AllValid(started, now)
      ensures ObservedSoFar(started, ByPid(procs), u, demoted, restores)
      ensures old(AnyTracking(spikes)) && !demoted ==> AnyTracking(spikes)
    {
      hide *;
      ScannedPids(procs);
      ValidMeans();
      Reach(now);
      ValidMeans();
      StartedMeans(procs, p);
      RegisterCandidates(procs, p);
      started := spikes;
      u := Reading(prevRss, foreground, now, p);
      RegistrationKeepsValid(old(spikes), ByPid(procs), prevRss, prevMajflt, p, now);
      ValidMeans();
      demoted, restores := ObserveAll(procs, u);
      ObservedMeans(started, ByPid(procs), u, demoted, restores);
      ObservationKeepsValid(started, ByPid(procs), u);
      ValidMeans();
      AdvanceCaches(procs, now);
      ValidMeans();
    }

    lemma ValidMeans()
      ensures Valid() <==> SpikesValid() && CooldownsValid() && VictimsValid()
      ensures SpikesValid() <==> AllValid(spikes, clock)
      ensures HeldForAReason() <==> victims == map[] || AnyTracking(spikes)
    {
    }

    lemma StartedMeans(procs: seq<Process>, p: Params)
      ensures Started(procs, p) == AfterRegistration(spikes, ByPid(procs), prevRss, prevMajflt, p)
    {
    }

    lemma ObservedMeans(spikes0: map<Pid, State>, scan: map<Pid, Process>, u: Reading, demoted: bool, ds: seq<Decision>)
      requires ObservedSoFar(spikes0, scan, u, demoted, ds)
      ensures spikes == AfterObservation(spikes0, scan, u)
      ensures demoted <==> AnyDemoted(spikes0, scan, u)
      ensures forall d :: d in ds ==> d.RestoreThrottle?
      ensures forall pid :: ThrottlesOf(ds, pid) == DemotionsEmit(spikes0, scan, u, pid)
    {
    }

    lemma CheckedMeans(spikes0: map<Pid, State>, scan: map<Pid, Process>, u: Reading, ds: seq<Decision>)
      requires CheckedSoFar(spikes0, scan, u, ds)
      ensures spikes == AfterCpuCheck(spikes0, scan, u)
      ensures forall d :: d in ds ==> d.ThrottleSpike? || d.RestoreThrottle?
      ensures forall pid :: ThrottlesOf(ds, pid) == CpuChecksEmit(spikes0, scan, u, pid)
    {
    }

    /** One cycle's update: every process of the scan is looked at once, then the
        decisions are collected, RAM before CPU. */
    method Update(procs: seq<Process>, available: Kb, p: Params, foreground: Option<Pid>, now: Time)
      returns (decisions: seq<Decision>)
      requires Valid() && clock <= now
      requires DistinctPids(procs) && forall pr :: pr in procs ==> pr.pid != PID_NONE
      modifies this
      ensures Valid() && clock == now
      ensures old(Honest()) ==> Honest()
      ensures old(HeldForAReason()) ==> HeldForAReason()
      ensures Answered(old(Started(procs, p)), ByPid(procs), Reading(old(prevRss), foreground, now, p), spikes, decisions)
      ensures FreezesIn(decisions) == HeadroomFor(spikes, available, p)
      ensures GivenBack(old(victims), old(log), victims, log, ReleasesIn(decisions), now)
      ensures ReleasesIn(decisions) != [] ==> !AnyTracking(spikes) && FreezesIn(decisions) == []
    {
      hide *;
      ValidMeans();
      var demoted, restores, u;
      ghost var started;
      demoted, restores, u, started := ObserveScan(procs, p, foreground, now);
      ValidMeans();
      ObservedMeans(started, ByPid(procs), u, demoted, restores);
      var releases := ReleaseIfDone(demoted, now);
      ValidMeans();
      var headroom := HeadroomCheck(available, p);
      HeadroomOnlyForTracking(spikes, available, p);
      HeadroomIsOne(spikes, available, p);
      ghost var observed := spikes;
      var cpu := CpuCheckAll(procs, u);
      CheckedMeans(observed, ByPid(procs), u, cpu);
      CpuChecksLeave(observed, ByPid(procs), u, available);
      ValidMeans();
      TicksCompose(started, ByPid(procs), u);
      DecisionsCompose(restores, releases, headroom, cpu);
      decisions := restores + releases + headroom + cpu;
      AnswersCompose(started, ByPid(procs), u, spikes, restores, releases, headroom, cpu, decisions);
    }

    /** Victims go back all at once after a demotion that leaves nothing Tracking. */
    method ReleaseIfDone(demoted: bool, now: Time) returns (releases: seq<Decision>)
      requires Valid() && clock == now
      modifies this`victims, this`log, this`clock
      ensures Valid() && clock == now
      ensures demoted ==> HeldForAReason()
      ensures GivenBack(old(victims), old(log), victims, log, releases, now)
      ensures releases == [] || (|releases| == 1 && releases[0].ReleaseVictims?)
      ensures releases == [] ==> victims == old(victims)
      ensures releases != [] ==> !AnyTracking(spikes)
      ensures old(Honest()) ==> Honest()
    {
      releases := [];
      if demoted {
        var released := DrainIfNoneTracking(now);
        if |released| > 0 {
          releases := [ReleaseVictims(released)];
        } else {
          ReturnsNone(now, false);
          assert victims == old(victims);
        }
      }
    }
  }

  lemma AnswersCompose(
    started: map<Pid, State>, scan: map<Pid, Process>, u: Reading, spikes: map<Pid, State>,
    restores: seq<Decision>, releases: seq<Decision>, headroom: seq<Decision>, cpu: seq<Decision>,
    decisions: seq<Decision>)
    requires spikes == AfterTicks(started, scan, u)
    requires forall pid :: ThrottlesOf(restores, pid) == DemotionsEmit(started, scan, u, pid)
    requires forall pid :: ThrottlesOf(cpu, pid) == CpuChecksEmit(AfterObservation(started, scan, u), scan, u, pid)
    requires forall pid :: DemotionsEmit(started, scan, u, pid) + CpuChecksEmit(AfterObservation(started, scan, u), scan, u, pid)
                        == TicksEmit(started, scan, u, pid)
    requires Composed(decisions, restores, releases, headroom, cpu)
    ensures Answered(started, scan, u, spikes, decisions)
    ensures FreezesIn(decisions) == headroom && ReleasesIn(decisions) == releases
  {
    hide AfterTicks, DemotionsEmit, CpuChecksEmit, TicksEmit, AfterObservation, FreezesIn, ReleasesIn, ThrottlesOf;
  }

  /** The CPU check changes nothing the earlier decisions depend on. */
  lemma CpuChecksLeave(spikes: map<Pid, State>, scan: map<Pid, Process>, u: Reading, available: Kb)
    requires AllValid(spikes, u.now)
    ensures var after := AfterCpuCheck(spikes, scan, u);
      && AllValid(after, u.now)
      && (AnyTracking(after) <==> AnyTracking(spikes))
      && HeadroomFor(after, available, u.p) == HeadroomFor(spikes, available, u.p)
  {
    CpuCheckKeepsValid(spikes, scan, u);
    HeadroomSame(spikes, AfterCpuCheck(spikes, scan, u), available, u.p);
  }

  // ── what an update owes ──────────────────────────────────────────────────

  /** A shortage is answered by one freeze, for exactly what is missing. */
  ghost function HeadroomFor(spikes: map<Pid, State>, available: Kb, p: Params): seq<Decision>
  {
    if TrackedPeak(spikes) > 0 && available < Required(spikes, p) then [FreezeForHeadroom(Required(spikes, p) - available)]
    else []
  }

  /** A request brings the available RAM to the headroom factor times the tracked
      peaks, to the KiB, and is made exactly when a whole KiB or more is missing. */
  lemma HeadroomReachesRequirement(spikes: map<Pid, State>, available: Kb, p: Params)
    requires Product(TrackedPeak(spikes) as real, p.headroomFactor) < U64_MAX as real
    ensures var (ds, required) := (HeadroomFor(spikes, available, p), Product(TrackedPeak(spikes) as real, p.headroomFactor));
      && (ds != [] <==> (available + 1) as real <= required)
      && (ds != [] ==>
            (available + ds[0].needed) as real <= required < (available + ds[0].needed) as real + 1.0)
  {
    if TrackedPeak(spikes) == 0 {
      assert Product(0.0, p.headroomFactor) == 0.0;
    }
    hide Product, TrackedPeak;
  }

  /** Each Tracking process counts with the peak of its window, others not at all. */
  lemma PeakCountsTracking(spikes: map<Pid, State>, pid: Pid)
    requires pid in spikes
    ensures MapTotal(TrackedRss(spikes))
         == MapTotal(TrackedRss(spikes - {pid})) + if spikes[pid].phase == Tracking then spikes[pid].rssMax else 0
  {
    assert TrackedRss(spikes - {pid}) == TrackedRss(spikes) - {pid};
    if spikes[pid].phase == Tracking {
      TakeOut(TrackedRss(spikes), pid);
    } else {
      assert TrackedRss(spikes) - {pid} == TrackedRss(spikes);
    }
  }

  /** What a tick is told of a process: growth is against the last scan, and nothing
      for a process first seen. */
  lemma ReadingTells(u: Reading, pr: Process)
    ensures var o := u.ObsFor(pr);
      && o.now == u.now && o.rss == pr.rss && o.cpuPct == pr.cpuPct && o.cgroup == pr.cgroup
      && (o.foreground <==> u.foreground == Some(pr.pid))
      && (pr.pid !in u.prevRss ==> o.rssDelta == 0)
      && (pr.pid in u.prevRss ==>
            if pr.rss >= u.prevRss[pr.pid] then u.prevRss[pr.pid] + o.rssDelta == pr.rss else o.rssDelta == 0)
  {
  }

  /** Headroom is asked for a positive amount, and only while something is Tracking. */
  lemma HeadroomOnlyForTracking(spikes: map<Pid, State>, available: Kb, p: Params)
    ensures HeadroomFor(spikes, available, p) != [] ==>
              AnyTracking(spikes) && HeadroomFor(spikes, available, p)[0].needed > 0
  {
    TotalIsZeroOnlyWhen(TrackedRss(spikes));
    hide Scaled;
  }

  lemma HeadroomIsOne(spikes: map<Pid, State>, available: Kb, p: Params)
    ensures var ds := HeadroomFor(spikes, available, p); ds == [] || (|ds| == 1 && ds[0].FreezeForHeadroom?)
  {
    hide Required, TrackedPeak;
  }

  lemma HeadroomSame(spikes: map<Pid, State>, spikes': map<Pid, State>, available: Kb, p: Params)
    requires TrackedRss(spikes) == TrackedRss(spikes')
    ensures HeadroomFor(spikes, available, p) == HeadroomFor(spikes', available, p)
  {
    assert TrackedPeak(spikes) == TrackedPeak(spikes');
    hide TrackedPeak, Scaled;
  }

  /** Every tracked process in the scan makes one tick, and its throttle decisions
      are that tick's. */
  ghost predicate Answered(
    started: map<Pid, State>, scan: map<Pid, Process>, u: Reading, spikes: map<Pid, State>, decisions: seq<Decision>)
  {
    && spikes == AfterTicks(started, scan, u)
    && forall pid :: ThrottlesOf(decisions, pid) == TicksEmit(started, scan, u, pid)
  }

  /** All victims are given back, or none. */
  ghost predicate GivenBack(
    victims0: map<Pid, Victim>, log0: seq<Event>, victims: map<Pid, Victim>, log: seq<Event>, releases: seq<Decision>,
    now: Time)
  {
    if releases == [] then victims == victims0 && log == log0
    else
      && |releases| == 1 && releases[0].ReleaseVictims?
      && Lists(releases[0].victims, victims0) && victims == map[]
      && log == log0 + Returns(releases[0].victims, now, false)
  }

  ghost function AfterTicks(spikes: map<Pid, State>, scan: map<Pid, Process>, u: Reading): map<Pid, State>
  {
    map pid | pid in spikes :: if pid in scan then Tick(spikes[pid], u.ObsFor(scan[pid]), u.p) else spikes[pid]
  }

  lemma TicksCompose(spikes: map<Pid, State>, scan: map<Pid, Process>, u: Reading)
    ensures AfterCpuCheck(AfterObservation(spikes, scan, u), scan, u) == AfterTicks(spikes, scan, u)
    ensures forall pid :: DemotionsEmit(spikes, scan, u, pid) + CpuChecksEmit(AfterObservation(spikes, scan, u), scan, u, pid)
                       == TicksEmit(spikes, scan, u, pid)
  {
    hide Observed, CpuChecked, DemotionEmits, CpuEmits;
  }

  // ── each process on its own ──────────────────────────────────────────────

  /** One update's inputs. */
  datatype Round = Round(scan: map<Pid, Process>, prevMajflt: map<Pid, U64>, u: Reading)

  ghost function AfterRound(spikes: map<Pid, State>, r: Round): map<Pid, State>
  {
    AfterTicks(AfterRegistration(spikes, r.scan, r.u.prevRss, r.prevMajflt, r.u.p), r.scan, r.u)
  }

  ghost function AfterRounds(spikes: map<Pid, State>, rs: seq<Round>): map<Pid, State>
  {
    if |rs| == 0 then spikes else AfterRound(AfterRounds(spikes, rs[..|rs| - 1]), rs[|rs| - 1])
  }

  ghost predicate SeenThroughout(rs: seq<Round>, pid: Pid, p: Params)
  {
    forall i :: 0 <= i < |rs| ==> pid in rs[i].scan && rs[i].u.p == p
  }

  ghost function ObsOf(rs: seq<Round>, pid: Pid, p: Params): seq<Obs>
    requires SeenThroughout(rs, pid, p)
  {
    if |rs| == 0 then []
    else ObsOf(rs[..|rs| - 1], pid, p) + [rs[|rs| - 1].u.ObsFor(rs[|rs| - 1].scan[pid])]
  }

  /** Whatever the other processes do, a process tracked through a series of updates
      goes through its own run, so what holds of every run holds of it. */
  lemma {:induction false} EachProcessRunsAlone(spikes: map<Pid, State>, rs: seq<Round>, pid: Pid, p: Params)
    requires pid in spikes && SeenThroughout(rs, pid, p)
    ensures pid in AfterRounds(spikes, rs)
    ensures AfterRounds(spikes, rs)[pid] == RunOf(spikes[pid], ObsOf(rs, pid, p), p)
  {
    hide Tick, IsCandidate, Registered;
    if |rs| > 0 {
      var (earlier, r) := (rs[..|rs| - 1], rs[|rs| - 1]);
      EachProcessRunsAlone(spikes, earlier, pid, p);
      RoundTicks(AfterRounds(spikes, earlier), r, pid);
      var os := ObsOf(earlier, pid, p);
      assert (os + [r.u.ObsFor(r.scan[pid])])[..|os|] == os;
    }
  }

  lemma RoundTicks(spikes: map<Pid, State>, r: Round, pid: Pid)
    requires pid in spikes && pid in r.scan
    ensures pid in AfterRound(spikes, r)
    ensures AfterRound(spikes, r)[pid] == Tick(spikes[pid], r.u.ObsFor(r.scan[pid]), r.u.p)
  {
    hide Tick, IsCandidate, Registered;
  }

  /** One tracked process against the CPU threshold; the foreground is spared. */
  method CpuCheck(state: State, pr: Process, u: Reading) returns (state': State, one: seq<Decision>)
    ensures state' == CpuChecked(state, u.ObsFor(pr), u.p)
    ensures |one| <= 1 && |one| == |CpuEmits(state, u.ObsFor(pr), u.p)|
    ensures |one| == 1 ==> one[0] == AsDecision(CpuEmits(state, u.ObsFor(pr), u.p)[0], pr.pid)
  {
    state', one := state, [];
    if state.phase == Tracking && u.foreground != Some(pr.pid) && state.cgroup.Some? {
      if pr.cpuPct >= u.p.cpuThresholdPct && !state.cpuThrottled {
        one := [ThrottleSpike(pr.pid, state.cgroup.value)];
        state' := state.(cpuThrottled := true);
      } else if pr.cpuPct < u.p.cpuThresholdPct && state.cpuThrottled {
        one := [RestoreThrottle(pr.pid, state.cgroup.value)];
        state' := state.(cpuThrottled := false);
      }
    }
  }

  lemma CpuChecksExtend(spikes: map<Pid, State>, scan: map<Pid, Process>, u: Reading, pr: Process)
    requires pr.pid !in scan
    ensures var (before, after) := (AfterCpuCheck(spikes, scan, u), AfterCpuCheck(spikes, scan[pr.pid := pr], u));
      && (pr.pid in before <==> pr.pid in spikes)
      && (pr.pid in spikes ==>
            before[pr.pid] == spikes[pr.pid] && after == before[pr.pid := CpuChecked(spikes[pr.pid], u.ObsFor(pr), u.p)])
      && (pr.pid !in spikes ==> after == before)
  {
    hide CpuChecked;
  }

  lemma CpuCheckAppends(
    ds: seq<Decision>, spikes: map<Pid, State>, scan: map<Pid, Process>, u: Reading, pr: Process, one: seq<Decision>)
    requires pr.pid !in scan && |one| <= 1
    requires pr.pid in spikes ==> |one| == |CpuEmits(spikes[pr.pid], u.ObsFor(pr), u.p)|
    requires pr.pid in spikes && |one| == 1 ==> one[0] == AsDecision(CpuEmits(spikes[pr.pid], u.ObsFor(pr), u.p)[0], pr.pid)
    requires pr.pid !in spikes ==> one == []
    requires forall pid :: ThrottlesOf(ds, pid) == CpuChecksEmit(spikes, scan, u, pid)
    requires forall d :: d in ds ==> d.ThrottleSpike? || d.RestoreThrottle?
    ensures forall d :: d in ds + one ==> d.ThrottleSpike? || d.RestoreThrottle?
    ensures forall pid :: ThrottlesOf(ds + one, pid) == CpuChecksEmit(spikes, scan[pr.pid := pr], u, pid)
  {
    hide CpuEmits, ThrottlesOf;
    if |one| == 0 {
      assert ds + one == ds;
    } else {
      var t := CpuEmits(spikes[pr.pid], u.ObsFor(pr), u.p)[0];
      assert one == [AsDecision(t, pr.pid)];
      forall pid ensures ThrottlesOf(ds + one, pid) == CpuChecksEmit(spikes, scan[pr.pid := pr], u, pid) {
        ThrottlesAppend(ds, one, pid);
        OneThrottle(t, pr.pid, pid);
      }
    }
  }
}
