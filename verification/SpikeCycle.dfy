/** Spike mode's cycle: release victims, feed the tracker, carry out its decisions. */
module SpikeCycle {
  import opened Types
  import opened Config
  import opened Executor
  import opened Ranking
  import opened VictimLog
  import ST = SpikeTracker
  import SpikeState

  datatype Settings = Settings(
    policy: Policy,
    victimMinRss: Kb,
    victimExclude: string -> bool,
    maxVictimFreezeSecs: nat,
    enabled: bool,
    params: SpikeState.Params)

  /** Every process spike mode could have stopped is on record under its real
      start time; `others` are stopped by someone else. */
  ghost predicate Accounted(procs: Procs, victims: map<Pid, Victim>, others: set<Pid>)
  {
    forall pid :: pid in procs && procs[pid].stopped && procs[pid].signalable && pid !in others ==>
      pid in victims && victims[pid].start == procs[pid].start
  }

  // ── releasing ────────────────────────────────────────────────────────────

  /** The process table after a SIGCONT to every record of `m` that still names
      the process it was made for. */
  ghost function Released(procs: Procs, m: map<Pid, Victim>): Procs
  {
    map pid | pid in procs ::
      if pid in m && m[pid].start == procs[pid].start && procs[pid].signalable then procs[pid].(stopped := false) else procs[pid]
  }

  lemma ReleasedOneMore(procs: Procs, m: map<Pid, Victim>, v: Victim)
    requires v.pid !in m
    ensures Lifecycle.UnfreezeChecked(Released(procs, m), v.pid, v.start).0 == Released(procs, m[v.pid := v])
  {
  }

  lemma ReleasedTwice(procs: Procs, m: map<Pid, Victim>, more: map<Pid, Victim>, all: map<Pid, Victim>)
    requires m.Keys !! more.Keys && all == m + more
    ensures Released(Released(procs, m), more) == Released(procs, all)
  {
  }

  lemma ReleaseKeepsAccounted(procs: Procs, victims: map<Pid, Victim>, left: map<Pid, Victim>, others: set<Pid>)
    requires Accounted(procs, victims, others)
    requires left == victims - (victims.Keys - left.Keys)
    ensures Accounted(Released(procs, victims - left.Keys), left, others)
  {
  }

  lemma ListsPrefix(out: seq<Victim>, i: nat, m: map<Pid, Victim>, done: map<Pid, Victim>)
    requires ST.Lists(out, m) && i < |out| && ST.Lists(out[..i], done)
    ensures out[i].pid !in done
    ensures ST.Lists(out[..i + 1], done[out[i].pid := out[i]])
  {
    forall pid | pid in done ensures pid != out[i].pid {
      assert done[pid] in out[..i];
    }
    ST.ListsExtends(out[..i], done, out[i]);
    assert out[..i + 1] == out[..i] + [out[i]];
  }

  lemma ListsOnce(out: seq<Victim>, m: map<Pid, Victim>, n: map<Pid, Victim>)
    requires ST.Lists(out, m) && ST.Lists(out, n)
    ensures m == n
  {
    forall pid | pid in m ensures pid in n && n[pid] == m[pid] {
      assert m[pid] in out;
      var k :| 0 <= k < |out| && out[k] == m[pid];
    }
    forall pid | pid in n ensures pid in m {
      assert n[pid] in out;
      var k :| 0 <= k < |out| && out[k] == n[pid];
    }
  }

  /** A SIGCONT to each victim; whether it worked is only logged. */
  method UnfreezeAll(kernel: Kernel, out: seq<Victim>, ghost m: map<Pid, Victim>)
    requires ST.Lists(out, m)
    modifies kernel
    ensures kernel.procs == Released(old(kernel.procs), m)
  {
    ghost var done: map<Pid, Victim> := map[];
    assert kernel.procs == Released(kernel.procs, map[]);
    assert ST.Lists(out[..0], done);
    hide Released, ST.Lists;
    var i := 0;
    while i < |out|
      invariant 0 <= i <= |out|
      invariant ST.Lists(out[..i], done)
      invariant kernel.procs == Released(old(kernel.procs), done)
    {
      ListsPrefix(out, i, m, done);
      ReleasedOneMore(old(kernel.procs), done, out[i]);
      var _ := kernel.UnfreezeChecked(out[i].pid, out[i].start);
      done := done[out[i].pid := out[i]];
      i := i + 1;
    }
    assert out[..|out|] == out;
    ListsOnce(out, done, m);
  }

  /** From `procs0` and `victims0`, exactly the records no longer there have been
      taken out and their processes continued. */
  ghost predicate ReleasedSince(procs0: Procs, victims0: map<Pid, Victim>, procs: Procs, victims: map<Pid, Victim>)
  {
    && victims == victims0 - (victims0.Keys - victims.Keys)
    && procs == Released(procs0, victims0 - victims.Keys)
  }

  lemma NothingReleased(procs: Procs, victims: map<Pid, Victim>)
    ensures ReleasedSince(procs, victims, procs, victims)
  {
    assert victims - victims.Keys == map[];
  }

  lemma ReleasedMore(
    procs0: Procs, victims0: map<Pid, Victim>, procs: Procs, victims: map<Pid, Victim>, m: map<Pid, Victim>)
    requires ReleasedSince(procs0, victims0, procs, victims)
    requires forall pid :: pid in m ==> pid in victims && victims[pid] == m[pid]
    ensures ReleasedSince(procs0, victims0, Released(procs, m), victims - m.Keys)
  {
    var gone := victims0 - victims.Keys;
    assert victims0 - (victims - m.Keys).Keys == gone + m;
    ReleasedTwice(procs0, gone, m, gone + m);
  }

  /** A spike's exit, with the SIGCONTs it causes. */
  method ReleaseOnExit(
    kernel: Kernel, tracker: ST.SpikeTracker, spike: Pid, now: Time, ghost procs0: Procs,
    ghost victims0: map<Pid, Victim>)
    requires tracker.Valid() && tracker.clock <= now
    requires ReleasedSince(procs0, victims0, kernel.procs, tracker.victims)
    modifies kernel, tracker
    ensures tracker.Valid() && tracker.clock == now && tracker.spikes == old(tracker.spikes) - {spike}
    ensures tracker.prevRss == old(tracker.prevRss) - {spike} && tracker.prevMajflt == old(tracker.prevMajflt) - {spike}
    ensures old(tracker.Honest()) ==> tracker.Honest()
    ensures ReleasedSince(procs0, victims0, kernel.procs, tracker.victims)
    ensures tracker.victims == if ST.AnyTracking(tracker.spikes) then old(tracker.victims) else map[]
  {
    hide *;
    ghost var held := tracker.victims;
    var out := tracker.OnSpikeExit(spike, now);
    ghost var m: map<Pid, Victim> := if ST.AnyTracking(tracker.spikes) then map[] else held;
    ListsNone();
    UnfreezeAll(kernel, out, m);
    ReleasedMore(procs0, victims0, old(kernel.procs), held, m);
    assert held - m.Keys == tracker.victims;
  }

  lemma ListsNone()
    ensures ST.Lists([], map[])
  {
  }

  method ReleaseExited(kernel: Kernel, tracker: ST.SpikeTracker, live: set<Pid>, now: Time)
    requires tracker.Valid() && tracker.clock <= now
    modifies kernel, tracker
    ensures tracker.Valid() && tracker.clock <= now
    ensures old(tracker.Honest()) ==> tracker.Honest()
    ensures tracker.spikes == old(tracker.spikes) - (old(tracker.spikes).Keys - live)
    ensures tracker.prevRss == old(tracker.prevRss) - (old(tracker.spikes).Keys - live)
    ensures tracker.prevMajflt == old(tracker.prevMajflt) - (old(tracker.spikes).Keys - live)
    ensures ReleasedSince(old(kernel.procs), old(tracker.victims), kernel.procs, tracker.victims)
    ensures tracker.victims == old(tracker.victims) || (tracker.victims == map[] && !ST.AnyTracking(tracker.spikes))
  {
    NothingReleased(kernel.procs, tracker.victims);
    hide *;
    var exited := tracker.spikes.Keys - live;
    while exited != {}
      invariant exited <= old(tracker.spikes).Keys - live
      invariant tracker.Valid() && tracker.clock <= now
      invariant old(tracker.Honest()) ==> tracker.Honest()
      invariant tracker.spikes == old(tracker.spikes) - (old(tracker.spikes).Keys - live - exited)
      invariant tracker.prevRss == old(tracker.prevRss) - (old(tracker.spikes).Keys - live - exited)
      invariant tracker.prevMajflt == old(tracker.prevMajflt) - (old(tracker.spikes).Keys - live - exited)
      invariant ReleasedSince(old(kernel.procs), old(tracker.victims), kernel.procs, tracker.victims)
      invariant tracker.victims == old(tracker.victims) || (tracker.victims == map[] && !ST.AnyTracking(tracker.spikes))
      decreases exited
    {
      var spike :| spike in exited;
      FewerTracking(tracker.spikes, spike);
      ReleaseOnExit(kernel, tracker, spike, now, old(kernel.procs), old(tracker.victims));
      exited := exited - {spike};
    }
  }

  lemma FewerTracking(spikes: map<Pid, SpikeState.State>, gone: Pid)
    ensures ST.AnyTracking(spikes - {gone}) ==> ST.AnyTracking(spikes)
  {
  }

  function LateOf(victims: map<Pid, Victim>, maxSecs: nat, now: Time): map<Pid, Victim>
  {
    if maxSecs == 0 then map[]
    else map pid | pid in victims && AsSecs(Elapsed(now, victims[pid].frozenAt)) >= maxSecs :: victims[pid]
  }

  function AskedOf(victims: map<Pid, Victim>, pids: seq<Pid>): map<Pid, Victim>
  {
    map pid | pid in victims && pid in pids :: victims[pid]
  }

  method ReleaseLate(
    kernel: Kernel, tracker: ST.SpikeTracker, maxSecs: nat, now: Time, ghost procs0: Procs,
    ghost victims0: map<Pid, Victim>)
    requires tracker.Valid() && tracker.clock <= now
    requires ReleasedSince(procs0, victims0, kernel.procs, tracker.victims)
    modifies kernel, tracker
    ensures tracker.Valid() && tracker.clock == now && tracker.spikes == old(tracker.spikes)
    ensures tracker.prevRss == old(tracker.prevRss) && tracker.prevMajflt == old(tracker.prevMajflt)
    ensures old(tracker.Honest()) ==> tracker.Honest()
    ensures ReleasedSince(procs0, victims0, kernel.procs, tracker.victims)
    ensures tracker.victims == old(tracker.victims) - LateOf(old(tracker.victims), maxSecs, now).Keys
  {
    ghost var late := LateOf(tracker.victims, maxSecs, now);
    ListsNone();
    ReleasedMore(procs0, victims0, kernel.procs, tracker.victims, late);
    hide ReleasedSince, ST.Lists;
    var out := tracker.DrainTimedOutVictims(maxSecs, now);
    UnfreezeAll(kernel, out, late);
  }

  method ReleaseOrphans(
    kernel: Kernel, tracker: ST.SpikeTracker, now: Time, ghost procs0: Procs, ghost victims0: map<Pid, Victim>)
    requires tracker.Valid() && tracker.clock <= now
    requires ReleasedSince(procs0, victims0, kernel.procs, tracker.victims)
    modifies kernel, tracker
    ensures tracker.Valid() && tracker.clock == now && tracker.spikes == old(tracker.spikes)
    ensures tracker.prevRss == old(tracker.prevRss) && tracker.prevMajflt == old(tracker.prevMajflt)
    ensures old(tracker.Honest()) ==> tracker.Honest()
    ensures ReleasedSince(procs0, victims0, kernel.procs, tracker.victims)
    ensures tracker.victims == if ST.AnyTracking(tracker.spikes) then old(tracker.victims) else map[]
  {
    ghost var orphans: map<Pid, Victim> := if ST.AnyTracking(tracker.spikes) then map[] else tracker.victims;
    ListsNone();
    ReleasedMore(procs0, victims0, kernel.procs, tracker.victims, orphans);
    assert tracker.victims - orphans.Keys == if ST.AnyTracking(tracker.spikes) then tracker.victims else map[];
    hide *;
    var out := tracker.DrainIfNoneTracking(now);
    UnfreezeAll(kernel, out, orphans);
  }

  method ReleaseAsked(
    kernel: Kernel, tracker: ST.SpikeTracker, pids: seq<Pid>, now: Time, ghost procs0: Procs,
    ghost victims0: map<Pid, Victim>)
    requires tracker.Valid() && tracker.clock <= now
    requires ReleasedSince(procs0, victims0, kernel.procs, tracker.victims)
    modifies kernel, tracker
    ensures tracker.Valid() && tracker.clock == now && tracker.spikes == old(tracker.spikes)
    ensures tracker.prevRss == old(tracker.prevRss) && tracker.prevMajflt == old(tracker.prevMajflt)
    ensures old(tracker.Honest()) ==> tracker.Honest()
    ensures ReleasedSince(procs0, victims0, kernel.procs, tracker.victims)
    ensures tracker.victims == old(tracker.victims) - AskedOf(old(tracker.victims), pids).Keys
  {
    ghost var asked := AskedOf(tracker.victims, pids);
    ReleasedMore(procs0, victims0, kernel.procs, tracker.victims, asked);
    hide ReleasedSince, ST.Lists;
    var out := tracker.ReleaseRequested(pids, now);
    UnfreezeAll(kernel, out, asked);
  }

  /** A victim is let go when nothing is Tracking any more, when it has been held
      too long, or on request. */
  ghost predicate StillHeld(
    pid: Pid, v: Victim, spikes: map<Pid, SpikeState.State>, maxSecs: nat, manual: seq<Pid>, now: Time)
  {
    && ST.AnyTracking(spikes)
    && !(maxSecs > 0 && AsSecs(Elapsed(now, v.frozenAt)) >= maxSecs)
    && pid !in manual
  }

  ghost function HeldOn(
    victims: map<Pid, Victim>, spikes: map<Pid, SpikeState.State>, maxSecs: nat, manual: seq<Pid>,
    now: Time): map<Pid, Victim>
  {
    map pid | pid in victims && StillHeld(pid, victims[pid], spikes, maxSecs, manual, now) :: victims[pid]
  }

  lemma HeldOnComposes(
    victims: map<Pid, Victim>, kept: map<Pid, Victim>, spikes: map<Pid, SpikeState.State>, maxSecs: nat,
    manual: seq<Pid>, now: Time)
    requires kept == victims || (kept == map[] && !ST.AnyTracking(spikes))
    ensures
      var notLate := kept - LateOf(kept, maxSecs, now).Keys;
      var wanted := if ST.AnyTracking(spikes) then notLate else map[];
      wanted - AskedOf(wanted, manual).Keys == HeldOn(victims, spikes, maxSecs, manual, now)
  {
    hide ST.AnyTracking, AsSecs;
  }

  /** Exactly those victims are let go that must be, each with a SIGCONT, and no
      other process is touched. */
  method ReleaseVictims(
    kernel: Kernel, tracker: ST.SpikeTracker, maxSecs: nat, live: set<Pid>, manual: seq<Pid>, now: Time)
    requires tracker.Valid() && tracker.clock <= now
    modifies kernel, tracker
    ensures tracker.Valid() && tracker.clock == now && tracker.HeldForAReason()
    ensures old(tracker.Honest()) ==> tracker.Honest()
    ensures tracker.spikes == old(tracker.spikes) - (old(tracker.spikes).Keys - live)
    ensures tracker.prevRss == old(tracker.prevRss) - (old(tracker.spikes).Keys - live)
    ensures tracker.prevMajflt == old(tracker.prevMajflt) - (old(tracker.spikes).Keys - live)
    ensures tracker.victims == HeldOn(old(tracker.victims), tracker.spikes, maxSecs, manual, now)
    ensures ReleasedSince(old(kernel.procs), old(tracker.victims), kernel.procs, tracker.victims)
  {
    hide *;
    ghost var (procs0, victims0) := (kernel.procs, tracker.victims);
    ReleaseExited(kernel, tracker, live, now);
    HeldOnComposes(victims0, tracker.victims, tracker.spikes, maxSecs, manual, now);
    ReleaseLate(kernel, tracker, maxSecs, now, procs0, victims0);
    ReleaseOrphans(kernel, tracker, now, procs0, victims0);
    ghost var wanted := tracker.victims;
    AskedOfNone(wanted);
    if |manual| > 0 {
      ReleaseAsked(kernel, tracker, manual, now, procs0, victims0);
    }
    tracker.ValidMeans();
    assert tracker.victims != map[] ==> wanted != map[];
  }

  lemma AskedOfNone(victims: map<Pid, Victim>)
    ensures victims - AskedOf(victims, []).Keys == victims
  {
  }

  // ── freezing for headroom ────────────────────────────────────────────────

  /** More expendable first, then larger. */
  function HigherFirst(policy: Policy): (Process, Process) -> bool
  {
    (a: Process, b: Process) =>
      var (pa, pb) := (GetPriority(a, policy), GetPriority(b, policy));
      pa > pb || (pa == pb && a.rss > b.rss)
  }

  lemma HigherFirstIsWeakOrder(policy: Policy)
    ensures WeakOrder(HigherFirst(policy))
  {
  }

  predicate Eligible(pr: Process, exclude: set<Pid>, foreground: Option<Pid>, cooling: bool, s: Settings)
  {
    && pr.pid !in exclude
    && foreground != Some(pr.pid)
    && !cooling
    && SatAdd(pr.rss, pr.swap) >= s.victimMinRss
    && GetPriority(pr, s.policy) >= 60
    && !s.victimExclude(pr.name)
  }

  method EligibleOf(
    tracker: ST.SpikeTracker, procs: seq<Process>, exclude: set<Pid>, foreground: Option<Pid>, s: Settings,
    now: Time)
    returns (eligible: seq<Process>)
    requires DistinctPids(procs)
    ensures forall pr :: pr in eligible <==> pr in procs && Eligible(pr, exclude, foreground, tracker.IsVictimCooldown(pr.pid, COOLDOWN_SECS, now), s)
    ensures DistinctPids(eligible)
  {
    eligible := [];
    var i := 0;
    while i < |procs|
      invariant 0 <= i <= |procs|
      invariant forall pr :: pr in eligible <==> pr in procs[..i] && Eligible(pr, exclude, foreground, tracker.IsVictimCooldown(pr.pid, COOLDOWN_SECS, now), s)
      invariant DistinctPids(eligible)
    {
      assert forall k :: 0 <= k < |eligible| ==> eligible[k] in procs[..i];
      if Eligible(procs[i], exclude, foreground, tracker.IsVictimCooldown(procs[i].pid, COOLDOWN_SECS, now), s) {
        eligible := eligible + [procs[i]];
      }
      i := i + 1;
    }
  }

  /** Process table and victims while a batch is being frozen. */
  datatype Hold = Hold(procs: Procs, victims: map<Pid, Victim>)
  {
    predicate CanStop(pid: Pid) { pid in procs && procs[pid].signalable }

    /** A SIGSTOP and, when it worked, a record under the real start time. */
    function Freeze(c: Process, initiator: Pid, now: Time): Hold
    {
      if !CanStop(c.pid) then this
      else
        Hold(procs[c.pid := procs[c.pid].(stopped := true)],
             victims[c.pid := Victim(c.pid, c.name, procs[c.pid].start, initiator, now)])
    }

    function FreezeAll(cs: seq<Process>, initiator: Pid, now: Time): Hold
    {
      if |cs| == 0 then this else FreezeAll(cs[..|cs| - 1], initiator, now).Freeze(cs[|cs| - 1], initiator, now)
    }

    /** RAM of those of `cs` that can be stopped. */
    function Freed(cs: seq<Process>): nat
    {
      if |cs| == 0 then 0 else Freed(cs[..|cs| - 1]) + if CanStop(cs[|cs| - 1].pid) then cs[|cs| - 1].rss else 0
    }
  }

  function PidsOf(cs: seq<Process>): set<Pid> { set c | c in cs :: c.pid }

  lemma PidsOfExtends(cs: seq<Process>, i: nat)
    requires i < |cs| && DistinctPids(cs)
    ensures PidsOf(cs[..i + 1]) == PidsOf(cs[..i]) + {cs[i].pid}
    ensures cs[i].pid !in PidsOf(cs[..i])
  {
    assert cs[..i + 1] == cs[..i] + [cs[i]];
    assert cs[i] in cs[..i + 1];
  }

  /** Freezing a batch stops exactly those of it that can be stopped. */
  lemma {:induction false} BatchStops(h: Hold, cs: seq<Process>, initiator: Pid, now: Time)
    requires DistinctPids(cs)
    ensures h.FreezeAll(cs, initiator, now).procs
         == map pid | pid in h.procs :: if pid in PidsOf(cs) && h.CanStop(pid) then h.procs[pid].(stopped := true) else h.procs[pid]
  {
    if |cs| > 0 {
      var n := |cs| - 1;
      BatchStops(h, cs[..n], initiator, now);
      PidsOfExtends(cs, n);
      assert cs[..n + 1] == cs;
      hide PidsOf;
    }
  }

  /** ... and records exactly those, under their real start times. */
  lemma {:induction false} BatchRecords(h: Hold, cs: seq<Process>, initiator: Pid, now: Time)
    requires DistinctPids(cs)
    ensures var h' := h.FreezeAll(cs, initiator, now);
      && h'.victims.Keys == h.victims.Keys + (PidsOf(cs) * set pid | pid in h.procs && h.CanStop(pid))
      && (forall pid :: pid in h.victims && pid !in PidsOf(cs) ==> h'.victims[pid] == h.victims[pid])
      && forall c :: c in cs && h.CanStop(c.pid) ==> h'.victims[c.pid] == Victim(c.pid, c.name, h.procs[c.pid].start, initiator, now)
  {
    if |cs| > 0 {
      var n := |cs| - 1;
      BatchRecords(h, cs[..n], initiator, now);
      BatchStops(h, cs[..n], initiator, now);
      PidsOfExtends(cs, n);
      assert cs[..n + 1] == cs;
      forall c | c in cs && c != cs[n] ensures c in cs[..n] && c.pid in PidsOf(cs[..n]) {
      }
      hide PidsOf;
    }
  }

  /** What is left to free once `freed` is. */
  function Short(needed: Kb, freed: nat): Kb { if freed >= needed then 0 else needed - freed }

  ghost predicate BatchSoFar(
    h: Hold, cs: seq<Process>, initiator: Pid, now: Time, procs: Procs, victims: map<Pid, Victim>)
  {
    Hold(procs, victims) == h.FreezeAll(cs, initiator, now)
  }

  lemma BatchNext(h: Hold, cs: seq<Process>, i: nat, initiator: Pid, now: Time, procs: Procs, victims: map<Pid, Victim>)
    requires DistinctPids(cs) && i < |cs|
    requires BatchSoFar(h, cs[..i], initiator, now, procs, victims)
    ensures var next := Hold(procs, victims).Freeze(cs[i], initiator, now);
      BatchSoFar(h, cs[..i + 1], initiator, now, next.procs, next.victims)
    ensures Hold(procs, victims).CanStop(cs[i].pid) <==> h.CanStop(cs[i].pid)
    ensures h.Freed(cs[..i + 1]) == h.Freed(cs[..i]) + if h.CanStop(cs[i].pid) then cs[i].rss else 0
    ensures victims.Keys <= h.victims.Keys + PidsOf(cs[..i]) && cs[i].pid !in PidsOf(cs[..i])
  {
    assert cs[..i + 1][..i] == cs[..i];
    BatchStops(h, cs[..i], initiator, now);
    BatchRecords(h, cs[..i], initiator, now);
    PidsOfExtends(cs, i);
    hide PidsOf;
  }

  /** One candidate: fingerprint, stop under the guard, record. */
  method FreezeVictim(
    kernel: Kernel, tracker: ST.SpikeTracker, c: Process, initiator: Pid, now: Time)
    returns (frozen: bool)
    requires tracker.Valid() && tracker.clock <= now
    modifies kernel, tracker
    ensures tracker.Valid() && tracker.clock <= now
    ensures tracker.spikes == old(tracker.spikes) && tracker.cooldowns == old(tracker.cooldowns)
    ensures old(tracker.Honest()) && c.pid !in old(tracker.victims) && !old(tracker.IsVictimCooldown(c.pid, COOLDOWN_SECS, now)) ==>
              tracker.Honest()
    ensures frozen == old(Hold(kernel.procs, tracker.victims)).CanStop(c.pid)
    ensures Hold(kernel.procs, tracker.victims) == old(Hold(kernel.procs, tracker.victims)).Freeze(c, initiator, now)
  {
    frozen := false;
    match kernel.ReadStartTime(c.pid)
    case None =>
    case Some(start) =>
      frozen := kernel.FreezeChecked(c.pid, start);
      if frozen {
        hide tracker.Valid, tracker.Honest;
        tracker.RecordVictimFrozen(Victim(c.pid, c.name, start, initiator, now), now);
      }
  }

  /** The next candidate, while something is still short. */
  method FreezeNext(
    kernel: Kernel, tracker: ST.SpikeTracker, cs: seq<Process>, i: nat, needed: Kb, initiator: Pid, now: Time,
    ghost h: Hold, ghost target: Kb)
    returns (needed': Kb)
    requires tracker.Valid() && tracker.clock <= now && DistinctPids(cs) && i < |cs|
    requires cs[i].pid !in h.victims && !tracker.IsVictimCooldown(cs[i].pid, COOLDOWN_SECS, now)
    requires BatchSoFar(h, cs[..i], initiator, now, kernel.procs, tracker.victims)
    requires needed == Short(target, h.Freed(cs[..i]))
    modifies kernel, tracker
    ensures tracker.Valid() && tracker.clock <= now
    ensures tracker.spikes == old(tracker.spikes) && tracker.cooldowns == old(tracker.cooldowns)
    ensures old(tracker.Honest()) ==> tracker.Honest()
    ensures BatchSoFar(h, cs[..i + 1], initiator, now, kernel.procs, tracker.victims)
    ensures needed' == Short(target, h.Freed(cs[..i + 1]))
  {
    hide *;
    BatchNext(h, cs, i, initiator, now, kernel.procs, tracker.victims);
    var frozen := FreezeVictim(kernel, tracker, cs[i], initiator, now);
    needed' := needed;
    if frozen {
      needed' := SatSub(needed, cs[i].rss);
    }
    ShortMore(target, h.Freed(cs[..i]), cs[i].rss);
  }

  lemma ShortMore(target: Kb, freed: nat, rss: Kb)
    ensures SatSub(Short(target, freed), rss) == Short(target, freed + rss)
  {
  }

  /** Freezes candidates in order until what is needed is freed: exactly the
      shortest batch that covers it, or everyone. */
  method FreezeInOrder(
    kernel: Kernel, tracker: ST.SpikeTracker, cs: seq<Process>, target: Kb, initiator: Pid,
    now: Time) returns (ghost k: nat)
    requires tracker.Valid() && tracker.clock <= now && DistinctPids(cs)
    requires forall i :: 0 <= i < |cs| ==> cs[i].pid !in tracker.victims && !tracker.IsVictimCooldown(cs[i].pid, COOLDOWN_SECS, now)
    modifies kernel, tracker
    ensures tracker.Valid() && tracker.clock <= now && tracker.spikes == old(tracker.spikes)
    ensures tracker.cooldowns == old(tracker.cooldowns)
    ensures old(tracker.Honest()) ==> tracker.Honest()
    ensures k <= |cs|
    ensures var h := old(Hold(kernel.procs, tracker.victims));
      && BatchSoFar(h, cs[..k], initiator, now, kernel.procs, tracker.victims)
      && (forall j :: 0 <= j < k ==> h.Freed(cs[..j]) < target)
      && (k == |cs| || h.Freed(cs[..k]) >= target)
  {
    ghost var h := Hold(kernel.procs, tracker.victims);
    var needed := target;
    var i := 0;
    assert BatchSoFar(h, cs[..0], initiator, now, kernel.procs, tracker.victims);
    assert needed == Short(target, h.Freed(cs[..0]));
    assert forall freed: nat :: Short(target, freed) > 0 <==> freed < target;
    hide *;
    while i < |cs| && needed > 0
      invariant 0 <= i <= |cs|
      invariant tracker.Valid() && tracker.clock <= now
      invariant tracker.spikes == old(tracker.spikes) && tracker.cooldowns == old(tracker.cooldowns)
      invariant forall j :: i <= j < |cs| ==> !tracker.IsVictimCooldown(cs[j].pid, COOLDOWN_SECS, now)
      invariant old(tracker.Honest()) ==> tracker.Honest()
      invariant BatchSoFar(h, cs[..i], initiator, now, kernel.procs, tracker.victims)
      invariant needed == Short(target, h.Freed(cs[..i]))
      invariant forall j :: 0 <= j < i ==> h.Freed(cs[..j]) < target
    {
      label before:
      needed := FreezeNext(kernel, tracker, cs, i, needed, initiator, now, h, target);
      forall j | i < j < |cs| ensures !tracker.IsVictimCooldown(cs[j].pid, COOLDOWN_SECS, now) {
        assert !old@before(tracker.IsVictimCooldown(cs[j].pid, COOLDOWN_SECS, now));
      }
      i := i + 1;
    }
    k := i;
  }

  /** The list the freezes are taken from: every eligible process once, ranked. */
  ghost predicate IsAgenda(
    cs: seq<Process>, procs: seq<Process>, exclude: set<Pid>, cooling: set<Pid>, foreground: Option<Pid>,
    s: Settings)
  {
    && InRankOrder(cs, HigherFirst(s.policy))
    && DistinctPids(cs)
    && forall pr :: pr in cs <==> pr in procs && Eligible(pr, exclude, foreground, pr.pid in cooling, s)
  }

  /** The shortest prefix that frees what is needed, or everything. */
  ghost predicate Covers(h: Hold, cs: seq<Process>, k: nat, needed: Kb)
  {
    && k <= |cs|
    && (forall j :: 0 <= j < k ==> h.Freed(cs[..j]) < needed)
    && (k == |cs| || h.Freed(cs[..k]) >= needed)
  }

  ghost predicate Cooling(tracker: ST.SpikeTracker, cooling: set<Pid>, now: Time)
    reads tracker`cooldowns
  {
    forall pid :: pid in cooling <==> tracker.IsVictimCooldown(pid, 60, now)
  }

  method RankEligible(
    tracker: ST.SpikeTracker, procs: seq<Process>, exclude: set<Pid>, foreground: Option<Pid>, s: Settings, now: Time)
    returns (cs: seq<Process>, ghost cooling: set<Pid>)
    requires DistinctPids(procs)
    ensures Cooling(tracker, cooling, now) && IsAgenda(cs, procs, exclude, cooling, foreground, s)
  {
    var eligible := EligibleOf(tracker, procs, exclude, foreground, s, now);
    cs := Ranked(eligible, HigherFirst(s.policy));
    HigherFirstIsWeakOrder(s.policy);
    cooling := set pid | pid in tracker.cooldowns && tracker.IsVictimCooldown(pid, COOLDOWN_SECS, now);
    hide HigherFirst, Eligible;
    RankedIsOrderedPermutation(eligible, HigherFirst(s.policy));
    RankedKeepsDistinct(eligible, HigherFirst(s.policy), (pr: Process) => pr.pid);
    hide tracker.IsVictimCooldown;
  }

  /** Stops eligible processes for a spike's headroom and holds them as victims. */
  method FreezeForHeadroom(
    kernel: Kernel, tracker: ST.SpikeTracker, frozen: set<Pid>, procs: seq<Process>, needed: Kb,
    foreground: Option<Pid>, s: Settings, now: Time)
    returns (ghost cs: seq<Process>, ghost k: nat, ghost initiator: Pid, ghost cooling: set<Pid>)
    requires tracker.Valid() && tracker.clock <= now && DistinctPids(procs) && ST.AnyTracking(tracker.spikes)
    modifies kernel, tracker
    ensures tracker.Valid() && tracker.clock <= now && tracker.spikes == old(tracker.spikes)
    ensures tracker.cooldowns == old(tracker.cooldowns)
    ensures old(tracker.Honest()) ==> tracker.Honest()
    ensures initiator in tracker.spikes && initiator != PID_NONE
    ensures Cooling(tracker, cooling, now)
    ensures IsAgenda(cs, procs, frozen + old(tracker.victims).Keys + tracker.spikes.Keys, cooling, foreground, s)
    ensures Covers(old(Hold(kernel.procs, tracker.victims)), cs, k, needed)
    ensures BatchSoFar(old(Hold(kernel.procs, tracker.victims)), cs[..k], initiator, now, kernel.procs, tracker.victims)
  {
    var exclude := frozen + tracker.victims.Keys + tracker.spikes.Keys;
    var candidates;
    candidates, cooling := RankEligible(tracker, procs, exclude, foreground, s, now);
    cs := candidates;
    SomeSpike(tracker);
    var chosen: Pid := PID_NONE;
    if tracker.spikes != map[] {
      chosen :| chosen in tracker.spikes;
    }
    initiator := chosen;
    assert forall i :: 0 <= i < |cs| ==> cs[i] in cs;
    hide tracker.Valid, tracker.Honest, ST.AnyTracking, Hold.Freed, BatchSoFar, tracker.IsVictimCooldown, InRankOrder, HigherFirst;
    k := FreezeInOrder(kernel, tracker, candidates, needed, chosen, now);
  }

  lemma SomeSpike(tracker: ST.SpikeTracker)
    requires tracker.Valid() && ST.AnyTracking(tracker.spikes)
    ensures tracker.spikes != map[] && forall pid :: pid in tracker.spikes ==> pid != PID_NONE
  {
  }

  // ── the cycle ────────────────────────────────────────────────────────────

  /** At most one decision of an update releases or freezes. */
  lemma FiltersStep(ds: seq<ST.Decision>, i: nat)
    requires i < |ds| && |ST.ReleasesIn(ds)| + |ST.FreezesIn(ds)| <= 1
    ensures ds[i].ReleaseVictims? || ds[i].FreezeForHeadroom? ==>
              && ST.ReleasesIn(ds[..i]) == ST.FreezesIn(ds[..i]) == []
              && ST.ReleasesIn(ds[..i + 1]) == ST.ReleasesIn(ds) == (if ds[i].ReleaseVictims? then [ds[i]] else [])
              && ST.FreezesIn(ds[..i + 1]) == ST.FreezesIn(ds) == (if ds[i].FreezeForHeadroom? then [ds[i]] else [])
    ensures !ds[i].ReleaseVictims? && !ds[i].FreezeForHeadroom? ==>
              ST.ReleasesIn(ds[..i + 1]) == ST.ReleasesIn(ds[..i]) && ST.FreezesIn(ds[..i + 1]) == ST.FreezesIn(ds[..i])
  {
    assert ds[..i + 1][..i] == ds[..i];
    assert ds == ds[..i + 1] + ds[i + 1..];
    ST.ReleasesAppend(ds[..i + 1], ds[i + 1..]);
    ST.FreezesAppend(ds[..i + 1], ds[i + 1..]);
  }

  /** One headroom batch: whom it could take, how far it went, on whose behalf. */
  datatype Batch = Batch(cs: seq<Process>, k: nat, initiator: Pid, cooling: set<Pid>)

  const NO_BATCH: Batch := Batch([], 0, PID_NONE, {})

  /** What carrying out one update's decisions has done to processes and victims. */
  ghost predicate CarriedOut(
    h: Hold, releases: seq<ST.Decision>, freezes: seq<ST.Decision>, held: map<Pid, Victim>, b: Batch,
    spikes: map<Pid, SpikeState.State>, frozen: set<Pid>, procs: seq<Process>, foreground: Option<Pid>, s: Settings,
    now: Time, h': Hold)
  {
    if releases != [] then h' == Hold(Released(h.procs, held), h.victims)
    else if freezes != [] then
      && freezes[0].FreezeForHeadroom?
      && b.initiator in spikes && b.initiator != PID_NONE
      && IsAgenda(b.cs, procs, frozen + h.victims.Keys + spikes.Keys, b.cooling, foreground, s)
      && Covers(h, b.cs, b.k, freezes[0].needed)
      && BatchSoFar(h, b.cs[..b.k], b.initiator, now, h'.procs, h'.victims)
    else h' == h
  }

  /** One decision. Throttle decisions only write a CPU weight. */
  method CarryOut(
    kernel: Kernel, tracker: ST.SpikeTracker, d: ST.Decision, frozen: set<Pid>, procs: seq<Process>,
    foreground: Option<Pid>, s: Settings, now: Time,
    ghost held: map<Pid, Victim>)
    returns (ghost b: Batch)
    requires tracker.Valid() && tracker.clock <= now && DistinctPids(procs)
    requires d.ReleaseVictims? ==> ST.Lists(d.victims, held)
    requires d.FreezeForHeadroom? ==> ST.AnyTracking(tracker.spikes)
    modifies kernel, tracker
    ensures tracker.Valid() && tracker.clock <= now && tracker.spikes == old(tracker.spikes)
    ensures old(tracker.Honest()) ==> tracker.Honest()
    ensures tracker.cooldowns == old(tracker.cooldowns)
    ensures !d.FreezeForHeadroom? ==> tracker.victims == old(tracker.victims)
    ensures d.FreezeForHeadroom? ==> Cooling(tracker, b.cooling, now)
    ensures CarriedOut(old(Hold(kernel.procs, tracker.victims)), if d.ReleaseVictims? then [d] else [], if d.FreezeForHeadroom? then [d] else [],
                       held, b, tracker.spikes, frozen, procs, foreground, s, now, Hold(kernel.procs, tracker.victims))
  {
    b := NO_BATCH;
    hide tracker.Valid, tracker.Honest, ST.AnyTracking, BatchSoFar, IsAgenda, Covers, Released, Cooling, ST.Lists;
    match d
    case ReleaseVictims(victims) =>
      UnfreezeAll(kernel, victims, held);
    case FreezeForHeadroom(needed) =>
      ghost var cs, k, initiator, cooling;
      cs, k, initiator, cooling := FreezeForHeadroom(kernel, tracker, frozen, procs, needed, foreground, s, now);
      b := Batch(cs, k, initiator, cooling);
    case ThrottleSpike(_, _) =>
    case RestoreThrottle(_, _) =>
  }

  /** Where the decisions carried out so far, with these releases and freezes among
      them, have led from `h`. */
  ghost predicate DoneSoFar(
    tracker: ST.SpikeTracker, h: Hold, releases: seq<ST.Decision>, freezes: seq<ST.Decision>, held: map<Pid, Victim>,
    b: Batch, frozen: set<Pid>, procs: seq<Process>, foreground: Option<Pid>, s: Settings, now: Time, h': Hold)
    reads tracker
  {
    && (freezes == [] ==> h'.victims == h.victims)
    && (freezes != [] ==> Cooling(tracker, b.cooling, now))
    && CarriedOut(h, releases, freezes, held, b, tracker.spikes, frozen, procs, foreground, s, now, h')
  }

  method CarryOutNext(
    kernel: Kernel, tracker: ST.SpikeTracker, ds: seq<ST.Decision>, i: nat, frozen: set<Pid>, procs: seq<Process>,
    foreground: Option<Pid>, s: Settings, now: Time, ghost held: map<Pid, Victim>, ghost h: Hold, ghost b: Batch)
    returns (ghost b': Batch)
    requires tracker.Valid() && tracker.clock <= now && DistinctPids(procs) && i < |ds|
    requires |ST.ReleasesIn(ds)| + |ST.FreezesIn(ds)| <= 1
    requires forall d :: d in ST.ReleasesIn(ds) ==> d.ReleaseVictims? && ST.Lists(d.victims, held)
    requires ST.FreezesIn(ds) != [] ==> ST.AnyTracking(tracker.spikes)
    requires DoneSoFar(tracker, h, ST.ReleasesIn(ds[..i]), ST.FreezesIn(ds[..i]), held, b, frozen, procs, foreground, s, now,
                       Hold(kernel.procs, tracker.victims))
    modifies kernel, tracker
    ensures tracker.Valid() && tracker.clock <= now && tracker.spikes == old(tracker.spikes)
    ensures old(tracker.Honest()) ==> tracker.Honest()
    ensures DoneSoFar(tracker, h, ST.ReleasesIn(ds[..i + 1]), ST.FreezesIn(ds[..i + 1]), held, b', frozen, procs, foreground, s, now,
                      Hold(kernel.procs, tracker.victims))
  {
    b' := b;
    ghost var now0 := Hold(kernel.procs, tracker.victims);
    DoneMeans(tracker, h, ST.ReleasesIn(ds[..i]), ST.FreezesIn(ds[..i]), held, b, frozen, procs, foreground, s, now, now0);
    FiltersStep(ds, i);
    hide *;
    if ds[i].ReleaseVictims? || ds[i].FreezeForHeadroom? {
      NothingCarriedOut(h, held, b, tracker.spikes, frozen, procs, foreground, s, now, now0);
      assert ds[i].ReleaseVictims? ==> ds[i] in ST.ReleasesIn(ds);
      b' := CarryOut(kernel, tracker, ds[i], frozen, procs, foreground, s, now, held);
      DoneMeans(tracker, h, ST.ReleasesIn(ds[..i + 1]), ST.FreezesIn(ds[..i + 1]), held, b', frozen, procs, foreground, s, now,
                Hold(kernel.procs, tracker.victims));
    }
  }

  lemma DoneMeans(
    tracker: ST.SpikeTracker, h: Hold, releases: seq<ST.Decision>, freezes: seq<ST.Decision>, held: map<Pid, Victim>,
    b: Batch, frozen: set<Pid>, procs: seq<Process>, foreground: Option<Pid>, s: Settings, now: Time, h': Hold)
    ensures DoneSoFar(tracker, h, releases, freezes, held, b, frozen, procs, foreground, s, now, h') <==>
      && (freezes == [] ==> h'.victims == h.victims)
      && (freezes != [] ==> Cooling(tracker, b.cooling, now))
      && CarriedOut(h, releases, freezes, held, b, tracker.spikes, frozen, procs, foreground, s, now, h')
  {
    hide Cooling, CarriedOut;
  }

  method CarryOutAll(
    kernel: Kernel, tracker: ST.SpikeTracker, ds: seq<ST.Decision>, frozen: set<Pid>, procs: seq<Process>,
    foreground: Option<Pid>, s: Settings, now: Time, ghost held: map<Pid, Victim>)
    returns (ghost b: Batch)
    requires tracker.Valid() && tracker.clock <= now && DistinctPids(procs)
    requires |ST.ReleasesIn(ds)| + |ST.FreezesIn(ds)| <= 1
    requires forall d :: d in ST.ReleasesIn(ds) ==> d.ReleaseVictims? && ST.Lists(d.victims, held)
    requires ST.FreezesIn(ds) != [] ==> ST.AnyTracking(tracker.spikes)
    modifies kernel, tracker
    ensures tracker.Valid() && tracker.clock <= now && tracker.spikes == old(tracker.spikes)
    ensures old(tracker.Honest()) ==> tracker.Honest()
    ensures ST.FreezesIn(ds) == [] ==> tracker.victims == old(tracker.victims)
    ensures ST.FreezesIn(ds) != [] ==> Cooling(tracker, b.cooling, now)
    ensures CarriedOut(old(Hold(kernel.procs, tracker.victims)), ST.ReleasesIn(ds), ST.FreezesIn(ds),
                       held, b, tracker.spikes, frozen, procs, foreground, s, now, Hold(kernel.procs, tracker.victims))
  {
    b := NO_BATCH;
    ghost var h := Hold(kernel.procs, tracker.victims);
    var i := 0;
    NothingIn(ds);
    NothingCarriedOut(h, held, b, tracker.spikes, frozen, procs, foreground, s, now, h);
    assert DoneSoFar(tracker, h, [], [], held, b, frozen, procs, foreground, s, now, h);
    hide *;
    while i < |ds|
      invariant 0 <= i <= |ds|
      invariant tracker.Valid() && tracker.clock <= now && tracker.spikes == old(tracker.spikes)
      invariant old(tracker.Honest()) ==> tracker.Honest()
      invariant DoneSoFar(tracker, h, ST.ReleasesIn(ds[..i]), ST.FreezesIn(ds[..i]), held, b, frozen, procs, foreground, s, now,
                          Hold(kernel.procs, tracker.victims))
    {
      b := CarryOutNext(kernel, tracker, ds, i, frozen, procs, foreground, s, now, held, h, b);
      i := i + 1;
    }
    assert ds[..|ds|] == ds;
    DoneMeans(tracker, h, ST.ReleasesIn(ds), ST.FreezesIn(ds), held, b, frozen, procs, foreground, s, now,
              Hold(kernel.procs, tracker.victims));
  }

  lemma NothingIn(ds: seq<ST.Decision>)
    ensures ST.ReleasesIn(ds[..0]) == ST.FreezesIn(ds[..0]) == []
  {
  }

  lemma NothingCarriedOut(
    h: Hold, held: map<Pid, Victim>, b: Batch,
    spikes: map<Pid, SpikeState.State>, frozen: set<Pid>, procs: seq<Process>, foreground: Option<Pid>, s: Settings,
    now: Time, h': Hold)
    ensures CarriedOut(h, [], [], held, b, spikes, frozen, procs, foreground, s, now, h') <==> h' == h
  {
  }

  ghost predicate FreshVictim(pid: Pid, v: Victim, procs: Procs, spikes: map<Pid, SpikeState.State>, now: Time)
  {
    && v.pid == pid && v.frozenAt == now
    && v.initiator in spikes && v.initiator != PID_NONE
    && pid in procs && procs[pid].stopped && procs[pid].start == v.start
  }

  /** Every record is an old one or that of a process really stopped now, for a
      spike that exists. */
  ghost predicate RecordsAreReal(h: Hold, h': Hold, spikes: map<Pid, SpikeState.State>, now: Time)
  {
    forall pid :: pid in h'.victims ==>
      (pid in h.victims && h'.victims[pid] == h.victims[pid]) || FreshVictim(pid, h'.victims[pid], h'.procs, spikes, now)
  }

  /** Who lost its record runs, and nobody is stopped without one. */
  ghost predicate UnrecordedRun(h: Hold, h': Hold)
  {
    && h'.procs.Keys == h.procs.Keys
    && (forall pid :: pid in h.victims && pid !in h'.victims && h.CanStop(pid) && h.procs[pid].start == h.victims[pid].start ==>
          !h'.procs[pid].stopped)
    && (forall pid :: pid in h.procs && pid !in h'.victims && !h.procs[pid].stopped ==> !h'.procs[pid].stopped)
    && (forall pid :: pid in h.procs ==> h'.procs[pid].start == h.procs[pid].start && h'.procs[pid].signalable == h.procs[pid].signalable)
  }

  /** Processes frozen by other paths stay as they are and never become victims. */
  ghost predicate OthersSpared(h: Hold, h': Hold, frozen: set<Pid>)
  {
    && h'.procs.Keys == h.procs.Keys
    && (forall pid :: pid in frozen && pid in h.procs && pid !in h.victims ==> h'.procs[pid] == h.procs[pid])
    && (forall pid :: pid in frozen && pid !in h.victims ==> pid !in h'.victims)
  }

  ghost predicate StillAccounted(h: Hold, h': Hold, frozen: set<Pid>)
  {
    Accounted(h.procs, h.victims, frozen) ==> Accounted(h'.procs, h'.victims, frozen)
  }

  /** What a cycle owes to processes and victims, whatever it decides. */
  ghost predicate KeepsFaith(h: Hold, h': Hold, spikes: map<Pid, SpikeState.State>, frozen: set<Pid>, now: Time)
  {
    && RecordsAreReal(h, h', spikes, now)
    && UnrecordedRun(h, h')
    && OthersSpared(h, h', frozen)
    && StillAccounted(h, h', frozen)
  }

  lemma ReleaseKeepsFaith(h: Hold, h': Hold, spikes: map<Pid, SpikeState.State>, frozen: set<Pid>, now: Time)
    requires ReleasedSince(h.procs, h.victims, h'.procs, h'.victims)
    ensures KeepsFaith(h, h', spikes, frozen, now)
  {
    hide FreshVictim, Accounted;
    if Accounted(h.procs, h.victims, frozen) {
      ReleaseKeepsAccounted(h.procs, h.victims, h'.victims, frozen);
    }
  }

  lemma BatchRecordsAreReal(
    h: Hold, h': Hold, cs: seq<Process>, initiator: Pid, spikes: map<Pid, SpikeState.State>, now: Time)
    requires DistinctPids(cs) && PidsOf(cs) !! h.victims.Keys && initiator in spikes && initiator != PID_NONE
    requires BatchSoFar(h, cs, initiator, now, h'.procs, h'.victims)
    ensures RecordsAreReal(h, h', spikes, now)
  {
    BatchStops(h, cs, initiator, now);
    BatchRecords(h, cs, initiator, now);
    hide DistinctPids, BatchSoFar, Hold.FreezeAll;
  }

  lemma BatchStopsOnlyRecorded(h: Hold, h': Hold, cs: seq<Process>, initiator: Pid, frozen: set<Pid>, now: Time)
    requires DistinctPids(cs) && PidsOf(cs) !! frozen + h.victims.Keys
    requires BatchSoFar(h, cs, initiator, now, h'.procs, h'.victims)
    ensures UnrecordedRun(h, h') && OthersSpared(h, h', frozen)
  {
    BatchStops(h, cs, initiator, now);
    BatchRecords(h, cs, initiator, now);
    hide DistinctPids, BatchSoFar, Hold.FreezeAll, PidsOf;
  }

  lemma BatchStaysAccounted(h: Hold, h': Hold, cs: seq<Process>, initiator: Pid, frozen: set<Pid>, now: Time)
    requires DistinctPids(cs)
    requires BatchSoFar(h, cs, initiator, now, h'.procs, h'.victims)
    ensures StillAccounted(h, h', frozen)
  {
    BatchStops(h, cs, initiator, now);
    BatchRecords(h, cs, initiator, now);
    hide DistinctPids, BatchSoFar, Hold.FreezeAll;
  }

  lemma BatchIsOutside(
    cs: seq<Process>, k: nat, procs: seq<Process>, exclude: set<Pid>, cooling: set<Pid>, foreground: Option<Pid>,
    s: Settings)
    requires IsAgenda(cs, procs, exclude, cooling, foreground, s) && k <= |cs|
    ensures DistinctPids(cs[..k]) && PidsOf(cs[..k]) !! exclude
  {
    assert forall c :: c in cs[..k] ==> c in cs;
  }

  /** Releases first, then a batch. */
  lemma FaithComposes(h: Hold, mid: Hold, h': Hold, spikes: map<Pid, SpikeState.State>, frozen: set<Pid>, now: Time)
    requires ReleasedSince(h.procs, h.victims, mid.procs, mid.victims)
    requires KeepsFaith(mid, h', spikes, frozen, now)
    ensures KeepsFaith(h, h', spikes, frozen, now)
  {
    ReleaseKeepsFaith(h, mid, spikes, frozen, now);
    hide FreshVictim, Accounted, Released;
  }

  lemma CarriedOutKeepsFaith(
    h: Hold, mid: Hold, releases: seq<ST.Decision>, freezes: seq<ST.Decision>, b: Batch,
    spikes: map<Pid, SpikeState.State>, frozen: set<Pid>,
    procs: seq<Process>, foreground: Option<Pid>, s: Settings, now: Time, h': Hold)
    requires ReleasedSince(h.procs, h.victims, mid.procs, mid.victims)
    requires CarriedOut(mid.(victims := if releases == [] then mid.victims else map[]), releases, freezes, mid.victims, b,
                        spikes, frozen, procs, foreground, s, now, h')
    ensures KeepsFaith(h, h', spikes, frozen, now)
  {
    hide ReleasedSince, Released, IsAgenda, Covers, BatchSoFar, KeepsFaith;
    if releases != [] {
      ReleasedMore(h.procs, h.victims, mid.procs, mid.victims, mid.victims);
      assert mid.victims - mid.victims.Keys == map[];
      ReleaseKeepsFaith(h, h', spikes, frozen, now);
    } else if freezes != [] {
      CoversIsPrefix(mid, b, freezes[0].needed);
      BatchIsOutside(b.cs, b.k, procs, frozen + mid.victims.Keys + spikes.Keys, b.cooling, foreground, s);
      BatchKeepsFaith(mid, h', b.cs[..b.k], b.initiator, spikes, frozen, now);
      FaithComposes(h, mid, h', spikes, frozen, now);
    } else {
      ReleaseKeepsFaith(h, h', spikes, frozen, now);
    }
  }

  lemma CoversIsPrefix(h: Hold, b: Batch, needed: Kb)
    requires Covers(h, b.cs, b.k, needed)
    ensures b.k <= |b.cs|
  {
  }

  lemma BatchKeepsFaith(
    h: Hold, h': Hold, cs: seq<Process>, initiator: Pid, spikes: map<Pid, SpikeState.State>, frozen: set<Pid>,
    now: Time)
    requires DistinctPids(cs) && PidsOf(cs) !! frozen + h.victims.Keys
    requires initiator in spikes && initiator != PID_NONE
    requires BatchSoFar(h, cs, initiator, now, h'.procs, h'.victims)
    ensures KeepsFaith(h, h', spikes, frozen, now)
  {
    BatchRecordsAreReal(h, h', cs, initiator, spikes, now);
    BatchStopsOnlyRecorded(h, h', cs, initiator, frozen, now);
    BatchStaysAccounted(h, h', cs, initiator, frozen, now);
    hide RecordsAreReal, UnrecordedRun, OthersSpared, StillAccounted;
  }

  // ── who becomes a victim ─────────────────────────────────────────────────

  /** A process of the scan that spike mode may hold: expendable, large, not on the
      exclude list and not the one the user works with. */
  predicate MayBeHeld(pr: Process, foreground: Option<Pid>, s: Settings)
  {
    && foreground != Some(pr.pid)
    && pr.rss + pr.swap >= s.victimMinRss
    && s.policy.priorityFor(pr.name, pr.exe) >= 60
    && !s.victimExclude(pr.name)
  }

  /** Whoever was recorded anew may be held; the foreground process is not touched. */
  ghost predicate OnlyExpendable(h: Hold, h': Hold, procs: seq<Process>, foreground: Option<Pid>, s: Settings)
  {
    && (forall pid :: pid in h'.victims && (pid !in h.victims || h'.victims[pid] != h.victims[pid]) ==>
          exists pr :: pr in procs && pr.pid == pid && pr.name == h'.victims[pid].name && MayBeHeld(pr, foreground, s))
    && (foreground.Some? && foreground.value in h.procs && foreground.value !in h.victims ==>
          foreground.value in h'.procs && h'.procs[foreground.value] == h.procs[foreground.value])
  }

  /** Of two processes that may be held the first goes no later: by priority, then by
      resident memory. */
  predicate GoesNoLater(a: Process, b: Process, policy: Policy)
  {
    var (pa, pb) := (policy.priorityFor(a.name, a.exe), policy.priorityFor(b.name, b.exe));
    pa > pb || (pa == pb && a.rss >= b.rss)
  }

  /** A process that could have been held and was not: what was stopped before its turn
      covers the need, and none of it should have gone later. */
  ghost predicate SparedRightly(mid: Hold, b: Batch, needed: Kb, pr: Process, policy: Policy)
  {
    && b.k <= |b.cs| && mid.Freed(b.cs[..b.k]) >= needed
    && forall c :: c in b.cs[..b.k] ==> GoesNoLater(c, pr, policy)
  }

  lemma AgendaInFields(
    cs: seq<Process>, procs: seq<Process>, exclude: set<Pid>, cooling: set<Pid>, foreground: Option<Pid>, s: Settings)
    requires IsAgenda(cs, procs, exclude, cooling, foreground, s)
    ensures forall pr :: pr in cs <==> pr in procs && pr.pid !in exclude && pr.pid !in cooling && MayBeHeld(pr, foreground, s)
    ensures forall i, j :: 0 <= i < j < |cs| ==> GoesNoLater(cs[i], cs[j], s.policy)
    ensures DistinctPids(cs)
  {
    forall i, j | 0 <= i < j < |cs| ensures GoesNoLater(cs[i], cs[j], s.policy) {
      assert !HigherFirst(s.policy)(cs[j], cs[i]);
    }
  }

  lemma BatchIsExpendable(
    h: Hold, h': Hold, cs: seq<Process>, k: nat, initiator: Pid, procs: seq<Process>, exclude: set<Pid>,
    cooling: set<Pid>, foreground: Option<Pid>, s: Settings, now: Time)
    requires IsAgenda(cs, procs, exclude, cooling, foreground, s) && k <= |cs| && h.victims.Keys <= exclude
    requires BatchSoFar(h, cs[..k], initiator, now, h'.procs, h'.victims)
    ensures OnlyExpendable(h, h', procs, foreground, s)
  {
    BatchIsOutside(cs, k, procs, exclude, cooling, foreground, s);
    AgendaInFields(cs, procs, exclude, cooling, foreground, s);
    assert forall c :: c in cs[..k] ==> c in cs;
    BatchStops(h, cs[..k], initiator, now);
    hide IsAgenda, BatchSoFar, Hold.FreezeAll, DistinctPids, MayBeHeld, PidsOf;
    NewVictimsAreOfBatch(h, h', cs[..k], initiator, now);
    ForegroundStays(h, h', cs[..k], foreground, s);
  }

  lemma NewVictimsAreOfBatch(h: Hold, h': Hold, batch: seq<Process>, initiator: Pid, now: Time)
    requires DistinctPids(batch) && PidsOf(batch) !! h.victims.Keys
    requires BatchSoFar(h, batch, initiator, now, h'.procs, h'.victims)
    ensures h'.procs == h.FreezeAll(batch, initiator, now).procs
    ensures forall pid :: pid in h'.victims ==>
              || (pid in h.victims && h'.victims[pid] == h.victims[pid])
              || exists c :: c in batch && c.pid == pid && c.name == h'.victims[pid].name
    ensures h.victims.Keys <= h'.victims.Keys
    ensures forall c :: c in batch && h.CanStop(c.pid) ==> c.pid in h'.victims
  {
    BatchRecords(h, batch, initiator, now);
    hide Hold.FreezeAll, DistinctPids;
  }

  lemma ForegroundStays(h: Hold, h': Hold, batch: seq<Process>, foreground: Option<Pid>, s: Settings)
    requires forall c :: c in batch ==> MayBeHeld(c, foreground, s)
    requires h'.procs == map pid | pid in h.procs ::
      if pid in PidsOf(batch) && h.CanStop(pid) then h.procs[pid].(stopped := true) else h.procs[pid]
    ensures foreground.Some? && foreground.value in h.procs ==>
      foreground.value in h'.procs && h'.procs[foreground.value] == h.procs[foreground.value]
  {
  }

  lemma CarriedOutIsExpendable(
    h: Hold, mid: Hold, releases: seq<ST.Decision>, freezes: seq<ST.Decision>, b: Batch,
    spikes: map<Pid, SpikeState.State>, frozen: set<Pid>,
    procs: seq<Process>, foreground: Option<Pid>, s: Settings, now: Time, h': Hold)
    requires ReleasedSince(h.procs, h.victims, mid.procs, mid.victims)
    requires CarriedOut(mid.(victims := if releases == [] then mid.victims else map[]), releases, freezes, mid.victims, b,
                        spikes, frozen, procs, foreground, s, now, h')
    ensures OnlyExpendable(h, h', procs, foreground, s)
  {
    hide IsAgenda, Covers, BatchSoFar, MayBeHeld;
    if releases == [] && freezes != [] {
      CoversIsPrefix(mid, b, freezes[0].needed);
      BatchIsExpendable(mid, h', b.cs, b.k, b.initiator, procs, frozen + mid.victims.Keys + spikes.Keys, b.cooling, foreground, s, now);
    }
  }

  lemma NobodyJumpsTheQueue(
    mid: Hold, freezes: seq<ST.Decision>, b: Batch, spikes: map<Pid, SpikeState.State>, frozen: set<Pid>,
    procs: seq<Process>, foreground: Option<Pid>, s: Settings, now: Time, h': Hold, pr: Process)
    requires freezes != [] && CarriedOut(mid, [], freezes, mid.victims, b, spikes, frozen, procs, foreground, s, now, h')
    requires pr in procs && MayBeHeld(pr, foreground, s) && pr.pid !in frozen + spikes.Keys + b.cooling
    requires mid.CanStop(pr.pid) && pr.pid !in h'.victims
    ensures SparedRightly(mid, b, freezes[0].needed, pr, s.policy)
  {
    var exclude := frozen + mid.victims.Keys + spikes.Keys;
    CoversMeans(mid, b, freezes[0].needed);
    AgendaInFields(b.cs, procs, exclude, b.cooling, foreground, s);
    BatchIsOutside(b.cs, b.k, procs, exclude, b.cooling, foreground, s);
    NewVictimsAreOfBatch(mid, h', b.cs[..b.k], b.initiator, now);
    hide *;
    LeftoverGoesLater(b, pr, s.policy);
  }

  lemma LeftoverGoesLater(b: Batch, pr: Process, policy: Policy)
    requires b.k <= |b.cs| && pr in b.cs && pr !in b.cs[..b.k]
    requires forall i, j :: 0 <= i < j < |b.cs| ==> GoesNoLater(b.cs[i], b.cs[j], policy)
    ensures b.k < |b.cs| && forall c :: c in b.cs[..b.k] ==> GoesNoLater(c, pr, policy)
  {
    hide GoesNoLater;
    var rest := b.cs[b.k..];
    assert b.cs == b.cs[..b.k] + rest;
    var m :| 0 <= m < |rest| && rest[m] == pr;
    assert b.cs[b.k + m] == pr;
  }

  lemma CoversMeans(h: Hold, b: Batch, needed: Kb)
    requires Covers(h, b.cs, b.k, needed)
    ensures b.k <= |b.cs| && (b.k < |b.cs| ==> h.Freed(b.cs[..b.k]) >= needed)
  {
  }

  /** A whole cycle: releases, one update, its decisions. The ghost results are the
      state after the releases, the update's decisions and the batch they froze. */
  method RunSpikeCycle(
    kernel: Kernel, tracker: ST.SpikeTracker, frozen: set<Pid>, procs: seq<Process>, available: Kb, manual: seq<Pid>,
    focus: Option<Pid>, foreground: Option<Pid>, s: Settings, now: Time)
    returns (ghost mid: Hold, ghost ds: seq<ST.Decision>, ghost b: Batch)
    requires tracker.Valid() && tracker.clock <= now
    requires DistinctPids(procs) && forall pr :: pr in procs ==> pr.pid != PID_NONE
    modifies kernel, tracker
    // The invariants, and what is owed to processes and victims.
    ensures tracker.Valid() && tracker.clock <= now
    ensures old(tracker.Honest()) ==> tracker.Honest()
    ensures tracker.HeldForAReason()
    ensures KeepsFaith(
              old(Hold(kernel.procs, tracker.victims)), Hold(kernel.procs, tracker.victims), tracker.spikes, frozen, now)
    ensures OnlyExpendable(
              old(Hold(kernel.procs, tracker.victims)), Hold(kernel.procs, tracker.victims), procs, foreground, s)
    // Exactly the victims that must go are released first.
    ensures ReleasedSince(old(kernel.procs), old(tracker.victims), mid.procs, mid.victims)
    ensures mid.victims == HeldOn(
              old(tracker.victims), old(tracker.spikes - (tracker.spikes.Keys - PidsOf(procs))), s.maxVictimFreezeSecs, manual, now)
    // Then the tracker makes one update, if spike mode is on.
    ensures if s.enabled then Ticked(old(tracker.spikes), old(tracker.prevRss), old(tracker.prevMajflt), procs, focus, s, now, tracker.spikes, ds)
            else tracker.spikes == old(tracker.spikes - (tracker.spikes.Keys - PidsOf(procs))) && ds == []
    ensures ST.FreezesIn(ds) == if s.enabled then ST.HeadroomFor(tracker.spikes, available, s.params) else []
    // And its decisions are carried out, sparing whoever is in cooldown.
    ensures ST.FreezesIn(ds) != [] ==> Cooling(tracker, b.cooling, now)
    ensures CarriedOut(mid.(victims := if ST.ReleasesIn(ds) == [] then mid.victims else map[]), ST.ReleasesIn(ds), ST.FreezesIn(ds),
                       mid.victims, b, tracker.spikes, frozen, procs, foreground, s, now, Hold(kernel.procs, tracker.victims))
  {
    hide *;
    ghost var h := Hold(kernel.procs, tracker.victims);
    ReleaseVictims(kernel, tracker, s.maxVictimFreezeSecs, PidsOf(procs), manual, now);
    mid := Hold(kernel.procs, tracker.victims);
    ghost var log := tracker.log;
    var decisions: seq<ST.Decision> := [];
    if s.enabled {
      TickedMeans(tracker, procs, focus, s, now);
      decisions := tracker.Update(procs, available, s.params, focus, now);
      TickedBy(old(tracker.spikes), old(tracker.prevRss), old(tracker.prevMajflt), procs, focus, s, now, tracker.spikes, decisions);
      HeldMeans(mid.victims, log, tracker, ST.ReleasesIn(decisions), now);
      ST.HeadroomOnlyForTracking(tracker.spikes, available, s.params);
      ST.HeadroomIsOne(tracker.spikes, available, s.params);
    } else {
      NothingIn(decisions);
      assert decisions[..0] == decisions;
    }
    ds := decisions;
    b := CarryOutAll(kernel, tracker, decisions, frozen, procs, foreground, s, now, mid.victims);
    CarriedOutKeepsFaith(
      h, mid, ST.ReleasesIn(ds), ST.FreezesIn(ds), b, tracker.spikes, frozen, procs, foreground, s, now,
      Hold(kernel.procs, tracker.victims));
    CarriedOutIsExpendable(
      h, mid, ST.ReleasesIn(ds), ST.FreezesIn(ds), b, tracker.spikes, frozen, procs, foreground, s, now,
      Hold(kernel.procs, tracker.victims));
    tracker.ValidMeans();
  }

  /** Everything known of the processes that exited is forgotten, candidates are
      registered, and every tracked process of the scan makes one tick. */
  ghost predicate Ticked(
    spikes0: map<Pid, SpikeState.State>, prevRss0: map<Pid, Kb>, prevMajflt0: map<Pid, U64>, procs: seq<Process>, focus: Option<Pid>,
    s: Settings, now: Time, spikes: map<Pid, SpikeState.State>, ds: seq<ST.Decision>)
  {
    var gone := spikes0.Keys - PidsOf(procs);
    var started := ST.AfterRegistration(spikes0 - gone, ST.ByPid(procs), prevRss0 - gone, prevMajflt0 - gone, s.params);
    ST.Answered(started, ST.ByPid(procs), ST.Reading(prevRss0 - gone, focus, now, s.params), spikes, ds)
  }

  lemma TickedMeans(tracker: ST.SpikeTracker, procs: seq<Process>, focus: Option<Pid>, s: Settings, now: Time)
    ensures tracker.Started(procs, s.params)
         == ST.AfterRegistration(tracker.spikes, ST.ByPid(procs), tracker.prevRss, tracker.prevMajflt, s.params)
  {
  }

  lemma TickedBy(
    spikes0: map<Pid, SpikeState.State>, prevRss0: map<Pid, Kb>, prevMajflt0: map<Pid, U64>, procs: seq<Process>, focus: Option<Pid>,
    s: Settings, now: Time, spikes: map<Pid, SpikeState.State>, ds: seq<ST.Decision>)
    requires var gone := spikes0.Keys - PidsOf(procs);
      ST.Answered(ST.AfterRegistration(spikes0 - gone, ST.ByPid(procs), prevRss0 - gone, prevMajflt0 - gone, s.params),
                  ST.ByPid(procs), ST.Reading(prevRss0 - gone, focus, now, s.params), spikes, ds)
    ensures Ticked(spikes0, prevRss0, prevMajflt0, procs, focus, s, now, spikes, ds)
  {
    hide ST.Answered;
  }

  lemma HeldMeans(
    victims0: map<Pid, Victim>, log0: seq<Event>, tracker: ST.SpikeTracker, releases: seq<ST.Decision>, now: Time)
    requires ST.GivenBack(victims0, log0, tracker.victims, tracker.log, releases, now)
    ensures |releases| <= 1 && forall d :: d in releases ==> d.ReleaseVictims? && ST.Lists(d.victims, victims0)
    ensures tracker.victims == if releases == [] then victims0 else map[]
  {
    hide ST.Lists;
  }
}
