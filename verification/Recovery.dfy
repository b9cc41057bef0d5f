/** The recovery thread's two passes: unfreeze aged entries, restore one
    checkpoint. */
module Recovery {
  import opened Types
  import opened Collections
  import opened Executor
  import Health

  const MAX_RESTORE_ATTEMPTS: nat := 3
  const MIN_FREEZE_AGE_SECS: nat := 15
  const MAX_UNFREEZE_PER_CYCLE: nat := 4

  // ── unfreeze ─────────────────────────────────────────────────────────────

  /** Entry and process after the entry was worked off, if it was. */
  ghost predicate PassedOver(pid: Pid, before: FrozenEntry, now: nat, procs: Procs)
  {
    || Elapsed(now, before.frozenAt) < 15
    || (pid in procs && procs[pid].start == before.start && !procs[pid].signalable)
  }

  /** Runs with the registry locked throughout, so nothing interleaves. */
  method UnfreezePass(
    kernel: Kernel, registry: FrozenRegistry, baseline: Health.HealthBaseline, available: Kb, total: Kb, now: nat
  ) returns (released: set<Pid>)
    modifies kernel, registry
    // Only aged entries go, four at most, and none while RAM is short.
    ensures released <= old(registry.frozen).Keys && |released| <= 4
    ensures forall pid :: pid in released ==> !PassedOver(pid, old(registry.frozen)[pid], now, old(kernel.procs))
    ensures !baseline.SafeToRestore(available, total, 0) ==> released == {}
    // A pass that stops short of four has left only entries it must leave.
    ensures baseline.SafeToRestore(available, total, 0) && |released| < 4 ==>
              forall pid :: pid in registry.frozen ==>
                PassedOver(pid, registry.frozen[pid], now, old(kernel.procs))
    // Exactly the released entries are gone and exactly their processes run.
    ensures registry.frozen == old(registry.frozen) - released
    ensures kernel.procs.Keys == old(kernel.procs).Keys
    ensures forall pid :: pid in kernel.procs ==>
              var p := old(kernel.procs)[pid];
              kernel.procs[pid] ==
                if pid in released && old(registry.frozen)[pid].start == p.start then p.(stopped := false) else p
  {
    released := {};
    var left := registry.frozen.Keys;
    while left != {}
      invariant left <= old(registry.frozen).Keys
      invariant released <= old(registry.frozen).Keys - left && |released| <= MAX_UNFREEZE_PER_CYCLE
      invariant forall pid :: pid in released ==> !PassedOver(pid, old(registry.frozen)[pid], now, old(kernel.procs))
      invariant !baseline.SafeToRestore(available, total, 0) ==> released == {}
      invariant forall pid :: pid in old(registry.frozen).Keys - left - released ==>
                  PassedOver(pid, old(registry.frozen)[pid], now, old(kernel.procs))
      invariant registry.frozen == old(registry.frozen) - released
      invariant kernel.procs.Keys == old(kernel.procs).Keys
      invariant forall pid :: pid in kernel.procs ==>
                  var p := old(kernel.procs)[pid];
                  kernel.procs[pid] ==
                    if pid in released && old(registry.frozen)[pid].start == p.start then p.(stopped := false) else p
      decreases left
    {
      if |released| >= MAX_UNFREEZE_PER_CYCLE { break; }
      if !baseline.SafeToRestore(available, total, 0) { break; }
      var pid :| pid in left;
      left := left - {pid};
      var age := Elapsed(now, registry.FrozenAt(pid));
      if age < MIN_FREEZE_AGE_SECS { continue; }
      var ok := kernel.UnfreezeChecked(pid, registry.StartTime(pid));
      if ok {
        registry.Remove(pid);
        released := released + {pid};
      }
    }
  }

  // ── restore ──────────────────────────────────────────────────────────────

  datatype Checkpointed = Checkpointed(name: string, rss: Kb, attempts: nat)

  /** Passes an entry can still cost: its remaining attempts, or its removal. */
  function Weight(e: Checkpointed): nat
  {
    if e.attempts >= MAX_RESTORE_ATTEMPTS then 1 else 4 - e.attempts
  }

  function Weights(entries: map<Pid, Checkpointed>): map<Pid, nat>
  {
    map pid | pid in entries :: Weight(entries[pid])
  }

  /** Passes the whole registry can still cost. */
  ghost function Work(entries: map<Pid, Checkpointed>): nat { MapTotal(Weights(entries)) }

  lemma WorkWithout(entries: map<Pid, Checkpointed>, pid: Pid)
    requires pid in entries
    ensures Work(entries) == Weight(entries[pid]) + Work(entries - {pid})
  {
    TakeOut(Weights(entries), pid);
    assert Weights(entries - {pid}) == Weights(entries) - {pid};
  }

  lemma WorkAfterFailure(entries: map<Pid, Checkpointed>, pid: Pid)
    requires pid in entries && entries[pid].attempts < MAX_RESTORE_ATTEMPTS
    ensures var e := entries[pid];
      Work(entries[pid := e.(attempts := e.attempts + 1)]) + 1 == Work(entries)
  {
    var e := entries[pid].(attempts := entries[pid].attempts + 1);
    WorkWithout(entries, pid);
    WorkWithout(entries[pid := e], pid);
    assert entries[pid := e] - {pid} == entries - {pid};
  }

  lemma WorkBounds(entries: map<Pid, Checkpointed>)
    ensures Work(entries) <= 4 * |entries|
    ensures Work(entries) == 0 <==> entries == map[]
  {
    TotalAtMost(Weights(entries), 4);
    TotalIsZeroOnlyWhen(Weights(entries));
    assert Weights(entries).Keys == entries.Keys;
    assert forall pid :: pid in entries ==> Weights(entries)[pid] > 0;
    assert entries != map[] ==> exists pid :: pid in Weights(entries);
  }

  datatype RestoreOutcome = Empty | Abandoned(pid: Pid) | Restored(pid: Pid) | FailedAttempt(pid: Pid) | Skipped(pid: Pid)

  class CheckpointRegistry {
    var entries: map<Pid, Checkpointed>

    constructor ()
      ensures entries == map[]
    {
      entries := map[];
    }

    method Add(pid: Pid, name: string, rss: Kb)
      modifies this
      ensures entries == old(entries)[pid := Checkpointed(name, rss, 0)]
    {
      entries := entries[pid := Checkpointed(name, rss, 0)];
    }

    method Remove(pid: Pid)
      modifies this
      ensures entries == old(entries) - {pid}
    {
      entries := entries - {pid};
    }

    method IncrementAttempts(pid: Pid)
      modifies this
      ensures pid !in old(entries) ==> entries == old(entries)
      ensures pid in old(entries) ==>
                entries == old(entries)[pid := old(entries)[pid].(attempts := old(entries)[pid].attempts + 1)]
    {
      if pid in entries {
        entries := entries[pid := entries[pid].(attempts := entries[pid].attempts + 1)];
      }
    }

    /** Every entry once, by RSS; ties come in any order. */
    method EntriesLightestFirst() returns (order: seq<Pid>)
      ensures LightestFirst(entries, order, entries.Keys)
      ensures |order| == |entries|
    {
      order := [];
      var left := entries.Keys;
      while left != {}
        invariant left <= entries.Keys
        invariant LightestFirst(entries, order, entries.Keys - left)
        invariant |order| + |left| == |entries|
        decreases left
      {
        var pid :| pid in left;
        var k := 0;
        while k < |order| && entries[order[k]].rss <= entries[pid].rss
          invariant 0 <= k <= |order|
          invariant k > 0 ==> entries[order[k - 1]].rss <= entries[pid].rss
        {
          k := k + 1;
        }
        InsertKeepsOrder(entries, order, entries.Keys - left, pid, k);
        order := order[..k] + [pid] + order[k..];
        assert entries.Keys - (left - {pid}) == entries.Keys - left + {pid};
        left := left - {pid};
      }
      assert entries.Keys - {} == entries.Keys;
    }
  }

  /** `order` lists exactly `pids`, the smallest first. */
  ghost predicate LightestFirst(entries: map<Pid, Checkpointed>, order: seq<Pid>, pids: set<Pid>)
  {
    && (forall i :: 0 <= i < |order| ==> order[i] in entries)
    && (forall pid :: pid in order <==> pid in pids)
    && (forall i, j :: 0 <= i < j < |order| ==> entries[order[i]].rss <= entries[order[j]].rss)
  }

  lemma InsertKeepsOrder(entries: map<Pid, Checkpointed>, order: seq<Pid>, pids: set<Pid>, pid: Pid, k: nat)
    requires LightestFirst(entries, order, pids) && pid in entries && k <= |order|
    requires k > 0 ==> entries[order[k - 1]].rss <= entries[pid].rss
    requires k < |order| ==> entries[pid].rss < entries[order[k]].rss
    ensures LightestFirst(entries, order[..k] + [pid] + order[k..], pids + {pid})
  {
    var longer := order[..k] + [pid] + order[k..];
    SameMembers(order, pid, k);
    assert forall i :: 0 <= i < k ==> longer[i] == order[i];
    assert forall i :: k < i < |longer| ==> longer[i] == order[i - 1];
    forall i, j | 0 <= i < j < |longer| ensures entries[longer[i]].rss <= entries[longer[j]].rss {
      if i < k {
        assert entries[order[i]].rss <= entries[order[k - 1]].rss;
      }
      if j > k {
        assert entries[order[k]].rss <= entries[order[j - 1]].rss;
      }
    }
  }

  lemma SameMembers(order: seq<Pid>, pid: Pid, k: nat)
    requires k <= |order|
    ensures forall p :: p in order[..k] + [pid] + order[k..] <==> p == pid || p in order
  {
    assert order == order[..k] + order[k..];
  }

  // ── what one pass may do ─────────────────────────────────────────────────

  /** What a pass meets: the baseline, the RAM, and what the helper would answer. */
  datatype Situation = Situation(avg: real, samples: U32, available: Kb, total: Kb, restores: Pid -> bool)
  {
    predicate Safe(rss: Kb) { Health.Allows(avg, samples, available, total, rss) }
  }

  predicate IsLightest(entries: map<Pid, Checkpointed>, pid: Pid)
  {
    pid in entries && forall other :: other in entries ==> entries[pid].rss <= entries[other].rss
  }

  /** The fate of the entry a pass looks at. */
  function Fate(e: Checkpointed, pid: Pid, s: Situation): RestoreOutcome
  {
    if e.attempts >= MAX_RESTORE_ATTEMPTS then Abandoned(pid)
    else if !s.Safe(e.rss) then Skipped(pid)
    else if s.restores(pid) then Restored(pid)
    else FailedAttempt(pid)
  }

  function Left(entries: map<Pid, Checkpointed>, outcome: RestoreOutcome): map<Pid, Checkpointed>
  {
    match outcome
    case Abandoned(pid) => entries - {pid}
    case Restored(pid) => entries - {pid}
    case FailedAttempt(pid) =>
      if pid in entries then entries[pid := entries[pid].(attempts := entries[pid].attempts + 1)] else entries
    case _ => entries
  }

  /** A pass looks at a lightest entry, any of them on a tie. */
  ghost predicate Passes(
    entries: map<Pid, Checkpointed>, s: Situation, outcome: RestoreOutcome, entries': map<Pid, Checkpointed>)
  {
    && entries' == Left(entries, outcome)
    && if entries == map[] then outcome.Empty?
       else exists pid :: IsLightest(entries, pid) && outcome == Fate(entries[pid], pid, s)
  }

  lemma FirstIsLightest(entries: map<Pid, Checkpointed>, order: seq<Pid>)
    requires LightestFirst(entries, order, entries.Keys) && |order| > 0
    ensures IsLightest(entries, order[0])
  {
    assert order[0] in order;
    forall pid | pid in entries ensures entries[order[0]].rss <= entries[pid].rss {
      assert pid in order;
      var k :| 0 <= k < |order| && order[k] == pid;
    }
  }

  /** Looks at the lightest checkpoint only. `restores` is what the helper would
      report for each. */
  method RestorePass(
    registry: CheckpointRegistry, baseline: Health.HealthBaseline, available: Kb, total: Kb, restores: Pid -> bool)
    returns (outcome: RestoreOutcome)
    modifies registry
    ensures Passes(old(registry.entries), Situation(baseline.avg, baseline.samples, available, total, restores),
                   outcome, registry.entries)
  {
    if registry.entries == map[] { return Empty; }
    var order := registry.EntriesLightestFirst();
    var pid := order[0];
    FirstIsLightest(registry.entries, order);
    hide LightestFirst;
    var e := registry.entries[pid];
    if e.attempts >= MAX_RESTORE_ATTEMPTS {
      registry.Remove(pid);
      outcome := Abandoned(pid);
    } else if baseline.SafeToRestore(available, total, e.rss) {
      if restores(pid) {
        registry.Remove(pid);
        outcome := Restored(pid);
      } else {
        registry.IncrementAttempts(pid);
        outcome := FailedAttempt(pid);
      }
    } else {
      outcome := Skipped(pid);
    }
  }

  // ── what a pass means ────────────────────────────────────────────────────

  /** A pass is refused only when the RAM is too short for every entry, and then
      changes nothing. */
  lemma RefusedForAll(
    entries: map<Pid, Checkpointed>, s: Situation, outcome: RestoreOutcome, entries': map<Pid, Checkpointed>)
    requires Passes(entries, s, outcome, entries') && outcome.Skipped?
    ensures entries' == entries && forall pid :: pid in entries ==> !s.Safe(entries[pid].rss)
  {
    var pid :| IsLightest(entries, pid) && outcome == Fate(entries[pid], pid, s);
    forall other | other in entries ensures !s.Safe(entries[other].rss) {
      Health.AllowsIsAntitone(s.avg, s.samples, s.available, s.total, entries[pid].rss, entries[other].rss);
    }
  }

  /** Every other pass over entries is progress: by one for a failure, and by what
      the entry could still cost when it leaves. An entry leaves only restored or
      after three failures. */
  lemma PassWorks(
    entries: map<Pid, Checkpointed>, s: Situation, outcome: RestoreOutcome, entries': map<Pid, Checkpointed>)
    requires Passes(entries, s, outcome, entries') && entries != map[] && !outcome.Skipped?
    ensures Work(entries') < Work(entries)
    ensures outcome.FailedAttempt? || outcome.Abandoned? ==> Work(entries') == Work(entries) - 1
    ensures forall pid :: pid in entries && pid !in entries' ==>
              || (outcome == Restored(pid) && s.restores(pid))
              || (outcome == Abandoned(pid) && entries[pid].attempts >= MAX_RESTORE_ATTEMPTS)
  {
    var pid :| IsLightest(entries, pid) && outcome == Fate(entries[pid], pid, s);
    hide Passes, Fate;
    FateWorks(entries, pid, s);
    FateTakes(entries, pid, s);
  }

  /** A restore is tried only at most three times and only where it leaves more than a
      tenth of the RAM, or 85 percent of a warm average; after three failures the
      entry goes however short the RAM is. */
  lemma AttemptsAreSafe(
    entries: map<Pid, Checkpointed>, s: Situation, outcome: RestoreOutcome, entries': map<Pid, Checkpointed>, pid: Pid)
    requires Passes(entries, s, outcome, entries') && entries != map[] && s.avg >= 0.0
    ensures outcome == Restored(pid) || outcome == FailedAttempt(pid) ==>
              && IsLightest(entries, pid) && entries[pid].attempts < 3 && entries[pid].rss < s.available
              && if s.samples < 10 then 10 * (s.available - entries[pid].rss) > s.total
                 else 100.0 * (s.available - entries[pid].rss) as real > 85.0 * s.avg
    ensures outcome == Restored(pid) ==> s.restores(pid)
    ensures outcome == FailedAttempt(pid) ==>
              !s.restores(pid) && entries' == entries[pid := entries[pid].(attempts := entries[pid].attempts + 1)]
    ensures outcome == Skipped(pid) || outcome == Abandoned(pid) ==>
              IsLightest(entries, pid) && (outcome.Abandoned? <==> entries[pid].attempts >= 3)
  {
    hide *;
    var lightest := LookedAt(entries, s, outcome, entries');
    FateIsSafe(entries[lightest], lightest, s);
    if outcome.FailedAttempt? {
      FailureIsCharged(entries, s, outcome, entries');
    }
  }

  lemma LookedAt(
    entries: map<Pid, Checkpointed>, s: Situation, outcome: RestoreOutcome, entries': map<Pid, Checkpointed>)
    returns (pid: Pid)
    requires Passes(entries, s, outcome, entries') && entries != map[]
    ensures pid in entries && IsLightest(entries, pid) && outcome == Fate(entries[pid], pid, s)
  {
    hide Fate, Left;
    pid :| IsLightest(entries, pid) && outcome == Fate(entries[pid], pid, s);
  }

  lemma FailureIsCharged(
    entries: map<Pid, Checkpointed>, s: Situation, outcome: RestoreOutcome, entries': map<Pid, Checkpointed>)
    requires Passes(entries, s, outcome, entries') && outcome.FailedAttempt? && outcome.pid in entries
    ensures entries' == entries[outcome.pid := entries[outcome.pid].(attempts := entries[outcome.pid].attempts + 1)]
  {
    hide Fate, IsLightest;
  }

  lemma FateIsSafe(e: Checkpointed, pid: Pid, s: Situation)
    requires s.avg >= 0.0
    ensures var outcome := Fate(e, pid, s);
      && outcome.pid == pid && !outcome.Empty?
      && (outcome.Restored? || outcome.FailedAttempt? ==>
            && e.attempts < 3 && e.rss < s.available
            && if s.samples < 10 then 10 * (s.available - e.rss) > s.total else 100.0 * (s.available - e.rss) as real > 85.0 * s.avg)
      && (outcome.Restored? ==> s.restores(pid)) && (outcome.FailedAttempt? ==> !s.restores(pid))
      && (outcome.Abandoned? <==> e.attempts >= 3)
  {
    Health.AllowsExactly(s.avg, s.samples, s.available, s.total, e.rss);
    hide Health.Allows;
  }

  lemma FateWorks(entries: map<Pid, Checkpointed>, pid: Pid, s: Situation)
    requires pid in entries
    ensures var outcome := Fate(entries[pid], pid, s);
      && (!outcome.Skipped? ==> Work(Left(entries, outcome)) < Work(entries))
      && (outcome.FailedAttempt? || outcome.Abandoned? ==> Work(Left(entries, outcome)) == Work(entries) - 1)
  {
    WorkWithout(entries, pid);
    if entries[pid].attempts < MAX_RESTORE_ATTEMPTS {
      WorkAfterFailure(entries, pid);
    }
    hide Work, Health.Allows;
  }

  lemma FateTakes(entries: map<Pid, Checkpointed>, pid: Pid, s: Situation)
    requires pid in entries
    ensures var outcome := Fate(entries[pid], pid, s);
      forall other :: other in entries && other !in Left(entries, outcome) ==>
        || (outcome == Restored(other) && s.restores(other))
        || (outcome == Abandoned(other) && entries[other].attempts >= MAX_RESTORE_ATTEMPTS)
  {
    hide Health.Allows;
  }

  // ── whole runs of passes ─────────────────────────────────────────────────

  /** Successive passes with no new checkpoints in between: what each met, what it
      reported, and the registries before, between and after them. */
  ghost predicate PassRun(states: seq<map<Pid, Checkpointed>>, met: seq<Situation>, outcomes: seq<RestoreOutcome>)
  {
    && |states| == |met| + 1 == |outcomes| + 1
    && forall i :: 0 <= i < |met| ==> Passes(states[i], met[i], outcomes[i], states[i + 1])
  }

  /** Passes that were not refused for RAM. */
  function Allowed(outcomes: seq<RestoreOutcome>): nat
  {
    if |outcomes| == 0 then 0
    else Allowed(outcomes[..|outcomes| - 1]) + if outcomes[|outcomes| - 1].Skipped? then 0 else 1
  }

  lemma {:induction false} EveryAllowedPassCounts(
    states: seq<map<Pid, Checkpointed>>, met: seq<Situation>, outcomes: seq<RestoreOutcome>)
    requires PassRun(states, met, outcomes)
    ensures var end := states[|met|]; end == map[] || Work(end) + Allowed(outcomes) <= Work(states[0])
  {
    var n := |met|;
    if n > 0 {
      EveryAllowedPassCounts(states[..n], met[..n - 1], outcomes[..n - 1]);
      var before := states[n - 1];
      assert Passes(before, met[n - 1], outcomes[n - 1], states[n]);
      if before != map[] && !outcomes[n - 1].Skipped? {
        PassWorks(before, met[n - 1], outcomes[n - 1], states[n]);
      }
    }
  }

  /** Whichever restores fail and however often RAM is too short in between, four
      passes an entry that are not refused empty the registry. */
  lemma RegistryEmpties(states: seq<map<Pid, Checkpointed>>, met: seq<Situation>, outcomes: seq<RestoreOutcome>)
    requires PassRun(states, met, outcomes) && Allowed(outcomes) >= 4 * |states[0]|
    ensures states[|met|] == map[]
  {
    EveryAllowedPassCounts(states, met, outcomes);
    WorkBounds(states[0]);
    WorkBounds(states[|met|]);
  }

  /** The bound is tight: while every restore of fresh entries fails, any fewer
      leave something. */
  lemma {:induction false} FailuresTakeEveryPass(
    states: seq<map<Pid, Checkpointed>>, met: seq<Situation>, outcomes: seq<RestoreOutcome>)
    requires PassRun(states, met, outcomes)
    requires forall i :: 0 <= i < |outcomes| ==> !outcomes[i].Restored?
    ensures states[|met|] != map[] ==> Work(states[|met|]) + Allowed(outcomes) == Work(states[0])
    ensures Allowed(outcomes) < Work(states[0]) ==> states[|met|] != map[]
  {
    var n := |met|;
    if n == 0 {
      WorkBounds(states[0]);
    } else {
      FailuresTakeEveryPass(states[..n], met[..n - 1], outcomes[..n - 1]);
      var before := states[n - 1];
      assert Passes(before, met[n - 1], outcomes[n - 1], states[n]);
      WorkBounds(states[n]);
      if before != map[] && !outcomes[n - 1].Skipped? {
        PassWorks(before, met[n - 1], outcomes[n - 1], states[n]);
      }
    }
  }

  lemma {:induction false} FreshWork(entries: map<Pid, Checkpointed>)
    requires forall pid :: pid in entries ==> entries[pid].attempts == 0
    ensures Work(entries) == 4 * |entries|
    decreases |entries|
  {
    WorkBounds(entries);
    if entries != map[] {
      var pid :| pid in entries;
      WorkWithout(entries, pid);
      assert (entries - {pid}).Keys == entries.Keys - {pid};
      FreshWork(entries - {pid});
    }
  }

  /** So entries that have not been tried yet and cannot be restored are gone after
      exactly four such passes each. */
  lemma FreshFailuresTakeFour(states: seq<map<Pid, Checkpointed>>, met: seq<Situation>, outcomes: seq<RestoreOutcome>)
    requires PassRun(states, met, outcomes)
    requires forall i :: 0 <= i < |outcomes| ==> !outcomes[i].Restored?
    requires forall pid :: pid in states[0] ==> states[0][pid].attempts == 0
    ensures states[|met|] == map[] <==> Allowed(outcomes) >= 4 * |states[0]|
  {
    FreshWork(states[0]);
    FailuresTakeEveryPass(states, met, outcomes);
    EveryAllowedPassCounts(states, met, outcomes);
    WorkBounds(states[|met|]);
  }
}
