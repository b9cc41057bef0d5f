/** Carrying out a plan through the action sink. */
module Execute {
  import opened Types
  import opened Decision

  datatype Call =
    | CallFreeze(pid: Pid)
    | CallUnfreeze(pid: Pid)
    | CallTerminate(pid: Pid)
    | CallKill(pid: Pid)
    | CallCheckpoint(pid: Pid)
    | CallReclaim(pid: Pid, cgroup: string, bytes: U64)

  /** What the outside world answers. */
  datatype World = World(
    freezes: Pid -> bool,
    fingerprints: Pid -> bool,
    checkpoints: Pid -> bool,
    kills: Pid -> bool,
    cgroupOf: Pid -> Option<string>,   // among the planned processes
    procfsCgroupOf: Pid -> Option<string>)

  /** Everything a plan changes. */
  datatype Effects = Effects(
    frozen: set<Pid>,
    checkpointed: set<Pid>,
    calls: seq<Call>,
    destructive: nat,
    killedCgroups: set<string>)

  function Bytes(rss: Kb): U64 { if rss * 1024 > U64_MAX then U64_MAX else rss * 1024 }

  /** The calls one decision makes when its process is not frozen already. */
  function CallsFor(d: Decision, w: World): seq<Call>
  {
    match d.action
    case NoAction => []
    case Freeze =>
      [CallFreeze(d.pid)] +
      if !w.freezes(d.pid) then []
      else if !w.fingerprints(d.pid) then [CallUnfreeze(d.pid)]
      else if w.cgroupOf(d.pid).Some? then [CallReclaim(d.pid, w.cgroupOf(d.pid).value, Bytes(d.rss))]
      else []
    case Checkpoint =>
      [CallCheckpoint(d.pid)] +
      if w.checkpoints(d.pid) then []
      else if d.prio >= 60 then [CallTerminate(d.pid)]
      else [CallKill(d.pid)]
    case Terminate => [CallTerminate(d.pid)]
    case Kill => [CallKill(d.pid)]
  }

  function TargetedCgroup(d: Decision, w: World): set<string>
  {
    if d.action != Kill && d.action != Terminate then {}
    else if w.cgroupOf(d.pid).Some? then {w.cgroupOf(d.pid).value}
    else if w.procfsCgroupOf(d.pid).Some? then {w.procfsCgroupOf(d.pid).value}
    else {}
  }

  function Step(e: Effects, d: Decision, w: World): Effects
  {
    if d.pid in e.frozen then e
    else Effects(
      if d.action == Freeze && w.freezes(d.pid) && w.fingerprints(d.pid) then e.frozen + {d.pid} else e.frozen,
      if d.action == Checkpoint && w.checkpoints(d.pid) then e.checkpointed + {d.pid} else e.checkpointed,
      e.calls + CallsFor(d, w),
      e.destructive + if d.action == Kill || d.action == Checkpoint then 1 else 0,
      e.killedCgroups + TargetedCgroup(d, w))
  }

  function After(e: Effects, ds: seq<Decision>, w: World): Effects
  {
    if |ds| == 0 then e else Step(After(e, ds[..|ds| - 1], w), ds[|ds| - 1], w)
  }

  class Executor {
    var frozen: set<Pid>
    var checkpointed: set<Pid>
    var calls: seq<Call>
    var killedCgroups: set<string>

    function View(destructive: nat): Effects
      reads this
    {
      Effects(frozen, checkpointed, calls, destructive, killedCgroups)
    }

    method ExecutePlan(decisions: seq<Decision>, w: World) returns (destructive: nat)
      modifies this
      ensures View(destructive) == After(old(View(0)), decisions, w)
    {
      destructive := 0;
      var i := 0;
      while i < |decisions|
        invariant 0 <= i <= |decisions|
        invariant View(destructive) == After(old(View(0)), decisions[..i], w)
      {
        var d := decisions[i];
        assert decisions[..i + 1][..i] == decisions[..i];
        i := i + 1;
        if d.pid in frozen { continue; }
        ghost var before := View(destructive);
        ExecuteDecision(d, w);
        if d.action == Kill || d.action == Checkpoint {
          destructive := destructive + 1;
        }
        if d.action == Kill || d.action == Terminate {
          var cgroup := if w.cgroupOf(d.pid).Some? then w.cgroupOf(d.pid) else w.procfsCgroupOf(d.pid);
          if cgroup.Some? {
            killedCgroups := killedCgroups + {cgroup.value};
          }
        }
        assert View(destructive) == Step(before, d, w);
      }
      assert decisions[..|decisions|] == decisions;
    }

    method ExecuteDecision(d: Decision, w: World)
      requires d.pid !in frozen
      modifies this
      ensures killedCgroups == old(killedCgroups)
      ensures frozen == Step(old(View(0)), d, w).frozen
      ensures checkpointed == Step(old(View(0)), d, w).checkpointed
      ensures calls == old(calls) + CallsFor(d, w)
    {
      match d.action
      case NoAction =>
      case Freeze =>
        calls := calls + [CallFreeze(d.pid)];
        if w.freezes(d.pid) {
          if w.fingerprints(d.pid) {
            frozen := frozen + {d.pid};
            if w.cgroupOf(d.pid).Some? {
              calls := calls + [CallReclaim(d.pid, w.cgroupOf(d.pid).value, Bytes(d.rss))];
            }
          } else {
            calls := calls + [CallUnfreeze(d.pid)];
          }
        }
      case Checkpoint =>
        calls := calls + [CallCheckpoint(d.pid)];
        if w.checkpoints(d.pid) {
          checkpointed := checkpointed + {d.pid};
        } else if d.prio >= 60 {
          calls := calls + [CallTerminate(d.pid)];
        } else {
          calls := calls + [CallKill(d.pid)];
        }
      case Terminate =>
        calls := calls + [CallTerminate(d.pid)];
      case Kill =>
        calls := calls + [CallKill(d.pid)];
    }
  }

  // ── what it means ────────────────────────────────────────────────────────

  ghost predicate Untouched(calls: seq<Call>, pid: Pid)
  {
    forall c :: c in calls ==> c.pid != pid
  }

  /** A plan never signals a process that is frozen when it starts, keeps every
      frozen process frozen, and reclaims only from processes it froze. */
  lemma {:induction false} FrozenAreSkipped(e: Effects, ds: seq<Decision>, w: World)
    requires e.calls == []
    ensures forall pid :: pid in e.frozen ==> Untouched(After(e, ds, w).calls, pid)
    ensures e.frozen <= After(e, ds, w).frozen
    ensures forall c :: c in After(e, ds, w).calls && (c.CallReclaim? || c.CallUnfreeze?) ==>
              w.freezes(c.pid) && (c.CallReclaim? <==> w.fingerprints(c.pid))
    ensures forall c :: c in After(e, ds, w).calls && c.CallReclaim? ==> c.pid in After(e, ds, w).frozen
  {
    if |ds| > 0 {
      FrozenAreSkipped(e, ds[..|ds| - 1], w);
    }
  }

  /** The i-th decision finds its process not frozen and is carried out. */
  ghost predicate ActedOn(e: Effects, ds: seq<Decision>, w: World, i: int)
  {
    0 <= i < |ds| && ds[i].pid !in After(e, ds[..i], w).frozen
  }

  lemma ActedOnAppends(e: Effects, ds: seq<Decision>, d: Decision, w: World, i: int)
    requires 0 <= i <= |ds|
    ensures ActedOn(e, ds + [d], w, i) <==> if i < |ds| then ActedOn(e, ds, w, i) else d.pid !in After(e, ds, w).frozen
  {
    assert (ds + [d])[..i] == ds[..i];
    assert ds[..|ds|] == ds;
  }

  /** What can be the reason for a call. */
  predicate Prompts(d: Decision, w: World, c: Call)
  {
    d.pid == c.pid &&
    match c
    case CallFreeze(_) => d.action == Freeze
    case CallUnfreeze(pid) => d.action == Freeze && w.freezes(pid) && !w.fingerprints(pid)
    case CallReclaim(pid, cgroup, bytes) =>
      && d.action == Freeze && w.freezes(pid) && w.fingerprints(pid) && w.cgroupOf(pid) == Some(cgroup)
      && (bytes == 1024 * d.rss || (bytes == U64_MAX < 1024 * d.rss))
    case CallCheckpoint(_) => d.action == Checkpoint
    case CallTerminate(pid) => d.action == Terminate || (d.action == Checkpoint && !w.checkpoints(pid) && d.prio >= 60)
    case CallKill(pid) => d.action == Kill || (d.action == Checkpoint && !w.checkpoints(pid) && d.prio < 60)
  }

  lemma CallsArePrompted(d: Decision, w: World)
    ensures forall c :: c in CallsFor(d, w) <==> Prompts(d, w, c)
  {
  }

  /** The registries after a plan hold what they held, and exactly the processes whose
      checkpoint or fingerprinted freeze the plan itself called for and got. */
  lemma {:induction false} RegistriesAreWhatWasDone(e: Effects, ds: seq<Decision>, w: World)
    requires e.calls == []
    ensures var end := After(e, ds, w);
      && (forall pid :: pid in end.checkpointed <==>
            pid in e.checkpointed || (CallCheckpoint(pid) in end.calls && w.checkpoints(pid)))
      && (forall pid :: pid in end.frozen <==>
            pid in e.frozen || (CallFreeze(pid) in end.calls && w.freezes(pid) && w.fingerprints(pid)))
      && (forall pid :: CallUnfreeze(pid) in end.calls <==>
            CallFreeze(pid) in end.calls && w.freezes(pid) && !w.fingerprints(pid))
  {
    if |ds| > 0 {
      RegistriesAreWhatWasDone(e, ds[..|ds| - 1], w);
      CallsArePrompted(ds[|ds| - 1], w);
      hide CallsFor, TargetedCgroup;
    }
  }

  /** The calls of a plan are exactly those some decision carried out gives a reason
      for; and the cgroups remembered as killed are those of the processes that were
      to be terminated or killed, from the scan or else from /proc. */
  lemma {:induction false} CallsHaveReasons(e: Effects, ds: seq<Decision>, w: World)
    requires e.calls == []
    ensures forall c :: c in After(e, ds, w).calls <==> exists i :: ActedOn(e, ds, w, i) && Prompts(ds[i], w, c)
    ensures forall g :: g in After(e, ds, w).killedCgroups <==>
              || g in e.killedCgroups
              || exists i :: ActedOn(e, ds, w, i) && ds[i].action in {Terminate, Kill}
                   && (w.cgroupOf(ds[i].pid) == Some(g) || (w.cgroupOf(ds[i].pid).None? && w.procfsCgroupOf(ds[i].pid) == Some(g)))
  {
    if |ds| > 0 {
      var (shorter, d) := (ds[..|ds| - 1], ds[|ds| - 1]);
      assert ds == shorter + [d];
      CallsHaveReasons(e, shorter, w);
      CallsArePrompted(d, w);
      forall i | 0 <= i < |ds| ensures ActedOn(e, ds, w, i) <==>
        if i < |shorter| then ActedOn(e, shorter, w, i) else d.pid !in After(e, shorter, w).frozen
      {
        ActedOnAppends(e, shorter, d, w, i);
      }
      hide ActedOn, Prompts, CallsFor;
    }
  }

  ghost function Count(calls: seq<Call>, test: Call -> bool): nat
  {
    if |calls| == 0 then 0
    else Count(calls[..|calls| - 1], test) + if test(calls[|calls| - 1]) then 1 else 0
  }

  lemma {:induction false} CountAppends(xs: seq<Call>, ys: seq<Call>, test: Call -> bool)
    ensures Count(xs + ys, test) == Count(xs, test) + Count(ys, test)
  {
    if |ys| == 0 {
      assert xs + ys == xs;
    } else {
      CountAppends(xs, ys[..|ys| - 1], test);
      assert (xs + ys)[..|xs + ys| - 1] == xs + ys[..|ys| - 1];
    }
  }

  /** Calls that freed a process's memory at once: a kill that got through, or a
      checkpoint, which kills what it saved. */
  function FreesAtOnce(w: World): Call -> bool
  {
    (c: Call) => (c.CallKill? && w.kills(c.pid)) || (c.CallCheckpoint? && w.checkpoints(c.pid))
  }

  function FailsToKill(w: World): Call -> bool { (c: Call) => c.CallKill? && !w.kills(c.pid) }

  /** Decisions acted on whose checkpoint failed and fell back to an
      asynchronous terminate. */
  ghost function FellBack(e: Effects, ds: seq<Decision>, w: World): nat
  {
    if |ds| == 0 then 0
    else
      var d := ds[|ds| - 1];
      FellBack(e, ds[..|ds| - 1], w)
        + if d.pid !in After(e, ds[..|ds| - 1], w).frozen && d.action == Checkpoint && !w.checkpoints(d.pid) && d.prio >= 60
          then 1 else 0
  }

  lemma ShortCounts(a: Call, b: Call, test: Call -> bool)
    ensures Count([], test) == 0
    ensures Count([a], test) == if test(a) then 1 else 0
    ensures Count([a] + [b], test) == Count([a], test) + if test(b) then 1 else 0
    ensures Count([a] + [], test) == Count([a], test)
  {
    assert [a][..0] == [] && ([a] + [b])[..1] == [a] && [a] + [] == [a];
  }

  /** A decision that is counted frees its process at once, fails to, or falls back to
      an asynchronous terminate. */
  lemma CallsForCounts(d: Decision, w: World)
    ensures var (freed, failed) := (Count(CallsFor(d, w), FreesAtOnce(w)), Count(CallsFor(d, w), FailsToKill(w)));
      freed + failed ==
        if d.action == Kill || (d.action == Checkpoint && (w.checkpoints(d.pid) || d.prio < 60)) then 1 else 0
  {
    var calls := CallsFor(d, w);
    var a := if |calls| > 0 then calls[0] else CallKill(0);
    var b := if |calls| > 1 then calls[1] else CallKill(0);
    ShortCounts(a, b, FreesAtOnce(w));
    ShortCounts(a, b, FailsToKill(w));
    hide Count;
  }

  /** The count that wakes the maintenance thread is meant to be of synchronous kills.
      It also has every kill that failed and every expendable process whose checkpoint
      failed and that was only asked to terminate: it is exact if and only if there
      was neither. */
  lemma {:induction false} DestructiveCountsExactly(e: Effects, ds: seq<Decision>, w: World)
    requires e.destructive == 0 && e.calls == []
    ensures
      var (end, fallbacks) := (After(e, ds, w), FellBack(e, ds, w));
      var (freed, failed) := (Count(end.calls, FreesAtOnce(w)), Count(end.calls, FailsToKill(w)));
      && end.destructive == freed + failed + fallbacks
      && (end.destructive == freed <==> failed == 0 && fallbacks == 0)
  {
    if |ds| > 0 {
      var before := After(e, ds[..|ds| - 1], w);
      var d := ds[|ds| - 1];
      DestructiveCountsExactly(e, ds[..|ds| - 1], w);
      CallsForCounts(d, w);
      CountAppends(before.calls, CallsFor(d, w), FreesAtOnce(w));
      CountAppends(before.calls, CallsFor(d, w), FailsToKill(w));
    }
    hide FreesAtOnce, FailsToKill;
  }

  const IDLE: Effects := Effects({}, {}, [], 0, {})
  const HELPLESS: World := World(_ => false, _ => false, _ => false, _ => false, _ => None, _ => None)
  const FUTILE: seq<Decision> :=
    [Decision(7, "a", Kill, 0, 80), Decision(8, "b", Checkpoint, 0, 80), Decision(9, "c", Checkpoint, 0, 30)]

  /** Three decisions that free nothing are counted as three synchronous kills. */
  lemma FutilePlanIsCounted()
    ensures After(IDLE, FUTILE, HELPLESS).destructive == 3
    ensures Count(After(IDLE, FUTILE, HELPLESS).calls, FreesAtOnce(HELPLESS)) == 0
  {
    DestructiveCountsExactly(IDLE, FUTILE, HELPLESS);
    assert FUTILE[..2][..1] == FUTILE[..1] && FUTILE[..1][..0] == [];
    var calls := After(IDLE, FUTILE, HELPLESS).calls;
    assert calls == [CallKill(7), CallCheckpoint(8), CallTerminate(8), CallCheckpoint(9), CallKill(9)];
    NoneCounts(calls, FreesAtOnce(HELPLESS));
  }

  lemma {:induction false} NoneCounts(calls: seq<Call>, test: Call -> bool)
    requires forall c :: c in calls ==> !test(c)
    ensures Count(calls, test) == 0
  {
    if |calls| > 0 {
      NoneCounts(calls[..|calls| - 1], test);
      assert calls[|calls| - 1] in calls;
    }
  }
}
