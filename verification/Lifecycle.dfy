/** The freeze protocol between the evictor, recovery, IPC and plugin threads
    and the processes they stop, as a state machine over interleaved steps.

    Reading a start time and signalling is one step; signalling and recording
    are two. A thread's local state is what it still has to do. Threads other than
    the evictor and the main thread serve one connection each and are never joined,
    so they may be anywhere when the daemon shuts down. */
module Lifecycle {
  import opened Types
  import opened Collections

  datatype Proc = Proc(start: nat, stopped: bool, signalable: bool)

  type Tid = nat

  const EVICTOR: Tid := 0
  const MAIN: Tid := 1
  const NOBODY: int := -1

  datatype Local =
    | Idle
    | Stopped(pid: Pid)                    // SIGSTOP sent, registry insert next
    | Vanished(pid: Pid)                   // insert refused, SIGCONT rollback next
    | VictimStopped(pid: Pid, start: nat)  // SIGSTOP sent, victim record next
    | Releasing(pending: map<Pid, nat>)    // records taken out, SIGCONTs to go
    | Selected(pid: Pid, start: nat)       // entry read, lock dropped, SIGCONT next
    | Continued(pid: Pid)                  // SIGCONT succeeded, remove next

  datatype State = State(
    procs: map<Pid, Proc>,
    clock: nat,
    registry: map<Pid, nat>,
    victims: map<Pid, nat>,
    threads: map<Tid, Local>,
    evictorDone: bool,
    closing: bool)
  {
    function At(t: Tid): Local { if t in threads then threads[t] else Idle }

    function With(t: Tid, l: Local): State { this.(threads := threads[t := l]) }

    function Live(pid: Pid, start: nat): bool { pid in procs && procs[pid].start == start }
  }

  datatype Step =
    | Spawn(pid: Pid, signalable: bool)
    | Exit(pid: Pid)
    | ForeignCont(pid: Pid)
    | Revoke(pid: Pid)
    | Stop(t: Tid, pid: Pid)
    | Register(t: Tid)
    | Rollback(t: Tid)
    | Abandon(t: Tid)
    | StopVictim(pid: Pid)
    | RecordVictim
    | Drain(pids: set<Pid>)
    | ContinueNext(t: Tid, pid: Pid)
    | ReleaseLocked(pid: Pid)
    | Select(t: Tid, pid: Pid)
    | ContinueSelected(t: Tid)
    | RemoveSelected(t: Tid)
    | EvictorExit
    | CloseRegistry

  // ── signals ──────────────────────────────────────────────────────────────

  /** A SIGSTOP or SIGCONT; it fails on a dead or foreign process. */
  function Signal(procs: map<Pid, Proc>, pid: Pid, stop: bool): (r: (map<Pid, Proc>, bool))
    ensures r.0.Keys == procs.Keys
  {
    if pid in procs && procs[pid].signalable then (procs[pid := procs[pid].(stopped := stop)], true)
    else (procs, false)
  }

  /** SIGCONT under the recycle guard: a vanished or recycled pid is a success
      that touches nothing. */
  function UnfreezeChecked(procs: map<Pid, Proc>, pid: Pid, start: nat): (r: (map<Pid, Proc>, bool))
    ensures r.0.Keys == procs.Keys
  {
    if pid in procs && procs[pid].start == start then Signal(procs, pid, false) else (procs, true)
  }

  function FreezeChecked(procs: map<Pid, Proc>, pid: Pid, start: nat): (r: (map<Pid, Proc>, bool))
    ensures r.0.Keys == procs.Keys
  {
    if pid in procs && procs[pid].start == start then Signal(procs, pid, true) else (procs, false)
  }

  // ── steps ────────────────────────────────────────────────────────────────

  /** What the program and the kernel allow in a state. */
  predicate Enabled(s: State, step: Step)
  {
    match step
    case Spawn(pid, _) => pid !in s.procs
    case Exit(pid) => pid in s.procs
    case ForeignCont(pid) => pid in s.procs
    case Revoke(pid) => pid in s.procs
    // The evictor skips victims; nothing else about the candidate is assumed.
    case Stop(t, pid) => s.At(t) == Idle && t != MAIN && (t == EVICTOR ==> !s.evictorDone && pid !in s.victims)
    case Register(t) => s.At(t).Stopped?
    case Rollback(t) => s.At(t).Vanished?
    // A freeze asked for over IPC ignores a refused record.
    case Abandon(t) => s.At(t).Vanished? && t != EVICTOR
    case StopVictim(pid) => s.At(EVICTOR) == Idle && !s.evictorDone && pid !in s.victims
    case RecordVictim => s.At(EVICTOR).VictimStopped?
    case Drain(pids) => s.At(EVICTOR) == Idle && !s.evictorDone
    case ContinueNext(t, pid) => s.At(t).Releasing? && pid in s.At(t).pending
    case ReleaseLocked(pid) => !s.closing && pid in s.registry
    case Select(t, pid) => s.At(t) == Idle && (t == EVICTOR ==> !s.evictorDone) && t != MAIN && pid in s.registry
    case ContinueSelected(t) => s.At(t).Selected?
    case RemoveSelected(t) => s.At(t).Continued?
    case EvictorExit => s.At(EVICTOR) == Idle && !s.evictorDone
    // The evictor and the recovery thread have been joined; nobody waits for the
    // threads that serve connections.
    case CloseRegistry => s.evictorDone && !s.closing && s.At(EVICTOR) == Idle && s.At(MAIN) == Idle
  }

  function Among(victims: map<Pid, nat>, pids: set<Pid>): map<Pid, nat>
  {
    map pid | pid in victims && pid in pids :: victims[pid]
  }

  function Next(s: State, step: Step): State
    requires Enabled(s, step)
  {
    match step
    case Spawn(pid, signalable) =>
      s.(procs := s.procs[pid := Proc(s.clock, false, signalable)], clock := s.clock + 1)
    case Exit(pid) =>
      s.(procs := s.procs - {pid})
    case ForeignCont(pid) =>
      s.(procs := s.procs[pid := s.procs[pid].(stopped := false)])
    case Revoke(pid) =>
      s.(procs := s.procs[pid := s.procs[pid].(signalable := false)])
    case Stop(t, pid) =>
      var (procs, ok) := Signal(s.procs, pid, true);
      if ok then s.(procs := procs).With(t, Local.Stopped(pid)) else s
    case Register(t) =>
      var pid := s.At(t).pid;
      if pid in s.procs then s.(registry := s.registry[pid := s.procs[pid].start]).With(t, Idle)
      else s.With(t, Vanished(pid))
    case Rollback(t) =>
      s.(procs := Signal(s.procs, s.At(t).pid, false).0).With(t, Idle)
    case Abandon(t) => s.With(t, Idle)
    case StopVictim(pid) =>
      var (procs, ok) := Signal(s.procs, pid, true);
      if ok then s.(procs := procs).With(EVICTOR, VictimStopped(pid, procs[pid].start)) else s
    case RecordVictim =>
      var l := s.At(EVICTOR);
      s.(victims := s.victims[l.pid := l.start]).With(EVICTOR, Idle)
    case Drain(pids) =>
      var drained := Among(s.victims, pids);
      if drained == map[] then s else s.(victims := s.victims - pids).With(EVICTOR, Releasing(drained))
    case ContinueNext(t, pid) =>
      // The result of the signal is only logged; the record is gone either way.
      var pending := s.At(t).pending;
      s.(procs := UnfreezeChecked(s.procs, pid, pending[pid]).0)
       .With(t, if pending - {pid} == map[] then Idle else Releasing(pending - {pid}))
    case ReleaseLocked(pid) =>
      var (procs, ok) := UnfreezeChecked(s.procs, pid, s.registry[pid]);
      if ok then s.(procs := procs, registry := s.registry - {pid}) else s
    case Select(t, pid) =>
      s.With(t, Selected(pid, s.registry[pid]))
    case ContinueSelected(t) =>
      var (procs, ok) := UnfreezeChecked(s.procs, s.At(t).pid, s.At(t).start);
      if ok then s.(procs := procs).With(t, Continued(s.At(t).pid)) else s.With(t, Idle)
    case RemoveSelected(t) =>
      s.(registry := s.registry - {s.At(t).pid}).With(t, Idle)
    case EvictorExit =>
      s.(evictorDone := true, victims := map[])
       .With(EVICTOR, if s.victims == map[] then Idle else Releasing(s.victims))
    case CloseRegistry =>
      s.(closing := true).With(MAIN, if s.registry == map[] then Idle else Releasing(s.registry))
  }

  ghost predicate Legal(s: State, steps: seq<Step>)
    decreases |steps|
  {
    |steps| == 0 || (Enabled(s, steps[0]) && Legal(Next(s, steps[0]), steps[1..]))
  }

  ghost function Run(s: State, steps: seq<Step>): State
    requires Legal(s, steps)
    decreases |steps|
  {
    if |steps| == 0 then s else Run(Next(s, steps[0]), steps[1..])
  }

  // ── the side condition ───────────────────────────────────────────────────

  /** A lock-free release of `pid` is under way whose late remove would take a
      fresh entry with it: it has signalled already, or it was selected for an
      earlier process of the same pid. */
  ghost predicate OpenWindow(s: State, t: Tid, pid: Pid)
  {
    var l := s.At(t);
    || (l.Continued? && l.pid == pid)
    || (l.Selected? && l.pid == pid && !s.Live(pid, l.start))
  }

  /** The registry holds this very process, or it runs. */
  ghost predicate Registered(s: State, pid: Pid)
  {
    IsStopped(s, pid) ==> pid in s.registry && s.registry[pid] == s.procs[pid].start
  }

  /** Shutdown has this very process still to continue. */
  ghost predicate Awaited(s: State, pid: Pid)
  {
    pid in s.procs && Holds(s.At(MAIN), pid, s.procs[pid].start)
  }

  /** Something other than the registry and the thread itself remembers this very
      process. */
  ghost predicate KeptBesides(s: State, t: Tid, pid: Pid)
    requires pid in s.procs
  {
    || (pid in s.victims && s.victims[pid] == s.procs[pid].start)
    || exists v :: v != t && Holds(s.At(v), pid, s.procs[pid].start)
  }

  /** No window is open in which the entry is about to be registered, or nothing
      depends on the entry. */
  ghost predicate Recordable(s: State, t: Tid, pid: Pid)
  {
    || s.closing || !IsStopped(s, pid) || KeptBesides(s, t, pid)
    || forall u :: !OpenWindow(s, u, pid)
  }

  /** No entry that a stopped process depends on is registered inside such a window;
      the registry is not read for shutdown while a freeze that is not in it is in
      flight, and no freeze succeeds after that but of a process shutdown has still to
      continue; and the kernel does not take the right to signal a stopped process
      away from the daemon. */
  ghost predicate Clean(s: State, step: Step)
  {
    && (step.Revoke? ==> !IsStopped(s, step.pid))
    && (step.Register? && s.At(step.t).Stopped? ==> Recordable(s, step.t, s.At(step.t).pid))
    && (step.CloseRegistry? ==> forall u :: s.At(u).Stopped? ==> Registered(s, s.At(u).pid))
    && (step.Stop? && s.closing && Signal(s.procs, step.pid, true).1 ==> Awaited(s, step.pid))
  }

  ghost predicate CleanRun(s: State, steps: seq<Step>)
    requires Legal(s, steps)
    decreases |steps|
  {
    |steps| == 0 || (Clean(s, steps[0]) && CleanRun(Next(s, steps[0]), steps[1..]))
  }

  // ── the invariant ────────────────────────────────────────────────────────

  /** The thread still owes `pid` a record or a SIGCONT. */
  ghost predicate Holds(l: Local, pid: Pid, start: nat)
  {
    || l == Local.Stopped(pid)
    || l == VictimStopped(pid, start)
    || (l.Releasing? && pid in l.pending && l.pending[pid] == start)
  }

  ghost predicate HeldByThread(s: State, pid: Pid, start: nat)
  {
    exists t :: Holds(s.At(t), pid, start)
  }

  /** Remembered by something other than the registry. */
  ghost predicate KeptElsewhere(s: State, pid: Pid, start: nat)
  {
    (pid in s.victims && s.victims[pid] == start) || HeldByThread(s, pid, start)
  }

  ghost predicate Remembered(s: State, pid: Pid, start: nat)
  {
    (!s.closing && pid in s.registry && s.registry[pid] == start) || KeptElsewhere(s, pid, start)
  }

  ghost predicate IsStopped(s: State, pid: Pid) { pid in s.procs && s.procs[pid].stopped }

  /** No live process the daemon stopped is forgotten, and each is remembered
      under its real start time. */
  ghost predicate NoneLost(s: State)
  {
    forall pid :: IsStopped(s, pid) ==> Remembered(s, pid, s.procs[pid].start)
  }

  ghost predicate StoppedAreSignalable(s: State)
  {
    forall pid :: IsStopped(s, pid) ==> s.procs[pid].signalable
  }

  /** A late remove can only take a stale or redundant entry. */
  ghost predicate WindowsAreHarmless(s: State)
  {
    && (forall t :: s.At(t).Selected? && IsStopped(s, s.At(t).pid) ==>
          || s.At(t).pid !in s.registry || s.registry[s.At(t).pid] == s.At(t).start
          || KeptElsewhere(s, s.At(t).pid, s.procs[s.At(t).pid].start))
    && (forall t :: s.At(t).Continued? && IsStopped(s, s.At(t).pid) ==>
          KeptElsewhere(s, s.At(t).pid, s.procs[s.At(t).pid].start))
  }

  /** Which thread may be doing what. */
  ghost predicate RolesKept(s: State)
  {
    && (forall t :: s.At(t).VictimStopped? ==> t == EVICTOR && s.At(t).pid !in s.victims)
    && (forall t :: s.At(t).Releasing? ==> (t == EVICTOR || t == MAIN) && s.At(t).pending != map[])
    && (s.At(MAIN).Idle? || (s.closing && s.At(MAIN).Releasing?))
    && (s.evictorDone ==> s.victims == map[] && (s.At(EVICTOR).Idle? || s.At(EVICTOR).Releasing?))
    && (s.closing ==> s.evictorDone && s.At(EVICTOR).Idle?)
  }

  /** A freeze in flight after the registry was read is of a process shutdown has
      still to continue. */
  ghost predicate LateFreezesAwaited(s: State)
  {
    s.closing ==> forall t :: s.At(t).Stopped? && IsStopped(s, s.At(t).pid) ==> Awaited(s, s.At(t).pid)
  }

  ghost predicate Inv(s: State)
  {
    NoneLost(s) && StoppedAreSignalable(s) && WindowsAreHarmless(s) && RolesKept(s) && LateFreezesAwaited(s)
  }

  ghost predicate Initial(s: State)
  {
    && (forall pid :: pid in s.procs ==> !s.procs[pid].stopped)
    && s.registry == map[] && s.victims == map[] && s.threads == map[]
    && !s.evictorDone && !s.closing
  }

  // ── preservation, one kind of step at a time ─────────────────────────────

  lemma ThreadsElsewhere(s: State, s': State, t: Tid)
    requires forall u :: u != t ==> s'.At(u) == s.At(u)
    ensures forall pid, start :: HeldByThread(s, pid, start) && !Holds(s.At(t), pid, start) ==> HeldByThread(s', pid, start)
    ensures forall pid, start :: Holds(s'.At(t), pid, start) ==> HeldByThread(s', pid, start)
  {
    forall pid, start | HeldByThread(s, pid, start) && !Holds(s.At(t), pid, start)
      ensures HeldByThread(s', pid, start)
    {
      var u :| Holds(s.At(u), pid, start);
      assert Holds(s'.At(u), pid, start);
    }
  }

  /** Roles are kept by every step, clean or not. */
  lemma RolesStay(s: State, step: Step)
    requires RolesKept(s) && Enabled(s, step)
    ensures RolesKept(Next(s, step))
  {
    if step.EvictorExit? || step.CloseRegistry? || step.Drain? || step.RecordVictim? {
      RolesPass(s, step);
    } else if Actor(step) == NOBODY {
      RolesStayWith(s, Next(s, step), EVICTOR);
    } else {
      if step.Stop? || step.Register? || step.Rollback? || step.Abandon? || step.StopVictim? {
        FreezeMoves(s, step);
      } else {
        ReleaseMoves(s, step);
      }
      hide Next, Enabled;
      RolesStayWith(s, Next(s, step), Actor(step));
    }
  }

  lemma RolesPass(s: State, step: Step)
    requires RolesKept(s) && Enabled(s, step)
    requires step.EvictorExit? || step.CloseRegistry? || step.Drain? || step.RecordVictim?
    ensures RolesKept(Next(s, step))
  {
    var s' := Next(s, step);
    assert forall u: Tid :: u != Actor(step) ==> s'.At(u) == s.At(u);
  }

  lemma RolesStayWith(s: State, s': State, t: Tid)
    requires RolesKept(s) && OneThreadMoves(s, s', t)
    ensures RolesKept(s')
  {
  }

  /** What a thread may turn to on its own. */
  predicate MovesTo(s: State, t: Tid, l: Local)
  {
    match l
    case Idle => true
    case VictimStopped(pid, _) => t == EVICTOR && !s.evictorDone && pid !in s.victims
    case Releasing(pending) => s.At(t).Releasing? && pending != map[]
    case _ => t != MAIN && (t == EVICTOR ==> !s.evictorDone)
  }

  ghost predicate OneThreadMoves(s: State, s': State, t: Tid)
  {
    && s'.evictorDone == s.evictorDone && s'.closing == s.closing && s'.victims == s.victims
    && (forall u :: u != t ==> s'.At(u) == s.At(u))
    && (s'.At(t) == s.At(t) || MovesTo(s, t, s'.At(t)))
  }

  lemma FreezeMoves(s: State, step: Step)
    requires RolesKept(s) && Enabled(s, step)
    requires step.Stop? || step.Register? || step.Rollback? || step.Abandon? || step.StopVictim?
    ensures OneThreadMoves(s, Next(s, step), Actor(step))
  {
    hide Signal;
  }

  lemma ReleaseMoves(s: State, step: Step)
    requires RolesKept(s) && Enabled(s, step)
    requires step.ContinueNext? || step.Select? || step.ContinueSelected? || step.RemoveSelected?
    ensures OneThreadMoves(s, Next(s, step), Actor(step))
  {
    hide Signal, UnfreezeChecked;
  }

  /** The thread whose local state a step may change. */
  function Actor(step: Step): int
  {
    match step
    case Stop(t, _) => t
    case Register(t) => t
    case Rollback(t) => t
    case Abandon(t) => t
    case ContinueNext(t, _) => t
    case Select(t, _) => t
    case ContinueSelected(t) => t
    case RemoveSelected(t) => t
    case StopVictim(_) => EVICTOR
    case RecordVictim => EVICTOR
    case Drain(_) => EVICTOR
    case EvictorExit => EVICTOR
    case CloseRegistry => MAIN
    case _ => NOBODY
  }

  lemma EnvironmentKeeps(s: State, step: Step)
    requires Inv(s) && Enabled(s, step)
    requires step.Spawn? || step.Exit? || step.ForeignCont? || (step.Revoke? && Clean(s, step))
    ensures Inv(Next(s, step))
  {
    RolesStay(s, step);
    var s' := Next(s, step);
    assert forall u :: s'.At(u) == s.At(u);
    ThreadsElsewhere(s, s', 2);
  }

  lemma StopKeeps(s: State, t: Tid, pid: Pid)
    requires Inv(s) && Enabled(s, Stop(t, pid)) && Clean(s, Stop(t, pid))
    ensures Inv(Next(s, Stop(t, pid)))
  {
    RolesStay(s, Stop(t, pid));
    var s' := Next(s, Stop(t, pid));
    assert forall u :: u != t ==> s'.At(u) == s.At(u);
    ThreadsElsewhere(s, s', t);
  }

  lemma StopVictimKeeps(s: State, pid: Pid)
    requires Inv(s) && Enabled(s, StopVictim(pid))
    ensures Inv(Next(s, StopVictim(pid)))
  {
    RolesStay(s, StopVictim(pid));
    var s' := Next(s, StopVictim(pid));
    assert forall u :: u != EVICTOR ==> s'.At(u) == s.At(u);
    ThreadsElsewhere(s, s', EVICTOR);
  }

  lemma RegisterKeeps(s: State, t: Tid)
    requires Inv(s) && Enabled(s, Register(t)) && Clean(s, Register(t))
    ensures Inv(Next(s, Register(t)))
  {
    var pid := s.At(t).pid;
    if pid in s.procs {
      RecordingKeeps(s, t);
    } else {
      var s' := Next(s, Register(t));
      assert forall u :: u != t ==> s'.At(u) == s.At(u);
      ThreadsElsewhere(s, s', t);
    }
  }

  lemma RecordingKeeps(s: State, t: Tid)
    requires Inv(s) && Enabled(s, Register(t)) && Clean(s, Register(t)) && s.At(t).pid in s.procs
    ensures Inv(Next(s, Register(t)))
  {
    RolesStay(s, Register(t));
    var s' := Next(s, Register(t));
    assert forall u :: u != t ==> s'.At(u) == s.At(u);
    ThreadsElsewhere(s, s', t);
    var pid := s.At(t).pid;
    if s.closing && IsStopped(s, pid) {
      assert Holds(s'.At(MAIN), pid, s.procs[pid].start);
    }
    RecordingIsHarmless(s, t);
    hide WindowsAreHarmless;
  }

  lemma RecordingIsHarmless(s: State, t: Tid)
    requires Inv(s) && Enabled(s, Register(t)) && Clean(s, Register(t)) && s.At(t).pid in s.procs
    ensures WindowsAreHarmless(Next(s, Register(t)))
  {
    var s' := Next(s, Register(t));
    assert forall u :: u != t ==> s'.At(u) == s.At(u);
    ThreadsElsewhere(s, s', t);
    var pid := s.At(t).pid;
    if IsStopped(s, pid) {
      var start := s.procs[pid].start;
      if s.closing {
        assert Holds(s'.At(MAIN), pid, start);
      } else if KeptBesides(s, t, pid) {
        assert forall v :: v != t && Holds(s.At(v), pid, start) ==> Holds(s'.At(v), pid, start);
        assert KeptElsewhere(s', pid, start);
      } else {
        forall u | (s'.At(u).Selected? || s'.At(u).Continued?) && s'.At(u).pid == pid
          ensures s'.At(u) == s.At(u) && s'.At(u).Selected? && s'.At(u).start == start
        {
          assert !OpenWindow(s, u, pid);
        }
      }
    }
  }

  /** A plain SIGCONT unstops whoever has the pid now, if anybody. */
  lemma PlainContinue(s: State, pid: Pid)
    requires StoppedAreSignalable(s)
    ensures var procs := Signal(s.procs, pid, false).0;
      && procs.Keys == s.procs.Keys
      && (forall p :: p in procs ==> procs[p].start == s.procs[p].start)
      && (forall p :: p in procs && procs[p].stopped ==> procs[p] == s.procs[p] && p != pid)
  {
  }

  lemma RollbackKeeps(s: State, t: Tid)
    requires Inv(s) && Enabled(s, Rollback(t))
    ensures Inv(Next(s, Rollback(t)))
  {
    RolesStay(s, Rollback(t));
    PlainContinue(s, s.At(t).pid);
    hide Signal, RolesKept;
    var s' := Next(s, Rollback(t));
    assert forall u :: u != t ==> s'.At(u) == s.At(u);
    ThreadsElsewhere(s, s', t);
  }

  lemma AbandonKeeps(s: State, t: Tid)
    requires Inv(s) && Enabled(s, Abandon(t))
    ensures Inv(Next(s, Abandon(t)))
  {
    RolesStay(s, Abandon(t));
    var s' := Next(s, Abandon(t));
    assert forall u :: u != t ==> s'.At(u) == s.At(u);
    ThreadsElsewhere(s, s', t);
  }

  lemma RecordKeeps(s: State, step: Step)
    requires Inv(s) && Enabled(s, step)
    requires step.RecordVictim? || step.Drain?
    ensures Inv(Next(s, step))
  {
    RolesStay(s, step);
    var s' := Next(s, step);
    assert forall u :: u != EVICTOR ==> s'.At(u) == s.At(u);
    ThreadsElsewhere(s, s', EVICTOR);
  }

  /** A SIGCONT under the guard unstops the process its record names, or none. */
  lemma GuardedContinue(s: State, pid: Pid, start: nat)
    requires StoppedAreSignalable(s)
    ensures var (procs, ok) := UnfreezeChecked(s.procs, pid, start);
      && procs.Keys == s.procs.Keys
      && (forall p :: p in procs ==> procs[p].start == s.procs[p].start)
      && (forall p :: p in procs && procs[p].stopped ==> procs[p] == s.procs[p])
      && (ok && s.Live(pid, start) ==> !procs[pid].stopped)
      && (!ok ==> procs == s.procs && !IsStopped(s, pid))
  {
  }

  lemma ContinueNextKeeps(s: State, t: Tid, pid: Pid)
    requires Inv(s) && Enabled(s, ContinueNext(t, pid))
    ensures Inv(Next(s, ContinueNext(t, pid)))
  {
    RolesStay(s, ContinueNext(t, pid));
    var s' := Next(s, ContinueNext(t, pid));
    assert forall u :: u != t ==> s'.At(u) == s.At(u);
    GuardedContinue(s, pid, s.At(t).pending[pid]);
    hide UnfreezeChecked;
    ThreadsElsewhere(s, s', t);
    forall p | IsStopped(s', p) && KeptElsewhere(s, p, s.procs[p].start)
      ensures KeptElsewhere(s', p, s'.procs[p].start)
    {
      if Holds(s.At(t), p, s.procs[p].start) {
        assert p in s.At(t).pending - {pid};
        assert Holds(s'.At(t), p, s.procs[p].start);
      }
    }
    forall u | s'.closing && s'.At(u).Stopped? && IsStopped(s', s'.At(u).pid)
      ensures Awaited(s', s'.At(u).pid)
    {
      assert s'.At(u) == s.At(u) && Awaited(s, s.At(u).pid);
      assert t == MAIN && s.At(u).pid != pid ==> s.At(u).pid in s.At(t).pending - {pid};
    }
    assert s'.At(t).Idle? || s'.At(t).Releasing?;
  }

  lemma ReleaseLockedKeeps(s: State, pid: Pid)
    requires Inv(s) && Enabled(s, ReleaseLocked(pid))
    ensures Inv(Next(s, ReleaseLocked(pid)))
  {
    RolesStay(s, ReleaseLocked(pid));
    var s' := Next(s, ReleaseLocked(pid));
    assert forall u :: s'.At(u) == s.At(u);
    GuardedContinue(s, pid, s.registry[pid]);
    hide UnfreezeChecked;
    ThreadsElsewhere(s, s', 2);
  }

  lemma SelectKeeps(s: State, t: Tid, pid: Pid)
    requires Inv(s) && Enabled(s, Select(t, pid))
    ensures Inv(Next(s, Select(t, pid)))
  {
    var s' := Next(s, Select(t, pid));
    assert forall u :: u != t ==> s'.At(u) == s.At(u);
    ThreadsElsewhere(s, s', t);
  }

  lemma GivingUpKeeps(s: State, t: Tid)
    requires Inv(s) && s.At(t).Selected?
    ensures Inv(s.With(t, Idle))
  {
    var s' := s.With(t, Idle);
    assert forall u :: u != t ==> s'.At(u) == s.At(u);
    ThreadsElsewhere(s, s', t);
  }

  lemma ContinueSelectedKeeps(s: State, t: Tid)
    requires Inv(s) && Enabled(s, ContinueSelected(t))
    ensures Inv(Next(s, ContinueSelected(t)))
  {
    var (pid, start) := (s.At(t).pid, s.At(t).start);
    var (procs, ok) := UnfreezeChecked(s.procs, pid, start);
    if ok {
      GuardedContinue(s, pid, start);
      SignalledKeeps(s, t, procs);
    } else {
      GivingUpKeeps(s, t);
    }
    hide UnfreezeChecked, Inv;
  }

  lemma SignalledKeeps(s: State, t: Tid, procs: map<Pid, Proc>)
    requires Inv(s) && s.At(t).Selected?
    requires procs.Keys == s.procs.Keys && forall p :: p in procs ==> procs[p].start == s.procs[p].start
    requires forall p :: p in procs && procs[p].stopped ==> procs[p] == s.procs[p]
    requires s.Live(s.At(t).pid, s.At(t).start) ==> !procs[s.At(t).pid].stopped
    ensures Inv(s.(procs := procs).With(t, Continued(s.At(t).pid)))
  {
    var s' := s.(procs := procs).With(t, Continued(s.At(t).pid));
    assert forall u :: u != t ==> s'.At(u) == s.At(u);
    ThreadsElsewhere(s, s', t);
  }

  lemma RemoveSelectedKeeps(s: State, t: Tid)
    requires Inv(s) && Enabled(s, RemoveSelected(t))
    ensures Inv(Next(s, RemoveSelected(t)))
  {
    RolesStay(s, RemoveSelected(t));
    var s' := Next(s, RemoveSelected(t));
    assert forall u :: u != t ==> s'.At(u) == s.At(u);
    ThreadsElsewhere(s, s', t);
  }

  lemma ShutdownKeeps(s: State, step: Step)
    requires Inv(s) && Enabled(s, step)
    requires (step.EvictorExit? || step.CloseRegistry?) && Clean(s, step)
    ensures Inv(Next(s, step))
  {
    RolesStay(s, step);
    var s' := Next(s, step);
    var t := if step.EvictorExit? then EVICTOR else MAIN;
    assert forall u :: u != t ==> s'.At(u) == s.At(u);
    ThreadsElsewhere(s, s', t);
  }

  lemma StepKeeps(s: State, step: Step)
    requires Inv(s) && Enabled(s, step) && Clean(s, step)
    ensures Inv(Next(s, step))
  {
    hide Next, Inv;
    match step
    case Spawn(_, _) => EnvironmentKeeps(s, step);
    case Exit(_) => EnvironmentKeeps(s, step);
    case ForeignCont(_) => EnvironmentKeeps(s, step);
    case Revoke(_) => EnvironmentKeeps(s, step);
    case Stop(t, pid) => StopKeeps(s, t, pid);
    case StopVictim(pid) => StopVictimKeeps(s, pid);
    case Register(t) => RegisterKeeps(s, t);
    case Rollback(t) => RollbackKeeps(s, t);
    case Abandon(t) => AbandonKeeps(s, t);
    case RecordVictim => RecordKeeps(s, step);
    case Drain(_) => RecordKeeps(s, step);
    case ContinueNext(t, pid) => ContinueNextKeeps(s, t, pid);
    case ReleaseLocked(pid) => ReleaseLockedKeeps(s, pid);
    case Select(t, pid) => SelectKeeps(s, t, pid);
    case ContinueSelected(t) => ContinueSelectedKeeps(s, t);
    case RemoveSelected(t) => RemoveSelectedKeeps(s, t);
    case EvictorExit => ShutdownKeeps(s, step);
    case CloseRegistry => ShutdownKeeps(s, step);
  }

  // ── main results ─────────────────────────────────────────────────────────

  lemma {:induction false} RunKeeps(s: State, steps: seq<Step>)
    requires Inv(s) && Legal(s, steps) && CleanRun(s, steps)
    ensures Inv(Run(s, steps))
    decreases |steps|
  {
    hide Next, Inv, Enabled, Clean;
    if |steps| > 0 {
      StepKeeps(s, steps[0]);
      RunKeeps(Next(s, steps[0]), steps[1..]);
    }
  }

  /** Over every clean interleaving no process the daemon stopped is forgotten;
      and once shutdown has worked off the registry, none is stopped. */
  lemma NoProcessIsLost(s: State, steps: seq<Step>)
    requires Initial(s) && Legal(s, steps) && CleanRun(s, steps)
    ensures NoneLost(Run(s, steps))
    ensures Run(s, steps).closing && Run(s, steps).At(MAIN).Idle? ==>
              forall pid :: !IsStopped(Run(s, steps), pid)
  {
    RunKeeps(s, steps);
    var end := Run(s, steps);
    if end.closing && end.At(MAIN).Idle? {
      forall pid ensures !IsStopped(end, pid) {
      }
    }
  }

  // ── every unclean step can lose ──────────────────────────────────────────

  /** After the step, clean steps can lead to a stopped process nothing remembers. */
  ghost predicate LosesAfter(s: State, step: Step, rest: seq<Step>)
  {
    Enabled(s, step) && LosesBy(Next(s, step), rest)
  }

  ghost predicate LosesBy(s: State, steps: seq<Step>)
  {
    Legal(s, steps) && CleanRun(s, steps) && !NoneLost(Run(s, steps))
  }

  lemma Prepend(s: State, step: Step, rest: seq<Step>)
    requires Enabled(s, step) && Clean(s, step) && LosesBy(Next(s, step), rest)
    ensures LosesBy(s, [step] + rest)
  {
    assert ([step] + rest)[1..] == rest;
    hide Enabled, Next, Clean, NoneLost;
  }

  lemma LostAlready(s: State, pid: Pid)
    requires IsStopped(s, pid) && !Remembered(s, pid, s.procs[pid].start)
    ensures LosesBy(s, [])
  {
  }

  /** A registration that a stopped process depends on, made inside an open window,
      is lost by the window's owner, undisturbed. */
  lemma EveryUncleanRegistrationCanLose(s: State, u: Tid) returns (t: Tid, rest: seq<Step>)
    requires Inv(s) && Enabled(s, Register(u)) && !Clean(s, Register(u))
    ensures OpenWindow(s, t, s.At(u).pid)
    ensures rest == (if s.At(t).Selected? then [ContinueSelected(t)] else []) + [RemoveSelected(t)]
    ensures LosesAfter(s, Register(u), rest)
  {
    var pid := s.At(u).pid;
    t :| OpenWindow(s, t, pid);
    var s1 := Next(s, Register(u));
    assert s1.At(t) == s.At(t);
    OnlyRegistryRemembers(s, u);
    var tail := [RemoveSelected(t)];
    if s.At(t).Selected? {
      var s2 := Next(s1, ContinueSelected(t));
      forall v ensures !Holds(s2.At(v), pid, s.procs[pid].start) {
        assert v != t ==> s2.At(v) == s1.At(v);
      }
      LateRemoveLoses(s2, t, pid);
      Prepend(s1, ContinueSelected(t), tail);
      rest := [ContinueSelected(t)] + tail;
    } else {
      LateRemoveLoses(s1, t, pid);
      rest := tail;
      assert [] + tail == tail;
    }
  }

  lemma OnlyRegistryRemembers(s: State, u: Tid)
    requires Enabled(s, Register(u)) && IsStopped(s, s.At(u).pid) && !KeptBesides(s, u, s.At(u).pid)
    ensures var (s', pid) := (Next(s, Register(u)), s.At(u).pid);
      && (pid in s'.victims ==> s'.victims[pid] != s.procs[pid].start)
      && forall v :: !Holds(s'.At(v), pid, s.procs[pid].start)
  {
    var (s', pid) := (Next(s, Register(u)), s.At(u).pid);
    forall v ensures !Holds(s'.At(v), pid, s.procs[pid].start) {
      assert v != u ==> s'.At(v) == s.At(v);
    }
  }

  /** A late remove loses what nothing but the registry remembers. */
  lemma LateRemoveLoses(s: State, t: Tid, pid: Pid)
    requires s.At(t) == Continued(pid) && IsStopped(s, pid)
    requires pid in s.victims ==> s.victims[pid] != s.procs[pid].start
    requires forall v :: !Holds(s.At(v), pid, s.procs[pid].start)
    ensures LosesBy(s, [RemoveSelected(t)])
  {
    var s' := Next(s, RemoveSelected(t));
    forall v ensures !Holds(s'.At(v), pid, s.procs[pid].start) {
      assert v != t ==> s'.At(v) == s.At(v);
    }
    LostAlready(s', pid);
    hide LosesBy;
    Prepend(s, RemoveSelected(t), []);
    assert [RemoveSelected(t)] + [] == [RemoveSelected(t)];
  }

  function InFlight(s: State, pid: Pid): set<Tid>
  {
    set t | t in s.threads && s.threads[t] == Local.Stopped(pid)
  }

  ghost predicate OnlyRegisters(steps: seq<Step>)
  {
    forall i :: 0 <= i < |steps| ==> steps[i].Register?
  }

  /** Once the registry has been read, a stopped process shutdown does not know of
      is lost as soon as the threads that stopped it have registered it. */
  lemma {:induction false} RegistersLose(s: State, pid: Pid) returns (steps: seq<Step>)
    requires RolesKept(s) && s.closing && IsStopped(s, pid) && !Awaited(s, pid)
    ensures OnlyRegisters(steps) && LosesBy(s, steps)
    decreases |InFlight(s, pid)|
  {
    if InFlight(s, pid) == {} {
      steps := [];
      forall t ensures !Holds(s.At(t), pid, s.procs[pid].start) {
        assert s.At(t) == Local.Stopped(pid) ==> t in InFlight(s, pid);
      }
      LostAlready(s, pid);
    } else {
      var t :| t in InFlight(s, pid);
      var s' := Next(s, Register(t));
      assert forall u :: u != t ==> s'.At(u) == s.At(u);
      assert InFlight(s', pid) == InFlight(s, pid) - {t};
      var rest := RegistersLose(s', pid);
      hide LosesBy;
      Prepend(s, Register(t), rest);
      steps := [Register(t)] + rest;
    }
  }

  /** Reading the registry while a freeze that is not in it is in flight can always
      lose the process. */
  lemma EveryUncleanCloseCanLose(s: State) returns (rest: seq<Step>)
    requires Inv(s) && Enabled(s, CloseRegistry) && !Clean(s, CloseRegistry)
    ensures OnlyRegisters(rest) && LosesAfter(s, CloseRegistry, rest)
  {
    var u :| s.At(u).Stopped? && !Registered(s, s.At(u).pid);
    var s' := Next(s, CloseRegistry);
    assert forall t :: t != MAIN ==> s'.At(t) == s.At(t);
    hide LosesBy;
    rest := RegistersLose(s', s.At(u).pid);
  }

  /** And so can every freeze that succeeds after that, unless shutdown has yet to
      continue the process. */
  lemma EveryUncleanStopCanLose(s: State, t: Tid, pid: Pid) returns (rest: seq<Step>)
    requires Inv(s) && Enabled(s, Stop(t, pid)) && !Clean(s, Stop(t, pid))
    ensures OnlyRegisters(rest) && LosesAfter(s, Stop(t, pid), rest)
  {
    var s' := Next(s, Stop(t, pid));
    assert forall u :: u != t ==> s'.At(u) == s.At(u);
    hide LosesBy;
    rest := RegistersLose(s', pid);
  }

  // ── a process the daemon may not signal is lost in the end ───────────────

  /** Steps a thread has still to make. */
  function Rank(l: Local): nat
  {
    match l
    case Idle => 0
    case Stopped(_) => 2
    case Vanished(_) => 1
    case VictimStopped(_, _) => 1
    case Releasing(pending) => |pending|
    case Selected(_, _) => 2
    case Continued(_) => 1
  }

  function Ranks(threads: map<Tid, Local>): map<Tid, nat> { map t | t in threads :: Rank(threads[t]) }

  ghost function Unfinished(s: State): nat { MapTotal(Ranks(s.threads)) }

  lemma FinishesOne(s: State, s': State, t: Tid)
    requires t in s.threads && t in s'.threads && s'.threads == s.threads[t := s'.threads[t]]
    requires Rank(s'.threads[t]) < Rank(s.threads[t])
    ensures Unfinished(s') < Unfinished(s)
  {
    assert Ranks(s'.threads) == Ranks(s.threads)[t := Rank(s'.threads[t])];
    PutIn(Ranks(s.threads), t, Rank(s'.threads[t]));
    TakeOut(Ranks(s.threads), t);
    hide Rank;
  }

  /** No thread is inside a lock-free release. */
  ghost predicate NoWindows(s: State) { forall t :: !s.At(t).Selected? && !s.At(t).Continued? }

  predicate FromOutside(step: Step) { step.Spawn? || step.Exit? || step.ForeignCont? || step.Revoke? }

  /** A thread that is not idle can proceed; registrations wait until no window is
      open. */
  lemma ThreadProceeds(s: State, t: Tid) returns (step: Step)
    requires RolesKept(s) && s.At(t) != Idle && (s.At(t).Selected? || s.At(t).Continued? || NoWindows(s))
    ensures Enabled(s, step) && Clean(s, step) && !FromOutside(step)
    ensures var s' := Next(s, step);
      s'.evictorDone == s.evictorDone && s'.closing == s.closing && Unfinished(s') < Unfinished(s)
  {
    if s.At(t).Releasing? {
      step := ReleaseProceeds(s, t);
    } else if s.At(t).Selected? {
      step := ContinueSelected(t);
    } else if s.At(t).Continued? {
      step := RemoveSelected(t);
    } else {
      step := FreezeProceeds(s, t);
      return;
    }
    hide Signal, UnfreezeChecked, Unfinished, RolesKept;
    FinishesOne(s, Next(s, step), t);
  }

  lemma FreezeProceeds(s: State, t: Tid) returns (step: Step)
    requires RolesKept(s) && NoWindows(s) && (s.At(t).Stopped? || s.At(t).Vanished? || s.At(t).VictimStopped?)
    ensures Enabled(s, step) && Clean(s, step) && !FromOutside(step)
    ensures var s' := Next(s, step);
      s'.evictorDone == s.evictorDone && s'.closing == s.closing && Unfinished(s') < Unfinished(s)
  {
    if s.At(t).Stopped? {
      step := Register(t);
    } else if s.At(t).Vanished? {
      step := Rollback(t);
    } else {
      step := RecordVictim;
    }
    hide Signal, Unfinished, KeptBesides;
    FinishesOne(s, Next(s, step), t);
  }

  lemma ReleaseProceeds(s: State, t: Tid) returns (step: Step)
    requires RolesKept(s) && s.At(t).Releasing?
    ensures Enabled(s, step) && step.ContinueNext? && step.t == t
    ensures Rank(Next(s, step).At(t)) < Rank(s.At(t))
  {
    var pid :| pid in s.At(t).pending;
    step := ContinueNext(t, pid);
    assert (s.At(t).pending - {pid}).Keys == s.At(t).pending.Keys - {pid};
    hide UnfreezeChecked;
  }

  ghost predicate AllIdle(s: State) { forall t :: s.At(t) == Idle }

  /** From any state the daemon can, by itself and with clean steps only, go on until
      it has shut down. */
  lemma DaemonProceeds(s: State) returns (step: Step)
    requires RolesKept(s) && !(AllIdle(s) && s.closing)
    ensures Enabled(s, step) && Clean(s, step) && !FromOutside(step)
    ensures var s' := Next(s, step);
      || (!s.evictorDone && s'.evictorDone)
      || (s'.evictorDone == s.evictorDone && !s.closing && s'.closing)
      || (s'.evictorDone == s.evictorDone && s'.closing == s.closing && Unfinished(s') < Unfinished(s))
  {
    if !NoWindows(s) {
      var t :| s.At(t).Selected? || s.At(t).Continued?;
      step := ThreadProceeds(s, t);
    } else if !AllIdle(s) {
      var t :| s.At(t) != Idle;
      step := ThreadProceeds(s, t);
    } else if !s.evictorDone {
      step := EvictorExit;
    } else {
      step := CloseRegistry;
    }
    hide Unfinished;
  }

  lemma UnsignalableStays(s: State, step: Step, pid: Pid)
    requires Enabled(s, step) && !FromOutside(step) && IsStopped(s, pid) && !s.procs[pid].signalable
    ensures pid in Next(s, step).procs && Next(s, step).procs[pid] == s.procs[pid]
  {
  }

  /** A stopped process the daemon may not signal is not continued by anything it
      does, and once it has shut down nothing remembers it. */
  lemma {:induction false} UnsignalableIsLost(s: State, pid: Pid) returns (steps: seq<Step>)
    requires RolesKept(s) && IsStopped(s, pid) && !s.procs[pid].signalable
    ensures LosesBy(s, steps)
    decreases !s.evictorDone, !s.closing, Unfinished(s)
  {
    if AllIdle(s) && s.closing {
      steps := [];
      LostAlready(s, pid);
    } else {
      hide LosesBy, RolesKept, Enabled, Next, Clean, Unfinished, AllIdle;
      var step := DaemonProceeds(s);
      RolesStay(s, step);
      UnsignalableStays(s, step, pid);
      var rest := UnsignalableIsLost(Next(s, step), pid);
      Prepend(s, step, rest);
      steps := [step] + rest;
    }
  }

  /** So losing the right to signal a stopped process can lose it. */
  lemma EveryUncleanRevokeCanLose(s: State, pid: Pid) returns (rest: seq<Step>)
    requires Inv(s) && Enabled(s, Revoke(pid)) && !Clean(s, Revoke(pid))
    ensures LosesAfter(s, Revoke(pid), rest)
  {
    RolesStay(s, Revoke(pid));
    hide RolesKept, LosesBy;
    rest := UnsignalableIsLost(Next(s, Revoke(pid)), pid);
  }

  lemma EveryUncleanStepCanLose(s: State, step: Step) returns (rest: seq<Step>)
    requires Inv(s) && Enabled(s, step) && !Clean(s, step)
    ensures LosesAfter(s, step, rest)
  {
    hide Inv, Enabled, LosesAfter;
    match step {
      case Revoke(pid) => rest := EveryUncleanRevokeCanLose(s, pid);
      case Register(t) => var u; u, rest := EveryUncleanRegistrationCanLose(s, t);
      case CloseRegistry => rest := EveryUncleanCloseCanLose(s);
      case Stop(t, pid) => rest := EveryUncleanStopCanLose(s, t, pid);
      case _ =>
    }
  }

  /** The side condition is exact: a step meets it if and only if no clean steps after
      it can lose a process. */
  lemma CleanExactly(s: State, step: Step)
    requires Inv(s) && Enabled(s, step)
    ensures Clean(s, step) <==> forall rest :: !LosesAfter(s, step, rest)
  {
    hide Inv, Enabled, Next, Clean, NoneLost;
    if Clean(s, step) {
      StepKeeps(s, step);
      forall rest ensures !LosesAfter(s, step, rest) {
        if Legal(Next(s, step), rest) && CleanRun(Next(s, step), rest) {
          RunKeeps(Next(s, step), rest);
          InvMeansNoneLost(Run(Next(s, step), rest));
        }
      }
    } else {
      var rest := EveryUncleanStepCanLose(s, step);
    }
  }

  lemma InvMeansNoneLost(s: State)
    requires Inv(s)
    ensures NoneLost(s)
  {
  }

  // ── the losing runs from the start ───────────────────────────────────────

  const BOOT: State := State(map[], 0, map[], map[], map[], false, false)

  lemma {:induction false} Then(s: State, steps: seq<Step>, step: Step)
    requires Legal(s, steps) && Enabled(Run(s, steps), step)
    ensures Legal(s, steps + [step]) && Run(s, steps + [step]) == Next(Run(s, steps), step)
    ensures CleanRun(s, steps) && Clean(Run(s, steps), step) ==> CleanRun(s, steps + [step])
    decreases |steps|
  {
    hide Enabled, Next, Clean;
    if |steps| == 0 {
      assert ([] + [step])[1..] == [];
      assert Legal(Next(s, step), []) && Run(Next(s, step), []) == Next(s, step);
    } else {
      Then(Next(s, steps[0]), steps[1..], step);
      assert (steps + [step])[0] == steps[0] && (steps + [step])[1..] == steps[1..] + [step];
    }
  }

  /** From the start the steps lead to `end`, and the first `clean` are clean. */
  ghost predicate Leads(steps: seq<Step>, clean: nat, end: State)
  {
    && clean <= |steps| && Legal(BOOT, steps) && Run(BOOT, steps) == end
    && Legal(BOOT, steps[..clean]) && CleanRun(BOOT, steps[..clean])
  }

  lemma AtBoot()
    ensures Initial(BOOT) && Leads([], 0, BOOT)
  {
  }

  lemma ThenTo(steps: seq<Step>, clean: nat, s: State, step: Step, longer: seq<Step>)
    requires Leads(steps, clean, s) && Enabled(s, step) && longer == steps + [step]
    ensures Leads(longer, clean, Next(s, step))
    ensures clean == |steps| && Clean(s, step) ==> Leads(longer, clean + 1, Next(s, step))
  {
    Then(BOOT, steps, step);
    assert (steps + [step])[..clean] == steps[..clean];
    assert (steps + [step])[..|steps + [step]|] == steps + [step];
    assert steps[..|steps|] == steps;
    hide Enabled, Next, Clean;
  }

  /** The run starts at `BOOT`, its first `clean` steps are clean, and it leaves the
      process stopped and forgotten. */
  ghost predicate Loses(steps: seq<Step>, clean: nat, pid: Pid)
  {
    exists end :: Leads(steps, clean, end) && IsStopped(end, pid) && !NoneLost(end)
  }

  lemma Lost(steps: seq<Step>, clean: nat, end: State, pid: Pid)
    requires Leads(steps, clean, end) && IsStopped(end, pid) && !Remembered(end, pid, end.procs[pid].start)
    ensures Loses(steps, clean, pid)
  {
    hide Leads, Remembered;
  }

  /** A process has been spawned, stopped, registered and selected for release. */
  const SELECTED: State :=
    State(map[7 := Proc(0, true, true)], 1, map[7 := 0], map[], map[0 := Idle, 2 := Selected(7, 0)], false, false)

  const CHOSEN_RUN: seq<Step> := [Spawn(7, true), Stop(0, 7), Register(0), Select(2, 7)]

  lemma LeadsToSelected()
    ensures Leads(CHOSEN_RUN, 4, SELECTED)
  {
    AtBoot();
    hide Leads;
    var s1 := Next(BOOT, Spawn(7, true));
    ThenTo([], 0, BOOT, Spawn(7, true), CHOSEN_RUN[..1]);
    var s2 := Next(s1, Stop(0, 7));
    ThenTo(CHOSEN_RUN[..1], 1, s1, Stop(0, 7), CHOSEN_RUN[..2]);
    var s3 := Next(s2, Register(0));
    ThenTo(CHOSEN_RUN[..2], 2, s2, Register(0), CHOSEN_RUN[..3]);
    ThenTo(CHOSEN_RUN[..3], 3, s3, Select(2, 7), CHOSEN_RUN);
    assert Next(s3, Select(2, 7)) == SELECTED;
  }

  /** A release over IPC has continued the process when recovery releases it too; the
      evictor freezes and registers it again before the first release's remove. */
  const FRESH_RUN: seq<Step> :=
    CHOSEN_RUN + [ContinueSelected(2), ReleaseLocked(7), Stop(0, 7), Register(0), RemoveSelected(2)]

  const CONTINUED: State :=
    State(map[7 := Proc(0, false, true)], 1, map[], map[], map[0 := Idle, 2 := Continued(7)], false, false)

  lemma LeadsToContinued()
    ensures Leads(FRESH_RUN[..6], 6, CONTINUED)
  {
    LeadsToSelected();
    hide Leads;
    var s5 := Next(SELECTED, ContinueSelected(2));
    ThenTo(CHOSEN_RUN, 4, SELECTED, ContinueSelected(2), FRESH_RUN[..5]);
    ThenTo(FRESH_RUN[..5], 5, s5, ReleaseLocked(7), FRESH_RUN[..6]);
    assert Next(s5, ReleaseLocked(7)) == CONTINUED;
  }

  /** The release's remove takes the entry of a second freeze. */
  lemma ReleaseTakesAFreshEntry()
    ensures Loses(FRESH_RUN, 7, 7)
  {
    LeadsToContinued();
    hide Leads;
    var s7 := Next(CONTINUED, Stop(0, 7));
    ThenTo(FRESH_RUN[..6], 6, CONTINUED, Stop(0, 7), FRESH_RUN[..7]);
    var s8 := Next(s7, Register(0));
    ThenTo(FRESH_RUN[..7], 7, s7, Register(0), FRESH_RUN[..8]);
    var s9 := Next(s8, RemoveSelected(2));
    ThenTo(FRESH_RUN[..8], 7, s8, RemoveSelected(2), FRESH_RUN);
    Lost(FRESH_RUN, 7, s9, 7);
  }

  /** The process selected for release exits, its pid is reused and recovery drops the
      stale entry before the successor is frozen. */
  const SUCCESSOR_RUN: seq<Step> :=
    CHOSEN_RUN + [Exit(7), Spawn(7, true), ReleaseLocked(7), Stop(0, 7), Register(0), ContinueSelected(2), RemoveSelected(2)]

  const REUSED: State :=
    State(map[7 := Proc(1, false, true)], 2, map[], map[], map[0 := Idle, 2 := Selected(7, 0)], false, false)

  lemma LeadsToReused()
    ensures Leads(SUCCESSOR_RUN[..7], 7, REUSED)
  {
    LeadsToSelected();
    hide Leads;
    var s5 := Next(SELECTED, Exit(7));
    ThenTo(CHOSEN_RUN, 4, SELECTED, Exit(7), SUCCESSOR_RUN[..5]);
    var s6 := Next(s5, Spawn(7, true));
    ThenTo(SUCCESSOR_RUN[..5], 5, s5, Spawn(7, true), SUCCESSOR_RUN[..6]);
    ThenTo(SUCCESSOR_RUN[..6], 6, s6, ReleaseLocked(7), SUCCESSOR_RUN[..7]);
    assert Next(s6, ReleaseLocked(7)) == REUSED;
  }

  const REFROZEN: State :=
    State(map[7 := Proc(1, true, true)], 2, map[7 := 1], map[], map[0 := Idle, 2 := Selected(7, 0)], false, false)

  lemma LeadsToRefrozen()
    ensures Leads(SUCCESSOR_RUN[..9], 8, REFROZEN)
  {
    LeadsToReused();
    hide Leads;
    var s8 := Next(REUSED, Stop(0, 7));
    ThenTo(SUCCESSOR_RUN[..7], 7, REUSED, Stop(0, 7), SUCCESSOR_RUN[..8]);
    ThenTo(SUCCESSOR_RUN[..8], 8, s8, Register(0), SUCCESSOR_RUN[..9]);
    assert Next(s8, Register(0)) == REFROZEN;
  }

  /** The release, whose SIGCONT does nothing, takes the successor's entry: the window
      is open from the selection on. */
  lemma ReleaseTakesASuccessorsEntry()
    ensures Loses(SUCCESSOR_RUN, 8, 7)
  {
    LeadsToRefrozen();
    hide Leads;
    var s10 := Next(REFROZEN, ContinueSelected(2));
    ThenTo(SUCCESSOR_RUN[..9], 8, REFROZEN, ContinueSelected(2), SUCCESSOR_RUN[..10]);
    var s11 := Next(s10, RemoveSelected(2));
    ThenTo(SUCCESSOR_RUN[..10], 8, s10, RemoveSelected(2), SUCCESSOR_RUN);
    Lost(SUCCESSOR_RUN, 8, s11, 7);
  }

  const IN_FLIGHT_RUN: seq<Step> := [Spawn(7, true), Stop(2, 7), EvictorExit, CloseRegistry, Register(2)]

  const IN_FLIGHT: State :=
    State(map[7 := Proc(0, true, true)], 1, map[], map[], map[0 := Idle, 2 := Local.Stopped(7)], true, false)

  lemma LeadsToInFlight()
    ensures Leads(IN_FLIGHT_RUN[..3], 3, IN_FLIGHT)
  {
    AtBoot();
    hide Leads;
    var s1 := Next(BOOT, Spawn(7, true));
    ThenTo([], 0, BOOT, Spawn(7, true), IN_FLIGHT_RUN[..1]);
    var s2 := Next(s1, Stop(2, 7));
    ThenTo(IN_FLIGHT_RUN[..1], 1, s1, Stop(2, 7), IN_FLIGHT_RUN[..2]);
    ThenTo(IN_FLIGHT_RUN[..2], 2, s2, EvictorExit, IN_FLIGHT_RUN[..3]);
    assert Next(s2, EvictorExit) == IN_FLIGHT;
  }

  /** A connection thread has stopped a process when shutdown reads the registry,
      and registers it too late. */
  lemma ShutdownMissesAFreezeInFlight()
    ensures Loses(IN_FLIGHT_RUN, 3, 7)
  {
    LeadsToInFlight();
    hide Leads;
    var s4 := Next(IN_FLIGHT, CloseRegistry);
    ThenTo(IN_FLIGHT_RUN[..3], 3, IN_FLIGHT, CloseRegistry, IN_FLIGHT_RUN[..4]);
    var s5 := Next(s4, Register(2));
    ThenTo(IN_FLIGHT_RUN[..4], 3, s4, Register(2), IN_FLIGHT_RUN);
    Lost(IN_FLIGHT_RUN, 3, s5, 7);
  }

  const LATE_RUN: seq<Step> := [Spawn(7, true), EvictorExit, CloseRegistry, Stop(2, 7), Register(2)]

  const CLOSED: State := State(map[7 := Proc(0, false, true)], 1, map[], map[], map[0 := Idle, 1 := Idle], true, true)

  lemma LeadsToClosed()
    ensures Leads(LATE_RUN[..3], 3, CLOSED)
  {
    AtBoot();
    hide Leads;
    var s1 := Next(BOOT, Spawn(7, true));
    ThenTo([], 0, BOOT, Spawn(7, true), LATE_RUN[..1]);
    var s2 := Next(s1, EvictorExit);
    ThenTo(LATE_RUN[..1], 1, s1, EvictorExit, LATE_RUN[..2]);
    ThenTo(LATE_RUN[..2], 2, s2, CloseRegistry, LATE_RUN[..3]);
    assert Next(s2, CloseRegistry) == CLOSED;
  }

  /** Or it starts its freeze only then. */
  lemma ShutdownMissesALateFreeze()
    ensures Loses(LATE_RUN, 3, 7)
  {
    LeadsToClosed();
    hide Leads;
    var s4 := Next(CLOSED, Stop(2, 7));
    ThenTo(LATE_RUN[..3], 3, CLOSED, Stop(2, 7), LATE_RUN[..4]);
    var s5 := Next(s4, Register(2));
    ThenTo(LATE_RUN[..4], 3, s4, Register(2), LATE_RUN);
    Lost(LATE_RUN, 3, s5, 7);
  }

  /** A victim's record is gone whether or not its SIGCONT got through, unlike a
      registry entry, which a failed SIGCONT keeps. So releasing the last memory
      of a stopped victim loses it exactly when the daemon may no longer signal
      it. */
  lemma VictimReleaseLosesUnsignalable(s: State, t: Tid, pid: Pid)
    requires NoneLost(s) && Enabled(s, ContinueNext(t, pid))
    requires IsStopped(s, pid) && s.At(t).pending[pid] == s.procs[pid].start
    requires pid !in s.victims && (pid in s.registry ==> s.registry[pid] != s.procs[pid].start)
    requires forall v :: Holds(s.At(v), pid, s.procs[pid].start) ==> v == t
    ensures NoneLost(Next(s, ContinueNext(t, pid))) <==> s.procs[pid].signalable
  {
    var s' := Next(s, ContinueNext(t, pid));
    assert forall u :: u != t ==> s'.At(u) == s.At(u);
    ThreadsElsewhere(s, s', t);
    forall p | p != pid && IsStopped(s', p) ensures Remembered(s', p, s'.procs[p].start) {
      assert s'.procs[p] == s.procs[p];
      if Holds(s.At(t), p, s.procs[p].start) {
        assert p in s.At(t).pending - {pid};
        assert Holds(s'.At(t), p, s.procs[p].start);
      }
    }
    forall v ensures !Holds(s'.At(v), pid, s.procs[pid].start) {
      assert v != t ==> s'.At(v) == s.At(v);
    }
  }

  const VICTIM_RUN: seq<Step> :=
    [Spawn(7, true), StopVictim(7), RecordVictim, Revoke(7), Drain({7}), ContinueNext(0, 7)]

  const HELD: State := State(map[7 := Proc(0, true, true)], 1, map[], map[7 := 0], map[0 := Idle], false, false)

  lemma LeadsToHeld()
    ensures Leads(VICTIM_RUN[..3], 3, HELD)
  {
    AtBoot();
    hide Leads;
    var s1 := Next(BOOT, Spawn(7, true));
    ThenTo([], 0, BOOT, Spawn(7, true), VICTIM_RUN[..1]);
    var s2 := Next(s1, StopVictim(7));
    ThenTo(VICTIM_RUN[..1], 1, s1, StopVictim(7), VICTIM_RUN[..2]);
    ThenTo(VICTIM_RUN[..2], 2, s2, RecordVictim, VICTIM_RUN[..3]);
    assert Next(s2, RecordVictim) == HELD;
  }

  const DRAINED: State :=
    State(map[7 := Proc(0, true, false)], 1, map[], map[], map[0 := Releasing(map[7 := 0])], false, false)

  lemma LeadsToDrained()
    ensures Leads(VICTIM_RUN[..5], 3, DRAINED)
  {
    LeadsToHeld();
    hide Leads;
    var s4 := Next(HELD, Revoke(7));
    ThenTo(VICTIM_RUN[..3], 3, HELD, Revoke(7), VICTIM_RUN[..4]);
    ThenTo(VICTIM_RUN[..4], 3, s4, Drain({7}), VICTIM_RUN[..5]);
    assert 7 in Among(s4.victims, {7}) && Among(s4.victims, {7}) == map[7 := 0];
    assert Next(s4, Drain({7})) == DRAINED;
  }

  /** The right to signal a victim goes while it is held; giving it back loses it. */
  lemma ReleasedVictimIsLost()
    ensures Loses(VICTIM_RUN, 3, 7)
  {
    LeadsToDrained();
    hide Leads;
    var s6 := Next(DRAINED, ContinueNext(0, 7));
    ThenTo(VICTIM_RUN[..5], 3, DRAINED, ContinueNext(0, 7), VICTIM_RUN);
    Lost(VICTIM_RUN, 3, s6, 7);
  }

  lemma LockedReleaseKeepsUnsignalable(s: State, pid: Pid)
    requires NoneLost(s) && WindowsAreHarmless(s) && Enabled(s, ReleaseLocked(pid))
    ensures NoneLost(Next(s, ReleaseLocked(pid)))
  {
    var s' := Next(s, ReleaseLocked(pid));
    assert forall u :: s'.At(u) == s.At(u);
    ThreadsElsewhere(s, s', 2);
  }

  // ── recycle guard ────────────────────────────────────────────────────────

  ghost predicate Fresh(s: State)
  {
    forall pid :: pid in s.procs ==> s.procs[pid].start < s.clock
  }

  /** Once the process a record names is gone, no run brings it back: the record
      never again lets a SIGCONT or SIGSTOP through to its pid's new owner. */
  lemma {:induction false} StaleRecordsStayInert(s: State, steps: seq<Step>, pid: Pid, start: nat)
    requires Fresh(s) && Legal(s, steps)
    requires start < s.clock && !s.Live(pid, start)
    ensures !Run(s, steps).Live(pid, start)
    ensures UnfreezeChecked(Run(s, steps).procs, pid, start) == (Run(s, steps).procs, true)
    ensures FreezeChecked(Run(s, steps).procs, pid, start) == (Run(s, steps).procs, false)
    decreases |steps|
  {
    if |steps| > 0 {
      StartsNeverReturn(s, steps[0], pid, start);
      StaleRecordsStayInert(Next(s, steps[0]), steps[1..], pid, start);
    }
  }

  lemma StartsNeverReturn(s: State, step: Step, pid: Pid, start: nat)
    requires Fresh(s) && Enabled(s, step)
    requires start < s.clock && !s.Live(pid, start)
    ensures var s' := Next(s, step); Fresh(s') && start < s'.clock && !s'.Live(pid, start)
  {
    if !step.Spawn? {
      OldProcesses(s, step);
      hide Next, Enabled;
    }
  }

  /** Only a spawn brings a process the daemon has not seen. */
  lemma OldProcesses(s: State, step: Step)
    requires Enabled(s, step) && !step.Spawn?
    ensures var s' := Next(s, step);
      s'.clock == s.clock && forall p :: p in s'.procs ==> p in s.procs && s'.procs[p].start == s.procs[p].start
  {
    if step.Stop? || step.StopVictim? {
      SignalKeepsStarts(s.procs, step.pid, true);
    } else if step.Rollback? {
      SignalKeepsStarts(s.procs, s.At(step.t).pid, false);
    } else if step.ContinueNext? {
      GuardKeepsStarts(s.procs, step.pid, s.At(step.t).pending[step.pid]);
    } else if step.ReleaseLocked? {
      GuardKeepsStarts(s.procs, step.pid, s.registry[step.pid]);
    } else if step.ContinueSelected? {
      GuardKeepsStarts(s.procs, s.At(step.t).pid, s.At(step.t).start);
    }
    hide Signal, UnfreezeChecked;
  }

  lemma SignalKeepsStarts(procs: map<Pid, Proc>, pid: Pid, stop: bool)
    ensures var procs' := Signal(procs, pid, stop).0; forall p :: p in procs' ==> procs'[p].start == procs[p].start
  {
  }

  lemma GuardKeepsStarts(procs: map<Pid, Proc>, pid: Pid, start: nat)
    ensures var procs' := UnfreezeChecked(procs, pid, start).0; forall p :: p in procs' ==> procs'[p].start == procs[p].start
  {
    SignalKeepsStarts(procs, pid, false);
    hide Signal;
  }
}
