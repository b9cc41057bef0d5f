/** Signals under the PID-recycle guard and the registry of frozen processes. */
module Executor {
  import opened Types
  import Lifecycle

  type Procs = map<Pid, Lifecycle.Proc>

  /** The kernel's process table, changed by signals and by the environment. */
  class Kernel {
    var procs: Procs

    constructor (procs: Procs)
      ensures this.procs == procs
    {
      this.procs := procs;
    }

    method SendSignal(pid: Pid, stop: bool) returns (ok: bool)
      modifies this
      ensures (procs, ok) == Lifecycle.Signal(old(procs), pid, stop)
    {
      ok := pid in procs && procs[pid].signalable;
      if ok {
        procs := procs[pid := procs[pid].(stopped := stop)];
      }
    }

    function ReadStartTime(pid: Pid): (r: Option<nat>)
      reads this
      ensures r.Some? <==> pid in procs
    {
      if pid in procs then Some(procs[pid].start) else None
    }

    /** A pid that is gone or recycled counts as released. */
    method UnfreezeChecked(pid: Pid, expectedStart: nat) returns (ok: bool)
      modifies this
      ensures (procs, ok) == Lifecycle.UnfreezeChecked(old(procs), pid, expectedStart)
      ensures ok <==> !(pid in old(procs) && old(procs)[pid].start == expectedStart && !old(procs)[pid].signalable)
    {
      match ReadStartTime(pid)
      case None => ok := true;
      case Some(st) =>
        if st != expectedStart {
          ok := true;
        } else {
          ok := SendSignal(pid, false);
        }
    }

    /** A pid that is gone or recycled is left alone and reported. */
    method FreezeChecked(pid: Pid, expectedStart: nat) returns (ok: bool)
      modifies this
      ensures (procs, ok) == Lifecycle.FreezeChecked(old(procs), pid, expectedStart)
    {
      match ReadStartTime(pid)
      case None => ok := false;
      case Some(st) =>
        if st != expectedStart {
          ok := false;
        } else {
          ok := SendSignal(pid, true);
        }
    }

    /** The action sink's freeze: fingerprint, then stop under the guard. */
    method Freeze(pid: Pid) returns (ok: bool)
      modifies this
      ensures (procs, ok) == Lifecycle.Signal(old(procs), pid, true)
    {
      match ReadStartTime(pid)
      case None => ok := false;
      case Some(st) => ok := FreezeChecked(pid, st);
    }

    /** What the rest of the system did in the meantime: anything. */
    method Environment(next: Procs)
      modifies this
      ensures procs == next
    {
      procs := next;
    }
  }

  datatype FrozenEntry = FrozenEntry(name: string, frozenAt: nat, start: nat)

  function Starts(frozen: map<Pid, FrozenEntry>): map<Pid, nat>
  {
    map pid | pid in frozen :: frozen[pid].start
  }

  class FrozenRegistry {
    var frozen: map<Pid, FrozenEntry>

    constructor ()
      ensures frozen == map[]
    {
      frozen := map[];
    }

    /** Records the process under the start time it has now; refuses a pid that
        has none. */
    method Add(kernel: Kernel, pid: Pid, name: string, now: nat) returns (added: bool)
      modifies this
      ensures added <==> pid in kernel.procs
      ensures frozen == if added then old(frozen)[pid := FrozenEntry(name, now, kernel.procs[pid].start)] else old(frozen)
    {
      match kernel.ReadStartTime(pid)
      case None => added := false;
      case Some(start) =>
        frozen := frozen[pid := FrozenEntry(name, now, start)];
        added := true;
    }

    method Remove(pid: Pid)
      modifies this
      ensures frozen == old(frozen) - {pid}
    {
      frozen := frozen - {pid};
    }

    function StartTime(pid: Pid): nat
      reads this
    {
      if pid in frozen then frozen[pid].start else 0
    }

    function FrozenAt(pid: Pid): nat
      reads this
    {
      if pid in frozen then frozen[pid].frozenAt else 0
    }
  }

  datatype FreezeOutcome = Frozen | AbortedVanished | Failed

  /** The protocol state a kernel and a registry stand for, one thread acting. */
  ghost function View(procs: Procs, frozen: map<Pid, FrozenEntry>): Lifecycle.State
  {
    Lifecycle.State(procs, 0, Starts(frozen), map[], map[], false, false)
  }

  /** SIGSTOP, then record, then roll back if the record was refused. Whatever the
      environment does between the steps (`meanwhile`, `later`), the method takes
      exactly the protocol's steps. */
  method FreezeProcess(
    kernel: Kernel, registry: FrozenRegistry, pid: Pid, name: string, now: nat, meanwhile: Procs, later: Procs
  ) returns (outcome: FreezeOutcome)
    modifies kernel, registry
    // A rolled back freeze leaves whoever has the pid by then running.
    ensures outcome == AbortedVanished && pid in kernel.procs && kernel.procs[pid].signalable ==> !kernel.procs[pid].stopped
    ensures
      var t := 5;
      var stop := Lifecycle.Next(old(View(kernel.procs, registry.frozen)), Lifecycle.Stop(t, pid));
      if stop.At(t).Idle? then
        outcome == Failed && View(kernel.procs, registry.frozen) == old(View(kernel.procs, registry.frozen))
      else
        var register := Lifecycle.Next(stop.(procs := meanwhile), Lifecycle.Register(t));
        if register.At(t).Idle? then
          && outcome == Frozen
          && View(kernel.procs, registry.frozen) == register.(threads := map[])
        else
          var rollback := Lifecycle.Next(register.(procs := later), Lifecycle.Rollback(t));
          && outcome == AbortedVanished
          && View(kernel.procs, registry.frozen) == rollback.(threads := map[])
  {
    var ok := kernel.Freeze(pid);
    if !ok {
      return Failed;
    }
    kernel.Environment(meanwhile);
    var added := registry.Add(kernel, pid, name, now);
    if added {
      assert Starts(registry.frozen) == Starts(old(registry.frozen))[pid := meanwhile[pid].start];
      return Frozen;
    }
    kernel.Environment(later);
    var _ := kernel.SendSignal(pid, false);
    outcome := AbortedVanished;
  }

  /** SIGCONTs every entry of the registry once, in any order. */
  method ShutdownUnfreeze(kernel: Kernel, registry: FrozenRegistry)
    modifies kernel
    ensures kernel.procs.Keys == old(kernel.procs).Keys
    ensures forall pid :: pid in kernel.procs ==>
              var p := old(kernel.procs)[pid];
              kernel.procs[pid] ==
                if pid in registry.frozen && registry.frozen[pid].start == p.start && p.signalable
                then p.(stopped := false) else p
  {
    var left := registry.frozen.Keys;
    while left != {}
      invariant left <= registry.frozen.Keys
      invariant kernel.procs.Keys == old(kernel.procs).Keys
      invariant forall pid :: pid in kernel.procs ==>
                  var p := old(kernel.procs)[pid];
                  kernel.procs[pid] ==
                    if pid in registry.frozen.Keys - left && registry.frozen[pid].start == p.start && p.signalable
                    then p.(stopped := false) else p
      decreases left
    {
      var pid :| pid in left;
      var _ := kernel.UnfreezeChecked(pid, registry.StartTime(pid));
      left := left - {pid};
    }
  }

  /** Shutdown leaves nothing stopped exactly when every stopped process is registered
      under its start time and may be signalled, which is what the protocol promises
      of a registry read with no freeze in flight. */
  method ShutdownLeavesNothingStopped(kernel: Kernel, registry: FrozenRegistry)
    modifies kernel
    ensures (forall pid :: pid in kernel.procs ==> !kernel.procs[pid].stopped) <==>
      && Lifecycle.NoneLost(old(View(kernel.procs, registry.frozen)))
      && Lifecycle.StoppedAreSignalable(old(View(kernel.procs, registry.frozen)))
  {
    ghost var s := View(kernel.procs, registry.frozen);
    assert forall t :: s.At(t) == Lifecycle.Idle;
    assert forall pid :: Lifecycle.IsStopped(s, pid) ==>
      (Lifecycle.Remembered(s, pid, s.procs[pid].start) <==>
         pid in registry.frozen && registry.frozen[pid].start == s.procs[pid].start);
    ShutdownUnfreeze(kernel, registry);
    assert forall pid :: pid in kernel.procs ==>
      (kernel.procs[pid].stopped <==>
         Lifecycle.IsStopped(s, pid)
         && !(Lifecycle.Remembered(s, pid, s.procs[pid].start) && s.procs[pid].signalable));
  }
}
