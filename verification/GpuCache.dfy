/** The GPU observation cache: pruned on every write, and nobody can tell. */
module GpuCache {
  import opened Types
  import opened Collections

  const TTL: nat := 30 * 1000

  datatype Metric = Resident | Shared | Whole | Purgeable | Other

  datatype Memory = Memory(resident: U64, shared: U64, total: U64, purgeable: U64)
  {
    function Put(m: Metric, kb: U64): Memory
    {
      match m
      case Resident => this.(resident := kb)
      case Shared => this.(shared := kb)
      case Whole => this.(total := kb)
      case Purgeable => this.(purgeable := kb)
      case Other => this
    }

    function Get(m: Metric): U64
    {
      match m
      case Resident => resident
      case Shared => shared
      case Whole => total
      case Purgeable => purgeable
      case Other => 0
    }

    /** Resident memory not shared with the compositor. */
    function Pressure(): (kb: Kb)
      ensures resident >= shared ==> kb + shared == resident
      ensures resident < shared ==> kb == 0
    {
      SatSub(resident, shared)
    }
  }

  const NOTHING: Memory := Memory(0, 0, 0, 0)

  datatype Entry = Entry(mem: Memory, at: Time)

  predicate Fresh(e: Entry, now: Time) { Elapsed(now, e.at) < TTL }

  function Live(entries: map<Pid, Entry>, now: Time): map<Pid, Entry>
  {
    map pid | pid in entries && Fresh(entries[pid], now) :: entries[pid]
  }

  function Pressures(entries: map<Pid, Entry>): map<Pid, nat>
  {
    map pid | pid in entries :: entries[pid].mem.Pressure()
  }

  // ── the store that never forgets ─────────────────────────────────────────

  datatype Observation = Observation(pid: Pid, metric: Metric, kb: U64, at: Time)

  /** Keeps every pid for ever and starts a pid's record afresh only when that pid
      itself was silent for the TTL. */
  ghost function Unpruned(os: seq<Observation>): map<Pid, Entry>
  {
    if |os| == 0 then map[]
    else
      var (before, o) := (Unpruned(os[..|os| - 1]), os[|os| - 1]);
      var mem := if o.pid in before && Fresh(before[o.pid], o.at) then before[o.pid].mem else NOTHING;
      before[o.pid := Entry(mem.Put(o.metric, o.kb), o.at)]
  }

  /** One pid's observations since it was last silent for the TTL. */
  ghost function Streak(os: seq<Observation>, pid: Pid): seq<Observation>
  {
    if |os| == 0 then []
    else
      var (before, o) := (Streak(os[..|os| - 1], pid), os[|os| - 1]);
      if o.pid != pid then before
      else if |before| > 0 && Elapsed(o.at, before[|before| - 1].at) < 30_000 then before + [o]
      else [o]
  }

  /** The last value reported for a metric. */
  ghost function LastOf(os: seq<Observation>, m: Metric): U64
  {
    if |os| == 0 then 0
    else if os[|os| - 1].metric == m then os[|os| - 1].kb
    else LastOf(os[..|os| - 1], m)
  }

  /** The unpruned store holds, for each pid, the last value of every metric in its
      own current streak; other pids play no part. */
  lemma {:induction false} UnprunedIsPerPid(os: seq<Observation>, pid: Pid, m: Metric)
    requires m != Other
    ensures var (streak, store) := (Streak(os, pid), Unpruned(os));
      && (pid in store <==> |streak| > 0)
      && (pid in store ==> store[pid].at == streak[|streak| - 1].at && store[pid].mem.Get(m) == LastOf(streak, m))
  {
    if |os| > 0 {
      var (earlier, o) := (os[..|os| - 1], os[|os| - 1]);
      UnprunedIsPerPid(earlier, pid, m);
      if o.pid == pid {
        PutGet(if pid in Unpruned(earlier) && Fresh(Unpruned(earlier)[pid], o.at) then Unpruned(earlier)[pid].mem else NOTHING, o.metric, o.kb, m);
        LastOfAppend(Streak(earlier, pid), o, m);
        LastOfAppend([], o, m);
        assert [] + [o] == [o];
      }
    }
  }

  /** So what is read for a pid is the last resident, shared, total and purgeable
      amount of its streak. */
  lemma MemoryIsLast(os: seq<Observation>, pid: Pid)
    requires pid in Unpruned(os)
    ensures var streak := Streak(os, pid);
      Unpruned(os)[pid].mem ==
        Memory(LastOf(streak, Resident), LastOf(streak, Shared), LastOf(streak, Whole), LastOf(streak, Purgeable))
  {
    UnprunedIsPerPid(os, pid, Resident);
    UnprunedIsPerPid(os, pid, Shared);
    UnprunedIsPerPid(os, pid, Whole);
    UnprunedIsPerPid(os, pid, Purgeable);
    hide Unpruned, Streak, LastOf;
  }

  lemma PutGet(mem: Memory, put: Metric, kb: U64, m: Metric)
    requires m != Other
    ensures mem.Put(put, kb).Get(m) == if put == m then kb else mem.Get(m)
    ensures NOTHING.Get(m) == 0
  {
  }

  lemma LastOfAppend(os: seq<Observation>, o: Observation, m: Metric)
    ensures LastOf(os + [o], m) == if o.metric == m then o.kb else LastOf(os, m)
  {
    assert (os + [o])[..|os|] == os;
  }

  function Capped(total: nat): Kb { if total > U64_MAX then U64_MAX else total }

  /** One more pressure added, saturating, in any order. */
  lemma PressureStep(live: map<Pid, Entry>, left: set<Pid>, pid: Pid)
    requires pid in left && left <= live.Keys
    ensures var (ps, pressure) := (Pressures(live), live[pid].mem.Pressure());
      Capped(MapTotal(ps - (left - {pid}))) == SatAdd(Capped(MapTotal(ps - left)), pressure)
  {
    var (ps, pressure) := (Pressures(live), live[pid].mem.Pressure());
    assert ps - (left - {pid}) == (ps - left)[pid := pressure];
    assert (ps - left) - {pid} == ps - left;
    hide *;
    PutIn(ps - left, pid, pressure);
    AddCapped(MapTotal(ps - left), pressure);
  }

  lemma AddCapped(total: nat, more: U64)
    ensures Capped(total + more) == SatAdd(Capped(total), more)
  {
  }

  // ── the cache ────────────────────────────────────────────────────────────

  class Cache {
    var entries: map<Pid, Entry>
    ghost var log: seq<Observation>

    /** What is missing from the cache was stale at the last write. */
    ghost predicate Valid()
      reads this
    {
      && (forall pid :: pid in entries ==> pid in Unpruned(log) && Unpruned(log)[pid] == entries[pid])
      && (forall pid :: pid in Unpruned(log) && pid !in entries ==> |log| > 0 && !Fresh(Unpruned(log)[pid], log[|log| - 1].at))
    }

    /** The clock has reached `now`. */
    ghost predicate Reached(now: Time)
      reads this
    {
      |log| > 0 ==> log[|log| - 1].at <= now
    }

    constructor ()
      ensures Valid() && log == []
    {
      entries, log := map[], [];
    }

    /** Prunes, then upserts one metric and refreshes the entry's time. */
    method Observe(pid: Pid, metric: Metric, kb: U64, now: Time)
      requires Valid() && Reached(now)
      modifies this
      ensures Valid() && log == old(log) + [Observation(pid, metric, kb, now)]
    {
      ghost var longer := log + [Observation(pid, metric, kb, now)];
      assert longer[..|log|] == log;
      LiveIsUnpruned(now);
      entries := Live(entries, now);
      var mem := if pid in entries then entries[pid].mem else NOTHING;
      entries := entries[pid := Entry(mem.Put(metric, kb), now)];
      log := longer;
    }

    /** Pruning is unobservable: what is live in the cache is what is live in the
        store that never forgets. */
    lemma LiveIsUnpruned(now: Time)
      requires Valid() && Reached(now)
      ensures Live(entries, now) == Live(Unpruned(log), now)
    {
    }

    method GetStats(pid: Pid, now: Time) returns (mem: Memory)
      requires Valid() && Reached(now)
      ensures mem == if pid in Live(Unpruned(log), now) then Unpruned(log)[pid].mem else NOTHING
    {
      LiveIsUnpruned(now);
      mem := if pid in entries && Fresh(entries[pid], now) then entries[pid].mem else NOTHING;
      assert pid in Live(entries, now) <==> pid in Live(Unpruned(log), now);
    }

    method GetKb(pid: Pid, now: Time) returns (kb: Kb)
      requires Valid() && Reached(now)
      ensures kb == if |Streak(log, pid)| > 0 && Elapsed(now, Streak(log, pid)[|Streak(log, pid)| - 1].at) < 30_000
                    then LastOf(Streak(log, pid), Resident) else 0
    {
      UnprunedIsPerPid(log, pid, Resident);
      var mem := GetStats(pid, now);
      kb := mem.resident;
    }

    /** Summed in any order, saturating. */
    method GetTotal(now: Time) returns (sum: Kb)
      requires Valid() && Reached(now)
      ensures var total := MapTotal(Pressures(Live(Unpruned(log), now))); sum == Capped(total)
    {
      LiveIsUnpruned(now);
      var live := Live(entries, now);
      sum := 0;
      var left := live.Keys;
      ghost var done: map<Pid, nat> := map[];
      hide Live;
      while left != {}
        invariant left <= live.Keys
        invariant done == Pressures(live) - left
        invariant sum == Capped(MapTotal(done))
        decreases left
      {
        var pid :| pid in left;
        PressureStep(live, left, pid);
        sum := SatAdd(sum, live[pid].mem.Pressure());
        left := left - {pid};
        done := Pressures(live) - left;
      }
      assert done == Pressures(live);
    }
  }
}
