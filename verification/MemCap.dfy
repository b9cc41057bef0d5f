/** Memory caps on expendable background cgroups, against the kernel's limits. */
module MemCap {
  import opened Types
  import opened Config
  import Psi

  type Cgroup = string

  const DEBOUNCE_SECS: nat := 10
  const HEADROOM_KB: Kb := 512 * 1024

  // ── one cgroup ───────────────────────────────────────────────────────────

  /** The processes of one cgroup: least priority and RSS. */
  datatype Group = Group(prio: U8, rss: Kb)

  /** A kernel limit: "max", or a number of bytes. */
  datatype Limit = Max | Bytes(bytes: U64)

  /** One cgroup as the manager and the kernel see it: the cap it believes it wrote,
      since when it has been background, and the limit file, if there is one. */
  datatype Cg = Cg(cap: Option<U64>, since: Option<Time>, limit: Option<Limit>)

  predicate Spared(g: Group, foreground: bool) { foreground || g.prio < 60 }

  function CapBytes(rss: Kb): U64
  {
    var kb := SatAdd(rss, HEADROOM_KB);
    if kb * 1024 > U64_MAX then U64_MAX else kb * 1024
  }

  /** A restore writes "max" if the file is there and the write succeeds; the cap is
      forgotten either way. */
  function Restored(c: Cg, ok: bool): Cg
  {
    c.(cap := None, limit := if c.cap.Some? && c.limit.Some? && ok then Some(Max) else c.limit)
  }

  function Updated(c: Cg, g: Option<Group>, foreground: bool, now: Time, ok: bool): Cg
  {
    if g.None? then c.(since := None)
    else if Spared(g.value, foreground) then Restored(c, ok).(since := None)
    else if c.cap.Some? then c
    else
      var since := if c.since.Some? then c.since.value else now;
      if AsSecs(Elapsed(now, since)) >= DEBOUNCE_SECS && c.limit.Some? && ok then
        Cg(Some(CapBytes(g.value.rss)), Some(since), Some(Bytes(CapBytes(g.value.rss))))
      else c.(since := Some(since))
  }

  // ── all cgroups ──────────────────────────────────────────────────────────

  function GroupOf(procs: seq<Process>, path: Cgroup, policy: Policy): Option<Group>
  {
    if |procs| == 0 then None
    else
      var (before, pr) := (GroupOf(procs[..|procs| - 1], path, policy), procs[|procs| - 1]);
      if pr.cgroup == Some(path) then Some(Joined(before, pr, policy)) else before
  }

  function Joined(g: Option<Group>, pr: Process, policy: Policy): Group
  {
    var (prio, rss) := if g.Some? then (g.value.prio, g.value.rss) else (100, 0);
    Group(if GetPriority(pr, policy) < prio then GetPriority(pr, policy) else prio, SatAdd(rss, pr.rss))
  }

  /** A cgroup is spared for its priority exactly when one of its processes is. */
  lemma {:induction false} GroupIsAsGoodAsItsBest(procs: seq<Process>, path: Cgroup, policy: Policy)
    ensures GroupOf(procs, path, policy).Some? <==> exists pr :: pr in procs && pr.cgroup == Some(path)
    ensures GroupOf(procs, path, policy).Some? ==>
              (GroupOf(procs, path, policy).value.prio < 60 <==>
                 exists pr :: pr in procs && pr.cgroup == Some(path) && GetPriority(pr, policy) < 60)
  {
    if |procs| > 0 {
      var (shorter, last) := (procs[..|procs| - 1], procs[|procs| - 1]);
      GroupIsAsGoodAsItsBest(shorter, path, policy);
      assert procs == shorter + [last];
      assert last in procs;
    }
  }

  /** The RSS of the processes of one cgroup. */
  function RssIn(procs: seq<Process>, path: Cgroup): seq<nat>
  {
    if |procs| == 0 then []
    else RssIn(procs[..|procs| - 1], path) + if procs[|procs| - 1].cgroup == Some(path) then [procs[|procs| - 1].rss] else []
  }

  /** A cgroup weighs what its processes weigh together. */
  lemma {:induction false} GroupWeighsItsProcesses(procs: seq<Process>, path: Cgroup, policy: Policy)
    ensures var (g, sum) := (GroupOf(procs, path, policy), Total(RssIn(procs, path)));
      && (g.None? ==> RssIn(procs, path) == [])
      && (g.Some? ==> g.value.rss == if sum > U64_MAX then U64_MAX else sum)
  {
    if |procs| > 0 {
      var (shorter, last) := (procs[..|procs| - 1], procs[|procs| - 1]);
      GroupWeighsItsProcesses(shorter, path, policy);
      if last.cgroup == Some(path) {
        assert (RssIn(shorter, path) + [last.rss])[..|RssIn(shorter, path)|] == RssIn(shorter, path);
      } else {
        assert RssIn(shorter, path) + [] == RssIn(shorter, path);
      }
    }
  }

  function ForegroundOf(procs: seq<Process>, active: Option<Pid>): Option<Cgroup>
  {
    if |procs| == 0 || active.None? then None
    else if procs[0].pid == active.value then procs[0].cgroup
    else ForegroundOf(procs[1..], active)
  }

  /** The foreground cgroup is the one of the active process, if it is scanned. */
  lemma {:induction false} ForegroundIsActive(procs: seq<Process>, active: Pid, pr: Process)
    requires DistinctPids(procs)
    ensures pr in procs && pr.pid == active ==> ForegroundOf(procs, Some(active)) == pr.cgroup
    ensures (forall p :: p in procs ==> p.pid != active) ==> ForegroundOf(procs, Some(active)) == None
    ensures ForegroundOf(procs, None) == None
  {
    if |procs| > 0 {
      assert forall i, j :: 0 <= i < j < |procs| - 1 ==> procs[1..][i].pid != procs[1..][j].pid by {
        assert forall i :: 0 <= i < |procs| - 1 ==> procs[1..][i] == procs[i + 1];
      }
      assert procs == [procs[0]] + procs[1..];
      assert procs[0] in procs;
      ForegroundIsActive(procs[1..], active, pr);
    }
  }

  /** The cgroup file system, as far as memory limits go. */
  class CgroupFs {
    var limits: map<Cgroup, Limit>

    constructor (limits: map<Cgroup, Limit>)
      ensures this.limits == limits
    {
      this.limits := limits;
    }

    method Write(path: Cgroup, limit: Limit, ok: bool) returns (done: bool)
      modifies this
      ensures done <==> path in old(limits) && ok
      ensures limits == if done then old(limits)[path := limit] else old(limits)
    {
      done := path in limits && ok;
      if done {
        limits := limits[path := limit];
      }
    }
  }

  function Lookup<V>(m: map<Cgroup, V>, path: Cgroup): Option<V> { if path in m then Some(m[path]) else None }

  function ViewOf(capped: map<Cgroup, U64>, tracker: map<Cgroup, Time>, limits: map<Cgroup, Limit>, path: Cgroup): Cg
  {
    Cg(Lookup(capped, path), Lookup(tracker, path), Lookup(limits, path))
  }

  class MemCapManager {
    var capped: map<Cgroup, U64>
    var tracker: map<Cgroup, Time>

    constructor ()
      ensures capped == map[] && tracker == map[]
    {
      capped, tracker := map[], map[];
    }

    function View(fs: CgroupFs, path: Cgroup): Cg
      reads this, fs
    {
      ViewOf(capped, tracker, fs.limits, path)
    }

    /** The processes by cgroup. */
    method Groups(procs: seq<Process>, policy: Policy) returns (groups: map<Cgroup, Group>)
      ensures forall path :: Lookup(groups, path) == GroupOf(procs, path, policy)
    {
      groups := map[];
      var i := 0;
      hide Joined;
      while i < |procs|
        invariant 0 <= i <= |procs|
        invariant forall path :: Lookup(groups, path) == GroupOf(procs[..i], path, policy)
      {
        var pr := procs[i];
        assert procs[..i + 1][..i] == procs[..i];
        if pr.cgroup.Some? {
          groups := groups[pr.cgroup.value := Joined(Lookup(groups, pr.cgroup.value), pr, policy)];
        }
        i := i + 1;
      }
      assert procs[..|procs|] == procs;
    }

    /** One cgroup's turn. */
    method Consider(fs: CgroupFs, path: Cgroup, g: Group, foreground: bool, now: Time, ok: bool)
      modifies this, fs
      ensures View(fs, path) == Updated(old(View(fs, path)), Some(g), foreground, now, ok)
      ensures forall other :: other != path ==> View(fs, other) == old(View(fs, other))
    {
      if Spared(g, foreground) {
        if path in capped {
          capped := capped - {path};
          var _ := fs.Write(path, Max, ok);
        }
        tracker := tracker - {path};
        return;
      }
      if path in capped { return; }
      if path !in tracker {
        tracker := tracker[path := now];
      }
      if AsSecs(Elapsed(now, tracker[path])) < DEBOUNCE_SECS { return; }
      var bytes := CapBytes(g.rss);
      var done := fs.Write(path, Bytes(bytes), ok);
      if done {
        capped := capped[path := bytes];
      }
    }

    /** At High and above every cgroup of the scan takes its turn, in any order;
        below, nothing happens. */
    method Update(
      fs: CgroupFs, procs: seq<Process>, active: Option<Pid>, level: Psi.Level, policy: Policy, now: Time,
      writes: Cgroup -> bool)
      modifies this, fs
      ensures forall path :: View(fs, path) ==
                if level.AtLeast(Psi.High) then
                  Updated(old(View(fs, path)), GroupOf(procs, path, policy), ForegroundOf(procs, active) == Some(path), now, writes(path))
                else old(View(fs, path))
    {
      if !level.AtLeast(Psi.High) { return; }
      var foreground := FindForeground(procs, active);
      var groups := Groups(procs, policy);
      tracker := map path | path in tracker && path in groups :: tracker[path];
      var left := groups.Keys;
      hide GroupOf, ForegroundOf, Spared, Restored, CapBytes;
      forall path ensures View(fs, path) ==
          if path in left then old(View(fs, path))
          else Updated(old(View(fs, path)), GroupOf(procs, path, policy), foreground == Some(path), now, writes(path))
      {
        assert GroupOf(procs, path, policy) == Lookup(groups, path);
      }
      hide Updated;
      while left != {}
        invariant left <= groups.Keys
        invariant forall path :: View(fs, path) ==
                    if path in left then old(View(fs, path))
                    else Updated(old(View(fs, path)), GroupOf(procs, path, policy), foreground == Some(path), now, writes(path))
        decreases left
      {
        var path :| path in left;
        assert GroupOf(procs, path, policy) == Some(groups[path]);
        Consider(fs, path, groups[path], foreground == Some(path), now, writes(path));
        left := left - {path};
      }
    }

    method FindForeground(procs: seq<Process>, active: Option<Pid>) returns (path: Option<Cgroup>)
      ensures path == ForegroundOf(procs, active)
    {
      path := None;
      if active.None? { return; }
      var i := 0;
      while i < |procs| && procs[i].pid != active.value
        invariant 0 <= i <= |procs|
        invariant ForegroundOf(procs, active) == ForegroundOf(procs[i..], active)
      {
        assert procs[i..][1..] == procs[i + 1..];
        i := i + 1;
      }
      if i < |procs| {
        path := procs[i].cgroup;
      }
    }

    /** On a drop below High, and at shutdown. */
    method RestoreAll(fs: CgroupFs, writes: Cgroup -> bool)
      modifies this, fs
      ensures capped == map[] && tracker == map[]
      ensures forall path :: View(fs, path) == Restored(old(View(fs, path)), writes(path)).(since := None)
    {
      var left := capped.Keys;
      while left != {}
        invariant left <= capped.Keys && capped == old(capped)
        invariant forall path :: Lookup(fs.limits, path) ==
                    if path in capped.Keys - left then Restored(old(View(fs, path)), writes(path)).limit else Lookup(old(fs.limits), path)
        decreases left
      {
        var path :| path in left;
        var _ := fs.Write(path, Max, writes(path));
        left := left - {path};
      }
      capped, tracker := map[], map[];
    }
  }

  /** The manager's part of one evictor cycle: every cgroup makes one event. */
  method RunCycle(
    manager: MemCapManager, fs: CgroupFs, called: bool, procs: seq<Process>, active: Option<Pid>, level: Psi.Level,
    policy: Policy, now: Time,
    writes: Cgroup -> bool)
    modifies manager, fs
    ensures forall path :: manager.View(fs, path) ==
              Next(old(manager.View(fs, path)),
                   Cycle(level, called, GroupOf(procs, path, policy), ForegroundOf(procs, active) == Some(path), now, writes(path)))
    ensures !level.AtLeast(Psi.High) ==> manager.capped == map[]
  {
    if called {
      manager.Update(fs, procs, active, level, policy, now, writes);
    }
    if !level.AtLeast(Psi.High) {
      manager.RestoreAll(fs, writes);
    }
    hide GroupOf, ForegroundOf, Updated, Restored;
  }

  // ── whole runs, cgroup by cgroup ─────────────────────────────────────────

  /** What can happen to one cgroup: a cycle (updated if the manager was called,
      then restored if the level is below High), or the system removing or making it. */
  datatype Event =
    | Cycle(level: Psi.Level, called: bool, g: Option<Group>, foreground: bool, now: Time, ok: bool)
    | Removed
    | Made
  {
    predicate Updates() { Cycle? && called && level.AtLeast(Psi.High) }

    predicate Restores() { Cycle? && !level.AtLeast(Psi.High) }
  }

  function Next(c: Cg, e: Event): Cg
  {
    match e
    case Cycle(level, called, g, foreground, now, ok) =>
      if e.Restores() then Restored(c, ok).(since := None)
      else if called then Updated(c, g, foreground, now, ok)
      else c
    case Removed => c.(limit := None)
    case Made => if c.limit.None? then c.(limit := Some(Max)) else c
  }

  ghost function RunOf(c: Cg, es: seq<Event>): Cg
  {
    if |es| == 0 then c else Next(RunOf(c, es[..|es| - 1]), es[|es| - 1])
  }

  /** The kernel holds exactly the cap the manager believes it wrote. */
  predicate Agrees(c: Cg)
  {
    match c.limit
    case None => c.cap.None?
    case Some(Max) => c.cap.None?
    case Some(Bytes(b)) => c.cap == Some(b)
  }

  /** A restore is due and its write fails. */
  predicate Leaks(c: Cg, e: Event)
  {
    && c.cap.Some? && c.limit.Some? && e.Cycle? && !e.ok
    && (e.Restores() || (e.Updates() && e.g.Some? && Spared(e.g.value, e.foreground)))
  }

  /** Agreement is lost by a step exactly when a restore write fails or a capped
      cgroup is removed. */
  lemma AgreementLostExactly(c: Cg, e: Event)
    requires Agrees(c)
    ensures Agrees(Next(c, e)) <==> !Leaks(c, e) && !(e.Removed? && c.cap.Some?)
  {
  }

  /** A restore that fails is forgotten; a capped cgroup made again is believed capped. */
  lemma AgreementIsLost()
    ensures var c := Cg(Some(5), None, Some(Bytes(5)));
      && Agrees(c)
      && RunOf(c, [Cycle(Psi.Normal, false, None, false, 0, false)]) == Cg(None, None, Some(Bytes(5)))
      && RunOf(c, [Removed] + [Made]) == Cg(Some(5), None, Some(Max))
  {
    var c := Cg(Some(5), None, Some(Bytes(5)));
    assert [Cycle(Psi.Normal, false, None, false, 0, false)][..0] == [] && [Removed][..0] == [];
    assert ([Removed] + [Made])[..1] == [Removed];
    assert RunOf(c, [Removed]) == Next(c, Removed);
  }

  ghost predicate Faithful(c: Cg, es: seq<Event>)
  {
    forall i :: 0 <= i < |es| ==>
      var before := RunOf(c, es[..i]);
      !Leaks(before, es[i]) && !(es[i].Removed? && before.cap.Some?)
  }

  lemma {:induction false} AgreementHolds(c: Cg, es: seq<Event>)
    requires Agrees(c) && Faithful(c, es)
    ensures Agrees(RunOf(c, es))
  {
    if |es| > 0 {
      var n := |es| - 1;
      assert forall i :: 0 <= i < n ==> es[..n][..i] == es[..i];
      AgreementHolds(c, es[..n]);
      AgreementLostExactly(RunOf(c, es[..n]), es[n]);
    }
  }

  /** Weaker, but whatever cgroups come and go: the kernel holds no cap the manager
      does not know of, as long as restore writes succeed. */
  predicate Known(c: Cg) { c.limit.Some? && c.limit.value.Bytes? ==> c.cap == Some(c.limit.value.bytes) }

  lemma KnownStep(c: Cg, e: Event)
    requires Known(c) && !Leaks(c, e)
    ensures Known(Next(c, e))
    ensures e.Restores() ==> IsClear(Next(c, e))
  {
  }

  /** No cap, neither believed nor real. */
  predicate IsClear(c: Cg) { c.cap.None? && c.since.None? && (c.limit.Some? ==> c.limit.value == Max) }

  lemma {:induction false} NoCapIsForgotten(c: Cg, es: seq<Event>)
    requires Known(c) && forall i :: 0 <= i < |es| ==> !Leaks(RunOf(c, es[..i]), es[i])
    ensures Known(RunOf(c, es))
    ensures |es| > 0 && es[|es| - 1].Restores() ==> IsClear(RunOf(c, es))
  {
    if |es| > 0 {
      var n := |es| - 1;
      assert forall i :: 0 <= i < n ==> es[..n][..i] == es[..i];
      NoCapIsForgotten(c, es[..n]);
      KnownStep(RunOf(c, es[..n]), es[n]);
      assert es[..n] == es[..|es| - 1];
    }
    hide Next, Leaks, Known;
  }

  /** After an update no spared cgroup holds a cap. */
  lemma SparedAreNotCapped(c: Cg, e: Event)
    requires e.Updates() && e.g.Some? && (e.foreground || e.g.value.prio < 60)
    ensures Next(c, e).cap.None?
    ensures Known(c) && !Leaks(c, e) ==> (Next(c, e).limit.Some? ==> Next(c, e).limit.value == Max)
  {
  }

  // ── the debounce ─────────────────────────────────────────────────────────

  /** From event `j` on the cgroup was in the background whenever looked at, and no
      cycle dropped below High. */
  ghost predicate BackgroundSince(es: seq<Event>, j: int)
  {
    && 0 <= j < |es| && es[j].Updates()
    && forall i :: j <= i < |es| ==>
         !es[i].Restores() && (es[i].Updates() ==> es[i].g.Some? && es[i].g.value.prio >= 60 && !es[i].foreground)
  }

  lemma BackgroundExtends(es: seq<Event>, j: int)
    requires |es| > 0 && BackgroundSince(es[..|es| - 1], j)
    requires var e := es[|es| - 1]; !e.Restores() && (e.Updates() ==> e.g.Some? && !Spared(e.g.value, e.foreground))
    ensures BackgroundSince(es, j)
  {
    assert forall i :: 0 <= i < |es| - 1 ==> es[..|es| - 1][i] == es[i];
  }

  lemma {:induction false} SinceMeansBackground(c: Cg, es: seq<Event>) returns (j: int)
    requires c.since.None? && RunOf(c, es).since.Some?
    ensures BackgroundSince(es, j) && es[j].now == RunOf(c, es).since.value
  {
    var n := |es| - 1;
    var before := RunOf(c, es[..n]);
    if before.since.Some? {
      j := SinceMeansBackground(c, es[..n]);
      BackgroundExtends(es, j);
    } else {
      j := n;
    }
  }

  /** A cap is new only ten seconds after the cgroup went to the background, and it
      leaves 512 MB above what the cgroup used. */
  lemma CapTakesTenSeconds(c: Cg, es: seq<Event>) returns (j: int)
    requires c.since.None? && |es| > 0
    requires RunOf(c, es[..|es| - 1]).cap.None? && RunOf(c, es).cap.Some?
    ensures BackgroundSince(es, j) && es[|es| - 1].now >= es[j].now + 10_000
    ensures var (end, bytes) := (RunOf(c, es), 1024 * (es[|es| - 1].g.value.rss + 512 * 1024));
      && end.limit == Some(Bytes(end.cap.value))
      && (bytes <= U64_MAX ==> end.cap.value == bytes)
  {
    j := SinceMeansBackground(c, es);
  }

  ghost predicate ClockRuns(es: seq<Event>)
  {
    forall i, j :: 0 <= i <= j < |es| && es[i].Cycle? && es[j].Cycle? ==> es[i].now <= es[j].now
  }

  lemma {:induction false} CountedFromTheStart(c: Cg, es: seq<Event>, j: int)
    requires c.since.None? && ClockRuns(es) && BackgroundSince(es, j)
    ensures RunOf(c, es).cap.Some? || (RunOf(c, es).since.Some? && RunOf(c, es).since.value <= es[j].now)
  {
    var n := |es| - 1;
    var before := RunOf(c, es[..n]);
    if j < n {
      CountedFromTheStart(c, es[..n], j);
    } else if before.since.Some? {
      var i := SinceMeansBackground(c, es[..n]);
      assert es[..n][i] == es[i];
    }
  }

  /** And it comes: once the cgroup has been seen in the background for ten seconds, the
      next update that can write it leaves it capped; and a cap once written stands as
      long as it stays there. */
  lemma CapComes(c: Cg, es: seq<Event>, j: int)
    requires c.since.None? && ClockRuns(es) && BackgroundSince(es, j)
    requires var e := es[|es| - 1]; e.Updates() && e.ok && e.now >= es[j].now + 10_000
    requires RunOf(c, es[..|es| - 1]).limit.Some?
    ensures RunOf(c, es).cap.Some?
    ensures RunOf(c, es[..|es| - 1]).cap.Some? ==> RunOf(c, es) == RunOf(c, es[..|es| - 1])
  {
    var n := |es| - 1;
    if j < n {
      assert forall i :: 0 <= i < n ==> es[..n][i] == es[i];
      CountedFromTheStart(c, es[..n], j);
    }
  }
}
