/** The leak guard: process families whose count only ever grows. */
module LeakGuard {
  import opened Types
  import opened Window
  import opened Ranking

  datatype Params = Params(
    windowSec: nat,
    minGroupCount: nat,
    minGroupRss: Kb,
    growthOverWindow: nat,
    minSamples: nat,
    keepNewest: nat,
    cooldownSec: nat,
    excluded: string -> bool)
  {
    function Window(): nat { windowSec * 1000 }
  }

  function GroupKey(pr: Process): string
  {
    if pr.cmdline == "" then "noargs:" + pr.name else pr.cmdline
  }

  /** Families are told apart by command line, and by name when there is none,
      except that a command line may spell the key of a nameless one. */
  lemma SameGroupExactly(a: Process, b: Process)
    ensures GroupKey(a) == GroupKey(b) <==>
      || (a.cmdline != "" && a.cmdline == b.cmdline)
      || (a.cmdline == b.cmdline == "" && a.name == b.name)
      || (a.cmdline == "" && b.cmdline == "noargs:" + a.name)
      || (b.cmdline == "" && a.cmdline == "noargs:" + b.name)
  {
    assert ("noargs:" + a.name)[7..] == a.name;
    assert ("noargs:" + b.name)[7..] == b.name;
  }

  /** Two unlike processes in one family. */
  lemma SpelledKeyCollides(a: Process, b: Process)
    requires a.name == "x" && a.cmdline == "" && b.name == "y" && b.cmdline == "noargs:x"
    ensures GroupKey(a) == GroupKey(b) && a.name != b.name
  {
  }

  /** The processes of one family, in scan order. */
  function Members(procs: seq<Process>, key: string): seq<Process>
  {
    if |procs| == 0 then []
    else Members(procs[..|procs| - 1], key) + if GroupKey(procs[|procs| - 1]) == key then [procs[|procs| - 1]] else []
  }

  lemma {:induction false} MembersAre(procs: seq<Process>, key: string)
    ensures forall pr :: pr in Members(procs, key) <==> pr in procs && GroupKey(pr) == key
    ensures DistinctPids(procs) ==> DistinctPids(Members(procs, key))
  {
    hide GroupKey;
    if |procs| > 0 {
      var n := |procs| - 1;
      MembersAre(procs[..n], key);
      assert procs == procs[..n] + [procs[n]];
      if DistinctPids(procs) {
        LastIsNew(procs);
        DistinctAppend(Members(procs[..n], key), procs[n]);
      }
    }
    hide DistinctPids;
  }

  lemma LastIsNew(procs: seq<Process>)
    requires |procs| > 0 && DistinctPids(procs)
    ensures DistinctPids(procs[..|procs| - 1])
    ensures forall pr :: pr in procs[..|procs| - 1] ==> pr.pid != procs[|procs| - 1].pid
  {
  }

  lemma DistinctAppend(xs: seq<Process>, last: Process)
    requires DistinctPids(xs) && forall pr :: pr in xs ==> pr.pid != last.pid
    ensures DistinctPids(xs + [last])
  {
    assert forall i :: 0 <= i < |xs| ==> xs[i] in xs;
  }

  predicate IsExcluded(representative: Process, p: Params)
  {
    p.excluded(representative.name) || (representative.exe.Some? && p.excluded(representative.exe.value))
  }

  /** The family is looked at in this update. */
  predicate Considered(members: seq<Process>, p: Params)
  {
    |members| > 0 && |members| >= p.minGroupCount && !IsExcluded(members[0], p)
  }

  function RssOf(members: seq<Process>): seq<Kb>
  {
    seq(|members|, i requires 0 <= i < |members| => members[i].rss)
  }

  // ── the verdict ──────────────────────────────────────────────────────────

  ghost predicate Grows(samples: seq<Stamped<nat>>)
  {
    forall i, j :: 0 <= i < j < |samples| ==> samples[i].value <= samples[j].value
  }

  ghost predicate Leaking(samples: seq<Stamped<nat>>, total: Kb, p: Params)
  {
    && |samples| >= p.minSamples && |samples| > 0
    && Grows(samples)
    && samples[|samples| - 1].value - samples[0].value >= p.growthOverWindow
    && total >= p.minGroupRss
  }

  method NeverShrunk(samples: seq<Stamped<nat>>) returns (ok: bool)
    ensures ok <==> Grows(samples)
  {
    ok := true;
    var i := 0;
    while i < |samples|
      invariant 0 <= i <= |samples|
      invariant Grows(samples[..i])
    {
      if i > 0 && samples[i].value < samples[i - 1].value {
        return false;
      }
      assert i > 0 ==> forall k :: 0 <= k < i ==> samples[..i][k].value <= samples[..i][i - 1].value;
      i := i + 1;
    }
    assert samples[..|samples|] == samples;
  }

  method IsLeaking(samples: seq<Stamped<nat>>, total: Kb, p: Params) returns (leaking: bool)
    ensures leaking <==> Leaking(samples, total, p)
  {
    var enoughSamples := |samples| >= p.minSamples;
    var neverShrunk := NeverShrunk(samples);
    var grownEnough := false;
    if |samples| > 0 {
      var (first, last) := (samples[0].value, samples[|samples| - 1].value);
      grownEnough := (if last >= first then last - first else 0) >= p.growthOverWindow;
    }
    leaking := enoughSamples && neverShrunk && grownEnough && total >= p.minGroupRss;
  }

  // ── whom a leaking family loses ──────────────────────────────────────────

  function NewestFirst(): (Process, Process) -> bool { (a: Process, b: Process) => a.pid > b.pid }

  /** All members but the `keepNewest` highest pids, highest first. */
  function Stale(members: seq<Process>, p: Params): seq<Process>
  {
    var ordered := Ranked(members, NewestFirst());
    if p.keepNewest >= |ordered| then [] else ordered[p.keepNewest..]
  }

  function Newer(members: seq<Process>, pid: Pid): set<Pid>
  {
    set m | m in members && m.pid > pid :: m.pid
  }

  /** In rank order, the member at `i` has exactly `i` newer ones. */
  lemma {:induction false} RankCountsNewer(ordered: seq<Process>, i: nat)
    requires DistinctPids(ordered) && InRankOrder(ordered, NewestFirst()) && i < |ordered|
    ensures Newer(ordered, ordered[i].pid) == set k | 0 <= k < i :: ordered[k].pid
    ensures |Newer(ordered, ordered[i].pid)| == i
  {
    assert forall j, k :: 0 <= j < k < |ordered| ==> ordered[j].pid > ordered[k].pid by {
      forall j, k | 0 <= j < k < |ordered| ensures ordered[j].pid > ordered[k].pid {
        assert !NewestFirst()(ordered[k], ordered[j]);
      }
    }
    FirstPids(ordered, i);
  }

  lemma {:induction false} FirstPids(ordered: seq<Process>, i: nat)
    requires DistinctPids(ordered) && i <= |ordered|
    ensures |set k | 0 <= k < i :: ordered[k].pid| == i
  {
    var pids := set k | 0 <= k < i :: ordered[k].pid;
    if i == 0 {
      assert pids == {};
    } else {
      FirstPids(ordered, i - 1);
      var fewer := set k | 0 <= k < i - 1 :: ordered[k].pid;
      assert pids == fewer + {ordered[i - 1].pid};
      assert ordered[i - 1].pid !in fewer;
    }
  }

  lemma DroppedExactly(ordered: seq<Process>, keep: nat, m: Process)
    requires DistinctPids(ordered) && InRankOrder(ordered, NewestFirst()) && m in ordered
    ensures (keep < |ordered| && m in ordered[keep..]) <==> |Newer(ordered, m.pid)| >= keep
  {
    var i :| 0 <= i < |ordered| && ordered[i] == m;
    RankCountsNewer(ordered, i);
    hide NewestFirst, InRankOrder, Newer;
    if i >= keep {
      assert ordered[keep..][i - keep] == m;
    }
  }

  lemma NewerSame(xs: seq<Process>, ys: seq<Process>, pid: Pid)
    requires forall m :: m in xs <==> m in ys
    ensures Newer(xs, pid) == Newer(ys, pid)
  {
  }

  /** A member is terminated exactly when `keepNewest` members or more are newer,
      and no member twice. */
  lemma StaleExactly(members: seq<Process>, p: Params)
    requires DistinctPids(members)
    ensures forall m :: m in Stale(members, p) <==> m in members && |Newer(members, m.pid)| >= p.keepNewest
    ensures DistinctPids(Stale(members, p))
  {
    var ordered := Ranked(members, NewestFirst());
    RankedIsOrderedPermutation(members, NewestFirst());
    RankedKeepsDistinct(members, NewestFirst(), (pr: Process) => pr.pid);
    hide NewestFirst, InRankOrder, Newer;
    forall m ensures m in Stale(members, p) <==> m in members && |Newer(members, m.pid)| >= p.keepNewest {
      NewerSame(members, ordered, m.pid);
      if m in ordered {
        DroppedExactly(ordered, p.keepNewest, m);
      }
    }
  }

  // ── one family, one update ───────────────────────────────────────────────

  datatype Group = Group(samples: seq<Stamped<nat>>, cooldownUntil: Option<Time>)

  const FRESH: Group := Group([], None)

  ghost function Sampled(g: Group, members: seq<Process>, p: Params, now: Time): seq<Stamped<nat>>
  {
    Kept(g.samples + [Stamped(|members|, now)], now, p.Window())
  }

  predicate InCooldown(g: Group, now: Time) { g.cooldownUntil.Some? && now < g.cooldownUntil.value }

  ghost predicate Fires(g: Group, members: seq<Process>, p: Params, now: Time)
  {
    Leaking(Sampled(g, members, p, now), SumKb(RssOf(members)), p) && !InCooldown(g, now)
  }

  ghost function Step(g: Group, members: seq<Process>, p: Params, now: Time): Group
  {
    Group(Sampled(g, members, p, now),
          if Fires(g, members, p, now) then Some(now + p.cooldownSec * 1000) else g.cooldownUntil)
  }

  function Before(groups: map<string, Group>, key: string): Group
  {
    if key in groups then groups[key] else FRESH
  }

  ghost function Retained(groups: map<string, Group>, procs: seq<Process>, p: Params): map<string, Group>
  {
    map key | key in groups && |Members(procs, key)| >= p.minGroupCount :: groups[key]
  }

  ghost function Moved(groups: map<string, Group>, procs: seq<Process>, p: Params, now: Time): map<string, Group>
  {
    map key | key in Keys(procs) && Considered(Members(procs, key), p) :: Step(Before(groups, key), Members(procs, key), p, now)
  }

  ghost function Only<K, V>(m: map<K, V>, keys: set<K>): map<K, V> { map k | k in m && k in keys :: m[k] }

  lemma OnlyOneMore<K, V>(base: map<K, V>, m: map<K, V>, keys: set<K>, k: K)
    requires k !in keys
    ensures base + Only(m, keys + {k}) == if k in m then (base + Only(m, keys))[k := m[k]] else base + Only(m, keys)
    ensures k in base + Only(m, keys) <==> k in base
    ensures k in base ==> (base + Only(m, keys))[k] == base[k]
  {
  }

  /** After the families in `done` have had their turn. */
  ghost function AfterSome(
    groups: map<string, Group>, procs: seq<Process>, p: Params, now: Time, done: set<string>
  ): map<string, Group>
  {
    Retained(groups, procs, p) + Only(Moved(groups, procs, p, now), done)
  }

  /** Every family below the floor is forgotten; every one considered moves on. */
  ghost function After(groups: map<string, Group>, procs: seq<Process>, p: Params, now: Time): map<string, Group>
  {
    AfterSome(groups, procs, p, now, Keys(procs))
  }

  lemma TurnOf(groups: map<string, Group>, procs: seq<Process>, p: Params, now: Time, key: string)
    requires key in Keys(procs)
    ensures key in Moved(groups, procs, p, now) <==> Considered(Members(procs, key), p)
    ensures Considered(Members(procs, key), p) ==>
              && Moved(groups, procs, p, now)[key] == Step(Before(groups, key), Members(procs, key), p, now)
              && Before(Retained(groups, procs, p), key) == Before(groups, key)
  {
    hide Members, Step, IsExcluded, Keys;
  }

  lemma AfterOneMore(
    groups: map<string, Group>, procs: seq<Process>, p: Params, now: Time, done: set<string>, key: string)
    requires key !in done && key in Keys(procs)
    ensures var (before, after) := (AfterSome(groups, procs, p, now, done), AfterSome(groups, procs, p, now, done + {key}));
      if Considered(Members(procs, key), p) then
        Before(before, key) == Before(groups, key) && after == before[key := Step(Before(groups, key), Members(procs, key), p, now)]
      else after == before
  {
    TurnOf(groups, procs, p, now, key);
    OnlyOneMore(Retained(groups, procs, p), Moved(groups, procs, p, now), done, key);
    hide Members, Step, Considered, Retained, Moved, Keys, Only;
  }

  ghost function Keys(procs: seq<Process>): set<string> { set pr | pr in procs :: GroupKey(pr) }

  ghost predicate GroupFires(groups: map<string, Group>, procs: seq<Process>, key: string, p: Params, now: Time)
  {
    && Considered(Members(procs, key), p)
    && Fires(Before(groups, key), Members(procs, key), p, now)
  }

  ghost predicate AllInOrder(groups: map<string, Group>, now: Time)
  {
    forall key :: key in groups ==> InOrder(groups[key].samples) && forall x :: x in groups[key].samples ==> x.at <= now
  }

  lemma StepInOrder(g: Group, members: seq<Process>, p: Params, now: Time)
    requires InOrder(g.samples) && forall x :: x in g.samples ==> x.at <= now
    ensures InOrder(g.samples + [Stamped(|members|, now)])
    ensures InOrder(Sampled(g, members, p, now)) && forall x :: x in Sampled(g, members, p, now) ==> x.at <= now
  {
    var all: seq<Stamped<nat>> := g.samples + [Stamped(|members|, now)];
    forall i | 0 <= i < |g.samples| ensures g.samples[i].at <= now {
      assert g.samples[i] in g.samples;
    }
    KeptInOrder(all, now, p.Window());
    forall x | x in Kept(all, now, p.Window()) ensures x.at <= now {
      KeptMember(all, now, p.Window(), x);
    }
  }

  lemma AfterInOrder(groups: map<string, Group>, procs: seq<Process>, p: Params, now: Time)
    requires AllInOrder(groups, now)
    ensures AllInOrder(After(groups, procs, p, now), now)
  {
    var after := After(groups, procs, p, now);
    forall key | key in after ensures InOrder(after[key].samples) && forall x :: x in after[key].samples ==> x.at <= now {
      StepInOrder(Before(groups, key), Members(procs, key), p, now);
    }
  }

  ghost predicate Terminated(
    groups: map<string, Group>, procs: seq<Process>, p: Params, now: Time, done: set<string>, pr: Process)
  {
    && pr in procs && GroupKey(pr) in done
    && GroupFires(groups, procs, GroupKey(pr), p, now)
    && pr in Stale(Members(procs, GroupKey(pr)), p)
  }

  /** The decisions made once the families in `done` have had their turn. */
  ghost predicate Decided(
    groups: map<string, Group>, procs: seq<Process>, p: Params, now: Time, done: set<string>,
    decisions: seq<Process>)
  {
    && DistinctPids(decisions)
    && forall pr :: pr in decisions <==> Terminated(groups, procs, p, now, done, pr)
  }

  lemma DecidedOneMore(
    groups: map<string, Group>, procs: seq<Process>, p: Params, now: Time, done: set<string>, decisions: seq<Process>,
    key: string, stale: seq<Process>)
    requires Decided(groups, procs, p, now, done, decisions) && key !in done && DistinctPids(procs)
    requires stale == if GroupFires(groups, procs, key, p, now) then Stale(Members(procs, key), p) else []
    ensures Decided(groups, procs, p, now, done + {key}, decisions + stale)
  {
    hide *;
    StaleAre(groups, procs, p, now, key, stale);
    DecidedMeans(groups, procs, p, now, done, decisions);
    forall a, b | a in decisions && b in stale ensures a.pid != b.pid {
      DifferentFamilies(groups, procs, p, now, done, key, a, b);
    }
    AppendDistinct(decisions, stale);
    forall pr ensures pr in decisions + stale <==> Terminated(groups, procs, p, now, done + {key}, pr) {
      TerminatedOneMore(groups, procs, p, now, done, key, pr);
    }
    AllDecided(groups, procs, p, now, done + {key}, decisions + stale);
  }

  lemma DecidedMeans(
    groups: map<string, Group>, procs: seq<Process>, p: Params, now: Time, done: set<string>,
    decisions: seq<Process>)
    ensures Decided(groups, procs, p, now, done, decisions) <==>
      DistinctPids(decisions) && forall pr :: pr in decisions <==> Terminated(groups, procs, p, now, done, pr)
  {
  }

  lemma AllDecided(
    groups: map<string, Group>, procs: seq<Process>, p: Params, now: Time, done: set<string>,
    decisions: seq<Process>)
    requires DistinctPids(decisions) && forall pr :: pr in decisions <==> Terminated(groups, procs, p, now, done, pr)
    ensures Decided(groups, procs, p, now, done, decisions)
  {
    hide Terminated, DistinctPids;
  }

  lemma TerminatedOneMore(
    groups: map<string, Group>, procs: seq<Process>, p: Params, now: Time, done: set<string>, key: string,
    pr: Process)
    ensures Terminated(groups, procs, p, now, done + {key}, pr) <==>
      Terminated(groups, procs, p, now, done, pr) || Terminated(groups, procs, p, now, {key}, pr)
  {
    hide GroupKey, GroupFires, Stale, Members;
  }

  lemma DifferentFamilies(
    groups: map<string, Group>, procs: seq<Process>, p: Params, now: Time, done: set<string>, key: string, a: Process,
    b: Process)
    requires DistinctPids(procs) && key !in done
    requires Terminated(groups, procs, p, now, done, a) && Terminated(groups, procs, p, now, {key}, b)
    ensures a.pid != b.pid
  {
    hide GroupKey, GroupFires, Stale, Members, DistinctPids;
    OtherFamily(procs, a, b);
  }

  lemma StaleAre(
    groups: map<string, Group>, procs: seq<Process>, p: Params, now: Time, key: string, stale: seq<Process>)
    requires DistinctPids(procs)
    requires stale == if GroupFires(groups, procs, key, p, now) then Stale(Members(procs, key), p) else []
    ensures DistinctPids(stale)
    ensures forall pr :: pr in stale <==> Terminated(groups, procs, p, now, {key}, pr)
  {
    MembersAre(procs, key);
    StaleExactly(Members(procs, key), p);
    hide Members, Stale, GroupFires, DistinctPids;
  }

  /** A process is terminated exactly when its family fires and `keepNewest` or more
      of the family have higher pids. */
  lemma TerminatedExactly(
    groups: map<string, Group>, procs: seq<Process>, p: Params, now: Time, decisions: seq<Process>, pr: Process)
    requires DistinctPids(procs) && Decided(groups, procs, p, now, Keys(procs), decisions)
    ensures pr in decisions <==>
      && pr in procs
      && GroupFires(groups, procs, GroupKey(pr), p, now)
      && |Newer(Members(procs, GroupKey(pr)), pr.pid)| >= p.keepNewest
  {
    MembersAre(procs, GroupKey(pr));
    StaleExactly(Members(procs, GroupKey(pr)), p);
    hide Members, Stale, GroupFires, DistinctPids, Newer, GroupKey;
  }

  lemma OtherFamily(procs: seq<Process>, a: Process, b: Process)
    requires DistinctPids(procs) && a in procs && b in procs && GroupKey(a) != GroupKey(b)
    ensures a.pid != b.pid
  {
  }

  lemma AppendDistinct(xs: seq<Process>, ys: seq<Process>)
    requires DistinctPids(xs) && DistinctPids(ys)
    requires forall a, b :: a in xs && b in ys ==> a.pid != b.pid
    ensures DistinctPids(xs + ys)
  {
    forall i, j | 0 <= i < j < |xs + ys| ensures (xs + ys)[i].pid != (xs + ys)[j].pid {
      if i < |xs| <= j {
        assert xs[i] in xs && ys[j - |xs|] in ys;
      }
    }
  }

  /** Sample, judge, and fire unless cooling down. */
  method Judge(g: Group, members: seq<Process>, p: Params, now: Time) returns (g': Group, stale: seq<Process>)
    requires InOrder(g.samples + [Stamped(|members|, now)])
    ensures g' == Step(g, members, p, now)
    ensures stale == if Fires(g, members, p, now) then Stale(members, p) else []
  {
    var total := SumKb(RssOf(members));
    hide Leaking, Kept, Stale, RssOf, SumKb, InOrder;
    var samples := Trim(g.samples + [Stamped(|members|, now)], now, p.Window());
    var leaking := IsLeaking(samples, total, p);
    g', stale := g.(samples := samples), [];
    if leaking && !InCooldown(g', now) {
      stale := Stale(members, p);
      g' := g'.(cooldownUntil := Some(now + p.cooldownSec * 1000));
    }
  }

  class LeakTracker {
    var groups: map<string, Group>
    ghost var clock: Time

    ghost predicate Valid()
      reads this
    {
      AllInOrder(groups, clock)
    }

    constructor (now: Time)
      ensures Valid() && groups == map[] && clock == now
    {
      groups, clock := map[], now;
    }

    /** One family's turn: sample, judge, and fire unless cooling down. */
    method Consider(key: string, members: seq<Process>, p: Params, now: Time) returns (stale: seq<Process>)
      requires |members| > 0 && |members| >= p.minGroupCount
      requires Considered(members, p) ==> InOrder(Before(groups, key).samples + [Stamped(|members|, now)])
      modifies this`groups
      ensures groups == if Considered(members, p) then old(groups)[key := Step(Before(old(groups), key), members, p, now)] else old(groups)
      ensures stale == if Considered(members, p) && Fires(Before(old(groups), key), members, p, now) then Stale(members, p) else []
    {
      stale := [];
      if IsExcluded(members[0], p) { return; }
      var g;
      hide Before, InOrder, Step, Fires;
      g, stale := Judge(Before(groups, key), members, p, now);
      groups := groups[key := g];
    }

    /** The same, as one step of an update. */
    method TakeTurn(key: string, members: seq<Process>, p: Params, now: Time, decisions: seq<Process>,
                    ghost before: map<string, Group>, ghost procs: seq<Process>, ghost done: set<string>)
      returns (decisions': seq<Process>)
      requires key in Keys(procs) && key !in done && members == Members(procs, key) && |members| > 0
      requires AllInOrder(before, now) && DistinctPids(procs)
      requires groups == AfterSome(before, procs, p, now, done)
      requires Decided(before, procs, p, now, done, decisions)
      modifies this`groups
      ensures groups == AfterSome(before, procs, p, now, done + {key})
      ensures Decided(before, procs, p, now, done + {key}, decisions')
    {
      hide *;
      TurnMeans(before, procs, key, p, now);
      AfterOneMore(before, procs, p, now, done, key);
      var stale: seq<Process> := [];
      if |members| >= p.minGroupCount {
        stale := Consider(key, members, p, now);
      }
      DecidedOneMore(before, procs, p, now, done, decisions, key, stale);
      decisions' := decisions + stale;
    }

    lemma TurnMeans(before: map<string, Group>, procs: seq<Process>, key: string, p: Params, now: Time)
      requires AllInOrder(before, now)
      ensures InOrder(Before(before, key).samples + [Stamped(|Members(procs, key)|, now)])
      ensures GroupFires(before, procs, key, p, now) <==>
        Considered(Members(procs, key), p) && Fires(Before(before, key), Members(procs, key), p, now)
      ensures Considered(Members(procs, key), p) ==> |Members(procs, key)| >= p.minGroupCount
    {
      StepInOrder(Before(before, key), Members(procs, key), p, now);
      hide Fires, Members, IsExcluded;
    }

    method Update(procs: seq<Process>, p: Params, now: Time) returns (decisions: seq<Process>)
      requires Valid() && clock <= now && DistinctPids(procs)
      modifies this
      ensures Valid() && clock == now
      ensures groups == After(old(groups), procs, p, now)
      ensures Decided(old(groups), procs, p, now, Keys(procs), decisions)
    {
      ghost var before := groups;
      var current := Collect(procs);
      groups := map key | key in groups && (if key in current then |current[key]| else 0) >= p.minGroupCount :: groups[key];
      decisions := [];
      Started(before, procs, p, now, current);
      assert AllInOrder(before, now);
      AfterInOrder(before, procs, p, now);
      hide *;
      var left := current.Keys;
      ghost var done: set<string> := {};
      while left != {}
        invariant left !! done && left + done == current.Keys
        invariant groups == AfterSome(before, procs, p, now, done)
        invariant Decided(before, procs, p, now, done, decisions)
        decreases left
      {
        var key :| key in left;
        CollectedAt(current, procs, key);
        decisions := TakeTurn(key, current[key], p, now, decisions, before, procs, done);
        left := left - {key};
        done := done + {key};
      }
      assert done == Keys(procs);
      AllDone(before, procs, p, now);
      clock := now;
    }

    /** The families of the scan. */
    method Collect(procs: seq<Process>) returns (current: map<string, seq<Process>>)
      ensures current.Keys == Keys(procs) && Collected(current, procs)
    {
      current := map[];
      var i := 0;
      assert Collected(current, procs[..0]);
      hide Collected;
      while i < |procs|
        invariant 0 <= i <= |procs|
        invariant Collected(current, procs[..i])
      {
        var key := GroupKey(procs[i]);
        CollectedOneMore(current, procs, i);
        current := current[key := (if key in current then current[key] else []) + [procs[i]]];
        i := i + 1;
      }
      assert procs[..|procs|] == procs;
      CollectedKeys(current, procs);
    }
  }

  lemma AllDone(groups: map<string, Group>, procs: seq<Process>, p: Params, now: Time)
    ensures After(groups, procs, p, now) == AfterSome(groups, procs, p, now, Keys(procs))
  {
  }

  ghost predicate Collected(current: map<string, seq<Process>>, procs: seq<Process>)
  {
    && (forall key :: key in current ==> current[key] == Members(procs, key) && |current[key]| > 0)
    && (forall key :: key !in current ==> Members(procs, key) == [])
  }

  lemma CollectedOneMore(current: map<string, seq<Process>>, procs: seq<Process>, i: nat)
    requires i < |procs| && Collected(current, procs[..i])
    ensures var key := GroupKey(procs[i]);
      Collected(current[key := (if key in current then current[key] else []) + [procs[i]]], procs[..i + 1])
  {
    var key := GroupKey(procs[i]);
    forall other ensures Members(procs[..i + 1], other) == Members(procs[..i], other) + if other == key then [procs[i]] else [] {
      MembersStep(procs, i, other);
    }
    hide GroupKey, Members;
  }

  lemma MembersStep(procs: seq<Process>, i: nat, key: string)
    requires i < |procs|
    ensures Members(procs[..i + 1], key) == Members(procs[..i], key) + if key == GroupKey(procs[i]) then [procs[i]] else []
  {
    assert procs[..i + 1][..i] == procs[..i];
    hide GroupKey;
  }

  lemma CollectedAt(current: map<string, seq<Process>>, procs: seq<Process>, key: string)
    requires Collected(current, procs) && key in current
    ensures current[key] == Members(procs, key) && |current[key]| > 0
  {
  }

  lemma CollectedKeys(current: map<string, seq<Process>>, procs: seq<Process>)
    requires Collected(current, procs)
    ensures current.Keys == Keys(procs)
  {
    forall key | key in current ensures key in Keys(procs) {
      MembersAre(procs, key);
      assert current[key][0] in procs;
    }
    forall key | key in Keys(procs) ensures key in current {
      MembersAre(procs, key);
      var pr :| pr in procs && GroupKey(pr) == key;
      assert pr in Members(procs, key);
    }
  }

  lemma Started(
    groups: map<string, Group>, procs: seq<Process>, p: Params, now: Time, current: map<string, seq<Process>>)
    requires Collected(current, procs)
    ensures (map key | key in groups && (if key in current then |current[key]| else 0) >= p.minGroupCount :: groups[key])
         == AfterSome(groups, procs, p, now, {})
    ensures Decided(groups, procs, p, now, {}, [])
  {
    hide Members;
  }

  // ── whole runs under fixed parameters ────────────────────────────────────

  datatype Scan = Scan(procs: seq<Process>, now: Time)

  ghost function RunOf(scans: seq<Scan>, p: Params): map<string, Group>
  {
    if |scans| == 0 then map[]
    else After(RunOf(scans[..|scans| - 1], p), scans[|scans| - 1].procs, p, scans[|scans| - 1].now)
  }

  ghost predicate ClockRuns(scans: seq<Scan>)
  {
    forall i, j :: 0 <= i <= j < |scans| ==> scans[i].now <= scans[j].now
  }

  /** The counts seen since the family last fell below the floor. */
  ghost function History(scans: seq<Scan>, p: Params, key: string): seq<Stamped<nat>>
  {
    if |scans| == 0 then []
    else
      var (earlier, scan) := (scans[..|scans| - 1], scans[|scans| - 1]);
      var members := Members(scan.procs, key);
      (if |members| >= p.minGroupCount then History(earlier, p, key) else [])
      + if Considered(members, p) then [Stamped(|members|, scan.now)] else []
  }

  function Family(groups: map<string, Group>, key: string): Option<Group>
  {
    if key in groups then Some(groups[key]) else None
  }

  /** What an update does to one family. */
  ghost function Turn(g: Option<Group>, members: seq<Process>, p: Params, now: Time): Option<Group>
  {
    if Considered(members, p) then Some(Step(if g.Some? then g.value else FRESH, members, p, now))
    else if |members| >= p.minGroupCount then g
    else None
  }

  lemma AfterAt(groups: map<string, Group>, procs: seq<Process>, p: Params, now: Time, key: string)
    ensures Family(After(groups, procs, p, now), key) == Turn(Family(groups, key), Members(procs, key), p, now)
  {
    KeysAt(procs, key);
    RetainedAt(groups, procs, p, key);
    MovedAt(groups, procs, p, now, key);
    OnlyKeys(Retained(groups, procs, p), Moved(groups, procs, p, now), Keys(procs), key);
    hide Members, Step, Considered, Retained, Moved, Keys, Only;
  }

  lemma KeysAt(procs: seq<Process>, key: string)
    ensures key in Keys(procs) <==> |Members(procs, key)| > 0
  {
    MembersAre(procs, key);
    hide GroupKey;
    if |Members(procs, key)| > 0 {
      assert Members(procs, key)[0] in procs;
    }
  }

  lemma RetainedAt(groups: map<string, Group>, procs: seq<Process>, p: Params, key: string)
    ensures Family(Retained(groups, procs, p), key) == if |Members(procs, key)| >= p.minGroupCount then Family(groups, key) else None
  {
    hide Members;
  }

  lemma MovedAt(groups: map<string, Group>, procs: seq<Process>, p: Params, now: Time, key: string)
    ensures Family(Moved(groups, procs, p, now), key) ==
      if Considered(Members(procs, key), p) then Some(Step(Before(groups, key), Members(procs, key), p, now)) else None
    ensures Considered(Members(procs, key), p) ==> key in Keys(procs)
  {
    KeysAt(procs, key);
    hide Members, Step, IsExcluded, Keys;
  }

  lemma OnlyKeys<K, V>(base: map<K, V>, m: map<K, V>, keys: set<K>, k: K)
    requires k in m ==> k in keys
    ensures var sum := base + Only(m, keys);
      && (k in sum <==> k in base || k in m)
      && (k in m ==> sum[k] == m[k])
      && (k in base && k !in m ==> sum[k] == base[k])
  {
  }

  ghost predicate Windowed(g: Option<Group>, history: seq<Stamped<nat>>, p: Params)
  {
    && (g.Some? <==> history != [])
    && (history != [] ==> g.value.samples == Kept(history, history[|history| - 1].at, p.Window()))
  }

  lemma TurnKeepsWindow(g: Option<Group>, history: seq<Stamped<nat>>, members: seq<Process>, p: Params, now: Time)
    requires Windowed(g, history, p) && (history != [] ==> history[|history| - 1].at <= now)
    ensures Windowed(Turn(g, members, p, now),
                     (if |members| >= p.minGroupCount then history else []) + if Considered(members, p) then [Stamped(|members|, now)] else [], p)
  {
    var x := Stamped(|members|, now);
    if history != [] {
      KeptStep(history, x, history[|history| - 1].at, p.Window());
    }
    assert [] + [x] == [x] && history + [] == history;
    hide Kept, IsExcluded, Fires;
  }

  lemma RunOfStep(scans: seq<Scan>, p: Params, key: string)
    requires |scans| > 0
    ensures Family(RunOf(scans, p), key)
         == Turn(Family(RunOf(scans[..|scans| - 1], p), key), Members(scans[|scans| - 1].procs, key), p, scans[|scans| - 1].now)
  {
    AfterAt(RunOf(scans[..|scans| - 1], p), scans[|scans| - 1].procs, p, scans[|scans| - 1].now, key);
    hide Members, After, Family, Turn;
  }

  lemma ClockPrefix(scans: seq<Scan>, i: int)
    requires ClockRuns(scans) && 0 < i <= |scans|
    ensures ClockRuns(scans[..|scans| - 1]) && scans[i - 1].now <= scans[|scans| - 1].now
  {
  }

  /** The incrementally trimmed window holds exactly the history's recent counts. */
  lemma {:induction false} WindowIsExact(scans: seq<Scan>, p: Params, key: string)
    requires ClockRuns(scans)
    ensures Windowed(Family(RunOf(scans, p), key), History(scans, p, key), p)
    ensures SeenUntil(History(scans, p, key), scans)
  {
    hide *;
    if |scans| == 0 {
      NothingWindowed(scans, p, key);
    } else {
      var n := |scans| - 1;
      ClockPrefix(scans, |scans|);
      WindowIsExact(scans[..n], p, key);
      RunOfStep(scans, p, key);
      HistoryStep(scans, p, key);
      TurnKeepsWindow(Family(RunOf(scans[..n], p), key), History(scans[..n], p, key), Members(scans[n].procs, key), p, scans[n].now);
    }
  }

  ghost predicate SeenUntil(history: seq<Stamped<nat>>, scans: seq<Scan>)
  {
    |history| > 0 ==> |scans| > 0 && history[|history| - 1].at <= scans[|scans| - 1].now
  }

  lemma NothingWindowed(scans: seq<Scan>, p: Params, key: string)
    requires |scans| == 0
    ensures Windowed(Family(RunOf(scans, p), key), History(scans, p, key), p) && SeenUntil(History(scans, p, key), scans)
  {
  }

  lemma HistoryStep(scans: seq<Scan>, p: Params, key: string)
    requires |scans| > 0 && ClockRuns(scans) && SeenUntil(History(scans[..|scans| - 1], p, key), scans[..|scans| - 1])
    ensures var (earlier, members, now) :=
        (History(scans[..|scans| - 1], p, key), Members(scans[|scans| - 1].procs, key), scans[|scans| - 1].now);
      && History(scans, p, key)
         == (if |members| >= p.minGroupCount then earlier else []) + (if Considered(members, p) then [Stamped(|members|, now)] else [])
      && (earlier != [] ==> earlier[|earlier| - 1].at <= now)
    ensures SeenUntil(History(scans, p, key), scans)
  {
    hide Members, Considered;
    assert |scans| > 1 ==> scans[|scans| - 2].now <= scans[|scans| - 1].now;
  }

  // ── firing, in terms of history ──────────────────────────────────────────

  /** The family fires at the last scan. */
  ghost predicate FiresLast(scans: seq<Scan>, p: Params, key: string)
    requires |scans| > 0
  {
    GroupFires(RunOf(scans[..|scans| - 1], p), scans[|scans| - 1].procs, key, p, scans[|scans| - 1].now)
  }

  /** The family fired at scan `i - 1` and has not fallen below the floor since. */
  ghost predicate FiredSince(scans: seq<Scan>, p: Params, key: string, i: int)
  {
    && 0 < i <= |scans|
    && FiresLast(scans[..i], p, key)
    && forall k :: i <= k < |scans| ==> |Members(scans[k].procs, key)| >= p.minGroupCount
  }

  lemma FiredSinceExtends(scans: seq<Scan>, p: Params, key: string, i: int)
    requires |scans| > 0 && i < |scans|
    ensures FiredSince(scans, p, key, i) <==>
      FiredSince(scans[..|scans| - 1], p, key, i) && |Members(scans[|scans| - 1].procs, key)| >= p.minGroupCount
  {
    hide FiresLast, Members;
    var n := |scans| - 1;
    if 0 < i {
      assert scans[..n][..i] == scans[..i];
      assert forall k :: i <= k < n ==> scans[..n][k] == scans[k];
    }
  }

  /** The end of the cooldown of the latest firing since the floor was crossed. */
  ghost function Until(scans: seq<Scan>, p: Params, key: string): Option<Time>
  {
    if |scans| == 0 || |Members(scans[|scans| - 1].procs, key)| < p.minGroupCount then None
    else if FiresLast(scans, p, key) then Some(scans[|scans| - 1].now + p.cooldownSec * 1000)
    else Until(scans[..|scans| - 1], p, key)
  }

  ghost function CooldownOf(g: Option<Group>): Option<Time> { if g.Some? then g.value.cooldownUntil else None }

  lemma TurnCooldown(g: Option<Group>, members: seq<Process>, p: Params, now: Time)
    ensures CooldownOf(Turn(g, members, p, now)) ==
      if |members| < p.minGroupCount then None
      else if Considered(members, p) && Fires(if g.Some? then g.value else FRESH, members, p, now) then Some(now + p.cooldownSec * 1000)
      else CooldownOf(g)
  {
    hide Fires, IsExcluded;
  }

  lemma FiresLastMeans(scans: seq<Scan>, p: Params, key: string)
    requires |scans| > 0
    ensures var (g, members, now) := (Family(RunOf(scans[..|scans| - 1], p), key), Members(scans[|scans| - 1].procs, key), scans[|scans| - 1].now);
      FiresLast(scans, p, key) <==> Considered(members, p) && Fires(if g.Some? then g.value else FRESH, members, p, now)
    ensures FiresLast(scans, p, key) ==> |Members(scans[|scans| - 1].procs, key)| >= p.minGroupCount
  {
    hide Fires, IsExcluded;
  }

  lemma UntilStep(scans: seq<Scan>, p: Params, key: string)
    requires |scans| > 0
    ensures Until(scans, p, key) ==
      if |Members(scans[|scans| - 1].procs, key)| < p.minGroupCount then None
      else if FiresLast(scans, p, key) then Some(scans[|scans| - 1].now + p.cooldownSec * 1000)
      else Until(scans[..|scans| - 1], p, key)
  {
    hide Members, FiresLast;
  }

  lemma NothingCools(scans: seq<Scan>, p: Params, key: string)
    requires |scans| == 0
    ensures Until(scans, p, key) == None && CooldownOf(Family(RunOf(scans, p), key)) == None
  {
  }

  lemma {:induction false} UntilIsTheCooldown(scans: seq<Scan>, p: Params, key: string)
    ensures Until(scans, p, key) == CooldownOf(Family(RunOf(scans, p), key))
  {
    hide *;
    if |scans| == 0 {
      NothingCools(scans, p, key);
    } else {
      var n := |scans| - 1;
      RunOfStep(scans, p, key);
      UntilStep(scans, p, key);
      UntilIsTheCooldown(scans[..n], p, key);
      TurnCooldown(Family(RunOf(scans[..n], p), key), Members(scans[n].procs, key), p, scans[n].now);
      FiresLastMeans(scans, p, key);
    }
  }

  lemma {:induction false} NoFiringOutlastsUntil(scans: seq<Scan>, p: Params, key: string, i: int)
    requires ClockRuns(scans) && 0 < i <= |scans| && FiredSince(scans, p, key, i)
    ensures Until(scans, p, key).Some? && scans[i - 1].now + p.cooldownSec * 1000 <= Until(scans, p, key).value
  {
    hide *;
    var n := |scans| - 1;
    ClockPrefix(scans, i);
    LatestFloor(scans, p, key, i);
    UntilStep(scans, p, key);
    if i <= n {
      FiredSinceExtends(scans, p, key, i);
      NoFiringOutlastsUntil(scans[..n], p, key, i);
    }
  }

  lemma LatestFloor(scans: seq<Scan>, p: Params, key: string, i: int)
    requires 0 < i <= |scans| && FiredSince(scans, p, key, i)
    ensures |Members(scans[|scans| - 1].procs, key)| >= p.minGroupCount
    ensures i == |scans| ==> FiresLast(scans, p, key)
  {
    assert scans[..|scans|] == scans;
    FiresLastMeans(scans, p, key);
    hide FiresLast, Members;
  }

  lemma {:induction false} UntilHasAFiring(scans: seq<Scan>, p: Params, key: string) returns (i: int)
    requires Until(scans, p, key).Some?
    ensures FiredSince(scans, p, key, i) && scans[i - 1].now + p.cooldownSec * 1000 == Until(scans, p, key).value
  {
    var n := |scans| - 1;
    assert scans[..n + 1] == scans;
    if FiresLast(scans, p, key) {
      i := n + 1;
    } else {
      i := UntilHasAFiring(scans[..n], p, key);
      FiredSinceExtends(scans, p, key, i);
    }
  }

  /** No firing of the family since it last crossed the floor is still cooling. */
  ghost predicate Rested(scans: seq<Scan>, p: Params, key: string, now: Time)
  {
    forall i :: FiredSince(scans, p, key, i) ==> now >= scans[i - 1].now + p.cooldownSec * 1000
  }

  /** The verdict, from the history alone: the family is there, above the floor and not
      excluded by its first member's name or executable; its counts within the window
      are enough, never fall, and grow enough from the first to the last; together the
      members are large enough; and no earlier firing is still cooling. */
  ghost predicate LeakedBy(scans: seq<Scan>, p: Params, key: string)
    requires |scans| > 0
  {
    var (members, now) := (Members(scans[|scans| - 1].procs, key), scans[|scans| - 1].now);
    var counts := Kept(History(scans, p, key), now, p.windowSec * 1000);
    && |members| > 0 && |members| >= p.minGroupCount
    && !p.excluded(members[0].name) && (members[0].exe.Some? ==> !p.excluded(members[0].exe.value))
    && |counts| > 0 && |counts| >= p.minSamples
    && (forall i, j :: 0 <= i < j < |counts| ==> counts[i].value <= counts[j].value)
    && counts[|counts| - 1].value >= counts[0].value + p.growthOverWindow
    && Total(RssOf(members)) >= p.minGroupRss
    && Rested(scans[..|scans| - 1], p, key, now)
  }

  lemma LeakedByIsVerdict(scans: seq<Scan>, p: Params, key: string)
    requires |scans| > 0
    ensures var (members, now) := (Members(scans[|scans| - 1].procs, key), scans[|scans| - 1].now);
      LeakedBy(scans, p, key) <==>
        && Considered(members, p)
        && Leaking(Kept(History(scans, p, key), now, p.Window()), SumKb(RssOf(members)), p)
        && Rested(scans[..|scans| - 1], p, key, now)
  {
    SumSaturatesOnce(RssOf(Members(scans[|scans| - 1].procs, key)));
    hide Members, Kept, History, Rested, SumKb, Total, RssOf;
  }

  lemma RestedUnlessCooling(scans: seq<Scan>, p: Params, key: string, now: Time)
    requires ClockRuns(scans)
    ensures Rested(scans, p, key, now) <==> !(Until(scans, p, key).Some? && now < Until(scans, p, key).value)
  {
    assert forall i :: FiredSince(scans, p, key, i) ==> 0 < i <= |scans|;
    hide FiresLast, Members, FiredSince, Until;
    forall i | 0 < i <= |scans| && FiredSince(scans, p, key, i)
      ensures Until(scans, p, key).Some? && scans[i - 1].now + p.cooldownSec * 1000 <= Until(scans, p, key).value
    {
      NoFiringOutlastsUntil(scans, p, key, i);
    }
    if Until(scans, p, key).Some? {
      var i := UntilHasAFiring(scans, p, key);
    }
  }

  /** A family fires exactly when its history since it crossed the floor says so. */
  lemma FiresExactly(scans: seq<Scan>, p: Params, key: string)
    requires |scans| > 0 && ClockRuns(scans)
    ensures FiresLast(scans, p, key) <==> LeakedBy(scans, p, key)
  {
    var n := |scans| - 1;
    var (members, now) := (Members(scans[n].procs, key), scans[n].now);
    LeakedByIsVerdict(scans, p, key);
    FiresLastMeans(scans, p, key);
    UntilIsTheCooldown(scans[..n], p, key);
    RestedUnlessCooling(scans[..n], p, key, now);
    if Considered(members, p) {
      SampledIsHistory(scans, p, key);
    }
    hide FiresLast, Members, Considered, Rested, RunOf, History, Leaking, Kept, LeakedBy, SumKb;
  }

  lemma SampledIsHistory(scans: seq<Scan>, p: Params, key: string)
    requires |scans| > 0 && ClockRuns(scans) && Considered(Members(scans[|scans| - 1].procs, key), p)
    ensures var (g, members, now) := (Family(RunOf(scans[..|scans| - 1], p), key), Members(scans[|scans| - 1].procs, key), scans[|scans| - 1].now);
      Sampled(if g.Some? then g.value else FRESH, members, p, now) == Kept(History(scans, p, key), now, p.Window())
  {
    WindowIsExact(scans, p, key);
    RunOfStep(scans, p, key);
    hide Members, IsExcluded, After, Kept, Fires, RunOf;
  }

  /** Two firings of a family closer than the cooldown: it fell below the floor in
      between. */
  lemma CloseFiringsCrossTheFloor(scans: seq<Scan>, p: Params, key: string, i: nat, j: nat)
    requires 0 < i < j <= |scans| && ClockRuns(scans[..j])
    requires FiresLast(scans[..i], p, key) && FiresLast(scans[..j], p, key)
    requires scans[j - 1].now < scans[i - 1].now + p.cooldownSec * 1000
    ensures exists k :: i <= k < j - 1 && |Members(scans[k].procs, key)| < p.minGroupCount
  {
    hide *;
    FiresExactly(scans[..j], p, key);
    LeakedByMeans(scans[..j], p, key, i);
    var earlier := scans[..j][..j - 1];
    assert earlier == scans[..j - 1];
    assert scans[..j][j - 1] == scans[j - 1] && earlier[i - 1] == scans[i - 1] && earlier[..i] == scans[..i];
    NotSince(earlier, p, key, i);
    var k :| i <= k < |earlier| && |Members(earlier[k].procs, key)| < p.minGroupCount;
    assert earlier[k] == scans[k];
  }

  lemma LeakedByMeans(scans: seq<Scan>, p: Params, key: string, i: nat)
    requires |scans| > 0 && LeakedBy(scans, p, key) && 0 < i < |scans|
    ensures FiredSince(scans[..|scans| - 1], p, key, i) ==> scans[|scans| - 1].now >= scans[..|scans| - 1][i - 1].now + p.cooldownSec * 1000
  {
    hide Members, FiredSince, Leaking, Considered, Kept, History;
  }

  lemma NotSince(scans: seq<Scan>, p: Params, key: string, i: nat)
    requires 0 < i <= |scans| && FiresLast(scans[..i], p, key) && !FiredSince(scans, p, key, i)
    ensures exists k :: i <= k < |scans| && |Members(scans[k].procs, key)| < p.minGroupCount
  {
    hide FiresLast, Members;
  }
}
