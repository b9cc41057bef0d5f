/** The eviction planner: filter, rank, and a greedy walk that stops as soon as
    the RAM deficit is covered. */
module Decision {
  import opened Types
  import opened Config
  import opened Ranking
  import Psi

  datatype Action = NoAction | Freeze | Checkpoint | Terminate | Kill
  {
    /** The order the planner's actions are documented to have. */
    function Severity(): nat
    {
      match this
      case NoAction => 0
      case Freeze => 1
      case Checkpoint => 2
      case Terminate => 3
      case Kill => 4
    }
  }

  datatype Decision = Decision(pid: Pid, name: string, action: Action, rss: Kb, prio: U8)

  /** A `u64` reinterpreted as `i64`. */
  function AsI64(n: U64): int { if n < 0x8000_0000_0000_0000 then n else n - 0x1_0000_0000_0000_0000 }

  function TruncI64(x: real): int
  {
    var t := if x >= 0.0 then x.Floor else -((-x).Floor);
    if t > 0x7FFF_FFFF_FFFF_FFFF then 0x7FFF_FFFF_FFFF_FFFF
    else if t < -0x8000_0000_0000_0000 then -0x8000_0000_0000_0000
    else t
  }

  function RamDeficitKb(available: Kb, total: Kb, targetAvailablePct: real): int
  {
    TruncI64(Product(total as real, targetAvailablePct / 100.0)) - AsI64(available)
  }

  /** For RAM sizes that fit, there is a deficit exactly when the available RAM is a
      whole KiB or more below the target, and freeing the deficit reaches the target
      to the KiB. */
  lemma DeficitIsTheGap(available: Kb, total: Kb, targetAvailablePct: real)
    requires available < 0x8000_0000_0000_0000 && total < 0x8000_0000_0000_0000 && 0.0 <= targetAvailablePct <= 100.0
    ensures
      var (deficit, target) := (RamDeficitKb(available, total, targetAvailablePct), Product(total as real, targetAvailablePct / 100.0));
      && (deficit > 0 <==> available as real + 1.0 <= target)
      && (available + deficit) as real <= target < (available + deficit) as real + 1.0
  {
    ProductShrinks(total as real, targetAvailablePct / 100.0);
    hide Product;
  }

  function DetermineProcessAction(
    level: Psi.Level, prio: U8, swapRatio: real, checkpointOverride: Option<bool>, swapExhausted: bool,
    cpSupported: bool
  ): Action
  {
    if swapExhausted && prio >= 80 then Kill
    else match level
      case Normal => NoAction
      case Elevated => if prio >= 60 then Freeze else NoAction
      case High => if prio >= 80 then Terminate else if prio >= 60 then Freeze else NoAction
      case Critical =>
        if checkpointOverride.Some? then
          if checkpointOverride.value && cpSupported then Checkpoint
          else if swapRatio > 0.5 then Kill
          else Terminate
        else if swapRatio > 0.5 && prio >= 60 then Kill
        else if prio >= 75 then Terminate
        else if cpSupported then Checkpoint
        else if prio >= 60 then Terminate
        else Kill
      case Emergency => Kill
  }

  /** Raising the level never softens the action, with exactly one exception:
      an expendable process that High terminates is checkpointed at Critical
      when its configuration asks for that and the helper supports it. */
  lemma SeverityGrowsUnlessCheckpointed(
    low: Psi.Level, high: Psi.Level, prio: U8, swapRatio: real, cp: Option<bool>, exhausted: bool, supported: bool)
    requires high.AtLeast(low)
    ensures
      DetermineProcessAction(low, prio, swapRatio, cp, exhausted, supported).Severity()
        <= DetermineProcessAction(high, prio, swapRatio, cp, exhausted, supported).Severity()
      <==> !(low == Psi.High && high == Psi.Critical && prio >= 80 && !exhausted && cp == Some(true) && supported)
  {
  }

  /** One process as the planner weighs it. */
  datatype Case = Case(level: Psi.Level, prio: U8, swapRatio: real, exhausted: bool, supported: bool)
  {
    function Answer(cp: Option<bool>): Action
    {
      DetermineProcessAction(level, prio, swapRatio, cp, exhausted, supported)
    }

    /** At least as much pressure, as expendable, as far swapped out and as little
        alternative to ending the process. */
    predicate WorseThan(other: Case)
    {
      && level.AtLeast(other.level) && prio >= other.prio && swapRatio >= other.swapRatio
      && (other.exhausted ==> exhausted) && (supported ==> other.supported)
    }

    predicate AtCritical() { level == Psi.Critical && !(exhausted && prio >= 80) }
  }

  /** A worse case never gets a milder answer, with exactly two exceptions at
      Critical: a process that High would terminate is checkpointed when configured
      so, and an expendable one is only asked to terminate where, for lack of
      checkpoint support, a less expendable one is killed. */
  lemma WorseIsHarsherExactly(a: Case, b: Case, cp: Option<bool>)
    requires b.WorseThan(a)
    ensures a.Answer(cp).Severity() <= b.Answer(cp).Severity() <==>
      && !(a.level == Psi.High && a.prio >= 80 && b.AtCritical() && b.supported && cp == Some(true))
      && !(a.level == Psi.Critical && a.prio < 60 && !a.supported && cp.None?
           && b.AtCritical() && b.prio >= 60 && b.swapRatio <= 0.5)
  {
  }

  /** One pair of cases for each exception. */
  lemma WorseIsMilder()
    ensures var (a, b) := (Case(Psi.High, 85, 0.0, false, true), Case(Psi.Critical, 85, 0.0, false, true));
      b.WorseThan(a) && a.Answer(Some(true)) == Terminate && b.Answer(Some(true)) == Checkpoint
    ensures var (a, b) := (Case(Psi.Critical, 30, 0.0, false, false), Case(Psi.Critical, 70, 0.0, false, false));
      b.WorseThan(a) && a.Answer(None) == Kill && b.Answer(None) == Terminate
  {
  }

  /** The priority matters at three values only, and there exactly in these cases. */
  lemma PriorityMattersExactly(c: Case, cp: Option<bool>)
    requires c.prio > 0
    ensures var (changes, mostlySwapped) := (c.Answer(cp) != c.(prio := c.prio - 1).Answer(cp), c.swapRatio > 0.5);
      match c.prio
      case 60 =>
        changes <==>
          || c.level in {Psi.Elevated, Psi.High}
          || (c.level == Psi.Critical && cp.None? && (c.supported <==> mostlySwapped))
      case 75 =>
        changes <==> c.level == Psi.Critical && cp.None? && c.supported && !mostlySwapped
      case 80 =>
        changes <==>
          if c.exhausted then
            && c.level != Psi.Emergency
            && (c.level == Psi.Critical && mostlySwapped ==> cp == Some(true) && c.supported)
          else c.level == Psi.High
      case _ => !changes
  {
  }

  /** The least expendable process, and the most expendable one while there is swap. */
  lemma ExtremesGet(c: Case)
    ensures var answer := c.(prio := 0).Answer(None);
      if c.level == Psi.Emergency then answer == Kill
      else if c.level == Psi.Critical then answer == if c.supported then Checkpoint else Kill
      else answer == NoAction
    ensures var answer := c.(prio := 255, exhausted := false).Answer(None);
      match c.level
      case Normal => answer == NoAction
      case Elevated => answer == Freeze
      case High => answer == Terminate
      case Critical => answer == if c.swapRatio > 0.5 then Kill else Terminate
      case Emergency => answer == Kill
  {
  }

  // ── candidates ───────────────────────────────────────────────────────────

  datatype Situation = Situation(
    level: Psi.Level,
    swapExhausted: bool,
    policy: Policy,
    foreground: Option<Pid>,
    gpuKb: Pid -> Kb)
  {
    /** Configured priority, lowered (but not below 20) for the focused process. */
    function EffectivePriority(p: Process): (prio: U8)
      ensures foreground != Some(p.pid) ==> prio == GetPriority(p, policy)
      ensures foreground == Some(p.pid) ==> prio >= 20 && (prio == 20 || prio + 25 == GetPriority(p, policy))
      ensures foreground == Some(p.pid) && prio == 20 ==> GetPriority(p, policy) <= 45
    {
      var prio := GetPriority(p, policy);
      if foreground == Some(p.pid) then
        var lowered := if prio >= 25 then prio - 25 else 0;
        if lowered > 20 then lowered else 20
      else prio
    }

    function Footprint(p: Process): Kb
    {
      SatAdd(p.rss, if level.AtLeast(Psi.High) then gpuKb(p.pid) else 0)
    }

    function SwapRatio(p: Process): real
    {
      var total := SatAdd(p.rss, p.swap);
      if total > 0 then p.swap as real / total as real else 0.0
    }

    function ActionFor(p: Process): Action
    {
      DetermineProcessAction(level, EffectivePriority(p), SwapRatio(p), policy.checkpointOverride(p.name),
                             swapExhausted, policy.checkpointEligible(p.name))
    }

    function ToCandidate(p: Process): Candidate
    {
      Candidate(EffectivePriority(p), Footprint(p), p)
    }

    predicate BigEnough(p: Process) { SatAdd(p.rss, p.swap) > 10 * 1024 }

    /** The planner will act on this process if the deficit lasts until its turn. */
    predicate Actionable(p: Process)
    {
      && BigEnough(p)
      && EffectivePriority(p) > 19
      && !policy.isProtected(p.name)
      && ActionFor(p) != NoAction
    }

    function Decide(p: Process): Decision
    {
      Decision.Decision(p.pid, p.name, ActionFor(p), p.rss, EffectivePriority(p))
    }
  }

  /** A process with the keys it is ranked by, read once. */
  datatype Candidate = Candidate(prio: U8, footprint: Kb, proc: Process)
  {
    /** Strictly more expendable: priority, then footprint, then OOM score. */
    predicate Outranks(other: Candidate)
    {
      || prio > other.prio
      || (prio == other.prio && footprint > other.footprint)
      || (prio == other.prio && footprint == other.footprint && proc.oomScore > other.proc.oomScore)
    }
  }

  /** RAM an action frees at once. A frozen process keeps its pages. */
  function Credit(d: Decision): int
  {
    if d.action == Freeze then 0 else AsI64(d.rss)
  }

  function MoreExpendable(): (Candidate, Candidate) -> bool { (a: Candidate, b: Candidate) => a.Outranks(b) }

  lemma MoreExpendableIsWeakOrder()
    ensures WeakOrder(MoreExpendable())
  {
  }

  // ── the greedy walk ──────────────────────────────────────────────────────

  function Candidates(s: Situation, procs: seq<Process>): seq<Candidate>
  {
    if |procs| == 0 then []
    else (if s.BigEnough(procs[0]) then [s.ToCandidate(procs[0])] else []) + Candidates(s, procs[1..])
  }

  lemma {:induction false} CandidatesAre(s: Situation, procs: seq<Process>)
    ensures forall c :: c in Candidates(s, procs) <==> c.proc in procs && s.BigEnough(c.proc) && c == s.ToCandidate(c.proc)
  {
    if |procs| > 0 {
      CandidatesAre(s, procs[1..]);
    }
  }

  /** The candidates the planner acts on if the deficit lasts until their turn. */
  function ActionableOf(s: Situation, ranked: seq<Candidate>): seq<Candidate>
  {
    if |ranked| == 0 then []
    else
      var last := ranked[|ranked| - 1];
      ActionableOf(s, ranked[..|ranked| - 1]) + if s.Actionable(last.proc) then [last] else []
  }

  ghost function Credits(ds: seq<Decision>): int
  {
    if |ds| == 0 then 0 else Credits(ds[..|ds| - 1]) + Credit(ds[|ds| - 1])
  }

  predicate DecidedAs(s: Situation, d: Decision, c: Candidate) { d == s.Decide(c.proc) }

  /** The decisions are those of the shortest prefix of the agenda that covers
      the deficit, or of all of it when no prefix does. */
  ghost predicate ShortestCover(s: Situation, ds: seq<Decision>, agenda: seq<Candidate>, deficit: int)
  {
    && |ds| <= |agenda|
    && (forall i :: 0 <= i < |ds| ==> DecidedAs(s, ds[i], agenda[i]))
    && (forall j :: 0 <= j < |ds| ==> Credits(ds[..j]) < deficit)
    && (|ds| == |agenda| || Credits(ds) >= deficit)
  }

  /** Everything that would be acted on under an endless deficit, best first. */
  function Agenda(s: Situation, procs: seq<Process>): seq<Candidate>
  {
    ActionableOf(s, Ranked(Candidates(s, procs), MoreExpendable()))
  }

  predicate Keyed(s: Situation, c: Candidate) { c == s.ToCandidate(c.proc) && s.BigEnough(c.proc) }

  method Plan(s: Situation, procs: seq<Process>, available: Kb, total: Kb) returns (decisions: seq<Decision>)
    ensures s.level == Psi.Normal ==> decisions == []
    ensures s.level != Psi.Normal ==>
              ShortestCover(s, decisions, Agenda(s, procs), RamDeficitKb(available, total, s.policy.targetAvailablePct))
  {
    if s.level == Psi.Normal { return []; }
    var deficit := RamDeficitKb(available, total, s.policy.targetAvailablePct);
    RankedKeys(s, procs);
    decisions := Walk(s, Ranked(Candidates(s, procs), MoreExpendable()), deficit);
  }

  /** Takes candidates in order until the deficit is covered. */
  method Walk(s: Situation, ranked: seq<Candidate>, target: int) returns (decisions: seq<Decision>)
    requires forall c :: c in ranked ==> Keyed(s, c)
    ensures ShortestCover(s, decisions, ActionableOf(s, ranked), target)
  {
    hide DetermineProcessAction, AsI64, Credit, DecidedAs;
    decisions := [];
    ghost var chosen: seq<Candidate> := [];
    var deficit := target;
    var i := 0;
    while i < |ranked| && deficit > 0
      invariant 0 <= i <= |ranked|
      invariant chosen == ActionableOf(s, ranked[..i]) && |decisions| == |chosen|
      invariant forall k :: 0 <= k < |chosen| ==> DecidedAs(s, decisions[k], chosen[k])
      invariant deficit == target - Credits(decisions)
      invariant forall j :: 0 <= j < |decisions| ==> Credits(decisions[..j]) < target
    {
      assert ranked[..i + 1][..i] == ranked[..i];
      var d, freed := Consider(s, ranked[i]);
      if d.Some? {
        deficit := deficit - freed;
        CreditsGrow(decisions, d.value, target);
        chosen, decisions := chosen + [ranked[i]], decisions + [d.value];
      }
      i := i + 1;
    }
    ActionablePrefix(s, ranked, i);
    assert ranked[..|ranked|] == ranked;
  }

  /** One candidate on its turn; the deficit plays no part. */
  method Consider(s: Situation, c: Candidate) returns (d: Option<Decision>, freed: int)
    requires Keyed(s, c)
    ensures d.Some? <==> s.Actionable(c.proc)
    ensures d.Some? ==> DecidedAs(s, d.value, c) && freed == Credit(d.value)
  {
    d, freed := None, 0;
    // Never touch the system tier or the protect list.
    if c.prio <= 19 { return; }
    if s.policy.isProtected(c.proc.name) { return; }
    var action := DetermineProcessAction(s.level, c.prio, s.SwapRatio(c.proc),
                                         s.policy.checkpointOverride(c.proc.name), s.swapExhausted,
                                         s.policy.checkpointEligible(c.proc.name));
    if action == NoAction { return; }
    d := Some(Decision(c.proc.pid, c.proc.name, action, c.proc.rss, c.prio));
    freed := if action == Freeze then 0 else AsI64(c.proc.rss);
  }

  lemma CreditsGrow(ds: seq<Decision>, d: Decision, target: int)
    requires Credits(ds) < target
    requires forall j :: 0 <= j < |ds| ==> Credits(ds[..j]) < target
    ensures Credits(ds + [d]) == Credits(ds) + Credit(d)
    ensures forall j :: 0 <= j < |ds + [d]| ==> Credits((ds + [d])[..j]) < target
  {
    assert (ds + [d])[..|ds|] == ds;
    assert forall j :: 0 <= j < |ds| ==> (ds + [d])[..j] == ds[..j];
  }

  lemma RankedKeys(s: Situation, procs: seq<Process>)
    ensures forall c :: c in Ranked(Candidates(s, procs), MoreExpendable()) <==>
                        c.proc in procs && Keyed(s, c)
  {
    CandidatesAre(s, procs);
    MoreExpendableIsWeakOrder();
    RankedHasSameMembers(Candidates(s, procs), MoreExpendable());
  }

  lemma {:induction false} ActionablePrefix(s: Situation, ranked: seq<Candidate>, i: nat)
    requires i <= |ranked|
    ensures ActionableOf(s, ranked[..i]) <= ActionableOf(s, ranked)
  {
    if i < |ranked| {
      ActionablePrefix(s, ranked[..|ranked| - 1], i);
      assert ranked[..|ranked| - 1][..i] == ranked[..i];
    } else {
      assert ranked[..i] == ranked;
    }
  }

  lemma {:induction false} ActionableAre(s: Situation, ranked: seq<Candidate>)
    requires InRankOrder(ranked, MoreExpendable())
    ensures InRankOrder(ActionableOf(s, ranked), MoreExpendable())
    ensures forall c :: c in ActionableOf(s, ranked) <==> c in ranked && s.Actionable(c.proc)
  {
    if |ranked| > 0 {
      var shorter := ranked[..|ranked| - 1];
      ActionableAre(s, shorter);
      assert ranked == shorter + [ranked[|ranked| - 1]];
    }
  }

  /** The agenda holds exactly the actionable processes of the scan, and no
      process left out of a plan outranks one in it. */
  lemma AgendaIsComplete(s: Situation, procs: seq<Process>)
    ensures forall c :: c in Agenda(s, procs) <==> c.proc in procs && s.Actionable(c.proc) && c == s.ToCandidate(c.proc)
    ensures InRankOrder(Agenda(s, procs), MoreExpendable())
  {
    var ranked := Ranked(Candidates(s, procs), MoreExpendable());
    RankedKeys(s, procs);
    MoreExpendableIsWeakOrder();
    RankedIsOrderedPermutation(Candidates(s, procs), MoreExpendable());
    ActionableAre(s, ranked);
  }

  lemma SparedNeverOutranksChosen(
    s: Situation, procs: seq<Process>, ds: seq<Decision>, deficit: int, i: nat, p: Process)
    requires ShortestCover(s, ds, Agenda(s, procs), deficit) && i < |ds|
    requires p in procs && s.Actionable(p) && s.ToCandidate(p) !in Agenda(s, procs)[..|ds|]
    ensures !s.ToCandidate(p).Outranks(Agenda(s, procs)[i])
    ensures Credits(ds) >= deficit
  {
    AgendaIsComplete(s, procs);
    LaterRanksNoHigher(Agenda(s, procs), |ds|, i, s.ToCandidate(p));
  }

  lemma LaterRanksNoHigher(agenda: seq<Candidate>, taken: nat, i: nat, spared: Candidate)
    requires InRankOrder(agenda, MoreExpendable()) && i < taken <= |agenda|
    requires spared in agenda && spared !in agenda[..taken]
    ensures !spared.Outranks(agenda[i])
    ensures taken < |agenda|
  {
    var rest := agenda[taken..];
    assert agenda == agenda[..taken] + rest;
    var j :| 0 <= j < |rest| && rest[j] == spared;
    assert agenda[taken + j] == spared;
  }

  lemma {:induction false} CoversAgree(
    s: Situation, a: seq<Decision>, b: seq<Decision>, agenda: seq<Candidate>, small: int, large: int)
    requires small <= large
    requires ShortestCover(s, a, agenda, small) && ShortestCover(s, b, agenda, large)
    ensures forall k :: 0 <= k <= |a| && k <= |b| ==> a[..k] == b[..k]
  {
    hide DetermineProcessAction;
    assert forall k :: 0 <= k < |a| && k < |b| ==> a[k] == b[k];
  }

  /** The cover is unique, so `Plan` is pinned down by its contract; and a larger
      deficit only extends the plan. */
  lemma LargerDeficitExtends(
    s: Situation, a: seq<Decision>, b: seq<Decision>, agenda: seq<Candidate>, small: int, large: int)
    requires small <= large
    requires ShortestCover(s, a, agenda, small) && ShortestCover(s, b, agenda, large)
    ensures a <= b
    ensures small == large ==> a == b
  {
    hide DetermineProcessAction;
    CoversAgree(s, a, b, agenda, small, large);
    var k := if |a| <= |b| then |a| else |b|;
    assert a[..k] == b[..k];
    assert a[..|a|] == a && b[..|b|] == b;
  }

  // ── the plan in terms of the scan ────────────────────────────────────────

  /** At Critical a process that is not checkpointed is killed rather than terminated
      exactly when more than half of its pages are in swap. */
  lemma KillFollowsSwap(s: Situation, p: Process)
    requires s.level == Psi.Critical && !(s.swapExhausted && s.EffectivePriority(p) >= 80)
    requires match s.policy.checkpointOverride(p.name)
             case Some(wanted) => !(wanted && s.policy.checkpointEligible(p.name))
             case None => s.EffectivePriority(p) >= 60
    ensures p.rss + p.swap <= U64_MAX ==> (s.ActionFor(p) == Kill <==> p.swap > p.rss)
    ensures p.rss + p.swap > U64_MAX ==> (s.ActionFor(p) == Kill <==> 2 * p.swap > U64_MAX)
  {
    if p.rss + p.swap > 0 {
      HalfExactly(p.swap, if p.rss + p.swap > U64_MAX then U64_MAX else p.rss + p.swap);
    }
  }

  /** Exhausted swap kills the most expendable at any level, and changes nothing for
      the others. */
  lemma ExhaustedSwapKills(s: Situation, p: Process)
    requires s.swapExhausted
    ensures s.EffectivePriority(p) >= 80 ==> s.ActionFor(p) == Kill
    ensures s.EffectivePriority(p) < 80 ==> s.ActionFor(p) == s.(swapExhausted := false).ActionFor(p)
  {
  }

  lemma HalfExactly(part: nat, total: nat)
    requires total > 0
    ensures part as real / total as real > 0.5 <==> 2 * part > total
  {
    var (ratio, t) := (part as real / total as real, total as real);
    assert ratio * t == part as real;
    assert (ratio - 0.5) * t == ratio * t - 0.5 * t;
    if ratio > 0.5 {
      Positive(ratio - 0.5, t);
    } else if ratio < 0.5 {
      Positive(0.5 - ratio, t);
      assert (0.5 - ratio) * t == 0.5 * t - ratio * t;
    }
  }

  lemma Positive(x: real, y: real)
    requires x > 0.0 && y > 0.0
    ensures x * y > 0.0
  {
  }

  /** Who is on the agenda, and in what order: priority, then resident memory (from
      High on with the memory held on the GPU), then OOM score. */
  lemma AgendaInFields(s: Situation, procs: seq<Process>)
    ensures var agenda := Agenda(s, procs);
      && (forall p :: p in procs && s.ToCandidate(p) in agenda <==>
            && p in procs && p.rss + p.swap > 10240 && s.EffectivePriority(p) >= 20
            && !s.policy.isProtected(p.name) && s.ActionFor(p) != NoAction)
      && forall i, j :: 0 <= i < j < |agenda| ==> NoLater(s, agenda[i].proc, agenda[j].proc)
  {
    AgendaIsComplete(s, procs);
    var agenda := Agenda(s, procs);
    forall i, j | 0 <= i < j < |agenda| ensures NoLater(s, agenda[i].proc, agenda[j].proc) {
      assert agenda[i] in agenda && agenda[j] in agenda;
      assert !agenda[j].Outranks(agenda[i]);
    }
    hide Agenda;
  }

  predicate NoLater(s: Situation, a: Process, b: Process)
  {
    var (pa, pb) := (s.EffectivePriority(a), s.EffectivePriority(b));
    var gpu := s.level in {Psi.High, Psi.Critical, Psi.Emergency};
    var (ma, mb) := (a.rss + (if gpu then s.gpuKb(a.pid) else 0), b.rss + (if gpu then s.gpuKb(b.pid) else 0));
    || pa > pb
    || (pa == pb && (ma > mb || ma == mb || (ma >= U64_MAX && mb >= U64_MAX))
        && (ma == mb || (ma >= U64_MAX && mb >= U64_MAX) ==> a.oomScore >= b.oomScore))
  }

  function RssOf(agenda: seq<Candidate>): seq<nat>
  {
    seq(|agenda|, i requires 0 <= i < |agenda| => agenda[i].proc.rss)
  }

  lemma {:induction false} CreditsAreRss(s: Situation, ds: seq<Decision>, agenda: seq<Candidate>)
    requires |ds| == |agenda| && forall i :: 0 <= i < |ds| ==> DecidedAs(s, ds[i], agenda[i])
    requires forall c :: c in agenda ==> c.proc.rss < 0x8000_0000_0000_0000 && s.ActionFor(c.proc) != Freeze
    ensures Credits(ds) == Total(RssOf(agenda))
  {
    hide DetermineProcessAction;
    if |ds| > 0 {
      var n := |ds| - 1;
      assert RssOf(agenda)[..n] == RssOf(agenda[..n]);
      CreditsAreRss(s, ds[..n], agenda[..n]);
      assert agenda[n] in agenda;
    }
  }

  /** A plan names its processes as the scan does. */
  lemma PlanNamesProcesses(s: Situation, ds: seq<Decision>, agenda: seq<Candidate>, deficit: int, i: nat)
    requires ShortestCover(s, ds, agenda, deficit) && i < |ds|
    ensures var (d, p) := (ds[i], agenda[i].proc);
      d.pid == p.pid && d.name == p.name && d.rss == p.rss && d.action == s.ActionFor(p) && d.prio == s.EffectivePriority(p)
  {
    hide DetermineProcessAction, Credits;
    assert DecidedAs(s, ds[i], agenda[i]);
  }

  lemma AllFrozenOrNone(s: Situation, procs: seq<Process>, c: Candidate)
    requires c in Agenda(s, procs)
    ensures c.proc in procs
    ensures s.level == Psi.Elevated && !s.swapExhausted ==> s.ActionFor(c.proc) == Freeze
    ensures s.level in {Psi.Critical, Psi.Emergency} ==> s.ActionFor(c.proc) != Freeze
  {
    AgendaIsComplete(s, procs);
  }

  /** Freezing frees nothing, so at Elevated a shortage freezes everything on the
      agenda. */
  lemma ElevatedFreezesAll(s: Situation, ds: seq<Decision>, procs: seq<Process>, deficit: int)
    requires ShortestCover(s, ds, Agenda(s, procs), deficit) && deficit > 0
    requires s.level == Psi.Elevated && !s.swapExhausted
    ensures |ds| == |Agenda(s, procs)| && forall d :: d in ds ==> d.action == Freeze
  {
    var agenda := Agenda(s, procs);
    hide *;
    forall i | 0 <= i < |ds| ensures ds[i].action == Freeze {
      CoverMeans(s, ds, agenda, deficit);
      PlanNamesProcesses(s, ds, agenda, deficit, i);
      AllFrozenOrNone(s, procs, agenda[i]);
    }
    FreezesFreeNothing(ds);
    CoverMeans(s, ds, agenda, deficit);
  }

  lemma CoverMeans(s: Situation, ds: seq<Decision>, agenda: seq<Candidate>, deficit: int)
    requires ShortestCover(s, ds, agenda, deficit)
    ensures |ds| <= |agenda| && (forall i :: 0 <= i < |ds| ==> DecidedAs(s, ds[i], agenda[i]))
    ensures forall j :: 0 <= j < |ds| ==> Credits(ds[..j]) < deficit
    ensures |ds| == |agenda| || Credits(ds) >= deficit
  {
    hide DecidedAs, Credits;
  }

  lemma {:induction false} FreezesFreeNothing(ds: seq<Decision>)
    requires forall i :: 0 <= i < |ds| ==> ds[i].action == Freeze
    ensures Credits(ds) == 0
  {
    if |ds| > 0 {
      FreezesFreeNothing(ds[..|ds| - 1]);
    }
  }

  /** From Critical on every action counts with the resident memory of its process,
      and a plan stops at the first that covers the shortage. */
  lemma CriticalPlansFreeRss(s: Situation, ds: seq<Decision>, procs: seq<Process>, deficit: int)
    requires ShortestCover(s, ds, Agenda(s, procs), deficit) && s.level in {Psi.Critical, Psi.Emergency}
    requires forall p :: p in procs ==> p.rss < 0x8000_0000_0000_0000
    ensures forall j :: 0 <= j < |ds| ==> Total(RssOf(Agenda(s, procs)[..j])) < deficit
    ensures |ds| == |Agenda(s, procs)| || Total(RssOf(Agenda(s, procs)[..|ds|])) >= deficit
  {
    var agenda := Agenda(s, procs);
    hide *;
    CoverMeans(s, ds, agenda, deficit);
    forall c | c in agenda ensures c.proc in procs && s.ActionFor(c.proc) != Freeze {
      AllFrozenOrNone(s, procs, c);
    }
    forall j | 0 <= j <= |ds| ensures Credits(ds[..j]) == Total(RssOf(agenda[..j])) {
      CreditsAreRss(s, ds[..j], agenda[..j]);
    }
    assert ds[..|ds|] == ds;
  }

  /** The one way into the protected tier. A process configured at 19 or below is
      acted on exactly when it has the focus, is big enough, is not on the protect
      list, and the level is Critical or Emergency: the focus floor lifts it to 20. */
  lemma SystemTierTouchedOnlyInFocus(s: Situation, p: Process)
    requires GetPriority(p, s.policy) <= 19
    ensures s.Actionable(p) <==>
      && s.foreground == Some(p.pid)
      && s.BigEnough(p)
      && !s.policy.isProtected(p.name)
      && s.level.AtLeast(Psi.Critical)
  {
  }

  /** A focused process configured at 10 is killed. */
  lemma FocusExposesSystemProcess()
    ensures
      var p := Process(7, "init", None, 20480, 0, 0, None, 0.0, 0, "");
      var policy := Policy((_, _) => 10, _ => false, _ => None, _ => false, 10.0);
      var s := Situation(Psi.Emergency, false, policy, Some(7), _ => 0);
      s.Actionable(p) && s.ActionFor(p) == Kill
  {
  }
}
