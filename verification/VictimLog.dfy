/** The history of spike victims: every freeze recorded, every record given back. */
module VictimLog {
  import opened Types

  datatype Victim = Victim(pid: Pid, name: string, start: nat, initiator: Pid, frozenAt: Time)

  /** `forced`: given back for age or on request, which starts a cooldown. */
  datatype Event =
    | Recorded(v: Victim, at: Time)
    | Returned(v: Victim, at: Time, forced: bool)

  const COOLDOWN_SECS: nat := 60
  const COOLDOWN_KEPT_SECS: nat := 300

  /** The records a history leaves. */
  ghost function Replay(log: seq<Event>): map<Pid, Victim>
  {
    if |log| == 0 then map[]
    else
      var (before, e) := (Replay(log[..|log| - 1]), log[|log| - 1]);
      if e.Recorded? then before[e.v.pid := e.v] else before - {e.v.pid}
  }

  /** Nothing is recorded over a record, and only what is recorded is returned. */
  ghost predicate Consistent(log: seq<Event>)
  {
    |log| == 0 ||
    var (before, e) := (log[..|log| - 1], log[|log| - 1]);
    && Consistent(before)
    && if e.Recorded? then e.v.pid !in Replay(before)
       else e.v.pid in Replay(before) && Replay(before)[e.v.pid] == e.v
  }

  /** A pid given back by force is not frozen for headroom again for a minute. */
  ghost predicate CooldownsRespected(log: seq<Event>)
  {
    forall i, j :: 0 <= i < j < |log| && log[i].Returned? && log[i].forced && log[j].Recorded? && log[i].v.pid == log[j].v.pid ==>
      AsSecs(Elapsed(log[j].at, log[i].at)) >= 60
  }

  ghost function Returns(out: seq<Victim>, now: Time, forced: bool): seq<Event>
  {
    seq(|out|, i requires 0 <= i < |out| => Returned(out[i], now, forced))
  }

  lemma ReturnsNone(now: Time, forced: bool)
    ensures Returns([], now, forced) == []
  {
  }

  lemma ReturnsExtend(out: seq<Victim>, v: Victim, now: Time, forced: bool)
    ensures Returns(out + [v], now, forced) == Returns(out, now, forced) + [Returned(v, now, forced)]
  {
  }

  ghost function Records(log: seq<Event>, v: Victim): nat
  {
    if |log| == 0 then 0
    else Records(log[..|log| - 1], v) + if log[|log| - 1].Recorded? && log[|log| - 1].v == v then 1 else 0
  }

  ghost function Givebacks(log: seq<Event>, v: Victim): nat
  {
    if |log| == 0 then 0
    else Givebacks(log[..|log| - 1], v) + if log[|log| - 1].Returned? && log[|log| - 1].v == v then 1 else 0
  }

  /** Conservation: every recorded freeze is still on record or was given back,
      once. */
  lemma {:induction false} EveryFreezeIsAccountedFor(log: seq<Event>, v: Victim)
    requires Consistent(log)
    ensures Records(log, v) == Givebacks(log, v) + if v.pid in Replay(log) && Replay(log)[v.pid] == v then 1 else 0
  {
    if |log| > 0 {
      EveryFreezeIsAccountedFor(log[..|log| - 1], v);
    }
  }

  lemma ReplayExtends(log: seq<Event>, e: Event)
    ensures Replay(log + [e]) == if e.Recorded? then Replay(log)[e.v.pid := e.v] else Replay(log) - {e.v.pid}
    ensures Consistent(log + [e]) <==>
      Consistent(log) && if e.Recorded? then e.v.pid !in Replay(log) else e.v.pid in Replay(log) && Replay(log)[e.v.pid] == e.v
  {
    assert (log + [e])[..|log|] == log;
  }

  lemma ReturnKeepsCooldowns(log: seq<Event>, e: Event)
    requires CooldownsRespected(log) && e.Returned?
    ensures CooldownsRespected(log + [e])
  {
  }

  /** A record keeps the promise when every forced return of its pid is a minute old. */
  lemma RecordKeepsCooldowns(log: seq<Event>, e: Event)
    requires CooldownsRespected(log) && e.Recorded?
    requires forall i :: 0 <= i < |log| && log[i].Returned? && log[i].forced && log[i].v.pid == e.v.pid ==>
               AsSecs(Elapsed(e.at, log[i].at)) >= 60
    ensures CooldownsRespected(log + [e])
  {
  }
}
