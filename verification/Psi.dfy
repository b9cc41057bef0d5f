/** Pressure levels and the configurable tier boundaries. */
module Psi {

  datatype Level = Normal | Elevated | High | Critical | Emergency
  {
    function Rank(): nat
    {
      match this
      case Normal => 0
      case Elevated => 1
      case High => 2
      case Critical => 3
      case Emergency => 4
    }

    predicate AtLeast(other: Level) { Rank() >= other.Rank() }
  }

  datatype Pressure = Pressure(some10: real, full10: real)

  datatype Thresholds = Thresholds(elevated: real, high: real, critical: real, emergency: real, fullCritical: real)
  {
    predicate Valid()
    {
      && 0.0 < elevated < high < critical < emergency <= 100.0
      && fullCritical > 0.0
    }
  }

  function LevelWith(p: Pressure, t: Thresholds): Level
  {
    if p.full10 >= t.fullCritical then
      if p.some10 >= t.emergency then Emergency else Critical
    else if p.some10 >= t.emergency then Emergency
    else if p.some10 >= t.critical then Critical
    else if p.some10 >= t.high then High
    else if p.some10 >= t.elevated then Elevated
    else Normal
  }

  /** With valid thresholds a level is reached when the stall share reaches its
      threshold; a full stall at its own reaches Critical by itself. */
  lemma LevelReachesExactly(p: Pressure, t: Thresholds)
    requires t.Valid()
    ensures LevelWith(p, t).AtLeast(Elevated) <==> p.some10 >= t.elevated || p.full10 >= t.fullCritical
    ensures LevelWith(p, t).AtLeast(High) <==> p.some10 >= t.high || p.full10 >= t.fullCritical
    ensures LevelWith(p, t).AtLeast(Critical) <==> p.some10 >= t.critical || p.full10 >= t.fullCritical
    ensures LevelWith(p, t).AtLeast(Emergency) <==> p.some10 >= t.emergency
  {
  }
}
