/** The ADPI uncertainty heuristic: three independent risk conditions raise
    a level, widen a band in percentage points and are named as drivers. */
module Uncertainty {
  import opened Geometry
  import opened Wrappers
  import opened EdtAdpi

  datatype Level = Low | Medium | High
  {
    /** The order low < medium < high. */
    function Rank(): nat
    {
      match this
      case Low => 0
      case Medium => 1
      case High => 2
    }

    function Name(): string
    {
      match this
      case Low => "low"
      case Medium => "medium"
      case High => "high"
    }
  }

  const LowCeiling: string := "low ceiling"
  const LargeDeltaT: string := "large |ΔT|"
  const DraftProne: string := "draft-prone pattern"

  datatype Estimate = Estimate(level: Level, pp: real, drivers: seq<string>)

  function Abs(a: real): real { if a < 0.0 then -a else a }

  /** The three conditions, in the order they are checked: a ceiling of at
      most 2.7 m, a supply temperature difference of at least 12 K either
      way, and more than 10% of the cells above the draft velocity. The
      last compares false when the percentage is NaN. */
  datatype Conditions = Conditions(lowCeiling: bool, largeDeltaT: bool, draftProne: bool)
  {
    function Count(): nat
    {
      (if lowCeiling then 1 else 0) + (if largeDeltaT then 1 else 0) + (if draftProne then 1 else 0)
    }

    /** Every condition of `this` also holds in `other`. */
    predicate Below(other: Conditions)
    {
      (lowCeiling ==> other.lowCeiling) && (largeDeltaT ==> other.largeDeltaT)
        && (draftProne ==> other.draftProne)
    }
  }

  function ConditionsOf(heightM: real, deltaTC: real, pctHigh: Option<real>): Conditions
  {
    Conditions(heightM <= 2.7, Abs(deltaTC) >= 12.0, Exceeds(pctHigh, 10.0))
  }

  /** Closed form of the estimate for a set of conditions. */
  function Assess(c: Conditions): Estimate
  {
    Estimate(
      if c.draftProne then High else if c.lowCeiling || c.largeDeltaT then Medium else Low,
      6.0 + (if c.lowCeiling then 2.0 else 0.0) + (if c.largeDeltaT then 2.0 else 0.0)
        + (if c.draftProne then 3.0 else 0.0),
      (if c.lowCeiling then [LowCeiling] else []) + (if c.largeDeltaT then [LargeDeltaT] else [])
        + (if c.draftProne then [DraftProne] else []))
  }

  /** `estimate(req, locs, stats)`: three sequential checks, each appending
      its driver, setting the level and widening the band. `locs` is
      accepted and not used. */
  method EstimateUncertainty(heightM: real, deltaTC: real, pctHigh: Option<real>, locs: seq<Point>)
    returns (level: Level, pp: real, drivers: seq<string>)
    ensures Estimate(level, pp, drivers) == Assess(ConditionsOf(heightM, deltaTC, pctHigh))
  {
    drivers := [];
    level := Low;
    pp := 6.0;
    if heightM <= 2.7 {
      drivers := drivers + [LowCeiling];
      level := Medium;
      pp := pp + 2.0;
    }
    if Abs(deltaTC) >= 12.0 {
      drivers := drivers + [LargeDeltaT];
      level := Medium;
      pp := pp + 2.0;
    }
    if pctHigh.Some? && pctHigh.value > 10.0 {
      drivers := drivers + [DraftProne];
      level := High;
      pp := pp + 3.0;
    }
  }

  /** No condition: low, 6 points, no drivers. */
  lemma NothingTriggered()
    ensures Assess(Conditions(false, false, false)) == Estimate(Low, 6.0, [])
  {
  }

  /** The level is high exactly when the draft condition holds, medium
      exactly when only the ceiling or temperature condition holds, and low
      otherwise; the thresholds are inclusive for height and |ΔT| and strict
      for the percentage. */
  lemma LevelCases(heightM: real, deltaTC: real, pctHigh: Option<real>)
    ensures var e := Assess(ConditionsOf(heightM, deltaTC, pctHigh));
      && (e.level == High <==> pctHigh.Some? && pctHigh.value > 10.0)
      && (e.level == Medium <==> !Exceeds(pctHigh, 10.0) && (heightM <= 2.7 || deltaTC <= -12.0 || 12.0 <= deltaTC))
      && (e.level == Low <==> !Exceeds(pctHigh, 10.0) && heightM > 2.7 && -12.0 < deltaTC < 12.0)
    ensures Assess(ConditionsOf(2.7, 12.0, Some(10.0))).level == Medium
  {
  }

  /** The band is 6 plus 2, 2 and 3 points for the conditions that hold,
      so it lies in [6, 13]; the drivers list one label per true condition,
      in the fixed order, none repeated. */
  lemma BandAndDrivers(c: Conditions)
    ensures var e := Assess(c);
      && 6.0 <= e.pp <= 13.0
      && |e.drivers| == c.Count()
      && (LowCeiling in e.drivers <==> c.lowCeiling)
      && (LargeDeltaT in e.drivers <==> c.largeDeltaT)
      && (DraftProne in e.drivers <==> c.draftProne)
      && (forall i, j :: 0 <= i < j < |e.drivers| ==> e.drivers[i] != e.drivers[j])
      && (c.lowCeiling && 0 < |e.drivers| ==> e.drivers[0] == LowCeiling)
      && (c.draftProne ==> e.drivers[|e.drivers| - 1] == DraftProne)
  {
  }

  /** Making more conditions true never lowers the level or narrows the
      band. */
  lemma Escalates(c: Conditions, c': Conditions)
    requires c.Below(c')
    ensures Assess(c).level.Rank() <= Assess(c').level.Rank()
    ensures Assess(c).pp <= Assess(c').pp
  {
  }
}
