/**
 * What matches and moves do to the gauges and the score
 * (`processMatches` and `updateReactorState`, 77ChromaCore/Models/ReactorCore.swift).
 *
 * The gauges are Doubles in the source; here they are integers in hundredths
 * (energy 40 stands for 0.4), which is exact because every constant and
 * threshold is a multiple of 0.01. Double rounding is not represented.
 */
module Effects {
  import opened Energy
  import opened Segments

  /** 1.0 in hundredths. */
  const Full: int := 100

  /** Energy per unit of `energyValue` of a matched segment (0.05). */
  const EnergyPerValue: int := 5

  /** Stability moves this far toward 0 on every accepted move (0.01). */
  const StabilityDrift: int := 1

  datatype Gauges = Gauges(energy: int, temperature: int, stability: int)

  /** Energy and temperature in [0, 1], stability in [-1, 1]. */
  predicate InRange(g: Gauges)
  {
    0 <= g.energy <= Full && 0 <= g.temperature <= Full && -Full <= g.stability <= Full
  }

  function Min(a: int, b: int): int { if a <= b then a else b }

  function Max(a: int, b: int): int { if a >= b then a else b }

  function Abs(a: int): int { if a >= 0 then a else -a }

  /**
   * One matched segment of colour `t`: energy up by `energyValue * 0.05`
   * capped at 1, temperature moved by `heatEffect` into [0, 1] unless a
   * thermal shield is active, stability moved by `stabilityEffect` into [-1, 1].
   */
  function ApplySegment(g: Gauges, t: EnergyType, shielded: bool): (r: Gauges)
    ensures r.energy <= Full && (g.energy <= Full ==> g.energy <= r.energy)
    ensures g.energy + EnergyPerValue * EnergyValue(t) <= Full ==>
      r.energy == g.energy + EnergyPerValue * EnergyValue(t)
    ensures shielded ==> r.temperature == g.temperature
    ensures !shielded ==> 0 <= r.temperature <= Full
    ensures !shielded && 0 <= g.temperature + HeatEffect(t) <= Full ==>
      r.temperature == g.temperature + HeatEffect(t)
    ensures -Full <= r.stability <= Full
    ensures -Full <= g.stability + StabilityEffect(t) <= Full ==>
      r.stability == g.stability + StabilityEffect(t)
    ensures InRange(g) ==> InRange(r)
  {
    Gauges(
      Min(Full, g.energy + EnergyPerValue * EnergyValue(t)),
      if shielded then g.temperature else Max(0, Min(Full, g.temperature + HeatEffect(t))),
      Max(-Full, Min(Full, g.stability + StabilityEffect(t))))
  }

  /** `k` matched segments of colour `t`, one after another. */
  function ApplyRepeated(g: Gauges, t: EnergyType, k: nat, shielded: bool): (r: Gauges)
    ensures InRange(g) ==> InRange(r)
    ensures g.energy <= Full ==> g.energy <= r.energy <= Full
    ensures shielded ==> r.temperature == g.temperature
  {
    if k == 0 then g else ApplySegment(ApplyRepeated(g, t, k - 1, shielded), t, shielded)
  }

  /** The gauge effect of a whole match list, match by match, segment by segment. */
  function ApplyMatches(g: Gauges, ms: seq<EnergyMatch>, shielded: bool): (r: Gauges)
    ensures InRange(g) ==> InRange(r)
    ensures g.energy <= Full ==> g.energy <= r.energy <= Full
    ensures shielded ==> r.temperature == g.temperature
  {
    if ms == [] then g
    else
      var last := ms[|ms| - 1];
      ApplyRepeated(ApplyMatches(g, ms[..|ms| - 1], shielded), last.energyType, |last.segments|, shielded)
  }

  /** Score for each segment of a match that is the `combo`-th of its pass. */
  function SegmentPoints(t: EnergyType, combo: int, doubleMultiplier: int): int
  {
    EnergyValue(t) * 10 * combo * doubleMultiplier
  }

  /**
   * Score of a match list: the j-th match (counting from 1) earns
   * `energyValue * 10 * j * doubleMultiplier` per segment.
   */
  function MatchScore(ms: seq<EnergyMatch>, doubleMultiplier: int): (gain: int)
    ensures doubleMultiplier >= 0 ==> gain >= 0
  {
    if ms == [] then 0
    else
      var last := ms[|ms| - 1];
      MatchScore(ms[..|ms| - 1], doubleMultiplier)
        + |last.segments| * SegmentPoints(last.energyType, |ms|, doubleMultiplier)
  }

  /** The energy pulse doubles the score of the whole pass, not just its first match. */
  lemma {:induction false} DoubledPassScoresTwice(ms: seq<EnergyMatch>)
    ensures MatchScore(ms, 2) == 2 * MatchScore(ms, 1)
  {
    if ms != [] {
      DoubledPassScoresTwice(ms[..|ms| - 1]);
      var last := ms[|ms| - 1];
      var p1 := SegmentPoints(last.energyType, |ms|, 1);
      assert SegmentPoints(last.energyType, |ms|, 2) == 2 * p1;
      assert |last.segments| * (2 * p1) == 2 * (|last.segments| * p1);
    }
  }

  /** A pass of non-empty matches scores something exactly when it has a match. */
  lemma {:induction false} PassScoresIffMatched(ms: seq<EnergyMatch>, doubleMultiplier: int)
    requires doubleMultiplier > 0
    requires forall m :: m in ms ==> |m.segments| > 0
    ensures MatchScore(ms, doubleMultiplier) > 0 <==> ms != []
  {
    if ms != [] {
      var last := ms[|ms| - 1];
      assert last in ms;
      var p := SegmentPoints(last.energyType, |ms|, doubleMultiplier);
      assert p > 0 by {
        assert EnergyValue(last.energyType) * 10 > 0;
        assert EnergyValue(last.energyType) * 10 * |ms| > 0;
      }
      assert |last.segments| * p > 0;
    }
  }

  /** `coolingRate`: harder levels (above 15) cool slower. */
  function CoolingRate(level: int): (c: int)
    ensures 2 <= c <= 3
    ensures c == 3 <==> level <= 15
  {
    if level <= 15 then 3 else 2
  }

  /**
   * Per-move drift: temperature falls by the cooling rate, floored at 0;
   * stability moves one hundredth toward 0 without crossing it; energy is kept.
   */
  function Drift(g: Gauges, level: int): (r: Gauges)
    ensures r.energy == g.energy
    ensures r.temperature == Max(0, g.temperature - CoolingRate(level))
    ensures Abs(r.stability) == Max(0, Abs(g.stability) - StabilityDrift)
    ensures r.stability * g.stability >= 0
    ensures InRange(g) ==> InRange(r)
  {
    var t := Max(0, g.temperature - CoolingRate(level));
    var st :=
      if g.stability > 0 then Max(0, g.stability - StabilityDrift)
      else if g.stability < 0 then Min(0, g.stability + StabilityDrift)
      else g.stability;
    Gauges(g.energy, t, st)
  }
}
