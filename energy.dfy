/**
 * The three segment colours and their fixed per-colour constants
 * (77ChromaCore/Models/EnergyType.swift). Gauge effects are written in
 * hundredths of a gauge unit: -10 stands for -0.1.
 */
module Energy {

  datatype EnergyType = Stable | Critical | Balancing

  /** `EnergyType.allCases`, in declaration order. */
  const AllEnergyTypes: seq<EnergyType> := [Stable, Critical, Balancing]

  /** Energy (and score) weight of a colour: positive, and largest for critical. */
  function EnergyValue(t: EnergyType): (v: int)
    ensures 1 <= v <= 3
    ensures v == 3 <==> t == Critical
    ensures v == 1 <==> t == Stable
  {
    match t
    case Stable => 1
    case Critical => 3
    case Balancing => 2
  }

  /** Temperature change per matched segment: only critical heats, only stable cools. */
  function HeatEffect(t: EnergyType): (h: int)
    ensures -10 <= h <= 30
    ensures h > 0 <==> t == Critical
    ensures h < 0 <==> t == Stable
  {
    match t
    case Stable => -10
    case Critical => 30
    case Balancing => 0
  }

  /** Stability change per matched segment: only critical destabilises. */
  function StabilityEffect(t: EnergyType): (d: int)
    ensures -10 <= d <= 15
    ensures d < 0 <==> t == Critical
    ensures d > 0 ==> d >= 5
  {
    match t
    case Stable => 5
    case Critical => -10
    case Balancing => 15
  }

  /** The enumeration is closed: `allCases` lists each of the three colours exactly once. */
  lemma AllEnergyTypesComplete(t: EnergyType)
    ensures t in AllEnergyTypes
    ensures |AllEnergyTypes| == 3
    ensures forall i, j :: 0 <= i < j < |AllEnergyTypes| ==> AllEnergyTypes[i] != AllEnergyTypes[j]
  {
  }

  /** Critical carries the largest energy value of the three. */
  lemma CriticalHasLargestEnergyValue(t: EnergyType)
    ensures EnergyValue(t) <= EnergyValue(Critical)
    ensures t != Critical ==> EnergyValue(t) < EnergyValue(Critical)
  {
  }
}
