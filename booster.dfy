/** The four boosters (77ChromaCore/Models/BoosterType.swift). */
module Boosters {

  datatype BoosterType = ThermalShield | EnergyPulse | Stabilizer | Recalibration

  /** `BoosterType.allCases`, in declaration order. */
  const AllBoosterTypes: seq<BoosterType> := [ThermalShield, EnergyPulse, Stabilizer, Recalibration]

  /** Stabilizer and recalibration act on a selected ring; the other two act at once. */
  predicate NeedsTargetRing(b: BoosterType)
  {
    b == Stabilizer || b == Recalibration
  }
}

/** How a game was started (77ChromaCore/Models/GameMode.swift). */
module Modes {

  datatype GameMode = Level(level: int) | Endless | Daily

  predicate IsEndless(m: GameMode) { m.Endless? }

  predicate IsDaily(m: GameMode) { m.Daily? }

  predicate IsStoryLevel(m: GameMode) { m.Level? }

  /** Every game is in exactly one of the three modes. */
  lemma ExactlyOneMode(m: GameMode)
    ensures IsEndless(m) || IsDaily(m) || IsStoryLevel(m)
    ensures !(IsEndless(m) && IsDaily(m)) && !(IsEndless(m) && IsStoryLevel(m))
    ensures !(IsDaily(m) && IsStoryLevel(m))
  {
  }
}
