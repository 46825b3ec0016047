/**
 * The records the simulation mutates and returns
 * (77ChromaCore/Models/ReactorSegment.swift). A segment's `id` is a natural
 * number standing for its UUID; being a datatype field it can only be copied,
 * never reassigned, while every update below is a copy with one other field
 * replaced.
 */
module Segments {
  import opened Energy

  datatype Segment = Segment(
    id: nat,
    energyType: EnergyType,
    ringIndex: int,
    positionIndex: int,
    isActive: bool)

  /** The initialiser: stores exactly what it is given, inactive by default. */
  function NewSegment(id: nat, energyType: EnergyType, ringIndex: int, positionIndex: int,
                      isActive: bool := false): (s: Segment)
    ensures s.id == id && s.energyType == energyType
    ensures s.ringIndex == ringIndex && s.positionIndex == positionIndex
    ensures s.isActive == isActive
  {
    Segment(id, energyType, ringIndex, positionIndex, isActive)
  }

  /** One detected match: its colour, the segments forming it and the rings involved. */
  datatype EnergyMatch = EnergyMatch(
    energyType: EnergyType,
    segments: seq<Segment>,
    ringPositions: seq<int>,
    chainPotential: int)

  /** A freshly built segment is inactive unless told otherwise. */
  lemma NewSegmentInactiveByDefault(id: nat, t: EnergyType, ring: int, pos: int)
    ensures !NewSegment(id, t, ring, pos).isActive
  {
  }
}
