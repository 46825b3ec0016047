/**
 * Ring geometry (`ReactorConfig`, 77ChromaCore/Models/ReactorCore.swift):
 * three rings of 4, 8 and 12 segments, and what it means for a board to be laid
 * out on them.
 */
module Config {
  import opened Segments

  const InnerCount: nat := 4
  const MiddleCount: nat := 8
  const OuterCount: nat := 12

  /** `ReactorConfig.ringCounts`. */
  const RingCounts: seq<nat> := [InnerCount, MiddleCount, OuterCount]

  /** Number of segments on the whole board. */
  const SegmentTotal: nat := InnerCount + MiddleCount + OuterCount

  /** Index, in board order (ring by ring), of the first segment of ring `r`. */
  function RingOffset(r: nat): (o: nat)
    requires r < |RingCounts|
    ensures o + RingCounts[r] <= SegmentTotal
    ensures r == 0 ==> o == 0
    ensures r > 0 ==> o == RingOffset(r - 1) + RingCounts[r - 1]
  {
    [0, InnerCount, InnerCount + MiddleCount][r]
  }

  /** Three rings with the configured sizes. */
  predicate Shaped(rings: seq<seq<Segment>>)
  {
    |rings| == |RingCounts| &&
    forall r :: 0 <= r < |rings| ==> |rings[r]| == RingCounts[r]
  }

  /** Shaped, and every segment knows its own ring and slot (positions are contiguous 0..count-1). */
  predicate WellFormed(rings: seq<seq<Segment>>)
  {
    Shaped(rings) &&
    forall r, i :: 0 <= r < |rings| && 0 <= i < |rings[r]| ==>
      rings[r][i].ringIndex == r && rings[r][i].positionIndex == i
  }
}
