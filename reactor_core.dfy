/**
 * `ReactorCore` (77ChromaCore/Models/ReactorCore.swift): the one object that
 * holds the game state and updates it in place. Each method is proved to
 * leave the object in the state its specification function in `ReactorSpec`
 * computes from the state before the call.
 */
module Reactor {
  import opened Wrappers
  import opened Energy
  import opened Segments
  import opened Config
  import opened Generator
  import opened Matching
  import opened Effects
  import opened ReactorSpec

  class ReactorCore {
    var rings: seq<seq<Segment>>
    /** Display-only accumulated angles, one per ring. */
    var rotationAngles: seq<real>
    /** Gauges, in hundredths. */
    var energyLevel: int
    var temperature: int
    var stability: int
    var movesRemaining: int
    var score: int
    var level: int
    var thermalShieldMovesLeft: int
    var nextMatchDouble: bool
    var lockedRingIndex: Option<int>
    const maxMoves: int
    /** The seed the board was generated from, if any (the board itself is built from the unit draws). */
    ghost const seed: Option<int>

    /** The abstract value of this object. */
    function Snapshot(): ReactorState
      reads this
    {
      ReactorState(rings, rotationAngles, Gauges(energyLevel, temperature, stability),
                   movesRemaining, score, level, thermalShieldMovesLeft, nextMatchDouble,
                   lockedRingIndex, maxMoves)
    }

    ghost predicate Valid()
      reads this
    {
      ReactorSpec.Valid(Snapshot())
    }

    /**
     * `init(level:maxMoves:seed:)`. `draws` are the 24 unit draws, ring by
     * ring, that the seeded or system generator yields for the board.
     */
    constructor (level: int, maxMoves: Option<int>, seed: Option<int>, draws: seq<real>)
      requires |draws| == SegmentTotal
      ensures Valid()
      ensures Snapshot() == InitialState(level, maxMoves, draws)
      ensures this.seed == seed
    {
      this.level := level;
      var moves := maxMoves.GetOr(MovesForLevel(level));
      this.maxMoves := moves;
      movesRemaining := moves;
      score := 0;
      energyLevel := 40;
      temperature := 40;
      stability := 0;
      rotationAngles := [0.0, 0.0, 0.0];
      rings := CreateInitialRings(draws, ColorBiasForLevel(level));
      thermalShieldMovesLeft := 0;
      nextMatchDouble := false;
      lockedRingIndex := None;
      this.seed := seed;
    }

    /** `rotateRing(_:by:)`: turns the display angle and spends a move; the lock is not consulted. */
    method RotateRingByAngle(ringIndex: int, angle: real)
      requires Valid()
      modifies this
      ensures Valid()
      ensures Snapshot() == RotateByAngle(old(Snapshot()), ringIndex, angle)
    {
      if !(0 <= ringIndex < |rings| && movesRemaining > 0) {
        return;
      }
      rotationAngles := rotationAngles[ringIndex := rotationAngles[ringIndex] + angle];
      movesRemaining := movesRemaining - 1;
      UpdateReactorState();
    }

    /** `rotateRingSteps`: guards, normalise, shift and renumber, spend a move, resolve, drift. */
    method RotateRingSteps(ringIndex: int, steps: int)
      requires Valid()
      modifies this
      ensures Valid()
      ensures Snapshot() == RotateSteps(old(Snapshot()), ringIndex, steps)
    {
      ghost var s0 := Snapshot();
      RotationPreservesValid(s0, ringIndex, steps);
      if !(0 <= ringIndex < |rings| && movesRemaining > 0) {
        return;
      }
      if lockedRingIndex == Some(ringIndex) {
        return;
      }
      var count := |rings[ringIndex]|;
      if !(count > 0) {
        return;
      }
      var normalizedSteps := (SwiftRemainder(steps, count) + count) % count;
      assert normalizedSteps == NormalizedSteps(steps, count);
      if normalizedSteps == 0 {
        return;
      }
      assert RotationAccepted(s0, ringIndex, steps);
      ShiftAndSpendMove(ringIndex, normalizedSteps);
      assert Shaped(rings) by {
        assert rings == ShiftedBoard(s0, ringIndex, steps);
      }
      ProcessMatches();
      UpdateReactorState();
    }

    /** The first half of an accepted `rotateRingSteps`: tick the shield, shift the ring, spend a move. */
    method ShiftAndSpendMove(ringIndex: int, k: int)
      requires 0 <= ringIndex < |rings| && 0 <= k <= |rings[ringIndex]|
      modifies this
      ensures Snapshot() == ShiftAndSpend(old(Snapshot()), ringIndex, k)
    {
      if thermalShieldMovesLeft > 0 {
        thermalShieldMovesLeft := thermalShieldMovesLeft - 1;
      }
      var ring := ShiftRing(rings[ringIndex], k);
      rings := rings[ringIndex := ring];
      movesRemaining := movesRemaining - 1;
    }

    /** `checkForMatches`: the radial scan, then the ring-local scan; reads the board only. */
    method CheckForMatches() returns (matches: seq<EnergyMatch>)
      requires Shaped(rings)
      ensures matches == Matches(rings)
    {
      var board := rings;
      var radialMatches := RadialScanAll(board);
      var localMatches := LocalScanAll(board);
      matches := radialMatches + localMatches;
    }

    /**
     * `processMatches`: score each segment of the j-th match (from 1) with
     * `energyValue * 10 * j * doubleMultiplier`, apply its gauge effects, then
     * flag the matched segments (or clear all flags when nothing matched).
     */
    method ProcessMatches()
      requires Shaped(rings)
      modifies this
      ensures Snapshot() == Resolve(old(Snapshot()))
    {
      ghost var s0 := Snapshot();
      var matches := CheckForMatches();
      var doubleMultiplier := if nextMatchDouble then 2 else 1;
      ghost var resolved := s0.(
        score := s0.score + MatchScore(matches, doubleMultiplier),
        gauges := ApplyMatches(s0.gauges, matches, s0.thermalShieldMovesLeft > 0),
        nextMatchDouble := s0.nextMatchDouble && matches == [],
        rings := MarkActive(s0.rings, SegmentPositions(Flatten(matches))));
      assert Resolve(s0) == resolved;
      if |matches| > 0 && nextMatchDouble {
        nextMatchDouble := false;
      }
      ScoreMatches(matches, doubleMultiplier);
      assert Snapshot() == resolved.(rings := s0.rings);
      if |matches| > 0 {
        SetActiveSegments(Flatten(matches));
      } else {
        assert SegmentPositions(Flatten(matches)) == {};
        ClearActiveSegments();
      }
    }

    /** The scoring loop of `processMatches`: the j-th match (from 1) scores with combo `j`. */
    method ScoreMatches(matches: seq<EnergyMatch>, doubleMultiplier: int)
      modifies this
      ensures Snapshot() == old(Snapshot()).(
        score := old(score) + MatchScore(matches, doubleMultiplier),
        gauges := ApplyMatches(old(Snapshot()).gauges, matches, old(thermalShieldMovesLeft) > 0))
    {
      var combo := 1;
      ghost var s1 := Snapshot();
      ghost var shielded := thermalShieldMovesLeft > 0;
      for j := 0 to |matches|
        invariant combo == j + 1
        invariant score == s1.score + MatchScore(matches[..j], doubleMultiplier)
        invariant Gauges(energyLevel, temperature, stability) == ApplyMatches(s1.gauges, matches[..j], shielded)
        invariant Snapshot() == s1.(score := score, gauges := Gauges(energyLevel, temperature, stability))
      {
        var m := matches[j];
        assert matches[..j + 1][..j] == matches[..j];
        ScoreMatch(m, combo, doubleMultiplier);
        combo := combo + 1;
      }
      assert matches[..|matches|] == matches;
    }

    /**
     * The body of the scoring loop of `processMatches` for one match: each of its
     * segments earns `energyValue * 10 * combo * doubleMultiplier` points and
     * applies its gauge effects (heat skipped while the shield is up).
     */
    method ScoreMatch(m: EnergyMatch, combo: int, doubleMultiplier: int)
      modifies this
      ensures Snapshot() == old(Snapshot()).(
        score := old(score) + |m.segments| * SegmentPoints(m.energyType, combo, doubleMultiplier),
        gauges := ApplyRepeated(old(Snapshot()).gauges, m.energyType, |m.segments|, old(thermalShieldMovesLeft) > 0))
    {
      ghost var s0 := Snapshot();
      ghost var shielded := thermalShieldMovesLeft > 0;
      ghost var points := SegmentPoints(m.energyType, combo, doubleMultiplier);
      for i := 0 to |m.segments|
        invariant score == s0.score + i * points
        invariant Gauges(energyLevel, temperature, stability) == ApplyRepeated(s0.gauges, m.energyType, i, shielded)
        invariant Snapshot() == s0.(score := score, gauges := Gauges(energyLevel, temperature, stability))
      {
        assert (i + 1) * points == i * points + points;
        score := score + EnergyValue(m.energyType) * 10 * combo * doubleMultiplier;
        energyLevel := Min(Full, energyLevel + EnergyPerValue * EnergyValue(m.energyType));
        if thermalShieldMovesLeft <= 0 {
          temperature := Max(0, Min(Full, temperature + HeatEffect(m.energyType)));
        }
        stability := Max(-Full, Min(Full, stability + StabilityEffect(m.energyType)));
      }
    }

    /** `recalibrateRing`: recolours every segment of the ring with the drawn colours, in slot order. */
    method RecalibrateRing(ringIndex: int, colors: seq<EnergyType>)
      requires 0 <= ringIndex < |rings| ==> |colors| == |rings[ringIndex]|
      modifies this
      ensures Snapshot() == Recalibrate(old(Snapshot()), ringIndex, colors)
    {
      if !(0 <= ringIndex < |rings|) {
        return;
      }
      ghost var s0 := Snapshot();
      for i := 0 to |rings[ringIndex]|
        invariant |rings| == |s0.rings| && |rings[ringIndex]| == |colors|
        invariant forall r :: 0 <= r < |rings| && r != ringIndex ==> rings[r] == s0.rings[r]
        invariant forall j :: 0 <= j < |colors| ==>
          rings[ringIndex][j] == if j < i then s0.rings[ringIndex][j].(energyType := colors[j])
                                 else s0.rings[ringIndex][j]
        invariant Snapshot() == s0.(rings := rings)
      {
        rings := rings[ringIndex := rings[ringIndex][i := rings[ringIndex][i].(energyType := colors[i])]];
      }
      ghost var recoloured := seq(|colors|, i requires 0 <= i < |colors| => s0.rings[ringIndex][i].(energyType := colors[i]));
      assert rings[ringIndex] == recoloured;
      assert rings == s0.rings[ringIndex := recoloured];
    }

    /** `setActiveSegments`: a segment is flagged exactly when its ring:slot key is among the given segments'. */
    method SetActiveSegments(segments: seq<Segment>)
      modifies this
      ensures Snapshot() == old(Snapshot()).(rings := MarkActive(old(rings), SegmentPositions(segments)))
    {
      var positions := set x | x in segments :: (x.ringIndex, x.positionIndex);
      ghost var s0 := Snapshot();
      for ringIndex := 0 to |rings|
        invariant |rings| == |s0.rings|
        invariant forall r :: 0 <= r < |rings| ==>
          rings[r] == if r < ringIndex then MarkRing(s0.rings[r], r, positions) else s0.rings[r]
        invariant Snapshot() == s0.(rings := rings)
      {
        for segIndex := 0 to |rings[ringIndex]|
          invariant |rings| == |s0.rings| && |rings[ringIndex]| == |s0.rings[ringIndex]|
          invariant forall r :: 0 <= r < |rings| && r != ringIndex ==>
            rings[r] == if r < ringIndex then MarkRing(s0.rings[r], r, positions) else s0.rings[r]
          invariant forall i :: 0 <= i < |rings[ringIndex]| ==>
            rings[ringIndex][i] ==
              if i < segIndex then s0.rings[ringIndex][i].(isActive := (ringIndex, i) in positions)
              else s0.rings[ringIndex][i]
          invariant Snapshot() == s0.(rings := rings)
        {
          rings := rings[ringIndex := rings[ringIndex][segIndex :=
                     rings[ringIndex][segIndex].(isActive := (ringIndex, segIndex) in positions)]];
        }
      }
    }

    /** `clearActiveSegments`: every flag off. */
    method ClearActiveSegments()
      modifies this
      ensures Snapshot() == old(Snapshot()).(rings := MarkActive(old(rings), {}))
    {
      ghost var s0 := Snapshot();
      for ringIndex := 0 to |rings|
        invariant |rings| == |s0.rings|
        invariant forall r :: 0 <= r < |rings| ==>
          rings[r] == if r < ringIndex then MarkRing(s0.rings[r], r, {}) else s0.rings[r]
        invariant Snapshot() == s0.(rings := rings)
      {
        for segIndex := 0 to |rings[ringIndex]|
          invariant |rings| == |s0.rings| && |rings[ringIndex]| == |s0.rings[ringIndex]|
          invariant forall r :: 0 <= r < |rings| && r != ringIndex ==>
            rings[r] == if r < ringIndex then MarkRing(s0.rings[r], r, {}) else s0.rings[r]
          invariant forall i :: 0 <= i < |rings[ringIndex]| ==>
            rings[ringIndex][i] ==
              if i < segIndex then s0.rings[ringIndex][i].(isActive := false) else s0.rings[ringIndex][i]
          invariant Snapshot() == s0.(rings := rings)
        {
          rings := rings[ringIndex := rings[ringIndex][segIndex := rings[ringIndex][segIndex].(isActive := false)]];
        }
      }
    }

    /** `updateReactorState`: cool by the level's rate (floored at 0) and drift stability toward 0. */
    method UpdateReactorState()
      modifies this
      ensures Snapshot() == ReactorSpec.UpdateReactorState(old(Snapshot()))
    {
      temperature := Max(0, temperature - CoolingRate(level));
      if stability > 0 {
        stability := Max(0, stability - StabilityDrift);
      } else if stability < 0 {
        stability := Min(0, stability + StabilityDrift);
      }
    }
  }

  /**
   * One step of the radial scan in `checkForMatches`: sample each ring at the
   * slot the radial position points to, sort the samples into one bucket per
   * colour, and report every bucket holding three or more.
   */
  method RadialScan(rings: seq<seq<Segment>>, radial: int) returns (found: seq<EnergyMatch>)
    requires Shaped(rings) && 0 <= radial < Resolution
    ensures found == RadialMatch(rings, radial)
  {
    var byType := SortIntoBuckets(rings, radial);
    found := FullBuckets(byType);
    BucketsGiveRadialMatch(RadialSamples(rings, radial), byType);
  }

  /** The ring-local scan of `checkForMatches` over one ring: a run from every start slot. */
  method RingScan(ring: seq<Segment>, ringIndex: int) returns (found: seq<EnergyMatch>)
    ensures found == RingMatchesUpTo(ring, ringIndex, |ring|)
  {
    found := [];
    for start := 0 to |ring|
      invariant found == RingMatchesUpTo(ring, ringIndex, start)
    {
      var line := RunFrom(ring, start);
      if |line| >= 3 {
        found := found + [EnergyMatch(ring[start].energyType, line, [ringIndex], 0)];
      }
    }
  }

  /**
   * The inner loop of the ring-local scan: walk clockwise from `start`,
   * wrapping around, while the colour stays that of `start`, at most once round.
   */
  method RunFrom(ring: seq<Segment>, start: int) returns (line: seq<Segment>)
    requires 0 <= start < |ring|
    ensures line == Line(ring, start, RunAt(ring, start))
  {
    var count := |ring|;
    var energyType := ring[start].energyType;
    line := [ring[start]];
    ModSmall(start, count);
    assert Wrap(ring, start, 0) == ring[start];
    var offset := 1;
    while offset < count
      invariant 1 <= offset <= count
      invariant line == Line(ring, start, offset)
      invariant forall j: nat :: j < offset ==> Wrap(ring, start, j).energyType == energyType
      invariant RunLength(ring, start, offset) == RunAt(ring, start)
    {
      var pos := (start + offset) % count;
      if ring[pos].energyType == energyType {
        line := line + [ring[pos]];
      } else {
        break;
      }
      offset := offset + 1;
    }
  }

  /**
   * The array surgery of `rotateRingSteps`: the last `k` segments move to the
   * front, then every segment's `positionIndex` is set to its new slot.
   */
  method ShiftRing(ring: seq<Segment>, k: int) returns (shifted: seq<Segment>)
    requires 0 <= k <= |ring|
    ensures shifted == Shifted(ring, k)
  {
    var count := |ring|;
    var slice := ring[count - k..];
    shifted := ring[..count - k];
    shifted := slice + shifted;
    ghost var joined := shifted;
    for i := 0 to |shifted|
      invariant |shifted| == |joined|
      invariant forall j :: 0 <= j < |shifted| ==>
        shifted[j] == if j < i then joined[j].(positionIndex := j) else joined[j]
    {
      shifted := shifted[i := shifted[i].(positionIndex := i)];
    }
  }

  /** Splits the radial samples into one bucket per colour, keeping ring order within each bucket. */
  method SortIntoBuckets(rings: seq<seq<Segment>>, radial: int) returns (byType: map<EnergyType, seq<Segment>>)
    requires Shaped(rings) && 0 <= radial < Resolution
    ensures forall t :: t in byType && byType[t] == OfType(RadialSamples(rings, radial), t)
  {
    var counts := RingCounts;
    var resolution := Resolution;
    byType := map[Stable := [], Critical := [], Balancing := []];
    ghost var samples := RadialSamples(rings, radial);
    EmptyBuckets(byType);
    assert samples[..0] == [];
    for ringIndex := 0 to |rings|
      invariant forall t :: t in byType && byType[t] == OfType(samples[..ringIndex], t)
    {
      var count := counts[ringIndex];
      var pos := (radial * count / resolution) % count;
      var segment := rings[ringIndex][pos];
      assert samples[..ringIndex + 1] == samples[..ringIndex] + [segment];
      byType := byType[segment.energyType := byType[segment.energyType] + [segment]];
    }
    assert samples[..|rings|] == samples;
  }

  /** The radial scan of `checkForMatches`: every angular sample in turn. */
  method RadialScanAll(rings: seq<seq<Segment>>) returns (matches: seq<EnergyMatch>)
    requires Shaped(rings)
    ensures matches == RadialMatchesUpTo(rings, Resolution)
  {
    matches := [];
    var resolution := Resolution;
    for radial := 0 to resolution
      invariant matches == RadialMatchesUpTo(rings, radial)
    {
      var found := RadialScan(rings, radial);
      matches := matches + found;
    }
  }

  /** The ring-local scan of `checkForMatches`: every ring in turn, inner first. */
  method LocalScanAll(rings: seq<seq<Segment>>) returns (matches: seq<EnergyMatch>)
    ensures matches == LocalMatchesUpTo(rings, |rings|)
  {
    matches := [];
    for ringIndex := 0 to |rings|
      invariant matches == LocalMatchesUpTo(rings, ringIndex)
    {
      var found := RingScan(rings[ringIndex], ringIndex);
      matches := matches + found;
    }
  }

  /** The bucket pass of the radial scan: each colour's bucket, in declaration order, is reported when it holds three or more. */
  method FullBuckets(byType: map<EnergyType, seq<Segment>>) returns (found: seq<EnergyMatch>)
    requires forall t :: t in byType
    ensures found == BucketMatches(byType, AllEnergyTypes)
  {
    found := [];
    for ti := 0 to |AllEnergyTypes|
      invariant found == BucketMatches(byType, AllEnergyTypes[..ti])
    {
      var t := AllEnergyTypes[ti];
      assert AllEnergyTypes[..ti + 1] == AllEnergyTypes[..ti] + [t];
      if |byType[t]| >= 3 {
        found := found + [EnergyMatch(t, byType[t], [0, 1, 2], 0)];
      }
    }
    assert AllEnergyTypes[..|AllEnergyTypes|] == AllEnergyTypes;
  }
}
