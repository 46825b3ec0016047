/**
 * The reactor simulation as a function of its state
 * (77ChromaCore/Models/ReactorCore.swift). `ReactorState` is the abstract
 * value of a `ReactorCore` object; each mutating method of the class is
 * specified by one function here, and the game's promises are lemmas about
 * those functions.
 */
module ReactorSpec {
  import opened Wrappers
  import opened Energy
  import opened Segments
  import opened Config
  import opened Generator
  import opened Matching
  import opened Effects

  datatype ReactorState = ReactorState(
    rings: seq<seq<Segment>>,
    rotationAngles: seq<real>,
    gauges: Gauges,
    movesRemaining: int,
    score: int,
    level: int,
    thermalShieldMovesLeft: int,
    nextMatchDouble: bool,
    lockedRingIndex: Option<int>,
    maxMoves: int)

  /** The invariant every reachable state keeps. */
  predicate Valid(s: ReactorState)
  {
    WellFormed(s.rings) && |s.rotationAngles| == |s.rings| &&
    InRange(s.gauges) &&
    Min(0, s.maxMoves) <= s.movesRemaining <= s.maxMoves &&
    s.score >= 0 && s.thermalShieldMovesLeft >= 0
  }

  // ---------------------------------------------------------------------------
  // Level tables and construction

  /** `movesForLevel`: more moves on early levels. */
  function MovesForLevel(level: int): (moves: int)
    ensures 25 <= moves <= 40
    ensures (level < 1 || level > 30) ==> moves == 25
  {
    if 1 <= level <= 5 then 40
    else if 6 <= level <= 15 then 32
    else if 16 <= level <= 30 then 28
    else 25
  }

  /** From level 1 upward, a later level never gets more moves. */
  lemma MovesNonIncreasing(a: int, b: int)
    requires 1 <= a <= b
    ensures MovesForLevel(b) <= MovesForLevel(a)
  {
  }

  /**
   * `ReactorCore.init`: energy and temperature 0.4, stability 0, score 0, all
   * moves left, no modifiers, and a board drawn with the level's colour bias.
   */
  function InitialState(level: int, maxMoves: Option<int>, draws: seq<real>): (s: ReactorState)
    requires |draws| == SegmentTotal
    ensures Valid(s)
    ensures s.maxMoves == s.movesRemaining == maxMoves.GetOr(MovesForLevel(level))
    ensures s.score == 0 && s.level == level
    ensures s.gauges == Gauges(40, 40, 0)
    ensures s.thermalShieldMovesLeft == 0 && !s.nextMatchDouble && s.lockedRingIndex == None
  {
    var moves := maxMoves.GetOr(MovesForLevel(level));
    ReactorState(
      CreateInitialRings(draws, ColorBiasForLevel(level)), [0.0, 0.0, 0.0],
      Gauges(40, 40, 0), moves, 0, level, 0, false, None, moves)
  }

  // ---------------------------------------------------------------------------
  // Rotation

  /** Swift's `%` on `Int`: truncates toward zero, so the remainder takes the dividend's sign. */
  function SwiftRemainder(a: int, b: int): (r: int)
    requires b > 0
    ensures -b < r < b
    ensures a >= 0 ==> r >= 0
    ensures a <= 0 ==> r <= 0
  {
    if a >= 0 then a % b else -((-a) % b)
  }

  /** `((steps % count) + count) % count` with Swift's `%`. */
  function NormalizedSteps(steps: int, count: int): (k: int)
    requires count > 0
    ensures 0 <= k < count
  {
    (SwiftRemainder(steps, count) + count) % count
  }

  /** The normalised shift is the mathematical residue of `steps`, negative steps included. */
  lemma NormalizedStepsIsResidue(steps: int, count: int)
    requires count > 0
    ensures NormalizedSteps(steps, count) == steps % count
  {
    var r := SwiftRemainder(steps, count);
    var q;
    if steps >= 0 {
      q := steps / count;
    } else {
      q := -((-steps) / count);
      assert -steps == count * ((-steps) / count) + (-steps) % count;
    }
    assert steps - r == count * q;
    var k := (r + count) % count;
    var p := (r + count) / count;
    assert r + count == count * p + k;
    assert steps == count * (q + p - 1) + k;
    ModOfShift(k, q + p - 1, count);
  }

  /** Reduction modulo `n` of a value already in [0, n), or in [-n, 0). */
  lemma ModSmall(x: int, n: int)
    requires n > 0 && -n <= x < n
    ensures x >= 0 ==> x % n == x
    ensures x < 0 ==> x % n == x + n
  {
    if x >= 0 {
      ModOfShift(x, 0, n);
    } else {
      ModOfShift(x + n, -1, n);
      assert x + n + n * -1 == x;
    }
  }

  /** Each slot's `positionIndex` set to its own index. */
  function Renumber(ring: seq<Segment>): (r: seq<Segment>)
    ensures |r| == |ring|
    ensures forall i :: 0 <= i < |r| ==> r[i] == ring[i].(positionIndex := i)
  {
    seq(|ring|, i requires 0 <= i < |ring| => ring[i].(positionIndex := i))
  }

  /** Right circular shift by `k`: the last `k` segments move to the front, then slots are renumbered. */
  function Shifted(ring: seq<Segment>, k: int): (r: seq<Segment>)
    requires 0 <= k <= |ring|
    ensures |r| == |ring|
  {
    Renumber(ring[|ring| - k..] + ring[..|ring| - k])
  }

  /** Slot `i` of the shifted ring holds what slot `(i - k) mod count` held. */
  lemma ShiftedAt(ring: seq<Segment>, k: int, i: int)
    requires 0 <= k <= |ring| && 0 <= i < |ring|
    ensures |Shifted(ring, k)| == |ring|
    ensures Shifted(ring, k)[i] == ring[(i - k) % |ring|].(positionIndex := i)
  {
    var n := |ring|;
    var joined := ring[n - k..] + ring[..n - k];
    ModSmall(i - k, n);
    if i < k {
      assert joined[i] == ring[n - k + i];
    } else {
      assert joined[i] == ring[i - k];
    }
  }

  /** A segment with its slot number set aside: what a rotation must not change. */
  function Unplaced(x: Segment): Segment
  {
    x.(positionIndex := 0)
  }

  function UnplacedAll(ring: seq<Segment>): (r: seq<Segment>)
    ensures |r| == |ring|
    ensures forall i :: 0 <= i < |ring| ==> r[i] == Unplaced(ring[i])
  {
    seq(|ring|, i requires 0 <= i < |ring| => Unplaced(ring[i]))
  }

  /** A rotation is a permutation: the same segments (ids, colours, flags), in a new order. */
  lemma ShiftedIsPermutation(ring: seq<Segment>, k: int)
    requires 0 <= k <= |ring|
    ensures multiset(UnplacedAll(Shifted(ring, k))) == multiset(UnplacedAll(ring))
  {
    var n := |ring|;
    var a, b := ring[..n - k], ring[n - k..];
    assert ring == a + b;
    assert UnplacedAll(ring) == UnplacedAll(a) + UnplacedAll(b);
    assert UnplacedAll(Shifted(ring, k)) == UnplacedAll(b) + UnplacedAll(a);
  }

  /** Slots numbered 0 .. count-1. */
  predicate Contiguous(ring: seq<Segment>)
  {
    forall i :: 0 <= i < |ring| ==> ring[i].positionIndex == i
  }

  /** Shifting by `k` and then by `count - k` restores a contiguously numbered ring. */
  lemma ShiftRoundTrip(ring: seq<Segment>, k: int)
    requires 0 <= k <= |ring| && Contiguous(ring)
    ensures Shifted(Shifted(ring, k), |ring| - k) == ring
  {
    var twice := Shifted(Shifted(ring, k), |ring| - k);
    forall i | 0 <= i < |ring| ensures twice[i] == ring[i] {
      ShiftRoundTripAt(ring, k, i);
    }
  }

  /** One slot of `ShiftRoundTrip`. */
  lemma ShiftRoundTripAt(ring: seq<Segment>, k: int, i: int)
    requires 0 <= k <= |ring| && 0 <= i < |ring|
    ensures Shifted(Shifted(ring, k), |ring| - k)[i] == ring[i].(positionIndex := i)
  {
    var n := |ring|;
    var once := Shifted(ring, k);
    ShiftedAt(once, n - k, i);
    ModSmall(i - (n - k), n);
    var j := if i >= n - k then i - (n - k) else i + k;
    assert (i - (n - k)) % n == j;
    ShiftedAt(ring, k, j);
    ModSmall(j - k, n);
    assert (j - k) % n == i;
  }

  /** The guards of `rotateRingSteps`: all must pass for the rotation to happen. */
  predicate RotationAccepted(s: ReactorState, ringIndex: int, steps: int)
  {
    0 <= ringIndex < |s.rings| && s.movesRemaining > 0 &&
    s.lockedRingIndex != Some(ringIndex) &&
    |s.rings[ringIndex]| > 0 && NormalizedSteps(steps, |s.rings[ringIndex]|) != 0
  }

  /** The part of an accepted rotation before match resolution: shield tick, shift, one move spent. */
  function ShiftAndSpend(s: ReactorState, ringIndex: int, k: int): ReactorState
    requires 0 <= ringIndex < |s.rings| && 0 <= k <= |s.rings[ringIndex]|
  {
    s.(thermalShieldMovesLeft :=
         if s.thermalShieldMovesLeft > 0 then s.thermalShieldMovesLeft - 1 else s.thermalShieldMovesLeft,
       rings := s.rings[ringIndex := Shifted(s.rings[ringIndex], k)],
       movesRemaining := s.movesRemaining - 1)
  }

  // ---------------------------------------------------------------------------
  // Match resolution

  /** `matches.flatMap { $0.segments }`. */
  function Flatten(ms: seq<EnergyMatch>): seq<Segment>
  {
    if ms == [] then [] else Flatten(ms[..|ms| - 1]) + ms[|ms| - 1].segments
  }

  /** The set of `ringIndex:positionIndex` keys of a segment list. */
  function SegmentPositions(segs: seq<Segment>): set<(int, int)>
  {
    set x | x in segs :: (x.ringIndex, x.positionIndex)
  }

  /** Every segment flag set to whether its (ring, slot) is among `keys`. */
  function MarkRing(ring: seq<Segment>, r: int, keys: set<(int, int)>): (m: seq<Segment>)
    ensures |m| == |ring|
    ensures forall i :: 0 <= i < |ring| ==> m[i] == ring[i].(isActive := (r, i) in keys)
  {
    seq(|ring|, i requires 0 <= i < |ring| => ring[i].(isActive := (r, i) in keys))
  }

  function MarkActive(rings: seq<seq<Segment>>, keys: set<(int, int)>): (m: seq<seq<Segment>>)
    ensures |m| == |rings|
    ensures forall r :: 0 <= r < |rings| ==> m[r] == MarkRing(rings[r], r, keys)
  {
    seq(|rings|, r requires 0 <= r < |rings| => MarkRing(rings[r], r, keys))
  }

  /** A segment appears in the flattened list exactly when it belongs to one of the matches. */
  lemma {:induction false} InFlatten(ms: seq<EnergyMatch>, x: Segment)
    ensures x in Flatten(ms) <==> exists m :: m in ms && x in m.segments
  {
    if ms != [] {
      var init := ms[..|ms| - 1];
      InFlatten(init, x);
      if x in Flatten(ms) && x !in Flatten(init) {
        assert ms[|ms| - 1] in ms;
      }
      if (exists m :: m in ms && x in m.segments) && x !in ms[|ms| - 1].segments {
        var m :| m in ms && x in m.segments;
        assert m in init;
      }
    }
  }

  /**
   * `processMatches`: detect, score with the combo and double multipliers,
   * apply gauge effects (temperature frozen while a shield is active), clear
   * the pulse when anything matched, and flag the matched segments.
   */
  function Resolve(s: ReactorState): (r: ReactorState)
    requires Shaped(s.rings)
    ensures r.(score := s.score, gauges := s.gauges, nextMatchDouble := s.nextMatchDouble, rings := s.rings) == s
    ensures r.score >= s.score && |r.rings| == |s.rings|
    ensures InRange(s.gauges) ==> InRange(r.gauges)
    ensures r.nextMatchDouble ==> s.nextMatchDouble
  {
    var ms := Matches(s.rings);
    s.(score := s.score + MatchScore(ms, if s.nextMatchDouble then 2 else 1),
       gauges := ApplyMatches(s.gauges, ms, s.thermalShieldMovesLeft > 0),
       nextMatchDouble := s.nextMatchDouble && ms == [],
       rings := MarkActive(s.rings, SegmentPositions(Flatten(ms))))
  }

  /** `updateReactorState`: per-move cooling and stability drift. */
  function UpdateReactorState(s: ReactorState): (r: ReactorState)
    ensures r.(gauges := s.gauges) == s && r.gauges.energy == s.gauges.energy
    ensures InRange(s.gauges) ==>
      InRange(r.gauges) && r.gauges.temperature <= s.gauges.temperature &&
      Abs(r.gauges.stability) <= Abs(s.gauges.stability)
  {
    s.(gauges := Drift(s.gauges, s.level))
  }

  /** `rotateRingSteps`: a silent no-op unless every guard passes. */
  function RotateSteps(s: ReactorState, ringIndex: int, steps: int): (r: ReactorState)
    requires Shaped(s.rings)
    ensures r.level == s.level && r.maxMoves == s.maxMoves && r.lockedRingIndex == s.lockedRingIndex
    ensures r.movesRemaining == s.movesRemaining - 1 <==> RotationAccepted(s, ringIndex, steps)
    ensures !RotationAccepted(s, ringIndex, steps) ==> r == s
    ensures r.score >= s.score && |r.rings| == |s.rings|
  {
    if !RotationAccepted(s, ringIndex, steps) then s
    else
      var k := NormalizedSteps(steps, |s.rings[ringIndex]|);
      UpdateReactorState(Resolve(ShiftAndSpend(s, ringIndex, k)))
  }

  /** The board an accepted rotation hands to match detection. */
  function ShiftedBoard(s: ReactorState, ringIndex: int, steps: int): (rings: seq<seq<Segment>>)
    requires Shaped(s.rings) && RotationAccepted(s, ringIndex, steps)
    ensures Shaped(rings)
  {
    ShiftAndSpend(s, ringIndex, NormalizedSteps(steps, |s.rings[ringIndex]|)).rings
  }

  /** `rotateRing(_:by:)`: display angle plus one move and drift; ignores the lock and matches nothing. */
  function RotateByAngle(s: ReactorState, ringIndex: int, angle: real): (r: ReactorState)
    requires |s.rotationAngles| == |s.rings|
    ensures r.rings == s.rings && r.score == s.score && r.lockedRingIndex == s.lockedRingIndex
    ensures r.movesRemaining == s.movesRemaining - 1 <==> 0 <= ringIndex < |s.rings| && s.movesRemaining > 0
    ensures r.movesRemaining != s.movesRemaining - 1 ==> r == s
  {
    if !(0 <= ringIndex < |s.rings| && s.movesRemaining > 0) then s
    else
      UpdateReactorState(s.(rotationAngles := s.rotationAngles[ringIndex := s.rotationAngles[ringIndex] + angle],
                            movesRemaining := s.movesRemaining - 1))
  }

  /** `recalibrateRing`: every segment of the ring takes the next drawn colour; nothing else changes. */
  function Recalibrate(s: ReactorState, ringIndex: int, colors: seq<EnergyType>): (r: ReactorState)
    requires 0 <= ringIndex < |s.rings| ==> |colors| == |s.rings[ringIndex]|
    ensures r.(rings := s.rings) == s && |r.rings| == |s.rings|
    ensures forall q :: 0 <= q < |s.rings| && q != ringIndex ==> r.rings[q] == s.rings[q]
  {
    if !(0 <= ringIndex < |s.rings|) then s
    else
      s.(rings := s.rings[ringIndex :=
           seq(|colors|, i requires 0 <= i < |colors| => s.rings[ringIndex][i].(energyType := colors[i]))])
  }

  /**
   * Recalibration keeps the state valid and changes colours only: every
   * segment keeps its id, ring, slot and flag, and the chosen ring shows the drawn colours.
   */
  lemma RecalibrateOnlyRecolours(s: ReactorState, ringIndex: int, colors: seq<EnergyType>)
    requires Valid(s) && (0 <= ringIndex < |s.rings| ==> |colors| == |s.rings[ringIndex]|)
    ensures Valid(Recalibrate(s, ringIndex, colors))
    ensures Recalibrate(s, ringIndex, colors).(rings := s.rings) == s
    ensures forall r, i :: 0 <= r < |s.rings| && 0 <= i < |s.rings[r]| ==>
      Recalibrate(s, ringIndex, colors).rings[r][i] ==
        s.rings[r][i].(energyType := if r == ringIndex then colors[i] else s.rings[r][i].energyType)
  {
    var t := Recalibrate(s, ringIndex, colors);
    if 0 <= ringIndex < |s.rings| {
      assert forall r :: 0 <= r < |s.rings| ==> |t.rings[r]| == |s.rings[r]|;
      assert WellFormed(t.rings);
    }
  }

  // ---------------------------------------------------------------------------
  // Predicates

  /** `isEnergyCritical`: energy below 0.2, which no level's completion window allows. */
  function IsEnergyCritical(s: ReactorState): (b: bool)
    ensures b ==> !IsLevelComplete(s)
  {
    s.gauges.energy < 20
  }

  /** `isOverheating`: temperature above 0.8, which the windows from level 6 on exclude. */
  function IsOverheating(s: ReactorState): (b: bool)
    ensures b && s.level >= 6 ==> !IsLevelComplete(s)
  {
    s.gauges.temperature > 80
  }

  /** `isDestabilized`: |stability| above 0.8, which no level's completion window allows. */
  function IsDestabilized(s: ReactorState): (b: bool)
    ensures b ==> !IsLevelComplete(s)
  {
    Abs(s.gauges.stability) > 80
  }

  /** `hasExploded`: the core is at full temperature, which also lights the overheating warning and rules out completion. */
  function HasExploded(s: ReactorState): (b: bool)
    ensures b ==> IsOverheating(s) && !IsLevelComplete(s)
  {
    s.gauges.temperature >= Full
  }

  /** Completion thresholds per level band: minimum energy, temperature and |stability| ceilings. */
  datatype Thresholds = Thresholds(minEnergy: int, maxTemperature: int, maxStability: int)

  function CompletionThresholds(level: int): (t: Thresholds)
    ensures 35 <= t.minEnergy <= 50 && 70 <= t.maxTemperature <= 85 && 60 <= t.maxStability <= 75
  {
    if 1 <= level <= 5 then Thresholds(35, 85, 75)
    else if 6 <= level <= 12 then Thresholds(40, 78, 70)
    else if 13 <= level <= 25 then Thresholds(45, 72, 65)
    else Thresholds(50, 70, 60)
  }

  /** `isLevelComplete`: all three gauges inside the level band's window at once. */
  function IsLevelComplete(s: ReactorState): (b: bool)
    ensures b ==> s.gauges.energy >= 35 && s.gauges.temperature < 85 && Abs(s.gauges.stability) < 75
  {
    var t := CompletionThresholds(s.level);
    s.gauges.energy >= t.minEnergy && s.gauges.temperature < t.maxTemperature &&
    Abs(s.gauges.stability) < t.maxStability
  }

  /** From level 1 upward the thresholds only tighten. */
  lemma ThresholdsTighten(a: int, b: int)
    requires 1 <= a <= b
    ensures CompletionThresholds(a).minEnergy <= CompletionThresholds(b).minEnergy
    ensures CompletionThresholds(b).maxTemperature <= CompletionThresholds(a).maxTemperature
    ensures CompletionThresholds(b).maxStability <= CompletionThresholds(a).maxStability
  {
  }

  /** Levels 1 to 12 already meet their completion window on a fresh board (energy 0.4, temperature 0.4). */
  lemma FreshEarlyLevelIsComplete(level: int, maxMoves: Option<int>, draws: seq<real>)
    requires |draws| == SegmentTotal && 1 <= level <= 12
    ensures IsLevelComplete(InitialState(level, maxMoves, draws))
  {
  }

  // ---------------------------------------------------------------------------
  // Properties of rotation

  /** Every failed guard is an exact no-op: nothing changes, no move is spent. */
  lemma RejectedRotationIsNoOp(s: ReactorState, ringIndex: int, steps: int)
    requires Shaped(s.rings)
    requires ringIndex < 0 || ringIndex >= |s.rings| || s.movesRemaining <= 0 ||
             s.lockedRingIndex == Some(ringIndex) ||
             NormalizedSteps(steps, |s.rings[ringIndex]|) == 0
    ensures RotateSteps(s, ringIndex, steps) == s
  {
  }

  /** Rotating a ring by any multiple of its length changes nothing. */
  lemma FullTurnIsNoOp(s: ReactorState, ringIndex: int, turns: int)
    requires Shaped(s.rings) && 0 <= ringIndex < |s.rings|
    ensures RotateSteps(s, ringIndex, turns * |s.rings[ringIndex]|) == s
  {
    var n := |s.rings[ringIndex]|;
    NormalizedStepsIsResidue(turns * n, n);
    ModOfShift(0, turns, n);
    assert n * turns == turns * n;
  }

  /**
   * `after` is `before` with ring `ringIndex` right-shifted by `k` and
   * renumbered (`after[i] = before[(i - k) mod count]`), every other ring in
   * its order, and nothing else changed but the active flags.
   */
  predicate ShiftedFrom(before: seq<seq<Segment>>, after: seq<seq<Segment>>, ringIndex: int, k: int)
    requires 0 <= ringIndex < |before|
  {
    var n := |before[ringIndex]|;
    |after| == |before| &&
    (forall r :: 0 <= r < |after| ==> |after[r]| == |before[r]|) &&
    (forall i :: 0 <= i < n ==>
      Unplaced(after[ringIndex][i]).(isActive := false) ==
        Unplaced(before[ringIndex][(i - k) % n]).(isActive := false) &&
      after[ringIndex][i].positionIndex == i) &&
    (forall r, i :: 0 <= r < |after| && r != ringIndex && 0 <= i < |after[r]| ==>
      after[r][i].(isActive := false) == before[r][i].(isActive := false))
  }

  /**
   * An accepted rotation by k is a right circular shift of that ring
   * (`new[i] = old[(i - k) mod count]`, renumbered) and leaves the other
   * rings' order alone; only the active flags may differ.
   */
  lemma AcceptedRotationShifts(s: ReactorState, ringIndex: int, steps: int)
    requires Shaped(s.rings) && RotationAccepted(s, ringIndex, steps)
    ensures ShiftedFrom(s.rings, RotateSteps(s, ringIndex, steps).rings, ringIndex,
                        NormalizedSteps(steps, |s.rings[ringIndex]|))
  {
    var k := NormalizedSteps(steps, |s.rings[ringIndex]|);
    var board := ShiftedBoard(s, ringIndex, steps);
    AcceptedRotationMarks(s, ringIndex, steps);
    ShiftThenMark(s.rings, ringIndex, k, SegmentPositions(Flatten(Matches(board))));
  }

  /** The board after an accepted rotation is the shifted board with the matched segments marked active. */
  lemma AcceptedRotationMarks(s: ReactorState, ringIndex: int, steps: int)
    requires Shaped(s.rings) && RotationAccepted(s, ringIndex, steps)
    ensures var board := ShiftedBoard(s, ringIndex, steps);
      && board == s.rings[ringIndex := Shifted(s.rings[ringIndex], NormalizedSteps(steps, |s.rings[ringIndex]|))]
      && RotateSteps(s, ringIndex, steps).rings == MarkActive(board, SegmentPositions(Flatten(Matches(board))))
  {
    var u := ShiftAndSpend(s, ringIndex, NormalizedSteps(steps, |s.rings[ringIndex]|));
    assert RotateSteps(s, ringIndex, steps).rings == Resolve(u).rings;
  }

  /** Shifting one ring and then setting every active flag: the board facts behind `AcceptedRotationShifts`. */
  lemma ShiftThenMark(rings: seq<seq<Segment>>, ringIndex: int, k: int, keys: set<(int, int)>)
    requires 0 <= ringIndex < |rings| && 0 <= k <= |rings[ringIndex]|
    ensures ShiftedFrom(rings, MarkActive(rings[ringIndex := Shifted(rings[ringIndex], k)], keys), ringIndex, k)
  {
    var n := |rings[ringIndex]|;
    var shifted: seq<seq<Segment>> := rings[ringIndex := Shifted(rings[ringIndex], k)];
    var m := MarkActive(shifted, keys);
    forall r | 0 <= r < |m|
      ensures |m[r]| == |rings[r]|
    {
      assert m[r] == MarkRing(shifted[r], r, keys);
    }
    forall i | 0 <= i < n
      ensures Unplaced(m[ringIndex][i]).(isActive := false) ==
          Unplaced(rings[ringIndex][(i - k) % n]).(isActive := false)
      ensures m[ringIndex][i].positionIndex == i
    {
      ShiftedAt(rings[ringIndex], k, i);
      assert m[ringIndex] == MarkRing(Shifted(rings[ringIndex], k), ringIndex, keys);
      assert m[ringIndex][i] == Shifted(rings[ringIndex], k)[i].(isActive := (ringIndex, i) in keys);
    }
    forall r, i | 0 <= r < |m| && r != ringIndex && 0 <= i < |m[r]|
      ensures m[r][i].(isActive := false) == rings[r][i].(isActive := false)
    {
      assert m[r] == MarkRing(rings[r], r, keys);
    }
  }

  /** An accepted rotation spends exactly one move, ticks the shield down and keeps lock, level and budget. */
  lemma AcceptedRotationSpendsOneMove(s: ReactorState, ringIndex: int, steps: int)
    requires Valid(s) && RotationAccepted(s, ringIndex, steps)
    ensures var t := RotateSteps(s, ringIndex, steps);
      t.movesRemaining == s.movesRemaining - 1 && 0 <= t.movesRemaining < s.maxMoves &&
      t.thermalShieldMovesLeft == Max(0, s.thermalShieldMovesLeft - 1) &&
      t.lockedRingIndex == s.lockedRingIndex && t.level == s.level && t.maxMoves == s.maxMoves
  {
  }


  /** An accepted rotation keeps the state invariant: gauges in range, rings well formed, moves in budget. */
  lemma RotationPreservesValid(s: ReactorState, ringIndex: int, steps: int)
    requires Valid(s)
    ensures Valid(RotateSteps(s, ringIndex, steps))
  {
    if RotationAccepted(s, ringIndex, steps) {
      var board := ShiftedBoard(s, ringIndex, steps);
      ShiftKeepsWellFormed(s.rings, ringIndex, NormalizedSteps(steps, |s.rings[ringIndex]|));
      AcceptedRotationMarks(s, ringIndex, steps);
      MarkKeepsWellFormed(board, SegmentPositions(Flatten(Matches(board))));
    }
  }

  /** Shifting one ring renumbers it, so every segment still knows its own ring and slot. */
  lemma ShiftKeepsWellFormed(rings: seq<seq<Segment>>, ringIndex: int, k: int)
    requires WellFormed(rings) && 0 <= ringIndex < |rings| && 0 <= k <= |rings[ringIndex]|
    ensures WellFormed(rings[ringIndex := Shifted(rings[ringIndex], k)])
  {
    var shifted: seq<seq<Segment>> := rings[ringIndex := Shifted(rings[ringIndex], k)];
    forall r, i | 0 <= r < |shifted| && 0 <= i < |shifted[r]|
      ensures shifted[r][i].ringIndex == r && shifted[r][i].positionIndex == i
    {
      if r == ringIndex {
        ShiftedAt(rings[ringIndex], k, i);
      }
    }
  }

  /** Setting the active flags touches nothing else, so a well-formed board stays well formed. */
  lemma MarkKeepsWellFormed(rings: seq<seq<Segment>>, keys: set<(int, int)>)
    requires WellFormed(rings)
    ensures WellFormed(MarkActive(rings, keys))
  {
    var m: seq<seq<Segment>> := MarkActive(rings, keys);
    forall r, i | 0 <= r < |m| && 0 <= i < |m[r]|
      ensures m[r][i].ringIndex == r && m[r][i].positionIndex == i
    {
      assert m[r] == MarkRing(rings[r], r, keys);
    }
  }

  /**
   * Score after a rotation: the old score plus the pass's score, doubled when
   * the pulse was pending. It never decreases, and it grows exactly when
   * something matched.
   */
  lemma RotationScore(s: ReactorState, ringIndex: int, steps: int)
    requires Valid(s) && RotationAccepted(s, ringIndex, steps)
    ensures var ms := Matches(ShiftedBoard(s, ringIndex, steps));
      var t := RotateSteps(s, ringIndex, steps);
      t.score == s.score + (if s.nextMatchDouble then 2 else 1) * MatchScore(ms, 1) &&
      (t.score > s.score <==> ms != []) &&
      t.score >= s.score
  {
    var rings: seq<seq<Segment>> := ShiftedBoard(s, ringIndex, steps);
    RotationPreservesValid(s, ringIndex, steps);
    ShiftKeepsWellFormed(s.rings, ringIndex, NormalizedSteps(steps, |s.rings[ringIndex]|));
    var ms := Matches(rings);
    MatchesSound(rings);
    DoubledPassScoresTwice(ms);
    PassScoresIffMatched(ms, 1);
  }

  /** Without any rotation, score is untouched; with one, the score never goes down. */
  lemma ScoreNeverDecreases(s: ReactorState, ringIndex: int, steps: int)
    requires Valid(s)
    ensures RotateSteps(s, ringIndex, steps).score >= s.score
  {
    if RotationAccepted(s, ringIndex, steps) {
      RotationScore(s, ringIndex, steps);
    }
  }

  /** The pending double is consumed exactly when the rotation produces a match. */
  lemma PulseConsumedByMatch(s: ReactorState, ringIndex: int, steps: int)
    requires Valid(s) && RotationAccepted(s, ringIndex, steps)
    ensures RotateSteps(s, ringIndex, steps).nextMatchDouble ==
      (s.nextMatchDouble && Matches(ShiftedBoard(s, ringIndex, steps)) == [])
  {
  }

  /**
   * After a rotation a segment is active exactly when its (ring, slot) is the
   * (ring, slot) of a segment of some match; with no match, none is active.
   */
  lemma ActiveExactlyWhenMatched(s: ReactorState, ringIndex: int, steps: int, r: int, i: int)
    requires Valid(s) && RotationAccepted(s, ringIndex, steps)
    requires 0 <= r < |s.rings| && 0 <= i < |s.rings[r]|
    ensures var ms := Matches(ShiftedBoard(s, ringIndex, steps));
      var t := RotateSteps(s, ringIndex, steps);
      (t.rings[r][i].isActive <==>
        exists m, x :: m in ms && x in m.segments && x.ringIndex == r && x.positionIndex == i) &&
      (ms == [] ==> !t.rings[r][i].isActive)
  {
    var ms := Matches(ShiftedBoard(s, ringIndex, steps));
    var t := RotateSteps(s, ringIndex, steps);
    if t.rings[r][i].isActive {
      var x :| x in Flatten(ms) && (x.ringIndex, x.positionIndex) == (r, i);
      InFlatten(ms, x);
    }
    if exists m, x :: m in ms && x in m.segments && x.ringIndex == r && x.positionIndex == i {
      var m, x :| m in ms && x in m.segments && x.ringIndex == r && x.positionIndex == i;
      InFlatten(ms, x);
    }
  }

  /**
   * Gauges after a rotation: match effects then drift. Energy never falls,
   * and temperature gains nothing from matches when the shield had at least
   * two moves left. The shield is ticked down before matches are resolved, so
   * with one move left the matches of that rotation already heat.
   */
  lemma RotationGauges(s: ReactorState, ringIndex: int, steps: int)
    requires Valid(s) && RotationAccepted(s, ringIndex, steps)
    ensures var ms := Matches(ShiftedBoard(s, ringIndex, steps));
      var t := RotateSteps(s, ringIndex, steps);
      t.gauges == Drift(ApplyMatches(s.gauges, ms, s.thermalShieldMovesLeft >= 2), s.level) &&
      t.gauges.energy >= s.gauges.energy &&
      (s.thermalShieldMovesLeft >= 2 ==>
        t.gauges.temperature == Max(0, s.gauges.temperature - CoolingRate(s.level)))
  {
  }

  /**
   * Matches clamp temperature at 1.0 and the drift then always cools by at
   * least 0.02, so an accepted rotation can never leave the reactor exploded.
   */
  lemma RotationNeverExplodes(s: ReactorState, ringIndex: int, steps: int)
    requires Valid(s) && RotationAccepted(s, ringIndex, steps)
    ensures RotateSteps(s, ringIndex, steps).gauges.temperature <= Full - 2
    ensures !HasExploded(RotateSteps(s, ringIndex, steps))
  {
    RotationGauges(s, ringIndex, steps);
  }

  /** Turning a ring by `count - 1` steps and then by 1 step restores its order (clockwise then anticlockwise). */
  lemma ClockwiseThenAnticlockwise(ring: seq<Segment>)
    requires |ring| > 1 && Contiguous(ring)
    ensures Shifted(Shifted(ring, NormalizedSteps(|ring| - 1, |ring|)), NormalizedSteps(1, |ring|)) == ring
  {
    var n := |ring|;
    NormalizedStepsIsResidue(n - 1, n);
    NormalizedStepsIsResidue(1, n);
    ModSmall(n - 1, n);
    ModSmall(1, n);
    assert NormalizedSteps(n - 1, n) == n - 1 && NormalizedSteps(1, n) == n - (n - 1);
    ShiftRoundTrip(ring, n - 1);
  }
}
