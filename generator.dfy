/**
 * Board generation (77ChromaCore/Models/ReactorCore.swift): the seeded
 * 64-bit linear-congruential generator, the level-banded colour bias and the
 * threshold draw that turns a unit draw into a colour.
 *
 * The conversion of generator output to a unit `Double` (`Double.random(in:using:)`)
 * and the system generator are not part of this model: the unit draws are inputs.
 */
module Generator {
  import opened Energy
  import opened Segments
  import opened Config

  const TwoTo64: int := 0x1_0000_0000_0000_0000
  const TwoTo63: int := 0x8000_0000_0000_0000
  const LcgMultiplier: nat := 6364136223846793005
  const LcgIncrement: nat := 1442695040888963407
  /** The multiplicative inverse of `LcgMultiplier` modulo 2^64 (the multiplier is odd). */
  const LcgMultiplierInverse: nat := 13877824140714322085

  predicate IsUInt64(x: int) { 0 <= x < TwoTo64 }

  predicate IsInt64(x: int) { -TwoTo63 <= x < TwoTo63 }

  /** One step of the generator: `state &* a &+ c`, wrapping at 2^64. */
  function LcgStep(state: nat): (r: nat)
    requires IsUInt64(state)
    ensures IsUInt64(r)
  {
    (state * LcgMultiplier + LcgIncrement) % TwoTo64
  }

  /** The step taken backwards: subtract the increment, multiply by the inverse. */
  function LcgStepBack(state: nat): (r: nat)
    requires IsUInt64(state)
    ensures IsUInt64(r)
  {
    ((state - LcgIncrement) * LcgMultiplierInverse) % TwoTo64
  }

  lemma MulAtLeast(m: int, n: int)
    requires m > 0 && n >= 1
    ensures m * n >= m
  {
    assert m * n == m + m * (n - 1);
  }

  lemma ModOfShift(s: int, k: int, m: int)
    requires m > 0 && 0 <= s < m
    ensures (s + m * k) % m == s
  {
    var d := (s + m * k) / m;
    var r := (s + m * k) % m;
    assert m * d + r == s + m * k;
    assert m * (k - d) == r - s;
    if k - d >= 1 {
      MulAtLeast(m, k - d);
    } else if k - d <= -1 {
      MulAtLeast(m, d - k);
    }
  }

  /**
   * The step is a bijection on 64-bit states: stepping back undoes it, so two
   * different seeds never produce the same first output.
   */
  lemma LcgStepInvertible(state: nat)
    requires IsUInt64(state)
    ensures LcgStepBack(LcgStep(state)) == state
  {
    var m := TwoTo64;
    var x := state * LcgMultiplier + LcgIncrement;
    var q := x / m;
    var t := x % m;
    assert t == x - m * q;
    assert t - LcgIncrement == state * LcgMultiplier - m * q;
    var j := 4787856489426250814;
    assert LcgMultiplier * LcgMultiplierInverse == 1 + m * j;
    calc {
      (t - LcgIncrement) * LcgMultiplierInverse;
      (state * LcgMultiplier - m * q) * LcgMultiplierInverse;
      state * (LcgMultiplier * LcgMultiplierInverse) - m * q * LcgMultiplierInverse;
      state * (1 + m * j) - m * q * LcgMultiplierInverse;
      state + m * (state * j - q * LcgMultiplierInverse);
    }
    ModOfShift(state, state * j - q * LcgMultiplierInverse, m);
  }

  /** Stepping is deterministic and injective: equal outputs come from equal states. */
  lemma LcgStepInjective(a: nat, b: nat)
    requires IsUInt64(a) && IsUInt64(b)
    ensures LcgStep(a) == LcgStep(b) <==> a == b
  {
    if LcgStep(a) == LcgStep(b) {
      LcgStepInvertible(a);
      LcgStepInvertible(b);
    }
  }

  /** `UInt64(bitPattern: Int64(seed))`: the two's-complement bit pattern of the seed. */
  function SeedState(seed: int): (s: nat)
    requires IsInt64(seed)
    ensures IsUInt64(s)
    ensures seed >= 0 ==> s == seed
    ensures seed < 0 ==> s == seed + TwoTo64
  {
    seed % TwoTo64
  }

  /** Reading a bit pattern back as a signed 64-bit integer. */
  function SignedOf(s: nat): (x: int)
    requires IsUInt64(s)
    ensures IsInt64(x)
  {
    if s < TwoTo63 then s else s - TwoTo64
  }

  /** The seed conversion loses nothing: different seeds give different initial states. */
  lemma SeedStateRoundTrip(seed: int)
    requires IsInt64(seed)
    ensures SignedOf(SeedState(seed)) == seed
  {
  }

  /** `SeededRandomNumberGenerator`: a mutable 64-bit state advanced by `LcgStep`. */
  class SeededRandomNumberGenerator {
    var state: nat

    ghost predicate Valid()
      reads this
    {
      IsUInt64(state)
    }

    constructor (seed: nat)
      requires IsUInt64(seed)
      ensures Valid() && state == seed
    {
      state := seed;
    }

    /** `next()`: advance the state and return the new one. */
    method Next() returns (r: nat)
      requires Valid()
      modifies this
      ensures Valid()
      ensures state == LcgStep(old(state)) && r == state
    {
      state := (state * LcgMultiplier + LcgIncrement) % TwoTo64;
      r := state;
    }
  }

  /** The first `n` outputs of a generator seeded with `seed`. */
  function SeededOutputs(seed: int, n: nat): (xs: seq<nat>)
    requires IsInt64(seed)
    ensures |xs| == n
    ensures forall i :: 0 <= i < n ==> IsUInt64(xs[i])
    ensures n > 0 ==> xs[0] == LcgStep(SeedState(seed))
    ensures forall i :: 0 < i < n ==> xs[i] == LcgStep(xs[i - 1])
  {
    if n == 0 then []
    else
      var prev := SeededOutputs(seed, n - 1);
      prev + [LcgStep(if n == 1 then SeedState(seed) else prev[n - 2])]
  }

  /** Two generators seeded alike agree on their first outputs; distinct seeds already differ on the first. */
  lemma SeededOutputsDetermineSeed(a: int, b: int, n: nat)
    requires IsInt64(a) && IsInt64(b) && n > 0
    ensures SeededOutputs(a, n) == SeededOutputs(b, n) <==> a == b
  {
    if SeededOutputs(a, n) == SeededOutputs(b, n) {
      LcgStepInjective(SeedState(a), SeedState(b));
      SeedStateRoundTrip(a);
      SeedStateRoundTrip(b);
    }
  }

  /** Probabilities of drawing stable, critical and balancing. */
  datatype ColorBias = ColorBias(stable: real, critical: real, balancing: real)

  /** `colorBiasForLevel`: early levels draw more stable and fewer critical segments. */
  function ColorBiasForLevel(level: int): (b: ColorBias)
    ensures b.stable > 0.0 && b.critical > 0.0 && b.balancing > 0.0
    ensures b.stable + b.critical + b.balancing == 1.0
    ensures 1 <= level <= 5 ==> b.critical < b.stable
  {
    if 1 <= level <= 5 then ColorBias(0.50, 0.15, 0.35)
    else if 6 <= level <= 12 then ColorBias(0.40, 0.25, 0.35)
    else if 13 <= level <= 25 then ColorBias(0.35, 0.35, 0.30)
    else ColorBias(0.33, 0.34, 0.33)
  }

  /** Stable segments are never more likely on a harder level band (for levels 1 and up). */
  lemma StableShareShrinksWithLevel(a: int, b: int)
    requires 1 <= a <= b
    ensures ColorBiasForLevel(b).stable <= ColorBiasForLevel(a).stable
  {
  }

  /**
   * `randomEnergyType`, given the unit draw `u`: stable below the stable share,
   * critical in the next band of width `critical`, balancing above.
   */
  function RandomEnergyType(u: real, bias: ColorBias): (t: EnergyType)
    ensures t == Stable <==> u < bias.stable
    ensures t == Critical <==> !(u < bias.stable) && u < bias.stable + bias.critical
    ensures t == Balancing <==> !(u < bias.stable + bias.critical) && !(u < bias.stable)
  {
    if u < bias.stable then Stable
    else if u < bias.stable + bias.critical then Critical
    else Balancing
  }

  /**
   * `createInitialRings`: ring by ring, slot by slot, one draw per segment.
   * Segment ids are their board-order index.
   */
  function CreateInitialRings(draws: seq<real>, bias: ColorBias): (rings: seq<seq<Segment>>)
    requires |draws| == SegmentTotal
    ensures WellFormed(rings)
    ensures forall r, i :: 0 <= r < |rings| && 0 <= i < |rings[r]| ==>
      !rings[r][i].isActive &&
      rings[r][i].id == RingOffset(r) + i &&
      rings[r][i].energyType == RandomEnergyType(draws[RingOffset(r) + i], bias)
  {
    seq(|RingCounts|, r requires 0 <= r < |RingCounts| => InitialRing(draws, bias, r))
  }

  /** One ring of a new board: slot `i` of ring `r` takes draw `RingOffset(r) + i`. */
  function InitialRing(draws: seq<real>, bias: ColorBias, r: nat): (ring: seq<Segment>)
    requires |draws| == SegmentTotal && r < |RingCounts|
    ensures |ring| == RingCounts[r]
    ensures forall i :: 0 <= i < |ring| ==>
      ring[i] == NewSegment(RingOffset(r) + i, RandomEnergyType(draws[RingOffset(r) + i], bias), r, i)
  {
    seq(RingCounts[r], i requires 0 <= i < RingCounts[r] =>
      NewSegment(RingOffset(r) + i, RandomEnergyType(draws[RingOffset(r) + i], bias), r, i))
  }

  /** Every segment of a new board has its own id. */
  lemma InitialIdsDistinct(draws: seq<real>, bias: ColorBias, r1: nat, i1: nat, r2: nat, i2: nat)
    requires |draws| == SegmentTotal
    requires r1 < |RingCounts| && i1 < RingCounts[r1] && r2 < |RingCounts| && i2 < RingCounts[r2]
    requires (r1, i1) != (r2, i2)
    ensures CreateInitialRings(draws, bias)[r1][i1].id != CreateInitialRings(draws, bias)[r2][i2].id
  {
  }
}
