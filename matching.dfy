/**
 * Match detection (`checkForMatches`, 77ChromaCore/Models/ReactorCore.swift),
 * stated as functions of the board. Two scans, in this order:
 *  - radial: 24 angular samples; sample `k` looks at slot `k * count / 24` of
 *    each ring and reports a match when the three segments share a colour;
 *  - ring-local: on each ring, from every start slot, the circular run of the
 *    start's colour (at most the whole ring) is reported when it is 3 or longer.
 * Nothing is deduplicated: one physical run is reported once per start slot
 * inside it, and radial samples that land on the same slots repeat.
 */
module Matching {
  import opened Energy
  import opened Segments
  import opened Config
  import opened Generator

  /** Number of angular samples of the radial scan. */
  const Resolution: nat := 24

  /** The slot of a ring with `count` segments that radial sample `radial` looks at. */
  function RadialSlot(radial: int, count: int): (p: int)
    requires 0 <= radial < Resolution && count > 0
    ensures 0 <= p < count
    ensures p == radial * count / Resolution
  {
    SlotBelowCount(radial, count);
    (radial * count / Resolution) % count
  }

  /** The slot before reduction already lies inside the ring, so the final `% count` changes nothing. */
  lemma SlotBelowCount(radial: int, count: int)
    requires 0 <= radial < Resolution && count > 0
    ensures 0 <= radial * count / Resolution < count
    ensures (radial * count / Resolution) % count == radial * count / Resolution
  {
    var x := radial * count;
    if radial > 0 {
      MulAtLeast(count, radial);
    }
    MulAtLeast(count, Resolution - radial);
    assert x + count * (Resolution - radial) == Resolution * count;
    ModOfShift(x / Resolution, 0, count);
  }

  /** The three segments radial sample `radial` looks at, inner ring first. */
  function RadialSamples(rings: seq<seq<Segment>>, radial: int): (samples: seq<Segment>)
    requires Shaped(rings) && 0 <= radial < Resolution
    ensures |samples| == |RingCounts|
    ensures forall r :: 0 <= r < |samples| ==> samples[r] == rings[r][RadialSlot(radial, RingCounts[r])]
  {
    seq(|RingCounts|, r requires 0 <= r < |RingCounts| => rings[r][RadialSlot(radial, RingCounts[r])])
  }

  /** The match three samples make when they share a colour. */
  function SameColourMatch(s: seq<Segment>): seq<EnergyMatch>
    requires |s| == 3
  {
    if s[0].energyType == s[1].energyType && s[1].energyType == s[2].energyType
    then [EnergyMatch(s[0].energyType, s, [0, 1, 2], 0)]
    else []
  }

  /** The match radial sample `radial` reports, if any: all three samples of one colour. */
  function RadialMatch(rings: seq<seq<Segment>>, radial: int): seq<EnergyMatch>
    requires Shaped(rings) && 0 <= radial < Resolution
  {
    SameColourMatch(RadialSamples(rings, radial))
  }

  /** Radial matches of samples `0 .. n-1`, in sample order. */
  function RadialMatchesUpTo(rings: seq<seq<Segment>>, n: nat): seq<EnergyMatch>
    requires Shaped(rings) && n <= Resolution
  {
    if n == 0 then [] else RadialMatchesUpTo(rings, n - 1) + RadialMatch(rings, n - 1)
  }

  /** The segments of `segs` of colour `t`, in order (one bucket of the `byType` dictionary). */
  function OfType(segs: seq<Segment>, t: EnergyType): (r: seq<Segment>)
    ensures |r| <= |segs|
    ensures forall i :: 0 <= i < |r| ==> r[i].energyType == t
    ensures |r| == |segs| <==> forall i :: 0 <= i < |segs| ==> segs[i].energyType == t
    ensures |r| == |segs| ==> r == segs
  {
    if segs == [] then []
    else
      var last := segs[|segs| - 1];
      OfType(segs[..|segs| - 1], t) + (if last.energyType == t then [last] else [])
  }

  /** The segment `j` slots after `start`, wrapping round the ring. */
  function Wrap(ring: seq<Segment>, start: int, j: nat): Segment
    requires 0 <= start < |ring|
  {
    ring[(start + j) % |ring|]
  }

  /** The radial matches the `byType` buckets yield when visited in the order of `types`. */
  function BucketMatches(byType: map<EnergyType, seq<Segment>>, types: seq<EnergyType>): seq<EnergyMatch>
    requires forall t :: t in byType
  {
    if types == [] then []
    else
      var t := types[|types| - 1];
      BucketMatches(byType, types[..|types| - 1]) + FullBucket(byType[t], t)
  }

  /** The three empty buckets the radial scan starts from. */
  lemma EmptyBuckets(byType: map<EnergyType, seq<Segment>>)
    requires byType == map[Stable := [], Critical := [], Balancing := []]
    ensures forall t :: t in byType && byType[t] == []
  {
    forall t: EnergyType ensures t in byType && byType[t] == [] {
      match t
      case Stable =>
      case Critical =>
      case Balancing =>
    }
  }

  /** The match a single bucket of colour `t` yields: one when it holds three or more segments. */
  function FullBucket(bucket: seq<Segment>, t: EnergyType): seq<EnergyMatch>
  {
    if |bucket| >= 3 then [EnergyMatch(t, bucket, [0, 1, 2], 0)] else []
  }

  lemma BucketMatchesOfAll(byType: map<EnergyType, seq<Segment>>)
    requires forall t :: t in byType
    ensures BucketMatches(byType, AllEnergyTypes) ==
      FullBucket(byType[Stable], Stable) + FullBucket(byType[Critical], Critical) +
      FullBucket(byType[Balancing], Balancing)
  {
    assert [Stable, Critical, Balancing][..2] == [Stable, Critical];
    assert [Stable, Critical][..1] == [Stable];
    assert [Stable][..0] == [];
    assert BucketMatches(byType, [Stable]) == FullBucket(byType[Stable], Stable);
    assert BucketMatches(byType, [Stable, Critical]) ==
      FullBucket(byType[Stable], Stable) + FullBucket(byType[Critical], Critical);
  }

  /** When all three samples have colour `t`, their bucket of `t` is full and holds all three. */
  lemma FullBucketWhenAll(s: seq<Segment>, t: EnergyType)
    requires |s| == 3 && s[0].energyType == t && s[1].energyType == t && s[2].energyType == t
    ensures FullBucket(OfType(s, t), t) == [EnergyMatch(t, s, [0, 1, 2], 0)]
  {
    assert forall i :: 0 <= i < |s| ==> s[i].energyType == t;
  }

  /** When some sample has another colour, the bucket of `t` over three samples is not full. */
  lemma EmptyBucketUnlessAll(s: seq<Segment>, t: EnergyType)
    requires |s| == 3 && !(s[0].energyType == t && s[1].energyType == t && s[2].energyType == t)
    ensures FullBucket(OfType(s, t), t) == []
  {
  }

  /** Of the three colour buckets over three samples, the full ones give exactly their same-colour match. */
  lemma ThreeBucketsGiveSameColourMatch(s: seq<Segment>)
    requires |s| == 3
    ensures FullBucket(OfType(s, Stable), Stable) + FullBucket(OfType(s, Critical), Critical) +
            FullBucket(OfType(s, Balancing), Balancing) == SameColourMatch(s)
  {
    var c := s[0].energyType;
    if c == s[1].energyType && s[1].energyType == s[2].energyType {
      match c {
        case Stable =>
          FullBucketWhenAll(s, Stable); EmptyBucketUnlessAll(s, Critical); EmptyBucketUnlessAll(s, Balancing);
        case Critical =>
          EmptyBucketUnlessAll(s, Stable); FullBucketWhenAll(s, Critical); EmptyBucketUnlessAll(s, Balancing);
        case Balancing =>
          EmptyBucketUnlessAll(s, Stable); EmptyBucketUnlessAll(s, Critical); FullBucketWhenAll(s, Balancing);
      }
    } else {
      EmptyBucketUnlessAll(s, Stable);
      EmptyBucketUnlessAll(s, Critical);
      EmptyBucketUnlessAll(s, Balancing);
    }
  }

  /** Sorting three samples into buckets and keeping the full ones yields their same-colour match. */
  lemma BucketsGiveRadialMatch(s: seq<Segment>, byType: map<EnergyType, seq<Segment>>)
    requires |s| == 3
    requires forall t :: t in byType && byType[t] == OfType(s, t)
    ensures BucketMatches(byType, AllEnergyTypes) == SameColourMatch(s)
  {
    BucketMatchesOfAll(byType);
    assert byType[Stable] == OfType(s, Stable);
    assert byType[Critical] == OfType(s, Critical);
    assert byType[Balancing] == OfType(s, Balancing);
    ThreeBucketsGiveSameColourMatch(s);
  }

  /** `len` consecutive segments of `ring` from `start`, wrapping round. */
  function Line(ring: seq<Segment>, start: int, len: nat): (line: seq<Segment>)
    requires 0 <= start < |ring|
    ensures |line| == len
    ensures forall j :: 0 <= j < len ==> line[j] == Wrap(ring, start, j)
  {
    seq(len, j requires 0 <= j < len => Wrap(ring, start, j))
  }

  /**
   * Length of the circular run of `ring[start]`'s colour, given that its first
   * `k` segments are known to share it: the run is maximal and capped at the
   * ring's length.
   */
  function RunLength(ring: seq<Segment>, start: int, k: nat): (len: nat)
    requires 0 <= start < |ring| && 1 <= k <= |ring|
    requires forall j: nat :: j < k ==> Wrap(ring, start, j).energyType == ring[start].energyType
    ensures k <= len <= |ring|
    ensures forall j: nat :: j < len ==> Wrap(ring, start, j).energyType == ring[start].energyType
    ensures len < |ring| ==> Wrap(ring, start, len).energyType != ring[start].energyType
    decreases |ring| - k
  {
    if k < |ring| && Wrap(ring, start, k).energyType == ring[start].energyType
    then RunLength(ring, start, k + 1)
    else k
  }

  /** The run starting at `start`. */
  function RunAt(ring: seq<Segment>, start: int): (len: nat)
    requires 0 <= start < |ring|
    ensures 1 <= len <= |ring|
  {
    assert Wrap(ring, start, 0) == ring[start];
    RunLength(ring, start, 1)
  }

  /** The match the ring-local scan reports from `start` on ring number `r`, if any. */
  function RunMatch(ring: seq<Segment>, r: int, start: int): seq<EnergyMatch>
    requires 0 <= start < |ring|
  {
    var len := RunAt(ring, start);
    if len >= 3 then [EnergyMatch(ring[start].energyType, Line(ring, start, len), [r], 0)] else []
  }

  /** Ring-local matches of ring number `r` for start slots `0 .. n-1`. */
  function RingMatchesUpTo(ring: seq<Segment>, r: int, n: nat): seq<EnergyMatch>
    requires n <= |ring|
  {
    if n == 0 then [] else RingMatchesUpTo(ring, r, n - 1) + RunMatch(ring, r, n - 1)
  }

  /** Ring-local matches of rings `0 .. k-1`. */
  function LocalMatchesUpTo(rings: seq<seq<Segment>>, k: nat): seq<EnergyMatch>
    requires k <= |rings|
  {
    if k == 0 then []
    else LocalMatchesUpTo(rings, k - 1) + RingMatchesUpTo(rings[k - 1], k - 1, |rings[k - 1]|)
  }

  /** Everything one detection pass reports, in discovery order. */
  function Matches(rings: seq<seq<Segment>>): (ms: seq<EnergyMatch>)
    requires Shaped(rings)
    ensures forall m :: m in ms ==> Uniform(m)
  {
    RadialMatchesUniform(rings, Resolution);
    LocalMatchesUniform(rings, |rings|);
    RadialMatchesUpTo(rings, Resolution) + LocalMatchesUpTo(rings, |rings|)
  }

  /** A reported match: at least three segments, all of the match's colour. */
  predicate Uniform(m: EnergyMatch)
  {
    |m.segments| >= 3 && forall i :: 0 <= i < |m.segments| ==> m.segments[i].energyType == m.energyType
  }

  lemma {:induction false} RadialMatchesUniform(rings: seq<seq<Segment>>, n: nat)
    requires Shaped(rings) && n <= Resolution
    ensures forall m :: m in RadialMatchesUpTo(rings, n) ==> Uniform(m)
  {
    if n > 0 {
      RadialMatchesUniform(rings, n - 1);
    }
  }

  lemma {:induction false} RingMatchesUniform(ring: seq<Segment>, r: int, n: nat)
    requires n <= |ring|
    ensures forall m :: m in RingMatchesUpTo(ring, r, n) ==> Uniform(m)
  {
    if n > 0 {
      RingMatchesUniform(ring, r, n - 1);
      RunMatchUniform(ring, r, n - 1);
    }
  }

  lemma RunMatchUniform(ring: seq<Segment>, r: int, start: int)
    requires 0 <= start < |ring|
    ensures forall m :: m in RunMatch(ring, r, start) ==> Uniform(m)
  {
    var len := RunAt(ring, start);
    assert len == RunLength(ring, start, 1);
    var line := Line(ring, start, len);
    forall i | 0 <= i < len ensures line[i].energyType == ring[start].energyType {
      assert line[i] == Wrap(ring, start, i);
    }
  }

  lemma {:induction false} LocalMatchesUniform(rings: seq<seq<Segment>>, k: nat)
    requires k <= |rings|
    ensures forall m :: m in LocalMatchesUpTo(rings, k) ==> Uniform(m)
  {
    if k > 0 {
      LocalMatchesUniform(rings, k - 1);
      RingMatchesUniform(rings[k - 1], k - 1, |rings[k - 1]|);
    }
  }

  /**
   * A reported match is sound: it has at least three segments, all of the
   * match's colour, and each is the board's segment at its own ring and slot.
   */
  predicate SoundMatch(rings: seq<seq<Segment>>, m: EnergyMatch)
  {
    |m.segments| >= 3 &&
    forall s :: s in m.segments ==>
      s.energyType == m.energyType &&
      0 <= s.ringIndex < |rings| && 0 <= s.positionIndex < |rings[s.ringIndex]| &&
      rings[s.ringIndex][s.positionIndex] == s
  }

  lemma {:induction false} RadialMatchesSound(rings: seq<seq<Segment>>, n: nat)
    requires WellFormed(rings) && n <= Resolution
    ensures forall m :: m in RadialMatchesUpTo(rings, n) ==> SoundMatch(rings, m)
  {
    if n > 0 {
      RadialMatchesSound(rings, n - 1);
      var s := RadialSamples(rings, n - 1);
      forall m | m in RadialMatch(rings, n - 1) ensures SoundMatch(rings, m) {
        forall x | x in m.segments
          ensures x.energyType == m.energyType
          ensures 0 <= x.ringIndex < |rings| && 0 <= x.positionIndex < |rings[x.ringIndex]|
          ensures rings[x.ringIndex][x.positionIndex] == x
        {
          var r :| 0 <= r < 3 && s[r] == x;
          assert x == rings[r][RadialSlot(n - 1, RingCounts[r])];
        }
      }
    }
  }

  lemma {:induction false} RingMatchesSound(rings: seq<seq<Segment>>, r: nat, n: nat)
    requires WellFormed(rings) && r < |rings| && n <= |rings[r]|
    ensures forall m :: m in RingMatchesUpTo(rings[r], r, n) ==> SoundMatch(rings, m)
  {
    if n > 0 {
      RingMatchesSound(rings, r, n - 1);
      var ring := rings[r];
      var start := n - 1;
      forall m | m in RunMatch(ring, r, start) ensures SoundMatch(rings, m) {
        var len := RunAt(ring, start);
        forall x | x in m.segments
          ensures x.energyType == m.energyType
          ensures 0 <= x.ringIndex < |rings| && 0 <= x.positionIndex < |rings[x.ringIndex]|
          ensures rings[x.ringIndex][x.positionIndex] == x
        {
          var j :| 0 <= j < len && Line(ring, start, len)[j] == x;
          assert x == ring[(start + j) % |ring|];
          assert 0 <= (start + j) % |ring| < |ring|;
        }
      }
    }
  }

  lemma {:induction false} LocalMatchesSound(rings: seq<seq<Segment>>, k: nat)
    requires WellFormed(rings) && k <= |rings|
    ensures forall m :: m in LocalMatchesUpTo(rings, k) ==> SoundMatch(rings, m)
  {
    if k > 0 {
      LocalMatchesSound(rings, k - 1);
      RingMatchesSound(rings, k - 1, |rings[k - 1]|);
    }
  }

  /** Every match of a detection pass is sound (in particular, carries its segments' colour). */
  lemma MatchesSound(rings: seq<seq<Segment>>)
    requires WellFormed(rings)
    ensures forall m :: m in Matches(rings) ==> SoundMatch(rings, m)
  {
    RadialMatchesSound(rings, Resolution);
    LocalMatchesSound(rings, |rings|);
  }

  /** Radial sample `radial` reports a match exactly when its three slots share one colour. */
  lemma RadialMatchAtSample(rings: seq<seq<Segment>>, radial: int)
    requires Shaped(rings) && 0 <= radial < Resolution
    ensures var s := RadialSamples(rings, radial);
      |RadialMatch(rings, radial)| <= 1 &&
      (RadialMatch(rings, radial) != [] <==>
        s[0].energyType == s[1].energyType && s[1].energyType == s[2].energyType)
  {
  }

  /** On a ring of one colour every start slot sees the whole ring as its run. */
  lemma UniformRingRunIsWholeRing(ring: seq<Segment>, start: int)
    requires 0 <= start < |ring|
    requires forall i :: 0 <= i < |ring| ==> ring[i].energyType == ring[start].energyType
    ensures RunAt(ring, start) == |ring|
  {
  }
}
