/**
 * The progress store: the last completed story level, the best score per
 * level and the best endless score. The persisted key-value store becomes
 * plain fields of a `ProgressService` object; what each query and update
 * computes is stated on the value `ProgressState` first.
 */
module Progress {
  import opened Boosters

  /** The number of story levels. */
  const LevelCount := 100

  /** What the store holds; a level missing from `highScores` was never completed. */
  datatype ProgressState = ProgressState(lastCompletedLevel: int, highScores: map<int, int>, endlessBestScore: int)

  /** An empty store reads 0 for every integer key and an empty score dictionary. */
  const EmptyProgress := ProgressState(0, map[], 0)

  /** What every sequence of saves keeps: nothing is negative. */
  predicate ValidProgress(s: ProgressState) {
    && s.lastCompletedLevel >= 0
    && s.endlessBestScore >= 0
    && forall l :: l in s.highScores ==> s.highScores[l] >= 0
  }

  function Max(a: int, b: int): (m: int)
    ensures m >= a && m >= b && (m == a || m == b)
  {
    if a >= b then a else b
  }

  /** `highestUnlockedLevel`: one past the last completed level, capped at the last story level. */
  function HighestUnlockedLevel(s: ProgressState): (n: int)
    ensures n <= LevelCount && n <= s.lastCompletedLevel + 1
    ensures n == LevelCount || n == s.lastCompletedLevel + 1
  {
    if s.lastCompletedLevel + 1 <= LevelCount then s.lastCompletedLevel + 1 else LevelCount
  }

  /** `nextLevelToPlay`: the level "Continue" starts, the same bound as the highest unlocked level. */
  function NextLevelToPlay(s: ProgressState): (n: int)
    ensures n <= LevelCount && n <= s.lastCompletedLevel + 1
    ensures n == LevelCount || n == s.lastCompletedLevel + 1
  {
    var candidate := s.lastCompletedLevel + 1;
    if candidate < LevelCount then candidate else LevelCount
  }

  /**
   * `isLevelUnlocked`: level 1 and below always, level `n` once level `n - 1`
   * is completed. Within the story levels this agrees with the highest
   * unlocked level: a level is unlocked exactly when it is at most that one.
   */
  function IsLevelUnlocked(s: ProgressState, level: int): (b: bool)
    ensures level <= 1 ==> b
    ensures ValidProgress(s) && level <= LevelCount ==> (b <==> level <= HighestUnlockedLevel(s))
  {
    level <= 1 || s.lastCompletedLevel >= level - 1
  }

  /** `highScore(forLevel:)`: the stored best, or 0 for a level never completed. */
  function HighScore(s: ProgressState, level: int): (r: int)
    ensures level in s.highScores ==> r == s.highScores[level]
    ensures level !in s.highScores ==> r == 0
    ensures ValidProgress(s) ==> r >= 0
  {
    if level in s.highScores then s.highScores[level] else 0
  }

  /** `saveLevelComplete(level:score:)` on the stored values. */
  function WithLevelComplete(s: ProgressState, level: int, score: int): (r: ProgressState)
    ensures r.endlessBestScore == s.endlessBestScore
    ensures level in r.highScores
  {
    var last := if level > s.lastCompletedLevel then level else s.lastCompletedLevel;
    var prev := if level in s.highScores then s.highScores[level] else 0;
    s.(lastCompletedLevel := last, highScores := s.highScores[level := Max(prev, score)])
  }

  /** `saveEndlessScore`: the endless best only ever rises. */
  function WithEndlessScore(s: ProgressState, score: int): (r: ProgressState)
    ensures r.lastCompletedLevel == s.lastCompletedLevel && r.highScores == s.highScores
  {
    if score > s.endlessBestScore then s.(endlessBestScore := score) else s
  }

  /** Both queries name the same level. */
  lemma NextLevelIsHighestUnlocked(s: ProgressState)
    ensures NextLevelToPlay(s) == HighestUnlockedLevel(s)
  {
  }

  /** The level the player continues with is always unlocked. */
  lemma NextLevelIsUnlocked(s: ProgressState)
    requires ValidProgress(s)
    ensures 1 <= NextLevelToPlay(s) <= LevelCount
    ensures IsLevelUnlocked(s, NextLevelToPlay(s))
  {
  }

  /** Completing a level never lowers the last completed level, and records at least this one. */
  lemma LevelCompleteRaisesLast(s: ProgressState, level: int, score: int)
    ensures WithLevelComplete(s, level, score).lastCompletedLevel == Max(s.lastCompletedLevel, level)
  {
  }

  /** That level's best becomes the larger of the old best and the new score; every other level keeps its best. */
  lemma LevelCompleteHighScores(s: ProgressState, level: int, score: int, other: int)
    ensures HighScore(WithLevelComplete(s, level, score), level) == Max(HighScore(s, level), score)
    ensures other != level ==> HighScore(WithLevelComplete(s, level, score), other) == HighScore(s, other)
  {
  }

  /** Completing a level keeps every unlocked level unlocked and unlocks the next one. */
  lemma LevelCompleteUnlocks(s: ProgressState, level: int, score: int, n: int)
    ensures IsLevelUnlocked(s, n) ==> IsLevelUnlocked(WithLevelComplete(s, level, score), n)
    ensures IsLevelUnlocked(WithLevelComplete(s, level, score), level + 1)
  {
  }

  /** Saving the same completion twice is the same as saving it once. */
  lemma LevelCompleteIdempotent(s: ProgressState, level: int, score: int)
    ensures WithLevelComplete(WithLevelComplete(s, level, score), level, score) == WithLevelComplete(s, level, score)
  {
    var once := WithLevelComplete(s, level, score);
    assert once.highScores[level := Max(once.highScores[level], score)] == once.highScores;
  }

  /** The endless best becomes the larger of the old best and the new score. */
  lemma EndlessScoreIsMax(s: ProgressState, score: int)
    ensures WithEndlessScore(s, score).endlessBestScore == Max(s.endlessBestScore, score)
  {
  }

  /** Neither save can make a stored value negative. */
  lemma SavesPreserveValid(s: ProgressState, level: int, score: int)
    requires ValidProgress(s)
    ensures ValidProgress(WithLevelComplete(s, level, score))
    ensures ValidProgress(WithEndlessScore(s, score))
  {
  }

  /** The persisted store, as an object whose saves update it in place. */
  class ProgressService {
    var lastCompletedLevel: int
    var highScores: map<int, int>
    var endlessBestScore: int

    function Snapshot(): ProgressState
      reads this
    {
      ProgressState(lastCompletedLevel, highScores, endlessBestScore)
    }

    ghost predicate Valid()
      reads this
    {
      ValidProgress(Snapshot())
    }

    /** A store with nothing saved yet. */
    constructor ()
      ensures Snapshot() == EmptyProgress
      ensures Valid()
    {
      lastCompletedLevel := 0;
      highScores := map[];
      endlessBestScore := 0;
    }

    /** `saveLevelComplete(level:score:)`. */
    method SaveLevelComplete(level: int, score: int)
      modifies this
      ensures Snapshot() == WithLevelComplete(old(Snapshot()), level, score)
      ensures old(Valid()) ==> Valid()
    {
      ghost var s0 := Snapshot();
      if level > lastCompletedLevel {
        lastCompletedLevel := level;
      }
      var dict := highScores;
      var prev := if level in dict then dict[level] else 0;
      dict := dict[level := Max(prev, score)];
      highScores := dict;
      if ValidProgress(s0) {
        SavesPreserveValid(s0, level, score);
      }
    }

    /** `saveEndlessScore`. */
    method SaveEndlessScore(score: int)
      modifies this
      ensures Snapshot() == WithEndlessScore(old(Snapshot()), score)
      ensures old(Valid()) ==> Valid()
    {
      if score > endlessBestScore {
        endlessBestScore := score;
      }
    }
  }

  /** Three of every booster type. */
  const DefaultCounts: map<BoosterType, int> :=
    map[ThermalShield := 3, EnergyPulse := 3, Stabilizer := 3, Recalibration := 3]

  /** `defaultBoosterCounts`: every booster type, each with a stock of three. */
  method DefaultBoosterCounts() returns (d: map<BoosterType, int>)
    ensures forall t: BoosterType :: t in d && d[t] == 3
    ensures d == DefaultCounts
  {
    d := map[];
    for i := 0 to |AllBoosterTypes|
      invariant forall t :: t in d <==> t in AllBoosterTypes[..i]
      invariant forall t :: t in d ==> d[t] == 3
    {
      d := d[AllBoosterTypes[i] := 3];
    }
    assert AllBoosterTypes[..|AllBoosterTypes|] == AllBoosterTypes;
    forall t: BoosterType
      ensures t in d
    {
      match t {
        case ThermalShield => assert t == AllBoosterTypes[0];
        case EnergyPulse => assert t == AllBoosterTypes[1];
        case Stabilizer => assert t == AllBoosterTypes[2];
        case Recalibration => assert t == AllBoosterTypes[3];
      }
    }
  }
}
