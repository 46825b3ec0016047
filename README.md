# ChromaCore reactor, modelled in Dafny

ChromaCore is a puzzle game about a reactor core made of three concentric rings.
The rings hold 4, 8 and 12 coloured energy segments. There are three colours:

- **stable** (green) cools the core;
- **critical** (red) heats it;
- **balancing** (orange) steadies it.

Each move turns one ring by a single slot and costs one move.

After every turn the reactor looks for matches:

- a *radial* match is one colour on all three rings along one of 24 angular samples;
- a *ring* match is a run of three or more segments of one colour, wrapping round a ring.

Each matched segment adds to the score. It also adds to the energy gauge and moves the temperature and stability gauges. Each match in the pass weighs more than the previous one, and an armed energy pulse doubles the whole pass.

After the matches, the core cools a little and its stability drifts back towards zero.

A level is complete when all three gauges are inside that level's window at the same time. The game ends if the core overheats or the moves run out. Four boosters change the rules for a while:

- **thermal shield** stops matches from heating the core;
- **energy pulse** doubles the next scoring pass;
- **stabilizer** locks a ring so it cannot turn;
- **recalibration** recolours a ring.

A progress store records:

- the last completed story level;
- the best score of each level;
- the best endless score.

There are three modes: story levels 1 to 100, endless, and a daily challenge.

The project models the reactor (`ReactorCore`), its colours and segments, the game controller (`GameViewModel`) and the progress store (`ProgressService`):

- **Pure definitions are datatypes and functions:** energy types, segments, level tables, the colour bias, match detection and gauge effects.
- **Objects whose fields the game updates are classes:**
  - `Reactor.ReactorCore`, `GameViewModels.GameViewModel` and `Progress.ProgressService` hold the source's fields.
  - Each method is proved to leave `Snapshot()` equal to a specification function of the old snapshot.
  - Those functions live in `ReactorSpec`, `GameViewModels` and `Progress`. The game's promises are proved as lemmas about them.
- **Gauges are integers in hundredths.** 1.0 is 100, and a heat effect of 0.3 is 30.
- **Randomness comes in as parameters:**
  - a new board takes 24 unit draws in [0, 1), one per segment in ring order;
  - recalibration takes the colours it draws, one per slot.

  The seeded linear congruential generator is modelled exactly: one step is a 64-bit wrapping multiply-add. It is proved invertible, so different seeds give different output streams.

Some properties of the code are worth knowing. Each one is proved in the model.

- **The thermal shield is ticked down before the matches of a rotation are resolved.**
  - So a shield armed for 3 moves (`ShieldMoves`) blocks the heat of only two rotations' matches.
  - This contradicts the booster's description of "the next 3 moves" at 77ChromaCore/Models/BoosterType.swift:54.
  - `ReactorSpec.RotationGauges` states what the code does.
- **A rotation can never make the reactor explode.**
  - Matches cap the temperature at 1.0, and cooling then takes off at least 0.02.
  - So `hasExploded` is false after every `rotateRingSteps` (`ReactorSpec.RotationNeverExplodes`).
  - The controller's explosion screen is therefore unreachable from a rotation (`GameViewModels.RotateNeverShowsExplosion`).
- **A fresh board of levels 1 to 12 already meets its completion window**, at energy 0.4 and temperature 0.4 (`ReactorSpec.FreshEarlyLevelIsComplete`). The first rotation that leaves the gauges in the window ends the level.
- **`nextLevel` does not change the controller's mode.**
  - In a story game started as `.level(l)`, every later `nextLevel` builds level `l + 1` again.
  - Outside the story it builds level 1 with 99 moves, in daily mode too.
  - `restartLevel` in daily mode gives 25 moves, so a restart right after `nextLevel` has a different budget in daily mode (`GameViewModels.RestartAfterNextLevel`).
- **The stabilizer is a free toggle when the selected ring is already locked.** It locks whatever index is selected, even one that names no ring (`GameViewModels.StabilizerToggles`).
  - Unlocking costs nothing but still needs a stabilizer in stock: `useBooster` returns at once when the count is 0.
  - So once the last stabilizer is spent on a lock, that ring stays locked for the rest of the level (`GameViewModels.BoosterWithoutStockIsNoOp`).
- **The radial scan can report the same match more than once.** Neighbouring samples that see the same three slots each report it. The ring scan reports a ring of one colour once per start slot. Scores count every report, as the code does.
- **The order of the radial buckets does not matter.** The colour buckets of the radial scan are visited in Swift dictionary order, which is unspecified. The model visits them in declaration order. Three samples fill at most one bucket, so the order cannot change the result (`Matching.ThreeBucketsGiveSameColourMatch`).
- **`init` takes a `level` argument separate from the mode.** For a story mode the move budget comes from the mode's level, but the reactor is built on `level`. The model keeps both.

## Model

| member | source | states |
|---|---|---|
| Energy.EnergyValue | 77ChromaCore/Models/EnergyType.swift:21-27 | energy weight is 1..3; it is 3 exactly for critical and 1 exactly for stable |
| Energy.HeatEffect | 77ChromaCore/Models/EnergyType.swift:29-35 | heat per segment lies in [-0.1, 0.3]; it is positive exactly for critical and negative exactly for stable |
| Energy.StabilityEffect | 77ChromaCore/Models/EnergyType.swift:37-43 | stability change lies in [-0.1, 0.15]; it is negative exactly for critical, and any positive effect is at least 0.05 |
| Energy.AllEnergyTypesComplete | 77ChromaCore/Models/EnergyType.swift:8-11 | `allCases` lists every colour, has three entries and has no repeats |
| Energy.CriticalHasLargestEnergyValue | 77ChromaCore/Models/EnergyType.swift:21-27 | critical's energy value is strictly larger than every other colour's |
| Segments.NewSegment | 77ChromaCore/Models/ReactorSegment.swift:15-21 | the initialiser stores each argument in its field |
| Segments.NewSegmentInactiveByDefault | 77ChromaCore/Models/ReactorSegment.swift:15 | a segment built without `isActive` is inactive |
| Modes.ExactlyOneMode | 77ChromaCore/ViewModels/GameViewModel.swift:31-33 | exactly one of `isEndless`, `isDaily` and `isStoryLevel` holds for every mode |
| Config.RingOffset | 77ChromaCore/Models/ReactorCore.swift:9-14 | ring 0 starts at slot 0 of board order and each later ring right after the one before it (so at 4 and 12); each ring fits within the 24 segments |
| Generator.LcgStep | 77ChromaCore/Models/ReactorCore.swift:98-101 | one generator step maps a 64-bit state to a 64-bit state |
| Generator.LcgStepBack | 77ChromaCore/Models/ReactorCore.swift:98-101 | the backward step stays within 64 bits |
| Generator.LcgStepInvertible | 77ChromaCore/Models/ReactorCore.swift:98-101 | stepping back after a step restores the state, because the multiplier is odd |
| Generator.LcgStepInjective | 77ChromaCore/Models/ReactorCore.swift:98-101 | two states give the same next state if and only if they are equal |
| Generator.SeedState | 77ChromaCore/Models/ReactorCore.swift:59-63 | `UInt64(bitPattern:)` of a seed: the seed itself when non-negative, otherwise the seed plus 2^64 |
| Generator.SeedStateRoundTrip | 77ChromaCore/Models/ReactorCore.swift:59-63 | reading the bit pattern back as signed gives the original seed |
| Generator.SeededRandomNumberGenerator.constructor | 77ChromaCore/Models/ReactorCore.swift:97 | the state is the seed |
| Generator.SeededRandomNumberGenerator.Next | 77ChromaCore/Models/ReactorCore.swift:98-101 | `next()` advances the state by one step and returns the new state |
| Generator.SeededOutputs | 77ChromaCore/Models/ReactorCore.swift:59-63 | output 0 is one step from the seed's state, and each later output is one step from the one before |
| Generator.SeededOutputsDetermineSeed | 77ChromaCore/Models/ReactorCore.swift:59-63 | two seeds give equal output streams if and only if they are equal |
| Generator.ColorBiasForLevel | 77ChromaCore/Models/ReactorCore.swift:79-86 | the three probabilities are positive and sum to 1; on levels 1-5 critical is less likely than stable |
| Generator.StableShareShrinksWithLevel | 77ChromaCore/Models/ReactorCore.swift:79-86 | from level 1 up, a later level never has a larger stable probability |
| Generator.RandomEnergyType | 77ChromaCore/Models/ReactorCore.swift:88-93 | a draw below the stable share gives stable, one below stable plus critical gives critical, and anything else gives balancing (each as an iff) |
| Generator.CreateInitialRings | 77ChromaCore/Models/ReactorCore.swift:57-76 | the board is well formed: ring sizes 4/8/12, each segment knows its ring and slot, and it is inactive; each slot's colour is `RandomEnergyType` of its own draw |
| Generator.InitialRing | 77ChromaCore/Models/ReactorCore.swift:66-75 | ring `r` has the configured size, and slot `i` takes the colour of draw `offset(r) + i` |
| Generator.InitialIdsDistinct | 77ChromaCore/Models/ReactorSegment.swift:9 | every segment of a new board has a distinct id |
| Matching.RadialSlot | 77ChromaCore/Models/ReactorCore.swift:143 | the sampled slot is `radial * count / 24` and lies inside the ring |
| Matching.SlotBelowCount | 77ChromaCore/Models/ReactorCore.swift:143 | `radial * count / 24` already lies in [0, count), so the final `% count` leaves it unchanged |
| Matching.RadialSamples | 77ChromaCore/Models/ReactorCore.swift:141-146 | sample `r` is ring `r`'s segment at its radial slot |
| Matching.OfType | 77ChromaCore/Models/ReactorCore.swift:140-146 | a bucket holds only its colour and is at most as long as the samples; it holds all of them if and only if they are all that colour |
| Matching.FullBucketWhenAll | 77ChromaCore/Models/ReactorCore.swift:147-149 | three samples of one colour report exactly one match of that colour, holding all three samples |
| Matching.EmptyBucketUnlessAll | 77ChromaCore/Models/ReactorCore.swift:147-149 | a colour that some sample lacks reports nothing |
| Matching.ThreeBucketsGiveSameColourMatch | 77ChromaCore/Models/ReactorCore.swift:139-150 | the three buckets together report the same-colour match of the samples, whatever order they are visited in |
| Matching.BucketsGiveRadialMatch | 77ChromaCore/Models/ReactorCore.swift:139-150 | sorting three samples into buckets and keeping the full ones gives their same-colour match |
| Matching.Line | 77ChromaCore/Models/ReactorCore.swift:155-161 | a line of length `len` from `start` holds the segments that follow `start` round the ring |
| Matching.RunLength | 77ChromaCore/Models/ReactorCore.swift:155-161 | the run is maximal: every segment in it has the start's colour, and the next one (if the run is not the whole ring) does not |
| Matching.RunAt | 77ChromaCore/Models/ReactorCore.swift:152-161 | every start has a run of 1 up to the ring's size |
| Matching.RadialMatchesSound | 77ChromaCore/Models/ReactorCore.swift:139-150 | each radial match holds only board segments of its own colour, at their own ring and slot |
| Matching.RingMatchesSound | 77ChromaCore/Models/ReactorCore.swift:151-166 | the same for the ring matches of one ring |
| Matching.LocalMatchesSound | 77ChromaCore/Models/ReactorCore.swift:151-166 | the same for the ring matches of all rings |
| Matching.MatchesSound | 77ChromaCore/Models/ReactorCore.swift:135-168 | every match of a detection pass is sound |
| Matching.RadialMatchAtSample | 77ChromaCore/Models/ReactorCore.swift:139-150 | a radial sample reports a match if and only if its three slots share a colour |
| Matching.UniformRingRunIsWholeRing | 77ChromaCore/Models/ReactorCore.swift:155-161 | on a ring of one colour, every start's run is the whole ring |
| Matching.Matches | 77ChromaCore/Models/ReactorCore.swift:135-168 | every match of a detection pass has at least three segments, all of the match's colour (for any board of the right shape) |
| Matching.RadialMatchesUniform | 77ChromaCore/Models/ReactorCore.swift:139-150 | the radial matches have at least three segments of their own colour |
| Matching.RunMatchUniform | 77ChromaCore/Models/ReactorCore.swift:152-162 | the match reported from one start is a run of at least three segments of the start's colour |
| Matching.RingMatchesUniform | 77ChromaCore/Models/ReactorCore.swift:151-166 | the same for the ring matches of one ring |
| Matching.LocalMatchesUniform | 77ChromaCore/Models/ReactorCore.swift:151-166 | the same for the ring matches of all rings |
| Effects.ApplySegment | 77ChromaCore/Models/ReactorCore.swift:176-183 | energy rises by 0.05 per unit of energy value, capped at 1; temperature is clamped to [0, 1] and untouched under the shield; stability is clamped to [-1, 1]; the gauge ranges are kept |
| Effects.ApplyRepeated | 77ChromaCore/Models/ReactorCore.swift:176-183 | a match's segments keep the ranges, never lower energy, and leave temperature alone under the shield |
| Effects.ApplyMatches | 77ChromaCore/Models/ReactorCore.swift:175-185 | the same for a whole pass |
| Effects.MatchScore | 77ChromaCore/Models/ReactorCore.swift:175-185 | a pass never scores negative |
| Effects.DoubledPassScoresTwice | 77ChromaCore/Models/ReactorCore.swift:173-180 | the pulse doubles every match of the pass: the doubled score is twice the plain one |
| Effects.PassScoresIffMatched | 77ChromaCore/Models/ReactorCore.swift:175-185 | a pass scores something if and only if it has a match |
| Effects.CoolingRate | 77ChromaCore/Models/ReactorCore.swift:31 | cooling is 0.03 up to level 15 and 0.02 after that |
| Effects.Drift | 77ChromaCore/Models/ReactorCore.swift:217-221 | temperature falls by the cooling rate down to 0; stability moves 0.01 towards 0 without changing sign; energy is unchanged; the ranges are kept |
| ReactorSpec.MovesForLevel | 77ChromaCore/Models/ReactorCore.swift:48-55 | moves lie between 25 and 40; levels below 1 or above 30 get 25 |
| ReactorSpec.MovesNonIncreasing | 77ChromaCore/Models/ReactorCore.swift:48-55 | a later level never gets more moves |
| ReactorSpec.InitialState | 77ChromaCore/Models/ReactorCore.swift:34-45 | a new reactor is valid; its moves equal the budget (the override, else `movesForLevel`); its score is 0; its gauges are 0.4 / 0.4 / 0; it has no shield, pulse or lock |
| ReactorSpec.SwiftRemainder | 77ChromaCore/Models/ReactorCore.swift:116 | Swift's `%` truncates towards zero: the remainder has the dividend's sign |
| ReactorSpec.NormalizedSteps | 77ChromaCore/Models/ReactorCore.swift:116 | the normalised shift lies in [0, count) |
| ReactorSpec.NormalizedStepsIsResidue | 77ChromaCore/Models/ReactorCore.swift:116 | the normalisation equals the mathematical residue, including for negative steps |
| ReactorSpec.Renumber | 77ChromaCore/Models/ReactorCore.swift:125-127 | each slot's `positionIndex` becomes its own index, and nothing else changes |
| ReactorSpec.Shifted | 77ChromaCore/Models/ReactorCore.swift:121-127 | the shifted ring keeps its length |
| ReactorSpec.ShiftedAt | 77ChromaCore/Models/ReactorCore.swift:121-127 | slot `i` after a shift by `k` holds old slot `(i - k) mod count`, renumbered |
| ReactorSpec.ShiftedIsPermutation | 77ChromaCore/Models/ReactorCore.swift:121-128 | a shift is a permutation: the multiset of segments, slot numbers aside, is unchanged |
| ReactorSpec.ShiftRoundTrip | 77ChromaCore/Models/ReactorCore.swift:121-128 | shifting by `k` and then by `count - k` restores the ring |
| ReactorSpec.ShiftRoundTripAt | 77ChromaCore/Models/ReactorCore.swift:121-128 | slot by slot: shifting by `k` and then by `count - k` puts each segment back at its slot |
| ReactorSpec.MarkRing | 77ChromaCore/Models/ReactorCore.swift:200-215 | each flag is set if and only if the segment's (ring, slot) key is given; nothing else changes |
| ReactorSpec.MarkActive | 77ChromaCore/Models/ReactorCore.swift:200-215 | the whole board is marked ring by ring |
| ReactorSpec.InFlatten | 77ChromaCore/Models/ReactorCore.swift:187-188 | a segment is in the flattened list if and only if it belongs to one of the matches |
| ReactorSpec.ShiftedBoard | 77ChromaCore/Models/ReactorCore.swift:119-128 | the board an accepted rotation hands to detection keeps the ring sizes |
| ReactorSpec.Resolve | 77ChromaCore/Models/ReactorCore.swift:170-191 | match resolution changes only score, gauges, pulse and flags; the score never falls, the ring count is kept, the gauge ranges are kept, and the pulse is never armed by it |
| ReactorSpec.UpdateReactorState | 77ChromaCore/Models/ReactorCore.swift:217-221 | drift changes only the gauges; energy is kept; within range, temperature never rises and stability never moves away from 0 |
| ReactorSpec.RotateSteps | 77ChromaCore/Models/ReactorCore.swift:111-133 | a move is spent if and only if every guard passes, and otherwise nothing changes; level, budget and lock are kept; the score never falls |
| ReactorSpec.RotateByAngle | 77ChromaCore/Models/ReactorCore.swift:104-109 | a move is spent if and only if the ring exists and moves are left, and otherwise nothing changes; the rings, score and lock are never touched |
| ReactorSpec.Recalibrate | 77ChromaCore/Models/ReactorCore.swift:193-198 | only the rings change, and every ring but the chosen one is kept |
| ReactorSpec.IsEnergyCritical | 77ChromaCore/Models/ReactorCore.swift:223 | the energy warning (energy below 0.2) rules out completing the level, in every band |
| ReactorSpec.IsOverheating | 77ChromaCore/Models/ReactorCore.swift:224 | the temperature warning (above 0.8) rules out completing any level from 6 on |
| ReactorSpec.IsDestabilized | 77ChromaCore/Models/ReactorCore.swift:225 | the stability warning (absolute stability above 0.8) rules out completing the level, in every band |
| ReactorSpec.HasExploded | 77ChromaCore/Models/ReactorCore.swift:224-226 | an exploded core (temperature at 1.0) also shows the overheating warning and never counts as complete |
| ReactorSpec.IsLevelComplete | 77ChromaCore/Models/ReactorCore.swift:228-240 | a complete level has energy at least 0.35, temperature below 0.85 and absolute stability below 0.75, whatever its band |
| ReactorSpec.RecalibrateOnlyRecolours | 77ChromaCore/Models/ReactorCore.swift:193-198 | recalibration keeps the state valid and changes only the rings; each segment keeps everything but its colour, which becomes the drawn one for its slot |
| ReactorSpec.CompletionThresholds | 77ChromaCore/Models/ReactorCore.swift:229-240 | every band's window lies within 0.35-0.5 for energy, 0.7-0.85 for temperature and 0.6-0.75 for stability |
| ReactorSpec.ThresholdsTighten | 77ChromaCore/Models/ReactorCore.swift:229-240 | a later level's window is never easier in any gauge |
| ReactorSpec.FreshEarlyLevelIsComplete | 77ChromaCore/Models/ReactorCore.swift:229-236 | on levels 1-12 the initial state is already complete |
| ReactorSpec.RejectedRotationIsNoOp | 77ChromaCore/Models/ReactorCore.swift:112-117 | a rotation stopped by a guard changes nothing: bad ring, no moves, locked ring, or zero net steps |
| ReactorSpec.FullTurnIsNoOp | 77ChromaCore/Models/ReactorCore.swift:116-117 | rotating by any multiple of the ring's size changes nothing and spends no move |
| ReactorSpec.AcceptedRotationShifts | 77ChromaCore/Models/ReactorCore.swift:119-128 | an accepted rotation right-shifts that ring by the normalised steps and renumbers it; the other rings keep their order; only active flags may differ |
| ReactorSpec.ShiftThenMark | 77ChromaCore/Models/ReactorCore.swift:119-128 | on the board: marking active flags after shifting one ring keeps the shift and leaves the other rings unchanged, flags aside |
| ReactorSpec.AcceptedRotationMarks | 77ChromaCore/Models/ReactorCore.swift:119-132 | after an accepted rotation the board is the shifted board with exactly the matched segments marked active |
| ReactorSpec.ShiftKeepsWellFormed | 77ChromaCore/Models/ReactorCore.swift:121-127 | renumbering after a shift keeps every segment at its own ring and slot |
| ReactorSpec.MarkKeepsWellFormed | 77ChromaCore/Models/ReactorCore.swift:200-215 | setting active flags keeps every segment at its own ring and slot |
| ReactorSpec.AcceptedRotationSpendsOneMove | 77ChromaCore/Models/ReactorCore.swift:118-129 | an accepted rotation spends exactly one move and ticks the shield down (not below 0); lock, level and budget are kept |
| ReactorSpec.RotationPreservesValid | 77ChromaCore/Models/ReactorCore.swift:111-133 | every rotation keeps the gauges in range, the board well formed and the moves within budget |
| ReactorSpec.RotationScore | 77ChromaCore/Models/ReactorCore.swift:170-185 | the new score is the old score plus the pass's score, doubled if the pulse was armed; it grows if and only if something matched |
| ReactorSpec.ScoreNeverDecreases | 77ChromaCore/Models/ReactorCore.swift:111-133 | no rotation, accepted or not, lowers the score |
| ReactorSpec.PulseConsumedByMatch | 77ChromaCore/Models/ReactorCore.swift:173-174 | an armed pulse stays armed if and only if the rotation matched nothing |
| ReactorSpec.ActiveExactlyWhenMatched | 77ChromaCore/Models/ReactorCore.swift:186-190 | after a rotation a segment is active if and only if some match holds a segment at its ring and slot; with no match, none is active |
| ReactorSpec.RotationGauges | 77ChromaCore/Models/ReactorCore.swift:118-132 | the gauges are the match effects followed by drift; energy never falls; with two or more shield moves left, temperature only cools |
| ReactorSpec.RotationNeverExplodes | 77ChromaCore/Models/ReactorCore.swift:217-226 | after an accepted rotation the temperature is at most 0.98, so the reactor has not exploded |
| ReactorSpec.ClockwiseThenAnticlockwise | 77ChromaCore/ViewModels/GameViewModel.swift:56-57 | a clockwise turn (`count - 1` steps) followed by an anticlockwise one (1 step) restores the ring |
| Reactor.ReactorCore.constructor | 77ChromaCore/Models/ReactorCore.swift:34-45 | the new object's state is `InitialState`, and it records its seed |
| Reactor.ReactorCore.RotateRingByAngle | 77ChromaCore/Models/ReactorCore.swift:104-109 | when the ring and a move exist: turns the display angle, spends a move and drifts (the lock is not consulted); the state stays valid |
| Reactor.ReactorCore.RotateRingSteps | 77ChromaCore/Models/ReactorCore.swift:111-133 | the new state is `RotateSteps` of the old, so every lemma above applies; the state stays valid |
| Reactor.ReactorCore.ShiftAndSpendMove | 77ChromaCore/Models/ReactorCore.swift:119-129 | the shield tick, the ring shift and the spent move, in place |
| Reactor.ReactorCore.CheckForMatches | 77ChromaCore/Models/ReactorCore.swift:135-168 | returns `Matches(rings)`: radial matches by sample, then ring matches by ring and start |
| Reactor.ReactorCore.ProcessMatches | 77ChromaCore/Models/ReactorCore.swift:170-191 | the new state is `Resolve` of the old: scored, gauges updated, pulse consumed, flags set |
| Reactor.ReactorCore.ScoreMatches | 77ChromaCore/Models/ReactorCore.swift:175-185 | the scoring loop adds `MatchScore` and applies `ApplyMatches` |
| Reactor.ReactorCore.ScoreMatch | 77ChromaCore/Models/ReactorCore.swift:176-183 | one match adds its points per segment and applies its gauge effects |
| Reactor.ReactorCore.RecalibrateRing | 77ChromaCore/Models/ReactorCore.swift:193-198 | the new state is `Recalibrate` of the old (a no-op for a ring that does not exist) |
| Reactor.ReactorCore.SetActiveSegments | 77ChromaCore/Models/ReactorCore.swift:200-207 | each flag is set if and only if its key is among the given segments' keys; nothing else changes |
| Reactor.ReactorCore.ClearActiveSegments | 77ChromaCore/Models/ReactorCore.swift:209-215 | every flag is off; nothing else changes |
| Reactor.ReactorCore.UpdateReactorState | 77ChromaCore/Models/ReactorCore.swift:217-221 | the gauges drift as `Drift` states; nothing else changes |
| Reactor.RadialScan | 77ChromaCore/Models/ReactorCore.swift:140-149 | one radial sample's loop returns that sample's same-colour match |
| Reactor.SortIntoBuckets | 77ChromaCore/Models/ReactorCore.swift:140-146 | each colour's bucket is that colour's samples, in ring order |
| Reactor.FullBuckets | 77ChromaCore/Models/ReactorCore.swift:147-149 | the full buckets are reported in colour order |
| Reactor.RadialScanAll | 77ChromaCore/Models/ReactorCore.swift:139-150 | all 24 samples' matches, in sample order |
| Reactor.RingScan | 77ChromaCore/Models/ReactorCore.swift:152-165 | one ring's run matches, in start order |
| Reactor.RunFrom | 77ChromaCore/Models/ReactorCore.swift:154-161 | the line built from `start` is the maximal run of the start's colour |
| Reactor.LocalScanAll | 77ChromaCore/Models/ReactorCore.swift:151-166 | every ring's run matches, inner ring first |
| Reactor.ShiftRing | 77ChromaCore/Models/ReactorCore.swift:121-127 | suffix moved to the front and renumbered equals `Shifted` |
| Progress.HighestUnlockedLevel | 77ChromaCore/Services/ProgressService.swift:35-37 | one past the last completed level, capped at 100 |
| Progress.NextLevelToPlay | 77ChromaCore/Services/ProgressService.swift:25-27 | one past the last completed level, capped at 100 |
| Progress.NextLevelIsHighestUnlocked | 77ChromaCore/Services/ProgressService.swift:25-37 | both queries name the same level |
| Progress.IsLevelUnlocked | 77ChromaCore/Services/ProgressService.swift:29-37 | level 1 and below are always unlocked; within the story levels a level is unlocked if and only if it is at most the highest unlocked level |
| Progress.NextLevelIsUnlocked | 77ChromaCore/Services/ProgressService.swift:25-32 | the level to continue with lies in 1..100 and is unlocked |
| Progress.HighScore | 77ChromaCore/Services/ProgressService.swift:39-42 | the stored best, or 0 for a level never completed |
| Progress.WithLevelComplete | 77ChromaCore/Services/ProgressService.swift:44-52 | completing a level records a best score for it and keeps the endless best |
| Progress.WithEndlessScore | 77ChromaCore/Services/ProgressService.swift:59-63 | saving an endless score touches neither the levels nor their scores |
| Progress.LevelCompleteRaisesLast | 77ChromaCore/Services/ProgressService.swift:44-47 | the last completed level becomes the larger of the old one and this level |
| Progress.LevelCompleteHighScores | 77ChromaCore/Services/ProgressService.swift:48-51 | this level's best becomes the larger of the old best and the new score; every other level keeps its best |
| Progress.LevelCompleteUnlocks | 77ChromaCore/Services/ProgressService.swift:30-52 | completing a level keeps unlocked levels unlocked and unlocks the next level |
| Progress.LevelCompleteIdempotent | 77ChromaCore/Services/ProgressService.swift:44-52 | saving the same completion twice is the same as saving it once |
| Progress.EndlessScoreIsMax | 77ChromaCore/Services/ProgressService.swift:59-63 | the endless best becomes the larger of the old best and the score |
| Progress.SavesPreserveValid | 77ChromaCore/Services/ProgressService.swift:44-63 | neither save makes a stored value negative |
| Progress.ProgressService.constructor | 77ChromaCore/Services/ProgressService.swift:19-22 | an empty store: no level completed, no scores, endless best 0 |
| Progress.ProgressService.SaveLevelComplete | 77ChromaCore/Services/ProgressService.swift:44-52 | the store becomes `WithLevelComplete` of the old and stays valid |
| Progress.ProgressService.SaveEndlessScore | 77ChromaCore/Services/ProgressService.swift:59-63 | the store becomes `WithEndlessScore` of the old and stays valid |
| Progress.DefaultBoosterCounts | 77ChromaCore/Services/ProgressService.swift:95-101 | every booster type is present with a stock of 3 |
| GameViewModels.LaunchMoves | 77ChromaCore/ViewModels/GameViewModel.swift:37-49 | the caller's count if given; otherwise 25-40 for a story level, 99 for endless and 25 for daily |
| GameViewModels.LaunchSeed | 77ChromaCore/ViewModels/GameViewModel.swift:38-49 | a seed exists if and only if the mode is daily, and then it is the day's seed |
| GameViewModels.RestartMoves | 77ChromaCore/ViewModels/GameViewModel.swift:133 | no override if and only if story mode; 99 for endless, 25 for daily |
| GameViewModels.NextLevelNumber | 77ChromaCore/ViewModels/GameViewModel.swift:121-125 | the mode's level plus one in story mode, otherwise 1 |
| GameViewModels.NextLevelMoves | 77ChromaCore/ViewModels/GameViewModel.swift:121-125 | no override if and only if story mode, otherwise 99 |
| GameViewModels.RestartRebuildsLaunch | 77ChromaCore/ViewModels/GameViewModel.swift:35-52 | restarting rebuilds the launch state from the same draws |
| GameViewModels.RestartAfterNextLevel | 77ChromaCore/ViewModels/GameViewModel.swift:119-137 | restart after `nextLevel` rebuilds the same game, except in daily mode, where the budgets are 25 and 99 |
| GameViewModels.OutcomeOf | 77ChromaCore/ViewModels/GameViewModel.swift:59-74 | explosion first, then level complete, then out of moves, each as an iff |
| GameViewModels.Rotate | 77ChromaCore/ViewModels/GameViewModel.swift:54-75 | a blocked rotate changes nothing; otherwise stock, selection, alert, level, budget and lock are kept, at most one move is spent and the score never falls |
| GameViewModels.RaiseFlag | 77ChromaCore/ViewModels/GameViewModel.swift:59-74 | only the flags change; flags already up stay up; a newly raised flag is the outcome's own; any ending raises some flag and an ongoing game none |
| GameViewModels.RecordOutcome | 77ChromaCore/ViewModels/GameViewModel.swift:59-74 | saving never lowers the last completed level, the endless best or any level's best; a daily or ongoing game writes nothing |
| GameViewModels.BlockedRotateIsNoOp | 77ChromaCore/ViewModels/GameViewModel.swift:55 | once exploded or out of moves, a rotate changes neither the controller nor the store |
| GameViewModels.RotateRaisesAtMostOneFlag | 77ChromaCore/ViewModels/GameViewModel.swift:59-74 | from any flags, a rotate newly raises at most one flag, and only the one the reactor's new state justifies (explosion, else completion, else no moves left); flags already up stay up |
| GameViewModels.RotatePreservesValid | 77ChromaCore/ViewModels/GameViewModel.swift:54-75 | a rotate keeps the reactor valid and leaves stock and selection alone |
| GameViewModels.RotateNeverShowsExplosion | 77ChromaCore/ViewModels/GameViewModel.swift:59-62 | from a valid, unexploded reactor, a rotate never shows the explosion |
| GameViewModels.RecordOutcomeEffects | 77ChromaCore/ViewModels/GameViewModel.swift:59-74 | the last level moves only on a completed story level; the endless best changes only at an endless ending; daily games and ongoing games write nothing |
| GameViewModels.BoosterWithoutStockIsNoOp | 77ChromaCore/ViewModels/GameViewModel.swift:82 | without stock a booster changes nothing |
| GameViewModels.ApplyBooster | 77ChromaCore/ViewModels/GameViewModel.swift:81-113 | the stock keeps its booster types; each reactor field changes only under its own booster (rings under recalibration, shield, pulse, lock), nothing else in the reactor changes, and the alert is raised only by a ring booster with no ring selected |
| GameViewModels.BoosterCostsAtMostOne | 77ChromaCore/ViewModels/GameViewModel.swift:81-113 | a booster costs at most one of its own kind and none of any other |
| GameViewModels.BoosterKeepsSelectionAndFlags | 77ChromaCore/ViewModels/GameViewModel.swift:81-113 | a booster never changes the selected ring or the end-of-game flags |
| GameViewModels.BoosterCountsStayNonNegative | 77ChromaCore/ViewModels/GameViewModel.swift:81-113 | stock never goes negative |
| GameViewModels.ShieldBooster | 77ChromaCore/ViewModels/GameViewModel.swift:84-87 | with shield stock, the shield arms 3 moves and costs exactly one shield; nothing else changes |
| GameViewModels.PulseBooster | 77ChromaCore/ViewModels/GameViewModel.swift:88-91 | with pulse stock, the pulse arms the double and costs exactly one pulse; nothing else changes |
| GameViewModels.StabilizerLocks | 77ChromaCore/ViewModels/GameViewModel.swift:92-103 | with stabilizer stock and a selected ring that is not the locked one, the lock moves to that ring and costs exactly one stabilizer; nothing else changes |
| GameViewModels.RecalibrationBooster | 77ChromaCore/ViewModels/GameViewModel.swift:104-111 | with recalibration stock and a selected ring, that ring is recoloured with the drawn colours and exactly one recalibration is spent; nothing else changes |
| GameViewModels.TargetlessBoosterOnlyAlerts | 77ChromaCore/ViewModels/GameViewModel.swift:92-111 | stabilizer or recalibration with no selected ring only raises the alert, at no cost |
| GameViewModels.StabilizerToggles | 77ChromaCore/ViewModels/GameViewModel.swift:92-103 | locking costs one and unlocking is free, so two uses restore the lock for a cost of one |
| GameViewModels.BoosterPreservesValid | 77ChromaCore/ViewModels/GameViewModel.swift:81-113 | every booster keeps the reactor valid |
| GameViewModels.GameViewModel.constructor | 77ChromaCore/ViewModels/GameViewModel.swift:35-52 | a fresh reactor on `level` with the mode's budget and seed; no flags raised; default stock |
| GameViewModels.GameViewModel.RotateRing | 77ChromaCore/ViewModels/GameViewModel.swift:54-75 | the controller becomes `Rotate` of the old and the store becomes `RotateProgress`; the reactor object is kept |
| GameViewModels.GameViewModel.ReportOutcome | 77ChromaCore/ViewModels/GameViewModel.swift:59-74 | raises the outcome's flag and saves what the mode records |
| GameViewModels.GameViewModel.SelectRing | 77ChromaCore/ViewModels/GameViewModel.swift:77-79 | only the selection changes |
| GameViewModels.GameViewModel.UseBooster | 77ChromaCore/ViewModels/GameViewModel.swift:81-113 | the controller becomes `ApplyBooster` of the old and stays valid |
| GameViewModels.GameViewModel.DismissBoosterAlert | 77ChromaCore/ViewModels/GameViewModel.swift:115-117 | only the alert is cleared |
| GameViewModels.GameViewModel.NextLevel | 77ChromaCore/ViewModels/GameViewModel.swift:119-127 | a fresh reactor for `NextLevelNumber` with `NextLevelMoves` and no seed; level-complete off; default stock; everything else kept |
| GameViewModels.GameViewModel.RestartLevel | 77ChromaCore/ViewModels/GameViewModel.swift:129-137 | a fresh reactor on the same level with the mode's restart budget and seed; explosion and out-of-moves off; default stock |

## Left out

- **Screens:** the SwiftUI views, the theme and colours, `objectWillChange`, and every display string (colour names, booster names, icons, descriptions, hints). `NeedsTargetRing` keeps only the split that `usageHint` draws.
- **Pause:** `isPaused` and `togglePause` only change a flag that no modelled operation reads.
- **The daily challenge's date work:** `dailySeed`, `dailyScoreAndDate` and `saveDailyScore`. They depend on the clock and `DateFormatter`. The day's seed is an input (`dailySeed`), and daily results are not recorded in the model.
- **Persistence in `UserDefaults`:**
  - The store's values are fields of `ProgressService`.
  - Its constructor models an empty store.
  - The shared singleton is passed to the controller as an object.
- **Random sources:** `Double.random`, `SystemRandomNumberGenerator` and `randomElement`. A board's 24 draws and a recalibration's colours are parameters. The seeded generator is modelled on its own (`Generator.SeededRandomNumberGenerator`). The mapping from a seed to the unit draws goes through `Double.random(in:using:)`, whose algorithm belongs to the Swift library and is not part of this model.
- **Segment ids:** `UUID`s are natural numbers, distinct across a new board, and match ids are left out.
- **Floating point:** gauges and effects are exact hundredths, with no rounding. The colour bias and the draws are exact reals.
- **Integer width:** `Int` overflow of the score and move counters is not modelled (integers are unbounded). The generator's 64-bit wrap is modelled.
- **Default arguments:** callers always supply every argument.
- GameViewModels.GameViewModel.RotateRing and GameViewModels.Rotate require a ring index that names a ring, even when the game is already over.
  - `rotateRing` returns before reading the ring when the reactor has exploded or has no moves left (77ChromaCore/ViewModels/GameViewModel.swift:55), so the code accepts any index in that case.
  - With moves left, it reads the ring's size unchecked, so a bad index is a crash there.
  - Every caller passes a ring picked on screen, 0, 1 or 2 (77ChromaCore/Views/ReactorRingsView.swift:137-146, 77ChromaCore/Views/GameView.swift:228-238), so the model does not cover other indices.
