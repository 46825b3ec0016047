/**
 * `GameViewModel` (77ChromaCore/ViewModels/GameViewModel.swift): the game
 * controller between the screen and the reactor. It owns one `ReactorCore`
 * object, the booster stock and the end-of-game flags, and records results in
 * the progress store. What each command does is first stated on the value
 * `ViewState`; the class's methods are proved to follow it.
 */
module GameViewModels {
  import opened Wrappers
  import opened Energy
  import opened Segments
  import opened Config
  import opened Boosters
  import opened Modes
  import opened ReactorSpec
  import opened Reactor
  import Progress

  /** Moves granted to an endless game and to a daily challenge when no count is given. */
  const EndlessMoves := 99
  const DailyMoves := 25

  /** Rotations a thermal shield is armed for. */
  const ShieldMoves := 3

  // ---------------------------------------------------------------------------
  // Starting a game

  /** The move budget `init` hands the reactor: the caller's count, else one per mode. */
  function LaunchMoves(mode: GameMode, maxMoves: Option<int>): (moves: int)
    ensures maxMoves.Some? ==> moves == maxMoves.value
    ensures maxMoves.None? && IsStoryLevel(mode) ==> 25 <= moves <= 40
    ensures maxMoves.None? && IsEndless(mode) ==> moves == EndlessMoves
    ensures maxMoves.None? && IsDaily(mode) ==> moves == DailyMoves
  {
    match mode
    case Level(l) => maxMoves.GetOr(MovesForLevel(l))
    case Endless => maxMoves.GetOr(EndlessMoves)
    case Daily => maxMoves.GetOr(DailyMoves)
  }

  /** The seed a new board is drawn with: the day's seed in a daily challenge, none otherwise. */
  function LaunchSeed(mode: GameMode, dailySeed: int): (seed: Option<int>)
    ensures seed.Some? <==> IsDaily(mode)
    ensures seed.Some? ==> seed.value == dailySeed
  {
    if IsDaily(mode) then Some(dailySeed) else None
  }

  /** The move override `restartLevel` passes: none for a story level (its own budget), else 99 or 25. */
  function RestartMoves(mode: GameMode): (moves: Option<int>)
    ensures moves.None? <==> IsStoryLevel(mode)
    ensures IsEndless(mode) ==> moves == Some(EndlessMoves)
    ensures IsDaily(mode) ==> moves == Some(DailyMoves)
  {
    if IsStoryLevel(mode) then None else if IsEndless(mode) then Some(EndlessMoves) else Some(DailyMoves)
  }

  /** The level `nextLevel` builds: one past the mode's level, or level 1 outside the story. */
  function NextLevelNumber(mode: GameMode): (level: int)
    ensures IsStoryLevel(mode) ==> level == mode.level + 1
    ensures !IsStoryLevel(mode) ==> level == 1
  {
    match mode
    case Level(l) => l + 1
    case _ => 1
  }

  /** The move override `nextLevel` passes: none for a story level, 99 in every other mode. */
  function NextLevelMoves(mode: GameMode): (moves: Option<int>)
    ensures moves.None? <==> IsStoryLevel(mode)
    ensures moves.Some? ==> moves.value == EndlessMoves
  {
    if IsStoryLevel(mode) then None else Some(EndlessMoves)
  }

  /**
   * Restarting a game that was launched without a move override, on the
   * level its mode names, rebuilds exactly the launch state from the same draws.
   */
  lemma RestartRebuildsLaunch(mode: GameMode, level: int, draws: seq<real>)
    requires |draws| == SegmentTotal
    requires IsStoryLevel(mode) ==> level == mode.level
    ensures InitialState(level, RestartMoves(mode), draws) ==
            InitialState(level, Some(LaunchMoves(mode, None)), draws)
  {
  }

  /**
   * Restarting right after `nextLevel` rebuilds the same game in a story level
   * and in an endless game; in a daily challenge the restart budget (25) differs
   * from the one `nextLevel` gave (99).
   */
  lemma RestartAfterNextLevel(mode: GameMode, draws: seq<real>)
    requires |draws| == SegmentTotal
    ensures !IsDaily(mode) ==>
      InitialState(NextLevelNumber(mode), RestartMoves(mode), draws) ==
      InitialState(NextLevelNumber(mode), NextLevelMoves(mode), draws)
    ensures IsDaily(mode) ==>
      InitialState(NextLevelNumber(mode), RestartMoves(mode), draws).maxMoves == DailyMoves &&
      InitialState(NextLevelNumber(mode), NextLevelMoves(mode), draws).maxMoves == EndlessMoves
  {
  }

  // ---------------------------------------------------------------------------
  // The controller's state as a value

  datatype ViewState = ViewState(
    reactor: ReactorState,
    selectedRingIndex: Option<int>,
    showLevelComplete: bool,
    showExplosion: bool,
    showOutOfMoves: bool,
    boosterCounts: map<BoosterType, int>,
    showBoosterAlert: Option<BoosterType>)

  /** How a game stands after a rotation, in the order the controller checks. */
  datatype Outcome = Exploded | Completed | OutOfMoves | Playing

  /** Explosion first, then level complete, then out of moves. */
  function OutcomeOf(r: ReactorState): (o: Outcome)
    ensures o == Exploded <==> HasExploded(r)
    ensures o == Completed <==> !HasExploded(r) && IsLevelComplete(r)
    ensures o == OutOfMoves <==> !HasExploded(r) && !IsLevelComplete(r) && r.movesRemaining == 0
  {
    if HasExploded(r) then Exploded
    else if IsLevelComplete(r) then Completed
    else if r.movesRemaining == 0 then OutOfMoves
    else Playing
  }

  /** The guard of `rotateRing`: no rotation once exploded or out of moves. */
  predicate RotateBlocked(r: ReactorState) {
    HasExploded(r) || r.movesRemaining <= 0
  }

  /**
   * `rotateRing(_:clockwise:)`: clockwise is `count - 1` steps, anticlockwise
   * one; then at most one end-of-game flag is raised.
   */
  function Rotate(v: ViewState, ringIndex: int, clockwise: bool): (w: ViewState)
    requires Shaped(v.reactor.rings) && 0 <= ringIndex < |v.reactor.rings|
    ensures RotateBlocked(v.reactor) ==> w == v
    ensures w.boosterCounts == v.boosterCounts && w.selectedRingIndex == v.selectedRingIndex
    ensures w.showBoosterAlert == v.showBoosterAlert
    ensures w.reactor.level == v.reactor.level && w.reactor.maxMoves == v.reactor.maxMoves
    ensures w.reactor.lockedRingIndex == v.reactor.lockedRingIndex
    ensures w.reactor.movesRemaining == v.reactor.movesRemaining ||
            w.reactor.movesRemaining == v.reactor.movesRemaining - 1
    ensures w.reactor.score >= v.reactor.score && |w.reactor.rings| == |v.reactor.rings|
  {
    if RotateBlocked(v.reactor) then v
    else
      var count := |v.reactor.rings[ringIndex]|;
      var r := RotateSteps(v.reactor, ringIndex, if clockwise then count - 1 else 1);
      RaiseFlag(v.(reactor := r), OutcomeOf(r))
  }

  /** The end-of-game screen an outcome turns on; flags already up stay up. */
  function RaiseFlag(v: ViewState, o: Outcome): (w: ViewState)
    ensures w.(showExplosion := v.showExplosion, showLevelComplete := v.showLevelComplete,
               showOutOfMoves := v.showOutOfMoves) == v
    ensures v.showExplosion ==> w.showExplosion
    ensures v.showLevelComplete ==> w.showLevelComplete
    ensures v.showOutOfMoves ==> w.showOutOfMoves
    ensures w.showExplosion && !v.showExplosion ==> o == Exploded
    ensures w.showLevelComplete && !v.showLevelComplete ==> o == Completed
    ensures w.showOutOfMoves && !v.showOutOfMoves ==> o == OutOfMoves
    ensures o != Playing ==> w.showExplosion || w.showLevelComplete || w.showOutOfMoves
    ensures o == Playing ==> w == v
  {
    v.(showExplosion := v.showExplosion || o == Exploded,
       showLevelComplete := v.showLevelComplete || o == Completed,
       showOutOfMoves := v.showOutOfMoves || o == OutOfMoves)
  }

  /**
   * What `rotateRing` saves: a completed story level its level and score; an
   * endless game its score on every ending. Daily results are not stored here.
   */
  function RecordOutcome(p: Progress.ProgressState, mode: GameMode, o: Outcome, score: int): (r: Progress.ProgressState)
    ensures r.lastCompletedLevel >= p.lastCompletedLevel && r.endlessBestScore >= p.endlessBestScore
    ensures forall l :: l in p.highScores ==> l in r.highScores && r.highScores[l] >= p.highScores[l]
    ensures IsDaily(mode) || o == Playing ==> r == p
  {
    match o
    case Playing => p
    case Completed =>
      var p1 := if mode.Level? then Progress.WithLevelComplete(p, mode.level, score) else p;
      if IsEndless(mode) then Progress.WithEndlessScore(p1, score) else p1
    case _ => if IsEndless(mode) then Progress.WithEndlessScore(p, score) else p
  }

  /** The progress store after a rotate command. */
  function RotateProgress(p: Progress.ProgressState, mode: GameMode, v: ViewState, ringIndex: int, clockwise: bool): Progress.ProgressState
    requires Shaped(v.reactor.rings) && 0 <= ringIndex < |v.reactor.rings|
  {
    if RotateBlocked(v.reactor) then p
    else
      var r := Rotate(v, ringIndex, clockwise).reactor;
      RecordOutcome(p, mode, OutcomeOf(r), r.score)
  }

  /** Whether the colours drawn for a recalibration fit the ring it would recolour. */
  predicate ColorsFit(v: ViewState, b: BoosterType, colors: seq<EnergyType>) {
    b == Recalibration && v.selectedRingIndex.Some? && 0 <= v.selectedRingIndex.value < |v.reactor.rings|
    ==> |colors| == |v.reactor.rings[v.selectedRingIndex.value]|
  }

  /** `useBooster`: `colors` are the colours recalibration draws for the selected ring, slot by slot. */
  function ApplyBooster(v: ViewState, b: BoosterType, colors: seq<EnergyType>): (w: ViewState)
    requires ColorsFit(v, b, colors)
    ensures w.boosterCounts.Keys == v.boosterCounts.Keys
    ensures w.reactor.(rings := v.reactor.rings, thermalShieldMovesLeft := v.reactor.thermalShieldMovesLeft,
                       nextMatchDouble := v.reactor.nextMatchDouble, lockedRingIndex := v.reactor.lockedRingIndex)
            == v.reactor
    ensures w.reactor.rings != v.reactor.rings ==> b == Recalibration
    ensures w.reactor.thermalShieldMovesLeft != v.reactor.thermalShieldMovesLeft ==> b == ThermalShield
    ensures w.reactor.nextMatchDouble != v.reactor.nextMatchDouble ==> b == EnergyPulse
    ensures w.reactor.lockedRingIndex != v.reactor.lockedRingIndex ==> b == Stabilizer
    ensures w.showBoosterAlert != v.showBoosterAlert ==>
      NeedsTargetRing(b) && v.selectedRingIndex.None? && w.showBoosterAlert == Some(b)
  {
    if !(b in v.boosterCounts && v.boosterCounts[b] > 0) then v
    else
      var spent := v.boosterCounts[b := v.boosterCounts[b] - 1];
      match b
      case ThermalShield =>
        v.(reactor := v.reactor.(thermalShieldMovesLeft := ShieldMoves), boosterCounts := spent)
      case EnergyPulse =>
        v.(reactor := v.reactor.(nextMatchDouble := true), boosterCounts := spent)
      case Stabilizer =>
        if v.selectedRingIndex.None? then v.(showBoosterAlert := Some(b))
        else if v.reactor.lockedRingIndex == v.selectedRingIndex then
          v.(reactor := v.reactor.(lockedRingIndex := None))
        else
          v.(reactor := v.reactor.(lockedRingIndex := v.selectedRingIndex), boosterCounts := spent)
      case Recalibration =>
        if v.selectedRingIndex.None? then v.(showBoosterAlert := Some(b))
        else v.(reactor := Recalibrate(v.reactor, v.selectedRingIndex.value, colors), boosterCounts := spent)
  }

  // ---------------------------------------------------------------------------
  // Properties of the commands

  /** A blocked rotate changes nothing at all, the progress store included. */
  lemma BlockedRotateIsNoOp(p: Progress.ProgressState, mode: GameMode, v: ViewState, ringIndex: int, clockwise: bool)
    requires Shaped(v.reactor.rings) && 0 <= ringIndex < |v.reactor.rings|
    requires RotateBlocked(v.reactor)
    ensures Rotate(v, ringIndex, clockwise) == v
    ensures RotateProgress(p, mode, v, ringIndex, clockwise) == p
  {
  }

  /**
   * A rotate newly raises at most one end-of-game flag, and only the one the
   * reactor's new state justifies (explosion before completion before out of
   * moves); flags already up stay up.
   */
  lemma RotateRaisesAtMostOneFlag(v: ViewState, ringIndex: int, clockwise: bool)
    requires Shaped(v.reactor.rings) && 0 <= ringIndex < |v.reactor.rings|
    ensures var w := Rotate(v, ringIndex, clockwise);
      var e := w.showExplosion && !v.showExplosion;
      var c := w.showLevelComplete && !v.showLevelComplete;
      var o := w.showOutOfMoves && !v.showOutOfMoves;
      && !(e && c) && !(e && o) && !(c && o)
      && (e ==> HasExploded(w.reactor))
      && (c ==> !HasExploded(w.reactor) && IsLevelComplete(w.reactor))
      && (o ==> !HasExploded(w.reactor) && !IsLevelComplete(w.reactor) && w.reactor.movesRemaining == 0)
      && (v.showExplosion ==> w.showExplosion)
      && (v.showLevelComplete ==> w.showLevelComplete)
      && (v.showOutOfMoves ==> w.showOutOfMoves)
  {
  }

  /** A rotate keeps the reactor valid and leaves selection, stock and alert alone. */
  lemma RotatePreservesValid(v: ViewState, ringIndex: int, clockwise: bool)
    requires Valid(v.reactor) && 0 <= ringIndex < |v.reactor.rings|
    ensures Valid(Rotate(v, ringIndex, clockwise).reactor)
    ensures Rotate(v, ringIndex, clockwise).boosterCounts == v.boosterCounts
    ensures Rotate(v, ringIndex, clockwise).selectedRingIndex == v.selectedRingIndex
  {
    if !RotateBlocked(v.reactor) {
      var count := |v.reactor.rings[ringIndex]|;
      RotationPreservesValid(v.reactor, ringIndex, if clockwise then count - 1 else 1);
    }
  }

  /**
   * The explosion screen is never reached by rotating: a valid reactor that
   * has not exploded is still below the limit after any rotate.
   */
  lemma RotateNeverShowsExplosion(v: ViewState, ringIndex: int, clockwise: bool)
    requires Valid(v.reactor) && 0 <= ringIndex < |v.reactor.rings|
    requires !v.showExplosion && !HasExploded(v.reactor)
    ensures !Rotate(v, ringIndex, clockwise).showExplosion
    ensures !HasExploded(Rotate(v, ringIndex, clockwise).reactor)
  {
    if !RotateBlocked(v.reactor) {
      var count := |v.reactor.rings[ringIndex]|;
      var steps := if clockwise then count - 1 else 1;
      if RotationAccepted(v.reactor, ringIndex, steps) {
        RotationNeverExplodes(v.reactor, ringIndex, steps);
      }
    }
  }

  /**
   * What a rotate writes to the progress store: the last completed level only
   * moves on a completed story level, the endless best only on an endless
   * ending, and a daily challenge writes nothing.
   */
  lemma RecordOutcomeEffects(p: Progress.ProgressState, mode: GameMode, o: Outcome, score: int)
    ensures RecordOutcome(p, mode, o, score).lastCompletedLevel ==
      if o == Completed && IsStoryLevel(mode) then Progress.Max(p.lastCompletedLevel, mode.level)
      else p.lastCompletedLevel
    ensures RecordOutcome(p, mode, o, score).endlessBestScore ==
      if IsEndless(mode) && o != Playing then Progress.Max(p.endlessBestScore, score)
      else p.endlessBestScore
    ensures !(o == Completed && IsStoryLevel(mode)) ==> RecordOutcome(p, mode, o, score).highScores == p.highScores
    ensures IsDaily(mode) || o == Playing ==> RecordOutcome(p, mode, o, score) == p
  {
    if o == Completed && mode.Level? {
      Progress.LevelCompleteRaisesLast(p, mode.level, score);
    }
    if IsEndless(mode) && o != Playing {
      Progress.EndlessScoreIsMax(p, score);
    }
  }

  /** A booster with no stock left (or none at all) changes nothing. */
  lemma BoosterWithoutStockIsNoOp(v: ViewState, b: BoosterType, colors: seq<EnergyType>)
    requires ColorsFit(v, b, colors)
    requires b !in v.boosterCounts || v.boosterCounts[b] <= 0
    ensures ApplyBooster(v, b, colors) == v
  {
  }

  /** A booster costs at most one of its own kind and nothing of any other. */
  lemma BoosterCostsAtMostOne(v: ViewState, b: BoosterType, colors: seq<EnergyType>)
    requires ColorsFit(v, b, colors)
    ensures var w := ApplyBooster(v, b, colors);
      && w.boosterCounts.Keys == v.boosterCounts.Keys
      && (forall t :: t in v.boosterCounts && t != b ==> w.boosterCounts[t] == v.boosterCounts[t])
      && (b in v.boosterCounts ==> w.boosterCounts[b] == v.boosterCounts[b] || w.boosterCounts[b] == v.boosterCounts[b] - 1)
  {
    var w := ApplyBooster(v, b, colors);
    assert w.boosterCounts == v.boosterCounts || w.boosterCounts == v.boosterCounts[b := v.boosterCounts[b] - 1];
  }

  /** A booster never changes the selected ring or the end-of-game flags. */
  lemma BoosterKeepsSelectionAndFlags(v: ViewState, b: BoosterType, colors: seq<EnergyType>)
    requires ColorsFit(v, b, colors)
    ensures var w := ApplyBooster(v, b, colors);
      && w.selectedRingIndex == v.selectedRingIndex
      && w.showExplosion == v.showExplosion && w.showLevelComplete == v.showLevelComplete
      && w.showOutOfMoves == v.showOutOfMoves
  {
  }

  /** Stock never goes negative. */
  lemma BoosterCountsStayNonNegative(v: ViewState, b: BoosterType, colors: seq<EnergyType>)
    requires ColorsFit(v, b, colors)
    requires forall t :: t in v.boosterCounts ==> v.boosterCounts[t] >= 0
    ensures forall t :: t in ApplyBooster(v, b, colors).boosterCounts ==> ApplyBooster(v, b, colors).boosterCounts[t] >= 0
  {
    BoosterCostsAtMostOne(v, b, colors);
  }

  /** With stock, the thermal shield arms three rotations and costs exactly one shield. */
  lemma ShieldBooster(v: ViewState, colors: seq<EnergyType>)
    requires ThermalShield in v.boosterCounts && v.boosterCounts[ThermalShield] > 0
    ensures var w := ApplyBooster(v, ThermalShield, colors);
      w == v.(reactor := v.reactor.(thermalShieldMovesLeft := ShieldMoves),
              boosterCounts := v.boosterCounts[ThermalShield := v.boosterCounts[ThermalShield] - 1])
  {
  }

  /** With stock, the energy pulse arms the double and costs exactly one pulse. */
  lemma PulseBooster(v: ViewState, colors: seq<EnergyType>)
    requires EnergyPulse in v.boosterCounts && v.boosterCounts[EnergyPulse] > 0
    ensures var w := ApplyBooster(v, EnergyPulse, colors);
      w == v.(reactor := v.reactor.(nextMatchDouble := true),
              boosterCounts := v.boosterCounts[EnergyPulse := v.boosterCounts[EnergyPulse] - 1])
  {
  }

  /** With stock and a selected ring, recalibration recolours that ring and costs exactly one. */
  lemma RecalibrationBooster(v: ViewState, colors: seq<EnergyType>)
    requires ColorsFit(v, Recalibration, colors)
    requires Recalibration in v.boosterCounts && v.boosterCounts[Recalibration] > 0
    requires v.selectedRingIndex.Some?
    ensures var w := ApplyBooster(v, Recalibration, colors);
      w == v.(reactor := Recalibrate(v.reactor, v.selectedRingIndex.value, colors),
              boosterCounts := v.boosterCounts[Recalibration := v.boosterCounts[Recalibration] - 1])
  {
  }

  /** With stock, locking an unlocked selected ring locks it and costs exactly one stabilizer. */
  lemma StabilizerLocks(v: ViewState, colors: seq<EnergyType>)
    requires Stabilizer in v.boosterCounts && v.boosterCounts[Stabilizer] > 0
    requires v.selectedRingIndex.Some? && v.reactor.lockedRingIndex != v.selectedRingIndex
    ensures var w := ApplyBooster(v, Stabilizer, colors);
      w == v.(reactor := v.reactor.(lockedRingIndex := v.selectedRingIndex),
              boosterCounts := v.boosterCounts[Stabilizer := v.boosterCounts[Stabilizer] - 1])
  {
  }

  /** A ring booster with no ring selected only raises the alert, at no cost. */
  lemma TargetlessBoosterOnlyAlerts(v: ViewState, b: BoosterType, colors: seq<EnergyType>)
    requires ColorsFit(v, b, colors)
    requires NeedsTargetRing(b) && v.selectedRingIndex.None?
    requires b in v.boosterCounts && v.boosterCounts[b] > 0
    ensures ApplyBooster(v, b, colors) == v.(showBoosterAlert := Some(b))
  {
  }

  /**
   * The stabilizer is a toggle on the selected ring: locking costs one,
   * unlocking is free, so two uses restore the lock and cost exactly one.
   */
  lemma StabilizerToggles(v: ViewState, colors: seq<EnergyType>)
    requires v.selectedRingIndex.Some? && v.reactor.lockedRingIndex != v.selectedRingIndex
    requires Stabilizer in v.boosterCounts && v.boosterCounts[Stabilizer] > 1
    ensures var once := ApplyBooster(v, Stabilizer, colors);
      && once.reactor.lockedRingIndex == v.selectedRingIndex
      && ColorsFit(once, Stabilizer, colors)
      && ApplyBooster(once, Stabilizer, colors).reactor == v.reactor.(lockedRingIndex := None)
      && ApplyBooster(once, Stabilizer, colors).boosterCounts[Stabilizer] == v.boosterCounts[Stabilizer] - 1
  {
  }

  /** Every booster keeps the reactor valid. */
  lemma BoosterPreservesValid(v: ViewState, b: BoosterType, colors: seq<EnergyType>)
    requires Valid(v.reactor) && ColorsFit(v, b, colors)
    ensures Valid(ApplyBooster(v, b, colors).reactor)
  {
    if b == Recalibration && b in v.boosterCounts && v.boosterCounts[b] > 0 && v.selectedRingIndex.Some? {
      RecalibrateOnlyRecolours(v.reactor, v.selectedRingIndex.value, colors);
    }
  }

  // ---------------------------------------------------------------------------
  // The controller object

  class GameViewModel {
    var reactor: ReactorCore
    var selectedRingIndex: Option<int>
    var showLevelComplete: bool
    var showExplosion: bool
    var showOutOfMoves: bool
    var boosterCounts: map<BoosterType, int>
    var showBoosterAlert: Option<BoosterType>
    const mode: GameMode
    /** The shared progress store the controller writes results to. */
    const progress: Progress.ProgressService

    function Snapshot(): ViewState
      reads this, reactor
    {
      ViewState(reactor.Snapshot(), selectedRingIndex, showLevelComplete, showExplosion,
                showOutOfMoves, boosterCounts, showBoosterAlert)
    }

    ghost predicate Valid()
      reads this, reactor
    {
      reactor.Valid()
    }

    /**
     * `init(level:mode:maxMoves:)`. `dailySeed` is the day's seed the progress
     * store derives from the date; `draws` are the unit draws for the board.
     */
    constructor (level: int, mode: GameMode, maxMoves: Option<int>, progress: Progress.ProgressService,
                 dailySeed: int, draws: seq<real>)
      requires |draws| == SegmentTotal
      ensures Valid() && fresh(reactor)
      ensures this.mode == mode && this.progress == progress
      ensures reactor.Snapshot() == InitialState(level, Some(LaunchMoves(mode, maxMoves)), draws)
      ensures reactor.seed == LaunchSeed(mode, dailySeed)
      ensures selectedRingIndex == None && showBoosterAlert == None
      ensures !showLevelComplete && !showExplosion && !showOutOfMoves
      ensures boosterCounts == Progress.DefaultCounts
    {
      this.mode := mode;
      this.progress := progress;
      var moves: int;
      var seed: Option<int>;
      match mode {
        case Level(l) =>
          moves := maxMoves.GetOr(MovesForLevel(l));
          seed := None;
        case Endless =>
          moves := maxMoves.GetOr(EndlessMoves);
          seed := None;
        case Daily =>
          moves := maxMoves.GetOr(DailyMoves);
          seed := Some(dailySeed);
      }
      reactor := new ReactorCore(level, Some(moves), seed, draws);
      var counts := Progress.DefaultBoosterCounts();
      boosterCounts := counts;
      selectedRingIndex := None;
      showLevelComplete := false;
      showExplosion := false;
      showOutOfMoves := false;
      showBoosterAlert := None;
    }

    /** `rotateRing(_:clockwise:)`; the ring index must name a ring, as the source reads its size unchecked. */
    method RotateRing(ringIndex: int, clockwise: bool)
      requires Valid() && 0 <= ringIndex < |reactor.rings|
      modifies this, reactor, progress
      ensures Valid() && reactor == old(reactor)
      ensures Snapshot() == Rotate(old(Snapshot()), ringIndex, clockwise)
      ensures progress.Snapshot() ==
        RotateProgress(old(progress.Snapshot()), mode, old(Snapshot()), ringIndex, clockwise)
    {
      ghost var v0 := Snapshot();
      RotatePreservesValid(v0, ringIndex, clockwise);
      if HasExploded(reactor.Snapshot()) || reactor.movesRemaining <= 0 {
        return;
      }
      var count := |reactor.rings[ringIndex]|;
      reactor.RotateRingSteps(ringIndex, if clockwise then count - 1 else 1);
      ReportOutcome();
    }

    /** The end of `rotateRing`: raise the flag for the reactor's outcome and save what the mode records. */
    method ReportOutcome()
      modifies this, progress
      ensures reactor == old(reactor)
      ensures Snapshot() == RaiseFlag(old(Snapshot()), OutcomeOf(reactor.Snapshot()))
      ensures progress.Snapshot() ==
        RecordOutcome(old(progress.Snapshot()), mode, OutcomeOf(reactor.Snapshot()), reactor.score)
    {
      var after := reactor.Snapshot();
      if HasExploded(after) {
        showExplosion := true;
        if IsEndless(mode) {
          progress.SaveEndlessScore(reactor.score);
        }
      } else if IsLevelComplete(after) {
        showLevelComplete := true;
        if mode.Level? {
          progress.SaveLevelComplete(mode.level, reactor.score);
        }
        if IsEndless(mode) {
          progress.SaveEndlessScore(reactor.score);
        }
      } else if reactor.movesRemaining == 0 {
        showOutOfMoves := true;
        if IsEndless(mode) {
          progress.SaveEndlessScore(reactor.score);
        }
      }
    }

    /** `selectRing`. */
    method SelectRing(index: Option<int>)
      modifies this
      ensures Snapshot() == old(Snapshot()).(selectedRingIndex := index)
    {
      selectedRingIndex := index;
    }

    /** `useBooster`; `colors` are the colours recalibration draws, one per slot of the selected ring. */
    method UseBooster(b: BoosterType, colors: seq<EnergyType>)
      requires Valid() && ColorsFit(Snapshot(), b, colors)
      modifies this, reactor
      ensures Valid() && reactor == old(reactor)
      ensures Snapshot() == ApplyBooster(old(Snapshot()), b, colors)
    {
      ghost var v0 := Snapshot();
      BoosterPreservesValid(v0, b, colors);
      if !(b in boosterCounts && boosterCounts[b] > 0) {
        return;
      }
      var count := boosterCounts[b];
      match b {
        case ThermalShield =>
          reactor.thermalShieldMovesLeft := ShieldMoves;
          boosterCounts := boosterCounts[b := count - 1];
        case EnergyPulse =>
          reactor.nextMatchDouble := true;
          boosterCounts := boosterCounts[b := count - 1];
        case Stabilizer =>
          if selectedRingIndex.Some? {
            if reactor.lockedRingIndex == selectedRingIndex {
              reactor.lockedRingIndex := None;
            } else {
              reactor.lockedRingIndex := selectedRingIndex;
              boosterCounts := boosterCounts[b := count - 1];
            }
          } else {
            showBoosterAlert := Some(b);
          }
        case Recalibration =>
          if selectedRingIndex.Some? {
            reactor.RecalibrateRing(selectedRingIndex.value, colors);
            boosterCounts := boosterCounts[b := count - 1];
          } else {
            showBoosterAlert := Some(b);
          }
      }
    }

    /** `dismissBoosterAlert`. */
    method DismissBoosterAlert()
      modifies this
      ensures Snapshot() == old(Snapshot()).(showBoosterAlert := None)
    {
      showBoosterAlert := None;
    }

    /** `nextLevel`: a new reactor for the level after the mode's own (level 1 with 99 moves outside the story). */
    method NextLevel(draws: seq<real>)
      requires |draws| == SegmentTotal
      modifies this
      ensures Valid() && fresh(reactor)
      ensures reactor.Snapshot() == InitialState(NextLevelNumber(mode), NextLevelMoves(mode), draws)
      ensures reactor.seed == None
      ensures !showLevelComplete && boosterCounts == Progress.DefaultCounts
      ensures showExplosion == old(showExplosion) && showOutOfMoves == old(showOutOfMoves)
      ensures selectedRingIndex == old(selectedRingIndex) && showBoosterAlert == old(showBoosterAlert)
    {
      showLevelComplete := false;
      match mode {
        case Level(l) =>
          reactor := new ReactorCore(l + 1, None, None, draws);
        case _ =>
          reactor := new ReactorCore(1, Some(EndlessMoves), None, draws);
      }
      boosterCounts := Progress.DefaultBoosterCounts();
    }

    /** `restartLevel`: a new reactor on the same level, with the mode's budget and seed. */
    method RestartLevel(dailySeed: int, draws: seq<real>)
      requires |draws| == SegmentTotal
      modifies this
      ensures Valid() && fresh(reactor)
      ensures reactor.Snapshot() == InitialState(old(reactor.level), RestartMoves(mode), draws)
      ensures reactor.seed == LaunchSeed(mode, dailySeed)
      ensures !showExplosion && !showOutOfMoves && boosterCounts == Progress.DefaultCounts
      ensures showLevelComplete == old(showLevelComplete)
      ensures selectedRingIndex == old(selectedRingIndex) && showBoosterAlert == old(showBoosterAlert)
    {
      showExplosion := false;
      showOutOfMoves := false;
      var seed: Option<int> := if IsDaily(mode) then Some(dailySeed) else None;
      var moves: Option<int> := if IsStoryLevel(mode) then None else (if IsEndless(mode) then Some(EndlessMoves) else Some(DailyMoves));
      reactor := new ReactorCore(reactor.level, moves, seed, draws);
      boosterCounts := Progress.DefaultBoosterCounts();
    }
  }
}
