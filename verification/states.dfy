/**
 * The state of one SnakeGame as a value, and every operation of the game
 * as a function from the old state (and the clock and random draws passed
 * in) to the new one. The SnakeGame class in module Game updates its fields
 * step by step and is proved to end in exactly these states.
 */
module States {
  import opened Wrappers
  import opened Grid
  import opened Orbs
  import opened Rules
  import opened Storage

  /**
   * The fields of the game object that its rules read or write, plus the
   * numeric part of the store. The tile size, the canvas and the player id
   * only serve drawing and the console, and stay outside.
   */
  datatype GameState = GameState(
    initialized: bool,
    gridSize: int,
    startPosition: Cell,
    baseInterval: int,
    deathCount: int,
    snake: seq<Cell>,
    direction: Direction,
    nextDirection: Direction,
    inputBuffer: Option<Direction>,
    lastInputTime: int,
    animationProgress: real,
    score: int,
    highScore: int,
    crystals: int,
    moveInterval: int,
    activeEffects: ActiveEffects,
    specialOrbs: seq<Orb>,
    food: Cell,
    gameOver: bool,
    adRevivalsUsed: int,
    pendingAdRevival: bool,
    lastMoveTime: int,
    lastSpecialOrbTime: int,
    stored: map<string, int>)

  /** The grid-size dependent settings initializeGame chose. */
  predicate Configured(s: GameState)
  {
    && s.initialized
    && SupportedSize(s.gridSize)
    && s.baseInterval == BaseInterval(s.gridSize)
    && s.startPosition == StartPosition(s.gridSize)
  }

  /** What holds of the game between any two operations once a size is chosen. */
  predicate ValidState(s: GameState)
  {
    && Configured(s)
    && |s.snake| >= 3 && InGrid(s.snake[0], s.gridSize)
    && InGrid(s.food, s.gridSize)
    && (forall i :: 0 <= i < |s.specialOrbs| ==> InGrid(s.specialOrbs[i].cell, s.gridSize))
    && |s.specialOrbs| <= MaxSpecialOrbs(s.gridSize)
    && s.score >= 0 && s.score % ScorePerItem == 0
    && MinInterval <= s.moveInterval <= s.baseInterval
    && ValidEffects(s.activeEffects)
    && s.nextDirection != Opposite(s.direction)
    && (s.inputBuffer.Some? ==> s.inputBuffer.value != Opposite(s.direction))
    && (s.gameOver ==> s.inputBuffer == None && s.animationProgress == 0.0)
    && (s.pendingAdRevival ==> s.gameOver)
  }

  // ---------------------------------------------------------------------
  // Setup and reset
  // ---------------------------------------------------------------------

  /** reset: a fresh three-segment snake heading right, food placed before the orbs are cleared. */
  function ResetState(s: GameState, foodDraws: seq<Cell>): GameState
    requires s.gridSize > 0 && |foodDraws| >= MaxFoodAttempts
  {
    var body := Line(s.startPosition, 3);
    s.(snake := body, direction := Right, nextDirection := Right, score := 0,
       gameOver := false, moveInterval := s.baseInterval,
       food := FoodSpot(foodDraws, s.gridSize, body[0], FoodBlocked(body, s.specialOrbs)),
       specialOrbs := [], lastMoveTime := 0, animationProgress := 0.0,
       lastSpecialOrbTime := 0, adRevivalsUsed := 0, activeEffects := NoEffect,
       inputBuffer := None, lastInputTime := 0)
  }

  /** initializeGame(size) (the canvas aside), followed by reset. */
  function InitializeState(s: GameState, size: int, foodDraws: seq<Cell>): GameState
    requires SupportedSize(size) && |foodDraws| >= MaxFoodAttempts
  {
    var t := s.(gridSize := size, deathCount := 0, baseInterval := BaseInterval(size),
                startPosition := StartPosition(size),
                highScore := Get(s.stored, HighScoreKey),
                animationProgress := 0.0, lastMoveTime := 0, initialized := true);
    ResetState(t, foodDraws)
  }

  // ---------------------------------------------------------------------
  // Input
  // ---------------------------------------------------------------------

  /** handleDirectionChange: debounce, reversal guard, immediate turn or buffered turn. */
  function TurnState(s: GameState, d: Direction, now: int): GameState
  {
    if now - s.lastInputTime < InputDebounce then s
    else if Opposite(d) == s.direction then s
    else
      var t := s.(lastInputTime := now);
      if s.animationProgress < 0.3 then t.(nextDirection := d, inputBuffer := None)
      else if s.inputBuffer.None? || Opposite(d) != s.inputBuffer.value then t.(inputBuffer := Some(d))
      else t
  }

  // ---------------------------------------------------------------------
  // The tick
  // ---------------------------------------------------------------------

  datatype TickResult = TickResult(state: GameState, moved: bool)

  /** The orb list after the spawn check of a due tick. */
  function SpawnedOrbs(s: GameState, now: int, threshold: real, orbDraws: seq<Cell>): seq<Orb>
    requires |orbDraws| >= MaxOrbAttempts
  {
    if now - s.lastSpecialOrbTime > SpawnInterval(s.gridSize) && |s.specialOrbs| < MaxSpecialOrbs(s.gridSize) then
      s.specialOrbs + ToSeq(OrbSpot(threshold, orbDraws, now, OrbBlocked(s.snake, s.food, s.specialOrbs)))
    else s.specialOrbs
  }

  /** The orbs the head meets on a due tick: spawned, then filtered for expiry. */
  function OrbsAtMove(s: GameState, now: int, threshold: real, orbDraws: seq<Cell>): seq<Orb>
    requires |orbDraws| >= MaxOrbAttempts
  {
    LiveOrbs(SpawnedOrbs(s, now, threshold, orbDraws), now)
  }

  /** The speed-effect expiry every live tick starts with. */
  function ExpireStage(s: GameState, now: int): GameState
  {
    s.(activeEffects := AfterExpiry(s.activeEffects, now))
  }

  /** Orb spawning and expiry on a due tick. */
  function OrbStage(s: GameState, now: int, threshold: real, orbDraws: seq<Cell>): GameState
    requires |orbDraws| >= MaxOrbAttempts
  {
    var t := if now - s.lastSpecialOrbTime > SpawnInterval(s.gridSize) then s.(lastSpecialOrbTime := now) else s;
    t.(specialOrbs := OrbsAtMove(s, now, threshold, orbDraws))
  }

  /** The buffered turn (else nextDirection) becomes the direction. */
  function CommitStage(s: GameState): GameState
  {
    var d := Committed(s.inputBuffer, s.nextDirection);
    s.(nextDirection := d, inputBuffer := None, direction := d, animationProgress := 0.0)
  }

  /** The collision branch: game over, one more death, the best score kept. */
  function GameOverStage(s: GameState): GameState
  {
    var best := s.score > s.highScore;
    s.(gameOver := true, deathCount := s.deathCount + 1,
       highScore := if best then s.score else s.highScore,
       stored := if best then s.stored[HighScoreKey := s.score] else s.stored)
  }

  /** handleSpecialOrb: the effect of collecting an orb of kind k. */
  function OrbEffect(s: GameState, k: OrbKind, now: int): GameState
    requires |s.snake| >= 1
  {
    match k
    case Negative =>
      s.(score := if s.score - ScorePerItem > 0 then s.score - ScorePerItem else 0,
         snake := if |s.snake| > 3 then s.snake[..|s.snake| - 1] else s.snake)
    case Positive =>
      s.(score := s.score + ScorePerItem, snake := s.snake + [s.snake[|s.snake| - 1]])
    case SpeedUp => s.(activeEffects := AfterOrbEffect(s.activeEffects, k, now))
    case SlowDown => s.(activeEffects := AfterOrbEffect(s.activeEffects, k, now))
    case Crystal => s.(crystals := s.crystals + 1, stored := s.stored[CrystalsKey := s.crystals + 1])
  }

  /** The head advances to a free cell: an orb there, else the food, else a plain move. */
  function EatStage(s: GameState, head: Cell, now: int, foodDraws: seq<Cell>): GameState
    requires s.gridSize > 0 && |foodDraws| >= MaxFoodAttempts
  {
    var body := [head] + s.snake;
    var k := FirstOrbAt(s.specialOrbs, head);
    if k < |s.specialOrbs| then
      OrbEffect(s.(snake := body), s.specialOrbs[k].kind, now)
        .(specialOrbs := s.specialOrbs[..k] + s.specialOrbs[k + 1..])
    else if head == s.food then
      var score := s.score + ScorePerItem;
      s.(snake := body, score := score,
         food := FoodSpot(foodDraws, s.gridSize, head, FoodBlocked(body, s.specialOrbs)),
         moveInterval := IntervalAfterFood(s.moveInterval, score, s.gridSize))
    else s.(snake := body[..|body| - 1])
  }

  /** The head position a due tick moves to. */
  function NextHead(s: GameState): Cell
    requires |s.snake| >= 1
  {
    Step(s.snake[0], Committed(s.inputBuffer, s.nextDirection))
  }

  /** moveSnake(now): one call of the game loop's update. */
  function TickState(s: GameState, now: int, threshold: real, orbDraws: seq<Cell>, foodDraws: seq<Cell>): TickResult
    requires ValidState(s) && |orbDraws| >= MaxOrbAttempts && |foodDraws| >= MaxFoodAttempts
  {
    if s.gameOver then TickResult(s, false)
    else
      var e := ExpireStage(s, now);
      var modifier := e.activeEffects.speedModifier;
      if !Due(now, e.lastMoveTime, e.moveInterval, modifier) then
        TickResult(e.(animationProgress := Progress(now, e.lastMoveTime, e.moveInterval, modifier)), false)
      else
        var c := CommitStage(OrbStage(e.(lastMoveTime := now), now, threshold, orbDraws));
        var head := Step(c.snake[0], c.direction);
        if Collides(head, c.snake, c.gridSize) then TickResult(GameOverStage(c), false)
        else TickResult(EatStage(c, head, now, foodDraws), true)
  }

  // ---------------------------------------------------------------------
  // Revival
  // ---------------------------------------------------------------------

  /** revive: ten crystals spent (unchecked), a three-segment snake, base speed, score kept. */
  function ReviveState(s: GameState, now: int, foodDraws: seq<Cell>): GameState
    requires s.gridSize > 0 && |foodDraws| >= MaxFoodAttempts
  {
    var body := Line(s.startPosition, 3);
    s.(crystals := s.crystals - 10, stored := s.stored[CrystalsKey := s.crystals - 10],
       gameOver := false, snake := body, direction := Right, nextDirection := Right,
       moveInterval := s.baseInterval,
       food := FoodSpot(foodDraws, s.gridSize, body[0], FoodBlocked(body, s.specialOrbs)),
       animationProgress := 0.0, lastMoveTime := now)
  }

  /** reviveAfterAd: the snake rebuilt at its old length, speed and score kept. */
  function ReviveAfterAdState(s: GameState, now: int, foodDraws: seq<Cell>): GameState
    requires s.gridSize > 0 && |s.snake| >= 1 && |foodDraws| >= MaxFoodAttempts
  {
    var body := Line(s.startPosition, |s.snake|);
    s.(gameOver := false, snake := body, direction := Right, nextDirection := Right,
       food := FoodSpot(foodDraws, s.gridSize, body[0], FoodBlocked(body, s.specialOrbs)),
       animationProgress := 0.0, lastMoveTime := now)
  }

  /** watchAdForRevive: one more ad revival used, the revival now pending. */
  function WatchAdState(s: GameState): GameState
  {
    s.(adRevivalsUsed := s.adRevivalsUsed + 1, pendingAdRevival := true)
  }

  /** completeAdRevival: nothing unless a revival is pending; then clear it and revive. */
  function CompleteAdState(s: GameState, now: int, foodDraws: seq<Cell>): GameState
    requires s.gridSize > 0 && |s.snake| >= 1 && |foodDraws| >= MaxFoodAttempts
  {
    if !s.pendingAdRevival then s
    else ReviveAfterAdState(s.(pendingAdRevival := false), now, foodDraws)
  }

  /** The revive button on the game-over screen is shown only with ten crystals. */
  predicate CrystalReviveOffered(s: GameState)
  {
    s.crystals >= 10
  }

  /** The ad button is shown only while fewer than three ad revivals were used. */
  predicate AdReviveOffered(s: GameState)
  {
    s.adRevivalsUsed < 3
  }
}
