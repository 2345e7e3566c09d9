/**
 * The SnakeGame object: its fields, updated in place by each operation the
 * way the game does it, and proved to end in the state the functions of
 * module States give, which is where the rules of the game are proved.
 *
 * The longer operations are written as a sequence of the smaller steps the
 * game performs (lay out the snake, place the food, clear the orbs, ...),
 * each a method of its own that names the fields it writes.
 */
module Game {
  import opened Wrappers
  import opened Grid
  import opened Orbs
  import opened Rules
  import opened Storage
  import opened States
  import TickFacts
  import LifecycleFacts

  /** The drawing surface; its size is set by the page before a game starts. */
  class Canvas {
    var width: int
    var height: int

    constructor (width: int, height: int)
      ensures this.width == width && this.height == height
    {
      this.width := width;
      this.height := height;
    }
  }

  class SnakeGame {
    /** The browser store the game reads and writes. */
    const storage: Store
    const canvas: Canvas

    var initialized: bool
    var gridSize: int
    var tileSize: int
    var startPosition: Cell
    var baseInterval: int
    var deathCount: int
    var snake: seq<Cell>
    var direction: Direction
    var nextDirection: Direction
    var inputBuffer: Option<Direction>
    var lastInputTime: int
    var animationProgress: real
    var score: int
    var highScore: int
    var crystals: int
    var moveInterval: int
    var activeEffects: ActiveEffects
    var specialOrbs: seq<Orb>
    var food: Cell
    var gameOver: bool
    var adRevivalsUsed: int
    var pendingAdRevival: bool
    var lastMoveTime: int
    var lastSpecialOrbTime: int
    var playerId: Option<string>

    /** The fields the rules of the game read and write, with the numeric part of the store. */
    function State(): GameState
      reads this, storage
    {
      GameState(initialized, gridSize, startPosition, baseInterval, deathCount, snake,
                direction, nextDirection, inputBuffer, lastInputTime, animationProgress,
                score, highScore, crystals, moveInterval, activeEffects, specialOrbs, food,
                gameOver, adRevivalsUsed, pendingAdRevival, lastMoveTime, lastSpecialOrbTime,
                storage.values)
    }

    ghost predicate Valid()
      reads this, storage
    {
      ValidState(State())
    }

    /**
     * The game as the page creates it: no size chosen yet, crystals read
     * from the store. The source leaves direction, score, highScore,
     * moveInterval, food, gameOver, deathCount, lastMoveTime and
     * animationProgress undefined until initializeGame; the values given
     * here cannot be observed: the game's own entry points (reset,
     * moveSnake, handleDirectionChange and the revivals) require a configured
     * or valid game, and initializeGame sets them all.
     */
    constructor (storage: Store, canvas: Canvas)
      ensures this.storage == storage && this.canvas == canvas
      ensures tileSize == 20 && playerId == None
      ensures State() == GameState(false, 20, Cell(5, 5), 150, 0, [], Right, Right, None, 0, 0.0,
                                   0, 0, Get(storage.values, CrystalsKey), 150, NoEffect, [], Cell(0, 0),
                                   false, 0, false, 0, 0, storage.values)
    {
      this.storage := storage;
      this.canvas := canvas;
      initialized := false;
      gridSize := 20;
      tileSize := 20;
      startPosition := Cell(5, 5);
      baseInterval := 150;
      deathCount := 0;
      snake := [];
      direction := Right;
      nextDirection := Right;
      inputBuffer := None;
      lastInputTime := 0;
      animationProgress := 0.0;
      score := 0;
      highScore := 0;
      crystals := Get(storage.values, CrystalsKey);
      moveInterval := 150;
      activeEffects := NoEffect;
      specialOrbs := [];
      food := Cell(0, 0);
      gameOver := false;
      adRevivalsUsed := 0;
      pendingAdRevival := false;
      lastMoveTime := 0;
      lastSpecialOrbTime := 0;
      playerId := None;
    }

    // -------------------------------------------------------------------
    // initializeGame and reset
    // -------------------------------------------------------------------

    /** initializeGame(size): fit the canvas, choose the size's settings, load, reset. */
    method InitializeGame(size: int, foodDraws: seq<Cell>)
      requires SupportedSize(size) && canvas.width >= 0 && canvas.height >= 0 && !pendingAdRevival
      requires |foodDraws| >= MaxFoodAttempts && AllInGrid(foodDraws, size)
      modifies this`gridSize, this`tileSize, canvas, this`deathCount, this`baseInterval, this`startPosition,
               this`highScore, this`initialized, this`snake, this`direction, this`nextDirection, this`score, this`gameOver, this`moveInterval,
               this`food, this`specialOrbs, this`lastSpecialOrbTime, this`activeEffects, this`lastMoveTime,
               this`animationProgress, this`adRevivalsUsed, this`inputBuffer, this`lastInputTime
      ensures State() == InitializeState(old(State()), size, foodDraws)
      ensures Valid()
      ensures tileSize == TileSize(old(canvas.width), old(canvas.height), size)
      ensures canvas.width == tileSize * size && canvas.height == tileSize * size
    {
      LifecycleFacts.InitializeFacts(State(), size, foodDraws);
      FitCanvas(size);
      AdjustForGridSize();
      InitializeGameComponents();
      initialized := true;
      Reset(foodDraws);
    }

    /**
     * The grid size, the largest whole tile that fits the board into the
     * canvas, and the canvas shrunk to the board.
     */
    method FitCanvas(size: int)
      requires size > 0 && canvas.width >= 0 && canvas.height >= 0
      modifies this`gridSize, this`tileSize, canvas
      ensures tileSize == TileSize(old(canvas.width), old(canvas.height), size)
      ensures canvas.width == tileSize * size && canvas.height == tileSize * size
      ensures State() == old(State()).(gridSize := size)
    {
      gridSize := size;
      var byWidth := canvas.width / gridSize;
      var byHeight := canvas.height / gridSize;
      tileSize := if byWidth <= byHeight then byWidth else byHeight;
      canvas.width := tileSize * gridSize;
      canvas.height := tileSize * gridSize;
    }

    /** No deaths yet, and the interval and start position initializeGame picks for the grid size. */
    method AdjustForGridSize()
      modifies this`deathCount, this`baseInterval, this`startPosition
      ensures State() == old(State()).(deathCount := 0, baseInterval := BaseInterval(gridSize),
                                       startPosition := StartPosition(gridSize))
    {
      deathCount := 0;
      if gridSize >= 40 {
        baseInterval := 180;
        startPosition := Cell(gridSize / 8, gridSize / 8);
      } else {
        baseInterval := 150;
        startPosition := Cell(5, 5);
      }
    }

    /** initializeGameComponents: the stored high score, and the animation clock at zero. */
    method InitializeGameComponents()
      modifies this`highScore, this`animationProgress, this`lastMoveTime
      ensures State() == old(State()).(highScore := Get(storage.values, HighScoreKey),
                                       animationProgress := 0.0, lastMoveTime := 0)
    {
      highScore := Get(storage.values, HighScoreKey);
      animationProgress := 0.0;
      lastMoveTime := 0;
    }

    /** reset: a new round at the configured size. */
    method Reset(foodDraws: seq<Cell>)
      requires Configured(State()) && !pendingAdRevival
      requires |foodDraws| >= MaxFoodAttempts && AllInGrid(foodDraws, gridSize)
      modifies this`snake, this`direction, this`nextDirection, this`score, this`gameOver, this`moveInterval,
               this`food, this`specialOrbs, this`lastSpecialOrbTime, this`activeEffects, this`lastMoveTime,
               this`animationProgress, this`adRevivalsUsed, this`inputBuffer, this`lastInputTime
      ensures State() == ResetState(old(State()), foodDraws)
      ensures Valid()
    {
      LifecycleFacts.ResetFacts(State(), foodDraws);
      PlaceSnake([startPosition, Cell(startPosition.x - 1, startPosition.y), Cell(startPosition.x - 2, startPosition.y)]);
      assert snake == Line(startPosition, 3);
      StartRound();
      PlaceFood(foodDraws);
      ClearSpecialOrbs();
      RestartTiming(0);
      adRevivalsUsed := 0;
      ClearInput();
    }

    /** A new snake heading right: the step reset, revive and reviveAfterAd share. */
    method PlaceSnake(body: seq<Cell>)
      modifies this`snake, this`direction, this`nextDirection
      ensures State() == old(State()).(snake := body, direction := Right, nextDirection := Right)
    {
      snake := body;
      direction := Right;
      nextDirection := Right;
    }

    /** Score zero, the game running, the base speed. */
    method StartRound()
      modifies this`score, this`gameOver, this`moveInterval
      ensures State() == old(State()).(score := 0, gameOver := false, moveInterval := baseInterval)
    {
      score := 0;
      gameOver := false;
      moveInterval := baseInterval;
    }

    /** food = generateFood() for the snake and orbs as they are now. */
    method PlaceFood(draws: seq<Cell>)
      requires gridSize > 0 && |snake| >= 1 && |draws| >= MaxFoodAttempts
      modifies this`food
      ensures State() == old(State()).(food := FoodSpot(draws, gridSize, snake[0], FoodBlocked(snake, specialOrbs)))
    {
      food := GenerateFood(draws);
    }

    /** No orbs on the board, the spawn clock at zero, no speed effect. */
    method ClearSpecialOrbs()
      modifies this`specialOrbs, this`lastSpecialOrbTime, this`activeEffects
      ensures State() == old(State()).(specialOrbs := [], lastSpecialOrbTime := 0, activeEffects := NoEffect)
    {
      specialOrbs := [];
      lastSpecialOrbTime := 0;
      activeEffects := NoEffect;
    }

    /** The last move at time t and the step animation at its start. */
    method RestartTiming(t: int)
      modifies this`lastMoveTime, this`animationProgress
      ensures State() == old(State()).(lastMoveTime := t, animationProgress := 0.0)
    {
      lastMoveTime := t;
      animationProgress := 0.0;
    }

    /** No buffered turn and no recent input. */
    method ClearInput()
      modifies this`inputBuffer, this`lastInputTime
      ensures State() == old(State()).(inputBuffer := None, lastInputTime := 0)
    {
      inputBuffer := None;
      lastInputTime := 0;
    }

    // -------------------------------------------------------------------
    // Placement
    // -------------------------------------------------------------------

    /**
     * generateFood: up to 49 tested random cells, then the exhaustive scan,
     * then the cell opposite the head.
     */
    method GenerateFood(draws: seq<Cell>) returns (cell: Cell)
      requires gridSize > 0 && |snake| >= 1 && |draws| >= MaxFoodAttempts
      ensures cell == FoodSpot(draws, gridSize, snake[0], FoodBlocked(snake, specialOrbs))
    {
      var blocked := FoodBlocked(snake, specialOrbs);
      ghost var tested := draws[..MaxFoodAttempts - 1];
      var attempts := 0;
      while true
        invariant 0 <= attempts < MaxFoodAttempts
        invariant forall j :: 0 <= j < attempts ==> tested[j] in blocked
        decreases MaxFoodAttempts - attempts
      {
        cell := draws[attempts];
        attempts := attempts + 1;
        if attempts >= MaxFoodAttempts {
          var scanned := ScanForFood();
          if scanned.Some? {
            return scanned.value;
          }
          return Cell(JsRem(snake[0].x + gridSize / 2, gridSize), JsRem(snake[0].y + gridSize / 2, gridSize));
        }
        // The head-distance test ends in `continue`, which in a do-while
        // loop goes on to the occupancy test below: it decides nothing.
        assert tested[attempts - 1] == cell;
        if cell !in blocked {
          return;
        }
      }
    }

    /** The nested scan of generateFood: columns outside, rows inside. */
    method ScanForFood() returns (found: Option<Cell>)
      requires gridSize >= 0
      ensures found == ScanFrom(gridSize, FoodBlocked(snake, specialOrbs), 0, 0)
    {
      var blocked := FoodBlocked(snake, specialOrbs);
      for x := 0 to gridSize
        invariant ScanFrom(gridSize, blocked, x, 0) == ScanFrom(gridSize, blocked, 0, 0)
      {
        for y := 0 to gridSize
          invariant ScanFrom(gridSize, blocked, x, y) == ScanFrom(gridSize, blocked, 0, 0)
        {
          if Cell(x, y) !in blocked {
            return Some(Cell(x, y));
          }
        }
      }
      return None;
    }

    /**
     * generateSpecialOrb: the weighted type choice, then up to 19 tested
     * random cells; the 20th attempt gives up.
     */
    method GenerateSpecialOrb(threshold: real, draws: seq<Cell>, now: int) returns (orb: Option<Orb>)
      requires |draws| >= MaxOrbAttempts
      ensures orb == OrbSpot(threshold, draws, now, OrbBlocked(snake, food, specialOrbs))
    {
      var selected := ChooseOrbType(threshold);
      if selected.None? {
        return None;
      }
      var kind := selected.value;
      var blocked := OrbBlocked(snake, food, specialOrbs);
      ghost var tested := draws[..MaxOrbAttempts - 1];
      var attempts := 0;
      while true
        invariant 0 <= attempts < MaxOrbAttempts
        invariant forall j :: 0 <= j < attempts ==> tested[j] in blocked
        decreases MaxOrbAttempts - attempts
      {
        var candidate := Orb(draws[attempts], kind, now, DisappearAt(kind, now));
        attempts := attempts + 1;
        if attempts >= MaxOrbAttempts {
          return None;
        }
        assert tested[attempts - 1] == candidate.cell;
        if candidate.cell !in blocked {
          return Some(candidate);
        }
      }
    }

    // -------------------------------------------------------------------
    // Input
    // -------------------------------------------------------------------

    /** handleDirectionChange(newDirection) at time `now`. */
    method HandleDirectionChange(newDirection: Direction, now: int)
      requires Valid()
      modifies this`lastInputTime, this`nextDirection, this`inputBuffer
      ensures State() == TurnState(old(State()), newDirection, now)
      ensures Valid()
    {
      LifecycleFacts.TurnPreservesValid(State(), newDirection, now);
      if now - lastInputTime < InputDebounce {
        return;
      }
      if Opposite(newDirection) == direction {
        return;
      }
      StampInput(now);
      QueueTurn(newDirection);
    }

    /** An accepted request restarts the debounce window. */
    method StampInput(now: int)
      modifies this`lastInputTime
      ensures State() == old(State()).(lastInputTime := now)
    {
      lastInputTime := now;
    }

    /**
     * Early in a step the turn becomes the next direction at once; later it
     * waits in the buffer, unless the buffer already holds its opposite.
     */
    method QueueTurn(d: Direction)
      modifies this`nextDirection, this`inputBuffer
      ensures var s := old(State());
        State() == if s.animationProgress < 0.3 then s.(nextDirection := d, inputBuffer := None)
                   else if s.inputBuffer.None? || Opposite(d) != s.inputBuffer.value then s.(inputBuffer := Some(d))
                   else s
    {
      if animationProgress < 0.3 {
        nextDirection := d;
        inputBuffer := None;
      } else if inputBuffer.None? || Opposite(d) != inputBuffer.value {
        inputBuffer := Some(d);
      }
    }

    // -------------------------------------------------------------------
    // moveSnake
    // -------------------------------------------------------------------

    /** moveSnake(now): one tick of the game loop; true when the snake moved. */
    method MoveSnake(now: int, orbThreshold: real, orbDraws: seq<Cell>, foodDraws: seq<Cell>) returns (moved: bool)
      requires Valid() && TickFacts.GoodDraws(gridSize, orbDraws, foodDraws)
      modifies this`activeEffects, this`animationProgress, this`lastMoveTime, this`specialOrbs,
               this`lastSpecialOrbTime, this`nextDirection, this`inputBuffer, this`direction, this`gameOver,
               this`deathCount, this`highScore, this`snake, this`score, this`crystals, this`food,
               this`moveInterval, storage`values
      ensures TickResult(State(), moved) == TickState(old(State()), now, orbThreshold, orbDraws, foodDraws)
      ensures Valid()
    {
      TickFacts.TickPreservesValid(State(), now, orbThreshold, orbDraws, foodDraws);
      if gameOver {
        return false;
      }
      ExpireSpeedEffect(now);
      var modifier := activeEffects.speedModifier;
      if (now - lastMoveTime) * 100 < moveInterval * modifier {
        ShowProgress(now, modifier);
        return false;
      }
      StartMove(now, orbThreshold, orbDraws);
      var head := Step(snake[0], direction);
      if head.x < 0 || head.x >= gridSize || head.y < 0 || head.y >= gridSize || head in snake {
        EndRound();
        return false;
      }
      Advance(head, now, foodDraws);
      return true;
    }

    /** A tick that is not due only records how far the current step has come. */
    method ShowProgress(now: int, modifier: int)
      requires moveInterval * modifier > 0
      modifies this`animationProgress
      ensures State() == old(State()).(animationProgress := Progress(now, lastMoveTime, moveInterval, modifier))
    {
      animationProgress := ((now - lastMoveTime) * 100) as real / (moveInterval * modifier) as real;
    }

    /** A due tick: the move clock restarts, the orbs are updated and the turn is committed. */
    method StartMove(now: int, threshold: real, orbDraws: seq<Cell>)
      requires |orbDraws| >= MaxOrbAttempts
      modifies this`lastMoveTime, this`specialOrbs, this`lastSpecialOrbTime, this`nextDirection,
               this`inputBuffer, this`direction, this`animationProgress
      ensures State() == CommitStage(OrbStage(old(State()).(lastMoveTime := now), now, threshold, orbDraws))
    {
      lastMoveTime := now;
      UpdateOrbs(now, threshold, orbDraws);
      CommitDirection();
    }

    /** Spawning, then the expiry filter. */
    method UpdateOrbs(now: int, threshold: real, orbDraws: seq<Cell>)
      requires |orbDraws| >= MaxOrbAttempts
      modifies this`specialOrbs, this`lastSpecialOrbTime
      ensures State() == OrbStage(old(State()), now, threshold, orbDraws)
    {
      SpawnSpecialOrb(now, threshold, orbDraws);
      specialOrbs := LiveOrbs(specialOrbs, now);
    }

    /** The head moves to a free cell: an orb there is collected, else the food eaten, else the tail follows. */
    method Advance(head: Cell, now: int, foodDraws: seq<Cell>)
      requires gridSize > 0 && |foodDraws| >= MaxFoodAttempts
      modifies this`snake, this`score, this`activeEffects, this`crystals, storage`values,
               this`specialOrbs, this`food, this`moveInterval
      ensures State() == EatStage(old(State()), head, now, foodDraws)
    {
      var k := FirstOrbAt(specialOrbs, head);
      if k < |specialOrbs| {
        CollectOrb(head, k, now);
      } else if head == food {
        Grow(head);
        EatFood(foodDraws);
      } else {
        Slither(head);
      }
    }

    /** The head is added in front. */
    method Grow(head: Cell)
      modifies this`snake
      ensures State() == old(State()).(snake := [head] + old(snake))
    {
      snake := [head] + snake;
    }

    /** The head is added in front and the tail cell dropped. */
    method Slither(head: Cell)
      modifies this`snake
      ensures var body := [head] + old(snake); State() == old(State()).(snake := body[..|body| - 1])
    {
      var body := [head] + snake;
      snake := body[..|body| - 1];
    }

    /** The orb at index k, where the head now is, takes effect and leaves the board. */
    method CollectOrb(head: Cell, k: int, now: int)
      requires 0 <= k < |specialOrbs|
      modifies this`snake, this`score, this`activeEffects, this`crystals, storage`values, this`specialOrbs
      ensures var s := old(State());
        State() == OrbEffect(s.(snake := [head] + s.snake), s.specialOrbs[k].kind, now)
                     .(specialOrbs := s.specialOrbs[..k] + s.specialOrbs[k + 1..])
    {
      var orb := specialOrbs[k];
      Grow(head);
      HandleSpecialOrb(orb, now);
      specialOrbs := specialOrbs[..k] + specialOrbs[k + 1..];
    }

    /** A speed effect whose end time has come is switched off. */
    method ExpireSpeedEffect(now: int)
      modifies this`activeEffects
      ensures State() == ExpireStage(old(State()), now)
    {
      if activeEffects.speedEffectEndTime > 0 && now >= activeEffects.speedEffectEndTime {
        activeEffects := NoEffect;
      }
    }

    /** The spawn check of a due tick: maybe a new orb, and the spawn clock restarted. */
    method SpawnSpecialOrb(now: int, threshold: real, draws: seq<Cell>)
      requires |draws| >= MaxOrbAttempts
      modifies this`specialOrbs, this`lastSpecialOrbTime
      ensures var due := now - old(lastSpecialOrbTime) > SpawnInterval(gridSize);
        State() == old(State()).(specialOrbs := SpawnedOrbs(old(State()), now, threshold, draws),
                                 lastSpecialOrbTime := if due then now else old(lastSpecialOrbTime))
    {
      if now - lastSpecialOrbTime > SpawnInterval(gridSize) {
        if |specialOrbs| < MaxSpecialOrbs(gridSize) {
          var newOrb := GenerateSpecialOrb(threshold, draws, now);
          if newOrb.Some? {
            specialOrbs := specialOrbs + [newOrb.value];
          }
        }
        lastSpecialOrbTime := now;
      }
    }

    /** The buffered turn, if any, becomes the next direction, which becomes the direction. */
    method CommitDirection()
      modifies this`nextDirection, this`inputBuffer, this`direction, this`animationProgress
      ensures State() == CommitStage(old(State()))
    {
      ApplyInputBuffer();
      direction := nextDirection;
      animationProgress := 0.0;
    }

    method ApplyInputBuffer()
      modifies this`nextDirection, this`inputBuffer
      ensures State() == old(State()).(nextDirection := Committed(old(inputBuffer), old(nextDirection)), inputBuffer := None)
    {
      if inputBuffer.Some? {
        nextDirection := inputBuffer.value;
        inputBuffer := None;
      }
    }

    /** The collision branch: game over, one more death, a new best score saved. */
    method EndRound()
      modifies this`gameOver, this`deathCount, this`highScore, storage`values
      ensures State() == GameOverStage(old(State()))
    {
      gameOver := true;
      deathCount := deathCount + 1;
      if score > highScore {
        SaveHighScore();
      }
    }

    method SaveHighScore()
      modifies this`highScore, storage`values
      ensures var s := old(State()); State() == s.(highScore := s.score, stored := s.stored[HighScoreKey := s.score])
    {
      highScore := score;
      storage.values := storage.values[HighScoreKey := highScore];
    }

    /** The food branch: ten points, new food, and a faster pace below the speed limit. */
    method EatFood(draws: seq<Cell>)
      requires gridSize > 0 && |snake| >= 1 && |draws| >= MaxFoodAttempts
      modifies this`score, this`food, this`moveInterval
      ensures var s := old(State());
        State() == s.(score := s.score + ScorePerItem,
                      food := FoodSpot(draws, s.gridSize, s.snake[0], FoodBlocked(s.snake, s.specialOrbs)),
                      moveInterval := IntervalAfterFood(s.moveInterval, s.score + ScorePerItem, s.gridSize))
    {
      score := score + ScorePerItem;
      PlaceFood(draws);
      if score < SpeedLimit(gridSize) {
        moveInterval := if moveInterval - IntervalStep > MinInterval then moveInterval - IntervalStep else MinInterval;
      }
    }

    /** handleSpecialOrb(orb): the collected orb's effect. */
    method HandleSpecialOrb(orb: Orb, now: int)
      requires |snake| >= 1
      modifies this`score, this`snake, this`activeEffects, this`crystals, storage`values
      ensures State() == OrbEffect(old(State()), orb.kind, now)
    {
      match orb.kind
      case Negative =>
        score := if score - ScorePerItem > 0 then score - ScorePerItem else 0;
        if |snake| > 3 {
          snake := snake[..|snake| - 1];
        }
      case Positive =>
        score := score + ScorePerItem;
        var tail := snake[|snake| - 1];
        snake := snake + [tail];
      case SpeedUp =>
        activeEffects := ActiveEffects(70, now + SpeedEffectDuration);
      case SlowDown =>
        activeEffects := ActiveEffects(130, now + SpeedEffectDuration);
      case Crystal =>
        SaveCrystals(crystals + 1);
    }

    /** The crystal count, written to the store as well. */
    method SaveCrystals(n: int)
      modifies this`crystals, storage`values
      ensures State() == old(State()).(crystals := n, stored := old(storage.values)[CrystalsKey := n])
    {
      crystals := n;
      storage.values := storage.values[CrystalsKey := n];
    }

    // -------------------------------------------------------------------
    // Revival
    // -------------------------------------------------------------------

    /** The segment loop of revive and reviveAfterAd: n cells leftwards from the start. */
    method LayOutSnake(n: nat) returns (body: seq<Cell>)
      ensures body == Line(startPosition, n)
    {
      body := [];
      var i := 0;
      while i < n
        invariant 0 <= i <= n
        invariant body == Line(startPosition, i)
      {
        body := body + [Cell(startPosition.x - i, startPosition.y)];
        i := i + 1;
      }
    }

    /** revive: the crystal revival (the ten-crystal check is the button's, not this method's). */
    method Revive(now: int, foodDraws: seq<Cell>)
      requires Valid() && gameOver && !pendingAdRevival
      requires |foodDraws| >= MaxFoodAttempts && AllInGrid(foodDraws, gridSize)
      modifies this`crystals, storage`values, this`gameOver, this`snake, this`direction, this`nextDirection,
               this`moveInterval, this`food, this`lastMoveTime, this`animationProgress
      ensures State() == ReviveState(old(State()), now, foodDraws)
      ensures Valid()
    {
      LifecycleFacts.ReviveFacts(State(), now, foodDraws);
      SaveCrystals(crystals - 10);
      gameOver := false;
      var body := LayOutSnake(3);
      PlaceSnake(body);
      moveInterval := baseInterval;
      PlaceFood(foodDraws);
      RestartTiming(now);
    }

    /** watchAdForRevive: count the ad revival and wait for the ad to finish. */
    method WatchAdForRevive()
      requires Valid() && gameOver
      modifies this`adRevivalsUsed, this`pendingAdRevival
      ensures State() == WatchAdState(old(State()))
      ensures Valid()
    {
      adRevivalsUsed := adRevivalsUsed + 1;
      pendingAdRevival := true;
    }

    /** completeAdRevival: revive once for the pending ad, otherwise do nothing. */
    method CompleteAdRevival(now: int, foodDraws: seq<Cell>)
      requires Valid()
      requires |foodDraws| >= MaxFoodAttempts && AllInGrid(foodDraws, gridSize)
      modifies this`pendingAdRevival, this`gameOver, this`snake, this`direction, this`nextDirection,
               this`food, this`lastMoveTime, this`animationProgress
      ensures State() == CompleteAdState(old(State()), now, foodDraws)
      ensures Valid()
    {
      LifecycleFacts.CompleteAdOnce(State(), now, foodDraws, now, foodDraws);
      if !pendingAdRevival {
        return;
      }
      pendingAdRevival := false;
      ReviveAfterAd(now, foodDraws);
    }

    /** reviveAfterAd: rebuild the snake at its length, keep score and speed. */
    method ReviveAfterAd(now: int, foodDraws: seq<Cell>)
      requires Valid() && gameOver && !pendingAdRevival
      requires |foodDraws| >= MaxFoodAttempts && AllInGrid(foodDraws, gridSize)
      modifies this`gameOver, this`snake, this`direction, this`nextDirection, this`food, this`lastMoveTime,
               this`animationProgress
      ensures State() == ReviveAfterAdState(old(State()), now, foodDraws)
      ensures Valid()
    {
      LifecycleFacts.ReviveAfterAdFacts(State(), now, foodDraws);
      gameOver := false;
      var body := LayOutSnake(|snake|);
      PlaceSnake(body);
      PlaceFood(foodDraws);
      RestartTiming(now);
    }
  }
}
