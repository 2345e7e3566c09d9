/**
 * Input handling, setup, reset and the two kinds of revival, proved about
 * the state functions of module States.
 */
module LifecycleFacts {
  import opened Wrappers
  import opened Grid
  import opened Orbs
  import opened Rules
  import opened Storage
  import opened States

  // ---------------------------------------------------------------------
  // handleDirectionChange
  // ---------------------------------------------------------------------

  /** A request within 30 ms of the last accepted one, or a reversal, changes nothing. */
  lemma {:induction false} TurnIgnored(s: GameState, d: Direction, now: int)
    ensures now - s.lastInputTime < InputDebounce || d == Opposite(s.direction) ==> TurnState(s, d, now) == s
  {
    if d == Opposite(s.direction) {
      OppositeInvolutive(s.direction);
    }
  }

  lemma OppositeInvolutive(d: Direction)
    ensures Opposite(Opposite(d)) == d
  {
  }

  /**
   * An accepted request stamps the input time and decides the direction the
   * next due tick commits to: the request itself, unless it arrives late in
   * a step while the buffer holds its opposite, in which case the buffered
   * turn stands. The current direction is untouched until that tick.
   */
  lemma TurnAccepted(s: GameState, d: Direction, now: int)
    requires now - s.lastInputTime >= InputDebounce && d != Opposite(s.direction)
    ensures var r := TurnState(s, d, now);
      && r.lastInputTime == now && r.direction == s.direction
      && Committed(r.inputBuffer, r.nextDirection) ==
           (if s.animationProgress >= 0.3 && s.inputBuffer == Some(Opposite(d))
            then Committed(s.inputBuffer, s.nextDirection) else d)
  {
    OppositeInvolutive(d);
  }

  /** Input never breaks an invariant; in particular nothing queued is a reversal. */
  lemma TurnPreservesValid(s: GameState, d: Direction, now: int)
    requires ValidState(s)
    ensures ValidState(TurnState(s, d, now))
  {
    if now - s.lastInputTime < InputDebounce || Opposite(d) == s.direction {
      assert TurnState(s, d, now) == s;
    } else {
      OppositeInvolutive(d);
      OppositeInvolutive(s.direction);
      assert d != Opposite(s.direction);
      var t := s.(lastInputTime := now);
      assert ValidState(t);
      if s.animationProgress < 0.3 {
        assert ValidState(t.(nextDirection := d, inputBuffer := None));
      } else if s.inputBuffer.None? || Opposite(d) != s.inputBuffer.value {
        assert ValidState(t.(inputBuffer := Some(d)));
      }
    }
  }

  // ---------------------------------------------------------------------
  // reset and initializeGame
  // ---------------------------------------------------------------------

  /**
   * reset starts a new round: three segments heading right from the start
   * position, score 0, base speed, no orbs, effect or ad revivals used; the
   * crystals, the high score and the store are kept.
   */
  lemma ResetFacts(s: GameState, foodDraws: seq<Cell>)
    requires Configured(s) && !s.pendingAdRevival
    requires |foodDraws| >= MaxFoodAttempts && AllInGrid(foodDraws, s.gridSize)
    ensures var r := ResetState(s, foodDraws);
      var p := s.startPosition;
      && ValidState(r) && !r.gameOver
      && r.snake == [p, Cell(p.x - 1, p.y), Cell(p.x - 2, p.y)]
      && r.direction == Right && r.nextDirection == Right && r.inputBuffer == None
      && r.score == 0 && r.moveInterval == s.baseInterval
      && r.specialOrbs == [] && r.activeEffects == NoEffect && r.adRevivalsUsed == 0
      && r.crystals == s.crystals && r.highScore == s.highScore && r.stored == s.stored
  {
    var body := Line(s.startPosition, 3);
    FoodSpotInGrid(foodDraws, s.gridSize, body[0], FoodBlocked(body, s.specialOrbs));
  }

  /**
   * initializeGame chooses the interval 150 and start (5, 5) below 40
   * cells, 180 and (size/8, size/8) from 40 on, reads the high score from
   * the store, and resets.
   */
  lemma InitializeFacts(s: GameState, size: int, foodDraws: seq<Cell>)
    requires SupportedSize(size) && !s.pendingAdRevival
    requires |foodDraws| >= MaxFoodAttempts && AllInGrid(foodDraws, size)
    ensures var r := InitializeState(s, size, foodDraws);
      && ValidState(r) && r.gridSize == size
      && r.baseInterval == (if size >= 40 then 180 else 150)
      && r.moveInterval == r.baseInterval
      && r.startPosition == (if size >= 40 then Cell(size / 8, size / 8) else Cell(5, 5))
      && r.highScore == Get(s.stored, HighScoreKey) && r.deathCount == 0
  {
    var t := s.(gridSize := size, deathCount := 0, baseInterval := BaseInterval(size),
                startPosition := StartPosition(size),
                highScore := Get(s.stored, HighScoreKey),
                animationProgress := 0.0, lastMoveTime := 0, initialized := true);
    ResetFacts(t, foodDraws);
  }

  // ---------------------------------------------------------------------
  // Revival
  // ---------------------------------------------------------------------

  /**
   * revive takes exactly ten crystals (stored as well), rebuilds a
   * three-segment snake heading right, restores the base speed and keeps
   * the score; offered at ten crystals or more, it never leaves a debt.
   */
  lemma ReviveFacts(s: GameState, now: int, foodDraws: seq<Cell>)
    requires ValidState(s) && s.gameOver && !s.pendingAdRevival
    requires |foodDraws| >= MaxFoodAttempts && AllInGrid(foodDraws, s.gridSize)
    ensures var r := ReviveState(s, now, foodDraws);
      && ValidState(r) && !r.gameOver
      && r.snake == [s.startPosition, Cell(s.startPosition.x - 1, s.startPosition.y),
                     Cell(s.startPosition.x - 2, s.startPosition.y)]
      && r.direction == Right && r.nextDirection == Right
      && r.score == s.score && r.moveInterval == s.baseInterval
      && r.crystals == s.crystals - 10 && Get(r.stored, CrystalsKey) == r.crystals
      && r.lastMoveTime == now
      && (CrystalReviveOffered(s) ==> r.crystals >= 0)
  {
    var body := Line(s.startPosition, 3);
    FoodSpotInGrid(foodDraws, s.gridSize, body[0], FoodBlocked(body, s.specialOrbs));
  }

  /**
   * reviveAfterAd rebuilds the snake at the length it died with, heading
   * right from the start position, and keeps score and speed.
   */
  lemma ReviveAfterAdFacts(s: GameState, now: int, foodDraws: seq<Cell>)
    requires ValidState(s) && s.gameOver && !s.pendingAdRevival
    requires |foodDraws| >= MaxFoodAttempts && AllInGrid(foodDraws, s.gridSize)
    ensures var r := ReviveAfterAdState(s, now, foodDraws);
      && ValidState(r) && !r.gameOver
      && |r.snake| == |s.snake| && r.snake[0] == s.startPosition
      && (forall i :: 0 <= i < |r.snake| ==> r.snake[i] == Cell(s.startPosition.x - i, s.startPosition.y))
      && r.score == s.score && r.moveInterval == s.moveInterval && r.crystals == s.crystals
  {
    var body := Line(s.startPosition, |s.snake|);
    FoodSpotInGrid(foodDraws, s.gridSize, body[0], FoodBlocked(body, s.specialOrbs));
  }

  /**
   * A snake longer than the columns left of the start position comes back
   * partly off the board: its tail segment has a negative x.
   */
  lemma ReviveAfterAdOffBoard(s: GameState, now: int, foodDraws: seq<Cell>)
    requires ValidState(s) && |foodDraws| >= MaxFoodAttempts
    requires |s.snake| > s.startPosition.x + 1
    ensures var r := ReviveAfterAdState(s, now, foodDraws);
      !InGrid(r.snake[|r.snake| - 1], s.gridSize)
  {
    var r := ReviveAfterAdState(s, now, foodDraws);
    assert r.snake[|r.snake| - 1].x == s.startPosition.x - (|s.snake| - 1) < 0;
  }

  /** Watching an ad uses one of the three ad revivals and leaves the revival pending. */
  lemma WatchAdFacts(s: GameState)
    requires ValidState(s) && s.gameOver
    ensures var r := WatchAdState(s);
      && ValidState(r) && r.pendingAdRevival
      && r.adRevivalsUsed == s.adRevivalsUsed + 1
      && (AdReviveOffered(s) ==> r.adRevivalsUsed <= 3)
  {
  }

  /**
   * completeAdRevival revives once per pending ad: it clears the flag and
   * revives, and a second call with no new ad changes nothing.
   */
  lemma CompleteAdOnce(s: GameState, now: int, foodDraws: seq<Cell>, later: int, foodDraws2: seq<Cell>)
    requires ValidState(s)
    requires |foodDraws| >= MaxFoodAttempts && AllInGrid(foodDraws, s.gridSize) && |foodDraws2| >= MaxFoodAttempts
    ensures var r := CompleteAdState(s, now, foodDraws);
      && ValidState(r) && !r.pendingAdRevival
      && (s.pendingAdRevival ==> !r.gameOver && r == ReviveAfterAdState(s.(pendingAdRevival := false), now, foodDraws))
      && (!s.pendingAdRevival ==> r == s)
      && CompleteAdState(r, later, foodDraws2) == r
  {
    if s.pendingAdRevival {
      ReviveAfterAdFacts(s.(pendingAdRevival := false), now, foodDraws);
    }
  }
}
