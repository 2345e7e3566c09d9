/**
 * What one moveSnake call does, proved about TickState for every state the
 * game can be in and every clock value and random draw.
 */
module TickFacts {
  import opened Wrappers
  import opened Grid
  import opened Orbs
  import opened Rules
  import opened Storage
  import opened States

  /** Draws of Math.floor(Math.random() * gridSize): enough of them, all on the board. */
  predicate GoodDraws(size: int, orbDraws: seq<Cell>, foodDraws: seq<Cell>)
  {
    && |orbDraws| >= MaxOrbAttempts && AllInGrid(orbDraws, size)
    && |foodDraws| >= MaxFoodAttempts && AllInGrid(foodDraws, size)
  }

  /** The modifier the interval test of a live tick uses. */
  function ModifierAt(s: GameState, now: int): int
  {
    AfterExpiry(s.activeEffects, now).speedModifier
  }

  /**
   * The spawn check keeps the old orbs, adds at most one, and adds one only
   * when the spawn interval has passed and the cap is not reached; a new orb
   * has the chosen type and sits on a board cell clear of snake, food and orbs.
   */
  lemma SpawnedOrbsFacts(s: GameState, now: int, threshold: real, orbDraws: seq<Cell>)
    requires ValidState(s) && |orbDraws| >= MaxOrbAttempts && AllInGrid(orbDraws, s.gridSize)
    ensures var r := SpawnedOrbs(s, now, threshold, orbDraws);
      && |s.specialOrbs| <= |r| <= |s.specialOrbs| + 1
      && r[..|s.specialOrbs|] == s.specialOrbs
      && |r| <= MaxSpecialOrbs(s.gridSize)
      && (forall i :: 0 <= i < |r| ==> InGrid(r[i].cell, s.gridSize))
      && (|r| > |s.specialOrbs| ==>
            && now - s.lastSpecialOrbTime > SpawnInterval(s.gridSize)
            && |s.specialOrbs| < MaxSpecialOrbs(s.gridSize)
            && Some(r[|r| - 1].kind) == PickKind(threshold)
            && r[|r| - 1].cell !in OrbBlocked(s.snake, s.food, s.specialOrbs)
            && r[|r| - 1].createdAt == now)
  {
    var blocked := OrbBlocked(s.snake, s.food, s.specialOrbs);
    OrbSpotPlacement(threshold, orbDraws, now, blocked, s.gridSize);
    var r := SpawnedOrbs(s, now, threshold, orbDraws);
    if |r| > |s.specialOrbs| {
      assert r == s.specialOrbs + [OrbSpot(threshold, orbDraws, now, blocked).value];
    }
  }

  /** After spawning and expiry the orbs are on the board, under the cap, and none has expired. */
  lemma OrbsAtMoveFacts(s: GameState, now: int, threshold: real, orbDraws: seq<Cell>)
    requires ValidState(s) && |orbDraws| >= MaxOrbAttempts && AllInGrid(orbDraws, s.gridSize)
    ensures var r := OrbsAtMove(s, now, threshold, orbDraws);
      && |r| <= MaxSpecialOrbs(s.gridSize)
      && (forall i :: 0 <= i < |r| ==> InGrid(r[i].cell, s.gridSize))
      && (forall o :: o in r ==> !Expired(o, now) && o in SpawnedOrbs(s, now, threshold, orbDraws))
  {
    SpawnedOrbsFacts(s, now, threshold, orbDraws);
    var spawned := SpawnedOrbs(s, now, threshold, orbDraws);
    var r := OrbsAtMove(s, now, threshold, orbDraws);
    forall i | 0 <= i < |r|
      ensures InGrid(r[i].cell, s.gridSize)
    {
      assert r[i] in spawned;
      var j :| 0 <= j < |spawned| && spawned[j] == r[i];
    }
  }

  /** The state a due tick has reached when it tests for collision. */
  function CommittedState(s: GameState, now: int, threshold: real, orbDraws: seq<Cell>): GameState
    requires |orbDraws| >= MaxOrbAttempts
  {
    CommitStage(OrbStage(ExpireStage(s, now).(lastMoveTime := now), now, threshold, orbDraws))
  }

  /** The committed state still satisfies every invariant, with the buffer empty. */
  lemma CommittedStateValid(s: GameState, now: int, threshold: real, orbDraws: seq<Cell>)
    requires ValidState(s) && !s.gameOver
    requires |orbDraws| >= MaxOrbAttempts && AllInGrid(orbDraws, s.gridSize)
    ensures var c := CommittedState(s, now, threshold, orbDraws);
      && ValidState(c) && c.inputBuffer == None && c.nextDirection == c.direction
      && c.direction == Committed(s.inputBuffer, s.nextDirection)
      && c.snake == s.snake && c.food == s.food && c.score == s.score && c.crystals == s.crystals
      && c.highScore == s.highScore && c.deathCount == s.deathCount && c.moveInterval == s.moveInterval
      && c.gridSize == s.gridSize && c.lastMoveTime == now && !c.gameOver
      && c.specialOrbs == OrbsAtMove(s, now, threshold, orbDraws)
      && c.activeEffects == AfterExpiry(s.activeEffects, now)
  {
    OrbsAtMoveFacts(s, now, threshold, orbDraws);
  }

  /** Collecting any orb keeps every invariant of a body of four or more segments. */
  lemma OrbEffectValid(t: GameState, k: OrbKind, now: int)
    requires ValidState(t) && |t.snake| >= 4
    ensures ValidState(OrbEffect(t, k, now))
  {
    match k
    case Negative =>
      var score := if t.score - ScorePerItem > 0 then t.score - ScorePerItem else 0;
      assert score % ScorePerItem == 0;
    case Positive =>
    case SpeedUp =>
    case SlowDown =>
    case Crystal =>
  }

  /** Dropping orbs from the list keeps every invariant. */
  lemma FewerOrbsValid(u: GameState, orbs: seq<Orb>)
    requires ValidState(u) && |orbs| <= |u.specialOrbs|
    requires forall o :: o in orbs ==> o in u.specialOrbs
    ensures ValidState(u.(specialOrbs := orbs))
  {
    forall i | 0 <= i < |orbs|
      ensures InGrid(orbs[i].cell, u.gridSize)
    {
      assert orbs[i] in u.specialOrbs;
      var j :| 0 <= j < |u.specialOrbs| && u.specialOrbs[j] == orbs[i];
    }
  }

  /** Every orb left after removing entry k was in the list. */
  lemma SpliceSubset(orbs: seq<Orb>, k: nat)
    requires k < |orbs|
    ensures var rest := orbs[..k] + orbs[k + 1..];
      |rest| == |orbs| - 1 && forall o :: o in rest ==> o in orbs
  {
    var rest := orbs[..k] + orbs[k + 1..];
    forall o | o in rest
      ensures o in orbs
    {
      var j :| 0 <= j < |rest| && rest[j] == o;
      if j < k { assert o == orbs[j]; } else { assert o == orbs[j + 1]; }
    }
  }

  /** A move onto a free board cell keeps every invariant. */
  lemma EatStageValid(c: GameState, head: Cell, now: int, foodDraws: seq<Cell>)
    requires ValidState(c) && !c.gameOver
    requires |foodDraws| >= MaxFoodAttempts && AllInGrid(foodDraws, c.gridSize)
    requires InGrid(head, c.gridSize)
    ensures ValidState(EatStage(c, head, now, foodDraws))
  {
    var body := [head] + c.snake;
    var orbs := c.specialOrbs;
    var k := FirstOrbAt(orbs, head);
    var t := c.(snake := body);
    assert ValidState(t);
    if k < |orbs| {
      OrbEffectValid(t, orbs[k].kind, now);
      SpliceSubset(orbs, k);
      FewerOrbsValid(OrbEffect(t, orbs[k].kind, now), orbs[..k] + orbs[k + 1..]);
    } else if head == c.food {
      FoodSpotInGrid(foodDraws, c.gridSize, head, FoodBlocked(body, orbs));
    } else {
      assert body[..|body| - 1][0] == head;
    }
  }

  /**
   * What the move itself does, by the cell the head lands on: body, score,
   * crystals, interval, effect and orbs change as that cell says, and
   * nothing about direction, timing or the game-over flag changes.
   */
  lemma EatStageFacts(c: GameState, head: Cell, now: int, foodDraws: seq<Cell>)
    requires |c.snake| >= 3 && c.gridSize > 0 && |foodDraws| >= MaxFoodAttempts
    ensures var r := EatStage(c, head, now, foodDraws);
      var eaten := EatenAt(c.specialOrbs, c.food, head);
      var k := FirstOrbAt(c.specialOrbs, head);
      && r.gameOver == c.gameOver && r.highScore == c.highScore && r.deathCount == c.deathCount
      && r.direction == c.direction && r.nextDirection == c.nextDirection
      && r.inputBuffer == c.inputBuffer && r.lastMoveTime == c.lastMoveTime
      && r.snake == AdvanceBody(c.snake, head, eaten)
      && r.score == ScoreAfter(c.score, eaten)
      && r.crystals == c.crystals + (if eaten == OrbOf(Crystal) then 1 else 0)
      && r.moveInterval == (if eaten == Food then IntervalAfterFood(c.moveInterval, c.score + ScorePerItem, c.gridSize)
                            else c.moveInterval)
      && r.activeEffects == (if eaten.OrbOf? then AfterOrbEffect(c.activeEffects, eaten.kind, now) else c.activeEffects)
      && r.specialOrbs == (if k < |c.specialOrbs| then c.specialOrbs[..k] + c.specialOrbs[k + 1..] else c.specialOrbs)
      && (eaten != Food ==> r.food == c.food)
  {
    var body := [head] + c.snake;
    var k := FirstOrbAt(c.specialOrbs, head);
    var r := EatStage(c, head, now, foodDraws);
    if k < |c.specialOrbs| {
      var kind := c.specialOrbs[k].kind;
      var u := OrbEffect(c.(snake := body), kind, now);
      assert r == u.(specialOrbs := c.specialOrbs[..k] + c.specialOrbs[k + 1..]);
      assert EatenAt(c.specialOrbs, c.food, head) == OrbOf(kind);
      OrbEffectFacts(c.(snake := body), kind, now);
    } else if head == c.food {
      assert EatenAt(c.specialOrbs, c.food, head) == Food;
    } else {
      assert EatenAt(c.specialOrbs, c.food, head) == Nothing;
      assert r == c.(snake := body[..|body| - 1]);
    }
  }

  /** handleSpecialOrb on a body that just grew a head: body, score, crystals and effect by kind. */
  lemma OrbEffectFacts(t: GameState, k: OrbKind, now: int)
    requires |t.snake| >= 4
    ensures var r := OrbEffect(t, k, now);
      && r.snake == AfterOrbBody(t.snake, k)
      && r.score == ScoreAfter(t.score, OrbOf(k))
      && r.crystals == t.crystals + (if k == Crystal then 1 else 0)
      && r.activeEffects == AfterOrbEffect(t.activeEffects, k, now)
      && r.(snake := t.snake, score := t.score, crystals := t.crystals,
            activeEffects := t.activeEffects, stored := t.stored) == t
  {
  }

  /** Proof helper: TickState unfolded into its four outcomes for the lemmas below. */
  lemma TickCases(s: GameState, now: int, threshold: real, orbDraws: seq<Cell>, foodDraws: seq<Cell>)
    requires ValidState(s) && |orbDraws| >= MaxOrbAttempts && |foodDraws| >= MaxFoodAttempts
    ensures var t := TickState(s, now, threshold, orbDraws, foodDraws);
      var c := CommittedState(s, now, threshold, orbDraws);
      var due := Due(now, s.lastMoveTime, s.moveInterval, ModifierAt(s, now));
      && (s.gameOver ==> t == TickResult(s, false))
      && (!s.gameOver && !due ==>
            t == TickResult(ExpireStage(s, now).(animationProgress :=
                   Progress(now, s.lastMoveTime, s.moveInterval, ModifierAt(s, now))), false))
      && (!s.gameOver && due && Collides(NextHead(s), s.snake, s.gridSize) ==>
            t == TickResult(GameOverStage(c), false))
      && (!s.gameOver && due && !Collides(NextHead(s), s.snake, s.gridSize) ==>
            t == TickResult(EatStage(c, NextHead(s), now, foodDraws), true))
  {
    var c := CommittedState(s, now, threshold, orbDraws);
    assert c.snake == s.snake && c.gridSize == s.gridSize;
    assert c.direction == Committed(s.inputBuffer, s.nextDirection);
  }

  /** A state that no longer moves: every later tick returns false and changes nothing. */
  lemma TickAfterGameOver(s: GameState, now: int, threshold: real, orbDraws: seq<Cell>, foodDraws: seq<Cell>)
    requires ValidState(s) && s.gameOver
    requires |orbDraws| >= MaxOrbAttempts && |foodDraws| >= MaxFoodAttempts
    ensures TickState(s, now, threshold, orbDraws, foodDraws) == TickResult(s, false)
  {
  }

  /** Every invariant of the game survives a tick. */
  lemma TickPreservesValid(s: GameState, now: int, threshold: real, orbDraws: seq<Cell>, foodDraws: seq<Cell>)
    requires ValidState(s) && GoodDraws(s.gridSize, orbDraws, foodDraws)
    ensures ValidState(TickState(s, now, threshold, orbDraws, foodDraws).state)
  {
    if !s.gameOver && Due(now, s.lastMoveTime, s.moveInterval, ModifierAt(s, now)) {
      var c := CommittedState(s, now, threshold, orbDraws);
      CommittedStateValid(s, now, threshold, orbDraws);
      var head := Step(c.snake[0], c.direction);
      if !Collides(head, c.snake, c.gridSize) {
        EatStageValid(c, head, now, foodDraws);
      }
    }
  }

  /**
   * A collision ends the game and nothing else moves: once over, the state
   * stays fixed under every later tick, whatever the clock and the draws.
   */
  lemma GameOverIsFinal(s: GameState, now: int, threshold: real, orbDraws: seq<Cell>, foodDraws: seq<Cell>,
                        later: int, threshold2: real, orbDraws2: seq<Cell>, foodDraws2: seq<Cell>)
    requires ValidState(s) && GoodDraws(s.gridSize, orbDraws, foodDraws)
    requires |orbDraws2| >= MaxOrbAttempts && |foodDraws2| >= MaxFoodAttempts
    requires TickState(s, now, threshold, orbDraws, foodDraws).state.gameOver
    ensures var t := TickState(s, now, threshold, orbDraws, foodDraws).state;
      ValidState(t) && TickState(t, later, threshold2, orbDraws2, foodDraws2) == TickResult(t, false)
  {
    TickPreservesValid(s, now, threshold, orbDraws, foodDraws);
  }

  /**
   * On a due tick the game ends exactly when the next head leaves the board
   * or lands on any segment, the tail included; then the body, score and
   * crystals stay, and the high score becomes the larger of the two.
   */
  lemma TickCollision(s: GameState, now: int, threshold: real, orbDraws: seq<Cell>, foodDraws: seq<Cell>)
    requires ValidState(s) && !s.gameOver && GoodDraws(s.gridSize, orbDraws, foodDraws)
    requires Due(now, s.lastMoveTime, s.moveInterval, ModifierAt(s, now))
    ensures var r := TickState(s, now, threshold, orbDraws, foodDraws);
      && (r.state.gameOver <==> Collides(NextHead(s), s.snake, s.gridSize))
      && (r.state.gameOver <==> !r.moved)
      && (r.state.gameOver ==>
            && r.state.snake == s.snake && r.state.score == s.score && r.state.crystals == s.crystals
            && r.state.highScore == (if s.score > s.highScore then s.score else s.highScore)
            && r.state.deathCount == s.deathCount + 1
            && (s.score > s.highScore ==> Get(r.state.stored, HighScoreKey) == s.score))
  {
    TickCases(s, now, threshold, orbDraws, foodDraws);
    CommittedStateValid(s, now, threshold, orbDraws);
    var c := CommittedState(s, now, threshold, orbDraws);
    if !Collides(NextHead(s), s.snake, s.gridSize) {
      EatStageFacts(c, NextHead(s), now, foodDraws);
    }
  }

  /** A tick that is not due only expires the speed effect and advances the animation. */
  lemma TickNotDue(s: GameState, now: int, threshold: real, orbDraws: seq<Cell>, foodDraws: seq<Cell>)
    requires ValidState(s) && !s.gameOver
    requires |orbDraws| >= MaxOrbAttempts && |foodDraws| >= MaxFoodAttempts
    requires !Due(now, s.lastMoveTime, s.moveInterval, ModifierAt(s, now))
    ensures var r := TickState(s, now, threshold, orbDraws, foodDraws);
      && !r.moved
      && r.state == s.(activeEffects := AfterExpiry(s.activeEffects, now), animationProgress := r.state.animationProgress)
      && r.state.animationProgress < 1.0
  {
    TickCases(s, now, threshold, orbDraws, foodDraws);
    var elapsed := (now - s.lastMoveTime) * 100;
    var whole := s.moveInterval * ModifierAt(s, now);
    QuotientBelowOne(elapsed as real, whole as real);
  }

  lemma QuotientBelowOne(a: real, b: real)
    requires b > 0.0 && a < b
    ensures a / b < 1.0
  {
  }

  /** The conditions under which a tick moves the snake. */
  predicate MovesOn(s: GameState, now: int)
    requires |s.snake| >= 1
  {
    !s.gameOver && Due(now, s.lastMoveTime, s.moveInterval, ModifierAt(s, now))
    && !Collides(NextHead(s), s.snake, s.gridSize)
  }

  /**
   * A tick moves exactly when the game is live, the interval has elapsed and
   * the next head is free; the committed direction is never the opposite of
   * the old one, and the buffer is spent.
   */
  lemma TickTurns(s: GameState, now: int, threshold: real, orbDraws: seq<Cell>, foodDraws: seq<Cell>)
    requires ValidState(s) && GoodDraws(s.gridSize, orbDraws, foodDraws)
    ensures var t := TickState(s, now, threshold, orbDraws, foodDraws);
      && (t.moved <==> MovesOn(s, now))
      && (!s.gameOver && Due(now, s.lastMoveTime, s.moveInterval, ModifierAt(s, now)) ==>
            && t.state.direction == Committed(s.inputBuffer, s.nextDirection)
            && t.state.direction != Opposite(s.direction)
            && t.state.nextDirection == t.state.direction
            && t.state.inputBuffer == None
            && t.state.lastMoveTime == now)
  {
    TickCases(s, now, threshold, orbDraws, foodDraws);
    if !s.gameOver && Due(now, s.lastMoveTime, s.moveInterval, ModifierAt(s, now)) {
      CommittedStateValid(s, now, threshold, orbDraws);
      if !Collides(NextHead(s), s.snake, s.gridSize) {
        EatStageFacts(CommittedState(s, now, threshold, orbDraws), NextHead(s), now, foodDraws);
      }
    }
  }

  /**
   * On a tick that moves, the new head is one step from the old head in the
   * committed direction and the old segments follow in order; body, score
   * and crystals change exactly as the cell the head landed on says.
   */
  lemma TickAdvance(s: GameState, now: int, threshold: real, orbDraws: seq<Cell>, foodDraws: seq<Cell>)
    requires ValidState(s) && GoodDraws(s.gridSize, orbDraws, foodDraws) && MovesOn(s, now)
    ensures var r := TickState(s, now, threshold, orbDraws, foodDraws).state;
      var head := NextHead(s);
      var eaten := EatenAt(OrbsAtMove(s, now, threshold, orbDraws), s.food, head);
      && r.snake == AdvanceBody(s.snake, head, eaten)
      && r.snake[0] == head
      && |r.snake| == |s.snake| + LengthDelta(eaten)
      && r.score == ScoreAfter(s.score, eaten)
      && r.crystals == s.crystals + (if eaten == OrbOf(Crystal) then 1 else 0)
  {
    TickCases(s, now, threshold, orbDraws, foodDraws);
    CommittedStateValid(s, now, threshold, orbDraws);
    EatStageFacts(CommittedState(s, now, threshold, orbDraws), NextHead(s), now, foodDraws);
  }

  /**
   * Food is the only thing that changes the move interval: by five, not
   * below 50, and only while the raised score is under the size's limit.
   */
  lemma TickInterval(s: GameState, now: int, threshold: real, orbDraws: seq<Cell>, foodDraws: seq<Cell>)
    requires ValidState(s) && GoodDraws(s.gridSize, orbDraws, foodDraws)
    ensures var t := TickState(s, now, threshold, orbDraws, foodDraws);
      var eaten := EatenAt(OrbsAtMove(s, now, threshold, orbDraws), s.food, NextHead(s));
      && t.state.moveInterval ==
           (if t.moved && eaten == Food then IntervalAfterFood(s.moveInterval, s.score + ScorePerItem, s.gridSize)
            else s.moveInterval)
      && MinInterval <= t.state.moveInterval <= s.baseInterval
  {
    TickCases(s, now, threshold, orbDraws, foodDraws);
    TickPreservesValid(s, now, threshold, orbDraws, foodDraws);
    if !s.gameOver && Due(now, s.lastMoveTime, s.moveInterval, ModifierAt(s, now)) {
      CommittedStateValid(s, now, threshold, orbDraws);
      if !Collides(NextHead(s), s.snake, s.gridSize) {
        EatStageFacts(CommittedState(s, now, threshold, orbDraws), NextHead(s), now, foodDraws);
      }
    }
  }

  /**
   * The speed effect: expired first on every live tick, then replaced (never
   * stacked) by a speed orb the head collects.
   */
  lemma TickEffects(s: GameState, now: int, threshold: real, orbDraws: seq<Cell>, foodDraws: seq<Cell>)
    requires ValidState(s) && !s.gameOver && GoodDraws(s.gridSize, orbDraws, foodDraws)
    ensures var t := TickState(s, now, threshold, orbDraws, foodDraws);
      var eaten := EatenAt(OrbsAtMove(s, now, threshold, orbDraws), s.food, NextHead(s));
      var expired := AfterExpiry(s.activeEffects, now);
      t.state.activeEffects == (if t.moved && eaten.OrbOf? then AfterOrbEffect(expired, eaten.kind, now) else expired)
  {
    TickCases(s, now, threshold, orbDraws, foodDraws);
    if Due(now, s.lastMoveTime, s.moveInterval, ModifierAt(s, now)) {
      CommittedStateValid(s, now, threshold, orbDraws);
      if !Collides(NextHead(s), s.snake, s.gridSize) {
        EatStageFacts(CommittedState(s, now, threshold, orbDraws), NextHead(s), now, foodDraws);
      }
    }
  }

  /**
   * Orbs on a due tick: none left has expired, and an orb on the head's cell
   * is collected (and removed) in preference to food on the same cell, which
   * then stays where it was.
   */
  lemma TickOrbs(s: GameState, now: int, threshold: real, orbDraws: seq<Cell>, foodDraws: seq<Cell>)
    requires ValidState(s) && !s.gameOver && GoodDraws(s.gridSize, orbDraws, foodDraws)
    requires Due(now, s.lastMoveTime, s.moveInterval, ModifierAt(s, now))
    ensures var t := TickState(s, now, threshold, orbDraws, foodDraws);
      var live := OrbsAtMove(s, now, threshold, orbDraws);
      var k := FirstOrbAt(live, NextHead(s));
      && (forall o :: o in t.state.specialOrbs ==> !Expired(o, now) && o in live)
      && (t.moved && k < |live| ==>
            t.state.specialOrbs == live[..k] + live[k + 1..] && t.state.food == s.food)
      && (!t.moved || k == |live| ==> t.state.specialOrbs == live)
  {
    TickCases(s, now, threshold, orbDraws, foodDraws);
    OrbsAtMoveFacts(s, now, threshold, orbDraws);
    CommittedStateValid(s, now, threshold, orbDraws);
    var live := OrbsAtMove(s, now, threshold, orbDraws);
    var k := FirstOrbAt(live, NextHead(s));
    if !Collides(NextHead(s), s.snake, s.gridSize) {
      EatStageFacts(CommittedState(s, now, threshold, orbDraws), NextHead(s), now, foodDraws);
      if k < |live| {
        SpliceSubset(live, k);
      }
    }
  }
}
