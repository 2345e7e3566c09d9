# Snake: the game rules engine and the developer console

This project is a Dafny model of the two stateful objects of a browser snake game.

- `SnakeGame` (game.js) holds the board and the state of one game. That state covers the snake, its direction and the buffered turn, score, best score, crystals, the move interval, the active speed effect, the special orbs, the food, the game-over flag and the revival counters. Its operations are:
  - setting a board size up (`initializeGame`) and starting a round (`reset`);
  - accepting a direction request (`handleDirectionChange`);
  - one tick of the game loop (`moveSnake`) with the orb effects (`handleSpecialOrb`);
  - placing food and orbs (`generateFood`, `generateSpecialOrb`);
  - the crystal revival and the ad revival (`revive`, `watchAdForRevive`, `completeAdRevival`, `reviveAfterAd`);
  - darkening an orb colour for its gradient (`darkenColor`).
- `ConsoleManager` (console.js) is a password-gated developer console. It recognises `/give <n>`, `/idnum <n>` and `/stats`, and reads and writes the browser's key-value store. It mirrors what it changes into whatever object `window.game` names; the game script binds its instance to a top-level `const game`, which creates no such property, so in these files the mirror reaches no game.

How the model is built:

- Each object is a Dafny `class` whose fields are the object's fields, updated in place by methods that follow the source's steps (`game.dfy`, `console.dfy`).
- The rules of the game are stated separately as functions from the old state to the new one (`states.dfy`). They are assembled from the pure pieces in `grid.dfy`, `orbs.dfy` and `rules.dfy`.
- Every `SnakeGame` method is proved to end in exactly the state its function gives, and to keep the game's invariant `ValidState`.
- The properties of the game are lemmas about those functions (`tick_facts.dfy`, `lifecycle_facts.dfy`).
- `darkenColor` is pure and is modelled as a function with lemmas (`color.dfy`).

Inputs and units:

- Randomness and the clock are parameters. Each `Math.random()` cell draw is an element of a sequence of candidate cells, the orb-type draw is a threshold in [0, 140), and the tick's clock (the animation-frame timestamp handed to `moveSnake`) is the integer `now`.
- Spawn weights are kept ×100 as integers (20, 30, 25, 25, 40).
- The speed modifier is a percentage of the move interval (100, 70, 130).
- The store is a `map<string, int>` of numeric entries, read with 0 for a missing key, plus the optional player id.

Behaviours of the code worth noting, which the model follows:

- Self-collision tests the whole body, including the tail cell about to be vacated (game.js:972).
- Orbs are spawned before the expiry filter runs (game.js:915-946).
- A tick sets `lastMoveTime` to `now` with no remainder carried (game.js:912).
- A negative orb makes a net change of 0 segments (head added, tail removed), and a positive orb +2.
- `revive` does not check the crystal balance. Only the button is conditional (game.js:1550, 1690).
- A speed effect expires only when its end time is positive and reached (game.js:898).
- The 30 ms debounce is done by `handleDirectionChange` itself (game.js:1909).

## Model

| member | source | states |
|---|---|---|
| Grid.Opposite | game.js:1913-1918 | the opposite of a direction is a different direction |
| Grid.StepOppositeUndoes | game.js:960-967 | a step followed by a step the opposite way returns to the cell |
| Grid.StepIsUnit | game.js:960-967 | a step changes exactly one coordinate by exactly one |
| Grid.TileSize | game.js:389-392 | the tile size fits the board into both canvas dimensions, and one pixel more per cell would not fit |
| Orbs.CumWeightTotal | game.js:81-122 | the five spawn weights add up to 140 |
| Orbs.PickKindByWeight | game.js:746-756 | catalog entry i is chosen exactly for thresholds in its slice (CumWeight(i), CumWeight(i+1)], so each type owns a slice as wide as its weight |
| Orbs.PickKindTotal | game.js:746-758 | the choice yields a type if and only if the threshold is at most the total weight, so never null for a draw in [0, total) |
| Orbs.ChooseOrbType | game.js:747-758 | the subtract-until-non-positive loop returns the weighted choice PickKind |
| Orbs.AfterExpiry | game.js:897-901 | an effect whose positive end time has come becomes modifier 100 with end 0; otherwise the result is that reset or the old effect, and a positive end time left in place lies after now; valid modifiers stay valid |
| Orbs.AfterOrbEffect | game.js:847-857 | a speed orb sets modifier 70 or 130 and end time now+15000; other orbs leave the effect alone |
| Orbs.SpeedOrbsOverwrite | game.js:847-857 | speed orbs do not stack: the effect before the pickup makes no difference |
| Rules.JsRem | game.js:715-716 | JavaScript's `%` on a non-negative dividend lies in [0, divisor) |
| Rules.FirstFree | game.js:693-731 | the index of the first candidate not blocked: all earlier candidates are blocked |
| Rules.GridScanFindsFirstFree | game.js:703-712 | the nested scan returns the first free board cell in x-outer, y-inner order, and nothing only when every board cell is blocked |
| Rules.FoodSpotInGrid | game.js:685-734 | generateFood's cell always lies on the board |
| Rules.FoodSpotAvoidsBlocked | game.js:700-731 | food lands on the snake or an orb only when the whole board is blocked |
| Rules.OrbSpotPlacement | game.js:745-792 | a placed orb has the chosen type, sits on a board cell clear of snake, food and orbs, and starts now; with a threshold in range and a free draw among the first 19 an orb is always produced |
| Rules.LiveOrbs | game.js:932-946 | the filter keeps exactly the orbs that have not expired |
| Rules.LiveOrbsAppend | game.js:932-946 | the filter keeps the surviving orbs in their original order: it distributes over joining two lists |
| Rules.FirstOrbAt | game.js:991 | findIndex: the first orb on the cell, or the length when there is none |
| Rules.AfterOrbBody | game.js:819-845 | orb effects keep the head of the body |
| Rules.AdvanceBody | game.js:988-1029 | the new head leads and the old segments follow in order; the length changes by 0 (plain move), +1 (food and other orbs), +2 (positive orb) or 0 (negative orb) and never drops below 3; the tail survives exactly when something other than a negative orb was eaten |
| Rules.ScoreAfter | game.js:819-845 | the score stays a non-negative multiple of 10, rises only for food or a positive orb, and falls for a negative orb when positive |
| Rules.IntervalAfterFood | game.js:1003-1009 | food lowers the interval by 5, not below 50, only while the raised score is under 80 (grid 10) or 140 |
| TickFacts.SpawnedOrbsFacts | game.js:914-929 | the spawn check keeps the old orbs, adds at most one under the cap, and only when the interval has passed; the new orb has the chosen type and a free board cell |
| TickFacts.OrbsAtMoveFacts | game.js:914-946 | after spawning and expiry the orbs are on the board, under the cap, and none has expired |
| TickFacts.CommittedStateValid | game.js:948-958 | at the collision test the state is valid, the buffer spent, and the direction is the buffered turn or nextDirection |
| TickFacts.OrbEffectValid | game.js:813-879 | collecting any orb keeps every invariant |
| TickFacts.SpliceSubset | game.js:995 | removing the collected orb leaves one orb fewer, all from the old list |
| TickFacts.EatStageValid | game.js:988-1029 | a move onto a free board cell keeps every invariant |
| TickFacts.EatStageFacts | game.js:988-1029 | the move changes body, score, crystals, interval, effect and orbs exactly as the landing cell says, and leaves direction, timing and the game-over flag alone |
| TickFacts.OrbEffectFacts | game.js:813-879 | handleSpecialOrb changes body, score, crystals (+1 per crystal orb) and effect by kind and nothing else |
| TickFacts.TickAfterGameOver | game.js:895 | a tick of a finished game returns false and changes nothing |
| TickFacts.TickPreservesValid | game.js:894-1032 | every invariant survives a tick |
| TickFacts.GameOverIsFinal | game.js:969-986 | once a tick ends the game, every later tick returns false and changes nothing |
| TickFacts.TickCollision | game.js:969-986 | a due tick ends the game if and only if the next head leaves the board or hits any segment, tail included; then body, score and crystals stay and the high score becomes the larger of the two |
| TickFacts.TickNotDue | game.js:903-910 | a tick that is not due only expires the effect and sets the progress, which is below 1 |
| TickFacts.TickTurns | game.js:948-954 | a tick moves exactly when live, due and free; the committed direction is never the opposite of the old one and the buffer is spent |
| TickFacts.TickAdvance | game.js:960-1029 | on a move the new head is one step from the old one, the old segments follow, and length, score and crystals change by what was eaten |
| TickFacts.TickInterval | game.js:1003-1009 | only food changes the interval, which stays within [50, baseInterval] |
| TickFacts.TickEffects | game.js:897-901 | the effect is expired first on every live tick, then replaced by a collected speed orb |
| TickFacts.TickOrbs | game.js:931-998 | no expired orb remains; an orb on the head's cell is removed in preference to food, which then stays |
| LifecycleFacts.TurnIgnored | game.js:1907-1923 | a request within 30 ms or a reversal changes nothing |
| LifecycleFacts.TurnAccepted | game.js:1925-1936 | an accepted request stamps the time and leaves the direction; the next due tick turns to the request, unless it came late in a step while the buffer held its opposite, when the earlier buffered turn stands |
| LifecycleFacts.TurnPreservesValid | game.js:1907-1937 | input never queues a reversal or breaks another invariant |
| LifecycleFacts.ResetFacts | game.js:562-597 | reset: three segments heading right from the start, score 0, base speed, no orbs, no effect, no ad revivals used; crystals, best score and store kept |
| LifecycleFacts.InitializeFacts | game.js:387-433 | interval 150 and start (5,5) below 40 cells, 180 and (size/8, size/8) from 40; best score read from the store |
| LifecycleFacts.ReviveFacts | game.js:1688-1732 | revive takes exactly ten crystals (stored too), lays out start, start−1, start−2 heading right, restores base speed and keeps the score; offered only at ten or more, it never leaves a debt |
| LifecycleFacts.ReviveAfterAdFacts | game.js:1429-1477 | the snake comes back at its old length, heading right from the start; score, speed and crystals kept |
| LifecycleFacts.ReviveAfterAdOffBoard | game.js:1443-1448 | a snake longer than the columns left of the start comes back with its tail off the board |
| LifecycleFacts.WatchAdFacts | game.js:1227-1237 | an ad uses one of three ad revivals and leaves the revival pending |
| LifecycleFacts.CompleteAdOnce | game.js:1396-1427 | completeAdRevival revives once per pending ad; a second call changes nothing |
| Game.SnakeGame.constructor | game.js:36-143 | the settings before a size is chosen, crystals read from the store |
| Game.SnakeGame.InitializeGame | game.js:387-433 | ends in InitializeState and a valid game; the tile size is TileSize and the canvas is shrunk to the board |
| Game.SnakeGame.FitCanvas | game.js:388-396 | grid size set, tile size the smaller quotient, canvas resized to tileSize × size |
| Game.SnakeGame.AdjustForGridSize | game.js:404-426 | deaths 0 and the size's base interval and start position |
| Game.SnakeGame.InitializeGameComponents | game.js:466-485 | best score from the store, animation clock at 0 |
| Game.SnakeGame.Reset | game.js:562-597 | ends in ResetState and a valid game |
| Game.SnakeGame.PlaceFood | game.js:574 | food is generateFood's cell for the current snake and orbs |
| Game.SnakeGame.GenerateFood | game.js:685-734 | the do-while sampling loop returns FoodSpot: the first free cell of the first 49 draws, else the scan's cell, else the cell opposite the head |
| Game.SnakeGame.ScanForFood | game.js:703-712 | the nested for-loops return the scan ScanFrom from the origin |
| Game.SnakeGame.GenerateSpecialOrb | game.js:736-793 | the choice and the sampling loop return OrbSpot: the first free cell of the first 19 draws, else nothing |
| Game.SnakeGame.HandleDirectionChange | game.js:1907-1937 | ends in TurnState and a valid game |
| Game.SnakeGame.QueueTurn | game.js:1928-1936 | the turn becomes nextDirection early in a step, else is buffered unless its opposite is |
| Game.SnakeGame.MoveSnake | game.js:894-1032 | returns and ends in TickState's result and a valid game |
| Game.SnakeGame.ShowProgress | game.js:906-910 | a tick that is not due sets the progress only |
| Game.SnakeGame.StartMove | game.js:912-958 | the move clock restarts, orbs are spawned and expired, the turn committed |
| Game.SnakeGame.UpdateOrbs | game.js:914-946 | spawn, then the expiry filter |
| Game.SnakeGame.Advance | game.js:988-1029 | ends in EatStage: an orb there, else the food, else a plain move |
| Game.SnakeGame.Slither | game.js:1022-1029 | head added, tail cell dropped |
| Game.SnakeGame.CollectOrb | game.js:992-996 | the orb's effect on the grown body, then the orb spliced out |
| Game.SnakeGame.ExpireSpeedEffect | game.js:897-901 | ends in ExpireStage |
| Game.SnakeGame.SpawnSpecialOrb | game.js:914-929 | at most one new orb when due and under the cap; the spawn clock restarts whenever due |
| Game.SnakeGame.CommitDirection | game.js:948-958 | the buffered turn (else nextDirection) becomes the direction, progress 0 |
| Game.SnakeGame.ApplyInputBuffer | game.js:949-952 | the buffer, if any, becomes nextDirection and is emptied |
| Game.SnakeGame.EndRound | game.js:969-986 | game over, one more death, a beaten best score saved in the store |
| Game.SnakeGame.EatFood | game.js:998-1009 | ten points, new food, the interval after food |
| Game.SnakeGame.HandleSpecialOrb | game.js:813-892 | ends in OrbEffect for the orb's kind |
| Game.SnakeGame.SaveCrystals | game.js:861-862 | the balance set and written to the store |
| Game.SnakeGame.LayOutSnake | game.js:1702-1708 | the push loop builds n segments leftwards from the start |
| Game.SnakeGame.Revive | game.js:1688-1732 | ends in ReviveState and a valid game |
| Game.SnakeGame.WatchAdForRevive | game.js:1227-1243 | ends in WatchAdState and a valid game |
| Game.SnakeGame.CompleteAdRevival | game.js:1396-1427 | ends in CompleteAdState and a valid game |
| Game.SnakeGame.ReviveAfterAd | game.js:1429-1477 | ends in ReviveAfterAdState and a valid game |
| Color.DarkenColor | game.js:547-560 | for a percentage in 0..100 the result is a well-formed lowercase `#rrggbb` colour |
| Color.NatHexRoundTrip | game.js:559 | reading back what toString(16) writes gives the number |
| Color.ByteHex | game.js:559 | a channel in 0..255 is written as two lowercase digits, high nibble first |
| Color.ByteHexInverse | game.js:559 | two lowercase digits are exactly how their value is written |
| Color.RgbChannels | game.js:549-559 | reading back the channels of a written colour gives the channel values |
| Color.DarkenBounds | game.js:554-556 | a darkened channel lies between 0 and the original |
| Color.DarkenMonotone | game.js:554-556 | a larger percentage never gives a lighter channel |
| Color.DarkenColorChannels | game.js:547-560 | each channel of the result is the original channel scaled by (100 − percent)/100 and floored |
| Color.RgbOfChannels | game.js:549-559 | writing back a colour's channels unchanged gives its lowercase form |
| Color.DarkenByNothing | game.js:547-560 | darkening by 0% gives the colour in lowercase |
| Color.DarkenToBlack | game.js:547-560 | darkening by 100% gives `#000000` |
| Color.OrbColor | game.js:84-116 | the catalog colours are well-formed hex colours |
| Color.CrystalGradientEnd | game.js:537-545 | the crystal orb's `#9932CC` darkens by 30% to `#6b238e` |
| Console.SpaceRun | console.js:243-244 | the length of the maximal run of `\s` characters at the front |
| Console.ArgumentFormRecognised | console.js:243-244 | every line of the form prefix, one or more whitespace, one or more digits is recognised with the digits' value |
| Console.ArgumentFormOnly | console.js:243-244 | conversely, a recognised line is exactly prefix, whitespace run and digit string |
| Console.DecimalRoundTrip | console.js:248 | parseInt of a written numeral gives the number |
| Console.GiveRoundTrip | console.js:243-248 | `/give ` and any numeral is a give of that amount |
| Console.IdNumRoundTrip | console.js:244 | `/idnum ` and any numeral is an idnum of that number |
| Console.StatsExact | console.js:245 | a line is the stats command if and only if it is exactly `/stats` |
| Console.RejectedForms | console.js:243-245 | no argument, no space, a sign, trailing text, the wrong case: not a command |
| Console.GiveAdds | console.js:247-256 | `/give n` with n > 0 adds n to the stored balance (0 when missing) and touches no other entry; `/give 0` changes nothing and reports an error |
| Console.IdNumIgnoresArgument | console.js:257-265 | every positive argument installs the same generated id; 0 is rejected with no change |
| Console.ReadOnlyCommands | console.js:266-272 | `/stats` and unrecognised lines leave the store as it was |
| Console.WritesAreCommands | console.js:240-274 | only a positive `/give` or `/idnum` writes the store, and a write is reported as a success |
| Console.ConsoleManager.constructor | console.js:2-179 | closed and locked; a missing player id is generated and a missing games-played counter set to 0 |
| Console.ConsoleManager.Authenticate | console.js:199-208 | only the exact password unlocks, and the message says which |
| Console.ConsoleManager.Toggle | console.js:219-238 | opening hides the output; closing always locks the console |
| Console.ConsoleManager.ExecuteCommand | console.js:240-297 | the store changes as Execute says and the message is shown; the `window.game` object, when present, gets the new crystals and player id |
| Console.ConsoleManager.OnInputKey | console.js:158-169 | Enter authenticates while locked (with its message) and runs the command once unlocked, then clears the input; Escape toggles, clearing the message on opening and the login on closing; only an unlocked Enter touches the store or the game |
| Console.ConsoleManager.IncrementGamesPlayed | console.js:309-333 | the stored counter and the result are the previous value (0 when missing) plus one |

## Left out

- Drawing, interpolation and particles are left out: the canvas, gradients, sine pulses, easing and particle motion are floating-point rendering.
- Audio and the YouTube ad video are left out: the player, the modal, the button-enable timeout and every `setTimeout` are foreign calls and timers. An ad is modelled as `watchAdForRevive` followed by `completeAdRevival`.
- The game loop and `requestAnimationFrame` throttling are left out. A tick is one call of `moveSnake(now)`.
- The delayed restart of the clock after `initializeGame` is left out, because it runs in a timer.
- The DOM is left out: the size menu, game-over screen, mobile buttons, swipe handling (float `atan2`/`sqrt`), `resizeCanvas` (the canvas size is an input to `initializeGame`) and the key-to-direction table of `handleKeyPress`.
- The cumulative ×0.7 rescale of spawn chances on large grids is left out. It is float arithmetic that scales every weight alike; fixed integer weights are used.
- `maxSpeed` is left out: it is never set to true, so the speed-up test always runs.
- `generateUniqueId` is a parameter (`freshId`), since it depends on the clock and randomness; its format is not modelled.
- The per-player JSON statistics in `incrementGamesPlayed` are not modelled, including its call to `generatePlayerId`, which no file defines.
- `setGameRunning` is left out: the console calls it to pause, but the game never defines it.
- The console's global toggle key (`ё` or a backquote) is left out. It calls the same `toggle`.
- Store values that are corrupted or not numbers are left out, as is `parseInt`'s loss of precision past 2^53. Numbers are unbounded integers.
- Game.SnakeGame.Reset: requires that no ad revival is pending. On the game-over screen the ad modal covers the restart button.
- Game.SnakeGame.Revive: requires a finished game with no pending ad revival, which is where its button appears.
- Game.SnakeGame.WatchAdForRevive: requires a finished game, which is where its button appears.
- Game.SnakeGame.MoveSnake: requires the invariant `ValidState`, which holds once `initializeGame` has run. Calls before a size is chosen are not modelled.
- Game.SnakeGame.HandleDirectionChange: requires `ValidState` as well; a request before a size is chosen is not modelled.
- Color.DarkenColor: requires a well-formed `#rrggbb` colour. The game only passes catalog colours; `NaN` output for malformed input is not modelled.
- Game.SnakeGame.GenerateFood: the head-distance test (`tooCloseToHead` then `continue`) is not modelled as a separate step, because in a do-while loop `continue` goes to the occupancy test and decides nothing.
- The tile size, the canvas and the player id are fields of `SnakeGame` outside `GameState`. Only the console writes the player id, and only drawing reads the tile size.
- The crystal display element is taken to exist when the console mirrors `/give` into the game.
- Console.ConsoleManager.ExecuteCommand, Console.ConsoleManager.OnInputKey: the `game` field stands for `window.game`. The model lets it be any `SnakeGame` or null, and proves the mirror for the non-null case. No file binds `window.game` (game.js:1952 declares `const game`, which is not a `window` property), so as the files stand it is null. The game then keeps a stale crystal balance after `/give`, and its next save (game.js:861-862, 1690-1691) overwrites the balance the console stored.
- Rules.OrbSpot, States.OrbEffect: the source reads `performance.now()` afresh for a new orb's `createdAt`/`disappearAt` (game.js:772-773) and for a speed orb's end time (game.js:850, 856), while the tick's own tests use the frame timestamp `currentTime`. The model uses the single reading `now` for both, so `createdAt == now` (SpawnedOrbsFacts, OrbSpotPlacement) and the end time `now + 15000` (AfterOrbEffect) hold only with the two clocks taken as equal.
