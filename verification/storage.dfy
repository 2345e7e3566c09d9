/**
 * The browser's key-value store as the game and the console use it.
 * Every numeric entry (high score, crystal balance, games played) is kept as
 * an integer and read back with 0 for a missing key; the player id is the one
 * text entry.
 */
module Storage {
  import opened Wrappers

  const HighScoreKey: string := "snakeHighScore"
  const CrystalsKey: string := "snakeCrystals"
  const GamesPlayedKey: string := "snakeGamesPlayed"

  /** A numeric entry, with 0 for a key that was never written. */
  function Get(values: map<string, int>, key: string): (v: int)
    ensures key !in values ==> v == 0
    ensures key in values ==> v == values[key]
  {
    if key in values then values[key] else 0
  }

  class Store {
    var values: map<string, int>
    var playerId: Option<string>

    constructor (values: map<string, int>, playerId: Option<string>)
      ensures this.values == values && this.playerId == playerId
    {
      this.values := values;
      this.playerId := playerId;
    }
  }
}
