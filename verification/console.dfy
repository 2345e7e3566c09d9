/**
 * The developer console: a password gate and three commands that read or
 * write the shared key-value store, mirroring what they change into the
 * object `window.game` names, when there is one.
 */
module Console {
  import opened Wrappers
  import opened Storage
  import Game

  // ---------------------------------------------------------------------
  // Command recognition
  // ---------------------------------------------------------------------

  /** A command line as executeCommand recognises it. */
  datatype Command = Give(amount: nat) | IdNum(id: nat) | Stats | Unknown

  /** The characters a JavaScript regular expression's \s matches. */
  predicate IsJsSpace(c: char)
  {
    c == ' ' || c == '\t' || c == '\n' || c == '\r' || c == '\U{B}' || c == '\U{C}'
    || c == '\U{A0}' || c == '\U{1680}' || '\U{2000}' <= c <= '\U{200A}'
    || c == '\U{2028}' || c == '\U{2029}' || c == '\U{202F}' || c == '\U{205F}'
    || c == '\U{3000}' || c == '\U{FEFF}'
  }

  /** The characters \d matches. */
  predicate IsDigit(c: char)
  {
    '0' <= c <= '9'
  }

  predicate AllSpaces(s: string)
  {
    forall i :: 0 <= i < |s| ==> IsJsSpace(s[i])
  }

  predicate AllDigits(s: string)
  {
    forall i :: 0 <= i < |s| ==> IsDigit(s[i])
  }

  /** parseInt on a string of decimal digits (without the loss of precision past 2^53). */
  function DigitsValue(s: string): nat
    requires AllDigits(s)
  {
    if |s| == 0 then 0 else DigitsValue(s[..|s| - 1]) * 10 + (s[|s| - 1] as int - '0' as int)
  }

  /** The decimal numeral of n, without leading zeros. */
  function DecimalString(n: nat): (s: string)
    ensures |s| >= 1 && AllDigits(s)
    decreases n
  {
    if n < 10 then [('0' as int + n) as char]
    else DecimalString(n / 10) + [('0' as int + n % 10) as char]
  }

  /** The length of the run of whitespace at the front of s. */
  function SpaceRun(s: string): (k: nat)
    ensures k <= |s| && AllSpaces(s[..k])
    ensures k == |s| || !IsJsSpace(s[k])
  {
    if |s| > 0 && IsJsSpace(s[0]) then
      var k := 1 + SpaceRun(s[1..]);
      assert s[..k] == [s[0]] + s[1..][..k - 1];
      k
    else 0
  }

  /**
   * The anchored pattern `^<prefix>\s+(\d+)$`: the prefix, at least one
   * whitespace character, at least one digit, and nothing else; the value
   * of the digits if it matches.
   */
  function MatchArgument(prefix: string, line: string): Option<nat>
  {
    if |line| >= |prefix| && line[..|prefix|] == prefix then
      var rest := line[|prefix|..];
      var k := SpaceRun(rest);
      var digits := rest[k..];
      if k >= 1 && |digits| >= 1 && AllDigits(digits) then Some(DigitsValue(digits)) else None
    else None
  }

  /** The three patterns of executeCommand, tried in its order. */
  function ParseCommand(line: string): Command
  {
    match MatchArgument("/give", line)
    case Some(n) => Give(n)
    case None =>
      match MatchArgument("/idnum", line)
      case Some(n) => IdNum(n)
      case None => if line == "/stats" then Stats else Unknown
  }

  // ---------------------------------------------------------------------
  // What a command does to the store
  // ---------------------------------------------------------------------

  /** What the console shows after a command or a password attempt; each is a success or an error. */
  datatype Message =
    | AuthSucceeded
    | WrongPassword
    | CrystalsAdded(amount: nat)
    | AmountNotPositive
    | IdChanged(id: string)
    | IdNotPositive
    | StatsReport(gamesPlayed: int, playerId: string, crystals: int)
    | UnknownCommand

  predicate IsSuccess(m: Message)
  {
    m.AuthSucceeded? || m.CrystalsAdded? || m.IdChanged? || m.StatsReport?
  }

  /** What /stats shows for a player id that was never stored. */
  const NoPlayerId: string := "Не назначен"

  /** The store after a command, with the message it shows. */
  datatype Outcome = Outcome(values: map<string, int>, playerId: Option<string>, message: Message)

  /**
   * executeCommand against the store: `freshId` is what generateUniqueId
   * returns on this call (it depends on the clock and randomness only).
   */
  function Execute(cmd: Command, values: map<string, int>, playerId: Option<string>, freshId: string): Outcome
  {
    match cmd
    case Give(n) =>
      if n > 0 then Outcome(values[CrystalsKey := Get(values, CrystalsKey) + n], playerId, CrystalsAdded(n))
      else Outcome(values, playerId, AmountNotPositive)
    case IdNum(n) =>
      if n > 0 then Outcome(values, Some(freshId), IdChanged(freshId))
      else Outcome(values, playerId, IdNotPositive)
    case Stats =>
      var id := if playerId.Some? then playerId.value else NoPlayerId;
      Outcome(values, playerId,
              StatsReport(Get(values, GamesPlayedKey), id, Get(values, CrystalsKey)))
    case Unknown => Outcome(values, playerId, UnknownCommand)
  }

  /** Whether a command raises the crystal balance (and so the game's copy of it). */
  predicate AddsCrystals(cmd: Command)
  {
    cmd.Give? && cmd.amount > 0
  }

  /** Whether a command replaces the player id (and so the game's copy of it). */
  predicate ChangesId(cmd: Command)
  {
    cmd.IdNum? && cmd.id > 0
  }

  // ---------------------------------------------------------------------
  // The console object
  // ---------------------------------------------------------------------

  /** The keys the console's input field reacts to. */
  datatype Key = Enter | Escape | OtherKey

  class ConsoleManager {
    const password: string
    /** The store the game reads and writes as well. */
    const storage: Store
    /** The object `window.game` names, when there is one (game.js binds none). */
    const game: Game.SnakeGame?
    var isAuthenticated: bool
    var visible: bool
    /** The text in the input field. */
    var input: string
    /** The message on display; None while it is hidden. */
    var output: Option<Message>

    /** The game the console writes through to, if there is one. */
    function Games(): set<Game.SnakeGame>
    {
      if game == null then {} else {game}
    }

    /**
     * The console starts closed and locked. A missing player id is
     * generated (`freshId`) and a missing games-played counter is set to 0.
     */
    constructor (storage: Store, game: Game.SnakeGame?, freshId: string)
      requires game != null ==> game.storage == storage
      modifies storage
      ensures this.storage == storage && this.game == game
      ensures password == "БУТЕРСУПЕР" && !isAuthenticated && !visible && input == "" && output == None
      ensures storage.playerId == if old(storage.playerId).None? then Some(freshId) else old(storage.playerId)
      ensures storage.values == if GamesPlayedKey in old(storage.values) then old(storage.values)
                                else old(storage.values)[GamesPlayedKey := 0]
    {
      password := "БУТЕРСУПЕР";
      this.storage := storage;
      this.game := game;
      isAuthenticated := false;
      visible := false;
      input := "";
      output := None;
      new;
      if storage.playerId.None? {
        storage.playerId := Some(freshId);
      }
      if GamesPlayedKey !in storage.values {
        storage.values := storage.values[GamesPlayedKey := 0];
      }
    }

    /** authenticate(attempt): only the exact password unlocks the console. */
    method Authenticate(attempt: string)
      modifies this`isAuthenticated, this`output
      ensures isAuthenticated == (old(isAuthenticated) || attempt == password)
      ensures output == Some(if attempt == password then AuthSucceeded else WrongPassword)
    {
      if attempt == password {
        isAuthenticated := true;
        output := Some(AuthSucceeded);
      } else {
        output := Some(WrongPassword);
      }
    }

    /** toggle(): opening hides the old message; closing locks the console again. */
    method Toggle()
      modifies this`visible, this`isAuthenticated, this`output
      ensures visible == !old(visible)
      ensures !old(visible) ==> output == None && isAuthenticated == old(isAuthenticated)
      ensures old(visible) ==> !isAuthenticated && output == old(output)
    {
      if !visible {
        visible := true;
        output := None;
      } else {
        visible := false;
        isAuthenticated := false;
      }
    }

    /**
     * executeCommand(line): the store changes as Execute says, the message
     * is shown, and the game's crystal balance and player id follow the
     * store when the command changed them.
     */
    method ExecuteCommand(line: string, freshId: string)
      requires game != null ==> game.storage == storage
      modifies this`output, storage`values, storage`playerId, Games()`crystals, Games()`playerId
      ensures var o := Execute(ParseCommand(line), old(storage.values), old(storage.playerId), freshId);
        storage.values == o.values && storage.playerId == o.playerId && output == Some(o.message)
      ensures game != null ==> game.crystals == if AddsCrystals(ParseCommand(line))
                                                then Get(storage.values, CrystalsKey) else old(game.crystals)
      ensures game != null ==> game.playerId == if ChangesId(ParseCommand(line))
                                                then Some(freshId) else old(game.playerId)
    {
      var cmd := ParseCommand(line);
      match cmd
      case Give(amount) =>
        if amount > 0 {
          var crystals := Get(storage.values, CrystalsKey) + amount;
          storage.values := storage.values[CrystalsKey := crystals];
          if game != null {
            game.crystals := crystals;
          }
          output := Some(CrystalsAdded(amount));
        } else {
          output := Some(AmountNotPositive);
        }
      case IdNum(id) =>
        if id > 0 {
          storage.playerId := Some(freshId);
          if game != null {
            game.playerId := Some(freshId);
          }
          output := Some(IdChanged(freshId));
        } else {
          output := Some(IdNotPositive);
        }
      case Stats =>
        var gamesPlayed := Get(storage.values, GamesPlayedKey);
        var id := if storage.playerId.Some? then storage.playerId.value else NoPlayerId;
        output := Some(StatsReport(gamesPlayed, id, Get(storage.values, CrystalsKey)));
      case Unknown =>
        output := Some(UnknownCommand);
    }

    /**
     * A key in the input field: Enter sends the line to authenticate while
     * locked and to executeCommand once unlocked, then clears the field;
     * Escape toggles the console.
     */
    method OnInputKey(key: Key, freshId: string)
      requires game != null ==> game.storage == storage
      modifies this`input, this`visible, this`isAuthenticated, this`output, storage`values, storage`playerId,
               Games()`crystals, Games()`playerId
      ensures key == Enter ==> input == "" && visible == old(visible)
      ensures key == Enter && !old(isAuthenticated) ==>
        isAuthenticated == (old(input) == password)
        && output == Some(if old(input) == password then AuthSucceeded else WrongPassword)
        && storage.values == old(storage.values) && storage.playerId == old(storage.playerId)
      ensures key == Enter && old(isAuthenticated) ==>
        var o := Execute(ParseCommand(old(input)), old(storage.values), old(storage.playerId), freshId);
        isAuthenticated && storage.values == o.values && storage.playerId == o.playerId && output == Some(o.message)
      ensures key == Enter && old(isAuthenticated) && game != null ==>
        game.crystals == (if AddsCrystals(ParseCommand(old(input)))
                          then Get(storage.values, CrystalsKey) else old(game.crystals))
        && game.playerId == (if ChangesId(ParseCommand(old(input))) then Some(freshId) else old(game.playerId))
      ensures key == Escape ==>
        visible == !old(visible) && input == old(input)
        && storage.values == old(storage.values) && storage.playerId == old(storage.playerId)
      ensures key == Escape && !old(visible) ==> output == None && isAuthenticated == old(isAuthenticated)
      ensures key == Escape && old(visible) ==> !isAuthenticated && output == old(output)
      ensures key == OtherKey ==>
        (input == old(input) && visible == old(visible)
         && isAuthenticated == old(isAuthenticated) && output == old(output)
         && storage.values == old(storage.values) && storage.playerId == old(storage.playerId))
      ensures (key != Enter || !old(isAuthenticated)) && game != null ==>
        game.crystals == old(game.crystals) && game.playerId == old(game.playerId)
    {
      match key
      case Enter =>
        if !isAuthenticated {
          Authenticate(input);
        } else {
          ExecuteCommand(input, freshId);
        }
        input := "";
      case Escape =>
        Toggle();
      case OtherKey =>
    }

    /** incrementGamesPlayed(): the global counter goes up by one (from 0 when missing). */
    method IncrementGamesPlayed() returns (count: int)
      modifies storage`values
      ensures count == Get(old(storage.values), GamesPlayedKey) + 1
      ensures storage.values == old(storage.values)[GamesPlayedKey := count]
    {
      var current := Get(storage.values, GamesPlayedKey);
      storage.values := storage.values[GamesPlayedKey := current + 1];
      count := current + 1;
    }
  }

  // ---------------------------------------------------------------------
  // Lemmas
  // ---------------------------------------------------------------------

  /** A whitespace run followed by a digit is exactly the run SpaceRun measures. */
  lemma {:induction false} SpaceRunOf(ws: string, digits: string)
    requires AllSpaces(ws) && |digits| >= 1 && IsDigit(digits[0])
    ensures SpaceRun(ws + digits) == |ws|
    decreases |ws|
  {
    if |ws| > 0 {
      assert (ws + digits)[1..] == ws[1..] + digits;
      SpaceRunOf(ws[1..], digits);
    } else {
      assert (ws + digits)[0] == digits[0];
    }
  }

  /** Every line of the form prefix, whitespace, digits is recognised, with the digits' value. */
  lemma ArgumentFormRecognised(prefix: string, ws: string, digits: string)
    requires |ws| >= 1 && AllSpaces(ws) && |digits| >= 1 && AllDigits(digits)
    ensures MatchArgument(prefix, prefix + ws + digits) == Some(DigitsValue(digits))
  {
    var line := prefix + ws + digits;
    assert line[..|prefix|] == prefix;
    assert line[|prefix|..] == ws + digits;
    SpaceRunOf(ws, digits);
    assert (ws + digits)[|ws|..] == digits;
  }

  /**
   * Conversely, a recognised line is the prefix, a non-empty whitespace run
   * and a non-empty digit string that carries the value: nothing else
   * matches.
   */
  lemma ArgumentFormOnly(prefix: string, line: string)
    requires MatchArgument(prefix, line).Some?
    ensures var rest := line[|prefix|..]; var k := SpaceRun(rest);
      && line == prefix + rest[..k] + rest[k..]
      && k >= 1 && AllSpaces(rest[..k])
      && |rest[k..]| >= 1 && AllDigits(rest[k..])
      && MatchArgument(prefix, line) == Some(DigitsValue(rest[k..]))
  {
    var rest := line[|prefix|..];
    var k := SpaceRun(rest);
    assert line == line[..|prefix|] + rest;
    assert rest == rest[..k] + rest[k..];
    assert prefix + rest[..k] + rest[k..] == prefix + (rest[..k] + rest[k..]);
  }

  /** Reading back a written numeral gives the number. */
  lemma {:induction false} DecimalRoundTrip(n: nat)
    ensures DigitsValue(DecimalString(n)) == n
    decreases n
  {
    if n >= 10 {
      var s := DecimalString(n);
      assert s[..|s| - 1] == DecimalString(n / 10);
      DecimalRoundTrip(n / 10);
    }
  }

  /** A line that differs from the prefix at some position does not match. */
  lemma Mismatch(prefix: string, line: string, i: nat)
    requires i < |prefix| && i < |line| && line[i] != prefix[i]
    ensures MatchArgument(prefix, line) == None
  {
    if |line| >= |prefix| {
      assert line[..|prefix|][i] == line[i];
    }
  }

  /** `/give` with a space and any numeral is a Give of that amount. */
  lemma GiveRoundTrip(n: nat)
    ensures ParseCommand("/give " + DecimalString(n)) == Give(n)
  {
    var d := DecimalString(n);
    assert "/give " + d == "/give" + " " + d;
    ArgumentFormRecognised("/give", " ", d);
    DecimalRoundTrip(n);
  }

  /** `/idnum` with a space and any numeral is an IdNum of that number. */
  lemma IdNumRoundTrip(n: nat)
    ensures ParseCommand("/idnum " + DecimalString(n)) == IdNum(n)
  {
    var d := DecimalString(n);
    var line := "/idnum " + d;
    assert line == "/idnum" + " " + d;
    ArgumentFormRecognised("/idnum", " ", d);
    DecimalRoundTrip(n);
    Mismatch("/give", line, 1);
  }

  /** Only the exact line `/stats` is the stats command. */
  lemma StatsExact(line: string)
    ensures ParseCommand(line) == Stats <==> line == "/stats"
  {
    if line == "/stats" {
      Mismatch("/give", line, 1);
      Mismatch("/idnum", line, 1);
    }
  }

  /** Near misses are not commands: no argument, no space, a sign, trailing text, the wrong case. */
  lemma RejectedForms()
    ensures ParseCommand("/give") == Unknown
    ensures ParseCommand("/give5") == Unknown
    ensures ParseCommand("/give -5") == Unknown
    ensures ParseCommand("/give 5 ") == Unknown
    ensures ParseCommand("/GIVE 5") == Unknown
    ensures ParseCommand("/stats ") == Unknown
  {
    assert "/give5"[5..] == "5";
    assert SpaceRun("5") == 0;
    assert "/give -5"[5..] == " -5";
    assert SpaceRun(" -5") == 1 by {
      assert " -5"[1..] == "-5";
    }
    assert !AllDigits("-5") by {
      assert !IsDigit("-5"[0]);
    }
    assert "/give 5 "[5..] == " 5 ";
    assert SpaceRun(" 5 ") == 1 by {
      assert " 5 "[1..] == "5 ";
    }
    assert " 5 "[1..] == "5 ";
    assert !AllDigits("5 ") by {
      assert !IsDigit("5 "[1]);
    }
    assert "/GIVE 5"[..5] != "/give" by {
      assert "/GIVE 5"[1] == 'G';
    }
    assert "/stats "[..5] != "/give" by {
      assert "/stats "[1] == 's';
    }
    assert "/stats "[..6] != "/idnum" by {
      assert "/stats "[1] == 's';
    }
  }

  /**
   * /give n with n > 0 adds n to the stored balance (0 when missing) and
   * touches nothing else; /give 0 changes nothing.
   */
  lemma GiveAdds(n: nat, values: map<string, int>, playerId: Option<string>, freshId: string)
    ensures var o := Execute(Give(n), values, playerId, freshId);
      && o.playerId == playerId
      && (n > 0 ==> Get(o.values, CrystalsKey) == Get(values, CrystalsKey) + n
                    && (forall key :: key != CrystalsKey ==> Get(o.values, key) == Get(values, key))
                    && IsSuccess(o.message))
      && (n == 0 ==> o.values == values && !IsSuccess(o.message))
  {
  }

  /**
   * /idnum only checks its argument: every positive number installs the
   * same freshly generated id, and 0 is rejected without a change.
   */
  lemma IdNumIgnoresArgument(n: nat, m: nat, values: map<string, int>, playerId: Option<string>, freshId: string)
    requires n > 0 && m > 0
    ensures Execute(IdNum(n), values, playerId, freshId) == Execute(IdNum(m), values, playerId, freshId)
    ensures Execute(IdNum(n), values, playerId, freshId).playerId == Some(freshId)
    ensures Execute(IdNum(0), values, playerId, freshId) == Outcome(values, playerId, IdNotPositive)
  {
  }

  /** /stats and unrecognised lines leave the store as it was. */
  lemma ReadOnlyCommands(line: string, values: map<string, int>, playerId: Option<string>, freshId: string)
    requires ParseCommand(line) == Stats || ParseCommand(line) == Unknown
    ensures var o := Execute(ParseCommand(line), values, playerId, freshId);
      o.values == values && o.playerId == playerId && (ParseCommand(line) == Unknown ==> !IsSuccess(o.message))
  {
  }

  /** Only /give and /idnum can write the store, and a write is reported as a success. */
  lemma WritesAreCommands(cmd: Command, values: map<string, int>, playerId: Option<string>, freshId: string)
    ensures var o := Execute(cmd, values, playerId, freshId);
      (o.values != values || o.playerId != playerId) ==> (AddsCrystals(cmd) || ChangesId(cmd)) && IsSuccess(o.message)
  {
  }
}
