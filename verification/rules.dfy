/**
 * The pure pieces of the snake rules: where food and orbs may be placed,
 * which orbs expire, and what one tick does to the body, the score and the
 * move interval. The SnakeGame class in module Game is proved against these.
 */
module Rules {
  import opened Wrappers
  import opened Grid
  import opened Orbs

  // ---------------------------------------------------------------------
  // Constants
  // ---------------------------------------------------------------------

  const MaxFoodAttempts: int := 50
  const MaxOrbAttempts: int := 20
  const ScorePerItem: int := 10
  const MinInterval: int := 50
  const IntervalStep: int := 5
  /** A direction request closer than this to the last accepted one is dropped. */
  const InputDebounce: int := 30

  function BaseInterval(size: int): int
  {
    if size >= 40 then 180 else 150
  }

  function StartPosition(size: int): Cell
  {
    if size >= 40 then Cell(size / 8, size / 8) else Cell(5, 5)
  }

  /** Food stops speeding the snake up once the score reaches this. */
  function SpeedLimit(size: int): int
  {
    if size == 10 then 80 else 140
  }

  function SpawnInterval(size: int): int
  {
    if size >= 40 then 6000 else 4000
  }

  function MaxSpecialOrbs(size: int): int
  {
    if size >= 40 then 4 else 7
  }

  /** JavaScript's `%`, which truncates toward zero. */
  function JsRem(a: int, b: int): (r: int)
    requires b > 0
    ensures a >= 0 ==> 0 <= r < b
  {
    if a >= 0 then a % b else -((-a) % b)
  }

  // ---------------------------------------------------------------------
  // Placement
  // ---------------------------------------------------------------------

  function OrbCells(orbs: seq<Orb>): seq<Cell>
  {
    seq(|orbs|, i requires 0 <= i < |orbs| => orbs[i].cell)
  }

  /** Cells food must avoid: the snake and every orb. */
  function FoodBlocked(snake: seq<Cell>, orbs: seq<Orb>): seq<Cell>
  {
    snake + OrbCells(orbs)
  }

  /** Cells a new orb must avoid: the snake, the food and every orb. */
  function OrbBlocked(snake: seq<Cell>, food: Cell, orbs: seq<Orb>): seq<Cell>
  {
    snake + [food] + OrbCells(orbs)
  }

  predicate AllInGrid(cells: seq<Cell>, size: int)
  {
    forall i :: 0 <= i < |cells| ==> InGrid(cells[i], size)
  }

  /** Index of the first candidate that is not blocked (|cands| if none). */
  function FirstFree(cands: seq<Cell>, blocked: seq<Cell>): (k: nat)
    ensures k <= |cands|
    ensures k < |cands| ==> cands[k] !in blocked
    ensures forall j :: 0 <= j < k ==> cands[j] in blocked
  {
    if cands == [] then 0
    else if cands[0] !in blocked then 0
    else 1 + FirstFree(cands[1..], blocked)
  }

  /** Cell a precedes cell b in the scan order: x outer, y inner. */
  predicate Before(a: Cell, b: Cell)
  {
    a.x < b.x || (a.x == b.x && a.y < b.y)
  }

  /** The exhaustive scan of generateFood, resumed at column x, row y. */
  function ScanFrom(size: int, blocked: seq<Cell>, x: int, y: int): Option<Cell>
    requires 0 <= x && 0 <= y <= size
    decreases size - x, size - y
  {
    if x >= size then None
    else if y == size then ScanFrom(size, blocked, x + 1, 0)
    else if Cell(x, y) !in blocked then Some(Cell(x, y))
    else ScanFrom(size, blocked, x, y + 1)
  }

  lemma {:induction false} ScanFromFindsFirstFree(size: int, blocked: seq<Cell>, x: int, y: int)
    requires 0 <= x && 0 <= y <= size
    ensures match ScanFrom(size, blocked, x, y)
      case Some(c) =>
        InGrid(c, size) && c !in blocked && !Before(c, Cell(x, y)) &&
        forall a, b :: 0 <= a < size && 0 <= b < size && !Before(Cell(a, b), Cell(x, y)) && Before(Cell(a, b), c)
          ==> Cell(a, b) in blocked
      case None =>
        forall a, b :: 0 <= a < size && 0 <= b < size && !Before(Cell(a, b), Cell(x, y))
          ==> Cell(a, b) in blocked
    decreases size - x, size - y
  {
    if x >= size {
    } else if y == size {
      ScanFromFindsFirstFree(size, blocked, x + 1, 0);
    } else if Cell(x, y) !in blocked {
    } else {
      ScanFromFindsFirstFree(size, blocked, x, y + 1);
    }
  }

  /**
   * The scan from the origin returns the first free board cell in x-outer,
   * y-inner order, and nothing only when every board cell is blocked.
   */
  lemma GridScanFindsFirstFree(size: int, blocked: seq<Cell>)
    requires size >= 0
    ensures match ScanFrom(size, blocked, 0, 0)
      case Some(c) =>
        InGrid(c, size) && c !in blocked &&
        forall a, b :: 0 <= a < size && 0 <= b < size && Before(Cell(a, b), c) ==> Cell(a, b) in blocked
      case None =>
        forall a, b :: 0 <= a < size && 0 <= b < size ==> Cell(a, b) in blocked
  {
    ScanFromFindsFirstFree(size, blocked, 0, 0);
  }

  /** The cell opposite the head, used when the board is full. */
  function FarFromHead(head: Cell, size: int): Cell
    requires size > 0
  {
    Cell(JsRem(head.x + size / 2, size), JsRem(head.y + size / 2, size))
  }

  /**
   * Where generateFood puts the food: the first of the first 49 draws that is
   * free (the 50th draw is taken but never tested), else the first free cell
   * of the scan, else the cell opposite the head.
   */
  function FoodSpot(draws: seq<Cell>, size: int, head: Cell, blocked: seq<Cell>): Cell
    requires size > 0 && |draws| >= MaxFoodAttempts
  {
    var k := FirstFree(draws[..MaxFoodAttempts - 1], blocked);
    if k < MaxFoodAttempts - 1 then draws[k]
    else match ScanFrom(size, blocked, 0, 0)
      case Some(c) => c
      case None => FarFromHead(head, size)
  }

  /** Food always lands on the board when the draws and the head do. */
  lemma FoodSpotInGrid(draws: seq<Cell>, size: int, head: Cell, blocked: seq<Cell>)
    requires size > 0 && |draws| >= MaxFoodAttempts && AllInGrid(draws, size)
    requires InGrid(head, size)
    ensures InGrid(FoodSpot(draws, size, head, blocked), size)
  {
    GridScanFindsFirstFree(size, blocked);
  }

  /** Food lands on a blocked cell only when the whole board is blocked. */
  lemma FoodSpotAvoidsBlocked(draws: seq<Cell>, size: int, head: Cell, blocked: seq<Cell>)
    requires size > 0 && |draws| >= MaxFoodAttempts
    ensures FoodSpot(draws, size, head, blocked) in blocked ==>
            forall a, b :: 0 <= a < size && 0 <= b < size ==> Cell(a, b) in blocked
  {
    GridScanFindsFirstFree(size, blocked);
  }

  /**
   * What generateSpecialOrb produces: nothing when the weighted choice fails,
   * else an orb of the chosen type on the first of the first 19 draws that is
   * free (the 20th draw ends the loop untested), else nothing.
   */
  function OrbSpot(threshold: real, draws: seq<Cell>, now: int, blocked: seq<Cell>): Option<Orb>
    requires |draws| >= MaxOrbAttempts
  {
    match PickKind(threshold)
    case None => None
    case Some(kind) =>
      var k := FirstFree(draws[..MaxOrbAttempts - 1], blocked);
      if k < MaxOrbAttempts - 1 then Some(Orb(draws[k], kind, now, DisappearAt(kind, now)))
      else None
  }

  /** A placed orb has the chosen type, sits on a free board cell and starts now. */
  lemma OrbSpotPlacement(threshold: real, draws: seq<Cell>, now: int, blocked: seq<Cell>, size: int)
    requires |draws| >= MaxOrbAttempts && AllInGrid(draws, size)
    ensures var o := OrbSpot(threshold, draws, now, blocked);
      o.Some? ==>
        && PickKind(threshold) == Some(o.value.kind)
        && InGrid(o.value.cell, size) && o.value.cell !in blocked
        && o.value.createdAt == now && o.value.disappearAt == DisappearAt(o.value.kind, now)
    ensures 0.0 <= threshold < TotalWeight as real && FirstFree(draws[..MaxOrbAttempts - 1], blocked) < MaxOrbAttempts - 1
            ==> OrbSpot(threshold, draws, now, blocked).Some?
  {
    PickKindTotal(threshold);
  }

  // ---------------------------------------------------------------------
  // Orb expiry and lookup
  // ---------------------------------------------------------------------

  /** `orb.disappearAt && now >= orb.disappearAt`: a zero time counts as none. */
  predicate Expired(o: Orb, now: int)
  {
    o.disappearAt.Some? && o.disappearAt.value != 0 && now >= o.disappearAt.value
  }

  /** The orbs that survive the expiry filter, in their order (LiveOrbsAppend). */
  function LiveOrbs(orbs: seq<Orb>, now: int): (r: seq<Orb>)
    ensures |r| <= |orbs|
    ensures forall o :: o in r <==> o in orbs && !Expired(o, now)
  {
    if orbs == [] then []
    else if Expired(orbs[0], now) then LiveOrbs(orbs[1..], now)
    else [orbs[0]] + LiveOrbs(orbs[1..], now)
  }

  /**
   * The filter keeps the order of the orbs it keeps: filtering a list
   * joined from two parts is the two filtered parts joined.
   */
  lemma {:induction false} LiveOrbsAppend(a: seq<Orb>, b: seq<Orb>, now: int)
    ensures LiveOrbs(a + b, now) == LiveOrbs(a, now) + LiveOrbs(b, now)
  {
    if a == [] {
      assert a + b == b;
    } else {
      assert (a + b)[0] == a[0] && (a + b)[1..] == a[1..] + b;
      LiveOrbsAppend(a[1..], b, now);
    }
  }

  /** findIndex: the first orb on cell c, or |orbs| when there is none. */
  function FirstOrbAt(orbs: seq<Orb>, c: Cell): (k: nat)
    ensures k <= |orbs|
    ensures k < |orbs| ==> orbs[k].cell == c
    ensures forall j :: 0 <= j < k ==> orbs[j].cell != c
  {
    if orbs == [] then 0
    else if orbs[0].cell == c then 0
    else 1 + FirstOrbAt(orbs[1..], c)
  }

  // ---------------------------------------------------------------------
  // One tick
  // ---------------------------------------------------------------------

  /** What the new head landed on; an orb takes precedence over the food. */
  datatype Eaten = Nothing | Food | OrbOf(kind: OrbKind)

  /** What the head lands on, given the orbs and the food at that moment. */
  function EatenAt(orbs: seq<Orb>, food: Cell, head: Cell): Eaten
  {
    var k := FirstOrbAt(orbs, head);
    if k < |orbs| then OrbOf(orbs[k].kind)
    else if head == food then Food
    else Nothing
  }

  /** The direction a tick adopts: the buffered turn if any, else nextDirection. */
  function Committed(buffer: Option<Direction>, next: Direction): Direction
  {
    if buffer.Some? then buffer.value else next
  }

  /** The tick ends the game: the next head leaves the board or hits any segment. */
  predicate Collides(head: Cell, body: seq<Cell>, size: int)
  {
    !InGrid(head, size) || head in body
  }

  /** Whether enough time has passed for a tick (modifier in percent). */
  predicate Due(now: int, lastMoveTime: int, moveInterval: int, modifier: int)
  {
    (now - lastMoveTime) * 100 >= moveInterval * modifier
  }

  /** Fraction of the effective interval that has elapsed. */
  function Progress(now: int, lastMoveTime: int, moveInterval: int, modifier: int): real
    requires moveInterval * modifier > 0
  {
    ((now - lastMoveTime) * 100) as real / (moveInterval * modifier) as real
  }

  /** The body change an orb effect makes: a negative orb drops the tail above
      three segments, a positive orb repeats the tail cell. */
  function AfterOrbBody(s: seq<Cell>, k: OrbKind): (r: seq<Cell>)
    requires |s| >= 1
    ensures |r| >= 1 && r[0] == s[0]
  {
    match k
    case Negative => if |s| > 3 then s[..|s| - 1] else s
    case Positive => s + [s[|s| - 1]]
    case _ => s
  }

  /** Net change in length of a tick on a body of at least three segments. */
  function LengthDelta(e: Eaten): int
  {
    match e
    case Nothing => 0
    case Food => 1
    case OrbOf(Negative) => 0
    case OrbOf(Positive) => 2
    case OrbOf(_) => 1
  }

  /** The tail survives the tick: food and every orb but the negative one. */
  predicate TailKept(e: Eaten)
  {
    e != Nothing && e != OrbOf(Negative)
  }

  /** The body after a tick that does not end the game. */
  function AdvanceBody(body: seq<Cell>, head: Cell, eaten: Eaten): (r: seq<Cell>)
    requires |body| >= 1
    ensures |r| >= |body| && r[0] == head
    ensures forall i :: 0 <= i < |body| - 1 ==> r[i + 1] == body[i]
    ensures |body| >= 3 ==> |r| == |body| + LengthDelta(eaten) && |r| >= 3
    ensures |body| >= 3 ==> (TailKept(eaten) <==> |r| > |body| && r[|body|] == body[|body| - 1])
    ensures forall c :: c in r ==> c == head || c in body
  {
    var grown := [head] + body;
    match eaten
    case Nothing => grown[..|grown| - 1]
    case Food => grown
    case OrbOf(k) => AfterOrbBody(grown, k)
  }

  /** The score after a tick that does not end the game. */
  function ScoreAfter(s: int, eaten: Eaten): (r: int)
    ensures s >= 0 && s % ScorePerItem == 0 ==> r >= 0 && r % ScorePerItem == 0
    ensures s >= 0 ==> r >= 0 && s - ScorePerItem <= r <= s + ScorePerItem
    ensures s >= 0 ==> (r > s <==> eaten == Food || eaten == OrbOf(Positive))
    ensures s > 0 && eaten == OrbOf(Negative) ==> r < s
  {
    match eaten
    case Food => s + ScorePerItem
    case OrbOf(Positive) => s + ScorePerItem
    case OrbOf(Negative) => if s - ScorePerItem > 0 then s - ScorePerItem else 0
    case _ => s
  }

  /** The move interval after eating food with the score already raised to `score`. */
  function IntervalAfterFood(interval: int, score: int, size: int): (r: int)
    ensures MinInterval <= interval ==> MinInterval <= r <= interval
    ensures score >= SpeedLimit(size) ==> r == interval
    ensures score < SpeedLimit(size) && interval - IntervalStep >= MinInterval ==> r == interval - IntervalStep
  {
    if score < SpeedLimit(size) then
      (if interval - IntervalStep > MinInterval then interval - IntervalStep else MinInterval)
    else interval
  }

  /** The three-segment (or longer) snake laid out leftwards from `start`. */
  function Line(start: Cell, n: nat): (r: seq<Cell>)
    ensures |r| == n
  {
    seq(n, i requires 0 <= i < n => Cell(start.x - i, start.y))
  }
}
