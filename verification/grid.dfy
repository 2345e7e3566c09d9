/** Board geometry: cells, the four directions and the canvas tile size. */
module Grid {

  /** A board cell. Cells of the board lie in 0 .. size-1 on both axes. */
  datatype Cell = Cell(x: int, y: int)

  datatype Direction = Up | Down | Left | Right

  /** The board sizes the start menu offers (game.js:275). */
  predicate SupportedSize(size: int)
  {
    size == 10 || size == 20 || size == 40
  }

  predicate InGrid(c: Cell, size: int)
  {
    0 <= c.x < size && 0 <= c.y < size
  }

  function Opposite(d: Direction): (o: Direction)
    ensures o != d
  {
    match d
    case Up => Down
    case Down => Up
    case Left => Right
    case Right => Left
  }

  function DeltaX(d: Direction): int
  {
    match d
    case Left => -1
    case Right => 1
    case _ => 0
  }

  function DeltaY(d: Direction): int
  {
    match d
    case Up => -1
    case Down => 1
    case _ => 0
  }

  /** The cell one step from `c` in direction `d`; no clamping to the board. */
  function Step(c: Cell, d: Direction): Cell
  {
    Cell(c.x + DeltaX(d), c.y + DeltaY(d))
  }

  /** Stepping back the opposite way undoes a step. */
  lemma StepOppositeUndoes(c: Cell, d: Direction)
    ensures Step(Step(c, d), Opposite(d)) == c
  {
  }

  /** A step changes exactly one coordinate, by exactly one. */
  lemma StepIsUnit(c: Cell, d: Direction)
    ensures var n := Step(c, d);
      (n.x == c.x && (n.y == c.y + 1 || n.y == c.y - 1)) ||
      (n.y == c.y && (n.x == c.x + 1 || n.x == c.x - 1))
  {
  }

  /**
   * The tile size chosen when a game starts: the largest whole number of
   * pixels per cell that fits the board into both canvas dimensions.
   */
  function TileSize(width: int, height: int, size: int): (t: int)
    requires size > 0 && width >= 0 && height >= 0
    ensures t >= 0 && t * size <= width && t * size <= height
    ensures (t + 1) * size > width || (t + 1) * size > height
  {
    var tw := width / size;
    var th := height / size;
    DivisionBrackets(width, size);
    DivisionBrackets(height, size);
    if tw <= th then
      SmallerQuotientFits(tw, th, size, height);
      tw
    else
      SmallerQuotientFits(th, tw, size, width);
      th
  }

  lemma DivisionBrackets(a: int, b: int)
    requires a >= 0 && b > 0
    ensures a / b >= 0 && (a / b) * b <= a < (a / b + 1) * b
  {
    var q, r := a / b, a % b;
    assert a == q * b + r && 0 <= r < b;
    assert (q + 1) * b == q * b + b;
  }

  /** The smaller of two quotients also fits under the larger one's dividend. */
  lemma SmallerQuotientFits(p: int, q: int, k: int, a: int)
    requires p <= q && k > 0 && q * k <= a
    ensures p * k <= a
  {
    MultiplyMonotone(p, q, k);
  }

  lemma MultiplyMonotone(p: int, q: int, k: int)
    requires p <= q && k > 0
    ensures p * k <= q * k
  {
    assert q * k - p * k == (q - p) * k;
  }
}
