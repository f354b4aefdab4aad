/**
 * The value types of the Connect Four engine: the cell marks, the cells the
 * board iterator yields, the game results and the game types, and the board
 * dimensions.
 */
module ConnectFourTypes {

  const ROWS: int := 6
  const COLUMNS: int := 7

  /** The mark on one board cell; `*Winner` marks are written over a winning four. */
  datatype CellValue = PlayerOne | PlayerTwo | PlayerOneWinner | PlayerTwoWinner | Empty

  /** A board cell as the iterator yields it: row, column and current mark. */
  datatype Cell = Cell(row: int, column: int, value: CellValue)

  /** The outcome of a winner check; `Undecided` is the source's `NONE`. */
  datatype GameResult = PlayerOneWins | PlayerTwoWins | Stalemate | Undecided

  /** Who plays: the first named side moves first. */
  datatype GameType = HumanComputer | ComputerHuman | HumanHuman

  /** A board position (row 0 is the top row). */
  datatype Pos = Pos(row: int, col: int)

  predicate InBounds(p: Pos)
  {
    0 <= p.row < ROWS && 0 <= p.col < COLUMNS
  }

  /** The board's marks by row and then column. */
  type Grid = seq<seq<CellValue>>

  predicate IsGrid(g: Grid)
  {
    |g| == ROWS && forall r :: 0 <= r < ROWS ==> |g[r]| == COLUMNS
  }

  function At(g: Grid, p: Pos): CellValue
    requires IsGrid(g) && InBounds(p)
  {
    g[p.row][p.col]
  }

  /** A board with every cell `EMPTY`. */
  function EmptyGrid(): (g: Grid)
    ensures IsGrid(g)
    ensures forall r, c :: 0 <= r < ROWS && 0 <= c < COLUMNS ==> g[r][c] == Empty
  {
    seq(ROWS, _ => seq(COLUMNS, _ => Empty))
  }

  /** A player's ordinary mark. */
  predicate IsPlayerMark(x: CellValue)
  {
    x == PlayerOne || x == PlayerTwo
  }

  /**
   * The board's gravity invariant: every column cursor lies in [-1, ROWS-1]
   * and every cell at or above a column's cursor is `EMPTY`.
   */
  predicate Gravity(g: Grid, cursor: seq<int>)
  {
    IsGrid(g) && |cursor| == COLUMNS
    && (forall c :: 0 <= c < COLUMNS ==> -1 <= cursor[c] <= ROWS - 1)
    && (forall r, c :: 0 <= c < COLUMNS && 0 <= r <= cursor[c] ==> g[r][c] == Empty)
  }

  /**
   * Gravity together with the converse: every cell below a column's cursor
   * holds a checker. This holds while only non-`EMPTY` marks are placed, as
   * the game controller does.
   */
  predicate Stacked(g: Grid, cursor: seq<int>)
  {
    Gravity(g, cursor)
    && (forall r, c :: 0 <= c < COLUMNS && cursor[c] < r < ROWS ==> g[r][c] != Empty)
  }

  /** The column of `p` can still take a checker. */
  predicate Available(cursor: seq<int>, c: int)
    requires |cursor| == COLUMNS
  {
    0 <= c < COLUMNS && cursor[c] != -1
  }

  /** Two boards are equal when they agree on every cell. */
  lemma GridsEqual(a: Grid, b: Grid)
    requires IsGrid(a) && IsGrid(b)
    requires forall r, c :: 0 <= r < ROWS && 0 <= c < COLUMNS ==> a[r][c] == b[r][c]
    ensures a == b
  {
    forall r | 0 <= r < ROWS
      ensures a[r] == b[r]
    {
    }
  }
}
