/**
 * The Connect Four board: a 6x7 array of marks, a per-column cursor naming
 * the first free row, and the four-cell scratch array the winner check fills.
 */
module Board {
  import opened Java
  import opened ConnectFourTypes
  import opened Windows

  /** The value of a 6x7 array of marks. */
  function GridOf(a: array2<CellValue>): (g: Grid)
    reads a
    requires a.Length0 == ROWS && a.Length1 == COLUMNS
    ensures IsGrid(g)
    ensures forall r, c :: 0 <= r < ROWS && 0 <= c < COLUMNS ==> g[r][c] == a[r, c]
  {
    seq(ROWS, r requires 0 <= r < ROWS reads a => seq(COLUMNS, c requires 0 <= c < COLUMNS reads a => a[r, c]))
  }

  /** The cells of a board in row-major order, row 0 and column 0 first. */
  function RowMajor(g: Grid): (cells: seq<Cell>)
    requires IsGrid(g)
    ensures |cells| == ROWS * COLUMNS
  {
    seq(ROWS * COLUMNS, k requires 0 <= k < ROWS * COLUMNS => Cell(k / COLUMNS, k % COLUMNS, g[k / COLUMNS][k % COLUMNS]))
  }

  /** Cell `(r, c)` comes at position `r * COLUMNS + c` of the row-major order, with its mark. */
  lemma RowMajorAt(g: Grid, r: int, c: int)
    requires IsGrid(g) && 0 <= r < ROWS && 0 <= c < COLUMNS
    ensures 0 <= r * COLUMNS + c < ROWS * COLUMNS
    ensures RowMajor(g)[r * COLUMNS + c] == Cell(r, c, g[r][c])
  {
    var k := r * COLUMNS + c;
    assert k / COLUMNS == r && k % COLUMNS == c;
  }

  /** The mark a scan records for a winning cell, or the previous entry for any other cell. */
  function Recorded(g: Grid, p: Pos, previous: Cell): Cell
    requires IsGrid(g) && InBounds(p)
  {
    match At(g, p)
    case PlayerTwo => Cell(p.row, p.col, PlayerTwoWinner)
    case PlayerOne => Cell(p.row, p.col, PlayerOneWinner)
    case _ => previous
  }

  /** The cells of `w`, each with the winner mark of `result`. */
  predicate HoldsWinningCells(cells: seq<Cell>, w: Window, result: GameResult)
  {
    |cells| == 4
    && forall v :: 0 <= v < 4 ==> cells[v] == Cell(CellAt(w, v).row, CellAt(w, v).col, WinnerMark(result))
  }

  /** The winner check's result: the first winning window's result, or `NONE`. */
  function CheckResult(g: Grid): GameResult
    requires IsGrid(g)
  {
    AllWindowsAnchored();
    match FirstWin(g, AllWindows())
    case Win(result, _) => result
    case NoWin => Undecided
  }

  /** No window before position `n` of the scan order wins. */
  predicate NoneBefore(g: Grid, n: int)
    requires IsGrid(g) && n <= WINDOW_COUNT
  {
    forall j :: 0 <= j < n ==> !Winning(g, WindowAt(j))
  }

  /** `r` is the first win of the scan, and `cells` holds its window's cells with the winner's mark. */
  predicate ReportsFirstWin(g: Grid, r: GameResult, cells: seq<Cell>)
    requires IsGrid(g)
  {
    AllWindowsAnchored();
    FirstWin(g, AllWindows()).Win? && r == FirstWin(g, AllWindows()).result
    && HoldsWinningCells(cells, FirstWin(g, AllWindows()).window, r)
  }

  /** A window that does not win extends the winless prefix of the scan. */
  lemma NoneBeforeNext(g: Grid, k: int)
    requires IsGrid(g) && 0 <= k < WINDOW_COUNT && NoneBefore(g, k) && !Winning(g, WindowAt(k))
    ensures NoneBefore(g, k + 1)
  {
  }

  /** A win at position `k` of the scan, with no win before it, is the first win. */
  lemma WinAt(g: Grid, k: int, r: GameResult, cells: seq<Cell>)
    requires IsGrid(g) && 0 <= k < WINDOW_COUNT && Winning(g, WindowAt(k)) && NoneBefore(g, k)
    requires r == ResultOf(g, WindowAt(k)) && HoldsWinningCells(cells, WindowAt(k), r)
    ensures ReportsFirstWin(g, r, cells) && r == CheckResult(g)
  {
    AllWindowsAnchored();
    FirstWinIsFirst(g, AllWindows(), k);
  }

  /** The scratch array after a scan has visited the cells named by `vals`, in order. */
  function RecordAll(g: Grid, w: Window, vals: seq<int>, cells: seq<Cell>): (r: seq<Cell>)
    requires IsGrid(g) && Anchored(w) && ValidVals(vals) && |cells| == 4
    ensures |r| == 4
  {
    if vals == [] then cells
    else
      var c := RecordAll(g, w, vals[..|vals| - 1], cells);
      var v := vals[|vals| - 1];
      c[v := Recorded(g, CellAt(w, v), c[v])]
  }

  /** A scan updates exactly the entries it visits, each by its own cell, however often visited. */
  lemma {:induction false} RecordAllAt(g: Grid, w: Window, vals: seq<int>, cells: seq<Cell>, v: int)
    requires IsGrid(g) && Anchored(w) && ValidVals(vals) && |cells| == 4 && 0 <= v < 4
    ensures RecordAll(g, w, vals, cells)[v] == if v in vals then Recorded(g, CellAt(w, v), cells[v]) else cells[v]
  {
    if vals != [] {
      var prefix := vals[..|vals| - 1];
      RecordAllAt(g, w, prefix, cells, v);
      assert vals == prefix + [vals[|vals| - 1]];
    }
  }

  /**
   * A full scan records every cell of the window; when the window holds four
   * of one player's checkers the scratch array then holds that window's cells
   * with the winner's mark.
   */
  lemma ScanComplete(g: Grid, w: Window, cells: seq<Cell>)
    requires IsGrid(g) && Anchored(w) && |cells| == 4
    ensures forall v :: 0 <= v < 4 ==>
      RecordAll(g, w, Order(w.orientation, 4), cells)[v] == Recorded(g, CellAt(w, v), cells[v])
    ensures FourOf(g, w, PlayerTwo) ==>
      HoldsWinningCells(RecordAll(g, w, Order(w.orientation, 4), cells), w, PlayerTwoWins)
    ensures FourOf(g, w, PlayerOne) ==>
      HoldsWinningCells(RecordAll(g, w, Order(w.orientation, 4), cells), w, PlayerOneWins)
  {
    var vals := Order(w.orientation, 4);
    forall v | 0 <= v < 4
      ensures RecordAll(g, w, vals, cells)[v] == Recorded(g, CellAt(w, v), cells[v])
    {
      var i := OrderCovers(w.orientation, 4, v);
      RecordAllAt(g, w, vals, cells, v);
    }
  }

  /** The first `n` of the four writes that mark window `w` with `m`, in `val` order. */
  function MarkUpTo(g: Grid, w: Window, m: CellValue, n: nat): (r: Grid)
    requires IsGrid(g) && Anchored(w) && n <= 4
    ensures IsGrid(r)
  {
    if n == 0 then g else SetCell(MarkUpTo(g, w, m, n - 1), CellAt(w, n - 1), m)
  }

  /** All four writes mark the window. */
  lemma MarkUpToFour(g: Grid, w: Window, m: CellValue)
    requires IsGrid(g) && Anchored(w)
    ensures MarkUpTo(g, w, m, 4) == MarkWindow(g, w, m)
  {
    var g0 := SetCell(g, CellAt(w, 0), m);
    var g1 := SetCell(g0, CellAt(w, 1), m);
    var g2 := SetCell(g1, CellAt(w, 2), m);
    assert MarkUpTo(g, w, m, 1) == g0;
    assert MarkUpTo(g, w, m, 2) == g1;
    assert MarkUpTo(g, w, m, 3) == g2;
  }

  class GameBoard {
    const board: array2<CellValue>
    const firstAvailableRow: array<int>
    const winningCells: array<Cell>

    predicate Shaped()
    {
      board.Length0 == ROWS && board.Length1 == COLUMNS
      && firstAvailableRow.Length == COLUMNS && winningCells.Length == 4
    }

    /** The marks on the board. */
    function Grid(): (g: Grid)
      reads board
      requires Shaped()
      ensures IsGrid(g)
    {
      GridOf(board)
    }

    /** The first free row of each column. */
    function Cursor(): (cursor: seq<int>)
      reads firstAvailableRow
      ensures |cursor| == firstAvailableRow.Length
    {
      firstAvailableRow[..]
    }

    /** The gravity invariant over the board's arrays. */
    ghost predicate Valid()
      reads board, firstAvailableRow
    {
      Shaped() && Gravity(Grid(), Cursor())
    }

    /** Gravity with every cell below a cursor holding a checker. */
    ghost predicate Settled()
      reads board, firstAvailableRow
    {
      Shaped() && Stacked(Grid(), Cursor())
    }

    /** A fresh board, reset: every cell `EMPTY` and every cursor on the bottom row. */
    constructor()
      ensures Shaped() && Settled() && Valid()
      ensures Grid() == EmptyGrid() && Cursor() == ResetCursor()
      ensures fresh(board) && fresh(firstAvailableRow) && fresh(winningCells)
    {
      board := new CellValue[ROWS, COLUMNS]((_, _) => Empty);
      firstAvailableRow := new int[COLUMNS];
      winningCells := new Cell[4](_ => Cell(0, 0, Empty));
      new;
      ResetBoard();
    }

    /** `resetBoard`: every cell `EMPTY` and every cursor `ROWS - 1`. */
    method ResetBoard()
      requires Shaped()
      modifies board, firstAvailableRow
      ensures Settled() && Valid()
      ensures Grid() == EmptyGrid() && Cursor() == ResetCursor()
    {
      var row := 0;
      while row < ROWS
        invariant 0 <= row <= ROWS
        invariant forall r, c :: 0 <= r < row && 0 <= c < COLUMNS ==> board[r, c] == Empty
      {
        var col := 0;
        while col < COLUMNS
          invariant 0 <= col <= COLUMNS
          invariant forall r, c :: 0 <= r < row && 0 <= c < COLUMNS ==> board[r, c] == Empty
          invariant forall c :: 0 <= c < col ==> board[row, c] == Empty
        {
          board[row, col] := Empty;
          col := col + 1;
        }
        row := row + 1;
      }
      var col := 0;
      while col < COLUMNS
        invariant 0 <= col <= COLUMNS
        invariant forall c :: 0 <= c < col ==> firstAvailableRow[c] == ROWS - 1
        invariant forall r, c :: 0 <= r < ROWS && 0 <= c < COLUMNS ==> board[r, c] == Empty
      {
        firstAvailableRow[col] := ROWS - 1;
        col := col + 1;
      }
      GridsEqual(Grid(), EmptyGrid());
      assert Cursor() == ResetCursor();
    }

    /** `markBoard`: write `value` at `(row, col)`, or throw when the position is off the board. */
    method MarkBoard(row: int, col: int, value: CellValue) returns (r: Result<()>)
      requires Shaped()
      modifies board
      ensures !InBounds(Pos(row, col)) ==> r == Throws(IllegalArgument) && Grid() == old(Grid())
      ensures InBounds(Pos(row, col)) ==> r == Ok(()) && Grid() == SetCell(old(Grid()), Pos(row, col), value)
    {
      if row < 0 || row >= ROWS || col < 0 || col >= COLUMNS {
        return Throws(IllegalArgument);
      }
      board[row, col] := value;
      GridsEqual(Grid(), SetCell(old(Grid()), Pos(row, col), value));
      return Ok(());
    }

    /**
     * `setValueToFirstAvailableRow`: an out-of-range column throws before any
     * change; a full column returns false with no change; otherwise the value
     * lands at the column's cursor, the cursor moves up, and true is returned.
     */
    method SetValueToFirstAvailableRow(col: int, value: CellValue) returns (r: Result<bool>)
      requires Valid()
      modifies board, firstAvailableRow
      ensures Valid()
      ensures old(Settled()) && value != Empty ==> Settled()
      ensures !(0 <= col < COLUMNS) ==> r == Throws(IllegalArgument)
      ensures r.Ok? <==> 0 <= col < COLUMNS
      ensures r == Ok(true) <==> 0 <= col < COLUMNS && old(Cursor())[col] != -1
      ensures r == Ok(true) ==>
        Grid() == DropGrid(old(Grid()), old(Cursor()), col, value) && Cursor() == DropCursor(old(Cursor()), col)
      ensures r != Ok(true) ==> Grid() == old(Grid()) && Cursor() == old(Cursor())
    {
      if col < 0 || col >= COLUMNS {
        return Throws(IllegalArgument);
      }
      var row := firstAvailableRow[col];
      if row < 0 {
        return Ok(false);
      }
      var _ := MarkBoard(row, col, value);
      firstAvailableRow[col] := firstAvailableRow[col] - 1;
      assert Cursor() == DropCursor(old(Cursor()), col);
      DropKeepsStacked(old(Grid()), old(Cursor()), col, value);
      return Ok(true);
    }

    /** `isColumnAvailable`: the column's cursor is not -1; an out-of-range column throws. */
    function IsColumnAvailable(column: int): (r: Result<bool>)
      reads firstAvailableRow
      requires Shaped()
      ensures r == Throws(IllegalArgument) <==> !(0 <= column < COLUMNS)
      ensures r.Ok? ==> (r.value <==> Available(Cursor(), column))
    {
      if column < 0 || column >= COLUMNS then Throws(IllegalArgument)
      else Ok(firstAvailableRow[column] != -1)
    }
    /**
     * One pass of the `val` loop of the winner check over `w`, in the
     * orientation's order: counts both players' cells and records each of
     * them, with its winner mark, in the scratch array.
     */
    method ScanWindow(w: Window) returns (ones: int, twos: int)
      requires Shaped() && Anchored(w)
      modifies winningCells
      ensures ones == TallyOf(Grid(), w, Order(w.orientation, 4)).ones
      ensures twos == TallyOf(Grid(), w, Order(w.orientation, 4)).twos
      ensures winningCells[..] == RecordAll(Grid(), w, Order(w.orientation, 4), old(winningCells[..]))
    {
      var vals := Order(w.orientation, 4);
      ghost var g := Grid();
      ghost var before := winningCells[..];
      ones, twos := 0, 0;
      var step := 0;
      while step < 4
        invariant 0 <= step <= 4
        invariant Grid() == g
        invariant ones == TallyOf(g, w, vals[..step]).ones && twos == TallyOf(g, w, vals[..step]).twos
        invariant winningCells[..] == RecordAll(g, w, vals[..step], before)
      {
        assert vals[..step + 1][..step] == vals[..step];
        var val := vals[step];
        var p := CellAt(w, val);
        var cell := board[p.row, p.col];
        assert cell == At(g, p);
        if cell == PlayerTwo {
          winningCells[val] := Cell(p.row, p.col, PlayerTwoWinner);
          twos := twos + 1;
        } else if cell == PlayerOne {
          winningCells[val] := Cell(p.row, p.col, PlayerOneWinner);
          ones := ones + 1;
        }
        step := step + 1;
      }
      assert vals[..4] == vals;
    }

    /**
     * The verdict on one window: four `PLAYER_TWO` cells are tested first,
     * then four `PLAYER_ONE` cells; on a win the scratch array holds the
     * window's cells with the winner's mark.
     */
    method WindowVerdict(w: Window) returns (r: GameResult)
      requires Shaped() && Anchored(w)
      modifies winningCells
      ensures r == ResultOf(Grid(), w)
      ensures forall v :: 0 <= v < 4 ==> winningCells[v] == Recorded(Grid(), CellAt(w, v), old(winningCells[v]))
      ensures Winning(Grid(), w) ==> HoldsWinningCells(winningCells[..], w, r)
    {
      ghost var before := winningCells[..];
      var ones, twos := ScanWindow(w);
      ScanComplete(Grid(), w, before);
      TallyFour(Grid(), w);
      if twos == 4 {
        return PlayerTwoWins;
      } else if ones == 4 {
        return PlayerOneWins;
      }
      return Undecided;
    }

    /** The row part of the scan: anchors row 0 to 5, then column 3 to 6. */
    method ScanRows() returns (r: GameResult)
      requires Shaped()
      modifies winningCells
      ensures r == Undecided ==> NoneBefore(Grid(), 24)
      ensures r != Undecided ==> ReportsFirstWin(Grid(), r, winningCells[..]) && r == CheckResult(Grid())
    {
      ghost var g := Grid();
      var row := 0;
      while row < ROWS
        invariant 0 <= row <= ROWS
        invariant NoneBefore(g, row * 4)
      {
        var col := 3;
        while col < COLUMNS
          invariant 3 <= col <= COLUMNS
          invariant NoneBefore(g, row * 4 + (col - 3))
        {
          ghost var k := row * 4 + (col - 3);
          HorizontalIndex(row, col);
          r := WindowVerdict(Window(Horizontal, row, col));
          if r != Undecided {
            WinAt(g, k, r, winningCells[..]);
            return;
          }
          NoneBeforeNext(g, k);
          col := col + 1;
        }
        row := row + 1;
      }
      return Undecided;
    }

    /** The column part of the scan: anchors column 0 to 6, then row 3 to 5. */
    method ScanColumns() returns (r: GameResult)
      requires Shaped() && NoneBefore(Grid(), 24)
      modifies winningCells
      ensures r == Undecided ==> NoneBefore(Grid(), 45)
      ensures r != Undecided ==> ReportsFirstWin(Grid(), r, winningCells[..]) && r == CheckResult(Grid())
    {
      ghost var g := Grid();
      var col := 0;
      while col < COLUMNS
        invariant 0 <= col <= COLUMNS
        invariant NoneBefore(g, 24 + col * 3)
      {
        var row := 3;
        while row < ROWS
          invariant 3 <= row <= ROWS
          invariant NoneBefore(g, 24 + col * 3 + (row - 3))
        {
          ghost var k := 24 + col * 3 + (row - 3);
          VerticalIndex(col, row);
          r := WindowVerdict(Window(Vertical, row, col));
          if r != Undecided {
            WinAt(g, k, r, winningCells[..]);
            return;
          }
          NoneBeforeNext(g, k);
          row := row + 1;
        }
        col := col + 1;
      }
      return Undecided;
    }

    /**
     * A diagonal part of the scan: anchors row 2 down to 0, then column 3
     * down to 0.
     */
    method ScanDiagonals(base: int, o: Orientation) returns (r: GameResult)
      requires Shaped()
      requires (base == 45 && o == MajorDiagonal) || (base == 57 && o == MinorDiagonal)
      requires NoneBefore(Grid(), base)
      modifies winningCells
      ensures r == Undecided ==> NoneBefore(Grid(), base + 12)
      ensures r != Undecided ==> ReportsFirstWin(Grid(), r, winningCells[..]) && r == CheckResult(Grid())
    {
      ghost var g := Grid();
      var row := ROWS - 4;
      while row >= 0
        invariant -1 <= row <= ROWS - 4
        invariant NoneBefore(g, base + (2 - row) * 4)
      {
        var col := COLUMNS - 4;
        while col >= 0
          invariant -1 <= col <= COLUMNS - 4
          invariant NoneBefore(g, base + (2 - row) * 4 + (3 - col))
        {
          ghost var k := base + (2 - row) * 4 + (3 - col);
          DiagonalIndex(base, o, row, col);
          r := WindowVerdict(Window(o, row, col));
          if r != Undecided {
            WinAt(g, k, r, winningCells[..]);
            return;
          }
          NoneBeforeNext(g, k);
          col := col - 1;
        }
        row := row - 1;
      }
      return Undecided;
    }

    /**
     * `checkForWinner`: scan the windows in order (rows, columns, major and
     * minor diagonals) and stop at the first holding four `PLAYER_TWO` or
     * four `PLAYER_ONE` cells, leaving its cells with their winner marks in
     * the scratch array.
     */
    method CheckForWinner() returns (r: GameResult)
      requires Shaped()
      modifies winningCells
      ensures r == CheckResult(Grid())
      ensures r != Undecided ==> ReportsFirstWin(Grid(), r, winningCells[..])
    {
      r := ScanRows();
      if r != Undecided {
        return;
      }
      r := ScanColumns();
      if r != Undecided {
        return;
      }
      r := ScanDiagonals(45, MajorDiagonal);
      if r != Undecided {
        return;
      }
      r := ScanDiagonals(57, MinorDiagonal);
      if r == Undecided {
        AllWindowsAnchored();
        NoWinIff(Grid(), AllWindows());
      }
    }

    /**
     * `getWinner`: on a win, overwrite exactly the four winning cells with the
     * winner's mark; with no win, report `STALEMATE` when no column is
     * available and `NONE` otherwise. The cursors never change.
     */
    method GetWinner() returns (r: GameResult)
      requires Valid()
      modifies board, winningCells
      ensures Valid() && Cursor() == old(Cursor())
      ensures old(Settled()) ==> Settled()
      ensures r == Outcome(old(Grid()), old(Cursor()))
      ensures Grid() == AfterCheck(old(Grid()))
    {
      ghost var g := Grid();
      AfterCheckKeepsStacked(g, Cursor());
      r := CheckForWinner();
      AllWindowsAnchored();
      FirstWinSound(g, AllWindows());
      if r == PlayerOneWins || r == PlayerTwoWins {
        MarkWinningCells(FirstWin(g, AllWindows()).window, r);
      } else if r == Undecided {
        assert FirstWin(g, AllWindows()) == NoWin;
        var isColAvailable := AnyColumnAvailable();
        if !isColAvailable {
          return Stalemate;
        }
      }
    }

    /** The marking loop of `getWinner`: copy the four recorded winning cells onto the board. */
    method MarkWinningCells(ghost w: Window, ghost r: GameResult)
      requires Shaped() && Anchored(w) && HoldsWinningCells(winningCells[..], w, r)
      modifies board
      ensures Grid() == MarkWindow(old(Grid()), w, WinnerMark(r))
    {
      ghost var g := Grid();
      ghost var m := WinnerMark(r);
      var val := 0;
      while val < 4
        invariant 0 <= val <= 4
        invariant forall rr, c :: 0 <= rr < ROWS && 0 <= c < COLUMNS ==> board[rr, c] == MarkUpTo(g, w, m, val)[rr][c]
      {
        board[winningCells[val].row, winningCells[val].column] := winningCells[val].value;
        val := val + 1;
      }
      MarkUpToFour(g, w, m);
      GridsEqual(Grid(), MarkWindow(g, w, m));
    }

    /** The stalemate test of `getWinner`: look for an available column, lowest first. */
    method AnyColumnAvailable() returns (isColAvailable: bool)
      requires Shaped()
      ensures isColAvailable <==> SomeAvailable(Cursor())
    {
      isColAvailable := false;
      var val := 0;
      while val < COLUMNS && !isColAvailable
        invariant 0 <= val <= COLUMNS
        invariant isColAvailable ==> SomeAvailable(Cursor())
        invariant !isColAvailable ==> forall c :: 0 <= c < val ==> !Available(Cursor(), c)
      {
        isColAvailable := IsColumnAvailable(val).value;
        val := val + 1;
      }
    }

    /** `iterator`: a fresh iterator over this board's cells. */
    method Iterator() returns (it: BoardIterator)
      requires Shaped()
      ensures fresh(it) && it.Valid() && it.board == board && it.Index() == 0
    {
      it := new BoardIterator(board);
    }
  }

  /** The board iterator: walks the live board row by row. */
  class BoardIterator {
    const board: array2<CellValue>
    var rowPosition: int
    var columnPosition: int

    ghost predicate Valid()
      reads this
    {
      board.Length0 == ROWS && board.Length1 == COLUMNS
      && 0 <= rowPosition <= ROWS && 0 <= columnPosition < COLUMNS
      && (rowPosition == ROWS ==> columnPosition == 0)
    }

    /** How many cells have been returned so far. */
    function Index(): int
      reads this
    {
      rowPosition * COLUMNS + columnPosition
    }

    constructor(board: array2<CellValue>)
      requires board.Length0 == ROWS && board.Length1 == COLUMNS
      ensures Valid() && this.board == board && Index() == 0
    {
      this.board := board;
      rowPosition := 0;
      columnPosition := 0;
    }

    /** `hasNext`: cells remain exactly until all `ROWS * COLUMNS` have been returned. */
    function HasNext(): (b: bool)
      reads this
      requires Valid()
      ensures b <==> 0 <= Index() < ROWS * COLUMNS
      ensures !b ==> Index() == ROWS * COLUMNS
    {
      rowPosition < ROWS
    }

    /**
     * `next`: the next cell in row-major order, with its current mark; past the
     * last cell the array access is out of bounds.
     */
    method Next() returns (r: Result<Cell>)
      requires Valid()
      modifies this
      ensures Valid()
      ensures old(Index()) < ROWS * COLUMNS ==>
        r == Ok(RowMajor(GridOf(board))[old(Index())]) && Index() == old(Index()) + 1
      ensures old(Index()) >= ROWS * COLUMNS ==> r == Throws(IndexOutOfBounds) && Index() == old(Index())
    {
      if rowPosition >= ROWS {
        return Throws(IndexOutOfBounds);
      }
      RowMajorAt(GridOf(board), rowPosition, columnPosition);
      var cell := Cell(rowPosition, columnPosition, board[rowPosition, columnPosition]);
      columnPosition := columnPosition + 1;
      if columnPosition == COLUMNS {
        rowPosition := rowPosition + 1;
        columnPosition := 0;
      }
      return Ok(cell);
    }

    /** `remove` is unsupported. */
    method Remove() returns (r: Result<()>)
      ensures r == Throws(UnsupportedOperation)
    {
      return Throws(UnsupportedOperation);
    }
  }
}
