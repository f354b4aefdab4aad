/**
 * The length-4 windows that both the board's winner check and the AI scan,
 * in the order the scanning loops visit them, together with what a scan of
 * one window counts, the winner rule, and the marking of a winning window.
 */
module Windows {
  import opened ConnectFourTypes

  datatype Orientation = Horizontal | Vertical | MajorDiagonal | MinorDiagonal

  /**
   * A window as the scanning loops name it: the orientation and the loop's
   * `(row, col)` anchor. Its `val`-th cell is given by `CellAt`.
   */
  datatype Window = Window(orientation: Orientation, row: int, col: int)

  /** The anchors the loops range over. */
  predicate Anchored(w: Window)
  {
    match w.orientation
    case Horizontal => 0 <= w.row < ROWS && 3 <= w.col < COLUMNS
    case Vertical => 3 <= w.row < ROWS && 0 <= w.col < COLUMNS
    case MajorDiagonal => 0 <= w.row <= ROWS - 4 && 0 <= w.col <= COLUMNS - 4
    case MinorDiagonal => 0 <= w.row <= ROWS - 4 && 0 <= w.col <= COLUMNS - 4
  }

  /**
   * The cell the loops read at index `val`: leftward along a row, upward along
   * a column, down-right along a major diagonal and down-left along a minor one.
   */
  function CellAt(w: Window, v: int): (p: Pos)
    ensures Anchored(w) && 0 <= v < 4 ==> InBounds(p)
  {
    match w.orientation
    case Horizontal => Pos(w.row, w.col - v)
    case Vertical => Pos(w.row - v, w.col)
    case MajorDiagonal => Pos(w.row + v, w.col + v)
    case MinorDiagonal => Pos(w.row + v, w.col - v + 3)
  }

  const WINDOW_COUNT: int := 69

  /**
   * The `k`-th window the scan visits: 24 horizontal windows (row 0..5, then
   * col 3..6), 21 vertical ones (col 0..6, then row 3..5), 12 major-diagonal
   * ones (row 2..0, then col 3..0) and 12 minor-diagonal ones (same anchors).
   */
  function WindowAt(k: int): (w: Window)
    requires 0 <= k < WINDOW_COUNT
    ensures Anchored(w)
  {
    if k < 24 then Window(Horizontal, k / 4, 3 + k % 4)
    else if k < 45 then Window(Vertical, 3 + (k - 24) % 3, (k - 24) / 3)
    else if k < 57 then Window(MajorDiagonal, 2 - (k - 45) / 4, 3 - (k - 45) % 4)
    else Window(MinorDiagonal, 2 - (k - 57) / 4, 3 - (k - 57) % 4)
  }

  /** All windows in scan order. */
  function AllWindows(): (ws: seq<Window>)
    ensures |ws| == WINDOW_COUNT
    ensures forall k :: 0 <= k < WINDOW_COUNT ==> ws[k] == WindowAt(k)
  {
    seq(WINDOW_COUNT, k requires 0 <= k < WINDOW_COUNT => WindowAt(k))
  }

  predicate AllAnchored(ws: seq<Window>)
  {
    forall i :: 0 <= i < |ws| ==> Anchored(ws[i])
  }

  lemma AllWindowsAnchored()
    ensures AllAnchored(AllWindows())
  {
  }

  // ----- The index of each loop position in the scan order -----

  lemma HorizontalIndex(row: int, col: int)
    requires 0 <= row < ROWS && 3 <= col < COLUMNS
    ensures 0 <= row * 4 + (col - 3) < 24
    ensures WindowAt(row * 4 + (col - 3)) == Window(Horizontal, row, col)
  {
    var k := row * 4 + (col - 3);
    assert k / 4 == row && k % 4 == col - 3;
  }

  lemma VerticalIndex(col: int, row: int)
    requires 0 <= col < COLUMNS && 3 <= row < ROWS
    ensures 24 <= 24 + col * 3 + (row - 3) < 45
    ensures WindowAt(24 + col * 3 + (row - 3)) == Window(Vertical, row, col)
  {
    var k := col * 3 + (row - 3);
    assert k / 3 == col && k % 3 == row - 3;
  }

  lemma DiagonalIndex(base: int, o: Orientation, row: int, col: int)
    requires (base == 45 && o == MajorDiagonal) || (base == 57 && o == MinorDiagonal)
    requires 0 <= row <= ROWS - 4 && 0 <= col <= COLUMNS - 4
    ensures base <= base + (2 - row) * 4 + (3 - col) < base + 12
    ensures WindowAt(base + (2 - row) * 4 + (3 - col)) == Window(o, row, col)
  {
    var k := (2 - row) * 4 + (3 - col);
    assert k / 4 == 2 - row && k % 4 == 3 - col;
  }

  // ----- What one scan of a window counts -----

  /** The order of `val` at depth `d`: upward for rows and columns, downward for diagonals. */
  function Order(o: Orientation, d: int): (vs: seq<int>)
    requires 0 <= d <= 4
    ensures |vs| == d
    ensures forall i :: 0 <= i < d ==> 0 <= vs[i] < d
  {
    if o == Horizontal || o == Vertical then seq(d, i => i) else seq(d, i => d - 1 - i)
  }

  /** Every `val` below `d` is visited, at a known step of the order. */
  lemma OrderCovers(o: Orientation, d: int, u: int) returns (i: int)
    requires 0 <= d <= 4 && 0 <= u < d
    ensures 0 <= i < d && Order(o, d)[i] == u
    ensures forall j :: 0 <= j < d && j != i ==> Order(o, d)[j] != u
  {
    i := if o == Horizontal || o == Vertical then u else d - 1 - u;
  }

  predicate ValidVals(vals: seq<int>)
  {
    forall i :: 0 <= i < |vals| ==> 0 <= vals[i] < 4
  }

  /** The counters a scan leaves: `PLAYER_ONE` cells, `PLAYER_TWO` cells, last `EMPTY` val. */
  datatype Tally = Tally(ones: int, twos: int, empty: int)

  /**
   * The loop body run over `vals` in order: a `PLAYER_TWO` cell bumps the
   * second counter, a `PLAYER_ONE` cell the first, an `EMPTY` cell records its
   * `val`, and any other mark is ignored.
   */
  function TallyOf(g: Grid, w: Window, vals: seq<int>): (t: Tally)
    requires IsGrid(g) && Anchored(w) && ValidVals(vals)
    ensures t.empty == -1 || t.empty in vals
  {
    if vals == [] then Tally(0, 0, -1)
    else
      var t := TallyOf(g, w, vals[..|vals| - 1]);
      var v := vals[|vals| - 1];
      match At(g, CellAt(w, v))
      case PlayerTwo => t.(twos := t.twos + 1)
      case PlayerOne => t.(ones := t.ones + 1)
      case Empty => t.(empty := v)
      case _ => t
  }

  /** How many of the cells named by `vals` hold `x`. */
  function Count(g: Grid, w: Window, vals: seq<int>, x: CellValue): (n: nat)
    requires IsGrid(g) && Anchored(w) && ValidVals(vals)
    ensures n <= |vals|
  {
    if vals == [] then 0
    else Count(g, w, vals[..|vals| - 1], x) + (if At(g, CellAt(w, vals[|vals| - 1])) == x then 1 else 0)
  }

  /** The scan's counters are the cell counts, and the recorded `val` names an `EMPTY` cell. */
  lemma {:induction false} TallyCounts(g: Grid, w: Window, vals: seq<int>)
    requires IsGrid(g) && Anchored(w) && ValidVals(vals)
    ensures TallyOf(g, w, vals).twos == Count(g, w, vals, PlayerTwo)
    ensures TallyOf(g, w, vals).ones == Count(g, w, vals, PlayerOne)
    ensures TallyOf(g, w, vals).empty == -1 <==> forall i :: 0 <= i < |vals| ==> At(g, CellAt(w, vals[i])) != Empty
    ensures TallyOf(g, w, vals).empty != -1 ==>
      exists j :: 0 <= j < |vals| && vals[j] == TallyOf(g, w, vals).empty && At(g, CellAt(w, vals[j])) == Empty
  {
    if vals != [] {
      var p := vals[..|vals| - 1];
      TallyCounts(g, w, p);
      var n := |vals| - 1;
      assert forall i :: 0 <= i < n ==> vals[i] == p[i];
      if TallyOf(g, w, vals).empty != -1 && At(g, CellAt(w, vals[n])) != Empty {
        var j :| 0 <= j < |p| && p[j] == TallyOf(g, w, p).empty && At(g, CellAt(w, p[j])) == Empty;
        assert vals[j] == p[j];
      }
    }
  }

  /** Every cell holds `x` exactly when the count of `x` is the number of cells. */
  lemma {:induction false} CountFull(g: Grid, w: Window, vals: seq<int>, x: CellValue)
    requires IsGrid(g) && Anchored(w) && ValidVals(vals)
    ensures Count(g, w, vals, x) == |vals| <==> forall i :: 0 <= i < |vals| ==> At(g, CellAt(w, vals[i])) == x
  {
    if vals != [] {
      var p := vals[..|vals| - 1];
      CountFull(g, w, p, x);
      assert forall i :: 0 <= i < |p| ==> vals[i] == p[i];
    }
  }

  /** No cell holds `x`, so the count of `x` is zero. */
  lemma {:induction false} CountNone(g: Grid, w: Window, vals: seq<int>, x: CellValue)
    requires IsGrid(g) && Anchored(w) && ValidVals(vals)
    requires forall i :: 0 <= i < |vals| ==> At(g, CellAt(w, vals[i])) != x
    ensures Count(g, w, vals, x) == 0
  {
    if vals != [] {
      var p := vals[..|vals| - 1];
      assert forall i :: 0 <= i < |p| ==> vals[i] == p[i];
      CountNone(g, w, p, x);
    }
  }

  /**
   * When the cell at step `j` does not hold `x`, the count of `x` misses the
   * number of cells by one exactly when every other cell holds `x`.
   */
  lemma {:induction false} CountAllButOne(g: Grid, w: Window, vals: seq<int>, x: CellValue, j: int)
    requires IsGrid(g) && Anchored(w) && ValidVals(vals)
    requires 0 <= j < |vals| && At(g, CellAt(w, vals[j])) != x
    ensures Count(g, w, vals, x) == |vals| - 1 <==>
      forall i :: 0 <= i < |vals| && i != j ==> At(g, CellAt(w, vals[i])) == x
  {
    var n := |vals| - 1;
    var p := vals[..n];
    assert forall i :: 0 <= i < n ==> vals[i] == p[i];
    if j == n {
      CountFull(g, w, p, x);
    } else {
      CountAllButOne(g, w, p, x, j);
      CountFull(g, w, p, x);
    }
  }

  // ----- The winner rule -----

  /** All four cells of `w` hold `x`. */
  predicate FourOf(g: Grid, w: Window, x: CellValue)
    requires IsGrid(g) && Anchored(w)
  {
    forall v :: 0 <= v < 4 ==> At(g, CellAt(w, v)) == x
  }

  /** A property holds of every cell a scan at depth `d` visits exactly when it holds of cells `0..d-1`. */
  lemma AllOverOrder(g: Grid, w: Window, d: int, x: CellValue)
    requires IsGrid(g) && Anchored(w) && 0 <= d <= 4
    ensures (forall i :: 0 <= i < d ==> At(g, CellAt(w, Order(w.orientation, d)[i])) == x)
        <==> (forall v :: 0 <= v < d ==> At(g, CellAt(w, v)) == x)
  {
    if forall i :: 0 <= i < d ==> At(g, CellAt(w, Order(w.orientation, d)[i])) == x {
      forall v | 0 <= v < d
        ensures At(g, CellAt(w, v)) == x
      {
        var i := OrderCovers(w.orientation, d, v);
      }
    }
  }

  /** A full scan of `w` counts four `PLAYER_TWO` (or `PLAYER_ONE`) cells exactly when it holds four of them. */
  lemma TallyFour(g: Grid, w: Window)
    requires IsGrid(g) && Anchored(w)
    ensures TallyOf(g, w, Order(w.orientation, 4)).twos == 4 <==> FourOf(g, w, PlayerTwo)
    ensures TallyOf(g, w, Order(w.orientation, 4)).ones == 4 <==> FourOf(g, w, PlayerOne)
  {
    var vals := Order(w.orientation, 4);
    TallyCounts(g, w, vals);
    CountFull(g, w, vals, PlayerTwo);
    CountFull(g, w, vals, PlayerOne);
    AllOverOrder(g, w, 4, PlayerTwo);
    AllOverOrder(g, w, 4, PlayerOne);
  }

  /** The outcome of a winner check over some windows: the first window of four, or none. */
  datatype Win = NoWin | Win(result: GameResult, window: Window)

  /**
   * The winner rule of the scan: the first window, in order, that holds four
   * `PLAYER_TWO` or four `PLAYER_ONE` cells decides; `PLAYER_TWO` is tested first.
   */
  function FirstWin(g: Grid, ws: seq<Window>): Win
    requires IsGrid(g) && AllAnchored(ws)
  {
    if ws == [] then NoWin
    else if FourOf(g, ws[0], PlayerTwo) then Win(PlayerTwoWins, ws[0])
    else if FourOf(g, ws[0], PlayerOne) then Win(PlayerOneWins, ws[0])
    else FirstWin(g, ws[1..])
  }

  /** A window holding four of one player's cells. */
  predicate Winning(g: Grid, w: Window)
    requires IsGrid(g) && Anchored(w)
  {
    FourOf(g, w, PlayerTwo) || FourOf(g, w, PlayerOne)
  }

  /** The result a window of four announces. */
  function ResultOf(g: Grid, w: Window): GameResult
    requires IsGrid(g) && Anchored(w)
  {
    if FourOf(g, w, PlayerTwo) then PlayerTwoWins
    else if FourOf(g, w, PlayerOne) then PlayerOneWins
    else Undecided
  }

  /** `FirstWin` picks the window at `i` when it wins and no earlier window does. */
  lemma {:induction false} FirstWinIsFirst(g: Grid, ws: seq<Window>, i: int)
    requires IsGrid(g) && AllAnchored(ws) && 0 <= i < |ws|
    requires Winning(g, ws[i])
    requires forall j :: 0 <= j < i ==> !Winning(g, ws[j])
    ensures FirstWin(g, ws) == Win(ResultOf(g, ws[i]), ws[i])
  {
    if i > 0 {
      assert !Winning(g, ws[0]);
      assert forall j :: 0 <= j < i - 1 ==> ws[1..][j] == ws[j + 1];
      FirstWinIsFirst(g, ws[1..], i - 1);
    }
  }

  /** `FirstWin` finds nothing exactly when no window wins. */
  lemma {:induction false} NoWinIff(g: Grid, ws: seq<Window>)
    requires IsGrid(g) && AllAnchored(ws)
    ensures FirstWin(g, ws) == NoWin <==> forall j :: 0 <= j < |ws| ==> !Winning(g, ws[j])
  {
    if ws != [] {
      NoWinIff(g, ws[1..]);
      assert forall j :: 1 <= j < |ws| ==> ws[j] == ws[1..][j - 1];
    }
  }

  /** Whatever `FirstWin` reports is a winning window of the list, with its result. */
  lemma {:induction false} FirstWinSound(g: Grid, ws: seq<Window>)
    requires IsGrid(g) && AllAnchored(ws)
    ensures FirstWin(g, ws).Win? ==>
      FirstWin(g, ws).window in ws && Winning(g, FirstWin(g, ws).window)
      && FirstWin(g, ws).result == ResultOf(g, FirstWin(g, ws).window)
  {
    if ws != [] && !Winning(g, ws[0]) {
      FirstWinSound(g, ws[1..]);
    }
  }

  // ----- Coverage: every four in a row is one of the scanned windows -----

  /** A direction of a line of four: right, down, down-right, down-left. */
  datatype Direction = Right | Down | DownRight | DownLeft

  function Step(p: Pos, dir: Direction, n: int): Pos
  {
    match dir
    case Right => Pos(p.row, p.col + n)
    case Down => Pos(p.row + n, p.col)
    case DownRight => Pos(p.row + n, p.col + n)
    case DownLeft => Pos(p.row + n, p.col - n)
  }

  /** Four cells in a line from `p` in direction `dir`, all on the board and all holding `x`. */
  predicate FourInARow(g: Grid, p: Pos, dir: Direction, x: CellValue)
    requires IsGrid(g)
  {
    InBounds(p) && InBounds(Step(p, dir, 3))
    && forall n :: 0 <= n < 4 ==> At(g, Step(p, dir, n)) == x
  }

  /** The `val` at which a window reads the `n`-th cell of a line in direction `dir`. */
  function ValFor(dir: Direction, n: int): int
  {
    if dir == Right || dir == Down then 3 - n else n
  }

  /** Every line of four on the board is read, cell by cell, by one scanned window. */
  lemma WindowOfRow(p: Pos, dir: Direction) returns (k: int)
    requires InBounds(p) && InBounds(Step(p, dir, 3))
    ensures 0 <= k < WINDOW_COUNT
    ensures forall n :: 0 <= n < 4 ==> CellAt(WindowAt(k), ValFor(dir, n)) == Step(p, dir, n)
  {
    match dir
    case Right =>
      HorizontalIndex(p.row, p.col + 3);
      k := p.row * 4 + p.col;
    case Down =>
      VerticalIndex(p.col, p.row + 3);
      k := 24 + p.col * 3 + p.row;
    case DownRight =>
      DiagonalIndex(45, MajorDiagonal, p.row, p.col);
      k := 45 + (2 - p.row) * 4 + (3 - p.col);
    case DownLeft =>
      DiagonalIndex(57, MinorDiagonal, p.row, p.col - 3);
      k := 57 + (2 - p.row) * 4 + (3 - (p.col - 3));
  }

  /**
   * The scan misses no line: if any four cells in a row, column or diagonal
   * hold the same player's mark, the winner rule reports a win.
   */
  lemma FourInARowIsFound(g: Grid, p: Pos, dir: Direction, x: CellValue)
    requires IsGrid(g) && IsPlayerMark(x) && FourInARow(g, p, dir, x)
    ensures FirstWin(g, AllWindows()).Win?
  {
    var k := WindowOfRow(p, dir);
    var w := WindowAt(k);
    forall v | 0 <= v < 4
      ensures At(g, CellAt(w, v)) == x
    {
      var n := ValFor(dir, v);
      assert ValFor(dir, n) == v;
      assert CellAt(w, v) == Step(p, dir, n);
    }
    assert Winning(g, AllWindows()[k]);
    AllWindowsAnchored();
    NoWinIff(g, AllWindows());
  }

  // ----- Marking a winning window -----

  /** The mark written over a winning player's cells. */
  function WinnerMark(result: GameResult): CellValue
  {
    if result == PlayerTwoWins then PlayerTwoWinner else PlayerOneWinner
  }

  /** `g` with the cell at `p` set to `x`. */
  function SetCell(g: Grid, p: Pos, x: CellValue): (r: Grid)
    requires IsGrid(g) && InBounds(p)
    ensures IsGrid(r)
    ensures At(r, p) == x
    ensures forall q :: InBounds(q) && q != p ==> At(r, q) == At(g, q)
  {
    g[p.row := g[p.row][p.col := x]]
  }

  /** `q` is none of the four cells of `w`. */
  predicate OutsideWindow(w: Window, q: Pos)
  {
    q != CellAt(w, 0) && q != CellAt(w, 1) && q != CellAt(w, 2) && q != CellAt(w, 3)
  }

  /** The four writes `getWinner` performs: each cell of `w`, from `val` 0 to 3, set to `m`. */
  function MarkWindow(g: Grid, w: Window, m: CellValue): (r: Grid)
    requires IsGrid(g) && Anchored(w)
    ensures IsGrid(r)
    ensures forall v :: 0 <= v < 4 ==> At(r, CellAt(w, v)) == m
    ensures forall q :: InBounds(q) && OutsideWindow(w, q) ==> At(r, q) == At(g, q)
  {
    var g0 := SetCell(g, CellAt(w, 0), m);
    var g1 := SetCell(g0, CellAt(w, 1), m);
    var g2 := SetCell(g1, CellAt(w, 2), m);
    SetCell(g2, CellAt(w, 3), m)
  }

  /** Once marked, a window's cells are never counted again: no window through them wins. */
  lemma MarkedNeverCounted(g: Grid, w: Window, m: CellValue, w': Window, v: int, v': int)
    requires IsGrid(g) && Anchored(w) && Anchored(w') && !IsPlayerMark(m)
    requires 0 <= v < 4 && 0 <= v' < 4 && CellAt(w', v') == CellAt(w, v)
    ensures !Winning(MarkWindow(g, w, m), w')
  {
    assert At(MarkWindow(g, w, m), CellAt(w', v')) == m;
  }

  /** Marking a window of checkers keeps the board's gravity and stacking invariants. */
  lemma MarkKeepsStacked(g: Grid, cursor: seq<int>, w: Window, x: CellValue, m: CellValue)
    requires Gravity(g, cursor) && Anchored(w) && IsPlayerMark(x) && FourOf(g, w, x) && m != Empty
    ensures Gravity(MarkWindow(g, w, m), cursor)
    ensures Stacked(g, cursor) ==> Stacked(MarkWindow(g, w, m), cursor)
  {
    var r := MarkWindow(g, w, m);
    forall rr, c | 0 <= c < COLUMNS && 0 <= rr < ROWS
      ensures (r[rr][c] == Empty) == (g[rr][c] == Empty)
    {
      var q := Pos(rr, c);
      if !OutsideWindow(w, q) {
        assert At(g, q) == x && At(r, q) == m;
      } else {
        assert At(r, q) == At(g, q);
      }
    }
  }

  // ----- Dropping a checker -----

  /** The board and cursor after a checker `x` lands in the non-full column `col`. */
  function DropGrid(g: Grid, cursor: seq<int>, col: int, x: CellValue): Grid
    requires Gravity(g, cursor) && Available(cursor, col)
  {
    SetCell(g, Pos(cursor[col], col), x)
  }

  function DropCursor(cursor: seq<int>, col: int): seq<int>
    requires |cursor| == COLUMNS && 0 <= col < COLUMNS
  {
    cursor[col := cursor[col] - 1]
  }

  /** A drop keeps gravity, and keeps stacking when the dropped mark is a checker. */
  lemma DropKeepsStacked(g: Grid, cursor: seq<int>, col: int, x: CellValue)
    requires Gravity(g, cursor) && Available(cursor, col)
    ensures Gravity(DropGrid(g, cursor, col, x), DropCursor(cursor, col))
    ensures Stacked(g, cursor) && x != Empty ==> Stacked(DropGrid(g, cursor, col, x), DropCursor(cursor, col))
  {
    var r := DropGrid(g, cursor, col, x);
    var c' := DropCursor(cursor, col);
    forall rr, c | 0 <= c < COLUMNS && 0 <= rr < ROWS && Pos(rr, c) != Pos(cursor[col], col)
      ensures r[rr][c] == g[rr][c]
    {
      assert At(r, Pos(rr, c)) == At(g, Pos(rr, c));
    }
    assert At(r, Pos(cursor[col], col)) == x;
  }

  /** The cursors right after a reset: every column's first free row is the bottom row. */
  function ResetCursor(): (cursor: seq<int>)
    ensures |cursor| == COLUMNS
  {
    seq(COLUMNS, _ => ROWS - 1)
  }

  /**
   * The cursors after `k` placements into column `col`: a placement into a
   * full column (cursor -1) changes nothing.
   */
  function CursorAfter(cursor: seq<int>, col: int, k: nat): (r: seq<int>)
    requires |cursor| == COLUMNS && 0 <= col < COLUMNS
    ensures |r| == COLUMNS
  {
    if k == 0 then cursor
    else
      var c := CursorAfter(cursor, col, k - 1);
      if c[col] == -1 then c else DropCursor(c, col)
  }

  /**
   * After a reset a column stays available for the first `ROWS - 1`
   * placements into it and is full after exactly `ROWS` of them.
   */
  lemma {:induction false} ColumnFillsAfterRows(col: int, k: nat)
    requires 0 <= col < COLUMNS
    ensures CursorAfter(ResetCursor(), col, k)[col] == if k < ROWS then ROWS - 1 - k else -1
    ensures Available(CursorAfter(ResetCursor(), col, k), col) <==> k < ROWS
  {
    if k > 0 {
      ColumnFillsAfterRows(col, k - 1);
    }
  }

  // ----- The outcome of `getWinner` -----

  /** Some column can still take a checker. */
  predicate SomeAvailable(cursor: seq<int>)
    requires |cursor| == COLUMNS
  {
    exists c :: 0 <= c < COLUMNS && Available(cursor, c)
  }

  /**
   * The result `getWinner` reports: the first winning window's result; with no
   * win, `STALEMATE` when every column is full and `NONE` otherwise.
   */
  function Outcome(g: Grid, cursor: seq<int>): GameResult
    requires IsGrid(g) && |cursor| == COLUMNS
  {
    AllWindowsAnchored();
    match FirstWin(g, AllWindows())
    case Win(result, _) => result
    case NoWin => if SomeAvailable(cursor) then Undecided else Stalemate
  }

  /** The board after `getWinner`: the first winning window marked with the winner's mark, if any. */
  function AfterCheck(g: Grid): (r: Grid)
    requires IsGrid(g)
    ensures IsGrid(r)
  {
    AllWindowsAnchored();
    FirstWinSound(g, AllWindows());
    match FirstWin(g, AllWindows())
    case Win(result, w) => MarkWindow(g, w, WinnerMark(result))
    case NoWin => g
  }

  /** `getWinner` reports a player's win exactly when some window holds four of that player's checkers. */
  lemma OutcomeIsWinIff(g: Grid, cursor: seq<int>)
    requires IsGrid(g) && |cursor| == COLUMNS
    ensures (Outcome(g, cursor) == PlayerOneWins || Outcome(g, cursor) == PlayerTwoWins)
        <==> exists k :: 0 <= k < WINDOW_COUNT && Winning(g, WindowAt(k))
    ensures Outcome(g, cursor) == Stalemate
        <==> (forall k :: 0 <= k < WINDOW_COUNT ==> !Winning(g, WindowAt(k))) && !SomeAvailable(cursor)
  {
    AllWindowsAnchored();
    NoWinIff(g, AllWindows());
    FirstWinSound(g, AllWindows());
  }

  /**
   * After a win has been marked, the winning window is not reported again,
   * and neither is any window through one of its cells.
   */
  lemma SecondCheckIgnoresMarked(g: Grid)
    requires IsGrid(g)
    ensures FirstWin(g, AllWindows()).Win? ==>
      var w := FirstWin(g, AllWindows()).window;
      forall w', v, v' :: Anchored(w') && 0 <= v < 4 && 0 <= v' < 4 && CellAt(w', v') == CellAt(w, v)
        ==> !Winning(AfterCheck(g), w')
  {
    AllWindowsAnchored();
    if FirstWin(g, AllWindows()).Win? {
      FirstWinSound(g, AllWindows());
      var res := FirstWin(g, AllWindows()).result;
      var w := FirstWin(g, AllWindows()).window;
      forall w', v, v' | Anchored(w') && 0 <= v < 4 && 0 <= v' < 4 && CellAt(w', v') == CellAt(w, v)
        ensures !Winning(AfterCheck(g), w')
      {
        MarkedNeverCounted(g, w, WinnerMark(res), w', v, v');
      }
    }
  }

  /** `getWinner` keeps the gravity and stacking invariants. */
  lemma AfterCheckKeepsStacked(g: Grid, cursor: seq<int>)
    requires Gravity(g, cursor)
    ensures Gravity(AfterCheck(g), cursor)
    ensures Stacked(g, cursor) ==> Stacked(AfterCheck(g), cursor)
  {
    AllWindowsAnchored();
    FirstWinSound(g, AllWindows());
    match FirstWin(g, AllWindows())
    case Win(result, w) =>
      var x := if result == PlayerTwoWins then PlayerTwo else PlayerOne;
      MarkKeepsStacked(g, cursor, w, x, WinnerMark(result));
    case NoWin =>
  }
}
