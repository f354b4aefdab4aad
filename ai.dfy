/**
 * The simple AI player: the board and mark it is given (the `AIPlayer` base
 * class), and the move it computes on an array copy of the board. The base
 * class and its one subclass are one class here.
 */
module AI {
  import opened Java
  import opened ConnectFourTypes
  import opened Windows
  import opened Strategy
  import opened Board

  /** The scratch entry the AI's `val` loop writes for the cell at `p`: its position and current mark. */
  function Seen(g: Grid, p: Pos): Cell
    requires IsGrid(g) && InBounds(p)
  {
    Cell(p.row, p.col, At(g, p))
  }

  /** Position `r * COLUMNS + c` of the row-major order is row `r`, column `c`. */
  lemma RowMajorIndex(r: int, c: int, k: int)
    requires 0 <= c < COLUMNS && r * COLUMNS + c == k
    ensures r == k / COLUMNS && c == k % COLUMNS
  {
  }

  /** The scan's counters after one more `val`. */
  lemma TallyNext(g: Grid, w: Window, vals: seq<int>, step: int)
    requires IsGrid(g) && Anchored(w) && ValidVals(vals) && 0 <= step < |vals|
    ensures var t := TallyOf(g, w, vals[..step]);
      TallyOf(g, w, vals[..step + 1]) ==
        match At(g, CellAt(w, vals[step]))
        case PlayerTwo => t.(twos := t.twos + 1)
        case PlayerOne => t.(ones := t.ones + 1)
        case Empty => t.(empty := vals[step])
        case _ => t
  {
    assert vals[..step + 1][..step] == vals[..step];
  }

  /** The scratch array after the AI's `val` loop has written the cells named by `vals`, in order. */
  function Visited(g: Grid, w: Window, vals: seq<int>, cells: seq<Cell>): (r: seq<Cell>)
    requires IsGrid(g) && Anchored(w) && ValidVals(vals) && |cells| == 4
    ensures |r| == 4
  {
    if vals == [] then cells
    else Visited(g, w, vals[..|vals| - 1], cells)[vals[|vals| - 1] := Seen(g, CellAt(w, vals[|vals| - 1]))]
  }

  lemma VisitedNext(g: Grid, w: Window, vals: seq<int>, step: int, cells: seq<Cell>)
    requires IsGrid(g) && Anchored(w) && ValidVals(vals) && 0 <= step < |vals| && |cells| == 4
    ensures Visited(g, w, vals[..step + 1], cells) == Visited(g, w, vals[..step], cells)[vals[step] := Seen(g, CellAt(w, vals[step]))]
  {
    assert vals[..step + 1][..step] == vals[..step];
  }

  /** The loop writes exactly the entries it visits, each with its own cell. */
  lemma {:induction false} VisitedAt(g: Grid, w: Window, vals: seq<int>, cells: seq<Cell>, v: int)
    requires IsGrid(g) && Anchored(w) && ValidVals(vals) && |cells| == 4 && 0 <= v < 4
    ensures Visited(g, w, vals, cells)[v] == if v in vals then Seen(g, CellAt(w, v)) else cells[v]
  {
    if vals != [] {
      var prefix := vals[..|vals| - 1];
      VisitedAt(g, w, prefix, cells, v);
      assert vals == prefix + [vals[|vals| - 1]];
    }
  }

  class SimpleAIPlayer {
    var gameBoard: GameBoard?
    var myBoardMark: Option<CellValue>
    var myId: int32

    /** A new player: no board, no mark, id 0. */
    constructor()
      ensures gameBoard == null && myBoardMark == None && myId == 0
    {
      gameBoard := null;
      myBoardMark := None;
      myId := 0;
    }

    /** `setBoard`: a null board throws and keeps the stored one. */
    method SetBoard(board: GameBoard?) returns (r: Result<()>)
      modifies this
      ensures board == null ==> r == Throws(NullPointer) && gameBoard == old(gameBoard)
      ensures board != null ==> r == Ok(()) && gameBoard == board
      ensures myBoardMark == old(myBoardMark) && myId == old(myId)
    {
      if board == null {
        return Throws(NullPointer);
      }
      gameBoard := board;
      return Ok(());
    }

    /** `getBoard`: the board last set, or null. */
    function GetBoard(): GameBoard?
      reads this
    {
      gameBoard
    }

    /** `setPlayer`: a null mark throws and changes nothing; otherwise mark and id are both recorded. */
    method SetPlayer(mark: Option<CellValue>, player: int32) returns (r: Result<()>)
      modifies this
      ensures mark == None ==> r == Throws(NullPointer) && myBoardMark == old(myBoardMark) && myId == old(myId)
      ensures mark != None ==> r == Ok(()) && myBoardMark == mark && myId == player
      ensures gameBoard == old(gameBoard)
    {
      if mark == None {
        return Throws(NullPointer);
      }
      myBoardMark := mark;
      myId := player;
      return Ok(());
    }

    /** `getPlayer`: the id last set. */
    function GetPlayer(): int32
      reads this
    {
      myId
    }

    /**
     * `getNextMove`: throws when the board or the mark is missing; otherwise
     * the move rule applied to the board's current marks and cursors. The
     * method modifies nothing, so the board is left as it was.
     */
    method GetNextMove() returns (r: Result<int>)
      requires gameBoard != null ==> gameBoard.Shaped()
      ensures gameBoard == null || myBoardMark == None ==> r == Throws(NullPointer)
      ensures gameBoard != null && myBoardMark != None ==>
        r == Ok(NextMove(gameBoard.Grid(), gameBoard.Cursor(), myBoardMark.value))
    {
      if gameBoard == null {
        return Throws(NullPointer);
      }
      if myBoardMark == None {
        return Throws(NullPointer);
      }
      var mark := myBoardMark.value;
      var tempBoard := GenFriendlyBoard(gameBoard);
      var col := SearchDepths(tempBoard, mark);
      col := ChooseFallback(gameBoard, col);
      return Ok(col);
    }

    /**
     * The end of `getNextMove`: with no column from the depth loop, the middle
     * column if it is available, else the lowest available column, else -1.
     */
    method ChooseFallback(board: GameBoard, col: int) returns (move: int)
      requires board.Shaped()
      ensures col != -1 ==> move == col
      ensures col == -1 && Available(board.Cursor(), COLUMNS / 2) ==> move == COLUMNS / 2
      ensures col == -1 && !Available(board.Cursor(), COLUMNS / 2) ==> move == FirstAvailable(board.Cursor(), 0)
    {
      ghost var cursor := board.Cursor();
      var middleColumn := COLUMNS / 2;
      if col == -1 && board.IsColumnAvailable(middleColumn).value {
        return middleColumn;
      } else if col == -1 {
        var i := 0;
        while i < COLUMNS
          invariant 0 <= i <= COLUMNS
          invariant forall j :: 0 <= j < i ==> !Available(cursor, j)
        {
          if board.IsColumnAvailable(i).value {
            return i;
          }
          i := i + 1;
        }
      }
      return col;
    }

    /** The depth loop of `getNextMove`: depths 4, 3 and 2, until one finds a column. */
    method SearchDepths(tempBoard: array2<CellValue>, mark: CellValue) returns (col: int)
      requires tempBoard.Length0 == ROWS && tempBoard.Length1 == COLUMNS
      ensures col == CandidateFrom(GridOf(tempBoard), 4, mark)
    {
      col := -1;
      var depth := 4;
      while depth > 1 && col == -1
        invariant 1 <= depth <= 4
        invariant CandidateFrom(GridOf(tempBoard), 4, mark) == if col == -1 then CandidateFrom(GridOf(tempBoard), depth, mark) else col
        decreases depth
      {
        col := GetNextWinningOrDefensiveMove(tempBoard, ROWS, COLUMNS, mark, depth);
        depth := depth - 1;
      }
    }

    /** `genFriandlyBoardHelper`: a fresh array filled cell by cell from the board's iterator. */
    method GenFriendlyBoard(board: GameBoard) returns (friendlyBoard: array2<CellValue>)
      requires board.Shaped()
      ensures fresh(friendlyBoard)
      ensures friendlyBoard.Length0 == ROWS && friendlyBoard.Length1 == COLUMNS
      ensures GridOf(friendlyBoard) == board.Grid()
    {
      friendlyBoard := new CellValue[ROWS, COLUMNS]((_, _) => Empty);
      var it := board.Iterator();
      while it.HasNext()
        invariant fresh(it) && it.Valid() && it.board == board.board
        invariant forall r, c :: 0 <= r < ROWS && 0 <= c < COLUMNS && r * COLUMNS + c < it.Index() ==>
          friendlyBoard[r, c] == board.board[r, c]
        decreases ROWS * COLUMNS - it.Index()
      {
        ghost var k := it.Index();
        var next := it.Next();
        var c := next.value;
        assert c == Cell(k / COLUMNS, k % COLUMNS, board.board[k / COLUMNS, k % COLUMNS]);
        friendlyBoard[c.row, c.column] := c.value;
        forall r, col | 0 <= r < ROWS && 0 <= col < COLUMNS && r * COLUMNS + col == k
          ensures friendlyBoard[r, col] == board.board[r, col]
        {
          RowMajorIndex(r, col, k);
        }
      }
      GridsEqual(GridOf(friendlyBoard), board.Grid());
    }

    /**
     * `isLegalMove` on the array copy: the cell is `EMPTY`, and it is on the
     * last row or the cell below it is not `EMPTY`.
     */
    function IsLegalMove(localBoard: array2<CellValue>, cell: Cell, rows: int): (legal: bool)
      reads localBoard
      requires localBoard.Length0 == ROWS && localBoard.Length1 == COLUMNS && rows == ROWS
      requires InBounds(Pos(cell.row, cell.column))
      ensures legal == IsLegal(GridOf(localBoard), Pos(cell.row, cell.column))
    {
      var legal := localBoard[cell.row, cell.column] == Empty;
      if legal && cell.row != rows - 1 then localBoard[cell.row + 1, cell.column] != Empty else legal
    }

    /**
     * One pass of the AI's `val` loop over the first `maxDepth` cells of `w`:
     * the counters and the last `EMPTY` `val`, with every visited cell written
     * to the scratch array.
     */
    method ScanDepth(localBoard: array2<CellValue>, cells: array<Cell>, w: Window, maxDepth: int)
      returns (ones: int, twos: int, emptyCellVal: int)
      requires localBoard.Length0 == ROWS && localBoard.Length1 == COLUMNS && cells.Length == 4
      requires Anchored(w) && 2 <= maxDepth <= 4
      modifies cells
      ensures var t := TallyOf(GridOf(localBoard), w, Order(w.orientation, maxDepth));
        ones == t.ones && twos == t.twos && emptyCellVal == t.empty
      ensures forall v :: 0 <= v < maxDepth ==> cells[v] == Seen(GridOf(localBoard), CellAt(w, v))
    {
      ghost var g := GridOf(localBoard);
      ghost var before := cells[..];
      var vals := Order(w.orientation, maxDepth);
      ones, twos, emptyCellVal := 0, 0, -1;
      var step := 0;
      while step < maxDepth
        invariant 0 <= step <= maxDepth
        invariant var t := TallyOf(g, w, vals[..step]); ones == t.ones && twos == t.twos && emptyCellVal == t.empty
        invariant cells[..] == Visited(g, w, vals[..step], before)
      {
        TallyNext(g, w, vals, step);
        VisitedNext(g, w, vals, step, before);
        var val := vals[step];
        var p := CellAt(w, val);
        var cell := localBoard[p.row, p.col];
        cells[val] := Cell(p.row, p.col, cell);
        if cell == PlayerTwo {
          twos := twos + 1;
        } else if cell == PlayerOne {
          ones := ones + 1;
        } else if cell == Empty {
          emptyCellVal := val;
        }
        step := step + 1;
      }
      assert vals[..maxDepth] == vals;
      forall v | 0 <= v < maxDepth
        ensures cells[v] == Seen(g, CellAt(w, v))
      {
        var i := OrderCovers(w.orientation, maxDepth, v);
        VisitedAt(g, w, vals, before, v);
      }
    }

    /**
     * One window of the search: after the scan, a legal `PLAYER_TWO` threat is
     * tested first and a legal `PLAYER_ONE` threat second; a threat of the AI's
     * own mark is reported as found, and any threat's column is returned.
     */
    method ExamineWindow(localBoard: array2<CellValue>, cells: array<Cell>, w: Window, maxDepth: int,
                         aiPlayerMark: CellValue, defensiveMove: int)
      returns (found: bool, move: int)
      requires localBoard.Length0 == ROWS && localBoard.Length1 == COLUMNS && cells.Length == 4
      requires Anchored(w) && 2 <= maxDepth <= 4
      modifies cells
      ensures found <==> IsOwn(ProposalOf(GridOf(localBoard), w, maxDepth), aiPlayerMark)
      ensures move == if ProposalOf(GridOf(localBoard), w, maxDepth).Propose?
        then ProposalOf(GridOf(localBoard), w, maxDepth).col else defensiveMove
    {
      ghost var g := GridOf(localBoard);
      var playerOneCount, playerTwoCount, emptyCellVal := ScanDepth(localBoard, cells, w, maxDepth);
      found, move := false, defensiveMove;
      if playerTwoCount == maxDepth - 1 && emptyCellVal != -1 {
        assert cells[emptyCellVal] == Seen(g, CellAt(w, emptyCellVal));
        var legalMove := IsLegalMove(localBoard, cells[emptyCellVal], ROWS);
        if aiPlayerMark == PlayerTwo && legalMove {
          found, move := true, cells[emptyCellVal].column;
        } else if legalMove {
          move := cells[emptyCellVal].column;
        }
      } else if playerOneCount == maxDepth - 1 && emptyCellVal != -1 {
        assert cells[emptyCellVal] == Seen(g, CellAt(w, emptyCellVal));
        var legalMove := IsLegalMove(localBoard, cells[emptyCellVal], ROWS);
        if aiPlayerMark == PlayerOne && legalMove {
          found, move := true, cells[emptyCellVal].column;
        } else if legalMove {
          move := cells[emptyCellVal].column;
        }
      }
    }

    /** Window `k` of the search, examined: the resumed search ends here or goes on from the next window. */
    method ExamineAt(localBoard: array2<CellValue>, cells: array<Cell>, w: Window, ghost k: int, ghost ps: seq<Proposal>,
                     maxDepth: int, aiPlayerMark: CellValue, defensiveMove: int)
      returns (found: bool, move: int)
      requires localBoard.Length0 == ROWS && localBoard.Length1 == COLUMNS && cells.Length == 4 && 2 <= maxDepth <= 4
      requires |ps| == WINDOW_COUNT && ProposedUpTo(ps, GridOf(localBoard), maxDepth, WINDOW_COUNT)
      requires 0 <= k < WINDOW_COUNT && WindowAt(k) == w
      modifies cells
      ensures found ==> move == PickFrom(ps, k, aiPlayerMark, defensiveMove)
      ensures !found ==> PickFrom(ps, k, aiPlayerMark, defensiveMove) == PickFrom(ps, k + 1, aiPlayerMark, move)
    {
      found, move := ExamineWindow(localBoard, cells, w, maxDepth, aiPlayerMark, defensiveMove);
      ProposedAt(ps, GridOf(localBoard), maxDepth, WINDOW_COUNT, k);
      PickFromStep(ps, k, aiPlayerMark, defensiveMove);
    }

    /** The horizontal loops of the search: windows 0 to 23. */
    method SearchRows(localBoard: array2<CellValue>, cells: array<Cell>, ghost ps: seq<Proposal>,
                      aiPlayerMark: CellValue, maxDepth: int, defensive: int)
      returns (found: bool, move: int)
      requires localBoard.Length0 == ROWS && localBoard.Length1 == COLUMNS && cells.Length == 4 && 2 <= maxDepth <= 4
      requires |ps| == WINDOW_COUNT && ProposedUpTo(ps, GridOf(localBoard), maxDepth, WINDOW_COUNT)
      modifies cells
      ensures found ==> move == PickFrom(ps, 0, aiPlayerMark, defensive)
      ensures !found ==> PickFrom(ps, 0, aiPlayerMark, defensive) == PickFrom(ps, 24, aiPlayerMark, move)
    {
      ghost var goal := PickFrom(ps, 0, aiPlayerMark, defensive);
      var defensiveMove := defensive;
      var row := 0;
      while row < ROWS
        invariant 0 <= row <= ROWS
        invariant goal == PickFrom(ps, row * 4, aiPlayerMark, defensiveMove)
      {
        var col := 3;
        while col < COLUMNS
          invariant 3 <= col <= COLUMNS
          invariant goal == PickFrom(ps, row * 4 + (col - 3), aiPlayerMark, defensiveMove)
        {
          HorizontalIndex(row, col);
          var own, m := ExamineAt(localBoard, cells, Window(Horizontal, row, col), row * 4 + (col - 3), ps,
                                  maxDepth, aiPlayerMark, defensiveMove);
          if own {
            return true, m;
          }
          defensiveMove := m;
          col := col + 1;
        }
        row := row + 1;
      }
      return false, defensiveMove;
    }

    /** The vertical loops of the search: windows 24 to 44. */
    method SearchColumns(localBoard: array2<CellValue>, cells: array<Cell>, ghost ps: seq<Proposal>,
                         aiPlayerMark: CellValue, maxDepth: int, defensive: int)
      returns (found: bool, move: int)
      requires localBoard.Length0 == ROWS && localBoard.Length1 == COLUMNS && cells.Length == 4 && 2 <= maxDepth <= 4
      requires |ps| == WINDOW_COUNT && ProposedUpTo(ps, GridOf(localBoard), maxDepth, WINDOW_COUNT)
      modifies cells
      ensures found ==> move == PickFrom(ps, 24, aiPlayerMark, defensive)
      ensures !found ==> PickFrom(ps, 24, aiPlayerMark, defensive) == PickFrom(ps, 45, aiPlayerMark, move)
    {
      ghost var goal := PickFrom(ps, 24, aiPlayerMark, defensive);
      var defensiveMove := defensive;
      var col := 0;
      while col < COLUMNS
        invariant 0 <= col <= COLUMNS
        invariant goal == PickFrom(ps, 24 + col * 3, aiPlayerMark, defensiveMove)
      {
        var row := 3;
        while row < ROWS
          invariant 3 <= row <= ROWS
          invariant goal == PickFrom(ps, 24 + col * 3 + (row - 3), aiPlayerMark, defensiveMove)
        {
          VerticalIndex(col, row);
          var own, m := ExamineAt(localBoard, cells, Window(Vertical, row, col), 24 + col * 3 + (row - 3), ps,
                                  maxDepth, aiPlayerMark, defensiveMove);
          if own {
            return true, m;
          }
          defensiveMove := m;
          row := row + 1;
        }
        col := col + 1;
      }
      return false, defensiveMove;
    }

    /** The major- or minor-diagonal loops of the search: the twelve windows from `base` on. */
    method SearchDiagonals(localBoard: array2<CellValue>, cells: array<Cell>, ghost ps: seq<Proposal>,
                           aiPlayerMark: CellValue, maxDepth: int, base: int, o: Orientation, defensive: int)
      returns (found: bool, move: int)
      requires localBoard.Length0 == ROWS && localBoard.Length1 == COLUMNS && cells.Length == 4 && 2 <= maxDepth <= 4
      requires |ps| == WINDOW_COUNT && ProposedUpTo(ps, GridOf(localBoard), maxDepth, WINDOW_COUNT)
      requires (base == 45 && o == MajorDiagonal) || (base == 57 && o == MinorDiagonal)
      modifies cells
      ensures found ==> move == PickFrom(ps, base, aiPlayerMark, defensive)
      ensures !found ==> PickFrom(ps, base, aiPlayerMark, defensive) == PickFrom(ps, base + 12, aiPlayerMark, move)
    {
      ghost var goal := PickFrom(ps, base, aiPlayerMark, defensive);
      var defensiveMove := defensive;
      var row := ROWS - 4;
      while row >= 0
        invariant -1 <= row <= ROWS - 4
        invariant goal == PickFrom(ps, base + (2 - row) * 4, aiPlayerMark, defensiveMove)
      {
        var col := COLUMNS - 4;
        while col >= 0
          invariant -1 <= col <= COLUMNS - 4
          invariant goal == PickFrom(ps, base + (2 - row) * 4 + (3 - col), aiPlayerMark, defensiveMove)
        {
          DiagonalIndex(base, o, row, col);
          var own, m := ExamineAt(localBoard, cells, Window(o, row, col), base + (2 - row) * 4 + (3 - col), ps,
                                  maxDepth, aiPlayerMark, defensiveMove);
          if own {
            return true, m;
          }
          defensiveMove := m;
          col := col - 1;
        }
        row := row - 1;
      }
      return false, defensiveMove;
    }

    /**
     * `getNextWinningOrDefensiveMove`: the search over all 69 windows at depth
     * `maxDepth`, rows, then columns, then both diagonals.
     */
    method GetNextWinningOrDefensiveMove(localBoard: array2<CellValue>, rows: int, columns: int,
                                         aiPlayerMark: CellValue, maxDepth: int)
      returns (move: int)
      requires localBoard.Length0 == ROWS && localBoard.Length1 == COLUMNS
      requires rows == ROWS && columns == COLUMNS && 2 <= maxDepth <= 4
      ensures move == DepthMove(GridOf(localBoard), maxDepth, aiPlayerMark)
    {
      ghost var ps := DepthProposals(GridOf(localBoard), maxDepth, aiPlayerMark);
      PickFromStart(ps, aiPlayerMark);
      var winningCells := new Cell[4](_ => Cell(0, 0, Empty));
      var found, defensiveMove := SearchRows(localBoard, winningCells, ps, aiPlayerMark, maxDepth, -1);
      if found {
        return defensiveMove;
      }
      found, defensiveMove := SearchColumns(localBoard, winningCells, ps, aiPlayerMark, maxDepth, defensiveMove);
      if found {
        return defensiveMove;
      }
      found, defensiveMove := SearchDiagonals(localBoard, winningCells, ps, aiPlayerMark, maxDepth, 45, MajorDiagonal, defensiveMove);
      if found {
        return defensiveMove;
      }
      found, defensiveMove := SearchDiagonals(localBoard, winningCells, ps, aiPlayerMark, maxDepth, 57, MinorDiagonal, defensiveMove);
      if found {
        return defensiveMove;
      }
      PickFromEnd(ps, aiPlayerMark, defensiveMove);
      return defensiveMove;
    }

    /**
     * `equals`: the same object, or another player with the same id, the same
     * board reference and the same mark.
     */
    function Equals(o: Obj<SimpleAIPlayer>): (b: bool)
      reads this, if o.Instance? then {o.value} else {}
      ensures o == Foreign || o == Null ==> !b
      ensures o.Instance? ==>
        (b <==> o.value.myId == myId && o.value.gameBoard == gameBoard && o.value.myBoardMark == myBoardMark)
    {
      match o
      case Instance(p) => p == this || (p.myId == myId && p.gameBoard == gameBoard && p.myBoardMark == myBoardMark)
      case _ => false
    }

    /**
     * `hashCode`: 17, then `31 * h + v` for the board's hash when there is a
     * board, for the id, and for the mark's hash when there is a mark. The
     * board's identity hash and the enum's hash are parameters.
     */
    function HashCode(boardHash: GameBoard -> int32, markHash: CellValue -> int32): int32
      reads this
    {
      var h := if gameBoard != null then HashStep(17, boardHash(gameBoard)) else 17;
      var h := HashStep(h, myId);
      if myBoardMark != None then HashStep(h, markHash(myBoardMark.value)) else h
    }
  }

  /** Equal players hash alike, whatever the board's and the mark's hash codes. */
  lemma HashConsistent(a: SimpleAIPlayer, b: SimpleAIPlayer, boardHash: GameBoard -> int32, markHash: CellValue -> int32)
    requires a.Equals(Instance(b))
    ensures a.HashCode(boardHash, markHash) == b.HashCode(boardHash, markHash)
  {
  }

  /** A player with neither board nor mark hashes to `31 * 17 + id`, in `int` arithmetic. */
  lemma UnboundHash(p: SimpleAIPlayer, boardHash: GameBoard -> int32, markHash: CellValue -> int32)
    requires p.gameBoard == null && p.myBoardMark == None
    ensures p.HashCode(boardHash, markHash) as int == Wrap(31 * 17 + p.myId as int) as int
  {
  }

  /** `equals` is an equivalence on players. */
  lemma EqualsIsEquivalence(a: SimpleAIPlayer, b: SimpleAIPlayer, c: SimpleAIPlayer)
    ensures a.Equals(Instance(a))
    ensures a.Equals(Instance(b)) <==> b.Equals(Instance(a))
    ensures a.Equals(Instance(b)) && b.Equals(Instance(c)) ==> a.Equals(Instance(c))
  {
  }

  /** Two freshly created players are equal. */
  method FreshPlayersEqual() returns (a: SimpleAIPlayer, b: SimpleAIPlayer)
    ensures fresh(a) && fresh(b) && a != b && a.Equals(Instance(b))
  {
    a := new SimpleAIPlayer();
    b := new SimpleAIPlayer();
  }

  /** A player that was never given a board or a mark cannot move. */
  method FreshPlayerCannotMove() returns (r: Result<int>)
    ensures r == Throws(NullPointer)
  {
    var p := new SimpleAIPlayer();
    r := p.GetNextMove();
  }
}
