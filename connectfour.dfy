/**
 * The game controller: whose turn it is, the computer's replies, the
 * construction paths and the listener notifications.
 */
module ConnectFourGame {
  import opened Java
  import opened ConnectFourTypes
  import opened Windows
  import opened Strategy
  import opened Board
  import opened AI
  import opened AIFactory
  import opened Listeners

  const PLAYER_ONE: int := 0
  const PLAYER_TWO: int := 1
  const NUMBER_OF_PLAYERS: int := 2

  /** The mark `resetGame` always gives the computer player: the one of the player whose turn it is at reset. */
  const AI_MARK: CellValue := PlayerOne

  /** What a listener is told: a game start with its type, an update with the board's marks, or an end with its result. */
  datatype Notice = GameStart(gameType: Option<GameType>) | GameUpdate(grid: Grid) | GameEnd(result: GameResult)

  /** One recorded listener call of the game. */
  type Event = Call<Notice>

  /** The mark `getCellValueByPlayerTypeHelper` gives a player: `PLAYER_ONE`'s for player 0, `PLAYER_TWO`'s for any other. */
  function MarkOf(player: int): CellValue
  {
    if player == PLAYER_ONE then PlayerOne else PlayerTwo
  }

  /** `activePlayer++` followed by `activePlayer % NUMBER_OF_PLAYERS`. */
  function NextPlayer(player: int): int
    requires 0 <= player
  {
    (player + 1) % NUMBER_OF_PLAYERS
  }

  /** A game with a computer opponent. */
  predicate IsAIGame(t: Option<GameType>)
  {
    t == Some(HumanComputer) || t == Some(ComputerHuman)
  }

  /** `isActivePlayerComputer`: the computer plays second in `HUMAN_COMPUTER` and first in `COMPUTER_HUMAN`. */
  predicate IsActivePlayerComputer(t: Option<GameType>, activePlayer: int)
  {
    (t == Some(HumanComputer) && activePlayer == PLAYER_TWO)
    || (t == Some(ComputerHuman) && activePlayer == PLAYER_ONE)
  }

  /**
   * The players alternate: stepping the turn switches between the two
   * players and their marks, and two steps come back.
   */
  lemma TurnsAlternate(player: int)
    requires player == PLAYER_ONE || player == PLAYER_TWO
    ensures NextPlayer(player) == PLAYER_ONE || NextPlayer(player) == PLAYER_TWO
    ensures NextPlayer(player) != player && MarkOf(NextPlayer(player)) != MarkOf(player)
    ensures NextPlayer(NextPlayer(player)) == player
  {
  }

  /**
   * In a game with a computer exactly one of the two players is the
   * computer, so it never has two turns in a row; without one it never
   * has a turn.
   */
  lemma ComputerOwnsOneSide(t: Option<GameType>, player: int)
    requires player == PLAYER_ONE || player == PLAYER_TWO
    ensures IsAIGame(t) ==> (IsActivePlayerComputer(t, player) <==> !IsActivePlayerComputer(t, NextPlayer(player)))
    ensures !IsAIGame(t) ==> !IsActivePlayerComputer(t, player)
  {
  }

  /** The board's marks and cursors. */
  datatype Position = Position(grid: Grid, cursor: seq<int>)

  /** `setValueToFirstAvailableRow` on an in-range column: a checker on a free column, nothing on a full one. */
  function DropAt(p: Position, col: int, x: CellValue): (q: Position)
    requires Gravity(p.grid, p.cursor) && 0 <= col < COLUMNS
    ensures Gravity(q.grid, q.cursor)
    ensures Stacked(p.grid, p.cursor) && x != Empty ==> Stacked(q.grid, q.cursor)
  {
    if Available(p.cursor, col) then
      DropKeepsStacked(p.grid, p.cursor, col, x);
      Position(DropGrid(p.grid, p.cursor, col, x), DropCursor(p.cursor, col))
    else p
  }

  /** The board, the turn, and whether the computer placed a checker. */
  datatype Turn = Turn(position: Position, active: int, placed: bool)

  /**
   * `doComputerMoveHelper` from position `p` with `active` to play: nothing
   * when it is not the computer's turn; otherwise the computer's column
   * (the move rule with the mark it was bound to) is dropped with the
   * active player's mark and the turn passes. A missing player throws
   * `NullPointerException`, and a column the board refuses (the -1 of a
   * full board) throws `IllegalArgumentException` with nothing changed.
   */
  function ComputerTurn(p: Position, active: int, t: Option<GameType>, hasAI: bool): Result<Turn>
    requires Gravity(p.grid, p.cursor) && 0 <= active
  {
    if !IsActivePlayerComputer(t, active) then Ok(Turn(p, active, false))
    else if !hasAI then Throws(NullPointer)
    else
      var col := NextMove(p.grid, p.cursor, AI_MARK);
      if !(0 <= col < COLUMNS) then Throws(IllegalArgument)
      else Ok(Turn(DropAt(p, col, MarkOf(active)), NextPlayer(active), Available(p.cursor, col)))
  }

  /**
   * On a settled board the computer's turn fails only for a missing player
   * or a full board; when it succeeds it places a checker, keeps the board
   * settled and hands the turn back to the human.
   */
  lemma ComputerTurnSound(p: Position, active: int, t: Option<GameType>, hasAI: bool)
    requires Stacked(p.grid, p.cursor) && (active == PLAYER_ONE || active == PLAYER_TWO)
    ensures var r := ComputerTurn(p, active, t, hasAI);
      && (r == Throws(NullPointer) <==> IsActivePlayerComputer(t, active) && !hasAI)
      && (r == Throws(IllegalArgument) <==> IsActivePlayerComputer(t, active) && hasAI && !SomeAvailable(p.cursor))
      && (r.Ok? ==> Stacked(r.value.position.grid, r.value.position.cursor))
      && (r.Ok? ==> (r.value.placed <==> IsActivePlayerComputer(t, active)))
      && (r.Ok? ==> !IsActivePlayerComputer(t, r.value.active))
  {
    if IsActivePlayerComputer(t, active) && hasAI {
      NoMoveIffFull(p.grid, p.cursor, AI_MARK);
      NeverFullColumn(p.grid, p.cursor, AI_MARK);
    }
  }

  /** What a move ends with: the end of the game when `getWinner` has a result, an update otherwise. */
  function Verdict(g: Grid, cursor: seq<int>): Notice
    requires IsGrid(g) && |cursor| == COLUMNS
  {
    var result := Outcome(g, cursor);
    if result != Undecided then GameEnd(result) else GameUpdate(AfterCheck(g))
  }

  /** The listener calls the game has made so far. */
  class EventLog {
    var events: seq<Event>

    constructor()
      ensures events == []
    {
      events := [];
    }
  }

  class ConnectFour {
    var listeners: seq<nat>
    var activePlayer: int
    var gameType: Option<GameType>
    const board: GameBoard
    var computerPlayer: SimpleAIPlayer?
    var aiType: Option<AIType>
    const log: EventLog

    /** The computer player, once made, plays on this game's board with the mark and id of player one. */
    predicate AIBound()
      reads this, computerPlayer
    {
      computerPlayer != null ==>
        computerPlayer.gameBoard == board && computerPlayer.myBoardMark == Some(AI_MARK) && computerPlayer.myId == 0
    }

    /** The board is settled, the turn is one of the two players', and the computer player is bound. */
    ghost predicate Valid()
      reads this, board, board.board, board.firstAvailableRow, computerPlayer
    {
      board.Settled() && (activePlayer == PLAYER_ONE || activePlayer == PLAYER_TWO) && AIBound()
    }

    /** The board's marks and cursors. */
    function State(): Position
      reads this, board, board.board, board.firstAvailableRow
      requires board.Shaped()
    {
      Position(board.Grid(), board.Cursor())
    }

    /** A game before `resetGame`: a fresh board and log, no computer player yet, no listeners. */
    constructor Init(t: Option<GameType>, ai: Option<AIType>)
      ensures gameType == t && aiType == ai && computerPlayer == null && listeners == [] && activePlayer == PLAYER_ONE
      ensures fresh(board) && fresh(board.board) && fresh(board.firstAvailableRow) && fresh(board.winningCells)
      ensures board.Settled() && board.Valid() && State() == Position(EmptyGrid(), ResetCursor())
      ensures fresh(log) && log.events == []
    {
      listeners := [];
      activePlayer := PLAYER_ONE;
      gameType := t;
      board := new GameBoard();
      computerPlayer := null;
      aiType := ai;
      log := new EventLog();
    }

    /**
     * `initializeAIPlayer`: in a game with a computer, the player is made
     * by the factory when there is none (a null AI type throws), bound to
     * the board, and given the mark of `player`; a `player` with no mark
     * throws from `setPlayer` after the board was bound.
     */
    method InitializeAIPlayer(t: Option<GameType>, player: int32) returns (r: Result<()>)
      modifies this, computerPlayer
      ensures listeners == old(listeners) && activePlayer == old(activePlayer) && gameType == old(gameType)
      ensures aiType == old(aiType)
      ensures !IsAIGame(t) ==>
        r == Ok(()) && computerPlayer == old(computerPlayer) && (computerPlayer != null ==> unchanged(computerPlayer))
      ensures IsAIGame(t) && old(computerPlayer) == null && aiType == None ==>
        r == Throws(NullPointer) && computerPlayer == null
      ensures IsAIGame(t) && (old(computerPlayer) != null || aiType != None) ==>
        && computerPlayer != null && computerPlayer.gameBoard == board
        && (old(computerPlayer) != null ==> computerPlayer == old(computerPlayer))
        && (old(computerPlayer) == null ==> fresh(computerPlayer))
        && (player as int == PLAYER_ONE || player as int == PLAYER_TWO ==>
              r == Ok(()) && computerPlayer.myBoardMark == Some(MarkOf(player as int)) && computerPlayer.myId == player)
        && (player as int != PLAYER_ONE && player as int != PLAYER_TWO ==> r == Throws(NullPointer))
    {
      if !IsAIGame(t) {
        return Ok(());
      }
      if computerPlayer == null {
        var made := GetAIPlayer(aiType);
        if made.Throws? {
          return Throws(made.error);
        }
        computerPlayer := made.value;
      }
      var _ := computerPlayer.SetBoard(board);
      var mark: Option<CellValue> := None;
      if player as int == PLAYER_ONE {
        mark := Some(PlayerOne);
      } else if player as int == PLAYER_TWO {
        mark := Some(PlayerTwo);
      }
      r := computerPlayer.SetPlayer(mark, player);
    }

    /**
     * `resetGame`: player one to move on an empty board, and the computer
     * player (if the game has one) bound with player one's mark and id 0.
     */
    method ResetGame() returns (r: Result<()>)
      requires board.Shaped() && AIBound()
      modifies this, board.board, board.firstAvailableRow, computerPlayer
      ensures Valid() && activePlayer == PLAYER_ONE && State() == Position(EmptyGrid(), ResetCursor())
      ensures listeners == old(listeners) && gameType == old(gameType) && aiType == old(aiType)
      ensures r == if IsAIGame(gameType) && old(computerPlayer) == null && aiType == None then Throws(NullPointer) else Ok(())
      ensures r.Ok? ==> (computerPlayer != null <==> old(computerPlayer) != null || IsAIGame(gameType))
      ensures old(computerPlayer) != null ==> computerPlayer == old(computerPlayer)
      ensures computerPlayer != old(computerPlayer) ==> fresh(computerPlayer)
    {
      activePlayer := PLAYER_ONE;
      board.ResetBoard();
      r := InitializeAIPlayer(gameType, 0);
    }

    /**
     * `doComputerMove`: the player's column for the current board, dropped
     * with the active player's mark; a player without a mark throws, and a
     * column the board refuses throws `IllegalArgumentException`.
     */
    method DoComputerMove(cp: SimpleAIPlayer) returns (r: Result<bool>)
      requires board.Valid() && cp.gameBoard == board
      modifies board.board, board.firstAvailableRow
      ensures board.Valid() && (old(board.Settled()) ==> board.Settled())
      ensures cp.myBoardMark == None ==> r == Throws(NullPointer) && State() == old(State())
      ensures cp.myBoardMark != None ==>
        var col := NextMove(old(board.Grid()), old(board.Cursor()), cp.myBoardMark.value);
        && (!(0 <= col < COLUMNS) ==> r == Throws(IllegalArgument) && State() == old(State()))
        && (0 <= col < COLUMNS ==>
              r == Ok(Available(old(board.Cursor()), col))
              && State() == DropAt(old(State()), col, MarkOf(activePlayer)))
    {
      var column := cp.GetNextMove();
      if column.Throws? {
        return Throws(column.error);
      }
      assert column.value == NextMove(old(board.Grid()), old(board.Cursor()), cp.myBoardMark.value);
      r := board.SetValueToFirstAvailableRow(column.value, MarkOf(activePlayer));
      ghost var cur := old(board.Cursor());
      assert r.Ok? ==> (r.value <==> Available(cur, column.value));
    }

    /** `doComputerMoveHelper`: the computer's turn as `ComputerTurn` describes it. */
    method DoComputerMoveHelper() returns (r: Result<bool>)
      requires Valid()
      modifies this, board.board, board.firstAvailableRow
      ensures Valid()
      ensures listeners == old(listeners) && gameType == old(gameType) && aiType == old(aiType)
      ensures computerPlayer == old(computerPlayer)
      ensures var t := ComputerTurn(old(State()), old(activePlayer), gameType, computerPlayer != null);
        && (t.Throws? ==> r == Throws(t.error) && State() == old(State()) && activePlayer == old(activePlayer))
        && (t.Ok? ==> r == Ok(t.value.placed) && State() == t.value.position && activePlayer == t.value.active)
    {
      if !IsActivePlayerComputer(gameType, activePlayer) {
        return Ok(false);
      }
      if computerPlayer == null {
        return Throws(NullPointer);
      }
      r := DoComputerMove(computerPlayer);
      if r.Throws? {
        return;
      }
      activePlayer := NextPlayer(activePlayer);
    }

    /** The three notification loops: every listener, in order, is told `n`. */
    method Fire(n: Notice)
      modifies log
      ensures log.events == old(log.events) + Broadcast(listeners, n)
    {
      var i := 0;
      while i < |listeners|
        invariant 0 <= i <= |listeners|
        invariant log.events == old(log.events) + Broadcast(listeners[..i], n)
      {
        assert listeners[..i + 1][..i] == listeners[..i];
        log.events := log.events + [Call(listeners[i], n)];
        i := i + 1;
      }
      assert listeners[..i] == listeners;
    }

    /**
     * `newGame`: the type is stored and the game reset; then the listeners
     * hear of the start, and when the computer opens they also get an
     * update.
     */
    method NewGame(t: Option<GameType>) returns (r: Result<()>)
      requires board.Shaped() && AIBound()
      modifies this, board.board, board.firstAvailableRow, computerPlayer, log
      ensures Valid() && gameType == t && listeners == old(listeners) && aiType == old(aiType)
      ensures IsAIGame(t) && old(computerPlayer) == null && aiType == None ==>
        r == Throws(NullPointer) && activePlayer == PLAYER_ONE && State() == Position(EmptyGrid(), ResetCursor())
        && log.events == old(log.events)
      ensures !(IsAIGame(t) && old(computerPlayer) == null && aiType == None) ==>
        var c := ComputerTurn(Position(EmptyGrid(), ResetCursor()), PLAYER_ONE, t, computerPlayer != null);
        var started := old(log.events) + Broadcast(listeners, GameStart(t));
        && (c.Throws? ==>
              r == Throws(c.error) && activePlayer == PLAYER_ONE
              && State() == Position(EmptyGrid(), ResetCursor()) && log.events == started)
        && (c.Ok? ==>
              r == Ok(()) && State() == c.value.position && activePlayer == c.value.active
              && log.events == started + (if c.value.placed then Broadcast(listeners, GameUpdate(c.value.position.grid)) else []))
    {
      gameType := t;
      var reset := ResetGame();
      if reset.Throws? {
        return Throws(reset.error);
      }
      Fire(GameStart(t));
      var moved := DoComputerMoveHelper();
      if moved.Throws? {
        return Throws(moved.error);
      }
      if moved.value {
        Fire(GameUpdate(board.Grid()));
      }
      return Ok(());
    }

    /**
     * `dropChecker`: an out-of-range column throws from the board before
     * anything changes. Otherwise the active player's checker is dropped
     * (nothing on a full column), the turn passes either way, the computer
     * replies if it is its turn, and the listeners hear the end of the game
     * or an update.
     */
    method DropChecker(column: int) returns (r: Result<()>)
      requires Valid()
      modifies this, board.board, board.firstAvailableRow, board.winningCells, log
      ensures Valid()
      ensures listeners == old(listeners) && gameType == old(gameType) && aiType == old(aiType)
      ensures computerPlayer == old(computerPlayer)
      ensures IntendedColumnCheck(column) ==>
        r == Throws(IllegalArgument) && State() == old(State()) && activePlayer == old(activePlayer)
        && log.events == old(log.events)
      ensures !IntendedColumnCheck(column) ==>
        var human := DropAt(old(State()), column, MarkOf(old(activePlayer)));
        var c := ComputerTurn(human, NextPlayer(old(activePlayer)), gameType, computerPlayer != null);
        && (c.Throws? ==>
              r == Throws(c.error) && State() == human
              && activePlayer == NextPlayer(old(activePlayer)) && log.events == old(log.events))
        && (c.Ok? ==>
              r == Ok(()) && activePlayer == c.value.active
              && board.Grid() == AfterCheck(c.value.position.grid) && board.Cursor() == c.value.position.cursor
              && log.events == old(log.events) + Broadcast(listeners, Verdict(c.value.position.grid, c.value.position.cursor)))
    {
      var placed := board.SetValueToFirstAvailableRow(column, MarkOf(activePlayer));
      if placed.Throws? {
        return Throws(placed.error);
      }
      activePlayer := NextPlayer(activePlayer);
      r := FinishMove();
    }

    /**
     * The end of `dropChecker` once the turn has passed: the computer's
     * reply, then `getWinner`, then the end of the game or an update for
     * every listener.
     */
    method FinishMove() returns (r: Result<()>)
      requires Valid()
      modifies this, board.board, board.firstAvailableRow, board.winningCells, log
      ensures Valid()
      ensures listeners == old(listeners) && gameType == old(gameType) && aiType == old(aiType)
      ensures computerPlayer == old(computerPlayer)
      ensures var c := ComputerTurn(old(State()), old(activePlayer), gameType, computerPlayer != null);
        && (c.Throws? ==>
              r == Throws(c.error) && State() == old(State())
              && activePlayer == old(activePlayer) && log.events == old(log.events))
        && (c.Ok? ==>
              r == Ok(()) && activePlayer == c.value.active
              && board.Grid() == AfterCheck(c.value.position.grid) && board.Cursor() == c.value.position.cursor
              && log.events == old(log.events) + Broadcast(listeners, Verdict(c.value.position.grid, c.value.position.cursor)))
    {
      var moved := DoComputerMoveHelper();
      if moved.Throws? {
        return Throws(moved.error);
      }
      var result := board.GetWinner();
      if result != Undecided {
        Fire(GameEnd(result));
      } else {
        Fire(GameUpdate(board.Grid()));
      }
      return Ok(());
    }

    /** `addListener`: a null listener throws; otherwise it is appended and the call reports `true`. */
    method AddListener(listener: Option<nat>) returns (r: Result<bool>)
      modifies this
      ensures listener == None ==> r == Throws(NullPointer) && listeners == old(listeners)
      ensures listener != None ==> r == Ok(true) && listeners == old(listeners) + [listener.value]
      ensures old(Valid()) ==> Valid()
      ensures activePlayer == old(activePlayer) && gameType == old(gameType)
      ensures computerPlayer == old(computerPlayer) && aiType == old(aiType)
    {
      if listener == None {
        return Throws(NullPointer);
      }
      listeners := listeners + [listener.value];
      return Ok(true);
    }

    /** `removeListener`: a null listener throws; otherwise its first registration is dropped, reporting whether there was one. */
    method RemoveListener(listener: Option<nat>) returns (r: Result<bool>)
      modifies this
      ensures listener == None ==> r == Throws(NullPointer) && listeners == old(listeners)
      ensures listener != None ==>
        r == Ok(listener.value in old(listeners)) && listeners == RemoveFirst(old(listeners), listener.value)
      ensures old(Valid()) ==> Valid()
      ensures activePlayer == old(activePlayer) && gameType == old(gameType)
      ensures computerPlayer == old(computerPlayer) && aiType == old(aiType)
    {
      if listener == None {
        return Throws(NullPointer);
      }
      r := Ok(listener.value in listeners);
      listeners := RemoveFirst(listeners, listener.value);
    }

    /** `getBoard`. */
    function GetBoard(): GameBoard
      reads this
    {
      board
    }

    /** `getGameType`. */
    function GetGameType(): Option<GameType>
      reads this
    {
      gameType
    }

    /** `getAIType`. */
    function GetAIType(): Option<AIType>
      reads this
    {
      aiType
    }
  }

  /** The board a `COMPUTER_HUMAN` game starts from: the computer's checker in the middle column. */
  function Opening(): (p: Position)
    ensures Stacked(p.grid, p.cursor)
  {
    DropAt(Position(EmptyGrid(), ResetCursor()), COLUMNS / 2, PlayerOne)
  }

  /**
   * Both constructors: the fields are set, the game is reset, and the
   * computer opens when it plays first. A game with a computer but no AI
   * type throws from the factory.
   */
  method Construct(t: Option<GameType>, ai: Option<AIType>) returns (r: Result<ConnectFour>)
    ensures IsAIGame(t) && ai == None ==> r == Throws(NullPointer)
    ensures !(IsAIGame(t) && ai == None) ==>
      && r.Ok? && fresh(r.value) && r.value.Valid()
      && r.value.gameType == t && r.value.aiType == ai && r.value.listeners == [] && r.value.log.events == []
      && (r.value.computerPlayer != null <==> IsAIGame(t))
      && (t == Some(ComputerHuman) ==> r.value.activePlayer == PLAYER_TWO && r.value.State() == Opening())
      && (t != Some(ComputerHuman) ==>
            r.value.activePlayer == PLAYER_ONE && r.value.State() == Position(EmptyGrid(), ResetCursor()))
  {
    var game := new ConnectFour.Init(t, ai);
    var reset := game.ResetGame();
    if reset.Throws? {
      return Throws(reset.error);
    }
    EmptyBoardOpening(AI_MARK);
    var _ := game.DoComputerMoveHelper();
    return Ok(game);
  }

  /** `ConnectFour(GameType)`: the AI type is `SIMPLE`, so construction always succeeds. */
  method NewConnectFour(t: Option<GameType>) returns (r: Result<ConnectFour>)
    ensures r.Ok? && fresh(r.value) && r.value.Valid() && r.value.gameType == t && r.value.aiType == Some(Simple)
    ensures r.value.listeners == [] && r.value.log.events == []
    ensures t == Some(ComputerHuman) ==> r.value.activePlayer == PLAYER_TWO && r.value.State() == Opening()
    ensures t != Some(ComputerHuman) ==>
      r.value.activePlayer == PLAYER_ONE && r.value.State() == Position(EmptyGrid(), ResetCursor())
  {
    r := Construct(t, Some(Simple));
  }

  /** `ConnectFour.Builder`: a required game type and an optional AI type, which starts out null. */
  class Builder {
    var gameType: GameType
    var aiType: Option<AIType>

    constructor(val: GameType)
      ensures gameType == val && aiType == None
    {
      gameType := val;
      aiType := None;
    }

    /** `aiType(val)`: a null type throws and keeps the builder as it was. */
    method WithAIType(val: Option<AIType>) returns (r: Result<Builder>)
      modifies this
      ensures val == None ==> r == Throws(NullPointer) && aiType == old(aiType)
      ensures val != None ==> r == Ok(this) && aiType == val
      ensures gameType == old(gameType)
    {
      if val == None {
        return Throws(NullPointer);
      }
      aiType := val;
      return Ok(this);
    }

    /** `build`: the game the builder describes; with no AI type set, a game with a computer throws. */
    method Build() returns (r: Result<ConnectFour>)
      ensures IsAIGame(Some(gameType)) && aiType == None ==> r == Throws(NullPointer)
      ensures !(IsAIGame(Some(gameType)) && aiType == None) ==>
        && r.Ok? && fresh(r.value) && r.value.Valid()
        && r.value.gameType == Some(gameType) && r.value.aiType == aiType
        && r.value.listeners == [] && r.value.log.events == []
        && (r.value.computerPlayer != null <==> IsAIGame(Some(gameType)))
        && (gameType == ComputerHuman ==> r.value.activePlayer == PLAYER_TWO && r.value.State() == Opening())
        && (gameType != ComputerHuman ==>
              r.value.activePlayer == PLAYER_ONE && r.value.State() == Position(EmptyGrid(), ResetCursor()))
    {
      r := Construct(Some(gameType), aiType);
    }
  }

  /** `new Builder(val)`: a null game type throws. */
  method NewBuilder(val: Option<GameType>) returns (r: Result<Builder>)
    ensures val == None ==> r == Throws(NullPointer)
    ensures val != None ==> r.Ok? && fresh(r.value) && r.value.gameType == val.value && r.value.aiType == None
  {
    if val == None {
      return Throws(NullPointer);
    }
    var b := new Builder(val.value);
    return Ok(b);
  }

  /** The column check `dropChecker` performs, as written: a column below 0 and at least `COLUMNS`. */
  predicate ColumnCheckAsWritten(column: int)
  {
    column < 0 && column >= COLUMNS
  }

  /** The check documented for `dropChecker`: the column is out of the board's range. */
  predicate IntendedColumnCheck(column: int)
  {
    column < 0 || column >= COLUMNS
  }

  /** Column -1 is out of range but passes the written check. */
  lemma ColumnCheckMissesNegative()
    ensures IntendedColumnCheck(-1) && !ColumnCheckAsWritten(-1)
  {
  }
}
