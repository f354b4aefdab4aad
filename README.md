# pqs in Dafny: Connect Four, Canvas, address book and stopwatch

This project models four small Java libraries and proves properties about the models:

- **Connect Four engine.** The 6x7 `GameBoard`, the `SimpleAIPlayer` (with its `AIPlayer` base and the `AIFactory`), and the `ConnectFour` controller.
  - The board keeps a per-column cursor for the first free row.
  - The board detects four in a row and marks the winning cells.
  - The AI looks for "depth − 1 of one player plus a legal empty cell" in every length-4 window. It tries depths 4, 3 and 2, then falls back to the middle column, then to the lowest free column.
  - The controller alternates turns, lets the computer reply, and notifies its listeners.
- **Canvas.** A drawing surface whose strokes (`CElement`s) group shapes (`CShape`s).
  - Pen settings are validated by a builder.
  - It supports undo and clear-all, notifies listeners, and iterates over every drawn shape in drawing order.
- **Contact store.** An `AddressBook` of `Contact`s built from `Name`, `PostalAddress`, `PhoneNumber` and `EmailAddress` values.
  - Each value has its validation, its null-safe `equals` and `hashCode`, and its `toString` layout.
- **Stopwatch.** `SimpleStopwatch` records start and lap instants and computes lap times from them.

## How the model is organised

- **Shared Java semantics** (`java.dfy`):
  - a thrown exception is `Throws(e)` in a `Result`, and a null argument is `None` in an `Option`;
  - the argument of `equals` is `Obj` (an instance, a foreign object, or null);
  - Java `int` arithmetic wraps explicitly (`Wrap`, `HashStep`), and integer division truncates (`TruncDiv`);
  - `String.trim` and `String.format` are modelled for `%s`/`%n` patterns.
- **Objects whose fields the source updates are classes.** These are the board, the AI player, the game, the canvas and its iterators, elements, builders, the address book and the stopwatch.
  - Their methods carry `modifies` clauses and state the whole new state.
  - Their loops keep the Java loop structure, with invariants tying them to specification functions.
- **Immutable values are datatypes with functions.** These are contacts, names, addresses, phone numbers, e-mail addresses and shapes.
- **The 69 length-4 windows** are one sequence, `Windows.AllWindows`, in the order the Java loops visit them: 24 horizontal, 21 vertical, 12 major-diagonal and 12 minor-diagonal. Both the board's winner check and the AI search are proved to walk this sequence.
- **Listeners are identities (`nat`).** Each notification appends one call per registered listener, in registration order, to an event log.
- **JDK hash codes are function parameters.** This covers `String.hashCode`, enum hash codes and identity hash codes, so the hash lemmas hold for every such function.

## Model

| member | source | states |
|---|---|---|
| Board.GameBoard.constructor | PS4_sp15/src/edu/nyu/pqs/connectfour/impl/GameBoard.java:24-31 | a new board is reset: every cell EMPTY and every cursor on the bottom row; the board is settled |
| Board.GameBoard.ResetBoard | PS4_sp15/src/edu/nyu/pqs/connectfour/impl/GameBoard.java:45-55 | every cell becomes EMPTY and every cursor ROWS − 1, through the two nested loops |
| Board.GameBoard.MarkBoard | PS4_sp15/src/edu/nyu/pqs/connectfour/impl/GameBoard.java:95-101 | an off-board position throws IllegalArgumentException with nothing changed; otherwise exactly that cell is written |
| Board.GameBoard.SetValueToFirstAvailableRow | PS4_sp15/src/edu/nyu/pqs/connectfour/impl/GameBoard.java:69-84 | an out-of-range column throws before any change; a full column answers false with nothing changed; otherwise the value lands at the cursor, the cursor moves up, and the answer is true; the gravity invariant is kept |
| Board.GameBoard.IsColumnAvailable | PS4_sp15/src/edu/nyu/pqs/connectfour/impl/GameBoard.java:292-298 | an out-of-range column throws; otherwise the answer is whether the cursor is not −1 |
| Board.GameBoard.ScanWindow | PS4_sp15/src/edu/nyu/pqs/connectfour/impl/GameBoard.java:146-156 | one `val` loop counts both players' cells of the window and records each player cell, with its winner mark, in the scratch array |
| Board.GameBoard.WindowVerdict | PS4_sp15/src/edu/nyu/pqs/connectfour/impl/GameBoard.java:157-161 | four PLAYER_TWO cells are tested first, then four PLAYER_ONE cells; on a win the scratch array holds the window's four cells with the winner mark |
| Board.GameBoard.ScanRows | PS4_sp15/src/edu/nyu/pqs/connectfour/impl/GameBoard.java:140-162 | the horizontal loops visit windows 0–23 of the scan order and stop at the first win |
| Board.GameBoard.ScanColumns | PS4_sp15/src/edu/nyu/pqs/connectfour/impl/GameBoard.java:163-184 | the vertical loops visit windows 24–44 and stop at the first win |
| Board.GameBoard.ScanDiagonals | PS4_sp15/src/edu/nyu/pqs/connectfour/impl/GameBoard.java:185-228 | the major and the minor diagonal loops each visit their twelve windows, anchors from row 2 and column 3 down to 0, and stop at the first win |
| Board.GameBoard.CheckForWinner | PS4_sp15/src/edu/nyu/pqs/connectfour/impl/GameBoard.java:137-230 | the result is the first winning window of `AllWindows` (or NONE), and the scratch array holds that window's cells with the winner mark |
| Board.GameBoard.GetWinner | PS4_sp15/src/edu/nyu/pqs/connectfour/impl/GameBoard.java:109-130 | on a win exactly the four winning cells are overwritten with the winner mark; otherwise the result is STALEMATE when no column is available and NONE when one is; the cursors never change and the settled invariant is kept |
| Board.GameBoard.MarkWinningCells | PS4_sp15/src/edu/nyu/pqs/connectfour/impl/GameBoard.java:113-117 | the marking loop writes the four recorded cells, giving `MarkWindow` of the winning window |
| Board.GameBoard.AnyColumnAvailable | PS4_sp15/src/edu/nyu/pqs/connectfour/impl/GameBoard.java:118-127 | the stalemate loop answers true exactly when some column's cursor is not −1 |
| Board.GameBoard.Iterator | PS4_sp15/src/edu/nyu/pqs/connectfour/impl/GameBoard.java:237-239 | a fresh iterator positioned at cell (0, 0) of this board's live array |
| Board.BoardIterator.HasNext | PS4_sp15/src/edu/nyu/pqs/connectfour/impl/GameBoard.java:257-259 | true exactly until all ROWS × COLUMNS cells have been returned |
| Board.BoardIterator.Next | PS4_sp15/src/edu/nyu/pqs/connectfour/impl/GameBoard.java:262-272 | the next cell in row-major order, with its current mark; past the end, an out-of-bounds access |
| Board.BoardIterator.Remove | PS4_sp15/src/edu/nyu/pqs/connectfour/impl/GameBoard.java:275-277 | always throws UnsupportedOperationException |
| Board.RowMajorAt | PS4_sp15/src/edu/nyu/pqs/connectfour/impl/GameBoard.java:262-272 | cell (r, c) is yielded at position r × COLUMNS + c of the iteration, with its mark |
| Board.ScanComplete | PS4_sp15/src/edu/nyu/pqs/connectfour/impl/GameBoard.java:146-156 | a full scan records every cell of a window holding four of one player's checkers, each with the winner mark |
| Board.MarkUpToFour | PS4_sp15/src/edu/nyu/pqs/connectfour/impl/GameBoard.java:113-117 | the four writes of the marking loop give the whole marked window |
| Windows.AllWindows | PS4_sp15/src/edu/nyu/pqs/connectfour/impl/GameBoard.java:140-228 | the 69 windows in loop order: every one is anchored on the board |
| Windows.FourInARowIsFound | PS4_sp15/src/edu/nyu/pqs/connectfour/impl/GameBoard.java:137-230 | the scan misses no line: four equal player marks in any row, column or diagonal make the winner rule report a win |
| Windows.FirstWinIsFirst | PS4_sp15/src/edu/nyu/pqs/connectfour/impl/GameBoard.java:157-161 | the rule picks the window at i when it wins and no earlier window does |
| Windows.NoWinIff | PS4_sp15/src/edu/nyu/pqs/connectfour/impl/GameBoard.java:229 | the rule finds nothing exactly when no window holds four of one player |
| Windows.FirstWinSound | PS4_sp15/src/edu/nyu/pqs/connectfour/impl/GameBoard.java:157-161 | whatever the rule reports is a winning window of the list, with its result |
| Windows.TallyCounts | PS4_sp15/src/edu/nyu/pqs/connectfour/ai/SimpleAIPlayer.java:94-105 | the scan counters are the cell counts, and the recorded `val` names an EMPTY cell |
| Windows.TallyFour | PS4_sp15/src/edu/nyu/pqs/connectfour/impl/GameBoard.java:146-161 | a full scan counts four PLAYER_TWO (or PLAYER_ONE) cells exactly when the window holds four of them |
| Windows.OutcomeIsWinIff | PS4_sp15/src/edu/nyu/pqs/connectfour/impl/GameBoard.java:109-130 | getWinner reports a player's win exactly when some window holds four of that player's checkers |
| Windows.SecondCheckIgnoresMarked | PS4_sp15/src/edu/nyu/pqs/connectfour/impl/GameBoard.java:113-117 | after a win has been marked, no window through a marked cell is reported again |
| Windows.MarkedNeverCounted | PS4_sp15/src/edu/nyu/pqs/connectfour/impl/GameBoard.java:147-155 | a cell holding a winner mark counts for neither player |
| Windows.AfterCheckKeepsStacked | PS4_sp15/src/edu/nyu/pqs/connectfour/impl/GameBoard.java:109-130 | getWinner keeps the gravity and stacking invariants |
| Windows.MarkKeepsStacked | PS4_sp15/src/edu/nyu/pqs/connectfour/impl/GameBoard.java:113-117 | marking a window of checkers keeps gravity and stacking |
| Windows.DropKeepsStacked | PS4_sp15/src/edu/nyu/pqs/connectfour/impl/GameBoard.java:74-83 | a drop into a free column keeps gravity, and keeps stacking when the mark is a checker |
| Windows.ColumnFillsAfterRows | PS4_sp15/src/edu/nyu/pqs/connectfour/impl/GameBoard.java:74-83 | after a reset a column accepts exactly ROWS checkers and is full after them |
| Strategy.VoteIff | PS4_sp15/src/edu/nyu/pqs/connectfour/ai/SimpleAIPlayer.java:107-121 | a window votes for player x at cell v exactly when its examined cells are d − 1 of x plus the EMPTY cell v and that cell is legal |
| Strategy.VoteSound | PS4_sp15/src/edu/nyu/pqs/connectfour/ai/SimpleAIPlayer.java:107-121 | a vote is for a player, at a legal cell that is a threat for that player |
| Strategy.VoteComplete | PS4_sp15/src/edu/nyu/pqs/connectfour/ai/SimpleAIPlayer.java:107-121 | every legal threat is voted for, at its empty cell |
| Strategy.LegalIsCursor | PS4_sp15/src/edu/nyu/pqs/connectfour/ai/SimpleAIPlayer.java:241-252 | on a stacked board the legal cells are exactly the columns' first free cells |
| Strategy.PickOwnFirst | PS4_sp15/src/edu/nyu/pqs/connectfour/ai/SimpleAIPlayer.java:109-111 | within a depth, the first proposal for the AI's own mark decides |
| Strategy.PickNoOwn | PS4_sp15/src/edu/nyu/pqs/connectfour/ai/SimpleAIPlayer.java:112-113 | within a depth with no proposal for the AI's own mark, the last proposal decides |
| Strategy.FirstAvailable | PS4_sp15/src/edu/nyu/pqs/connectfour/ai/SimpleAIPlayer.java:47-51 | the lowest available column from i on, or −1 when every one is full |
| Strategy.TakesWinningMove | PS4_sp15/src/edu/nyu/pqs/connectfour/ai/SimpleAIPlayer.java:36-39 | when a window holds three of the AI's marks and a legal empty cell, the move is that cell's column in the first such window |
| Strategy.FirstProposingDepthDecides | PS4_sp15/src/edu/nyu/pqs/connectfour/ai/SimpleAIPlayer.java:36-39 | depths are tried from 4 down, and the first depth at which any window proposes a move decides |
| Strategy.CandidateAtFirstProposing | PS4_sp15/src/edu/nyu/pqs/connectfour/ai/SimpleAIPlayer.java:36-39 | the depth loop stops at the first proposing depth, with that depth's result |
| Strategy.BlocksLastThreat | PS4_sp15/src/edu/nyu/pqs/connectfour/ai/SimpleAIPlayer.java:79-236 | with no own proposal at a depth, the AI blocks at the last opponent threat in scan order |
| Strategy.FallbackMove | PS4_sp15/src/edu/nyu/pqs/connectfour/ai/SimpleAIPlayer.java:41-54 | with no proposal at any depth, the move is the middle column if it is available, else the lowest available column |
| Strategy.NeverFullColumn | PS4_sp15/src/edu/nyu/pqs/connectfour/ai/SimpleAIPlayer.java:22-55 | on a stacked board the AI's move is −1 or an available column |
| Strategy.NoMoveIffFull | PS4_sp15/src/edu/nyu/pqs/connectfour/ai/SimpleAIPlayer.java:22-55 | on a stacked board the AI answers −1 exactly when every column is full |
| Strategy.EmptyBoardOpening | PS4_sp15/src/edu/nyu/pqs/connectfour/ai/SimpleAIPlayer.java:41-44 | on an empty board nothing is proposed at any depth, so the AI opens in the middle column |
| Strategy.LeftEdgeTripleNeverExamined | PS4_sp15/src/edu/nyu/pqs/connectfour/ai/SimpleAIPlayer.java:89-95 | below depth 4 a horizontal window reads only its anchor and the cells to its left, so the triple in columns 0–2 is never examined |
| AI.SimpleAIPlayer.constructor | PS4_sp15/src/edu/nyu/pqs/connectfour/ai/AIPlayer.java:15-17 | a new player has no board, no mark and id 0 |
| AI.SimpleAIPlayer.SetBoard | PS4_sp15/src/edu/nyu/pqs/connectfour/ai/AIPlayer.java:20-25 | a null board throws NullPointerException and keeps the stored one; otherwise the board is stored |
| AI.SimpleAIPlayer.SetPlayer | PS4_sp15/src/edu/nyu/pqs/connectfour/ai/AIPlayer.java:33-40 | a null mark throws and changes nothing; otherwise the mark and the id are both stored |
| AI.SimpleAIPlayer.GetNextMove | PS4_sp15/src/edu/nyu/pqs/connectfour/ai/SimpleAIPlayer.java:22-55 | a missing board or mark throws NullPointerException; otherwise the result is `NextMove` of the board's marks, cursors and the player's mark, and the board is not changed |
| AI.SimpleAIPlayer.ChooseFallback | PS4_sp15/src/edu/nyu/pqs/connectfour/ai/SimpleAIPlayer.java:41-54 | a found column is kept; otherwise the middle column if available, else the lowest available column, else −1 |
| AI.SimpleAIPlayer.SearchDepths | PS4_sp15/src/edu/nyu/pqs/connectfour/ai/SimpleAIPlayer.java:34-39 | the depth loop's result is the depth-4-then-3-then-2 candidate |
| AI.SimpleAIPlayer.GenFriendlyBoard | PS4_sp15/src/edu/nyu/pqs/connectfour/ai/SimpleAIPlayer.java:60-68 | the iterator loop fills a fresh array equal to the board's marks |
| AI.SimpleAIPlayer.IsLegalMove | PS4_sp15/src/edu/nyu/pqs/connectfour/ai/SimpleAIPlayer.java:241-252 | legal exactly when the cell is EMPTY and it is on the bottom row or above a non-EMPTY cell |
| AI.SimpleAIPlayer.ScanDepth | PS4_sp15/src/edu/nyu/pqs/connectfour/ai/SimpleAIPlayer.java:94-105 | the `val` loop's counters and last EMPTY `val` are those of the window's first `maxDepth` cells in loop order, and each visited cell is written to the scratch array |
| AI.SimpleAIPlayer.ExamineWindow | PS4_sp15/src/edu/nyu/pqs/connectfour/ai/SimpleAIPlayer.java:107-121 | the window's own-mark threat is reported as found, and any legal threat's column becomes the move |
| AI.SimpleAIPlayer.SearchRows | PS4_sp15/src/edu/nyu/pqs/connectfour/ai/SimpleAIPlayer.java:88-123 | the horizontal loops search windows 0–23 as the depth search prescribes |
| AI.SimpleAIPlayer.SearchColumns | PS4_sp15/src/edu/nyu/pqs/connectfour/ai/SimpleAIPlayer.java:125-160 | the vertical loops search windows 24–44 as the depth search prescribes |
| AI.SimpleAIPlayer.SearchDiagonals | PS4_sp15/src/edu/nyu/pqs/connectfour/ai/SimpleAIPlayer.java:162-234 | each diagonal family's loops search its twelve windows as the depth search prescribes |
| AI.SimpleAIPlayer.GetNextWinningOrDefensiveMove | PS4_sp15/src/edu/nyu/pqs/connectfour/ai/SimpleAIPlayer.java:79-236 | the search over all 69 windows at one depth returns `DepthMove`: the first own proposal, else the last proposal, else −1 |
| AI.SimpleAIPlayer.Equals | PS4_sp15/src/edu/nyu/pqs/connectfour/ai/SimpleAIPlayer.java:263-274 | never true for an object of another class or null; for a player, true exactly when it has the same id, the same board reference and the same mark (the same object included) |
| AI.SimpleAIPlayer.HashCode | PS4_sp15/src/edu/nyu/pqs/connectfour/ai/SimpleAIPlayer.java:283-295 | no contract of its own: `HashConsistent` proves equal players hash alike, and `UnboundHash` gives its value for an unbound player |
| AI.SimpleAIPlayer.GetBoard | PS4_sp15/src/edu/nyu/pqs/connectfour/ai/AIPlayer.java:28-30 | no contract of its own: the board last stored by `SetBoard`, or null, which `GetNextMove` turns into NullPointerException |
| AI.SimpleAIPlayer.GetPlayer | PS4_sp15/src/edu/nyu/pqs/connectfour/ai/AIPlayer.java:43-45 | no contract of its own: the id last stored by `SetPlayer`, 0 for a fresh player, which `Equals` and `HashCode` read |
| AI.EqualsIsEquivalence | PS4_sp15/src/edu/nyu/pqs/connectfour/ai/SimpleAIPlayer.java:263-274 | player equality is reflexive, symmetric and transitive |
| AI.HashConsistent | PS4_sp15/src/edu/nyu/pqs/connectfour/ai/SimpleAIPlayer.java:283-295 | equal players have equal hash codes |
| AI.UnboundHash | PS4_sp15/src/edu/nyu/pqs/connectfour/ai/SimpleAIPlayer.java:283-295 | a player with neither board nor mark hashes to 31 × 17 + id, wrapped to 32 bits |
| AI.FreshPlayersEqual | PS4_sp15/src/edu/nyu/pqs/connectfour/ai/SimpleAIPlayer.java:263-274 | two distinct new players are equal |
| AI.FreshPlayerCannotMove | PS4_sp15/src/edu/nyu/pqs/connectfour/ai/SimpleAIPlayer.java:22-28 | a player without board and mark throws NullPointerException when asked to move |
| AIFactory.GetAIPlayer | PS4_sp15/src/edu/nyu/pqs/connectfour/ai/AIFactory.java:27-38 | a null type throws NullPointerException; SIMPLE gives a fresh player with no board, no mark and id 0 |
| AIFactory.FactoryPlayerCannotMove | PS4_sp15/src/edu/nyu/pqs/connectfour/ai/AIFactory.java:27-38 | a player straight from the factory cannot move |
| ConnectFourGame.TurnsAlternate | PS4_sp15/src/edu/nyu/pqs/connectfour/impl/ConnectFour.java:229-232 | stepping the turn switches player and mark, and two steps come back |
| ConnectFourGame.ComputerOwnsOneSide | PS4_sp15/src/edu/nyu/pqs/connectfour/impl/ConnectFour.java:114-119 | in a game with a computer exactly one of the two players is the computer; otherwise neither is |
| ConnectFourGame.DropAt | PS4_sp15/src/edu/nyu/pqs/connectfour/impl/GameBoard.java:69-84 | a drop on an in-range column keeps gravity, and keeps stacking for a checker |
| ConnectFourGame.ComputerTurnSound | PS4_sp15/src/edu/nyu/pqs/connectfour/impl/ConnectFour.java:144-161 | on a settled board the computer's turn throws NullPointerException exactly without a player and IllegalArgumentException exactly on a full board; otherwise it places a checker, keeps the board settled and hands the turn to the human |
| ConnectFourGame.ConnectFour.Init | PS4_sp15/src/edu/nyu/pqs/connectfour/impl/ConnectFour.java:82-88 | the fields before the reset: a fresh, reset board, no computer player, no listeners |
| ConnectFourGame.ConnectFour.InitializeAIPlayer | PS4_sp15/src/edu/nyu/pqs/connectfour/impl/ConnectFour.java:121-142 | in a game with a computer, the player is made by the factory if missing (null AI type throws), bound to the board and given the player's mark and id; without a computer nothing changes |
| ConnectFourGame.ConnectFour.ResetGame | PS4_sp15/src/edu/nyu/pqs/connectfour/impl/ConnectFour.java:107-112 | player one to move on an empty board, and the computer player bound with player one's mark |
| ConnectFourGame.ConnectFour.DoComputerMove | PS4_sp15/src/edu/nyu/pqs/connectfour/impl/ConnectFour.java:144-147 | the AI's column is dropped with the active player's mark; an unmarked player throws and a −1 column throws IllegalArgumentException with nothing changed |
| ConnectFourGame.ConnectFour.DoComputerMoveHelper | PS4_sp15/src/edu/nyu/pqs/connectfour/impl/ConnectFour.java:149-161 | the state after the call is that of `ComputerTurn`: nothing on the human's turn, otherwise the computer's checker and the turn passed |
| ConnectFourGame.ConnectFour.Fire | PS4_sp15/src/edu/nyu/pqs/connectfour/impl/ConnectFour.java:246-262 | every registered listener, in order, is told the notice |
| ConnectFourGame.ConnectFour.NewGame | PS4_sp15/src/edu/nyu/pqs/connectfour/impl/ConnectFour.java:186-196 | type stored and game reset; listeners hear the start, and when the computer opens they also get an update with the opening board |
| ConnectFourGame.ConnectFour.DropChecker | PS4_sp15/src/edu/nyu/pqs/connectfour/impl/ConnectFour.java:223-244 | an out-of-range column throws IllegalArgumentException with nothing changed; otherwise the human's checker (nothing on a full column), the turn passed, the computer's reply, getWinner, then an end or an update for every listener |
| ConnectFourGame.ConnectFour.FinishMove | PS4_sp15/src/edu/nyu/pqs/connectfour/impl/ConnectFour.java:234-243 | the computer's reply, then getWinner, then the end of the game or an update |
| ConnectFourGame.ConnectFour.AddListener | PS4_sp15/src/edu/nyu/pqs/connectfour/impl/ConnectFour.java:271-277 | null throws; otherwise appended, answering true |
| ConnectFourGame.ConnectFour.RemoveListener | PS4_sp15/src/edu/nyu/pqs/connectfour/impl/ConnectFour.java:286-292 | null throws; otherwise the first registration is removed, answering whether there was one |
| ConnectFourGame.Opening | PS4_sp15/src/edu/nyu/pqs/connectfour/impl/ConnectFour.java:95-105 | the board a computer-first game starts from is stacked |
| ConnectFourGame.Construct | PS4_sp15/src/edu/nyu/pqs/connectfour/impl/ConnectFour.java:82-93 | a game with a computer and no AI type throws; otherwise a valid game, the computer having opened in the middle column when it plays first |
| ConnectFourGame.NewConnectFour | PS4_sp15/src/edu/nyu/pqs/connectfour/impl/ConnectFour.java:95-105 | with the default SIMPLE AI type construction always succeeds, as above |
| ConnectFourGame.ConnectFour.GetBoard | PS4_sp15/src/edu/nyu/pqs/connectfour/impl/ConnectFour.java:176-178 | no contract of its own: the game's own board, whose marks `State` reads and whose settled invariant `Valid` keeps |
| ConnectFourGame.ConnectFour.GetGameType | PS4_sp15/src/edu/nyu/pqs/connectfour/impl/ConnectFour.java:203-205 | no contract of its own: the type `Construct`, `Builder.Build` and `NewGame` state that the game holds |
| ConnectFourGame.ConnectFour.GetAIType | PS4_sp15/src/edu/nyu/pqs/connectfour/impl/ConnectFour.java:212-214 | no contract of its own: the AI type `Construct` and `Builder.Build` state that the game holds, null for a builder game without one |
| ConnectFourGame.Builder.WithAIType | PS4_sp15/src/edu/nyu/pqs/connectfour/impl/ConnectFour.java:64-70 | null throws and keeps the builder; otherwise the AI type is stored |
| ConnectFourGame.Builder.Build | PS4_sp15/src/edu/nyu/pqs/connectfour/impl/ConnectFour.java:77-93 | with no AI type set, a game with a computer throws; otherwise a valid game with the builder's settings, no listeners and no events, a computer player exactly in a game with a computer, and player one to move on an empty board, or player two after the computer's opening in a COMPUTER_HUMAN game |
| ConnectFourGame.NewBuilder | PS4_sp15/src/edu/nyu/pqs/connectfour/impl/ConnectFour.java:49-54 | a null game type throws; otherwise a builder with that type and no AI type |
| ConnectFourGame.ColumnCheckMissesNegative | PS4_sp15/src/edu/nyu/pqs/connectfour/impl/ConnectFour.java:224 | column −1 is out of range but passes the written guard |
| Listeners.Broadcast | PS4_sp15/src/edu/nyu/pqs/connectfour/impl/ConnectFour.java:246-262 | one call per registered listener, in registration order, each with the notice |
| Listeners.RemoveFirst | PS4_sp15/src/edu/nyu/pqs/connectfour/impl/ConnectFour.java:286-292 | when the listener is registered, exactly one occurrence of it goes and the other listeners stay (as a multiset); otherwise the list is unchanged |
| Listeners.FirstIndex | PS4_sp15/src/edu/nyu/pqs/connectfour/impl/ConnectFour.java:286-292 | the position of a registered listener's first occurrence: it holds the listener and no earlier position does |
| Listeners.RemoveFirstDropsFirst | PS4_sp15/src/edu/nyu/pqs/connectfour/impl/ConnectFour.java:286-292 | the occurrence removed is the first one, and the listeners before and after it keep their order |
| Listeners.UnregisteredHearsNothing | PS5_sp15/src/edu/nyu/pqs/canvas/impl/Canvas.java:175-191 | a listener that is not registered is told nothing |
| Listeners.RemovedOnceIsGone | PS5_sp15/src/edu/nyu/pqs/canvas/impl/Canvas.java:343-349 | a listener registered once is no longer registered after removal |
| CanvasModel.BuildError | PS5_sp15/src/edu/nyu/pqs/canvas/impl/Canvas.java:136-155 | the build succeeds exactly for 1 ≤ min < max, min ≤ pen ≤ max and a non-null shape; a bad size is IllegalArgumentException and a null shape alone NullPointerException |
| CanvasModel.Builder.constructor | PS5_sp15/src/edu/nyu/pqs/canvas/impl/Canvas.java:53-60 | pen sizes 1 to 50, pen size 1, round pen, colours 0 |
| CanvasModel.Builder.WithForegroundColor | PS5_sp15/src/edu/nyu/pqs/canvas/impl/Canvas.java:68-71 | only the foreground colour changes |
| CanvasModel.Builder.WithBackgroundColor | PS5_sp15/src/edu/nyu/pqs/canvas/impl/Canvas.java:79-82 | only the background colour changes |
| CanvasModel.Builder.WithMaxPenSize | PS5_sp15/src/edu/nyu/pqs/canvas/impl/Canvas.java:90-93 | only the maximum changes, unchecked until build |
| CanvasModel.Builder.WithMinPenSize | PS5_sp15/src/edu/nyu/pqs/canvas/impl/Canvas.java:101-104 | only the minimum changes, unchecked until build |
| CanvasModel.Builder.WithPenSize | PS5_sp15/src/edu/nyu/pqs/canvas/impl/Canvas.java:113-116 | only the pen size changes, unchecked until build |
| CanvasModel.Builder.WithPenShape | PS5_sp15/src/edu/nyu/pqs/canvas/impl/Canvas.java:124-127 | only the pen shape changes; null is kept for build to refuse |
| CanvasModel.Builder.Build | PS5_sp15/src/edu/nyu/pqs/canvas/impl/Canvas.java:136-155 | the first failing check throws; otherwise a fresh, valid, empty canvas with the builder's settings |
| CanvasModel.Canvas.constructor | PS5_sp15/src/edu/nyu/pqs/canvas/impl/Canvas.java:159-170 | the builder's settings, no elements, no open stroke |
| CanvasModel.Canvas.Fire | PS5_sp15/src/edu/nyu/pqs/canvas/impl/Canvas.java:175-191 | every listener, in order, is told the notice |
| CanvasModel.Canvas.SetBackgroundColor | PS5_sp15/src/edu/nyu/pqs/canvas/impl/Canvas.java:203-208 | the colour is set, the colours are announced, then a repaint; nothing else changes |
| CanvasModel.Canvas.SetForegroundColor | PS5_sp15/src/edu/nyu/pqs/canvas/impl/Canvas.java:216-220 | the colour is set and the colours announced; nothing else changes |
| CanvasModel.Canvas.SetPenSize | PS5_sp15/src/edu/nyu/pqs/canvas/impl/Canvas.java:223-232 | a size outside the bounds throws IllegalArgumentException and changes nothing; otherwise it is set and the pen announced |
| CanvasModel.Canvas.SetPenShape | PS5_sp15/src/edu/nyu/pqs/canvas/impl/Canvas.java:235-243 | null throws and changes nothing; otherwise it is set and the pen announced |
| CanvasModel.Canvas.GetPenSize | PS5_sp15/src/edu/nyu/pqs/canvas/impl/Canvas.java:251-253 | the pen size always lies within the bounds |
| CanvasModel.Canvas.GetMaxPenSize | PS5_sp15/src/edu/nyu/pqs/canvas/impl/Canvas.java:324-326 | no contract of its own: `GetMinPenSize` and `GetPenSize` state that it lies above the minimum and at or above the pen size |
| CanvasModel.Canvas.GetPenShape | PS5_sp15/src/edu/nyu/pqs/canvas/impl/Canvas.java:256-258 | no contract of its own: never null, because `SetPenShape` and `Builder.Build` refuse a null shape |
| CanvasModel.Canvas.GetForegroundColor | PS5_sp15/src/edu/nyu/pqs/canvas/impl/Canvas.java:246-248 | no contract of its own: the colour `SetForegroundColor` and `Builder.Build` state the canvas holds |
| CanvasModel.Canvas.GetBackgroundColor | PS5_sp15/src/edu/nyu/pqs/canvas/impl/Canvas.java:211-213 | no contract of its own: the colour `SetBackgroundColor` and `Builder.Build` state the canvas holds |
| CanvasModel.Canvas.GetMinPenSize | PS5_sp15/src/edu/nyu/pqs/canvas/impl/Canvas.java:329-331 | the minimum is at least 1 and below the maximum |
| CanvasModel.Canvas.Draw | PS5_sp15/src/edu/nyu/pqs/canvas/impl/Canvas.java:261-270 | outside a stroke IllegalStateException; inside one a shape with the current colour and pen joins the stroke's element and a progress event is fired; the canvas shows it while the element is in the list |
| CanvasModel.Canvas.AddToStroke | PS5_sp15/src/edu/nyu/pqs/canvas/impl/Canvas.java:266-267 | the stroke's element gains the shape; the visible shapes gain it exactly when the element is still listed |
| CanvasModel.Canvas.BeginDrawing | PS5_sp15/src/edu/nyu/pqs/canvas/impl/Canvas.java:273-286 | inside a stroke IllegalStateException; otherwise a new empty element becomes the last element, the stroke opens and START is announced |
| CanvasModel.Canvas.OpenStroke | PS5_sp15/src/edu/nyu/pqs/canvas/impl/Canvas.java:278-279 | a fresh empty element is appended and becomes the stroke's element; the visible shapes do not change |
| CanvasModel.Canvas.FinishDrawing | PS5_sp15/src/edu/nyu/pqs/canvas/impl/Canvas.java:289-298 | outside a stroke IllegalStateException; otherwise the stroke closes and END is announced |
| CanvasModel.Canvas.Undo | PS5_sp15/src/edu/nyu/pqs/canvas/impl/Canvas.java:301-310 | the last element and its shapes go and REVERTED is announced; with no elements, false and no event |
| CanvasModel.Canvas.ClearAll | PS5_sp15/src/edu/nyu/pqs/canvas/impl/Canvas.java:313-321 | every element goes; true and CLEARED exactly when there was one |
| CanvasModel.Canvas.AddListener | PS5_sp15/src/edu/nyu/pqs/canvas/impl/Canvas.java:334-340 | null throws; otherwise appended, answering true |
| CanvasModel.Canvas.RemoveListener | PS5_sp15/src/edu/nyu/pqs/canvas/impl/Canvas.java:343-349 | null throws; otherwise the first registration is removed, answering whether there was one |
| CanvasModel.Canvas.NewInstance | PS5_sp15/src/edu/nyu/pqs/canvas/impl/Canvas.java:352-356 | as written: a new empty canvas with default bounds and this canvas's colours and pen, or IllegalArgumentException when the pen is wider than 50 |
| CanvasModel.Canvas.NewInstanceKeepingBounds | PS5_sp15/src/edu/nyu/pqs/canvas/api/ICanvas.java:170-175 | a new, distinct, empty canvas in every case, with this canvas's bounds, colours and pen |
| CanvasModel.Canvas.Iterator | PS5_sp15/src/edu/nyu/pqs/canvas/impl/Canvas.java:198-200 | an iterator whose remaining shapes are every shape of the canvas in drawing order |
| CanvasModel.WidePenDefeatsNewInstance | PS5_sp15/src/edu/nyu/pqs/canvas/impl/Canvas.java:352-356 | a canvas with bounds 1–100 and pen size 60 cannot be copied by newInstance, but can be with its own bounds |
| CanvasModel.FlattenAppend | PS5_sp15/src/edu/nyu/pqs/canvas/impl/Canvas.java:382-419 | appending an element appends its shapes to the iteration |
| CanvasModel.FlattenSkipsEmpty | PS5_sp15/src/edu/nyu/pqs/canvas/impl/Canvas.java:394-405 | elements without shapes contribute nothing to the iteration |
| CanvasModel.DistinctAppend | PS5_sp15/src/edu/nyu/pqs/canvas/impl/Canvas.java:278-279 | a new element keeps the elements distinct and is the last one |
| CanvasModel.CanvasIterator.constructor | PS5_sp15/src/edu/nyu/pqs/canvas/impl/Canvas.java:386-391 | what remains is every shape of every element, in order |
| CanvasModel.CanvasIterator.Advance | PS5_sp15/src/edu/nyu/pqs/canvas/impl/Canvas.java:396-402 | moving past exhausted elements leaves what remains unchanged, and stops with a shape at hand exactly when one remains |
| CanvasModel.CanvasIterator.HasNext | PS5_sp15/src/edu/nyu/pqs/canvas/impl/Canvas.java:394-405 | true exactly when some shape remains |
| CanvasModel.CanvasIterator.Next | PS5_sp15/src/edu/nyu/pqs/canvas/impl/Canvas.java:408-419 | the next shape in drawing order; with none left NoSuchElementException |
| CanvasModel.CanvasIterator.Remove | PS5_sp15/src/edu/nyu/pqs/canvas/impl/Canvas.java:422-424 | always UnsupportedOperationException |
| CanvasElement.CElement.constructor | PS5_sp15/src/edu/nyu/pqs/canvas/impl/CElement.java:17 | a new element holds no shapes |
| CanvasElement.CElement.AddShape | PS5_sp15/src/edu/nyu/pqs/canvas/impl/CElement.java:26-31 | null throws and changes nothing; otherwise appended, answering true |
| CanvasElement.CElement.Iterator | PS5_sp15/src/edu/nyu/pqs/canvas/impl/CElement.java:38-40 | an iterator over the element's shapes from the first |
| CanvasElement.ElementIterator.HasNext | PS5_sp15/src/edu/nyu/pqs/canvas/impl/CElement.java:56-58 | true exactly when some shape remains |
| CanvasElement.ElementIterator.Next | PS5_sp15/src/edu/nyu/pqs/canvas/impl/CElement.java:61-66 | the next shape in insertion order, the index stepping past it; with none left NoSuchElementException and the index kept |
| CanvasElement.ElementIterator.Remove | PS5_sp15/src/edu/nyu/pqs/canvas/impl/CElement.java:69-71 | always UnsupportedOperationException |
| CanvasElement.EmptyElementIterates | PS5_sp15/src/edu/nyu/pqs/canvas/impl/CElement.java:56-66 | an empty element's iterator has no next and throws on next |
| CanvasElement.IteratesInInsertionOrder | PS5_sp15/src/edu/nyu/pqs/canvas/impl/CElement.java:26-66 | two added shapes come back in the order added, then NoSuchElementException |
| CanvasShape.NewCShape | PS5_sp15/src/edu/nyu/pqs/canvas/impl/CShape.java:28-37 | a null pen shape throws NullPointerException; otherwise the getters return the arguments |
| CanvasShape.Equals | PS5_sp15/src/edu/nyu/pqs/canvas/impl/CShape.java:70-83 | no contract of its own: `EqualsIsEquivalence` proves it is the equality of the five fields, an equivalence, false for a foreign object or null |
| CanvasShape.HashCode | PS5_sp15/src/edu/nyu/pqs/canvas/impl/CShape.java:90-98 | no contract of its own: `HashConsistent` and `HashIsPolynomial` prove equal shapes hash alike and give the polynomial |
| CanvasShape.EqualsIsEquivalence | PS5_sp15/src/edu/nyu/pqs/canvas/impl/CShape.java:70-83 | shape equality is exactly equality of the five fields, an equivalence, and never holds for a foreign object or null |
| CanvasShape.HashConsistent | PS5_sp15/src/edu/nyu/pqs/canvas/impl/CShape.java:90-98 | equal shapes have equal hash codes |
| CanvasShape.HashIsPolynomial | PS5_sp15/src/edu/nyu/pqs/canvas/impl/CShape.java:90-98 | the hash is the base-31 polynomial with leading 17, wrapped once at the end |
| Contacts.Builder.constructor | PS1_sp15/src/pqs/cpp270/addressbook/Contact.java:26-31 | every field starts null |
| Contacts.Builder.Name | PS1_sp15/src/pqs/cpp270/addressbook/Contact.java:41-47 | null throws and changes nothing; otherwise only the name is set |
| Contacts.Builder.PostalAddress | PS1_sp15/src/pqs/cpp270/addressbook/Contact.java:57-63 | null throws and changes nothing; otherwise only the address is set |
| Contacts.Builder.PhoneNumber | PS1_sp15/src/pqs/cpp270/addressbook/Contact.java:73-79 | null throws and changes nothing; otherwise only the phone number is set |
| Contacts.Builder.Email | PS1_sp15/src/pqs/cpp270/addressbook/Contact.java:89-95 | null throws and changes nothing; otherwise only the e-mail is set |
| Contacts.Builder.Note | PS1_sp15/src/pqs/cpp270/addressbook/Contact.java:105-111 | null throws and changes nothing; otherwise only the note is set (empty allowed) |
| Contacts.Builder.Build | PS1_sp15/src/pqs/cpp270/addressbook/Contact.java:118-129 | the contact holds the builder's fields |
| Contacts.OnlyNameSet | PS1_sp15/src/pqs/cpp270/addressbook/Contact.java:26-129 | a contact built with only a name has every other field null |
| Contacts.MatchByProperty | PS1_sp15/src/pqs/cpp270/addressbook/Contact.java:181-195 | no contract of its own: `MatchesOwnFields`, `EmptyContactMatchesNothing` and `EqualContactsMatchAlike` prove that a contact matches each field it has, that an empty one matches nothing, and that equal contacts match alike |
| Contacts.MatchesOwnFields | PS1_sp15/src/pqs/cpp270/addressbook/Contact.java:181-195 | a contact matches each field it has, and never an object of another class |
| Contacts.EmptyContactMatchesNothing | PS1_sp15/src/pqs/cpp270/addressbook/Contact.java:181-195 | a contact with no field set matches nothing |
| Contacts.Equals | PS1_sp15/src/pqs/cpp270/addressbook/Contact.java:205-220 | no contract of its own: `EqualsIsEquivalence` proves it is field equality with e-mails compared by whole address, an equivalence, false for a foreign object or null |
| Contacts.HashCode | PS1_sp15/src/pqs/cpp270/addressbook/Contact.java:229-237 | no contract of its own: `HashConsistent` proves equal contacts hash alike |
| Contacts.EqualsIsEquivalence | PS1_sp15/src/pqs/cpp270/addressbook/Contact.java:205-220 | contact equality is an equivalence, field equality except that e-mails compare by whole address, and never holds for a foreign object or null |
| Contacts.HashConsistent | PS1_sp15/src/pqs/cpp270/addressbook/Contact.java:229-237 | equal contacts have equal hash codes |
| Contacts.EqualContactsMatchAlike | PS1_sp15/src/pqs/cpp270/addressbook/Contact.java:181-220 | equal contacts match exactly the same properties |
| Contacts.ToString | PS1_sp15/src/pqs/cpp270/addressbook/Contact.java:253-264 | the result is trimmed |
| Contacts.ToStringLayout | PS1_sp15/src/pqs/cpp270/addressbook/Contact.java:253-264 | the name's text, then a line break and the text of each present field among address, phone and e-mail, trimmed; the note never appears and an empty contact prints "" |
| Names.NewName | PS1_sp15/src/pqs/cpp270/addressbook/Name.java:30-42 | a null part throws NullPointerException; otherwise each part is stored trimmed |
| Names.ConstructedIsWellFormed | PS1_sp15/src/pqs/cpp270/addressbook/Name.java:30-42 | a constructed name's parts are trimmed, and rebuilding it from its parts gives it back |
| Names.Equals | PS1_sp15/src/pqs/cpp270/addressbook/Name.java:82-93 | no contract of its own: `EqualsIffSameParts` proves it is equality of the three parts, false for a foreign object or null |
| Names.HashCode | PS1_sp15/src/pqs/cpp270/addressbook/Name.java:102-108 | no contract of its own: `HashConsistent` proves equal names hash alike |
| Names.ToString | PS1_sp15/src/pqs/cpp270/addressbook/Name.java:119-121 | the result is trimmed; `ToStringKeepsInnerSpaces` and `EmptyNamePrintsEmpty` give its layout |
| Names.EqualsIffSameParts | PS1_sp15/src/pqs/cpp270/addressbook/Name.java:82-93 | name equality is equality of the three parts, symmetric, and never holds for a foreign object or null |
| Names.HashConsistent | PS1_sp15/src/pqs/cpp270/addressbook/Name.java:102-108 | equal names have equal hash codes |
| Names.ToStringKeepsInnerSpaces | PS1_sp15/src/pqs/cpp270/addressbook/Name.java:119-121 | with first and last parts present the result is the parts joined by spaces, so an empty middle name leaves two spaces |
| Names.EmptyNamePrintsEmpty | PS1_sp15/src/pqs/cpp270/addressbook/Name.java:119-121 | an all-empty name prints as "" |
| PhoneNumbers.NewPhoneNumber | PS1_sp15/src/pqs/cpp270/addressbook/PhoneNumber.java:30-51 | accepted exactly for parts 0–999, 0–999 and 0–9999; otherwise IllegalArgumentException; the getters return the arguments |
| PhoneNumbers.Equals | PS1_sp15/src/pqs/cpp270/addressbook/PhoneNumber.java:88-97 | no contract of its own: `EqualsIffSameParts` proves it is equality of the three parts, false for a foreign object or null |
| PhoneNumbers.HashCode | PS1_sp15/src/pqs/cpp270/addressbook/PhoneNumber.java:106-112 | no contract of its own: `HashIsPolynomial` and `HashConsistent` give its value and prove equal numbers hash alike |
| PhoneNumbers.ToString | PS1_sp15/src/pqs/cpp270/addressbook/PhoneNumber.java:123-125 | no contract of its own: `ToStringReadsBack` and `ToStringInjective` prove the fourteen-character layout reads back to the parts |
| PhoneNumbers.EqualsIffSameParts | PS1_sp15/src/pqs/cpp270/addressbook/PhoneNumber.java:88-97 | equality is equality of the three parts, symmetric, and never holds for a foreign object or null |
| PhoneNumbers.HashIsPolynomial | PS1_sp15/src/pqs/cpp270/addressbook/PhoneNumber.java:106-112 | no step wraps: the hash is exactly ((17 × 31 + area) × 31 + prefix) × 31 + line |
| PhoneNumbers.HashConsistent | PS1_sp15/src/pqs/cpp270/addressbook/PhoneNumber.java:106-112 | equal numbers have equal hash codes |
| PhoneNumbers.ZeroPaddedValue | PS1_sp15/src/pqs/cpp270/addressbook/PhoneNumber.java:123-125 | reading zero-padded digits back gives the number |
| PhoneNumbers.ToStringReadsBack | PS1_sp15/src/pqs/cpp270/addressbook/PhoneNumber.java:123-125 | "(AAA) YYY-ZZZZ": fourteen characters, punctuation in place, and the digit groups read back to the parts |
| PhoneNumbers.ToStringInjective | PS1_sp15/src/pqs/cpp270/addressbook/PhoneNumber.java:123-125 | distinct numbers print differently |
| EmailAddresses.NewEmailAddress | PS1_sp15/src/pqs/cpp270/addressbook/EmailAddress.java:30-46 | null throws NullPointerException; unless the split gives exactly two non-blank pieces IllegalArgumentException; otherwise the parts are the trimmed pieces and the address the trimmed input |
| EmailAddresses.AcceptedShape | PS1_sp15/src/pqs/cpp270/addressbook/EmailAddress.java:30-46 | a non-blank local part, "@", a non-blank domain and any number of trailing "@" is accepted, with those parts |
| EmailAddresses.AcceptedHasShape | PS1_sp15/src/pqs/cpp270/addressbook/EmailAddress.java:30-46 | conversely every accepted input is its two pieces around one "@", then only "@"s |
| EmailAddresses.RejectsMissingDomain | PS1_sp15/src/pqs/cpp270/addressbook/EmailAddress.java:35-41 | "a@" is refused |
| EmailAddresses.RejectsMissingLocal | PS1_sp15/src/pqs/cpp270/addressbook/EmailAddress.java:35-41 | "@b" is refused |
| EmailAddresses.RejectsThreePieces | PS1_sp15/src/pqs/cpp270/addressbook/EmailAddress.java:35-41 | "a@b@c" is refused |
| EmailAddresses.AcceptsTrailingAt | PS1_sp15/src/pqs/cpp270/addressbook/EmailAddress.java:35-45 | "a@b@" is accepted, keeping its last "@" in the whole address |
| EmailAddresses.NewEmailFromParts | PS1_sp15/src/pqs/cpp270/addressbook/EmailAddress.java:62-76 | a null part throws NullPointerException, a blank part IllegalArgumentException; otherwise the parts are kept untrimmed and joined by "@" |
| EmailAddresses.Equals | PS1_sp15/src/pqs/cpp270/addressbook/EmailAddress.java:113-122 | no contract of its own: `EqualsOnlyByAddress` proves it compares the whole addresses only, false for a foreign object or null |
| EmailAddresses.HashCode | PS1_sp15/src/pqs/cpp270/addressbook/EmailAddress.java:130-132 | no contract of its own: `EqualsOnlyByAddress` proves equal addresses hash alike |
| EmailAddresses.ToString | PS1_sp15/src/pqs/cpp270/addressbook/EmailAddress.java:142-144 | no contract of its own: `ToStringParsesBack` proves the printed address parses back to an equal one |
| EmailAddresses.EqualsOnlyByAddress | PS1_sp15/src/pqs/cpp270/addressbook/EmailAddress.java:113-132 | equal exactly when the whole addresses are equal; symmetric; equal addresses hash alike; never equal to a foreign object or null |
| EmailAddresses.EqualWithDifferentParts | PS1_sp15/src/pqs/cpp270/addressbook/EmailAddress.java:62-122 | two addresses built from different parts can be equal |
| EmailAddresses.ToStringParsesBack | PS1_sp15/src/pqs/cpp270/addressbook/EmailAddress.java:30-144 | an address built from trimmed parts without "@" prints as a string that parses back to an equal address with the same parts |
| PostalAddresses.Builder.constructor | PS1_sp15/src/pqs/cpp270/addressbook/PostalAddress.java:28-35 | every field starts as "" |
| PostalAddresses.Builder.City | PS1_sp15/src/pqs/cpp270/addressbook/PostalAddress.java:45-51 | null throws and changes nothing; otherwise only the city is set |
| PostalAddresses.Builder.Country | PS1_sp15/src/pqs/cpp270/addressbook/PostalAddress.java:61-67 | null throws and changes nothing; otherwise only the country is set |
| PostalAddresses.Builder.PostalCode | PS1_sp15/src/pqs/cpp270/addressbook/PostalAddress.java:77-83 | null throws and changes nothing; otherwise only the postal code is set |
| PostalAddresses.Builder.StateOrProvince | PS1_sp15/src/pqs/cpp270/addressbook/PostalAddress.java:94-100 | null throws and changes nothing; otherwise only the state is set |
| PostalAddresses.Builder.Street | PS1_sp15/src/pqs/cpp270/addressbook/PostalAddress.java:110-116 | null throws and changes nothing; otherwise only the street is set |
| PostalAddresses.Builder.StreetNumber | PS1_sp15/src/pqs/cpp270/addressbook/PostalAddress.java:126-132 | null throws and changes nothing; otherwise only the street number is set |
| PostalAddresses.Builder.ApartmentNumber | PS1_sp15/src/pqs/cpp270/addressbook/PostalAddress.java:143-149 | null throws and changes nothing; otherwise only the apartment is set |
| PostalAddresses.Builder.Build | PS1_sp15/src/pqs/cpp270/addressbook/PostalAddress.java:156-169 | the address holds the builder's seven fields |
| PostalAddresses.UnsetFieldsAreEmpty | PS1_sp15/src/pqs/cpp270/addressbook/PostalAddress.java:28-35 | an address built with no setter called has all seven fields "" |
| PostalAddresses.Equals | PS1_sp15/src/pqs/cpp270/addressbook/PostalAddress.java:242-257 | no contract of its own: `EqualsIffSameFields` proves it is equality of all seven fields, false for a foreign object or null |
| PostalAddresses.HashCode | PS1_sp15/src/pqs/cpp270/addressbook/PostalAddress.java:266-276 | no contract of its own: `HashConsistent` proves equal addresses hash alike |
| PostalAddresses.EqualsIffSameFields | PS1_sp15/src/pqs/cpp270/addressbook/PostalAddress.java:242-257 | equality is equality of all seven fields, symmetric, and never holds for a foreign object or null |
| PostalAddresses.HashConsistent | PS1_sp15/src/pqs/cpp270/addressbook/PostalAddress.java:266-276 | equal addresses have equal hash codes |
| PostalAddresses.ToString | PS1_sp15/src/pqs/cpp270/addressbook/PostalAddress.java:290-322 | the result is trimmed |
| PostalAddresses.PatternArgCount | PS1_sp15/src/pqs/cpp270/addressbook/PostalAddress.java:291-320 | the pattern never asks for more arguments than are passed |
| PostalAddresses.FormatStreet | PS1_sp15/src/pqs/cpp270/addressbook/PostalAddress.java:292-297 | the street part fills in to number, street and " apt. " with the apartment when there is one |
| PostalAddresses.FormatCity | PS1_sp15/src/pqs/cpp270/addressbook/PostalAddress.java:299-308 | the city part fills in to city, state, postal code and country from the last four arguments |
| PostalAddresses.LayoutBothGroups | PS1_sp15/src/pqs/cpp270/addressbook/PostalAddress.java:290-322 | with both groups present: street line, line break, city line |
| PostalAddresses.LayoutCityOnly | PS1_sp15/src/pqs/cpp270/addressbook/PostalAddress.java:299-308 | with only the city group: a space (from two empty fields) and the city line |
| PostalAddresses.LayoutStreetOnly | PS1_sp15/src/pqs/cpp270/addressbook/PostalAddress.java:292-297 | with only the street group: the street line |
| PostalAddresses.ToStringLayout | PS1_sp15/src/pqs/cpp270/addressbook/PostalAddress.java:290-322 | the street line, a line break only between two non-empty groups, and the city line, trimmed |
| PostalAddresses.EmptyAddressPrintsEmpty | PS1_sp15/src/pqs/cpp270/addressbook/PostalAddress.java:310-312 | the all-empty address prints as "" |
| AddressBooks.FirstWhere | PS1_sp15/src/pqs/cpp270/addressbook/AddressBook.java:106-117 | the index of the first element passing the test, or the length; every element before it fails |
| AddressBooks.Without | PS1_sp15/src/pqs/cpp270/addressbook/AddressBook.java:87-95 | what is kept is exactly the elements not equal to the contact |
| AddressBooks.WithoutIdempotent | PS1_sp15/src/pqs/cpp270/addressbook/AddressBook.java:87-95 | deleting twice leaves what deleting once leaves |
| AddressBooks.RemoveFirstKeepsWithout | PS1_sp15/src/pqs/cpp270/addressbook/AddressBook.java:91 | one successful `remove` does not change what remains once every equal contact is gone |
| AddressBooks.WithoutNoMatch | PS1_sp15/src/pqs/cpp270/addressbook/AddressBook.java:91 | a list with no equal contact is left as it is |
| AddressBooks.DeleteAfterAdd | PS1_sp15/src/pqs/cpp270/addressbook/AddressBook.java:69-95 | deleting after adding removes the added contact when it is equal, and keeps it at the end otherwise |
| AddressBooks.AddressBook.constructor | PS1_sp15/src/pqs/cpp270/addressbook/AddressBook.java:21 | a new book is empty |
| AddressBooks.AddressBook.AddContact | PS1_sp15/src/pqs/cpp270/addressbook/AddressBook.java:69-76 | null throws and changes nothing; otherwise the contact is appended (duplicates too), answering true |
| AddressBooks.AddressBook.RemoveFirstEqual | PS1_sp15/src/pqs/cpp270/addressbook/AddressBook.java:91 | `List.remove`: the first equal contact is dropped, answering whether there was one |
| AddressBooks.AddressBook.DeleteContact | PS1_sp15/src/pqs/cpp270/addressbook/AddressBook.java:87-95 | null throws and changes nothing; otherwise the loop leaves exactly the contacts not equal to the argument, in order, answering true |
| AddressBooks.AddressBook.SearchByContactProperty | PS1_sp15/src/pqs/cpp270/addressbook/AddressBook.java:106-117 | null throws; otherwise the first matching contact in insertion order, or null exactly when none matches |
| AddressBooks.DuplicatesDeletedTogether | PS1_sp15/src/pqs/cpp270/addressbook/AddressBook.java:87-95 | a contact added twice around another is gone after one delete, and the other stays |
| Stopwatches.TimeSpanInMilliseconds | PS2_sp15/src/edu/nyu/pqs/stopwatch/impl/SimpleStopwatch.java:158-160 | no contract of its own: `TimeSpanBounds` proves it is the nanosecond span truncated toward zero to milliseconds |
| Stopwatches.TimeSpanBounds | PS2_sp15/src/edu/nyu/pqs/stopwatch/impl/SimpleStopwatch.java:158-160 | the span in milliseconds: a forward span rounded down to whole milliseconds, and a backward one never positive |
| Stopwatches.LapTimes | PS2_sp15/src/edu/nyu/pqs/stopwatch/impl/SimpleStopwatch.java:169-214 | one lap time per lap instant |
| Stopwatches.SpansFrom | PS2_sp15/src/edu/nyu/pqs/stopwatch/impl/SimpleStopwatch.java:194-208 | one lap time per remaining lap instant |
| Stopwatches.SpansNonNegative | PS2_sp15/src/edu/nyu/pqs/stopwatch/impl/SimpleStopwatch.java:194-208 | with ordered instants and the first not before the start, no lap time is negative |
| Stopwatches.SpansAfterLastStart | PS2_sp15/src/edu/nyu/pqs/stopwatch/impl/SimpleStopwatch.java:194-208 | once the start instants are used up, each lap runs from the previous lap instant to its own |
| Stopwatches.SingleRunLapTimes | PS2_sp15/src/edu/nyu/pqs/stopwatch/impl/SimpleStopwatch.java:169-214 | in a single run lap k spans from lap instant k − 1 (the start for the first) to lap instant k |
| Stopwatches.SimpleStopwatch.constructor | PS2_sp15/src/edu/nyu/pqs/stopwatch/impl/SimpleStopwatch.java:48-55 | a new watch is stopped, has recorded nothing and keeps its id |
| Stopwatches.SimpleStopwatch.GetId | PS2_sp15/src/edu/nyu/pqs/stopwatch/impl/SimpleStopwatch.java:63-65 | the id is never empty |
| Stopwatches.SimpleStopwatch.Start | PS2_sp15/src/edu/nyu/pqs/stopwatch/impl/SimpleStopwatch.java:73-88 | on a running watch IllegalStateException with nothing changed; otherwise the watch runs and the instant is recorded as a start |
| Stopwatches.SimpleStopwatch.Lap | PS2_sp15/src/edu/nyu/pqs/stopwatch/impl/SimpleStopwatch.java:98-109 | on a stopped watch IllegalStateException with nothing changed; otherwise the instant is recorded as a lap |
| Stopwatches.SimpleStopwatch.Stop | PS2_sp15/src/edu/nyu/pqs/stopwatch/impl/SimpleStopwatch.java:119-131 | on a stopped watch IllegalStateException with nothing changed; otherwise a final lap instant is recorded and the watch stops |
| Stopwatches.SimpleStopwatch.Reset | PS2_sp15/src/edu/nyu/pqs/stopwatch/impl/SimpleStopwatch.java:139-145 | in any state every instant is forgotten and the watch stops |
| Stopwatches.ComputeLapTimes | PS2_sp15/src/edu/nyu/pqs/stopwatch/impl/SimpleStopwatch.java:186-212 | overwriting the copy of the lap instants slot by slot, each lap measured from the previous instant or from a start instant falling in between, yields `LapTimes` |
| Stopwatches.SimpleStopwatch.GetLapTimes | PS2_sp15/src/edu/nyu/pqs/stopwatch/impl/SimpleStopwatch.java:169-214 | one lap time per recorded lap instant, namely `LapTimes` of the recorded instants; the watch is only read |
| Stopwatches.NewSimpleStopwatch | PS2_sp15/src/edu/nyu/pqs/stopwatch/impl/SimpleStopwatch.java:48-55 | a null or empty id throws IllegalArgumentException; otherwise a new, stopped, empty watch with that id |
| Stopwatches.SimpleStopwatch.Equals | PS2_sp15/src/edu/nyu/pqs/stopwatch/impl/SimpleStopwatch.java:224-233 | no contract of its own: `EqualsById` proves it is an equivalence on ids, false for a foreign object or null |
| Stopwatches.SimpleStopwatch.HashCode | PS2_sp15/src/edu/nyu/pqs/stopwatch/impl/SimpleStopwatch.java:242-244 | no contract of its own: `EqualsById` proves equal watches hash alike |
| Stopwatches.EqualsById | PS2_sp15/src/edu/nyu/pqs/stopwatch/impl/SimpleStopwatch.java:224-244 | stopwatch equality is an equivalence on ids, and equal watches hash alike |
| Stopwatches.LapTimesNonNegative | PS2_sp15/src/edu/nyu/pqs/stopwatch/impl/SimpleStopwatch.java:169-214 | lap times recorded through the watch's operations are never negative |
| Stopwatches.PauseNotCounted | PS2_sp15/src/edu/nyu/pqs/stopwatch/impl/SimpleStopwatch.java:194-208 | start, lap, stop, start, stop: the second run's lap is measured from its own start, so the pause is not counted, when the restart comes strictly after the stop |
| Stopwatches.RestartAtStopLapTimes | PS2_sp15/src/edu/nyu/pqs/stopwatch/impl/SimpleStopwatch.java:194-208 | a start instant equal to a lap instant is taken as that lap's beginning, so that lap reads 0 |
| Stopwatches.RestartAtStopInstant | PS2_sp15/src/edu/nyu/pqs/stopwatch/impl/SimpleStopwatch.java:194-208 | start, lap, stop, then a restart at the stop's own instant: the stopping lap reads 0 instead of its span |
| Stopwatches.LapAtRestartInstant | PS2_sp15/src/edu/nyu/pqs/stopwatch/impl/SimpleStopwatch.java:194-208 | start, stop, then a restart and a lap at one instant: the same recorded instants and the same lap times, which are right for this history |
| Java.Trim | PS1_sp15/src/pqs/cpp270/addressbook/Name.java:39-41 | the result neither begins nor ends with a character up to U+0020, is what follows the leading ones, and everything after it is trimmable |
| Java.TrimIdempotent | PS1_sp15/src/pqs/cpp270/addressbook/Name.java:39-41 | trimming twice equals trimming once |
| Java.TruncDiv | PS2_sp15/src/edu/nyu/pqs/stopwatch/impl/SimpleStopwatch.java:158-160 | the quotient truncated toward zero |
| Java.HashStepExact | PS1_sp15/src/pqs/cpp270/addressbook/Contact.java:229-237 | wrapping after every hash step equals wrapping the exact polynomial once |

## Left out

- The Swing front ends and entry points are not part of this model: GameView, BoardPanel, CanvasView, SurfacePanel, ConnectFourApp and CanvasApp.
- The PS3 test classes and the JUnit tests are not modelled; they are not part of the libraries.
- The board is a singleton in the source (`GameBoard.getInstance`), shared by every game and AI player. Here each game gets its own fresh board, so interference between two games through the shared board is not modelled.
- `getRows`/`getColumns` are the constants ROWS and COLUMNS.
- `toString` of SimpleAIPlayer, GameBoard's enums, Canvas, CShape and SimpleStopwatch is left out, as is `getAIType`'s and the enums' presentation. These are presentation strings the source marks as unspecified. The `toString` of Contact, Name, PhoneNumber, PostalAddress and EmailAddress is modelled.
- Hash codes that the JDK computes are function parameters: `String.hashCode`, enum `hashCode`, and the board's identity hash. So the model proves only their consistency with `equals` and the arithmetic around them.
- Listeners are identities, and the model records which listener was told what.
  - What a listener does with a notification is foreign code and is not modelled.
  - `gameUpdate` passes the live board; the log records a snapshot of its marks.
- `AddressBook.saveToFile` and `loadFromFile` (Java serialization to files) are file I/O and are not modelled.
- StopwatchFactory is not part of this model. The stopwatch constructor's checks are modelled by `Stopwatches.NewSimpleStopwatch`.
- `System.nanoTime` becomes the `now` argument of `start`, `lap` and `stop`. Java `long` overflow of the instants and spans is not modelled, and neither are the lock and the concurrency it guards.
- Stopwatches.SimpleStopwatch.Start: requires the clock not to go backwards (`NotBefore(now)`). This is what `System.nanoTime` guarantees within one thread, so the model does not cover instants passed out of order.
- Stopwatches.SimpleStopwatch.Lap: requires the same monotone clock as `Start`.
- Stopwatches.SimpleStopwatch.Stop: requires the same monotone clock as `Start`.
- Stopwatches.SimpleStopwatch.GetLapTimes: `Collections.sort` of the copy is the identity here. This follows from the monotone clock, which keeps the lap instants in order; the out-of-order arrival the sort guards against is a concurrency effect.
- `SimpleStopwatch.equals` accepts any `IStopwatch`. The model compares only with SimpleStopwatch, the one implementation.
- `%n` is fixed to a line feed rather than the platform's line separator.
- PhoneNumber's casts to `short` are not written out, because every accepted part fits a `short` unchanged.
- CanvasModel.CanvasIterator and CanvasElement.ElementIterator do not model the fail-fast checks of the `ArrayList` iterators the source wraps. The canvas iterator keeps a snapshot of the element list taken when it was made, and reads each element's shape list as it is at every call, through an index into it; it walks the snapshot to the end in every case. In the source, the shape iterator's `hasNext` compares its cursor with the live size, and its `next` throws ConcurrentModificationException once the element's shape list has grown since the iterator was made, so the model returns a shape drawn into the element being walked where the source throws. The source's canvas iterator throws ConcurrentModificationException, from `hasNext` as well as from `next`, as soon as it must step to another element after the element list has changed (`undo`, `clearAll` or `beginDrawing`); it ends normally only when the changes removed exactly the elements not yet reached, so that its cursor equals the new size. In both cases the model keeps returning the snapshot's shapes.
- The stopwatch keeps only start and lap instants, as the source does, so a restart at the very instant of a stop cannot be told from a restart followed by a lap at one instant. `Stopwatches.RestartAtStopInstant` and `Stopwatches.LapAtRestartInstant` show that both histories get the same lap times, which are right only for the second.
- Connect Four's BoardIterator, like the source, does no bounds check: `next` past the end is the array's out-of-bounds exception.

## Findings

| source | as written | input that shows it | evidently intended | confidence | as-written member | corrected member |
|---|---|---|---|---|---|---|
| PS4_sp15/src/edu/nyu/pqs/connectfour/impl/ConnectFour.java:224 | `column < 0 && column >= COLUMNS`, which no column satisfies, so the guard never throws | column −1 passes the guard | `column < 0 \|\| column >= COLUMNS`, as the method's documentation says | high; not executed. There is no visible effect, because the board's own check at GameBoard.java:70 throws the same exception before anything changes | ConnectFourGame.ColumnCheckMissesNegative | ConnectFourGame.ConnectFour.DropChecker |
| PS5_sp15/src/edu/nyu/pqs/canvas/impl/Canvas.java:352-356 | `newInstance` copies the pen size but builds with the default pen-size bounds 1–50 | a canvas with maximum 100 and pen size 60: `newInstance` throws IllegalArgumentException | a new, distinct canvas in every case (ICanvas.java:170-175), keeping this canvas's bounds | medium; not executed | CanvasModel.WidePenDefeatsNewInstance | CanvasModel.Canvas.NewInstanceKeepingBounds |
