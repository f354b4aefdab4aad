/**
 * What the simple AI computes, stated on a snapshot of the board: the legal
 * cells, the "d-1 of one player plus one empty cell" threats it looks for,
 * the search over all windows at one depth, and the move it finally picks.
 */
module Strategy {
  import opened ConnectFourTypes
  import opened Windows

  /** A cell a checker can go into: `EMPTY`, and on the bottom row or above a non-`EMPTY` cell. */
  predicate IsLegal(g: Grid, p: Pos)
    requires IsGrid(g) && InBounds(p)
  {
    At(g, p) == Empty && (p.row != ROWS - 1 ==> g[p.row + 1][p.col] != Empty)
  }

  /** On a stacked board the legal cells are exactly the columns' first free cells. */
  lemma LegalIsCursor(g: Grid, cursor: seq<int>, p: Pos)
    requires Stacked(g, cursor) && InBounds(p)
    ensures IsLegal(g, p) <==> p.row == cursor[p.col]
  {
  }

  /**
   * At depth `d` the window `w` is a threat for `x` at `v`: among its cells
   * `0..d-1` the one at `v` is `EMPTY` and every other holds `x`.
   */
  predicate Threat(g: Grid, w: Window, d: int, x: CellValue, v: int)
    requires IsGrid(g) && Anchored(w) && 0 <= d <= 4
  {
    0 <= v < d && At(g, CellAt(w, v)) == Empty
    && forall u :: 0 <= u < d && u != v ==> At(g, CellAt(w, u)) == x
  }

  /** What one window proposes at one depth: nothing, or a player and the `val` of the cell to take. */
  datatype Vote = NoVote | Vote(player: CellValue, val: int)

  /**
   * The decision after the `val` loop: the `PLAYER_TWO` test first, then the
   * `PLAYER_ONE` test, each needing `d-1` of that player's cells, a recorded
   * `EMPTY` cell, and that cell legal.
   */
  function VoteOf(g: Grid, w: Window, d: int): Vote
    requires IsGrid(g) && Anchored(w) && 2 <= d <= 4
  {
    var t := TallyOf(g, w, Order(w.orientation, d));
    if t.twos == d - 1 && t.empty != -1 then
      (if IsLegal(g, CellAt(w, t.empty)) then Vote(PlayerTwo, t.empty) else NoVote)
    else if t.ones == d - 1 && t.empty != -1 then
      (if IsLegal(g, CellAt(w, t.empty)) then Vote(PlayerOne, t.empty) else NoVote)
    else NoVote
  }

  /** A vote names one of the cells examined at its depth. */
  lemma VoteInRange(g: Grid, w: Window, d: int)
    requires IsGrid(g) && Anchored(w) && 2 <= d <= 4
    ensures VoteOf(g, w, d).Vote? ==> 0 <= VoteOf(g, w, d).val < d
  {
  }

  /** A vote is for a player, at a legal cell that is a threat for that player. */
  lemma VoteSound(g: Grid, w: Window, d: int, x: CellValue, v: int)
    requires IsGrid(g) && Anchored(w) && 2 <= d <= 4 && VoteOf(g, w, d) == Vote(x, v)
    ensures IsPlayerMark(x) && Threat(g, w, d, x, v) && IsLegal(g, CellAt(w, v))
  {
    var vals := Order(w.orientation, d);
    var t := TallyOf(g, w, vals);
    assert t.empty == v && IsLegal(g, CellAt(w, v)) && IsPlayerMark(x);
    assert (if x == PlayerTwo then t.twos else t.ones) == d - 1;
    TallyCounts(g, w, vals);
    var j :| 0 <= j < d && vals[j] == v && At(g, CellAt(w, vals[j])) == Empty;
    CountAllButOne(g, w, vals, x, j);
    forall u | 0 <= u < d && u != v
      ensures At(g, CellAt(w, u)) == x
    {
      var i := OrderCovers(w.orientation, d, u);
    }
  }

  /** A legal threat for a player is voted for, at its empty cell. */
  lemma VoteComplete(g: Grid, w: Window, d: int, x: CellValue, v: int)
    requires IsGrid(g) && Anchored(w) && 2 <= d <= 4
    requires IsPlayerMark(x) && Threat(g, w, d, x, v) && IsLegal(g, CellAt(w, v))
    ensures VoteOf(g, w, d) == Vote(x, v)
  {
    var vals := Order(w.orientation, d);
    var t := TallyOf(g, w, vals);
    TallyCounts(g, w, vals);
    var j := OrderCovers(w.orientation, d, v);
    forall i | 0 <= i < d && i != j
      ensures At(g, CellAt(w, vals[i])) == x
    {
    }
    CountAllButOne(g, w, vals, x, j);
    var y := if x == PlayerOne then PlayerTwo else PlayerOne;
    CountNone(g, w, vals, y);
    assert t.empty != -1;
    var j' :| 0 <= j' < d && vals[j'] == t.empty && At(g, CellAt(w, vals[j'])) == Empty;
    assert j' == j;
  }

  /**
   * A window votes for `x` at `v` exactly when it is a threat for the player
   * `x` at `v` and that cell is legal.
   */
  lemma VoteIff(g: Grid, w: Window, d: int, x: CellValue, v: int)
    requires IsGrid(g) && Anchored(w) && 2 <= d <= 4
    ensures VoteOf(g, w, d) == Vote(x, v) <==> IsPlayerMark(x) && Threat(g, w, d, x, v) && IsLegal(g, CellAt(w, v))
  {
    if VoteOf(g, w, d) == Vote(x, v) {
      VoteSound(g, w, d, x, v);
    }
    if IsPlayerMark(x) && Threat(g, w, d, x, v) && IsLegal(g, CellAt(w, v)) {
      VoteComplete(g, w, d, x, v);
    }
  }

  /** What the search loop takes from one window: nothing, or a player and a column. */
  datatype Proposal = Pass | Propose(player: CellValue, col: int)

  /** The proposal of window `w` at depth `d`: the column of the cell it votes for. */
  function ProposalOf(g: Grid, w: Window, d: int): (p: Proposal)
    requires IsGrid(g) && Anchored(w) && 2 <= d <= 4
    ensures p.Propose? ==> 0 <= p.col < COLUMNS
  {
    VoteInRange(g, w, d);
    match VoteOf(g, w, d)
    case NoVote => Pass
    case Vote(x, v) => Propose(x, CellAt(w, v).col)
  }

  /** The proposals of all windows at depth `d`, in scan order. */
  function Proposals(g: Grid, d: int): (ps: seq<Proposal>)
    requires IsGrid(g) && 2 <= d <= 4
    ensures |ps| == WINDOW_COUNT
    ensures forall k :: 0 <= k < WINDOW_COUNT ==> ps[k] == ProposalOf(g, WindowAt(k), d)
  {
    seq(WINDOW_COUNT, k requires 0 <= k < WINDOW_COUNT => ProposalOf(g, WindowAt(k), d))
  }

  /**
   * The search of one depth over the proposals in scan order, carrying the
   * defensive move found so far: a proposal for `mark` returns its column at
   * once; any other proposal becomes the new defensive move.
   */
  function Pick(ps: seq<Proposal>, mark: CellValue, defensive: int): int
  {
    if ps == [] then defensive
    else match ps[0]
      case Pass => Pick(ps[1..], mark, defensive)
      case Propose(x, c) => if x == mark then c else Pick(ps[1..], mark, c)
  }

  predicate IsOwn(p: Proposal, mark: CellValue)
  {
    p.Propose? && p.player == mark
  }

  /** The column of the last proposal, read from the end, or `defensive` when there is none. */
  function LastProposed(ps: seq<Proposal>, defensive: int): int
  {
    if ps == [] then defensive
    else if ps[|ps| - 1].Propose? then ps[|ps| - 1].col
    else LastProposed(ps[..|ps| - 1], defensive)
  }

  lemma {:induction false} LastProposedCons(p: Proposal, rest: seq<Proposal>, defensive: int)
    ensures LastProposed([p] + rest, defensive) == LastProposed(rest, if p.Propose? then p.col else defensive)
  {
    var ps := [p] + rest;
    if rest != [] {
      assert ps[|ps| - 1] == rest[|rest| - 1];
      if !rest[|rest| - 1].Propose? {
        assert ps[..|ps| - 1] == [p] + rest[..|rest| - 1];
        LastProposedCons(p, rest[..|rest| - 1], defensive);
      }
    }
  }

  /** Within a depth, the first proposal for the AI's own mark decides. */
  lemma {:induction false} PickOwnFirst(ps: seq<Proposal>, mark: CellValue, defensive: int, i: int)
    requires 0 <= i < |ps| && IsOwn(ps[i], mark)
    requires forall j :: 0 <= j < i ==> !IsOwn(ps[j], mark)
    ensures Pick(ps, mark, defensive) == ps[i].col
  {
    if i > 0 {
      assert !IsOwn(ps[0], mark);
      assert forall j :: 0 <= j < i - 1 ==> ps[1..][j] == ps[j + 1];
      PickOwnFirst(ps[1..], mark, if ps[0].Propose? then ps[0].col else defensive, i - 1);
    }
  }

  /** Within a depth with no proposal for the AI's own mark, the last proposal decides. */
  lemma {:induction false} PickNoOwn(ps: seq<Proposal>, mark: CellValue, defensive: int)
    requires forall j :: 0 <= j < |ps| ==> !IsOwn(ps[j], mark)
    ensures Pick(ps, mark, defensive) == LastProposed(ps, defensive)
  {
    if ps != [] {
      assert !IsOwn(ps[0], mark);
      var def' := if ps[0].Propose? then ps[0].col else defensive;
      assert forall j :: 0 <= j < |ps| - 1 ==> ps[1..][j] == ps[j + 1];
      PickNoOwn(ps[1..], mark, def');
      assert ps == [ps[0]] + ps[1..];
      LastProposedCons(ps[0], ps[1..], defensive);
    }
  }

  /** The search returns the incoming defensive move or the column of some proposal. */
  lemma {:induction false} PickProposes(ps: seq<Proposal>, mark: CellValue, defensive: int)
    ensures Pick(ps, mark, defensive) == defensive
         || exists i :: 0 <= i < |ps| && ps[i].Propose? && Pick(ps, mark, defensive) == ps[i].col
  {
    if ps != [] && !IsOwn(ps[0], mark) {
      var def' := if ps[0].Propose? then ps[0].col else defensive;
      PickProposes(ps[1..], mark, def');
      if Pick(ps[1..], mark, def') != def' {
        var i :| 0 <= i < |ps[1..]| && ps[1..][i].Propose? && Pick(ps[1..], mark, def') == ps[1..][i].col;
        assert ps[1..][i] == ps[i + 1];
      }
    }
  }

  /** When there is a proposal, the last one read from the end is found. */
  lemma {:induction false} LastProposedFound(ps: seq<Proposal>, defensive: int, k: int)
    requires 0 <= k < |ps| && ps[k].Propose?
    ensures exists i :: 0 <= i < |ps| && ps[i].Propose? && LastProposed(ps, defensive) == ps[i].col
  {
    if !ps[|ps| - 1].Propose? {
      assert k < |ps| - 1 && ps[..|ps| - 1][k] == ps[k];
      LastProposedFound(ps[..|ps| - 1], defensive, k);
      var i :| 0 <= i < |ps| - 1 && ps[..|ps| - 1][i].Propose? && LastProposed(ps[..|ps| - 1], defensive) == ps[..|ps| - 1][i].col;
      assert ps[..|ps| - 1][i] == ps[i];
    }
  }

  /** The index of the first proposal for `mark`. */
  lemma FirstOwn(ps: seq<Proposal>, mark: CellValue) returns (i: int)
    requires exists j :: 0 <= j < |ps| && IsOwn(ps[j], mark)
    ensures 0 <= i < |ps| && IsOwn(ps[i], mark)
    ensures forall j :: 0 <= j < i ==> !IsOwn(ps[j], mark)
  {
    i := 0;
    while !IsOwn(ps[i], mark)
      invariant 0 <= i < |ps|
      invariant forall j :: 0 <= j < i ==> !IsOwn(ps[j], mark)
      invariant exists j :: i <= j < |ps| && IsOwn(ps[j], mark)
      decreases |ps| - i
    {
      i := i + 1;
    }
  }

  /** The search at depth `d` over the whole board, with no defensive move yet. */
  function DepthMove(g: Grid, d: int, mark: CellValue): int
    requires IsGrid(g) && 2 <= d <= 4
  {
    Pick(Proposals(g, d), mark, -1)
  }

  /** The search resumed at proposal `k`, carrying `defensive`. */
  function PickFrom(ps: seq<Proposal>, k: int, mark: CellValue, defensive: int): int
    requires 0 <= k <= |ps|
  {
    Pick(ps[k..], mark, defensive)
  }

  lemma PickFromStart(ps: seq<Proposal>, mark: CellValue)
    ensures PickFrom(ps, 0, mark, -1) == Pick(ps, mark, -1)
  {
    assert ps[0..] == ps;
  }

  /** One proposal of the resumed search: an own proposal decides, any other proposal becomes the defensive move. */
  lemma PickFromStep(ps: seq<Proposal>, k: int, mark: CellValue, defensive: int)
    requires 0 <= k < |ps|
    ensures PickFrom(ps, k, mark, defensive) ==
      if IsOwn(ps[k], mark) then ps[k].col
      else PickFrom(ps, k + 1, mark, if ps[k].Propose? then ps[k].col else defensive)
  {
    assert ps[k..][0] == ps[k];
    assert ps[k..][1..] == ps[k + 1..];
  }

  lemma PickFromEnd(ps: seq<Proposal>, mark: CellValue, defensive: int)
    ensures PickFrom(ps, |ps|, mark, defensive) == defensive
  {
  }

  /**
   * `ps` holds the proposals of the first `n` windows at depth `d`; stated
   * one window at a time so that a scan can carry it without unfolding it.
   */
  predicate ProposedUpTo(ps: seq<Proposal>, g: Grid, d: int, n: int)
    requires IsGrid(g) && 2 <= d <= 4 && 0 <= n <= WINDOW_COUNT && n <= |ps|
  {
    n == 0 || (ProposedUpTo(ps, g, d, n - 1) && ps[n - 1] == ProposalOf(g, WindowAt(n - 1), d))
  }

  lemma {:induction false} ProposedAt(ps: seq<Proposal>, g: Grid, d: int, n: int, k: int)
    requires IsGrid(g) && 2 <= d <= 4 && 0 <= n <= WINDOW_COUNT && n <= |ps|
    requires ProposedUpTo(ps, g, d, n) && 0 <= k < n
    ensures ps[k] == ProposalOf(g, WindowAt(k), d)
  {
    if k < n - 1 {
      ProposedAt(ps, g, d, n - 1, k);
    }
  }

  lemma {:induction false} ProposalsProposed(g: Grid, d: int, n: int)
    requires IsGrid(g) && 2 <= d <= 4 && 0 <= n <= WINDOW_COUNT
    ensures ProposedUpTo(Proposals(g, d), g, d, n)
  {
    if n > 0 {
      ProposalsProposed(g, d, n - 1);
      ghost var ps := Proposals(g, d);
      assert ps[n - 1] == ProposalOf(g, WindowAt(n - 1), d);
    }
  }

  /** The proposals at depth `d`, handed out with only what a scan needs to know of them. */
  lemma DepthProposals(g: Grid, d: int, mark: CellValue) returns (ps: seq<Proposal>)
    requires IsGrid(g) && 2 <= d <= 4
    ensures |ps| == WINDOW_COUNT && ProposedUpTo(ps, g, d, WINDOW_COUNT)
    ensures Pick(ps, mark, -1) == DepthMove(g, d, mark)
  {
    ps := Proposals(g, d);
    ProposalsProposed(g, d, WINDOW_COUNT);
  }

  /** No window proposes anything at depth `d`. */
  predicate Silent(g: Grid, d: int)
    requires IsGrid(g) && 2 <= d <= 4
  {
    forall k :: 0 <= k < WINDOW_COUNT ==> Proposals(g, d)[k] == Pass
  }

  /** With only non-negative proposed columns, the search from -1 finds nothing exactly when all pass. */
  lemma PickNothingIff(ps: seq<Proposal>, mark: CellValue)
    requires forall i :: 0 <= i < |ps| && ps[i].Propose? ==> ps[i].col >= 0
    ensures Pick(ps, mark, -1) == -1 <==> forall i :: 0 <= i < |ps| ==> ps[i] == Pass
  {
    PickProposes(ps, mark, -1);
    if exists k :: 0 <= k < |ps| && ps[k] != Pass {
      var k :| 0 <= k < |ps| && ps[k] != Pass;
      if forall j :: 0 <= j < |ps| ==> !IsOwn(ps[j], mark) {
        PickNoOwn(ps, mark, -1);
        LastProposedFound(ps, -1, k);
      } else {
        var i := FirstOwn(ps, mark);
        PickOwnFirst(ps, mark, -1, i);
      }
    }
  }

  /** The depth search finds nothing exactly when no window proposes anything. */
  lemma DepthMoveIff(g: Grid, d: int, mark: CellValue)
    requires IsGrid(g) && 2 <= d <= 4
    ensures DepthMove(g, d, mark) == -1 <==> Silent(g, d)
  {
    PickNothingIff(Proposals(g, d), mark);
  }

  /** The depth loop: depth 4 first, then 3, then 2, stopping at the first depth that finds a column. */
  function CandidateFrom(g: Grid, d: int, mark: CellValue): int
    requires IsGrid(g) && 1 <= d <= 4
  {
    if d == 1 then -1
    else
      var c := DepthMove(g, d, mark);
      if c != -1 then c else CandidateFrom(g, d - 1, mark)
  }

  /** The lowest available column from `i` on, or -1 when there is none. */
  function FirstAvailable(cursor: seq<int>, i: int): (c: int)
    requires |cursor| == COLUMNS && 0 <= i <= COLUMNS
    ensures c == -1 || (i <= c < COLUMNS && Available(cursor, c))
    ensures forall j :: i <= j < COLUMNS && (c == -1 || j < c) ==> !Available(cursor, j)
    decreases COLUMNS - i
  {
    if i == COLUMNS then -1
    else if cursor[i] != -1 then i
    else FirstAvailable(cursor, i + 1)
  }

  /**
   * `getNextMove` on a board snapshot `g` with cursors `cursor`: the depth
   * search, else the middle column if it is available, else the lowest
   * available column, else -1.
   */
  function NextMove(g: Grid, cursor: seq<int>, mark: CellValue): int
    requires IsGrid(g) && |cursor| == COLUMNS
  {
    var col := CandidateFrom(g, 4, mark);
    if col == -1 && cursor[COLUMNS / 2] != -1 then COLUMNS / 2
    else if col == -1 then FirstAvailable(cursor, 0)
    else col
  }

  // ----- What the move rule guarantees -----

  /** A legal threat at depth `d` of window `k`, for player `x`. */
  ghost predicate LegalThreat(g: Grid, k: int, d: int, x: CellValue)
    requires IsGrid(g) && 0 <= k < WINDOW_COUNT && 2 <= d <= 4
  {
    exists v :: Threat(g, WindowAt(k), d, x, v) && IsLegal(g, CellAt(WindowAt(k), v))
  }

  /**
   * The AI takes a win: when some window holds three of its marks and a
   * legal empty cell, the move is that cell's column in the first such window.
   */
  lemma TakesWinningMove(g: Grid, cursor: seq<int>, mark: CellValue, k: int, v: int)
    requires IsGrid(g) && |cursor| == COLUMNS && IsPlayerMark(mark) && 0 <= k < WINDOW_COUNT
    requires Threat(g, WindowAt(k), 4, mark, v) && IsLegal(g, CellAt(WindowAt(k), v))
    requires forall j :: 0 <= j < k ==> !LegalThreat(g, j, 4, mark)
    ensures NextMove(g, cursor, mark) == CellAt(WindowAt(k), v).col
  {
    var ps := Proposals(g, 4);
    VoteIff(g, WindowAt(k), 4, mark, v);
    forall j | 0 <= j < k
      ensures !IsOwn(ps[j], mark)
    {
      var vote := VoteOf(g, WindowAt(j), 4);
      assert ps[j] == ProposalOf(g, WindowAt(j), 4);
      if vote.Vote? {
        VoteIff(g, WindowAt(j), 4, mark, vote.val);
        assert !LegalThreat(g, j, 4, mark);
        assert !(Threat(g, WindowAt(j), 4, mark, vote.val) && IsLegal(g, CellAt(WindowAt(j), vote.val)));
        assert vote.player != mark;
      }
    }
    PickOwnFirst(ps, mark, -1, k);
  }

  /** A depth at which no window proposes anything hands over to the next lower depth. */
  lemma SilentDepthSkipped(g: Grid, d: int, mark: CellValue)
    requires IsGrid(g) && 2 <= d <= 4 && Silent(g, d)
    ensures CandidateFrom(g, d, mark) == CandidateFrom(g, d - 1, mark)
  {
    DepthMoveIff(g, d, mark);
  }

  /** The depth loop stops at the first depth from 4 down at which some window proposes a move. */
  lemma CandidateAtFirstProposing(g: Grid, mark: CellValue, d: int)
    requires IsGrid(g) && 2 <= d <= 4
    requires (d < 4 ==> Silent(g, 4)) && (d < 3 ==> Silent(g, 3))
    requires !Silent(g, d)
    ensures CandidateFrom(g, 4, mark) == DepthMove(g, d, mark) != -1
  {
    DepthMoveIff(g, d, mark);
    if d < 4 {
      SilentDepthSkipped(g, 4, mark);
      if d < 3 {
        SilentDepthSkipped(g, 3, mark);
      }
    }
  }

  /**
   * Depths are tried from 4 down: the first depth at which any window
   * proposes a move decides it, with that depth's search result.
   */
  lemma FirstProposingDepthDecides(g: Grid, cursor: seq<int>, mark: CellValue, d: int)
    requires IsGrid(g) && |cursor| == COLUMNS && 2 <= d <= 4
    requires forall e :: d < e <= 4 ==> Silent(g, e)
    requires !Silent(g, d)
    ensures NextMove(g, cursor, mark) == DepthMove(g, d, mark) != -1
  {
    CandidateAtFirstProposing(g, mark, d);
  }

  /**
   * Within a depth, when no window proposes the AI's own mark, the AI blocks
   * at the last opponent threat in scan order.
   */
  lemma BlocksLastThreat(g: Grid, mark: CellValue, d: int)
    requires IsGrid(g) && 2 <= d <= 4
    requires forall k :: 0 <= k < WINDOW_COUNT ==> !IsOwn(Proposals(g, d)[k], mark)
    ensures DepthMove(g, d, mark) == LastProposed(Proposals(g, d), -1)
  {
    PickNoOwn(Proposals(g, d), mark, -1);
  }

  /** With no proposal at any depth the AI takes the middle column, else the lowest available one. */
  lemma FallbackMove(g: Grid, cursor: seq<int>, mark: CellValue)
    requires IsGrid(g) && |cursor| == COLUMNS
    requires Silent(g, 4) && Silent(g, 3) && Silent(g, 2)
    ensures NextMove(g, cursor, mark) == if Available(cursor, COLUMNS / 2) then COLUMNS / 2 else FirstAvailable(cursor, 0)
  {
    SilentDepthSkipped(g, 4, mark);
    SilentDepthSkipped(g, 3, mark);
    SilentDepthSkipped(g, 2, mark);
  }

  /** A column the search at depth `d` returns is proposed by some window at that depth. */
  lemma DepthMoveProposed(g: Grid, d: int, mark: CellValue) returns (k: int)
    requires IsGrid(g) && 2 <= d <= 4 && DepthMove(g, d, mark) != -1
    ensures 0 <= k < WINDOW_COUNT && ProposalOf(g, WindowAt(k), d).Propose?
    ensures DepthMove(g, d, mark) == ProposalOf(g, WindowAt(k), d).col
  {
    var ps := Proposals(g, d);
    PickProposes(ps, mark, -1);
    k :| 0 <= k < |ps| && ps[k].Propose? && Pick(ps, mark, -1) == ps[k].col;
  }

  /** A column the depth loop returns from depth `d` down is the search result of one of those depths. */
  lemma {:induction false} CandidateIsDepthMove(g: Grid, d: int, mark: CellValue) returns (e: int)
    requires IsGrid(g) && 1 <= d <= 4 && CandidateFrom(g, d, mark) != -1
    ensures 2 <= e <= d && CandidateFrom(g, d, mark) == DepthMove(g, e, mark) != -1
  {
    if DepthMove(g, d, mark) == -1 {
      e := CandidateIsDepthMove(g, d - 1, mark);
    } else {
      e := d;
    }
  }

  /** A proposed column can take a checker on a stacked board. */
  lemma ProposalAvailable(g: Grid, cursor: seq<int>, w: Window, d: int)
    requires Stacked(g, cursor) && Anchored(w) && 2 <= d <= 4 && ProposalOf(g, w, d).Propose?
    ensures Available(cursor, ProposalOf(g, w, d).col)
  {
    var vote := VoteOf(g, w, d);
    VoteIff(g, w, d, vote.player, vote.val);
    LegalIsCursor(g, cursor, CellAt(w, vote.val));
  }

  /** On a stacked board the AI never picks a full column: its move is -1 or available. */
  lemma NeverFullColumn(g: Grid, cursor: seq<int>, mark: CellValue)
    requires Stacked(g, cursor)
    ensures NextMove(g, cursor, mark) == -1 || Available(cursor, NextMove(g, cursor, mark))
  {
    if CandidateFrom(g, 4, mark) != -1 {
      var e := CandidateIsDepthMove(g, 4, mark);
      var k := DepthMoveProposed(g, e, mark);
      ProposalAvailable(g, cursor, WindowAt(k), e);
    }
  }

  /** On a stacked board the AI answers -1 exactly when every column is full. */
  lemma NoMoveIffFull(g: Grid, cursor: seq<int>, mark: CellValue)
    requires Stacked(g, cursor)
    ensures NextMove(g, cursor, mark) == -1 <==> forall c :: 0 <= c < COLUMNS ==> !Available(cursor, c)
  {
    NeverFullColumn(g, cursor, mark);
  }

  /** On an empty board no window proposes anything at any depth, so the AI opens in the middle column. */
  lemma EmptyBoardOpening(mark: CellValue)
    ensures NextMove(EmptyGrid(), ResetCursor(), mark) == COLUMNS / 2
  {
    var g := EmptyGrid();
    forall d | 2 <= d <= 4
      ensures Silent(g, d)
    {
      forall k | 0 <= k < WINDOW_COUNT
        ensures Proposals(g, d)[k] == Pass
      {
        var w := WindowAt(k);
        var vals := Order(w.orientation, d);
        TallyCounts(g, w, vals);
        CountNone(g, w, vals, PlayerOne);
        CountNone(g, w, vals, PlayerTwo);
      }
    }
    DepthMoveIff(g, 4, mark);
    DepthMoveIff(g, 3, mark);
    DepthMoveIff(g, 2, mark);
  }

  /**
   * Below depth 4 a window is examined only on its first `d` cells, starting
   * from its anchor: at depth 3 a horizontal window reads its anchor column
   * (3 or later) and the two to its left, so the triple in columns 0 to 2 is
   * never examined.
   */
  lemma LeftEdgeTripleNeverExamined(k: int, v: int)
    requires 0 <= k < WINDOW_COUNT && WindowAt(k).orientation == Horizontal && 0 <= v < 3
    ensures CellAt(WindowAt(k), v).col >= 1
  {
  }
}
