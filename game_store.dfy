/**
  The game store: the board, the score and streak, the piece supply, the
  leaderboard and the session bookkeeping of a continued game, with the
  actions the screen calls.
*/
module GameStore {
  import opened Wrappers
  import opened Constants
  import opened Grid
  import opened GameLogic
  import opened Scoring
  import opened Leaderboard
  import opened Pieces

  /** Score a player pays to continue after a game over. */
  const ContinueCost: nat := 500

  /** The fields a game-over check may change. */
  datatype Standing = Standing(leaderboard: seq<int>, bestScore: int, lastSavedScore: Option<int>, isGameOver: bool)

  /** A leaderboard of three descending entries headed by the best score. */
  predicate WellRanked(st: Standing)
  {
    |st.leaderboard| == Slots && SortedDesc(st.leaderboard) && st.bestScore == st.leaderboard[0]
  }

  /** A board with no full row and no full column, as every cleared board is. */
  predicate NoFullLine(b: Board)
    requires IsBoard(b)
  {
    && (forall r :: 0 <= r < BoardSize ==> !RowFull(b, r))
    && (forall c :: 0 <= c < BoardSize ==> !ColFull(b, c))
  }

  /** The empty board has no full line. */
  lemma EmptyBoardHasNoFullLine()
    ensures NoFullLine(EmptyBoard())
  {
    var b := EmptyBoard();
    forall i | 0 <= i < BoardSize ensures !RowFull(b, i) && !ColFull(b, i) {
      assert b[i][0] == None && b[0][i] == None;
    }
  }

  /** Every board a move leaves behind satisfies the store's no-full-line invariant. */
  lemma ClearedBoardHasNoFullLine(p: Board)
    requires IsBoard(p)
    ensures NoFullLine(Cleared(p))
  {
    ClearedHasNoFullLine(p);
  }

  /** Lines cleared by a move whose placement produced the board p. */
  function LinesOf(p: Board): nat
    requires IsBoard(p)
  {
    |FullRows(p)| + |FullCols(p)|
  }

  /**
    The outcome of a game-over check: nothing happens when the game is
    already over, when the supply is empty or when the end-of-game scan
    finds a piece that can move;
    otherwise the game ends, the leaderboard takes the score in as the
    session rule says, and the session's best score is recorded.
  */
  ghost function AfterGameOverCheck(b: Board, pieces: seq<Piece>, score: int, st: Standing): Standing
    requires IsBoard(b)
  {
    if st.isGameOver || |pieces| == 0 || GameOverScanCanMove(b, pieces) then st
    else
      var upd := UpdatedLeaderboard(st.leaderboard, score, st.lastSavedScore);
      var best := SessionBest(score, st.lastSavedScore);
      if upd.Some? then Standing(upd.value, upd.value[0], Some(best), true)
      else Standing(st.leaderboard, st.bestScore, Some(best), true)
  }

  /** The supply after the piece with the given identifier is used, refilled when it runs out. */
  function AfterRemoval(pieces: seq<Piece>, id: string, draws: seq<Draw>): (r: seq<Piece>)
    requires ValidDraws(draws)
    ensures |r| > 0
    ensures WithoutId(pieces, id) == [] ==> r == Drawn(draws) && |r| == SupplySize
    ensures WithoutId(pieces, id) != [] ==> forall q :: q in r <==> q in pieces && q.id != id
  {
    var rest := WithoutId(pieces, id);
    if rest == [] then Drawn(draws) else rest
  }

  /** The supply without the pieces carrying the given identifier, in order. */
  function WithoutId(pieces: seq<Piece>, id: string): (r: seq<Piece>)
    ensures |r| <= |pieces|
    ensures forall p :: p in r <==> p in pieces && p.id != id
  {
    if pieces == [] then []
    else if pieces[0].id == id then WithoutId(pieces[1..], id)
    else [pieces[0]] + WithoutId(pieces[1..], id)
  }

  class GameStore {
    var board: Board
    var score: nat
    var streak: nat
    var lastSavedScore: Option<int>
    var availablePieces: seq<Piece>
    var bestScore: int
    var leaderboard: seq<int>
    var milestoneEvent: Option<Milestone>
    var isGameOver: bool

    ghost predicate Valid()
      reads this
    {
      && IsBoard(board)
      && NoFullLine(board)
      && WellRanked(Record())
      && |availablePieces| <= SupplySize
      && forall i :: 0 <= i < |availablePieces| ==> WellFormedShape(availablePieces[i].shape)
    }

    /** The fields a game-over check may change, as one value. */
    function Record(): Standing
      reads this
    {
      Standing(leaderboard, bestScore, lastSavedScore, isGameOver)
    }

    /** The state of a fresh store: an empty board, no score, an empty supply and a zero leaderboard. */
    constructor()
      ensures Valid()
      ensures board == EmptyBoard() && score == 0 && streak == 0
      ensures lastSavedScore == None && availablePieces == []
      ensures leaderboard == [0, 0, 0] && bestScore == 0
      ensures milestoneEvent == None && !isGameOver
    {
      board := EmptyBoard();
      EmptyBoardHasNoFullLine();
      score := 0;
      streak := 0;
      lastSavedScore := None;
      availablePieces := [];
      bestScore := 0;
      leaderboard := [0, 0, 0];
      milestoneEvent := None;
      isGameOver := false;
    }

    /** Whether the piece can be placed at (row, col) on the current board. */
    method CanPlacePiece(piece: Shape, row: int, col: int) returns (ok: bool)
      requires Valid()
      ensures ok == CanPlace(board, piece, row, col)
    {
      ok := PlacementFits(board, piece, row, col);
    }

    /** Put three freshly drawn pieces on offer, with the rescue DOT when `check` asks for it. */
    method RefreshPieces(check: bool, draws: seq<Draw>, safeId: string)
      requires Valid() && ValidDraws(draws)
      modifies this
      ensures Valid()
      ensures availablePieces == SupplyFor(board, check, draws, safeId)
      ensures board == old(board) && score == old(score) && streak == old(streak)
      ensures Record() == old(Record()) && milestoneEvent == old(milestoneEvent)
    {
      var pieces := NewSupply(board, check, draws, safeId);
      SupplyShape(board, check, draws, safeId);
      CatalogShapesWellFormed();
      availablePieces := pieces;
    }

    /** Take the piece with the given identifier off the supply, refilling it without the check when it empties. */
    method RemovePiece(id: string, draws: seq<Draw>)
      requires Valid() && ValidDraws(draws)
      modifies this
      ensures Valid()
      ensures availablePieces == AfterRemoval(old(availablePieces), id, draws)
      ensures board == old(board) && score == old(score) && streak == old(streak)
      ensures Record() == old(Record()) && milestoneEvent == old(milestoneEvent)
    {
      var rest := WithoutId(availablePieces, id);
      forall i | 0 <= i < |rest| ensures WellFormedShape(rest[i].shape) {
        assert rest[i] in availablePieces;
      }
      availablePieces := rest;
      if rest == [] {
        RefreshPieces(false, draws, "");
      }
    }

    /**
      The end-of-game check: when the game is running, the supply is not
      empty and the end-of-game scan finds no move, end the game, update
      the leaderboard and record the session's best score.
    */
    method CheckGameOver()
      requires Valid()
      modifies this
      ensures Valid()
      ensures Record() == AfterGameOverCheck(board, availablePieces, score, old(Record()))
      ensures board == old(board) && score == old(score) && streak == old(streak)
      ensures availablePieces == old(availablePieces) && milestoneEvent == old(milestoneEvent)
    {
      if isGameOver || |availablePieces| == 0 {
        return;
      }
      var canMove := ScanSupply(board, availablePieces);
      if !canMove {
        var upd := UpdatedLeaderboard(leaderboard, score, lastSavedScore);
        UpdateKeepsShape(leaderboard, score, lastSavedScore);
        if upd.Some? {
          leaderboard := upd.value;
          bestScore := upd.value[0];
        }
        lastSavedScore := Some(SessionBest(score, lastSavedScore));
        isGameOver := true;
      }
    }

    /**
      The first part of a move: resolve it, pay its lines with the streak
      bonus, raise the milestone it crossed on the leaderboard and show the
      cleared board.
    */
    method PlayMove(piece: Shape, row: int, col: int, color: Color)
      requires Valid() && Inside(piece, row, col)
      modifies this
      ensures Valid()
      ensures var placed := Placed(old(board), piece, row, col, color);
        var paid := ScoreMove(LinesOf(placed), old(streak));
        && board == Cleared(placed)
        && score == old(score) + paid.points
        && streak == paid.newStreak
        && milestoneEvent == MilestoneFor(old(score), score, old(leaderboard[0]), old(leaderboard[1]), old(leaderboard[2]))
      ensures availablePieces == old(availablePieces) && Record() == old(Record())
    {
      ghost var placed := Placed(board, piece, row, col, color);
      var res := ProcessMove(board, piece, row, col, color);
      var lines := |res.clearedRows| + |res.clearedCols|;
      assert res.newBoard == Cleared(placed) && lines == LinesOf(placed);
      ClearedBoardHasNoFullLine(placed);
      assert IsBoard(res.newBoard) && NoFullLine(res.newBoard);
      var paid := ScoreMove(lines, streak);
      var newTotal := score + paid.points;
      milestoneEvent := MilestoneFor(score, newTotal, leaderboard[0], leaderboard[1], leaderboard[2]);
      board := res.newBoard;
      score := newTotal;
      streak := paid.newStreak;
    }

    /** Play a piece and then check for the end of the game on the cleared board. */
    method HandleMove(piece: Shape, row: int, col: int, color: Color)
      requires Valid() && Inside(piece, row, col)
      modifies this
      ensures Valid()
      ensures var placed := Placed(old(board), piece, row, col, color);
        var paid := ScoreMove(LinesOf(placed), old(streak));
        && board == Cleared(placed)
        && score == old(score) + paid.points
        && streak == paid.newStreak
        && milestoneEvent == MilestoneFor(old(score), score, old(leaderboard[0]), old(leaderboard[1]), old(leaderboard[2]))
      ensures availablePieces == old(availablePieces)
      ensures Record() == AfterGameOverCheck(board, availablePieces, score, old(Record()))
    {
      PlayMove(piece, row, col, color);
      CheckGameOver();
    }

    /** Clear the milestone notification once the screen has shown it. */
    method ClearMilestone()
      requires Valid()
      modifies this
      ensures Valid()
      ensures milestoneEvent == None
      ensures board == old(board) && score == old(score) && streak == old(streak)
      ensures availablePieces == old(availablePieces) && Record() == old(Record())
    {
      milestoneEvent := None;
    }

    /**
      Drop a piece at (row, col): nothing happens when it cannot be placed
      there; otherwise the piece leaves the supply and the move is played.
    */
    method OnDrop(id: string, piece: Shape, row: int, col: int, color: Color, draws: seq<Draw>)
      requires Valid() && ValidDraws(draws)
      modifies this
      ensures Valid()
      ensures !CanPlace(old(board), piece, row, col) ==>
        && board == old(board) && score == old(score) && streak == old(streak)
        && availablePieces == old(availablePieces) && Record() == old(Record())
        && milestoneEvent == old(milestoneEvent)
      ensures CanPlace(old(board), piece, row, col) ==>
        var placed := Placed(old(board), piece, row, col, color);
        var paid := ScoreMove(LinesOf(placed), old(streak));
        && board == Cleared(placed)
        && score == old(score) + paid.points
        && streak == paid.newStreak
        && milestoneEvent == MilestoneFor(old(score), score, old(leaderboard[0]), old(leaderboard[1]), old(leaderboard[2]))
        && availablePieces == AfterRemoval(old(availablePieces), id, draws)
        && Record() == AfterGameOverCheck(board, availablePieces, score, old(Record()))
    {
      var ok := CanPlacePiece(piece, row, col);
      if ok {
        RemovePiece(id, draws);
        HandleMove(piece, row, col, color);
      }
    }

    /** Start a new game: empty board, no score or streak, a new session and a fresh supply; the leaderboard stays. */
    method ResetGame(draws: seq<Draw>)
      requires Valid() && ValidDraws(draws)
      modifies this
      ensures Valid()
      ensures board == EmptyBoard() && score == 0 && streak == 0
      ensures !isGameOver && milestoneEvent == None && lastSavedScore == None
      ensures availablePieces == Drawn(draws)
      ensures leaderboard == old(leaderboard) && bestScore == old(bestScore)
    {
      board := EmptyBoard();
      EmptyBoardHasNoFullLine();
      score := 0;
      streak := 0;
      isGameOver := false;
      milestoneEvent := None;
      lastSavedScore := None;
      RefreshPieces(false, draws, "");
    }

    /**
      Continue after a game over by paying ContinueCost: the game resumes
      on the same board with a checked supply and the session's recorded
      score kept. With too low a score nothing happens.
    */
    method ContinueWithNewPieces(draws: seq<Draw>, safeId: string)
      requires Valid() && ValidDraws(draws)
      modifies this
      ensures Valid()
      ensures old(score) < ContinueCost ==>
        && score == old(score) && availablePieces == old(availablePieces) && Record() == old(Record())
      ensures old(score) >= ContinueCost ==>
        && score == old(score) - ContinueCost && !isGameOver
        && availablePieces == SupplyFor(board, true, draws, safeId)
        && leaderboard == old(leaderboard) && bestScore == old(bestScore)
        && lastSavedScore == old(lastSavedScore)
      ensures board == old(board) && streak == old(streak) && milestoneEvent == old(milestoneEvent)
    {
      if score >= ContinueCost {
        isGameOver := false;
        score := score - ContinueCost;
        RefreshPieces(true, draws, safeId);
      }
    }
  }

  // ---------------------------------------------------------------------
  // Properties of the game-over check
  // ---------------------------------------------------------------------

  /** A running game ends exactly when the supply is not empty and the end-of-game scan finds no move. */
  lemma GameOverExactlyWhenScanFails(b: Board, pieces: seq<Piece>, score: int, st: Standing)
    requires IsBoard(b) && !st.isGameOver
    ensures AfterGameOverCheck(b, pieces, score, st).isGameOver <==> |pieces| > 0 && !GameOverScanCanMove(b, pieces)
  {
  }

  /** A running game with a non-empty supply none of whose pieces fits anywhere always ends. */
  lemma StuckGameEnds(b: Board, pieces: seq<Piece>, score: int, st: Standing)
    requires IsBoard(b) && !st.isGameOver && |pieces| > 0 && !SupplyCanMove(b, pieces)
    ensures AfterGameOverCheck(b, pieces, score, st).isGameOver
  {
    GameOverScanSound(b, pieces);
  }

  /** A second check on the same position changes nothing. */
  lemma GameOverCheckIdempotent(b: Board, pieces: seq<Piece>, score: int, st: Standing)
    requires IsBoard(b)
    ensures var once := AfterGameOverCheck(b, pieces, score, st);
      AfterGameOverCheck(b, pieces, score, once) == once
  {
  }

  /** The check keeps three descending entries headed by the best score. */
  lemma GameOverCheckKeepsRanking(b: Board, pieces: seq<Piece>, score: int, st: Standing)
    requires IsBoard(b) && WellRanked(st)
    ensures WellRanked(AfterGameOverCheck(b, pieces, score, st))
  {
    UpdateKeepsShape(st.leaderboard, score, st.lastSavedScore);
  }

  /**
    Ending a game records a session score at least the final score and
    at least any score recorded earlier in the session, and the best
    score never goes down.
  */
  lemma GameOverRecordsSession(b: Board, pieces: seq<Piece>, score: int, st: Standing)
    requires IsBoard(b) && WellRanked(st)
    ensures var after := AfterGameOverCheck(b, pieces, score, st);
      && after.bestScore >= st.bestScore
      && (after != st ==>
            && after.lastSavedScore.Some?
            && after.lastSavedScore.value >= score
            && (st.lastSavedScore.Some? ==> after.lastSavedScore.value >= st.lastSavedScore.value))
  {
    var upd := UpdatedLeaderboard(st.leaderboard, score, st.lastSavedScore);
    if upd.Some? {
      BestNeverDrops(st.leaderboard, score, st.lastSavedScore);
    }
  }

  /** A game over on an empty board cannot happen: every catalog piece fits on it. */
  lemma EmptyBoardNeverEndsTheGame(pieces: seq<Piece>, score: int, st: Standing)
    requires |pieces| > 0 && pieces[0].shape in CatalogShapes()
    ensures AfterGameOverCheck(EmptyBoard(), pieces, score, st) == st
  {
    var i :| 0 <= i < |CatalogShapes()| && CatalogShapes()[i] == pieces[0].shape;
    var k := ShapeKeys[i];
    EveryShapeFitsEmptyBoard(k);
    CatalogWellFormed(k);
    assert GameOverScanFinds(EmptyBoard(), pieces[0].shape);
  }

  /**
    A supply holding a DOT (the rescue piece, say) never ends the game at
    the end-of-game check that follows a move: the cleared board has no full
    column, so the DOT is found in column 0.
  */
  lemma DotSupplyNeverEndsAfterMove(p: Board, pieces: seq<Piece>, i: nat, score: int, st: Standing)
    requires IsBoard(p)
    requires i < |pieces| && pieces[i].shape == ShapeOf(Dot)
    ensures AfterGameOverCheck(Cleared(p), pieces, score, st) == st
  {
    ClearedHasNoFullLine(p);
    DotIsAlwaysFound(Cleared(p), pieces, i);
  }

  /**
    The same fact from the store's invariant: while a DOT is on offer, the
    end-of-game check of a valid store changes nothing, because the board of
    a valid store has no full column.
  */
  lemma ValidStoreWithDotKeepsPlaying(g: GameStore, i: nat)
    requires g.Valid()
    requires i < |g.availablePieces| && g.availablePieces[i].shape == ShapeOf(Dot)
    ensures AfterGameOverCheck(g.board, g.availablePieces, g.score, g.Record()) == g.Record()
  {
    DotIsAlwaysFound(g.board, g.availablePieces, i);
  }

  // ---------------------------------------------------------------------
  // Scenarios on fresh stores
  // ---------------------------------------------------------------------

  /** A refresh on a fresh store offers three pieces. */
  method RefreshGivesThreePieces(draws: seq<Draw>) returns (count: nat)
    requires ValidDraws(draws)
    ensures count == 3
  {
    var g := new GameStore();
    g.RefreshPieces(false, draws, "");
    count := |g.availablePieces|;
  }

  /** A reset after a game over at score 100 with streak 5 restores a running game with three pieces. */
  method ResetAfterGameOver(draws: seq<Draw>) returns (score: nat, streak: nat, over: bool, count: nat)
    requires ValidDraws(draws)
    ensures score == 0 && streak == 0 && !over && count == 3
  {
    var g := new GameStore();
    g.score, g.isGameOver, g.streak := 100, true, 5;
    g.ResetGame(draws);
    score, streak, over, count := g.score, g.streak, g.isGameOver, |g.availablePieces|;
  }

  /** On an empty board with a fresh supply the end-of-game check does not end the game. */
  method CheckOnEmptyBoard(draws: seq<Draw>) returns (over: bool)
    requires ValidDraws(draws)
    ensures !over
  {
    var g := new GameStore();
    g.RefreshPieces(false, draws, "");
    assert g.availablePieces[0] == PieceOf(draws[0]);
    EmptyBoardNeverEndsTheGame(g.availablePieces, g.score, g.Record());
    g.CheckGameOver();
    over := g.isGameOver;
  }

  /** Continuing from exactly ContinueCost leaves a running game at score 0; one point less changes nothing. */
  method ContinueAtTheThreshold(draws: seq<Draw>) returns (paid: nat, over1: bool, unpaid: nat, over2: bool)
    requires ValidDraws(draws)
    ensures paid == 0 && !over1
    ensures unpaid == ContinueCost - 1 && over2
  {
    var g := new GameStore();
    g.score, g.isGameOver := ContinueCost, true;
    g.ContinueWithNewPieces(draws, "");
    paid, over1 := g.score, g.isGameOver;
    var h := new GameStore();
    h.score, h.isGameOver := ContinueCost - 1, true;
    h.ContinueWithNewPieces(draws, "");
    unpaid, over2 := h.score, h.isGameOver;
  }
}
