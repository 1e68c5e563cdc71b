/**
  The move resolver: write a piece onto a copy of the board, find the full
  rows and columns, and build the board with those lines emptied, together
  with the clear statistics of the move.
*/
module GameLogic {
  import opened Wrappers
  import opened Constants
  import opened Grid

  /** How many lines one move cleared; Quad is declared but never produced. */
  datatype ComboType = Single | Double | Triple | Quad | Mega

  /** The outcome of one move (the resolver's own score is not part of this model). */
  datatype MoveResult = MoveResult(
    newBoard: Board,
    placedBoard: Board,
    clearedRows: seq<int>,
    clearedCols: seq<int>,
    isCross: bool,
    comboType: ComboType,
    totalCellsCleared: int)

  predicate StrictlyAscending(s: seq<int>)
  {
    forall i, j :: 0 <= i < j < |s| ==> s[i] < s[j]
  }

  // ---------------------------------------------------------------------
  // Specification of the three steps
  // ---------------------------------------------------------------------

  /** The board with every filled cell of the piece, anchored at (row, col), set to `color`. */
  function Placed(b: Board, piece: Shape, row: int, col: int, color: Color): (p: Board)
    requires IsBoard(b)
    ensures IsBoard(p)
  {
    seq(BoardSize, r requires 0 <= r < BoardSize =>
      seq(BoardSize, c requires 0 <= c < BoardSize =>
        if Filled(piece, r - row, c - col) then Some(color) else b[r][c]))
  }

  predicate RowFull(b: Board, r: int)
    requires IsBoard(b) && 0 <= r < BoardSize
  {
    forall c :: 0 <= c < BoardSize ==> b[r][c] != None
  }

  predicate ColFull(b: Board, c: int)
    requires IsBoard(b) && 0 <= c < BoardSize
  {
    forall r :: 0 <= r < BoardSize ==> b[r][c] != None
  }

  /** The full rows with index below n, in increasing order. */
  function FullRowsBelow(b: Board, n: nat): seq<int>
    requires IsBoard(b) && n <= BoardSize
  {
    if n == 0 then [] else FullRowsBelow(b, n - 1) + (if RowFull(b, n - 1) then [n - 1] else [])
  }

  /** The full columns with index below n, in increasing order. */
  function FullColsBelow(b: Board, n: nat): seq<int>
    requires IsBoard(b) && n <= BoardSize
  {
    if n == 0 then [] else FullColsBelow(b, n - 1) + (if ColFull(b, n - 1) then [n - 1] else [])
  }

  function FullRows(b: Board): seq<int>
    requires IsBoard(b)
  {
    FullRowsBelow(b, BoardSize)
  }

  function FullCols(b: Board): seq<int>
    requires IsBoard(b)
  {
    FullColsBelow(b, BoardSize)
  }

  /** The board after the clear: every cell of a full row or a full column is emptied. */
  function Cleared(p: Board): (q: Board)
    requires IsBoard(p)
    ensures IsBoard(q)
  {
    seq(BoardSize, r requires 0 <= r < BoardSize =>
      seq(BoardSize, c requires 0 <= c < BoardSize =>
        if RowFull(p, r) || ColFull(p, c) then None else p[r][c]))
  }

  /** Cells of row r, in the columns below n, that are occupied in p and empty in q. */
  function NulledInRow(p: Board, q: Board, r: int, n: nat): nat
    requires IsBoard(p) && IsBoard(q) && 0 <= r < BoardSize && n <= BoardSize
  {
    if n == 0 then 0
    else NulledInRow(p, q, r, n - 1) + (if p[r][n - 1] != None && q[r][n - 1] == None then 1 else 0)
  }

  /** Cells of the rows below n that are occupied in p and empty in q. */
  function NulledBelow(p: Board, q: Board, n: nat): nat
    requires IsBoard(p) && IsBoard(q) && n <= BoardSize
  {
    if n == 0 then 0 else NulledBelow(p, q, n - 1) + NulledInRow(p, q, n - 1, BoardSize)
  }

  /** The number of cells a step from p to q emptied. */
  function CellsCleared(p: Board, q: Board): nat
    requires IsBoard(p) && IsBoard(q)
  {
    NulledBelow(p, q, BoardSize)
  }

  /** The combo tag for a number of cleared lines. */
  function ComboOf(lines: nat): (t: ComboType)
    ensures t != Quad
    ensures t == Single <==> lines <= 1
    ensures t == Double <==> lines == 2
    ensures t == Triple <==> lines == 3
    ensures t == Mega <==> lines >= 4
  {
    if lines <= 1 then Single
    else if lines == 2 then Double
    else if lines == 3 then Triple
    else Mega
  }

  // ---------------------------------------------------------------------
  // Properties of the specification
  // ---------------------------------------------------------------------

  /**
    Placement writes `color` at every filled piece cell and leaves every
    other cell as it was on the input board.
  */
  lemma PlacedCells(b: Board, piece: Shape, row: int, col: int, color: Color)
    requires IsBoard(b) && Inside(piece, row, col)
    ensures forall pr, pc :: Filled(piece, pr, pc) ==>
              Placed(b, piece, row, col, color)[row + pr][col + pc] == Some(color)
    ensures forall r, c :: InBoard(r, c) && !Filled(piece, r - row, c - col) ==>
              Placed(b, piece, row, col, color)[r][c] == b[r][c]
  {
    var p := Placed(b, piece, row, col, color);
    forall pr, pc | Filled(piece, pr, pc) ensures p[row + pr][col + pc] == Some(color) {
      assert InBoard(row + pr, col + pc);
      assert Filled(piece, (row + pr) - row, (col + pc) - col);
    }
  }

  /** A legal placement only covers empty cells, so it occupies them and keeps every occupied cell. */
  lemma PlacementKeepsOccupiedCells(b: Board, piece: Shape, row: int, col: int, color: Color)
    requires IsBoard(b) && CanPlace(b, piece, row, col)
    ensures forall r, c :: InBoard(r, c) && b[r][c] != None ==> Placed(b, piece, row, col, color)[r][c] == b[r][c]
  {
    forall r, c | InBoard(r, c) && Filled(piece, r - row, c - col) ensures b[r][c] == None {
      assert b[row + (r - row)][col + (c - col)] == None;
    }
  }

  /** FullRowsBelow(b, n) is strictly ascending and holds exactly the full rows below n. */
  lemma {:induction false} FullRowsBelowSpec(b: Board, n: nat)
    requires IsBoard(b) && n <= BoardSize
    ensures StrictlyAscending(FullRowsBelow(b, n))
    ensures forall x :: x in FullRowsBelow(b, n) <==> 0 <= x < n && RowFull(b, x)
    ensures |FullRowsBelow(b, n)| <= n
  {
    if n > 0 {
      var init := FullRowsBelow(b, n - 1);
      FullRowsBelowSpec(b, n - 1);
      assert forall i :: 0 <= i < |init| ==> init[i] < n - 1 by {
        forall i | 0 <= i < |init| ensures init[i] < n - 1 { assert init[i] in init; }
      }
    }
  }

  /** FullColsBelow(b, n) is strictly ascending and holds exactly the full columns below n. */
  lemma {:induction false} FullColsBelowSpec(b: Board, n: nat)
    requires IsBoard(b) && n <= BoardSize
    ensures StrictlyAscending(FullColsBelow(b, n))
    ensures forall x :: x in FullColsBelow(b, n) <==> 0 <= x < n && ColFull(b, x)
    ensures |FullColsBelow(b, n)| <= n
  {
    if n > 0 {
      var init := FullColsBelow(b, n - 1);
      FullColsBelowSpec(b, n - 1);
      assert forall i :: 0 <= i < |init| ==> init[i] < n - 1 by {
        forall i | 0 <= i < |init| ensures init[i] < n - 1 { assert init[i] in init; }
      }
    }
  }

  /** The cleared board has no full row and no full column. */
  lemma ClearedHasNoFullLine(p: Board)
    requires IsBoard(p)
    ensures forall r :: 0 <= r < BoardSize ==> !RowFull(Cleared(p), r)
    ensures forall c :: 0 <= c < BoardSize ==> !ColFull(Cleared(p), c)
  {
    var q := Cleared(p);
    forall r | 0 <= r < BoardSize ensures !RowFull(q, r) {
      if RowFull(p, r) {
        assert q[r][0] == None;
      } else {
        var c :| 0 <= c < BoardSize && p[r][c] == None;
        assert q[r][c] == None;
      }
    }
    forall c | 0 <= c < BoardSize ensures !ColFull(q, c) {
      if ColFull(p, c) {
        assert q[0][c] == None;
      } else {
        var r :| 0 <= r < BoardSize && p[r][c] == None;
        assert q[r][c] == None;
      }
    }
  }

  /** In row r, the cells the clear empties are the whole row if it is full, else one per full column. */
  lemma {:induction false} NulledInRowOfCleared(p: Board, r: int, n: nat)
    requires IsBoard(p) && 0 <= r < BoardSize && n <= BoardSize
    ensures NulledInRow(p, Cleared(p), r, n) == if RowFull(p, r) then n else |FullColsBelow(p, n)|
  {
    if n > 0 {
      NulledInRowOfCleared(p, r, n - 1);
      if RowFull(p, r) || ColFull(p, n - 1) {
        assert p[r][n - 1] != None;
      }
    }
  }

  /** Over the first n rows the clear empties 9 cells per full row and one cell per full column in every other row. */
  lemma {:induction false} NulledBelowOfCleared(p: Board, n: nat)
    requires IsBoard(p) && n <= BoardSize
    ensures |FullRowsBelow(p, n)| <= n
    ensures NulledBelow(p, Cleared(p), n)
            == BoardSize * |FullRowsBelow(p, n)| + (n - |FullRowsBelow(p, n)|) * |FullCols(p)|
  {
    if n > 0 {
      NulledBelowOfCleared(p, n - 1);
      NulledInRowOfCleared(p, n - 1, BoardSize);
      var q := Cleared(p);
      var k, m := |FullRowsBelow(p, n - 1)|, |FullCols(p)|;
      var full := RowFull(p, n - 1);
      assert |FullRowsBelow(p, n)| == k + (if full then 1 else 0);
      RowCountStep(NulledBelow(p, q, n - 1), NulledInRow(p, q, n - 1, BoardSize), k, m, n, full);
    }
  }

  /** The arithmetic of adding one row to the count of emptied cells. */
  lemma RowCountStep(before: int, row: int, k: int, m: int, n: int, full: bool)
    requires before == BoardSize * k + (n - 1 - k) * m
    requires row == if full then BoardSize else m
    ensures before + row
            == BoardSize * (k + (if full then 1 else 0)) + (n - (k + (if full then 1 else 0))) * m
  {
    if !full {
      assert (n - 1 - k) * m + m == (n - k) * m;
    }
  }

  /**
    The number of cells the clear empties is 9 per full row plus 9 per full
    column, less the intersections counted twice.
  */
  lemma TotalCellsClearedFormula(p: Board)
    requires IsBoard(p)
    ensures CellsCleared(p, Cleared(p))
            == BoardSize * |FullRows(p)| + BoardSize * |FullCols(p)| - |FullRows(p)| * |FullCols(p)|
  {
    NulledBelowOfCleared(p, BoardSize);
    var k, n := |FullRows(p)|, |FullCols(p)|;
    assert (BoardSize - k) * n == BoardSize * n - k * n;
  }

  // ---------------------------------------------------------------------
  // The resolver
  // ---------------------------------------------------------------------

  /** Step 1: copy the board and write the piece's filled cells in `color`. */
  method PlacePiece(board: Board, piece: Shape, row: int, col: int, color: Color) returns (next: Board)
    requires IsBoard(board) && Inside(piece, row, col)
    ensures next == Placed(board, piece, row, col, color)
  {
    next := board;
    var pr := 0;
    while pr < |piece|
      invariant 0 <= pr <= |piece|
      invariant IsBoard(next)
      invariant forall r, c :: InBoard(r, c) ==>
                  next[r][c] == if Filled(piece, r - row, c - col) && r - row < pr then Some(color) else board[r][c]
    {
      var pc := 0;
      while pc < |piece[pr]|
        invariant 0 <= pc <= |piece[pr]|
        invariant IsBoard(next)
        invariant forall r, c :: InBoard(r, c) ==>
                    next[r][c] == if Filled(piece, r - row, c - col) && (r - row < pr || (r - row == pr && c - col < pc))
                                  then Some(color) else board[r][c]
      {
        if piece[pr][pc] == 1 {
          assert Filled(piece, pr, pc);
          next := next[row + pr := next[row + pr][col + pc := Some(color)]];
        }
        pc := pc + 1;
      }
      pr := pr + 1;
    }
    var want := Placed(board, piece, row, col, color);
    forall r | 0 <= r < BoardSize ensures next[r] == want[r] { }
  }

  /** Step 2: scan the rows in increasing order and collect the full ones. */
  method ScanRows(p: Board) returns (rows: seq<int>)
    requires IsBoard(p)
    ensures rows == FullRows(p)
  {
    rows := [];
    var r := 0;
    while r < BoardSize
      invariant 0 <= r <= BoardSize
      invariant rows == FullRowsBelow(p, r)
    {
      if RowFull(p, r) {
        rows := rows + [r];
      }
      r := r + 1;
    }
  }

  /** Step 3: scan the columns in increasing order, each top to bottom until an empty cell. */
  method ScanCols(p: Board) returns (cols: seq<int>)
    requires IsBoard(p)
    ensures cols == FullCols(p)
  {
    cols := [];
    var c := 0;
    while c < BoardSize
      invariant 0 <= c <= BoardSize
      invariant cols == FullColsBelow(p, c)
    {
      var isFull := true;
      var r := 0;
      while r < BoardSize
        invariant 0 <= r <= BoardSize
        invariant isFull
        invariant forall i :: 0 <= i < r ==> p[i][c] != None
      {
        if p[r][c] == None {
          isFull := false;
          break;
        }
        r := r + 1;
      }
      if isFull {
        cols := cols + [c];
      }
      c := c + 1;
    }
  }

  /**
    Resolve a move whose filled cells all lie on the board: place the piece,
    find the full lines of the placed board and empty them.
  */
  method ProcessMove(board: Board, piece: Shape, row: int, col: int, color: Color) returns (res: MoveResult)
    requires IsBoard(board) && Inside(piece, row, col)
    ensures res.placedBoard == Placed(board, piece, row, col, color)
    ensures res.clearedRows == FullRows(res.placedBoard)
    ensures StrictlyAscending(res.clearedRows)
    ensures forall r :: r in res.clearedRows <==> 0 <= r < BoardSize && RowFull(res.placedBoard, r)
    ensures res.clearedCols == FullCols(res.placedBoard)
    ensures StrictlyAscending(res.clearedCols)
    ensures forall c :: c in res.clearedCols <==> 0 <= c < BoardSize && ColFull(res.placedBoard, c)
    ensures res.newBoard == Cleared(res.placedBoard)
    ensures res.totalCellsCleared == CellsCleared(res.placedBoard, res.newBoard)
    ensures res.isCross <==> res.clearedRows != [] && res.clearedCols != []
    ensures res.comboType == ComboOf(|res.clearedRows| + |res.clearedCols|)
  {
    var placed := PlacePiece(board, piece, row, col, color);
    var rows := ScanRows(placed);
    var cols := ScanCols(placed);
    FullRowsBelowSpec(placed, BoardSize);
    FullColsBelowSpec(placed, BoardSize);
    var finalBoard := seq(BoardSize, r requires 0 <= r < BoardSize =>
      seq(BoardSize, c requires 0 <= c < BoardSize =>
        if r in rows || c in cols then None else placed[r][c]));
    assert finalBoard == Cleared(placed) by {
      forall r | 0 <= r < BoardSize ensures finalBoard[r] == Cleared(placed)[r] { }
    }
    TotalCellsClearedFormula(placed);
    var totalLines := |rows| + |cols|;
    res := MoveResult(
      finalBoard,
      placed,
      rows,
      cols,
      |rows| > 0 && |cols| > 0,
      ComboOf(totalLines),
      |rows| * BoardSize + |cols| * BoardSize - |rows| * |cols|);
  }
}
