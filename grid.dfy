/**
  The board model: a 9 by 9 grid of nullable colours, and the placement rule
  that both a drop and the end-of-game scan rely on.
*/
module Grid {
  import opened Wrappers
  import opened Constants

  type Color = string

  /** None is an empty cell; Some(color) an occupied one. */
  type Cell = Option<Color>

  type Board = seq<seq<Cell>>

  predicate IsBoard(b: Board)
  {
    |b| == BoardSize && forall r :: 0 <= r < |b| ==> |b[r]| == BoardSize
  }

  predicate InBoard(r: int, c: int)
  {
    0 <= r < BoardSize && 0 <= c < BoardSize
  }

  /** The board of a new or reset game. */
  function EmptyBoard(): (b: Board)
    ensures IsBoard(b)
    ensures forall r, c :: InBoard(r, c) ==> b[r][c] == None
  {
    seq(BoardSize, _ => seq(BoardSize, _ => None))
  }

  /** Cell (pr, pc) of the piece exists and holds a 1. */
  predicate Filled(piece: Shape, pr: int, pc: int)
  {
    0 <= pr < |piece| && 0 <= pc < |piece[pr]| && piece[pr][pc] == 1
  }

  /** Every filled cell of the piece anchored at (row, col) lies on the board. */
  ghost predicate Inside(piece: Shape, row: int, col: int)
  {
    forall pr, pc :: Filled(piece, pr, pc) ==> InBoard(row + pr, col + pc)
  }

  /**
    The placement rule: every filled cell of the piece, anchored with its
    top-left corner at (row, col), lands on the board and on an empty cell.
  */
  ghost predicate CanPlace(b: Board, piece: Shape, row: int, col: int)
    requires IsBoard(b)
  {
    forall pr, pc :: Filled(piece, pr, pc) ==> InBoard(row + pr, col + pc) && b[row + pr][col + pc] == None
  }

  ghost predicate HasEmptyCell(b: Board)
    requires IsBoard(b)
  {
    exists r, c :: InBoard(r, c) && b[r][c] == None
  }

  /**
    The placement check as the game runs it: visit the piece row by row and
    reject at the first filled cell that leaves the board or meets an
    occupied cell.
  */
  method PlacementFits(b: Board, piece: Shape, row: int, col: int) returns (ok: bool)
    requires IsBoard(b)
    ensures ok == CanPlace(b, piece, row, col)
  {
    var pr := 0;
    while pr < |piece|
      invariant 0 <= pr <= |piece|
      invariant forall i, j :: Filled(piece, i, j) && i < pr ==> InBoard(row + i, col + j) && b[row + i][col + j] == None
    {
      var pc := 0;
      while pc < |piece[pr]|
        invariant 0 <= pc <= |piece[pr]|
        invariant forall i, j :: Filled(piece, i, j) && (i < pr || (i == pr && j < pc)) ==>
                                 InBoard(row + i, col + j) && b[row + i][col + j] == None
      {
        if piece[pr][pc] == 1 {
          var r, c := row + pr, col + pc;
          if r < 0 || r >= |b| || c < 0 || c >= |b| || b[r][c] != None {
            assert Filled(piece, pr, pc);
            return false;
          }
        }
        pc := pc + 1;
      }
      pr := pr + 1;
    }
    return true;
  }

  /** Every catalog shape can be placed at the top-left corner of an empty board. */
  lemma EveryShapeFitsEmptyBoard(k: ShapeKey)
    ensures CanPlace(EmptyBoard(), ShapeOf(k), 0, 0)
  {
    CatalogWellFormed(k);
    var s := ShapeOf(k);
    forall pr, pc | Filled(s, pr, pc) ensures InBoard(pr, pc) {
      assert |s[pr]| == |s[0]|;
    }
  }

  /** The DOT fits exactly at the empty cells of a board. */
  lemma DotFitsExactlyAtEmptyCells(b: Board, r: int, c: int)
    requires IsBoard(b) && InBoard(r, c)
    ensures CanPlace(b, ShapeOf(Dot), r, c) <==> b[r][c] == None
  {
    if b[r][c] != None {
      assert Filled(ShapeOf(Dot), 0, 0);
    }
  }
}
