/**
  The piece supply: the three pieces on offer, how a fresh supply is drawn,
  the scan that decides whether a piece fits anywhere on the board, and the
  rescue rule that swaps in a DOT when nothing drawn would fit.
*/
module Pieces {
  import opened Wrappers
  import opened Constants
  import opened Grid
  import opened GameLogic

  /** A piece on offer: its identifier, its shape and its display colour. */
  datatype Piece = Piece(id: string, shape: Shape, color: Color)

  /**
    One random draw of the supply, made by the caller: the identifier, the
    index into the catalog order and the index into the palette.
  */
  datatype Draw = Draw(id: string, shapeIndex: int, colorIndex: int)

  /** Number of pieces in a fresh supply. */
  const SupplySize: nat := 3

  /** A draw whose indices lie where a uniform draw over the catalog and the palette lands. */
  predicate ValidDraw(d: Draw)
  {
    0 <= d.shapeIndex < |ShapeKeys| && 0 <= d.colorIndex < |Palette|
  }

  predicate ValidDraws(draws: seq<Draw>)
  {
    |draws| == SupplySize && forall i :: 0 <= i < |draws| ==> ValidDraw(draws[i])
  }

  function PieceOf(d: Draw): (p: Piece)
    requires ValidDraw(d)
    ensures p.id == d.id && p.shape in CatalogShapes() && p.color in Palette
  {
    assert CatalogShapes()[d.shapeIndex] == ShapeOf(ShapeKeys[d.shapeIndex]);
    Piece(d.id, ShapeOf(ShapeKeys[d.shapeIndex]), Palette[d.colorIndex])
  }

  /** The shapes of the catalog, in catalog order. */
  function CatalogShapes(): seq<Shape>
  {
    seq(|ShapeKeys|, i requires 0 <= i < |ShapeKeys| => ShapeOf(ShapeKeys[i]))
  }

  /** Every catalog shape is well formed. */
  lemma CatalogShapesWellFormed()
    ensures forall s :: s in CatalogShapes() ==> WellFormedShape(s)
  {
    forall s | s in CatalogShapes() ensures WellFormedShape(s) {
      var i :| 0 <= i < |CatalogShapes()| && CatalogShapes()[i] == s;
      CatalogWellFormed(ShapeKeys[i]);
    }
  }

  /** The pieces of three draws, in draw order. */
  function Drawn(draws: seq<Draw>): (ps: seq<Piece>)
    requires ValidDraws(draws)
    ensures |ps| == SupplySize
    ensures forall i :: 0 <= i < |ps| ==> ps[i] == PieceOf(draws[i])
  {
    [PieceOf(draws[0]), PieceOf(draws[1]), PieceOf(draws[2])]
  }

  /** The rescue piece: a DOT in the first palette colour, its identifier marked as safe. */
  function SafePiece(safeId: string): Piece
  {
    Piece(safeId + "_safe", ShapeOf(Dot), Palette[0])
  }

  /**
    The piece fits at some anchor of the scan: rows 0 to BoardSize - height
    and columns 0 to BoardSize - width, both inclusive.
  */
  ghost predicate FitsSomewhere(b: Board, s: Shape)
    requires IsBoard(b)
  {
    exists r, c :: 0 <= r <= BoardSize - Height(s) && 0 <= c <= BoardSize - Width(s) && CanPlace(b, s, r, c)
  }

  /** Some piece of the supply fits somewhere on the board. */
  ghost predicate SupplyCanMove(b: Board, pieces: seq<Piece>)
    requires IsBoard(b)
  {
    exists i :: 0 <= i < |pieces| && FitsSomewhere(b, pieces[i].shape)
  }

  /**
    The supply a refresh puts on offer: the three drawn pieces, except that
    when the playability check is asked for and none of them fits, the
    first is replaced by the rescue DOT.
  */
  ghost function SupplyFor(b: Board, check: bool, draws: seq<Draw>, safeId: string): seq<Piece>
    requires IsBoard(b) && ValidDraws(draws)
  {
    var drawn := Drawn(draws);
    if check && !SupplyCanMove(b, drawn) then [SafePiece(safeId)] + drawn[1..] else drawn
  }

  /** The fit scan of a refresh: try every anchor row by row until the piece can be placed. */
  method DoesPieceFit(piece: Shape, b: Board) returns (fits: bool)
    requires IsBoard(b) && |piece| > 0
    ensures fits == FitsSomewhere(b, piece)
  {
    var r := 0;
    while r <= BoardSize - |piece|
      invariant 0 <= r
      invariant r <= BoardSize - |piece| + 1 || r == 0
      invariant forall i, j :: 0 <= i < r && 0 <= j <= BoardSize - |piece[0]| ==> !CanPlace(b, piece, i, j)
      decreases BoardSize - |piece| + 1 - r
    {
      var c := 0;
      while c <= BoardSize - |piece[0]|
        invariant 0 <= c
        invariant forall i, j :: 0 <= i < r && 0 <= j <= BoardSize - |piece[0]| ==> !CanPlace(b, piece, i, j)
        invariant forall j :: 0 <= j < c ==> !CanPlace(b, piece, r, j)
        decreases BoardSize - |piece[0]| + 1 - c
      {
        var ok := PlacementFits(b, piece, r, c);
        if ok {
          return true;
        }
        c := c + 1;
      }
      r := r + 1;
    }
    return false;
  }

  /** Whether any piece of the supply fits, trying the pieces in order. */
  method AnyPieceFits(b: Board, pieces: seq<Piece>) returns (any: bool)
    requires IsBoard(b)
    requires forall i :: 0 <= i < |pieces| ==> |pieces[i].shape| > 0
    ensures any == SupplyCanMove(b, pieces)
  {
    var i := 0;
    while i < |pieces|
      invariant 0 <= i <= |pieces|
      invariant forall k :: 0 <= k < i ==> !FitsSomewhere(b, pieces[k].shape)
    {
      var fits := DoesPieceFit(pieces[i].shape, b);
      if fits {
        return true;
      }
      i := i + 1;
    }
    return false;
  }

  /** A refresh, computing the supply SupplyFor describes. */
  method NewSupply(b: Board, check: bool, draws: seq<Draw>, safeId: string) returns (pieces: seq<Piece>)
    requires IsBoard(b) && ValidDraws(draws)
    ensures pieces == SupplyFor(b, check, draws, safeId)
  {
    pieces := Drawn(draws);
    if check {
      forall i | 0 <= i < |pieces| ensures |pieces[i].shape| > 0 {
        CatalogWellFormed(ShapeKeys[draws[i].shapeIndex]);
      }
      var any := AnyPieceFits(b, pieces);
      if !any {
        pieces := [SafePiece(safeId)] + pieces[1..];
      }
    }
  }

  // ---------------------------------------------------------------------
  // Properties of the supply
  // ---------------------------------------------------------------------

  /**
    A refresh offers exactly three pieces; each is the drawn catalog piece,
    or, only at the first position and only when the check was asked for
    and nothing drawn fits, the rescue DOT.
  */
  lemma SupplyShape(b: Board, check: bool, draws: seq<Draw>, safeId: string)
    requires IsBoard(b) && ValidDraws(draws)
    ensures var ps := SupplyFor(b, check, draws, safeId);
      && |ps| == SupplySize
      && (forall i :: 1 <= i < |ps| ==> ps[i] == PieceOf(draws[i]))
      && (ps[0] == PieceOf(draws[0]) || (check && ps[0] == SafePiece(safeId)))
      && (forall i :: 0 <= i < |ps| ==> ps[i].shape in CatalogShapes() && ps[i].color in Palette)
  {
    assert ShapeOf(Dot) == CatalogShapes()[0];
  }

  /** Without the check a refresh offers the drawn pieces as they are. */
  lemma UncheckedSupplyIsDrawn(b: Board, draws: seq<Draw>, safeId: string)
    requires IsBoard(b) && ValidDraws(draws)
    ensures SupplyFor(b, false, draws, safeId) == Drawn(draws)
  {
  }

  /**
    The rescue guarantee: on a board with at least one empty cell a checked
    refresh always offers a piece that fits.
  */
  lemma CheckedSupplyCanMove(b: Board, draws: seq<Draw>, safeId: string)
    requires IsBoard(b) && ValidDraws(draws) && HasEmptyCell(b)
    ensures SupplyCanMove(b, SupplyFor(b, true, draws, safeId))
  {
    var drawn := Drawn(draws);
    if !SupplyCanMove(b, drawn) {
      var r, c :| InBoard(r, c) && b[r][c] == None;
      DotFitsExactlyAtEmptyCells(b, r, c);
      var ps := SupplyFor(b, true, draws, safeId);
      assert FitsSomewhere(b, ps[0].shape);
    }
  }

  /**
    A checked refresh keeps the drawn pieces whenever one of them fits, and
    the rescue DOT is only brought in when none does.
  */
  lemma RescueOnlyWhenStuck(b: Board, draws: seq<Draw>, safeId: string)
    requires IsBoard(b) && ValidDraws(draws)
    ensures SupplyCanMove(b, Drawn(draws)) ==> SupplyFor(b, true, draws, safeId) == Drawn(draws)
    ensures !SupplyCanMove(b, Drawn(draws)) ==> SupplyFor(b, true, draws, safeId)[0] == SafePiece(safeId)
  {
  }

  // ---------------------------------------------------------------------
  // The end-of-game scan
  // ---------------------------------------------------------------------

  /**
    The anchors the end-of-game scan tries: rows 0 to BoardSize - height
    inclusive, but columns only 0 to BoardSize - width exclusive, so the
    last column a piece could start in is never tried.
  */
  ghost predicate GameOverScanFinds(b: Board, s: Shape)
    requires IsBoard(b)
  {
    exists r, c :: 0 <= r <= BoardSize - Height(s) && 0 <= c < BoardSize - Width(s) && CanPlace(b, s, r, c)
  }

  /** The end-of-game scan finds a move for some piece of the supply. */
  ghost predicate GameOverScanCanMove(b: Board, pieces: seq<Piece>)
    requires IsBoard(b)
  {
    exists i :: 0 <= i < |pieces| && GameOverScanFinds(b, pieces[i].shape)
  }

  /** The end-of-game scan for one piece, asking the placement check at each anchor it tries. */
  method ScanPiece(piece: Shape, b: Board) returns (found: bool)
    requires IsBoard(b) && |piece| > 0
    ensures found == GameOverScanFinds(b, piece)
  {
    var r := 0;
    while r <= BoardSize - |piece|
      invariant 0 <= r
      invariant r <= BoardSize - |piece| + 1 || r == 0
      invariant forall i, j :: 0 <= i < r && 0 <= j < BoardSize - |piece[0]| ==> !CanPlace(b, piece, i, j)
      decreases BoardSize - |piece| + 1 - r
    {
      var c := 0;
      while c < BoardSize - |piece[0]|
        invariant 0 <= c
        invariant forall i, j :: 0 <= i < r && 0 <= j < BoardSize - |piece[0]| ==> !CanPlace(b, piece, i, j)
        invariant forall j :: 0 <= j < c ==> !CanPlace(b, piece, r, j)
      {
        var ok := PlacementFits(b, piece, r, c);
        if ok {
          return true;
        }
        c := c + 1;
      }
      r := r + 1;
    }
    return false;
  }

  /** The end-of-game scan over the supply, piece by piece until one can move. */
  method ScanSupply(b: Board, pieces: seq<Piece>) returns (canMove: bool)
    requires IsBoard(b)
    requires forall i :: 0 <= i < |pieces| ==> |pieces[i].shape| > 0
    ensures canMove == GameOverScanCanMove(b, pieces)
  {
    var i := 0;
    while i < |pieces|
      invariant 0 <= i <= |pieces|
      invariant forall k :: 0 <= k < i ==> !GameOverScanFinds(b, pieces[k].shape)
    {
      var found := ScanPiece(pieces[i].shape, b);
      if found {
        return true;
      }
      i := i + 1;
    }
    return false;
  }

  /**
    What the end-of-game scan misses: a shape fits at some anchor of the
    full scan exactly when the end-of-game scan finds it or it fits with
    its left edge in column BoardSize - width.
  */
  lemma GameOverScanMissesOnlyLastColumn(b: Board, s: Shape)
    requires IsBoard(b) && Width(s) <= BoardSize
    ensures FitsSomewhere(b, s) <==>
              GameOverScanFinds(b, s)
              || exists r :: 0 <= r <= BoardSize - Height(s) && FitsAtLastColumn(b, s, r)
  {
    if FitsSomewhere(b, s) {
      var r, c :| 0 <= r <= BoardSize - Height(s) && 0 <= c <= BoardSize - Width(s) && CanPlace(b, s, r, c);
      if c == BoardSize - Width(s) {
        assert FitsAtLastColumn(b, s, r);
      }
    }
    if exists r :: 0 <= r <= BoardSize - Height(s) && FitsAtLastColumn(b, s, r) {
      var r :| 0 <= r <= BoardSize - Height(s) && FitsAtLastColumn(b, s, r);
      assert CanPlace(b, s, r, BoardSize - Width(s));
    }
  }

  /** The shape can be placed with its top row at r and its right edge on the right border. */
  ghost predicate FitsAtLastColumn(b: Board, s: Shape, r: int)
    requires IsBoard(b)
  {
    CanPlace(b, s, r, BoardSize - Width(s))
  }

  /** Whatever the end-of-game scan finds is a real move: it never reports a move that is not there. */
  lemma GameOverScanSound(b: Board, pieces: seq<Piece>)
    requires IsBoard(b)
    ensures GameOverScanCanMove(b, pieces) ==> SupplyCanMove(b, pieces)
  {
    if GameOverScanCanMove(b, pieces) {
      var i :| 0 <= i < |pieces| && GameOverScanFinds(b, pieces[i].shape);
      var r, c :| 0 <= r <= BoardSize - Height(pieces[i].shape) && 0 <= c < BoardSize - Width(pieces[i].shape)
                  && CanPlace(b, pieces[i].shape, r, c);
      assert FitsSomewhere(b, pieces[i].shape);
    }
  }

  /**
    The empty cells of the staircase board: the top two cells of the last
    column, cell (2, 7), and cell (r, r - 2) of every row r from 2 on.
  */
  predicate StaircaseHole(r: int, c: int)
  {
    (0 <= r <= 1 && c == BoardSize - 1) || (r == 2 && c == BoardSize - 2) || (2 <= r < BoardSize && c == r - 2)
  }

  /** A board with no full row and no full column, filled everywhere but at its staircase holes. */
  function StaircaseBoard(): (b: Board)
    ensures IsBoard(b)
    ensures forall r, c :: InBoard(r, c) ==> (b[r][c] == None <==> StaircaseHole(r, c))
  {
    seq(BoardSize, r => seq(BoardSize, c => if StaircaseHole(r, c) then None else Some(ShapeColor(Dot))))
  }

  /**
    The end-of-game scan misses the last anchor column on a board a move can
    leave behind: the staircase board has no full row and no full column,
    so clearing leaves it as it is. The vertical two-cell line fits there
    (at the top of the last column only), yet the scan reports that no
    piece can move.
  */
  lemma GameOverScanSkipsLastColumn()
    ensures var b := StaircaseBoard();
      var supply := [Piece("line", ShapeOf(Line2V), Palette[0])];
      && (forall r :: 0 <= r < BoardSize ==> !RowFull(b, r))
      && (forall c :: 0 <= c < BoardSize ==> !ColFull(b, c))
      && SupplyCanMove(b, supply)
      && !GameOverScanCanMove(b, supply)
  {
    var b := StaircaseBoard();
    var line := ShapeOf(Line2V);
    forall r | 0 <= r < BoardSize ensures !RowFull(b, r) {
      if r <= 1 {
        assert b[r][BoardSize - 1] == None;
      } else {
        assert b[r][r - 2] == None;
      }
    }
    forall c | 0 <= c < BoardSize ensures !ColFull(b, c) {
      if c == BoardSize - 1 {
        assert b[0][c] == None;
      } else if c == BoardSize - 2 {
        assert b[2][c] == None;
      } else {
        assert b[c + 2][c] == None;
      }
    }
    assert CanPlace(b, line, 0, BoardSize - 1);
    var supply := [Piece("line", line, Palette[0])];
    assert FitsSomewhere(b, supply[0].shape);
    assert Filled(line, 0, 0) && Filled(line, 1, 0);
    forall r, c | 0 <= r <= BoardSize - Height(line) && 0 <= c < BoardSize - Width(line)
      ensures !CanPlace(b, line, r, c)
    {
      assert !(b[r][c] == None && b[r + 1][c] == None);
    }
  }

  /**
    A DOT in the supply keeps the end-of-game scan finding a move whenever
    the first column is not full: the DOT fits at an empty cell of column 0,
    which the scan tries.
  */
  lemma DotIsAlwaysFound(b: Board, pieces: seq<Piece>, i: nat)
    requires IsBoard(b) && !ColFull(b, 0)
    requires i < |pieces| && pieces[i].shape == ShapeOf(Dot)
    ensures GameOverScanCanMove(b, pieces)
  {
    var r :| 0 <= r < BoardSize && b[r][0] == None;
    DotFitsExactlyAtEmptyCells(b, r, 0);
    assert GameOverScanFinds(b, pieces[i].shape);
  }

  /** A well-formed shape whose bounding box is tight: it has a filled cell in its first and last row and column. */
  predicate Tight(s: Shape)
    requires WellFormedShape(s)
  {
    var t := Transpose(s);
    1 in s[0] && 1 in s[|s| - 1] && 1 in t[0] && 1 in t[|t| - 1]
  }

  /** Every catalog shape has a tight bounding box. */
  lemma CatalogTight(k: ShapeKey)
    ensures WellFormedShape(ShapeOf(k)) && Tight(ShapeOf(k))
  {
    CatalogWellFormed(k);
    if Ordinal(k) < 11 {
      TightLines(k);
    } else {
      TightPolyominoes(k);
    }
  }

  /** The dot, the squares and the straight lines have tight bounding boxes. */
  lemma TightLines(k: ShapeKey)
    requires WellFormedShape(ShapeOf(k)) && Ordinal(k) < 11
    ensures Tight(ShapeOf(k))
  {
    var s := ShapeOf(k);
    var t := Transpose(s);
    assert t[0][0] == s[0][0] && t[0][|s| - 1] == s[|s| - 1][0];
    assert t[|t| - 1][0] == s[0][|t| - 1] && t[|t| - 1][|s| - 1] == s[|s| - 1][|t| - 1];
    match k
    case Dot => case Square2x2 => case Square3x3 =>
    case Line2H => case Line2V => case Line3H => case Line3V =>
    case Line4H => case Line4V => case Line5H => case Line5V =>
  }

  /** The L, Z, T and R shapes have tight bounding boxes. */
  lemma TightPolyominoes(k: ShapeKey)
    requires WellFormedShape(ShapeOf(k)) && Ordinal(k) >= 11
    ensures Tight(ShapeOf(k))
  {
    var s := ShapeOf(k);
    var t := Transpose(s);
    assert t[0][0] == s[0][0] && t[0][|s| - 1] == s[|s| - 1][0];
    assert t[|t| - 1][0] == s[0][|t| - 1] && t[|t| - 1][|s| - 1] == s[|s| - 1][|t| - 1];
    match k
    case LShape => case LShape2 => case LHorizontal => case LHorizontal2 =>
    case ZShape => case ZShape2 =>
    case TShape => case TReversed => case TLeft => case TRight =>
    case RRight => case RLeft => case RDown => case RUp =>
  }

  /**
    The full scan decides placeability: a tight shape fits at some scanned
    anchor exactly when it can be placed at some anchor at all.
  */
  lemma FitsSomewhereIffPlaceable(b: Board, s: Shape)
    requires IsBoard(b) && WellFormedShape(s) && Tight(s)
    ensures FitsSomewhere(b, s) <==> exists r, c :: CanPlace(b, s, r, c)
  {
    if r, c :| CanPlace(b, s, r, c) {
      var t := Transpose(s);
      var h, w := |s|, |s[0]|;
      var j0 :| 0 <= j0 < w && s[0][j0] == 1;
      assert Filled(s, 0, j0);
      var j1 :| 0 <= j1 < w && s[h - 1][j1] == 1;
      assert Filled(s, h - 1, j1);
      var i0 :| 0 <= i0 < h && t[0][i0] == 1;
      assert Filled(s, i0, 0);
      var i1 :| 0 <= i1 < h && t[w - 1][i1] == 1;
      assert Filled(s, i1, w - 1);
    }
  }
}
