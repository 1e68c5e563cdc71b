/**
  The constant tables of the game: the board size, the shape catalog with its
  colour table, the palette the supply draws colours from and the scoring
  constants.
*/
module Constants {

  /** Side length of the square board. */
  const BoardSize: nat := 9

  /** A piece shape: a matrix of 0/1 entries, row by row. */
  type Shape = seq<seq<int>>

  /** The keys of the shape catalog. */
  datatype ShapeKey =
    | Dot | Square2x2 | Square3x3
    | Line2H | Line2V | Line3H | Line3V | Line4H | Line4V | Line5H | Line5V
    | LShape | LShape2 | LHorizontal | LHorizontal2
    | ZShape | ZShape2
    | TShape | TReversed | TLeft | TRight
    | RRight | RLeft | RDown | RUp

  /** The catalog keys in declaration order (the order in which the supply indexes them). */
  const ShapeKeys: seq<ShapeKey> := [
    Dot, Square2x2, Square3x3,
    Line2H, Line2V, Line3H, Line3V, Line4H, Line4V, Line5H, Line5V,
    LShape, LShape2, LHorizontal, LHorizontal2,
    ZShape, ZShape2,
    TShape, TReversed, TLeft, TRight,
    RRight, RLeft, RDown, RUp
  ]

  /** The shape table: the filled (1) and empty (0) cells of each catalog shape. */
  function ShapeOf(k: ShapeKey): Shape
  {
    match k
    case Dot => [[1]]
    case Square2x2 => [[1, 1], [1, 1]]
    case Square3x3 => [[1, 1, 1], [1, 1, 1], [1, 1, 1]]
    case Line2H => [[1, 1]]
    case Line2V => [[1], [1]]
    case Line3H => [[1, 1, 1]]
    case Line3V => [[1], [1], [1]]
    case Line4H => [[1, 1, 1, 1]]
    case Line4V => [[1], [1], [1], [1]]
    case Line5H => [[1, 1, 1, 1, 1]]
    case Line5V => [[1], [1], [1], [1], [1]]
    case LShape => [[1, 0], [1, 0], [1, 1]]
    case LShape2 => [[0, 1], [0, 1], [1, 1]]
    case LHorizontal => [[1, 1, 1], [1, 0, 0]]
    case LHorizontal2 => [[1, 1, 1], [0, 0, 1]]
    case ZShape => [[1, 1, 0], [0, 1, 1]]
    case ZShape2 => [[0, 1, 1], [1, 1, 0]]
    case TShape => [[1, 1, 1], [0, 1, 0]]
    case TReversed => [[0, 1, 0], [1, 1, 1]]
    case TLeft => [[1, 0], [1, 1], [1, 0]]
    case TRight => [[0, 1], [1, 1], [0, 1]]
    case RRight => [[0, 1], [1, 1]]
    case RLeft => [[1, 0], [1, 1]]
    case RDown => [[1, 1], [1, 0]]
    case RUp => [[1, 1], [0, 1]]
  }

  /** The colour table, defined for exactly the keys of the shape table. */
  function ShapeColor(k: ShapeKey): string
  {
    match k
    case Dot => "#FFC107"
    case Square2x2 => "#FF5252"
    case Square3x3 => "#D32F2F"
    case Line2H => "#00E676"
    case Line2V => "#00E676"
    case Line3H => "#1DE9B6"
    case Line3V => "#1DE9B6"
    case Line4H => "#00BFA5"
    case Line4V => "#00BFA5"
    case Line5H => "#00C853"
    case Line5V => "#00C853"
    case LShape => "#E040FB"
    case LShape2 => "#AA00FF"
    case LHorizontal => "#E040FB"
    case LHorizontal2 => "#AA00FF"
    case ZShape => "#FF9100"
    case ZShape2 => "#FF6D00"
    case TShape => "#2979FF"
    case TReversed => "#2962FF"
    case TLeft => "#304FFE"
    case TRight => "#3D5AFE"
    case RRight => "#00D2D3"
    case RLeft => "#0097e6"
    case RDown => "#00D2D3"
    case RUp => "#0097e6"
  }

  /** The five colours the piece supply draws from (it does not use ShapeColor). */
  const Palette: seq<string> := ["#FF5733", "#33FF57", "#3357FF", "#F333FF", "#FF33A1"]

  // Scoring constants. The streak multiplier 0.15 is kept as a percentage.
  const BaseCell: nat := 0
  const SingleLine: nat := 100
  const MultiLineBase: nat := 100
  const MultiLineBonus: nat := 25
  const StreakMultiplierPercent: nat := 15

  /** Number of entries equal to 1 in a shape. */
  function FilledCount(s: Shape): nat
  {
    if s == [] then 0 else RowFilledCount(s[0]) + FilledCount(s[1..])
  }

  function RowFilledCount(row: seq<int>): nat
  {
    if row == [] then 0 else (if row[0] == 1 then 1 else 0) + RowFilledCount(row[1..])
  }

  /** Height of a shape (its number of rows). */
  function Height(s: Shape): nat { |s| }

  /** Width of a shape, taken from its first row as the game's scans do. */
  function Width(s: Shape): nat { if s == [] then 0 else |s[0]| }

  /**
    A well-formed catalog shape: a non-empty rectangular 0/1 matrix with at
    least one 1, at most 5 rows and at most 5 columns.
  */
  predicate WellFormedShape(s: Shape)
  {
    && 0 < |s| <= 5
    && 0 < |s[0]| <= 5
    && (forall i :: 0 <= i < |s| ==> |s[i]| == |s[0]|)
    && (forall i, j :: 0 <= i < |s| && 0 <= j < |s[i]| ==> s[i][j] == 0 || s[i][j] == 1)
    && FilledCount(s) > 0
  }

  /** The transpose of a rectangular shape. */
  function Transpose(s: Shape): (t: Shape)
    requires 0 < |s| && forall i :: 0 <= i < |s| ==> |s[i]| == |s[0]|
    ensures |t| == |s[0]|
    ensures forall j :: 0 <= j < |t| ==> |t[j]| == |s|
    ensures forall j, i :: 0 <= j < |t| && 0 <= i < |s| ==> t[j][i] == s[i][j]
  {
    seq(|s[0]|, j requires 0 <= j < |s[0]| => seq(|s|, i requires 0 <= i < |s| => s[i][j]))
  }

  /** Position of a key in the catalog order. */
  function Ordinal(k: ShapeKey): nat
  {
    match k
    case Dot => 0 case Square2x2 => 1 case Square3x3 => 2
    case Line2H => 3 case Line2V => 4 case Line3H => 5 case Line3V => 6
    case Line4H => 7 case Line4V => 8 case Line5H => 9 case Line5V => 10
    case LShape => 11 case LShape2 => 12 case LHorizontal => 13 case LHorizontal2 => 14
    case ZShape => 15 case ZShape2 => 16
    case TShape => 17 case TReversed => 18 case TLeft => 19 case TRight => 20
    case RRight => 21 case RLeft => 22 case RDown => 23 case RUp => 24
  }

  /** The catalog order lists each of the 25 keys exactly once. */
  lemma CatalogKeys()
    ensures |ShapeKeys| == 25
    ensures forall i, j :: 0 <= i < j < |ShapeKeys| ==> ShapeKeys[i] != ShapeKeys[j]
    ensures forall k: ShapeKey :: k in ShapeKeys
  {
    assert forall i :: 0 <= i < |ShapeKeys| ==> Ordinal(ShapeKeys[i]) == i;
    forall k: ShapeKey ensures k in ShapeKeys {
      assert Ordinal(k) < 25 && ShapeKeys[Ordinal(k)] == k;
    }
  }

  /** Every catalog shape is a non-empty rectangular 0/1 matrix, at most 5 by 5, with at least one filled cell. */
  lemma CatalogWellFormed(k: ShapeKey)
    ensures WellFormedShape(ShapeOf(k))
    ensures Height(ShapeOf(k)) <= 5 < BoardSize && Width(ShapeOf(k)) <= 5 < BoardSize
  {
    if k == Dot || k == Square2x2 || k == Square3x3 || k == Line2H || k == Line2V {
      WellFormedGroup1(k);
    } else if k == Line3H || k == Line3V || k == Line4H || k == Line4V || k == Line5H {
      WellFormedGroup2(k);
    } else if k == Line5V || k == LShape || k == LShape2 || k == LHorizontal || k == LHorizontal2 {
      WellFormedGroup3(k);
    } else if k == ZShape || k == ZShape2 || k == TShape || k == TReversed || k == TLeft {
      WellFormedGroup4(k);
    } else {
      WellFormedGroup5(k);
    }
  }

  lemma WellFormedGroup1(k: ShapeKey)
    requires k == Dot || k == Square2x2 || k == Square3x3 || k == Line2H || k == Line2V
    ensures WellFormedShape(ShapeOf(k)) && Height(ShapeOf(k)) <= 5 && Width(ShapeOf(k)) <= 5
  {
  }

  lemma WellFormedGroup2(k: ShapeKey)
    requires k == Line3H || k == Line3V || k == Line4H || k == Line4V || k == Line5H
    ensures WellFormedShape(ShapeOf(k)) && Height(ShapeOf(k)) <= 5 && Width(ShapeOf(k)) <= 5
  {
  }

  lemma WellFormedGroup3(k: ShapeKey)
    requires k == Line5V || k == LShape || k == LShape2 || k == LHorizontal || k == LHorizontal2
    ensures WellFormedShape(ShapeOf(k)) && Height(ShapeOf(k)) <= 5 && Width(ShapeOf(k)) <= 5
  {
  }

  lemma WellFormedGroup4(k: ShapeKey)
    requires k == ZShape || k == ZShape2 || k == TShape || k == TReversed || k == TLeft
    ensures WellFormedShape(ShapeOf(k)) && Height(ShapeOf(k)) <= 5 && Width(ShapeOf(k)) <= 5
  {
  }

  lemma WellFormedGroup5(k: ShapeKey)
    requires k == TRight || k == RRight || k == RLeft || k == RDown || k == RUp
    ensures WellFormedShape(ShapeOf(k)) && Height(ShapeOf(k)) <= 5 && Width(ShapeOf(k)) <= 5
  {
  }

  /** A shape whose entries are those of s with rows and columns exchanged is the transpose of s. */
  lemma TransposeIs(s: Shape, t: Shape)
    requires 0 < |s| && forall i :: 0 <= i < |s| ==> |s[i]| == |s[0]|
    requires |t| == |s[0]| && forall j :: 0 <= j < |t| ==> |t[j]| == |s|
    requires forall j, i :: 0 <= j < |t| && 0 <= i < |s| ==> t[j][i] == s[i][j]
    ensures Transpose(s) == t
  {
    var u := Transpose(s);
    forall j | 0 <= j < |t| ensures u[j] == t[j] {
      assert |u[j]| == |t[j]|;
    }
  }

  /** Each horizontal line is the transpose of the vertical line of the same length, and back. */
  lemma LinesAreTransposes()
    ensures Transpose(ShapeOf(Line2H)) == ShapeOf(Line2V) && Transpose(ShapeOf(Line2V)) == ShapeOf(Line2H)
    ensures Transpose(ShapeOf(Line3H)) == ShapeOf(Line3V) && Transpose(ShapeOf(Line3V)) == ShapeOf(Line3H)
    ensures Transpose(ShapeOf(Line4H)) == ShapeOf(Line4V) && Transpose(ShapeOf(Line4V)) == ShapeOf(Line4H)
    ensures Transpose(ShapeOf(Line5H)) == ShapeOf(Line5V) && Transpose(ShapeOf(Line5V)) == ShapeOf(Line5H)
  {
    var pairs := [(Line2H, Line2V), (Line3H, Line3V), (Line4H, Line4V), (Line5H, Line5V)];
    forall p | p in pairs
      ensures Transpose(ShapeOf(p.0)) == ShapeOf(p.1) && Transpose(ShapeOf(p.1)) == ShapeOf(p.0)
    {
      TransposeIs(ShapeOf(p.0), ShapeOf(p.1));
      TransposeIs(ShapeOf(p.1), ShapeOf(p.0));
    }
    assert (Line2H, Line2V) in pairs && (Line3H, Line3V) in pairs;
    assert (Line4H, Line4V) in pairs && (Line5H, Line5V) in pairs;
  }

  /** The single-cell DOT is the only catalog shape with exactly one filled cell. */
  lemma DotIsTheOnlySingleCell(k: ShapeKey)
    ensures FilledCount(ShapeOf(k)) == 1 <==> k == Dot
  {
    match k
    case Dot => case Square2x2 => case Square3x3 =>
    case Line2H => case Line2V => case Line3H => case Line3V =>
    case Line4H => case Line4V => case Line5H => case Line5V =>
    case LShape => case LShape2 => case LHorizontal => case LHorizontal2 =>
    case ZShape => case ZShape2 =>
    case TShape => case TReversed => case TLeft => case TRight =>
    case RRight => case RLeft => case RDown => case RUp =>
  }
}
