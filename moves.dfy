/** The moves a player makes: exchanging a cell with the one below or to its
    right, turning a 2x2 square clockwise, rotating a row to the right and
    rotating a column down. Each move can be asked whether it fits a board,
    applied to a board, reversed, and asked which positions it affects. */
module Moves {
  import opened Types
  import opened Columns
  import opened Grids
  import opened TokenText
  import opened Boards

  /** A move. The reversed flag is the reverse mode of the rotations, which
      only reverse() switches on. */
  datatype Move =
    | FlipDown(a: Position)
    | FlipRight(a: Position)
    | RotateSquare(a: Position, reversed: bool)
    | RotateRow(row: int, reversed: bool)
    | RotateColumn(column: int, reversed: bool)

  /** A move as the move factory makes it: not in reverse mode. */
  predicate Forward(m: Move)
  {
    match m
    case RotateSquare(_, reversed) => !reversed
    case RotateRow(_, reversed) => !reversed
    case RotateColumn(_, reversed) => !reversed
    case _ => true
  }

  /** Position p lies on a board of the given size. */
  predicate Inside(p: Position, columns: int, rows: int)
  {
    0 <= p.0 < columns && 0 <= p.1 < rows
  }

  /** The cell a flip exchanges with its position a: the one below a, or the
      one to its right. */
  function Partner(m: Move): Position
    requires m.FlipDown? || m.FlipRight?
  {
    if m.FlipDown? then Plus(m.a, (0, 1)) else Plus(m.a, (1, 0))
  }

  /** The corners B (right of A), C (below A) and D (below B) of the square
      whose top-left corner A is a. */
  function CornerB(a: Position): Position { Plus(a, (1, 0)) }
  function CornerC(a: Position): Position { Plus(a, (0, 1)) }
  function CornerD(a: Position): Position { Plus(a, (1, 1)) }

  predicate SquareInside(a: Position, columns: int, rows: int)
  {
    Inside(a, columns, rows) && Inside(CornerB(a), columns, rows) &&
    Inside(CornerC(a), columns, rows) && Inside(CornerD(a), columns, rows)
  }

  /** canBeApplied: every cell of a flip or a square on the board; a row or
      column index not past the last one, so that a negative index passes. */
  function CanBeApplied(m: Move, columns: int, rows: int): bool
  {
    match m
    case FlipDown(a) => Inside(a, columns, rows) && Inside(Partner(m), columns, rows)
    case FlipRight(a) => Inside(a, columns, rows) && Inside(Partner(m), columns, rows)
    case RotateSquare(a, _) => SquareInside(a, columns, rows)
    case RotateRow(row, _) => rows - 1 >= row
    case RotateColumn(column, _) => columns - 1 >= column
  }

  /** Whether apply succeeds: canBeApplied, and for a row or a column a
      non-negative index too, since reading a negative one fails. */
  predicate Applies(m: Move, columns: int, rows: int)
  {
    && CanBeApplied(m, columns, rows)
    && (m.RotateRow? ==> 0 <= m.row)
    && (m.RotateColumn? ==> 0 <= m.column)
  }

  /** reverse(): a flip is its own reverse; a rotation's reverse is the same
      rotation in reverse mode, whatever the mode of the move reversed. */
  function Reverse(m: Move): Move
  {
    match m
    case RotateSquare(a, _) => RotateSquare(a, true)
    case RotateRow(row, _) => RotateRow(row, true)
    case RotateColumn(column, _) => RotateColumn(column, true)
    case _ => m
  }

  /** The positions s, or a dimension error when one of them is off the board. */
  function AllInside(s: set<Position>, columns: int, rows: int): Result<set<Position>>
  {
    if forall p :: p in s ==> Inside(p, columns, rows) then Ok(s) else Err(BoardDimension)
  }

  /** getAffectedPositions. That of a column rotation is bounded by the
      number of columns, not rows, leaves out the last index and is not
      checked against the board. */
  function AffectedPositions(m: Move, columns: int, rows: int): Result<set<Position>>
  {
    match m
    case FlipDown(a) => AllInside({a, Partner(m)}, columns, rows)
    case FlipRight(a) => AllInside({a, Partner(m)}, columns, rows)
    case RotateSquare(a, _) => AllInside({a, CornerB(a), CornerC(a), CornerD(a)}, columns, rows)
    case RotateRow(row, _) => AllInside(set i | 0 <= i < columns :: (i, row), columns, rows)
    case RotateColumn(column, _) => Ok(set i | 0 <= i < columns - 1 :: (column, i))
  }

  // ---------------------------------------------------------------------------
  // What the moves do to a grid
  // ---------------------------------------------------------------------------

  predicate SquareOn(g: Grid, a: Position)
  {
    SquareInside(a, Width(g), |g|)
  }

  /** One clockwise turn of the square at a, as the three swaps (A, B),
      (C, D), (A, D) of apply. */
  function Turn(g: Grid, a: Position): (r: Grid)
    requires Rect(g) && SquareOn(g, a)
    ensures SameShape(g, r)
  {
    Swap(Swap(Swap(g, a, CornerB(a)), CornerC(a), CornerD(a)), a, CornerD(a))
  }

  /** The three swaps turn the square clockwise: the contents (a, b, c, d) of
      its corners (A, B, C, D) become (c, a, d, b); no other cell changes. */
  lemma TurnCells(g: Grid, a: Position)
    requires Rect(g) && SquareOn(g, a)
    ensures Cell(Turn(g, a), a) == Cell(g, CornerC(a)) && Cell(Turn(g, a), CornerB(a)) == Cell(g, a)
    ensures Cell(Turn(g, a), CornerC(a)) == Cell(g, CornerD(a)) && Cell(Turn(g, a), CornerD(a)) == Cell(g, CornerB(a))
    ensures forall q :: OnGrid(g, q) && q !in {a, CornerB(a), CornerC(a), CornerD(a)} ==> Cell(Turn(g, a), q) == Cell(g, q)
  {
  }

  /** k clockwise turns. */
  function TurnTimes(g: Grid, a: Position, k: nat): (r: Grid)
    requires Rect(g) && SquareOn(g, a)
    ensures SameShape(g, r)
  {
    if k == 0 then g else Turn(TurnTimes(g, a, k - 1), a)
  }

  /** Row y rotated one step to the right: each cell of the row takes the
      one left of it, the first one takes the last one; every other row
      unchanged. */
  function RowRight(g: Grid, y: int): (r: Grid)
    requires Rect(g) && 0 <= y < |g|
    ensures SameShape(g, r)
  {
    var row := g[y];
    g[y := seq(|row|, i requires 0 <= i < |row| => if i == 0 then row[|row| - 1] else row[i - 1])]
  }

  /** A right step replaces the row by its rotation to the right. */
  lemma RowRightRotates(g: Grid, y: int)
    requires Rect(g) && 0 <= y < |g|
    ensures RowRight(g, y) == g[y := RotateRight(g[y])]
  {
    if |g[y]| > 0 {
      RotateRightIndex(g[y]);
    }
    assert RowRight(g, y)[y] == RotateRight(g[y]);
  }

  /** A right step of row y moves each of its cells one place right, and
      its last cell to the front; no other cell changes. */
  lemma RowRightCells(g: Grid, y: int)
    requires Rect(g) && 0 <= y < |g|
    ensures forall q :: OnGrid(g, q) ==>
              Cell(RowRight(g, y), q) == if q.1 != y then Cell(g, q)
                                         else if q.0 == 0 then Cell(g, (Width(g) - 1, y))
                                         else Cell(g, (q.0 - 1, y))
  {
  }

  function RowRightTimes(g: Grid, y: int, k: nat): (r: Grid)
    requires Rect(g) && 0 <= y < |g|
    ensures SameShape(g, r)
  {
    if k == 0 then g else RowRight(RowRightTimes(g, y, k - 1), y)
  }

  /** Column x rotated one step down: each cell of the column takes the
      one above it, the top one takes the bottom one; every other column
      unchanged. */
  function ColumnDown(g: Grid, x: int): (r: Grid)
    requires Rect(g) && 0 <= x < Width(g)
    ensures SameShape(g, r)
  {
    seq(|g|, y requires 0 <= y < |g| => g[y][x := if y == 0 then g[|g| - 1][x] else g[y - 1][x]])
  }

  /** A down step of column x moves each of its cells one place down, and
      its bottom cell to the top; no other cell changes. */
  lemma ColumnDownCells(g: Grid, x: int)
    requires Rect(g) && 0 <= x < Width(g)
    ensures forall q :: OnGrid(g, q) ==>
              Cell(ColumnDown(g, x), q) == if q.0 != x then Cell(g, q)
                                           else if q.1 == 0 then Cell(g, (x, |g| - 1))
                                           else Cell(g, (x, q.1 - 1))
  {
    forall q | OnGrid(g, q)
      ensures Cell(ColumnDown(g, x), q) == if q.0 != x then Cell(g, q)
                                           else if q.1 == 0 then Cell(g, (x, |g| - 1))
                                           else Cell(g, (x, q.1 - 1))
    {
      assert ColumnDown(g, x)[q.1] == g[q.1][x := if q.1 == 0 then g[|g| - 1][x] else g[q.1 - 1][x]];
    }
  }

  /** A down step replaces the column by its rotation to the right. */
  lemma {:induction false} ColumnDownRotates(g: Grid, x: int)
    requires Rect(g) && 0 <= x < Width(g)
    ensures ColumnDown(g, x) == SetColumn(g, x, RotateRight(Column(g, x)))
  {
    var c := Column(g, x);
    ColumnDownCells(g, x);
    SetColumnCells(g, x, RotateRight(c));
    if |g| > 0 {
      RotateRightIndex(c);
    }
    SameGrid(ColumnDown(g, x), SetColumn(g, x, RotateRight(c)));
  }

  /** k down steps of column x: the column rotated k times to the right. */
  function ColumnDownTimes(g: Grid, x: int, k: nat): (r: Grid)
    requires Rect(g) && 0 <= x < Width(g)
    ensures SameShape(g, r)
  {
    SetColumn(g, x, RotateRightTimes(Column(g, x), k))
  }

  /** One more right step of a row. */
  lemma RowRightTimesNext(g: Grid, y: int, k: nat, h: Grid)
    requires Rect(g) && 0 <= y < |g| && h == RowRightTimes(g, y, k)
    ensures RowRight(h, y) == RowRightTimes(g, y, k + 1)
  {
  }

  /** No down step leaves the grid as it is. */
  lemma ColumnDownTimesZero(g: Grid, x: int)
    requires Rect(g) && 0 <= x < Width(g)
    ensures ColumnDownTimes(g, x, 0) == g
  {
    SetColumnColumn(g, x, Column(g, x));
  }

  /** One more down step of a column. */
  lemma {:induction false} ColumnDownTimesNext(g: Grid, x: int, k: nat, h: Grid)
    requires Rect(g) && 0 <= x < Width(g) && h == ColumnDownTimes(g, x, k)
    ensures ColumnDown(h, x) == ColumnDownTimes(g, x, k + 1)
  {
    ColumnDownOfSet(g, x, RotateRightTimes(Column(g, x), k));
    RotateRightTimesLast(Column(g, x), k);
  }

  /** What apply does to the grid: one swap for a flip; one turn, or three
      in reverse mode, for a square; one step, or one less than the row's
      (column's) length in reverse mode, for a row (column). */
  function Transform(m: Move, g: Grid): (r: Grid)
    requires WellShaped(g) && Applies(m, Width(g), |g|)
    ensures SameShape(g, r)
  {
    match m
    case FlipDown(a) => Swap(g, a, Partner(m))
    case FlipRight(a) => Swap(g, a, Partner(m))
    case RotateSquare(a, reversed) => TurnTimes(g, a, if reversed then 3 else 1)
    case RotateRow(row, reversed) => RowRightTimes(g, row, if reversed then Width(g) - 1 else 1)
    case RotateColumn(column, reversed) => ColumnDownTimes(g, column, if reversed then |g| - 1 else 1)
  }

  // ---------------------------------------------------------------------------
  // Properties of the moves
  // ---------------------------------------------------------------------------

  /** A move not in reverse mode makes exactly one step. */
  lemma ForwardStep(m: Move, g: Grid)
    requires WellShaped(g) && Forward(m) && Applies(m, Width(g), |g|)
    ensures m.RotateSquare? ==> Transform(m, g) == Turn(g, m.a)
    ensures m.RotateRow? ==> Transform(m, g) == RowRight(g, m.row)
    ensures m.RotateColumn? ==> Transform(m, g) == ColumnDown(g, m.column)
  {
    match m
    case RotateSquare(a, _) => assert TurnTimes(g, a, 0) == g;
    case RotateRow(y, _) => assert RowRightTimes(g, y, 0) == g;
    case RotateColumn(x, _) =>
      assert RotateRightTimes(Column(g, x), 1) == RotateRight(Column(g, x));
      ColumnDownRotates(g, x);
    case _ =>
  }

  /** Two turns exchange opposite corners. */
  lemma {:induction false} TurnTwiceCells(g: Grid, a: Position)
    requires Rect(g) && SquareOn(g, a)
    ensures Cell(Turn(Turn(g, a), a), a) == Cell(g, CornerD(a))
    ensures Cell(Turn(Turn(g, a), a), CornerD(a)) == Cell(g, a)
    ensures Cell(Turn(Turn(g, a), a), CornerB(a)) == Cell(g, CornerC(a))
    ensures Cell(Turn(Turn(g, a), a), CornerC(a)) == Cell(g, CornerB(a))
    ensures forall q :: OnGrid(g, q) && q !in {a, CornerB(a), CornerC(a), CornerD(a)} ==>
              Cell(Turn(Turn(g, a), a), q) == Cell(g, q)
  {
    TurnCells(g, a);
    TurnCells(Turn(g, a), a);
  }

  /** Four clockwise turns of a square are the identity. */
  lemma {:induction false} TurnFour(g: Grid, a: Position)
    requires Rect(g) && SquareOn(g, a)
    ensures Turn(Turn(Turn(Turn(g, a), a), a), a) == g
  {
    var g2 := Turn(Turn(g, a), a);
    TurnTwiceCells(g, a);
    TurnTwiceCells(g2, a);
    SameGrid(Turn(Turn(g2, a), a), g);
  }

  /** Three turns, unrolled. */
  lemma TurnThrice(g: Grid, a: Position)
    requires Rect(g) && SquareOn(g, a)
    ensures TurnTimes(g, a, 3) == Turn(Turn(Turn(g, a), a), a)
  {
    assert TurnTimes(g, a, 1) == Turn(g, a);
  }

  /** Three turns undo one. */
  lemma TurnUndone(g: Grid, a: Position)
    requires Rect(g) && SquareOn(g, a)
    ensures TurnTimes(Turn(g, a), a, 3) == g
  {
    TurnThrice(Turn(g, a), a);
    TurnFour(g, a);
  }

  /** k right steps of a row rotate the row k times and leave the others. */
  lemma {:induction false} RowRightTimesRotates(g: Grid, y: int, k: nat)
    requires Rect(g) && 0 <= y < |g|
    ensures RowRightTimes(g, y, k) == g[y := RotateRightTimes(g[y], k)]
    decreases k
  {
    if k > 0 {
      RowRightTimesRotates(g, y, k - 1);
      RowRightRotates(RowRightTimes(g, y, k - 1), y);
      RotateRightTimesLast(g[y], k - 1);
    }
  }

  /** A down step of a replaced column rotates the replacement. */
  lemma {:induction false} ColumnDownOfSet(g: Grid, x: int, c: Line)
    requires Rect(g) && 0 <= x < Width(g) && |c| == |g|
    ensures ColumnDown(SetColumn(g, x, c), x) == SetColumn(g, x, RotateRight(c))
  {
    var h := SetColumn(g, x, c);
    ColumnDownRotates(h, x);
    SetColumnColumn(g, x, c);
    SetColumnTwice(g, x, c, RotateRight(c));
  }

  /** The last step count of a move in reverse mode, unrolled. */
  lemma ReverseSteps(m: Move, g: Grid)
    requires WellShaped(g) && Applies(m, Width(g), |g|) && !Forward(m)
    ensures m.RotateSquare? ==> Transform(m, g) == TurnTimes(g, m.a, 3)
    ensures m.RotateRow? ==> Transform(m, g) == RowRightTimes(g, m.row, Width(g) - 1)
    ensures m.RotateColumn? ==> Transform(m, g) == ColumnDownTimes(g, m.column, |g| - 1)
  {
  }

  /** |row| - 1 right steps of a row are one left step. */
  lemma {:induction false} RowRightTimesLeft(g: Grid, y: int)
    requires Rect(g) && 0 <= y < |g| && |g[y]| >= 1
    ensures RowRightTimes(g, y, |g[y]| - 1) == g[y := RotateLeft(g[y])]
  {
    RowRightTimesRotates(g, y, |g[y]| - 1);
    RotateRightAlmostFullIsLeft(g[y]);
  }

  /** |column| - 1 down steps of a column are one up step. */
  lemma {:induction false} ColumnDownTimesUp(g: Grid, x: int)
    requires Rect(g) && 0 <= x < Width(g) && |g| >= 1
    ensures ColumnDownTimes(g, x, |g| - 1) == SetColumn(g, x, RotateLeft(Column(g, x)))
  {
    RotateRightAlmostFullIsLeft(Column(g, x));
  }

  /** A row move in reverse mode rotates the row one step to the left. */
  lemma {:induction false} ReversedRowIsLeft(g: Grid, y: int)
    requires WellShaped(g) && 0 <= y < |g|
    ensures Transform(RotateRow(y, true), g) == g[y := RotateLeft(g[y])]
  {
    ReverseSteps(RotateRow(y, true), g);
    RowRightTimesLeft(g, y);
  }

  /** A column move in reverse mode rotates the column one step up. */
  lemma {:induction false} ReversedColumnIsUp(g: Grid, x: int)
    requires WellShaped(g) && 0 <= x < Width(g)
    ensures Transform(RotateColumn(x, true), g) == SetColumn(g, x, RotateLeft(Column(g, x)))
  {
    ReverseSteps(RotateColumn(x, true), g);
    ColumnDownTimesUp(g, x);
  }

  /** A square move in reverse mode undoes the forward one. */
  lemma {:induction false} SquareRestores(g: Grid, a: Position)
    requires WellShaped(g) && SquareOn(g, a)
    ensures Transform(RotateSquare(a, true), Transform(RotateSquare(a, false), g)) == g
  {
    ForwardStep(RotateSquare(a, false), g);
    TurnUndone(g, a);
  }

  /** A row move in reverse mode undoes the forward one. */
  lemma {:induction false} RowRestores(g: Grid, y: int)
    requires WellShaped(g) && 0 <= y < |g|
    ensures Transform(RotateRow(y, true), Transform(RotateRow(y, false), g)) == g
  {
    ForwardStep(RotateRow(y, false), g);
    ReverseSteps(RotateRow(y, true), RowRight(g, y));
    RowRightUndone(g, y);
  }

  /** |row| - 1 further right steps undo a right step. */
  lemma {:induction false} RowRightUndone(g: Grid, y: int)
    requires Rect(g) && 0 <= y < |g| && |g[y]| >= 1
    ensures RowRightTimes(RowRight(g, y), y, |g[y]| - 1) == g
  {
    var r := RowRight(g, y);
    RowRightRotates(g, y);
    RowRightTimesRotates(r, y, |g[y]| - 1);
    RotateRightUndone(g[y]);
    assert r[y := RotateRightTimes(r[y], |g[y]| - 1)] == g;
  }

  /** A column move in reverse mode undoes the forward one. */
  lemma {:induction false} ColumnRestores(g: Grid, x: int)
    requires WellShaped(g) && 0 <= x < Width(g)
    ensures Transform(RotateColumn(x, true), Transform(RotateColumn(x, false), g)) == g
  {
    ForwardStep(RotateColumn(x, false), g);
    ReverseSteps(RotateColumn(x, true), ColumnDown(g, x));
    ColumnDownUndone(g, x);
  }

  /** |g| - 1 further down steps undo a down step. */
  lemma {:induction false} ColumnDownUndone(g: Grid, x: int)
    requires Rect(g) && 0 <= x < Width(g)
    ensures ColumnDownTimes(ColumnDown(g, x), x, |g| - 1) == g
  {
    var c := Column(g, x);
    ColumnDownRotates(g, x);
    ColumnDownTimesOfSet(g, x, RotateRight(c), |g| - 1);
    RotateRightUndone(c);
    SetColumnColumn(g, x, c);
  }

  /** k down steps of a replaced column rotate the replacement k times. */
  lemma {:induction false} ColumnDownTimesOfSet(g: Grid, x: int, c: Line, k: nat)
    requires Rect(g) && 0 <= x < Width(g) && |c| == |g|
    ensures ColumnDownTimes(SetColumn(g, x, c), x, k) == SetColumn(g, x, RotateRightTimes(c, k))
  {
    SetColumnColumn(g, x, c);
    SetColumnTwice(g, x, c, RotateRightTimes(c, k));
  }

  /** Applying a move the factory makes and then its reverse restores the
      grid. */
  lemma {:induction false} ReverseRestores(m: Move, g: Grid)
    requires WellShaped(g) && Forward(m) && Applies(m, Width(g), |g|)
    ensures Applies(Reverse(m), Width(g), |g|)
    ensures Transform(Reverse(m), Transform(m, g)) == g
  {
    match m
    case FlipDown(a) =>
      SwapTwice(g, a, Partner(m));
    case FlipRight(a) =>
      SwapTwice(g, a, Partner(m));
    case RotateSquare(a, _) =>
      SquareRestores(g, a);
    case RotateRow(y, _) =>
      RowRestores(g, y);
    case RotateColumn(x, _) =>
      ColumnRestores(g, x);
  }

  /** Four applications of a square move not in reverse mode are the identity. */
  lemma {:induction false} SquareFourTimes(g: Grid, a: Position)
    requires WellShaped(g) && SquareOn(g, a)
    ensures Transform(RotateSquare(a, false),
              Transform(RotateSquare(a, false),
                Transform(RotateSquare(a, false),
                  Transform(RotateSquare(a, false), g)))) == g
  {
    var g1 := Turn(g, a);
    var g2 := Turn(g1, a);
    var g3 := Turn(g2, a);
    ForwardStep(RotateSquare(a, false), g);
    ForwardStep(RotateSquare(a, false), g1);
    ForwardStep(RotateSquare(a, false), g2);
    ForwardStep(RotateSquare(a, false), g3);
    TurnFour(g, a);
  }

  /** The affected positions of a row move: reported exactly when the move
      applies, and they hold every cell the move changes. */
  lemma {:induction false} RowAffected(g: Grid, y: int)
    requires WellShaped(g)
    ensures AffectedPositions(RotateRow(y, false), Width(g), |g|).Ok? <==> Applies(RotateRow(y, false), Width(g), |g|)
    ensures Applies(RotateRow(y, false), Width(g), |g|) ==>
              forall q :: OnGrid(g, q) && Cell(Transform(RotateRow(y, false), g), q) != Cell(g, q) ==>
                q in AffectedPositions(RotateRow(y, false), Width(g), |g|).value
  {
    var s := set i | 0 <= i < Width(g) :: (i, y);
    assert (0, y) in s;
    if Applies(RotateRow(y, false), Width(g), |g|) {
      ForwardStep(RotateRow(y, false), g);
      RowRightCells(g, y);
      forall q | OnGrid(g, q) && Cell(RowRight(g, y), q) != Cell(g, q)
        ensures q in s
      {
        assert q == (q.0, y);
      }
    }
  }

  /** The affected positions of a square move: reported exactly when the
      move applies, and they hold every cell the move changes. */
  lemma {:induction false} SquareAffected(g: Grid, a: Position)
    requires WellShaped(g)
    ensures AffectedPositions(RotateSquare(a, false), Width(g), |g|).Ok? <==> Applies(RotateSquare(a, false), Width(g), |g|)
    ensures Applies(RotateSquare(a, false), Width(g), |g|) ==>
              forall q :: OnGrid(g, q) && Cell(Transform(RotateSquare(a, false), g), q) != Cell(g, q) ==>
                q in AffectedPositions(RotateSquare(a, false), Width(g), |g|).value
  {
    if Applies(RotateSquare(a, false), Width(g), |g|) {
      ForwardStep(RotateSquare(a, false), g);
      TurnCells(g, a);
    }
  }

  /** For flips, squares and rows, getAffectedPositions succeeds exactly when
      apply does, and reports every cell that apply changes. */
  lemma {:induction false} AffectedCoversChanges(m: Move, g: Grid)
    requires WellShaped(g) && !m.RotateColumn? && Forward(m)
    ensures AffectedPositions(m, Width(g), |g|).Ok? <==> Applies(m, Width(g), |g|)
    ensures Applies(m, Width(g), |g|) ==>
              forall q :: OnGrid(g, q) && Cell(Transform(m, g), q) != Cell(g, q) ==>
                q in AffectedPositions(m, Width(g), |g|).value
  {
    match m
    case FlipDown(a) =>
    case FlipRight(a) =>
    case RotateSquare(a, _) =>
      SquareAffected(g, a);
    case RotateRow(y, _) =>
      RowAffected(g, y);
  }

  /** As written, a column move reports only the rows above the number of
      columns less one, so on a board with at least as many rows as columns
      its bottom cell, which the move rewrites, is not reported. */
  lemma {:induction false} ColumnAffectedAsWritten(x: int, reversed: bool, g: Grid)
    requires WellShaped(g) && 0 <= x < Width(g)
    ensures AffectedPositions(RotateColumn(x, reversed), Width(g), |g|).Ok?
    ensures forall q :: q in AffectedPositions(RotateColumn(x, reversed), Width(g), |g|).value <==>
              q.0 == x && 0 <= q.1 < Width(g) - 1
    ensures |g| >= Width(g) ==>
              (x, |g| - 1) !in AffectedPositions(RotateColumn(x, reversed), Width(g), |g|).value
  {
  }

  // ---------------------------------------------------------------------------
  // The moves on a board
  // ---------------------------------------------------------------------------

  /** apply: the move made on the board, or a dimension error that leaves
      the board unchanged. */
  method Apply(m: Move, board: Board) returns (o: Outcome)
    requires board.Valid()
    modifies board.cells
    ensures board.Valid()
    ensures o.Done? <==> Applies(m, Width(old(board.Model())), |old(board.Model())|)
    ensures o.Fail? ==> o.error == BoardDimension && board.Model() == old(board.Model())
    ensures o.Done? ==> board.Model() == Transform(m, old(board.Model()))
  {
    match m {
      case FlipDown(_) => o := ApplyFlip(m, board);
      case FlipRight(_) => o := ApplyFlip(m, board);
      case RotateSquare(_, _) => o := ApplySquare(m, board);
      case RotateRow(_, _) => o := ApplyRow(m, board);
      case RotateColumn(_, _) => o := ApplyColumn(m, board);
    }
  }

  /** apply of a flip: canBeApplied, then one swap. */
  method ApplyFlip(m: Move, board: Board) returns (o: Outcome)
    requires board.Valid() && (m.FlipDown? || m.FlipRight?)
    modifies board.cells
    ensures board.Valid()
    ensures o.Done? <==> Applies(m, Width(old(board.Model())), |old(board.Model())|)
    ensures o.Fail? ==> o.error == BoardDimension && board.Model() == old(board.Model())
    ensures o.Done? ==> board.Model() == Transform(m, old(board.Model()))
  {
    board.ValidShape();
    if !CanBeApplied(m, board.ColumnCount(), board.RowCount()) {
      return Fail(BoardDimension);
    }
    o := board.SwapTokens(m.a, Partner(m));
  }

  /** apply of a square move: canBeApplied, then one turn, or three in
      reverse mode. */
  method ApplySquare(m: Move, board: Board) returns (o: Outcome)
    requires board.Valid() && m.RotateSquare?
    modifies board.cells
    ensures board.Valid()
    ensures o.Done? <==> Applies(m, Width(old(board.Model())), |old(board.Model())|)
    ensures o.Fail? ==> o.error == BoardDimension && board.Model() == old(board.Model())
    ensures o.Done? ==> board.Model() == Transform(m, old(board.Model()))
  {
    board.ValidShape();
    if !CanBeApplied(m, board.ColumnCount(), board.RowCount()) {
      return Fail(BoardDimension);
    }
    TurnSquare(board, m.a, if m.reversed then 3 else 1);
    o := Done;
  }

  /** apply of a row move: canBeApplied, then one step, or one less than
      the number of columns in reverse mode. */
  method ApplyRow(m: Move, board: Board) returns (o: Outcome)
    requires board.Valid() && m.RotateRow?
    modifies board.cells
    ensures board.Valid()
    ensures o.Done? <==> Applies(m, Width(old(board.Model())), |old(board.Model())|)
    ensures o.Fail? ==> o.error == BoardDimension && board.Model() == old(board.Model())
    ensures o.Done? ==> board.Model() == Transform(m, old(board.Model()))
  {
    board.ValidShape();
    var columns := board.ColumnCount();
    if !CanBeApplied(m, columns, board.RowCount()) {
      return Fail(BoardDimension);
    }
    o := RotateRowOn(board, m.row, if m.reversed then columns - 1 else 1);
  }

  /** apply of a column move: canBeApplied, then one step, or one less than
      the number of rows in reverse mode. */
  method ApplyColumn(m: Move, board: Board) returns (o: Outcome)
    requires board.Valid() && m.RotateColumn?
    modifies board.cells
    ensures board.Valid()
    ensures o.Done? <==> Applies(m, Width(old(board.Model())), |old(board.Model())|)
    ensures o.Fail? ==> o.error == BoardDimension && board.Model() == old(board.Model())
    ensures o.Done? ==> board.Model() == Transform(m, old(board.Model()))
  {
    board.ValidShape();
    var rows := board.RowCount();
    if !CanBeApplied(m, board.ColumnCount(), rows) {
      return Fail(BoardDimension);
    }
    o := RotateColumnOn(board, m.column, if m.reversed then rows - 1 else 1);
  }

  /** The loop of a square move: count times, one turn. */
  method TurnSquare(board: Board, a: Position, count: nat)
    requires board.Valid() && SquareOn(board.Model(), a)
    modifies board.cells
    ensures board.Valid()
    ensures board.Model() == TurnTimes(old(board.Model()), a, count)
  {
    ghost var g := board.Model();
    var done := 0;
    while done < count
      invariant board.Valid() && done <= count
      invariant board.Model() == TurnTimes(g, a, done)
    {
      TurnOnce(board, a);
      done := done + 1;
    }
  }

  /** One turn of the square: the swaps (A, B), (C, D), (A, D). */
  method TurnOnce(board: Board, a: Position)
    requires board.Valid() && SquareOn(board.Model(), a)
    modifies board.cells
    ensures board.Valid()
    ensures board.Model() == Turn(old(board.Model()), a)
  {
    var o1 := board.SwapTokens(a, CornerB(a));
    var o2 := board.SwapTokens(CornerC(a), CornerD(a));
    var o3 := board.SwapTokens(a, CornerD(a));
  }

  /** The loop of a row move: count times, one step right. A negative row
      fails at the first read. */
  method RotateRowOn(board: Board, row: int, count: nat) returns (o: Outcome)
    requires board.Valid() && row < |board.Model()| && count >= 1
    modifies board.cells
    ensures board.Valid()
    ensures o.Done? <==> 0 <= row
    ensures o.Fail? ==> o.error == BoardDimension && board.Model() == old(board.Model())
    ensures o.Done? ==> board.Model() == RowRightTimes(old(board.Model()), row, count)
  {
    ghost var g := board.Model();
    var done := 0;
    while done < count
      invariant board.Valid() && 0 <= done <= count
      invariant row < |board.Model()|
      invariant row < 0 ==> done == 0 && board.Model() == g
      invariant 0 <= row ==> board.Model() == RowRightTimes(g, row, done)
    {
      ghost var before := board.Model();
      o := RowStep(board, row);
      if o.Fail? {
        return;
      }
      RowRightTimesNext(g, row, done, before);
      done := done + 1;
    }
    return Done;
  }

  /** One step of a row move: the last cell is read, then every cell, and
      the list from its front is written back over the row. */
  method RowStep(board: Board, row: int) returns (o: Outcome)
    requires board.Valid() && row < |board.Model()|
    modifies board.cells
    ensures board.Valid()
    ensures o.Done? <==> 0 <= row
    ensures o.Fail? ==> o.error == BoardDimension && board.Model() == old(board.Model())
    ensures o.Done? ==> board.Model() == RowRight(old(board.Model()), row)
  {
    board.ValidShape();
    var columns := board.ColumnCount();
    var last := board.TokenAt((columns - 1, row));
    if last.Err? {
      return Fail(last.error);
    }
    var tokens := ReadRow(board, row);
    ghost var before := board.Model();
    WriteRow(board, row, [last.value] + tokens[..columns - 1]);
    RowRightRotates(before, row);
    return Done;
  }

  /** Every cell of row y, left to right. */
  method ReadRow(board: Board, y: int) returns (tokens: Line)
    requires board.Valid() && 0 <= y < |board.Model()|
    ensures tokens == board.Model()[y]
  {
    tokens := [];
    var i := 0;
    while i < board.ColumnCount()
      invariant 0 <= i <= board.ColumnCount()
      invariant tokens == board.Model()[y][..i]
    {
      var t := board.TokenAt((i, y));
      tokens := tokens + [t.value];
      i := i + 1;
    }
  }

  /** Writes line into row y, left to right. */
  method WriteRow(board: Board, y: int, line: Line)
    requires board.Valid() && 0 <= y < |board.Model()| && |line| == Width(board.Model())
    requires forall i :: 0 <= i < |line| && line[i].Some? ==> line[i].value in board.alphabet
    modifies board.cells
    ensures board.Valid()
    ensures board.Model() == old(board.Model())[y := line]
  {
    ghost var g := board.Model();
    OverwriteEnds(line, g[y]);
    var i := 0;
    while i < |line|
      invariant 0 <= i <= |line| && board.Valid()
      invariant board.Model() == g[y := line[..i] + g[y][i..]]
    {
      var o := board.SetTokenAt((i, y), line[i]);
      OverwriteStep(line, g[y], i);
      i := i + 1;
    }
  }

  /** The loop of a column move: count times, one step down. A negative
      column fails at the first read, in the first pass. */
  method RotateColumnOn(board: Board, column: int, count: nat) returns (o: Outcome)
    requires board.Valid() && column < Width(board.Model()) && count >= 1
    modifies board.cells
    ensures board.Valid()
    ensures o.Done? <==> 0 <= column
    ensures o.Fail? ==> o.error == BoardDimension && board.Model() == old(board.Model())
    ensures o.Done? ==> board.Model() == ColumnDownTimes(old(board.Model()), column, count)
  {
    ghost var g := board.Model();
    o := ColumnStep(board, column);
    if o.Fail? {
      return;
    }
    ColumnDownTimesZero(g, column);
    ColumnDownTimesNext(g, column, 0, g);
    ColumnStepsFrom(board, column, g, 1, count);
    return Done;
  }

  /** The passes of a column move after the first: the board already shows
      done steps down of column in g; count - done more follow. */
  method ColumnStepsFrom(board: Board, column: int, ghost g: Grid, done: nat, count: nat)
    requires board.Valid() && 0 <= column && 1 <= done <= count
    requires Rect(g) && column < Width(g) && board.Model() == ColumnDownTimes(g, column, done)
    modifies board.cells
    ensures board.Valid()
    ensures board.Model() == ColumnDownTimes(g, column, count)
  {
    var i := done;
    while i < count
      invariant board.Valid() && done <= i <= count
      invariant board.Model() == ColumnDownTimes(g, column, i)
    {
      ghost var before := board.Model();
      var o := ColumnStep(board, column);
      ColumnDownTimesNext(g, column, i, before);
      i := i + 1;
    }
  }

  /** One step of a column move: the column is read into a list, the list
      is shifted down in place and written back. */
  method ColumnStep(board: Board, column: int) returns (o: Outcome)
    requires board.Valid() && column < Width(board.Model())
    modifies board.cells
    ensures board.Valid()
    ensures o.Done? <==> 0 <= column
    ensures o.Fail? ==> o.error == BoardDimension && board.Model() == old(board.Model())
    ensures o.Done? ==> board.Model() == ColumnDown(old(board.Model()), column)
  {
    board.ValidShape();
    var first := board.TokenAt((column, 0));
    if first.Err? {
      return Fail(first.error);
    }
    var tokens := ReadColumn(board, column);
    var shifted := ShiftDown(tokens);
    ghost var before := board.Model();
    WriteColumn(board, column, shifted);
    ColumnDownRotates(before, column);
    return Done;
  }

  /** Every cell of column x, top to bottom. */
  method ReadColumn(board: Board, x: int) returns (tokens: Line)
    requires board.Valid() && 0 <= x < Width(board.Model())
    ensures tokens == Column(board.Model(), x)
  {
    tokens := [];
    var i := 0;
    while i < board.RowCount()
      invariant 0 <= i <= board.RowCount()
      invariant tokens == Column(board.Model(), x)[..i]
    {
      var t := board.TokenAt((x, i));
      tokens := tokens + [t.value];
      i := i + 1;
    }
  }

  /** The in-place shift of the column list: from the bottom up, each entry
      takes the one above it; then the first takes the saved last one. */
  method ShiftDown(c: Line) returns (r: Line)
    requires |c| >= 1
    ensures r == RotateRight(c)
  {
    r := c;
    var temp := r[|r| - 1];
    var i := |r| - 1;
    while i > 0
      invariant 0 <= i <= |c| - 1 && |r| == |c|
      invariant forall k :: 0 <= k <= i ==> r[k] == c[k]
      invariant forall k :: i < k < |c| ==> r[k] == c[k - 1]
    {
      r := r[i := r[i - 1]];
      i := i - 1;
    }
    r := r[0 := temp];
    RotateRightIndex(c);
  }

  /** Writes c into column x, top to bottom. */
  method WriteColumn(board: Board, x: int, c: Line)
    requires board.Valid() && 0 <= x < Width(board.Model()) && |c| == |board.Model()|
    requires forall i :: 0 <= i < |c| && c[i].Some? ==> c[i].value in board.alphabet
    modifies board.cells
    ensures board.Valid()
    ensures board.Model() == SetColumn(old(board.Model()), x, c)
  {
    ghost var g := board.Model();
    ghost var written := Column(g, x);
    SetColumnColumn(g, x, c);
    var i := 0;
    while i < |c|
      invariant 0 <= i <= |c| && board.Valid() && |written| == |c|
      invariant forall k :: 0 <= k < i ==> written[k] == c[k]
      invariant board.Model() == SetColumn(g, x, written)
    {
      var o := board.SetTokenAt((x, i), c[i]);
      SetColumnCell(g, x, written, i, c[i]);
      written := written[i := c[i]];
      i := i + 1;
    }
  }
}
