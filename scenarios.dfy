/** The move and gravity examples of the repository's tests, on concrete
    boards given as token strings. */
module Scenarios {
  import opened Types
  import opened Grids
  import opened TokenText
  import opened Moves
  import opened Columns

  /** The token set of the move examples. */
  const MoveTokens: set<char> := {'*', 'A', '+', '=', 'Y'}

  /** The board "*A+;Y**;+*=". */
  function MoveBoard(): Grid
  {
    [[Some('*'), Some('A'), Some('+')],
     [Some('Y'), Some('*'), Some('*')],
     [Some('+'), Some('*'), Some('=')]]
  }

  /** MoveBoard prints as its token string. */
  lemma PrintMoveBoard()
    ensures Print(MoveBoard()) == "*A+;Y**;+*="
  {
    var g := MoveBoard();
    PrintThree(g);
    PrintRowThree(g[0]);
    PrintRowThree(g[1]);
    PrintRowThree(g[2]);
  }

  /** The token string of the move examples parses to MoveBoard. */
  lemma ParseMoveBoard()
    ensures Parse(MoveTokens, "*A+;Y**;+*=") == Ok(MoveBoard())
  {
    var g := MoveBoard();
    assert WellShaped(g);
    assert forall y, x :: 0 <= y < |g| && 0 <= x < |g[y]| && g[y][x].Some? ==> g[y][x].value in MoveTokens;
    PrintMoveBoard();
    ParsePrint(MoveTokens, g);
  }

  /** The token string of a three-row grid: its rows joined by semicolons. */
  lemma PrintThree(g: Grid)
    requires |g| == 3
    ensures Print(g) == PrintRow(g[0]) + ";" + PrintRow(g[1]) + ";" + PrintRow(g[2])
  {
    var rows := PrintedRows(g);
    assert rows[..2][..1] == [rows[0]];
    assert Join(rows[..2]) == rows[0] + ";" + rows[1];
    assert Join(rows) == Join(rows[..2]) + ";" + rows[2];
  }

  /** A row of three cells prints as its three characters. */
  lemma PrintRowThree(r: Line)
    requires |r| == 3
    ensures PrintRow(r) == [PrintCell(r[0]), PrintCell(r[1]), PrintCell(r[2])]
  {
  }

  /** The grid of MoveBoard with the square at (1, 0) turned clockwise. */
  function TurnedBoard(): Grid
  {
    [[Some('*'), Some('*'), Some('A')],
     [Some('Y'), Some('*'), Some('+')],
     [Some('+'), Some('*'), Some('=')]]
  }

  /** Turning the square at (1, 0) of MoveBoard clockwise gives TurnedBoard. */
  lemma TurnExample()
    ensures Turn(MoveBoard(), (1, 0)) == TurnedBoard()
  {
    var g := MoveBoard();
    var h := Turn(g, (1, 0));
    TurnCells(g, (1, 0));
    assert (0, 0) !in {(1, 0), (2, 0), (1, 1), (2, 1)};
    assert (0, 1) !in {(1, 0), (2, 0), (1, 1), (2, 1)};
    assert (0, 2) !in {(1, 0), (2, 0), (1, 1), (2, 1)};
    assert (1, 2) !in {(1, 0), (2, 0), (1, 1), (2, 1)};
    assert (2, 2) !in {(1, 0), (2, 0), (1, 1), (2, 1)};
    assert h[0] == TurnedBoard()[0];
    assert h[1] == TurnedBoard()[1];
    assert h[2] == TurnedBoard()[2];
  }

  /** TurnedBoard prints as its token string. */
  lemma PrintTurned()
    ensures Print(TurnedBoard()) == "**A;Y*+;+*="
  {
    var h := TurnedBoard();
    PrintThree(h);
    PrintRowThree(h[0]);
    PrintRowThree(h[1]);
    PrintRowThree(h[2]);
  }

  /** Rotating the square at (1, 0) clockwise turns "*A+;Y**;+*=" into
      "**A;Y*+;+*=", and the reverse move restores the board. */
  lemma SquareExample()
    ensures Print(Transform(RotateSquare((1, 0), false), MoveBoard())) == "**A;Y*+;+*="
    ensures Transform(Reverse(RotateSquare((1, 0), false)), Transform(RotateSquare((1, 0), false), MoveBoard())) == MoveBoard()
  {
    ForwardStep(RotateSquare((1, 0), false), MoveBoard());
    TurnExample();
    PrintTurned();
    ReverseRestores(RotateSquare((1, 0), false), MoveBoard());
  }

  /** MoveBoard with its first row rotated right. */
  function RowTurnedBoard(): Grid
  {
    [[Some('+'), Some('*'), Some('A')],
     [Some('Y'), Some('*'), Some('*')],
     [Some('+'), Some('*'), Some('=')]]
  }

  /** RowTurnedBoard prints as its token string. */
  lemma PrintRowTurned()
    ensures Print(RowTurnedBoard()) == "+*A;Y**;+*="
  {
    var h := RowTurnedBoard();
    PrintThree(h);
    PrintRowThree(h[0]);
    PrintRowThree(h[1]);
    PrintRowThree(h[2]);
  }

  /** Rotating row 0 right turns "*A+;Y**;+*=" into "+*A;Y**;+*=", and the
      reverse move restores the board. */
  lemma RowExample()
    ensures Print(Transform(RotateRow(0, false), MoveBoard())) == "+*A;Y**;+*="
    ensures Transform(Reverse(RotateRow(0, false)), Transform(RotateRow(0, false), MoveBoard())) == MoveBoard()
  {
    var g := MoveBoard();
    ForwardStep(RotateRow(0, false), g);
    assert RowRight(g, 0)[0] == RowTurnedBoard()[0];
    assert RowRight(g, 0) == RowTurnedBoard();
    PrintRowTurned();
    ReverseRestores(RotateRow(0, false), g);
  }

  /** MoveBoard with its first column rotated down. */
  function ColumnTurnedBoard(): Grid
  {
    [[Some('+'), Some('A'), Some('+')],
     [Some('*'), Some('*'), Some('*')],
     [Some('Y'), Some('*'), Some('=')]]
  }

  /** ColumnTurnedBoard prints as its token string. */
  lemma PrintColumnTurned()
    ensures Print(ColumnTurnedBoard()) == "+A+;***;Y*="
  {
    var h := ColumnTurnedBoard();
    PrintThree(h);
    PrintRowThree(h[0]);
    PrintRowThree(h[1]);
    PrintRowThree(h[2]);
  }

  /** Rotating column 0 down turns "*A+;Y**;+*=" into "+A+;***;Y*=", and
      the reverse move restores the board. */
  lemma ColumnExample()
    ensures Print(Transform(RotateColumn(0, false), MoveBoard())) == "+A+;***;Y*="
    ensures Transform(Reverse(RotateColumn(0, false)), Transform(RotateColumn(0, false), MoveBoard())) == MoveBoard()
  {
    var g := MoveBoard();
    ForwardStep(RotateColumn(0, false), g);
    var h := ColumnDown(g, 0);
    assert h[0] == ColumnTurnedBoard()[0];
    assert h[1] == ColumnTurnedBoard()[1];
    assert h[2] == ColumnTurnedBoard()[2];
    assert h == ColumnTurnedBoard();
    PrintColumnTurned();
    ReverseRestores(RotateColumn(0, false), g);
  }

  /** On the three-by-three MoveBoard, every move whose anchor, row or
      column lies outside the board is refused: (3, 0) and (0, -1) for the
      flips and the square, row and column 3 and -1 for the rotations. */
  lemma OutsideMoves()
    ensures forall a :: a in {(3, 0), (0, -1)} ==>
      && !Applies(FlipRight(a), 3, 3) && !Applies(FlipDown(a), 3, 3) && !Applies(RotateSquare(a, false), 3, 3)
    ensures forall i :: i in {3, -1} ==> !Applies(RotateRow(i, false), 3, 3) && !Applies(RotateColumn(i, false), 3, 3)
    ensures Width(MoveBoard()) == 3 && |MoveBoard()| == 3
  {
  }

  /** A column whose only token is on top: the token drops to the bottom;
      the top and the bottom row are reported. */
  lemma TopTokenFalls(a: char)
    ensures Compact([Some(a), None, None]) == [None, None, Some(a)]
    ensures Moved([Some(a), None, None]) == {0, 2}
  {
    var c: Line := [Some(a), None, None];
    var o := Index(3);
    assert Tagged(c, o, 0, 1) == [(a, 0)];
    assert Tagged(c, o, 0, 2) == [(a, 0)];
    var pl := Placement(c);
    assert pl == [(a, 0)];
    assert pl[0].1 != 3 - |pl| + 0;
  }

  /** A column with a token on top and one at the bottom: the top one drops
      onto the other; its two rows are reported. */
  lemma TopTokenStacks(a: char, b: char)
    ensures Compact([Some(a), None, Some(b)]) == [None, Some(a), Some(b)]
    ensures Moved([Some(a), None, Some(b)]) == {0, 1}
  {
    var c: Line := [Some(a), None, Some(b)];
    var o := Index(3);
    assert Tagged(c, o, 0, 1) == [(a, 0)];
    assert Tagged(c, o, 0, 2) == [(a, 0)];
    var pl := Placement(c);
    assert pl == [(a, 0), (b, 2)];
    assert pl[0].1 != 3 - |pl| + 0;
  }

  /** The board "ABAB;    ; A B". */
  function GravityBoard(): Grid
  {
    [[Some('A'), Some('B'), Some('A'), Some('B')],
     [None, None, None, None],
     [None, Some('A'), None, Some('B')]]
  }

  /** The board "    ; B B;AAAB". */
  function SettledBoard(): Grid
  {
    [[None, None, None, None],
     [None, Some('B'), None, Some('B')],
     [Some('A'), Some('A'), Some('A'), Some('B')]]
  }

  /** A row of four cells prints as its four characters. */
  lemma PrintRowFour(r: Line)
    requires |r| == 4
    ensures PrintRow(r) == [PrintCell(r[0]), PrintCell(r[1]), PrintCell(r[2]), PrintCell(r[3])]
  {
  }

  /** GravityBoard and SettledBoard print as their token strings. */
  lemma PrintGravityBoards()
    ensures Print(GravityBoard()) == "ABAB;    ; A B"
    ensures Print(SettledBoard()) == "    ; B B;AAAB"
  {
    var g := GravityBoard();
    PrintThree(g);
    PrintRowFour(g[0]);
    PrintRowFour(g[1]);
    PrintRowFour(g[2]);
    var h := SettledBoard();
    PrintThree(h);
    PrintRowFour(h[0]);
    PrintRowFour(h[1]);
    PrintRowFour(h[2]);
  }

  /** The token string of the gravity example parses to GravityBoard. */
  lemma ParseGravityBoard()
    ensures Parse({'A', 'B'}, "ABAB;    ; A B") == Ok(GravityBoard())
  {
    var g := GravityBoard();
    assert WellShaped(g);
    assert forall y, x :: 0 <= y < |g| && 0 <= x < |g[y]| && g[y][x].Some? ==> g[y][x].value in {'A', 'B'};
    PrintGravityBoards();
    ParsePrint({'A', 'B'}, g);
  }

  /** The columns of GravityBoard, top cell first. */
  lemma GravityBoardColumns(g: Grid)
    requires g == GravityBoard()
    ensures Rect(g) && |g| == 3 && Width(g) == 4
    ensures Column(g, 0) == [Some('A'), None, None]
    ensures Column(g, 1) == [Some('B'), None, Some('A')]
    ensures Column(g, 2) == [Some('A'), None, None]
    ensures Column(g, 3) == [Some('B'), None, Some('B')]
  {
  }

  /** A three-by-four grid with the columns of SettledBoard is SettledBoard. */
  lemma SettledColumns(r: Grid)
    requires Rect(r) && |r| == 3 && Width(r) == 4
    requires Column(r, 0) == [None, None, Some('A')] && Column(r, 1) == [None, Some('B'), Some('A')]
    requires Column(r, 2) == [None, None, Some('A')] && Column(r, 3) == [None, Some('B'), Some('B')]
    ensures r == SettledBoard()
  {
    forall y, x | 0 <= y < 3 && 0 <= x < 4
      ensures r[y][x] == Column(r, x)[y]
    {
    }
    assert r[0] == SettledBoard()[0];
    assert r[1] == SettledBoard()[1];
    assert r[2] == SettledBoard()[2];
  }

  /** Gravity on GravityBoard: every token falls to the lowest free cell
      of its column, keeping the order within the column. */
  lemma GravityExample(g: Grid)
    requires g == GravityBoard()
    ensures Rect(g) && Gravity(g) == SettledBoard()
    ensures Print(Gravity(g)) == "    ; B B;AAAB"
  {
    PrintGravityBoards();
    GravityBoardColumns(g);
    TopTokenFalls('A');
    TopTokenStacks('B', 'A');
    TopTokenStacks('B', 'B');
    SettledColumns(Gravity(g));
  }

  /** The positions gravity reports on GravityBoard, column by column. */
  lemma GravityChangesByColumn(g: Grid)
    requires g == GravityBoard()
    ensures Rect(g)
    ensures GravityChanges(g) == InColumn(0, {0, 2}) + InColumn(1, {0, 1}) + InColumn(2, {0, 2}) + InColumn(3, {0, 1})
  {
    GravityBoardColumns(g);
    TopTokenFalls('A');
    TopTokenStacks('B', 'A');
    TopTokenStacks('B', 'B');
    ChangesBeforeStep(g, 0);
    ChangesBeforeStep(g, 1);
    ChangesBeforeStep(g, 2);
    ChangesBeforeStep(g, 3);
  }

  /** The positions gravity reports on GravityBoard: where each falling
      token was and where it lands. */
  lemma GravityChangesExample(g: Grid)
    requires g == GravityBoard()
    ensures Rect(g) && GravityChanges(g) == {(0, 0), (1, 0), (2, 0), (3, 0), (1, 1), (3, 1), (0, 2), (2, 2)}
  {
    GravityChangesByColumn(g);
    GravityChangedCells();
  }

  /** The four columns' reported rows, as positions. */
  lemma GravityChangedCells()
    ensures InColumn(0, {0, 2}) + InColumn(1, {0, 1}) + InColumn(2, {0, 2}) + InColumn(3, {0, 1})
         == {(0, 0), (1, 0), (2, 0), (3, 0), (1, 1), (3, 1), (0, 2), (2, 2)}
  {
    InColumnAdd(0, {}, 0, 2);
    InColumnAdd(1, {}, 0, 1);
    InColumnAdd(2, {}, 0, 2);
    InColumnAdd(3, {}, 0, 1);
    assert InColumn(0, {}) == {} && InColumn(1, {}) == {} && InColumn(2, {}) == {} && InColumn(3, {}) == {};
  }
}
