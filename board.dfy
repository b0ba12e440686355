/** The match-three board: a fixed rectangle of cells, each empty or holding a
    token of the board's alphabet, with an optional filling strategy. */
module Boards {
  import opened Types
  import opened Columns
  import opened Grids
  import opened TokenText

  /** The smallest number of rows, of columns and of tokens a board may have. */
  const MinBoardSize := 2

  /** The board built from a token string: too small an alphabet is rejected
      before the text is looked at. */
  function NewBoard(alphabet: set<char>, text: string): Result<Grid>
  {
    if |alphabet| < MinBoardSize then Err(IllegalArgument) else Parse(alphabet, text)
  }

  /** The board built from a number of columns and rows: the text of an empty
      board of that size is built first, then read as by NewBoard. */
  function NewEmptyBoard(alphabet: set<char>, columns: int, rows: int): Result<Grid>
  {
    match EmptyText(columns, rows)
    case Err(e) => Err(e)
    case Ok(text) => NewBoard(alphabet, text)
  }

  /** The outcome of writing token t at p: an unknown token is refused before
      the position is examined. */
  function SetOutcome(alphabet: set<char>, g: Grid, p: Position, t: Option<char>): Outcome
  {
    if t.Some? && t.value !in alphabet then Fail(IllegalToken)
    else if !OnGrid(g, p) then Fail(BoardDimension)
    else Done
  }

  /** Every construction error, in the order the source checks for them; a
      board of at least two columns and rows comes out with every cell empty. */
  lemma {:induction false} EmptyBoardConstruction(alphabet: set<char>, columns: int, rows: int)
    ensures rows <= 0 ==> NewEmptyBoard(alphabet, columns, rows) == Err(StringIndexOutOfBounds)
    ensures rows >= 1 && |alphabet| < 2 ==> NewEmptyBoard(alphabet, columns, rows) == Err(IllegalArgument)
    ensures rows >= 1 && |alphabet| >= 2 && (columns < 2 || rows < 2) ==>
              NewEmptyBoard(alphabet, columns, rows) == Err(BoardDimension)
    ensures |alphabet| >= 2 && columns >= 2 && rows >= 2 ==>
              NewEmptyBoard(alphabet, columns, rows) == Ok(EmptyGrid(columns, rows))
  {
    if rows >= 1 {
      ParseEmptyText(alphabet, columns, rows);
    }
  }

  class Board {
    /** The tokens allowed on the board. */
    const alphabet: set<char>
    /** cells[x, y] is the cell in column x of row y; row 0 is the top row. */
    const cells: array2<Option<char>>
    /** The supply of the filling strategy, one sequence per column; None
        until a strategy is set. */
    var strategy: Option<Supply>

    /** The cells as a grid, row by row. */
    ghost function Model(): (g: Grid)
      reads cells
      ensures |g| == cells.Length1
      ensures forall y :: 0 <= y < |g| ==> |g[y]| == cells.Length0
      ensures Rect(g) && (|g| > 0 ==> Width(g) == cells.Length0)
    {
      seq(cells.Length1, y requires 0 <= y < cells.Length1 reads cells =>
        seq(cells.Length0, x requires 0 <= x < cells.Length0 reads cells => cells[x, y]))
    }

    /** Column x, top to bottom. */
    function ColumnAt(x: int): (c: Line)
      reads cells
      requires 0 <= x < cells.Length0
      ensures |c| == cells.Length1
      ensures forall y :: 0 <= y < cells.Length1 ==> c[y] == cells[x, y]
    {
      seq(cells.Length1, y requires 0 <= y < cells.Length1 reads cells => cells[x, y])
    }

    ghost predicate TokensKnown()
      reads cells
    {
      forall x, y :: 0 <= x < cells.Length0 && 0 <= y < cells.Length1 && cells[x, y].Some? ==>
        cells[x, y].value in alphabet
    }

    /** One token sequence per column, every token in the alphabet. */
    predicate SupplyValid(sup: Supply)
    {
      |sup| == cells.Length0 && forall x, i :: 0 <= x < |sup| && 0 <= i < |sup[x]| ==> sup[x][i] in alphabet
    }

    ghost predicate Valid()
      reads this, cells
    {
      && |alphabet| >= MinBoardSize
      && cells.Length0 >= MinBoardSize && cells.Length1 >= MinBoardSize
      && TokensKnown()
      && (strategy.Some? ==> SupplyValid(strategy.value))
    }

    /** A valid board is well shaped, holds only tokens of its alphabet, and
        its columns read as the columns of the grid. */
    lemma ValidShape()
      requires Valid()
      ensures WellShaped(Model()) && InAlphabet(Model(), alphabet)
      ensures forall x :: 0 <= x < cells.Length0 ==> ColumnAt(x) == Column(Model(), x)
    {
    }

    /** A board with the given cells, every cell copied in row by row. */
    constructor (tokens: set<char>, g: Grid)
      requires WellShaped(g) && InAlphabet(g, tokens) && |tokens| >= MinBoardSize
      ensures Valid() && fresh(cells)
      ensures Model() == g && alphabet == tokens && strategy.None?
    {
      alphabet := tokens;
      strategy := None;
      cells := new Option<char>[Width(g), |g|];
      new;
      var i := 0;
      while i < |g|
        invariant 0 <= i <= |g|
        invariant alphabet == tokens && strategy.None?
        invariant forall x, y :: 0 <= x < Width(g) && 0 <= y < i ==> cells[x, y] == g[y][x]
      {
        var j := 0;
        while j < |g[i]|
          invariant 0 <= j <= |g[i]|
          invariant alphabet == tokens && strategy.None?
          invariant forall x, y :: 0 <= x < Width(g) && 0 <= y < i ==> cells[x, y] == g[y][x]
          invariant forall x :: 0 <= x < j ==> cells[x, i] == g[i][x]
        {
          cells[j, i] := g[i][j];
          j := j + 1;
        }
        i := i + 1;
      }
      assert forall p :: OnGrid(g, p) ==> Cell(g, p) == Cell(Model(), p);
      SameGrid(g, Model());
      assert forall x, y :: 0 <= x < Width(g) && 0 <= y < |g| ==> cells[x, y] == Cell(g, (x, y));
    }

    /** Reads a token string; each error of the source is reported as a value. */
    static method FromTokenString(tokens: set<char>, text: string) returns (r: Result<Board>)
      ensures r.Err? ==> NewBoard(tokens, text) == Err(r.error)
      ensures r.Ok? ==> && NewBoard(tokens, text) == Ok(r.value.Model())
                        && fresh(r.value) && fresh(r.value.cells) && r.value.Valid()
                        && r.value.alphabet == tokens && r.value.strategy.None?
    {
      if |tokens| < MinBoardSize {
        return Err(IllegalArgument);
      }
      var g := ParseTokenString(tokens, text);
      if g.Err? {
        return Err(g.error);
      }
      ParsedBoard(tokens, text);
      var b := new Board(tokens, g.value);
      return Ok(b);
    }

    /** An empty board of the given size, built from its token string. */
    static method FromDimensions(tokens: set<char>, columns: int, rows: int) returns (r: Result<Board>)
      ensures r.Err? ==> NewEmptyBoard(tokens, columns, rows) == Err(r.error)
      ensures r.Ok? ==> && NewEmptyBoard(tokens, columns, rows) == Ok(r.value.Model())
                        && fresh(r.value) && fresh(r.value.cells) && r.value.Valid()
                        && r.value.alphabet == tokens && r.value.strategy.None?
    {
      var text := EmptyStringRepresentation(columns, rows);
      if text.Err? {
        return Err(text.error);
      }
      r := FromTokenString(tokens, text.value);
    }

    /** The text of an empty board: a space per column and a ';' after each
        row, then the final ';' dropped. */
    static method EmptyStringRepresentation(columns: int, rows: int) returns (r: Result<string>)
      ensures r == EmptyText(columns, rows)
    {
      ghost var lines := seq(if rows < 0 then 0 else rows, _ => Spaces(columns));
      var text: string := [];
      var i := 0;
      while i < rows
        invariant 0 <= i <= |lines| || (rows <= 0 && i == 0)
        invariant i <= |lines| && text == Terminated(lines[..i])
      {
        var j := 0;
        while j < columns
          invariant 0 <= j <= (if columns < 0 then 0 else columns)
          invariant text == Terminated(lines[..i]) + seq(j, _ => ' ')
        {
          text := text + [' '];
          j := j + 1;
        }
        assert lines[..i + 1][..i] == lines[..i];
        text := text + [';'];
        i := i + 1;
      }
      if |text| == 0 {
        return Err(StringIndexOutOfBounds);
      }
      assert lines[..i] == lines;
      TerminatedIsJoin(lines);
      return Ok(text[..|text| - 1]);
    }

    /** Reads the rows of a token string character by character. */
    static method ParseTokenString(tokens: set<char>, text: string) returns (r: Result<Grid>)
      ensures r == Parse(tokens, text)
    {
      var rows: seq<Line> := [];
      var current: Line := [];
      var i := 0;
      while i < |text|
        invariant 0 <= i <= |text|
        invariant RowsRead(tokens, text[..i], rows, current)
      {
        var c := text[i];
        if c == ';' {
          ReadNext(tokens, text, i, rows, current);
          rows := rows + [current];
          current := [];
        } else if c == ' ' {
          ReadNext(tokens, text, i, rows, current);
          current := current + [None];
        } else if c in tokens {
          ReadNext(tokens, text, i, rows, current);
          current := current + [Some(c)];
        } else {
          ParseRejectsUnknown(tokens, text);
          return Err(TokenStringParse);
        }
        i := i + 1;
      }
      assert text[..i] == text;
      rows := rows + [current];
      ReadDone(tokens, text, rows);
      if |rows| >= MinBoardSize && (forall y :: 0 <= y < |rows| ==> |rows[y]| == |rows[0]|)
         && |rows[0]| >= MinBoardSize {
        return Ok(rows);
      }
      return Err(BoardDimension);
    }

    function ColumnCount(): (n: nat)
      reads this, cells
      requires Valid()
      ensures n == Width(Model())
    {
      cells.Length0
    }

    function RowCount(): (n: nat)
      reads this, cells
      requires Valid()
      ensures n == |Model()|
    {
      cells.Length1
    }

    function ContainsPosition(p: Position): (b: bool)
      reads this, cells
      requires Valid()
      ensures b <==> OnGrid(Model(), p)
    {
      0 <= p.0 < cells.Length0 && 0 <= p.1 < cells.Length1
    }

    /** The content of cell p: a dimension error off the board. */
    function TokenAt(p: Position): (r: Result<Option<char>>)
      reads this, cells
      requires Valid()
      ensures r.Ok? <==> OnGrid(Model(), p)
      ensures r.Ok? ==> r.value == Cell(Model(), p) && (r.value.Some? ==> r.value.value in alphabet)
      ensures r.Err? ==> r.error == BoardDimension
    {
      if ContainsPosition(p) then Ok(cells[p.0, p.1]) else Err(BoardDimension)
    }

    /** Writes token t (None: no token) at p. */
    method SetTokenAt(p: Position, t: Option<char>) returns (o: Outcome)
      requires Valid()
      modifies cells
      ensures Valid()
      ensures o == SetOutcome(alphabet, old(Model()), p, t)
      ensures o.Done? ==> Model() == SetCell(old(Model()), p, t)
      ensures o.Done? ==> TokenAt(p) == Ok(t)
      ensures o.Fail? ==> Model() == old(Model())
    {
      if t.Some? && t.value !in alphabet {
        return Fail(IllegalToken);
      }
      if !ContainsPosition(p) {
        return Fail(BoardDimension);
      }
      ghost var g := Model();
      cells[p.0, p.1] := t;
      SameGrid(SetCell(g, p, t), Model());
      return Done;
    }

    /** Exchanges the contents of a and b, reading both before writing. */
    method SwapTokens(a: Position, b: Position) returns (o: Outcome)
      requires Valid()
      modifies cells
      ensures Valid()
      ensures OnGrid(old(Model()), a) && OnGrid(old(Model()), b) ==>
                o == Done && Model() == Swap(old(Model()), a, b)
      ensures !(OnGrid(old(Model()), a) && OnGrid(old(Model()), b)) ==>
                o == Fail(BoardDimension) && Model() == old(Model())
    {
      var ta := TokenAt(a);
      if ta.Err? {
        return Fail(ta.error);
      }
      var tb := TokenAt(b);
      if tb.Err? {
        return Fail(tb.error);
      }
      var oa := SetTokenAt(a, tb.value);
      var ob := SetTokenAt(b, ta.value);
      return Done;
    }

    /** Empties every listed cell, one at a time in no particular order. An
        off-board position stops the loop with a dimension error; cells
        visited before it stay emptied. */
    method RemoveTokensAt(ps: set<Position>) returns (o: Outcome, ghost cleared: set<Position>)
      requires Valid()
      modifies cells
      ensures Valid()
      ensures cleared <= ps && Model() == ClearAll(old(Model()), cleared)
      ensures o.Done? <==> ps <= Cells(old(Model()))
      ensures o.Done? ==> cleared == ps
      ensures o.Fail? ==> o.error == BoardDimension
    {
      ghost var g := Model();
      cleared := {};
      var rest := ps;
      ClearAllNothing(g);
      while rest != {}
        invariant Valid()
        invariant rest <= ps && cleared == ps - rest && cleared <= Cells(g)
        invariant Model() == ClearAll(g, cleared)
        decreases |rest|
      {
        var p :| p in rest;
        ghost var before := Model();
        var r := SetTokenAt(p, None);
        if r.Fail? {
          assert !OnGrid(before, p);
          return Fail(BoardDimension), cleared;
        }
        assert Model() == SetCell(ClearAll(g, cleared), p, None);
        assert OnGrid(g, p);
        ClearAllStep(g, cleared, p);
        cleared := cleared + {p};
        rest := rest - {p};
      }
      return Done, cleared;
    }

    /** Gravity: in every column, each empty cell, from the bottom up, takes
        the nearest token above it. Returns every position used as the
        source or destination of a move. */
    method MoveTokensToBottom() returns (changed: set<Position>)
      requires Valid()
      modifies cells
      ensures Valid()
      ensures Model() == Gravity(old(Model()))
      ensures changed == GravityChanges(old(Model()))
    {
      ghost var g := Model();
      ValidShape();
      ChangesBeforeStep(g, 0);
      changed := {};
      var i := 0;
      while i < cells.Length0
        invariant 0 <= i <= cells.Length0
        invariant Valid()
        invariant forall x :: 0 <= x < i ==> ColumnAt(x) == Compact(Column(g, x))
        invariant forall x :: i <= x < cells.Length0 ==> ColumnAt(x) == Column(g, x)
        invariant changed == ChangesBefore(g, i)
      {
        ChangesBeforeStep(g, i);
        changed := SettleColumn(i, changed);
        i := i + 1;
      }
      ChangesBeforeStep(g, 0);
      ModelFromColumns(Gravity(g));
    }

    /** A grid of the board's size whose columns are the board's columns is
        the board's grid. */
    lemma ModelFromColumns(h: Grid)
      requires Rect(h) && |h| == cells.Length1 > 0 && Width(h) == cells.Length0
      requires forall x :: 0 <= x < cells.Length0 ==> ColumnAt(x) == Column(h, x)
      ensures Model() == h
    {
      forall p | OnGrid(h, p)
        ensures Cell(Model(), p) == Cell(h, p)
      {
        assert ColumnAt(p.0)[p.1] == Column(h, p.0)[p.1];
      }
      SameGrid(Model(), h);
    }

    /** Gravity on column x: for each row k from the bottom up, the inner
        loop of DropInto. Returns changed with the rows of every move added. */
    method SettleColumn(x: int, changed: set<Position>) returns (changed': set<Position>)
      requires Valid() && 0 <= x < cells.Length0
      modifies cells
      ensures Valid()
      ensures ColumnAt(x) == Compact(old(ColumnAt(x)))
      ensures forall x' :: 0 <= x' < cells.Length0 && x' != x ==> ColumnAt(x') == old(ColumnAt(x'))
      ensures changed' == changed + InColumn(x, Moved(old(ColumnAt(x))))
    {
      ghost var c := ColumnAt(x);
      ghost var o := Index(cells.Length1);
      var h := cells.Length1;
      changed' := changed;
      var k := h - 1;
      while k >= 1
        invariant 0 <= k <= h - 1
        invariant Valid() && |o| == h
        invariant Tagged(ColumnAt(x), o, 0, h) == Placement(c)
        invariant forall p, q :: k < p < h && 0 <= q < p && cells[x, p].None? ==> cells[x, q].None?
        invariant forall p :: 0 <= p <= k ==> o[p] == p
        invariant changed' == changed + InColumn(x, Movers(ColumnAt(x), o))
        invariant forall x', y :: 0 <= x' < cells.Length0 && x' != x && 0 <= y < h ==> cells[x', y] == old(cells[x', y])
      {
        o, changed' := DropInto(x, k, c, o, changed, changed');
        k := k - 1;
      }
      GravityLoopResult(c, ColumnAt(x), o);
      GravityLoopMoved(c, ColumnAt(x), o);
    }

    /** The inner loop of gravity: if cell k of column x is empty, the nearest
        token above it moves down into it. o records where each cell's token
        started out; rows below k are already compacted. */
    method DropInto(x: int, k: int, ghost c: Line, ghost o0: seq<int>, ghost base: set<Position>,
                    changed: set<Position>) returns (ghost o: seq<int>, changed': set<Position>)
      requires Valid() && 0 <= x < cells.Length0 && 1 <= k < cells.Length1 && |o0| == cells.Length1
      requires Tagged(ColumnAt(x), o0, 0, cells.Length1) == Placement(c)
      requires forall p, q :: k < p < cells.Length1 && 0 <= q < p && cells[x, p].None? ==> cells[x, q].None?
      requires forall p :: 0 <= p <= k ==> o0[p] == p
      requires changed == base + InColumn(x, Movers(ColumnAt(x), o0))
      modifies cells
      ensures Valid() && |o| == cells.Length1
      ensures Tagged(ColumnAt(x), o, 0, cells.Length1) == Placement(c)
      ensures forall p, q :: k <= p < cells.Length1 && 0 <= q < p && cells[x, p].None? ==> cells[x, q].None?
      ensures forall p :: 0 <= p < k ==> o[p] == p
      ensures changed' == base + InColumn(x, Movers(ColumnAt(x), o))
      ensures forall x', y :: 0 <= x' < cells.Length0 && x' != x && 0 <= y < cells.Length1 ==> cells[x', y] == old(cells[x', y])
    {
      var h := cells.Length1;
      o := o0;
      changed' := changed;
      var j := k - 1;
      while j >= 0
        invariant -1 <= j <= k - 1
        invariant Valid() && |o| == h
        invariant Tagged(ColumnAt(x), o, 0, h) == Placement(c)
        invariant forall p, q :: k < p < h && 0 <= q < p && cells[x, p].None? ==> cells[x, q].None?
        invariant cells[x, k].None? ==> forall q :: j < q < k ==> cells[x, q].None?
        invariant forall p :: 0 <= p < k ==> o[p] == p
        invariant changed' == base + InColumn(x, Movers(ColumnAt(x), o))
        invariant forall x', y :: 0 <= x' < cells.Length0 && x' != x && 0 <= y < h ==> cells[x', y] == old(cells[x', y])
      {
        if cells[x, j].Some? && cells[x, k].None? {
          assert forall p :: k < p < h ==> cells[x, p].Some?;
          o, changed' := DropToken(x, j, k, c, o, base, changed');
        }
        j := j - 1;
      }
    }

    /** One move of gravity's inner loop, with the bookkeeping of where each
        token started out and of the changed cells. */
    method DropToken(x: int, j: int, k: int, ghost c: Line, ghost o0: seq<int>, ghost base: set<Position>,
                     changed: set<Position>) returns (ghost o: seq<int>, changed': set<Position>)
      requires Valid() && 0 <= x < cells.Length0 && 0 <= j < k < cells.Length1 && |o0| == cells.Length1
      requires cells[x, j].Some? && cells[x, k].None? && o0[j] == j
      requires forall q :: j < q < k ==> cells[x, q].None?
      requires Tagged(ColumnAt(x), o0, 0, cells.Length1) == Placement(c)
      requires changed == base + InColumn(x, Movers(ColumnAt(x), o0))
      modifies cells
      ensures Valid() && o == o0[k := o0[j]]
      ensures Tagged(ColumnAt(x), o, 0, cells.Length1) == Placement(c)
      ensures changed' == base + InColumn(x, Movers(ColumnAt(x), o))
      ensures cells[x, k].Some?
      ensures forall y :: 0 <= y < cells.Length1 && y != j && y != k ==> cells[x, y] == old(cells[x, y])
      ensures forall x', y :: 0 <= x' < cells.Length0 && x' != x && 0 <= y < cells.Length1 ==> cells[x', y] == old(cells[x', y])
    {
      ghost var s := ColumnAt(x);
      MoveDownKeepsTags(s, o0, j, k);
      MoveDownMovers(s, o0, j, k);
      MoveDown(x, j, k);
      o := o0[k := o0[j]];
      InColumnAdd(x, Movers(s, o0), j, k);
      changed' := changed + {(x, k), (x, j)};
    }

    /** Moves the token at row j of column x down to the empty row k. */
    method MoveDown(x: int, j: int, k: int)
      requires Valid() && 0 <= x < cells.Length0 && 0 <= j < k < cells.Length1
      modifies cells
      ensures Valid()
      ensures ColumnAt(x) == old(ColumnAt(x))[j := None][k := old(cells[x, j])]
      ensures cells[x, j].None? && cells[x, k] == old(cells[x, j])
      ensures forall y :: 0 <= y < cells.Length1 && y != j && y != k ==> cells[x, y] == old(cells[x, y])
      ensures forall x', y :: 0 <= x' < cells.Length0 && x' != x && 0 <= y < cells.Length1 ==> cells[x', y] == old(cells[x', y])
    {
      ghost var s := ColumnAt(x);
      var next := cells[x, j];
      cells[x, j] := None;
      cells[x, k] := next;
      assert ColumnAt(x) == s[j := None][k := next];
    }

    /** Installs a filling strategy. */
    method SetFillingStrategy(sup: Supply)
      requires Valid() && SupplyValid(sup)
      modifies this
      ensures Valid() && strategy == Some(sup)
    {
      strategy := Some(sup);
    }

    /** Fills every empty cell from the strategy's supply for its column,
        the lowest empty cell first. Without a strategy this is an error, and
        so is a column whose supply is too short; both change nothing. */
    method FillWithTokens() returns (o: Outcome)
      requires Valid()
      modifies this, cells
      ensures Valid()
      ensures old(strategy).None? ==> o == Fail(NoFillingStrategy) && Model() == old(Model()) && strategy.None?
      ensures old(strategy).Some? && !SupplyFits(old(Model()), old(strategy).value) ==>
                o == Fail(SupplyExhausted) && Model() == old(Model()) && strategy == old(strategy)
      ensures old(strategy).Some? && SupplyFits(old(Model()), old(strategy).value) ==>
                && o == Done
                && Model() == FillGrid(old(Model()), old(strategy).value)
                && strategy == Some(Leftover(old(Model()), old(strategy).value))
    {
      if strategy.None? {
        return Fail(NoFillingStrategy);
      }
      var sup := strategy.value;
      ValidShape();
      ghost var g := Model();
      if exists x :: 0 <= x < cells.Length0 && EmptyCount(ColumnAt(x)) > |sup[x]| {
        return Fail(SupplyExhausted);
      }
      Refill(sup);
      return Done;
    }

    /** The filling of fillWithTokens once the supply is known to suffice:
        every column is filled and the strategy keeps what is left. */
    method Refill(sup: Supply)
      requires Valid() && strategy == Some(sup) && SupplyFits(Model(), sup)
      modifies this, cells
      ensures Valid()
      ensures Model() == FillGrid(old(Model()), sup) && strategy == Some(Leftover(old(Model()), sup))
    {
      ValidShape();
      ghost var g := Model();
      var rest := FillColumns(sup, g);
      ModelFromColumns(FillGrid(g, sup));
      LeftoverValid(g, sup);
      strategy := Some(rest);
    }

    /** What is left of a valid supply is a valid supply. */
    lemma LeftoverValid(g: Grid, sup: Supply)
      requires SupplyValid(sup) && Rect(g) && SupplyFits(g, sup)
      ensures SupplyValid(Leftover(g, sup))
    {
      var rest := Leftover(g, sup);
      forall x, i | 0 <= x < |rest| && 0 <= i < |rest[x]|
        ensures rest[x][i] in alphabet
      {
        assert rest[x][i] == sup[x][EmptyCount(Column(g, x)) + i];
      }
    }

    /** The loop of fillWithTokens over the columns: each column g shows is
        filled from its own supply; returns what is left of every supply. */
    method FillColumns(sup: Supply, ghost g: Grid) returns (rest: Supply)
      requires TokensKnown() && SupplyValid(sup) && Rect(g) && Width(g) == cells.Length0
      requires forall x :: 0 <= x < cells.Length0 ==> ColumnAt(x) == Column(g, x)
      requires SupplyFits(g, sup)
      modifies cells
      ensures TokensKnown()
      ensures forall x :: 0 <= x < cells.Length0 ==> ColumnAt(x) == FillLine(Column(g, x), sup[x])
      ensures rest == Leftover(g, sup)
    {
      rest := [];
      var i := 0;
      while i < cells.Length0
        invariant 0 <= i <= cells.Length0
        invariant TokensKnown()
        invariant forall x :: 0 <= x < i ==> ColumnAt(x) == FillLine(Column(g, x), sup[x])
        invariant forall x :: i <= x < cells.Length0 ==> ColumnAt(x) == Column(g, x)
        invariant rest == seq(i, x requires 0 <= x < i => sup[x][EmptyCount(Column(g, x))..])
      {
        var used := FillColumn(i, sup[i]);
        rest := rest + [sup[i][used..]];
        i := i + 1;
      }
    }

    /** Fills the empty cells of column x from s, bottom row first; returns
        how many tokens of s were used. */
    method FillColumn(x: int, s: seq<char>) returns (used: nat)
      requires TokensKnown() && 0 <= x < cells.Length0
      requires EmptyCount(ColumnAt(x)) <= |s|
      requires forall i :: 0 <= i < |s| ==> s[i] in alphabet
      modifies cells
      ensures TokensKnown()
      ensures ColumnAt(x) == FillLine(old(ColumnAt(x)), s)
      ensures used == EmptyCount(old(ColumnAt(x)))
      ensures forall x' :: 0 <= x' < cells.Length0 && x' != x ==> ColumnAt(x') == old(ColumnAt(x'))
    {
      ghost var c := ColumnAt(x);
      used := FillCells(x, s, c);
      assert c[0..] == c;
    }

    /** The loop of FillColumn, cell by cell from the bottom row up. */
    method FillCells(x: int, s: seq<char>, ghost c: Line) returns (used: nat)
      requires TokensKnown() && 0 <= x < cells.Length0 && c == ColumnAt(x)
      requires EmptyCount(c) <= |s|
      requires forall i :: 0 <= i < |s| ==> s[i] in alphabet
      modifies cells
      ensures TokensKnown()
      ensures used == EmptyCount(c[0..])
      ensures forall p :: 0 <= p < cells.Length1 ==> cells[x, p] == FillLine(c, s)[p]
      ensures forall x', p :: 0 <= x' < cells.Length0 && x' != x && 0 <= p < cells.Length1 ==> cells[x', p] == old(cells[x', p])
    {
      var h := cells.Length1;
      used := 0;
      var y := h;
      assert c[h..] == [];
      while y > 0
        invariant 0 <= y <= h
        invariant TokensKnown()
        invariant used == EmptyCount(c[y..])
        invariant forall p :: y <= p < h ==> cells[x, p] == FillLine(c, s)[p]
        invariant forall p :: 0 <= p < y ==> cells[x, p] == c[p]
        invariant forall x', p :: 0 <= x' < cells.Length0 && x' != x && 0 <= p < h ==> cells[x', p] == old(cells[x', p])
      {
        y := y - 1;
        FillLineAt(c, s, y);
        if cells[x, y].None? {
          cells[x, y] := Some(s[used]);
          used := used + 1;
        }
      }
    }

    /** The token string: each row's cells, a space for an empty one, rows
        separated by ';'. */
    method ToTokenString() returns (s: string)
      requires Valid()
      ensures s == Print(Model())
    {
      ghost var rows := PrintedRows(Model());
      var text: string := [];
      var i := 0;
      while i < cells.Length1
        invariant 0 <= i <= cells.Length1
        invariant text == Terminated(rows[..i])
      {
        var j := 0;
        while j < cells.Length0
          invariant 0 <= j <= cells.Length0
          invariant text == Terminated(rows[..i]) + rows[i][..j]
        {
          if cells[j, i].Some? {
            text := text + [cells[j, i].value];
          } else {
            text := text + [' '];
          }
          assert rows[i][..j + 1] == rows[i][..j] + [rows[i][j]];
          j := j + 1;
        }
        assert rows[i][..j] == rows[i];
        assert rows[..i + 1][..i] == rows[..i];
        text := text + [';'];
        i := i + 1;
      }
      assert rows[..i] == rows;
      TerminatedIsJoin(rows);
      s := text[..|text| - 1];
    }
  }
}
