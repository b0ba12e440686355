/** The contents of a board as a value: a rectangle of optional tokens stored
    row by row, so g[y][x] is the cell in column x of row y (row 0 on top).
    The board class keeps its cells in an array; these functions say what its
    methods do to that array, read as a grid. */
module Grids {
  import opened Types
  import opened Columns

  type Grid = seq<seq<Option<char>>>

  /** The per-column token supply of a filling strategy, column x at index x. */
  type Supply = seq<seq<char>>

  function Width(g: Grid): nat
  {
    if |g| == 0 then 0 else |g[0]|
  }

  predicate Rect(g: Grid)
  {
    forall y :: 0 <= y < |g| ==> |g[y]| == Width(g)
  }

  predicate OnGrid(g: Grid, p: Position)
  {
    0 <= p.0 < Width(g) && 0 <= p.1 < |g|
  }

  /** Every position of the grid. */
  function Cells(g: Grid): (r: set<Position>)
    ensures forall p :: p in r <==> OnGrid(g, p)
  {
    set x, y | 0 <= x < Width(g) && 0 <= y < |g| :: (x, y)
  }

  function Cell(g: Grid, p: Position): Option<char>
    requires Rect(g) && OnGrid(g, p)
  {
    g[p.1][p.0]
  }

  /** No cell is empty. */
  ghost predicate Full(g: Grid)
    requires Rect(g)
  {
    forall p :: OnGrid(g, p) ==> Cell(g, p).Some?
  }

  /** Every token on the grid belongs to the alphabet. */
  ghost predicate InAlphabet(g: Grid, alphabet: set<char>)
    requires Rect(g)
  {
    forall p :: OnGrid(g, p) && Cell(g, p).Some? ==> Cell(g, p).value in alphabet
  }

  predicate SameShape(g: Grid, h: Grid)
  {
    Rect(h) && |h| == |g| && Width(h) == Width(g)
  }

  /** Two grids of the same shape with the same cells are equal. */
  lemma {:induction false} SameGrid(g: Grid, h: Grid)
    requires Rect(g) && SameShape(g, h)
    requires forall p :: OnGrid(g, p) ==> Cell(g, p) == Cell(h, p)
    ensures g == h
  {
    forall y | 0 <= y < |g|
      ensures g[y] == h[y]
    {
      forall x | 0 <= x < Width(g)
        ensures g[y][x] == h[y][x]
      {
        assert Cell(g, (x, y)) == Cell(h, (x, y));
      }
    }
  }

  // ---------------------------------------------------------------------------
  // Single-cell updates
  // ---------------------------------------------------------------------------

  /** The grid with cell p replaced by v and every other cell unchanged. */
  function SetCell(g: Grid, p: Position, v: Option<char>): (r: Grid)
    requires Rect(g) && OnGrid(g, p)
    ensures SameShape(g, r)
    ensures forall q :: OnGrid(g, q) ==> Cell(r, q) == if q == p then v else Cell(g, q)
  {
    g[p.1 := g[p.1][p.0 := v]]
  }

  /** The contents of a and b exchanged, read before either is written. */
  function Swap(g: Grid, a: Position, b: Position): (r: Grid)
    requires Rect(g) && OnGrid(g, a) && OnGrid(g, b)
    ensures SameShape(g, r)
    ensures Cell(r, a) == Cell(g, b) && Cell(r, b) == Cell(g, a)
    ensures forall q :: OnGrid(g, q) && q != a && q != b ==> Cell(r, q) == Cell(g, q)
  {
    SetCell(SetCell(g, a, Cell(g, b)), b, Cell(g, a))
  }

  /** Swapping twice restores the grid; the order of the two cells does not matter. */
  lemma {:induction false} SwapTwice(g: Grid, a: Position, b: Position)
    requires Rect(g) && OnGrid(g, a) && OnGrid(g, b)
    ensures Swap(Swap(g, a, b), a, b) == g
    ensures Swap(g, a, b) == Swap(g, b, a)
  {
    SameGrid(g, Swap(Swap(g, a, b), a, b));
    SameGrid(Swap(g, a, b), Swap(g, b, a));
  }

  /** Every listed cell emptied, every other cell unchanged. */
  function ClearAll(g: Grid, s: set<Position>): (r: Grid)
    requires Rect(g)
    ensures SameShape(g, r)
    ensures forall q :: OnGrid(g, q) ==> Cell(r, q) == if q in s then None else Cell(g, q)
  {
    ClearRows(g, s, |g|)
  }

  /** The first n rows of ClearAll(g, s). */
  function ClearRows(g: Grid, s: set<Position>, n: nat): (r: Grid)
    requires Rect(g) && n <= |g|
    ensures |r| == n
    ensures forall y :: 0 <= y < n ==> |r[y]| == Width(g)
    ensures forall y, x :: 0 <= y < n && 0 <= x < Width(g) ==> r[y][x] == if (x, y) in s then None else g[y][x]
  {
    if n == 0 then [] else
    var y := n - 1;
    ClearRows(g, s, y) + [ClearRow(g, s, y, Width(g))]
  }

  /** The first n cells of row y of ClearAll(g, s). */
  function ClearRow(g: Grid, s: set<Position>, y: int, n: nat): (r: seq<Option<char>>)
    requires Rect(g) && 0 <= y < |g| && n <= Width(g)
    ensures |r| == n
    ensures forall x :: 0 <= x < n ==> r[x] == if (x, y) in s then None else g[y][x]
  {
    if n == 0 then [] else ClearRow(g, s, y, n - 1) + [if (n - 1, y) in s then None else g[y][n - 1]]
  }

  /** Clearing one more cell is writing None there. */
  lemma {:induction false} ClearAllStep(g: Grid, s: set<Position>, p: Position)
    requires Rect(g) && OnGrid(g, p)
    ensures SetCell(ClearAll(g, s), p, None) == ClearAll(g, s + {p})
  {
    SameGrid(SetCell(ClearAll(g, s), p, None), ClearAll(g, s + {p}));
  }

  lemma {:induction false} ClearAllNothing(g: Grid)
    requires Rect(g)
    ensures ClearAll(g, {}) == g
  {
    SameGrid(g, ClearAll(g, {}));
  }

  /** Clearing one set and then another is clearing their union. */
  lemma {:induction false} ClearAllTwice(g: Grid, a: set<Position>, b: set<Position>)
    requires Rect(g)
    ensures ClearAll(ClearAll(g, a), b) == ClearAll(g, a + b)
  {
    SameGrid(ClearAll(ClearAll(g, a), b), ClearAll(g, a + b));
  }

  /** Clearing a nonempty set of on-grid cells leaves the grid not full. */
  lemma {:induction false} ClearAllNotFull(g: Grid, s: set<Position>, p: Position)
    requires Rect(g) && p in s && OnGrid(g, p)
    ensures !Full(ClearAll(g, s))
  {
    assert Cell(ClearAll(g, s), p).None?;
  }

  // ---------------------------------------------------------------------------
  // Columns
  // ---------------------------------------------------------------------------

  /** Column x, top to bottom. */
  function Column(g: Grid, x: int): (c: Line)
    requires Rect(g) && 0 <= x < Width(g)
    ensures |c| == |g|
    ensures forall y :: 0 <= y < |g| ==> c[y] == Cell(g, (x, y))
  {
    seq(|g|, y requires 0 <= y < |g| => g[y][x])
  }

  /** Column x replaced by c, every other column unchanged. */
  function SetColumn(g: Grid, x: int, c: Line): (r: Grid)
    requires Rect(g) && 0 <= x < Width(g) && |c| == |g|
    ensures SameShape(g, r)
  {
    seq(|g|, y requires 0 <= y < |g| => g[y][x := c[y]])
  }

  /** The replaced column holds c; every other cell is unchanged. */
  lemma SetColumnCells(g: Grid, x: int, c: Line)
    requires Rect(g) && 0 <= x < Width(g) && |c| == |g|
    ensures forall q :: OnGrid(g, q) ==> Cell(SetColumn(g, x, c), q) == if q.0 == x then c[q.1] else Cell(g, q)
  {
  }

  /** Writing one cell of a replaced column replaces the column with that
      cell written. */
  lemma {:induction false} SetColumnCell(g: Grid, x: int, c: Line, i: int, v: Option<char>)
    requires Rect(g) && 0 <= x < Width(g) && |c| == |g| && 0 <= i < |g|
    ensures SetCell(SetColumn(g, x, c), (x, i), v) == SetColumn(g, x, c[i := v])
  {
    SetColumnCells(g, x, c);
    SetColumnCells(g, x, c[i := v]);
    SameGrid(SetCell(SetColumn(g, x, c), (x, i), v), SetColumn(g, x, c[i := v]));
  }

  /** Replacing a column with itself changes nothing; the replaced column
      reads back. */
  lemma {:induction false} SetColumnColumn(g: Grid, x: int, c: Line)
    requires Rect(g) && 0 <= x < Width(g) && |c| == |g|
    ensures SetColumn(g, x, Column(g, x)) == g
    ensures Column(SetColumn(g, x, c), x) == c
  {
    SetColumnCells(g, x, c);
    SetColumnCells(g, x, Column(g, x));
    SameGrid(SetColumn(g, x, Column(g, x)), g);
  }

  /** A column replaced twice holds the second replacement. */
  lemma {:induction false} SetColumnTwice(g: Grid, x: int, c: Line, c': Line)
    requires Rect(g) && 0 <= x < Width(g) && |c| == |g| && |c'| == |g|
    ensures SetColumn(SetColumn(g, x, c), x, c') == SetColumn(g, x, c')
  {
    SetColumnCells(g, x, c);
    SetColumnCells(SetColumn(g, x, c), x, c');
    SetColumnCells(g, x, c');
    SameGrid(SetColumn(SetColumn(g, x, c), x, c'), SetColumn(g, x, c'));
  }

  /** Gravity on every column. */
  ghost function Gravity(g: Grid): (r: Grid)
    requires Rect(g)
    ensures SameShape(g, r)
    ensures forall x :: 0 <= x < Width(g) ==> Column(r, x) == Compact(Column(g, x))
  {
    var r := GravityRows(g, |g|);
    assert forall x :: 0 <= x < Width(g) ==> Column(r, x) == Compact(Column(g, x));
    r
  }

  /** The first n rows of Gravity(g). */
  ghost function GravityRows(g: Grid, n: nat): (r: Grid)
    requires Rect(g) && n <= |g|
    ensures |r| == n
    ensures forall y :: 0 <= y < n ==> |r[y]| == Width(g)
    ensures forall y, x :: 0 <= y < n && 0 <= x < Width(g) ==> r[y][x] == Compact(Column(g, x))[y]
  {
    if n == 0 then [] else
    var y := n - 1;
    GravityRows(g, y) + [GravityRow(g, y, Width(g))]
  }

  /** The first n cells of row y of Gravity(g). */
  ghost function GravityRow(g: Grid, y: int, n: nat): (r: seq<Option<char>>)
    requires Rect(g) && 0 <= y < |g| && n <= Width(g)
    ensures |r| == n
    ensures forall x :: 0 <= x < n ==> r[x] == Compact(Column(g, x))[y]
  {
    if n == 0 then [] else GravityRow(g, y, n - 1) + [Compact(Column(g, n - 1))[y]]
  }

  /** Every position that gravity uses as the source or the destination of a move. */
  ghost function GravityChanges(g: Grid): (r: set<Position>)
    requires Rect(g)
    ensures r <= Cells(g)
  {
    set x, y | 0 <= x < Width(g) && 0 <= y < |g| && y in Moved(Column(g, x)) :: (x, y)
  }

  /** The positions of column x in the given rows. */
  function InColumn(x: int, rows: set<int>): (r: set<Position>)
    ensures forall p :: p in r <==> p.0 == x && p.1 in rows
  {
    var r := set y | y in rows :: (x, y);
    assert forall y :: y in rows ==> (x, y) in r;
    r
  }

  /** Adding rows j and k adds exactly their two positions. */
  lemma InColumnAdd(x: int, rows: set<int>, j: int, k: int)
    ensures InColumn(x, rows + {j, k}) == InColumn(x, rows) + {(x, k), (x, j)}
  {
  }

  /** The positions gravity reports in the columns before column i. */
  ghost function ChangesBefore(g: Grid, i: int): set<Position>
    requires Rect(g)
  {
    set x, y | 0 <= x < i && 0 <= x < Width(g) && 0 <= y < |g| && y in Moved(Column(g, x)) :: (x, y)
  }

  lemma {:induction false} ChangesBeforeStep(g: Grid, i: int)
    requires Rect(g) && 0 <= i < Width(g)
    ensures ChangesBefore(g, i + 1) == ChangesBefore(g, i) + InColumn(i, Moved(Column(g, i)))
    ensures ChangesBefore(g, 0) == {} && ChangesBefore(g, Width(g)) == GravityChanges(g)
  {
    MovedInRange(Column(g, i));
  }

  /** A full grid has full columns and conversely. */
  lemma {:induction false} FullColumns(g: Grid)
    requires Rect(g)
    ensures Full(g) <==> forall x :: 0 <= x < Width(g) ==> AllOccupied(Column(g, x))
  {
    if !Full(g) {
      var p :| OnGrid(g, p) && Cell(g, p).None?;
      assert Column(g, p.0)[p.1].None?;
    }
  }

  /** In every column, gravity keeps the tokens and their order and leaves no
      empty cell below a token. */
  lemma {:induction false} GravityColumns(g: Grid, x: int)
    requires Rect(g) && 0 <= x < Width(g)
    ensures Tokens(Column(Gravity(g), x)) == Tokens(Column(g, x))
    ensures multiset(Tokens(Column(Gravity(g), x))) == multiset(Tokens(Column(g, x)))
    ensures IsCompacted(Column(Gravity(g), x))
  {
    CompactKeepsOrder(Column(g, x));
  }

  /** A second run of gravity changes nothing and reports no position. */
  lemma {:induction false} GravityIdempotent(g: Grid)
    requires Rect(g)
    ensures Gravity(Gravity(g)) == Gravity(g)
    ensures GravityChanges(Gravity(g)) == {}
  {
    var r := Gravity(g);
    forall x | 0 <= x < Width(g)
      ensures Column(Gravity(r), x) == Column(r, x)
      ensures Moved(Column(r, x)) == {}
    {
      CompactIdempotent(Column(g, x));
    }
    forall p | OnGrid(g, p)
      ensures Cell(Gravity(r), p) == Cell(r, p)
    {
      assert Column(Gravity(r), p.0)[p.1] == Column(r, p.0)[p.1];
    }
    SameGrid(r, Gravity(r));
  }

  /** Gravity neither fills nor opens cells: the grid is full after it exactly
      when it was full before, and on a full grid it does nothing. */
  lemma {:induction false} GravityKeepsFullness(g: Grid)
    requires Rect(g)
    ensures Full(Gravity(g)) <==> Full(g)
    ensures Full(g) ==> Gravity(g) == g && GravityChanges(g) == {}
  {
    var r := Gravity(g);
    FullColumns(g);
    FullColumns(r);
    forall x | 0 <= x < Width(g)
      ensures AllOccupied(Column(r, x)) <==> AllOccupied(Column(g, x))
    {
      CompactKeepsFullness(Column(g, x));
    }
    if Full(g) {
      forall x | 0 <= x < Width(g)
        ensures Column(r, x) == Column(g, x) && Moved(Column(g, x)) == {}
      {
        FullColumnUnmoved(Column(g, x));
      }
      forall p | OnGrid(g, p)
        ensures Cell(r, p) == Cell(g, p)
      {
        assert Column(r, p.0)[p.1] == Column(g, p.0)[p.1];
      }
      SameGrid(g, r);
    }
  }

  // ---------------------------------------------------------------------------
  // Refilling from a per-column supply
  // ---------------------------------------------------------------------------

  /** The total number of tokens left in a supply. */
  function SupplySize(sup: Supply): nat
  {
    if sup == [] then 0 else |sup[0]| + SupplySize(sup[1..])
  }

  /** The supply has one entry per column and enough tokens for every empty cell. */
  predicate SupplyFits(g: Grid, sup: Supply)
    requires Rect(g)
  {
    |sup| == Width(g) && forall x :: 0 <= x < Width(g) ==> EmptyCount(Column(g, x)) <= |sup[x]|
  }

  /** Every empty cell filled from its column's supply, bottom cell first. */
  function FillGrid(g: Grid, sup: Supply): (r: Grid)
    requires Rect(g) && SupplyFits(g, sup)
    ensures SameShape(g, r)
    ensures forall x :: 0 <= x < Width(g) ==> Column(r, x) == FillLine(Column(g, x), sup[x])
  {
    var r := FillRows(g, sup, |g|);
    assert forall x :: 0 <= x < Width(g) ==> Column(r, x) == FillLine(Column(g, x), sup[x]);
    r
  }

  /** The first n rows of FillGrid(g, sup). */
  function FillRows(g: Grid, sup: Supply, n: nat): (r: Grid)
    requires Rect(g) && SupplyFits(g, sup) && n <= |g|
    ensures |r| == n
    ensures forall y :: 0 <= y < n ==> |r[y]| == Width(g)
    ensures forall y, x :: 0 <= y < n && 0 <= x < Width(g) ==> r[y][x] == FillLine(Column(g, x), sup[x])[y]
  {
    if n == 0 then [] else
    var y := n - 1;
    FillRows(g, sup, y) + [FillRow(g, sup, y, Width(g))]
  }

  /** The first n cells of row y of FillGrid(g, sup). */
  function FillRow(g: Grid, sup: Supply, y: int, n: nat): (r: seq<Option<char>>)
    requires Rect(g) && SupplyFits(g, sup) && 0 <= y < |g| && n <= Width(g)
    ensures |r| == n
    ensures forall x :: 0 <= x < n ==> r[x] == FillLine(Column(g, x), sup[x])[y]
  {
    if n == 0 then [] else FillRow(g, sup, y, n - 1) + [FillLine(Column(g, n - 1), sup[n - 1])[y]]
  }

  /** What is left of each column's supply after filling. */
  function Leftover(g: Grid, sup: Supply): (r: Supply)
    requires Rect(g) && SupplyFits(g, sup)
    ensures |r| == |sup|
  {
    LeftoverUpTo(g, sup, |sup|)
  }

  /** The first n columns' entries of Leftover(g, sup). */
  function LeftoverUpTo(g: Grid, sup: Supply, n: nat): (r: Supply)
    requires Rect(g) && SupplyFits(g, sup) && n <= |sup|
    ensures |r| == n
    ensures forall x :: 0 <= x < n ==> r[x] == sup[x][EmptyCount(Column(g, x))..]
  {
    if n == 0 then [] else LeftoverUpTo(g, sup, n - 1) + [sup[n - 1][EmptyCount(Column(g, n - 1))..]]
  }

  /** After filling no cell is empty, occupied cells keep their tokens, and
      the new tokens come from the supply. */
  lemma {:induction false} FillGridCells(g: Grid, sup: Supply)
    requires Rect(g) && SupplyFits(g, sup)
    ensures Full(FillGrid(g, sup))
    ensures forall p :: OnGrid(g, p) && Cell(g, p).Some? ==> Cell(FillGrid(g, sup), p) == Cell(g, p)
    ensures forall p :: OnGrid(g, p) && Cell(g, p).None? ==> Cell(FillGrid(g, sup), p).value in sup[p.0]
  {
    var r := FillGrid(g, sup);
    forall p | OnGrid(g, p)
      ensures Cell(r, p).Some?
      ensures Cell(g, p).Some? ==> Cell(r, p) == Cell(g, p)
      ensures Cell(g, p).None? ==> Cell(r, p).value in sup[p.0]
    {
      var c := Column(g, p.0);
      FillLineCells(c, sup[p.0]);
      assert Cell(r, p) == FillLine(c, sup[p.0])[p.1];
    }
  }

  /** A full grid is left alone and uses no supply. */
  lemma {:induction false} FillFull(g: Grid, sup: Supply)
    requires Rect(g) && |sup| == Width(g) && Full(g)
    ensures SupplyFits(g, sup)
    ensures FillGrid(g, sup) == g && Leftover(g, sup) == sup
  {
    FullColumns(g);
    forall x | 0 <= x < Width(g)
      ensures EmptyCount(Column(g, x)) == 0
    {
      EmptyCountZero(Column(g, x));
    }
    FillGridCells(g, sup);
    SameGrid(g, FillGrid(g, sup));
  }

  /** Filling a grid with an empty cell uses up at least one token of the supply. */
  lemma {:induction false} FillConsumes(g: Grid, sup: Supply)
    requires Rect(g) && SupplyFits(g, sup) && !Full(g)
    ensures SupplySize(Leftover(g, sup)) < SupplySize(sup)
  {
    FullColumns(g);
    var x :| 0 <= x < Width(g) && !AllOccupied(Column(g, x));
    EmptyCountZero(Column(g, x));
    SupplyShrinks(sup, Leftover(g, sup), x);
  }

  lemma {:induction false} SupplyShrinks(a: Supply, b: Supply, x: nat)
    requires |a| == |b| && x < |a|
    requires forall i :: 0 <= i < |a| ==> |b[i]| <= |a[i]|
    requires |b[x]| < |a[x]|
    ensures SupplySize(b) < SupplySize(a)
  {
    if x == 0 {
      SupplyNoGrowth(a[1..], b[1..]);
    } else {
      SupplyShrinks(a[1..], b[1..], x - 1);
    }
  }

  lemma {:induction false} SupplyNoGrowth(a: Supply, b: Supply)
    requires |a| == |b|
    requires forall i :: 0 <= i < |a| ==> |b[i]| <= |a[i]|
    ensures SupplySize(b) <= SupplySize(a)
  {
    if a != [] {
      SupplyNoGrowth(a[1..], b[1..]);
    }
  }
}
