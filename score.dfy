/** The scoring scenario of the game's tests: a three-by-three board of A
    tokens, a flip at (0, 0), and a supply that refills the board first with
    A tokens and then with a checkerboard of A and B. */
module ScoreExample {
  import opened Types
  import opened Columns
  import opened Grids
  import opened Matchers
  import opened TokenText
  import opened Moves
  import opened Game

  /** The deltas of the scenario's matcher: one cell down, one to the right. */
  const Deltas: set<Delta> := {(0, 1), (1, 0)}

  // ---------------------------------------------------------------------------
  // The three-by-three board and flood fill on it
  // ---------------------------------------------------------------------------

  /** A three-by-three board with v in every cell. */
  function Uniform(v: Option<char>): Grid
  {
    [[v, v, v], [v, v, v], [v, v, v]]
  }

  /** The empty three-by-three board. */
  function Blank(): Grid
  {
    Uniform(None)
  }

  /** Every position of a three-by-three board. */
  function AllCells(): set<Position>
  {
    Cells(Blank())
  }

  /** Every three-by-three grid has the same cells. */
  lemma BoardCells(g: Grid)
    requires Rect(g) && |g| == 3 && Width(g) == 3
    ensures Cells(g) == AllCells()
  {
  }

  /** In a closed set, a neighbour of a member that holds t is a member. */
  lemma NeighbourMember(g: Grid, t: char, c: set<Position>, q: Position, d: Delta, k: int)
    requires Rect(g) && Closed(g, t, Deltas, c) && q in c && d in Deltas && (k == 1 || k == -1)
    requires Holds(g, Plus(q, Scale(d, k)), t)
    ensures Plus(q, Scale(d, k)) in c
  {
    if k == 1 {
      assert Plus(q, d) in Neighbours(g, t, Deltas, c);
    } else {
      assert Plus(q, Scale(d, -1)) in Neighbours(g, t, Deltas, c);
    }
  }

  /** Every cell of g is on the three-by-three board and holds t. */
  predicate UniformOf(g: Grid, t: char)
    requires Rect(g)
  {
    |g| == 3 && Width(g) == 3 && forall y, x :: 0 <= y < 3 && 0 <= x < 3 ==> g[y][x] == Some(t)
  }

  /** In a closed set on a board of t tokens, the neighbours of a member
      are members: to the right, to the left, below and above. */
  lemma StepRight(g: Grid, t: char, c: set<Position>, q: Position)
    requires Rect(g) && UniformOf(g, t) && Closed(g, t, Deltas, c) && q in c && OnGrid(g, q) && q.0 < 2
    ensures (q.0 + 1, q.1) in c
  {
    var r := Plus(q, Scale((1, 0), 1));
    assert r == (q.0 + 1, q.1) && OnGrid(g, r) && g[r.1][r.0] == Some(t);
    NeighbourMember(g, t, c, q, (1, 0), 1);
  }

  lemma StepLeft(g: Grid, t: char, c: set<Position>, q: Position)
    requires Rect(g) && UniformOf(g, t) && Closed(g, t, Deltas, c) && q in c && OnGrid(g, q) && q.0 > 0
    ensures (q.0 - 1, q.1) in c
  {
    var r := Plus(q, Scale((1, 0), -1));
    assert r == (q.0 - 1, q.1) && OnGrid(g, r) && g[r.1][r.0] == Some(t);
    NeighbourMember(g, t, c, q, (1, 0), -1);
  }

  lemma StepDown(g: Grid, t: char, c: set<Position>, q: Position)
    requires Rect(g) && UniformOf(g, t) && Closed(g, t, Deltas, c) && q in c && OnGrid(g, q) && q.1 < 2
    ensures (q.0, q.1 + 1) in c
  {
    var r := Plus(q, Scale((0, 1), 1));
    assert r == (q.0, q.1 + 1) && OnGrid(g, r) && g[r.1][r.0] == Some(t);
    NeighbourMember(g, t, c, q, (0, 1), 1);
  }

  lemma StepUp(g: Grid, t: char, c: set<Position>, q: Position)
    requires Rect(g) && UniformOf(g, t) && Closed(g, t, Deltas, c) && q in c && OnGrid(g, q) && q.1 > 0
    ensures (q.0, q.1 - 1) in c
  {
    var r := Plus(q, Scale((0, 1), -1));
    assert r == (q.0, q.1 - 1) && OnGrid(g, r) && g[r.1][r.0] == Some(t);
    NeighbourMember(g, t, c, q, (0, 1), -1);
  }

  /** The flood fill stays among the cells of the board. */
  lemma FillOnBoard(g: Grid, t: char, p: Position)
    requires Rect(g) && OnGrid(g, p)
    ensures Closure(g, t, Deltas, {p}) <= Cells(g)
  {
    var n := Neighbours(g, t, Deltas, Cells(g));
    forall q | q in n
      ensures q in Cells(g)
    {
      NeighboursHold(g, t, Deltas, Cells(g), q);
    }
    ClosureLeast(g, t, Deltas, {p}, Cells(g));
  }

  /** The flood fill from p is closed and holds p. */
  lemma FillClosed(g: Grid, t: char, p: Position)
    requires Rect(g)
    ensures p in Closure(g, t, Deltas, {p}) && Closed(g, t, Deltas, Closure(g, t, Deltas, {p}))
  {
    ClosureContains(g, t, Deltas, {p});
    ClosureClosed(g, t, Deltas, {p});
  }

  /** q is a cell of the three-by-three board. */
  predicate OnBoard(q: Position)
  {
    0 <= q.0 < 3 && 0 <= q.1 < 3
  }

  /** Every member on the three-by-three board has its four neighbours on
      the board as members. */
  predicate Spreads(c: set<Position>)
  {
    forall q {:trigger OnBoard(q)} :: OnBoard(q) && q in c ==>
      && (q.0 < 2 ==> (q.0 + 1, q.1) in c) && (q.0 > 0 ==> (q.0 - 1, q.1) in c)
      && (q.1 < 2 ==> (q.0, q.1 + 1) in c) && (q.1 > 0 ==> (q.0, q.1 - 1) in c)
  }

  /** On a board of t tokens, a closed set spreads. */
  lemma ClosedSpreads(g: Grid, t: char, c: set<Position>)
    requires Rect(g) && UniformOf(g, t) && Closed(g, t, Deltas, c)
    ensures Spreads(c)
  {
    forall q | OnBoard(q) && q in c
      ensures && (q.0 < 2 ==> (q.0 + 1, q.1) in c) && (q.0 > 0 ==> (q.0 - 1, q.1) in c)
              && (q.1 < 2 ==> (q.0, q.1 + 1) in c) && (q.1 > 0 ==> (q.0, q.1 - 1) in c)
    {
      if q.0 < 2 { StepRight(g, t, c, q); }
      if q.0 > 0 { StepLeft(g, t, c, q); }
      if q.1 < 2 { StepDown(g, t, c, q); }
      if q.1 > 0 { StepUp(g, t, c, q); }
    }
  }

  /** A set that spreads and holds some cell of the board holds every cell. */
  lemma SpreadCovers(c: set<Position>, p: Position)
    requires Spreads(c) && p in c && OnBoard(p)
    ensures forall q :: OnBoard(q) ==> q in c
  {
    if p.0 == 2 {
      assert OnBoard((1, p.1));
    }
    assert OnBoard((0, p.1)) && (0, p.1) in c;
    if p.1 == 2 {
      assert OnBoard((0, 1));
    }
    assert OnBoard((0, 0)) && (0, 0) in c;
    assert OnBoard((1, 0)) && OnBoard((2, 0)) && OnBoard((0, 1)) && OnBoard((1, 1)) && OnBoard((2, 1));
  }

  /** The flood fill stays on the board. */
  lemma FillWithin(g: Grid, t: char, p: Position)
    requires Rect(g) && UniformOf(g, t) && OnGrid(g, p)
    ensures Closure(g, t, Deltas, {p}) <= AllCells()
  {
    FillOnBoard(g, t, p);
    BoardCells(g);
  }

  /** On a board of t tokens, the flood fill reaches every cell. */
  lemma FillCovers(g: Grid, t: char, p: Position)
    requires Rect(g) && UniformOf(g, t) && OnGrid(g, p)
    ensures AllCells() <= Closure(g, t, Deltas, {p})
  {
    var c := Closure(g, t, Deltas, {p});
    FillClosed(g, t, p);
    ClosedSpreads(g, t, c);
    SpreadCovers(c, p);
    assert forall q :: q in AllCells() ==> OnBoard(q);
  }

  /** On a board of t tokens, the flood fill from any cell covers the board. */
  lemma UniformClosure(g: Grid, t: char, p: Position)
    requires Rect(g) && UniformOf(g, t) && OnGrid(g, p)
    ensures Closure(g, t, Deltas, {p}) == AllCells()
  {
    FillWithin(g, t, p);
    FillCovers(g, t, p);
  }

  // ---------------------------------------------------------------------------
  // Matches on a board of one token and on an alternating board
  // ---------------------------------------------------------------------------

  /** The matcher of the scenario: steps of one cell down or to the right. */
  function Adjacent(): Matcher
  {
    MaxDelta(Deltas)
  }

  /** From a cell of a board of t tokens, the one match is the whole board. */
  lemma UniformMatch(g: Grid, t: char, p: Position)
    requires Rect(g) && UniformOf(g, t) && OnGrid(g, p)
    ensures Match(Adjacent(), g, p) == Ok({AllCells()})
  {
    assert Cell(g, p) == Some(t);
    UniformClosure(g, t, p);
  }

  /** When every seed finds the same one match, so does matchAll. */
  lemma OneMatchAll(m: Matcher, g: Grid, ps: set<Position>, n: set<Position>)
    requires Rect(g) && ps <= Cells(g) && ps != {}
    requires forall p :: p in ps ==> Match(m, g, p) == Ok({n})
    ensures MatchAll(m, g, ps) == Ok({n})
  {
    var r := MatchAll(m, g, ps);
    MatchAllSeeds(m, g, ps);
    forall s | s in r.value
      ensures s == n
    {
      var p :| p in ps && s in Match(m, g, p).value;
    }
    var p :| p in ps;
    assert n in Match(m, g, p).value;
    assert r.value == {n};
  }

  /** From any seeds, matchAll on a board of t tokens finds the whole board
      as its one match. */
  lemma UniformMatchAll(g: Grid, t: char, ps: set<Position>)
    requires Rect(g) && UniformOf(g, t) && ps <= Cells(g) && ps != {}
    ensures MatchAll(Adjacent(), g, ps) == Ok({AllCells()})
  {
    forall p | p in ps
      ensures Match(Adjacent(), g, p) == Ok({AllCells()})
    {
      UniformMatch(g, t, p);
    }
    OneMatchAll(Adjacent(), g, ps, AllCells());
  }

  /** The three-by-three board whose cell (x, y) holds B when x + y is even
      and A otherwise. */
  predicate Alternating(g: Grid)
  {
    && |g| == 3 && Rect(g) && Width(g) == 3
    && forall y, x :: 0 <= y < 3 && 0 <= x < 3 ==> g[y][x] == Some(if (x + y) % 2 == 0 then 'B' else 'A')
  }

  /** A neighbour is one step of a delta away. */
  lemma NeighbourIsStep(g: Grid, t: char, p: Position, q: Position)
    requires Rect(g) && q in Neighbours(g, t, Deltas, {p})
    ensures q == (p.0 + 1, p.1) || q == (p.0 - 1, p.1) || q == (p.0, p.1 + 1) || q == (p.0, p.1 - 1)
  {
    if p', d :| p' in {p} && d in Deltas && Holds(g, Plus(p', d), t) && q == Plus(p', d) {
    } else {
      var p', d :| p' in {p} && d in Deltas && Holds(g, Plus(p', Scale(d, -1)), t) && q == Plus(p', Scale(d, -1));
    }
  }

  /** On an alternating board a cell on its own is closed: its neighbours
      hold the other token. */
  lemma AlternatingClosed(g: Grid, p: Position)
    requires Alternating(g) && OnGrid(g, p)
    ensures Closed(g, Cell(g, p).value, Deltas, {p})
  {
    var t := Cell(g, p).value;
    forall q | q in Neighbours(g, t, Deltas, {p})
      ensures false
    {
      NeighboursHold(g, t, Deltas, {p}, q);
      NeighbourIsStep(g, t, p, q);
    }
  }

  /** On an alternating board every match is a single cell. */
  lemma AlternatingMatch(g: Grid, p: Position)
    requires Alternating(g) && OnGrid(g, p)
    ensures Match(Adjacent(), g, p) == Ok({{p}})
  {
    var t := Cell(g, p).value;
    AlternatingClosed(g, p);
    ClosureLeast(g, t, Deltas, {p}, {p});
    ClosureContains(g, t, Deltas, {p});
  }

  /** When every seed's matches are smaller than ScoreBase, matchAll keeps
      nothing. */
  lemma NothingKept(m: Matcher, g: Grid, ps: set<Position>)
    requires Rect(g) && ps <= Cells(g)
    requires forall p, s :: p in ps && s in Match(m, g, p).value ==> |s| < ScoreBase
    ensures Kept(MatchAll(m, g, ps).value) == {}
  {
    MatchAllSeeds(m, g, ps);
  }

  /** From any seeds on an alternating board, matchAll keeps no match. */
  lemma AlternatingKeepsNothing(g: Grid, ps: set<Position>)
    requires Alternating(g) && ps <= Cells(g)
    ensures Kept(MatchAll(Adjacent(), g, ps).value) == {}
  {
    forall p, s | p in ps && s in Match(Adjacent(), g, p).value
      ensures |s| < ScoreBase
    {
      AlternatingMatch(g, p);
    }
    NothingKept(Adjacent(), g, ps);
  }

  // ---------------------------------------------------------------------------
  // Clearing, settling and refilling
  // ---------------------------------------------------------------------------

  /** Token i of column x's supply for the second refill, the first token
      going to the bottom row. */
  function Pattern(x: int, i: int): char
  {
    if (x + i) % 2 == 0 then 'B' else 'A'
  }

  /** A supply whose first three tokens per column are A tokens and whose
      next three refill the board alternately. */
  predicate TwoRefills(sup: Supply)
  {
    && |sup| == 3
    && (forall x :: 0 <= x < 3 ==> |sup[x]| >= 6)
    && (forall x, i :: 0 <= x < 3 && 0 <= i < 3 ==> sup[x][i] == 'A' && sup[x][i + 3] == Pattern(x, i))
  }

  /** The supply of the scenario, one sequence of tokens per column. */
  const ScenarioSupply: Supply := ["AAABAB", "AAAABA", "AAABAB"]

  /** Two three-by-three boards with the same columns are the same board. */
  lemma SameColumns(g: Grid, h: Grid)
    requires Rect(g) && Rect(h) && |g| == |h| == 3 && Width(g) == Width(h) == 3
    requires forall x :: 0 <= x < 3 ==> Column(g, x) == Column(h, x)
    ensures g == h
  {
    forall p | OnGrid(g, p)
      ensures Cell(g, p) == Cell(h, p)
    {
      assert Column(g, p.0)[p.1] == Column(h, p.0)[p.1];
    }
    SameGrid(g, h);
  }

  /** An empty column stays as it is under gravity and reports no row. */
  lemma EmptyColumnSettled()
    ensures Compact([None, None, None]) == [None, None, None]
    ensures Moved([None, None, None]) == {}
  {
    var c: Line := [None, None, None];
    var o := Index(3);
    assert Tagged(c, o, 0, 1) == [];
    assert Tagged(c, o, 0, 2) == [];
    assert Placement(c) == [];
  }

  /** Gravity leaves the empty board as it is and reports no position. */
  lemma BlankSettles()
    ensures Gravity(Blank()) == Blank()
    ensures GravityChanges(Blank()) == {}
  {
    var g := Blank();
    assert forall x :: 0 <= x < 3 ==> Column(g, x) == [None, None, None];
    EmptyColumnSettled();
    SameColumns(Gravity(g), g);
  }

  /** Clearing every cell of a three-by-three board leaves the empty board. */
  lemma ClearEverything(g: Grid)
    requires Rect(g) && |g| == 3 && Width(g) == 3
    ensures ClearAll(g, Cells(g)) == Blank()
  {
    SameGrid(ClearAll(g, Cells(g)), Blank());
  }

  /** An empty column of three cells takes its supply's first three tokens,
      the first at the bottom. */
  lemma FillEmptyColumn(s: seq<char>)
    requires |s| >= 3
    ensures EmptyCount([None, None, None]) == 3
    ensures FillLine([None, None, None], s) == [Some(s[2]), Some(s[1]), Some(s[0])]
  {
    var c: Line := [None, None, None];
    var c1: Line := [None, None];
    var c2: Line := [None];
    assert c[1..] == c1 && c1[1..] == c2 && c2[1..] == [];
    assert EmptyCount(c2) == 1 && EmptyCount(c1) == 2;
    assert FillLine(c2, s) == [Some(s[0])];
    assert FillLine(c1, s) == [Some(s[1]), Some(s[0])];
  }

  /** Filling the empty board takes three tokens from each column's supply. */
  lemma FillBlank(sup: Supply)
    requires |sup| == 3 && forall x :: 0 <= x < 3 ==> |sup[x]| >= 3
    ensures SupplyFits(Blank(), sup)
    ensures forall x :: 0 <= x < 3 ==> Column(FillGrid(Blank(), sup), x) == [Some(sup[x][2]), Some(sup[x][1]), Some(sup[x][0])]
    ensures forall x :: 0 <= x < 3 ==> Leftover(Blank(), sup)[x] == sup[x][3..]
  {
    var g := Blank();
    assert forall x :: 0 <= x < 3 ==> Column(g, x) == [None, None, None];
    forall x | 0 <= x < 3
      ensures EmptyCount(Column(g, x)) == 3
      ensures FillLine(Column(g, x), sup[x]) == [Some(sup[x][2]), Some(sup[x][1]), Some(sup[x][0])]
    {
      FillEmptyColumn(sup[x]);
    }
  }

  /** A supply whose first three tokens per column are all t refills the
      empty board with t tokens. */
  lemma RefillUniform(sup: Supply, t: char)
    requires |sup| == 3 && forall x :: 0 <= x < 3 ==> |sup[x]| >= 3
    requires forall x, i :: 0 <= x < 3 && 0 <= i < 3 ==> sup[x][i] == t
    ensures SupplyFits(Blank(), sup) && UniformOf(FillGrid(Blank(), sup), t)
  {
    FillBlank(sup);
    var r := FillGrid(Blank(), sup);
    forall y, x | 0 <= y < 3 && 0 <= x < 3
      ensures r[y][x] == Some(t)
    {
      assert r[y][x] == Column(r, x)[y];
    }
  }

  /** A supply laid out by Pattern refills the empty board alternately:
      column x gets its supply's token i at row 2 - i. */
  lemma RefillAlternating(sup: Supply)
    requires |sup| == 3 && forall x :: 0 <= x < 3 ==> |sup[x]| >= 3
    requires forall x, i :: 0 <= x < 3 && 0 <= i < 3 ==> sup[x][i] == Pattern(x, i)
    ensures SupplyFits(Blank(), sup) && Alternating(FillGrid(Blank(), sup))
  {
    FillBlank(sup);
    var r := FillGrid(Blank(), sup);
    forall y, x | 0 <= y < 3 && 0 <= x < 3
      ensures r[y][x] == Some(if (x + y) % 2 == 0 then 'B' else 'A')
    {
      assert r[y][x] == Column(r, x)[y] == Some(sup[x][2 - y]);
      assert (x + (2 - y)) % 2 == (x + y) % 2;
    }
  }

  /** The scenario's supply refills with A tokens and then alternately. */
  lemma ScenarioRefills()
    ensures TwoRefills(ScenarioSupply)
  {
  }

  // ---------------------------------------------------------------------------
  // The rounds of the chain reaction
  // ---------------------------------------------------------------------------

  /** The board has nine cells. */
  lemma NineCells()
    ensures |AllCells()| == 9
  {
    assert AllCells() == {(0, 0), (1, 0), (2, 0), (0, 1), (1, 1), (2, 1), (0, 2), (1, 2), (2, 2)};
  }

  /** The whole board as one match is kept and worth 3 + 6 * 2 = 15 points. */
  lemma WholeBoardPoints()
    ensures Kept({AllCells()}) == {AllCells()} && Flatten({AllCells()}) == AllCells() && PassPoints({AllCells()}) == 15
  {
    NineCells();
    assert Kept({AllCells()}) == {AllCells()};
    FlattenRemove({AllCells()}, AllCells());
    MatchScoreRemove({AllCells()}, AllCells());
    assert {AllCells()} - {AllCells()} == {};
  }

  /** A round whose one match is the whole board scores 15 points, clears
      the board and refills it from the supply; every position changed. */
  lemma WholeBoardRound(g: Grid, sup: Supply)
    requires Rect(g) && |g| == 3 && Width(g) == 3
    requires SupplyFits(Blank(), sup) && forall x :: 0 <= x < 3 ==> |sup[x]| >= 3
    ensures Step(g, Some(sup), {AllCells()}) == Round(FillGrid(Blank(), sup), Some(Leftover(Blank(), sup)), Done, AllCells(), 15)
  {
    WholeBoardPoints();
    BoardCells(g);
    ClearEverything(g);
    assert ClearAll(g, Flatten(Kept({AllCells()}))) == Blank();
    SettledBlank(sup);
  }

  /** The empty board settles by being refilled from the supply, and gravity
      reports nothing. */
  lemma SettledBlank(sup: Supply)
    requires SupplyFits(Blank(), sup)
    ensures Settled(Blank(), Some(sup)) == Round(FillGrid(Blank(), sup), Some(Leftover(Blank(), sup)), Done, {}, 0)
  {
    BlankSettles();
  }

  /** A round on a board of A tokens, from any seeds: the whole board is
      the one match, so 15 points are counted as often as the round number
      says and the next round starts, from every position, on the board
      refilled from the supply. */
  lemma WholeRound(g: Grid, sup: Supply, ps: set<Position>, t: Tally)
    requires Rect(g) && UniformOf(g, 'A') && ps <= Cells(g) && ps != {}
    requires SupplyFits(Blank(), sup) && forall x :: 0 <= x < 3 ==> |sup[x]| >= 3
    ensures Chain(Adjacent(), g, Some(sup), ps, t)
         == Chain(Adjacent(), FillGrid(Blank(), sup), Some(Leftover(Blank(), sup)), AllCells(), Next(t, 15))
  {
    BoardCells(g);
    UniformMatchAll(g, 'A', ps);
    WholeBoardRound(g, sup);
    ChainRound(Adjacent(), g, Some(sup), ps, t);
    ContinueDone(Adjacent(), g, Some(sup), ps, t);
  }

  /** The third round finds only single cells on an alternating board,
      keeps none, and the chain reaction ends with 45 points. */
  lemma LastRound(g: Grid, rest: Supply)
    requires Alternating(g) && |rest| == 3
    ensures Chain(Adjacent(), g, Some(rest), AllCells(), Tally(3, 45)) == Ending(g, Some(rest), Done, 45)
  {
    BoardCells(g);
    AlternatingKeepsNothing(g, AllCells());
    ChainStable(Adjacent(), g, rest, AllCells(), Tally(3, 45));
  }

  /** The flip at (0, 0) on a board of A tokens changes no token and seeds
      the chain reaction with the two flipped cells. */
  lemma FlipOnUniform(g: Grid)
    requires Rect(g) && UniformOf(g, 'A')
    ensures WellShaped(g) && Applies(FlipRight((0, 0)), Width(g), |g|)
    ensures UniformOf(Transform(FlipRight((0, 0)), g), 'A')
    ensures AffectedPositions(FlipRight((0, 0)), Width(g), |g|) == Ok({(0, 0), (1, 0)})
  {
    var h := Transform(FlipRight((0, 0)), g);
    forall y, x | 0 <= y < 3 && 0 <= x < 3
      ensures h[y][x] == Some('A')
    {
      assert h[y][x] == Cell(h, (x, y));
    }
  }

  /** The first round after the flip: the whole board, 15 points, and the
      second round starts on the board refilled with A tokens. */
  lemma FirstRound(g: Grid, sup: Supply, rest: Supply)
    requires Rect(g) && UniformOf(g, 'A')
    requires SupplyFits(Blank(), sup) && forall x :: 0 <= x < 3 ==> |sup[x]| >= 3
    requires Leftover(Blank(), sup) == rest
    ensures WellShaped(g) && Applies(FlipRight((0, 0)), Width(g), |g|)
    ensures Accept(Adjacent(), g, Some(sup), FlipRight((0, 0)))
         == Chain(Adjacent(), FillGrid(Blank(), sup), Some(rest), AllCells(), Tally(2, 15))
  {
    FlipOnUniform(g);
    var g1 := Transform(FlipRight((0, 0)), g);
    BoardCells(g1);
    WholeRound(g1, sup, {(0, 0), (1, 0)}, Tally(1, 0));
  }

  /** The second round: the whole board again, counted twice, and the third
      round starts on the board refilled from what is left. */
  lemma SecondRound(g: Grid, sup: Supply, rest: Supply)
    requires Rect(g) && UniformOf(g, 'A')
    requires SupplyFits(Blank(), sup) && forall x :: 0 <= x < 3 ==> |sup[x]| >= 3
    requires Leftover(Blank(), sup) == rest
    ensures Chain(Adjacent(), g, Some(sup), AllCells(), Tally(2, 15))
         == Chain(Adjacent(), FillGrid(Blank(), sup), Some(rest), AllCells(), Tally(3, 45))
  {
    BoardCells(g);
    NineCells();
    WholeRound(g, sup, AllCells(), Tally(2, 15));
  }

  /** Flipping (0, 0) on a board of A tokens with a supply that refills
      with A tokens and then alternately: the whole board matches twice, for
      15 and then 2 * 15 points, the alternating board matches nothing, and
      the move gains 45 points. */
  lemma ThreeRounds(g: Grid, sup: Supply)
    requires Rect(g) && UniformOf(g, 'A') && TwoRefills(sup)
    ensures WellShaped(g) && Applies(FlipRight((0, 0)), Width(g), |g|)
    ensures var e := Accept(Adjacent(), g, Some(sup), FlipRight((0, 0)));
      && e.outcome == Done && e.gained == 45 && Alternating(e.grid)
      && e.supply.Some? && |e.supply.value| == 3
      && forall x :: 0 <= x < 3 ==> e.supply.value[x] == sup[x][6..]
  {
    RefillUniform(sup, 'A');
    FillBlank(sup);
    var s1 := Leftover(Blank(), sup);
    forall x, i | 0 <= x < 3 && 0 <= i < 3
      ensures s1[x][i] == Pattern(x, i)
    {
      assert s1[x][i] == sup[x][i + 3];
    }
    RefillAlternating(s1);
    FillBlank(s1);
    var s2 := Leftover(Blank(), s1);
    var g1 := FillGrid(Blank(), sup);
    var g2 := FillGrid(Blank(), s1);
    FirstRound(g, sup, s1);
    SecondRound(g1, s1, s2);
    LastRound(g2, s2);
    assert forall x :: 0 <= x < 3 ==> s2[x] == sup[x][6..];
  }

  /** The scenario's supply holds six tokens per column, so two refills use
      it all. */
  lemma ScenarioSpent(sup: Supply, rest: Supply)
    requires sup == ScenarioSupply && |rest| == 3 && forall x :: 0 <= x < 3 ==> rest[x] == sup[x][6..]
    ensures rest == ["", "", ""]
  {
  }

  /** The scoring scenario: flipping (0, 0) on a board of A tokens with the
      scenario's supply gains 45 points and uses the whole supply. */
  lemma FlipScores45(g: Grid, sup: Supply)
    requires Rect(g) && UniformOf(g, 'A') && sup == ScenarioSupply
    ensures WellShaped(g) && Applies(FlipRight((0, 0)), Width(g), |g|)
    ensures var e := Accept(Adjacent(), g, Some(sup), FlipRight((0, 0)));
      e.outcome == Done && e.gained == 45 && e.supply == Some(["", "", ""])
  {
    ScenarioRefills();
    ThreeRounds(g, sup);
    ScenarioSpent(sup, Accept(Adjacent(), g, Some(sup), FlipRight((0, 0))).supply.value);
  }
}
