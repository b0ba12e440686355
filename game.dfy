/** The game: a board, a matcher and a score. Starting the game and every
    accepted move end in the chain reaction of findMatches: matches of at
    least three positions are scored and removed, gravity pulls the tokens
    down, the board is refilled, and the positions that changed seed the
    next round, until a round finds nothing. */
module Game {
  import opened Types
  import opened Columns
  import opened Grids
  import opened TokenText
  import opened Boards
  import opened Matchers
  import opened Moves

  /** A match scores when it has at least ScoreBase positions; it is worth
      ScoreBase points and ScoreFactor more for every position beyond that. */
  const ScoreBase := 3
  const ScoreFactor := 2

  function Points(s: set<Position>): int
  {
    ScoreBase + (|s| - ScoreBase) * ScoreFactor
  }

  /** The matches that are kept: the others are dropped before scoring. */
  function Kept(ms: set<set<Position>>): set<set<Position>>
  {
    set s | s in ms && |s| >= ScoreBase
  }

  /** Every position of every match, gathered one match at a time in no
      particular order. */
  ghost function Flatten(ms: set<set<Position>>): set<Position>
    decreases ms
  {
    if ms == {} then {}
    else
      var s :| s in ms;
      s + Flatten(ms - {s})
  }

  /** The union may start from any of its matches. */
  lemma {:induction false} FlattenRemove(ms: set<set<Position>>, s: set<Position>)
    requires s in ms
    ensures Flatten(ms) == s + Flatten(ms - {s})
    decreases |ms|
  {
    var t :| t in ms && Flatten(ms) == t + Flatten(ms - {t});
    if t != s {
      FlattenRemove(ms - {t}, s);
      FlattenRemove(ms - {s}, t);
      assert ms - {t} - {s} == ms - {s} - {t};
    }
  }

  /** The points of a set of matches, added up in no particular order. */
  ghost function MatchScore(ms: set<set<Position>>): int
    decreases ms
  {
    if ms == {} then 0
    else
      var s :| s in ms;
      Points(s) + MatchScore(ms - {s})
  }

  /** The sum may start from any of its matches. */
  lemma {:induction false} MatchScoreRemove(ms: set<set<Position>>, s: set<Position>)
    requires s in ms
    ensures MatchScore(ms) == Points(s) + MatchScore(ms - {s})
    decreases |ms|
  {
    var t :| t in ms && MatchScore(ms) == Points(t) + MatchScore(ms - {t});
    if t != s {
      MatchScoreRemove(ms - {t}, s);
      MatchScoreRemove(ms - {s}, t);
      assert ms - {t} - {s} == ms - {s} - {t};
    }
  }

  /** Each kept match is worth at least ScoreBase points. */
  lemma {:induction false} MatchScoreBound(ms: set<set<Position>>)
    requires forall s :: s in ms ==> |s| >= ScoreBase
    ensures MatchScore(ms) >= ScoreBase * |ms|
    decreases |ms|
  {
    if ms != {} {
      var s :| s in ms;
      MatchScoreRemove(ms, s);
      MatchScoreBound(ms - {s});
    }
  }

  /** The points of one pass: the kept matches' points times the number of
      kept matches. */
  ghost function PassPoints(matched: set<set<Position>>): int
  {
    MatchScore(Kept(matched)) * |Kept(matched)|
  }

  /** The tokens a supply has left; none without a filling strategy. */
  function Remaining(sup: Option<Supply>): nat
  {
    if sup.None? then 0 else SupplySize(sup.value)
  }

  /** The state after one pass of findMatches' loop. */
  datatype Round = Round(grid: Grid, supply: Option<Supply>, outcome: Outcome, changed: set<Position>, points: int)

  /** moveTokensToBottom, then fillWithTokens, on grid g: gravity, then the
      empty cells are filled from the supply; an exception leaves the board
      as gravity left it. The changed positions are the ones gravity moved;
      no points. */
  ghost function Settled(g: Grid, sup: Option<Supply>): (r: Round)
    requires Rect(g)
    ensures SameShape(g, r.grid) && r.points == 0
  {
    var settled := Gravity(g);
    var moved := GravityChanges(g);
    if sup.None? then Round(settled, sup, Fail(NoFillingStrategy), moved, 0)
    else if !SupplyFits(settled, sup.value) then Round(settled, sup, Fail(SupplyExhausted), moved, 0)
    else Round(FillGrid(settled, sup.value), Some(Leftover(settled, sup.value)), Done, moved, 0)
  }

  /** One pass of findMatches' loop on grid g, given the matches matchAll
      found: the kept matches are scored and cleared, then the board settles;
      the changed positions are the cleared ones and the ones gravity moved.
      The pass's points are the kept matches' points times the number of
      kept matches. */
  ghost function Step(g: Grid, sup: Option<Supply>, matched: set<set<Position>>): (r: Round)
    requires Rect(g)
    ensures SameShape(g, r.grid)
  {
    var removed := Flatten(Kept(matched));
    var r := Settled(ClearAll(g, removed), sup);
    Round(r.grid, r.supply, r.outcome, removed + r.changed, PassPoints(matched))
  }

  /** Settling a full board that completes changes nothing; settling any
      other board that completes uses up supply. */
  lemma {:induction false} SettledShrinks(h: Grid, sup: Option<Supply>)
    requires Rect(h)
    ensures var r := Settled(h, sup);
              r.outcome.Done? ==> if Full(h) then r.supply == sup && r.changed == {} else Remaining(r.supply) < Remaining(sup)
  {
    GravityKeepsFullness(h);
    if Settled(h, sup).outcome.Done? {
      if Full(h) {
        FillFull(h, sup.value);
      } else {
        FillConsumes(Gravity(h), sup.value);
      }
    }
  }

  /** A pass that completes either uses up supply or leaves nothing changed,
      so the chain reaction ends. */
  lemma {:induction false} StepShrinks(m: Matcher, g: Grid, sup: Option<Supply>, changed: set<Position>)
    requires Rect(g) && MatchAll(m, g, changed).Ok? && MatchAll(m, g, changed).value != {}
    ensures changed != {}
    ensures var st := Step(g, sup, MatchAll(m, g, changed).value);
              st.outcome.Done? ==> Remaining(st.supply) + (if st.changed == {} then 0 else 1) < Remaining(sup) + 1
  {
    MatchAllEmpty(m, g, changed);
    var kept := Kept(MatchAll(m, g, changed).value);
    var removed := Flatten(kept);
    SettledShrinks(ClearAll(g, removed), sup);
    if kept != {} {
      var s :| s in kept;
      assert s != {};
      var q :| q in s;
      MatchAllOccupied(m, g, changed);
      FlattenRemove(kept, s);
      ClearAllNotFull(g, removed, q);
    } else {
      assert removed == {};
      ClearAllNothing(g);
    }
  }

  /** How findMatches ends: the board, the strategy's supply, whether an
      exception ended it, and the points it adds to the score (none when an
      exception ends it). */
  datatype Ending = Ending(grid: Grid, supply: Option<Supply>, outcome: Outcome, gained: int)

  /** findMatches' round counter and the points it has gathered so far. */
  datatype Tally = Tally(count: nat, acc: int)

  /** The tally after a pass worth the given points: the next round, with the
      pass's points counted as often as the round number says. */
  function Next(t: Tally, points: int): Tally
  {
    Tally(t.count + 1, t.acc + t.count * points)
  }

  /** findMatches from the given seeds, with tally t: matchAll fails on an
      off-board seed; no match ends the loop; otherwise Continue makes a pass. The points only grow while
      the loop runs, an exception drops them, and a full board stays full. */
  ghost function Chain(m: Matcher, g: Grid, sup: Option<Supply>, changed: set<Position>, t: Tally): (r: Ending)
    requires Rect(g)
    ensures SameShape(g, r.grid)
    ensures r.outcome.Done? ==> r.gained >= t.acc
    ensures r.outcome.Fail? ==> r.gained == 0
    ensures Full(g) && r.outcome.Done? ==> Full(r.grid)
    decreases Remaining(sup) + (if changed == {} then 0 else 1), 1
  {
    match MatchAll(m, g, changed)
    case Err(e) => Ending(g, sup, Fail(e), 0)
    case Ok(matched) =>
      if matched == {} then Ending(g, sup, Done, t.acc)
      else
        StepShrinks(m, g, sup, changed);
        Continue(m, g, sup, changed, t)
  }

  /** A round of findMatches whose matchAll found matches: a pass, then an
      exception ends the loop with the pass's board and supply and no
      points; otherwise the next round starts from the positions the pass
      changed, with the pass's points counted as often as the tally's round
      number says. */
  ghost function Continue(m: Matcher, g: Grid, sup: Option<Supply>, changed: set<Position>, t: Tally): (r: Ending)
    requires Rect(g) && MatchAll(m, g, changed).Ok? && MatchAll(m, g, changed).value != {}
    ensures SameShape(g, r.grid)
    ensures r.outcome.Done? ==> r.gained >= t.acc && Full(r.grid)
    ensures r.outcome.Fail? ==> r.gained == 0
    decreases Remaining(sup) + 1, 0
  {
    var matched := MatchAll(m, g, changed).value;
    StepShrinks(m, g, sup, changed);
    StepPoints(matched);
    StepFull(g, sup, matched);
    var st := Step(g, sup, matched);
    if st.outcome.Fail? then Ending(st.grid, st.supply, st.outcome, 0)
    else
      ProductNonNegative(t.count, st.points);
      Chain(m, st.grid, st.supply, st.changed, Next(t, st.points))
  }

  /** e is how findMatches ends from board g, supply sup and seeds changed,
      with tally t. */
  ghost predicate Ends(m: Matcher, g: Grid, sup: Option<Supply>, changed: set<Position>, t: Tally, e: Ending)
  {
    Rect(g) && e == Chain(m, g, sup, changed, t)
  }

  /** No seeds: nothing happens and the points gathered so far stand. */
  lemma {:induction false} ChainNoSeeds(m: Matcher, g: Grid, sup: Option<Supply>, t: Tally)
    requires Rect(g)
    ensures Chain(m, g, sup, {}, t) == Ending(g, sup, Done, t.acc)
  {
    MatchAllEmpty(m, g, {});
  }

  /** A round whose matchAll finds matches goes on with a pass. */
  lemma {:induction false} ChainRound(m: Matcher, g: Grid, sup: Option<Supply>, changed: set<Position>, t: Tally)
    requires Rect(g) && MatchAll(m, g, changed).Ok? && MatchAll(m, g, changed).value != {}
    ensures Chain(m, g, sup, changed, t) == Continue(m, g, sup, changed, t)
  {
  }

  /** A pass that completes hands its board, supply and changed positions
      to the next round, with the tally advanced by its points. */
  lemma {:induction false} ContinueDone(m: Matcher, g: Grid, sup: Option<Supply>, changed: set<Position>, t: Tally)
    requires Rect(g) && MatchAll(m, g, changed).Ok? && MatchAll(m, g, changed).value != {}
    requires Step(g, sup, MatchAll(m, g, changed).value).outcome.Done?
    ensures var st := Step(g, sup, MatchAll(m, g, changed).value);
              Continue(m, g, sup, changed, t) == Chain(m, st.grid, st.supply, st.changed, Next(t, st.points))
  {
  }

  /** Where findMatches from board g ends as e and its round finds matches,
      a pass that completes leaves a board from which, with the tally
      advanced by the pass's points, it ends as e too. */
  lemma {:induction false} EndsAfterPass(m: Matcher, g: Grid, sup: Option<Supply>, changed: set<Position>, t: Tally, e: Ending)
    requires Ends(m, g, sup, changed, t, e) && MatchAll(m, g, changed).Ok? && MatchAll(m, g, changed).value != {}
    requires Step(g, sup, MatchAll(m, g, changed).value).outcome.Done?
    ensures var st := Step(g, sup, MatchAll(m, g, changed).value);
              Ends(m, st.grid, st.supply, st.changed, Next(t, st.points), e)
  {
    ChainRound(m, g, sup, changed, t);
    ContinueDone(m, g, sup, changed, t);
  }

  /** A pass that fails ends the chain reaction with its board and supply
      and no points. */
  lemma {:induction false} ContinueFail(m: Matcher, g: Grid, sup: Option<Supply>, changed: set<Position>, t: Tally)
    requires Rect(g) && MatchAll(m, g, changed).Ok? && MatchAll(m, g, changed).value != {}
    requires Step(g, sup, MatchAll(m, g, changed).value).outcome.Fail?
    ensures var st := Step(g, sup, MatchAll(m, g, changed).value);
              Continue(m, g, sup, changed, t) == Ending(st.grid, st.supply, st.outcome, 0)
  {
  }

  /** A round's points are never negative: every kept match is worth at
      least ScoreBase. */
  lemma {:induction false} StepPoints(matched: set<set<Position>>)
    ensures PassPoints(matched) >= ScoreBase * |Kept(matched)| >= 0
  {
    var kept := Kept(matched);
    MatchScoreBound(kept);
    ProductMonotone(|kept|, MatchScore(kept), ScoreBase * |kept|);
  }

  lemma ProductNonNegative(a: int, b: int)
    requires a >= 0 && b >= 0
    ensures a * b >= 0
  {
  }

  lemma ProductMonotone(a: int, b: int, c: int)
    requires a >= 0 && b >= c
    ensures a * b >= a * c
  {
  }

  /** A round that keeps a match scores: the chain reaction, when it
      completes, adds at least ScoreBase points per kept match times the
      round number. */
  lemma {:induction false} ChainScores(m: Matcher, g: Grid, sup: Option<Supply>, changed: set<Position>, t: Tally)
    requires Rect(g) && t.count >= 1
    requires MatchAll(m, g, changed).Ok? && Kept(MatchAll(m, g, changed).value) != {}
    ensures var e := Chain(m, g, sup, changed, t);
              e.outcome.Done? ==> e.gained >= t.acc + t.count * (ScoreBase * |Kept(MatchAll(m, g, changed).value)|)
  {
    var r := MatchAll(m, g, changed);
    var st := Step(g, sup, r.value);
    assert r.value != {};
    if st.outcome.Done? {
      StepShrinks(m, g, sup, changed);
      StepPoints(r.value);
      ChainRound(m, g, sup, changed, t);
      ContinueDone(m, g, sup, changed, t);
      ProductMonotone(t.count, st.points, ScoreBase * |Kept(r.value)|);
    }
  }

  /** A round that completes leaves the board full. */
  lemma {:induction false} StepFull(g: Grid, sup: Option<Supply>, matched: set<set<Position>>)
    requires Rect(g)
    ensures Step(g, sup, matched).outcome.Done? ==> Full(Step(g, sup, matched).grid)
  {
    var settled := Gravity(ClearAll(g, Flatten(Kept(matched))));
    if sup.Some? && SupplyFits(settled, sup.value) {
      FillGridCells(settled, sup.value);
    }
  }

  /** On a full board, a pass that keeps no match removes, moves and fills
      nothing, reports no changed position and scores nothing. */
  lemma {:induction false} StepStable(g: Grid, sup: Supply, matched: set<set<Position>>)
    requires Rect(g) && Full(g) && |sup| == Width(g) && Kept(matched) == {}
    ensures Step(g, Some(sup), matched) == Round(g, Some(sup), Done, {}, 0)
  {
    assert Flatten(Kept(matched)) == {};
    ClearAllNothing(g);
    GravityKeepsFullness(g);
    FillFull(g, sup);
  }

  /** A full board whose seeds find no match worth scoring is left as it
      is: one pass that removes, moves and fills nothing, and no points. */
  lemma {:induction false} ChainStable(m: Matcher, g: Grid, sup: Supply, changed: set<Position>, t: Tally)
    requires Rect(g) && Full(g) && |sup| == Width(g) && changed <= Cells(g)
    requires Kept(MatchAll(m, g, changed).value) == {}
    ensures Chain(m, g, Some(sup), changed, t) == Ending(g, Some(sup), Done, t.acc)
  {
    var matched := MatchAll(m, g, changed).value;
    MatchAllEmpty(m, g, changed);
    if matched != {} {
      StepStable(g, sup, matched);
      ChainRound(m, g, Some(sup), changed, t);
      ContinueDone(m, g, Some(sup), changed, t);
      ChainNoSeeds(m, g, Some(sup), Next(t, 0));
    }
  }

  /** The opening of initializeBoardAndStart, before findMatches: the board
      settles; findMatches is to be seeded with the positions gravity moved
      and every position of the board. */
  ghost function Prepared(g: Grid, sup: Option<Supply>): (r: Round)
    requires Rect(g)
    ensures SameShape(g, r.grid) && r.points == 0
  {
    var r := Settled(g, sup);
    Round(r.grid, r.supply, r.outcome, r.changed + Cells(g), 0)
  }

  /** initializeBoardAndStart: the opening, then findMatches. */
  ghost function Start(m: Matcher, g: Grid, sup: Option<Supply>): Ending
    requires Rect(g)
  {
    var r := Prepared(g, sup);
    if r.outcome.Fail? then Ending(r.grid, r.supply, r.outcome, 0)
    else Chain(m, r.grid, r.supply, r.changed, Tally(1, 0))
  }

  /** A game that starts without an error has a full board, and its score
      has not gone down. */
  lemma {:induction false} StartFull(m: Matcher, g: Grid, sup: Option<Supply>)
    requires Rect(g)
    ensures Start(m, g, sup).outcome.Done? ==> Full(Start(m, g, sup).grid) && Start(m, g, sup).gained >= 0
  {
    var settled := Gravity(g);
    if sup.Some? && SupplyFits(settled, sup.value) {
      FillGridCells(settled, sup.value);
    }
  }

  /** acceptMove: a move that cannot be applied is a dimension error and
      changes nothing; otherwise the move is applied and findMatches is
      seeded with its affected positions. */
  ghost function Accept(m: Matcher, g: Grid, sup: Option<Supply>, move: Move): Ending
    requires WellShaped(g)
  {
    if !Applies(move, Width(g), |g|) then Ending(g, sup, Fail(BoardDimension), 0)
    else
      AffectedOk(move, g);
      Chain(m, Transform(move, g), sup, AffectedPositions(move, Width(g), |g|).value, Tally(1, 0))
  }

  /** An applicable move has its affected positions. */
  lemma {:induction false} AffectedOk(move: Move, g: Grid)
    requires WellShaped(g) && Applies(move, Width(g), |g|)
    ensures AffectedPositions(move, Width(g), |g|).Ok?
  {
    match move
    case RotateColumn(x, reversed) => ColumnAffectedAsWritten(x, reversed, g);
    case RotateSquare(a, _) => AffectedCoversChanges(RotateSquare(a, false), g);
    case RotateRow(y, _) => AffectedCoversChanges(RotateRow(y, false), g);
    case _ => AffectedCoversChanges(move, g);
  }

  /** A move that does not apply is refused with a dimension error and leaves
      the grid, the supply and the score as they were; accepting a move never
      lowers the score. */
  lemma {:induction false} AcceptGain(m: Matcher, g: Grid, sup: Option<Supply>, move: Move)
    requires WellShaped(g)
    ensures !Applies(move, Width(g), |g|) ==> Accept(m, g, sup, move) == Ending(g, sup, Fail(BoardDimension), 0)
    ensures Accept(m, g, sup, move).gained >= 0
  {
    if Applies(move, Width(g), |g|) {
      AffectedOk(move, g);
    }
  }

  /** As written, a column move on a board with at least two more columns
      than rows reports positions below the board, so matchAll fails after
      the move has been made: the move stays on the board and nothing is
      scored. */
  lemma {:induction false} AcceptWideColumn(m: Matcher, g: Grid, sup: Option<Supply>, x: int, reversed: bool)
    requires WellShaped(g) && 0 <= x < Width(g) && Width(g) >= |g| + 2
    ensures Accept(m, g, sup, RotateColumn(x, reversed)) ==
              Ending(Transform(RotateColumn(x, reversed), g), sup, Fail(BoardDimension), 0)
  {
    var move := RotateColumn(x, reversed);
    var h := Transform(move, g);
    ColumnAffectedAsWritten(x, reversed, g);
    var seeds := AffectedPositions(move, Width(g), |g|).value;
    assert (x, |g|) in seeds && !OnGrid(h, (x, |g|));
  }

  /** Removing one more match moves its points and its positions from what
      is left to do to what is done. */
  lemma {:induction false} RemoveOne(g: Grid, todo: set<set<Position>>, removed: set<Position>, s: set<Position>)
    requires Rect(g) && s in todo && forall q :: q in s ==> OnGrid(g, q)
    ensures s <= Cells(ClearAll(g, removed))
    ensures MatchScore(todo) == Points(s) + MatchScore(todo - {s})
    ensures removed + Flatten(todo) == (removed + s) + Flatten(todo - {s})
    ensures ClearAll(ClearAll(g, removed), s) == ClearAll(g, removed + s)
  {
    MatchScoreRemove(todo, s);
    FlattenRemove(todo, s);
    ClearAllTwice(g, removed, s);
  }

  /** Every position of a board with the given numbers of columns and rows,
      added column by column as the start of the game does. */
  method AllPositions(columns: nat, rows: nat) returns (ps: set<Position>)
    ensures forall p :: p in ps <==> 0 <= p.0 < columns && 0 <= p.1 < rows
  {
    ps := {};
    var i := 0;
    while i < columns
      invariant 0 <= i <= columns
      invariant forall p :: p in ps <==> 0 <= p.0 < i && 0 <= p.1 < rows
    {
      var j := 0;
      while j < rows
        invariant 0 <= j <= rows
        invariant forall p :: p in ps <==> (0 <= p.0 < i && 0 <= p.1 < rows) || (p.0 == i && 0 <= p.1 < j)
      {
        ps := ps + {(i, j)};
        j := j + 1;
      }
      i := i + 1;
    }
  }

  /** A game on a board with a matcher; the score starts at zero. */
  class MatchThreeGame {
    const board: Board
    var matcher: Matcher
    var score: int

    ghost predicate Valid()
      reads this, board, board.cells
    {
      board.Valid() && score >= 0
    }

    /** The game does not change the board it is given. */
    constructor (board: Board, matcher: Matcher)
      requires board.Valid()
      ensures Valid() && this.board == board && this.matcher == matcher && score == 0
    {
      this.board := board;
      this.matcher := matcher;
      score := 0;
    }

    function GetScore(): (s: int)
      reads this, board, board.cells
      requires Valid()
      ensures s >= 0
    {
      score
    }

    method SetMatcher(m: Matcher)
      requires Valid()
      modifies this
      ensures Valid() && matcher == m && score == old(score)
    {
      matcher := m;
    }

    /** initializeBoardAndStart: gravity, a full refill, then findMatches
        seeded with every position of the board. */
    method InitializeBoardAndStart() returns (o: Outcome)
      requires Valid()
      modifies this, board, board.cells
      ensures Valid() && matcher == old(matcher)
      ensures var e := Start(matcher, old(board.Model()), old(board.strategy));
                board.Model() == e.grid && board.strategy == e.supply && o == e.outcome && score == old(score) + e.gained
    {
      var changed;
      o, changed := Prepare();
      if o.Fail? {
        return;
      }
      o := FindMatches(changed);
    }

    /** The opening of initializeBoardAndStart: the board settles, and every
        position of the board is added to the ones gravity moved. */
    method Prepare() returns (o: Outcome, changed: set<Position>)
      requires Valid()
      modifies board, board.cells
      ensures Valid() && unchanged(this)
      ensures var r := Prepared(old(board.Model()), old(board.strategy));
                board.Model() == r.grid && board.strategy == r.supply && o == r.outcome && changed == r.changed
    {
      ghost var g := board.Model();
      board.ValidShape();
      var columns := board.ColumnCount();
      var rows := board.RowCount();
      var all := AllPositions(columns, rows);
      assert all == Cells(g);
      o, changed := Settle();
      changed := changed + all;
    }

    /** moveTokensToBottom, then fillWithTokens. */
    method Settle() returns (o: Outcome, moved: set<Position>)
      requires board.Valid()
      modifies board, board.cells
      ensures board.Valid() && unchanged(this)
      ensures var r := Settled(old(board.Model()), old(board.strategy));
                board.Model() == r.grid && board.strategy == r.supply && o == r.outcome && moved == r.changed
    {
      board.ValidShape();
      moved := board.MoveTokensToBottom();
      o := board.FillWithTokens();
    }

    /** acceptMove: a move that cannot be applied is a dimension error;
        otherwise it is applied and findMatches is seeded with its affected
        positions. */
    method AcceptMove(move: Move) returns (o: Outcome)
      requires Valid()
      modifies this, board, board.cells
      ensures Valid() && matcher == old(matcher)
      ensures var e := Accept(matcher, old(board.Model()), old(board.strategy), move);
                board.Model() == e.grid && board.strategy == e.supply && o == e.outcome && score == old(score) + e.gained
    {
      ghost var g := board.Model();
      board.ValidShape();
      var columns := board.ColumnCount();
      var rows := board.RowCount();
      if !CanBeApplied(move, columns, rows) {
        return Fail(BoardDimension);
      }
      o := Apply(move, board);
      if o.Fail? {
        return;
      }
      AffectedOk(move, g);
      var seeds := AffectedPositions(move, columns, rows);
      o := FindMatches(seeds.value);
    }

    /** The loop over the kept matches in findMatches: their points are
        added up and their tokens removed, one match at a time in no
        particular order. */
    method RemoveMatches(kept: set<set<Position>>) returns (matchScore: int, removed: set<Position>)
      requires board.Valid()
      requires forall s, q :: s in kept && q in s ==> OnGrid(board.Model(), q)
      modifies board.cells
      ensures board.Valid()
      ensures matchScore == MatchScore(kept) && removed == Flatten(kept)
      ensures board.Model() == ClearAll(old(board.Model()), removed)
    {
      ghost var g := board.Model();
      ClearAllNothing(g);
      matchScore := 0;
      removed := {};
      var todo := kept;
      while todo != {}
        invariant board.Valid() && todo <= kept
        invariant MatchScore(kept) == matchScore + MatchScore(todo)
        invariant Flatten(kept) == removed + Flatten(todo)
        invariant board.Model() == ClearAll(g, removed)
        decreases |todo|
      {
        var s :| s in todo;
        RemoveOne(g, todo, removed, s);
        matchScore := matchScore + Points(s);
        var o, cleared := board.RemoveTokensAt(s);
        removed := removed + s;
        todo := todo - {s};
      }
    }

    /** One pass of findMatches' loop: the kept matches are scored and
        removed, gravity is applied and the board refilled. */
    method Pass(ghost m: Matcher, ghost g: Grid, ghost sup: Option<Supply>, ghost seeds: set<Position>, matched: set<set<Position>>)
      returns (o: Outcome, points: int, changed: set<Position>)
      requires board.Valid() && g == board.Model() && sup == board.strategy
      requires Rect(g) && MatchAll(m, g, seeds) == Ok(matched)
      modifies board, board.cells
      ensures board.Valid() && unchanged(this)
      ensures var st := Step(g, sup, MatchAll(m, g, seeds).value);
                board.Model() == st.grid && board.strategy == st.supply && o == st.outcome &&
                changed == st.changed && points == st.points
    {
      board.ValidShape();
      MatchAllOccupied(m, board.Model(), seeds);
      var kept := Kept(matched);
      var matchScore, removed := RemoveMatches(kept);
      points := matchScore * |kept|;
      var moved;
      o, moved := Settle();
      changed := removed + moved;
    }

    /** One pass of findMatches' loop, with tally t, where findMatches from
        the old board ends as e: findMatches from the new board and the
        changed positions, with the tally advanced by this pass's points,
        ends as e too; a pass that fails ends it as e. The pass either uses
        up supply or leaves no changed position, so the loop ends. */
    method Advance(ghost m: Matcher, ghost g: Grid, ghost sup: Option<Supply>, ghost seeds: set<Position>,
                   ghost t: Tally, ghost e: Ending, matched: set<set<Position>>)
      returns (o: Outcome, points: int, changed: set<Position>, ghost g': Grid, ghost sup': Option<Supply>, ghost t': Tally)
      requires board.Valid() && g == board.Model() && sup == board.strategy
      requires Ends(m, g, sup, seeds, t, e) && MatchAll(m, g, seeds).Ok? && MatchAll(m, g, seeds).value == matched && matched != {}
      modifies board, board.cells
      ensures board.Valid() && unchanged(this) && g' == board.Model() && sup' == board.strategy
      ensures t'.count == t.count + 1 && t'.acc == t.acc + t.count * points
      ensures o.Done? ==> Ends(m, g', sup', changed, t', e)
      ensures o.Fail? ==> e == Ending(g', sup', o, 0)
      ensures o.Done? ==> Remaining(sup') + (if changed == {} then 0 else 1) < Remaining(sup) + (if seeds == {} then 0 else 1)
    {
      StepShrinks(m, g, sup, seeds);
      ghost var st := Step(g, sup, MatchAll(m, g, seeds).value);
      if st.outcome.Done? {
        EndsAfterPass(m, g, sup, seeds, t, e);
      } else {
        ChainRound(m, g, sup, seeds, t);
        ContinueFail(m, g, sup, seeds, t);
      }
      o, points, changed := Pass(m, g, sup, seeds, matched);
      g', sup', t' := st.grid, st.supply, Next(t, st.points);
    }

    /** findMatches: while matchAll finds something, a pass scores and
        removes the kept matches, applies gravity, refills the board, and
        the changed positions seed the next round; the points of round k
        count k times. The score changes only when no exception ends the
        loop. */
    method FindMatches(changed0: set<Position>) returns (o: Outcome)
      requires Valid()
      modifies this, board, board.cells
      ensures Valid() && matcher == old(matcher)
      ensures var e := Chain(matcher, old(board.Model()), old(board.strategy), changed0, Tally(1, 0));
                board.Model() == e.grid && board.strategy == e.supply && o == e.outcome && score == old(score) + e.gained
    {
      ghost var e := Chain(matcher, board.Model(), board.strategy, changed0, Tally(1, 0));
      var r := MatchAllOn(matcher, board, changed0);
      if r.Err? {
        return Fail(r.error);
      }
      var moveScore;
      o, moveScore := Cascade(board.Model(), board.strategy, changed0, e, r.value);
      if o.Done? {
        score := score + moveScore;
      }
    }

    /** The loop of findMatches, from the first round's matches: it ends as
        findMatches from the old board does, and when no exception ends it
        the points it gathered are what findMatches adds to the score. */
    method Cascade(ghost g0: Grid, ghost sup0: Option<Supply>, changed0: set<Position>, ghost e: Ending, matched0: set<set<Position>>)
      returns (o: Outcome, moveScore: int)
      requires board.Valid() && g0 == board.Model() && sup0 == board.strategy
      requires Ends(matcher, g0, sup0, changed0, Tally(1, 0), e)
      requires MatchAll(matcher, g0, changed0).Ok? && MatchAll(matcher, g0, changed0).value == matched0
      modifies board, board.cells
      ensures board.Valid() && unchanged(this)
      ensures board.Model() == e.grid && board.strategy == e.supply && o == e.outcome
      ensures o.Done? ==> moveScore == e.gained
    {
      var m := matcher;
      ghost var g, sup, t := g0, sup0, Tally(1, 0);
      moveScore := 0;
      var count := 1;
      var changed := changed0;
      var matched := matched0;
      while matched != {}
        invariant board.Valid() && unchanged(this)
        invariant g == board.Model() && sup == board.strategy && t.count == count && t.acc == moveScore
        invariant Ends(m, g, sup, changed, t, e) && MatchAll(m, g, changed).Ok? && MatchAll(m, g, changed).value == matched
        decreases Remaining(sup) + (if changed == {} then 0 else 1)
      {
        board.ValidShape();
        var points;
        o, points, changed, g, sup, t := Advance(m, g, sup, changed, t, e, matched);
        if o.Fail? {
          return;
        }
        moveScore := moveScore + count * points;
        count := count + 1;
        var r := MatchAllOn(m, board, changed);
        if r.Err? {
          return Fail(r.error), moveScore;
        }
        matched := r.value;
      }
      return Done, moveScore;
    }
  }
}
