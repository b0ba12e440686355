/** Matchers: a maximum-delta flood fill from a seed cell, and the union of two
    matchers. Matching only reads the board. */
module Matchers {
  import opened Types
  import opened Grids
  import opened Boards

  /** A maximum-delta matcher over a set of deltas, or the union of two matchers. */
  datatype Matcher = MaxDelta(deltas: set<Delta>) | Multi(a: Matcher, b: Matcher)

  /** Construction of a maximum-delta matcher: the set must hold at least one
      delta and not the zero delta. */
  function NewMaxDelta(deltas: set<Delta>): (r: Result<Matcher>)
    ensures r.Ok? <==> deltas != {} && (0, 0) !in deltas
    ensures r.Ok? ==> r.value.MaxDelta? && r.value.deltas == deltas
    ensures r.Err? ==> r.error == MatcherInitialization
  {
    if |deltas| < 1 then Err(MatcherInitialization)
    else if (0, 0) in deltas then Err(MatcherInitialization)
    else Ok(MaxDelta(deltas))
  }

  // ---------------------------------------------------------------------------
  // The flood fill as a specification
  // ---------------------------------------------------------------------------

  /** Position q is on the board and holds token t. */
  predicate Holds(g: Grid, q: Position, t: char)
    requires Rect(g)
  {
    OnGrid(g, q) && Cell(g, q) == Some(t)
  }

  /** The positions p + d and p - d, for p in m and d in ds, that hold t. */
  function Neighbours(g: Grid, t: char, ds: set<Delta>, m: set<Position>): set<Position>
    requires Rect(g)
  {
    (set p, d | p in m && d in ds && Holds(g, Plus(p, d), t) :: Plus(p, d)) +
    (set p, d | p in m && d in ds && Holds(g, Plus(p, Scale(d, -1)), t) :: Plus(p, Scale(d, -1)))
  }

  /** Every neighbour holds t. */
  lemma {:induction false} NeighboursHold(g: Grid, t: char, ds: set<Delta>, m: set<Position>, q: Position)
    requires Rect(g) && q in Neighbours(g, t, ds, m)
    ensures Holds(g, q, t)
  {
    if p, d :| p in m && d in ds && Holds(g, Plus(p, d), t) && q == Plus(p, d) {
    } else {
      var p, d :| p in m && d in ds && Holds(g, Plus(p, Scale(d, -1)), t) && q == Plus(p, Scale(d, -1));
    }
  }

  /** One pass of the flood fill. */
  function Grow(g: Grid, t: char, ds: set<Delta>, m: set<Position>): set<Position>
    requires Rect(g)
  {
    m + Neighbours(g, t, ds, m)
  }

  /** A set closed under the deltas: no neighbour holding t lies outside it. */
  ghost predicate Closed(g: Grid, t: char, ds: set<Delta>, m: set<Position>)
    requires Rect(g)
  {
    Neighbours(g, t, ds, m) <= m
  }

  /** Passes of the flood fill until one adds nothing. */
  function Closure(g: Grid, t: char, ds: set<Delta>, m: set<Position>): set<Position>
    requires Rect(g)
    decreases |Cells(g) - m|
  {
    var next := Grow(g, t, ds, m);
    if next == m then m
    else
      GrowShrinksRemaining(g, t, ds, m);
      Closure(g, t, ds, next)
  }

  /** A pass that adds something leaves fewer board cells outside the set. */
  lemma {:induction false} GrowShrinksRemaining(g: Grid, t: char, ds: set<Delta>, m: set<Position>)
    requires Rect(g) && Grow(g, t, ds, m) != m
    ensures |Cells(g) - Grow(g, t, ds, m)| < |Cells(g) - m|
  {
    var q :| q in Grow(g, t, ds, m) && q !in m;
    NeighboursHold(g, t, ds, m, q);
    ProperSubsetSmaller(Cells(g) - Grow(g, t, ds, m), Cells(g) - m, q);
  }

  /** More positions, more neighbours. */
  lemma {:induction false} NeighboursMonotone(g: Grid, t: char, ds: set<Delta>, m: set<Position>, s: set<Position>)
    requires Rect(g) && m <= s
    ensures Neighbours(g, t, ds, m) <= Neighbours(g, t, ds, s)
  {
    forall q | q in Neighbours(g, t, ds, m)
      ensures q in Neighbours(g, t, ds, s)
    {
      if p, d :| p in m && d in ds && Holds(g, Plus(p, d), t) && q == Plus(p, d) {
        assert p in s;
      } else {
        var p, d :| p in m && d in ds && Holds(g, Plus(p, Scale(d, -1)), t) && q == Plus(p, Scale(d, -1));
        assert p in s;
      }
    }
  }

  /** The closure contains the starting set, and its members hold t when the
      starting set's do. */
  lemma {:induction false} ClosureContains(g: Grid, t: char, ds: set<Delta>, m: set<Position>)
    requires Rect(g)
    ensures m <= Closure(g, t, ds, m)
    ensures (forall q :: q in m ==> Holds(g, q, t)) ==> forall q :: q in Closure(g, t, ds, m) ==> Holds(g, q, t)
    decreases |Cells(g) - m|
  {
    var next := Grow(g, t, ds, m);
    if next != m {
      GrowShrinksRemaining(g, t, ds, m);
      ClosureContains(g, t, ds, next);
      forall q | q in Neighbours(g, t, ds, m)
        ensures Holds(g, q, t)
      {
        NeighboursHold(g, t, ds, m, q);
      }
    }
  }

  /** The closure is closed: p + d and p - d are members whenever they hold t. */
  lemma {:induction false} ClosureClosed(g: Grid, t: char, ds: set<Delta>, m: set<Position>)
    requires Rect(g)
    ensures Closed(g, t, ds, Closure(g, t, ds, m))
    ensures forall p, d :: p in Closure(g, t, ds, m) && d in ds && Holds(g, Plus(p, d), t) ==>
              Plus(p, d) in Closure(g, t, ds, m)
    ensures forall p, d :: p in Closure(g, t, ds, m) && d in ds && Holds(g, Plus(p, Scale(d, -1)), t) ==>
              Plus(p, Scale(d, -1)) in Closure(g, t, ds, m)
    decreases |Cells(g) - m|
  {
    var next := Grow(g, t, ds, m);
    if next != m {
      GrowShrinksRemaining(g, t, ds, m);
      ClosureClosed(g, t, ds, next);
    } else {
      var c := Closure(g, t, ds, m);
      assert c == m;
      forall p, d | p in c && d in ds && Holds(g, Plus(p, d), t)
        ensures Plus(p, d) in c
      {
        assert Plus(p, d) in Neighbours(g, t, ds, m);
      }
      forall p, d | p in c && d in ds && Holds(g, Plus(p, Scale(d, -1)), t)
        ensures Plus(p, Scale(d, -1)) in c
      {
        assert Plus(p, Scale(d, -1)) in Neighbours(g, t, ds, m);
      }
    }
  }

  /** The closure is the least closed set containing the starting set: every
      member is reached from it by steps of the deltas through cells holding t. */
  lemma {:induction false} ClosureLeast(g: Grid, t: char, ds: set<Delta>, m: set<Position>, s: set<Position>)
    requires Rect(g) && m <= s && Closed(g, t, ds, s)
    ensures Closure(g, t, ds, m) <= s
    decreases |Cells(g) - m|
  {
    var next := Grow(g, t, ds, m);
    if next != m {
      NeighboursMonotone(g, t, ds, m, s);
      GrowShrinksRemaining(g, t, ds, m);
      ClosureLeast(g, t, ds, next, s);
    }
  }

  /** The closure of a set that is already closed is that set. */
  lemma {:induction false} ClosureOfClosed(g: Grid, t: char, ds: set<Delta>, m: set<Position>)
    requires Rect(g) && Closed(g, t, ds, m)
    ensures Closure(g, t, ds, m) == m
  {
    assert Grow(g, t, ds, m) == m;
  }

  /** A pass of the flood fill does not change where it ends. */
  lemma {:induction false} ClosureGrow(g: Grid, t: char, ds: set<Delta>, m: set<Position>)
    requires Rect(g)
    ensures Closure(g, t, ds, Grow(g, t, ds, m)) == Closure(g, t, ds, m)
  {
    if Grow(g, t, ds, m) == m {
    } else {
      GrowShrinksRemaining(g, t, ds, m);
    }
  }

  // ---------------------------------------------------------------------------
  // match and matchAll
  // ---------------------------------------------------------------------------

  /** The matches found from one seed: an off-board seed is a dimension error
      (a union matcher asks its first matcher first); an empty seed cell gives
      the one empty match; otherwise the flood fill from the seed. */
  function Match(m: Matcher, g: Grid, p: Position): (r: Result<set<set<Position>>>)
    requires Rect(g)
    ensures r.Ok? <==> OnGrid(g, p)
    ensures r.Err? ==> r.error == BoardDimension
  {
    match m
    case MaxDelta(ds) =>
      if !OnGrid(g, p) then Err(BoardDimension)
      else if Cell(g, p).None? then Ok({{}})
      else Ok({Closure(g, Cell(g, p).value, ds, {p})})
    case Multi(a, b) =>
      match Match(a, g, p)
      case Err(e) => Err(e)
      case Ok(ra) =>
        match Match(b, g, p)
        case Err(e) => Err(e)
        case Ok(rb) => Ok(ra + rb)
  }

  /** A maximum-delta match from an occupied seed is one set: it holds the
      seed, every member holds the seed's token, it is closed under the deltas
      and it is contained in every closed set holding the seed. */
  lemma {:induction false} DeltaMatch(g: Grid, ds: set<Delta>, p: Position)
    requires Rect(g) && OnGrid(g, p) && Cell(g, p).Some?
    ensures exists c :: Match(MaxDelta(ds), g, p) == Ok({c}) && p in c
    ensures forall c :: c in Match(MaxDelta(ds), g, p).value ==>
              && p in c
              && (forall q :: q in c ==> Holds(g, q, Cell(g, p).value))
              && Closed(g, Cell(g, p).value, ds, c)
              && (forall s :: {p} <= s && Closed(g, Cell(g, p).value, ds, s) ==> c <= s)
  {
    var t := Cell(g, p).value;
    var c := Closure(g, t, ds, {p});
    ClosureContains(g, t, ds, {p});
    ClosureClosed(g, t, ds, {p});
    forall s | {p} <= s && Closed(g, t, ds, s)
      ensures c <= s
    {
      ClosureLeast(g, t, ds, {p}, s);
    }
  }

  /** A maximum-delta match from an empty seed cell is exactly the empty match. */
  lemma {:induction false} DeltaMatchEmptySeed(g: Grid, ds: set<Delta>, p: Position)
    requires Rect(g) && OnGrid(g, p) && Cell(g, p).None?
    ensures Match(MaxDelta(ds), g, p) == Ok({{}})
  {
  }

  /** A union of a matcher with itself finds what that matcher finds: a
      region found twice appears once. */
  lemma {:induction false} MultiIdempotent(m: Matcher, g: Grid, p: Position)
    requires Rect(g)
    ensures Match(Multi(m, m), g, p) == Match(m, g, p)
  {
    match Match(m, g, p)
    case Err(e) =>
    case Ok(r) => assert r + r == r;
  }

  /** Every matcher finds at least one match from a seed on the board, and
      every match lies on the board. */
  lemma {:induction false} MatchOnBoard(m: Matcher, g: Grid, p: Position)
    requires Rect(g) && OnGrid(g, p)
    ensures Match(m, g, p).value != {}
    ensures forall s :: s in Match(m, g, p).value ==> s <= Cells(g)
  {
    match m
    case MaxDelta(ds) =>
      if Cell(g, p).Some? {
        ClosureContains(g, Cell(g, p).value, ds, {p});
      }
    case Multi(a, b) =>
      MatchOnBoard(a, g, p);
      MatchOnBoard(b, g, p);
  }

  /** Every cell of a match from an on-board seed holds a token: an empty seed
      cell gives only the empty match. */
  lemma {:induction false} MatchOccupied(m: Matcher, g: Grid, p: Position)
    requires Rect(g) && OnGrid(g, p)
    ensures forall s, q :: s in Match(m, g, p).value && q in s ==> OnGrid(g, q) && Cell(g, q).Some?
  {
    match m
    case MaxDelta(ds) =>
      if Cell(g, p).Some? {
        DeltaMatch(g, ds, p);
      }
    case Multi(a, b) =>
      MatchOccupied(a, g, p);
      MatchOccupied(b, g, p);
  }

  /** The same for every match of matchAll. */
  lemma {:induction false} MatchAllOccupied(m: Matcher, g: Grid, ps: set<Position>)
    requires Rect(g) && ps <= Cells(g)
    ensures forall s, q :: s in MatchAll(m, g, ps).value && q in s ==> OnGrid(g, q) && Cell(g, q).Some?
  {
    MatchAllSeeds(m, g, ps);
    forall s, q | s in MatchAll(m, g, ps).value && q in s
      ensures OnGrid(g, q) && Cell(g, q).Some?
    {
      var p :| p in ps && s in Match(m, g, p).value;
      MatchOccupied(m, g, p);
    }
  }

  /** The matches of p, or none when p is off the board. */
  function Found(m: Matcher, g: Grid, p: Position): set<set<Position>>
    requires Rect(g)
  {
    if OnGrid(g, p) then Match(m, g, p).value else {}
  }

  /** Every match found from some seed of ps. */
  function Collected(m: Matcher, g: Grid, ps: set<Position>): set<set<Position>>
    requires Rect(g)
  {
    set p, s | p in ps && s in Found(m, g, p) :: s
  }

  /** The matches from every seed: a dimension error when some seed is off the
      board, the union of the seeds' matches otherwise. */
  function MatchAll(m: Matcher, g: Grid, ps: set<Position>): (r: Result<set<set<Position>>>)
    requires Rect(g)
    ensures r.Ok? <==> ps <= Cells(g)
    ensures r.Err? ==> r.error == BoardDimension
  {
    if exists p :: p in ps && !OnGrid(g, p) then Err(BoardDimension)
    else Ok(Collected(m, g, ps))
  }

  /** Each seed's matches are among matchAll's, and each of matchAll's comes
      from some seed. */
  lemma {:induction false} MatchAllSeeds(m: Matcher, g: Grid, ps: set<Position>)
    requires Rect(g) && ps <= Cells(g)
    ensures forall p :: p in ps ==> Match(m, g, p).value <= MatchAll(m, g, ps).value
    ensures forall s :: s in MatchAll(m, g, ps).value ==> exists p :: p in ps && s in Match(m, g, p).value
  {
    var r := MatchAll(m, g, ps).value;
    forall p | p in ps
      ensures Match(m, g, p).value <= r
    {
      assert Found(m, g, p) == Match(m, g, p).value;
    }
  }

  /** No seeds, no matches; seeds on the board always find something. */
  lemma {:induction false} MatchAllEmpty(m: Matcher, g: Grid, ps: set<Position>)
    requires Rect(g)
    ensures MatchAll(m, g, ps) == Ok({}) <==> ps == {}
  {
    if ps == {} {
      assert Collected(m, g, ps) == {};
    } else if ps <= Cells(g) {
      var p :| p in ps;
      MatchOnBoard(m, g, p);
      var s :| s in Match(m, g, p).value;
      assert s in Found(m, g, p);
      assert s in MatchAll(m, g, ps).value;
    }
  }

  /** Collected from one more seed. */
  lemma {:induction false} CollectedStep(m: Matcher, g: Grid, ps: set<Position>, p: Position)
    requires Rect(g)
    ensures Collected(m, g, ps + {p}) == Collected(m, g, ps) + Found(m, g, p)
  {
    var l := Collected(m, g, ps + {p});
    var r := Collected(m, g, ps) + Found(m, g, p);
    forall s | s in l
      ensures s in r
    {
      var q :| q in ps + {p} && s in Found(m, g, q);
      if q != p {
        assert s in Collected(m, g, ps);
      }
    }
    assert l == r;
  }

  /** The matches of a union matcher from one seed on the board. */
  lemma {:induction false} FoundMulti(a: Matcher, b: Matcher, g: Grid, p: Position)
    requires Rect(g) && OnGrid(g, p)
    ensures Found(Multi(a, b), g, p) == Found(a, g, p) + Found(b, g, p)
  {
  }

  /** matchAll of a union matcher is the union of its matchers' matchAll. */
  lemma {:induction false} MatchAllMulti(a: Matcher, b: Matcher, g: Grid, ps: set<Position>)
    requires Rect(g)
    ensures MatchAll(Multi(a, b), g, ps).Ok? ==>
              MatchAll(Multi(a, b), g, ps).value == MatchAll(a, g, ps).value + MatchAll(b, g, ps).value
  {
    if ps <= Cells(g) {
      var r := Collected(Multi(a, b), g, ps);
      var ra := Collected(a, g, ps);
      var rb := Collected(b, g, ps);
      forall s | s in r
        ensures s in ra + rb
      {
        var p :| p in ps && s in Found(Multi(a, b), g, p);
        FoundMulti(a, b, g, p);
        if s in Found(a, g, p) {
          assert s in ra;
        } else {
          assert s in rb;
        }
      }
      forall s | s in ra + rb
        ensures s in r
      {
        if s in ra {
          var p :| p in ps && s in Found(a, g, p);
          FoundMulti(a, b, g, p);
        } else {
          var p :| p in ps && s in Found(b, g, p);
          FoundMulti(a, b, g, p);
        }
      }
      assert r == ra + rb;
    }
  }

  /** matchAll over two seed sets is the union of the two. */
  lemma {:induction false} MatchAllUnion(m: Matcher, g: Grid, ps: set<Position>, qs: set<Position>)
    requires Rect(g)
    ensures MatchAll(m, g, ps + qs).Ok? <==> MatchAll(m, g, ps).Ok? && MatchAll(m, g, qs).Ok?
    ensures MatchAll(m, g, ps + qs).Ok? ==>
              MatchAll(m, g, ps + qs).value == MatchAll(m, g, ps).value + MatchAll(m, g, qs).value
  {
    if ps + qs <= Cells(g) {
      var r := Collected(m, g, ps + qs);
      var rp := Collected(m, g, ps);
      var rq := Collected(m, g, qs);
      forall s | s in r
        ensures s in rp + rq
      {
        var p :| p in ps + qs && s in Found(m, g, p);
        if p in ps {
          assert s in rp;
        } else {
          assert s in rq;
        }
      }
      forall s | s in rp + rq
        ensures s in r
      {
        if s in rp {
          var p :| p in ps && s in Found(m, g, p);
          assert p in ps + qs;
        } else {
          var p :| p in qs && s in Found(m, g, p);
          assert p in ps + qs;
        }
      }
      assert r == rp + rq;
    }
  }

  // ---------------------------------------------------------------------------
  // The matchers on a board
  // ---------------------------------------------------------------------------

  /** The loops of one flood-fill pass: for every delta and every matched
      position, the neighbours in both directions that hold t are added. */
  method AddNeighbours(board: Board, ds: set<Delta>, t: char, matched: set<Position>, next: set<Position>)
    returns (next': set<Position>)
    requires board.Valid()
    ensures next' == next + Neighbours(board.Model(), t, ds, matched)
  {
    ghost var g := board.Model();
    next' := next;
    var todo := ds;
    ghost var done: set<Delta> := {};
    while todo != {}
      invariant done + todo == ds && done !! todo
      invariant next' == next + Neighbours(g, t, done, matched)
      decreases |todo|
    {
      var d :| d in todo;
      next' := AddAlong(board, d, t, matched, next');
      NeighboursAddDelta(g, t, done, d, matched);
      MoveOne(ds, done, todo, d);
      done := done + {d};
      todo := todo - {d};
    }
  }

  /** The inner loop of a pass, for one delta d. */
  method AddAlong(board: Board, d: Delta, t: char, matched: set<Position>, next: set<Position>)
    returns (next': set<Position>)
    requires board.Valid()
    ensures next' == next + Neighbours(board.Model(), t, {d}, matched)
  {
    ghost var g := board.Model();
    next' := next;
    var rest := matched;
    ghost var seen: set<Position> := {};
    while rest != {}
      invariant seen + rest == matched && seen !! rest
      invariant next' == next + Neighbours(g, t, {d}, seen)
      decreases |rest|
    {
      var q :| q in rest;
      ghost var n0 := Neighbours(g, t, {d}, seen);
      NeighboursAddPosition(g, t, d, seen, q);
      next' := AddAround(board, d, t, q, next');
      UnionThree(next, n0, if Holds(g, Plus(q, d), t) then {Plus(q, d)} else {},
                 if Holds(g, Plus(q, Scale(d, -1)), t) then {Plus(q, Scale(d, -1))} else {});
      MoveOne(matched, seen, rest, q);
      seen := seen + {q};
      rest := rest - {q};
    }
  }

  /** The body of the inner loop: q + d and q - d are added when they hold t. */
  method AddAround(board: Board, d: Delta, t: char, q: Position, next: set<Position>)
    returns (next': set<Position>)
    requires board.Valid()
    ensures next' == next
                     + (if Holds(board.Model(), Plus(q, d), t) then {Plus(q, d)} else {})
                     + (if Holds(board.Model(), Plus(q, Scale(d, -1)), t) then {Plus(q, Scale(d, -1))} else {})
  {
    next' := next;
    var plus := Plus(q, d);
    var minus := Plus(q, Scale(d, -1));
    if board.ContainsPosition(plus) && board.TokenAt(plus) == Ok(Some(t)) {
      next' := next' + {plus};
    }
    if board.ContainsPosition(minus) && board.TokenAt(minus) == Ok(Some(t)) {
      next' := next' + {minus};
    }
  }

  /** The neighbours along d of one more position. */
  lemma {:induction false} NeighboursAddPosition(g: Grid, t: char, d: Delta, m: set<Position>, q: Position)
    requires Rect(g)
    ensures Neighbours(g, t, {d}, m + {q}) ==
              Neighbours(g, t, {d}, m)
              + (if Holds(g, Plus(q, d), t) then {Plus(q, d)} else {})
              + (if Holds(g, Plus(q, Scale(d, -1)), t) then {Plus(q, Scale(d, -1))} else {})
  {
  }

  /** The neighbours along one more delta. */
  lemma {:induction false} NeighboursAddDelta(g: Grid, t: char, ds: set<Delta>, d: Delta, m: set<Position>)
    requires Rect(g)
    ensures Neighbours(g, t, ds + {d}, m) == Neighbours(g, t, ds, m) + Neighbours(g, t, {d}, m)
  {
  }

  /** match on a board: the flood fill runs pass after pass (a do-while) until
      a pass adds nothing; a union matcher asks a, then b. */
  method MatchOn(m: Matcher, board: Board, initial: Position) returns (r: Result<set<set<Position>>>)
    requires board.Valid()
    ensures r == Match(m, board.Model(), initial)
    decreases m
  {
    match m {
      case MaxDelta(ds) =>
        if !board.ContainsPosition(initial) {
          return Err(BoardDimension);
        }
        var token := board.TokenAt(initial);
        if token.value.None? {
          return Ok({{}});
        }
        var matched := FloodFill(board, ds, token.value.value, initial);
        return Ok({matched});
      case Multi(a, b) =>
        var ra := MatchOn(a, board, initial);
        if ra.Err? {
          return Err(ra.error);
        }
        var rb := MatchOn(b, board, initial);
        r := if rb.Ok? then Ok(ra.value + rb.value) else rb;
    }
  }

  /** The do-while of the maximum-delta matcher, from a seed holding t. */
  method FloodFill(board: Board, ds: set<Delta>, t: char, initial: Position) returns (matched: set<Position>)
    requires board.Valid()
    ensures matched == Closure(board.Model(), t, ds, {initial})
  {
    ghost var g := board.Model();
    matched := {initial};
    var next: set<Position> := {};
    var first := true;
    while first || matched != next
      invariant first ==> matched == {initial} && next == {}
      invariant !first ==> next == Grow(g, t, ds, matched)
      invariant Closure(g, t, ds, matched) == Closure(g, t, ds, {initial})
      decreases |Cells(g) - matched|, first
    {
      if !first {
        GrowShrinksRemaining(g, t, ds, matched);
        ClosureGrow(g, t, ds, matched);
      }
      matched := matched + next;
      next := next + matched;
      next := AddNeighbours(board, ds, t, matched, next);
      first := false;
    }
    ClosureOfClosed(g, t, ds, matched);
  }

  /** matchAll on a board: the matches of every seed, in no particular order;
      the first off-board seed met ends it with a dimension error. */
  method MatchAllOn(m: Matcher, board: Board, initial: set<Position>) returns (r: Result<set<set<Position>>>)
    requires board.Valid()
    ensures r == MatchAll(m, board.Model(), initial)
  {
    ghost var g := board.Model();
    var matches: set<set<Position>> := {};
    var todo := initial;
    ghost var done: set<Position> := {};
    while todo != {}
      invariant done + todo == initial && done !! todo
      invariant done <= Cells(g)
      invariant matches == Collected(m, g, done)
      decreases |todo|
    {
      var p :| p in todo;
      var found := MatchOn(m, board, p);
      if found.Err? {
        return Err(found.error);
      }
      matches := matches + found.value;
      CollectedStep(m, g, done, p);
      MoveOne(initial, done, todo, p);
      done := done + {p};
      todo := todo - {p};
    }
    return Ok(matches);
  }
}
