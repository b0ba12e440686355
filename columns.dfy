/** Sequence algebra on one line of the board (a column or a row):
    gravity compaction, bottom-up refilling and cyclic rotation.
    The board and move modules lift these to whole grids. */
module Columns {
  import opened Types

  /** The cells of one column (index 0 = top) or one row (index 0 = left). */
  type Line = seq<Option<char>>

  function Index(n: nat): (r: seq<int>)
    ensures |r| == n
    ensures forall i :: 0 <= i < n ==> r[i] == i
  {
    seq(n, i => i)
  }

  function Blanks(n: nat): (r: Line)
    ensures |r| == n
    ensures forall i :: 0 <= i < n ==> r[i] == None
  {
    seq(n, _ => None)
  }

  predicate AllOccupied(s: Line)
  {
    forall p :: 0 <= p < |s| ==> s[p].Some?
  }

  // ---------------------------------------------------------------------------
  // Gravity on one column
  // ---------------------------------------------------------------------------

  /** The occupied cells of s[lo..hi], top to bottom, each paired with the row
      recorded for it in o (the row the token started from). */
  ghost function Tagged(s: Line, o: seq<int>, lo: nat, hi: nat): (r: seq<(char, int)>)
    requires lo <= hi <= |s| && |o| == |s|
    ensures |r| <= hi - lo
    decreases hi - lo
  {
    if lo == hi then []
    else Tagged(s, o, lo, hi - 1) + (if s[hi - 1].Some? then [(s[hi - 1].value, o[hi - 1])] else [])
  }

  /** The tokens of a column, top to bottom, each with the row it sits in. */
  ghost function Placement(c: Line): seq<(char, int)>
  {
    Tagged(c, Index(|c|), 0, |c|)
  }

  /** The tokens of a column, top to bottom. */
  ghost function Tokens(c: Line): (r: seq<char>)
  {
    var pl := Placement(c);
    seq(|pl|, i requires 0 <= i < |pl| => pl[i].0)
  }

  /** Gravity on one column: all tokens slide to the highest indices, in order. */
  ghost function Compact(c: Line): (r: Line)
    ensures |r| == |c|
  {
    var pl := Placement(c);
    Blanks(|c| - |pl|) + seq(|pl|, i requires 0 <= i < |pl| => Some(pl[i].0))
  }

  /** The rows that serve as source or destination when gravity moves a token:
      the i-th token goes from its row pl[i].1 to row |c| - |pl| + i. */
  ghost function Moved(c: Line): set<int>
  {
    var pl := Placement(c);
    var b := |c| - |pl|;
    (set i | 0 <= i < |pl| && pl[i].1 != b + i :: pl[i].1) +
    (set i | 0 <= i < |pl| && pl[i].1 != b + i :: b + i)
  }

  /** Every empty cell has only empty cells above it. */
  ghost predicate IsCompacted(s: Line)
  {
    forall p, q :: 0 <= q < p < |s| && s[p].None? ==> s[q].None?
  }

  /** The rows touched so far by a run of gravity that records in o where
      each token came from. */
  ghost function Movers(s: Line, o: seq<int>): set<int>
    requires |o| == |s|
  {
    (set p | 0 <= p < |s| && s[p].Some? && o[p] != p :: p) +
    (set p | 0 <= p < |s| && s[p].Some? && o[p] != p :: o[p])
  }

  lemma {:induction false} TaggedSplit(s: Line, o: seq<int>, lo: nat, mid: nat, hi: nat)
    requires lo <= mid <= hi <= |s| && |o| == |s|
    ensures Tagged(s, o, lo, hi) == Tagged(s, o, lo, mid) + Tagged(s, o, mid, hi)
    decreases hi - mid
  {
    if mid < hi {
      TaggedSplit(s, o, lo, mid, hi - 1);
    }
  }

  lemma {:induction false} TaggedFrame(s: Line, o: seq<int>, s': Line, o': seq<int>, lo: nat, hi: nat)
    requires lo <= hi <= |s| && |o| == |s| && hi <= |s'| && |o'| == |s'|
    requires forall p :: lo <= p < hi ==> s[p] == s'[p] && o[p] == o'[p]
    ensures Tagged(s, o, lo, hi) == Tagged(s', o', lo, hi)
    decreases hi - lo
  {
    if lo < hi {
      TaggedFrame(s, o, s', o', lo, hi - 1);
    }
  }

  lemma {:induction false} TaggedBlank(s: Line, o: seq<int>, lo: nat, hi: nat)
    requires lo <= hi <= |s| && |o| == |s|
    requires forall p :: lo <= p < hi ==> s[p].None?
    ensures Tagged(s, o, lo, hi) == []
    decreases hi - lo
  {
    if lo < hi {
      TaggedBlank(s, o, lo, hi - 1);
    }
  }

  lemma {:induction false} TaggedFull(s: Line, o: seq<int>, lo: nat, hi: nat)
    requires lo <= hi <= |s| && |o| == |s|
    requires forall p :: lo <= p < hi ==> s[p].Some?
    ensures |Tagged(s, o, lo, hi)| == hi - lo
    ensures forall i :: 0 <= i < hi - lo ==> Tagged(s, o, lo, hi)[i] == (s[lo + i].value, o[lo + i])
    decreases hi - lo
  {
    if lo < hi {
      TaggedFull(s, o, lo, hi - 1);
    }
  }

  /** A run over a range with as many tokens as cells has no empty cell. */
  lemma {:induction false} TaggedCountsEmpties(s: Line, o: seq<int>, lo: nat, hi: nat)
    requires lo <= hi <= |s| && |o| == |s|
    requires |Tagged(s, o, lo, hi)| == hi - lo
    ensures forall p :: lo <= p < hi ==> s[p].Some?
    decreases hi - lo
  {
    if lo < hi {
      assert |Tagged(s, o, lo, hi - 1)| <= hi - 1 - lo;
      TaggedCountsEmpties(s, o, lo, hi - 1);
    }
  }

  lemma {:induction false} TaggedSplit3(s: Line, o: seq<int>, lo: nat, a: nat, b: nat, hi: nat)
    requires lo <= a <= b <= hi <= |s| && |o| == |s|
    ensures Tagged(s, o, lo, hi) == Tagged(s, o, lo, a) + Tagged(s, o, a, b) + Tagged(s, o, b, hi)
  {
    TaggedSplit(s, o, lo, a, hi);
    TaggedSplit(s, o, a, b, hi);
  }

  /** A range whose only token sits at row m. */
  lemma {:induction false} TaggedSingle(s: Line, o: seq<int>, lo: nat, m: nat, hi: nat)
    requires lo <= m < hi <= |s| && |o| == |s|
    requires s[m].Some?
    requires forall p :: lo <= p < hi && p != m ==> s[p].None?
    ensures Tagged(s, o, lo, hi) == [(s[m].value, o[m])]
  {
    TaggedSplit3(s, o, lo, m, m + 1, hi);
    TaggedBlank(s, o, lo, m);
    TaggedBlank(s, o, m + 1, hi);
  }

  /** One step of the source's gravity loop: the token at j drops into the
      empty row k across empty rows; the tagged token sequence is unchanged. */
  lemma {:induction false} MoveDownKeepsTags(s: Line, o: seq<int>, j: nat, k: nat)
    requires j < k < |s| && |o| == |s|
    requires s[j].Some? && s[k].None?
    requires forall q :: j < q < k ==> s[q].None?
    ensures Tagged(s[j := None][k := s[j]], o[k := o[j]], 0, |s|) == Tagged(s, o, 0, |s|)
  {
    var s', o' := s[j := None][k := s[j]], o[k := o[j]];
    TaggedSplit3(s, o, 0, j, k + 1, |s|);
    TaggedSplit3(s', o', 0, j, k + 1, |s|);
    MoveDownOutside(s, o, j, k);
    MoveDownSpan(s, o, j, k);
  }

  /** The rows above j and below k are left as they are. */
  lemma {:induction false} MoveDownOutside(s: Line, o: seq<int>, j: nat, k: nat)
    requires j < k < |s| && |o| == |s|
    ensures Tagged(s[j := None][k := s[j]], o[k := o[j]], 0, j) == Tagged(s, o, 0, j)
    ensures Tagged(s[j := None][k := s[j]], o[k := o[j]], k + 1, |s|) == Tagged(s, o, k + 1, |s|)
  {
    var s', o' := s[j := None][k := s[j]], o[k := o[j]];
    assert forall p :: 0 <= p < j ==> s[p] == s'[p] && o[p] == o'[p];
    assert forall p :: k + 1 <= p < |s| ==> s[p] == s'[p] && o[p] == o'[p];
    TaggedFrame(s, o, s', o', 0, j);
    TaggedFrame(s, o, s', o', k + 1, |s|);
  }

  /** The rows from j to k hold one token before the step and after it. */
  lemma {:induction false} MoveDownSpan(s: Line, o: seq<int>, j: nat, k: nat)
    requires j < k < |s| && |o| == |s|
    requires s[j].Some? && s[k].None?
    requires forall q :: j < q < k ==> s[q].None?
    ensures Tagged(s[j := None][k := s[j]], o[k := o[j]], j, k + 1) == Tagged(s, o, j, k + 1)
  {
    var s', o' := s[j := None][k := s[j]], o[k := o[j]];
    assert s'[k] == s[j] && o'[k] == o[j];
    assert forall p :: j <= p < k + 1 && p != k ==> s'[p].None?;
    TaggedSingle(s, o, j, j, k + 1);
    TaggedSingle(s', o', j, k, k + 1);
  }

  /** The tags of a tagged run are tags recorded in the run's range. */
  lemma {:induction false} TaggedTagsInRange(s: Line, o: seq<int>, lo: nat, hi: nat, m: int)
    requires lo <= hi <= |s| && |o| == |s|
    requires forall p :: lo <= p < hi ==> 0 <= o[p] < m
    ensures forall i :: 0 <= i < |Tagged(s, o, lo, hi)| ==> 0 <= Tagged(s, o, lo, hi)[i].1 < m
    decreases hi - lo
  {
    if lo < hi {
      TaggedTagsInRange(s, o, lo, hi - 1, m);
    }
  }

  /** Gravity only reports rows of the column. */
  lemma {:induction false} MovedInRange(c: Line)
    ensures forall r :: r in Moved(c) ==> 0 <= r < |c|
  {
    TaggedTagsInRange(c, Index(|c|), 0, |c|, |c|);
  }

  /** One step of the source's gravity loop adds exactly the two rows it
      touches to the recorded sources and destinations. */
  lemma {:induction false} MoveDownMovers(s: Line, o: seq<int>, j: nat, k: nat)
    requires j < k < |s| && |o| == |s|
    requires s[j].Some? && s[k].None? && o[j] == j
    ensures Movers(s[j := None][k := s[j]], o[k := o[j]]) == Movers(s, o) + {j, k}
  {
    var s', o' := s[j := None][k := s[j]], o[k := o[j]];
    forall r | r in Movers(s', o')
      ensures r in Movers(s, o) + {j, k}
    {
      var p :| 0 <= p < |s'| && s'[p].Some? && o'[p] != p && (r == p || r == o'[p]);
      if p != k {
        assert s[p] == s'[p] && o[p] == o'[p];
      }
    }
    forall r | r in Movers(s, o) + {j, k}
      ensures r in Movers(s', o')
    {
      if r == j || r == k {
        assert s'[k].Some? && o'[k] == j;
      } else {
        var p :| 0 <= p < |s| && s[p].Some? && o[p] != p && (r == p || r == o[p]);
        assert p != j && p != k;
        assert s'[p] == s[p] && o'[p] == o[p];
      }
    }
  }

  /** A compacted column is blanks followed by its tagged tokens, in order. */
  lemma {:induction false} CompactedShape(s: Line, o: seq<int>, t: seq<(char, int)>)
    requires |o| == |s| && IsCompacted(s)
    requires t == Tagged(s, o, 0, |s|)
    ensures |t| <= |s|
    ensures (forall p :: 0 <= p < |s| - |t| ==> s[p].None?)
      && (forall i :: 0 <= i < |t| ==> s[|s| - |t| + i] == Some(t[i].0) && o[|s| - |t| + i] == t[i].1)
  {
    var n := |s|;
    var f := 0;
    while f < n && s[f].None?
      invariant 0 <= f <= n
      invariant forall p :: 0 <= p < f ==> s[p].None?
    {
      f := f + 1;
    }
    forall p | f <= p < n
      ensures s[p].Some?
    {
    }
    TaggedSplit(s, o, 0, f, n);
    TaggedBlank(s, o, 0, f);
    TaggedFull(s, o, f, n);
  }

  /** Applying Compact to an already compacted column changes nothing, and its
      tagged tokens sit in the last rows. */
  lemma {:induction false} CompactPlacement(c: Line)
    ensures |Compact(c)| == |c|
    ensures Placement(Compact(c)) == seq(|Placement(c)|, i requires 0 <= i < |Placement(c)| =>
              (Placement(c)[i].0, |c| - |Placement(c)| + i))
  {
    var pl := Placement(c);
    var r := Compact(c);
    var n, b := |c|, |c| - |pl|;
    TaggedSplit(r, Index(n), 0, b, n);
    TaggedBlank(r, Index(n), 0, b);
    TaggedFull(r, Index(n), b, n);
  }

  // ---------------------------------------------------------------------------
  // Properties of gravity on one column
  // ---------------------------------------------------------------------------

  /** Gravity keeps the tokens and their top-to-bottom order and pushes them
      to the highest row indices. */
  lemma {:induction false} CompactKeepsOrder(c: Line)
    ensures |Compact(c)| == |c|
    ensures Tokens(Compact(c)) == Tokens(c)
    ensures multiset(Tokens(Compact(c))) == multiset(Tokens(c))
    ensures IsCompacted(Compact(c))
  {
    CompactPlacement(c);
  }

  /** Running gravity twice changes nothing more and moves nothing the second time. */
  lemma {:induction false} CompactIdempotent(c: Line)
    ensures Compact(Compact(c)) == Compact(c)
    ensures Moved(Compact(c)) == {}
  {
    CompactPlacement(c);
    var pl := Placement(c);
    var r := Compact(c);
    assert |Placement(r)| == |pl|;
    assert Compact(r) == r by {
      assert forall i :: 0 <= i < |pl| ==> Placement(r)[i].0 == pl[i].0;
    }
  }

  /** A column without an empty cell is left alone by gravity. */
  lemma {:induction false} FullColumnUnmoved(c: Line)
    requires AllOccupied(c)
    ensures Compact(c) == c
    ensures Moved(c) == {}
  {
    TaggedFull(c, Index(|c|), 0, |c|);
  }

  /** Gravity neither creates nor fills empty cells. */
  lemma {:induction false} CompactKeepsFullness(c: Line)
    ensures AllOccupied(Compact(c)) <==> AllOccupied(c)
  {
    var pl := Placement(c);
    if AllOccupied(c) {
      FullColumnUnmoved(c);
    }
    if AllOccupied(Compact(c)) {
      if |c| > 0 {
        assert Compact(c)[0].Some?;
      }
      assert |pl| == |c|;
      TaggedCountsEmpties(c, Index(|c|), 0, |c|);
    }
  }

  /** The state reached by the source's loop is exactly gravity's result. */
  lemma {:induction false} GravityLoopResult(c: Line, s: Line, o: seq<int>)
    requires |s| == |c| && |o| == |c|
    requires IsCompacted(s)
    requires Tagged(s, o, 0, |s|) == Placement(c)
    ensures s == Compact(c)
  {
    var pl := Placement(c);
    CompactedShape(s, o, pl);
    IsCompact(c, s, pl);
  }

  /** The rows the source's loop recorded as moved are exactly those of Moved. */
  lemma {:induction false} GravityLoopMoved(c: Line, s: Line, o: seq<int>)
    requires |s| == |c| && |o| == |c|
    requires IsCompacted(s)
    requires Tagged(s, o, 0, |s|) == Placement(c)
    ensures Movers(s, o) == Moved(c)
  {
    var pl := Placement(c);
    CompactedShape(s, o, pl);
    MoversOfCompacted(c, s, o, pl);
  }

  /** A line of blanks followed by the tokens of c, in order, is Compact(c). */
  lemma {:induction false} IsCompact(c: Line, s: Line, pl: seq<(char, int)>)
    requires |s| == |c| && pl == Placement(c)
    requires (forall p :: 0 <= p < |c| - |pl| ==> s[p].None?)
      && (forall i :: 0 <= i < |pl| ==> s[|c| - |pl| + i] == Some(pl[i].0))
    ensures s == Compact(c)
  {
    var b := |c| - |pl|;
    var r := Compact(c);
    assert r == Blanks(b) + seq(|pl|, i requires 0 <= i < |pl| => Some(pl[i].0));
    forall p | 0 <= p < |s|
      ensures s[p] == r[p]
    {
      if p >= b {
        var i := p - b;
        assert s[b + i] == Some(pl[i].0);
      }
    }
  }

  lemma {:induction false} MoversOfCompacted(c: Line, s: Line, o: seq<int>, pl: seq<(char, int)>)
    requires |s| == |c| && |o| == |c| && pl == Placement(c)
    requires (forall p :: 0 <= p < |c| - |pl| ==> s[p].None?)
      && (forall i :: 0 <= i < |pl| ==> s[|c| - |pl| + i] == Some(pl[i].0) && o[|c| - |pl| + i] == pl[i].1)
    ensures Movers(s, o) == Moved(c)
  {
    var n, b := |c|, |c| - |pl|;
    forall r | r in Movers(s, o)
      ensures r in Moved(c)
    {
      var p :| 0 <= p < n && s[p].Some? && o[p] != p && (r == p || r == o[p]);
      var i := p - b;
      assert 0 <= i < |pl| && pl[i].1 == o[p];
    }
    forall r | r in Moved(c)
      ensures r in Movers(s, o)
    {
      var i :| 0 <= i < |pl| && pl[i].1 != b + i && (r == pl[i].1 || r == b + i);
      var p := b + i;
      assert s[p].Some? && o[p] == pl[i].1;
    }
  }

  // ---------------------------------------------------------------------------
  // Refilling one column from a supply of tokens, bottom row first
  // ---------------------------------------------------------------------------

  function EmptyCount(c: Line): (r: nat)
    ensures r <= |c|
  {
    if c == [] then 0 else (if c[0].None? then 1 else 0) + EmptyCount(c[1..])
  }

  /** The empty cells of c filled from s: the lowest empty cell takes s[0],
      the next one up s[1], and so on. */
  function FillLine(c: Line, s: seq<char>): (r: Line)
    requires EmptyCount(c) <= |s|
    ensures |r| == |c|
  {
    if c == [] then []
    else (if c[0].None? then [Some(s[EmptyCount(c[1..])])] else [c[0]]) + FillLine(c[1..], s)
  }

  /** Filling leaves occupied cells alone and gives the empty cell at row p
      the token numbered by how many empty cells lie below it. */
  lemma {:induction false} FillLineCells(c: Line, s: seq<char>)
    requires EmptyCount(c) <= |s|
    ensures AllOccupied(FillLine(c, s))
    ensures forall p :: 0 <= p < |c| && c[p].Some? ==> FillLine(c, s)[p] == c[p]
    ensures forall p :: 0 <= p < |c| && c[p].None? ==>
              EmptyCount(c[p + 1..]) < |s| && FillLine(c, s)[p] == Some(s[EmptyCount(c[p + 1..])])
  {
    if c != [] {
      FillLineCells(c[1..], s);
      forall p | 1 <= p < |c|
        ensures FillLine(c, s)[p] == FillLine(c[1..], s)[p - 1]
        ensures c[1..][p - 1] == c[p] && c[1..][p - 1 + 1..] == c[p + 1..]
      {
      }
    }
  }

  /** Row y of a filled line, and the count of empty cells from row y down,
      as a bottom-up fill meets them. */
  lemma {:induction false} FillLineAt(c: Line, s: seq<char>, y: nat)
    requires EmptyCount(c) <= |s| && y < |c|
    ensures EmptyCount(c[y..]) == (if c[y].None? then 1 else 0) + EmptyCount(c[y + 1..])
    ensures c[y].Some? ==> FillLine(c, s)[y] == c[y]
    ensures c[y].None? ==> EmptyCount(c[y + 1..]) < |s| && FillLine(c, s)[y] == Some(s[EmptyCount(c[y + 1..])])
  {
    FillLineCells(c, s);
    assert c[y..][1..] == c[y + 1..];
  }

  lemma {:induction false} EmptyCountZero(c: Line)
    ensures EmptyCount(c) == 0 <==> AllOccupied(c)
  {
    if c != [] {
      EmptyCountZero(c[1..]);
      assert forall p :: 1 <= p < |c| ==> c[p] == c[1..][p - 1];
    }
  }

  // ---------------------------------------------------------------------------
  // Cyclic rotation of a line
  // ---------------------------------------------------------------------------

  /** Overwriting a sequence b with a, front to back: the next entry. */
  lemma {:induction false} OverwriteStep<T>(a: seq<T>, b: seq<T>, i: int)
    requires |a| == |b| && 0 <= i < |a|
    ensures (a[..i] + b[i..])[i := a[i]] == a[..i + 1] + b[i + 1..]
  {
    var l := (a[..i] + b[i..])[i := a[i]];
    var r := a[..i + 1] + b[i + 1..];
    assert |l| == |r|;
    forall k | 0 <= k < |l|
      ensures l[k] == r[k]
    {
    }
  }

  /** Overwriting a sequence b with a, front to back: start and end. */
  lemma OverwriteEnds<T>(a: seq<T>, b: seq<T>)
    requires |a| == |b|
    ensures a[..0] + b[0..] == b && a[..|a|] + b[|a|..] == a
  {
    assert a[..0] + b[0..] == b;
    assert a[..|a|] + b[|a|..] == a;
  }

  /** One step to the right (or down): the last cell wraps to the front. */
  function RotateRight<T>(s: seq<T>): (r: seq<T>)
    ensures |r| == |s|
  {
    if s == [] then [] else [s[|s| - 1]] + s[..|s| - 1]
  }

  /** Rotating right moves the last entry to the front and every other one
      place towards the end. */
  lemma RotateRightIndex<T>(s: seq<T>)
    requires |s| > 0
    ensures RotateRight(s)[0] == s[|s| - 1]
    ensures forall i :: 1 <= i < |s| ==> RotateRight(s)[i] == s[i - 1]
  {
  }

  /** One step to the left (or up): the first cell wraps to the back. */
  function RotateLeft<T>(s: seq<T>): (r: seq<T>)
    ensures |r| == |s|
  {
    if s == [] then [] else s[1..] + [s[0]]
  }

  /** k steps to the right. */
  function RotateRightTimes<T>(s: seq<T>, k: nat): (r: seq<T>)
    ensures |r| == |s|
    decreases k
  {
    if k == 0 then s else RotateRightTimes(RotateRight(s), k - 1)
  }

  /** One more right step, taken last. */
  lemma {:induction false} RotateRightTimesLast<T>(s: seq<T>, k: nat)
    ensures RotateRightTimes(s, k + 1) == RotateRight(RotateRightTimes(s, k))
    decreases k
  {
    if k > 0 {
      assert RotateRightTimes(s, k + 1) == RotateRightTimes(RotateRight(s), k);
      assert RotateRightTimes(s, k) == RotateRightTimes(RotateRight(s), k - 1);
      RotateRightTimesLast(RotateRight(s), k - 1);
    }
  }

  /** k right steps move the last k cells to the front. */
  lemma {:induction false} RotateRightTimesShape<T>(s: seq<T>, k: nat)
    requires k <= |s|
    ensures RotateRightTimes(s, k) == s[|s| - k..] + s[..|s| - k]
    decreases k
  {
    if k > 0 {
      var r := RotateRight(s);
      calc {
        RotateRightTimes(s, k);
        RotateRightTimes(r, k - 1);
        { RotateRightTimesShape(r, k - 1); }
        r[|r| - (k - 1)..] + r[..|r| - (k - 1)];
        { RotateRightSplit(s, k); }
        s[|s| - k..] + s[..|s| - k];
      }
    }
  }

  /** Splitting a right-rotated sequence one place further along gives the same split of the original. */
  lemma {:induction false} RotateRightSplit<T>(s: seq<T>, k: nat)
    requires 0 < k <= |s|
    ensures var r := RotateRight(s); r[|r| - (k - 1)..] + r[..|r| - (k - 1)] == s[|s| - k..] + s[..|s| - k]
  {
    var n := |s|;
    var r := RotateRight(s);
    RotateRightIndex(s);
    var lhs := r[n - k + 1..] + r[..n - k + 1];
    var rhs := s[n - k..] + s[..n - k];
    assert |lhs| == |rhs|;
    forall i | 0 <= i < n
      ensures lhs[i] == rhs[i]
    {
      if i < k - 1 {
        assert lhs[i] == r[n - k + 1 + i];
      } else if i == k - 1 {
        assert lhs[i] == r[0];
      } else {
        assert lhs[i] == r[i - k + 1];
      }
    }
  }

  /** |s| - 1 right steps are one left step. */
  lemma {:induction false} RotateRightAlmostFullIsLeft<T>(s: seq<T>)
    requires |s| >= 1
    ensures RotateRightTimes(s, |s| - 1) == RotateLeft(s)
  {
    RotateRightTimesShape(s, |s| - 1);
  }

  /** A right step followed by |s| - 1 more right steps is the identity. */
  lemma {:induction false} RotateRightUndone<T>(s: seq<T>)
    requires |s| >= 1
    ensures RotateRightTimes(RotateRight(s), |s| - 1) == s
    ensures RotateLeft(RotateRight(s)) == s
  {
    assert RotateRightTimes(RotateRight(s), |s| - 1) == RotateRightTimes(s, |s|);
    RotateRightTimesShape(s, |s|);
    RotateRightAlmostFullIsLeft(RotateRight(s));
  }
}
