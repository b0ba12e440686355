/** The token-string form of a board: rows top to bottom separated by ';',
    each row one character per column, a space for an empty cell. */
module TokenText {
  import opened Types
  import opened Columns
  import opened Grids

  // ---------------------------------------------------------------------------
  // Splitting and joining on ';'
  // ---------------------------------------------------------------------------

  predicate NoSemicolon(s: string)
  {
    forall i :: 0 <= i < |s| ==> s[i] != ';'
  }

  /** The pieces of s between semicolons, in order; empty pieces included. */
  function Split(s: string): (r: seq<string>)
    ensures |r| >= 1
    ensures forall y :: 0 <= y < |r| ==> NoSemicolon(r[y])
  {
    if s == [] then [[]]
    else
      var last := s[|s| - 1];
      var p := Split(s[..|s| - 1]);
      if last == ';' then p + [[]]
      else
        assert NoSemicolon(p[|p| - 1] + [last]) by {
          assert NoSemicolon(p[|p| - 1]);
        }
        p[..|p| - 1] + [p[|p| - 1] + [last]]
  }

  /** Split one character at a time: a ';' starts a new row, any other
      character extends the last one. */
  lemma {:induction false} SplitStep(t: string, c: char)
    ensures var p := Split(t);
      Split(t + [c]) == if c == ';' then p + [[]] else p[..|p| - 1] + [p[|p| - 1] + [c]]
  {
    assert (t + [c])[..|t + [c]| - 1] == t;
  }

  /** The rows separated by single semicolons. */
  function Join(rows: seq<string>): string
    requires |rows| >= 1
  {
    if |rows| == 1 then rows[0] else Join(rows[..|rows| - 1]) + [';'] + rows[|rows| - 1]
  }

  /** The rows, each followed by a semicolon: the string the source's printing
      loops build before dropping the final character. */
  function Terminated(rows: seq<string>): string
  {
    if rows == [] then [] else Terminated(rows[..|rows| - 1]) + rows[|rows| - 1] + [';']
  }

  lemma {:induction false} TerminatedIsJoin(rows: seq<string>)
    requires |rows| >= 1
    ensures Terminated(rows) == Join(rows) + [';']
    ensures |Terminated(rows)| >= 1
  {
    if |rows| > 1 {
      TerminatedIsJoin(rows[..|rows| - 1]);
      assert rows[..|rows| - 1][..|rows| - 2] == rows[..|rows| - 2];
    }
  }

  /** Appending a ';'-free piece after a semicolon adds exactly one row. */
  lemma {:induction false} SplitAfterSemicolon(s: string, t: string)
    requires NoSemicolon(t)
    ensures Split(s + [';'] + t) == Split(s) + [t]
    decreases |t|
  {
    if t == [] {
      assert (s + [';'] + t)[..|s + [';'] + t| - 1] == s;
    } else {
      var t' := t[..|t| - 1];
      var u := s + [';'] + t;
      assert u[..|u| - 1] == s + [';'] + t';
      SplitAfterSemicolon(s, t');
      assert t' + [t[|t| - 1]] == t;
    }
  }

  /** A ';'-free string is a single row. */
  lemma {:induction false} SplitNoSemicolon(t: string)
    requires NoSemicolon(t)
    ensures Split(t) == [t]
    decreases |t|
  {
    if t != [] {
      SplitNoSemicolon(t[..|t| - 1]);
      assert t[..|t| - 1] + [t[|t| - 1]] == t;
    }
  }

  /** Splitting joined ';'-free rows gives the rows back. */
  lemma {:induction false} SplitJoin(rows: seq<string>)
    requires |rows| >= 1
    requires forall y :: 0 <= y < |rows| ==> NoSemicolon(rows[y])
    ensures Split(Join(rows)) == rows
    decreases |rows|
  {
    if |rows| == 1 {
      SplitNoSemicolon(rows[0]);
    } else {
      var init, last := rows[..|rows| - 1], rows[|rows| - 1];
      assert forall y :: 0 <= y < |init| ==> init[y] == rows[y];
      SplitJoin(init);
      SplitAfterSemicolon(Join(init), last);
      assert init + [last] == rows;
    }
  }

  /** A new empty last row adds a semicolon. */
  lemma {:induction false} JoinEmptyLast(p: seq<string>)
    requires |p| >= 1
    ensures Join(p + [[]]) == Join(p) + [';']
  {
    var q := p + [[]];
    assert q[..|q| - 1] == p;
  }

  /** A character added to the last row is added at the end. */
  lemma {:induction false} JoinExtendLast(p: seq<string>, c: char)
    requires |p| >= 1
    ensures Join(p[..|p| - 1] + [p[|p| - 1] + [c]]) == Join(p) + [c]
  {
    var q := p[..|p| - 1] + [p[|p| - 1] + [c]];
    assert q[..|q| - 1] == p[..|p| - 1];
  }

  /** A non-empty sequence is its front followed by its last element. */
  lemma DropLast<T>(s: seq<T>)
    requires s != []
    ensures s[..|s| - 1] + [s[|s| - 1]] == s
  {
  }

  /** Joining the pieces of a split gives the string back. */
  lemma {:induction false} JoinSplit(s: string)
    ensures Join(Split(s)) == s
    decreases |s|
  {
    if s != [] {
      JoinSplit(s[..|s| - 1]);
      JoinSplitLast(s);
    }
  }

  /** The last character keeps the join of the split equal to the string. */
  lemma {:induction false} JoinSplitLast(s: string)
    requires s != [] && Join(Split(s[..|s| - 1])) == s[..|s| - 1]
    ensures Join(Split(s)) == s
  {
    var init, last := s[..|s| - 1], s[|s| - 1];
    DropLast(s);
    if last == ';' {
      JoinEmptyLast(Split(init));
    } else {
      JoinExtendLast(Split(init), last);
    }
  }

  /** Every character of a split piece occurs in the string, and every
      character of the string other than ';' occurs in some piece. */
  lemma {:induction false} SplitChars(s: string)
    ensures forall y, i :: 0 <= y < |Split(s)| && 0 <= i < |Split(s)[y]| ==> Split(s)[y][i] in s
    ensures forall c :: c in s && c != ';' ==> exists y :: 0 <= y < |Split(s)| && c in Split(s)[y]
    decreases |s|
  {
    if s != [] {
      var init, last := s[..|s| - 1], s[|s| - 1];
      var p := Split(init);
      SplitChars(init);
      assert init + [last] == s;
      var q := Split(s);
      if last == ';' {
        assert q == p + [[]];
        forall c | c in s && c != ';'
          ensures exists y :: 0 <= y < |q| && c in q[y]
        {
          assert c in init;
          var y :| 0 <= y < |p| && c in p[y];
          assert q[y] == p[y];
        }
      } else {
        assert q == p[..|p| - 1] + [p[|p| - 1] + [last]];
        forall y, i | 0 <= y < |q| && 0 <= i < |q[y]|
          ensures q[y][i] in s
        {
          if y < |p| - 1 {
            assert q[y] == p[y];
          } else if i < |p[|p| - 1]| {
            assert q[y][i] == p[|p| - 1][i];
          }
        }
        forall c | c in s && c != ';'
          ensures exists y :: 0 <= y < |q| && c in q[y]
        {
          if c == last {
            assert c in q[|q| - 1];
          } else {
            assert c in init;
            var y :| 0 <= y < |p| && c in p[y];
            if y < |p| - 1 {
              assert q[y] == p[y];
            } else {
              assert c in q[|q| - 1];
            }
          }
        }
      }
    }
  }

  // ---------------------------------------------------------------------------
  // Printing
  // ---------------------------------------------------------------------------

  function PrintCell(c: Option<char>): char
  {
    if c.Some? then c.value else ' '
  }

  function PrintRow(r: Line): (s: string)
    ensures |s| == |r|
  {
    seq(|r|, i requires 0 <= i < |r| => PrintCell(r[i]))
  }

  /** The printed rows of a grid, top to bottom. */
  function PrintedRows(g: Grid): (rows: seq<string>)
    ensures |rows| == |g|
  {
    seq(|g|, y requires 0 <= y < |g| => PrintRow(g[y]))
  }

  /** The token string of a grid with at least one row. */
  function Print(g: Grid): string
    requires |g| >= 1
  {
    Join(PrintedRows(g))
  }

  // ---------------------------------------------------------------------------
  // Parsing
  // ---------------------------------------------------------------------------

  function ParseCell(c: char): Option<char>
  {
    if c == ' ' then None else Some(c)
  }

  function ParseRow(row: string): (r: Line)
    ensures |r| == |row|
  {
    seq(|row|, i requires 0 <= i < |row| => ParseCell(row[i]))
  }

  /** Every character of the row is a space or a token of the alphabet. */
  predicate Known(alphabet: set<char>, row: string)
  {
    forall i :: 0 <= i < |row| ==> row[i] == ' ' || row[i] in alphabet
  }

  /** At least two rows, all of the same length, of at least two cells. */
  predicate WellShaped(g: Grid)
  {
    |g| >= 2 && Rect(g) && Width(g) >= 2
  }

  /** The board a token string describes: an unknown character is a parse
      error; ragged rows, or fewer than two rows or columns, a dimension error. */
  function Parse(alphabet: set<char>, text: string): Result<Grid>
  {
    var rows := Split(text);
    if exists y :: 0 <= y < |rows| && !Known(alphabet, rows[y]) then Err(TokenStringParse)
    else
      var g := seq(|rows|, y requires 0 <= y < |rows| => ParseRow(rows[y]));
      if WellShaped(g) then Ok(g) else Err(BoardDimension)
  }

  /** rows and current are the parsed pieces of t: the complete rows, and
      the row still being read. */
  ghost predicate RowsRead(alphabet: set<char>, t: string, rows: seq<Line>, current: Line)
  {
    var p := Split(t);
    && |rows| + 1 == |p|
    && (forall y :: 0 <= y < |rows| ==> rows[y] == ParseRow(p[y]))
    && current == ParseRow(p[|rows|])
    && (forall y :: 0 <= y < |p| ==> Known(alphabet, p[y]))
  }

  /** Reading one more character: ';' closes the current row, a space or a
      token extends it. */
  lemma {:induction false} ReadStep(alphabet: set<char>, t: string, c: char, rows: seq<Line>, current: Line)
    requires RowsRead(alphabet, t, rows, current)
    requires c == ';' || c == ' ' || c in alphabet
    ensures c == ';' ==> RowsRead(alphabet, t + [c], rows + [current], [])
    ensures c != ';' ==> RowsRead(alphabet, t + [c], rows, current + [ParseCell(c)])
  {
    SplitStep(t, c);
    if c == ';' {
      ReadClose(alphabet, t, rows, current);
    } else {
      ReadExtend(alphabet, t, c, rows, current);
    }
  }

  /** Reading the character at i of text, as the parsing loop does. */
  lemma {:induction false} ReadNext(alphabet: set<char>, text: string, i: nat, rows: seq<Line>, current: Line)
    requires i < |text| && RowsRead(alphabet, text[..i], rows, current)
    requires text[i] == ';' || text[i] == ' ' || text[i] in alphabet
    ensures text[i] == ';' ==> RowsRead(alphabet, text[..i + 1], rows + [current], [])
    ensures text[i] != ';' ==> RowsRead(alphabet, text[..i + 1], rows, current + [ParseCell(text[i])])
  {
    TakeNext(text, i);
    ReadStep(alphabet, text[..i], text[i], rows, current);
  }

  /** One more element taken from the front. */
  lemma TakeNext<T>(s: seq<T>, i: nat)
    requires i < |s|
    ensures s[..i + 1] == s[..i] + [s[i]]
  {
  }

  /** A ';' closes the current row and starts an empty one. */
  lemma {:induction false} ReadClose(alphabet: set<char>, t: string, rows: seq<Line>, current: Line)
    requires RowsRead(alphabet, t, rows, current)
    requires Split(t + [';']) == Split(t) + [[]]
    ensures RowsRead(alphabet, t + [';'], rows + [current], [])
  {
    var q := Split(t + [';']);
    assert forall y :: 0 <= y < |rows| + 1 ==> (rows + [current])[y] == ParseRow(q[y]);
  }

  /** A space or a token extends the current row by one cell. */
  lemma {:induction false} ReadExtend(alphabet: set<char>, t: string, c: char, rows: seq<Line>, current: Line)
    requires RowsRead(alphabet, t, rows, current)
    requires c != ';' && (c == ' ' || c in alphabet)
    requires var p := Split(t); Split(t + [c]) == p[..|p| - 1] + [p[|p| - 1] + [c]]
    ensures RowsRead(alphabet, t + [c], rows, current + [ParseCell(c)])
  {
    var p := Split(t);
    var q := Split(t + [c]);
    assert q == p[..|rows|] + [p[|rows|] + [c]];
    assert ParseRow(q[|rows|]) == current + [ParseCell(c)];
    assert Known(alphabet, q[|rows|]) by {
      assert Known(alphabet, p[|rows|]);
    }
  }

  /** Once the whole text is read, the result is decided by the shape check. */
  lemma {:induction false} ReadDone(alphabet: set<char>, text: string, rows: seq<Line>)
    requires |rows| >= 1 && RowsRead(alphabet, text, rows[..|rows| - 1], rows[|rows| - 1])
    ensures Parse(alphabet, text) == if WellShaped(rows) then Ok(rows) else Err(BoardDimension)
  {
    var p := Split(text);
    assert rows == seq(|p|, y requires 0 <= y < |p| => ParseRow(p[y]));
  }

  /** The parse error is raised exactly when the text holds a character that
      is neither ';', nor a space, nor a token. */
  lemma {:induction false} ParseRejectsUnknown(alphabet: set<char>, text: string)
    ensures Parse(alphabet, text) == Err(TokenStringParse) <==>
            exists c :: c in text && c != ';' && c != ' ' && c !in alphabet
  {
    var rows := Split(text);
    SplitChars(text);
    if exists c :: c in text && c != ';' && c != ' ' && c !in alphabet {
      var c :| c in text && c != ';' && c != ' ' && c !in alphabet;
      var y :| 0 <= y < |rows| && c in rows[y];
      var i :| 0 <= i < |rows[y]| && rows[y][i] == c;
      assert !Known(alphabet, rows[y]);
    }
    if exists y :: 0 <= y < |rows| && !Known(alphabet, rows[y]) {
      var y :| 0 <= y < |rows| && !Known(alphabet, rows[y]);
      var i :| 0 <= i < |rows[y]| && !(rows[y][i] == ' ' || rows[y][i] in alphabet);
      assert rows[y][i] in text && rows[y][i] != ';';
    }
  }

  /** A parsed board is well shaped, holds only tokens of the alphabet, and
      cell (x, y) is the x-th character of the y-th row of the text. */
  lemma {:induction false} ParsedBoard(alphabet: set<char>, text: string)
    requires Parse(alphabet, text).Ok?
    ensures var g := Parse(alphabet, text).value;
      && WellShaped(g) && InAlphabet(g, alphabet)
      && |Split(text)| == |g|
      && forall p :: OnGrid(g, p) ==> p.0 < |Split(text)[p.1]| && Cell(g, p) == ParseCell(Split(text)[p.1][p.0])
  {
    var rows := Split(text);
    var g := Parse(alphabet, text).value;
    assert g == seq(|rows|, y requires 0 <= y < |rows| => ParseRow(rows[y]));
    forall p | OnGrid(g, p)
      ensures p.0 < |rows[p.1]| && Cell(g, p) == ParseCell(rows[p.1][p.0])
      ensures Cell(g, p).Some? ==> Cell(g, p).value in alphabet
    {
      assert g[p.1] == ParseRow(rows[p.1]);
      assert Known(alphabet, rows[p.1]);
    }
  }

  /** Characters a token may not be, because the text form reserves them. */
  predicate PrintableAlphabet(alphabet: set<char>)
  {
    ' ' !in alphabet && ';' !in alphabet
  }

  /** Parsing the printed form of a well-shaped board gives the board back. */
  lemma {:induction false} ParsePrint(alphabet: set<char>, g: Grid)
    requires WellShaped(g) && InAlphabet(g, alphabet) && PrintableAlphabet(alphabet)
    ensures Parse(alphabet, Print(g)) == Ok(g)
  {
    var rows := PrintedRows(g);
    forall y | 0 <= y < |rows|
      ensures NoSemicolon(rows[y]) && Known(alphabet, rows[y]) && ParseRow(rows[y]) == g[y]
    {
      forall x | 0 <= x < |g[y]|
        ensures rows[y][x] != ';' && (rows[y][x] == ' ' || rows[y][x] in alphabet)
        ensures ParseCell(rows[y][x]) == g[y][x]
      {
        assert g[y][x] == Cell(g, (x, y));
      }
    }
    SplitJoin(rows);
    var h := seq(|rows|, y requires 0 <= y < |rows| => ParseRow(rows[y]));
    assert h == g;
  }

  /** Printing a parsed board gives the text back: the text form and the
      board are in one-to-one correspondence. */
  lemma {:induction false} PrintParse(alphabet: set<char>, text: string)
    requires Parse(alphabet, text).Ok?
    ensures Print(Parse(alphabet, text).value) == text
  {
    var rows := Split(text);
    var g := Parse(alphabet, text).value;
    forall y | 0 <= y < |rows|
      ensures PrintRow(g[y]) == rows[y]
    {
      assert Known(alphabet, rows[y]);
      assert NoSemicolon(rows[y]);
    }
    assert PrintedRows(g) == rows;
    JoinSplit(text);
  }

  // ---------------------------------------------------------------------------
  // The text of an empty board
  // ---------------------------------------------------------------------------

  /** A row of n spaces (none when n is negative, as the source's loop runs no step). */
  function Spaces(n: int): (s: string)
    ensures |s| == if n < 0 then 0 else n
  {
    seq(if n < 0 then 0 else n, _ => ' ')
  }

  /** The text of a board with the given numbers of columns and rows, all empty.
      With no row, dropping the final ';' of the empty string fails. */
  function EmptyText(columns: int, rows: int): Result<string>
  {
    if rows <= 0 then Err(StringIndexOutOfBounds)
    else Ok(Join(seq(rows, _ => Spaces(columns))))
  }

  function EmptyGrid(columns: nat, rows: nat): (g: Grid)
  {
    seq(rows, _ => Blanks(columns))
  }

  /** The empty text describes an all-empty board of the requested size when
      both sizes are at least two, and a dimension error otherwise. */
  lemma {:induction false} ParseEmptyText(alphabet: set<char>, columns: int, rows: int)
    requires rows >= 1
    ensures EmptyText(columns, rows).Ok?
    ensures columns >= 2 && rows >= 2 ==>
      Parse(alphabet, EmptyText(columns, rows).value) == Ok(EmptyGrid(columns, rows))
    ensures !(columns >= 2 && rows >= 2) ==>
      Parse(alphabet, EmptyText(columns, rows).value) == Err(BoardDimension)
  {
    var w := if columns < 0 then 0 else columns;
    var lines := seq(rows, _ => Spaces(columns));
    var g := EmptyGrid(w, rows);
    EmptyLinesParse(alphabet, columns, rows);
    assert Parse(alphabet, Join(lines)) == if WellShaped(g) then Ok(g) else Err(BoardDimension);
    assert |g| == rows && (rows >= 1 ==> Width(g) == w);
  }

  /** Each line of the empty text splits off as its own row of blank cells. */
  lemma {:induction false} EmptyLinesParse(alphabet: set<char>, columns: int, rows: int)
    requires rows >= 1
    ensures var w := if columns < 0 then 0 else columns;
      var g := EmptyGrid(w, rows);
      Parse(alphabet, Join(seq(rows, _ => Spaces(columns)))) == if WellShaped(g) then Ok(g) else Err(BoardDimension)
  {
    var w := if columns < 0 then 0 else columns;
    var lines := seq(rows, _ => Spaces(columns));
    forall y | 0 <= y < rows
      ensures NoSemicolon(lines[y]) && Known(alphabet, lines[y]) && ParseRow(lines[y]) == Blanks(w)
    {
    }
    SplitJoin(lines);
    var g := seq(|lines|, y requires 0 <= y < |lines| => ParseRow(lines[y]));
    assert g == EmptyGrid(w, rows);
  }
}
