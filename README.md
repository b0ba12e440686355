# Match-three rule engine, modelled in Dafny

This project models the rule engine of a match-three puzzle (package
`edu.kit.informatik.matchthree`): the board, the two matchers, the five
moves and the game loop that scores chain reactions.

- **Board** (`board.dfy`, module `Boards`). `Board` is a class over an
  `array2<Option<char>>` indexed `cells[x, y]`, where x is the column and
  y the row, and row 0 is the top row. Its ghost `Model()` reads the cells
  as a row-by-row grid value. Every mutating method states the new board as
  a function of the old one; those functions live in `grids.dfy` (whole
  grids) and `columns.dfy` (one line of cells). The filling strategy is a
  field holding a per-column token supply.
- **Token strings** (`text.dfy`, module `TokenText`). Rows are separated by
  `;`, one character per column, and a space is an empty cell. Parsing,
  printing, the empty-board text, and the round trips between them.
- **Matchers** (`matcher.dfy`, module `Matchers`). A datatype
  `MaxDelta(deltas) | Multi(a, b)`. The maximum-delta flood fill is
  specified by a recursive closure function. The do-while loop that
  computes it is a method proved equal to that closure.
- **Moves** (`moves.dfy`, module `Moves`). One datatype with a flip down,
  a flip right, the square turn, the row rotation and the column rotation;
  the rotations carry their reverse-mode flag. `Transform` says what
  `apply` does to a grid. The methods that apply a move to a `Board`
  follow the source's loops and are proved against `Transform`.
- **Game** (`game.dfy`, module `Game`). `MatchThreeGame` is a class holding
  the board, the matcher and the score. Its `findMatches` loop is proved
  against the ghost function `Chain`, which describes the whole chain
  reaction: round counter, score per round, the next round's seeds, and the
  error that ends it. The chain reaction terminates because each round that
  continues either uses up supply or leaves no seed behind.
- **Test scenarios** (`scenarios.dfy`, module `Scenarios`, and `score.dfy`,
  module `ScoreExample`). The concrete examples of the repository's tests,
  proved on the model: the moves on the board "*A+;Y**;+*=", the moves
  refused outside the board, gravity on "ABAB;    ; A B", and the scoring
  example, where flipping (0, 0) on a board of A tokens gains 45 points.
  The scoring example is first proved for every supply of the same shape
  (`ScoreExample.ThreeRounds`), then for the test's own supply.

Errors that the Java code throws as exceptions are values here:
`Result`/`Outcome` in `types.dfy`. The board state that an exception leaves
behind is stated too. `removeTokensAt` may already have emptied some cells
when it reaches an off-board position. A failed refill inside `findMatches`
leaves the removed and settled board in place, and nothing is scored.

Some source behaviour that looks unintended is kept as written:
- `reverse()` of a rotation always gives the reverse-mode move, whatever
  the mode of the move being reversed.
- `canBeApplied` of a row or column rotation lets a negative index through,
  and `apply` then fails while reading the first cell.
- The affected positions of a column rotation are counted with the number
  of columns, and the last index is left out. On a board at least two
  columns wider than it is tall, a column move is therefore made but
  `findMatches` fails on a seed below the board (`Game.AcceptWideColumn`).

## Model

| member | source | states |
|---|---|---|
| Boards.EmptyBoardConstruction | src/main/java/edu/kit/informatik/matchthree/MatchThreeBoard.java:65-86 | the (columns, rows) constructor: no rows is the substring error, fewer than two tokens is an illegal argument, fewer than two columns or rows is a dimension error; otherwise a columns x rows board with every cell empty |
| Boards.Board.constructor | src/main/java/edu/kit/informatik/matchthree/MatchThreeBoard.java:316-321 | the parsed rows are copied into the cells, row y column x at (x, y); the board is valid and has no filling strategy |
| Boards.Board.FromTokenString | src/main/java/edu/kit/informatik/matchthree/MatchThreeBoard.java:80-86 | an alphabet of fewer than two tokens is refused before the text is read; otherwise each parse error of the text, or a fresh valid board whose cells are the parsed grid |
| Boards.Board.FromDimensions | src/main/java/edu/kit/informatik/matchthree/MatchThreeBoard.java:65-67 | the empty-board text is built first and then read as a token string, with the errors of both steps |
| Boards.Board.EmptyStringRepresentation | src/main/java/edu/kit/informatik/matchthree/MatchThreeBoard.java:233-242 | the loops build `rows` lines of `columns` spaces, each followed by ';', and drop the last ';'; with no rows the substring fails |
| Boards.Board.ParseTokenString | src/main/java/edu/kit/informatik/matchthree/MatchThreeBoard.java:264-302 | the character loop yields exactly the parse of the text: a parse error on the first unknown character, else the rows or a dimension error |
| Boards.Board.ToTokenString | src/main/java/edu/kit/informatik/matchthree/MatchThreeBoard.java:197-211 | the text is the printed form of the board: rows top to bottom joined by ';', a space for an empty cell |
| Boards.Board.ValidShape | src/main/java/edu/kit/informatik/matchthree/MatchThreeBoard.java:118-121 | a valid board has at least two rows and columns, all rows equally long, and every stored token in the alphabet |
| Boards.Board.ColumnCount | src/main/java/edu/kit/informatik/matchthree/MatchThreeBoard.java:93-97 | the number of columns of the board |
| Boards.Board.RowCount | src/main/java/edu/kit/informatik/matchthree/MatchThreeBoard.java:99-103 | the number of rows of the board |
| Boards.Board.ContainsPosition | src/main/java/edu/kit/informatik/matchthree/MatchThreeBoard.java:133-139 | true exactly for the positions on the board |
| Boards.Board.TokenAt | src/main/java/edu/kit/informatik/matchthree/MatchThreeBoard.java:105-115 | the content of an on-board cell, which is empty or a token of the alphabet; a dimension error exactly off the board |
| Boards.Board.SetTokenAt | src/main/java/edu/kit/informatik/matchthree/MatchThreeBoard.java:117-131 | an unknown token is refused before the position is examined, then an off-board position; on success the cell reads back the token and no other cell changes; on failure nothing changes |
| Boards.Board.SwapTokens | src/main/java/edu/kit/informatik/matchthree/MatchThreeBoard.java:163-169 | with both cells on the board their contents are exchanged and nothing else changes; otherwise a dimension error and the board unchanged |
| Boards.Board.RemoveTokensAt | src/main/java/edu/kit/informatik/matchthree/MatchThreeBoard.java:171-176 | succeeds exactly when every position is on the board, and then every listed cell is empty and every other cell unchanged; on failure some of the listed cells may already be empty, and no other cell changed |
| Boards.Board.MoveTokensToBottom | src/main/java/edu/kit/informatik/matchthree/MatchThreeBoard.java:141-161 | the triple loop leaves the board as gravity says and returns exactly the positions gravity uses as source or destination of a move |
| Boards.Board.SettleColumn | src/main/java/edu/kit/informatik/matchthree/MatchThreeBoard.java:145-157 | the loops over one column compact it, leave every other column alone and add the column's moved rows to the changed set |
| Boards.Board.DropInto | src/main/java/edu/kit/informatik/matchthree/MatchThreeBoard.java:146-156 | the inner loop for row k keeps the column's tokens in order, leaves no token above an empty cell from row k down, and records the rows it moves |
| Boards.Board.DropToken | src/main/java/edu/kit/informatik/matchthree/MatchThreeBoard.java:151-155 | one move of the inner loop keeps the column's tokens in order and adds exactly the two rows it touches to the changed set |
| Boards.Board.MoveDown | src/main/java/edu/kit/informatik/matchthree/MatchThreeBoard.java:152-153 | the token at row j goes to row k, row j becomes empty, no other cell changes |
| Boards.Board.SetFillingStrategy | src/main/java/edu/kit/informatik/matchthree/MatchThreeBoard.java:178-184 | the board's strategy becomes the given supply |
| Boards.Board.FillWithTokens | src/main/java/edu/kit/informatik/matchthree/MatchThreeBoard.java:186-194 | with no strategy, NoFillingStrategy and nothing changes; with too short a supply, an error and nothing changes; otherwise every empty cell is filled from its column's supply and the rest of the supply is kept |
| Boards.Board.Refill | src/main/java/edu/kit/informatik/matchthree/MatchThreeBoard.java:189-190 | the board becomes the filled grid and the strategy keeps what is left of the supply |
| Boards.Board.LeftoverValid | src/main/java/edu/kit/informatik/matchthree/MatchThreeBoard.java:189-190 | what is left of a supply of alphabet tokens is still one such sequence per column |
| Boards.Board.FillColumns | src/main/java/edu/kit/informatik/matchthree/MatchThreeBoard.java:189-190 | every column is filled from its own supply, and the leftover is returned |
| Boards.Board.FillColumn | src/main/java/edu/kit/informatik/matchthree/MatchThreeBoard.java:189-190 | one column is filled, other columns unchanged, and as many tokens are used as the column had empty cells |
| Boards.Board.FillCells | src/main/java/edu/kit/informatik/matchthree/MatchThreeBoard.java:189-190 | the cell loop of a column fill, bottom row first, gives the filled column |
| Grids.SetCell | src/main/java/edu/kit/informatik/matchthree/MatchThreeBoard.java:130 | the written cell holds the new value, every other cell is unchanged |
| Grids.Swap | src/main/java/edu/kit/informatik/matchthree/MatchThreeBoard.java:164-169 | the contents of the two cells are exchanged, every other cell unchanged |
| Grids.SwapTwice | src/main/java/edu/kit/informatik/matchthree/MatchThreeBoard.java:164-169 | swapping twice restores the grid, and the order of the two positions does not matter |
| Grids.ClearAll | src/main/java/edu/kit/informatik/matchthree/MatchThreeBoard.java:172-176 | exactly the listed cells are empty afterwards, the rest unchanged |
| Grids.ClearAllStep | src/main/java/edu/kit/informatik/matchthree/MatchThreeBoard.java:173-175 | clearing one more position is writing no token there |
| Grids.ClearAllTwice | src/main/java/edu/kit/informatik/matchthree/MatchThreeBoard.java:172-176 | removing one set then another is removing their union |
| Grids.ClearAllNotFull | src/main/java/edu/kit/informatik/matchthree/MatchThreeBoard.java:172-176 | removing a set with an on-board position leaves a cell empty |
| Grids.Gravity | src/main/java/edu/kit/informatik/matchthree/MatchThreeBoard.java:142-161 | each column of the result is its column compacted, and the grid keeps its shape |
| Grids.GravityChanges | src/main/java/edu/kit/informatik/matchthree/MatchThreeBoard.java:142-161 | the reported positions are on the board |
| Grids.GravityColumns | src/main/java/edu/kit/informatik/matchthree/MatchThreeBoard.java:144-157 | in every column gravity keeps the tokens, their order and their multiset, and leaves no empty cell below a token |
| Grids.GravityIdempotent | src/main/java/edu/kit/informatik/matchthree/MatchThreeBoard.java:142-161 | a second run changes nothing and reports no position |
| Grids.GravityKeepsFullness | src/main/java/edu/kit/informatik/matchthree/MatchThreeBoard.java:142-161 | the board is full after gravity exactly when it was full before; on a full board gravity changes and reports nothing |
| Grids.FillGrid | src/main/java/edu/kit/informatik/matchthree/MatchThreeBoard.java:189-190 | each column is its column filled from its own supply |
| Grids.FillGridCells | src/main/java/edu/kit/informatik/matchthree/MatchThreeBoard.java:189-190 | after filling no cell is empty, occupied cells keep their tokens and new tokens come from the column's supply |
| Grids.FillFull | src/main/java/edu/kit/informatik/matchthree/MatchThreeBoard.java:189-190 | a full board is left alone and no supply is used |
| Grids.FillConsumes | src/main/java/edu/kit/informatik/matchthree/MatchThreeBoard.java:189-190 | filling a board with an empty cell uses up at least one token |
| Columns.CompactKeepsOrder | src/main/java/edu/kit/informatik/matchthree/MatchThreeBoard.java:145-157 | gravity on a column keeps the tokens and their top-to-bottom order and leaves no empty cell below a token |
| Columns.CompactIdempotent | src/main/java/edu/kit/informatik/matchthree/MatchThreeBoard.java:145-157 | a compacted column is left alone and reports no moved row |
| Columns.FullColumnUnmoved | src/main/java/edu/kit/informatik/matchthree/MatchThreeBoard.java:151 | a column without an empty cell is neither changed nor reported |
| Columns.CompactKeepsFullness | src/main/java/edu/kit/informatik/matchthree/MatchThreeBoard.java:145-157 | gravity neither creates nor fills an empty cell |
| Columns.MoveDownKeepsTags | src/main/java/edu/kit/informatik/matchthree/MatchThreeBoard.java:151-155 | one move of the loop keeps the column's tokens, in order, each with the row it started in |
| Columns.MoveDownMovers | src/main/java/edu/kit/informatik/matchthree/MatchThreeBoard.java:154-155 | one move adds exactly its source and destination rows to the changed rows |
| Columns.GravityLoopResult | src/main/java/edu/kit/informatik/matchthree/MatchThreeBoard.java:145-157 | the column the loops leave is the compacted column |
| Columns.GravityLoopMoved | src/main/java/edu/kit/informatik/matchthree/MatchThreeBoard.java:145-157 | the rows the loops report are exactly the rows gravity moves a token from or to |
| Columns.FillLineCells | src/main/java/edu/kit/informatik/matchthree/MatchThreeBoard.java:189-190 | a filled column has no empty cell; occupied cells keep their tokens; an empty cell takes the supply token numbered by the empty cells below it |
| Columns.FillLineAt | src/main/java/edu/kit/informatik/matchthree/MatchThreeBoard.java:189-190 | row y of a filled column, in terms of the empty cells from row y down |
| Columns.EmptyCountZero | src/main/java/edu/kit/informatik/matchthree/MatchThreeBoard.java:189-190 | a column needs no supply exactly when it has no empty cell |
| Columns.RotateRightIndex | src/main/java/edu/kit/informatik/matchthree/moves/RotateRowRightMove.java:113-122 | a right rotation puts the last entry first and moves every other one place on |
| Columns.RotateRightTimesShape | src/main/java/edu/kit/informatik/matchthree/moves/RotateRowRightMove.java:112-123 | k right rotations move the last k entries to the front |
| Columns.RotateRightAlmostFullIsLeft | src/main/java/edu/kit/informatik/matchthree/moves/RotateRowRightMove.java:108-111 | length-minus-one right rotations are one left rotation |
| Columns.RotateRightUndone | src/main/java/edu/kit/informatik/matchthree/moves/RotateRowRightMove.java:108-111 | a right rotation followed by length-minus-one more is the identity |
| TokenText.Split | src/main/java/edu/kit/informatik/matchthree/MatchThreeBoard.java:267-275 | the text splits into at least one piece, none holding a ';' |
| TokenText.SplitJoin | src/main/java/edu/kit/informatik/matchthree/MatchThreeBoard.java:267-275 | splitting ';'-free rows joined by ';' gives the rows back |
| TokenText.JoinSplit | src/main/java/edu/kit/informatik/matchthree/MatchThreeBoard.java:267-275 | joining the pieces of a text by ';' gives the text back |
| TokenText.SplitChars | src/main/java/edu/kit/informatik/matchthree/MatchThreeBoard.java:273-277 | the pieces hold exactly the text's characters other than ';' |
| TokenText.ReadNext | src/main/java/edu/kit/informatik/matchthree/MatchThreeBoard.java:273-289 | reading one more character keeps the rows read equal to the parsed pieces: ';' closes the row, a space or token extends it |
| TokenText.ReadDone | src/main/java/edu/kit/informatik/matchthree/MatchThreeBoard.java:296-302 | once every character is read, the result is the rows or a dimension error, as the shape check says |
| TokenText.ParseRejectsUnknown | src/main/java/edu/kit/informatik/matchthree/MatchThreeBoard.java:276-286 | the parse error occurs exactly when the text holds a character that is neither ';', a space nor a token |
| TokenText.ParsedBoard | src/main/java/edu/kit/informatik/matchthree/MatchThreeBoard.java:296-321 | a parsed board has at least two rows and columns of equal length, every cell is the character at its place in the text, and every token is in the alphabet |
| TokenText.ParsePrint | src/main/java/edu/kit/informatik/matchthree/MatchThreeBoard.java:197-211 | parsing the printed form of a board gives the board back |
| TokenText.PrintParse | src/main/java/edu/kit/informatik/matchthree/MatchThreeBoard.java:197-211 | printing a parsed board gives its text back |
| TokenText.ParseEmptyText | src/main/java/edu/kit/informatik/matchthree/MatchThreeBoard.java:233-242 | the empty-board text parses to an all-empty board of the requested size when both sizes are at least two, and to a dimension error otherwise |
| TokenText.EmptyLinesParse | src/main/java/edu/kit/informatik/matchthree/MatchThreeBoard.java:235-240 | each line of the empty-board text is one row of empty cells |
| Matchers.NewMaxDelta | src/main/java/edu/kit/informatik/matchthree/MaximumDeltaMatcher.java:53-62 | construction succeeds exactly for a nonempty delta set without (0,0), else MatcherInitialization |
| Matchers.Match | src/main/java/edu/kit/informatik/matchthree/MaximumDeltaMatcher.java:64-76 | a seed off the board is a dimension error, one on the board always succeeds; for a union matcher the same |
| Matchers.DeltaMatch | src/main/java/edu/kit/informatik/matchthree/MaximumDeltaMatcher.java:78-101 | from an occupied seed, the result is one set that holds the seed, whose members are on the board with the seed's token, that is closed under plus and minus every delta, and that lies inside every closed set holding the seed |
| Matchers.DeltaMatchEmptySeed | src/main/java/edu/kit/informatik/matchthree/MaximumDeltaMatcher.java:72-76 | from an empty seed cell, the result is exactly the set holding the empty match |
| Matchers.ClosureContains | src/main/java/edu/kit/informatik/matchthree/MaximumDeltaMatcher.java:78-84 | the flood fill keeps its starting set, and adds only cells holding the token |
| Matchers.ClosureClosed | src/main/java/edu/kit/informatik/matchthree/MaximumDeltaMatcher.java:82-97 | p + d and p - d are in the result whenever p is, d is a delta and that cell holds the token |
| Matchers.ClosureLeast | src/main/java/edu/kit/informatik/matchthree/MaximumDeltaMatcher.java:86-95 | the result lies inside every closed set containing the start, so every member is reached by delta steps through same-token cells |
| Matchers.ClosureOfClosed | src/main/java/edu/kit/informatik/matchthree/MaximumDeltaMatcher.java:97 | the fill stops at once on a closed set |
| Matchers.ClosureGrow | src/main/java/edu/kit/informatik/matchthree/MaximumDeltaMatcher.java:82-97 | a pass of the do-while does not change where the fill ends |
| Matchers.GrowShrinksRemaining | src/main/java/edu/kit/informatik/matchthree/MaximumDeltaMatcher.java:82-97 | a pass that adds something leaves fewer board cells outside the set, so the do-while ends |
| Matchers.NeighboursHold | src/main/java/edu/kit/informatik/matchthree/MaximumDeltaMatcher.java:89-94 | a cell added by a pass is on the board and holds the token |
| Matchers.MultiIdempotent | src/main/java/edu/kit/informatik/matchthree/MultiMatcher.java:42-45 | a union of a matcher with itself finds what the matcher finds: a region found twice appears once |
| Matchers.FoundMulti | src/main/java/edu/kit/informatik/matchthree/MultiMatcher.java:40-46 | the union matcher's matches from a seed are the union of the two matchers' matches |
| Matchers.MatchOnBoard | src/main/java/edu/kit/informatik/matchthree/MaximumDeltaMatcher.java:71-101 | from an on-board seed every matcher finds at least one match, and every match lies on the board |
| Matchers.MatchOccupied | src/main/java/edu/kit/informatik/matchthree/MaximumDeltaMatcher.java:72-101 | every cell of every match holds a token |
| Matchers.MatchAll | src/main/java/edu/kit/informatik/matchthree/MaximumDeltaMatcher.java:105-111 | succeeds exactly when every seed is on the board, else a dimension error |
| Matchers.MatchAllSeeds | src/main/java/edu/kit/informatik/matchthree/MaximumDeltaMatcher.java:105-111 | matchAll holds every seed's matches, and each of its matches comes from some seed |
| Matchers.MatchAllEmpty | src/main/java/edu/kit/informatik/matchthree/MultiMatcher.java:68-74 | matchAll is empty exactly when there are no seeds |
| Matchers.MatchAllOccupied | src/main/java/edu/kit/informatik/matchthree/MaximumDeltaMatcher.java:105-111 | every cell of every match of matchAll holds a token |
| Matchers.MatchAllMulti | src/main/java/edu/kit/informatik/matchthree/MultiMatcher.java:68-74 | matchAll of a union matcher is the union of the two matchers' matchAll |
| Matchers.MatchAllUnion | src/main/java/edu/kit/informatik/matchthree/MaximumDeltaMatcher.java:105-111 | matchAll over two seed sets is the union of the two, and succeeds when both do |
| Matchers.AddNeighbours | src/main/java/edu/kit/informatik/matchthree/MaximumDeltaMatcher.java:85-96 | the two loops of a pass add exactly the same-token neighbours of the matched cells |
| Matchers.AddAlong | src/main/java/edu/kit/informatik/matchthree/MaximumDeltaMatcher.java:86-95 | the inner loop adds exactly the same-token neighbours along one delta |
| Matchers.AddAround | src/main/java/edu/kit/informatik/matchthree/MaximumDeltaMatcher.java:87-94 | p + d and p - d are added exactly when on the board with the token |
| Matchers.MatchOn | src/main/java/edu/kit/informatik/matchthree/MaximumDeltaMatcher.java:64-102 | match on a board computes exactly the specified matches, errors included |
| Matchers.FloodFill | src/main/java/edu/kit/informatik/matchthree/MaximumDeltaMatcher.java:78-97 | the do-while ends with exactly the closure of the seed |
| Matchers.MatchAllOn | src/main/java/edu/kit/informatik/matchthree/MultiMatcher.java:67-74 | the seed loop computes exactly matchAll, errors included |
| Moves.TurnCells | src/main/java/edu/kit/informatik/matchthree/moves/RotateSquareClockwiseMove.java:159-161 | the three swaps turn (a, b, c, d) at (A, B, C, D) into (c, a, d, b), and no other cell changes |
| Moves.TurnFour | src/main/java/edu/kit/informatik/matchthree/moves/RotateSquareClockwiseMove.java:158-163 | four turns are the identity |
| Moves.TurnUndone | src/main/java/edu/kit/informatik/matchthree/moves/RotateSquareClockwiseMove.java:155-163 | three turns undo one |
| Moves.SquareFourTimes | src/main/java/edu/kit/informatik/matchthree/moves/RotateSquareClockwiseMove.java:149-164 | four applications of a square move are the identity |
| Moves.RowRightRotates | src/main/java/edu/kit/informatik/matchthree/moves/RotateRowRightMove.java:113-122 | one step rotates the row right and leaves the other rows alone |
| Moves.RowRightCells | src/main/java/edu/kit/informatik/matchthree/moves/RotateRowRightMove.java:113-122 | cell i of the row takes cell i - 1, cell 0 takes the last one, and no other row changes |
| Moves.RowRightTimesRotates | src/main/java/edu/kit/informatik/matchthree/moves/RotateRowRightMove.java:112-123 | k steps rotate the row k times |
| Moves.ColumnDownCells | src/main/java/edu/kit/informatik/matchthree/moves/RotateColumnDownMove.java:66-79 | cell i of the column takes cell i - 1, the top takes the bottom one, and no other column changes |
| Moves.ColumnDownRotates | src/main/java/edu/kit/informatik/matchthree/moves/RotateColumnDownMove.java:66-79 | one step rotates the column down |
| Moves.ForwardStep | src/main/java/edu/kit/informatik/matchthree/moves/RotateSquareClockwiseMove.java:151-157 | a move not in reverse mode makes exactly one turn or step |
| Moves.ReverseSteps | src/main/java/edu/kit/informatik/matchthree/moves/RotateSquareClockwiseMove.java:155-157 | in reverse mode a square turns three times, a row steps width - 1 times and a column height - 1 times |
| Moves.ReversedRowIsLeft | src/main/java/edu/kit/informatik/matchthree/moves/RotateRowRightMove.java:108-111 | a reverse-mode row move rotates the row one step left |
| Moves.ReversedColumnIsUp | src/main/java/edu/kit/informatik/matchthree/moves/RotateColumnDownMove.java:59-64 | a reverse-mode column move rotates the column one step up |
| Moves.SquareRestores | src/main/java/edu/kit/informatik/matchthree/moves/RotateSquareClockwiseMove.java:175-178 | applying a square move and then its reverse restores the board |
| Moves.RowRestores | src/main/java/edu/kit/informatik/matchthree/moves/RotateRowRightMove.java:135-138 | applying a row move and then its reverse restores the board |
| Moves.ColumnRestores | src/main/java/edu/kit/informatik/matchthree/moves/RotateColumnDownMove.java:92-95 | applying a column move and then its reverse restores the board |
| Moves.ReverseRestores | src/main/java/edu/kit/informatik/matchthree/moves/FlipDownMove.java:105-108 | for every move the factory makes, its reverse applies too, and applying the move and then its reverse restores the board |
| Moves.RowAffected | src/main/java/edu/kit/informatik/matchthree/moves/RotateRowRightMove.java:151-162 | the row's positions are reported exactly when the move applies, and they hold every changed cell |
| Moves.SquareAffected | src/main/java/edu/kit/informatik/matchthree/moves/RotateSquareClockwiseMove.java:191-203 | the four corners are reported exactly when they are on the board, and they hold every changed cell |
| Moves.AffectedCoversChanges | src/main/java/edu/kit/informatik/matchthree/moves/FlipDownMove.java:121-133 | for flips, squares and rows, the affected positions are reported exactly when the move applies, and they hold every cell the move changes |
| Moves.ColumnAffectedAsWritten | src/main/java/edu/kit/informatik/matchthree/moves/RotateColumnDownMove.java:108-115 | the column move reports (column, i) for 0 <= i < columns - 1 without a check, so the bottom cell is missing when there are at least as many rows as columns |
| Moves.Apply | src/main/java/edu/kit/informatik/matchthree/moves/FlipDownMove.java:87-94 | apply succeeds exactly when the move applies, and then the board is transformed; otherwise a dimension error and the board unchanged |
| Moves.ApplyFlip | src/main/java/edu/kit/informatik/matchthree/moves/FlipDownMove.java:87-94 | a flip swaps its two cells, or fails with a dimension error and no change |
| Moves.ApplySquare | src/main/java/edu/kit/informatik/matchthree/moves/RotateSquareClockwiseMove.java:149-164 | the square is checked before any swap, then turned once, or three times in reverse mode |
| Moves.ApplyRow | src/main/java/edu/kit/informatik/matchthree/moves/RotateRowRightMove.java:103-124 | an index past the last row fails the check; a negative one fails on the first read with the board unchanged; otherwise one step, or width - 1 in reverse mode |
| Moves.ApplyColumn | src/main/java/edu/kit/informatik/matchthree/moves/RotateColumnDownMove.java:54-81 | an index past the last column fails the check; a negative one fails on the first read with the board unchanged; otherwise one step, or height - 1 in reverse mode |
| Moves.TurnSquare | src/main/java/edu/kit/informatik/matchthree/moves/RotateSquareClockwiseMove.java:158-163 | the counted loop turns the square count times |
| Moves.TurnOnce | src/main/java/edu/kit/informatik/matchthree/moves/RotateSquareClockwiseMove.java:159-161 | the swaps (A, B), (C, D), (A, D) make one clockwise turn |
| Moves.RotateRowOn | src/main/java/edu/kit/informatik/matchthree/moves/RotateRowRightMove.java:112-123 | count steps of the row, or a dimension error with the board unchanged on a negative index |
| Moves.RowStep | src/main/java/edu/kit/informatik/matchthree/moves/RotateRowRightMove.java:113-122 | the row is read in full, last cell first, then written back rotated right |
| Moves.ReadRow | src/main/java/edu/kit/informatik/matchthree/moves/RotateRowRightMove.java:116-118 | the snapshot is the row, left to right |
| Moves.WriteRow | src/main/java/edu/kit/informatik/matchthree/moves/RotateRowRightMove.java:120-122 | writing the row changes exactly that row |
| Moves.RotateColumnOn | src/main/java/edu/kit/informatik/matchthree/moves/RotateColumnDownMove.java:65-80 | count steps of the column, or a dimension error with the board unchanged on a negative index |
| Moves.ColumnStepsFrom | src/main/java/edu/kit/informatik/matchthree/moves/RotateColumnDownMove.java:65-80 | the remaining passes of the loop reach count steps |
| Moves.ColumnStep | src/main/java/edu/kit/informatik/matchthree/moves/RotateColumnDownMove.java:66-79 | the column is read in full, shifted down and written back |
| Moves.ReadColumn | src/main/java/edu/kit/informatik/matchthree/moves/RotateColumnDownMove.java:66-69 | the list is the column, top to bottom |
| Moves.ShiftDown | src/main/java/edu/kit/informatik/matchthree/moves/RotateColumnDownMove.java:71-75 | the in-place shift of the list rotates it one step down |
| Moves.WriteColumn | src/main/java/edu/kit/informatik/matchthree/moves/RotateColumnDownMove.java:77-79 | writing the column changes exactly that column |
| Game.FlattenRemove | src/main/java/edu/kit/informatik/matchthree/MatchThreeGame.java:155-158 | the removed positions can be gathered starting from any match |
| Game.MatchScoreRemove | src/main/java/edu/kit/informatik/matchthree/MatchThreeGame.java:155-156 | the sum of match points can be added up starting from any match |
| Game.MatchScoreBound | src/main/java/edu/kit/informatik/matchthree/MatchThreeGame.java:153-156 | each kept match is worth at least 3 points |
| Game.StepPoints | src/main/java/edu/kit/informatik/matchthree/MatchThreeGame.java:153-160 | a pass is worth at least 3 points per kept match, so never negative |
| Game.RemoveOne | src/main/java/edu/kit/informatik/matchthree/MatchThreeGame.java:155-159 | removing one more match moves its points and positions from what is left to what is done |
| Game.Settled | src/main/java/edu/kit/informatik/matchthree/MatchThreeGame.java:161-162 | gravity then refill keeps the board's shape and scores nothing |
| Game.SettledShrinks | src/main/java/edu/kit/informatik/matchthree/MatchThreeGame.java:161-162 | settling a full board uses no supply and reports no position; settling any other board, when it completes, uses up supply |
| Game.Step | src/main/java/edu/kit/informatik/matchthree/MatchThreeGame.java:152-162 | a pass keeps the board's shape |
| Game.StepShrinks | src/main/java/edu/kit/informatik/matchthree/MatchThreeGame.java:151-165 | a pass that completes either uses up supply or leaves no changed position, so the loop ends |
| Game.StepFull | src/main/java/edu/kit/informatik/matchthree/MatchThreeGame.java:161-162 | a pass that completes leaves the board full |
| Game.StepStable | src/main/java/edu/kit/informatik/matchthree/MatchThreeGame.java:153-162 | on a full board a pass that keeps no match changes nothing, reports no position and scores nothing |
| Game.Chain | src/main/java/edu/kit/informatik/matchthree/MatchThreeGame.java:145-167 | findMatches keeps the board's shape; when it completes it gains at least the points already gathered and a full board stays full; an exception gains nothing |
| Game.Continue | src/main/java/edu/kit/informatik/matchthree/MatchThreeGame.java:151-165 | a round that finds matches ends, when it completes, with a full board and at least the points gathered |
| Game.ChainNoSeeds | src/main/java/edu/kit/informatik/matchthree/MatchThreeGame.java:149-151 | with no seeds matchAll is empty, the loop does not run and nothing changes |
| Game.ChainRound | src/main/java/edu/kit/informatik/matchthree/MatchThreeGame.java:151 | the loop runs while matchAll finds anything, before the small matches are dropped |
| Game.ContinueDone | src/main/java/edu/kit/informatik/matchthree/MatchThreeGame.java:160-164 | a completed pass hands its board, supply and changed positions to the next round, with count one higher and count times its points added |
| Game.EndsAfterPass | src/main/java/edu/kit/informatik/matchthree/MatchThreeGame.java:151-165 | where findMatches ends is where it ends after one completed pass |
| Game.ContinueFail | src/main/java/edu/kit/informatik/matchthree/MatchThreeGame.java:157-162 | an exception in a pass ends findMatches with that pass's board and supply, and nothing is added to the score |
| Game.ChainScores | src/main/java/edu/kit/informatik/matchthree/MatchThreeGame.java:160-166 | a round that keeps matches adds at least the round number times 3 points per kept match, when findMatches completes |
| Game.ChainStable | src/main/java/edu/kit/informatik/matchthree/MatchThreeGame.java:151-165 | on a full board whose seeds find no match of three, findMatches changes nothing and scores nothing |
| Game.Prepared | src/main/java/edu/kit/informatik/matchthree/MatchThreeGame.java:95-101 | the opening of the game keeps the board's shape and scores nothing |
| Game.StartFull | src/main/java/edu/kit/informatik/matchthree/MatchThreeGame.java:94-103 | a game that starts without an error ends with a full board and a score not lower than before |
| Game.AffectedOk | src/main/java/edu/kit/informatik/matchthree/MatchThreeGame.java:111-112 | a move that applies has its affected positions |
| Game.AcceptGain | src/main/java/edu/kit/informatik/matchthree/MatchThreeGame.java:105-113 | a move that does not apply is refused with a dimension error and leaves the grid, the supply and the score unchanged; accepting a move never lowers the score |
| Game.AcceptWideColumn | src/main/java/edu/kit/informatik/matchthree/MatchThreeGame.java:111-112 | a column move on a board at least two columns wider than tall is made, and then fails with a dimension error and no points |
| Game.AllPositions | src/main/java/edu/kit/informatik/matchthree/MatchThreeGame.java:96-100 | the loops add exactly the board's positions |
| Game.MatchThreeGame.constructor | src/main/java/edu/kit/informatik/matchthree/MatchThreeGame.java:88-91 | a game holds the given board and matcher, and its score starts at zero |
| Game.MatchThreeGame.GetScore | src/main/java/edu/kit/informatik/matchthree/MatchThreeGame.java:115-118 | the score is never negative |
| Game.MatchThreeGame.SetMatcher | src/main/java/edu/kit/informatik/matchthree/MatchThreeGame.java:120-123 | the matcher is replaced and the score kept |
| Game.MatchThreeGame.InitializeBoardAndStart | src/main/java/edu/kit/informatik/matchthree/MatchThreeGame.java:94-103 | gravity, every board position as a seed, a refill, then findMatches; the board, supply, outcome and score are those of the specified start |
| Game.MatchThreeGame.Prepare | src/main/java/edu/kit/informatik/matchthree/MatchThreeGame.java:95-101 | gravity and a refill, with every board position added to the moved ones |
| Game.MatchThreeGame.Settle | src/main/java/edu/kit/informatik/matchthree/MatchThreeGame.java:161-162 | gravity, then a refill, with the moved positions returned |
| Game.MatchThreeGame.AcceptMove | src/main/java/edu/kit/informatik/matchthree/MatchThreeGame.java:105-113 | a move that cannot be applied is refused and changes nothing; otherwise it is applied and findMatches is seeded with its affected positions; the score grows by what that gains |
| Game.MatchThreeGame.RemoveMatches | src/main/java/edu/kit/informatik/matchthree/MatchThreeGame.java:155-159 | the loop over the kept matches adds up their points and empties exactly their cells |
| Game.MatchThreeGame.Pass | src/main/java/edu/kit/informatik/matchthree/MatchThreeGame.java:152-162 | one pass: drop matches under 3, score, remove, gravity and refill; the seeds of the next round are the removed and moved positions |
| Game.MatchThreeGame.Advance | src/main/java/edu/kit/informatik/matchthree/MatchThreeGame.java:151-165 | one round keeps the loop on course to the specified ending, with count one higher and count times the pass's points added, and brings the loop's end closer |
| Game.MatchThreeGame.FindMatches | src/main/java/edu/kit/informatik/matchthree/MatchThreeGame.java:145-167 | the chain reaction ends with the board, supply and outcome that Chain specifies; when it completes the score grows by the points gathered, else it is unchanged |
| Game.MatchThreeGame.Cascade | src/main/java/edu/kit/informatik/matchthree/MatchThreeGame.java:151-166 | the loop of findMatches reaches the specified ending and gathers its points |
| Scenarios.ParseMoveBoard | src/test/java/edu/kit/informatik/matchthree/tests/moves/RotateRowRightMoveTest.java:20 | "*A+;Y**;+*=" over the tokens `*A+=Y` parses to the three-by-three board of the move examples |
| Scenarios.PrintMoveBoard | src/test/java/edu/kit/informatik/matchthree/tests/moves/RotateRowRightMoveTest.java:33 | that board prints back as "*A+;Y**;+*=" |
| Scenarios.TurnExample | src/test/java/edu/kit/informatik/matchthree/tests/moves/RotateSquareClockwiseMoveTest.java:24-29 | turning the square at (1, 0) moves each of its four tokens one corner clockwise and leaves the other five cells alone |
| Scenarios.SquareExample | src/test/java/edu/kit/informatik/matchthree/tests/moves/RotateSquareClockwiseMoveTest.java:31-39 | the square turn at (1, 0) prints "**A;Y*+;+*=", and its reverse move restores the board |
| Scenarios.RowExample | src/test/java/edu/kit/informatik/matchthree/tests/moves/RotateRowRightMoveTest.java:26-34 | rotating row 0 right prints "+*A;Y**;+*=", and its reverse move restores the board |
| Scenarios.ColumnExample | src/test/java/edu/kit/informatik/matchthree/tests/moves/RotateColumnDownMoveTest.java:27-35 | rotating column 0 down prints "+A+;***;Y*=", and its reverse move restores the board |
| Scenarios.OutsideMoves | src/test/java/edu/kit/informatik/matchthree/tests/test/moves/FlipRightMoveTest.java:36-48 | on a three-by-three board every move anchored at (3, 0) or (0, -1), and every rotation of row or column 3 or -1, is refused |
| Scenarios.TopTokenFalls | src/main/java/edu/kit/informatik/matchthree/MatchThreeBoard.java:144-157 | in a column whose only token is on top, the token falls to the bottom and the top and bottom rows are reported |
| Scenarios.TopTokenStacks | src/main/java/edu/kit/informatik/matchthree/MatchThreeBoard.java:144-157 | a top token above a gap lands on the bottom token, and rows 0 and 1 are reported |
| Scenarios.ParseGravityBoard | src/test/java/edu/kit/informatik/matchthree/tests/test/MatchThreeBoardTest.java:116 | "ABAB;    ; A B" over the tokens `AB` parses to the board of the gravity example |
| Scenarios.PrintGravityBoards | src/test/java/edu/kit/informatik/matchthree/tests/test/MatchThreeBoardTest.java:116-127 | the boards before and after gravity print as "ABAB;    ; A B" and "    ; B B;AAAB" |
| Scenarios.GravityExample | src/test/java/edu/kit/informatik/matchthree/tests/test/MatchThreeBoardTest.java:114-127 | gravity turns "ABAB;    ; A B" into "    ; B B;AAAB" |
| Scenarios.GravityChangesByColumn | src/main/java/edu/kit/informatik/matchthree/MatchThreeBoard.java:142-161 | on that board gravity reports rows 0 and 2 of columns 0 and 2, and rows 0 and 1 of columns 1 and 3 |
| Scenarios.GravityChangesExample | src/test/java/edu/kit/informatik/matchthree/tests/test/MatchThreeBoardTest.java:117-126 | the positions gravity reports are exactly the eight the test lists |
| ScoreExample.UniformClosure | src/main/java/edu/kit/informatik/matchthree/MaximumDeltaMatcher.java:78-97 | on a three-by-three board of one token, the flood fill along (0, 1) and (1, 0) from any cell reaches exactly every cell |
| ScoreExample.UniformMatch | src/main/java/edu/kit/informatik/matchthree/MaximumDeltaMatcher.java:64-101 | on such a board the match from any cell is the whole board |
| ScoreExample.UniformMatchAll | src/main/java/edu/kit/informatik/matchthree/MaximumDeltaMatcher.java:105-111 | from any nonempty set of seeds, matchAll finds the whole board as its one match |
| ScoreExample.AlternatingClosed | src/main/java/edu/kit/informatik/matchthree/MaximumDeltaMatcher.java:82-97 | on a board that alternates A and B, no neighbour of a cell holds its token |
| ScoreExample.AlternatingMatch | src/main/java/edu/kit/informatik/matchthree/MaximumDeltaMatcher.java:64-101 | on an alternating board every match is the seed cell alone |
| ScoreExample.AlternatingKeepsNothing | src/main/java/edu/kit/informatik/matchthree/MatchThreeGame.java:151-153 | on an alternating board no match reaches three cells, so none is kept |
| ScoreExample.BlankSettles | src/main/java/edu/kit/informatik/matchthree/MatchThreeBoard.java:142-161 | gravity leaves the empty board as it is and reports no position |
| ScoreExample.ClearEverything | src/main/java/edu/kit/informatik/matchthree/MatchThreeGame.java:157-159 | removing every cell of a three-by-three board leaves the empty board |
| ScoreExample.FillBlank | src/main/java/edu/kit/informatik/matchthree/MatchThreeBoard.java:189-190 | filling the empty board takes each column's first three tokens, the first at the bottom, and leaves the rest of the supply |
| ScoreExample.RefillUniform | src/main/java/edu/kit/informatik/matchthree/MatchThreeBoard.java:189-190 | a supply that starts with three t tokens per column refills the empty board with t everywhere |
| ScoreExample.RefillAlternating | src/main/java/edu/kit/informatik/matchthree/MatchThreeBoard.java:189-190 | a supply laid out by `Pattern` refills the empty board alternately |
| ScoreExample.ScenarioRefills | src/test/java/edu/kit/informatik/matchthree/tests/test/MatchThreeGameTest.java:104-105 | the test's supply "AAABAB", "AAAABA", "AAABAB" refills first with A tokens and then alternately |
| ScoreExample.WholeBoardPoints | src/main/java/edu/kit/informatik/matchthree/MatchThreeGame.java:153-160 | the whole board as one match is kept and is worth 3 + (9 - 3) * 2 = 15 points |
| ScoreExample.WholeBoardRound | src/main/java/edu/kit/informatik/matchthree/MatchThreeGame.java:152-162 | a pass whose one match is the whole board scores 15, clears the board, refills it from the supply and reports every position |
| ScoreExample.SettledBlank | src/main/java/edu/kit/informatik/matchthree/MatchThreeGame.java:161-162 | the empty board settles by being refilled from the supply, with no position moved |
| ScoreExample.WholeRound | src/main/java/edu/kit/informatik/matchthree/MatchThreeGame.java:151-165 | on a board of A tokens, from any seeds, a round scores the round number times 15 and the next round starts from every position on the refilled board |
| ScoreExample.LastRound | src/main/java/edu/kit/informatik/matchthree/MatchThreeGame.java:151-165 | on an alternating board the third round keeps nothing and the chain reaction ends with the 45 points gathered |
| ScoreExample.FlipOnUniform | src/main/java/edu/kit/informatik/matchthree/MatchThreeGame.java:105-113 | flipping (0, 0) on a board of A tokens applies, changes no token, and seeds the chain reaction with (0, 0) and (1, 0) |
| ScoreExample.FirstRound | src/main/java/edu/kit/informatik/matchthree/MatchThreeGame.java:105-113 | accepting that flip scores 15 in round one and hands the board refilled from the supply to round two |
| ScoreExample.SecondRound | src/main/java/edu/kit/informatik/matchthree/MatchThreeGame.java:151-165 | round two on a board of A tokens scores 2 * 15 more and hands the refilled board to round three |
| ScoreExample.ThreeRounds | src/test/java/edu/kit/informatik/matchthree/tests/test/MatchThreeGameTest.java:101-114 | for every supply that refills first with A tokens and then alternately, the flip completes with 45 points, an alternating board, and each column's supply past its sixth token left over |
| ScoreExample.ScenarioSpent | src/test/java/edu/kit/informatik/matchthree/tests/test/MatchThreeGameTest.java:104-105 | the test's supply has six tokens per column, so nothing is left after two refills |
| ScoreExample.FlipScores45 | src/test/java/edu/kit/informatik/matchthree/tests/test/MatchThreeGameTest.java:101-114 | with the test's supply, flipping (0, 0) on a board of A tokens completes, gains 45 points and uses the whole supply |

## Left out

- Filling strategies: they are not part of this model. A strategy is a
  finite sequence of tokens per column (`None` when none is set). Empty
  cells of a column are filled from the bottom row up, each taking the
  column's next token.
- Boards.Board.FillWithTokens: fails with `SupplyExhausted` and changes
  nothing when some column's supply is shorter than its number of empty
  cells. The real strategies decide this themselves. Random filling is not
  modelled.
- Game.MatchThreeGame.FindMatches: with a finite supply the chain reaction
  always ends. A strategy that never runs out could keep it going forever,
  which the model cannot express.
- Game.MatchThreeGame.FindMatches: score, round points and the round
  counter are unbounded integers. Java's 32-bit `int` wrap-around is not
  modelled.
- Boards.Board.SetFillingStrategy: requires a supply with one token
  sequence per column and only tokens of the board's alphabet. The source
  accepts any strategy; a strategy handing `fillWithTokens` a foreign token
  would make `setTokenAt` throw `IllegalTokenException`, and that path is
  not modelled.
- Token-string parsing splits the text on every `;` and keeps empty
  pieces. `java.util.Scanner` with the delimiter `;` does not report a
  trailing empty piece and skips one leading `;`, so the source reads a
  text ending in `;` with one row fewer and a text such as `;AB;AB` as a
  2x2 board, while the model reports a dimension error for both.
- Board sizes are the array's dimensions rather than the largest key plus
  one, computed with parallel streams.
- Null-argument checks (`Objects.requireNonNull`, `IllegalArgumentException`
  on a null position or board) are not modelled. Dafny values are never null.
- `toString` (the token string in quotes), `getAllValidTokens` (the
  `alphabet` constant) and console output are not modelled.
- `MoveFactoryImplementation` is not modelled. Its factory methods are the
  constructors of `Moves.Move`. `FlipRight` is the `(1, 0)` counterpart of
  `FlipDown`, because the class `FilpRightMove` is not part of this model.
- `Position`, `Delta` and `Token` are framework types. They are modelled as
  integer pairs and `char`.
