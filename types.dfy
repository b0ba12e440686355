/** Value types shared by the whole match-three model: optional cells, the
    errors the Java code throws, and the framework's Position/Delta pairs. */
module Types {

  datatype Option<T> = None | Some(value: T)

  /** One constructor per exception the core throws (null checks are not modelled). */
  datatype Error =
    | BoardDimension          // BoardDimensionException
    | IllegalToken            // IllegalTokenException
    | TokenStringParse        // TokenStringParseException
    | IllegalArgument         // IllegalArgumentException: fewer than two tokens
    | NoFillingStrategy       // NoFillingStrategyException
    | MatcherInitialization   // MatcherInitializationException
    | StringIndexOutOfBounds  // substring(0, -1) on an empty string
    | SupplyExhausted         // the filling strategy has no token left for a column

  datatype Result<T> = Ok(value: T) | Err(error: Error)

  /** The result of a `void` Java method that may throw. */
  datatype Outcome = Done | Fail(error: Error)

  /** Position (x, y): x is the column, y the row; row 0 is the top row. */
  type Position = (int, int)

  /** Delta (dx, dy): a signed offset. */
  type Delta = (int, int)

  /** Moving one element from the pending part of a set to the visited part
      keeps the two a partition of the set. */
  lemma MoveOne<T>(all: set<T>, visited: set<T>, pending: set<T>, x: T)
    requires visited + pending == all && visited !! pending && x in pending
    ensures (visited + {x}) + (pending - {x}) == all && (visited + {x}) !! (pending - {x})
  {
  }

  /** A proper subset is smaller. */
  lemma {:induction false} ProperSubsetSmaller<T>(a: set<T>, b: set<T>, x: T)
    requires a <= b && x in b && x !in a
    ensures |a| < |b|
  {
    var rest := b - (a + {x});
    assert b == (a + {x}) + rest;
    assert (a + {x}) !! rest;
  }

  /** Union regrouped. */
  lemma UnionThree<T>(a: set<T>, b: set<T>, c: set<T>, d: set<T>)
    ensures a + b + c + d == a + (b + c + d)
  {
  }

  function Plus(p: Position, d: Delta): Position
  {
    (p.0 + d.0, p.1 + d.1)
  }

  function Scale(d: Delta, k: int): Delta
  {
    (d.0 * k, d.1 * k)
  }
}
