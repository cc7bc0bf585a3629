/** Board sizes, the two colours and the stone record with its ordering. */
module Base {

  /** The three supported board sizes. */
  datatype BoardSize = Size9 | Size13 | Size19

  /** The side length a board size stands for. */
  function Dim(size: BoardSize): (n: int)
    ensures n == 9 || n == 13 || n == 19
    ensures size.Size9? <==> n == 9
    ensures size.Size13? <==> n == 13
  {
    match size
    case Size9 => 9
    case Size13 => 13
    case Size19 => 19
  }

  /** The player to move, also the colour of a stone. */
  datatype Turn = Black | White

  function Opponent(t: Turn): (o: Turn)
    ensures o != t
  {
    if t == White then Black else White
  }

  /** A stone of colour `turn` on row `x`, column `y`. */
  datatype Stone = Stone(turn: Turn, x: int, y: int)

  /** `operator<`: by row, then by column; the colour is never looked at. */
  predicate StoneLess(a: Stone, b: Stone) {
    if a.x != b.x then a.x < b.x else a.y < b.y
  }

  /** `operator==`: same colour, row and column. */
  predicate StoneEquals(a: Stone, b: Stone) {
    a.turn == b.turn && a.x == b.x && a.y == b.y
  }

  /** The ordering is the lexicographic order on (x, y). */
  lemma StoneLessIsLexicographic(a: Stone, b: Stone)
    ensures StoneLess(a, b) <==> a.x < b.x || (a.x == b.x && a.y < b.y)
  {
  }

  /** The ordering ignores colour: recolouring either stone changes nothing. */
  lemma StoneLessIgnoresColour(a: Stone, b: Stone, ta: Turn, tb: Turn)
    ensures StoneLess(a, b) == StoneLess(a.(turn := ta), b.(turn := tb))
  {
  }

  /** The equality operator is exactly the structural equality of stones. */
  lemma StoneEqualsIsIdentity(a: Stone, b: Stone)
    ensures StoneEquals(a, b) <==> a == b
  {
  }

  /** Two stones on the same point with different colours are neither ordered nor equal. */
  lemma SamePointOtherColour(a: Stone, b: Stone)
    requires a.x == b.x && a.y == b.y && a.turn != b.turn
    ensures !StoneLess(a, b) && !StoneLess(b, a) && !StoneEquals(a, b)
  {
  }

  /** The ordering is a strict order: irreflexive, asymmetric and transitive. */
  lemma StoneLessIsStrictOrder(a: Stone, b: Stone, c: Stone)
    ensures !StoneLess(a, a)
    ensures StoneLess(a, b) ==> !StoneLess(b, a)
    ensures StoneLess(a, b) && StoneLess(b, c) ==> StoneLess(a, c)
  {
  }

  /** Stones on different points are always ordered one way or the other. */
  lemma StoneLessConnected(a: Stone, b: Stone)
    requires a.x != b.x || a.y != b.y
    ensures StoneLess(a, b) || StoneLess(b, a)
  {
  }
}
