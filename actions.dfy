/** The entries of the game's action log. */
module Actions {
  import opened Base

  /** The variant NoAction | CaptureStones | AddStone | Pass. */
  datatype Action =
    | NoAction
    | CaptureStones(capturingStone: Stone, removedStones: seq<Stone>)
    | AddStone(stone: Stone)
    | Pass(turn: Turn)

  /** The stone lies on an n-by-n board. */
  predicate OnBoard(n: int, s: Stone) {
    0 <= s.x < n && 0 <= s.y < n
  }

  /** Every stone of the list lies on an n-by-n board. */
  predicate StonesOnBoard(n: int, rs: seq<Stone>) {
    forall k :: 0 <= k < |rs| ==> 0 <= rs[k].x < n && 0 <= rs[k].y < n
  }

  /** Every stone an action mentions lies on an n-by-n board. */
  predicate ActionOnBoard(n: int, a: Action) {
    match a
    case AddStone(s) => OnBoard(n, s)
    case CaptureStones(c, rs) => OnBoard(n, c) && StonesOnBoard(n, rs)
    case _ => true
  }

  predicate LogOnBoard(n: int, log: seq<Action>) {
    forall k :: 0 <= k < |log| ==> ActionOnBoard(n, log[k])
  }
}
