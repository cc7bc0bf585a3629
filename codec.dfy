/** The coordinate codec between stones and the engine's move notation, and the two
    query records sent to the engine. A move is a pair [colour, point]: the colour is
    "B" or "W"; the point is a column letter, skipping 'I', followed by the row number
    counted from the bottom edge. */
module Codec {
  import opened Wrappers
  import opened Base
  import opened Numeric
  import opened Json

  /** The colour of a stone as the engine writes it. */
  function ColourString(t: Turn): (s: string)
    ensures s == "B" <==> t == Black
  {
    if t == Black then "B" else "W"
  }

  /** The colour the engine's string stands for: anything but "B" is White. */
  function ColourOf(s: string): (t: Turn)
    ensures t == Black <==> s == "B"
  {
    if s == "B" then Black else White
  }

  /** The column letter of column `y`: letters from 'A', with 'I' skipped, as the byte
      the character arithmetic produces. */
  function ColumnLetter(y: int): char {
    var shifted := if y >= 8 then y + 1 else y;
    ((65 + shifted) % 256) as char
  }

  /** `stoneToKatagoMove`. */
  function StoneToMove(size: BoardSize, stone: Stone): (m: seq<string>)
    ensures |m| == 2 && |m[1]| >= 1
  {
    [ColourString(stone.turn), [ColumnLetter(stone.y)] + IntToString(Dim(size) - stone.x)]
  }

  /** `katagoMoveToStone`; none where the row number does not parse. */
  function MoveToStone(size: BoardSize, move: seq<string>): (r: Option<Stone>)
    requires |move| >= 2 && |move[1]| >= 1
    ensures r.Some? <==> Stoi(move[1][1..], 10).Some?
    ensures r.Some? ==> r.value.turn == ColourOf(move[0]) && r.value.x == Dim(size) - Stoi(move[1][1..], 10).value
    ensures r.Some? && move[1][0] <= 'I' ==> r.value.y == move[1][0] as int - 'A' as int
    ensures r.Some? && move[1][0] > 'I' ==> r.value.y == move[1][0] as int - 'A' as int - 1
  {
    match Stoi(move[1][1..], 10)
    case None => None
    case Some(v) => Some(Stone(ColourOf(move[0]), Dim(size) - v, ColumnOf(move[1][0])))
  }

  /** The column a letter stands for: its distance from 'A', less one past 'I'. */
  function ColumnOf(letter: char): int {
    var c := letter as int;
    if c > 'I' as int then c - 'A' as int - 1 else c - 'A' as int
  }

  /** Column letters on a board run from 'A' to 'T' and never produce 'I'. */
  lemma ColumnLetterSkipsI(y: int)
    requires 0 <= y < 19
    ensures 'A' <= ColumnLetter(y) <= 'T' && ColumnLetter(y) != 'I'
    ensures y < 8 ==> ColumnLetter(y) as int == 'A' as int + y
    ensures y >= 8 ==> ColumnLetter(y) as int == 'A' as int + y + 1
  {
  }

  /** Every column on a board reads back from its letter. */
  lemma ColumnRoundTrip(y: int)
    requires 0 <= y < 19
    ensures ColumnOf(ColumnLetter(y)) == y
  {
    ColumnLetterSkipsI(y);
  }

  /** The row number of a point on the board is the decimal string of a number from 1
      to the side length. */
  lemma RowNumberInRange(size: BoardSize, stone: Stone)
    requires 0 <= stone.x < Dim(size)
    ensures var n := Dim(size) - stone.x;
      1 <= n <= Dim(size) && StoneToMove(size, stone)[1][1..] == Decimal(n)
  {
  }

  /** Decoding the encoding of a stone on the board gives the stone back. */
  lemma MoveRoundTrip(size: BoardSize, stone: Stone)
    requires 0 <= stone.x < Dim(size) && 0 <= stone.y < Dim(size)
    ensures MoveToStone(size, StoneToMove(size, stone)) == Some(stone)
  {
    var n := Dim(size) - stone.x;
    var row := IntToString(n);
    var point := [ColumnLetter(stone.y)] + row;
    assert point[1..] == row && point[0] == ColumnLetter(stone.y);
    StoiOfIntToString(n);
    ColumnRoundTrip(stone.y);
    assert ColourOf(ColourString(stone.turn)) == stone.turn;
    assert MoveToStone(size, [ColourString(stone.turn), point]) == Some(stone);
  }

  /** 'I' and 'J' decode to the same column 8, so only the letters the encoder produces
      round-trip. */
  lemma IAndJShareColumn(size: BoardSize, colour: string, row: string)
    ensures MoveToStone(size, [colour, ['I'] + row]) == MoveToStone(size, [colour, ['J'] + row])
    ensures MoveToStone(size, [colour, ['J'] + row]).Some? ==> MoveToStone(size, [colour, ['J'] + row]).value.y == 8
  {
    assert (['I'] + row)[1..] == row && (['J'] + row)[1..] == row;
  }

  const Komi: real := 6.5

  /** `getMoveQuery`: the id, the moves so far, Japanese rules, komi 6.5 and a square
      board of the game's size. */
  function MoveQuery(id: string, moves: seq<seq<string>>, size: BoardSize): (q: Json)
    ensures q.JObj? && q.fields.Keys == {"id", "moves", "rules", "komi", "boardXSize", "boardYSize"}
    ensures q.fields["id"] == JStr(id) && q.fields["moves"] == StringRows(moves)
    ensures q.fields["rules"] == JStr("japanese") && q.fields["komi"] == JNum(Komi)
    ensures q.fields["boardXSize"] == q.fields["boardYSize"] == JInt(Dim(size))
  {
    JObj(map["id" := JStr(id), "moves" := StringRows(moves), "rules" := JStr("japanese"),
             "komi" := JNum(Komi), "boardXSize" := JInt(Dim(size)), "boardYSize" := JInt(Dim(size))])
  }

  const EvaluationVisits: int := 800
  const EvaluationTemperature: real := 0.3
  const EvaluationFpuReduction: real := 0.5

  /** `getEvaluationQuery`: the move query's fields, a visit budget of 800 with its search
      parameters, and a request for the ownership map. */
  function EvaluationQuery(id: string, moves: seq<seq<string>>, size: BoardSize): (q: Json)
    ensures q.JObj?
    ensures q.fields.Keys == MoveQuery(id, moves, size).fields.Keys +
      {"maxVisits", "rootPolicyTemperature", "rootFpuReductionMax", "includeOwnership"}
    ensures forall k :: k in MoveQuery(id, moves, size).fields ==> q.fields[k] == MoveQuery(id, moves, size).fields[k]
    ensures q.fields["maxVisits"] == JInt(EvaluationVisits) && q.fields["includeOwnership"] == JBool(true)
    ensures q.fields["rootPolicyTemperature"] == JNum(EvaluationTemperature)
    ensures q.fields["rootFpuReductionMax"] == JNum(EvaluationFpuReduction)
  {
    var base := MoveQuery(id, moves, size);
    JObj(base.fields["maxVisits" := JInt(EvaluationVisits)]
                    ["rootPolicyTemperature" := JNum(EvaluationTemperature)]
                    ["rootFpuReductionMax" := JNum(EvaluationFpuReduction)]
                    ["includeOwnership" := JBool(true)])
  }
}
