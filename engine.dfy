/** The engine transport without its process and threads: the byte stream the engine
    answers on is cut into lines at '\n', each line that parses as JSON joins a FIFO
    queue, and the game reads the queue one message at a time and checks the fields it
    needs. The JSON parser and serialiser of the library are parameters: `parse` gives
    none for a line the library rejects, `dump` is the serialisation. */
module Engine {
  import opened Wrappers
  import opened Json
  import opened Errors
  import opened KataGo

  /** The position of the first '\n', if any. */
  function NewlineAt(s: string): (r: Option<nat>)
    ensures r.Some? ==> r.value < |s| && s[r.value] == '\n' && '\n' !in s[..r.value]
    ensures r.None? <==> '\n' !in s
  {
    if s == [] then None
    else if s[0] == '\n' then Some(0)
    else
      match NewlineAt(s[1..])
      case None => None
      case Some(k) =>
        assert s[..k + 1] == [s[0]] + s[1..][..k];
        Some(k + 1)
  }

  /** The complete lines of a buffer, in order and without their '\n', and what is left
      after the last '\n'. */
  datatype Framed = Framed(lines: seq<string>, rest: string)

  /** The line framing of the reader: cut at each '\n' in turn. */
  function Frame(s: string): (r: Framed)
    ensures '\n' !in r.rest && forall k :: 0 <= k < |r.lines| ==> '\n' !in r.lines[k]
    decreases |s|
  {
    match NewlineAt(s)
    case None => Framed([], s)
    case Some(p) =>
      var tail := Frame(s[p + 1..]);
      Framed([s[..p]] + tail.lines, tail.rest)
  }

  /** Lines written out, each followed by '\n'. */
  function Join(lines: seq<string>): string
    decreases |lines|
  {
    if lines == [] then [] else lines[0] + "\n" + Join(lines[1..])
  }

  /** Framing gives back its input: its lines, each followed by '\n', and then the rest. */
  lemma {:induction false} FrameJoin(s: string)
    ensures Join(Frame(s).lines) + Frame(s).rest == s
    decreases |s|
  {
    var r := NewlineAt(s);
    if r.Some? {
      var p := r.value;
      var tail := Frame(s[p + 1..]);
      FrameJoin(s[p + 1..]);
      JoinCons(s[..p], tail.lines);
      SplitAtNewline(s, p, Join(tail.lines), tail.rest);
    }
  }

  lemma JoinCons(l: string, ls: seq<string>)
    ensures Join([l] + ls) == l + "\n" + Join(ls)
  {
    assert ([l] + ls)[1..] == ls;
  }

  /** Joined lines followed by a remainder: the first line, its '\n', and the rest. */
  lemma JoinThen(l: string, ls: seq<string>, rest: string)
    ensures Join([l] + ls) + rest == l + "\n" + (Join(ls) + rest)
  {
    JoinCons(l, ls);
  }

  /** A string cut at a '\n' is what comes before, the '\n', and what comes after. */
  lemma SplitAtNewline(s: string, p: nat, a: string, b: string)
    requires p < |s| && s[p] == '\n' && a + b == s[p + 1..]
    ensures s[..p] + "\n" + a + b == s
  {
    assert s == s[..p] + "\n" + s[p + 1..];
  }

  /** The first '\n' of a line without one, followed by '\n' and anything, is the one
      after the line. */
  lemma {:induction false} NewlineAfterLine(l: string, t: string)
    requires '\n' !in l
    ensures NewlineAt(l + "\n" + t) == Some(|l|)
    decreases |l|
  {
    var s := l + "\n" + t;
    if l != [] {
      assert s[0] == l[0] && l[0] in l;
      assert s[1..] == l[1..] + "\n" + t;
      NewlineAfterLine(l[1..], t);
    }
  }

  /** Lines without '\n' written out and followed by a remainder without '\n' are framed
      back into exactly those lines and that remainder. */
  lemma {:induction false} FrameOfJoin(lines: seq<string>, rest: string)
    requires '\n' !in rest && forall k :: 0 <= k < |lines| ==> '\n' !in lines[k]
    ensures Frame(Join(lines) + rest) == Framed(lines, rest)
    decreases |lines|
  {
    if lines == [] {
      assert Join(lines) + rest == rest;
    } else {
      var l := lines[0];
      var tail := lines[1..];
      assert lines == [l] + tail;
      assert forall k :: 0 <= k < |tail| ==> '\n' !in tail[k] by {
        forall k | 0 <= k < |tail| ensures tail[k] == lines[k + 1] { }
      }
      FrameOfJoin(tail, rest);
      var t := Join(tail) + rest;
      JoinThen(l, tail, rest);
      var s := l + "\n" + t;
      NewlineAfterLine(l, t);
      assert s[..|l|] == l && s[|l| + 1..] == t;
      assert Frame(s) == Framed([l] + Frame(t).lines, Frame(t).rest);
    }
  }

  /** The messages of the lines that parse, in line order. */
  function Parsed(lines: seq<string>, parse: string -> Option<Json>): seq<Json>
    decreases |lines|
  {
    if lines == [] then []
    else (match parse(lines[0]) case Some(j) => [j] case None => []) + Parsed(lines[1..], parse)
  }

  /** Parsing line by line distributes over concatenation. */
  lemma {:induction false} ParsedAppend(xs: seq<string>, ys: seq<string>, parse: string -> Option<Json>)
    ensures Parsed(xs + ys, parse) == Parsed(xs, parse) + Parsed(ys, parse)
    decreases |xs|
  {
    if xs == [] {
      assert xs + ys == ys;
    } else {
      assert (xs + ys)[1..] == xs[1..] + ys;
      ParsedAppend(xs[1..], ys, parse);
    }
  }

  /** A line that does not parse is dropped and changes nothing else. */
  lemma ParsedDrops(xs: seq<string>, line: string, ys: seq<string>, parse: string -> Option<Json>)
    requires parse(line).None?
    ensures Parsed(xs + [line] + ys, parse) == Parsed(xs + ys, parse)
  {
    ParsedAppend(xs + [line], ys, parse);
    ParsedAppend(xs, [line], parse);
    ParsedAppend(xs, ys, parse);
  }

  /** The stream written for a sequence of messages: each serialised and followed by '\n'. */
  function Sent(js: seq<Json>, dump: Json -> string): string
    decreases |js|
  {
    if js == [] then [] else dump(js[0]) + "\n" + Sent(js[1..], dump)
  }

  /** What the client sends, the engine side reads back: when no serialisation holds a
      '\n' and parsing undoes serialisation, the stream of the messages is framed into
      those messages, in order, with nothing left over. */
  lemma {:induction false} SentIsReceived(js: seq<Json>, dump: Json -> string, parse: string -> Option<Json>)
    requires forall j :: '\n' !in dump(j) && parse(dump(j)) == Some(j)
    ensures Frame(Sent(js, dump)).rest == [] && Parsed(Frame(Sent(js, dump)).lines, parse) == js
    decreases |js|
  {
    var lines := seq(|js|, k requires 0 <= k < |js| => dump(js[k]));
    SentIsJoin(js, dump);
    FrameOfJoin(lines, []);
    assert Join(lines) + [] == Join(lines);
    ParsedOfDumps(js, dump, parse);
  }

  lemma {:induction false} SentIsJoin(js: seq<Json>, dump: Json -> string)
    ensures Sent(js, dump) == Join(seq(|js|, k requires 0 <= k < |js| => dump(js[k])))
    decreases |js|
  {
    if js != [] {
      SentIsJoin(js[1..], dump);
      var lines := seq(|js|, k requires 0 <= k < |js| => dump(js[k]));
      assert lines[1..] == seq(|js| - 1, k requires 0 <= k < |js| - 1 => dump(js[1..][k]));
    }
  }

  lemma {:induction false} ParsedOfDumps(js: seq<Json>, dump: Json -> string, parse: string -> Option<Json>)
    requires forall j :: parse(dump(j)) == Some(j)
    ensures Parsed(seq(|js|, k requires 0 <= k < |js| => dump(js[k])), parse) == js
    decreases |js|
  {
    if js != [] {
      var lines := seq(|js|, k requires 0 <= k < |js| => dump(js[k]));
      assert lines[1..] == seq(|js| - 1, k requires 0 <= k < |js| - 1 => dump(js[1..][k]));
      ParsedOfDumps(js[1..], dump, parse);
      assert parse(lines[0]) == Some(js[0]);
      assert js == [js[0]] + js[1..];
    }
  }

  /** What a reply to a request can be: the value asked for; none, after the check of
      the reply's fields failed (or the engine never started); or the library's type
      error, raised when a field that passed the check has the wrong type. */
  datatype Reply<T> = Reply(value: T) | NoReply | TypeError

  /** The check `getNextMove` makes before reading the move. */
  predicate MoveFieldsPresent(msg: Json) {
    Contains(msg, "moveInfos") && !IsEmpty(msg.fields["moveInfos"]) &&
    Contains(msg, "rootInfo") && Contains(msg.fields["rootInfo"], "currentPlayer")
  }

  /** The answer `getNextMove` makes of a message: [currentPlayer, first move]. */
  function MoveReply(msg: Json): (r: Reply<seq<string>>)
    ensures r.NoReply? <==> !MoveFieldsPresent(msg)
    ensures r.Reply? ==> |r.value| == 2
  {
    if !MoveFieldsPresent(msg) then NoReply
    else
      var player := msg.fields["rootInfo"].fields["currentPlayer"];
      var infos := msg.fields["moveInfos"];
      if !player.JStr? || !infos.JArr? then TypeError
      else
        var move := StringAt(infos.items[0], "move");
        if move.None? then TypeError else Reply([player.s, move.value])
  }

  /** The transport reads a move exactly when `parseMove` does, and the same one. */
  lemma MoveReplyIsParseMove(msg: Json)
    ensures MoveReply(msg).Reply? <==> ParseMove(msg).Some?
    ensures MoveReply(msg).Reply? ==> MoveReply(msg).value == ParseMove(msg).value
  {
  }

  /** `std::sqrt` of a size, truncated to an integer. */
  function IntSqrt(n: nat): (r: nat)
    ensures r * r <= n < (r + 1) * (r + 1)
  {
    SqrtFrom(n, 0)
  }

  function SqrtFrom(n: nat, r: nat): (s: nat)
    requires r * r <= n
    ensures s * s <= n < (s + 1) * (s + 1)
    decreases n - r
  {
    if (r + 1) * (r + 1) > n then r
    else
      assert r < (r + 1) * (r + 1) <= n;
      SqrtFrom(n, r + 1)
  }

  /** The ownership grid as `getEvaluation` intends it: row x holds values x * side to
      x * side + side - 1, so cell (x, y) holds value x * side + y. */
  function OwnershipGrid(values: seq<Json>, side: nat): (grid: seq<seq<Json>>)
    requires |values| == side * side
  {
    seq(side, x requires 0 <= x < side => Row(values, side, x))
  }

  function Row(values: seq<Json>, side: nat, x: nat): (row: seq<Json>)
    requires |values| == side * side && x < side
    ensures |row| == side
  {
    RowInRange(side, x);
    values[x * side .. x * side + side]
  }

  lemma RowInRange(side: nat, x: nat)
    requires x < side
    ensures x * side + side <= side * side
  {
    assert x * side <= (side - 1) * side;
  }

  function CellValue(values: seq<Json>, side: nat, x: nat, y: nat): Json
    requires |values| == side * side && x < side && y < side
  {
    CellIndexInRange(side, x, y);
    values[x * side + y]
  }

  lemma CellIndexInRange(side: nat, x: nat, y: nat)
    requires x < side && y < side
    ensures x * side + y < side * side
  {
    assert x * side <= (side - 1) * side;
  }

  /** Value i lands in row i / side and column i % side, inside the grid. */
  lemma {:induction false} IndexToCell(side: nat, i: nat)
    requires 0 < side && i < side * side
    ensures i / side < side && i % side < side && (i / side) * side + i % side == i
  {
    assert (i / side) * side <= i < side * side;
    MulLessCancel(i / side, side, side);
  }

  /** On a square length, the index mapping is one half of a bijection between the
      values and the cells: every value lands, inside the grid, in the cell that reads
      it back. */
  lemma OwnershipValuesLand(values: seq<Json>, side: nat)
    requires |values| == side * side
    ensures forall i :: 0 <= i < |values| ==>
      i / side < side && i % side < side && OwnershipGrid(values, side)[i / side][i % side] == values[i]
  {
    forall i | 0 <= i < |values|
      ensures i / side < side && i % side < side && OwnershipGrid(values, side)[i / side][i % side] == values[i]
    {
      ValueLandsInCell(values, side, i);
    }
  }

  /** The other half: every cell of the grid is filled by its own value; row x is the
      run of values from x * side to x * side + side - 1. */
  lemma OwnershipCellsFilled(values: seq<Json>, side: nat, x: nat, y: nat)
    requires |values| == side * side && x < side && y < side
    ensures x * side + side <= |values| && OwnershipGrid(values, side)[x] == values[x * side .. x * side + side]
    ensures x * side + y < |values| && OwnershipGrid(values, side)[x][y] == values[x * side + y]
  {
    RowInRange(side, x);
  }

  lemma ValueLandsInCell(values: seq<Json>, side: nat, i: nat)
    requires |values| == side * side && i < |values|
    ensures i / side < side && i % side < side && OwnershipGrid(values, side)[i / side][i % side] == values[i]
  {
    PositiveSide(side, i);
    IndexToCell(side, i);
    var q, r := i / side, i % side;
    RowInRange(side, q);
    assert OwnershipGrid(values, side)[q][r] == values[q * side + r];
  }

  lemma PositiveSide(side: nat, i: nat)
    requires i < side * side
    ensures side > 0
  {
    assert 0 * 0 < side * side;
    SquareLess(0, side);
  }

  /** The grid after the fill loop has written values 0 to i - 1. */
  function Filled(values: seq<Json>, side: nat, i: nat): (grid: seq<seq<Json>>)
    requires |values| == side * side && i <= |values|
  {
    seq(side, x requires 0 <= x < side =>
      seq(side, y requires 0 <= y < side => FilledCell(values, side, i, x, y)))
  }

  function FilledCell(values: seq<Json>, side: nat, i: nat, x: nat, y: nat): Json
    requires |values| == side * side && i <= |values| && x < side && y < side
  {
    if x * side + y < i then CellValue(values, side, x, y) else JNum(0.0)
  }

  /** Writing value i changes cell (i / side, i % side) and no other. */
  lemma FilledCellStep(values: seq<Json>, side: nat, i: nat, x: nat, y: nat)
    requires |values| == side * side && i < |values| && x < side && y < side
    ensures 0 < side
    ensures FilledCell(values, side, i + 1, x, y) ==
      if x == i / side && y == i % side then values[i] else FilledCell(values, side, i, x, y)
  {
    PositiveSide(side, i);
    IndexToCell(side, i);
    CellToIndex(side, x, y);
  }

  /** One round of the fill loop. */
  lemma FilledStep(values: seq<Json>, side: nat, i: nat)
    requires |values| == side * side && i < |values|
    ensures 0 < side && i / side < side && i % side < side
    ensures var before := Filled(values, side, i);
      Filled(values, side, i + 1) == before[i / side := before[i / side][i % side := values[i]]]
  {
    PositiveSide(side, i);
    IndexToCell(side, i);
    var before := Filled(values, side, i);
    var after := Filled(values, side, i + 1);
    var written := before[i / side := before[i / side][i % side := values[i]]];
    forall x | 0 <= x < side ensures after[x] == written[x] {
      forall y | 0 <= y < side ensures after[x][y] == written[x][y] {
        FilledCellStep(values, side, i, x, y);
      }
    }
  }

  /** Before the loop every cell holds zero. */
  lemma FilledNone(values: seq<Json>, side: nat)
    requires |values| == side * side
    ensures Filled(values, side, 0) == seq(side, x => seq(side, y => JNum(0.0)))
  {
    var zeros := seq(side, x => seq(side, y => JNum(0.0)));
    forall x | 0 <= x < side ensures Filled(values, side, 0)[x] == zeros[x] {
      forall y | 0 <= y < side ensures Filled(values, side, 0)[x][y] == zeros[x][y] {
        assert x * side + y >= 0;
      }
    }
  }

  /** Once every value is written, the grid is the ownership grid. */
  lemma FilledAll(values: seq<Json>, side: nat)
    requires |values| == side * side
    ensures Filled(values, side, |values|) == OwnershipGrid(values, side)
  {
    var full := Filled(values, side, |values|);
    var grid := OwnershipGrid(values, side);
    forall x | 0 <= x < side ensures full[x] == grid[x] {
      forall y | 0 <= y < side ensures full[x][y] == grid[x][y] {
        RowInRange(side, x);
        CellIndexInRange(side, x, y);
      }
    }
  }

  /** The cell `getEvaluation` writes value i to, as written: row i / side and column
      i % side, where side is the truncated square root of the length. */
  function OwnershipCellAsWritten(n: nat, i: nat): (cell: (int, int))
    requires 0 < n && i < n
    ensures IntSqrt(n) > 0
    ensures cell.0 * IntSqrt(n) + cell.1 == i && 0 <= cell.1 < IntSqrt(n)
  {
    assert 1 * 1 < (IntSqrt(n) + 1) * (IntSqrt(n) + 1);
    SquareLess(1, IntSqrt(n) + 1);
    (i / IntSqrt(n), i % IntSqrt(n))
  }

  /** On a length that is not a square, the value at index side * side is written to
      row side, one past the last row of the side-by-side grid. */
  lemma OwnershipAsWrittenOverruns(n: nat)
    requires 0 < n && IntSqrt(n) * IntSqrt(n) != n
    ensures var side := IntSqrt(n);
      side * side < n && OwnershipCellAsWritten(n, side * side).0 == side
  {
    var side := IntSqrt(n);
    assert OwnershipCellAsWritten(n, 0).0 == 0;
    CellToIndex(side, side, 0);
  }

  /** Multiplication by a positive number keeps a strict order. */
  lemma MulLessCancel(a: nat, b: nat, c: nat)
    requires a * c < b * c
    ensures a < b
  {
    MulMonotone(b, a, c);
  }

  lemma MulMonotone(a: nat, b: nat, c: nat)
    ensures a <= b ==> a * c <= b * c
  {
  }

  lemma SquareLess(a: nat, b: nat)
    requires a * a < b * b
    ensures a < b
  {
    MulMonotone(b, a, b);
    MulMonotone(b, a, a);
  }

  /** Cell (x, y) is filled by value x * side + y. */
  lemma CellToIndex(side: nat, x: nat, y: nat)
    requires 0 < side && y < side
    ensures (x * side + y) / side == x && (x * side + y) % side == y
  {
    var i := x * side + y;
    var q, r := i / side, i % side;
    assert i == q * side + r && 0 <= r < side;
    assert q * side <= i < (x + 1) * side;
    MulLessCancel(q, x + 1, side);
    assert x * side <= i < (q + 1) * side;
    MulLessCancel(x, q + 1, side);
  }

  /** Two ownership values, the smallest answer that shows it: the second goes to row 1
      of a one-by-one grid. */
  lemma OwnershipOfTwoOverruns()
    ensures IntSqrt(2) == 1 && OwnershipCellAsWritten(2, 1) == (1, 0)
  {
    assert SqrtFrom(2, 1) == 1;
  }

  /** What a reply value converts to a number from. */
  predicate IsNumber(j: Json) {
    j.JInt? || j.JNum?
  }

  /** The check `getEvaluation` makes before reading the evaluation. */
  predicate EvaluationFieldsPresent(msg: Json) {
    Contains(msg, "ownership") && Contains(msg, "rootInfo") && Contains(msg.fields["rootInfo"], "scoreLead")
  }

  /** The score lead and the ownership grid, row by row. */
  datatype Evaluation = Evaluation(score: Json, ownership: seq<seq<Json>>)

  /** The answer `getEvaluation` makes of a message, with the length check it lacks: an
      ownership array whose length is not a square is refused like a missing field. */
  function EvaluationReply(msg: Json): (r: Reply<Evaluation>)
    ensures !EvaluationFieldsPresent(msg) ==> r.NoReply?
    ensures r.NoReply? <==>
      !EvaluationFieldsPresent(msg) ||
      (msg.fields["ownership"].JArr? &&
       IntSqrt(|msg.fields["ownership"].items|) * IntSqrt(|msg.fields["ownership"].items|) != |msg.fields["ownership"].items|)
    ensures
      (EvaluationFieldsPresent(msg) && msg.fields["ownership"].JArr? &&
       IntSqrt(|msg.fields["ownership"].items|) * IntSqrt(|msg.fields["ownership"].items|) == |msg.fields["ownership"].items| &&
       (forall k :: 0 <= k < |msg.fields["ownership"].items| ==> IsNumber(msg.fields["ownership"].items[k])) &&
       IsNumber(msg.fields["rootInfo"].fields["scoreLead"]))
      ==> r.Reply?
    ensures r.Reply? ==>
      var own := msg.fields["ownership"];
      var side := |r.value.ownership|;
      IsNumber(msg.fields["rootInfo"].fields["scoreLead"]) && r.value.score == msg.fields["rootInfo"].fields["scoreLead"] &&
      (own.JArr? ==> |own.items| == side * side && r.value.ownership == OwnershipGrid(own.items, side)) &&
      (!own.JArr? ==> Size(own) == 0 && side == 0)
  {
    if !EvaluationFieldsPresent(msg) then NoReply
    else
      var own := msg.fields["ownership"];
      var score := msg.fields["rootInfo"].fields["scoreLead"];
      var side := IntSqrt(Size(own));
      if own.JArr? && side * side != |own.items| then NoReply
      else if !own.JArr? && Size(own) > 0 then TypeError
      else if own.JArr? && exists k :: 0 <= k < |own.items| && !IsNumber(own.items[k]) then TypeError
      else if !IsNumber(score) then TypeError
      else if own.JArr? then
        assert |OwnershipGrid(own.items, side)| == side;
        Reply(Evaluation(score, OwnershipGrid(own.items, side)))
      else Reply(Evaluation(score, []))
  }

  /** The fill loop of `getEvaluation`: a side-by-side grid of zeros, then value i
      written to row i / side, column i % side. */
  method FillOwnership(values: seq<Json>, side: nat) returns (grid: seq<seq<Json>>)
    requires |values| == side * side
    ensures grid == OwnershipGrid(values, side)
  {
    grid := seq(side, x => seq(side, y => JNum(0.0)));
    FilledNone(values, side);
    var i := 0;
    while i < |values|
      invariant 0 <= i <= |values|
      invariant grid == Filled(values, side, i)
    {
      FilledStep(values, side, i);
      var x := i / side;
      var y := i % side;
      grid := grid[x := grid[x][y := values[i]]];
      i := i + 1;
    }
    FilledAll(values, side);
  }

  /** The transport: the unread part of the engine's output, the queue of messages read,
      the stream written to the engine, and whether the engine failed to start. */
  class KataGoEngine {
    var current: string
    var queue: seq<Json>
    var written: string
    const isInitFailure: bool

    constructor (isInitFailure: bool)
      ensures current == [] && queue == [] && written == [] && this.isInitFailure == isInitFailure
    {
      current := [];
      queue := [];
      written := [];
      this.isInitFailure := isInitFailure;
    }

    /** One read of the reader loop: append the chunk, then cut off every complete line,
        queueing the message of each line that parses. */
    method ReadChunk(chunk: string, parse: string -> Option<Json>)
      modifies this
      ensures current == Frame(old(current) + chunk).rest
      ensures queue == old(queue) + Parsed(Frame(old(current) + chunk).lines, parse)
      ensures written == old(written)
    {
      current := current + chunk;
      ghost var whole := Frame(current);
      while NewlineAt(current).Some?
        invariant Frame(current).rest == whole.rest
        invariant queue + Parsed(Frame(current).lines, parse) == old(queue) + Parsed(whole.lines, parse)
        invariant written == old(written)
        decreases |current|
      {
        var pos := NewlineAt(current).value;
        var line := current[..pos];
        ghost var before := Frame(current);
        current := current[pos + 1..];
        assert before.lines == [line] + Frame(current).lines;
        match parse(line) {
          case Some(j) => queue := queue + [j];
          case None =>
        }
      }
    }

    /** `sendJSON`: the serialised message and one '\n', or nothing after an
        initialisation failure. */
    method SendJSON(j: Json, dump: Json -> string)
      modifies this
      ensures written == old(written) + (if isInitFailure then [] else dump(j) + "\n")
      ensures current == old(current) && queue == old(queue)
    {
      if isInitFailure {
        return;
      }
      written := written + dump(j) + "\n";
    }

    /** `getJSON`: the oldest queued message, removed from the queue. */
    method GetJSON() returns (j: Json)
      requires |queue| > 0
      modifies this
      ensures j == old(queue)[0] && queue == old(queue)[1..]
      ensures current == old(current) && written == old(written)
    {
      j := queue[0];
      queue := queue[1..];
    }

    /** `getNextMove`: take the next message and read the move from it; a message
        without the fields raises ENGINE_NOT_USABLE at `now`. */
    method GetNextMove(handler: ErrorHandler, now: int) returns (r: Reply<seq<string>>)
      requires isInitFailure || |queue| > 0
      modifies this, handler
      ensures isInitFailure ==> r.NoReply? && queue == old(queue) && handler.packets == old(handler.packets)
      ensures !isInitFailure ==>
        r == MoveReply(old(queue)[0]) && queue == old(queue)[1..] &&
        handler.packets == old(handler.packets) + (if r.NoReply? then [ErrorPacket(now, ErrorInfo(EngineNotUsable))] else [])
      ensures current == old(current) && written == old(written)
    {
      if isInitFailure {
        return NoReply;
      }
      var msg := GetJSON();
      r := MoveReply(msg);
      if r.NoReply? {
        handler.ThrowError(EngineNotUsable, now);
      }
    }

    /** `getEvaluation`, with ownership arrays of non-square length refused: take the
        next message and read the score lead and the ownership grid from it; a message
        without the fields raises ENGINE_NOT_USABLE at `now`. */
    method GetEvaluation(handler: ErrorHandler, now: int) returns (r: Reply<Evaluation>)
      requires isInitFailure || |queue| > 0
      modifies this, handler
      ensures isInitFailure ==> r.NoReply? && queue == old(queue) && handler.packets == old(handler.packets)
      ensures !isInitFailure ==>
        r == EvaluationReply(old(queue)[0]) && queue == old(queue)[1..] &&
        handler.packets == old(handler.packets) + (if r.NoReply? then [ErrorPacket(now, ErrorInfo(EngineNotUsable))] else [])
      ensures current == old(current) && written == old(written)
    {
      if isInitFailure {
        return NoReply;
      }
      var msg := GetJSON();
      r := EvaluationReply(msg);
      if r.NoReply? {
        handler.ThrowError(EngineNotUsable, now);
        return;
      }
      if r.Reply? && msg.fields["ownership"].JArr? {
        var own := msg.fields["ownership"].items;
        var side := IntSqrt(|own|);
        var grid := FillOwnership(own, side);
        r := Reply(Evaluation(msg.fields["rootInfo"].fields["scoreLead"], grid));
      }
    }
  }
}
