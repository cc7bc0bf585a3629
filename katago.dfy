/** The game's side of the engine conversation: the action log as a move list, reading
    the engine's answer, the difficulty level, and the loop that asks the engine for n
    moves in a row. The engine is a parameter: the sequence of answers it gives, one
    per query, each either a [colour, move] pair or missing. */
module KataGo {
  import opened Wrappers
  import opened Base
  import opened Actions
  import opened Json
  import opened Codec

  /** The move an action contributes to the engine's move list: the stone placed, the
      capturing stone, or [colour, "pass"]; NoAction contributes nothing. */
  function MoveOfAction(size: BoardSize, a: Action): (ms: seq<seq<string>>)
    ensures |ms| == (if a.NoAction? then 0 else 1)
  {
    match a
    case NoAction => []
    case AddStone(s) => [StoneToMove(size, s)]
    case CaptureStones(c, _) => [StoneToMove(size, c)]
    case Pass(t) => [[ColourString(t), "pass"]]
  }

  /** The engine's move list for an action log, in log order. */
  function MovesOf(size: BoardSize, log: seq<Action>): seq<seq<string>>
    decreases |log|
  {
    if log == [] then [] else MovesOf(size, log[..|log| - 1]) + MoveOfAction(size, log[|log| - 1])
  }

  /** The number of actions other than NoAction. */
  function PlayedCount(log: seq<Action>): nat
    decreases |log|
  {
    if log == [] then 0 else PlayedCount(log[..|log| - 1]) + if log[|log| - 1].NoAction? then 0 else 1
  }

  /** The move list of a concatenation is the concatenation of the move lists. */
  lemma {:induction false} MovesOfAppend(size: BoardSize, xs: seq<Action>, ys: seq<Action>)
    ensures MovesOf(size, xs + ys) == MovesOf(size, xs) + MovesOf(size, ys)
    decreases |ys|
  {
    if ys == [] {
      assert xs + ys == xs;
    } else {
      assert (xs + ys)[..|xs + ys| - 1] == xs + ys[..|ys| - 1];
      MovesOfAppend(size, xs, ys[..|ys| - 1]);
    }
  }

  /** One move per action that is not NoAction. */
  lemma {:induction false} MovesOfLength(size: BoardSize, log: seq<Action>)
    ensures |MovesOf(size, log)| == PlayedCount(log)
    decreases |log|
  {
    if log != [] {
      MovesOfLength(size, log[..|log| - 1]);
    }
  }

  /** A NoAction anywhere in the log changes nothing in the move list, and every other
      action adds exactly its own move at its place. */
  lemma MovesOfSplit(size: BoardSize, xs: seq<Action>, a: Action, ys: seq<Action>)
    ensures MovesOf(size, xs + [a] + ys) == MovesOf(size, xs) + MoveOfAction(size, a) + MovesOf(size, ys)
    ensures a.NoAction? ==> MovesOf(size, xs + [a] + ys) == MovesOf(size, xs + ys)
  {
    MovesOfAppend(size, xs + [a], ys);
    MovesOfAppend(size, xs, [a]);
    MovesOfAppend(size, xs, ys);
    assert [a][..0] == [];
  }

  /** The move of a placement on the board decodes back to the placed stone, and the
      move of a pass names its colour. */
  lemma MoveOfActionDecodes(size: BoardSize, a: Action)
    requires ActionOnBoard(Dim(size), a) && !a.NoAction?
    ensures var m := MoveOfAction(size, a)[0];
      |m| == 2 && |m[1]| >= 1 &&
      (a.AddStone? ==> MoveToStone(size, m) == Some(a.stone)) &&
      (a.CaptureStones? ==> MoveToStone(size, m) == Some(a.capturingStone)) &&
      (a.Pass? ==> m[1] == "pass" && ColourOf(m[0]) == a.turn)
  {
    match a
    case AddStone(s) => MoveRoundTrip(size, s);
    case CaptureStones(c, _) => MoveRoundTrip(size, c);
    case Pass(t) =>
  }

  /** `getMoves`. */
  method GetMoves(size: BoardSize, actions: seq<Action>) returns (moves: seq<seq<string>>)
    ensures moves == MovesOf(size, actions)
  {
    moves := [];
    var i := 0;
    while i < |actions|
      invariant 0 <= i <= |actions|
      invariant moves == MovesOf(size, actions[..i])
    {
      var action := actions[i];
      assert actions[..i + 1][..i] == actions[..i];
      match action {
        case AddStone(s) =>
          moves := moves + [StoneToMove(size, s)];
        case CaptureStones(c, _) =>
          moves := moves + [StoneToMove(size, c)];
        case Pass(t) =>
          moves := moves + [[if t == Black then "B" else "W", "pass"]];
        case NoAction =>
      }
      i := i + 1;
    }
    assert actions[..i] == actions;
  }

  /** `parseMove`: [rootInfo.currentPlayer, moveInfos[0].move]; none where the
      response lacks either, which makes the library throw. */
  function ParseMove(response: Json): (r: Option<seq<string>>)
    ensures r.Some? ==> |r.value| == 2
    ensures r.Some? <==>
      (Contains(response, "rootInfo") && StringAt(response.fields["rootInfo"], "currentPlayer").Some? &&
       Contains(response, "moveInfos") && response.fields["moveInfos"].JArr? && |response.fields["moveInfos"].items| > 0 &&
       StringAt(response.fields["moveInfos"].items[0], "move").Some?)
    ensures r.Some? ==>
      (r.value[0] == StringAt(response.fields["rootInfo"], "currentPlayer").value &&
       r.value[1] == StringAt(response.fields["moveInfos"].items[0], "move").value)
  {
    if !Contains(response, "rootInfo") || !Contains(response, "moveInfos") then None
    else
      var player := StringAt(response.fields["rootInfo"], "currentPlayer");
      var infos := response.fields["moveInfos"];
      if player.None? || !infos.JArr? || |infos.items| == 0 then None
      else
        var move := StringAt(infos.items[0], "move");
        if move.None? then None else Some([player.value, move.value])
  }

  /** What `nextNMoves` finally answers: a stone, or the colour that passes. */
  datatype Play = PlayStone(stone: Stone) | PlayPass(turn: Turn)

  /** How one engine answer is read: "pass" names the colour, any other move a point;
      none where the point cannot be decoded. */
  function PlayOf(size: BoardSize, move: (string, string)): (r: Option<Play>)
    ensures move.1 == "pass" ==> r == Some(PlayPass(ColourOf(move.0)))
    ensures move.1 != "pass" && |move.1| >= 1 && MoveToStone(size, [move.0, move.1]).Some? ==>
      r == Some(PlayStone(MoveToStone(size, [move.0, move.1]).value))
  {
    if move.1 != "pass" then
      if |move.1| == 0 then None
      else
        match MoveToStone(size, [move.0, move.1])
        case Some(s) => Some(PlayStone(s))
        case None => None
    else Some(PlayPass(if move.0 == "B" then Black else White))
  }

  /** The outcome of the query loop: the move it answers, the queries it sent, and
      whether it ran to its normal exit. */
  datatype Rounds = Rounds(result: Option<Play>, queries: seq<Json>, completed: bool)

  /** The query loop over the remaining answers: each round sends the move query for
      the moves so far (passed through the difficulty helper `tune`), then appends the
      engine's answer to the moves; a missing or undecodable answer ends the loop with
      no move; after the last round the answer of that round is the result. */
  function Loop(size: BoardSize, tune: (Json, int) -> Json, level: int, moves: seq<seq<string>>,
                answers: seq<Option<(string, string)>>, ids: seq<string>, last: Option<Play>): (r: Rounds)
    requires |ids| == |answers|
    ensures |r.queries| <= |answers| && (r.completed ==> |r.queries| == |answers|)
    decreases |answers|
  {
    if answers == [] then Rounds(last, [], true)
    else
      var q := tune(MoveQuery(ids[0], moves, size), level);
      match answers[0]
      case None => Rounds(None, [q], false)
      case Some(m) =>
        var play := PlayOf(size, m);
        if play.None? then Rounds(None, [q], false)
        else
          var rest := Loop(size, tune, level, moves + [[m.0, m.1]], answers[1..], ids[1..], play);
          Rounds(rest.result, [q] + rest.queries, rest.completed)
  }

  /** Every answer up to `k` is present and decodes. */
  predicate AnsweredUpTo(size: BoardSize, answers: seq<Option<(string, string)>>, k: int) {
    forall j :: 0 <= j < k && j < |answers| ==> answers[j].Some? && PlayOf(size, answers[j].value).Some?
  }

  /** The moves the engine's first `k` answers contribute. */
  function AnswerMoves(answers: seq<Option<(string, string)>>, k: int): (ms: seq<seq<string>>)
    requires 0 <= k <= |answers| && forall j :: 0 <= j < k ==> answers[j].Some?
    ensures |ms| == k
    decreases k
  {
    if k == 0 then [] else AnswerMoves(answers, k - 1) + [[answers[k - 1].value.0, answers[k - 1].value.1]]
  }

  /** When every answer is there and decodes, the loop runs to its end, sends one query
      per answer, and answers with the last answer's move (or the initial value when
      there is no round). */
  lemma {:induction false} LoopCompletes(size: BoardSize, tune: (Json, int) -> Json, level: int,
                                         moves: seq<seq<string>>, answers: seq<Option<(string, string)>>,
                                         ids: seq<string>, last: Option<Play>)
    requires |ids| == |answers| && AnsweredUpTo(size, answers, |answers|)
    ensures var r := Loop(size, tune, level, moves, answers, ids, last);
      r.completed && |r.queries| == |answers| &&
      r.result == (if answers == [] then last else PlayOf(size, answers[|answers| - 1].value))
    decreases |answers|
  {
    if answers != [] {
      var m := answers[0].value;
      assert AnsweredUpTo(size, answers[1..], |answers| - 1) by {
        forall j | 0 <= j < |answers| - 1 ensures answers[1..][j] == answers[j + 1] { }
      }
      var play := PlayOf(size, m);
      assert play.Some?;
      LoopCompletes(size, tune, level, moves + [[m.0, m.1]], answers[1..], ids[1..], play);
      var rest := Loop(size, tune, level, moves + [[m.0, m.1]], answers[1..], ids[1..], play);
      var q := tune(MoveQuery(ids[0], moves, size), level);
      assert Loop(size, tune, level, moves, answers, ids, last) == Rounds(rest.result, [q] + rest.queries, rest.completed);
      if |answers| > 1 {
        assert answers[1..][|answers| - 2] == answers[|answers| - 1];
      }
    }
  }

  /** When answer `k` is the first one missing or undecodable, the loop sends k + 1
      queries and gives up with no move, without reaching its normal exit. */
  lemma {:induction false} LoopGivesUp(size: BoardSize, tune: (Json, int) -> Json, level: int,
                                       moves: seq<seq<string>>, answers: seq<Option<(string, string)>>,
                                       ids: seq<string>, last: Option<Play>, k: int)
    requires |ids| == |answers| && 0 <= k < |answers| && AnsweredUpTo(size, answers, k)
    requires answers[k].None? || PlayOf(size, answers[k].value).None?
    ensures var r := Loop(size, tune, level, moves, answers, ids, last);
      r.result.None? && !r.completed && |r.queries| == k + 1
    decreases k
  {
    if k > 0 {
      var m := answers[0].value;
      assert AnsweredUpTo(size, answers[1..], k - 1) by {
        forall j | 0 <= j < k - 1 ensures answers[1..][j] == answers[j + 1] { }
      }
      LoopGivesUp(size, tune, level, moves + [[m.0, m.1]], answers[1..], ids[1..], PlayOf(size, m), k - 1);
    }
  }

  /** The first query is built from the initial moves. */
  lemma LoopFirstQuery(size: BoardSize, tune: (Json, int) -> Json, level: int,
                       moves: seq<seq<string>>, answers: seq<Option<(string, string)>>,
                       ids: seq<string>, last: Option<Play>)
    requires |ids| == |answers| && |answers| > 0
    ensures Loop(size, tune, level, moves, answers, ids, last).queries[0] == tune(MoveQuery(ids[0], moves, size), level)
  {
  }

  /** A loop that sends a second query has read and decoded the first answer, and the
      rest of its queries are those of the loop over the remaining answers. */
  lemma LoopStep(size: BoardSize, tune: (Json, int) -> Json, level: int,
                 moves: seq<seq<string>>, answers: seq<Option<(string, string)>>,
                 ids: seq<string>, last: Option<Play>)
    requires |ids| == |answers| && |Loop(size, tune, level, moves, answers, ids, last).queries| >= 2
    ensures answers[0].Some? && PlayOf(size, answers[0].value).Some?
    ensures var m := answers[0].value;
      Loop(size, tune, level, moves, answers, ids, last).queries[1..] ==
      Loop(size, tune, level, moves + [[m.0, m.1]], answers[1..], ids[1..], PlayOf(size, m)).queries
  {
  }

  /** Query `k` carries the initial moves followed by the first k answers: each answer
      joins the move list before the next query is built. */
  lemma {:induction false} LoopQueryMoves(size: BoardSize, tune: (Json, int) -> Json, level: int,
                                          moves: seq<seq<string>>, answers: seq<Option<(string, string)>>,
                                          ids: seq<string>, last: Option<Play>, k: int)
    requires |ids| == |answers|
    requires 0 <= k < |Loop(size, tune, level, moves, answers, ids, last).queries|
    ensures AnsweredUpTo(size, answers, k) && forall j :: 0 <= j < k ==> answers[j].Some?
    ensures Loop(size, tune, level, moves, answers, ids, last).queries[k] ==
      tune(MoveQuery(ids[k], moves + AnswerMoves(answers, k), size), level)
    decreases k
  {
    if k == 0 {
      LoopFirstQuery(size, tune, level, moves, answers, ids, last);
      assert moves + AnswerMoves(answers, 0) == moves;
    } else {
      LoopStep(size, tune, level, moves, answers, ids, last);
      var m := answers[0].value;
      var moves' := moves + [[m.0, m.1]];
      var qs := Loop(size, tune, level, moves, answers, ids, last).queries;
      var tail := Loop(size, tune, level, moves', answers[1..], ids[1..], PlayOf(size, m)).queries;
      LoopQueryMoves(size, tune, level, moves', answers[1..], ids[1..], PlayOf(size, m), k - 1);
      AnsweredShift(size, answers, k);
      MovesAfterFirst(moves, answers, k);
      assert qs[k] == tail[k - 1];
      assert ids[1..][k - 1] == ids[k];
    }
  }

  /** The initial moves followed by the first answer's move and the next k - 1 answers
      are the initial moves followed by the first k answers. */
  lemma MovesAfterFirst(moves: seq<seq<string>>, answers: seq<Option<(string, string)>>, k: int)
    requires 1 <= k <= |answers| && forall j :: 0 <= j < k ==> answers[j].Some?
    ensures forall j :: 0 <= j < k - 1 ==> answers[1..][j].Some?
    ensures moves + [[answers[0].value.0, answers[0].value.1]] + AnswerMoves(answers[1..], k - 1) ==
      moves + AnswerMoves(answers, k)
  {
    AnswerMovesShift(answers, k);
  }

  /** The first answer decoding and the next k - 1 decoding is the first k decoding. */
  lemma AnsweredShift(size: BoardSize, answers: seq<Option<(string, string)>>, k: int)
    requires 1 <= k <= |answers| && answers[0].Some? && PlayOf(size, answers[0].value).Some?
    requires AnsweredUpTo(size, answers[1..], k - 1)
    ensures AnsweredUpTo(size, answers, k) && forall j :: 0 <= j < k ==> answers[j].Some?
  {
    forall j | 0 <= j < k ensures answers[j].Some? && PlayOf(size, answers[j].value).Some? {
      if j > 0 { assert answers[1..][j - 1] == answers[j]; }
    }
  }

  /** The moves of the first k answers are the first answer's move followed by the
      moves of the next k - 1. */
  lemma {:induction false} AnswerMovesShift(answers: seq<Option<(string, string)>>, k: int)
    requires 1 <= k <= |answers| && forall j :: 0 <= j < k ==> answers[j].Some?
    ensures forall j :: 0 <= j < k - 1 ==> answers[1..][j].Some?
    ensures AnswerMoves(answers, k) == [[answers[0].value.0, answers[0].value.1]] + AnswerMoves(answers[1..], k - 1)
    decreases k
  {
    assert forall j :: 0 <= j < k - 1 ==> answers[1..][j] == answers[j + 1];
    if k > 1 {
      AnswerMovesShift(answers, k - 1);
      assert answers[1..][k - 2] == answers[k - 1];
    }
  }

  /** Glue for the loop invariant: queries already sent in front of the rest. */
  function SentBefore(sent: seq<Json>, r: Rounds): Rounds {
    Rounds(r.result, sent + r.queries, r.completed)
  }

  /** One round of the loop as the client runs it: the query for the moves so far is
      sent, and either the answer stops the loop there or the loop goes on with that
      answer's move appended. */
  lemma LoopRound(size: BoardSize, tune: (Json, int) -> Json, level: int,
                  moves: seq<seq<string>>, answers: seq<Option<(string, string)>>,
                  ids: seq<string>, last: Option<Play>, sent: seq<Json>)
    requires |ids| == |answers| && |answers| > 0
    ensures var q := tune(MoveQuery(ids[0], moves, size), level);
      var whole := SentBefore(sent, Loop(size, tune, level, moves, answers, ids, last));
      (answers[0].None? || PlayOf(size, answers[0].value).None? ==> whole == Rounds(None, sent + [q], false)) &&
      (answers[0].Some? && PlayOf(size, answers[0].value).Some? ==>
         var m := answers[0].value;
         whole == SentBefore(sent + [q], Loop(size, tune, level, moves + [[m.0, m.1]], answers[1..], ids[1..], PlayOf(size, m))))
  {
  }

  /** The engine client: the board size, the difficulty level, the busy flag and whether
      the engine failed to start. */
  class KataGoClient {
    const size: BoardSize
    const isInitFailure: bool
    var diffLvl: int
    var isBusy: bool

    constructor (size: BoardSize, isInitFailure: bool)
      ensures this.size == size && this.isInitFailure == isInitFailure && diffLvl == 5 && !isBusy
    {
      this.size := size;
      this.isInitFailure := isInitFailure;
      diffLvl := 5;
      isBusy := false;
    }

    /** `updateDiffLevel`: the level must lie in 1..5. */
    method UpdateDiffLevel(lvl: int)
      requires 1 <= lvl <= 5
      modifies this
      ensures diffLvl == lvl && isBusy == old(isBusy)
    {
      diffLvl := lvl;
    }

    /** `nextNMoves`: `answers` are the engine's answers to the n queries, `ids` the query
        ids, `tune` the helper that adds the difficulty settings to a query. The
        queries sent are returned. Nothing is sent after an initialisation failure;
        the busy flag stays set when the loop gives up early. */
    method NextNMoves(actions: seq<Action>, n: int, answers: seq<Option<(string, string)>>, ids: seq<string>,
                      tune: (Json, int) -> Json)
      returns (r: Option<Play>, queries: seq<Json>)
      requires n >= 0 && |answers| == n && |ids| == n
      modifies this
      ensures diffLvl == old(diffLvl)
      ensures isInitFailure ==> r.None? && queries == [] && isBusy == old(isBusy)
      ensures !isInitFailure ==>
        var loop := Loop(size, tune, diffLvl, MovesOf(size, actions), answers, ids, None);
        r == loop.result && queries == loop.queries && isBusy == !loop.completed
    {
      if isInitFailure {
        return None, [];
      }
      isBusy := true;
      var moves := GetMoves(size, actions);
      ghost var whole := Loop(size, tune, diffLvl, moves, answers, ids, None);
      var last: Option<Play> := None;
      queries := [];
      var i := 0;
      while i < n
        invariant 0 <= i <= n && isBusy && diffLvl == old(diffLvl)
        invariant SentBefore(queries, Loop(size, tune, diffLvl, moves, answers[i..], ids[i..], last)) == whole
      {
        LoopRound(size, tune, diffLvl, moves, answers[i..], ids[i..], last, queries);
        var query := tune(MoveQuery(ids[i], moves, size), diffLvl);
        queries := queries + [query];
        var answer := answers[i];
        if answer.None? {
          return None, queries;
        }
        var next := [answer.value.0, answer.value.1];
        moves := moves + [next];
        var play := PlayOf(size, answer.value);
        if play.None? {
          return None, queries;
        }
        last := play;
        assert answers[i..][1..] == answers[i + 1..] && ids[i..][1..] == ids[i + 1..];
        i := i + 1;
      }
      isBusy := false;
      r := last;
    }

    /** `getEvaluation`: one evaluation query for the game so far, sent under the id
        `id`; the result is the engine's reply `reply`, read back by the engine
        bridge. Nothing is sent after an initialisation failure, and neither the level
        nor the busy flag changes. */
    method GetEvaluation<E>(actions: seq<Action>, id: string, reply: Option<E>)
      returns (r: Option<E>, queries: seq<Json>)
      ensures isInitFailure ==> r.None? && queries == []
      ensures !isInitFailure ==> r == reply && queries == [EvaluationQuery(id, MovesOf(size, actions), size)]
    {
      if isInitFailure {
        return None, [];
      }
      var moves := GetMoves(size, actions);
      var query := EvaluationQuery(id, moves, size);
      queries := [query];
      r := reply;
    }
  }
}
