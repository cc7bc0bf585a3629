/** Replaying an action log into a board snapshot, and the two-plies-back repetition
    query built on it. */
module Replay {
  import opened Wrappers
  import opened Base
  import opened Board
  import opened Actions
  import opened Errors

  /** `doesCellValidateStone`: the cell holds a stone of the stone's colour. */
  predicate DoesCellValidateStone(c: Cell, s: Stone) {
    (c == BlackCell && s.turn == Black) || (c == WhiteCell && s.turn == White)
  }

  lemma DoesCellValidateStoneMeansSameColour(c: Cell, s: Stone)
    ensures DoesCellValidateStone(c, s) <==> c == CellOf(s.turn)
  {
  }

  /** Removing the captured stones one after the other: each stone's cell must hold that
      stone's colour at the moment it is removed, otherwise the board is corrupt. */
  function RemoveStones(g: Grid, rs: seq<Stone>): (r: Result<Grid, ErrorKind>)
    requires IsSquare(g, |g|)
    requires StonesOnBoard(|g|, rs)
    ensures r.Err? ==> r.error == BoardStateCorrupt
    ensures r.Ok? ==> IsSquare(r.value, |g|)
    ensures r.Ok? ==> forall k :: 0 <= k < |rs| ==> r.value[rs[k].x][rs[k].y] == Empty
    ensures r.Ok? ==> forall i, j :: 0 <= i < |g| && 0 <= j < |g| && g[i][j] != Empty ==>
      r.value[i][j] == g[i][j] || exists k :: 0 <= k < |rs| && rs[k].x == i && rs[k].y == j
    ensures r.Ok? ==> forall i, j :: 0 <= i < |g| && 0 <= j < |g| && g[i][j] == Empty ==> r.value[i][j] == Empty
    decreases |rs|
  {
    if rs == [] then Ok(g)
    else
      var s := rs[0];
      if g[s.x][s.y] == Empty || !DoesCellValidateStone(g[s.x][s.y], s) then Err(BoardStateCorrupt)
      else
        var r := RemoveStones(SetCell(g, s.x, s.y, Empty), rs[1..]);
        assert r.Ok? ==> forall k :: 1 <= k < |rs| ==> r.value[rs[k].x][rs[k].y] == Empty by {
          if r.Ok? {
            forall k | 1 <= k < |rs| ensures r.value[rs[k].x][rs[k].y] == Empty {
              assert rs[1..][k - 1] == rs[k];
            }
          }
        }
        r
  }

  /** The removal succeeds whenever the listed stones are on distinct points, each holding
      a stone of the listed colour. */
  lemma {:induction false} RemoveStonesSucceeds(g: Grid, rs: seq<Stone>)
    requires IsSquare(g, |g|)
    requires StonesOnBoard(|g|, rs)
    requires forall k :: 0 <= k < |rs| ==> g[rs[k].x][rs[k].y] == CellOf(rs[k].turn)
    requires forall k, l :: 0 <= k < l < |rs| ==> rs[k].x != rs[l].x || rs[k].y != rs[l].y
    ensures RemoveStones(g, rs).Ok?
    decreases |rs|
  {
    if rs != [] {
      var s := rs[0];
      var g' := SetCell(g, s.x, s.y, Empty);
      forall k | 0 <= k < |rs[1..]|
        ensures g'[rs[1..][k].x][rs[1..][k].y] == CellOf(rs[1..][k].turn)
      {
        assert rs[1..][k] == rs[k + 1];
      }
      RemoveStonesSucceeds(g', rs[1..]);
    }
  }

  /** The listed stones can all be removed from `g` in turn: each listed point holds a
      stone of the listed colour, and no point is listed twice. */
  predicate Removable(g: Grid, rs: seq<Stone>)
    requires IsSquare(g, |g|) && StonesOnBoard(|g|, rs)
  {
    (forall k :: 0 <= k < |rs| ==> g[rs[k].x][rs[k].y] == CellOf(rs[k].turn)) &&
    (forall k, l :: 0 <= k < l < |rs| ==> rs[k].x != rs[l].x || rs[k].y != rs[l].y)
  }

  /** A removal that succeeds found every listed point holding its colour, each point
      listed once: an empty cell, a stone of the other colour, or a point listed a second
      time (empty by then) makes it fail. */
  lemma {:induction false} RemoveStonesOkOnlyIfRemovable(g: Grid, rs: seq<Stone>)
    requires IsSquare(g, |g|) && StonesOnBoard(|g|, rs)
    requires RemoveStones(g, rs).Ok?
    ensures Removable(g, rs)
    decreases |rs|
  {
    if rs != [] {
      var s := rs[0];
      var g' := SetCell(g, s.x, s.y, Empty);
      assert StonesOnBoard(|g'|, rs[1..]) by {
        forall k | 0 <= k < |rs[1..]| ensures 0 <= rs[1..][k].x < |g'| && 0 <= rs[1..][k].y < |g'| {
          assert rs[1..][k] == rs[k + 1];
        }
      }
      RemoveStonesOkOnlyIfRemovable(g', rs[1..]);
      assert g[s.x][s.y] == CellOf(s.turn);
      forall k | 1 <= k < |rs|
        ensures g[rs[k].x][rs[k].y] == CellOf(rs[k].turn) && (rs[k].x != s.x || rs[k].y != s.y)
      {
        assert rs[1..][k - 1] == rs[k];
      }
      forall k, l | 0 <= k < l < |rs| ensures rs[k].x != rs[l].x || rs[k].y != rs[l].y {
        if k > 0 {
          assert rs[1..][k - 1] == rs[k] && rs[1..][l - 1] == rs[l];
        }
      }
    }
  }

  /** The removal succeeds exactly when the stones are removable; otherwise it fails with
      BOARD_STATE_CORRUPT. */
  lemma RemoveStonesOkIff(g: Grid, rs: seq<Stone>)
    requires IsSquare(g, |g|) && StonesOnBoard(|g|, rs)
    ensures RemoveStones(g, rs).Ok? <==> Removable(g, rs)
    ensures !Removable(g, rs) ==> RemoveStones(g, rs) == Err(BoardStateCorrupt)
  {
    if Removable(g, rs) {
      RemoveStonesSucceeds(g, rs);
    } else if RemoveStones(g, rs).Ok? {
      RemoveStonesOkOnlyIfRemovable(g, rs);
    }
  }

  /** The effect of one action on a snapshot that has not ended. */
  function ApplyAction(s: Snapshot, a: Action): (r: Result<Snapshot, ErrorKind>)
    requires s.WellFormed() && ActionOnBoard(s.Size(), a)
    ensures r.Ok? ==> r.value.WellFormed() && r.value.Size() == s.Size()
  {
    match a
    case NoAction => Ok(s)
    case AddStone(st) =>
      Ok(Snapshot(SetCell(s.cells, st.x, st.y, CellOf(st.turn)), None, s.ended))
    case CaptureStones(c, rs) =>
      var removed := RemoveStones(SetCell(s.cells, c.x, c.y, CellOf(c.turn)), rs);
      if removed.Err? then Err(removed.error) else Ok(Snapshot(removed.value, None, s.ended))
    case Pass(t) =>
      if s.inPass.Some? then
        if s.inPass.value != t then Ok(s.(ended := true)) else Ok(s)
      else Ok(s.(inPass := Some(t)))
  }

  /** `computeActions` as a function: fold the log into a snapshot, starting from the
      empty board; a game that has ended ignores the rest of the log. */
  function Replay(size: BoardSize, log: seq<Action>): (r: Result<Snapshot, ErrorKind>)
    requires LogOnBoard(Dim(size), log)
    ensures r.Ok? ==> r.value.WellFormed() && r.value.Size() == Dim(size)
    ensures r.Err? ==> r.error == BoardStateCorrupt
    decreases |log|
  {
    if log == [] then Ok(EmptySnapshot(Dim(size)))
    else
      var init := log[..|log| - 1];
      assert LogOnBoard(Dim(size), init) by {
        forall k | 0 <= k < |init| ensures ActionOnBoard(Dim(size), init[k]) {
          assert init[k] == log[k];
        }
      }
      match Replay(size, init)
      case Err(e) => Err(e)
      case Ok(s) => if s.ended then Ok(s) else ApplyAction(s, log[|log| - 1])
  }

  lemma LogOnBoardPrefix(n: int, log: seq<Action>, k: int)
    requires LogOnBoard(n, log) && 0 <= k <= |log|
    ensures LogOnBoard(n, log[..k])
  {
    forall j | 0 <= j < k ensures ActionOnBoard(n, log[..k][j]) {
      assert log[..k][j] == log[j];
    }
  }

  lemma LogOnBoardAppend(n: int, log: seq<Action>, a: Action)
    requires LogOnBoard(n, log) && ActionOnBoard(n, a)
    ensures LogOnBoard(n, log + [a])
  {
    forall j | 0 <= j < |log| + 1 ensures ActionOnBoard(n, (log + [a])[j]) {
      if j < |log| { assert (log + [a])[j] == log[j]; }
    }
  }

  /** Replaying an empty log gives the empty board, no pending pass, not ended. */
  lemma ReplayEmpty(size: BoardSize)
    ensures Replay(size, []) == Ok(EmptySnapshot(Dim(size)))
  {
  }

  /** Replaying one more action: the snapshot of the shorter log, then that action,
      unless the game had already ended. */
  lemma ReplaySnoc(size: BoardSize, log: seq<Action>, a: Action)
    requires LogOnBoard(Dim(size), log) && ActionOnBoard(Dim(size), a)
    ensures LogOnBoard(Dim(size), log + [a])
    ensures Replay(size, log + [a]) ==
      match Replay(size, log)
      case Err(e) => Err(e)
      case Ok(s) => if s.ended then Ok(s) else ApplyAction(s, a)
  {
    LogOnBoardAppend(Dim(size), log, a);
    assert (log + [a])[..|log|] == log;
  }

  /** Once the replay fails or the game ends, every later action is ignored. */
  lemma {:induction false} ReplayStopsWhenEndedOrFailed(size: BoardSize, log: seq<Action>, more: seq<Action>)
    requires LogOnBoard(Dim(size), log + more)
    ensures LogOnBoard(Dim(size), log)
    ensures Replay(size, log).Err? || Replay(size, log).value.ended ==>
      Replay(size, log + more) == Replay(size, log)
    decreases |more|
  {
    LogOnBoardPrefix(Dim(size), log + more, |log|);
    assert (log + more)[..|log|] == log;
    if more != [] {
      var init := more[..|more| - 1];
      assert log + more == (log + init) + [more[|more| - 1]];
      LogOnBoardPrefix(Dim(size), log + more, |log + init|);
      assert (log + more)[..|log + init|] == log + init;
      assert (log + more)[|log + init|] == more[|more| - 1];
      ReplaySnoc(size, log + init, more[|more| - 1]);
      ReplayStopsWhenEndedOrFailed(size, log, init);
    } else {
      assert log + more == log;
    }
  }

  /** A log whose replay succeeds has only prefixes whose replay succeeds. */
  lemma ReplayPrefixOk(size: BoardSize, log: seq<Action>, k: int)
    requires LogOnBoard(Dim(size), log) && 0 <= k <= |log|
    requires Replay(size, log).Ok?
    ensures LogOnBoard(Dim(size), log[..k]) && Replay(size, log[..k]).Ok?
  {
    LogOnBoardPrefix(Dim(size), log, k);
    assert log == log[..k] + log[k..];
    ReplayStopsWhenEndedOrFailed(size, log[..k], log[k..]);
  }

  /** AddStone on a running game writes the stone's colour into its cell, clears the
      pending pass, and changes no other cell; there is no occupancy check. */
  lemma ReplayAddStone(size: BoardSize, log: seq<Action>, st: Stone)
    requires LogOnBoard(Dim(size), log) && OnBoard(Dim(size), st)
    requires Replay(size, log).Ok? && !Replay(size, log).value.ended
    ensures LogOnBoard(Dim(size), log + [AddStone(st)])
    ensures var before := Replay(size, log).value;
      var after := Replay(size, log + [AddStone(st)]);
      after.Ok? && after.value.Get(st.x, st.y) == CellOf(st.turn) &&
      after.value.inPass == None && !after.value.ended &&
      forall i, j :: before.InBounds(i, j) && (i != st.x || j != st.y) ==> after.value.Get(i, j) == before.Get(i, j)
  {
    ReplaySnoc(size, log, AddStone(st));
  }

  /** Pass on a running game: the first pass records its colour; a pass of the other
      colour ends the game; a repeated pass of the same colour changes nothing. The grid
      is never touched. */
  lemma ReplayPass(size: BoardSize, log: seq<Action>, t: Turn)
    requires LogOnBoard(Dim(size), log)
    requires Replay(size, log).Ok? && !Replay(size, log).value.ended
    ensures LogOnBoard(Dim(size), log + [Pass(t)])
    ensures var before := Replay(size, log).value;
      var after := Replay(size, log + [Pass(t)]);
      after.Ok? && after.value.cells == before.cells &&
      (before.inPass.None? ==> after.value == before.(inPass := Some(t))) &&
      (before.inPass == Some(t) ==> after.value == before) &&
      (before.inPass.Some? && before.inPass.value != t ==> after.value == before.(ended := true))
  {
    ReplaySnoc(size, log, Pass(t));
  }

  /** Some stone of the list lies on point (i, j). */
  predicate Listed(rs: seq<Stone>, i: int, j: int) {
    exists k :: 0 <= k < |rs| && rs[k].x == i && rs[k].y == j
  }

  /** CaptureStones on a running game writes the capturing stone's colour into its cell,
      then removes the listed stones. The replay fails with BOARD_STATE_CORRUPT exactly
      when they are not removable from the grid after the placement. On success the
      pending pass is cleared, the listed points are empty, the capturing point keeps its
      colour unless it is listed, and every other cell is unchanged. */
  lemma ReplayCaptureStones(size: BoardSize, log: seq<Action>, c: Stone, rs: seq<Stone>)
    requires LogOnBoard(Dim(size), log) && OnBoard(Dim(size), c) && StonesOnBoard(Dim(size), rs)
    requires Replay(size, log).Ok? && !Replay(size, log).value.ended
    ensures LogOnBoard(Dim(size), log + [CaptureStones(c, rs)])
    ensures var before := Replay(size, log).value;
      var placed := SetCell(before.cells, c.x, c.y, CellOf(c.turn));
      var after := Replay(size, log + [CaptureStones(c, rs)]);
      IsSquare(placed, |placed|) && StonesOnBoard(|placed|, rs) &&
      (after.Ok? <==> Removable(placed, rs)) &&
      (after.Err? ==> after.error == BoardStateCorrupt) &&
      (after.Ok? ==>
        after.value.inPass == None && !after.value.ended &&
        (forall k :: 0 <= k < |rs| ==> after.value.Get(rs[k].x, rs[k].y) == Empty) &&
        (!Listed(rs, c.x, c.y) ==> after.value.Get(c.x, c.y) == CellOf(c.turn)) &&
        (forall i, j :: before.InBounds(i, j) && (i != c.x || j != c.y) && !Listed(rs, i, j) ==>
          after.value.Get(i, j) == before.Get(i, j)))
  {
    ReplaySnoc(size, log, CaptureStones(c, rs));
    var before := Replay(size, log).value;
    var placed := SetCell(before.cells, c.x, c.y, CellOf(c.turn));
    RemoveStonesOkIff(placed, rs);
  }

  /** NoAction changes nothing. */
  lemma ReplayNoAction(size: BoardSize, log: seq<Action>)
    requires LogOnBoard(Dim(size), log)
    ensures LogOnBoard(Dim(size), log + [NoAction])
    ensures Replay(size, log + [NoAction]) == Replay(size, log)
  {
    ReplaySnoc(size, log, NoAction);
  }

  /** The pending pass recorded in the list of passes: its first entry, if any. */
  function FirstPass(passes: seq<Turn>): Option<Turn> {
    if |passes| > 0 then Some(passes[0]) else None
  }

  /** The visitor of `computeActions`: one action applied to the grid, the list of
      passes and the ended flag, or the error it raises. */
  method VisitAction(state: Grid, passes: seq<Turn>, isGameEnded: bool, action: Action)
    returns (err: Option<ErrorKind>, state': Grid, passes': seq<Turn>, isGameEnded': bool)
    requires IsSquare(state, |state|) && |passes| <= 1 && ActionOnBoard(|state|, action)
    ensures var r := ApplyAction(Snapshot(state, FirstPass(passes), isGameEnded), action);
      (err.Some? <==> r.Err?) &&
      (r.Err? ==> err.value == r.error) &&
      (r.Ok? ==> |passes'| <= 1 && r.value == Snapshot(state', FirstPass(passes'), isGameEnded'))
  {
    err, state', passes', isGameEnded' := None, state, passes, isGameEnded;
    match action {
      case AddStone(stone) =>
        state' := SetCell(state', stone.x, stone.y, if stone.turn == Black then BlackCell else WhiteCell);
        passes' := [];
      case CaptureStones(capturingStone, stones) =>
        state' := SetCell(state', capturingStone.x, capturingStone.y,
          if capturingStone.turn == Black then BlackCell else WhiteCell);
        ghost var placed := state';
        var j := 0;
        while j < |stones|
          invariant 0 <= j <= |stones|
          invariant IsSquare(state', |state|)
          invariant RemoveStones(placed, stones) == RemoveStones(state', stones[j..])
        {
          var stone := stones[j];
          assert stones[j..][1..] == stones[j + 1..];
          if state'[stone.x][stone.y] == Empty || !DoesCellValidateStone(state'[stone.x][stone.y], stone) {
            return Some(BoardStateCorrupt), state', passes', isGameEnded';
          }
          state' := SetCell(state', stone.x, stone.y, Empty);
          j := j + 1;
        }
        passes' := [];
      case Pass(turn) =>
        if |passes'| > 0 {
          if passes'[0] != turn {
            isGameEnded' := true;
          }
        } else {
          passes' := passes' + [turn];
        }
      case NoAction =>
    }
  }

  /** `computeActions`: the imperative fold over the log, stopping at the first error
      and skipping the rest of the log once the game has ended. */
  method ComputeActions(size: BoardSize, actions: seq<Action>) returns (r: Result<Snapshot, ErrorKind>)
    requires LogOnBoard(Dim(size), actions)
    ensures r == Replay(size, actions)
  {
    var boardDim := Dim(size);
    var state := EmptyGrid(boardDim);
    var isGameEnded := false;
    var passes: seq<Turn> := [];
    var i := 0;
    while i < |actions|
      invariant 0 <= i <= |actions|
      invariant |passes| <= 1
      invariant LogOnBoard(boardDim, actions[..i])
      invariant Replay(size, actions[..i]) == Ok(Snapshot(state, FirstPass(passes), isGameEnded))
    {
      var action := actions[i];
      if isGameEnded {
        break;
      }
      ReplaySnoc(size, actions[..i], action);
      assert actions[..i + 1] == actions[..i] + [action];
      var err;
      err, state, passes, isGameEnded := VisitAction(state, passes, isGameEnded, action);
      if err.Some? {
        ReplayStopsWhenEndedOrFailed(size, actions[..i + 1], actions[i + 1..]);
        assert actions[..i + 1] + actions[i + 1..] == actions;
        return Err(err.value);
      }
      i := i + 1;
    }
    assert actions[..i] + actions[i..] == actions;
    ReplayStopsWhenEndedOrFailed(size, actions[..i], actions[i..]);
    if i == |actions| {
      assert actions[..i] == actions;
    }
    r := Ok(Snapshot(state, FirstPass(passes), isGameEnded));
  }

  /** `computeIfKo`: with more than six prior actions, does the candidate capture give
      the same cells as the position before the last prior action? A failed replay
      counts as no repetition. */
  predicate ComputeIfKo(size: BoardSize, log: seq<Action>, capturing: Stone, removed: seq<Stone>)
    requires LogOnBoard(Dim(size), log + [CaptureStones(capturing, removed)])
  {
    if |log| > 6 then
      var extended := log + [CaptureStones(capturing, removed)];
      LogOnBoardPrefix(Dim(size), extended, |extended| - 2);
      var curr := Replay(size, extended);
      var prev := Replay(size, extended[..|extended| - 2]);
      if curr.Err? || prev.Err? then false
      else SnapshotEquals(curr.value, prev.value)
    else false
  }

  /** The repetition query is false on short logs and on failed replays, and otherwise
      compares the cells after the candidate with the cells of the log without its last
      action, ignoring the pass marker and the ended flag. */
  lemma ComputeIfKoMeaning(size: BoardSize, log: seq<Action>, capturing: Stone, removed: seq<Stone>)
    requires LogOnBoard(Dim(size), log + [CaptureStones(capturing, removed)])
    ensures LogOnBoard(Dim(size), log) && |log| > 0 ==> LogOnBoard(Dim(size), log[..|log| - 1])
    ensures ComputeIfKo(size, log, capturing, removed) <==>
      |log| > 6 &&
      LogOnBoard(Dim(size), log[..|log| - 1]) &&
      Replay(size, log + [CaptureStones(capturing, removed)]).Ok? &&
      Replay(size, log[..|log| - 1]).Ok? &&
      Replay(size, log + [CaptureStones(capturing, removed)]).value.cells ==
        Replay(size, log[..|log| - 1]).value.cells
  {
    var extended := log + [CaptureStones(capturing, removed)];
    LogOnBoardPrefix(Dim(size), extended, |log|);
    assert extended[..|log|] == log;
    if |log| > 0 {
      LogOnBoardPrefix(Dim(size), log, |log| - 1);
      assert extended[..|extended| - 2] == log[..|log| - 1];
      var curr := Replay(size, extended);
      var prev := Replay(size, log[..|log| - 1]);
      if curr.Ok? && prev.Ok? {
        SnapshotEqualsIffSameCells(curr.value, prev.value);
      }
    }
  }
}
