/** The game state object: the full action log, how many of its last actions are
    undone, and the snapshot of the visible part of the log. Every transition is
    specified by a function on the abstract value `State`; the class methods are
    proved to perform exactly those functions. */
module GameState {
  import opened Wrappers
  import opened Base
  import opened Board
  import opened Actions
  import opened Errors
  import opened Replay
  import opened Rules

  /** The abstract value of a game state: `undo_by`, `actions` and `computed`. */
  datatype State = State(undoBy: int, actions: seq<Action>, computed: Snapshot)

  /** A transition's new state together with the value it returns. */
  type Outcome = (State, Result<bool, ErrorKind>)

  /** The structural invariant: the undo cursor stays within the log, every action lies
      on the board, and the snapshot has the board's size. */
  predicate Invariant(dim: BoardSize, st: State) {
    0 <= st.undoBy <= |st.actions| && LogOnBoard(Dim(dim), st.actions) &&
    st.computed.WellFormed() && st.computed.Size() == Dim(dim)
  }

  /** The actions that are not undone. */
  function Visible(st: State): (vis: seq<Action>)
    requires 0 <= st.undoBy <= |st.actions|
    ensures |vis| == |st.actions| - st.undoBy && vis <= st.actions
  {
    st.actions[..|st.actions| - st.undoBy]
  }

  /** The state agrees with its log: the whole log replays without error and the
      snapshot is the replay of the visible actions. */
  predicate Consistent(dim: BoardSize, st: State)
    requires Invariant(dim, st)
  {
    Replay.Replay(dim, st.actions).Ok? && Replay.Replay(dim, Visible(st)) == Ok(st.computed)
  }

  lemma VisibleOnBoard(dim: BoardSize, st: State)
    requires Invariant(dim, st)
    ensures LogOnBoard(Dim(dim), Visible(st))
  {
    LogOnBoardPrefix(Dim(dim), st.actions, |st.actions| - st.undoBy);
  }

  /** `handleUndoClear`: forget the undone actions. */
  function DropUndone(st: State): (r: State)
    requires 0 <= st.undoBy <= |st.actions|
    ensures r.undoBy == 0 && r.actions == Visible(st) && r.computed == st.computed
  {
    State(0, if st.undoBy > 0 && |st.actions| >= st.undoBy then st.actions[..|st.actions| - st.undoBy] else st.actions,
          st.computed)
  }

  /** The common tail of every transition that changes what is visible: replay the
      visible actions; on an error keep the old snapshot and return the error. */
  function Recompute(dim: BoardSize, st: State): (r: Outcome)
    requires 0 <= st.undoBy <= |st.actions| && LogOnBoard(Dim(dim), st.actions)
    requires st.computed.WellFormed() && st.computed.Size() == Dim(dim)
    ensures Invariant(dim, r.0) && r.0.undoBy == st.undoBy && r.0.actions == st.actions
    ensures r.1 == Ok(true) ==> Replay.Replay(dim, Visible(st)) == Ok(r.0.computed)
    ensures r.1.Err? ==> r.1.error == BoardStateCorrupt && r.0 == st && Replay.Replay(dim, Visible(st)).Err?
    ensures r.1 != Ok(false)
  {
    VisibleOnBoard(dim, st);
    var res := Replay.Replay(dim, Visible(st));
    if res.Err? then (st, Err(res.error)) else (st.(computed := res.value), Ok(true))
  }

  /** Forget the undone actions, append `a` and replay: the tail that `pass` and
      `addStone` share once they accept an action. */
  function Appended(dim: BoardSize, st: State, a: Action): (r: Outcome)
    requires Invariant(dim, st) && ActionOnBoard(Dim(dim), a)
    ensures Invariant(dim, r.0) && r.1 != Ok(false)
    ensures r.0.undoBy == 0 && r.0.actions == Visible(st) + [a] && Visible(r.0) == Visible(st) + [a]
    ensures r.1.Err? ==> r.0.computed == st.computed
  {
    VisibleOnBoard(dim, st);
    LogOnBoardAppend(Dim(dim), Visible(st), a);
    Recompute(dim, DropUndone(st).(actions := Visible(st) + [a]))
  }

  /** `clear` and the constructor: an empty log, nothing undone, an empty board. */
  function Cleared(dim: BoardSize): (st: State)
    ensures Invariant(dim, st) && Consistent(dim, st)
    ensures st.actions == [] && st.undoBy == 0
  {
    ReplayEmpty(dim);
    State(0, [], EmptySnapshot(Dim(dim)))
  }

  /** `undo`: possible while some action is not undone; the cursor moves back by one and
      the snapshot becomes the replay of the shorter visible log. */
  function UndoSpec(dim: BoardSize, st: State): (r: Outcome)
    requires Invariant(dim, st)
    ensures Invariant(dim, r.0) && r.0.actions == st.actions
    ensures r.1 == Ok(false) <==> st.undoBy == |st.actions|
    ensures r.1 == Ok(false) ==> r.0 == st
    ensures r.1 != Ok(false) ==> r.0.undoBy == st.undoBy + 1
    ensures r.1 == Ok(true) ==> Replay.Replay(dim, Visible(r.0)) == Ok(r.0.computed)
    ensures r.1.Err? ==> r.0.computed == st.computed
  {
    if |st.actions| - (st.undoBy + 1) >= 0 then Recompute(dim, st.(undoBy := st.undoBy + 1))
    else (st, Ok(false))
  }

  /** `redo`: possible while some action is undone; the cursor moves forward by one. */
  function RedoSpec(dim: BoardSize, st: State): (r: Outcome)
    requires Invariant(dim, st)
    ensures Invariant(dim, r.0) && r.0.actions == st.actions
    ensures r.1 == Ok(false) <==> st.undoBy == 0
    ensures r.1 == Ok(false) ==> r.0 == st
    ensures r.1 != Ok(false) ==> r.0.undoBy == st.undoBy - 1
    ensures r.1 == Ok(true) ==> Replay.Replay(dim, Visible(r.0)) == Ok(r.0.computed)
    ensures r.1.Err? ==> r.0.computed == st.computed
  {
    if st.undoBy - 1 >= 0 then Recompute(dim, st.(undoBy := st.undoBy - 1))
    else (st, Ok(false))
  }

  /** The colour of a Pass action, none for every other action. */
  function PassTurn(a: Action): Option<Turn> {
    if a.Pass? then Some(a.turn) else None
  }

  /** The colour of the last visible action when it is a Pass. */
  function LastPass(log: seq<Action>): (r: Option<Turn>)
    ensures r.Some? ==> |log| > 0 && log[|log| - 1] == Pass(r.value)
    ensures r.None? ==> |log| == 0 || !log[|log| - 1].Pass?
  {
    if |log| > 0 then PassTurn(log[|log| - 1]) else None
  }

  /** `pass`, with the undone actions forgotten first as `addStone` does: nothing happens
      once the game has ended or when the last visible action is a Pass of the same
      colour; otherwise the Pass becomes the last visible action. */
  function PassSpec(dim: BoardSize, st: State, t: Turn): (r: Outcome)
    requires Invariant(dim, st)
    ensures Invariant(dim, r.0)
    ensures r.1 == Ok(false) <==> st.computed.ended || LastPass(Visible(st)) == Some(t)
    ensures r.1 == Ok(false) ==> r.0 == st
    ensures r.1 != Ok(false) ==> r.0.undoBy == 0 && r.0.actions == Visible(st) + [Pass(t)]
    ensures r.1 != Ok(false) ==> Visible(r.0) == Visible(st) + [Pass(t)]
    ensures r.1.Err? ==> r.0.computed == st.computed
  {
    if st.computed.ended then (st, Ok(false))
    else
      var prev := LastPass(Visible(st));
      if prev.None? || prev.value != t then Appended(dim, st, Pass(t))
      else (st, Ok(false))
  }

  /** `pass` as written: the previous action is read at index |actions| - undo_by - 1,
      which needs that index to exist, and the Pass is appended after the undone
      actions, with the cursor left where it was. */
  function PassAsWritten(dim: BoardSize, st: State, t: Turn): (r: Outcome)
    requires Invariant(dim, st)
    requires |st.actions| == 0 || st.undoBy < |st.actions|
    ensures Invariant(dim, r.0)
    ensures r.1 == Ok(false) ==> r.0 == st
    ensures r.1 != Ok(false) ==> r.0.undoBy == st.undoBy && r.0.actions == st.actions + [Pass(t)]
  {
    if st.computed.ended then (st, Ok(false))
    else
      var prev := if |st.actions| > 0 then PassTurn(st.actions[|st.actions| - st.undoBy - 1]) else None;
      if prev.None? || prev.value != t then
        LogOnBoardAppend(Dim(dim), st.actions, Pass(t));
        Recompute(dim, st.(actions := st.actions + [Pass(t)]))
      else (st, Ok(false))
  }

  /** With nothing undone, `pass` as written and the corrected `pass` agree: the two
      defects need an undone action to show. */
  lemma PassAsWrittenAgreesWhenNothingUndone(dim: BoardSize, st: State, t: Turn)
    requires Invariant(dim, st) && st.undoBy == 0
    ensures PassAsWritten(dim, st, t) == PassSpec(dim, st, t)
  {
    assert Visible(st) == st.actions;
    assert DropUndone(st) == st;
  }

  /** The removed-stones list of a capture: the captured groups concatenated in order. */
  function Flatten(groups: seq<seq<Stone>>): (rs: seq<Stone>)
    decreases |groups|
  {
    if groups == [] then [] else Flatten(groups[..|groups| - 1]) + groups[|groups| - 1]
  }

  /** `addStone`, given the groups `getCapturedGroups` reports for the stone: nothing
      happens once the game has ended or on an occupied point; a placement that
      captures appends CaptureStones with the captured stones; otherwise a placement
      whose group keeps a liberty appends AddStone; anything else is refused. The
      undone actions are forgotten before appending. */
  ghost function AddStoneSpec(dim: BoardSize, st: State, stone: Stone, groups: seq<seq<Stone>>): (r: Outcome)
    requires Invariant(dim, st) && OnBoard(Dim(dim), stone) && StonesOnBoard(Dim(dim), Flatten(groups))
    ensures Invariant(dim, r.0)
    ensures r.1 != Ok(false) ==> r.0.undoBy == 0 && |r.0.actions| == |Visible(st)| + 1
    ensures r.1 == Ok(false) ==> r.0 == st
    ensures r.1.Err? ==> r.0.computed == st.computed
  {
    var p := (stone.x, stone.y);
    if st.computed.ended then (st, Ok(false))
    else if st.computed.Get(stone.x, stone.y) != Empty then (st, Ok(false))
    else if |groups| > 0 || LibertyOf(st.computed, stone.turn, [], p, p) then
      Appended(dim, st, if |groups| > 0 then CaptureStones(stone, Flatten(groups)) else AddStone(stone))
    else (st, Ok(false))
  }

  /** When `addStone` refuses and what it appends: it refuses exactly when the game has
      ended, the point is occupied, or nothing is captured and the stone's group would
      have no liberty; otherwise the log becomes the visible actions followed by
      CaptureStones with the captured stones when something is captured, and AddStone
      when nothing is. */
  lemma AddStoneSpecMeaning(dim: BoardSize, st: State, stone: Stone, groups: seq<seq<Stone>>)
    requires Invariant(dim, st) && OnBoard(Dim(dim), stone) && StonesOnBoard(Dim(dim), Flatten(groups))
    ensures var r := AddStoneSpec(dim, st, stone, groups);
      (r.1 == Ok(false) <==>
        st.computed.ended || st.computed.Get(stone.x, stone.y) != Empty ||
        (|groups| == 0 && !LibertyOf(st.computed, stone.turn, [], (stone.x, stone.y), (stone.x, stone.y)))) &&
      (r.1 != Ok(false) ==>
        r.0.actions == Visible(st) + [if |groups| > 0 then CaptureStones(stone, Flatten(groups)) else AddStone(stone)])
  {
  }

  /** The number of stones captured by colour `t` in the log. */
  function CaptureCount(log: seq<Action>, t: Turn): (n: nat)
    decreases |log|
  {
    if log == [] then 0
    else
      var last := log[|log| - 1];
      CaptureCount(log[..|log| - 1], t) + if last.CaptureStones? && last.capturingStone.turn == t then |last.removedStones| else 0
  }

  // ---------------------------------------------------------------------------
  // Properties of the transitions.

  /** The count of a concatenated log is the sum of the counts. */
  lemma {:induction false} CaptureCountAppend(xs: seq<Action>, ys: seq<Action>, t: Turn)
    ensures CaptureCount(xs + ys, t) == CaptureCount(xs, t) + CaptureCount(ys, t)
    decreases |ys|
  {
    if ys == [] {
      assert xs + ys == xs;
    } else {
      assert (xs + ys)[..|xs + ys| - 1] == xs + ys[..|ys| - 1];
      CaptureCountAppend(xs, ys[..|ys| - 1], t);
    }
  }

  /** Undoing and then redoing restores the state of a consistent game. */
  lemma UndoThenRedo(dim: BoardSize, st: State)
    requires Invariant(dim, st) && Consistent(dim, st)
    requires UndoSpec(dim, st).1 != Ok(false)
    ensures UndoSpec(dim, st).1 == Ok(true)
    ensures RedoSpec(dim, UndoSpec(dim, st).0) == (st, Ok(true))
  {
    var n := |st.actions| - st.undoBy - 1;
    var mid := st.(undoBy := st.undoBy + 1);
    ReplayPrefixOk(dim, st.actions, n);
    assert st.actions[..n] == Visible(mid);
    var undone := mid.(computed := Replay.Replay(dim, Visible(mid)).value);
    assert UndoSpec(dim, st) == (undone, Ok(true));
    assert undone.(undoBy := st.undoBy) == st.(computed := undone.computed);
    assert Visible(st.(computed := undone.computed)) == Visible(st);
  }

  /** Redoing and then undoing restores the state of a consistent game. */
  lemma RedoThenUndo(dim: BoardSize, st: State)
    requires Invariant(dim, st) && Consistent(dim, st)
    requires RedoSpec(dim, st).1 != Ok(false)
    ensures RedoSpec(dim, st).1 == Ok(true)
    ensures UndoSpec(dim, RedoSpec(dim, st).0) == (st, Ok(true))
  {
    var n := |st.actions| - st.undoBy + 1;
    var mid := st.(undoBy := st.undoBy - 1);
    ReplayPrefixOk(dim, st.actions, n);
    assert st.actions[..n] == Visible(mid);
    var redone := mid.(computed := Replay.Replay(dim, Visible(mid)).value);
    assert RedoSpec(dim, st) == (redone, Ok(true));
    assert redone.(undoBy := st.undoBy) == st.(computed := redone.computed);
    assert Visible(st.(computed := redone.computed)) == Visible(st);
  }

  /** Undo keeps a consistent game consistent, and never fails on one. */
  lemma UndoKeepsConsistent(dim: BoardSize, st: State)
    requires Invariant(dim, st) && Consistent(dim, st)
    ensures UndoSpec(dim, st).1.Ok? && Consistent(dim, UndoSpec(dim, st).0)
  {
    if st.undoBy < |st.actions| {
      var back := st.(undoBy := st.undoBy + 1);
      ReplayPrefixOk(dim, st.actions, |st.actions| - st.undoBy - 1);
      assert st.actions[..|st.actions| - st.undoBy - 1] == Visible(back);
      assert UndoSpec(dim, st) == Recompute(dim, back);
    }
  }

  /** Redo keeps a consistent game consistent, and never fails on one. */
  lemma RedoKeepsConsistent(dim: BoardSize, st: State)
    requires Invariant(dim, st) && Consistent(dim, st)
    ensures RedoSpec(dim, st).1.Ok? && Consistent(dim, RedoSpec(dim, st).0)
  {
    if st.undoBy > 0 {
      var forward := st.(undoBy := st.undoBy - 1);
      ReplayPrefixOk(dim, st.actions, |st.actions| - st.undoBy + 1);
      assert st.actions[..|st.actions| - st.undoBy + 1] == Visible(forward);
      assert RedoSpec(dim, st) == Recompute(dim, forward);
    }
  }

  /** Appending an action that applies to the snapshot of a consistent, running game
      gives a consistent game whose snapshot is that action's effect. */
  lemma AppendedKeepsConsistent(dim: BoardSize, st: State, a: Action)
    requires Invariant(dim, st) && Consistent(dim, st) && ActionOnBoard(Dim(dim), a)
    requires !st.computed.ended && ApplyAction(st.computed, a).Ok?
    ensures var r := Appended(dim, st, a);
      r.1 == Ok(true) && Consistent(dim, r.0) && r.0.computed == ApplyAction(st.computed, a).value
  {
    VisibleOnBoard(dim, st);
    ReplaySnoc(dim, Visible(st), a);
  }

  /** A pass keeps a consistent game consistent, and never fails on one. */
  lemma PassKeepsConsistent(dim: BoardSize, st: State, t: Turn)
    requires Invariant(dim, st) && Consistent(dim, st)
    ensures var r := PassSpec(dim, st, t); r.1.Ok? && Consistent(dim, r.0)
  {
    if !st.computed.ended {
      AppendedKeepsConsistent(dim, st, Pass(t));
    }
  }

  /** Every stone of a group started at a member is a member of the target colour. */
  lemma GroupStone(board: Snapshot, target: Turn, avoid: seq<Pos>, n: Pos, g: seq<Stone>, k: int)
    requires IsGroup(board, target, avoid, n, g) && Member(board, target, avoid, n) && 0 <= k < |g|
    ensures g[k].turn == target && Member(board, target, avoid, (g[k].x, g[k].y))
  {
    var x := (g[k].x, g[k].y);
    assert x == Points(g)[k];
    if x != n {
      ReachIsMember(board, target, avoid, n, x);
    }
  }

  /** The neighbour a capture starts from is an opposing stone other than the placed one. */
  lemma CapturableIsMember(board: Snapshot, placed: Stone, d: int)
    requires 0 <= d < 4 && CapturableAt(board, placed, d)
    ensures Member(board, Opponent(placed.turn), [(placed.x, placed.y)], Step((placed.x, placed.y), d))
  {
    StepIsAdjacent((placed.x, placed.y), d);
  }

  /** Every stone of the listed groups is an opposing stone on a point other than the
      placed stone's. */
  lemma CapturedStone(board: Snapshot, placed: Stone, groups: seq<seq<Stone>>, i: int, k: int)
    requires board.WellFormed() && CapturedGroups(board, placed, groups)
    requires 0 <= i < |groups| && 0 <= k < |groups[i]|
    ensures groups[i][k].turn == Opponent(placed.turn)
    ensures Member(board, Opponent(placed.turn), [(placed.x, placed.y)], (groups[i][k].x, groups[i][k].y))
  {
    var p := (placed.x, placed.y);
    var g := groups[i];
    assert IsCapturedGroup(board, placed, g);
    var d :| 0 <= d < 4 && CapturableAt(board, placed, d) && IsGroup(board, Opponent(placed.turn), [p], Step(p, d), g);
    CapturableIsMember(board, placed, d);
    GroupStone(board, Opponent(placed.turn), [p], Step(p, d), g, k);
  }

  /** Every stone of the concatenation comes from one of the groups. */
  lemma {:induction false} FlattenFrom(groups: seq<seq<Stone>>, k: int) returns (i: int, j: int)
    requires 0 <= k < |Flatten(groups)|
    ensures 0 <= i < |groups| && 0 <= j < |groups[i]| && Flatten(groups)[k] == groups[i][j]
    decreases |groups|
  {
    var init := groups[..|groups| - 1];
    var last := groups[|groups| - 1];
    if k < |Flatten(init)| {
      i, j := FlattenFrom(init, k);
      assert groups[i] == init[i];
    } else {
      i, j := |groups| - 1, k - |Flatten(init)|;
    }
  }

  /** Groups that are each duplicate-free and pairwise disjoint concatenate to a list of
      stones on distinct points. */
  lemma {:induction false} FlattenDistinct(groups: seq<seq<Stone>>)
    requires forall i :: 0 <= i < |groups| ==> Distinct(Points(groups[i]))
    requires forall i, j, x :: 0 <= i < j < |groups| && x in Points(groups[i]) ==> x !in Points(groups[j])
    ensures Distinct(Points(Flatten(groups)))
    decreases |groups|
  {
    if groups != [] {
      var init := groups[..|groups| - 1];
      var last := groups[|groups| - 1];
      FlattenDistinct(init);
      var fi := Flatten(init);
      var all := Flatten(groups);
      forall a, b | 0 <= a < b < |all| ensures Points(all)[a] != Points(all)[b] {
        if b < |fi| {
          assert all[a] == fi[a] && all[b] == fi[b];
          assert Points(fi)[a] != Points(fi)[b];
        } else if a >= |fi| {
          assert all[a] == last[a - |fi|] && all[b] == last[b - |fi|];
          assert Points(last)[a - |fi|] != Points(last)[b - |fi|];
        } else {
          var i, j := FlattenFrom(init, a);
          assert groups[i] == init[i];
          assert Points(all)[a] == Points(groups[i])[j];
          assert Points(all)[a] in Points(groups[i]);
          assert all[b] == last[b - |fi|];
          assert Points(all)[b] == Points(last)[b - |fi|];
          assert Points(all)[b] in Points(groups[|groups| - 1]);
        }
      }
    }
  }

  /** Every removed stone is an opposing stone on the board, away from the placed
      stone. */
  lemma CapturedStonesHeld(board: Snapshot, placed: Stone, groups: seq<seq<Stone>>, rs: seq<Stone>)
    requires board.WellFormed() && CapturedGroups(board, placed, groups) && rs == Flatten(groups)
    ensures forall k :: 0 <= k < |rs| ==>
      board.InBounds(rs[k].x, rs[k].y) && (rs[k].x != placed.x || rs[k].y != placed.y) &&
      board.cells[rs[k].x][rs[k].y] == CellOf(rs[k].turn)
  {
    forall k | 0 <= k < |rs|
      ensures board.InBounds(rs[k].x, rs[k].y) && (rs[k].x != placed.x || rs[k].y != placed.y)
      ensures board.cells[rs[k].x][rs[k].y] == CellOf(rs[k].turn)
    {
      var i, j := FlattenFrom(groups, k);
      CapturedStone(board, placed, groups, i, j);
    }
  }

  /** No point is removed twice. */
  lemma CapturedStonesDistinct(board: Snapshot, placed: Stone, groups: seq<seq<Stone>>, rs: seq<Stone>)
    requires CapturedGroups(board, placed, groups) && rs == Flatten(groups)
    ensures forall k, l :: 0 <= k < l < |rs| ==> rs[k].x != rs[l].x || rs[k].y != rs[l].y
  {
    forall i | 0 <= i < |groups| ensures Distinct(Points(groups[i])) {
      assert IsCapturedGroup(board, placed, groups[i]);
    }
    FlattenDistinct(groups);
    forall k, l | 0 <= k < l < |rs| ensures rs[k].x != rs[l].x || rs[k].y != rs[l].y {
      assert Points(rs)[k] != Points(rs)[l];
    }
  }

  /** The stones a capture removes lie on the board, on distinct points, each holding
      its colour once the capturing stone is placed. */
  lemma CapturedStonesRemovable(board: Snapshot, placed: Stone, groups: seq<seq<Stone>>)
    requires board.WellFormed() && board.InBounds(placed.x, placed.y) && CapturedGroups(board, placed, groups)
    ensures StonesOnBoard(board.Size(), Flatten(groups))
    ensures RemoveStones(SetCell(board.cells, placed.x, placed.y, CellOf(placed.turn)), Flatten(groups)).Ok?
  {
    var rs := Flatten(groups);
    CapturedStonesHeld(board, placed, groups, rs);
    CapturedStonesDistinct(board, placed, groups, rs);
    var g := PlacedKeepsOthers(board, placed, rs);
    RemoveStonesSucceeds(g, rs);
  }

  /** Placing a stone keeps every listed stone away from it in its cell. */
  lemma PlacedKeepsOthers(board: Snapshot, placed: Stone, rs: seq<Stone>) returns (g: Grid)
    requires board.WellFormed() && board.InBounds(placed.x, placed.y)
    requires forall k :: 0 <= k < |rs| ==>
      board.InBounds(rs[k].x, rs[k].y) && (rs[k].x != placed.x || rs[k].y != placed.y) &&
      board.cells[rs[k].x][rs[k].y] == CellOf(rs[k].turn)
    ensures g == SetCell(board.cells, placed.x, placed.y, CellOf(placed.turn))
    ensures IsSquare(g, |g|) && |g| == board.Size() && StonesOnBoard(|g|, rs)
    ensures forall k :: 0 <= k < |rs| ==> g[rs[k].x][rs[k].y] == CellOf(rs[k].turn)
  {
    g := SetCell(board.cells, placed.x, placed.y, CellOf(placed.turn));
  }

  /** A placement keeps a consistent game consistent, and never fails on one: in
      particular a capture never finds a removed stone missing from the board. */
  lemma AddStoneKeepsConsistent(dim: BoardSize, st: State, stone: Stone, groups: seq<seq<Stone>>)
    requires Invariant(dim, st) && Consistent(dim, st) && OnBoard(Dim(dim), stone)
    requires StonesOnBoard(Dim(dim), Flatten(groups))
    requires !st.computed.ended && st.computed.Get(stone.x, stone.y) == Empty ==>
      CapturedGroups(st.computed, stone, groups)
    ensures var r := AddStoneSpec(dim, st, stone, groups); r.1.Ok? && Consistent(dim, r.0)
  {
    if st.computed.ended || st.computed.Get(stone.x, stone.y) != Empty {
      return;
    }
    CapturedStonesRemovable(st.computed, stone, groups);
    if |groups| > 0 {
      AppendedKeepsConsistent(dim, st, CaptureStones(stone, Flatten(groups)));
    } else if LibertyOf(st.computed, stone.turn, [], (stone.x, stone.y), (stone.x, stone.y)) {
      AppendedKeepsConsistent(dim, st, AddStone(stone));
    }
  }

  /** A capturing placement adds the number of captured stones to its colour's count and
      leaves the other colour's count alone. */
  lemma CaptureCountAfterCapture(dim: BoardSize, st: State, stone: Stone, groups: seq<seq<Stone>>, t: Turn)
    requires Invariant(dim, st) && OnBoard(Dim(dim), stone) && StonesOnBoard(Dim(dim), Flatten(groups))
    requires |groups| > 0 && AddStoneSpec(dim, st, stone, groups).1 != Ok(false)
    ensures CaptureCount(Visible(AddStoneSpec(dim, st, stone, groups).0), t) ==
      CaptureCount(Visible(st), t) + if t == stone.turn then |Flatten(groups)| else 0
  {
    var after := AddStoneSpec(dim, st, stone, groups).0;
    var a := CaptureStones(stone, Flatten(groups));
    assert Visible(after) == Visible(st) + [a];
    CaptureCountAppend(Visible(st), [a], t);
    assert [a][..0] == [];
  }

  /** `pass` as written reads index -1 from a state that undoing every action reaches. */
  lemma PassAsWrittenIndexOutOfRange(a: Action, c: Snapshot)
    requires ActionOnBoard(9, a) && c.WellFormed() && c.Size() == 9
    ensures var undone := UndoSpec(Size9, State(0, [a], c)).0;
      Invariant(Size9, undone) && |undone.actions| > 0 && |undone.actions| - undone.undoBy - 1 == -1
  {
  }

  /** `pass` as written, after one undo, hides its own Pass and brings the undone
      action back into view. */
  lemma PassAsWrittenShowsUndone(a: Action, b: Action, c: Snapshot, t: Turn)
    requires ActionOnBoard(9, a) && ActionOnBoard(9, b) && !a.Pass? && b != Pass(t)
    requires c.WellFormed() && c.Size() == 9 && !c.ended
    ensures var st := State(1, [a, b], c);
      Invariant(Size9, st) && Visible(st) == [a] &&
      var r := PassAsWritten(Size9, st, t);
      r.1 != Ok(false) && Visible(r.0) == [a, b] && Visible(r.0) != Visible(st) + [Pass(t)]
  {
    var st := State(1, [a, b], c);
    assert Visible(st) == [a];
    var r := PassAsWritten(Size9, st, t);
    assert r.0.actions == [a, b, Pass(t)] && r.0.undoBy == 1;
    assert Visible(r.0) == [a, b];
    assert Visible(st) + [Pass(t)] == [a, Pass(t)];
  }

  /** The loop of `addStone` that collects the removed stones group by group. */
  method FlattenGroups(groups: seq<seq<Stone>>) returns (removed: seq<Stone>)
    ensures removed == Flatten(groups)
  {
    removed := [];
    var i := 0;
    while i < |groups|
      invariant 0 <= i <= |groups|
      invariant removed == Flatten(groups[..i])
    {
      assert groups[..i + 1][..i] == groups[..i];
      removed := removed + groups[i];
      i := i + 1;
    }
    assert groups[..i] == groups;
  }

  // ---------------------------------------------------------------------------
  // The object.

  /** `GoBoardState`. */
  class GoBoardState {
    var undoBy: int
    var actions: seq<Action>
    var computed: Snapshot
    const dim: BoardSize

    /** The abstract value of the object. */
    function Abstract(): State
      reads this
    {
      State(undoBy, actions, computed)
    }

    ghost predicate Valid()
      reads this
    {
      Invariant(dim, Abstract())
    }

    constructor (dim: BoardSize)
      ensures this.dim == dim && Valid() && Abstract() == Cleared(dim)
    {
      this.dim := dim;
      undoBy := 0;
      actions := [];
      computed := EmptySnapshot(Dim(dim));
    }

    /** `handleUndoClear`. */
    method HandleUndoClear()
      requires Valid()
      modifies this
      ensures Valid() && Abstract() == DropUndone(old(Abstract()))
    {
      if undoBy > 0 && |actions| >= undoBy {
        actions := actions[..|actions| - undoBy];
      }
      undoBy := 0;
      LogOnBoardPrefix(Dim(dim), old(actions), |actions|);
    }

    /** `clear`. */
    method Clear()
      modifies this
      ensures Valid() && Abstract() == Cleared(dim)
    {
      actions := [];
      undoBy := 0;
      computed := EmptySnapshot(Dim(dim));
    }

    /** Replay the visible actions into `computed`, or report the error and keep it. */
    method Recomputed() returns (r: Result<bool, ErrorKind>)
      requires 0 <= undoBy <= |actions| && LogOnBoard(Dim(dim), actions)
      requires computed.WellFormed() && computed.Size() == Dim(dim)
      modifies this
      ensures (Abstract(), r) == Recompute(dim, old(Abstract()))
    {
      VisibleOnBoard(dim, Abstract());
      var res := ComputeActions(dim, actions[..|actions| - undoBy]);
      if res.Err? {
        return Err(res.error);
      }
      computed := res.value;
      return Ok(true);
    }

    /** Forget the undone actions, append `a` and replay. */
    method Append(a: Action) returns (r: Result<bool, ErrorKind>)
      requires Valid() && ActionOnBoard(Dim(dim), a)
      modifies this
      ensures (Abstract(), r) == Appended(dim, old(Abstract()), a)
    {
      VisibleOnBoard(dim, Abstract());
      HandleUndoClear();
      LogOnBoardAppend(Dim(dim), actions, a);
      actions := actions + [a];
      r := Recomputed();
    }

    /** `redo`. */
    method Redo() returns (r: Result<bool, ErrorKind>)
      requires Valid()
      modifies this
      ensures Valid() && (Abstract(), r) == RedoSpec(dim, old(Abstract()))
    {
      if undoBy - 1 >= 0 {
        undoBy := undoBy - 1;
        r := Recomputed();
        return;
      }
      return Ok(false);
    }

    /** `undo`. */
    method Undo() returns (r: Result<bool, ErrorKind>)
      requires Valid()
      modifies this
      ensures Valid() && (Abstract(), r) == UndoSpec(dim, old(Abstract()))
    {
      if |actions| - (undoBy + 1) >= 0 {
        undoBy := undoBy + 1;
        r := Recomputed();
        return;
      }
      return Ok(false);
    }

    /** `pass`, forgetting the undone actions before appending. */
    method Pass(turn: Turn) returns (r: Result<bool, ErrorKind>)
      requires Valid()
      modifies this
      ensures Valid() && (Abstract(), r) == PassSpec(dim, old(Abstract()), turn)
    {
      if computed.IsGameEnded() {
        return Ok(false);
      }
      var prevTurn: Option<Turn> := None;
      if |actions| - undoBy > 0 {
        var action := actions[|actions| - undoBy - 1];
        prevTurn := PassTurn(action);
      }
      if prevTurn.None? || prevTurn.value != turn {
        r := Append(Actions.Pass(turn));
        return;
      }
      return Ok(false);
    }

    /** `addStone`; `groups` are the captured groups it computed, when it got that far. */
    method AddStone(stone: Stone) returns (r: Result<bool, ErrorKind>, ghost groups: seq<seq<Stone>>,
                                           ghost dirs: seq<int>)
      requires Valid() && OnBoard(Dim(dim), stone)
      modifies this
      ensures StonesOnBoard(Dim(dim), Flatten(groups))
      ensures !old(computed).ended && old(computed).Get(stone.x, stone.y) == Empty ==>
        CapturedGroups(old(computed), stone, groups) && ScanOrder(old(computed), stone, groups, dirs, 4)
      ensures Valid() && (Abstract(), r) == AddStoneSpec(dim, old(Abstract()), stone, groups)
    {
      groups, dirs := [], [];
      if computed.IsGameEnded() {
        r := Ok(false);
        return;
      }
      var cellState := computed.Get(stone.x, stone.y);
      if cellState != Empty {
        r := Ok(false);
        return;
      }
      var captured;
      captured, dirs := GetCapturedGroups(computed, stone);
      groups := captured;
      CapturedStonesRemovable(computed, stone, captured);
      r := Place(stone, captured);
    }

    /** The part of `addStone` after the point is known to be free: append the capture,
        or the plain placement when it keeps a liberty, or refuse. */
    method Place(stone: Stone, captured: seq<seq<Stone>>) returns (r: Result<bool, ErrorKind>)
      requires Valid() && OnBoard(Dim(dim), stone)
      requires !computed.ended && computed.Get(stone.x, stone.y) == Empty
      requires StonesOnBoard(Dim(dim), Flatten(captured))
      modifies this
      ensures Valid() && (Abstract(), r) == AddStoneSpec(dim, old(Abstract()), stone, captured)
    {
      if |captured| > 0 {
        var removed := FlattenGroups(captured);
        r := Append(CaptureStones(stone, removed));
        return;
      }
      var valid := IsValidStoneIgnoringCapture(computed, stone);
      if valid {
        r := Append(Actions.AddStone(stone));
        return;
      }
      r := Ok(false);
    }

    /** `getCaptures`: the stones captured by colour `turn` in the visible log. */
    method GetCaptures(turn: Turn) returns (captures: int)
      requires Valid()
      ensures captures == CaptureCount(Visible(Abstract()), turn)
    {
      captures := 0;
      var n := |actions| - undoBy;
      var i := 0;
      while i < n
        invariant 0 <= i <= n
        invariant captures == CaptureCount(actions[..i], turn)
      {
        var action := actions[i];
        assert actions[..i + 1][..i] == actions[..i];
        if action.CaptureStones? && action.capturingStone.turn == turn {
          captures := captures + |action.removedStones|;
        }
        i := i + 1;
      }
    }

    /** `getActions`. */
    method GetActions() returns (log: seq<Action>)
      ensures log == actions
    {
      return actions;
    }

    /** `getComputed`. */
    method GetComputed() returns (snapshot: Snapshot)
      ensures snapshot == computed
    {
      return computed;
    }
  }
}
