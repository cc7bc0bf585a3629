/** The test suite: the two 9x9 positions it checks, the placements and captures it
    expects on them, and the engine move it encodes and decodes. Each test method
    calls the operations under test exactly as the suite does and is proved to
    return true. */
module Fixtures {
  import opened Wrappers
  import opened Base
  import opened Board
  import opened Rules
  import opened Codec
  import opened Groups

  const E: Cell := Empty
  const X: Cell := BlackCell
  const O: Cell := WhiteCell

  /** The position of the capture tests. */
  const CaptureBoard: Snapshot := Snapshot([
    [E, E, E, E, E, E, E, X, O],
    [E, E, X, E, E, E, E, E, E],
    [E, X, O, X, E, E, E, E, E],
    [E, X, O, X, X, O, E, E, E],
    [E, X, O, O, O, E, O, E, E],
    [E, X, O, X, X, E, E, E, E],
    [E, E, X, E, E, E, E, E, E],
    [E, E, E, E, E, X, X, E, E],
    [E, E, E, E, X, O, O, O, X]
  ], None, false)

  /** The position of the placement tests. */
  const PlacementBoard: Snapshot := Snapshot([
    [X, E, E, E, E, E, E, X, E],
    [E, X, E, E, E, E, X, E, X],
    [X, E, E, O, E, E, X, O, X],
    [E, E, O, E, O, E, X, O, X],
    [E, E, E, O, E, E, X, O, X],
    [E, E, E, E, E, E, E, X, E],
    [E, O, E, E, E, E, E, E, E],
    [O, X, O, E, E, E, E, E, E],
    [X, E, X, O, E, E, E, E, E]
  ], None, false)

  lemma BoardsWellFormed()
    ensures CaptureBoard.WellFormed() && CaptureBoard.Size() == 9
    ensures PlacementBoard.WellFormed() && PlacementBoard.Size() == 9
  {
  }

  /** A closed set of points holding `s`, whose only empty neighbour is `excl`: the
      group of `s` touches no empty point but `excl`. */
  lemma NoLibertyInClosed(board: Snapshot, target: Turn, avoid: seq<Pos>, xs: seq<Pos>, s: Pos, excl: Pos)
    requires s in xs && ClosedSeq(board, target, avoid, xs)
    requires forall q, d :: q in xs && 0 <= d < 4 && IsEmptyAt(board, Step(q, d)) ==> Step(q, d) == excl
    ensures !LibertyOf(board, target, avoid, s, excl)
  {
    forall q, d | 0 <= d < 4 && Reach(board, target, avoid, s, q)
      ensures !(IsEmptyAt(board, Step(q, d)) && Step(q, d) != excl)
    {
      ReachInClosed(board, target, avoid, xs, s, q);
    }
  }

  /** An empty neighbour of a reached point other than `excl` is a liberty. */
  lemma LibertyAt(board: Snapshot, target: Turn, avoid: seq<Pos>, s: Pos, q: Pos, d: int, excl: Pos)
    requires 0 <= d < 4 && Reach(board, target, avoid, s, q)
    requires IsEmptyAt(board, Step(q, d)) && Step(q, d) != excl
    ensures LibertyOf(board, target, avoid, s, excl)
  {
  }

  /** A placement does not capture through `d` when the neighbour there has an empty
      neighbour of its own other than the placed point. */
  lemma KeepsLiberty(board: Snapshot, placed: Stone, d: int, e: int)
    requires 0 <= d < 4 && 0 <= e < 4
    requires IsEmptyAt(board, Step(Step((placed.x, placed.y), d), e))
    requires Step(Step((placed.x, placed.y), d), e) != (placed.x, placed.y)
    ensures !CapturableAt(board, placed, d)
  {
    var p := (placed.x, placed.y);
    var n := Step(p, d);
    ReachStart(board, Opponent(placed.turn), [p], n);
    LibertyAt(board, Opponent(placed.turn), [p], n, n, e, p);
  }

  /** A placement captures through `d` when the neighbour there is an opposing stone
      inside a closed set whose only empty neighbour is the placed point. */
  lemma CapturesThrough(board: Snapshot, placed: Stone, d: int, xs: seq<Pos>)
    requires 0 <= d < 4
    requires OnGrid(board, Step((placed.x, placed.y), d))
    requires CellAt(board, Step((placed.x, placed.y), d)) == CellOf(Opponent(placed.turn))
    requires Step((placed.x, placed.y), d) in xs
    requires ClosedSeq(board, Opponent(placed.turn), [(placed.x, placed.y)], xs)
    requires forall q, e :: q in xs && 0 <= e < 4 && IsEmptyAt(board, Step(q, e)) ==> Step(q, e) == (placed.x, placed.y)
    ensures CapturableAt(board, placed, d)
  {
    var p := (placed.x, placed.y);
    NoLibertyInClosed(board, Opponent(placed.turn), [p], xs, Step(p, d), p);
  }

  /** The captures of a placement that captures through the single direction `d0`,
      the group there being `xs`: one group, made of the opposing stones on `xs`, each
      point once. */
  lemma CapturedExactly(board: Snapshot, placed: Stone, d0: int, xs: seq<Pos>, captured: seq<seq<Stone>>)
    requires 0 <= d0 < 4 && CapturableAt(board, placed, d0)
    requires forall d :: 0 <= d < 4 && CapturableAt(board, placed, d) ==> d == d0
    requires forall x :: x in xs <==>
      Reach(board, Opponent(placed.turn), [(placed.x, placed.y)], Step((placed.x, placed.y), d0), x)
    requires CapturedGroups(board, placed, captured)
    ensures |captured| == 1 && Distinct(Points(captured[0]))
    ensures forall s :: s in captured[0] <==> s.turn == Opponent(placed.turn) && (s.x, s.y) in xs
  {
    var p := (placed.x, placed.y);
    var n := Step(p, d0);
    var t := Opponent(placed.turn);
    forall i | 0 <= i < |captured|
      ensures IsGroup(board, t, [p], n, captured[i]) && n in Points(captured[i])
    {
      assert IsCapturedGroup(board, placed, captured[i]);
      assert Points(captured[i])[0] == n;
    }
    assert |captured| >= 1;
    var second := if |captured| > 1 then 1 else 0;
    assert n in Points(captured[0]) && n in Points(captured[second]);
    var g := captured[0];
    forall s ensures s in g <==> s.turn == t && (s.x, s.y) in xs {
      if s in g {
        var k :| 0 <= k < |g| && g[k] == s;
        assert Points(g)[k] == (s.x, s.y);
      }
      if s.turn == t && (s.x, s.y) in xs {
        assert (s.x, s.y) in Points(g);
        var k :| 0 <= k < |g| && Points(g)[k] == (s.x, s.y);
        assert g[k] == s;
      }
    }
  }

  /** A placement capturing through the single direction `d0`, the group there being
      `xs`, captures what the test expects when the expected groups are one group made
      of the opposing stones on `xs`, each point once. */
  lemma CapturesAsExpected(board: Snapshot, placed: Stone, d0: int, xs: seq<Pos>, expected: seq<seq<Stone>>,
                           captured: seq<seq<Stone>>)
    requires 0 <= d0 < 4 && CapturableAt(board, placed, d0)
    requires forall d :: 0 <= d < 4 && CapturableAt(board, placed, d) ==> d == d0
    requires forall x :: x in xs <==>
      Reach(board, Opponent(placed.turn), [(placed.x, placed.y)], Step((placed.x, placed.y), d0), x)
    requires |expected| == 1 && Distinct(Points(expected[0]))
    requires forall s :: s in expected[0] <==> s.turn == Opponent(placed.turn) && (s.x, s.y) in xs
    requires CapturedGroups(board, placed, captured)
    ensures Canonical(expected) == Canonical(captured)
  {
    CapturedExactly(board, placed, d0, xs, captured);
    assert captured == [captured[0]] && expected == [expected[0]];
    SingleGroupsEqual(expected[0], captured[0]);
  }

  // ---- testCaptureGroups[0]: Black at (4, 5) takes the six-stone group on its left.

  const Group0: seq<Pos> := [(4, 4), (4, 3), (4, 2), (3, 2), (2, 2), (5, 2)]

  const Expected0: seq<seq<Stone>> := [[Stone(White, 2, 2), Stone(White, 3, 2), Stone(White, 4, 2),
                                         Stone(White, 5, 2), Stone(White, 4, 3), Stone(White, 4, 4)]]

  lemma Group0Closed()
    ensures ClosedSeq(CaptureBoard, White, [(4, 5)], Group0)
    ensures forall q, d :: q in Group0 && 0 <= d < 4 && IsEmptyAt(CaptureBoard, Step(q, d)) ==> Step(q, d) == (4, 5)
  {
  }

  lemma Group0Spans()
    ensures forall x :: x in Group0 ==> Reach(CaptureBoard, White, [(4, 5)], (4, 4), x)
  {
    var b, a := CaptureBoard, [(4, 5)];
    ReachStart(b, White, a, (4, 4));
    ReachExtend(b, White, a, (4, 4), (4, 4), (4, 3));
    ReachExtend(b, White, a, (4, 4), (4, 3), (4, 2));
    ReachExtend(b, White, a, (4, 4), (4, 2), (3, 2));
    ReachExtend(b, White, a, (4, 4), (3, 2), (2, 2));
    ReachExtend(b, White, a, (4, 4), (4, 2), (5, 2));
  }

  /** The points connected to (4, 4) through white stones, (4, 5) taken, are those of
      the group. */
  lemma Group0Reached()
    ensures forall x :: x in Group0 <==> Reach(CaptureBoard, White, [(4, 5)], (4, 4), x)
  {
    Group0Spans();
    Group0Closed();
    forall x | Reach(CaptureBoard, White, [(4, 5)], (4, 4), x) ensures x in Group0 {
      ReachInClosed(CaptureBoard, White, [(4, 5)], Group0, (4, 4), x);
    }
  }

  lemma Expected0Stones()
    ensures Distinct(Points(Expected0[0]))
    ensures forall s :: s in Expected0[0] <==> s.turn == White && (s.x, s.y) in Group0
  {
  }

  lemma Capture0Up()
    ensures CapturableAt(CaptureBoard, Stone(Black, 4, 5), 0)
  {
    Group0Closed();
    CapturesThrough(CaptureBoard, Stone(Black, 4, 5), 0, Group0);
  }

  lemma Capture0Right()
    ensures !CapturableAt(CaptureBoard, Stone(Black, 4, 5), 1)
  {
  }

  lemma Capture0Down()
    ensures !CapturableAt(CaptureBoard, Stone(Black, 4, 5), 2)
  {
    KeepsLiberty(CaptureBoard, Stone(Black, 4, 5), 2, 2);
  }

  lemma Capture0Left()
    ensures !CapturableAt(CaptureBoard, Stone(Black, 4, 5), 3)
  {
    KeepsLiberty(CaptureBoard, Stone(Black, 4, 5), 3, 2);
  }

  /** Black at (4, 5) captures upwards only: right of it is empty, and the white
      stones below and left of it keep a liberty. */
  lemma Capture0Directions()
    ensures CapturableAt(CaptureBoard, Stone(Black, 4, 5), 0)
    ensures forall d :: 0 <= d < 4 && CapturableAt(CaptureBoard, Stone(Black, 4, 5), d) ==> d == 0
  {
    Capture0Up();
    Capture0Right();
    Capture0Down();
    Capture0Left();
  }

  lemma CaptureFixture0(captured: seq<seq<Stone>>)
    requires CapturedGroups(CaptureBoard, Stone(Black, 4, 5), captured)
    ensures Canonical(Expected0) == Canonical(captured)
  {
    Capture0Directions();
    Group0Reached();
    Expected0Stones();
    CapturesAsExpected(CaptureBoard, Stone(Black, 4, 5), 0, Group0, Expected0, captured);
  }

  // ---- testCaptureGroups[1]: Black at (1, 8) takes the white corner stone.

  const Group1: seq<Pos> := [(0, 8)]

  const Expected1: seq<seq<Stone>> := [[Stone(White, 0, 8)]]

  lemma Group1Closed()
    ensures ClosedSeq(CaptureBoard, White, [(1, 8)], Group1)
    ensures forall q, d :: q in Group1 && 0 <= d < 4 && IsEmptyAt(CaptureBoard, Step(q, d)) ==> Step(q, d) == (1, 8)
  {
  }

  lemma Group1Reached()
    ensures forall x :: x in Group1 <==> Reach(CaptureBoard, White, [(1, 8)], (0, 8), x)
  {
    ReachStart(CaptureBoard, White, [(1, 8)], (0, 8));
    Group1Closed();
    forall x | Reach(CaptureBoard, White, [(1, 8)], (0, 8), x) ensures x in Group1 {
      ReachInClosed(CaptureBoard, White, [(1, 8)], Group1, (0, 8), x);
    }
  }

  lemma Capture1Left()
    ensures CapturableAt(CaptureBoard, Stone(Black, 1, 8), 3)
  {
    Group1Closed();
    CapturesThrough(CaptureBoard, Stone(Black, 1, 8), 3, Group1);
  }

  lemma Capture1Elsewhere()
    ensures !CapturableAt(CaptureBoard, Stone(Black, 1, 8), 0)
    ensures !CapturableAt(CaptureBoard, Stone(Black, 1, 8), 1)
    ensures !CapturableAt(CaptureBoard, Stone(Black, 1, 8), 2)
  {
  }

  /** Black at (1, 8) captures towards the edge only: the points above and below it
      are empty, and the board ends to its right. */
  lemma Expected1Stones()
    ensures Distinct(Points(Expected1[0]))
    ensures forall s :: s in Expected1[0] <==> s.turn == White && (s.x, s.y) in Group1
  {
  }

  lemma Capture1Directions()
    ensures CapturableAt(CaptureBoard, Stone(Black, 1, 8), 3)
    ensures forall d :: 0 <= d < 4 && CapturableAt(CaptureBoard, Stone(Black, 1, 8), d) ==> d == 3
  {
    Capture1Left();
    Capture1Elsewhere();
  }

  lemma CaptureFixture1(captured: seq<seq<Stone>>)
    requires CapturedGroups(CaptureBoard, Stone(Black, 1, 8), captured)
    ensures Canonical(Expected1) == Canonical(captured)
  {
    Capture1Directions();
    Group1Reached();
    Expected1Stones();
    CapturesAsExpected(CaptureBoard, Stone(Black, 1, 8), 3, Group1, Expected1, captured);
  }

  // ---- testCaptureGroups[2]: Black at (7, 7) takes the three white stones on the edge.

  const Group2: seq<Pos> := [(8, 7), (8, 6), (8, 5)]

  const Expected2: seq<seq<Stone>> := [[Stone(White, 8, 5), Stone(White, 8, 6), Stone(White, 8, 7)]]

  lemma Group2Closed()
    ensures ClosedSeq(CaptureBoard, White, [(7, 7)], Group2)
    ensures forall q, d :: q in Group2 && 0 <= d < 4 && IsEmptyAt(CaptureBoard, Step(q, d)) ==> Step(q, d) == (7, 7)
  {
  }

  lemma Group2Reached()
    ensures forall x :: x in Group2 <==> Reach(CaptureBoard, White, [(7, 7)], (8, 7), x)
  {
    var b, a := CaptureBoard, [(7, 7)];
    ReachStart(b, White, a, (8, 7));
    ReachExtend(b, White, a, (8, 7), (8, 7), (8, 6));
    ReachExtend(b, White, a, (8, 7), (8, 6), (8, 5));
    Group2Closed();
    forall x | Reach(b, White, a, (8, 7), x) ensures x in Group2 {
      ReachInClosed(b, White, a, Group2, (8, 7), x);
    }
  }

  lemma Capture2Down()
    ensures CapturableAt(CaptureBoard, Stone(Black, 7, 7), 1)
  {
    Group2Closed();
    CapturesThrough(CaptureBoard, Stone(Black, 7, 7), 1, Group2);
  }

  lemma Capture2Elsewhere()
    ensures !CapturableAt(CaptureBoard, Stone(Black, 7, 7), 0)
    ensures !CapturableAt(CaptureBoard, Stone(Black, 7, 7), 2)
    ensures !CapturableAt(CaptureBoard, Stone(Black, 7, 7), 3)
  {
  }

  /** Black at (7, 7) captures towards the last row only: above it is a black stone,
      and the points left and right of it are empty. */
  lemma Expected2Stones()
    ensures Distinct(Points(Expected2[0]))
    ensures forall s :: s in Expected2[0] <==> s.turn == White && (s.x, s.y) in Group2
  {
  }

  lemma Capture2Directions()
    ensures CapturableAt(CaptureBoard, Stone(Black, 7, 7), 1)
    ensures forall d :: 0 <= d < 4 && CapturableAt(CaptureBoard, Stone(Black, 7, 7), d) ==> d == 1
  {
    Capture2Down();
    Capture2Elsewhere();
  }

  lemma CaptureFixture2(captured: seq<seq<Stone>>)
    requires CapturedGroups(CaptureBoard, Stone(Black, 7, 7), captured)
    ensures Canonical(Expected2) == Canonical(captured)
  {
    Capture2Directions();
    Group2Reached();
    Expected2Stones();
    CapturesAsExpected(CaptureBoard, Stone(Black, 7, 7), 1, Group2, Expected2, captured);
  }

  /** `testCaptureGroups`: each placement captures exactly the expected groups. */
  method TestCaptureGroups() returns (ok: bool)
    ensures ok
  {
    BoardsWellFormed();
    var groups0, _ := GetCapturedGroups(CaptureBoard, Stone(Black, 4, 5));
    var test0 := AreGroupsEqual(Expected0, groups0);
    CaptureFixture0(groups0);

    var groups1, _ := GetCapturedGroups(CaptureBoard, Stone(Black, 1, 8));
    var test1 := AreGroupsEqual(Expected1, groups1);
    CaptureFixture1(groups1);

    var groups2, _ := GetCapturedGroups(CaptureBoard, Stone(Black, 7, 7));
    var test2 := AreGroupsEqual(Expected2, groups2);
    CaptureFixture2(groups2);

    ok := test0 && test1 && test2;
  }

  // ---- testValidPlacement

  /** White at (1, 0) is boxed in by black stones and the edge. */
  lemma Placement0()
    ensures !LibertyOf(PlacementBoard, White, [], (1, 0), (1, 0))
  {
    NoLibertyInClosed(PlacementBoard, White, [], [(1, 0)], (1, 0), (1, 0));
  }

  /** White at (8, 1) has no liberty of its own: black stones and the edge surround it. */
  lemma Placement1Alone()
    ensures !LibertyOf(PlacementBoard, White, [], (8, 1), (8, 1))
  {
    NoLibertyInClosed(PlacementBoard, White, [], [(8, 1)], (8, 1), (8, 1));
  }

  /** White at (8, 1) takes the black corner stone at (8, 0). */
  lemma Placement1Captures()
    ensures CapturableAt(PlacementBoard, Stone(White, 8, 1), 0)
  {
    CapturesThrough(PlacementBoard, Stone(White, 8, 1), 0, [(8, 0)]);
  }

  /** White at (3, 3) joins the white stone at (3, 2), which has an empty point beside it. */
  lemma Placement2()
    ensures LibertyOf(PlacementBoard, White, [], (3, 3), (3, 3))
  {
    ReachStart(PlacementBoard, White, [], (3, 3));
    ReachExtend(PlacementBoard, White, [], (3, 3), (3, 3), (3, 2));
    LibertyAt(PlacementBoard, White, [], (3, 3), (3, 2), 0, (3, 3));
  }

  /** White at (1, 7) joins a white column closed in by black stones. */
  lemma Placement3()
    ensures !LibertyOf(PlacementBoard, White, [], (1, 7), (1, 7))
  {
    NoLibertyInClosed(PlacementBoard, White, [], [(1, 7), (2, 7), (3, 7), (4, 7)], (1, 7), (1, 7));
  }

  /** `testValidPlacement`: the four placements are judged as the suite expects. */
  method TestValidPlacement() returns (ok: bool)
    ensures ok
  {
    BoardsWellFormed();
    Placement0();
    Placement1Alone();
    Placement1Captures();
    Placement2();
    Placement3();
    var test0 := IsValidStoneIgnoringCapture(PlacementBoard, Stone(White, 1, 0));
    var test1 := IsValidStone(PlacementBoard, Stone(White, 8, 1));
    var test2 := IsValidStoneIgnoringCapture(PlacementBoard, Stone(White, 3, 3));
    var test3 := IsValidStoneIgnoringCapture(PlacementBoard, Stone(White, 1, 7));
    ok := !test0 && test1 && test2 && !test3;
  }

  // ---- testValidKatago

  /** `testValidKatago`: Black at (4, 8) on the 9x9 board is written in column 'J',
      the letter 'I' being skipped, and reads back as the same stone. */
  method TestValidKatago() returns (ok: bool)
    ensures ok
  {
    var stone := Stone(Black, 4, 8);
    var move := StoneToMove(Size9, stone);
    ColumnLetterSkipsI(8);
    var test0 := move[1][0] == 'J';
    var calStone := MoveToStone(Size9, move);
    MoveRoundTrip(Size9, stone);
    var test1 := calStone == Some(stone);
    ok := test0 && test1;
  }

  /** `isTestPassed`: every self-test passes. */
  method IsTestPassed() returns (ok: bool)
    ensures ok
  {
    var captures := TestCaptureGroups();
    var placements := TestValidPlacement();
    var codec := TestValidKatago();
    ok := captures && placements && codec;
  }
}
