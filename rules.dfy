/** The rule manager: breadth-first exploration of a group and its liberties, the
    groups a placed stone captures, and whether a placement is allowed. Reachability
    through stones of one colour is stated with paths, so that each search is proved
    to find exactly the connected group it starts from. */
module Rules {
  import opened Wrappers
  import opened Base
  import opened Board

  /** A point (x, y) of the board. */
  type Pos = (int, int)

  /** The four offsets in the order the searches visit them: up, right, down, left. */
  const Directions: seq<(int, int)> := [(0, -1), (1, 0), (0, 1), (-1, 0)]

  /** The neighbour of `p` in direction `d`. */
  function Step(p: Pos, d: int): Pos
    requires 0 <= d < 4
  {
    (p.0 + Directions[d].0, p.1 + Directions[d].1)
  }

  /** `a` and `b` differ by one in exactly one coordinate. */
  predicate Adjacent(a: Pos, b: Pos) {
    (a.0 == b.0 && (a.1 - b.1 == 1 || b.1 - a.1 == 1)) ||
    (a.1 == b.1 && (a.0 - b.0 == 1 || b.0 - a.0 == 1))
  }

  /** The direction leading from `a` to an adjacent `b`. */
  function DirectionTo(a: Pos, b: Pos): (d: int)
    requires Adjacent(a, b)
    ensures 0 <= d < 4 && Step(a, d) == b
  {
    if b.1 == a.1 - 1 then 0 else if b.0 == a.0 + 1 then 1 else if b.1 == a.1 + 1 then 2 else 3
  }

  /** The four directions lead exactly to the adjacent points. */
  lemma StepIsAdjacent(p: Pos, d: int)
    requires 0 <= d < 4
    ensures Adjacent(p, Step(p, d)) && Adjacent(Step(p, d), p) && Step(p, d) != p
  {
  }

  predicate OnGrid(board: Snapshot, p: Pos) {
    board.InBounds(p.0, p.1)
  }

  /** The cell at `p`, read as empty off the grid. */
  function CellAt(board: Snapshot, p: Pos): Cell {
    if 0 <= p.0 < |board.cells| && 0 <= p.1 < |board.cells[p.0]| then board.cells[p.0][p.1] else Empty
  }

  predicate IsEmptyAt(board: Snapshot, p: Pos)
  {
    OnGrid(board, p) && CellAt(board, p) == Empty
  }

  /** `p` holds a stone of colour `target` and is not one of the points to avoid. */
  predicate Member(board: Snapshot, target: Turn, avoid: seq<Pos>, p: Pos)
  {
    OnGrid(board, p) && CellAt(board, p) == CellOf(target) && p !in avoid
  }

  /** Step `i` of a walk enters a member next to the point before it. */
  ghost predicate Link(board: Snapshot, target: Turn, avoid: seq<Pos>, path: seq<Pos>, i: int)
    requires 1 <= i < |path|
  {
    Member(board, target, avoid, path[i]) && Adjacent(path[i - 1], path[i])
  }

  /** A walk from `s` whose every later point is a member next to its predecessor. */
  ghost predicate IsPath(board: Snapshot, target: Turn, avoid: seq<Pos>, s: Pos, path: seq<Pos>)
  {
    |path| >= 1 && path[0] == s &&
    forall i :: 1 <= i < |path| ==> Link(board, target, avoid, path, i)
  }

  /** `q` is connected to `s` through stones of colour `target` outside `avoid`. */
  ghost predicate Reach(board: Snapshot, target: Turn, avoid: seq<Pos>, s: Pos, q: Pos)
  {
    exists path :: IsPath(board, target, avoid, s, path) && path[|path| - 1] == q
  }

  /** Every member next to a point of `xs` is itself in `xs`. */
  ghost predicate ClosedSeq(board: Snapshot, target: Turn, avoid: seq<Pos>, xs: seq<Pos>)
  {
    forall p, d :: p in xs && 0 <= d < 4 && Member(board, target, avoid, Step(p, d)) ==> Step(p, d) in xs
  }

  /** The group reached from `s` touches an empty point other than `excl`. */
  ghost predicate LibertyOf(board: Snapshot, target: Turn, avoid: seq<Pos>, s: Pos, excl: Pos)
  {
    exists q, d :: 0 <= d < 4 && Reach(board, target, avoid, s, q) && IsEmptyAt(board, Step(q, d)) && Step(q, d) != excl
  }

  /** What the search counts as a liberty: an empty point that is not marked and is not
      the starting point. */
  predicate IsLib(board: Snapshot, seen: seq<Pos>, s: Pos, p: Pos)
  {
    IsEmptyAt(board, p) && p !in seen && p != s
  }

  ghost predicate SomeLiberty(board: Snapshot, seen: seq<Pos>, s: Pos, pts: seq<Pos>)
  {
    exists k, d :: 0 <= k < |pts| && 0 <= d < 4 && IsLib(board, seen, s, Step(pts[k], d))
  }

  predicate Distinct(xs: seq<Pos>) {
    forall i, j :: 0 <= i < j < |xs| ==> xs[i] != xs[j]
  }

  /** The points of the stones, in order. */
  function Points(stones: seq<Stone>): (ps: seq<Pos>)
    ensures |ps| == |stones| && forall k :: 0 <= k < |stones| ==> ps[k] == (stones[k].x, stones[k].y)
  {
    seq(|stones|, k requires 0 <= k < |stones| => (stones[k].x, stones[k].y))
  }

  /** The marks of `visited` are exactly the points of `marked` on the board. */
  ghost predicate Marks(visited: array2<bool>, marked: seq<Pos>)
    reads visited
  {
    forall i, j {:trigger visited[i, j]} :: 0 <= i < visited.Length0 && 0 <= j < visited.Length1 ==>
      (visited[i, j] <==> (i, j) in marked)
  }

  lemma SeqAssoc<T>(a: seq<T>, b: seq<T>, c: seq<T>)
    ensures (a + b) + c == a + (b + c)
  {
  }

  lemma SliceSnoc<T>(xs: seq<T>, i: int, x: T)
    requires 0 <= i <= |xs|
    ensures (xs + [x])[i..] == xs[i..] + [x]
  {
  }

  // ---------------------------------------------------------------------------
  // Facts about reachability.

  lemma ReachStart(board: Snapshot, target: Turn, avoid: seq<Pos>, s: Pos)
    ensures Reach(board, target, avoid, s, s)
  {
    assert IsPath(board, target, avoid, s, [s]);
  }

  lemma ReachExtend(board: Snapshot, target: Turn, avoid: seq<Pos>, s: Pos, q: Pos, n: Pos)
    requires Reach(board, target, avoid, s, q) && Member(board, target, avoid, n) && Adjacent(q, n)
    ensures Reach(board, target, avoid, s, n)
  {
    var path :| IsPath(board, target, avoid, s, path) && path[|path| - 1] == q;
    var longer := path + [n];
    forall i | 1 <= i < |longer| ensures Link(board, target, avoid, longer, i) {
      if i < |path| {
        assert Link(board, target, avoid, path, i);
      }
    }
    assert IsPath(board, target, avoid, s, longer);
    assert longer[|longer| - 1] == n;
  }

  /** Every point after the start of a path is a member. */
  lemma ReachIsMember(board: Snapshot, target: Turn, avoid: seq<Pos>, s: Pos, q: Pos)
    requires Reach(board, target, avoid, s, q) && q != s
    ensures Member(board, target, avoid, q)
  {
    var path :| IsPath(board, target, avoid, s, path) && path[|path| - 1] == q;
    assert Link(board, target, avoid, path, |path| - 1);
  }

  lemma {:induction false} PathStaysInClosed(board: Snapshot, target: Turn, avoid: seq<Pos>, xs: seq<Pos>,
                                             s: Pos, path: seq<Pos>, i: int)
    requires IsPath(board, target, avoid, s, path) && s in xs && ClosedSeq(board, target, avoid, xs)
    requires 0 <= i < |path|
    ensures path[i] in xs
    decreases i
  {
    if i > 0 {
      PathStaysInClosed(board, target, avoid, xs, s, path, i - 1);
      assert Link(board, target, avoid, path, i);
      var d := DirectionTo(path[i - 1], path[i]);
      assert Member(board, target, avoid, Step(path[i - 1], d));
    }
  }

  /** A closed set of points that holds the start holds everything reachable from it. */
  lemma ReachInClosed(board: Snapshot, target: Turn, avoid: seq<Pos>, xs: seq<Pos>, s: Pos, q: Pos)
    requires s in xs && ClosedSeq(board, target, avoid, xs) && Reach(board, target, avoid, s, q)
    ensures q in xs
  {
    var path :| IsPath(board, target, avoid, s, path) && path[|path| - 1] == q;
    PathStaysInClosed(board, target, avoid, xs, s, path, |path| - 1);
  }

  lemma {:induction false} PathAvoidsClosed(board: Snapshot, target: Turn, avoid: seq<Pos>, g: seq<Pos>,
                                            s: Pos, path: seq<Pos>, i: int)
    requires IsPath(board, target, avoid, s, path) && Member(board, target, avoid, s)
    requires s !in g && ClosedSeq(board, target, avoid, g)
    requires 0 <= i < |path|
    ensures path[i] !in g
    decreases i
  {
    if i > 0 {
      PathAvoidsClosed(board, target, avoid, g, s, path, i - 1);
      assert Link(board, target, avoid, path, i);
      if i > 1 {
        assert Link(board, target, avoid, path, i - 1);
      }
      var d := DirectionTo(path[i], path[i - 1]);
      assert Member(board, target, avoid, Step(path[i], d));
    }
  }

  /** A closed set that misses a member start is never entered from it: avoiding it too
      changes nothing. */
  lemma ReachAvoidsClosed(board: Snapshot, target: Turn, avoid: seq<Pos>, g: seq<Pos>, s: Pos, q: Pos)
    requires Member(board, target, avoid, s) && s !in g && ClosedSeq(board, target, avoid, g)
    ensures Reach(board, target, avoid + g, s, q) <==> Reach(board, target, avoid, s, q)
  {
    if Reach(board, target, avoid, s, q) {
      var path :| IsPath(board, target, avoid, s, path) && path[|path| - 1] == q;
      forall i | 1 <= i < |path| ensures Link(board, target, avoid + g, path, i) {
        PathAvoidsClosed(board, target, avoid, g, s, path, i);
        assert Link(board, target, avoid, path, i);
      }
      assert IsPath(board, target, avoid + g, s, path);
    }
    if Reach(board, target, avoid + g, s, q) {
      var path :| IsPath(board, target, avoid + g, s, path) && path[|path| - 1] == q;
      forall i | 1 <= i < |path| ensures Link(board, target, avoid, path, i) {
        assert Link(board, target, avoid + g, path, i);
      }
      assert IsPath(board, target, avoid, s, path);
    }
  }

  /** Connection is symmetric between members. */
  lemma ReachSymmetric(board: Snapshot, target: Turn, avoid: seq<Pos>, s: Pos, q: Pos)
    requires Member(board, target, avoid, s) && Reach(board, target, avoid, s, q)
    ensures Reach(board, target, avoid, q, s)
  {
    var path :| IsPath(board, target, avoid, s, path) && path[|path| - 1] == q;
    var back := seq(|path|, i requires 0 <= i < |path| => path[|path| - 1 - i]);
    forall i | 1 <= i < |back| ensures Link(board, target, avoid, back, i) {
      var j := |path| - 1 - i;
      assert back[i] == path[j] && back[i - 1] == path[j + 1];
      assert Link(board, target, avoid, path, j + 1);
      if j > 0 {
        assert Link(board, target, avoid, path, j);
      }
    }
    assert IsPath(board, target, avoid, q, back);
  }

  /** Connection is transitive. */
  lemma ReachTransitive(board: Snapshot, target: Turn, avoid: seq<Pos>, s: Pos, t: Pos, q: Pos)
    requires Reach(board, target, avoid, s, t) && Reach(board, target, avoid, t, q)
    ensures Reach(board, target, avoid, s, q)
  {
    var p1 :| IsPath(board, target, avoid, s, p1) && p1[|p1| - 1] == t;
    var p2 :| IsPath(board, target, avoid, t, p2) && p2[|p2| - 1] == q;
    var joined := p1 + p2[1..];
    forall i | 1 <= i < |joined| ensures Link(board, target, avoid, joined, i) {
      if i < |p1| {
        assert joined[i] == p1[i] && joined[i - 1] == p1[i - 1];
        assert Link(board, target, avoid, p1, i);
      } else {
        assert joined[i] == p2[i - |p1| + 1];
        assert joined[i - 1] == p2[i - |p1|];
        assert Link(board, target, avoid, p2, i - |p1| + 1);
      }
    }
    assert IsPath(board, target, avoid, s, joined);
    assert joined[|joined| - 1] == q;
  }

  /** All members of one connected group share the group's liberties. */
  lemma LibertySpreads(board: Snapshot, target: Turn, avoid: seq<Pos>, s: Pos, p: Pos, excl: Pos)
    requires Member(board, target, avoid, s) && Reach(board, target, avoid, s, p)
    requires LibertyOf(board, target, avoid, s, excl)
    ensures LibertyOf(board, target, avoid, p, excl)
  {
    var q, d :| 0 <= d < 4 && Reach(board, target, avoid, s, q) && IsEmptyAt(board, Step(q, d)) && Step(q, d) != excl;
    ReachSymmetric(board, target, avoid, s, p);
    ReachTransitive(board, target, avoid, p, s, q);
  }

  /** The set of points reached from a start is closed. */
  lemma ReachSetClosed(board: Snapshot, target: Turn, avoid: seq<Pos>, s: Pos, xs: seq<Pos>)
    requires forall p :: p in xs <==> Reach(board, target, avoid, s, p)
    ensures ClosedSeq(board, target, avoid, xs)
  {
    forall p, d | p in xs && 0 <= d < 4 && Member(board, target, avoid, Step(p, d))
      ensures Step(p, d) in xs
    {
      StepIsAdjacent(p, d);
      ReachExtend(board, target, avoid, s, p, Step(p, d));
    }
  }

  lemma ClosedUnion(board: Snapshot, target: Turn, avoid: seq<Pos>, xs: seq<Pos>, ys: seq<Pos>)
    requires ClosedSeq(board, target, avoid, xs) && ClosedSeq(board, target, avoid, ys)
    ensures ClosedSeq(board, target, avoid, xs + ys)
  {
  }

  /** The liberties the search counts are the liberties of the group, once the marked
      points and the start are known to be the excluded point as far as empty points go. */
  lemma SomeLibertyIsLibertyOf(board: Snapshot, target: Turn, avoid: seq<Pos>, seen: seq<Pos>,
                               s: Pos, pts: seq<Pos>, excl: Pos)
    requires forall p :: p in pts <==> Reach(board, target, avoid, s, p)
    requires forall x :: IsEmptyAt(board, x) ==> (x !in seen && x != s <==> x != excl)
    ensures SomeLiberty(board, seen, s, pts) <==> LibertyOf(board, target, avoid, s, excl)
  {
    if SomeLiberty(board, seen, s, pts) {
      var k, d :| 0 <= k < |pts| && 0 <= d < 4 && IsLib(board, seen, s, Step(pts[k], d));
      assert pts[k] in pts;
    }
    if LibertyOf(board, target, avoid, s, excl) {
      var q, d :| 0 <= d < 4 && Reach(board, target, avoid, s, q) && IsEmptyAt(board, Step(q, d)) && Step(q, d) != excl;
      var k :| 0 <= k < |pts| && pts[k] == q;
      assert IsLib(board, seen, s, Step(pts[k], d));
    }
  }

  lemma SomeLibertySnoc(board: Snapshot, seen: seq<Pos>, s: Pos, pts: seq<Pos>, p: Pos)
    ensures SomeLiberty(board, seen, s, pts + [p]) <==>
      SomeLiberty(board, seen, s, pts) || exists d :: 0 <= d < 4 && IsLib(board, seen, s, Step(p, d))
  {
    var ext := pts + [p];
    if SomeLiberty(board, seen, s, ext) {
      var k, d :| 0 <= k < |ext| && 0 <= d < 4 && IsLib(board, seen, s, Step(ext[k], d));
      if k < |pts| {
        assert ext[k] == pts[k];
      }
    }
    if SomeLiberty(board, seen, s, pts) {
      var k, d :| 0 <= k < |pts| && 0 <= d < 4 && IsLib(board, seen, s, Step(pts[k], d));
      assert ext[k] == pts[k];
    }
    if exists d :: 0 <= d < 4 && IsLib(board, seen, s, Step(p, d)) {
      var d :| 0 <= d < 4 && IsLib(board, seen, s, Step(p, d));
      assert ext[|pts|] == p;
    }
  }

  // ---------------------------------------------------------------------------
  // The state of the breadth-first search, and how each step preserves it.

  /** `order` lists the points found so far, the start first: all different, on the
      board, unmarked on entry, connected to the start, and members after the start. */
  ghost predicate Found(board: Snapshot, target: Turn, seen: seq<Pos>, s: Pos, order: seq<Pos>)
  {
    |order| >= 1 && order[0] == s && Distinct(order) &&
    (forall k :: 0 <= k < |order| ==> OnGrid(board, order[k]) && order[k] !in seen) &&
    (forall k :: 0 <= k < |order| ==> Reach(board, target, seen, s, order[k])) &&
    (forall k :: 1 <= k < |order| ==> Member(board, target, seen, order[k]))
  }

  /** Whenever a neighbour of one of the first `done` points, or of point `done` in one
      of the first `e` directions, is a member, it is listed. */
  ghost predicate ClosedUpTo(board: Snapshot, target: Turn, seen: seq<Pos>, order: seq<Pos>, done: int, e: int)
  {
    forall k, d ::
      (0 <= k < |order| && 0 <= d < 4 && (k < done || (k == done && d < e)) &&
       Member(board, target, seen, Step(order[k], d))) ==> Step(order[k], d) in order
  }

  /** Some neighbour of one of the first `done` points, or of point `done` in one of the
      first `e` directions, is a liberty. */
  ghost predicate LibUpTo(board: Snapshot, seen: seq<Pos>, s: Pos, order: seq<Pos>, done: int, e: int)
  {
    exists k, d :: 0 <= k < |order| && 0 <= d < 4 && (k < done || (k == done && d < e)) &&
      IsLib(board, seen, s, Step(order[k], d))
  }

  /** The first `|stones|` points of `order` are the stones produced, the rest is the queue. */
  predicate Layout(stones: seq<Stone>, order: seq<Pos>, q: seq<Pos>, target: Turn) {
    |stones| <= |order| && q == order[|stones|..] &&
    forall k :: 0 <= k < |stones| ==> stones[k] == Stone(target, order[k].0, order[k].1)
  }

  /** Taking the front of the queue as the next stone keeps the layout, however the
      list grew behind it. */
  lemma LayoutStep(stones0: seq<Stone>, order0: seq<Pos>, q0: seq<Pos>, target: Turn, order: seq<Pos>, q: seq<Pos>)
    requires |q0| > 0 && Layout(stones0, order0, q0, target)
    requires order0 <= order && q == order[|stones0| + 1..]
    ensures Layout(stones0 + [Stone(target, q0[0].0, q0[0].1)], order, q, target)
  {
    assert q0[0] == order[|stones0|];
    var stones := stones0 + [Stone(target, q0[0].0, q0[0].1)];
    forall k | 0 <= k < |stones| ensures stones[k] == Stone(target, order[k].0, order[k].1) {
      if k < |stones0| {
        assert order[k] == order0[k];
      }
    }
  }

  lemma FoundStart(board: Snapshot, target: Turn, seen: seq<Pos>, s: Pos)
    requires OnGrid(board, s) && s !in seen
    ensures Found(board, target, seen, s, [s])
  {
    ReachStart(board, target, seen, s);
  }

  lemma FoundPush(board: Snapshot, target: Turn, seen: seq<Pos>, s: Pos, order: seq<Pos>, i: int, next: Pos)
    requires Found(board, target, seen, s, order) && 0 <= i < |order|
    requires Member(board, target, seen, next) && Adjacent(order[i], next) && next !in order
    ensures Found(board, target, seen, s, order + [next])
  {
    ReachExtend(board, target, seen, s, order[i], next);
    var ext := order + [next];
    forall k | 0 <= k < |ext| ensures Reach(board, target, seen, s, ext[k]) {
      if k < |order| {
        assert ext[k] == order[k];
      }
    }
  }

  lemma ClosedGrow(board: Snapshot, target: Turn, seen: seq<Pos>, order: seq<Pos>, next: Pos, done: int, e: int)
    requires ClosedUpTo(board, target, seen, order, done, e) && 0 <= done < |order|
    ensures ClosedUpTo(board, target, seen, order + [next], done, e)
  {
    var ext := order + [next];
    forall k, d | 0 <= k < |ext| && 0 <= d < 4 && (k < done || (k == done && d < e)) &&
      Member(board, target, seen, Step(ext[k], d))
      ensures Step(ext[k], d) in ext
    {
      assert ext[k] == order[k];
    }
  }

  lemma ClosedNext(board: Snapshot, target: Turn, seen: seq<Pos>, order: seq<Pos>, done: int, e: int)
    requires 0 <= done < |order| && 0 <= e < 4
    requires ClosedUpTo(board, target, seen, order, done, e)
    requires Member(board, target, seen, Step(order[done], e)) ==> Step(order[done], e) in order
    ensures ClosedUpTo(board, target, seen, order, done, e + 1)
  {
  }

  lemma ClosedRow(board: Snapshot, target: Turn, seen: seq<Pos>, order: seq<Pos>, done: int)
    requires ClosedUpTo(board, target, seen, order, done, 4)
    ensures ClosedUpTo(board, target, seen, order, done + 1, 0)
  {
  }

  lemma ClosedAll(board: Snapshot, target: Turn, seen: seq<Pos>, order: seq<Pos>)
    requires ClosedUpTo(board, target, seen, order, |order|, 0)
    ensures ClosedSeq(board, target, seen, order)
  {
    forall p, d | p in order && 0 <= d < 4 && Member(board, target, seen, Step(p, d))
      ensures Step(p, d) in order
    {
      var k :| 0 <= k < |order| && order[k] == p;
    }
  }

  lemma LibNext(board: Snapshot, seen: seq<Pos>, s: Pos, order: seq<Pos>, done: int, e: int)
    requires 0 <= done < |order| && 0 <= e < 4
    ensures LibUpTo(board, seen, s, order, done, e + 1) <==>
      LibUpTo(board, seen, s, order, done, e) || IsLib(board, seen, s, Step(order[done], e))
  {
  }

  lemma LibGrow(board: Snapshot, seen: seq<Pos>, s: Pos, order: seq<Pos>, next: Pos, done: int, e: int)
    requires 0 <= done < |order|
    ensures LibUpTo(board, seen, s, order + [next], done, e) <==> LibUpTo(board, seen, s, order, done, e)
  {
    var ext := order + [next];
    if LibUpTo(board, seen, s, ext, done, e) {
      var k, d :| 0 <= k < |ext| && 0 <= d < 4 && (k < done || (k == done && d < e)) &&
        IsLib(board, seen, s, Step(ext[k], d));
      assert ext[k] == order[k];
    }
    if LibUpTo(board, seen, s, order, done, e) {
      var k, d :| 0 <= k < |order| && 0 <= d < 4 && (k < done || (k == done && d < e)) &&
        IsLib(board, seen, s, Step(order[k], d));
      assert ext[k] == order[k];
    }
  }

  lemma LibRow(board: Snapshot, seen: seq<Pos>, s: Pos, order: seq<Pos>, done: int)
    ensures LibUpTo(board, seen, s, order, done, 4) <==> LibUpTo(board, seen, s, order, done + 1, 0)
  {
    if LibUpTo(board, seen, s, order, done + 1, 0) {
      var k, d :| 0 <= k < |order| && 0 <= d < 4 && (k < done + 1 || (k == done + 1 && d < 0)) &&
        IsLib(board, seen, s, Step(order[k], d));
      assert k < done || (k == done && d < 4);
    }
  }

  lemma LibAll(board: Snapshot, seen: seq<Pos>, s: Pos, order: seq<Pos>)
    ensures LibUpTo(board, seen, s, order, |order|, 0) <==> SomeLiberty(board, seen, s, order)
  {
  }

  // ---------------------------------------------------------------------------
  // The searches.

  /** The points of an n-by-n board that `order` does not list: the search's measure. */
  ghost function Unfound(n: int, order: seq<Pos>): set<Pos> {
    (set i, j | 0 <= i < n && 0 <= j < n :: (i, j)) - (set k | 0 <= k < |order| :: order[k])
  }

  /** Listing one more point of the board shrinks the measure. */
  lemma UnfoundShrinks(board: Snapshot, target: Turn, seen: seq<Pos>, s: Pos, order0: seq<Pos>, order: seq<Pos>)
    requires Found(board, target, seen, s, order) && order0 < order
    ensures Unfound(board.Size(), order) < Unfound(board.Size(), order0)
  {
    var x := order[|order0|];
    assert x !in (set k | 0 <= k < |order0| :: order0[k]) by {
      forall k | 0 <= k < |order0| ensures order0[k] != x {
        assert order0[k] == order[k];
      }
    }
    assert x in Unfound(board.Size(), order0);
    assert x !in Unfound(board.Size(), order);
    assert forall k :: 0 <= k < |order0| ==> order0[k] == order[k];
  }

  /** Marking one more point as visited keeps the grid in step with the marked list. */
  method Mark(visited: array2<bool>, ghost marked: seq<Pos>, x: int, y: int)
    requires 0 <= x < visited.Length0 && 0 <= y < visited.Length1
    requires Marks(visited, marked)
    modifies visited
    ensures Marks(visited, marked + [(x, y)])
  {
    visited[x, y] := true;
  }

  /** One pass of the inner loop of `exploreGroupAndLiberties`: look at the neighbour of
      the point taken from the queue in direction `d`; an empty unmarked one is a
      liberty, an unmarked one of the group's colour is marked and enqueued. */
  method VisitNeighbour(visited: array2<bool>, ghost seen: seq<Pos>, board: Snapshot, target: Turn,
                        ghost s: Pos, ghost order0: seq<Pos>, ghost last: nat, cur: Pos, d: int,
                        q0: seq<Pos>, lib0: bool)
    returns (q: seq<Pos>, hasLiberty: bool, ghost order: seq<Pos>)
    requires board.WellFormed() && 0 <= d < 4
    requires visited.Length0 == board.Size() && visited.Length1 == board.Size()
    requires last < |order0| && order0[last] == cur && q0 == order0[last + 1..]
    requires Found(board, target, seen, s, order0) && Marks(visited, seen + order0)
    requires ClosedUpTo(board, target, seen, order0, last, d)
    requires lib0 <==> LibUpTo(board, seen, s, order0, last, d)
    modifies visited
    ensures order0 <= order && q == order[last + 1..]
    ensures Found(board, target, seen, s, order) && Marks(visited, seen + order)
    ensures ClosedUpTo(board, target, seen, order, last, d + 1)
    ensures hasLiberty <==> LibUpTo(board, seen, s, order, last, d + 1)
  {
    q, hasLiberty, order := q0, lib0, order0;
    var size := board.Size();
    var next := Step(cur, d);
    var nx, ny := next.0, next.1;
    LibNext(board, seen, s, order, last, d);
    if 0 <= nx < size && 0 <= ny < size && !visited[nx, ny] {
      assert next !in seen + order;
      var turn := TurnFromCell(board.Get(nx, ny));
      if turn.None? {
        hasLiberty := true;
      } else if turn.value == target {
        StepIsAdjacent(cur, d);
        FoundPush(board, target, seen, s, order, last, next);
        ClosedGrow(board, target, seen, order, next, last, d);
        LibGrow(board, seen, s, order, next, last, d);
        LibGrow(board, seen, s, order, next, last, d + 1);
        Mark(visited, seen + order, nx, ny);
        SliceSnoc(order, last + 1, next);
        SeqAssoc(seen, order, [next]);
        q := q + [next];
        order := order + [next];
      }
    }
    ClosedNext(board, target, seen, order, last, d);
  }

  /** The inner loop of `exploreGroupAndLiberties`: the four neighbours of the point
      taken from the queue, in the order of `Directions`. */
  method ScanNeighbours(visited: array2<bool>, ghost seen: seq<Pos>, board: Snapshot, target: Turn,
                        ghost s: Pos, ghost order0: seq<Pos>, ghost last: nat, cur: Pos,
                        q0: seq<Pos>, lib0: bool)
    returns (q: seq<Pos>, hasLiberty: bool, ghost order: seq<Pos>)
    requires board.WellFormed()
    requires visited.Length0 == board.Size() && visited.Length1 == board.Size()
    requires last < |order0| && order0[last] == cur && q0 == order0[last + 1..]
    requires Found(board, target, seen, s, order0) && Marks(visited, seen + order0)
    requires ClosedUpTo(board, target, seen, order0, last, 0)
    requires lib0 <==> LibUpTo(board, seen, s, order0, last, 0)
    modifies visited
    ensures order0 <= order && q == order[last + 1..]
    ensures Found(board, target, seen, s, order) && Marks(visited, seen + order)
    ensures ClosedUpTo(board, target, seen, order, last + 1, 0)
    ensures hasLiberty <==> LibUpTo(board, seen, s, order, last + 1, 0)
  {
    q, hasLiberty, order := q0, lib0, order0;
    var d := 0;
    while d < 4
      invariant 0 <= d <= 4
      invariant order0 <= order && q == order[last + 1..]
      invariant Found(board, target, seen, s, order) && Marks(visited, seen + order)
      invariant ClosedUpTo(board, target, seen, order, last, d)
      invariant hasLiberty <==> LibUpTo(board, seen, s, order, last, d)
    {
      q, hasLiberty, order :=
        VisitNeighbour(visited, seen, board, target, s, order, last, cur, d, q, hasLiberty);
      d := d + 1;
    }
    ClosedRow(board, target, seen, order, last);
    LibRow(board, seen, s, order, last);
  }

  /** One turn of the outer loop of `exploreGroupAndLiberties`: take the front of the
      queue, record it as a stone of the group, and scan its neighbours. */
  method TakeFront(visited: array2<bool>, ghost seen: seq<Pos>, board: Snapshot, target: Turn, ghost s: Pos,
                   stones0: seq<Stone>, q0: seq<Pos>, lib0: bool, ghost order0: seq<Pos>)
    returns (stones: seq<Stone>, q: seq<Pos>, hasLiberty: bool, ghost order: seq<Pos>)
    requires board.WellFormed()
    requires visited.Length0 == board.Size() && visited.Length1 == board.Size()
    requires |q0| > 0 && Layout(stones0, order0, q0, target)
    requires Found(board, target, seen, s, order0) && Marks(visited, seen + order0)
    requires ClosedUpTo(board, target, seen, order0, |stones0|, 0)
    requires lib0 <==> LibUpTo(board, seen, s, order0, |stones0|, 0)
    modifies visited
    ensures Layout(stones, order, q, target)
    ensures Found(board, target, seen, s, order) && Marks(visited, seen + order)
    ensures ClosedUpTo(board, target, seen, order, |stones|, 0)
    ensures hasLiberty <==> LibUpTo(board, seen, s, order, |stones|, 0)
    ensures Unfound(board.Size(), order) < Unfound(board.Size(), order0) || (order == order0 && |q| < |q0|)
  {
    var cur := q0[0];
    ghost var last := |stones0|;
    assert cur == order0[last];
    stones := stones0 + [Stone(target, cur.0, cur.1)];
    q, hasLiberty, order := ScanNeighbours(visited, seen, board, target, s, order0, last, cur, q0[1..], lib0);
    LayoutStep(stones0, order0, q0, target, order, q);
    if order != order0 {
      UnfoundShrinks(board, target, seen, s, order0, order);
    }
  }

  /** When every listed point has had its neighbours looked at, the list is exactly the
      group of the start and the liberties noted are the group's. */
  lemma SearchDone(board: Snapshot, target: Turn, seen: seq<Pos>, s: Pos, order: seq<Pos>)
    requires Found(board, target, seen, s, order)
    requires ClosedUpTo(board, target, seen, order, |order|, 0)
    ensures forall p :: p in order <==> Reach(board, target, seen, s, p)
    ensures LibUpTo(board, seen, s, order, |order|, 0) <==> SomeLiberty(board, seen, s, order)
  {
    ClosedAll(board, target, seen, order);
    LibAll(board, seen, s, order);
    forall p | Reach(board, target, seen, s, p) ensures p in order {
      ReachInClosed(board, target, seen, order, s, p);
    }
  }

  /** `exploreGroupAndLiberties`: breadth-first search from (sx, sy) through stones of
      colour `target`, marking every point it enters in `visited`. The stones found are
      exactly the group connected to the start; the liberty flag is set exactly when the
      group touches an empty point that was not marked and is not the start. */
  method ExploreGroupAndLiberties(visited: array2<bool>, ghost seen: seq<Pos>, board: Snapshot,
                                  target: Turn, sx: int, sy: int)
    returns (stones: seq<Stone>, hasLiberty: bool)
    requires board.WellFormed()
    requires visited.Length0 == board.Size() && visited.Length1 == board.Size()
    requires board.InBounds(sx, sy) && (sx, sy) !in seen
    requires Marks(visited, seen)
    modifies visited
    ensures |stones| >= 1 && stones[0] == Stone(target, sx, sy)
    ensures forall k :: 0 <= k < |stones| ==> stones[k].turn == target
    ensures Distinct(Points(stones))
    ensures forall p :: p in Points(stones) <==> Reach(board, target, seen, (sx, sy), p)
    ensures forall p :: p in Points(stones) ==> p !in seen
    ensures hasLiberty <==> SomeLiberty(board, seen, (sx, sy), Points(stones))
    ensures Marks(visited, seen + Points(stones))
  {
    ghost var s := (sx, sy);
    var size := board.Size();
    var q: seq<Pos> := [(sx, sy)];
    visited[sx, sy] := true;
    stones, hasLiberty := [], false;
    ghost var order: seq<Pos> := [(sx, sy)];
    FoundStart(board, target, seen, s);

    while |q| > 0
      invariant Layout(stones, order, q, target)
      invariant Found(board, target, seen, s, order)
      invariant Marks(visited, seen + order)
      invariant ClosedUpTo(board, target, seen, order, |stones|, 0)
      invariant hasLiberty <==> LibUpTo(board, seen, s, order, |stones|, 0)
      decreases Unfound(size, order), |q|
    {
      stones, q, hasLiberty, order := TakeFront(visited, seen, board, target, s, stones, q, hasLiberty, order);
    }
    assert Points(stones) == order;
    SearchDone(board, target, seen, s, order);
  }

  /** A stone of colour `placed.turn` on point P would capture through direction `d`:
      the neighbour there holds an opposing stone whose group, with P counted as
      occupied, touches no empty point other than P. */
  ghost predicate CapturableAt(board: Snapshot, placed: Stone, d: int)
    requires 0 <= d < 4
  {
    var p := (placed.x, placed.y);
    var n := Step(p, d);
    OnGrid(board, n) && CellAt(board, n) == CellOf(Opponent(placed.turn)) &&
    !LibertyOf(board, Opponent(placed.turn), [p], n, p)
  }

  /** `g` lists, start first and each point once, the stones of colour `target`
      connected to `n` outside `avoid`. */
  ghost predicate IsGroup(board: Snapshot, target: Turn, avoid: seq<Pos>, n: Pos, g: seq<Stone>)
  {
    |g| >= 1 && (g[0].x, g[0].y) == n &&
    (forall k :: 0 <= k < |g| ==> g[k].turn == target) &&
    Distinct(Points(g)) &&
    (forall x :: x in Points(g) <==> Reach(board, target, avoid, n, x))
  }

  /** One captured group: the opposing group, P counted as occupied, of the neighbour of
      P in a capturing direction, that neighbour first. */
  ghost predicate IsCapturedGroup(board: Snapshot, placed: Stone, g: seq<Stone>)
  {
    var p := (placed.x, placed.y);
    exists d :: 0 <= d < 4 && CapturableAt(board, placed, d) &&
      IsGroup(board, Opponent(placed.turn), [p], Step(p, d), g)
  }

  /** What `getCapturedGroups` promises: every group listed is a captured group, every
      capturing direction leads into a listed group, and no two groups share a point. */
  ghost predicate CapturedGroups(board: Snapshot, placed: Stone, captured: seq<seq<Stone>>)
  {
    (forall i :: 0 <= i < |captured| ==> IsCapturedGroup(board, placed, captured[i])) &&
    (forall d :: 0 <= d < 4 && CapturableAt(board, placed, d) ==>
      exists i :: 0 <= i < |captured| && Step((placed.x, placed.y), d) in Points(captured[i])) &&
    (forall i, j, x :: 0 <= i < j < |captured| && x in Points(captured[i]) ==> x !in Points(captured[j]))
  }

  /** Group i starts at the neighbour of P in direction dirs[i], a direction below d. */
  predicate StartsAt(placed: Stone, captured: seq<seq<Stone>>, dirs: seq<int>, d: int)
  {
    |dirs| == |captured| &&
    forall i :: 0 <= i < |dirs| ==>
      0 <= dirs[i] < d && dirs[i] < 4 && |captured[i]| > 0 &&
      (captured[i][0].x, captured[i][0].y) == Step((placed.x, placed.y), dirs[i])
  }

  /** The groups come in scan order: group i was found through direction dirs[i], the
      directions strictly increase and lie below d, and every capturing direction below d
      leads into a group found through that direction or an earlier one. */
  ghost predicate ScanOrder(board: Snapshot, placed: Stone, captured: seq<seq<Stone>>, dirs: seq<int>, d: int)
  {
    var p := (placed.x, placed.y);
    StartsAt(placed, captured, dirs, d) &&
    (forall i, j :: 0 <= i < j < |dirs| ==> dirs[i] < dirs[j]) &&
    (forall e :: 0 <= e < d && e < 4 && CapturableAt(board, placed, e) ==>
      exists i :: 0 <= i < |captured| && dirs[i] <= e && Step(p, e) in Points(captured[i]))
  }

  /** `taken` lists opposing stones only and, with every opposing neighbour, contains it. */
  ghost predicate Explored(board: Snapshot, placed: Stone, taken: seq<Pos>)
  {
    var p := (placed.x, placed.y);
    (forall x :: x in taken ==> Member(board, Opponent(placed.turn), [p], x)) &&
    ClosedSeq(board, Opponent(placed.turn), [p], taken)
  }

  /** The groups collected are captured groups inside `taken`, pairwise disjoint, and
      every point of `taken` whose group has no liberty lies in one of them. */
  ghost predicate Collected(board: Snapshot, placed: Stone, taken: seq<Pos>, captured: seq<seq<Stone>>)
  {
    var p := (placed.x, placed.y);
    (forall i :: 0 <= i < |captured| ==> IsCapturedGroup(board, placed, captured[i])) &&
    (forall i, x :: 0 <= i < |captured| && x in Points(captured[i]) ==> x in taken) &&
    (forall i, j, x :: 0 <= i < j < |captured| && x in Points(captured[i]) ==> x !in Points(captured[j])) &&
    (forall x :: x in taken && !LibertyOf(board, Opponent(placed.turn), [p], x, p) ==>
      exists i :: 0 <= i < |captured| && x in Points(captured[i]))
  }

  /** Every opposing neighbour of P in one of the first `d` directions is in `taken`. */
  ghost predicate NeighboursTaken(board: Snapshot, placed: Stone, taken: seq<Pos>, d: int)
  {
    var p := (placed.x, placed.y);
    forall e :: 0 <= e < d && e < 4 && Member(board, Opponent(placed.turn), [p], Step(p, e)) ==>
      Step(p, e) in taken
  }

  lemma NeighboursTakenStep(board: Snapshot, placed: Stone, taken: seq<Pos>, extra: seq<Pos>, d: int)
    requires 0 <= d < 4 && NeighboursTaken(board, placed, taken, d)
    requires var p := (placed.x, placed.y);
      Member(board, Opponent(placed.turn), [p], Step(p, d)) ==> Step(p, d) in taken + extra
    ensures NeighboursTaken(board, placed, taken + extra, d + 1)
  {
  }

  /** What a search started at the opposing neighbour `n` of P, with P and `taken`
      marked, reports: the group of `n` with P counted as occupied, and whether that
      group has a liberty other than P. */
  lemma ExploredGroup(board: Snapshot, placed: Stone, taken: seq<Pos>, n: Pos,
                      stones: seq<Stone>, hasLiberty: bool)
    requires Explored(board, placed, taken)
    requires var p := (placed.x, placed.y);
      Member(board, Opponent(placed.turn), [p], n) && n !in taken
    requires var p := (placed.x, placed.y);
      |stones| >= 1 && stones[0] == Stone(Opponent(placed.turn), n.0, n.1) &&
      (forall k :: 0 <= k < |stones| ==> stones[k].turn == Opponent(placed.turn)) &&
      Distinct(Points(stones)) &&
      (forall x :: x in Points(stones) <==> Reach(board, Opponent(placed.turn), [p] + taken, n, x)) &&
      (hasLiberty <==> SomeLiberty(board, [p] + taken, n, Points(stones)))
    ensures var p := (placed.x, placed.y);
      IsGroup(board, Opponent(placed.turn), [p], n, stones) &&
      (hasLiberty <==> LibertyOf(board, Opponent(placed.turn), [p], n, p))
  {
    var p := (placed.x, placed.y);
    var enemy := Opponent(placed.turn);
    var pts := Points(stones);
    forall x ensures Reach(board, enemy, [p] + taken, n, x) <==> Reach(board, enemy, [p], n, x) {
      ReachAvoidsClosed(board, enemy, [p], taken, n, x);
    }
    SomeLibertyIsLibertyOf(board, enemy, [p], [p] + taken, n, pts, p);
  }

  /** Points of a group are members, and the group is closed. */
  lemma GroupIsClosed(board: Snapshot, target: Turn, avoid: seq<Pos>, n: Pos, g: seq<Stone>)
    requires IsGroup(board, target, avoid, n, g) && Member(board, target, avoid, n)
    ensures forall x :: x in Points(g) ==> Member(board, target, avoid, x)
    ensures ClosedSeq(board, target, avoid, Points(g))
  {
    ReachSetClosed(board, target, avoid, n, Points(g));
    forall x | x in Points(g) ensures Member(board, target, avoid, x) {
      if x != n {
        ReachIsMember(board, target, avoid, n, x);
      }
    }
  }

  /** Taking in a new group keeps `taken` explored. */
  lemma ExploredGrow(board: Snapshot, placed: Stone, taken: seq<Pos>, n: Pos, g: seq<Stone>)
    requires Explored(board, placed, taken)
    requires var p := (placed.x, placed.y);
      Member(board, Opponent(placed.turn), [p], n) && IsGroup(board, Opponent(placed.turn), [p], n, g)
    ensures Explored(board, placed, taken + Points(g))
  {
    var p := (placed.x, placed.y);
    GroupIsClosed(board, Opponent(placed.turn), [p], n, g);
    ClosedUnion(board, Opponent(placed.turn), [p], taken, Points(g));
  }

  /** A group with a liberty adds no captured group: its stones all have the liberty. */
  lemma CollectedKeep(board: Snapshot, placed: Stone, taken: seq<Pos>, captured: seq<seq<Stone>>,
                      n: Pos, g: seq<Stone>)
    requires Collected(board, placed, taken, captured)
    requires var p := (placed.x, placed.y);
      Member(board, Opponent(placed.turn), [p], n) && IsGroup(board, Opponent(placed.turn), [p], n, g) &&
      LibertyOf(board, Opponent(placed.turn), [p], n, p)
    ensures Collected(board, placed, taken + Points(g), captured)
  {
    var p := (placed.x, placed.y);
    forall x | x in Points(g) ensures LibertyOf(board, Opponent(placed.turn), [p], x, p) {
      LibertySpreads(board, Opponent(placed.turn), [p], n, x, p);
    }
  }

  /** A group without a liberty, found through a capturing direction and disjoint from
      what was taken before, is added as a captured group. */
  lemma CollectedAdd(board: Snapshot, placed: Stone, taken: seq<Pos>, captured: seq<seq<Stone>>, d: int, g: seq<Stone>)
    requires 0 <= d < 4 && Collected(board, placed, taken, captured)
    requires var p := (placed.x, placed.y);
      IsGroup(board, Opponent(placed.turn), [p], Step(p, d), g) && CapturableAt(board, placed, d) &&
      forall x :: x in Points(g) ==> x !in taken
    ensures Collected(board, placed, taken + Points(g), captured + [g])
  {
    var p := (placed.x, placed.y);
    var captured' := captured + [g];
    assert IsCapturedGroup(board, placed, g);
    forall i | 0 <= i < |captured'| ensures IsCapturedGroup(board, placed, captured'[i]) {
      if i < |captured| {
        assert captured'[i] == captured[i];
      }
    }
    forall i, j, x | 0 <= i < j < |captured'| && x in Points(captured'[i])
      ensures x !in Points(captured'[j])
    {
      assert captured'[i] == captured[i];
      if j < |captured| {
        assert captured'[j] == captured[j];
      }
    }
    forall x | x in taken + Points(g) && !LibertyOf(board, Opponent(placed.turn), [p], x, p)
      ensures exists i :: 0 <= i < |captured'| && x in Points(captured'[i])
    {
      if x in taken {
        var i :| 0 <= i < |captured| && x in Points(captured[i]);
        assert captured'[i] == captured[i];
      } else {
        assert captured'[|captured|] == g;
      }
    }
  }

  /** After the four directions every capturing direction leads into a collected group. */
  lemma CollectedComplete(board: Snapshot, placed: Stone, taken: seq<Pos>, captured: seq<seq<Stone>>)
    requires Collected(board, placed, taken, captured) && NeighboursTaken(board, placed, taken, 4)
    ensures forall d :: 0 <= d < 4 && CapturableAt(board, placed, d) ==>
      exists i :: 0 <= i < |captured| && Step((placed.x, placed.y), d) in Points(captured[i])
  {
    var p := (placed.x, placed.y);
    forall d | 0 <= d < 4 && CapturableAt(board, placed, d)
      ensures exists i :: 0 <= i < |captured| && Step(p, d) in Points(captured[i])
    {
      StepIsAdjacent(p, d);
      assert Member(board, Opponent(placed.turn), [p], Step(p, d));
    }
  }

  /** A group found through direction d and captured keeps the scan order when it is
      appended. */
  lemma ScanOrderAdd(board: Snapshot, placed: Stone, captured: seq<seq<Stone>>, dirs: seq<int>,
                     d: int, g: seq<Stone>)
    requires 0 <= d < 4 && ScanOrder(board, placed, captured, dirs, d)
    requires |g| > 0 && (g[0].x, g[0].y) == Step((placed.x, placed.y), d)
    ensures ScanOrder(board, placed, captured + [g], dirs + [d], d + 1)
  {
    var p := (placed.x, placed.y);
    var captured': seq<seq<Stone>>, dirs': seq<int> := captured + [g], dirs + [d];
    forall i | 0 <= i < |dirs'|
      ensures 0 <= dirs'[i] < d + 1 && dirs'[i] < 4 && |captured'[i]| > 0 &&
        (captured'[i][0].x, captured'[i][0].y) == Step(p, dirs'[i])
    {
      if i < |dirs| {
        assert dirs'[i] == dirs[i] && captured'[i] == captured[i];
      }
    }
    forall e | 0 <= e < d + 1 && e < 4 && CapturableAt(board, placed, e)
      ensures exists i :: 0 <= i < |captured'| && dirs'[i] <= e && Step(p, e) in Points(captured'[i])
    {
      if e < d {
        var i :| 0 <= i < |captured| && dirs[i] <= e && Step(p, e) in Points(captured[i]);
        assert dirs'[i] == dirs[i] && captured'[i] == captured[i];
      } else {
        assert captured'[|captured|] == g;
        assert Points(g)[0] == Step(p, e);
      }
    }
  }

  /** A capturing neighbour that was already taken lies in a collected group. */
  lemma CapturingNeighbourCollected(board: Snapshot, placed: Stone, taken: seq<Pos>,
                                    captured: seq<seq<Stone>>, d: int)
    requires 0 <= d < 4 && CapturableAt(board, placed, d)
    requires Collected(board, placed, taken, captured) && NeighboursTaken(board, placed, taken, d + 1)
    ensures exists i :: 0 <= i < |captured| && Step((placed.x, placed.y), d) in Points(captured[i])
  {
    var p := (placed.x, placed.y);
    StepIsAdjacent(p, d);
    assert Member(board, Opponent(placed.turn), [p], Step(p, d));
  }

  /** A direction that adds no group keeps the scan order: its neighbour either does not
      capture, or lies in a captured group found earlier. */
  lemma ScanOrderSkip(board: Snapshot, placed: Stone, taken: seq<Pos>, captured: seq<seq<Stone>>,
                      dirs: seq<int>, d: int)
    requires 0 <= d < 4 && ScanOrder(board, placed, captured, dirs, d)
    requires Collected(board, placed, taken, captured) && NeighboursTaken(board, placed, taken, d + 1)
    ensures ScanOrder(board, placed, captured, dirs, d + 1)
  {
    var p := (placed.x, placed.y);
    forall e | 0 <= e < d + 1 && e < 4 && CapturableAt(board, placed, e)
      ensures exists i :: 0 <= i < |captured| && dirs[i] <= e && Step(p, e) in Points(captured[i])
    {
      if e == d {
        CapturingNeighbourCollected(board, placed, taken, captured, d);
        var i :| 0 <= i < |captured| && Step(p, d) in Points(captured[i]);
        assert dirs[i] < d;
      }
    }
  }

  /** The part of one direction of `getCapturedGroups` that explores the unmarked
      opposing neighbour `n` of P and keeps its group when it has no liberty. */
  method CaptureGroupAt(visited: array2<bool>, board: Snapshot, placed: Stone, d: int,
                        captured0: seq<seq<Stone>>, ghost taken0: seq<Pos>, ghost dirs0: seq<int>,
                        nx: int, ny: int)
    returns (captured: seq<seq<Stone>>, ghost taken: seq<Pos>, ghost dirs: seq<int>)
    requires board.WellFormed() && board.InBounds(placed.x, placed.y) && 0 <= d < 4
    requires visited.Length0 == board.Size() && visited.Length1 == board.Size()
    requires (nx, ny) == Step((placed.x, placed.y), d) && board.InBounds(nx, ny)
    requires Member(board, Opponent(placed.turn), [(placed.x, placed.y)], (nx, ny)) && (nx, ny) !in taken0
    requires Marks(visited, [(placed.x, placed.y)] + taken0)
    requires Explored(board, placed, taken0) && Collected(board, placed, taken0, captured0)
    requires NeighboursTaken(board, placed, taken0, d)
    requires ScanOrder(board, placed, captured0, dirs0, d)
    modifies visited
    ensures Marks(visited, [(placed.x, placed.y)] + taken)
    ensures Explored(board, placed, taken) && Collected(board, placed, taken, captured)
    ensures NeighboursTaken(board, placed, taken, d + 1)
    ensures ScanOrder(board, placed, captured, dirs, d + 1)
  {
    ghost var p := (placed.x, placed.y);
    ghost var n := (nx, ny);
    var stones, hasLiberty := ExploreGroupAndLiberties(visited, [p] + taken0, board,
      if placed.turn == White then Black else White, nx, ny);
    ExploredGroup(board, placed, taken0, n, stones, hasLiberty);
    ExploredGrow(board, placed, taken0, n, stones);
    if !hasLiberty {
      CollectedAdd(board, placed, taken0, captured0, d, stones);
      captured := captured0 + [stones];
      dirs := dirs0 + [d];
      ScanOrderAdd(board, placed, captured0, dirs0, d, stones);
    } else {
      CollectedKeep(board, placed, taken0, captured0, n, stones);
      captured := captured0;
      dirs := dirs0;
    }
    assert n in Points(stones);
    NeighboursTakenStep(board, placed, taken0, Points(stones), d);
    SeqAssoc([p], taken0, Points(stones));
    taken := taken0 + Points(stones);
  }

  /** One direction of `getCapturedGroups`: an unmarked opposing neighbour is explored,
      and its group is kept when it has no liberty. */
  method CaptureDirection(visited: array2<bool>, board: Snapshot, placed: Stone, d: int,
                          captured0: seq<seq<Stone>>, ghost taken0: seq<Pos>, ghost dirs0: seq<int>)
    returns (captured: seq<seq<Stone>>, ghost taken: seq<Pos>, ghost dirs: seq<int>)
    requires board.WellFormed() && board.InBounds(placed.x, placed.y) && 0 <= d < 4
    requires visited.Length0 == board.Size() && visited.Length1 == board.Size()
    requires Marks(visited, [(placed.x, placed.y)] + taken0)
    requires Explored(board, placed, taken0) && Collected(board, placed, taken0, captured0)
    requires NeighboursTaken(board, placed, taken0, d)
    requires ScanOrder(board, placed, captured0, dirs0, d)
    modifies visited
    ensures Marks(visited, [(placed.x, placed.y)] + taken)
    ensures Explored(board, placed, taken) && Collected(board, placed, taken, captured)
    ensures NeighboursTaken(board, placed, taken, d + 1)
    ensures ScanOrder(board, placed, captured, dirs, d + 1)
  {
    var size := board.Size();
    var p := (placed.x, placed.y);
    var n := Step(p, d);
    var nx, ny := n.0, n.1;
    StepIsAdjacent(p, d);
    if 0 <= nx < size && 0 <= ny < size && !visited[nx, ny] {
      assert n !in [p] + taken0;
      var turn := TurnFromCell(board.Get(nx, ny));
      if turn.Some? && turn.value != placed.turn {
        captured, taken, dirs := CaptureGroupAt(visited, board, placed, d, captured0, taken0, dirs0, nx, ny);
        return;
      }
    }
    captured, taken, dirs := captured0, taken0, dirs0;
    assert taken + [] == taken;
    NeighboursTakenStep(board, placed, taken, [], d);
    ScanOrderSkip(board, placed, taken, captured, dirs, d);
  }

  /** `getCapturedGroups`: the opposing groups next to the placed stone's point that are
      left without a liberty once the point is taken; each such group appears once, and
      no two groups share a point. */
  method GetCapturedGroups(board: Snapshot, placed: Stone) returns (captured: seq<seq<Stone>>, ghost dirs: seq<int>)
    requires board.WellFormed() && board.InBounds(placed.x, placed.y)
    ensures CapturedGroups(board, placed, captured)
    ensures ScanOrder(board, placed, captured, dirs, 4)
  {
    var size := board.Size();
    var visited := new bool[size, size]((i, j) => false);
    captured := [];
    ghost var taken: seq<Pos> := [];
    dirs := [];
    visited[placed.x, placed.y] := true;

    var d := 0;
    while d < 4
      invariant 0 <= d <= 4
      invariant Marks(visited, [(placed.x, placed.y)] + taken)
      invariant Explored(board, placed, taken) && Collected(board, placed, taken, captured)
      invariant NeighboursTaken(board, placed, taken, d)
      invariant ScanOrder(board, placed, captured, dirs, d)
    {
      captured, taken, dirs := CaptureDirection(visited, board, placed, d, captured, taken, dirs);
      d := d + 1;
    }
    CollectedComplete(board, placed, taken, captured);
  }

  /** `isValidStoneIgnoringCapture`: the stone, placed at its point, would belong to a
      group of its colour that touches an empty point other than that point. Checking
      the four neighbours first is a shortcut for the same answer. */
  method IsValidStoneIgnoringCapture(board: Snapshot, stone: Stone) returns (r: bool)
    requires board.WellFormed() && board.InBounds(stone.x, stone.y)
    ensures r <==> LibertyOf(board, stone.turn, [], (stone.x, stone.y), (stone.x, stone.y))
  {
    var x, y := stone.x, stone.y;
    var size := board.Size();
    var p := (x, y);
    var visited := new bool[size, size]((i, j) => false);
    ReachStart(board, stone.turn, [], p);

    var d := 0;
    while d < 4
      invariant 0 <= d <= 4
      invariant Marks(visited, [])
    {
      var n := Step(p, d);
      var nx, ny := n.0, n.1;
      StepIsAdjacent(p, d);
      if 0 <= nx < size && 0 <= ny < size {
        var turn := TurnFromCell(board.Get(nx, ny));
        if turn.None? {
          assert IsEmptyAt(board, Step(p, d));
          return true;
        }
      }
      d := d + 1;
    }

    var stones, hasLiberty := ExploreGroupAndLiberties(visited, [], board, stone.turn, x, y);
    SomeLibertyIsLibertyOf(board, stone.turn, [], [], p, Points(stones), p);
    return hasLiberty;
  }

  /** `isValidStone`: the placement keeps a liberty, or it captures at least one group. */
  method IsValidStone(board: Snapshot, stone: Stone) returns (r: bool)
    requires board.WellFormed() && board.InBounds(stone.x, stone.y)
    ensures r <==> (LibertyOf(board, stone.turn, [], (stone.x, stone.y), (stone.x, stone.y)) ||
                    exists d :: 0 <= d < 4 && CapturableAt(board, stone, d))
  {
    var ignoring := IsValidStoneIgnoringCapture(board, stone);
    if !ignoring {
      var captured, _ := GetCapturedGroups(board, stone);
      if |captured| > 0 {
        assert IsCapturedGroup(board, stone, captured[0]);
      }
      return |captured| > 0;
    }
    return true;
  }
}
