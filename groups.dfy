/** The group comparison of the test suite: each list of groups is brought to a
    canonical order, the stones of every group by the stone ordering and then the
    groups by the lexicographic ordering of their stone sequences, and the two
    canonical lists are compared element by element. The library sort is modelled by
    its result, computed here by insertion; for stones on distinct points every sorted
    arrangement is the same one, so the choice of sorting algorithm is immaterial. */
module Groups {
  import opened Base
  import opened Rules

  /** `less` is a strict weak ordering: asymmetric, and whenever `a` precedes `c`, any
      `b` follows `a` or precedes `c`. */
  ghost predicate WeakOrder<T(!new)>(less: (T, T) -> bool) {
    (forall a, b {:trigger less(a, b), less(b, a)} :: less(a, b) ==> !less(b, a)) &&
    (forall a, b, c {:trigger less(a, b), less(b, c), less(a, c)} :: less(a, c) ==> less(a, b) || less(b, c))
  }

  /** No later element precedes an earlier one. */
  ghost predicate Sorted<T>(less: (T, T) -> bool, xs: seq<T>) {
    forall i, j :: 0 <= i < j < |xs| ==> !less(xs[j], xs[i])
  }

  /** Any two different elements of `xs` are ordered one way or the other. */
  ghost predicate Connected<T>(less: (T, T) -> bool, xs: seq<T>) {
    forall x, y :: x in xs && y in xs && x != y ==> less(x, y) || less(y, x)
  }

  /** `x` inserted in front of the first element it does not follow. */
  function Insert<T>(less: (T, T) -> bool, x: T, xs: seq<T>): (r: seq<T>)
    ensures multiset(r) == multiset(xs) + multiset{x}
    decreases |xs|
  {
    if |xs| == 0 || !less(xs[0], x) then [x] + xs
    else
      assert xs == [xs[0]] + xs[1..];
      [xs[0]] + Insert(less, x, xs[1..])
  }

  /** `std::sort`: a sorted arrangement of the same elements. */
  function SortBy<T>(less: (T, T) -> bool, xs: seq<T>): (r: seq<T>)
    ensures multiset(r) == multiset(xs)
    decreases |xs|
  {
    if |xs| == 0 then []
    else
      assert xs == [xs[0]] + xs[1..];
      Insert(less, xs[0], SortBy(less, xs[1..]))
  }

  /** Inserting into a sorted sequence keeps it sorted. */
  lemma {:induction false} InsertSorted<T(!new)>(less: (T, T) -> bool, x: T, xs: seq<T>)
    requires WeakOrder(less) && Sorted(less, xs)
    ensures Sorted(less, Insert(less, x, xs))
    decreases |xs|
  {
    if |xs| == 0 || !less(xs[0], x) {
      var r := [x] + xs;
      forall i, j | 0 <= i < j < |r| ensures !less(r[j], r[i]) {
        if i == 0 && j > 1 {
          assert !less(xs[j - 1], xs[0]) && !less(xs[0], x);
        }
      }
    } else {
      InsertSorted(less, x, xs[1..]);
      var t := Insert(less, x, xs[1..]);
      forall j | 0 <= j < |t| ensures !less(t[j], xs[0]) {
        assert t[j] in multiset(t);
        if t[j] != x {
          assert t[j] in multiset(xs[1..]);
          var k :| 0 <= k < |xs[1..]| && xs[1..][k] == t[j];
          assert xs[k + 1] == t[j];
        }
      }
      var r := [xs[0]] + t;
      forall i, j | 0 <= i < j < |r| ensures !less(r[j], r[i]) {
        if i > 0 {
          assert r[i] == t[i - 1] && r[j] == t[j - 1];
        }
      }
    }
  }

  /** The sort's result is sorted. */
  lemma {:induction false} SortSorted<T(!new)>(less: (T, T) -> bool, xs: seq<T>)
    requires WeakOrder(less)
    ensures Sorted(less, SortBy(less, xs))
    decreases |xs|
  {
    if |xs| > 0 {
      SortSorted(less, xs[1..]);
      InsertSorted(less, xs[0], SortBy(less, xs[1..]));
    }
  }

  /** Removing the element at `j` removes one occurrence of it. */
  lemma RemoveAtMultiset<T>(b: seq<T>, j: int)
    requires 0 <= j < |b|
    ensures multiset(b[..j] + b[j + 1..]) == multiset(b) - multiset{b[j]}
  {
    assert b == b[..j] + [b[j]] + b[j + 1..];
  }

  /** Sequences with the same elements and the same first element have tails with the
      same elements. */
  lemma MultisetTails<T>(a: seq<T>, b: seq<T>)
    requires |a| > 0 && |b| > 0 && a[0] == b[0] && multiset(a) == multiset(b)
    ensures multiset(a[1..]) == multiset(b[1..])
  {
    assert a == [a[0]] + a[1..] && b == [b[0]] + b[1..];
    assert multiset(a) == multiset{a[0]} + multiset(a[1..]);
    assert multiset(b) == multiset{a[0]} + multiset(b[1..]);
    forall x ensures multiset(a[1..])[x] == multiset(b[1..])[x] {
      assert multiset(a)[x] == multiset{a[0]}[x] + multiset(a[1..])[x];
      assert multiset(b)[x] == multiset{a[0]}[x] + multiset(b[1..])[x];
    }
  }

  /** Multisets that agree once one occurrence of `v` is taken from each agree. */
  lemma MultisetCancel<T>(m: multiset<T>, n: multiset<T>, v: T)
    requires v in m && v in n && m - multiset{v} == n - multiset{v}
    ensures m == n
  {
    forall x ensures m[x] == n[x] {
      assert (m - multiset{v})[x] == (n - multiset{v})[x];
    }
  }

  /** No element occurs twice. */
  ghost predicate NoDup<T>(xs: seq<T>) {
    forall i, j :: 0 <= i < j < |xs| ==> xs[i] != xs[j]
  }

  /** Removing the element at `j` from a sequence without repetition leaves every
      other element, once each. */
  lemma RemoveAtElements<T>(b: seq<T>, j: int)
    requires 0 <= j < |b| && NoDup(b)
    ensures NoDup(b[..j] + b[j + 1..])
    ensures forall y :: y in b[..j] + b[j + 1..] <==> y in b && y != b[j]
  {
    var rest := b[..j] + b[j + 1..];
    forall i, l | 0 <= i < l < |rest| ensures rest[i] != rest[l] {
      var bi := if i < j then i else i + 1;
      var bl := if l < j then l else l + 1;
      assert rest[i] == b[bi] && rest[l] == b[bl];
    }
    forall y ensures y in rest <==> y in b && y != b[j] {
      if y in rest {
        var k :| 0 <= k < |rest| && rest[k] == y;
        var m := if k < j then k else k + 1;
        assert b[m] == y && m != j;
      }
      if y in b && y != b[j] {
        var m :| 0 <= m < |b| && b[m] == y;
        if m < j {
          assert rest[m] == y;
        } else {
          assert rest[m - 1] == y;
        }
      }
    }
  }

  /** Sorted sequences of the same elements, any two different of which are ordered,
      begin alike. */
  lemma SortedHeads<T>(less: (T, T) -> bool, a: seq<T>, b: seq<T>)
    requires Sorted(less, a) && Sorted(less, b) && multiset(a) == multiset(b)
    requires Connected(less, a) && |a| > 0
    ensures |b| > 0 && a[0] == b[0]
  {
    assert a[0] in multiset(b);
    var j :| 0 <= j < |b| && b[j] == a[0];
    assert b[0] in multiset(a);
    var i :| 0 <= i < |a| && a[i] == b[0];
    if i > 0 && j > 0 {
      assert !less(a[i], a[0]) && !less(b[j], b[0]);
    }
  }

  lemma SortedTail<T>(less: (T, T) -> bool, a: seq<T>)
    requires |a| > 0 && Sorted(less, a)
    ensures Sorted(less, a[1..])
  {
  }

  lemma ConnectedTail<T>(less: (T, T) -> bool, a: seq<T>)
    requires |a| > 0 && Connected(less, a)
    ensures Connected(less, a[1..])
  {
    forall x, y | x in a[1..] && y in a[1..] && x != y ensures less(x, y) || less(y, x) {
      assert x in a && y in a;
    }
  }

  /** Two sorted arrangements of the same elements, any two different of which are
      ordered, are the same sequence. */
  lemma {:induction false} SortedUnique<T>(less: (T, T) -> bool, a: seq<T>, b: seq<T>)
    requires Sorted(less, a) && Sorted(less, b) && multiset(a) == multiset(b)
    requires Connected(less, a)
    ensures a == b
    decreases |a|
  {
    assert |a| == |multiset(a)| == |multiset(b)| == |b|;
    if |a| > 0 {
      SortedHeads(less, a, b);
      MultisetTails(a, b);
      SortedTail(less, a);
      SortedTail(less, b);
      ConnectedTail(less, a);
      SortedUnique(less, a[1..], b[1..]);
      assert a == [a[0]] + a[1..] && b == [b[0]] + b[1..];
    }
  }

  /** Sorting depends only on the elements, when any two different ones are ordered. */
  lemma SortUnique<T(!new)>(less: (T, T) -> bool, xs: seq<T>, ys: seq<T>)
    requires WeakOrder(less) && multiset(xs) == multiset(ys) && Connected(less, xs)
    ensures SortBy(less, xs) == SortBy(less, ys)
  {
    var a, b := SortBy(less, xs), SortBy(less, ys);
    SortSorted(less, xs);
    SortSorted(less, ys);
    forall x, y | x in a && y in a && x != y ensures less(x, y) || less(y, x) {
      assert x in multiset(xs) && y in multiset(xs);
    }
    SortedUnique(less, a, b);
  }

  /** `std::lexicographical_compare` with `less` on the elements: the first position
      where the elements are ordered decides, and a proper prefix comes first. */
  function LexLess<T>(less: (T, T) -> bool, a: seq<T>, b: seq<T>): bool
    decreases |a|
  {
    if |b| == 0 then false
    else if |a| == 0 then true
    else if less(a[0], b[0]) then true
    else if less(b[0], a[0]) then false
    else LexLess(less, a[1..], b[1..])
  }

  lemma {:induction false} LexAsymmetric<T(!new)>(less: (T, T) -> bool, a: seq<T>, b: seq<T>)
    requires WeakOrder(less)
    ensures LexLess(less, a, b) ==> !LexLess(less, b, a)
    decreases |a|
  {
    if |a| > 0 && |b| > 0 && !less(a[0], b[0]) && !less(b[0], a[0]) {
      LexAsymmetric(less, a[1..], b[1..]);
    }
  }

  lemma {:induction false} LexSplit<T(!new)>(less: (T, T) -> bool, a: seq<T>, b: seq<T>, c: seq<T>)
    requires WeakOrder(less)
    ensures LexLess(less, a, c) ==> LexLess(less, a, b) || LexLess(less, b, c)
    decreases |a|
  {
    if |a| > 0 && |b| > 0 && |c| > 0 {
      var x, y, z := a[0], b[0], c[0];
      assert less(x, z) ==> less(x, y) || less(y, z);
      assert less(y, x) ==> less(y, z) || less(z, x);
      assert less(z, y) ==> less(z, x) || less(x, y);
      LexSplit(less, a[1..], b[1..], c[1..]);
    }
  }

  /** The lexicographic extension of a strict weak ordering is one. */
  lemma LexWeakOrder<T(!new)>(less: (T, T) -> bool)
    requires WeakOrder(less)
    ensures WeakOrder((a: seq<T>, b: seq<T>) => LexLess(less, a, b))
  {
    forall a: seq<T>, b: seq<T> ensures LexLess(less, a, b) ==> !LexLess(less, b, a) {
      LexAsymmetric(less, a, b);
    }
    forall a: seq<T>, b: seq<T>, c: seq<T> ensures LexLess(less, a, c) ==> LexLess(less, a, b) || LexLess(less, b, c) {
      LexSplit(less, a, b, c);
    }
  }

  /** The vector comparison the groups are sorted by. */
  function GroupLess(a: seq<Stone>, b: seq<Stone>): bool {
    LexLess(StoneLess, a, b)
  }

  lemma StoneWeakOrder()
    ensures WeakOrder(StoneLess)
  {
  }

  lemma GroupWeakOrder()
    ensures WeakOrder(GroupLess)
  {
    StoneWeakOrder();
    LexWeakOrder(StoneLess);
    var lex := (a: seq<Stone>, b: seq<Stone>) => LexLess(StoneLess, a, b);
    assert forall a, b :: GroupLess(a, b) == lex(a, b);
  }

  /** Every group with its stones sorted. */
  function SortEach(gs: seq<seq<Stone>>): (r: seq<seq<Stone>>)
    ensures |r| == |gs|
  {
    seq(|gs|, i requires 0 <= i < |gs| => SortBy(StoneLess, gs[i]))
  }

  /** The canonical form `areGroupsEqual` compares. */
  function Canonical(gs: seq<seq<Stone>>): seq<seq<Stone>> {
    SortBy(GroupLess, SortEach(gs))
  }

  /** `areGroupsEqual`: sort copies of both lists, stones within groups first and then
      the groups, and compare the results. */
  method AreGroupsEqual(expectedGroups: seq<seq<Stone>>, foundGroups: seq<seq<Stone>>) returns (r: bool)
    ensures r <==> Canonical(expectedGroups) == Canonical(foundGroups)
  {
    var expected := SortStonesOfEach(expectedGroups);
    var found := SortStonesOfEach(foundGroups);
    expected := SortBy(GroupLess, expected);
    found := SortBy(GroupLess, found);
    r := expected == found;
  }

  /** The loop sorting the stones of every group of a copy. */
  method SortStonesOfEach(groups: seq<seq<Stone>>) returns (sorted: seq<seq<Stone>>)
    ensures sorted == SortEach(groups)
  {
    sorted := groups;
    for i := 0 to |sorted|
      invariant |sorted| == |groups|
      invariant forall k :: 0 <= k < i ==> sorted[k] == SortBy(StoneLess, groups[k])
      invariant forall k :: i <= k < |sorted| ==> sorted[k] == groups[k]
    {
      sorted := sorted[i := SortBy(StoneLess, sorted[i])];
    }
  }

  /** Sorting a copy sorts every group and orders the groups: the canonical form lists
      each group sorted, the groups in order, and nothing else. */
  lemma CanonicalIsSorted(gs: seq<seq<Stone>>)
    ensures multiset(Canonical(gs)) == multiset(SortEach(gs))
    ensures Sorted(GroupLess, Canonical(gs))
    ensures forall g :: g in Canonical(gs) ==> Sorted(StoneLess, g)
  {
    GroupWeakOrder();
    StoneWeakOrder();
    SortSorted(GroupLess, SortEach(gs));
    forall g | g in Canonical(gs) ensures Sorted(StoneLess, g) {
      assert g in multiset(SortEach(gs));
      var i :| 0 <= i < |gs| && SortEach(gs)[i] == g;
      SortSorted(StoneLess, gs[i]);
    }
  }

  /** The stones of one group lie on pairwise different points. */
  lemma StonesConnected(g: seq<Stone>)
    requires Distinct(Points(g))
    ensures Connected(StoneLess, g)
  {
    forall x, y | x in g && y in g && x != y ensures StoneLess(x, y) || StoneLess(y, x) {
      var k :| 0 <= k < |g| && g[k] == x;
      var l :| 0 <= l < |g| && g[l] == y;
      assert Points(g)[k] != Points(g)[l];
      StoneLessConnected(x, y);
    }
  }

  /** Reordering the stones of one group, its points pairwise different, leaves the
      canonical form as it was. */
  lemma CanonicalIgnoresStoneOrder(gs: seq<seq<Stone>>, i: int, p: seq<Stone>)
    requires 0 <= i < |gs| && multiset(p) == multiset(gs[i]) && Distinct(Points(gs[i]))
    ensures Canonical(gs[i := p]) == Canonical(gs)
  {
    StoneWeakOrder();
    StonesConnected(gs[i]);
    SortUnique(StoneLess, gs[i], p);
    assert SortEach(gs[i := p]) == SortEach(gs);
  }

  /** No two stones of the groups, in the same group or not, share a point. */
  ghost predicate DistinctPositions(gs: seq<seq<Stone>>) {
    forall i, j, k, l ::
      0 <= i < |gs| && 0 <= j < |gs| && 0 <= k < |gs[i]| && 0 <= l < |gs[j]| && (i != j || k != l) ==>
        gs[i][k].x != gs[j][l].x || gs[i][k].y != gs[j][l].y
  }

  /** Sorting every group commutes with removing one group. */
  lemma SortEachRemove(gs: seq<seq<Stone>>, j: int)
    requires 0 <= j < |gs|
    ensures multiset(SortEach(gs[..j] + gs[j + 1..])) == multiset(SortEach(gs)) - multiset{SortEach(gs)[j]}
  {
    assert SortEach(gs[..j] + gs[j + 1..]) == SortEach(gs)[..j] + SortEach(gs)[j + 1..];
    RemoveAtMultiset(SortEach(gs), j);
  }

  /** Taking the head of one sequence and the same element of a rearrangement of it
      leaves rearrangements of each other. */
  lemma TailsAgree<T>(a: seq<T>, b: seq<T>, j: int)
    requires |a| > 0 && 0 <= j < |b| && b[j] == a[0] && multiset(a) == multiset(b)
    ensures multiset(a[1..]) == multiset(b[..j] + b[j + 1..])
  {
    RemoveAtMultiset(b, j);
    assert a == [a[0]] + a[1..];
  }

  /** Sorting every group maps a rearrangement of the groups to a rearrangement of the
      sorted groups. */
  lemma {:induction false} SortEachPermutes(gs: seq<seq<Stone>>, hs: seq<seq<Stone>>)
    requires multiset(gs) == multiset(hs)
    ensures multiset(SortEach(gs)) == multiset(SortEach(hs))
    decreases |gs|
  {
    assert |gs| == |multiset(gs)| == |multiset(hs)| == |hs|;
    if |gs| > 0 {
      var x := gs[0];
      assert x in multiset(hs);
      var j :| 0 <= j < |hs| && hs[j] == x;
      TailsAgree(gs, hs, j);
      SortEachPermutes(gs[1..], hs[..j] + hs[j + 1..]);
      assert gs[..0] + gs[1..] == gs[1..];
      assert SortEach(gs[..0] + gs[1..]) == SortEach(gs[1..]);
      SortEachRemove(gs, 0);
      SortEachRemove(hs, j);
      var v := SortBy(StoneLess, x);
      assert SortEach(gs)[0] == v && SortEach(hs)[j] == v;
      MultisetCancel(multiset(SortEach(gs)), multiset(SortEach(hs)), v);
    }
  }

  /** Different groups of a family on pairwise different points are ordered once
      their stones are sorted: their first stones already lie on different points. */
  lemma SortedGroupsConnected(gs: seq<seq<Stone>>)
    requires DistinctPositions(gs)
    ensures Connected(GroupLess, SortEach(gs))
  {
    var s := SortEach(gs);
    forall x, y | x in s && y in s && x != y ensures GroupLess(x, y) || GroupLess(y, x) {
      var i :| 0 <= i < |s| && s[i] == x;
      var j :| 0 <= j < |s| && s[j] == y;
      if |x| > 0 && |y| > 0 {
        assert x[0] in multiset(gs[i]) && y[0] in multiset(gs[j]);
        var k :| 0 <= k < |gs[i]| && gs[i][k] == x[0];
        var l :| 0 <= l < |gs[j]| && gs[j][l] == y[0];
        StoneLessConnected(x[0], y[0]);
      }
    }
  }

  /** Rearranging the groups of a family on pairwise different points leaves the
      canonical form as it was. */
  lemma CanonicalIgnoresGroupOrder(gs: seq<seq<Stone>>, hs: seq<seq<Stone>>)
    requires multiset(gs) == multiset(hs) && DistinctPositions(gs)
    ensures Canonical(gs) == Canonical(hs)
  {
    GroupWeakOrder();
    SortEachPermutes(gs, hs);
    SortedGroupsConnected(gs);
    SortUnique(GroupLess, SortEach(gs), SortEach(hs));
  }

  /** Sequences without repetition holding the same elements hold them equally often. */
  lemma {:induction false} SameElementsSameMultiset<T>(a: seq<T>, b: seq<T>)
    requires NoDup(a) && NoDup(b)
    requires forall x :: x in a <==> x in b
    ensures multiset(a) == multiset(b)
    decreases |a|
  {
    if |a| == 0 {
      forall y ensures multiset(b)[y] == 0 {
        assert y !in a;
      }
    } else {
      var x := a[0];
      assert x in b;
      var j :| 0 <= j < |b| && b[j] == x;
      RemoveAtElements(a, 0);
      RemoveAtElements(b, j);
      var rest := b[..j] + b[j + 1..];
      forall y ensures y in a[1..] <==> y in rest {
        assert y in a[1..] <==> y in a && y != x;
        assert y in rest <==> y in b && y != x;
      }
      SameElementsSameMultiset(a[1..], rest);
      HeadsCancel(a, b, j);
    }
  }

  /** Two sequences whose heads match an element `j` of the other agree as multisets
      once the rests do. */
  lemma HeadsCancel<T>(a: seq<T>, b: seq<T>, j: int)
    requires |a| > 0 && 0 <= j < |b| && b[j] == a[0]
    requires multiset(a[1..]) == multiset(b[..j] + b[j + 1..])
    ensures multiset(a) == multiset(b)
  {
    RemoveAtMultiset(b, j);
    assert a == [a[0]] + a[1..];
    MultisetCancel(multiset(a), multiset(b), a[0]);
  }

  /** The stones of a group on pairwise different points are pairwise different. */
  lemma DistinctStones(g: seq<Stone>)
    requires Distinct(Points(g))
    ensures NoDup(g)
  {
    forall i, j | 0 <= i < j < |g| ensures g[i] != g[j] {
      assert Points(g)[i] != Points(g)[j];
    }
  }

  /** Two single groups on pairwise different points that hold the same stones compare
      equal, whatever order each lists them in. */
  lemma SingleGroupsEqual(e: seq<Stone>, g: seq<Stone>)
    requires Distinct(Points(e)) && Distinct(Points(g))
    requires forall s :: s in e <==> s in g
    ensures Canonical([e]) == Canonical([g])
  {
    DistinctStones(e);
    DistinctStones(g);
    SameElementsSameMultiset(e, g);
    StoneWeakOrder();
    StonesConnected(e);
    SortUnique(StoneLess, e, g);
    assert SortEach([e]) == [SortBy(StoneLess, e)];
    assert SortEach([g]) == [SortBy(StoneLess, g)];
  }
}
