/** Breadth-first traversal of a possibly cyclic hierarchy, and the units that depend on a unit. */
module HierarchyWalk {
  import opened Prelude
  import opened Canonical
  import opened Tables
  import opened Store
  import opened Lookups
  import opened Ordering

  // Reachability in a finite graph given by its successor sets.

  /** The nodes at most `n` steps from the root. */
  ghost function Within(next: string -> set<string>, root: string, n: nat): set<string> {
    if n == 0 then {root}
    else
      var inner := Within(next, root, n - 1);
      inner + (set x, y | x in inner && y in next(x) :: y)
  }

  ghost predicate Reachable(next: string -> set<string>, root: string, x: string) {
    exists n: nat :: x in Within(next, root, n)
  }

  ghost predicate IsDistance(next: string -> set<string>, root: string, x: string, n: nat) {
    x in Within(next, root, n) && (n > 0 ==> x !in Within(next, root, n - 1))
  }

  lemma {:induction false} WithinMonotone(next: string -> set<string>, root: string, m: nat, n: nat)
    requires m <= n
    ensures Within(next, root, m) <= Within(next, root, n)
    decreases n - m
  {
    if m < n {
      WithinMonotone(next, root, m + 1, n);
    }
  }

  ghost predicate Rising(dist: seq<nat>) {
    forall i, j :: 0 <= i < j < |dist| ==> dist[i] <= dist[j]
  }

  // A family of neighbourhoods of the root: growing, closed under stepping, with a predecessor for each newcomer.

  ghost predicate Growing(w: nat -> set<string>) {
    forall m: nat, n: nat {:trigger w(m), w(n)} :: m <= n ==> w(m) <= w(n)
  }

  ghost predicate ClosedUnder(next: string -> set<string>, w: nat -> set<string>) {
    forall n: nat, x, y {:trigger x in w(n), y in next(x)} :: x in w(n) && y in next(x) ==> y in w(n + 1)
  }

  ghost predicate Precedes(next: string -> set<string>, w: nat -> set<string>, before: (nat, string) -> string) {
    forall n: nat, y {:trigger before(n, y)} :: n > 0 && y in w(n) && y !in w(n - 1) ==>
      before(n, y) in w(n - 1) && y in next(before(n, y))
  }

  ghost predicate Grows(next: string -> set<string>, root: string, w: nat -> set<string>,
                        before: (nat, string) -> string) {
    w(0) == {root} && Growing(w) && ClosedUnder(next, w) && Precedes(next, w, before)
  }

  ghost predicate Distances(w: nat -> set<string>, order: seq<string>, dist: seq<nat>) {
    && |dist| == |order|
    && forall i :: 0 <= i < |order| ==> order[i] in w(dist[i]) && (dist[i] > 0 ==> order[i] !in w(dist[i] - 1))
  }

  /** The successors of the first `head` entries are all queued. */
  ghost predicate Expanded(next: string -> set<string>, order: seq<string>, head: nat) {
    head <= |order| && forall i, y :: 0 <= i < head && y in next(order[i]) ==> y in order
  }

  /** The queue so far, with the distance of each entry; the first `head` entries have been expanded. */
  ghost predicate Layered(next: string -> set<string>, root: string, w: nat -> set<string>,
                          order: seq<string>, dist: seq<nat>, head: nat) {
    && Distances(w, order, dist) && Expanded(next, order, head)
    && |order| > 0 && order[0] == root && dist[0] == 0
    && Distinct(order) && Rising(dist)
    && (head < |order| ==> dist[|order| - 1] <= dist[head] + 1)
  }

  lemma LayeredLengths(next: string -> set<string>, root: string, w: nat -> set<string>,
                       order: seq<string>, dist: seq<nat>, head: nat)
    requires Layered(next, root, w, order, dist, head)
    ensures |dist| == |order| && head <= |order|
  {
  }

  lemma SuccessorQueued(
      next: string -> set<string>, w: nat -> set<string>,
      order: seq<string>, dist: seq<nat>, head: nat, k: nat, x: string, y: string)
    requires Growing(w)
    requires Distances(w, order, dist) && Expanded(next, order, head) && Rising(dist)
    requires head < |order| ==> k < dist[head]
    requires x in order && x in w(k) && y in next(x)
    ensures y in order
  {
    var i :| 0 <= i < |order| && order[i] == x;
    if i >= head {
      assert false;
    }
  }

  /** Everything nearer than the entry about to be expanded is already in the queue. */
  lemma {:induction false} NearNodesQueued(
      next: string -> set<string>, root: string, w: nat -> set<string>, before: (nat, string) -> string,
      order: seq<string>, dist: seq<nat>, head: nat, k: nat)
    requires Grows(next, root, w, before)
    requires Layered(next, root, w, order, dist, head)
    requires head < |order| ==> k <= dist[head]
    ensures forall x :: x in w(k) ==> x in order
  {
    if k > 0 {
      NearNodesQueued(next, root, w, before, order, dist, head, k - 1);
      forall y | y in w(k) ensures y in order {
        if y !in w(k - 1) {
          SuccessorQueued(next, w, order, dist, head, k - 1, before(k, y), y);
        }
      }
    }
  }

  lemma DistancesConcat(w: nat -> set<string>, a: seq<string>, d: seq<nat>, b: seq<string>, e: seq<nat>)
    requires Distances(w, a, d) && Distances(w, b, e)
    ensures Distances(w, a + b, d + e)
  {
  }

  /** Expanding the next entry appends its unseen successors one layer further out. */
  lemma ExpandNext(
      next: string -> set<string>, root: string, w: nat -> set<string>, before: (nat, string) -> string,
      order: seq<string>, dist: seq<nat>, head: nat, more: seq<string>)
    requires Grows(next, root, w, before)
    requires Layered(next, root, w, order, dist, head) && head < |order|
    requires Distinct(more) && forall y :: y in more ==> y in next(order[head]) && y !in order
    requires forall y :: y in next(order[head]) ==> y in order || y in more
    ensures Layered(next, root, w, order + more, dist + seq(|more|, i => dist[head] + 1), head + 1)
  {
    var level := dist[head];
    var further := seq(|more|, i => level + 1);
    NearNodesQueued(next, root, w, before, order, dist, head, level);
    forall i | 0 <= i < |more| ensures more[i] in w(level + 1) && more[i] !in w(level) {
      assert more[i] in more;
    }
    DistancesConcat(w, order, dist, more, further);
    DistinctConcat(order, more);
    StillExpanded(next, order, more, head);
    RisingFurther(dist, head, |more|);
  }

  lemma StillExpanded(next: string -> set<string>, order: seq<string>, more: seq<string>, head: nat)
    requires Expanded(next, order, head) && head < |order|
    requires forall y :: y in next(order[head]) ==> y in order || y in more
    ensures Expanded(next, order + more, head + 1)
  {
    var all := order + more;
    forall i, y | 0 <= i < head + 1 && y in next(all[i]) ensures y in all {
      assert all[i] == order[i];
    }
  }

  lemma RisingFurther(dist: seq<nat>, head: nat, n: nat)
    requires Rising(dist) && head < |dist| && dist[|dist| - 1] <= dist[head] + 1
    ensures Rising(dist + seq(n, i => dist[head] + 1))
    ensures var all := dist + seq(n, i => dist[head] + 1);
      head + 1 < |all| ==> all[|all| - 1] <= all[head + 1] + 1
  {
    assert forall i :: 0 <= i < |dist| - 1 ==> dist[i] <= dist[|dist| - 1];
    assert head + 1 < |dist| ==> dist[head] <= dist[head + 1];
  }

  /** The real neighbourhoods grow so. */
  ghost function Neighbourhoods(next: string -> set<string>, root: string): nat -> set<string> {
    (n: nat) => Within(next, root, n)
  }

  ghost function Predecessor(next: string -> set<string>, root: string, n: nat, y: string): string {
    if n > 0 && exists x :: x in Within(next, root, n - 1) && y in next(x) then
      var x :| x in Within(next, root, n - 1) && y in next(x); x
    else ""
  }

  ghost function Predecessors(next: string -> set<string>, root: string): (nat, string) -> string {
    (n: nat, y: string) => Predecessor(next, root, n, y)
  }

  lemma NeighbourhoodsGrow(next: string -> set<string>, root: string)
    ensures Grows(next, root, Neighbourhoods(next, root), Predecessors(next, root))
  {
    var w, before := Neighbourhoods(next, root), Predecessors(next, root);
    forall m: nat, n: nat | m <= n ensures w(m) <= w(n) {
      WithinMonotone(next, root, m, n);
    }
    forall n: nat, y {:trigger before(n, y)} | n > 0 && y in w(n) && y !in w(n - 1)
      ensures before(n, y) in w(n - 1) && y in next(before(n, y))
    {
      assert exists x :: x in Within(next, root, n - 1) && y in next(x);
    }
    forall n: nat, x, y | x in w(n) && y in next(x) ensures y in w(n + 1) {
      assert x in Within(next, root, n);
    }
  }

  // The walk, over any query that lists the edges into a symbol.

  type Query = string -> seq<HierarchyEdge>

  function SubtypesOf(edges: seq<HierarchyEdge>): seq<string> {
    if edges == [] then [] else [edges[0].subtype] + SubtypesOf(edges[1..])
  }

  lemma {:induction false} SubtypesAt(edges: seq<HierarchyEdge>)
    ensures |SubtypesOf(edges)| == |edges|
    ensures forall i :: 0 <= i < |edges| ==> SubtypesOf(edges)[i] == edges[i].subtype
  {
    if edges != [] {
      SubtypesAt(edges[1..]);
    }
  }

  lemma {:induction false} SubtypesConcat(a: seq<HierarchyEdge>, b: seq<HierarchyEdge>)
    ensures SubtypesOf(a + b) == SubtypesOf(a) + SubtypesOf(b)
  {
    if a == [] {
      assert a + b == b;
    } else {
      assert (a + b)[1..] == a[1..] + b;
      SubtypesConcat(a[1..], b);
    }
  }

  lemma SubtypesMember(edges: seq<HierarchyEdge>, x: string)
    ensures x in SubtypesOf(edges) <==> exists e :: e in edges && e.subtype == x
  {
    SubtypesAt(edges);
    if x in SubtypesOf(edges) {
      var i :| 0 <= i < |edges| && SubtypesOf(edges)[i] == x;
      assert edges[i] in edges;
    }
    if e :| e in edges && e.subtype == x {
      var i :| 0 <= i < |edges| && edges[i] == e;
      assert SubtypesOf(edges)[i] == x;
    }
  }

  ghost function Elements(s: seq<string>): set<string> {
    if s == [] then {} else {s[0]} + Elements(s[1..])
  }

  lemma {:induction false} ElementsMember(s: seq<string>, x: string)
    ensures x in Elements(s) <==> x in s
  {
    if s != [] {
      ElementsMember(s[1..], x);
      assert s == [s[0]] + s[1..];
    }
  }

  lemma {:induction false} ElementsConcat(a: seq<string>, b: seq<string>)
    ensures Elements(a + b) == Elements(a) + Elements(b)
  {
    if a == [] {
      assert a + b == b;
    } else {
      assert (a + b)[1..] == a[1..] + b;
      ElementsConcat(a[1..], b);
    }
  }

  lemma ElementsWithin(s: seq<string>, universe: set<string>)
    requires forall x :: x in s ==> x in universe
    ensures Elements(s) <= universe
  {
    forall x | x in Elements(s) ensures x in universe {
      ElementsMember(s, x);
    }
  }

  lemma {:induction false} ElementsSnoc(s: seq<string>, x: string)
    ensures Elements(s + [x]) == Elements(s) + {x}
  {
    if s == [] {
      assert s + [x] == [x];
    } else {
      assert (s + [x])[1..] == s[1..] + [x];
      ElementsSnoc(s[1..], x);
    }
  }

  ghost function Graph(query: Query): string -> set<string> {
    (x: string) => Elements(SubtypesOf(query(x)))
  }

  /** Each found edge is one the query lists, leaving the root or the subtype of an earlier found edge. */
  ghost predicate Grounded(query: Query, root: string, result: seq<HierarchyEdge>) {
    forall i :: 0 <= i < |result| ==>
      && result[i] in query(result[i].supertype)
      && (result[i].supertype == root || result[i].supertype in SubtypesOf(result[..i]))
  }

  /** What the walk answers: every reachable symbol but the root, once, nearest first, through a stored edge. */
  ghost predicate IsWalk(query: Query, root: string, result: seq<HierarchyEdge>, dist: seq<nat>) {
    && Grounded(query, root, result)
    && (forall x :: x in SubtypesOf(result) <==> x != root && Reachable(Graph(query), root, x))
    && Distinct(SubtypesOf(result))
    && |dist| == |result| && Rising(dist)
    && (forall i :: 0 <= i < |result| ==> IsDistance(Graph(query), root, result[i].subtype, dist[i]))
  }

  ghost predicate IsNearestFirst(query: Query, root: string, result: seq<HierarchyEdge>) {
    exists dist :: IsWalk(query, root, result, dist)
  }

  /** The query answers with edges into the symbol asked for, from a finite set of subtypes. */
  ghost predicate Lists(query: Query, universe: set<string>) {
    forall x, e {:trigger e in query(x)} :: e in query(x) ==> e.supertype == x && e.subtype in universe
  }

  /** The edges that lead somewhere unseen, in order, one a subtype. */
  function NewEdges(edges: seq<HierarchyEdge>, visited: set<string>): seq<HierarchyEdge> {
    if edges == [] then []
    else if edges[0].subtype in visited then NewEdges(edges[1..], visited)
    else [edges[0]] + NewEdges(edges[1..], visited + {edges[0].subtype})
  }

  lemma {:induction false} NewEdgesLeadOutside(edges: seq<HierarchyEdge>, visited: set<string>)
    ensures forall e :: e in NewEdges(edges, visited) ==> e in edges && e.subtype !in visited
    ensures Distinct(SubtypesOf(NewEdges(edges, visited)))
    ensures forall e :: e in edges ==> e.subtype in visited || e.subtype in SubtypesOf(NewEdges(edges, visited))
  {
    if edges != [] {
      var first := edges[0];
      assert edges == [first] + edges[1..];
      if first.subtype in visited {
        NewEdgesLeadOutside(edges[1..], visited);
      } else {
        var rest := NewEdges(edges[1..], visited + {first.subtype});
        NewEdgesLeadOutside(edges[1..], visited + {first.subtype});
        assert SubtypesOf([first] + rest) == [first.subtype] + SubtypesOf(rest);
        forall y | y in SubtypesOf(rest) ensures y != first.subtype {
          SubtypesMember(rest, y);
        }
        DistinctConcat([first.subtype], SubtypesOf(rest));
      }
    }
  }

  lemma NewSubtypes(query: Query, x: string, order: seq<string>, seen: set<string>)
    requires forall y :: y in seen <==> y in order
    ensures var more := SubtypesOf(NewEdges(query(x), seen));
      && Distinct(more)
      && (forall y :: y in more ==> y in Graph(query)(x) && y !in order)
      && (forall y :: y in Graph(query)(x) ==> y in order || y in more)
  {
    var found := NewEdges(query(x), seen);
    NewEdgesLeadOutside(query(x), seen);
    forall y ensures y in Graph(query)(x) <==> exists e :: e in query(x) && e.subtype == y {
      ElementsMember(SubtypesOf(query(x)), y);
      SubtypesMember(query(x), y);
    }
    forall y | y in SubtypesOf(found) ensures y in Graph(query)(x) && y !in order {
      SubtypesMember(found, y);
    }
  }

  lemma NewEdgesListed(query: Query, universe: set<string>, x: string, seen: set<string>)
    requires Lists(query, universe)
    ensures forall e :: e in NewEdges(query(x), seen) ==> e in query(x) && e.supertype == x
    ensures forall y :: y in SubtypesOf(NewEdges(query(x), seen)) ==> y in universe
  {
    var more := NewEdges(query(x), seen);
    NewEdgesLeadOutside(query(x), seen);
    forall y | y in SubtypesOf(more) ensures y in universe {
      SubtypesMember(more, y);
    }
  }

  /** Expanding the entry at `head` keeps the queue in layers. */
  lemma QueueStep(query: Query, root: string, w: nat -> set<string>, before: (nat, string) -> string,
                  found: seq<HierarchyEdge>, order: seq<string>, distances: seq<nat>, head: nat, seen: set<string>)
    requires Grows(Graph(query), root, w, before)
    requires order == [root] + SubtypesOf(found)
    requires Layered(Graph(query), root, w, order, distances, head) && head < |order|
    requires forall x :: x in seen <==> x in order
    ensures var more := NewEdges(query(order[head]), seen);
      && Layered(Graph(query), root, w, [root] + SubtypesOf(found + more),
                 distances + seq(|SubtypesOf(more)|, i => distances[head] + 1), head + 1)
      && [root] + SubtypesOf(found + more) == order + SubtypesOf(more)
  {
    hide Layered, Grows, Distinct;
    var more := NewEdges(query(order[head]), seen);
    LayeredLengths(Graph(query), root, w, order, distances, head);
    NewSubtypes(query, order[head], order, seen);
    SubtypesConcat(found, more);
    ExpandNext(Graph(query), root, w, before, order, distances, head, SubtypesOf(more));
    assert [root] + SubtypesOf(found + more) == order + SubtypesOf(more);
  }

  lemma GroundedMore(query: Query, root: string, found: seq<HierarchyEdge>, more: seq<HierarchyEdge>, supertype: string)
    requires Grounded(query, root, found) && supertype in [root] + SubtypesOf(found)
    requires forall e :: e in more ==> e in query(supertype) && e.supertype == supertype
    ensures Grounded(query, root, found + more)
  {
    var all := found + more;
    forall i | 0 <= i < |all|
      ensures all[i] in query(all[i].supertype)
      ensures all[i].supertype == root || all[i].supertype in SubtypesOf(all[..i])
    {
      if i < |found| {
        assert all[i] == found[i] && all[..i] == found[..i];
      } else {
        assert all[i] == more[i - |found|] && all[i] in more;
        assert all[..i] == found + more[..i - |found|];
        SubtypesConcat(found, more[..i - |found|]);
      }
    }
  }

  method Walk(query: Query, root: string, ghost universe: set<string>)
      returns (result: seq<HierarchyEdge>)
    requires Lists(query, universe)
    ensures IsNearestFirst(query, root, result)
  {
    hide Layered, Grows, Grounded, IsWalk, Lists, NewEdges, Graph;
    ghost var next := Graph(query);
    ghost var w, before := Neighbourhoods(next, root), Predecessors(next, root);
    NeighbourhoodsGrow(next, root);
    var pending := [root];
    var visited := {root};
    result := [];
    ghost var order: seq<string>, distances: seq<nat>, head := [root], [0], 0;
    WalkBegins(query, root);
    while pending != []
      invariant order == [root] + SubtypesOf(result)
      invariant head <= |order| && pending == order[head..]
      invariant visited == Elements(order) && visited <= universe + {root}
      invariant Layered(next, root, w, order, distances, head)
      invariant Grounded(query, root, result)
      decreases |universe + {root} - visited|, |pending|
    {
      var supertype := pending[0];
      ghost var seen, more := visited, NewEdges(query(supertype), visited);
      forall x ensures x in visited <==> x in order {
        ElementsMember(order, x);
      }
      QueueStep(query, root, w, before, result, order, distances, head, visited);
      NewEdgesListed(query, universe, supertype, visited);
      GroundedMore(query, root, result, more, supertype);
      LayeredLengths(next, root, w, order, distances, head);
      result, pending, visited := VisitEdges(query(supertype), result, pending[1..], visited);
      SliceConcat(order, SubtypesOf(more), head + 1);
      ElementsConcat(order, SubtypesOf(more));
      ElementsWithin(SubtypesOf(more), universe);
      distances := distances + seq(|SubtypesOf(more)|, i => distances[head] + 1);
      order := order + SubtypesOf(more);
      head := head + 1;
      ShrinkingMeasure(universe + {root}, seen, visited);
      if visited == seen {
        NothingNew(query(supertype), seen);
      }
    }
    LayeredLengths(next, root, w, order, distances, head);
    WalkComplete(query, root, w, before, result, distances);
    assert IsWalk(query, root, result, distances[1..]);
  }

  lemma SliceConcat(a: seq<string>, b: seq<string>, k: nat)
    requires 0 < k <= |a|
    ensures (a + b)[k..] == a[k - 1..][1..] + b
  {
  }

  lemma WalkBegins(query: Query, root: string)
    ensures Layered(Graph(query), root, Neighbourhoods(Graph(query), root), [root], [0], 0)
    ensures Grounded(query, root, []) && [root] + SubtypesOf([]) == [root] && Elements([root]) == {root}
  {
    assert IsDistance(Graph(query), root, root, 0);
  }

  lemma NothingNew(edges: seq<HierarchyEdge>, visited: set<string>)
    requires visited + Elements(SubtypesOf(NewEdges(edges, visited))) == visited
    ensures SubtypesOf(NewEdges(edges, visited)) == []
  {
    var more := NewEdges(edges, visited);
    NewEdgesLeadOutside(edges, visited);
    if more != [] {
      ElementsMember(SubtypesOf(more), more[0].subtype);
    }
  }

  /** The inner loop: queue and record every edge whose subtype is new. */
  method VisitEdges(edges: seq<HierarchyEdge>, result0: seq<HierarchyEdge>, pending0: seq<string>,
                    visited0: set<string>)
      returns (result: seq<HierarchyEdge>, pending: seq<string>, visited: set<string>)
    ensures result == result0 + NewEdges(edges, visited0)
    ensures pending == pending0 + SubtypesOf(NewEdges(edges, visited0))
    ensures visited == visited0 + Elements(SubtypesOf(NewEdges(edges, visited0)))
  {
    hide SubtypesOf, Elements;
    result, pending, visited := result0, pending0, visited0;
    ghost var found: seq<HierarchyEdge> := [];
    NothingVisited();
    var k := 0;
    while k < |edges|
      invariant 0 <= k <= |edges|
      invariant NewEdges(edges, visited0) == found + NewEdges(edges[k..], visited)
      invariant result == result0 + found
      invariant pending == pending0 + SubtypesOf(found)
      invariant visited == visited0 + Elements(SubtypesOf(found))
    {
      var edge := edges[k];
      assert edges[k..][1..] == edges[k + 1..];
      if edge.subtype !in visited {
        VisitStep(found, edge);
        Reassociate(found, [edge], NewEdges(edges[k + 1..], visited + {edge.subtype}));
        visited := visited + {edge.subtype};
        pending := pending + [edge.subtype];
        result := result + [edge];
        found := found + [edge];
      }
      k := k + 1;
    }
    assert found + [] == found;
  }

  lemma NothingVisited()
    ensures SubtypesOf([]) == [] && Elements([]) == {}
  {
  }

  lemma VisitStep(found: seq<HierarchyEdge>, edge: HierarchyEdge)
    ensures SubtypesOf(found + [edge]) == SubtypesOf(found) + [edge.subtype]
    ensures Elements(SubtypesOf(found + [edge])) == Elements(SubtypesOf(found)) + {edge.subtype}
  {
    SubtypesConcat(found, [edge]);
    assert SubtypesOf([edge]) == [edge.subtype];
    ElementsSnoc(SubtypesOf(found), edge.subtype);
  }

  /** Seeing something new shrinks what is left to see. */
  lemma ShrinkingMeasure(universe: set<string>, before: set<string>, after: set<string>)
    requires before <= after <= universe
    ensures after == before || |universe - after| < |universe - before|
  {
    if x :| x in after && x !in before {
      SubsetSize(universe - after, universe - before - {x});
    }
  }

  lemma {:induction false} SubsetSize(a: set<string>, b: set<string>)
    requires a <= b
    ensures |a| <= |b|
    decreases a
  {
    if a != {} {
      var x :| x in a;
      SubsetSize(a - {x}, b - {x});
    }
  }

  lemma WalkComplete(query: Query, root: string, w: nat -> set<string>, before: (nat, string) -> string,
                     result: seq<HierarchyEdge>, distances: seq<nat>)
    requires w == Neighbourhoods(Graph(query), root) && Grows(Graph(query), root, w, before)
    requires Grounded(query, root, result)
    requires Layered(Graph(query), root, w, [root] + SubtypesOf(result), distances, |[root] + SubtypesOf(result)|)
    ensures |distances| > 0 && IsWalk(query, root, result, distances[1..])
  {
    hide Layered, Grows, Grounded, Distinct, Rising, IsDistance;
    var next := Graph(query);
    var order := [root] + SubtypesOf(result);
    var found := SubtypesOf(result);
    SubtypesAt(result);
    QueueShifts(next, root, w, order, distances);
    forall x ensures x in found <==> x != root && Reachable(next, root, x) {
      if x in found {
        var i :| 0 <= i < |found| && found[i] == x;
        assert x == order[1..][i];
        DistanceIs(next, root, w, order, distances, i + 1);
      }
      if x != root && Reachable(next, root, x) {
        var n: nat :| x in Within(next, root, n);
        NearNodesQueued(next, root, w, before, order, distances, |order|, n);
        assert x in w(n);
      }
    }
    forall i | 0 <= i < |result| ensures IsDistance(next, root, result[i].subtype, distances[1..][i]) {
      DistanceIs(next, root, w, order, distances, i + 1);
    }
  }

  lemma DistanceIs(next: string -> set<string>, root: string, w: nat -> set<string>,
                   order: seq<string>, dist: seq<nat>, i: nat)
    requires w == Neighbourhoods(next, root) && Layered(next, root, w, order, dist, |order|) && i < |order|
    ensures IsDistance(next, root, order[i], dist[i])
    ensures i > 0 ==> order[i] != root
  {
    assert order[i] in w(dist[i]);
  }

  lemma QueueShifts(next: string -> set<string>, root: string, w: nat -> set<string>, order: seq<string>,
                    dist: seq<nat>)
    requires Layered(next, root, w, order, dist, |order|)
    ensures |dist| == |order| && Distinct(order[1..]) && Rising(dist[1..])
  {
    forall i, j | 0 <= i < j < |order[1..]| ensures order[1..][i] != order[1..][j] {
      assert order[i + 1] != order[j + 1];
    }
    forall i, j | 0 <= i < j < |dist[1..]| ensures dist[1..][i] <= dist[1..][j] {
      assert dist[i + 1] <= dist[j + 1];
    }
  }

  // The walk over the stored hierarchy.

  function EdgesInto(rows: seq<Row>, supertype: string): seq<HierarchyEdge> {
    Map(ImplementationsOf(rows, supertype), (r: Row) =>
      if r.HierarchyRow? then r.edge else HierarchyEdge("", supertype, Exact, Provenance("", "", 0, "")))
  }

  function StoredQuery(rows: seq<Row>): Query {
    (x: string) => EdgesInto(rows, x)
  }

  ghost function StoredSubtypes(c: seq<Snapshot>): set<string> {
    set s, e | s in c && e in s.hierarchy :: e.subtype
  }

  /** The stored query lists exactly the committed hierarchy edges into a symbol. */
  lemma EdgesIntoMember(c: seq<Snapshot>, supertype: string, e: HierarchyEdge)
    ensures e in EdgesInto(AllRows(c), supertype) <==>
      exists s :: s in c && e in s.hierarchy && e.supertype == supertype
  {
    var found := ImplementationsOf(AllRows(c), supertype);
    var f := (r: Row) =>
      if r.HierarchyRow? then r.edge else HierarchyEdge("", supertype, Exact, Provenance("", "", 0, ""));
    MapMember(found, f, e);
    if k :| 0 <= k < |found| && f(found[k]) == e {
      ImplementationsMember(c, supertype, found[k]);
    }
    if s :| s in c && e in s.hierarchy && e.supertype == supertype {
      var r := HierarchyRowOf(s.sourceUnit.id, e);
      ImplementationsMember(c, supertype, r);
      var k :| 0 <= k < |found| && found[k] == r;
      assert f(found[k]) == e;
    }
  }

  lemma StoredQueryLists(c: seq<Snapshot>)
    ensures Lists(StoredQuery(AllRows(c)), StoredSubtypes(c))
  {
    var query := StoredQuery(AllRows(c));
    forall x, e | e in query(x) ensures e.supertype == x && e.subtype in StoredSubtypes(c) {
      EdgesIntoMember(c, x, e);
    }
  }

  method ImplementationsOfTransitive(rows: seq<Row>, root: string, ghost c: seq<Snapshot>)
      returns (result: seq<HierarchyEdge>)
    requires rows == AllRows(c)
    ensures IsNearestFirst(StoredQuery(rows), root, result)
  {
    StoredQueryLists(c);
    result := Walk(StoredQuery(rows), root, StoredSubtypes(c));
  }

  // Dependents.

  /** A unit depends on another through a reference, a call, or a subtype it declares. */
  ghost predicate DependsOn(c: seq<Snapshot>, dependent: string, u: string) {
    && dependent != u
    && exists s, x :: s in c && s.sourceUnit.id == u && x in s.symbols && PointsAt(c, dependent, x.id)
  }

  ghost predicate PointsAt(c: seq<Snapshot>, dependent: string, symbol: string) {
    || (exists t, e :: t in c && t.sourceUnit.id == dependent && e in t.references && e.target == symbol)
    || (exists t, e :: t in c && t.sourceUnit.id == dependent && e in t.calls && e.target == symbol)
    || (exists t, e :: t in c && e in t.hierarchy && e.supertype == symbol && Declares(c, dependent, e.subtype))
  }

  ghost predicate Declares(c: seq<Snapshot>, u: string, symbol: string) {
    exists t, y :: t in c && t.sourceUnit.id == u && y in t.symbols && y.id == symbol
  }

  function SourceUnitOf(r: Row): Option<string> {
    if r.ReferenceRow? then Some(r.reference.source.range.sourceUnit)
    else if r.CallRow? then Some(r.call.source.range.sourceUnit) else None
  }

  function EdgeSources(edges: seq<Row>): seq<string> {
    FilterMap(edges, SourceUnitOf)
  }

  function SubtypeUnits(rows: seq<Row>, edges: seq<Row>): seq<string> {
    FilterMap(edges, (r: Row) =>
      if r.HierarchyRow? && SymbolById(rows, r.subtype).Some?
      then Some(SymbolById(rows, r.subtype).value.declaration.sourceUnit) else None)
  }

  /** The units one symbol contributes: of its references, its calls, and its subtypes' declarations. */
  function UnitsPointingAt(rows: seq<Row>, symbol: string): seq<string> {
    EdgeSources(ReferencesTo(rows, symbol)) + EdgeSources(CallsTo(rows, symbol))
      + SubtypeUnits(rows, ImplementationsOf(rows, symbol))
  }

  function PointingAt(rows: seq<Row>): SymbolRecord -> seq<string> {
    (x: SymbolRecord) => UnitsPointingAt(rows, x.id)
  }

  method DependentSourceUnits(rows: seq<Row>, u: string) returns (ids: seq<string>)
    ensures ids == Dependents(rows, u)
  {
    ids := CollectPointing(PointingAt(rows), SymbolsForSource(rows, u));
    ids := Filter(ids, OtherThan(u));
    ids := SortBy(ids, StrLe);
    ids := Dedup(ids);
  }

  method CollectPointing(pointing: SymbolRecord -> seq<string>, symbols: seq<SymbolRecord>) returns (ids: seq<string>)
    ensures ids == FlatMap(symbols, pointing)
  {
    ids := [];
    var i := 0;
    while i < |symbols|
      invariant 0 <= i <= |symbols|
      invariant ids + FlatMap(symbols[i..], pointing) == FlatMap(symbols, pointing)
    {
      ids := ids + pointing(symbols[i]);
      assert symbols[i..][1..] == symbols[i + 1..];
      i := i + 1;
    }
  }

  function OtherThan(u: string): string -> bool {
    (id: string) => id != u
  }

  function Dependents(rows: seq<Row>, u: string): seq<string> {
    Dedup(SortBy(Filter(FlatMap(SymbolsForSource(rows, u), PointingAt(rows)), OtherThan(u)), StrLe))
  }

  /** Validation makes every edge's source range name the unit that owns the edge. */
  lemma EdgeOwners(s: Snapshot)
    requires Acceptable(s)
    ensures forall e :: e in s.references ==> e.source.range.sourceUnit == s.sourceUnit.id
    ensures forall e :: e in s.calls ==> e.source.range.sourceUnit == s.sourceUnit.id
  {
    var u := s.sourceUnit.id;
    FirstNone(s.references, (x: ReferenceEdge) => CheckOccurrence(u, x.source));
    FirstNone(s.calls, (x: CallEdge) => CheckOccurrence(u, x.source));
  }

  lemma EdgeSourcesMember(edges: seq<Row>, id: string)
    ensures id in EdgeSources(edges) <==> (exists r :: r in edges && SourceUnitOf(r) == Some(id))
  {
    FilterMapMember(edges, SourceUnitOf, id);
    if r :| r in edges && SourceUnitOf(r) == Some(id) {
      var k :| 0 <= k < |edges| && edges[k] == r;
      assert SourceUnitOf(edges[k]) == Some(id);
    }
  }

  lemma CommittedAcceptable(c: seq<Snapshot>)
    requires WellStored(c)
    ensures forall t :: t in c ==> Acceptable(t)
  {
    hide AllRows, Acceptable;
  }

  lemma ReferenceUnits(c: seq<Snapshot>, symbol: string, id: string)
    requires WellStored(c)
    ensures id in EdgeSources(ReferencesTo(AllRows(c), symbol)) <==>
      exists t, e :: t in c && t.sourceUnit.id == id && e in t.references && e.target == symbol
  {
    hide AllRows, ReferencesTo, Acceptable, EdgeSources;
    CommittedAcceptable(c);
    hide WellStored;
    var rows := AllRows(c);
    EdgeSourcesMember(ReferencesTo(rows, symbol), id);
    forall t | t in c { EdgeOwners(t); }
    if id in EdgeSources(ReferencesTo(rows, symbol)) {
      var r :| r in ReferencesTo(rows, symbol) && SourceUnitOf(r) == Some(id);
      ReferencesMember(c, symbol, r);
    }
    if t, e :| t in c && t.sourceUnit.id == id && e in t.references && e.target == symbol {
      ReferencesMember(c, symbol, ReferenceRowOf(t.sourceUnit.id, e));
    }
  }

  lemma CallUnits(c: seq<Snapshot>, symbol: string, id: string)
    requires WellStored(c)
    ensures id in EdgeSources(CallsTo(AllRows(c), symbol)) <==>
      exists t, e :: t in c && t.sourceUnit.id == id && e in t.calls && e.target == symbol
  {
    hide AllRows, CallsTo, Acceptable, EdgeSources;
    CommittedAcceptable(c);
    hide WellStored;
    var rows := AllRows(c);
    EdgeSourcesMember(CallsTo(rows, symbol), id);
    forall t | t in c { EdgeOwners(t); }
    if id in EdgeSources(CallsTo(rows, symbol)) {
      var r :| r in CallsTo(rows, symbol) && SourceUnitOf(r) == Some(id);
      CallsMember(c, symbol, r);
    }
    if t, e :| t in c && t.sourceUnit.id == id && e in t.calls && e.target == symbol {
      CallsMember(c, symbol, CallRowOf(t.sourceUnit.id, e));
    }
  }

  lemma DeclaringUnit(c: seq<Snapshot>, symbol: string, id: string)
    requires WellStored(c)
    ensures SymbolById(AllRows(c), symbol).Some? && SymbolById(AllRows(c), symbol).value.declaration.sourceUnit == id
      <==> Declares(c, id, symbol)
  {
    hide WellStored, AllRows, SymbolById;
    var found := SymbolById(AllRows(c), symbol);
    if found.Some? {
      SymbolByIdScan(c, symbol, found.value);
    }
    if t, y :| t in c && t.sourceUnit.id == id && y in t.symbols && y.id == symbol {
      SymbolByIdScan(c, symbol, ReadBack(y, t));
    }
  }

  lemma SubtypeUnitsMember(c: seq<Snapshot>, symbol: string, id: string)
    requires WellStored(c)
    ensures id in SubtypeUnits(AllRows(c), ImplementationsOf(AllRows(c), symbol)) <==>
      exists t, e :: t in c && e in t.hierarchy && e.supertype == symbol && Declares(c, id, e.subtype)
  {
    hide WellStored, AllRows, Declares, ImplementationsOf, SymbolById;
    var rows := AllRows(c);
    var edges := ImplementationsOf(rows, symbol);
    var f := (r: Row) =>
      if r.HierarchyRow? && SymbolById(rows, r.subtype).Some?
      then Some(SymbolById(rows, r.subtype).value.declaration.sourceUnit) else None;
    FilterMapMember(edges, f, id);
    if k :| 0 <= k < |edges| && f(edges[k]) == Some(id) {
      ImplementationsMember(c, symbol, edges[k]);
      DeclaringUnit(c, edges[k].subtype, id);
    }
    if t, e :| t in c && e in t.hierarchy && e.supertype == symbol && Declares(c, id, e.subtype) {
      var r := HierarchyRowOf(t.sourceUnit.id, e);
      ImplementationsMember(c, symbol, r);
      DeclaringUnit(c, e.subtype, id);
      var k :| 0 <= k < |edges| && edges[k] == r;
      assert f(edges[k]) == Some(id);
    }
  }

  lemma PointingUnits(c: seq<Snapshot>, symbol: string, id: string)
    requires WellStored(c)
    ensures id in UnitsPointingAt(AllRows(c), symbol) <==> PointsAt(c, id, symbol)
  {
    ReferenceUnits(c, symbol, id);
    CallUnits(c, symbol, id);
    SubtypeUnitsMember(c, symbol, id);
  }

  lemma DependentPoints(c: seq<Snapshot>, u: string, id: string, y: SymbolRecord)
    requires WellStored(c) && id != u
    requires y in SymbolsForSource(AllRows(c), u) && id in UnitsPointingAt(AllRows(c), y.id)
    ensures DependsOn(c, id, u)
  {
    FindMember(c, u);
    SymbolsForSourceScan(c, u, y);
    PointingUnits(c, y.id, id);
  }

  lemma PointingFound(c: seq<Snapshot>, u: string, id: string) returns (y: SymbolRecord)
    requires WellStored(c) && DependsOn(c, id, u)
    ensures y in SymbolsForSource(AllRows(c), u) && id in UnitsPointingAt(AllRows(c), y.id)
  {
    var s, x :| s in c && s.sourceUnit.id == u && x in s.symbols && PointsAt(c, id, x.id);
    y := ReadBack(x, s);
    FindCommitted(c, s);
    SymbolsForSourceScan(c, u, y);
    PointingUnits(c, x.id, id);
  }

  lemma DependentMember(c: seq<Snapshot>, u: string, id: string)
    requires WellStored(c)
    ensures DependsOn(c, id, u) <==> id != u && id in FlatMap(SymbolsForSource(AllRows(c), u), PointingAt(AllRows(c)))
  {
    hide DependsOn, SymbolsForSource, UnitsPointingAt;
    var symbols := SymbolsForSource(AllRows(c), u);
    FlatMapMember(symbols, PointingAt(AllRows(c)), id);
    if k :| 0 <= k < |symbols| && id in PointingAt(AllRows(c))(symbols[k]) {
      if id != u {
        DependentPoints(c, u, id, symbols[k]);
      }
    }
    if DependsOn(c, id, u) {
      var y := PointingFound(c, u, id);
      var k :| 0 <= k < |symbols| && symbols[k] == y;
      assert id in PointingAt(AllRows(c))(symbols[k]);
      DependsOnOther(c, id, u);
    }
  }

  lemma DependsOnOther(c: seq<Snapshot>, id: string, u: string)
    requires DependsOn(c, id, u)
    ensures id != u
  {
  }

  lemma DedupedMembers(all: seq<string>, u: string)
    ensures forall id :: id in Dedup(SortBy(Filter(all, OtherThan(u)), StrLe)) <==> id in all && id != u
    ensures Ascending(Dedup(SortBy(Filter(all, OtherThan(u)), StrLe)), StrLe)
  {
    var others := Filter(all, OtherThan(u));
    forall id ensures id in others <==> id in all && id != u {
      FilterMember(all, OtherThan(u), id);
    }
    SortByMembers(others, StrLe);
    StrLeTotalOrder();
    SortBySorted(others, StrLe);
    DedupAscending(SortBy(others, StrLe), StrLe);
  }

  /** The dependents of a unit are exactly the other units that point at one of its symbols, each once, in order. */
  lemma DependentsExact(c: seq<Snapshot>, u: string)
    requires WellStored(c)
    ensures forall id :: id in Dependents(AllRows(c), u) <==> DependsOn(c, id, u)
    ensures Ascending(Dependents(AllRows(c), u), StrLe)
  {
    hide WellStored, AllRows, DependsOn, PointingAt, SymbolsForSource;
    var rows := AllRows(c);
    var symbols := SymbolsForSource(rows, u);
    var all := FlatMap(symbols, PointingAt(rows));
    DedupedMembers(all, u);
    forall id ensures id in Dependents(rows, u) <==> DependsOn(c, id, u) {
      DependentMember(c, u, id);
    }
  }
}
