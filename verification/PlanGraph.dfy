/**
The dependency graph of a plan: cycle detection by Kahn's algorithm over a multigraph, and the
backward walk from the output node.
*/
module PlanGraph {
  import opened PlanModel

  /** `node` waits for `dependency`. Repeated dependencies and repeated ids give repeated edges. */
  datatype Edge = Edge(node: Id, dependency: Id)

  function EdgesOf(id: Id, dependsOn: seq<Id>, ids: set<Id>): seq<Edge> {
    if dependsOn == [] then []
    else
      var rest := EdgesOf(id, dependsOn[..|dependsOn| - 1], ids);
      var last := dependsOn[|dependsOn| - 1];
      if last in ids then rest + [Edge(id, last)] else rest
  }

  /** Every dependency between known ids, in the order the nodes declare them. */
  function Edges(nodes: seq<Node>, ids: set<Id>): seq<Edge> {
    if nodes == [] then []
    else
      var rest := Edges(nodes[..|nodes| - 1], ids);
      var node := nodes[|nodes| - 1];
      if node.id in ids then rest + EdgesOf(node.id, node.dependsOn, ids) else rest
  }

  /******* Cycles and topological orders *******/

  ghost predicate IsPath(edges: seq<Edge>, path: seq<Id>) {
    |path| >= 1 && forall i | 0 <= i < |path| - 1 :: Edge(path[i], path[i + 1]) in edges
  }

  ghost predicate IsCycle(edges: seq<Edge>, path: seq<Id>) {
    |path| >= 2 && IsPath(edges, path) && path[0] == path[|path| - 1]
  }

  ghost predicate Acyclic(edges: seq<Edge>) {
    forall path :: !IsCycle(edges, path)
  }

  ghost predicate Distinct(order: seq<Id>) {
    forall i, j | 0 <= i < j < |order| :: order[i] != order[j]
  }

  ghost function Elements(order: seq<Id>): set<Id> {
    set x | x in order
  }

  /** Each id of `order` comes after everything it waits for. */
  ghost predicate Respects(edges: seq<Edge>, order: seq<Id>) {
    forall e, i | e in edges && 0 <= i < |order| && order[i] == e.node :: e.dependency in order[..i]
  }

  ghost predicate IsTopological(edges: seq<Edge>, ids: set<Id>, order: seq<Id>) {
    Distinct(order) && Elements(order) == ids && Respects(edges, order)
  }

  lemma {:induction false} DistinctCardinality(order: seq<Id>)
    requires Distinct(order)
    ensures |Elements(order)| == |order|
  {
    if order == [] {
      assert Elements(order) == {};
    } else {
      var rest := order[..|order| - 1];
      var last := order[|order| - 1];
      DistinctCardinality(rest);
      assert Elements(order) == Elements(rest) + {last};
      assert last !in Elements(rest);
    }
  }

  lemma {:induction false} PathGoesBack(edges: seq<Edge>, order: seq<Id>, path: seq<Id>, i: nat)
    requires Distinct(order) && Respects(edges, order) && IsPath(edges, path) && |path| >= 2
    requires i < |order| && order[i] == path[0]
    ensures path[|path| - 1] in order[..i]
    decreases |path|
  {
    assert Edge(path[0], path[1]) in edges;
    var j :| 0 <= j < i && order[j] == path[1];
    if |path| > 2 {
      assert IsPath(edges, path[1..]);
      PathGoesBack(edges, order, path[1..], j);
      assert order[..j] <= order[..i];
    }
  }

  /** A plan that can be ordered has no cycle. */
  lemma OrderedIsAcyclic(edges: seq<Edge>, ids: set<Id>, order: seq<Id>)
    requires IsTopological(edges, ids, order)
    requires forall e | e in edges :: e.node in ids
    ensures Acyclic(edges)
  {
    forall path | IsCycle(edges, path)
      ensures false
    {
      assert Edge(path[0], path[1]) in edges;
      assert path[0] in Elements(order);
      var i :| 0 <= i < |order| && order[i] == path[0];
      PathGoesBack(edges, order, path, i);
    }
  }

  /** Among more positions than values, two positions hold the same value. */
  lemma {:induction false} Pigeonhole(path: seq<Id>, pool: set<Id>)
    requires Elements(path) <= pool && |path| > |pool|
    ensures exists i, j :: 0 <= i < j < |path| && path[i] == path[j]
  {
    if Distinct(path) {
      DistinctCardinality(path);
      SubsetCardinality(Elements(path), pool);
    }
  }

  lemma {:induction false} SubsetCardinality(a: set<Id>, b: set<Id>)
    requires a <= b
    ensures |a| <= |b|
  {
    if a != {} {
      var x :| x in a;
      SubsetCardinality(a - {x}, b - {x});
    }
  }

  ghost predicate WaitsIn(edges: seq<Edge>, pool: set<Id>, x: Id) {
    exists y :: y in pool && Edge(x, y) in edges
  }

  /** Everyone in `pool` waits for someone in `pool`. */
  ghost predicate IsStuck(edges: seq<Edge>, pool: set<Id>) {
    forall x {:trigger WaitsIn(edges, pool, x)} :: x in pool ==> WaitsIn(edges, pool, x)
  }

  /** From a set in which everyone waits for someone, paths of any length can be followed. */
  lemma {:induction false} LongPath(edges: seq<Edge>, stuck: set<Id>, start: Id, length: nat) returns (path: seq<Id>)
    requires start in stuck && length >= 1
    requires IsStuck(edges, stuck)
    ensures IsPath(edges, path) && |path| == length && path[0] == start && Elements(path) <= stuck
    decreases length
  {
    if length == 1 {
      path := [start];
    } else {
      assert WaitsIn(edges, stuck, start);
      var y :| y in stuck && Edge(start, y) in edges;
      var rest := LongPath(edges, stuck, y, length - 1);
      path := [start] + rest;
      forall i | 0 <= i < |path| - 1
        ensures Edge(path[i], path[i + 1]) in edges
      {
        if i > 0 {
          assert Edge(rest[i - 1], rest[i]) in edges;
        }
      }
    }
  }

  /** A non-empty set in which everyone waits for someone contains a cycle. */
  lemma StuckIsCyclic(edges: seq<Edge>, stuck: set<Id>)
    requires stuck != {}
    requires IsStuck(edges, stuck)
    ensures !Acyclic(edges)
  {
    var start :| start in stuck;
    var path := LongPath(edges, stuck, start, |stuck| + 1);
    Pigeonhole(path, stuck);
    var i, j :| 0 <= i < j < |path| && path[i] == path[j];
    var cycle := path[i..j + 1];
    forall k | 0 <= k < |cycle| - 1
      ensures Edge(cycle[k], cycle[k + 1]) in edges
    {
      assert Edge(path[i + k], path[i + k + 1]) in edges;
    }
    assert IsCycle(edges, cycle);
  }

  /******* Kahn's algorithm *******/

  /** How many of the edges of `x` lead to an id that is not done yet. */
  ghost function Open(edges: seq<Edge>, x: Id, done: set<Id>): nat {
    if edges == [] then 0
    else
      var e := edges[|edges| - 1];
      Open(edges[..|edges| - 1], x, done) + (if e.node == x && e.dependency !in done then 1 else 0)
  }

  /** The nodes waiting for `d`, one per edge. */
  ghost function DependentsOf(edges: seq<Edge>, d: Id): seq<Id> {
    if edges == [] then []
    else
      var e := edges[|edges| - 1];
      var rest := DependentsOf(edges[..|edges| - 1], d);
      if e.dependency == d then rest + [e.node] else rest
  }

  /** Finishing `d` closes exactly its edges: what is open drops by its multiplicity among the dependents. */
  lemma {:induction false} FinishCloses(edges: seq<Edge>, x: Id, done: set<Id>, d: Id)
    requires d !in done
    ensures Open(edges, x, done) == Open(edges, x, done + {d}) + multiset(DependentsOf(edges, d))[x]
  {
    if edges != [] {
      FinishCloses(edges[..|edges| - 1], x, done, d);
    }
  }

  lemma {:induction false} OpenIsZero(edges: seq<Edge>, x: Id, done: set<Id>)
    ensures Open(edges, x, done) == 0 <==> forall e | e in edges && e.node == x :: e.dependency in done
  {
    if edges != [] {
      var rest := edges[..|edges| - 1];
      OpenIsZero(rest, x, done);
      assert forall e :: e in edges <==> e in rest || e == edges[|edges| - 1];
    }
  }

  lemma {:induction false} DependentsAreNodes(edges: seq<Edge>, d: Id, x: Id)
    ensures x in DependentsOf(edges, d) <==> Edge(x, d) in edges
  {
    if edges != [] {
      var rest := edges[..|edges| - 1];
      DependentsAreNodes(rest, d, x);
      assert forall e :: e in edges <==> e in rest || e == edges[|edges| - 1];
    }
  }

  /** The graph as the loop holds it: counts and dependents per id, both over the same edges. */
  ghost predicate Tables(edges: seq<Edge>, ids: set<Id>, indegree: map<Id, nat>, dependents: map<Id, seq<Id>>) {
    && indegree.Keys == ids && dependents.Keys == ids
    && (forall x | x in ids :: indegree[x] == Open(edges, x, {}))
    && (forall x | x in ids :: dependents[x] == DependentsOf(edges, x))
  }

  lemma {:induction false} EdgesAreKnown(nodes: seq<Node>, ids: set<Id>)
    ensures forall e | e in Edges(nodes, ids) :: e.node in ids && e.dependency in ids
  {
    if nodes != [] {
      EdgesAreKnown(nodes[..|nodes| - 1], ids);
      EdgesOfAre(nodes[|nodes| - 1].id, nodes[|nodes| - 1].dependsOn, ids);
    }
  }

  lemma {:induction false} EdgesOfAre(id: Id, dependsOn: seq<Id>, ids: set<Id>)
    ensures forall e :: e in EdgesOf(id, dependsOn, ids) <==> e.node == id && e.dependency in dependsOn && e.dependency in ids
  {
    if dependsOn != [] {
      EdgesOfAre(id, dependsOn[..|dependsOn| - 1], ids);
      assert forall d :: d in dependsOn <==> d in dependsOn[..|dependsOn| - 1] || d == dependsOn[|dependsOn| - 1];
    }
  }

  /** An edge is a dependency some node declares between two known ids. */
  lemma {:induction false} EdgesAre(nodes: seq<Node>, ids: set<Id>, e: Edge)
    ensures e in Edges(nodes, ids) <==>
      e.node in ids && e.dependency in ids && exists n :: n in nodes && n.id == e.node && e.dependency in n.dependsOn
  {
    if nodes != [] {
      var rest, last := nodes[..|nodes| - 1], nodes[|nodes| - 1];
      EdgesAre(rest, ids, e);
      EdgesOfAre(last.id, last.dependsOn, ids);
      assert forall n :: n in nodes <==> n in rest || n == last;
    }
  }

  lemma AddEdge(edges: seq<Edge>, e: Edge, ids: set<Id>, indegree: map<Id, nat>, dependents: map<Id, seq<Id>>)
    requires Tables(edges, ids, indegree, dependents) && e.node in ids && e.dependency in ids
    ensures Tables(edges + [e], ids, indegree[e.node := indegree[e.node] + 1],
                   dependents[e.dependency := dependents[e.dependency] + [e.node]])
  {
    assert (edges + [e])[..|edges|] == edges;
  }

  /** The counting phase: `indegree` and `dependents`, filled from the declared dependencies. */
  method CountDependencies(nodes: seq<Node>, ids: set<Id>) returns (indegree: map<Id, nat>, dependents: map<Id, seq<Id>>)
    ensures Tables(Edges(nodes, ids), ids, indegree, dependents)
  {
    indegree := map id | id in ids :: 0;
    dependents := map id | id in ids :: [];
    for i := 0 to |nodes|
      invariant Tables(Edges(nodes[..i], ids), ids, indegree, dependents)
    {
      assert nodes[..i + 1][..i] == nodes[..i];
      if nodes[i].id in ids {
        indegree, dependents := CountNode(nodes[i], ids, Edges(nodes[..i], ids), indegree, dependents);
      }
    }
    assert nodes[..|nodes|] == nodes;
  }

  method CountNode(node: Node, ids: set<Id>, ghost before: seq<Edge>, indegree: map<Id, nat>, dependents: map<Id, seq<Id>>)
    returns (indegree': map<Id, nat>, dependents': map<Id, seq<Id>>)
    requires node.id in ids && Tables(before, ids, indegree, dependents)
    ensures Tables(before + EdgesOf(node.id, node.dependsOn, ids), ids, indegree', dependents')
  {
    indegree', dependents' := indegree, dependents;
    assert before + EdgesOf(node.id, node.dependsOn[..0], ids) == before;
    for j := 0 to |node.dependsOn|
      invariant Tables(before + EdgesOf(node.id, node.dependsOn[..j], ids), ids, indegree', dependents')
    {
      var dependency := node.dependsOn[j];
      ghost var soFar := before + EdgesOf(node.id, node.dependsOn[..j], ids);
      assert node.dependsOn[..j + 1][..j] == node.dependsOn[..j];
      if dependency in ids {
        AddEdge(soFar, Edge(node.id, dependency), ids, indegree', dependents');
        assert before + EdgesOf(node.id, node.dependsOn[..j + 1], ids) == soFar + [Edge(node.id, dependency)];
        indegree' := indegree'[node.id := indegree'[node.id] + 1];
        dependents' := dependents'[dependency := dependents'[dependency] + [node.id]];
      }
    }
    assert node.dependsOn[..|node.dependsOn|] == node.dependsOn;
  }

  /** What holds while the dependents in `pending` have still to be told that the last popped id is done. */
  ghost predicate Releasing(edges: seq<Edge>, ids: set<Id>, indegree: map<Id, nat>, order: seq<Id>, ready: seq<Id>, pending: seq<Id>) {
    && indegree.Keys == ids
    && Distinct(order) && Elements(order) <= ids && Respects(edges, order) && Distinct(ready)
    && (forall x | x in ids :: indegree[x] == Open(edges, x, Elements(order)) + multiset(pending)[x])
    && (forall x | x in pending :: x in ids && x !in order)
    && (forall x :: x in ready <==> x in ids && x !in order && indegree[x] == 0)
  }

  lemma NextRespects(edges: seq<Edge>, order: seq<Id>, id: Id)
    requires Respects(edges, order) && forall e | e in edges && e.node == id :: e.dependency in order
    ensures Respects(edges, order + [id])
  {
    var order' := order + [id];
    forall e, i | e in edges && 0 <= i < |order'| && order'[i] == e.node
      ensures e.dependency in order'[..i]
    {
      if i < |order| {
        assert order'[..i] == order[..i];
      } else {
        assert order'[..i] == order;
      }
    }
  }

  lemma Pop(edges: seq<Edge>, ids: set<Id>, indegree: map<Id, nat>, order: seq<Id>, ready: seq<Id>, id: Id)
    requires forall e | e in edges :: e.node in ids && e.dependency in ids
    requires Releasing(edges, ids, indegree, order, ready + [id], [])
    ensures Releasing(edges, ids, indegree, order + [id], ready, DependentsOf(edges, id))
  {
    assert id in ready + [id];
    var order' := order + [id];
    assert Elements(order') == Elements(order) + {id};
    OpenIsZero(edges, id, Elements(order));
    forall x | x in ids
      ensures indegree[x] == Open(edges, x, Elements(order')) + multiset(DependentsOf(edges, id))[x]
    {
      FinishCloses(edges, x, Elements(order), id);
    }
    forall x | x in DependentsOf(edges, id)
      ensures x in ids && x !in order'
    {
      DependentsAreNodes(edges, id, x);
      assert Edge(x, id) in edges;
      assert forall i | 0 <= i < |order| :: order[i] == Edge(x, id).node ==> id in order;
    }
    NextRespects(edges, order, id);
    assert (ready + [id])[|ready|] == id;
    assert forall i | 0 <= i < |ready| :: (ready + [id])[i] == ready[i] && ready[i] != id;
    assert forall x :: x in ready + [id] <==> x in ready || x == id;
  }

  /** Telling one dependent: its count is never zero beforehand, so `saturating_sub` never saturates. */
  lemma ReleaseOne(edges: seq<Edge>, ids: set<Id>, indegree: map<Id, nat>, order: seq<Id>, ready: seq<Id>, pending: seq<Id>)
    requires pending != [] && Releasing(edges, ids, indegree, order, ready, pending)
    ensures pending[0] in ids && indegree[pending[0]] >= 1
    ensures var x := pending[0];
      Releasing(edges, ids, indegree[x := indegree[x] - 1], order,
                if indegree[x] == 1 then ready + [x] else ready, pending[1..])
  {
    var x := pending[0];
    assert pending == [x] + pending[1..];
    assert multiset(pending) == multiset{x} + multiset(pending[1..]);
    assert x in pending && x !in ready;
    var ready' := if indegree[x] == 1 then ready + [x] else ready;
    assert forall y :: y in ready' <==> y in ready || (indegree[x] == 1 && y == x);
  }

  method ReleaseDependent(
      ghost edges: seq<Edge>, ghost ids: set<Id>, ghost order: seq<Id>, ghost pending: seq<Id>,
      dependent: Id, indegree: map<Id, nat>, ready: seq<Id>)
    returns (indegree': map<Id, nat>, ready': seq<Id>)
    requires Releasing(edges, ids, indegree, order, ready, pending) && pending != [] && pending[0] == dependent
    ensures Releasing(edges, ids, indegree', order, ready', pending[1..])
  {
    ReleaseOne(edges, ids, indegree, order, ready, pending);
    var degree := if indegree[dependent] == 0 then 0 else indegree[dependent] - 1;
    indegree' := indegree[dependent := degree];
    ready' := if degree == 0 then ready + [dependent] else ready;
  }

  method Release(ghost edges: seq<Edge>, ghost ids: set<Id>, ghost order: seq<Id>, values: seq<Id>, indegree: map<Id, nat>, ready: seq<Id>)
    returns (indegree': map<Id, nat>, ready': seq<Id>)
    requires Releasing(edges, ids, indegree, order, ready, values)
    ensures Releasing(edges, ids, indegree', order, ready', [])
  {
    indegree', ready' := indegree, ready;
    for k := 0 to |values|
      invariant Releasing(edges, ids, indegree', order, ready', values[k..])
    {
      indegree', ready' := ReleaseDependent(edges, ids, order, values[k..], values[k], indegree', ready');
      assert values[k..][1..] == values[k + 1..];
    }
  }

  /** The ids nothing holds back, in whatever order the map is iterated. */
  method InitialReady(ids: set<Id>, indegree: map<Id, nat>) returns (ready: seq<Id>)
    requires indegree.Keys == ids
    ensures Distinct(ready) && forall x :: x in ready <==> x in ids && indegree[x] == 0
  {
    ready := [];
    var rest := ids;
    while rest != {}
      invariant rest <= ids && Distinct(ready)
      invariant forall x :: x in ready <==> x in ids && x !in rest && indegree[x] == 0
      decreases rest
    {
      var id :| id in rest;
      rest := rest - {id};
      if indegree[id] == 0 {
        ready := ready + [id];
      }
    }
  }

  /** Whoever is left when nothing is ready waits for someone who is left. */
  lemma LeftoverIsStuck(edges: seq<Edge>, ids: set<Id>, indegree: map<Id, nat>, order: seq<Id>)
    requires forall e | e in edges :: e.node in ids && e.dependency in ids
    requires Releasing(edges, ids, indegree, order, [], [])
    ensures IsStuck(edges, ids - Elements(order))
  {
    forall x | x in ids - Elements(order)
      ensures WaitsIn(edges, ids - Elements(order), x)
    {
      assert x !in [] && indegree[x] != 0;
      OpenIsZero(edges, x, Elements(order));
      var e :| e in edges && e.node == x && e.dependency !in Elements(order);
      assert Edge(x, e.dependency) in edges;
    }
  }

  /** With nothing ready, either everything was ordered or there is a cycle. */
  lemma Verdict(edges: seq<Edge>, ids: set<Id>, indegree: map<Id, nat>, order: seq<Id>)
    requires forall e | e in edges :: e.node in ids && e.dependency in ids
    requires Releasing(edges, ids, indegree, order, [], [])
    ensures |order| <= |ids|
    ensures |order| == |ids| <==> Acyclic(edges)
    ensures |order| == |ids| ==> IsTopological(edges, ids, order)
  {
    DistinctCardinality(order);
    SubsetCardinality(Elements(order), ids);
    if Elements(order) == ids {
      OrderedIsAcyclic(edges, ids, order);
    } else {
      var x :| x in ids && x !in Elements(order);
      assert x in ids - Elements(order);
      LeftoverIsStuck(edges, ids, indegree, order);
      StuckIsCyclic(edges, ids - Elements(order));
      assert ids == Elements(order) + (ids - Elements(order));
    }
  }

  /** Which of the ready ids is last makes no difference. */
  lemma TakeAny(edges: seq<Edge>, ids: set<Id>, indegree: map<Id, nat>, order: seq<Id>, ready: seq<Id>, j: nat)
    requires j < |ready| && Releasing(edges, ids, indegree, order, ready, [])
    ensures Releasing(edges, ids, indegree, order, ready[..j] + ready[j + 1..] + [ready[j]], [])
  {
    var moved := ready[..j] + ready[j + 1..] + [ready[j]];
    assert ready == ready[..j] + [ready[j]] + ready[j + 1..];
    assert forall x :: x in moved <==> x in ready;
  }

  /** One iteration of the main loop: take any ready id and tell its dependents. */
  method Visit(ghost edges: seq<Edge>, ids: set<Id>, ghost order: seq<Id>, dependents: map<Id, seq<Id>>, indegree: map<Id, nat>, ready: seq<Id>)
    returns (indegree': map<Id, nat>, ready': seq<Id>, ghost order': seq<Id>)
    requires ready != [] && Releasing(edges, ids, indegree, order, ready, [])
    requires forall e | e in edges :: e.node in ids && e.dependency in ids
    requires dependents.Keys == ids && forall x | x in ids :: dependents[x] == DependentsOf(edges, x)
    ensures |order'| == |order| + 1 && Elements(order) < Elements(order')
    ensures Releasing(edges, ids, indegree', order', ready', [])
  {
    var j :| 0 <= j < |ready|;
    var id, rest := ready[j], ready[..j] + ready[j + 1..];
    TakeAny(edges, ids, indegree, order, ready, j);
    Pop(edges, ids, indegree, order, rest, id);
    order' := order + [id];
    assert id in Elements(order') && id !in Elements(order);
    indegree', ready' := Release(edges, ids, order', dependents[id], indegree, rest);
  }

  lemma NothingDone(edges: seq<Edge>, ids: set<Id>, indegree: map<Id, nat>, ready: seq<Id>)
    requires indegree.Keys == ids && forall x | x in ids :: indegree[x] == Open(edges, x, {})
    requires Distinct(ready) && forall x :: x in ready <==> x in ids && indegree[x] == 0
    ensures Releasing(edges, ids, indegree, [], ready, [])
  {
    assert Elements([]) == {};
  }

  /**
  The counting loop of `validate_execution_dag`. It visits every known id exactly when the
  dependencies between known ids are acyclic, and then in a topological order; no id is visited
  twice, whichever ready id is taken next and however often an edge is repeated.
  */
  method CountSchedulable(nodes: seq<Node>, ids: set<Id>) returns (visited: nat, ghost order: seq<Id>)
    ensures visited == |order| <= |ids| && Distinct(order) && Elements(order) <= ids && Respects(Edges(nodes, ids), order)
    ensures visited == |ids| <==> Acyclic(Edges(nodes, ids))
    ensures visited == |ids| ==> IsTopological(Edges(nodes, ids), ids, order)
  {
    ghost var edges := Edges(nodes, ids);
    EdgesAreKnown(nodes, ids);
    var indegree, dependents := CountDependencies(nodes, ids);
    var ready := InitialReady(ids, indegree);
    visited, order := 0, [];
    NothingDone(edges, ids, indegree, ready);
    while ready != []
      invariant visited == |order| && Releasing(edges, ids, indegree, order, ready, [])
      decreases ids - Elements(order)
    {
      ghost var before := Elements(order);
      indegree, ready, order := Visit(edges, ids, order, dependents, indegree, ready);
      assert ids - Elements(order) < ids - before;
      visited := visited + 1;
    }
    Verdict(edges, ids, indegree, order);
  }

  /******* The walk back from the output node *******/

  /** Nodes by id; of several nodes with one id, the last. */
  function ById(nodes: seq<Node>): (m: map<Id, Node>)
    ensures forall id :: id in m <==> exists n :: n in nodes && n.id == id
    ensures forall id | id in m :: m[id] in nodes && m[id].id == id
  {
    if nodes == [] then map[]
    else
      var last := nodes[|nodes| - 1];
      assert forall n :: n in nodes <==> n in nodes[..|nodes| - 1] || n == last;
      ById(nodes[..|nodes| - 1])[last.id := last]
  }

  ghost predicate IsWalk(nodes: map<Id, Node>, walk: seq<Id>) {
    |walk| >= 1 && forall i | 0 <= i < |walk| - 1 :: walk[i] in nodes && walk[i + 1] in nodes[walk[i]].dependsOn
  }

  /** `x` is one of `roots` or is needed, directly or not, by one of them. */
  ghost predicate Needed(nodes: map<Id, Node>, roots: seq<Id>, x: Id) {
    exists walk :: IsWalk(nodes, walk) && walk[0] in roots && walk[|walk| - 1] == x
  }

  lemma NeededStep(nodes: map<Id, Node>, roots: seq<Id>, x: Id, y: Id)
    requires Needed(nodes, roots, x) && x in nodes && y in nodes[x].dependsOn
    ensures Needed(nodes, roots, y)
  {
    var walk :| IsWalk(nodes, walk) && walk[0] in roots && walk[|walk| - 1] == x;
    assert IsWalk(nodes, walk + [y]);
    assert (walk + [y])[0] in roots && (walk + [y])[|walk|] == y;
  }

  lemma {:induction false} ClosedHoldsNeeded(nodes: map<Id, Node>, roots: seq<Id>, closed: set<Id>, walk: seq<Id>)
    requires IsWalk(nodes, walk) && walk[0] in closed
    requires forall x, y | x in closed && x in nodes && y in nodes[x].dependsOn :: y in closed
    ensures walk[|walk| - 1] in closed
    decreases |walk|
  {
    if |walk| > 1 {
      assert walk[0] in nodes && walk[1] in nodes[walk[0]].dependsOn;
      assert IsWalk(nodes, walk[1..]);
      ClosedHoldsNeeded(nodes, roots, closed, walk[1..]);
    }
  }

  /** Every dependency is accounted for: already an ancestor, or still on the stack. */
  ghost predicate Walking(nodes: map<Id, Node>, roots: seq<Id>, ancestors: set<Id>, stack: seq<Id>) {
    && (forall x | x in ancestors :: Needed(nodes, roots, x))
    && (forall x | x in stack :: Needed(nodes, roots, x))
    && (forall x | x in roots :: x in ancestors || x in stack)
    && (forall x, y | x in ancestors && x in nodes && y in nodes[x].dependsOn :: y in ancestors || y in stack)
  }

  lemma WalkOn(nodes: map<Id, Node>, roots: seq<Id>, ancestors: set<Id>, stack: seq<Id>, id: Id)
    requires Walking(nodes, roots, ancestors, stack + [id])
    ensures Walking(nodes, roots, ancestors + {id}, if id in nodes then stack + nodes[id].dependsOn else stack)
    ensures id in ancestors ==> Walking(nodes, roots, ancestors, stack)
  {
    assert forall x :: x in stack + [id] <==> x in stack || x == id;
    if id in nodes {
      forall y | y in nodes[id].dependsOn
        ensures Needed(nodes, roots, y)
      {
        NeededStep(nodes, roots, id, y);
      }
      assert forall x :: x in stack + nodes[id].dependsOn <==> x in stack || x in nodes[id].dependsOn;
    }
  }

  ghost function Mentioned(nodes: seq<Node>, roots: seq<Id>): set<Id> {
    (set x | x in roots) + (set n, x | n in nodes && x in n.dependsOn :: x)
  }

  lemma WalkStarts(nodes: map<Id, Node>, roots: seq<Id>)
    ensures Walking(nodes, roots, {}, roots)
  {
    forall x | x in roots
      ensures Needed(nodes, roots, x)
    {
      assert IsWalk(nodes, [x]) && [x][0] in roots;
    }
  }

  lemma WalkEnds(nodes: map<Id, Node>, roots: seq<Id>, ancestors: set<Id>)
    requires Walking(nodes, roots, ancestors, [])
    ensures forall x :: x in ancestors <==> Needed(nodes, roots, x)
  {
    forall x | Needed(nodes, roots, x)
      ensures x in ancestors
    {
      var walk :| IsWalk(nodes, walk) && walk[0] in roots && walk[|walk| - 1] == x;
      ClosedHoldsNeeded(nodes, roots, ancestors, walk);
    }
  }

  ghost predicate Within(stack: seq<Id>, universe: set<Id>) {
    forall x | x in stack :: x in universe
  }

  lemma MentionsDependencies(nodes: seq<Node>, roots: seq<Id>, id: Id)
    requires id in ById(nodes)
    ensures Within(ById(nodes)[id].dependsOn, Mentioned(nodes, roots))
  {
    assert ById(nodes)[id] in nodes;
  }

  /** The stack loop of `validate_terminal_output`: exactly the ids needed by `roots`. */
  method CollectAncestors(nodes: seq<Node>, roots: seq<Id>) returns (ancestors: set<Id>)
    ensures forall x :: x in ancestors <==> Needed(ById(nodes), roots, x)
  {
    var byId := ById(nodes);
    ancestors := {};
    var stack := roots;
    ghost var universe := Mentioned(nodes, roots);
    WalkStarts(byId, roots);
    while stack != []
      invariant Walking(byId, roots, ancestors, stack) && ancestors <= universe && Within(stack, universe)
      decreases universe - ancestors, |stack|
    {
      var id := stack[|stack| - 1];
      var rest := stack[..|stack| - 1];
      assert stack == rest + [id] && id in universe;
      WalkOn(byId, roots, ancestors, rest, id);
      stack := rest;
      if id !in ancestors {
        ghost var before := ancestors;
        ancestors := ancestors + {id};
        assert universe - ancestors < universe - before by { assert id in universe - before; }
        if id in byId {
          MentionsDependencies(nodes, roots, id);
          stack := stack + byId[id].dependsOn;
        }
      }
    }
    WalkEnds(byId, roots, ancestors);
  }
}
