/**
What an empty validation report promises: the plan can be scheduled, every schedule ends with
its output, and whatever a node reads was produced before it.
*/
module PlanTheorems {
  import opened Sequences
  import opened PlanModel
  import opened PlanGraph
  import opened PlanReferences
  import opened PlanValidation

  /******* From an empty report to facts about the plan *******/

  ghost predicate UniqueIds(nodes: seq<Node>) {
    forall i, j | 0 <= i < j < |nodes| :: nodes[i].id != nodes[j].id
  }

  ghost function AllIds(nodes: seq<Node>): set<Id> {
    set n | n in nodes :: n.id
  }

  ghost predicate CleanOperation(node: Node) {
    && (forall v | RunsOn(node.operation, v) :: AllSound(Objects(v), node, false))
    && (forall v | ExpiresTo(node.operation, v) :: AllSound(Objects(v), node, false))
  }

  ghost predicate CleanNode(node: Node, ids: set<Id>) {
    && (forall d | d in node.dependsOn :: d in ids && d != node.id)
    && AllSound(Objects(node.input), node, node.operation.Map?)
    && CleanOperation(node)
    && (node.condition.Some? ==> IsVisible(node.condition.value, node) && !node.operation.Output?)
  }

  ghost predicate IsTerminal(nodes: seq<Node>, output: nat) {
    && output < |nodes| && nodes[output].operation.Output?
    && (forall i | 0 <= i < |nodes| && i != output ::
          !nodes[i].operation.Output? && Needed(ById(nodes), nodes[output].dependsOn, nodes[i].id))
    && (forall n | n in nodes :: nodes[output].id !in n.dependsOn)
  }

  ghost predicate Avoids(v: Json, conditional: set<Id>) {
    forall id | Reads(v, id) :: id !in conditional
  }

  ghost predicate CleanScope(node: Node, conditional: set<Id>) {
    Avoids(node.input, conditional) && forall v | RunsOn(node.operation, v) :: Avoids(v, conditional)
  }

  /**
  What the report checks, stated about the plan alone: distinct ids, values whose references are
  all to declared dependencies, no cycle, one output that needs every other node, and no read of a
  conditional node.
  */
  ghost predicate Clean(nodes: seq<Node>, output: nat) {
    && UniqueIds(nodes)
    && (forall n | n in nodes :: CleanNode(n, AllIds(nodes)))
    && Acyclic(Edges(nodes, AllIds(nodes)))
    && IsTerminal(nodes, output)
    && (forall n | n in nodes :: CleanScope(n, ConditionalIds(nodes)))
  }

  ghost predicate IsIdList(values: seq<Id>) {
    (forall v | v in values :: IsStableId(v)) && Distinct(values)
  }

  /** The checks on a node that involve no other node. */
  ghost predicate LocalOk(node: Node, payload: Node -> seq<Code>) {
    && IsStableId(node.id)
    && node.requirementIds != [] && IsIdList(node.requirementIds) && IsIdList(node.dependsOn)
    && node.outputSchema.Object?
    && payload(node) == []
  }

  lemma {:induction false} ListExact(values: seq<Id>, n: nat)
    requires n <= |values|
    ensures ListIssues(values, n) == [] <==> IsIdList(values[..n])
  {
    if n > 0 {
      ListExact(values, n - 1);
      assert values[..n] == values[..n - 1] + [values[n - 1]];
    }
  }

  lemma {:induction false} LocatedExact(codes: seq<seq<Code>>)
    ensures Located(codes) == [] <==> forall c | c in codes :: c == []
  {
    if codes != [] {
      var rest, last := codes[..|codes| - 1], codes[|codes| - 1];
      LocatedExact(rest);
      assert last in codes && forall c :: c in codes <==> c in rest || c == last;
      assert |Located(codes)| == |Located(rest)| + |At(|codes| - 1, last)|;
    }
  }

  lemma {:induction false} DependencyExact(node: Node, ids: set<Id>, n: nat)
    requires n <= |node.dependsOn|
    ensures DependencyIssues(node, ids, n) == [] <==> forall d | d in node.dependsOn[..n] :: d in ids && d != node.id
  {
    if n > 0 {
      DependencyExact(node, ids, n - 1);
      assert node.dependsOn[..n] == node.dependsOn[..n - 1] + [node.dependsOn[n - 1]];
    }
  }

  lemma {:induction false} ItemsExact(items: seq<Json>, node: Node, allowMap: bool)
    ensures ItemIssues(items, node, allowMap) == [] <==> forall v | v in items :: AllSound(Objects(v), node, allowMap)
  {
    if items != [] {
      WalkSeesEveryObject(items[0], node, allowMap);
      ItemsExact(items[1..], node, allowMap);
      assert items[0] in items && forall v :: v in items <==> v == items[0] || v in items[1..];
    }
  }

  /** The validator's lists hold exactly the values the operation takes. */
  lemma OperationValuesExact(op: Operation)
    ensures forall v :: v in OperationValues(op) <==> RunsOn(op, v) || ExpiresTo(op, v)
    ensures forall v :: v in ScopedValues(op) <==> RunsOn(op, v)
  {
  }

  lemma OperationExact(node: Node)
    ensures ItemIssues(OperationValues(node.operation), node, false) == [] <==> CleanOperation(node)
  {
    ItemsExact(OperationValues(node.operation), node, false);
    OperationValuesExact(node.operation);
  }

  lemma ConditionExact(node: Node)
    ensures ConditionIssues(node) == [] <==>
      (node.condition.Some? ==> IsVisible(node.condition.value, node) && !node.operation.Output?)
  {
    if node.condition.Some? {
      VisibleExact(node.condition.value, node);
    }
  }

  lemma ListsExact(node: Node, ids: set<Id>)
    ensures ListIssues(node.requirementIds, |node.requirementIds|) == [] <==> IsIdList(node.requirementIds)
    ensures ListIssues(node.dependsOn, |node.dependsOn|) == [] <==> IsIdList(node.dependsOn)
    ensures DependencyIssues(node, ids, |node.dependsOn|) == [] <==>
      forall d | d in node.dependsOn :: d in ids && d != node.id
  {
    Whole(node.requirementIds);
    Whole(node.dependsOn);
    ListExact(node.requirementIds, |node.requirementIds|);
    ListExact(node.dependsOn, |node.dependsOn|);
    DependencyExact(node, ids, |node.dependsOn|);
  }

  lemma NodePartsExact(node: Node, ids: set<Id>, payload: Node -> seq<Code>)
    ensures var parts := NodeParts(node, ids, payload);
      parts[0] == parts[1] == parts[2] == parts[3] == parts[4] == parts[5] == parts[6] == parts[7] == parts[8] == []
      <==> CleanNode(node, ids) && LocalOk(node, payload)
  {
    ListsExact(node, ids);
    OperationExact(node);
    WalkSeesEveryObject(node.input, node, node.operation.Map?);
    ConditionExact(node);
  }

  lemma NodeExact(node: Node, ids: set<Id>, payload: Node -> seq<Code>)
    ensures NodeIssues(node, ids, payload) == [] <==> CleanNode(node, ids) && LocalOk(node, payload)
  {
    var parts := NodeParts(node, ids, payload);
    FlattenExact(parts);
    PartsExact(parts);
    NodePartsExact(node, ids, payload);
  }

  lemma PartsExact(parts: seq<seq<Code>>)
    requires |parts| == 9
    ensures (forall p | p in parts :: p == []) <==>
      parts[0] == parts[1] == parts[2] == parts[3] == parts[4] == parts[5] == parts[6] == parts[7] == parts[8] == []
  {
    assert forall i | 0 <= i < 9 :: parts[i] in parts;
    assert forall p | p in parts :: exists i :: 0 <= i < 9 && parts[i] == p;
  }

  lemma {:induction false} ConditionalItemsExact(items: seq<Json>, node: Node, conditional: set<Id>)
    requires forall v | v in items :: AllSound(Objects(v), node, false)
    ensures ConditionalItems(items, conditional) == [] <==> forall v | v in items :: Avoids(v, conditional)
  {
    if items != [] {
      assert items[0] in items && forall v :: v in items <==> v == items[0] || v in items[1..];
      CleanValueAvoidsConditional(items[0], node, false, conditional);
      ConditionalItemsExact(items[1..], node, conditional);
    }
  }

  /** The scope walks over one node report nothing exactly when it reads no conditional node. */
  lemma ScopeCodesExact(node: Node, ids: set<Id>, conditional: set<Id>)
    requires CleanNode(node, ids)
    ensures ConditionalIssues(node.input, conditional) + ConditionalItems(ScopedValues(node.operation), conditional) == []
       <==> CleanScope(node, conditional)
  {
    CleanValueAvoidsConditional(node.input, node, node.operation.Map?, conditional);
    OperationValuesExact(node.operation);
    ConditionalItemsExact(ScopedValues(node.operation), node, conditional);
  }

  lemma LocatedClean(codes: seq<seq<Code>>, i: nat)
    requires Located(codes) == [] && i < |codes|
    ensures codes[i] == []
  {
    LocatedExact(codes);
    assert codes[i] in codes;
  }

  lemma IdsClean(nodes: seq<Node>)
    requires Located(IdCodes(nodes)) == []
    ensures UniqueIds(nodes) && StableIds(nodes, |nodes|) == AllIds(nodes)
  {
    forall i | 0 <= i < |nodes|
      ensures IsStableId(nodes[i].id) && nodes[i].id !in StableIds(nodes, i)
    {
      LocatedClean(IdCodes(nodes), i);
      assert IdCodes(nodes)[i] == When(!IsStableId(nodes[i].id), UnstableId)
                                  + When(IsStableId(nodes[i].id) && nodes[i].id in StableIds(nodes, i), DuplicateId);
    }
    forall i, j | 0 <= i < j < |nodes|
      ensures nodes[i].id != nodes[j].id
    {
      assert nodes[i].id in StableIds(nodes, j);
    }
  }

  lemma TerminalClean(nodes: seq<Node>) returns (output: nat)
    requires TerminalIssues(nodes) == []
    ensures IsTerminal(nodes, output)
  {
    var outputs := OutputsIn(nodes, |nodes|);
    output := outputs[0];
    assert output in outputs && outputs == [output];
    var dependents, stray := DependentCodes(nodes, nodes[output].id), StrayCodes(nodes, output);
    assert |Located(dependents) + Located(stray)| == |Located(dependents)| + |Located(stray)|;
    forall i | 0 <= i < |nodes|
      ensures nodes[output].id !in nodes[i].dependsOn && !IsStray(nodes, output, i)
      ensures i != output ==> !nodes[i].operation.Output?
    {
      LocatedClean(dependents, i);
      LocatedClean(stray, i);
      assert dependents[i] == When(nodes[output].id in nodes[i].dependsOn, OutputHasDependents);
      assert stray[i] == When(IsStray(nodes, output, i), NotAnAncestor);
      assert i in outputs <==> i == output;
    }
  }

  lemma ScopesClean(nodes: seq<Node>, ids: set<Id>)
    requires ConditionScopeIssues(nodes) == [] && forall n | n in nodes :: CleanNode(n, ids)
    ensures forall n | n in nodes :: CleanScope(n, ConditionalIds(nodes))
  {
    var conditional := ConditionalIds(nodes);
    forall n | n in nodes && conditional != {}
      ensures CleanScope(n, conditional)
    {
      var i :| 0 <= i < |nodes| && nodes[i] == n;
      LocatedClean(ScopeCodes(nodes, conditional), i);
      ScopeCodesExact(n, ids, conditional);
    }
  }

  lemma NodesClean(nodes: seq<Node>, ids: set<Id>, payload: Node -> seq<Code>)
    requires Located(NodeCodes(nodes, ids, payload)) == []
    ensures forall n | n in nodes :: CleanNode(n, ids) && LocalOk(n, payload)
  {
    forall n | n in nodes
      ensures CleanNode(n, ids) && LocalOk(n, payload)
    {
      var i :| 0 <= i < |nodes| && nodes[i] == n;
      LocatedClean(NodeCodes(nodes, ids, payload), i);
      NodeExact(n, ids, payload);
    }
  }

  lemma ErrorFreeIsClean(plan: Plan, payload: Node -> seq<Code>) returns (output: nat)
    requires PlanIssues(plan, payload) == []
    ensures Clean(plan.nodes, output)
  {
    var nodes := plan.nodes;
    var ids := StableIds(nodes, |nodes|);
    IdsClean(nodes);
    NodesClean(nodes, ids, payload);
    output := TerminalClean(nodes);
    ScopesClean(nodes, ids);
  }

  /******* Schedules *******/

  /** Every node once, each after all the nodes it depends on. */
  ghost predicate IsSchedule(nodes: seq<Node>, order: seq<Id>) {
    && Distinct(order) && Elements(order) == AllIds(nodes)
    && forall n, i | n in nodes && 0 <= i < |order| && order[i] == n.id :: forall d | d in n.dependsOn :: d in order[..i]
  }

  lemma {:induction false} ExtendOrder(edges: seq<Edge>, ids: set<Id>, order: seq<Id>) returns (full: seq<Id>)
    requires Acyclic(edges) && Distinct(order) && Elements(order) <= ids && Respects(edges, order)
    requires forall e | e in edges :: e.node in ids && e.dependency in ids
    ensures IsTopological(edges, ids, full)
    decreases |ids - Elements(order)|
  {
    var left := ids - Elements(order);
    if left == {} {
      full := order;
    } else {
      if IsStuck(edges, left) {
        StuckIsCyclic(edges, left);
      }
      var x :| x in left && !WaitsIn(edges, left, x);
      var order' := order + [x];
      assert Elements(order') == Elements(order) + {x};
      assert ids - Elements(order') == left - {x};
      forall e, i | e in edges && 0 <= i < |order'| && order'[i] == e.node
        ensures e.dependency in order'[..i]
      {
        if i < |order| {
          assert order'[..i] == order[..i];
        } else {
          assert order'[..i] == order;
          assert e == Edge(x, e.dependency);
        }
      }
      full := ExtendOrder(edges, ids, order');
    }
  }

  lemma TopologicalIsSchedule(nodes: seq<Node>, order: seq<Id>)
    requires forall n | n in nodes :: CleanNode(n, AllIds(nodes))
    ensures IsTopological(Edges(nodes, AllIds(nodes)), AllIds(nodes), order) <==> IsSchedule(nodes, order)
  {
    var ids := AllIds(nodes);
    var edges := Edges(nodes, ids);
    if IsTopological(edges, ids, order) {
      forall n, i | n in nodes && 0 <= i < |order| && order[i] == n.id
        ensures forall d | d in n.dependsOn :: d in order[..i]
      {
        forall d | d in n.dependsOn
          ensures d in order[..i]
        {
          assert CleanNode(n, ids);
          EdgesAre(nodes, ids, Edge(n.id, d));
        }
      }
    }
    if IsSchedule(nodes, order) {
      forall e, i | e in edges && 0 <= i < |order| && order[i] == e.node
        ensures e.dependency in order[..i]
      {
        EdgesAre(nodes, ids, e);
      }
    }
  }

  /** A plan without issues can be scheduled. */
  lemma ErrorFreePlanHasSchedule(plan: Plan, payload: Node -> seq<Code>) returns (order: seq<Id>)
    requires PlanIssues(plan, payload) == []
    ensures IsSchedule(plan.nodes, order)
  {
    var output := ErrorFreeIsClean(plan, payload);
    var ids := AllIds(plan.nodes);
    EdgesAreKnown(plan.nodes, ids);
    assert Elements([]) == {};
    order := ExtendOrder(Edges(plan.nodes, ids), ids, []);
    TopologicalIsSchedule(plan.nodes, order);
  }

  /** Walking back along dependencies walks back in every schedule. */
  lemma {:induction false} WalkGoesBack(nodes: seq<Node>, order: seq<Id>, walk: seq<Id>, i: nat)
    requires IsSchedule(nodes, order) && IsWalk(ById(nodes), walk)
    requires i < |order| && walk[0] in order[..i]
    ensures walk[|walk| - 1] in order[..i]
    decreases |walk|
  {
    if |walk| > 1 {
      var j :| 0 <= j < i && order[j] == walk[0];
      var n := ById(nodes)[walk[0]];
      assert n in nodes && n.id == order[j] && walk[1] in n.dependsOn;
      assert walk[1] in order[..j] && order[..j] <= order[..i];
      assert IsWalk(ById(nodes), walk[1..]);
      WalkGoesBack(nodes, order, walk[1..], i);
    }
  }

  lemma OthersComeBefore(nodes: seq<Node>, order: seq<Id>, output: nat, i: nat, k: nat)
    requires IsTerminal(nodes, output) && IsSchedule(nodes, order)
    requires i < |order| && order[i] == nodes[output].id && k < |nodes| && k != output
    ensures nodes[k].id in order[..i]
  {
    var out := nodes[output];
    assert out in nodes;
    var walk :| IsWalk(ById(nodes), walk) && walk[0] in out.dependsOn && walk[|walk| - 1] == nodes[k].id;
    WalkGoesBack(nodes, order, walk, i);
  }

  lemma OutputIsLast(nodes: seq<Node>, order: seq<Id>, output: nat, i: nat)
    requires UniqueIds(nodes) && IsTerminal(nodes, output) && IsSchedule(nodes, order)
    requires i < |order| && order[i] == nodes[output].id
    ensures i == |order| - 1
  {
    var last := order[|order| - 1];
    assert last in Elements(order);
    var n :| n in nodes && n.id == last;
    var k :| 0 <= k < |nodes| && nodes[k] == n;
    if k != output {
      OthersComeBefore(nodes, order, output, i, k);
    }
  }

  lemma SchedulesEndWith(nodes: seq<Node>, output: nat, order: seq<Id>)
    requires UniqueIds(nodes) && IsTerminal(nodes, output) && IsSchedule(nodes, order)
    ensures |order| >= 1 && order[|order| - 1] == nodes[output].id
  {
    assert nodes[output] in nodes;
    assert nodes[output].id in Elements(order);
    var i :| 0 <= i < |order| && order[i] == nodes[output].id;
    OutputIsLast(nodes, order, output, i);
  }

  /** Every schedule of a plan without issues ends with its one output node. */
  lemma SchedulesEndWithOutput(plan: Plan, payload: Node -> seq<Code>, order: seq<Id>) returns (output: nat)
    requires PlanIssues(plan, payload) == [] && IsSchedule(plan.nodes, order)
    ensures IsTerminal(plan.nodes, output)
    ensures |order| >= 1 && order[|order| - 1] == plan.nodes[output].id
  {
    output := ErrorFreeIsClean(plan, payload);
    SchedulesEndWith(plan.nodes, output, order);
  }

  /** The values a node takes from the plan when it runs. */
  ghost predicate TakesValue(node: Node, v: Json) {
    v == node.input || RunsOn(node.operation, v) || ExpiresTo(node.operation, v)
  }

  /** Everything a value refers to is the run input or was produced by one of `earlier`. */
  ghost predicate IsReadable(v: Json, earlier: seq<Id>) {
    forall b | b in Bound(v) :: b.String? && IsEarlierOrInput(b.s, earlier)
  }

  ghost predicate IsEarlierOrInput(reference: string, earlier: seq<Id>) {
    match ReferenceNode(reference)
    case Err(_) => false
    case Ok(None) => true
    case Ok(Some(id)) => id in earlier
  }

  lemma CleanValueIsReadable(node: Node, v: Json, allowMap: bool, earlier: seq<Id>)
    requires AllSound(Objects(v), node, allowMap) && forall d | d in node.dependsOn :: d in earlier
    ensures IsReadable(v, earlier)
  {
    CleanValueReadsDependencies(v, node, allowMap);
    forall b | b in Bound(v)
      ensures b.String? && IsEarlierOrInput(b.s, earlier)
    {
      assert IsVisible(b.s, node);
    }
  }

  lemma CleanPlanIsReadable(nodes: seq<Node>, output: nat, order: seq<Id>, node: Node, i: nat)
    requires Clean(nodes, output) && IsSchedule(nodes, order)
    requires node in nodes && i < |order| && order[i] == node.id
    ensures forall v | TakesValue(node, v) :: IsReadable(v, order[..i])
    ensures node.condition.Some? ==> IsEarlierOrInput(node.condition.value, order[..i])
  {
    assert CleanNode(node, AllIds(nodes));
    forall v | TakesValue(node, v)
      ensures IsReadable(v, order[..i])
    {
      CleanValueIsReadable(node, v, if v == node.input then node.operation.Map? else false, order[..i]);
    }
  }

  /**
  In every schedule of a plan without issues, whatever a node's input, operation or condition
  refers to is the run input or the output of a node that comes strictly earlier.
  */
  lemma InputsAreReadable(plan: Plan, payload: Node -> seq<Code>, order: seq<Id>, node: Node, i: nat)
    requires PlanIssues(plan, payload) == [] && IsSchedule(plan.nodes, order)
    requires node in plan.nodes && i < |order| && order[i] == node.id
    ensures forall v | TakesValue(node, v) :: IsReadable(v, order[..i])
    ensures node.condition.Some? ==> IsEarlierOrInput(node.condition.value, order[..i])
  {
    var output := ErrorFreeIsClean(plan, payload);
    CleanPlanIsReadable(plan.nodes, output, order, node, i);
  }

  /** The values `validate_condition_scope` walks. */
  ghost predicate TakesScopedValue(node: Node, v: Json) {
    v == node.input || RunsOn(node.operation, v)
  }

  /** No input, item list, result or output value of a plan without issues reads a conditional node. */
  lemma InputsAvoidConditionalNodes(plan: Plan, payload: Node -> seq<Code>, node: Node, v: Json, id: Id)
    requires PlanIssues(plan, payload) == []
    requires node in plan.nodes && TakesScopedValue(node, v) && Reads(v, id)
    ensures forall n | n in plan.nodes && n.id == id :: !IsConditional(n)
  {
    var output := ErrorFreeIsClean(plan, payload);
    assert CleanNode(node, AllIds(plan.nodes)) && CleanScope(node, ConditionalIds(plan.nodes));
    assert Avoids(v, ConditionalIds(plan.nodes));
  }
}
