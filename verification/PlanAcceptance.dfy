/**
Exactly which plans the validator accepts, and the one promise it does not keep.
*/
module PlanAcceptance {
  import opened Prelude
  import opened PlanModel
  import opened PlanGraph
  import opened PlanReferences
  import opened PlanValidation
  import opened PlanTheorems

  lemma IdsExact(nodes: seq<Node>)
    requires forall n | n in nodes :: IsStableId(n.id)
    ensures StableIds(nodes, |nodes|) == AllIds(nodes)
    ensures UniqueIds(nodes) ==> Located(IdCodes(nodes)) == []
  {
    var codes := IdCodes(nodes);
    LocatedExact(codes);
    if UniqueIds(nodes) {
      forall c | c in codes
        ensures c == []
      {
        var i :| 0 <= i < |codes| && codes[i] == c;
        assert nodes[i] in nodes;
      }
    }
  }

  lemma TerminalExact(nodes: seq<Node>, output: nat)
    requires IsTerminal(nodes, output)
    ensures TerminalIssues(nodes) == []
  {
    OneOutput(nodes, output, |nodes|);
    var dependents, stray := DependentCodes(nodes, nodes[output].id), StrayCodes(nodes, output);
    LocatedExact(dependents);
    LocatedExact(stray);
    forall c | c in dependents
      ensures c == []
    {
      var i :| 0 <= i < |nodes| && dependents[i] == c;
      assert nodes[i] in nodes;
    }
    forall c | c in stray
      ensures c == []
    {
      var i :| 0 <= i < |nodes| && stray[i] == c;
      assert !IsStray(nodes, output, i);
    }
  }

  lemma {:induction false} OneOutput(nodes: seq<Node>, output: nat, n: nat)
    requires n <= |nodes| && output < |nodes| && nodes[output].operation.Output?
    requires forall i | 0 <= i < |nodes| && i != output :: !nodes[i].operation.Output?
    ensures OutputsIn(nodes, n) == if output < n then [output] else []
  {
    if n > 0 {
      OneOutput(nodes, output, n - 1);
    }
  }

  /** Every requirement that a conditional node serves is also served by one that always runs. */
  ghost predicate RequirementsServed(nodes: seq<Node>) {
    forall n, r | n in nodes && n.condition.Some? && r in n.requirementIds ::
      exists m :: m in nodes && m.condition.None? && r in m.requirementIds
  }

  lemma OnlyConditionalExact(nodes: seq<Node>)
    ensures OnlyConditional(nodes) == {} <==> RequirementsServed(nodes)
  {
    if OnlyConditional(nodes) == {} {
      forall n, r | n in nodes && n.condition.Some? && r in n.requirementIds
        ensures exists m :: m in nodes && m.condition.None? && r in m.requirementIds
      {
        assert r !in OnlyConditional(nodes);
      }
    }
  }

  lemma ScopeExact(nodes: seq<Node>, ids: set<Id>)
    requires forall n | n in nodes :: CleanNode(n, ids)
    ensures ConditionScopeIssues(nodes) == [] <==>
      (forall n | n in nodes :: CleanScope(n, ConditionalIds(nodes))) && RequirementsServed(nodes)
  {
    var conditional := ConditionalIds(nodes);
    if ConditionScopeIssues(nodes) == [] {
      ScopesClean(nodes, ids);
      if conditional == {} {
        NoConditionalRequirement(nodes);
      }
    }
    OnlyConditionalExact(nodes);
    if (forall n | n in nodes :: CleanScope(n, conditional)) && OnlyConditional(nodes) == {} {
      var codes := ScopeCodes(nodes, conditional);
      LocatedExact(codes);
      forall c | c in codes
        ensures c == []
      {
        var i :| 0 <= i < |nodes| && codes[i] == c;
        ScopeCodesExact(nodes[i], ids, conditional);
      }
    }
  }

  lemma NoConditionalRequirement(nodes: seq<Node>)
    requires ConditionalIds(nodes) == {}
    ensures OnlyConditional(nodes) == {}
  {
    forall n | n in nodes
      ensures !IsConditional(n)
    {
      assert IsConditional(n) ==> n.id in ConditionalIds(nodes);
    }
  }

  /**
  The validator accepts a plan exactly when its schemas and nodes are well-formed on their own,
  its dependencies form a graph with one output that needs every other node, its values are
  readable and in scope, and no requirement is left to conditional nodes alone.
  */
  lemma AcceptsExactly(plan: Plan, payload: Node -> seq<Code>)
    ensures PlanIssues(plan, payload) == [] <==>
      && plan.inputSchema.Object? && plan.outputSchema.Object?
      && (forall n | n in plan.nodes :: LocalOk(n, payload))
      && (exists output :: Clean(plan.nodes, output))
      && RequirementsServed(plan.nodes)
  {
    if PlanIssues(plan, payload) == [] {
      var output := ErrorFreeIsClean(plan, payload);
      ErrorFreeIsLocal(plan, payload);
      ScopeExact(plan.nodes, AllIds(plan.nodes));
    }
    if plan.inputSchema.Object? && plan.outputSchema.Object? && (forall n | n in plan.nodes :: LocalOk(n, payload))
       && (exists output :: Clean(plan.nodes, output)) && RequirementsServed(plan.nodes) {
      var output :| Clean(plan.nodes, output);
      CleanIsErrorFree(plan, payload, output);
    }
  }

  lemma ErrorFreeIsLocal(plan: Plan, payload: Node -> seq<Code>)
    requires PlanIssues(plan, payload) == []
    ensures forall n | n in plan.nodes :: LocalOk(n, payload)
  {
    NodesClean(plan.nodes, StableIds(plan.nodes, |plan.nodes|), payload);
  }

  lemma NodesErrorFree(nodes: seq<Node>, payload: Node -> seq<Code>)
    requires forall n | n in nodes :: CleanNode(n, AllIds(nodes)) && LocalOk(n, payload)
    ensures Located(NodeCodes(nodes, AllIds(nodes), payload)) == []
  {
    var codes := NodeCodes(nodes, AllIds(nodes), payload);
    LocatedExact(codes);
    forall c | c in codes
      ensures c == []
    {
      var i :| 0 <= i < |nodes| && codes[i] == c;
      NodeExact(nodes[i], AllIds(nodes), payload);
    }
  }

  lemma CleanIsErrorFree(plan: Plan, payload: Node -> seq<Code>, output: nat)
    requires plan.inputSchema.Object? && plan.outputSchema.Object?
    requires forall n | n in plan.nodes :: LocalOk(n, payload)
    requires Clean(plan.nodes, output) && RequirementsServed(plan.nodes)
    ensures PlanIssues(plan, payload) == []
  {
    IdsExact(plan.nodes);
    NodesErrorFree(plan.nodes, payload);
    TerminalExact(plan.nodes, output);
    ScopeExact(plan.nodes, AllIds(plan.nodes));
  }

  /******* What the scope check does not cover *******/

  /** `node` refers to `id` in its input, its operation or its condition. */
  ghost predicate RefersTo(node: Node, id: Id) {
    || (exists v :: TakesValue(node, v) && Reads(v, id))
    || (node.condition.Some? && ReferenceNode(node.condition.value) == Ok(Some(id)))
  }

  /** `node` refers to `id` where the scope check does not look: its condition, or a wait's expiry output. */
  ghost predicate RefersUnscoped(node: Node, id: Id) {
    || (exists v :: ExpiresTo(node.operation, v) && Reads(v, id))
    || (node.condition.Some? && ReferenceNode(node.condition.value) == Ok(Some(id)))
  }

  /**
  An accepted plan reads no conditional node at all exactly when its conditions and its waits'
  expiry outputs do not: nothing else can.
  */
  lemma ConditionalReadsExactly(plan: Plan, payload: Node -> seq<Code>)
    requires PlanIssues(plan, payload) == []
    ensures (forall n, m | n in plan.nodes && m in plan.nodes && IsConditional(m) :: !RefersTo(n, m.id))
       <==> (forall n, m | n in plan.nodes && m in plan.nodes && IsConditional(m) :: !RefersUnscoped(n, m.id))
  {
    forall n, m | n in plan.nodes && m in plan.nodes && IsConditional(m)
      ensures RefersTo(n, m.id) <==> RefersUnscoped(n, m.id)
    {
      if RefersTo(n, m.id) && !(n.condition.Some? && ReferenceNode(n.condition.value) == Ok(Some(m.id))) {
        var v :| TakesValue(n, v) && Reads(v, m.id);
        if TakesScopedValue(n, v) {
          InputsAvoidConditionalNodes(plan, payload, n, v, m.id);
        }
      }
    }
  }

  const SCHEMA := Object([])

  function NoPayloadIssue(node: Node): seq<Code> {
    []
  }

  const FIRST := Node("a", ["r"], [], Some("$.input"), Null, SCHEMA, Capability)
  const LAST := Node("c", ["r"], ["b"], None, Null, SCHEMA, Output(Null))

  /** A conditional node, then `b`, then the output. */
  function Example(b: Node): Plan {
    Plan(SCHEMA, SCHEMA, [FIRST, b, LAST])
  }

  ghost predicate IsMiddle(b: Node) {
    && b.id == "b" && b.requirementIds == ["r"] && b.dependsOn == ["a"] && b.input == Null && b.outputSchema == SCHEMA
    && !b.operation.Output?
  }

  lemma ExampleReferences()
    ensures ReferenceNode("$.input") == Ok(None)
    ensures ReferenceNode("$.nodes.a.output") == Ok(Some("a"))
  {
    ReferenceRoundTrip(None, []);
    assert Render(None, []) == "$.input";
    ReferenceRoundTrip(Some("a"), []);
    ExampleText();
  }

  lemma ExampleText()
    ensures "$.nodes." + ("a" + ".output" + "") == "$.nodes.a.output"
  {
    assert "a" + ".output" + "" == "a.output";
  }

  lemma ExampleMembers(b: Node)
    ensures forall n :: n in Example(b).nodes <==> n == FIRST || n == b || n == LAST
  {
    var nodes := Example(b).nodes;
    assert nodes[0] == FIRST && nodes[1] == b && nodes[2] == LAST;
  }

  lemma ExampleSets(b: Node)
    requires IsMiddle(b)
    ensures var nodes := Example(b).nodes;
      && AllIds(nodes) == {"a", "b", "c"} && ConditionalIds(nodes) <= {"a", "b"} && RequirementsServed(nodes)
      && UniqueIds(nodes)
  {
    ExampleMembers(b);
    assert "r" in LAST.requirementIds;
  }

  lemma NullIsClean(node: Node, allowMap: bool, conditional: set<Id>)
    ensures AllSound(Objects(Null), node, allowMap) && Avoids(Null, conditional)
  {
  }

  /** A node that takes no value from the plan but perhaps its condition. */
  lemma BareNodeOk(n: Node, ids: set<Id>, conditional: set<Id>)
    requires n.input == Null && (n.operation == Capability || n.operation == Output(Null))
    requires forall d | d in n.dependsOn :: d in ids && d != n.id
    requires n.condition.Some? ==> n.operation == Capability && IsVisible(n.condition.value, n)
    ensures CleanNode(n, ids) && CleanScope(n, conditional)
  {
    NullIsClean(n, false, conditional);
  }

  lemma EndsAreClean()
    ensures CleanNode(FIRST, {"a", "b", "c"}) && CleanNode(LAST, {"a", "b", "c"})
    ensures CleanScope(FIRST, {"a", "b"}) && CleanScope(LAST, {"a", "b"})
  {
    ExampleReferences();
    BareNodeOk(FIRST, {"a", "b", "c"}, {"a", "b"});
    BareNodeOk(LAST, {"a", "b", "c"}, {"a", "b"});
  }

  lemma ExampleNodesLocal(b: Node, n: Node)
    requires IsMiddle(b) && n in Example(b).nodes
    ensures LocalOk(n, NoPayloadIssue)
  {
    ExampleMembers(b);
    assert IsStableId("a") && IsStableId("b") && IsStableId("c") && IsStableId("r");
  }

  lemma ExampleWalks(b: Node)
    requires IsMiddle(b)
    ensures Needed(ById(Example(b).nodes), LAST.dependsOn, "a") && Needed(ById(Example(b).nodes), LAST.dependsOn, "b")
  {
    var byId := ById(Example(b).nodes);
    ExampleMembers(b);
    assert "a" in byId && "b" in byId && byId["b"] == b;
    assert IsWalk(byId, ["b"]) && ["b"][0] in LAST.dependsOn;
    assert IsWalk(byId, ["b", "a"]) && ["b", "a"][0] in LAST.dependsOn;
  }

  lemma ExampleIsTerminal(b: Node)
    requires IsMiddle(b)
    ensures IsTerminal(Example(b).nodes, 2)
  {
    ExampleWalks(b);
    LastOfThreeIsTerminal(Example(b).nodes);
  }

  lemma LastOfThreeIsTerminal(nodes: seq<Node>)
    requires |nodes| == 3 && nodes[2].operation.Output? && forall i | 0 <= i < 3 :: nodes[2].id !in nodes[i].dependsOn
    requires forall i | 0 <= i < 2 ::
      !nodes[i].operation.Output? && Needed(ById(nodes), nodes[2].dependsOn, nodes[i].id)
    ensures IsTerminal(nodes, 2)
  {
  }

  lemma ExampleIsAcyclic(b: Node)
    requires IsMiddle(b)
    ensures Acyclic(Edges(Example(b).nodes, AllIds(Example(b).nodes)))
  {
    var nodes := Example(b).nodes;
    var ids := AllIds(nodes);
    var order := ["a", "b", "c"];
    ExampleMembers(b);
    ExampleSets(b);
    assert ids == Elements(order);
    forall e | e in Edges(nodes, ids)
      ensures e == Edge("b", "a") || e == Edge("c", "b")
    {
      EdgesAre(nodes, ids, e);
    }
    EdgesAreKnown(nodes, ids);
    OrderedIsAcyclic(Edges(nodes, ids), ids, order);
  }

  lemma ExampleNodesClean(b: Node)
    requires IsMiddle(b) && CleanNode(b, {"a", "b", "c"}) && CleanScope(b, {"a", "b"})
    ensures var nodes := Example(b).nodes;
      forall n | n in nodes :: CleanNode(n, AllIds(nodes)) && CleanScope(n, ConditionalIds(nodes)) && LocalOk(n, NoPayloadIssue)
  {
    ExampleSets(b);
    EndsAreClean();
    ExampleMembers(b);
    forall n | n in Example(b).nodes
      ensures LocalOk(n, NoPayloadIssue)
    {
      ExampleNodesLocal(b, n);
    }
  }

  lemma ExampleIsAccepted(b: Node)
    requires IsMiddle(b) && CleanNode(b, {"a", "b", "c"}) && CleanScope(b, {"a", "b"})
    ensures PlanIssues(Example(b), NoPayloadIssue) == []
  {
    var nodes := Example(b).nodes;
    ExampleSets(b);
    ExampleIsTerminal(b);
    ExampleIsAcyclic(b);
    ExampleNodesClean(b);
    assert Clean(nodes, 2);
    CleanIsErrorFree(Example(b), NoPayloadIssue, 2);
  }

  /** Node `b` runs only if the skipped-or-not node `a` left an output. */
  const ON_CONDITION := Node("b", ["r"], ["a"], Some("$.nodes.a.output"), Null, SCHEMA, Capability)

  /** The scope check accepts a condition that reads a conditional node. */
  lemma ConditionMayReadConditional()
    ensures PlanIssues(Example(ON_CONDITION), NoPayloadIssue) == []
    ensures IsConditional(FIRST) && RefersTo(ON_CONDITION, FIRST.id)
  {
    ExampleReferences();
    BareNodeOk(ON_CONDITION, {"a", "b", "c"}, {"a", "b"});
    ExampleIsAccepted(ON_CONDITION);
  }

  const READS_A := Object([Field("$ref", String("$.nodes.a.output"))])

  /** When the review `b` expires, its output is what the skipped-or-not node `a` left. */
  const ON_EXPIRY := Node("b", ["r"], ["a"], None, Null, SCHEMA, Review(Some(READS_A)))

  lemma ExpiryReads()
    ensures AllSound(Objects(READS_A), ON_EXPIRY, false) && Reads(READS_A, "a")
  {
    var fields := READS_A.fields;
    ExampleReferences();
    assert fields[0] in fields && ObjectsOfFields(fields) == {};
    assert Objects(READS_A) == {fields};
    assert String("$.nodes.a.output") in Bound(READS_A);
  }

  lemma ExpiryIsClean()
    ensures CleanNode(ON_EXPIRY, {"a", "b", "c"}) && CleanScope(ON_EXPIRY, {"a", "b"})
  {
    ExpiryReads();
    NullIsClean(ON_EXPIRY, false, {"a", "b"});
    assert forall v | ExpiresTo(ON_EXPIRY.operation, v) :: v == READS_A;
  }

  /** The scope check accepts a wait's expiry output that reads a conditional node. */
  lemma ExpiryMayReadConditional()
    ensures PlanIssues(Example(ON_EXPIRY), NoPayloadIssue) == []
    ensures IsConditional(FIRST) && RefersTo(ON_EXPIRY, FIRST.id)
  {
    ExpiryReads();
    ExpiryIsClean();
    ExampleIsAccepted(ON_EXPIRY);
    assert TakesValue(ON_EXPIRY, READS_A);
  }
}
