/**
The plan validator: what it reports, the loops that report it, and what an empty report means.

`payload(node)` stands for the checks on retry policies, capability names, prompts, temporal
targets, item keys and compensation, which do not look at other nodes; it is arbitrary here.
*/
module PlanValidation {
  import opened Sequences
  import opened PlanModel
  import opened PlanGraph
  import opened PlanReferences

  /** An issue at a node, or at the plan itself (-1). */
  datatype Issue = Issue(at: int, code: Code)

  const PLAN := -1

  function At(at: int, codes: seq<Code>): seq<Issue> {
    if codes == [] then [] else [Issue(at, codes[0])] + At(at, codes[1..])
  }

  /** What the nodes' checks report, node by node. */
  function Located(codes: seq<seq<Code>>): seq<Issue> {
    if codes == [] then []
    else Located(codes[..|codes| - 1]) + At(|codes| - 1, codes[|codes| - 1])
  }

  function When(condition: bool, code: Code): seq<Code> {
    if condition then [code] else []
  }

  /******* What is reported *******/

  function SchemaIssues(schema: Json): seq<Code> {
    When(!schema.Object?, SchemaNotObject)
  }

  /** The stable ids that `nodes[..n]` declare. */
  function StableIds(nodes: seq<Node>, n: nat): set<Id>
    requires n <= |nodes|
  {
    set i | 0 <= i < n && IsStableId(nodes[i].id) :: nodes[i].id
  }

  function IdCodes(nodes: seq<Node>): seq<seq<Code>> {
    seq(|nodes|, i requires 0 <= i < |nodes| =>
      When(!IsStableId(nodes[i].id), UnstableId)
      + When(IsStableId(nodes[i].id) && nodes[i].id in StableIds(nodes, i), DuplicateId))
  }

  /** `validate_stable_id_list` over `values[..n]`. */
  function ListIssues(values: seq<Id>, n: nat): seq<Code>
    requires n <= |values|
  {
    if n == 0 then []
    else
      ListIssues(values, n - 1)
      + When(!IsStableId(values[n - 1]), UnstableId) + When(values[n - 1] in values[..n - 1], DuplicateEntry)
  }

  function DependencyIssues(node: Node, ids: set<Id>, n: nat): seq<Code>
    requires n <= |node.dependsOn|
  {
    if n == 0 then []
    else
      var d := node.dependsOn[n - 1];
      DependencyIssues(node, ids, n - 1) + When(d == node.id, SelfDependency) + When(d !in ids, UnknownDependency)
  }

  function ConditionIssues(node: Node): seq<Code> {
    match node.condition
    case None => []
    case Some(reference) => VisibleIssues(reference, node) + When(node.operation.Output?, ConditionalOutput)
  }

  /** The values an operation takes from the plan, besides the node's input. */
  function OperationValues(op: Operation): seq<Json> {
    match op
    case Capability => []
    case Agent => []
    case Map(items) => [items]
    case Reduce(items) => [items]
    case Review(output) => if output.Some? then [output.value] else []
    case WaitSignal(output) => if output.Some? then [output.value] else []
    case WaitUntil(result) => [result]
    case Output(value) => [value]
  }

  /** Those of them that `validate_condition_scope` inspects: a wait's expiry output is not one. */
  function ScopedValues(op: Operation): seq<Json> {
    if op.Review? || op.WaitSignal? then [] else OperationValues(op)
  }

  /** The checks on one node, in the order they run. */
  function NodeParts(node: Node, ids: set<Id>, payload: Node -> seq<Code>): seq<seq<Code>> {
    [
      When(!IsStableId(node.id), UnstableId),
      if node.requirementIds == [] then [EmptyList] else ListIssues(node.requirementIds, |node.requirementIds|),
      ListIssues(node.dependsOn, |node.dependsOn|),
      DependencyIssues(node, ids, |node.dependsOn|),
      ConditionIssues(node),
      DynamicIssues(node.input, node, node.operation.Map?),
      SchemaIssues(node.outputSchema),
      ItemIssues(OperationValues(node.operation), node, false),
      payload(node)]
  }

  /** `validate_execution_node`. */
  function NodeIssues(node: Node, ids: set<Id>, payload: Node -> seq<Code>): seq<Code> {
    Flatten(NodeParts(node, ids, payload))
  }

  function NodeCodes(nodes: seq<Node>, ids: set<Id>, payload: Node -> seq<Code>): seq<seq<Code>> {
    seq(|nodes|, i requires 0 <= i < |nodes| => NodeIssues(nodes[i], ids, payload))
  }

  ghost function DagIssues(nodes: seq<Node>, ids: set<Id>): seq<Issue> {
    At(PLAN, When(!Acyclic(Edges(nodes, ids)), CyclicDependencies))
  }

  /** The positions of the output nodes in `nodes[..n]`. */
  function OutputsIn(nodes: seq<Node>, n: nat): (r: seq<nat>)
    requires n <= |nodes|
    ensures forall i :: i in r <==> 0 <= i < n && nodes[i].operation.Output?
  {
    if n == 0 then []
    else OutputsIn(nodes, n - 1) + (if nodes[n - 1].operation.Output? then [n - 1] else [])
  }

  function DependentCodes(nodes: seq<Node>, id: Id): seq<seq<Code>> {
    seq(|nodes|, i requires 0 <= i < |nodes| => When(id in nodes[i].dependsOn, OutputHasDependents))
  }

  ghost predicate IsStray(nodes: seq<Node>, output: nat, i: nat)
    requires i < |nodes| && output < |nodes|
  {
    i != output && !Needed(ById(nodes), nodes[output].dependsOn, nodes[i].id)
  }

  ghost function StrayCodes(nodes: seq<Node>, output: nat): seq<seq<Code>>
    requires output < |nodes|
  {
    seq(|nodes|, i requires 0 <= i < |nodes| => When(IsStray(nodes, output, i), NotAnAncestor))
  }

  /** `validate_terminal_output`. */
  ghost function TerminalIssues(nodes: seq<Node>): seq<Issue> {
    var outputs := OutputsIn(nodes, |nodes|);
    if |outputs| != 1 then [Issue(PLAN, NotOneOutput)]
    else
      assert outputs[0] in outputs;
      Located(DependentCodes(nodes, nodes[outputs[0]].id)) + Located(StrayCodes(nodes, outputs[0]))
  }

  function ConditionalIds(nodes: seq<Node>): set<Id> {
    set n | n in nodes && IsConditional(n) :: n.id
  }

  function ScopeCodes(nodes: seq<Node>, conditional: set<Id>): seq<seq<Code>> {
    seq(|nodes|, i requires 0 <= i < |nodes| =>
      ConditionalIssues(nodes[i].input, conditional) + ConditionalItems(ScopedValues(nodes[i].operation), conditional))
  }

  /** The requirements that only conditional nodes serve. */
  function OnlyConditional(nodes: seq<Node>): set<Id> {
    (set n, r | n in nodes && IsConditional(n) && r in n.requirementIds :: r)
    - (set n, r | n in nodes && !IsConditional(n) && r in n.requirementIds :: r)
  }

  function Repeat(issue: Issue, times: nat): seq<Issue> {
    if times == 0 then [] else Repeat(issue, times - 1) + [issue]
  }

  /** `validate_condition_scope`. */
  function ConditionScopeIssues(nodes: seq<Node>): seq<Issue> {
    var conditional := ConditionalIds(nodes);
    if conditional == {} then []
    else
      Located(ScopeCodes(nodes, conditional))
      + Repeat(Issue(PLAN, ServedOnlyConditionally), |OnlyConditional(nodes)|)
  }

  function InOrder(a: seq<Issue>, b: seq<Issue>, c: seq<Issue>, d: seq<Issue>, e: seq<Issue>, f: seq<Issue>): seq<Issue> {
    a + (b + (c + (d + (e + f))))
  }

  lemma InOrderAfter(before: seq<Issue>, a: seq<Issue>, b: seq<Issue>, c: seq<Issue>, d: seq<Issue>, e: seq<Issue>, f: seq<Issue>)
    ensures before + InOrder(a, b, c, d, e, f) == before + a + b + c + d + e + f
  {
  }

  /** `validate_execution_plan_at`. */
  ghost function PlanIssues(plan: Plan, payload: Node -> seq<Code>): seq<Issue> {
    var nodes := plan.nodes;
    var ids := StableIds(nodes, |nodes|);
    InOrder(
      At(PLAN, SchemaIssues(plan.inputSchema) + SchemaIssues(plan.outputSchema)),
      Located(IdCodes(nodes)),
      Located(NodeCodes(nodes, ids, payload)),
      DagIssues(nodes, ids),
      TerminalIssues(nodes),
      ConditionScopeIssues(nodes))
  }

  /******* The report and the loops that fill it *******/

  class Report {
    var errors: seq<Issue>

    constructor ()
      ensures errors == []
    {
      errors := [];
    }

    method Push(issue: Issue)
      modifies this
      ensures errors == old(errors) + [issue]
    {
      errors := errors + [issue];
    }

    method PushAll(at: int, codes: seq<Code>)
      modifies this
      ensures errors == old(errors) + At(at, codes)
    {
      for i := 0 to |codes|
        invariant errors + At(at, codes[i..]) == old(errors) + At(at, codes)
      {
        assert codes[i..][1..] == codes[i + 1..];
        assert errors + At(at, codes[i..]) == errors + [Issue(at, codes[i])] + At(at, codes[i + 1..]);
        Push(Issue(at, codes[i]));
      }
    }
  }

  method ReportLocated(codes: seq<seq<Code>>, report: Report)
    modifies report
    ensures report.errors == old(report.errors) + Located(codes)
  {
    for i := 0 to |codes|
      invariant report.errors == old(report.errors) + Located(codes[..i])
    {
      report.PushAll(i, codes[i]);
      assert codes[..i + 1][..i] == codes[..i];
      Grouped(old(report.errors), Located(codes[..i]), At(i, codes[i]));
    }
    assert codes[..|codes|] == codes;
  }

  /** The first loop of the plan check: which ids are usable, and which are repeated. */
  method CheckIds(nodes: seq<Node>) returns (ids: set<Id>, codes: seq<seq<Code>>)
    ensures ids == StableIds(nodes, |nodes|) && codes == IdCodes(nodes)
  {
    ids, codes := {}, [];
    for i := 0 to |nodes|
      invariant ids == StableIds(nodes, i)
      invariant codes == IdCodes(nodes)[..i]
    {
      var id := nodes[i].id;
      codes := codes + [When(!IsStableId(id), UnstableId) + When(IsStableId(id) && id in ids, DuplicateId)];
      if IsStableId(id) {
        ids := ids + {id};
      }
    }
  }

  /** `validate_execution_dag`. */
  method ValidateDag(nodes: seq<Node>, ids: set<Id>, report: Report)
    modifies report
    ensures report.errors == old(report.errors) + DagIssues(nodes, ids)
  {
    var visited, order := CountSchedulable(nodes, ids);
    report.PushAll(PLAN, When(visited != |ids|, CyclicDependencies));
  }

  method FindStray(nodes: seq<Node>, output: nat) returns (codes: seq<seq<Code>>)
    requires output < |nodes|
    ensures codes == StrayCodes(nodes, output)
  {
    var ancestors := CollectAncestors(nodes, nodes[output].dependsOn);
    codes := seq(|nodes|, i requires 0 <= i < |nodes| => When(i != output && nodes[i].id !in ancestors, NotAnAncestor));
  }

  /** `validate_terminal_output`. */
  method ValidateTerminalOutput(nodes: seq<Node>, report: Report)
    modifies report
    ensures report.errors == old(report.errors) + TerminalIssues(nodes)
  {
    var outputs := OutputsIn(nodes, |nodes|);
    if |outputs| != 1 {
      report.Push(Issue(PLAN, NotOneOutput));
      return;
    }
    assert outputs[0] in outputs;
    var dependents := DependentCodes(nodes, nodes[outputs[0]].id);
    ReportLocated(dependents, report);
    var stray := FindStray(nodes, outputs[0]);
    ReportLocated(stray, report);
    Grouped(old(report.errors), Located(dependents), Located(stray));
  }

  method ReportRequirements(nodes: seq<Node>, report: Report)
    modifies report
    ensures report.errors == old(report.errors) + Repeat(Issue(PLAN, ServedOnlyConditionally), |OnlyConditional(nodes)|)
  {
    var issue := Issue(PLAN, ServedOnlyConditionally);
    for i := 0 to |OnlyConditional(nodes)|
      invariant report.errors == old(report.errors) + Repeat(issue, i)
    {
      report.Push(issue);
      Grouped(old(report.errors), Repeat(issue, i), [issue]);
    }
  }

  /** `validate_condition_scope`. */
  method ValidateConditionScope(nodes: seq<Node>, report: Report)
    modifies report
    ensures report.errors == old(report.errors) + ConditionScopeIssues(nodes)
  {
    var conditional := ConditionalIds(nodes);
    if conditional != {} {
      var codes := ScopeCodes(nodes, conditional);
      ReportLocated(codes, report);
      ReportRequirements(nodes, report);
      Grouped(old(report.errors), Located(codes),
                 Repeat(Issue(PLAN, ServedOnlyConditionally), |OnlyConditional(nodes)|));
    }
  }

  /** `validate_execution_plan_at`. */
  method ValidatePlan(plan: Plan, payload: Node -> seq<Code>, report: Report)
    modifies report
    ensures report.errors == old(report.errors) + PlanIssues(plan, payload)
  {
    report.PushAll(PLAN, SchemaIssues(plan.inputSchema) + SchemaIssues(plan.outputSchema));
    var ids, idCodes := CheckIds(plan.nodes);
    ReportLocated(idCodes, report);
    ReportLocated(NodeCodes(plan.nodes, ids, payload), report);
    ValidateDag(plan.nodes, ids, report);
    ValidateTerminalOutput(plan.nodes, report);
    ValidateConditionScope(plan.nodes, report);
    InOrderAfter(old(report.errors), At(PLAN, SchemaIssues(plan.inputSchema) + SchemaIssues(plan.outputSchema)),
                 Located(idCodes), Located(NodeCodes(plan.nodes, ids, payload)),
                 DagIssues(plan.nodes, ids), TerminalIssues(plan.nodes), ConditionScopeIssues(plan.nodes));
  }
}
