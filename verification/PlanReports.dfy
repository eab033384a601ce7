/**
What a validation report says: a structural issue stands at a node, or at the plan, exactly when
that node or the plan has the fault.
*/
module PlanReports {
  import opened Prelude
  import opened Sequences
  import opened PlanModel
  import opened PlanGraph
  import opened PlanReferences
  import opened PlanValidation
  import opened PlanAcceptance

  /** Codes about the shape of the plan, not about a value inside a node. */
  predicate Structural(code: Code) {
    code in {
      UnstableId, DuplicateId, EmptyList, DuplicateEntry, SelfDependency, UnknownDependency, ConditionalOutput,
      SchemaNotObject, CyclicDependencies, NotOneOutput, OutputHasDependents, NotAnAncestor, ServedOnlyConditionally}
  }

  /******* Faults *******/

  ghost predicate HasUnstable(values: seq<Id>) {
    exists v :: v in values && !IsStableId(v)
  }

  ghost predicate Repeats(values: seq<Id>) {
    exists i, j :: 0 <= i < j < |values| && values[i] == values[j]
  }

  ghost predicate Declared(nodes: seq<Node>, id: Id) {
    IsStableId(id) && exists n :: n in nodes && n.id == id
  }

  /** The plan's only output node. */
  ghost predicate SoleOutput(nodes: seq<Node>, output: int) {
    && 0 <= output < |nodes| && nodes[output].operation.Output?
    && forall i | 0 <= i < |nodes| && nodes[i].operation.Output? :: i == output
  }

  /** Faults a node has by itself, given which ids are usable. */
  ghost predicate NodeFault(node: Node, ids: set<Id>, code: Code) {
    || (code == UnstableId
         && (!IsStableId(node.id) || HasUnstable(node.requirementIds) || HasUnstable(node.dependsOn)))
    || (code == EmptyList && node.requirementIds == [])
    || (code == DuplicateEntry && (Repeats(node.requirementIds) || Repeats(node.dependsOn)))
    || (code == SelfDependency && node.id in node.dependsOn)
    || (code == UnknownDependency && exists d :: d in node.dependsOn && d !in ids)
    || (code == ConditionalOutput && node.condition.Some? && node.operation.Output?)
    || (code == SchemaNotObject && !node.outputSchema.Object?)
  }

  /** An earlier node has the node's id. */
  ghost predicate IsRepeated(nodes: seq<Node>, at: nat)
    requires at < |nodes|
  {
    IsStableId(nodes[at].id) && exists j :: 0 <= j < at && nodes[j].id == nodes[at].id
  }

  ghost predicate FollowsOutput(nodes: seq<Node>, at: nat)
    requires at < |nodes|
  {
    exists o :: SoleOutput(nodes, o) && nodes[o].id in nodes[at].dependsOn
  }

  ghost predicate IsUnneeded(nodes: seq<Node>, at: nat)
    requires at < |nodes|
  {
    exists o :: SoleOutput(nodes, o) && at != o && !Needed(ById(nodes), nodes[o].dependsOn, nodes[at].id)
  }

  /** Faults a node has among the others. */
  ghost predicate PlaceFault(nodes: seq<Node>, at: nat, code: Code)
    requires at < |nodes|
  {
    || (code == DuplicateId && IsRepeated(nodes, at))
    || (code == OutputHasDependents && FollowsOutput(nodes, at))
    || (code == NotAnAncestor && IsUnneeded(nodes, at))
  }

  ghost predicate PlanFault(plan: Plan, ids: set<Id>, code: Code) {
    || (code == SchemaNotObject && (!plan.inputSchema.Object? || !plan.outputSchema.Object?))
    || (code == CyclicDependencies && !Acyclic(Edges(plan.nodes, ids)))
    || (code == NotOneOutput && !exists o :: SoleOutput(plan.nodes, o))
    || (code == ServedOnlyConditionally && !RequirementsServed(plan.nodes))
  }

  /******* Lists of issues *******/

  lemma {:induction false} AtHolds(at: int, codes: seq<Code>, i: Issue)
    ensures i in At(at, codes) <==> i.at == at && i.code in codes
  {
    if codes != [] {
      AtHolds(at, codes[1..], i);
      assert i.code in codes <==> i.code == codes[0] || i.code in codes[1..];
    }
  }

  lemma {:induction false} LocatedHolds(codes: seq<seq<Code>>, i: Issue)
    ensures i in Located(codes) <==> 0 <= i.at < |codes| && i.code in codes[i.at]
  {
    if codes != [] {
      LocatedHolds(codes[..|codes| - 1], i);
      AtHolds(|codes| - 1, codes[|codes| - 1], i);
    }
  }

  lemma {:induction false} RepeatHolds(issue: Issue, times: nat, i: Issue)
    ensures i in Repeat(issue, times) <==> i == issue && times > 0
  {
    if times > 0 {
      RepeatHolds(issue, times - 1, i);
    }
  }

  lemma InOrderHolds(a: seq<Issue>, b: seq<Issue>, c: seq<Issue>, d: seq<Issue>, e: seq<Issue>, f: seq<Issue>, i: Issue)
    ensures i in InOrder(a, b, c, d, e, f) <==> i in a || i in b || i in c || i in d || i in e || i in f
  {
  }

  lemma {:induction false} ListHolds(values: seq<Id>, n: nat, code: Code)
    requires n <= |values|
    ensures code in ListIssues(values, n) <==>
      || (code == UnstableId && HasUnstable(values[..n]))
      || (code == DuplicateEntry && Repeats(values[..n]))
  {
    if n > 0 {
      var front, last := values[..n - 1], values[n - 1];
      ListHolds(values, n - 1, code);
      assert values[..n] == front + [last];
      ListNext(front, last);
    }
  }

  lemma ListNext(front: seq<Id>, last: Id)
    ensures HasUnstable(front + [last]) <==> HasUnstable(front) || !IsStableId(last)
    ensures Repeats(front + [last]) <==> Repeats(front) || last in front
  {
    var all := front + [last];
    assert last in all && forall v :: v in all <==> v in front || v == last;
    if Repeats(front) {
      var i, j :| 0 <= i < j < |front| && front[i] == front[j];
      assert all[i] == all[j];
    }
    if last in front {
      var i :| 0 <= i < |front| && front[i] == last;
      assert all[i] == all[|front|];
    }
  }

  lemma {:induction false} DependencyHolds(node: Node, ids: set<Id>, n: nat, code: Code)
    requires n <= |node.dependsOn|
    ensures var front := node.dependsOn[..n];
      code in DependencyIssues(node, ids, n) <==>
      || (code == SelfDependency && node.id in front)
      || (code == UnknownDependency && exists d :: d in front && d !in ids)
  {
    if n > 0 {
      DependencyHolds(node, ids, n - 1, code);
      var front, last := node.dependsOn[..n - 1], node.dependsOn[n - 1];
      assert node.dependsOn[..n] == front + [last];
      assert forall d :: d in front + [last] <==> d in front || d == last;
    }
  }

  /******* The walks over values report nothing structural *******/

  lemma ReferenceFault(reference: string, code: Code)
    requires ReferenceNode(reference) == Err(code)
    ensures !Structural(code)
  {
  }

  lemma VisibleHolds(reference: string, node: Node, code: Code)
    requires Structural(code)
    ensures code !in VisibleIssues(reference, node)
  {
    if ReferenceNode(reference).Err? {
      ReferenceFault(reference, ReferenceNode(reference).error);
    }
  }

  lemma {:induction false} WalkHolds(v: Json, node: Node, allowMap: bool, code: Code)
    requires Structural(code)
    ensures code !in DynamicIssues(v, node, allowMap)
  {
    match v
    case Array(items) => ItemsHold(items, node, allowMap, code);
    case Object(fields) =>
      FieldsHold(fields, node, allowMap, code);
      var dynamic := DynamicKeys(fields);
      if dynamic != [] && Get(fields, dynamic[0]).Some? && Get(fields, dynamic[0]).value.String? {
        VisibleHolds(Get(fields, dynamic[0]).value.s, node, code);
      }
    case _ =>
  }

  lemma {:induction false} ItemsHold(items: seq<Json>, node: Node, allowMap: bool, code: Code)
    requires Structural(code)
    ensures code !in ItemIssues(items, node, allowMap)
  {
    if items != [] {
      WalkHolds(items[0], node, allowMap, code);
      ItemsHold(items[1..], node, allowMap, code);
    }
  }

  lemma {:induction false} FieldsHold(fields: seq<Field>, node: Node, allowMap: bool, code: Code)
    requires Structural(code)
    ensures code !in FieldIssues(fields, node, allowMap)
  {
    if fields != [] {
      WalkHolds(fields[0].value, node, allowMap, code);
      FieldsHold(fields[1..], node, allowMap, code);
    }
  }

  lemma {:induction false} ScopeWalkHolds(v: Json, conditional: set<Id>, code: Code)
    requires Structural(code)
    ensures code !in ConditionalIssues(v, conditional)
  {
    match v
    case Array(items) => ScopeItemsHold(items, conditional, code);
    case Object(fields) => ScopeFieldsHold(fields, conditional, code);
    case _ =>
  }

  lemma {:induction false} ScopeItemsHold(items: seq<Json>, conditional: set<Id>, code: Code)
    requires Structural(code)
    ensures code !in ConditionalItems(items, conditional)
  {
    if items != [] {
      ScopeWalkHolds(items[0], conditional, code);
      ScopeItemsHold(items[1..], conditional, code);
    }
  }

  lemma {:induction false} ScopeFieldsHold(fields: seq<Field>, conditional: set<Id>, code: Code)
    requires Structural(code)
    ensures code !in ConditionalFields(fields, conditional)
  {
    if fields != [] {
      ScopeWalkHolds(fields[0].value, conditional, code);
      ScopeFieldsHold(fields[1..], conditional, code);
    }
  }

  /******* One check at a time *******/

  lemma NineParts(parts: seq<seq<Code>>, code: Code)
    requires |parts| == 9
    ensures code in Flatten(parts) <==>
      || code in parts[0] || code in parts[1] || code in parts[2] || code in parts[3] || code in parts[4]
      || code in parts[5] || code in parts[6] || code in parts[7] || code in parts[8]
  {
    FlattenHolds(parts, code);
    assert forall p :: p in parts <==> exists k :: 0 <= k < 9 && parts[k] == p;
  }

  lemma ListsHold(node: Node, ids: set<Id>, payload: Node -> seq<Code>, code: Code)
    ensures var parts := NodeParts(node, ids, payload);
      && (code in parts[1] <==>
            || (code == EmptyList && node.requirementIds == [])
            || (code == UnstableId && HasUnstable(node.requirementIds))
            || (code == DuplicateEntry && Repeats(node.requirementIds)))
      && (code in parts[2] <==>
            || (code == UnstableId && HasUnstable(node.dependsOn))
            || (code == DuplicateEntry && Repeats(node.dependsOn)))
      && (code in parts[3] <==>
            || (code == SelfDependency && node.id in node.dependsOn)
            || (code == UnknownDependency && exists d :: d in node.dependsOn && d !in ids))
  {
    Whole(node.requirementIds);
    Whole(node.dependsOn);
    ListHolds(node.requirementIds, |node.requirementIds|, code);
    ListHolds(node.dependsOn, |node.dependsOn|, code);
    DependencyHolds(node, ids, |node.dependsOn|, code);
  }

  lemma ValuesHold(node: Node, ids: set<Id>, payload: Node -> seq<Code>, code: Code)
    requires Structural(code)
    ensures var parts := NodeParts(node, ids, payload);
      && (code in parts[4] <==> code == ConditionalOutput && node.condition.Some? && node.operation.Output?)
      && code !in parts[5] && code !in parts[7]
  {
    if node.condition.Some? {
      VisibleHolds(node.condition.value, node, code);
    }
    WalkHolds(node.input, node, node.operation.Map?, code);
    ItemsHold(OperationValues(node.operation), node, false, code);
  }

  lemma NodeHolds(node: Node, ids: set<Id>, payload: Node -> seq<Code>, code: Code)
    requires Structural(code)
    ensures code in NodeIssues(node, ids, payload) <==> NodeFault(node, ids, code) || code in payload(node)
  {
    var parts := NodeParts(node, ids, payload);
    NineParts(parts, code);
    ListsHold(node, ids, payload, code);
    ValuesHold(node, ids, payload, code);
    assert code in parts[0] <==> code == UnstableId && !IsStableId(node.id);
    assert code in parts[6] <==> code == SchemaNotObject && !node.outputSchema.Object?;
  }

  lemma NodesHold(nodes: seq<Node>, ids: set<Id>, payload: Node -> seq<Code>, i: Issue)
    requires Structural(i.code)
    ensures i in Located(NodeCodes(nodes, ids, payload)) <==>
      0 <= i.at < |nodes| && (NodeFault(nodes[i.at], ids, i.code) || i.code in payload(nodes[i.at]))
  {
    LocatedHolds(NodeCodes(nodes, ids, payload), i);
    if 0 <= i.at < |nodes| {
      NodeHolds(nodes[i.at], ids, payload, i.code);
    }
  }

  lemma SchemasHold(plan: Plan, i: Issue)
    ensures i in At(PLAN, SchemaIssues(plan.inputSchema) + SchemaIssues(plan.outputSchema)) <==>
      i == Issue(PLAN, SchemaNotObject) && (!plan.inputSchema.Object? || !plan.outputSchema.Object?)
  {
    AtHolds(PLAN, SchemaIssues(plan.inputSchema) + SchemaIssues(plan.outputSchema), i);
  }

  lemma DagHolds(nodes: seq<Node>, ids: set<Id>, i: Issue)
    ensures i in DagIssues(nodes, ids) <==> i == Issue(PLAN, CyclicDependencies) && !Acyclic(Edges(nodes, ids))
  {
    AtHolds(PLAN, When(!Acyclic(Edges(nodes, ids)), CyclicDependencies), i);
  }

  lemma IdsHold(nodes: seq<Node>, i: Issue)
    ensures i in Located(IdCodes(nodes)) <==>
      && 0 <= i.at < |nodes|
      && ((i.code == UnstableId && !IsStableId(nodes[i.at].id)) || (i.code == DuplicateId && IsRepeated(nodes, i.at)))
  {
    LocatedHolds(IdCodes(nodes), i);
  }

  lemma SoleIsUnique(nodes: seq<Node>)
    ensures var outputs := OutputsIn(nodes, |nodes|);
      (forall o | SoleOutput(nodes, o) :: outputs == [o]) && (|outputs| == 1 ==> SoleOutput(nodes, outputs[0]))
  {
    var outputs := OutputsIn(nodes, |nodes|);
    forall o | SoleOutput(nodes, o)
      ensures outputs == [o]
    {
      OneOutput(nodes, o, |nodes|);
    }
    if |outputs| == 1 {
      assert outputs[0] in outputs;
    }
  }

  lemma SolePlace(nodes: seq<Node>, o: nat, at: nat)
    requires SoleOutput(nodes, o) && at < |nodes|
    ensures FollowsOutput(nodes, at) <==> nodes[o].id in nodes[at].dependsOn
    ensures IsUnneeded(nodes, at) <==> IsStray(nodes, o, at)
  {
  }

  lemma NoOutput(nodes: seq<Node>, at: nat)
    requires |OutputsIn(nodes, |nodes|)| != 1 && at < |nodes|
    ensures !FollowsOutput(nodes, at) && !IsUnneeded(nodes, at)
  {
    SoleIsUnique(nodes);
  }

  lemma TerminalHolds(nodes: seq<Node>, i: Issue)
    ensures i in TerminalIssues(nodes) <==>
      || (i == Issue(PLAN, NotOneOutput) && !exists o :: SoleOutput(nodes, o))
      || (0 <= i.at < |nodes| &&
           ((i.code == OutputHasDependents && FollowsOutput(nodes, i.at))
             || (i.code == NotAnAncestor && IsUnneeded(nodes, i.at))))
  {
    var outputs := OutputsIn(nodes, |nodes|);
    SoleIsUnique(nodes);
    if |outputs| == 1 {
      LocatedHolds(DependentCodes(nodes, nodes[outputs[0]].id), i);
      LocatedHolds(StrayCodes(nodes, outputs[0]), i);
      if 0 <= i.at < |nodes| {
        SolePlace(nodes, outputs[0], i.at);
      }
    } else if 0 <= i.at < |nodes| {
      NoOutput(nodes, i.at);
    }
  }

  lemma ScopeHolds(nodes: seq<Node>, i: Issue)
    requires Structural(i.code)
    ensures i in ConditionScopeIssues(nodes) <==> i == Issue(PLAN, ServedOnlyConditionally) && !RequirementsServed(nodes)
  {
    var conditional := ConditionalIds(nodes);
    OnlyConditionalExact(nodes);
    if conditional == {} {
      NoConditionalRequirement(nodes);
    } else {
      LocatedHolds(ScopeCodes(nodes, conditional), i);
      if 0 <= i.at < |nodes| {
        ScopeWalkHolds(nodes[i.at].input, conditional, i.code);
        ScopeItemsHold(ScopedValues(nodes[i.at].operation), conditional, i.code);
      }
      RepeatHolds(Issue(PLAN, ServedOnlyConditionally), |OnlyConditional(nodes)|, i);
    }
  }

  /** A requirement is left to conditional nodes when one of them serves it and no other node does. */
  lemma OnlyConditionalHolds(nodes: seq<Node>, r: Id)
    ensures r in OnlyConditional(nodes) <==>
      && (exists n :: n in nodes && n.condition.Some? && r in n.requirementIds)
      && !(exists n :: n in nodes && n.condition.None? && r in n.requirementIds)
  {
  }

  lemma {:induction false} RepeatCounts(issue: Issue, times: nat)
    ensures multiset(Repeat(issue, times))[issue] == times
  {
    if times > 0 {
      RepeatCounts(issue, times - 1);
    }
  }

  /** There is one issue for each such requirement. */
  lemma RequirementsAreCounted(nodes: seq<Node>)
    ensures multiset(ConditionScopeIssues(nodes))[Issue(PLAN, ServedOnlyConditionally)] == |OnlyConditional(nodes)|
  {
    var issue, conditional := Issue(PLAN, ServedOnlyConditionally), ConditionalIds(nodes);
    if conditional == {} {
      NoConditionalRequirement(nodes);
    } else {
      LocatedHolds(ScopeCodes(nodes, conditional), issue);
      RepeatCounts(issue, |OnlyConditional(nodes)|);
      assert issue !in multiset(Located(ScopeCodes(nodes, conditional)));
    }
  }

  /******* The report *******/

  lemma UsableIds(nodes: seq<Node>, id: Id)
    ensures id in StableIds(nodes, |nodes|) <==> Declared(nodes, id)
  {
  }

  /**
  The report holds a structural issue exactly where the plan has the fault, besides what the
  checks on the nodes' own payloads say.
  */
  lemma ReportsExactly(plan: Plan, payload: Node -> seq<Code>, i: Issue)
    requires Structural(i.code)
    ensures var ids := StableIds(plan.nodes, |plan.nodes|);
      && (forall id :: id in ids <==> Declared(plan.nodes, id))
      && (i in PlanIssues(plan, payload) <==>
            || (i.at == PLAN && PlanFault(plan, ids, i.code))
            || (0 <= i.at < |plan.nodes| &&
                 (NodeFault(plan.nodes[i.at], ids, i.code) || PlaceFault(plan.nodes, i.at, i.code)
                   || i.code in payload(plan.nodes[i.at]))))
  {
    var nodes := plan.nodes;
    var ids := StableIds(nodes, |nodes|);
    forall id ensures id in ids <==> Declared(nodes, id) {
      UsableIds(nodes, id);
    }
    InOrderHolds(
      At(PLAN, SchemaIssues(plan.inputSchema) + SchemaIssues(plan.outputSchema)), Located(IdCodes(nodes)),
      Located(NodeCodes(nodes, ids, payload)), DagIssues(nodes, ids), TerminalIssues(nodes), ConditionScopeIssues(nodes), i);
    SchemasHold(plan, i);
    IdsHold(nodes, i);
    NodesHold(nodes, ids, payload, i);
    DagHolds(nodes, ids, i);
    TerminalHolds(nodes, i);
    ScopeHolds(nodes, i);
  }
}
