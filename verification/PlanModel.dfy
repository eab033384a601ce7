/**
Execution plans: JSON values, nodes and the operations whose payload carries dynamic values.
*/
module PlanModel {
  import opened Prelude
  import opened Text

  /** JSON values. An object lists its fields in the order they are visited. */
  datatype Json =
    | Null
    | Bool(value: bool)
    | Number(n: int)
    | String(s: string)
    | Array(items: seq<Json>)
    | Object(fields: seq<Field>)

  datatype Field = Field(key: string, value: Json)

  predicate HasKey(fields: seq<Field>, key: string) {
    exists f :: f in fields && f.key == key
  }

  function Get(fields: seq<Field>, key: string): (r: Option<Json>)
    ensures r.None? <==> !HasKey(fields, key)
    ensures r.Some? ==> Field(key, r.value) in fields
  {
    if fields == [] then None
    else if fields[0].key == key then Some(fields[0].value)
    else
      assert forall f :: f in fields <==> f == fields[0] || f in fields[1..];
      Get(fields[1..], key)
  }

  type Id = string

  /** Operations, reduced to the values they take from the plan. */
  datatype Operation =
    | Capability
    | Agent
    | Map(items: Json)
    | Reduce(items: Json)
    | Review(onExpiry: Option<Json>)
    | WaitSignal(onExpiry: Option<Json>)
    | WaitUntil(result: Json)
    | Output(value: Json)

  /** The operation takes `v` when its node runs: what it iterates over, waits to return or puts out. */
  predicate RunsOn(op: Operation, v: Json) {
    op == Map(v) || op == Reduce(v) || op == WaitUntil(v) || op == Output(v)
  }

  /** The operation puts out `v` when its wait expires. */
  predicate ExpiresTo(op: Operation, v: Json) {
    op == Review(Some(v)) || op == WaitSignal(Some(v))
  }

  datatype Node = Node(
    id: Id,
    requirementIds: seq<Id>,
    dependsOn: seq<Id>,
    condition: Option<string>,   // the reference path of `when`
    input: Json,
    outputSchema: Json,
    operation: Operation)

  datatype Plan = Plan(inputSchema: Json, outputSchema: Json, nodes: seq<Node>)

  /** `[a-z][a-z0-9_-]{0,63}` */
  predicate IsStableId(s: string) {
    && 1 <= |s| <= 64
    && IsLowercase(s[0])
    && forall c | c in s[1..] :: IsLowercase(c) || IsDigit(c) || c == '_' || c == '-'
  }

  predicate IsConditional(node: Node) {
    node.condition.Some?
  }
}
