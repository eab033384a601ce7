/** Agent definitions, stored revisions and the policy and lock resolved from them. */
module AgentModel {
  import opened Prelude
  import opened SortedLists
  import opened ArtifactReference

  type Uid = nat

  datatype Body =
    | SkillBody(allowedTools: seq<string>, actions: seq<Option<Reference>>)
    | ConnectorBody
    | OtherBody

  datatype Revision = Revision(kind: Kind, name: string, artifactUid: Uid, revisionUid: Uid, version: nat, body: Body)

  datatype ConnectorBinding = ConnectorBinding(connector: Reference, connection: Uid)

  /** `other` stands for the parts of a policy that resolution copies without looking at the registry. */
  datatype Definition<Other> = Definition(
    instructions: seq<string>,
    instructionRefs: seq<Reference>,
    skillRefs: seq<Reference>,
    allowed: seq<Reference>,
    adminReview: seq<Reference>,
    bindings: seq<ConnectorBinding>,
    tools: seq<string>,
    deniedTools: seq<string>,
    other: Other)

  /** Which field of the definition a reference was written in. */
  datatype Field = InstructionField | SkillField | AllowedField | AdminReviewField | BindingField | ToolField | DeniedToolField

  datatype FieldRef = FieldRef(field: Field, reference: Reference)

  datatype Dependency = Dependency(
    reference: string, kind: Kind, name: string, artifactUid: Uid, revisionUid: Uid, version: nat)

  datatype AgentBinding = AgentBinding(connector: string, connection: Uid, artifactUid: Uid, revisionUid: Uid)

  datatype Policy<Other> = Policy(
    instructions: seq<string>,
    skillRefs: seq<string>,
    allowed: seq<string>,
    adminReview: seq<string>,
    bindings: seq<AgentBinding>,
    tools: seq<string>,
    deniedTools: seq<string>,
    other: Other)

  datatype HashInput<Other> =
    HashInput(revisionUid: Uid, artifacts: seq<Dependency>, tools: seq<string>, policy: Policy<Other>)

  datatype Lock<Digest> = Lock(revisionUid: Uid, artifacts: seq<Dependency>, tools: seq<string>, digest: Digest)

  datatype ResolveError =
    | Unprintable
    | UnresolvedDependency
    | NotAConnectorBinding
    | UnresolvedConnector
    | ConnectorBoundTwice
    | ConnectionBoundTwice
    | UnboundConnectorAction
    | MissingLockDependency
    | LockedKindMismatch
    | WrongRevision
    | DigestMismatch

  function DependencyText(d: Dependency): string { d.reference }
  function BindingText(b: AgentBinding): string { b.connector }
  function Itself(s: string): string { s }

  function SortedUnique(s: seq<string>): seq<string> {
    SortedUniqueBy(s, Itself)
  }

  /******* The references a definition declares *******/

  function In(field: Field, refs: seq<Reference>): (r: seq<FieldRef>)
    ensures |r| == |refs| && forall i | 0 <= i < |r| :: r[i] == FieldRef(field, refs[i])
  {
    seq(|refs|, i requires 0 <= i < |refs| => FieldRef(field, refs[i]))
  }

  function ToolRefs(field: Field, names: seq<string>): (r: seq<FieldRef>)
    ensures |r| == |names| && forall i | 0 <= i < |r| :: r[i] == FieldRef(field, ToolRef(names[i]))
  {
    seq(|names|, i requires 0 <= i < |names| => FieldRef(field, ToolRef(names[i])))
  }

  function BindingRefs(bindings: seq<ConnectorBinding>): (r: seq<FieldRef>)
    ensures |r| == |bindings| && forall i | 0 <= i < |r| :: r[i] == FieldRef(BindingField, bindings[i].connector)
  {
    seq(|bindings|, i requires 0 <= i < |bindings| => FieldRef(BindingField, bindings[i].connector))
  }

  function DeclaredRefs<Other>(d: Definition<Other>): seq<FieldRef> {
    In(InstructionField, d.instructionRefs)
    + In(SkillField, d.skillRefs)
    + In(AllowedField, d.allowed)
    + In(AdminReviewField, d.adminReview)
    + BindingRefs(d.bindings)
    + ToolRefs(ToolField, d.tools)
    + ToolRefs(DeniedToolField, d.deniedTools)
  }

  /******* What a reference loads *******/

  datatype Key = Key(kind: Kind, name: string)

  /** The registry entry a reference depends on; agents and tools load nothing. */
  function KeyOf(r: Reference): Option<Key> {
    match r
    case ArtifactRef(kind, name) => if kind == AgentKind then None else Some(Key(kind, name))
    case ActionRef(connector, _) => Some(Key(ConnectorKind, connector))
    case ToolRef(_) => None
  }

  type Cache = map<Key, Revision>

  /** What the registry returns at the n-th load; it may change between loads. */
  type Registry = (nat, Key) -> Option<Revision>

  ghost predicate Faithful(serve: Registry) {
    forall n: nat, k: Key | serve(n, k).Some? :: serve(n, k).value.kind == k.kind && serve(n, k).value.name == k.name
  }

  ghost predicate Served(loaded: Cache, serve: Registry) {
    forall k | k in loaded :: exists n: nat :: serve(n, k) == Some(loaded[k])
  }

  ghost predicate Keyed(loaded: Cache) {
    forall k | k in loaded :: loaded[k].kind == k.kind && loaded[k].name == k.name
  }

  function Needed(refs: seq<FieldRef>): set<Key> {
    set f | f in refs && KeyOf(f.reference).Some? :: KeyOf(f.reference).value
  }

  predicate AllPrint(refs: seq<FieldRef>) {
    forall f | f in refs :: Print(f.reference).Ok?
  }

  function Locked(r: Reference, revision: Revision): Dependency
    requires Print(r).Ok?
  {
    Dependency(
      Print(r).value, revision.kind, revision.name, revision.artifactUid, revision.revisionUid, revision.version)
  }

  /** `d` is the locked form of one of `refs`. */
  ghost predicate Locks(d: Dependency, refs: seq<FieldRef>, loaded: Cache) {
    exists f :: f in refs && Print(f.reference).Ok? && KeyOf(f.reference).Some? && KeyOf(f.reference).value in loaded
             && d == Locked(f.reference, loaded[KeyOf(f.reference).value])
  }

  function DeclaredTools(body: Body): seq<string> {
    match body
    case SkillBody(allowed, actions) => allowed + ActionTools(actions)
    case _ => []
  }

  function ActionTools(actions: seq<Option<Reference>>): (names: seq<string>)
    ensures forall n :: n in names <==> Some(ToolRef(n)) in actions
  {
    if actions == [] then []
    else
      assert forall a :: a in actions <==> a == actions[0] || a in actions[1..];
      (if actions[0].Some? && actions[0].value.ToolRef? then [actions[0].value.name] else []) + ActionTools(actions[1..])
  }

  /** A skill that some reference loads declares the tool. Actions load connectors, which declare none. */
  ghost predicate SkillDeclares(tool: string, refs: seq<FieldRef>, loaded: Cache) {
    exists f :: f in refs && f.reference.ArtifactRef? && KeyOf(f.reference).Some? && KeyOf(f.reference).value in loaded
             && tool in DeclaredTools(loaded[KeyOf(f.reference).value].body)
  }

  /** The connectors among the loaded revisions, by name. */
  function Connectors(loaded: Cache): map<string, Revision> {
    map k | k in loaded && k.kind == ConnectorKind && loaded[k].body.ConnectorBody? :: k.name := loaded[k]
  }
}
