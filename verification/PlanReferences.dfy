/**
References inside a plan: the path grammar, the recursive walk over dynamic values, and the
walk that looks for reads of conditional nodes.
*/
module PlanReferences {
  import opened Prelude
  import opened Text
  import opened PlanModel

  /** What a validation issue says. */
  datatype Code =
    | UnknownReferenceRoot | MissingOutput | UnstableReferenceId | UndottedTail | InvalidSegment
    | SelfReference | UndeclaredReference
    | MalformedBinding | ReferenceNotString | MapVariableNotTrue | MapVariableOutsideMap | UnsupportedDynamicKey
    | ReadsConditional | ServedOnlyConditionally | ConditionalOutput
    | UnstableId | DuplicateId | EmptyList | DuplicateEntry | SelfDependency | UnknownDependency
    | SchemaNotObject | CyclicDependencies | NotOneOutput | OutputHasDependents | NotAnAncestor
    | Payload(detail: nat)

  /******* The reference grammar *******/

  predicate IsSegment(s: string) {
    && s != ""
    && (IsLetter(s[0]) || s[0] == '_')
    && forall c | c in s[1..] :: IsLetter(c) || IsDigit(c) || c == '_' || c == '-'
  }

  /** `validate_reference_tail`. */
  function TailIssue(tail: string): Option<Code> {
    if tail == "" then None
    else if tail[0] != '.' then Some(UndottedTail)
    else if tail[1..] == "" || exists p :: p in Split(tail[1..], '.') && !IsSegment(p) then Some(InvalidSegment)
    else None
  }

  /** `execution_reference_node`: the node a reference reads, or none for the run input. */
  function ReferenceNode(reference: string): Result<Option<Id>, Code> {
    if StartsWith(reference, "$.input") then
      match TailIssue(reference[7..])
      case Some(code) => Err(code)
      case None => Ok(None)
    else if !StartsWith(reference, "$.nodes.") then Err(UnknownReferenceRoot)
    else
      match SplitOnce(reference[8..], ".output")
      case None => Err(MissingOutput)
      case Some((id, tail)) =>
        if !IsStableId(id) then Err(UnstableReferenceId)
        else
          match TailIssue(tail)
          case Some(code) => Err(code)
          case None => Ok(Some(id))
  }

  function RenderTail(path: seq<string>): string {
    if path == [] then "" else "." + Join(path, '.')
  }

  /** The text of a reference to `target` (a node, or the run input) followed by a field path. */
  function Render(target: Option<Id>, path: seq<string>): string {
    match target
    case None => "$.input" + RenderTail(path)
    case Some(id) => "$.nodes." + (id + ".output" + RenderTail(path))
  }

  ghost predicate IsReference(target: Option<Id>, path: seq<string>) {
    (target.Some? ==> IsStableId(target.value)) && forall p | p in path :: IsSegment(p)
  }

  lemma SegmentHasNoDot(p: string)
    requires IsSegment(p)
    ensures '.' !in p
  {
    assert p == [p[0]] + p[1..];
  }

  lemma StableIdHasNoDot(id: Id)
    requires IsStableId(id)
    ensures '.' !in id
  {
    assert id == [id[0]] + id[1..];
  }

  lemma TailRoundTrip(path: seq<string>)
    requires forall p | p in path :: IsSegment(p)
    ensures TailIssue(RenderTail(path)) == None
  {
    if path != [] {
      forall p | p in path
        ensures '.' !in p
      {
        SegmentHasNoDot(p);
      }
      SplitInvertsJoin(path, '.');
      assert RenderTail(path)[1..] == Join(path, '.');
      assert path[0] in path;
      assert |Join(path, '.')| >= |path[0]|;
    }
  }

  lemma TailAccepts(tail: string) returns (path: seq<string>)
    requires TailIssue(tail) == None
    ensures tail == RenderTail(path) && forall p | p in path :: IsSegment(p)
  {
    if tail == "" {
      path := [];
    } else {
      path := Split(tail[1..], '.');
      JoinInvertsSplit(tail[1..], '.');
      assert tail == "." + tail[1..];
    }
  }

  /** The first ".output" behind a stable id is right behind it. */
  lemma OutputFollowsId(id: Id, tail: string)
    requires IsStableId(id)
    ensures SplitOnce(id + ".output" + tail, ".output") == Some((id, tail))
  {
    var rest := id + ".output" + tail;
    StableIdHasNoDot(id);
    assert OccursAt(rest, ".output", |id|);
    forall j: nat | j < |id|
      ensures !OccursAt(rest, ".output", j)
    {
      assert rest[j] == id[j] && id[j] in id;
      NoMatchOnFirst(rest, ".output", j);
    }
    FindIs(rest, ".output", |id|);
    assert rest[..|id|] == id && rest[|id| + 7..] == tail;
  }

  lemma NodesIsNotInput(rest: string)
    ensures var s := "$.nodes." + rest;
      !StartsWith(s, "$.input") && StartsWith(s, "$.nodes.") && s[8..] == rest
  {
    var s := "$.nodes." + rest;
    assert s[..8] == "$.nodes.";
    assert |s| >= 7 ==> s[..7][2] == 'n';
    assert "$.input"[2] == 'i';
  }

  lemma InputRoundTrip(tail: string)
    requires TailIssue(tail) == None
    ensures ReferenceNode("$.input" + tail) == Ok(None)
  {
    assert ("$.input" + tail)[..7] == "$.input" && ("$.input" + tail)[7..] == tail;
  }

  lemma NodeRoundTrip(id: Id, tail: string)
    requires IsStableId(id) && TailIssue(tail) == None
    ensures ReferenceNode("$.nodes." + (id + ".output" + tail)) == Ok(Some(id))
  {
    NodesIsNotInput(id + ".output" + tail);
    OutputFollowsId(id, tail);
  }

  /** Parsing inverts rendering: a rendered reference names exactly its target. */
  lemma ReferenceRoundTrip(target: Option<Id>, path: seq<string>)
    requires IsReference(target, path)
    ensures ReferenceNode(Render(target, path)) == Ok(target)
  {
    TailRoundTrip(path);
    match target
    case None => InputRoundTrip(RenderTail(path));
    case Some(id) => NodeRoundTrip(id, RenderTail(path));
  }

  lemma NodeReferenceAccepts(s: string) returns (path: seq<string>)
    requires ReferenceNode(s).Ok? && !StartsWith(s, "$.input")
    ensures IsReference(ReferenceNode(s).value, path) && s == Render(ReferenceNode(s).value, path)
  {
    var parts := SplitOnce(s[8..], ".output").value;
    path := TailAccepts(parts.1);
    assert s == "$.nodes." + s[8..];
    assert s[8..] == parts.0 + ".output" + RenderTail(path);
  }

  /** Only rendered references are accepted. */
  lemma ReferenceAccepts(s: string) returns (path: seq<string>)
    requires ReferenceNode(s).Ok?
    ensures IsReference(ReferenceNode(s).value, path) && s == Render(ReferenceNode(s).value, path)
  {
    if StartsWith(s, "$.input") {
      path := TailAccepts(s[7..]);
      assert s == "$.input" + s[7..];
    } else {
      path := NodeReferenceAccepts(s);
    }
  }

  /******* Dynamic values *******/

  /** `validate_visible_reference`. */
  function VisibleIssues(reference: string, node: Node): seq<Code> {
    match ReferenceNode(reference)
    case Err(code) => [code]
    case Ok(None) => []
    case Ok(Some(id)) =>
      if id == node.id then [SelfReference]
      else if id !in node.dependsOn then [UndeclaredReference]
      else []
  }

  lemma VisibleExact(reference: string, node: Node)
    ensures VisibleIssues(reference, node) == [] <==> IsVisible(reference, node)
  {
  }

  predicate IsDynamicKey(key: string) {
    key == "$ref" || key == "$item" || key == "$item_key"
  }

  predicate IsDollarKey(key: string) {
    key != "" && key[0] == '$'
  }

  /** The dynamic keys an object carries, in the order they are looked up. */
  function DynamicKeys(fields: seq<Field>): seq<string> {
    (if HasKey(fields, "$ref") then ["$ref"] else [])
    + (if HasKey(fields, "$item") then ["$item"] else [])
    + (if HasKey(fields, "$item_key") then ["$item_key"] else [])
  }

  /** `validate_dynamic_value`. */
  function DynamicIssues(v: Json, node: Node, allowMap: bool): seq<Code> {
    match v
    case Array(items) => ItemIssues(items, node, allowMap)
    case Object(fields) =>
      var dynamic := DynamicKeys(fields);
      if dynamic != [] then
        if |dynamic| != 1 || |fields| != 1 then [MalformedBinding]
        else
          match Get(fields, dynamic[0])
          case None => []
          case Some(binding) =>
            if dynamic[0] == "$ref" then
              if binding.String? then VisibleIssues(binding.s, node) else [ReferenceNotString]
            else
              (if binding != Bool(true) then [MapVariableNotTrue] else [])
              + (if !allowMap then [MapVariableOutsideMap] else [])
      else if exists f :: f in fields && IsDollarKey(f.key) then [UnsupportedDynamicKey]
      else FieldIssues(fields, node, allowMap)
    case _ => []
  }

  function ItemIssues(items: seq<Json>, node: Node, allowMap: bool): seq<Code> {
    if items == [] then [] else DynamicIssues(items[0], node, allowMap) + ItemIssues(items[1..], node, allowMap)
  }

  function FieldIssues(fields: seq<Field>, node: Node, allowMap: bool): seq<Code> {
    if fields == [] then [] else DynamicIssues(fields[0].value, node, allowMap) + FieldIssues(fields[1..], node, allowMap)
  }

  /** Every object inside a value, at any depth. */
  ghost function Objects(v: Json): set<seq<Field>> {
    match v
    case Array(items) => ObjectsOfItems(items)
    case Object(fields) => {fields} + ObjectsOfFields(fields)
    case _ => {}
  }

  ghost function ObjectsOfItems(items: seq<Json>): set<seq<Field>> {
    if items == [] then {} else Objects(items[0]) + ObjectsOfItems(items[1..])
  }

  ghost function ObjectsOfFields(fields: seq<Field>): set<seq<Field>> {
    if fields == [] then {} else Objects(fields[0].value) + ObjectsOfFields(fields[1..])
  }

  ghost predicate IsPlain(fields: seq<Field>) {
    forall f | f in fields :: !IsDollarKey(f.key)
  }

  ghost predicate IsVisible(reference: string, node: Node) {
    match ReferenceNode(reference)
    case Err(_) => false
    case Ok(None) => true
    case Ok(Some(id)) => id in node.dependsOn && id != node.id
  }

  /** Exactly one supported key, bound to a value it supports. */
  ghost predicate IsBinding(fields: seq<Field>, node: Node, allowMap: bool) {
    && |fields| == 1
    && ((fields[0].key == "$ref" && fields[0].value.String? && IsVisible(fields[0].value.s, node))
        || ((fields[0].key == "$item" || fields[0].key == "$item_key") && fields[0].value == Bool(true) && allowMap))
  }

  ghost predicate IsSound(fields: seq<Field>, node: Node, allowMap: bool) {
    IsPlain(fields) || IsBinding(fields, node, allowMap)
  }

  ghost predicate AllSound(objects: set<seq<Field>>, node: Node, allowMap: bool) {
    forall o | o in objects :: IsSound(o, node, allowMap)
  }

  lemma BindingIssues(fields: seq<Field>, node: Node, allowMap: bool)
    requires DynamicKeys(fields) != []
    ensures DynamicIssues(Object(fields), node, allowMap) == [] <==> IsBinding(fields, node, allowMap)
    ensures !IsPlain(fields)
    ensures IsBinding(fields, node, allowMap) ==> ObjectsOfFields(fields) == {}
  {
    if |fields| == 1 {
      assert fields == [fields[0]];
      assert Objects(fields[0].value) + ObjectsOfFields([]) == Objects(fields[0].value);
    }
  }

  /**
  The walk reports nothing exactly when every object at every depth is plain or is one
  well-formed binding, although it stops descending at the first object it does not like.
  */
  lemma {:induction false} WalkSeesEveryObject(v: Json, node: Node, allowMap: bool)
    ensures DynamicIssues(v, node, allowMap) == [] <==> AllSound(Objects(v), node, allowMap)
  {
    match v
    case Array(items) => ItemsSeeEveryObject(items, node, allowMap);
    case Object(fields) =>
      if DynamicKeys(fields) != [] {
        BindingIssues(fields, node, allowMap);
      } else {
        FieldsSeeEveryObject(fields, node, allowMap);
        assert forall f | f in fields :: !IsDynamicKey(f.key);
      }
    case _ =>
  }

  lemma {:induction false} ItemsSeeEveryObject(items: seq<Json>, node: Node, allowMap: bool)
    ensures ItemIssues(items, node, allowMap) == [] <==> AllSound(ObjectsOfItems(items), node, allowMap)
  {
    if items != [] {
      WalkSeesEveryObject(items[0], node, allowMap);
      ItemsSeeEveryObject(items[1..], node, allowMap);
    }
  }

  lemma {:induction false} FieldsSeeEveryObject(fields: seq<Field>, node: Node, allowMap: bool)
    ensures FieldIssues(fields, node, allowMap) == [] <==> AllSound(ObjectsOfFields(fields), node, allowMap)
  {
    if fields != [] {
      WalkSeesEveryObject(fields[0].value, node, allowMap);
      FieldsSeeEveryObject(fields[1..], node, allowMap);
    }
  }

  /** Everything bound to a `$ref` key anywhere in a value. */
  ghost function Bound(v: Json): set<Json> {
    set o, f | o in Objects(v) && f in o && f.key == "$ref" :: f.value
  }

  /** The nodes whose output a value reads. */
  ghost predicate Reads(v: Json, id: Id) {
    exists s :: String(s) in Bound(v) && ReferenceNode(s) == Ok(Some(id))
  }

  /** In a value without issues, every `$ref` at any depth is readable. */
  lemma CleanValueReadsDependencies(v: Json, node: Node, allowMap: bool)
    requires AllSound(Objects(v), node, allowMap)
    ensures forall b | b in Bound(v) :: b.String? && IsVisible(b.s, node)
    ensures forall id | Reads(v, id) :: id in node.dependsOn && id != node.id
  {
    forall b | b in Bound(v)
      ensures b.String? && IsVisible(b.s, node)
    {
      var o, f :| o in Objects(v) && f in o && f.key == "$ref" && f.value == b;
      assert IsSound(o, node, allowMap) && IsDollarKey(f.key);
    }
  }

  /******* Reads of conditional nodes *******/

  /** `validate_no_conditional_reference`. */
  function ConditionalIssues(v: Json, conditional: set<Id>): seq<Code> {
    match v
    case Array(items) => ConditionalItems(items, conditional)
    case Object(fields) =>
      if |fields| == 1 && HasKey(fields, "$ref") && Get(fields, "$ref").value.String? then
        match ReferenceNode(Get(fields, "$ref").value.s)
        case Ok(Some(id)) => if id in conditional then [ReadsConditional] else []
        case _ => []
      else if exists f :: f in fields && IsDollarKey(f.key) then []
      else ConditionalFields(fields, conditional)
    case _ => []
  }

  function ConditionalItems(items: seq<Json>, conditional: set<Id>): seq<Code> {
    if items == [] then [] else ConditionalIssues(items[0], conditional) + ConditionalItems(items[1..], conditional)
  }

  function ConditionalFields(fields: seq<Field>, conditional: set<Id>): seq<Code> {
    if fields == [] then [] else ConditionalIssues(fields[0].value, conditional) + ConditionalFields(fields[1..], conditional)
  }

  ghost predicate ReferenceAvoids(fields: seq<Field>, conditional: set<Id>) {
    forall f, id | f in fields && f.key == "$ref" && f.value.String? && ReferenceNode(f.value.s) == Ok(Some(id)) :: id !in conditional
  }

  ghost predicate AllAvoid(objects: set<seq<Field>>, conditional: set<Id>) {
    forall o | o in objects :: ReferenceAvoids(o, conditional)
  }

  lemma {:induction false} ConditionalWalkIsComplete(v: Json, node: Node, allowMap: bool, conditional: set<Id>)
    requires AllSound(Objects(v), node, allowMap)
    ensures ConditionalIssues(v, conditional) == [] <==> AllAvoid(Objects(v), conditional)
  {
    match v
    case Array(items) => ConditionalItemsComplete(items, node, allowMap, conditional);
    case Object(fields) =>
      assert IsSound(fields, node, allowMap);
      if IsPlain(fields) {
        ConditionalFieldsComplete(fields, node, allowMap, conditional);
        assert forall f | f in fields :: f.key != "$ref";
      } else {
        BindingAvoids(fields, node, allowMap, conditional);
        assert Objects(v) == {fields};
      }
    case _ =>
  }

  lemma BindingAvoids(fields: seq<Field>, node: Node, allowMap: bool, conditional: set<Id>)
    requires IsBinding(fields, node, allowMap)
    ensures ConditionalIssues(Object(fields), conditional) == [] <==> ReferenceAvoids(fields, conditional)
    ensures ObjectsOfFields(fields) == {}
  {
    var f := fields[0];
    assert fields == [f] && f in fields;
    assert forall g :: g in fields <==> g == f;
    assert Objects(f.value) + ObjectsOfFields([]) == {};
    if f.key == "$ref" {
      assert Get(fields, "$ref") == Some(f.value);
      assert HasKey(fields, "$ref");
    } else {
      assert !HasKey(fields, "$ref") && IsDollarKey(f.key);
    }
  }

  lemma {:induction false} ConditionalItemsComplete(items: seq<Json>, node: Node, allowMap: bool, conditional: set<Id>)
    requires AllSound(ObjectsOfItems(items), node, allowMap)
    ensures ConditionalItems(items, conditional) == [] <==> AllAvoid(ObjectsOfItems(items), conditional)
  {
    if items != [] {
      ConditionalWalkIsComplete(items[0], node, allowMap, conditional);
      ConditionalItemsComplete(items[1..], node, allowMap, conditional);
    }
  }

  lemma {:induction false} ConditionalFieldsComplete(fields: seq<Field>, node: Node, allowMap: bool, conditional: set<Id>)
    requires AllSound(ObjectsOfFields(fields), node, allowMap)
    ensures ConditionalFields(fields, conditional) == [] <==> AllAvoid(ObjectsOfFields(fields), conditional)
  {
    if fields != [] {
      ConditionalWalkIsComplete(fields[0].value, node, allowMap, conditional);
      ConditionalFieldsComplete(fields[1..], node, allowMap, conditional);
    }
  }

  /** In a value without dynamic issues the second walk reports exactly the reads of conditional nodes. */
  lemma CleanValueAvoidsConditional(v: Json, node: Node, allowMap: bool, conditional: set<Id>)
    requires AllSound(Objects(v), node, allowMap)
    ensures ConditionalIssues(v, conditional) == [] <==> forall id | Reads(v, id) :: id !in conditional
  {
    ConditionalWalkIsComplete(v, node, allowMap, conditional);
    if AllAvoid(Objects(v), conditional) {
      forall id | Reads(v, id)
        ensures id !in conditional
      {
        var s :| String(s) in Bound(v) && ReferenceNode(s) == Ok(Some(id));
        var o, f :| o in Objects(v) && f in o && f.key == "$ref" && f.value == String(s);
        assert ReferenceAvoids(o, conditional);
      }
    } else {
      var o :| o in Objects(v) && !ReferenceAvoids(o, conditional);
      var f, id :| f in o && f.key == "$ref" && f.value.String? && ReferenceNode(f.value.s) == Ok(Some(id)) && id in conditional;
      assert String(f.value.s) in Bound(v);
      assert Reads(v, id);
    }
  }
}
