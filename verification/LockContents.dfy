/**
What a minted lock and a replayed policy hold, written out in terms of the definition and of the
revisions the registry served.
*/
module LockContents {
  import opened Prelude
  import opened SortedLists
  import opened ArtifactReference
  import opened AgentModel
  import opened AgentDependencies
  import opened ConnectorBindings
  import opened RevisionLock

  /** The definition writes reference `x` in `field`. */
  ghost predicate Declares<Other>(d: Definition<Other>, field: Field, x: Reference) {
    match field
    case InstructionField => x in d.instructionRefs
    case SkillField => x in d.skillRefs
    case AllowedField => x in d.allowed
    case AdminReviewField => x in d.adminReview
    case BindingField => exists b :: b in d.bindings && b.connector == x
    case ToolField => x.ToolRef? && x.name in d.tools
    case DeniedToolField => x.ToolRef? && x.name in d.deniedTools
  }

  lemma InExact(field: Field, refs: seq<Reference>, f: Field, x: Reference)
    ensures FieldRef(f, x) in In(field, refs) <==> f == field && x in refs
  {
    if f == field && x in refs {
      var i :| 0 <= i < |refs| && refs[i] == x;
      assert In(field, refs)[i] == FieldRef(f, x);
    }
  }

  lemma ToolRefsExact(field: Field, names: seq<string>, f: Field, x: Reference)
    ensures FieldRef(f, x) in ToolRefs(field, names) <==> f == field && x.ToolRef? && x.name in names
  {
    if f == field && x.ToolRef? && x.name in names {
      var i :| 0 <= i < |names| && names[i] == x.name;
      assert ToolRefs(field, names)[i] == FieldRef(f, x);
    }
  }

  lemma BindingRefsExact(bindings: seq<ConnectorBinding>, f: Field, x: Reference)
    ensures FieldRef(f, x) in BindingRefs(bindings) <==>
      f == BindingField && exists b :: b in bindings && b.connector == x
  {
    if f == BindingField && exists b :: b in bindings && b.connector == x {
      var b :| b in bindings && b.connector == x;
      var i :| 0 <= i < |bindings| && bindings[i] == b;
      assert BindingRefs(bindings)[i] == FieldRef(f, x);
    }
  }

  /** The collected references are exactly those the definition writes, each under its own field. */
  lemma DeclaredExactly<Other>(d: Definition<Other>, f: Field, x: Reference)
    ensures FieldRef(f, x) in DeclaredRefs(d) <==> Declares(d, f, x)
  {
    InExact(InstructionField, d.instructionRefs, f, x);
    InExact(SkillField, d.skillRefs, f, x);
    InExact(AllowedField, d.allowed, f, x);
    InExact(AdminReviewField, d.adminReview, f, x);
    BindingRefsExact(d.bindings, f, x);
    ToolRefsExact(ToolField, d.tools, f, x);
    ToolRefsExact(DeniedToolField, d.deniedTools, f, x);
  }

  /** Reference `x` makes resolution load the entry `k`. */
  ghost predicate Loads(x: Reference, k: Key) {
    || (x == ArtifactRef(k.kind, k.name) && k.kind != AgentKind)
    || (x.ActionRef? && x.connector == k.name && k.kind == ConnectorKind)
  }

  lemma LoadsExactly(x: Reference, k: Key)
    ensures KeyOf(x) == Some(k) <==> Loads(x, k)
  {
  }

  /** `dep` is the entry a lock holds for a reference with that text, loaded as `rev`. */
  ghost predicate IsLockOf(dep: Dependency, x: Reference, rev: Revision) {
    && Print(x) == Ok(dep.reference)
    && dep.kind == rev.kind && dep.name == rev.name
    && dep.artifactUid == rev.artifactUid && dep.revisionUid == rev.revisionUid && dep.version == rev.version
  }

  ghost predicate LockedFor<Other>(dep: Dependency, d: Definition<Other>, loaded: Cache) {
    exists f, x, k :: Declares(d, f, x) && Loads(x, k) && k in loaded && IsLockOf(dep, x, loaded[k])
  }

  lemma LocksExactly<Other>(dep: Dependency, d: Definition<Other>, loaded: Cache)
    ensures Locks(dep, DeclaredRefs(d), loaded) <==> LockedFor(dep, d, loaded)
  {
    if Locks(dep, DeclaredRefs(d), loaded) {
      var f :| f in DeclaredRefs(d) && Print(f.reference).Ok? && KeyOf(f.reference).Some? && KeyOf(f.reference).value in loaded
               && dep == Locked(f.reference, loaded[KeyOf(f.reference).value]);
      var k := KeyOf(f.reference).value;
      assert f == FieldRef(f.field, f.reference);
      DeclaredExactly(d, f.field, f.reference);
      LoadsExactly(f.reference, k);
      assert IsLockOf(dep, f.reference, loaded[k]);
    }
    if LockedFor(dep, d, loaded) {
      var f, x, k :| Declares(d, f, x) && Loads(x, k) && k in loaded && IsLockOf(dep, x, loaded[k]);
      DeclaredExactly(d, f, x);
      LoadsExactly(x, k);
      assert FieldRef(f, x) in DeclaredRefs(d) && dep == Locked(x, loaded[k]);
    }
  }

  lemma NeededExactly<Other>(d: Definition<Other>, k: Key)
    ensures k in Needed(DeclaredRefs(d)) <==> exists f, x :: Declares(d, f, x) && Loads(x, k)
  {
    if k in Needed(DeclaredRefs(d)) {
      var f :| f in DeclaredRefs(d) && KeyOf(f.reference) == Some(k);
      assert f == FieldRef(f.field, f.reference);
      DeclaredExactly(d, f.field, f.reference);
      LoadsExactly(f.reference, k);
    }
    if f, x :| Declares(d, f, x) && Loads(x, k) {
      DeclaredExactly(d, f, x);
      LoadsExactly(x, k);
      assert FieldRef(f, x) in DeclaredRefs(d);
    }
  }

  /******* Tools *******/

  /** A loaded skill names the tool, among its allowed tools or as one of its actions. */
  ghost predicate Grants(body: Body, tool: string) {
    body.SkillBody? && (tool in body.allowedTools || Some(ToolRef(tool)) in body.actions)
  }

  /** Some artifact the definition refers to is such a skill. */
  ghost predicate SkillGrants<Other>(d: Definition<Other>, loaded: Cache, tool: string) {
    exists f, kind, name ::
      && Declares(d, f, ArtifactRef(kind, name)) && kind != AgentKind
      && Key(kind, name) in loaded && Grants(loaded[Key(kind, name)].body, tool)
  }

  lemma SkillDeclaresExactly<Other>(d: Definition<Other>, loaded: Cache, tool: string)
    ensures SkillDeclares(tool, DeclaredRefs(d), loaded) <==> SkillGrants(d, loaded, tool)
  {
    if SkillDeclares(tool, DeclaredRefs(d), loaded) {
      var f :| f in DeclaredRefs(d) && f.reference.ArtifactRef? && KeyOf(f.reference).Some?
               && KeyOf(f.reference).value in loaded && tool in DeclaredTools(loaded[KeyOf(f.reference).value].body);
      var kind, name := f.reference.kind, f.reference.name;
      assert f == FieldRef(f.field, ArtifactRef(kind, name));
      DeclaredExactly(d, f.field, ArtifactRef(kind, name));
      assert Grants(loaded[Key(kind, name)].body, tool);
    }
    if f, kind, name :| Declares(d, f, ArtifactRef(kind, name)) && kind != AgentKind
                        && Key(kind, name) in loaded && Grants(loaded[Key(kind, name)].body, tool) {
      DeclaredExactly(d, f, ArtifactRef(kind, name));
      assert FieldRef(f, ArtifactRef(kind, name)) in DeclaredRefs(d);
    }
  }

  /** A lock holds the policy's own tools, and those named elsewhere that the policy does not deny. */
  ghost predicate LocksTool<Other>(d: Definition<Other>, loaded: Cache, tool: string) {
    || tool in d.tools
    || (tool !in d.deniedTools
        && (SkillGrants(d, loaded, tool)
            || exists f :: f != DeniedToolField && Declares(d, f, ToolRef(tool))))
  }

  lemma LocksToolExactly<Other>(d: Definition<Other>, resolved: Resolved, tool: string)
    requires IsResolved(resolved, DeclaredRefs(d))
    ensures tool in LockedTools(d, DeclaredRefs(d), resolved.skillTools) <==> LocksTool(d, resolved.loaded, tool)
  {
    LockedToolsExact(d, DeclaredRefs(d), resolved.skillTools);
    SkillDeclaresExactly(d, resolved.loaded, tool);
    if f :| f in DeclaredRefs(d) && f.field != DeniedToolField && f.reference == ToolRef(tool) {
      assert f == FieldRef(f.field, ToolRef(tool));
      DeclaredExactly(d, f.field, ToolRef(tool));
    }
    if f :| f != DeniedToolField && Declares(d, f, ToolRef(tool)) {
      DeclaredExactly(d, f, ToolRef(tool));
      assert FieldRef(f, ToolRef(tool)) in DeclaredRefs(d);
    }
  }

  /******* Bindings *******/

  /** `x` binds the connector of `b` to its connection, at the revision the registry served. */
  ghost predicate IsBoundTo(x: AgentBinding, b: ConnectorBinding, loaded: Cache) {
    && b.connector.ArtifactRef? && b.connector.kind == ConnectorKind
    && Print(b.connector) == Ok(x.connector) && x.connection == b.connection
    && var k := Key(ConnectorKind, b.connector.name);
       && k in loaded && loaded[k].body.ConnectorBody?
       && x.artifactUid == loaded[k].artifactUid && x.revisionUid == loaded[k].revisionUid
  }

  lemma FreshExactly(b: ConnectorBinding, loaded: Cache, x: AgentBinding)
    ensures Fresh(b, Connectors(loaded)) == Ok(x) <==> IsBoundTo(x, b, loaded)
  {
    if b.connector.ArtifactRef? {
      ConnectorsExactly(loaded, b.connector.name);
    }
  }

  lemma ConnectorsExactly(loaded: Cache, name: string)
    ensures var k := Key(ConnectorKind, name);
      && (name in Connectors(loaded) <==> k in loaded && loaded[k].body.ConnectorBody?)
      && (name in Connectors(loaded) ==> Connectors(loaded)[name] == loaded[k])
  {
    assert Key(ConnectorKind, name).name == name;
  }

  /******* The whole lock *******/

  ghost predicate IsLock<Other, Digest>(
      lock: Lock<Digest>, d: Definition<Other>, uid: Uid, loaded: Cache, bound: seq<AgentBinding>, policy: Policy<Other>,
      digest: HashInput<Other> -> Digest)
  {
    && lock.revisionUid == uid
    && (forall k :: k in loaded <==> exists f, x :: Declares(d, f, x) && Loads(x, k))
    && AscendingBy(lock.artifacts, DependencyText)
    && (forall dep :: dep in lock.artifacts <==> LockedFor(dep, d, loaded))
    && AscendingBy(lock.tools, Itself)
    && (forall tool :: tool in lock.tools <==> LocksTool(d, loaded, tool))
    && AscendingBy(bound, BindingText)
    && (forall x :: x in bound <==> exists b :: b in d.bindings && IsBoundTo(x, b, loaded))
    && IsPolicy(policy, d, bound)
    && lock.digest == digest(HashInput(uid, lock.artifacts, lock.tools, policy))
  }

  lemma MintedToolsExactly<Other>(d: Definition<Other>, resolved: Resolved)
    requires IsResolved(resolved, DeclaredRefs(d))
    ensures var tools := LockedTools(d, DeclaredRefs(d), resolved.skillTools);
      AscendingBy(tools, Itself) && forall tool :: tool in tools <==> LocksTool(d, resolved.loaded, tool)
  {
    LockedToolsExact(d, DeclaredRefs(d), resolved.skillTools);
    forall tool {
      LocksToolExactly(d, resolved, tool);
    }
  }

  lemma MintedBindingsExactly<Other>(d: Definition<Other>, loaded: Cache, bound: seq<AgentBinding>)
    requires FreshBindings(bound, d, Connectors(loaded))
    ensures AscendingBy(bound, BindingText)
    ensures forall x :: x in bound <==> exists b :: b in d.bindings && IsBoundTo(x, b, loaded)
  {
    forall b, x {
      FreshExactly(b, loaded, x);
    }
    assert forall b :: FreshBinder(Connectors(loaded))(b) == Fresh(b, Connectors(loaded));
  }

  /** What a minted lock holds. */
  lemma MintedLockHolds<Other, Digest>(
      lock: Lock<Digest>, d: Definition<Other>, uid: Uid, resolved: Resolved, bound: seq<AgentBinding>,
      digest: HashInput<Other> -> Digest)
    requires IsMinted(lock, d, uid, resolved, bound, digest)
    ensures IsLock(lock, d, uid, resolved.loaded, bound, PolicyOf(d, bound), digest)
  {
    forall k {
      NeededExactly(d, k);
    }
    forall dep {
      LocksExactly(dep, d, resolved.loaded);
    }
    MintedToolsExactly(d, resolved);
    MintedBindingsExactly(d, resolved.loaded, bound);
    PolicyExactly(d, bound);
  }

  /******* Replaying *******/

  /** `x` is what a lock makes of `b`: the first dependency with the connector's text, which is a connector. */
  ghost predicate IsReboundTo(x: AgentBinding, b: ConnectorBinding, artifacts: seq<Dependency>) {
    && b.connector.ArtifactRef? && b.connector.kind == ConnectorKind
    && Print(b.connector) == Ok(x.connector) && x.connection == b.connection
    && exists i :: 0 <= i < |artifacts| && FirstWith(artifacts, x.connector, i)
         && artifacts[i].kind == ConnectorKind
         && x.artifactUid == artifacts[i].artifactUid && x.revisionUid == artifacts[i].revisionUid
  }

  ghost predicate FirstWith(artifacts: seq<Dependency>, text: string, i: nat) {
    i < |artifacts| && artifacts[i].reference == text && forall j | 0 <= j < i :: artifacts[j].reference != text
  }

  lemma {:induction false} FindsFirst(artifacts: seq<Dependency>, text: string) returns (i: nat)
    requires FindDependency(artifacts, text).Some?
    ensures FirstWith(artifacts, text, i) && FindDependency(artifacts, text).value == artifacts[i]
  {
    if artifacts[0].reference == text {
      i := 0;
    } else {
      i := FindsFirst(artifacts[1..], text);
      i := i + 1;
    }
  }

  lemma FromLockExactly(b: ConnectorBinding, artifacts: seq<Dependency>, x: AgentBinding)
    ensures FromLock(b, artifacts) == Ok(x) <==> IsReboundTo(x, b, artifacts)
  {
    if b.connector.ArtifactRef? && Print(b.connector).Ok? {
      var text := Print(b.connector).value;
      if FindDependency(artifacts, text).Some? {
        var i := FindsFirst(artifacts, text);
        assert forall j :: FirstWith(artifacts, text, j) ==> j == i;
      }
    }
  }

  /**
  The policy a lock replays to: the definition's own lists sorted without repeats, and the bindings
  rebuilt from the lock, under the very digest the lock carries.
  */
  lemma ReplayedPolicyHolds<Other, Digest>(
      lock: Lock<Digest>, d: Definition<Other>, uid: Uid, bound: seq<AgentBinding>, digest: HashInput<Other> -> Digest)
    requires Replays(lock, d, uid, bound, digest)
    ensures lock.revisionUid == uid && AscendingBy(bound, BindingText)
    ensures forall x :: x in bound <==> exists b :: b in d.bindings && IsReboundTo(x, b, lock.artifacts)
    ensures IsPolicy(PolicyOf(d, bound), d, bound)
    ensures lock.digest == digest(HashInput(uid, lock.artifacts, lock.tools, PolicyOf(d, bound)))
  {
    forall b, x {
      FromLockExactly(b, lock.artifacts, x);
    }
    assert forall b :: LockBinder(lock.artifacts)(b) == FromLock(b, lock.artifacts);
    PolicyExactly(d, bound);
  }
}
