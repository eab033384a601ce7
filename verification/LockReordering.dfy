/** Minting forgets the order in which a definition lists its references, tools and bindings. */
module LockReordering {
  import opened Prelude
  import opened SortedLists
  import opened ArtifactReference
  import opened AgentModel
  import opened AgentDependencies
  import opened ConnectorBindings
  import opened RevisionLock

  ghost predicate Reordered<Other>(d: Definition<Other>, e: Definition<Other>) {
    && d.instructions == e.instructions
    && d.other == e.other
    && multiset(d.instructionRefs) == multiset(e.instructionRefs)
    && multiset(d.skillRefs) == multiset(e.skillRefs)
    && multiset(d.allowed) == multiset(e.allowed)
    && multiset(d.adminReview) == multiset(e.adminReview)
    && multiset(d.bindings) == multiset(e.bindings)
    && multiset(d.tools) == multiset(e.tools)
    && multiset(d.deniedTools) == multiset(e.deniedTools)
  }

  lemma SameMultisetSameElements<T(!new)>(a: seq<T>, b: seq<T>)
    requires multiset(a) == multiset(b)
    ensures SameElements(a, b)
  {
    forall x ensures x in a <==> x in b {
      assert x in a <==> x in multiset(a);
      assert x in b <==> x in multiset(b);
    }
  }

  /** The lists of two reordered definitions have the same elements. */
  ghost predicate SameLists<Other>(d: Definition<Other>, e: Definition<Other>) {
    && SameElements(d.instructionRefs, e.instructionRefs)
    && SameElements(d.skillRefs, e.skillRefs)
    && SameElements(d.allowed, e.allowed)
    && SameElements(d.adminReview, e.adminReview)
    && SameElements(d.bindings, e.bindings)
    && SameElements(d.tools, e.tools)
    && SameElements(d.deniedTools, e.deniedTools)
  }

  lemma ReorderedSameLists<Other>(d: Definition<Other>, e: Definition<Other>)
    requires Reordered(d, e)
    ensures SameLists(d, e)
  {
    SameMultisetSameElements(d.instructionRefs, e.instructionRefs);
    SameMultisetSameElements(d.skillRefs, e.skillRefs);
    SameMultisetSameElements(d.allowed, e.allowed);
    SameMultisetSameElements(d.adminReview, e.adminReview);
    SameMultisetSameElements(d.bindings, e.bindings);
    SameMultisetSameElements(d.tools, e.tools);
    SameMultisetSameElements(d.deniedTools, e.deniedTools);
  }

  lemma InElements(field: Field, refs: seq<Reference>, f: FieldRef)
    ensures f in In(field, refs) <==> f.field == field && f.reference in refs
  {
    if f.field == field && f.reference in refs {
      var i :| 0 <= i < |refs| && refs[i] == f.reference;
      assert In(field, refs)[i] == f;
    }
  }

  lemma ToolElements(field: Field, names: seq<string>, f: FieldRef)
    ensures f in ToolRefs(field, names) <==> f.field == field && f.reference.ToolRef? && f.reference.name in names
  {
    if f.field == field && f.reference.ToolRef? && f.reference.name in names {
      var i :| 0 <= i < |names| && names[i] == f.reference.name;
      assert ToolRefs(field, names)[i] == f;
    }
  }

  lemma BindingElements(bindings: seq<ConnectorBinding>, f: FieldRef)
    ensures f in BindingRefs(bindings) <==>
      f.field == BindingField && exists b :: b in bindings && b.connector == f.reference
  {
    if f in BindingRefs(bindings) {
      var i :| 0 <= i < |bindings| && BindingRefs(bindings)[i] == f;
      assert bindings[i] in bindings;
    }
    if b :| f.field == BindingField && b in bindings && b.connector == f.reference {
      var i :| 0 <= i < |bindings| && bindings[i] == b;
      assert BindingRefs(bindings)[i] == f;
    }
  }

  lemma Declared<Other>(d: Definition<Other>, f: FieldRef)
    ensures f in DeclaredRefs(d) <==>
      match f.field
      case InstructionField => f.reference in d.instructionRefs
      case SkillField => f.reference in d.skillRefs
      case AllowedField => f.reference in d.allowed
      case AdminReviewField => f.reference in d.adminReview
      case BindingField => exists b :: b in d.bindings && b.connector == f.reference
      case ToolField => f.reference.ToolRef? && f.reference.name in d.tools
      case DeniedToolField => f.reference.ToolRef? && f.reference.name in d.deniedTools
  {
    InElements(InstructionField, d.instructionRefs, f);
    InElements(SkillField, d.skillRefs, f);
    InElements(AllowedField, d.allowed, f);
    InElements(AdminReviewField, d.adminReview, f);
    BindingElements(d.bindings, f);
    ToolElements(ToolField, d.tools, f);
    ToolElements(DeniedToolField, d.deniedTools, f);
  }

  lemma SameDeclared<Other>(d: Definition<Other>, e: Definition<Other>)
    requires SameLists(d, e)
    ensures SameElements(DeclaredRefs(d), DeclaredRefs(e))
  {
    forall f ensures f in DeclaredRefs(d) <==> f in DeclaredRefs(e) {
      Declared(d, f);
      Declared(e, f);
    }
  }

  lemma SameNeeds(refs: seq<FieldRef>, refs': seq<FieldRef>)
    requires SameElements(refs, refs')
    ensures Needed(refs) == Needed(refs') && (AllPrint(refs) <==> AllPrint(refs'))
  {
    assert forall k :: k in Needed(refs) <==> k in Needed(refs');
  }

  lemma SameResolved(refs: seq<FieldRef>, refs': seq<FieldRef>, r: Resolved, r': Resolved)
    requires SameElements(refs, refs') && IsResolved(r, refs) && IsResolved(r', refs') && r.loaded == r'.loaded
    ensures r == r'
  {
    forall x ensures x in r.artifacts <==> x in r'.artifacts {
      assert Locks(x, refs, r.loaded) <==> Locks(x, refs', r.loaded);
    }
    AscendingUnique(r.artifacts, r'.artifacts, DependencyText);
    forall t ensures t in r.skillTools <==> t in r'.skillTools {
      assert SkillDeclares(t, refs, r.loaded) <==> SkillDeclares(t, refs', r.loaded);
    }
    AscendingUnique(r.skillTools, r'.skillTools, Itself);
  }

  /******* Bindings *******/

  /** The two bindings can stand in one list. */
  ghost predicate Apart(b: ConnectorBinding, c: ConnectorBinding, bind: Binder) {
    && bind(b).Ok? && bind(c).Ok?
    && bind(b).value.connector != bind(c).value.connector
    && bind(b).value.connection != bind(c).value.connection
  }

  ghost predicate PairwiseApart(bindings: seq<ConnectorBinding>, bind: Binder) {
    && (forall b | b in bindings :: bind(b).Ok?)
    && (forall i, j | 0 <= i < j < |bindings| :: Apart(bindings[i], bindings[j], bind))
  }

  lemma BindableMeans(bindings: seq<ConnectorBinding>, bind: Binder)
    ensures Bindable(bindings, bind) <==> PairwiseApart(bindings, bind)
  {
    if PairwiseApart(bindings, bind) {
      assert forall i | 0 <= i < |bindings| :: bindings[i] in bindings;
      var bound := seq(|bindings|, i requires 0 <= i < |bindings| => bind(bindings[i]).value);
      assert AllBound(bound, bindings, bind) && Distinct(bound);
    }
  }

  /** Free of repetition, and apart wherever different. */
  ghost predicate ApartAsSet(bindings: seq<ConnectorBinding>, bind: Binder) {
    && (forall b | b in bindings :: bind(b).Ok? && multiset(bindings)[b] == 1)
    && (forall b, c | b in bindings && c in bindings && b != c :: Apart(b, c, bind))
  }

  lemma {:induction false} ApartMeans(bindings: seq<ConnectorBinding>, bind: Binder)
    ensures PairwiseApart(bindings, bind) <==> ApartAsSet(bindings, bind)
  {
    if bindings != [] {
      var head, rest := bindings[0], bindings[1..];
      assert bindings == [head] + rest;
      assert multiset(bindings) == multiset{head} + multiset(rest);
      assert forall b :: b in bindings <==> b == head || b in rest;
      ApartMeans(rest, bind);
      if PairwiseApart(bindings, bind) {
        HeadApart(bindings, bind);
      }
      if ApartAsSet(bindings, bind) {
        TailApart(bindings, bind);
      }
    }
  }

  lemma HeadApart(bindings: seq<ConnectorBinding>, bind: Binder)
    requires bindings != [] && PairwiseApart(bindings, bind) && ApartAsSet(bindings[1..], bind)
    ensures ApartAsSet(bindings, bind)
  {
    var head, rest := bindings[0], bindings[1..];
    assert bindings == [head] + rest;
    assert multiset(bindings) == multiset{head} + multiset(rest);
    forall b | b in rest ensures Apart(head, b, bind) {
      var j :| 0 < j < |bindings| && bindings[j] == b;
    }
    assert head !in rest;
    assert multiset(rest)[head] == 0;
  }

  lemma TailApart(bindings: seq<ConnectorBinding>, bind: Binder)
    requires bindings != [] && ApartAsSet(bindings, bind)
    requires ApartAsSet(bindings[1..], bind) ==> PairwiseApart(bindings[1..], bind)
    ensures PairwiseApart(bindings, bind)
  {
    var head, rest := bindings[0], bindings[1..];
    assert bindings == [head] + rest;
    assert multiset(bindings) == multiset{head} + multiset(rest);
    assert forall b | b in rest :: b in bindings;
    assert head in bindings && multiset(rest)[head] == 0;
    assert head !in multiset(rest);
    assert forall b | b in rest :: multiset(rest)[b] == multiset(bindings)[b];
    assert PairwiseApart(rest, bind);
    forall i, j | 0 <= i < j < |bindings| ensures Apart(bindings[i], bindings[j], bind) {
      assert bindings[j] == rest[j - 1] && bindings[j] in rest;
      if i > 0 {
        assert bindings[i] == rest[i - 1];
      }
    }
  }

  lemma SameBindable(bindings: seq<ConnectorBinding>, bindings': seq<ConnectorBinding>, bind: Binder)
    requires multiset(bindings) == multiset(bindings')
    ensures Bindable(bindings, bind) <==> Bindable(bindings', bind)
  {
    SameMultisetSameElements(bindings, bindings');
    BindableMeans(bindings, bind);
    BindableMeans(bindings', bind);
    ApartMeans(bindings, bind);
    ApartMeans(bindings', bind);
  }

  lemma SameFreshBindings<Other>(
      d: Definition<Other>, e: Definition<Other>, connectors: map<string, Revision>, bound: seq<AgentBinding>)
    requires Reordered(d, e)
    ensures FreshBindings(bound, d, connectors) <==> FreshBindings(bound, e, connectors)
  {
    ReorderedSameLists(d, e);
    SameBindable(d.bindings, e.bindings, FreshBinder(connectors));
    assert forall a :: a in d.allowed + d.adminReview <==> a in e.allowed + e.adminReview;
  }

  /******* Policies and locks *******/

  lemma SameSorted(a: seq<string>, b: seq<string>)
    requires SameElements(a, b)
    ensures SortedUnique(a) == SortedUnique(b)
  {
    SortedUniqueForgetsOrder(a, b, Itself);
  }

  lemma SameTexts(a: seq<Reference>, b: seq<Reference>)
    requires SameElements(a, b) && (forall x | x in a :: Print(x).Ok?)
    ensures SortedUnique(Texts(a)) == SortedUnique(Texts(b))
  {
    forall t ensures t in Texts(a) <==> t in Texts(b) {
      TextOf(a, t);
      TextOf(b, t);
    }
    SameSorted(Texts(a), Texts(b));
  }

  lemma TextOf(refs: seq<Reference>, t: string)
    requires forall x | x in refs :: Print(x).Ok?
    ensures t in Texts(refs) <==> exists x :: x in refs && Print(x) == Ok(t)
  {
    if t in Texts(refs) {
      var i :| 0 <= i < |refs| && Texts(refs)[i] == t;
      assert refs[i] in refs;
    }
    if x :| x in refs && Print(x) == Ok(t) {
      var i :| 0 <= i < |refs| && refs[i] == x;
      assert Texts(refs)[i] == t;
    }
  }

  lemma SamePolicy<Other>(d: Definition<Other>, e: Definition<Other>, bound: seq<AgentBinding>)
    requires Reordered(d, e) && SameLists(d, e) && PolicyPrints(d) && PolicyPrints(e)
    ensures PolicyOf(d, bound) == PolicyOf(e, bound)
  {
    SameTexts(d.skillRefs, e.skillRefs);
    SameTexts(d.allowed, e.allowed);
    SameTexts(d.adminReview, e.adminReview);
    SameSorted(d.tools, e.tools);
    SameSorted(d.deniedTools, e.deniedTools);
  }

  lemma SameLockedTools<Other>(d: Definition<Other>, e: Definition<Other>, skillTools: seq<string>)
    requires SameLists(d, e)
    ensures LockedTools(d, DeclaredRefs(d), skillTools) == LockedTools(e, DeclaredRefs(e), skillTools)
  {
    SameDeclared(d, e);
    LockedToolsExact(d, DeclaredRefs(d), skillTools);
    LockedToolsExact(e, DeclaredRefs(e), skillTools);
    AscendingUnique(
      LockedTools(d, DeclaredRefs(d), skillTools), LockedTools(e, DeclaredRefs(e), skillTools), Itself);
  }

  /** Against one registry, reordered definitions can both be minted or neither can. */
  lemma ReorderedMintAlike<Other>(d: Definition<Other>, e: Definition<Other>, serve: Registry)
    requires Reordered(d, e)
    ensures Mintable(d, serve) <==> Mintable(e, serve)
  {
    ReorderedSameLists(d, e);
    SameDeclared(d, e);
    SameNeeds(DeclaredRefs(d), DeclaredRefs(e));
    var connectors := Connectors(StaticCache(Needed(DeclaredRefs(d)), serve));
    forall bound {
      SameFreshBindings(d, e, connectors, bound);
    }
  }

  /** And the locks minted are identical. */
  lemma ReorderedMintSameLock<Other, Digest>(
      d: Definition<Other>, e: Definition<Other>, uid: Uid, serve: Registry, digest: HashInput<Other> -> Digest,
      lock: Lock<Digest>, resolved: Resolved, bound: seq<AgentBinding>,
      lock': Lock<Digest>, resolved': Resolved, bound': seq<AgentBinding>)
    requires Reordered(d, e) && Static(serve)
    requires IsMinted(lock, d, uid, resolved, bound, digest) && Served(resolved.loaded, serve)
    requires IsMinted(lock', e, uid, resolved', bound', digest) && Served(resolved'.loaded, serve)
    ensures lock == lock' && bound == bound'
  {
    ReorderedSameLists(d, e);
    SameDeclared(d, e);
    SameNeeds(DeclaredRefs(d), DeclaredRefs(e));
    ServedIsStatic(resolved.loaded, serve);
    ServedIsStatic(resolved'.loaded, serve);
    SameResolved(DeclaredRefs(d), DeclaredRefs(e), resolved, resolved');
    SameFreshBindings(d, e, Connectors(resolved.loaded), bound');
    AscendingUnique(bound, bound', BindingText);
    SameLockedTools(d, e, resolved.skillTools);
    SamePolicy(d, e, bound);
  }
}
