/**
Agent revision locks: minting one from the registry, and replaying an installed one without it.
The digest is an arbitrary function of its input.
*/
module RevisionLock {
  import opened Prelude
  import opened TextOrder
  import opened SortedLists
  import opened ArtifactReference
  import opened AgentModel
  import opened AgentDependencies
  import opened ConnectorBindings

  /******* Locked tools *******/

  function RefTools(refs: seq<FieldRef>, denied: seq<string>): (names: seq<string>)
    ensures forall n :: n in names <==>
      n !in denied && exists f :: f in refs && f.field != DeniedToolField && f.reference == ToolRef(n)
  {
    if refs == [] then []
    else
      assert forall f :: f in refs <==> f == refs[0] || f in refs[1..];
      (if refs[0].field != DeniedToolField && refs[0].reference.ToolRef? && refs[0].reference.name !in denied
       then [refs[0].reference.name] else [])
      + RefTools(refs[1..], denied)
  }

  function Without(names: seq<string>, denied: seq<string>): (r: seq<string>)
    ensures forall n :: n in r <==> n in names && n !in denied
  {
    if names == [] then []
    else (if names[0] in denied then [] else [names[0]]) + Without(names[1..], denied)
  }

  function LockedTools<Other>(d: Definition<Other>, refs: seq<FieldRef>, skillTools: seq<string>): seq<string> {
    SortedUnique(d.tools + RefTools(refs, d.deniedTools) + Without(skillTools, d.deniedTools))
  }

  /** The policy's own tools are locked as written; only tools named elsewhere answer to the deny list. */
  lemma LockedToolsExact<Other>(d: Definition<Other>, refs: seq<FieldRef>, skillTools: seq<string>)
    ensures AscendingBy(LockedTools(d, refs, skillTools), Itself)
    ensures forall n :: n in LockedTools(d, refs, skillTools) <==>
      n in d.tools
      || (n !in d.deniedTools
          && (n in skillTools
              || exists f :: f in refs && f.field != DeniedToolField && f.reference == ToolRef(n)))
  {
    var names := d.tools + RefTools(refs, d.deniedTools) + Without(skillTools, d.deniedTools);
    SortedUniqueAscends(names, Itself);
    SortedUniqueKeeps(names, Itself);
  }

  /** No denied tool is locked exactly when the policy does not list one among its own tools. */
  lemma DeniedToolsStayOut<Other>(d: Definition<Other>, refs: seq<FieldRef>, skillTools: seq<string>)
    ensures (forall n | n in LockedTools(d, refs, skillTools) :: n !in d.deniedTools) <==>
      forall n | n in d.tools :: n !in d.deniedTools
  {
    LockedToolsExact(d, refs, skillTools);
  }

  /** A tool both listed and denied by the policy is locked all the same. */
  lemma ListedDeniedToolIsLocked()
    ensures var d := Definition([], [], [], [], [], [], ["bash"], ["bash"], ());
      "bash" in d.deniedTools && "bash" in LockedTools(d, DeclaredRefs(d), [])
  {
    var d := Definition([], [], [], [], [], [], ["bash"], ["bash"], ());
    LockedToolsExact(d, DeclaredRefs(d), []);
    assert d.tools[0] == "bash" && d.deniedTools[0] == "bash";
  }

  /******* Connector actions *******/

  function CountFor(bound: seq<AgentBinding>, text: string): nat {
    if bound == [] then 0 else (if bound[0].connector == text then 1 else 0) + CountFor(bound[1..], text)
  }

  lemma {:induction false} NoneFor(bound: seq<AgentBinding>, text: string)
    ensures CountFor(bound, text) == 0 <==> forall b | b in bound :: b.connector != text
  {
    if bound != [] {
      NoneFor(bound[1..], text);
      assert forall b :: b in bound <==> b == bound[0] || b in bound[1..];
    }
  }

  lemma {:induction false} OnceFor(bound: seq<AgentBinding>, text: string)
    requires AscendingBy(bound, BindingText)
    ensures CountFor(bound, text) == 1 <==> exists b :: b in bound && b.connector == text
  {
    if bound != [] {
      var rest := bound[1..];
      OnceFor(rest, text);
      assert forall b :: b in bound <==> b == bound[0] || b in rest;
      if bound[0].connector == text {
        forall b | b in rest ensures b.connector != text {
          AscendingHead(bound, BindingText, b);
          NotInTail(bound, BindingText);
          LessIrreflexive(text);
        }
        NoneFor(rest, text);
      }
    }
  }

  /** A connector action may be offered when its connector is loaded and bound. */
  ghost predicate Covered(r: Reference, connectors: map<string, Revision>, bound: seq<AgentBinding>) {
    r.ActionRef? ==>
      && r.connector in connectors
      && exists b :: b in bound && Ok(b.connector) == Print(ArtifactRef(ConnectorKind, r.connector))
  }

  /** Action `i` is the first that is not covered. */
  ghost predicate UncoveredAt(
      actions: seq<Reference>, connectors: map<string, Revision>, bound: seq<AgentBinding>, i: nat, e: ResolveError)
  {
    && i < |actions| && (forall k | 0 <= k < i :: Covered(actions[k], connectors, bound)) && actions[i].ActionRef?
    && if actions[i].connector !in connectors then e == UnresolvedDependency
       else if Print(ArtifactRef(ConnectorKind, actions[i].connector)).Err? then e == Unprintable
       else e == UnboundConnectorAction && !Covered(actions[i], connectors, bound)
  }

  method CheckActions(actions: seq<Reference>, connectors: map<string, Revision>, bound: seq<AgentBinding>)
    returns (r: Option<ResolveError>)
    requires AscendingBy(bound, BindingText)
    ensures r.None? <==> forall a | a in actions :: Covered(a, connectors, bound)
    ensures r.Some? ==> exists i :: UncoveredAt(actions, connectors, bound, i, r.value)
  {
    var i := 0;
    while i < |actions|
      invariant i <= |actions|
      invariant forall k | 0 <= k < i :: Covered(actions[k], connectors, bound)
    {
      var a := actions[i];
      if a.ActionRef? {
        assert a in actions;
        if a.connector !in connectors {
          assert UncoveredAt(actions, connectors, bound, i, UnresolvedDependency);
          return Some(UnresolvedDependency);
        }
        var required := Print(ArtifactRef(ConnectorKind, a.connector));
        if required.Err? {
          assert UncoveredAt(actions, connectors, bound, i, Unprintable);
          return Some(Unprintable);
        }
        OnceFor(bound, required.value);
        if CountFor(bound, required.value) != 1 {
          assert UncoveredAt(actions, connectors, bound, i, UnboundConnectorAction);
          return Some(UnboundConnectorAction);
        }
      }
      i := i + 1;
    }
    return None;
  }

  /******* Policies *******/

  function Texts(refs: seq<Reference>): (r: seq<string>)
    requires forall x | x in refs :: Print(x).Ok?
    ensures |r| == |refs| && forall i | 0 <= i < |r| :: r[i] == Print(refs[i]).value
  {
    seq(|refs|, i requires 0 <= i < |refs| => Print(refs[i]).value)
  }

  predicate PolicyPrints<Other>(d: Definition<Other>) {
    && (forall x | x in d.skillRefs :: Print(x).Ok?)
    && (forall x | x in d.allowed :: Print(x).Ok?)
    && (forall x | x in d.adminReview :: Print(x).Ok?)
  }

  function PolicyOf<Other>(d: Definition<Other>, bound: seq<AgentBinding>): Policy<Other>
    requires PolicyPrints(d)
  {
    Policy(
      d.instructions, SortedUnique(Texts(d.skillRefs)), SortedUnique(Texts(d.allowed)),
      SortedUnique(Texts(d.adminReview)), bound, SortedUnique(d.tools), SortedUnique(d.deniedTools), d.other)
  }

  /** `list` holds exactly the texts of `refs`, in ascending order. */
  ghost predicate ListsTexts(list: seq<string>, refs: seq<Reference>) {
    AscendingBy(list, Itself) && forall s :: s in list <==> exists x :: x in refs && Print(x) == Ok(s)
  }

  ghost predicate ListsNames(list: seq<string>, names: seq<string>) {
    AscendingBy(list, Itself) && forall s :: s in list <==> s in names
  }

  /** The policy of definition `d` with the bindings `bound`. There is only one. */
  ghost predicate IsPolicy<Other>(p: Policy<Other>, d: Definition<Other>, bound: seq<AgentBinding>) {
    && p.instructions == d.instructions && p.other == d.other && p.bindings == bound
    && ListsTexts(p.skillRefs, d.skillRefs)
    && ListsTexts(p.allowed, d.allowed)
    && ListsTexts(p.adminReview, d.adminReview)
    && ListsNames(p.tools, d.tools)
    && ListsNames(p.deniedTools, d.deniedTools)
  }

  lemma TextsAreListed(refs: seq<Reference>)
    requires forall x | x in refs :: Print(x).Ok?
    ensures ListsTexts(SortedUnique(Texts(refs)), refs)
  {
    var texts := Texts(refs);
    SortedUniqueAscends(texts, Itself);
    SortedUniqueKeeps(texts, Itself);
    forall s ensures s in texts <==> exists x :: x in refs && Print(x) == Ok(s) {
      if x :| x in refs && Print(x) == Ok(s) {
        var i :| 0 <= i < |refs| && refs[i] == x;
        assert texts[i] == s;
      }
      if s in texts {
        var i :| 0 <= i < |texts| && texts[i] == s;
        assert refs[i] in refs;
      }
    }
  }

  lemma NamesAreListed(names: seq<string>)
    ensures ListsNames(SortedUnique(names), names)
  {
    SortedUniqueAscends(names, Itself);
    SortedUniqueKeeps(names, Itself);
  }

  lemma PolicyExactly<Other>(d: Definition<Other>, bound: seq<AgentBinding>)
    requires PolicyPrints(d)
    ensures IsPolicy(PolicyOf(d, bound), d, bound)
  {
    TextsAreListed(d.skillRefs);
    TextsAreListed(d.allowed);
    TextsAreListed(d.adminReview);
    NamesAreListed(d.tools);
    NamesAreListed(d.deniedTools);
  }

  lemma DeclaredPrint<Other>(d: Definition<Other>)
    requires AllPrint(DeclaredRefs(d))
    ensures PolicyPrints(d)
  {
    var refs := DeclaredRefs(d);
    forall x | x in d.skillRefs ensures Print(x).Ok? {
      InDeclared(d, SkillField, d.skillRefs, x);
    }
    forall x | x in d.allowed ensures Print(x).Ok? {
      InDeclared(d, AllowedField, d.allowed, x);
    }
    forall x | x in d.adminReview ensures Print(x).Ok? {
      InDeclared(d, AdminReviewField, d.adminReview, x);
    }
  }

  lemma InDeclared<Other>(d: Definition<Other>, field: Field, list: seq<Reference>, x: Reference)
    requires x in list && In(field, list) in [
      In(InstructionField, d.instructionRefs), In(SkillField, d.skillRefs),
      In(AllowedField, d.allowed), In(AdminReviewField, d.adminReview)]
    ensures FieldRef(field, x) in DeclaredRefs(d)
  {
    var i :| 0 <= i < |list| && list[i] == x;
    assert In(field, list)[i] == FieldRef(field, x);
  }

  /******* Minting and replaying *******/

  function FreshBinder(connectors: map<string, Revision>): Binder {
    b => Fresh(b, connectors)
  }

  function LockBinder(artifacts: seq<Dependency>): Binder {
    b => FromLock(b, artifacts)
  }

  ghost predicate FreshBindings<Other>(bound: seq<AgentBinding>, d: Definition<Other>, connectors: map<string, Revision>) {
    && Bindable(d.bindings, FreshBinder(connectors))
    && AreBindings(bound, d.bindings, FreshBinder(connectors))
    && forall a | a in d.allowed + d.adminReview :: Covered(a, connectors, bound)
  }

  /** A binding fails, or else an action is not covered by the bindings. */
  ghost predicate FreshFault<Other>(d: Definition<Other>, connectors: map<string, Revision>, e: ResolveError) {
    if !Bindable(d.bindings, FreshBinder(connectors)) then BindingFault(d.bindings, FreshBinder(connectors), e)
    else exists bound, i ::
      AreBindings(bound, d.bindings, FreshBinder(connectors))
      && UncoveredAt(d.allowed + d.adminReview, connectors, bound, i, e)
  }

  method ResolveBindings<Other>(d: Definition<Other>, connectors: map<string, Revision>)
    returns (r: Result<seq<AgentBinding>, ResolveError>)
    ensures r.Ok? ==> FreshBindings(r.value, d, connectors)
    ensures r.Err? ==> forall bound :: !FreshBindings(bound, d, connectors)
    ensures r.Err? ==> FreshFault(d, connectors, r.error)
  {
    var bound := BindAll(d.bindings, FreshBinder(connectors));
    if bound.Err? {
      return Err(bound.error);
    }
    forall other | AreBindings(other, d.bindings, FreshBinder(connectors)) ensures other == bound.value {
      AscendingUnique(other, bound.value, BindingText);
    }
    var uncovered := CheckActions(d.allowed + d.adminReview, connectors, bound.value);
    if uncovered.Some? {
      return Err(uncovered.value);
    }
    return bound;
  }

  /** `lock` was minted from `resolved` with the bindings `bound`. */
  ghost predicate IsMinted<Other, Digest>(
      lock: Lock<Digest>, d: Definition<Other>, uid: Uid, resolved: Resolved, bound: seq<AgentBinding>,
      digest: HashInput<Other> -> Digest)
  {
    && IsResolved(resolved, DeclaredRefs(d))
    && FreshBindings(bound, d, Connectors(resolved.loaded))
    && PolicyPrints(d)
    && lock.revisionUid == uid
    && lock.artifacts == resolved.artifacts
    && lock.tools == LockedTools(d, DeclaredRefs(d), resolved.skillTools)
    && lock.digest == digest(HashInput(uid, lock.artifacts, lock.tools, PolicyOf(d, bound)))
  }

  /** The registry does not change during the resolution. */
  ghost predicate Static(serve: Registry) {
    forall m: nat, n: nat, k: Key :: serve(m, k) == serve(n, k)
  }

  function StaticCache(keys: set<Key>, serve: Registry): Cache {
    map k | k in keys && serve(0, k).Some? :: serve(0, k).value
  }

  lemma ServedIsStatic(loaded: Cache, serve: Registry)
    requires Static(serve) && Served(loaded, serve)
    ensures loaded == StaticCache(loaded.Keys, serve) && !Unavailable(loaded.Keys, serve)
  {
    forall k | k in loaded ensures serve(0, k) == Some(loaded[k]) {
      var n: nat :| serve(n, k) == Some(loaded[k]);
      assert serve(0, k) == serve(n, k);
    }
    forall k, n: nat | k in loaded ensures serve(n, k).Some? {
      assert serve(n, k) == serve(0, k);
    }
  }

  ghost predicate Mintable<Other>(d: Definition<Other>, serve: Registry) {
    var keys := Needed(DeclaredRefs(d));
    && AllPrint(DeclaredRefs(d))
    && !Unavailable(keys, serve)
    && exists bound :: FreshBindings(bound, d, Connectors(StaticCache(keys, serve)))
  }

  method Mint<Other, Digest>(d: Definition<Other>, uid: Uid, serve: Registry, digest: HashInput<Other> -> Digest)
    returns (r: Result<Lock<Digest>, ResolveError>, resolved: Resolved, bound: seq<AgentBinding>)
    requires Faithful(serve)
    ensures r.Ok? ==> IsMinted(r.value, d, uid, resolved, bound, digest) && Served(resolved.loaded, serve)
    ensures r.Ok? ==> exists policy ::
      IsPolicy(policy, d, bound) && r.value.digest == digest(HashInput(uid, r.value.artifacts, r.value.tools, policy))
    ensures Static(serve) ==> (r.Ok? <==> Mintable(d, serve))
    ensures r.Err? ==>
      || (exists i :: DependencyFault(DeclaredRefs(d), serve, i, r.error))
      || (IsResolved(resolved, DeclaredRefs(d)) && Served(resolved.loaded, serve)
          && FreshFault(d, Connectors(resolved.loaded), r.error))
  {
    resolved, bound := Resolved([], [], map[]), [];
    var refs := DeclaredRefs(d);
    var dependencies := ResolveDependencies(refs, serve);
    if dependencies.Err? {
      return Err(dependencies.error), resolved, bound;
    }
    resolved := dependencies.value;
    assert Static(serve) ==> resolved.loaded == StaticCache(resolved.loaded.Keys, serve) by {
      if Static(serve) {
        ServedIsStatic(resolved.loaded, serve);
      }
    }
    var bindings := ResolveBindings(d, Connectors(resolved.loaded));
    if bindings.Err? {
      return Err(bindings.error), resolved, bound;
    }
    bound := bindings.value;
    DeclaredPrint(d);
    if Static(serve) {
      ServedIsStatic(resolved.loaded, serve);
    }
    var tools := LockedTools(d, refs, resolved.skillTools);
    PolicyExactly(d, bound);
    var input := HashInput(uid, resolved.artifacts, tools, PolicyOf(d, bound));
    return Ok(Lock(uid, resolved.artifacts, tools, digest(input))), resolved, bound;
  }

  /** The installed lock is accepted for revision `uid` of this definition, with the bindings `bound`. */
  ghost predicate Replays<Other, Digest>(
      lock: Lock<Digest>, d: Definition<Other>, uid: Uid, bound: seq<AgentBinding>, digest: HashInput<Other> -> Digest)
  {
    && PolicyPrints(d)
    && Bindable(d.bindings, LockBinder(lock.artifacts))
    && AreBindings(bound, d.bindings, LockBinder(lock.artifacts))
    && lock.revisionUid == uid
    && lock.digest == digest(HashInput(uid, lock.artifacts, lock.tools, PolicyOf(d, bound)))
  }

  /** What keeps an installed lock from being accepted. */
  ghost predicate ReplayFault<Other, Digest>(d: Definition<Other>, uid: Uid, lock: Lock<Digest>, e: ResolveError) {
    if !PolicyPrints(d) then e == Unprintable
    else if !Bindable(d.bindings, LockBinder(lock.artifacts)) then
      BindingFault(d.bindings, LockBinder(lock.artifacts), e)
    else if lock.revisionUid != uid then e == WrongRevision
    else e == DigestMismatch
  }

  method Replay<Other, Digest(==)>(
      d: Definition<Other>, uid: Uid, lock: Lock<Digest>, digest: HashInput<Other> -> Digest)
    returns (r: Result<Policy<Other>, ResolveError>)
    ensures r.Ok? ==> exists bound :: Replays(lock, d, uid, bound, digest) && IsPolicy(r.value, d, bound)
    ensures r.Err? ==> forall bound :: !Replays(lock, d, uid, bound, digest)
    ensures r.Err? ==> ReplayFault(d, uid, lock, r.error)
  {
    if !PolicyPrints(d) {
      return Err(Unprintable);
    }
    var bound := BindAll(d.bindings, LockBinder(lock.artifacts));
    if bound.Err? {
      return Err(bound.error);
    }
    forall other | AreBindings(other, d.bindings, LockBinder(lock.artifacts)) ensures other == bound.value {
      AscendingUnique(other, bound.value, BindingText);
    }
    if lock.revisionUid != uid {
      return Err(WrongRevision);
    }
    var policy := PolicyOf(d, bound.value);
    if lock.digest != digest(HashInput(uid, lock.artifacts, lock.tools, policy)) {
      return Err(DigestMismatch);
    }
    PolicyExactly(d, bound.value);
    assert Replays(lock, d, uid, bound.value, digest);
    return Ok(policy);
  }

  /** The dependency a lock holds for a bound connector is the revision that was loaded for it. */
  lemma LockHoldsConnector<Other>(d: Definition<Other>, resolved: Resolved, b: ConnectorBinding)
    requires IsResolved(resolved, DeclaredRefs(d)) && b in d.bindings
    requires Fresh(b, Connectors(resolved.loaded)).Ok?
    ensures FromLock(b, resolved.artifacts) == Fresh(b, Connectors(resolved.loaded))
  {
    var refs, loaded := DeclaredRefs(d), resolved.loaded;
    var i :| 0 <= i < |d.bindings| && d.bindings[i] == b;
    var f := FieldRef(BindingField, b.connector);
    assert BindingRefs(d.bindings)[i] == f;
    assert f in refs;
    var key := KeyOf(b.connector).value;
    assert key in Needed(refs);
    var mine := Locked(b.connector, loaded[key]);
    assert Locks(mine, refs, loaded);
    var found := FindDependency(resolved.artifacts, Print(b.connector).value);
    assert found.Some?;
    LockedOnce(refs, loaded, resolved.artifacts);
    assert DependencyText(found.value) == DependencyText(mine);
    assert found.value == mine;
  }

  /**
  A minted lock replays on the definition it was minted from, with the very bindings it was minted
  with. Replaying consults no registry, so nothing served later can change this.
  */
  lemma MintedLockReplays<Other, Digest>(
      lock: Lock<Digest>, d: Definition<Other>, uid: Uid, resolved: Resolved, bound: seq<AgentBinding>,
      digest: HashInput<Other> -> Digest)
    requires IsMinted(lock, d, uid, resolved, bound, digest)
    ensures Replays(lock, d, uid, bound, digest)
    ensures forall other :: Replays(lock, d, uid, other, digest) ==> other == bound
  {
    var served, locked := FreshBinder(Connectors(resolved.loaded)), LockBinder(lock.artifacts);
    forall b | b in d.bindings && served(b).Ok? ensures locked(b) == served(b) {
      LockHoldsConnector(d, resolved, b);
    }
    forall other ensures AreBindings(other, d.bindings, locked) ==> other == bound {
      SameBindings(d.bindings, served, locked, bound, other);
    }
    var all :| AllBound(all, d.bindings, served) && Distinct(all);
    assert forall i | 0 <= i < |d.bindings| :: d.bindings[i] in d.bindings;
    SortedBindings(all, d.bindings, locked);
  }
}
