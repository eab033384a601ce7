/** Collecting the registry revisions a definition depends on. */
module AgentDependencies {
  import opened Prelude
  import opened SortedLists
  import opened ArtifactReference
  import opened AgentModel

  datatype Resolved = Resolved(artifacts: seq<Dependency>, skillTools: seq<string>, loaded: Cache)

  /** Exactly the references' registry entries were loaded, each once, and locked in text order. */
  ghost predicate IsResolved(r: Resolved, refs: seq<FieldRef>) {
    && AllPrint(refs)
    && r.loaded.Keys == Needed(refs)
    && Keyed(r.loaded)
    && AscendingBy(r.artifacts, DependencyText)
    && (forall d :: d in r.artifacts <==> Locks(d, refs, r.loaded))
    && AscendingBy(r.skillTools, Itself)
    && (forall t :: t in r.skillTools <==> SkillDeclares(t, refs, r.loaded))
  }

  /** Loads through the cache, so that one resolution never sees two revisions under one key. */
  method LoadDependency(loaded: Cache, serve: Registry, clock: nat, key: Key)
    returns (r: Result<Revision, ResolveError>, loaded': Cache)
    requires Faithful(serve) && Keyed(loaded) && Served(loaded, serve)
    ensures r.Ok? ==> loaded' == loaded[key := r.value] && (key in loaded ==> loaded' == loaded)
    ensures r.Ok? ==> Keyed(loaded') && Served(loaded', serve)
    ensures r.Err? ==> r.error == UnresolvedDependency && key !in loaded && serve(clock, key).None?
  {
    if key in loaded {
      return Ok(loaded[key]), loaded;
    }
    var revision := serve(clock, key);
    if revision.None? {
      return Err(UnresolvedDependency), loaded;
    }
    loaded' := loaded[key := revision.value];
    return Ok(revision.value), loaded';
  }

  /** `loaded'` is `loaded` with whatever `f` needs. */
  ghost predicate Extends(loaded': Cache, loaded: Cache, f: FieldRef) {
    && (KeyOf(f.reference).None? ==> loaded' == loaded)
    && (KeyOf(f.reference).Some? ==>
          var k := KeyOf(f.reference).value;
          k in loaded' && loaded' == loaded[k := loaded'[k]] && (k in loaded ==> loaded' == loaded))
  }

  lemma NeededNext(refs: seq<FieldRef>, f: FieldRef)
    ensures Needed(refs + [f]) ==
      Needed(refs) + if KeyOf(f.reference).Some? then {KeyOf(f.reference).value} else {}
  {
    assert forall g :: g in refs + [f] <==> g in refs || g == f;
  }

  lemma LocksNext(refs: seq<FieldRef>, f: FieldRef, loaded: Cache, loaded': Cache, d: Dependency)
    requires Print(f.reference).Ok? && loaded.Keys == Needed(refs) && Extends(loaded', loaded, f)
    ensures Locks(d, refs + [f], loaded') <==>
      Locks(d, refs, loaded)
      || (KeyOf(f.reference).Some? && d == Locked(f.reference, loaded'[KeyOf(f.reference).value]))
  {
    assert forall g :: g in refs + [f] <==> g in refs || g == f;
    forall g | g in refs && KeyOf(g.reference).Some?
      ensures var k := KeyOf(g.reference).value; k in loaded && k in loaded' && loaded'[k] == loaded[k]
    {
      assert KeyOf(g.reference).value in Needed(refs);
    }
  }

  lemma DeclaresNext(refs: seq<FieldRef>, f: FieldRef, loaded: Cache, loaded': Cache, t: string)
    requires loaded.Keys == Needed(refs) && Extends(loaded', loaded, f)
    ensures SkillDeclares(t, refs + [f], loaded') <==>
      SkillDeclares(t, refs, loaded)
      || (f.reference.ArtifactRef? && KeyOf(f.reference).Some?
          && t in DeclaredTools(loaded'[KeyOf(f.reference).value].body))
  {
    assert forall g :: g in refs + [f] <==> g in refs || g == f;
    forall g | g in refs && KeyOf(g.reference).Some?
      ensures var k := KeyOf(g.reference).value; k in loaded && k in loaded' && loaded'[k] == loaded[k]
    {
      assert KeyOf(g.reference).value in Needed(refs);
    }
  }

  /** What one reference adds to the lists being collected. */
  function Adds(f: FieldRef, loaded: Cache): (seq<Dependency>, seq<string>)
    requires Print(f.reference).Ok? && (KeyOf(f.reference).Some? ==> KeyOf(f.reference).value in loaded)
  {
    match KeyOf(f.reference)
    case None => ([], [])
    case Some(k) =>
      ([Locked(f.reference, loaded[k])],
       if f.reference.ArtifactRef? then DeclaredTools(loaded[k].body) else [])
  }

  /** The state of the collecting loop after the references `refs`. */
  ghost predicate Collected(
      refs: seq<FieldRef>, seen: set<string>, loaded: Cache, dependencies: seq<Dependency>, tools: seq<string>)
  {
    && AllPrint(refs)
    && (forall s :: s in seen <==> exists f :: f in refs && Print(f.reference) == Ok(s))
    && loaded.Keys == Needed(refs)
    && (forall d :: d in dependencies <==> Locks(d, refs, loaded))
    && (forall t :: t in tools <==> SkillDeclares(t, refs, loaded))
  }

  predicate SameRefs(a: seq<FieldRef>, b: seq<FieldRef>) { a == b }

  /** The same, behind a quantifier, for those who only pass it on. */
  ghost predicate IsCollected(
      refs: seq<FieldRef>, seen: set<string>, loaded: Cache, dependencies: seq<Dependency>, tools: seq<string>)
  {
    forall r :: SameRefs(r, refs) ==> Collected(r, seen, loaded, dependencies, tools)
  }

  lemma CollectedIs(
      refs: seq<FieldRef>, seen: set<string>, loaded: Cache, dependencies: seq<Dependency>, tools: seq<string>)
    ensures IsCollected(refs, seen, loaded, dependencies, tools) <==> Collected(refs, seen, loaded, dependencies, tools)
  {
    assert SameRefs(refs, refs);
  }

  lemma NothingCollected()
    ensures IsCollected([], {}, map[], [], [])
  {
  }

  lemma CollectedNext(
      refs: seq<FieldRef>, seen: set<string>, loaded: Cache, dependencies: seq<Dependency>, tools: seq<string>,
      f: FieldRef, loaded': Cache)
    requires Collected(refs, seen, loaded, dependencies, tools)
    requires Print(f.reference).Ok? && Extends(loaded', loaded, f)
    ensures Collected(
      refs + [f], seen + {Print(f.reference).value}, loaded',
      dependencies + Adds(f, loaded').0, tools + Adds(f, loaded').1)
  {
    assert forall g :: g in refs + [f] <==> g in refs || g == f;
    NeededNext(refs, f);
    forall d {
      LocksNext(refs, f, loaded, loaded', d);
    }
    forall t {
      DeclaresNext(refs, f, loaded, loaded', t);
    }
  }

  /** A reference whose text was seen is the same reference, and skipping it loses nothing. */
  lemma CollectedAgain(
      refs: seq<FieldRef>, seen: set<string>, loaded: Cache, dependencies: seq<Dependency>, tools: seq<string>,
      f: FieldRef)
    requires Collected(refs, seen, loaded, dependencies, tools)
    requires Print(f.reference).Ok? && Print(f.reference).value in seen
    ensures Collected(refs + [f], seen, loaded, dependencies, tools)
  {
    var g :| g in refs && Print(g.reference) == Print(f.reference);
    PrintIsInjective(f.reference, g.reference);
    if KeyOf(f.reference).Some? {
      assert KeyOf(g.reference).value in Needed(refs);
      assert Locks(Locked(g.reference, loaded[KeyOf(g.reference).value]), refs, loaded);
    }
    assert forall h :: h in refs + [f] <==> h in refs || h == f;
    NeededNext(refs, f);
    assert Needed(refs + [f]) == Needed(refs);
    forall d {
      LocksNext(refs, f, loaded, loaded, d);
    }
    forall t {
      DeclaresNext(refs, f, loaded, loaded, t);
    }
  }

  /** One text locks one dependency. */
  lemma LockedOnce(refs: seq<FieldRef>, loaded: Cache, dependencies: seq<Dependency>)
    requires forall d | d in dependencies :: Locks(d, refs, loaded)
    ensures KeyDetermines(dependencies, DependencyText)
  {
    forall d, e | d in dependencies && e in dependencies && d.reference == e.reference ensures d == e {
      var f :| f in refs && Print(f.reference).Ok? && KeyOf(f.reference).Some? && KeyOf(f.reference).value in loaded
             && d == Locked(f.reference, loaded[KeyOf(f.reference).value]);
      var g :| g in refs && Print(g.reference).Ok? && KeyOf(g.reference).Some? && KeyOf(g.reference).value in loaded
             && e == Locked(g.reference, loaded[KeyOf(g.reference).value]);
      PrintIsInjective(f.reference, g.reference);
    }
  }

  lemma SortedIsResolved(
      refs: seq<FieldRef>, seen: set<string>, loaded: Cache, dependencies: seq<Dependency>, tools: seq<string>)
    requires IsCollected(refs, seen, loaded, dependencies, tools) && Keyed(loaded)
    ensures IsResolved(
      Resolved(SortedUniqueBy(dependencies, DependencyText), SortedUnique(tools), loaded), refs)
  {
    CollectedIs(refs, seen, loaded, dependencies, tools);
    LockedOnce(refs, loaded, dependencies);
    SortedUniqueAscends(dependencies, DependencyText);
    SortedUniqueKeeps(dependencies, DependencyText);
    SortedUniqueAscends(tools, Itself);
    SortedUniqueKeeps(tools, Itself);
  }

  /** Some load of a needed entry came back empty. */
  ghost predicate Unavailable(keys: set<Key>, serve: Registry) {
    exists k, n: nat :: k in keys && serve(n, k).None?
  }

  /** Reference `i` is the first that does not print, or its entry was not there when asked for. */
  ghost predicate DependencyFault(refs: seq<FieldRef>, serve: Registry, i: nat, e: ResolveError) {
    && i < |refs| && AllPrint(refs[..i])
    && if Print(refs[i].reference).Err? then e == Unprintable
       else
         && e == UnresolvedDependency && KeyOf(refs[i].reference).Some?
         && KeyOf(refs[i].reference).value !in Needed(refs[..i]) && serve(i, KeyOf(refs[i].reference).value).None?
  }

  lemma FaultAt(refs: seq<FieldRef>, serve: Registry, i: nat, e: ResolveError)
    requires DependencyFault(refs, serve, i, e)
    ensures !AllPrint(refs) || Unavailable(Needed(refs), serve)
    ensures exists j :: DependencyFault(refs, serve, j, e)
  {
    assert refs[i] in refs;
    assert KeyOf(refs[i].reference).Some? ==> KeyOf(refs[i].reference).value in Needed(refs);
  }

  /** One turn of the loop: what `f` adds, unless its text was seen or its entry is not there. */
  method AddReference(
      f: FieldRef, serve: Registry, clock: nat, ghost before: seq<FieldRef>,
      seen: set<string>, loaded: Cache, dependencies: seq<Dependency>, tools: seq<string>)
    returns (
      e: Option<ResolveError>, seen': set<string>, loaded': Cache, dependencies': seq<Dependency>, tools': seq<string>)
    requires Faithful(serve) && Keyed(loaded) && Served(loaded, serve)
    requires IsCollected(before, seen, loaded, dependencies, tools)
    ensures AllPrint(before)
    ensures e.None? ==>
      IsCollected(before + [f], seen', loaded', dependencies', tools') && Keyed(loaded') && Served(loaded', serve)
    ensures Print(f.reference).Err? ==> e == Some(Unprintable)
    ensures Print(f.reference).Ok? && e.Some? ==>
      && e == Some(UnresolvedDependency) && KeyOf(f.reference).Some?
      && KeyOf(f.reference).value !in Needed(before) && serve(clock, KeyOf(f.reference).value).None?
  {
    e, seen', loaded', dependencies', tools' := None, seen, loaded, dependencies, tools;
    CollectedIs(before, seen, loaded, dependencies, tools);
    var text := Print(f.reference);
    if text.Err? {
      e := Some(Unprintable);
      return;
    }
    if text.value in seen {
      CollectedAgain(before, seen, loaded, dependencies, tools, f);
      return;
    }
    var key := KeyOf(f.reference);
    if key.Some? {
      var revision;
      revision, loaded' := LoadDependency(loaded, serve, clock, key.value);
      if revision.Err? {
        e := Some(revision.error);
        return;
      }
    }
    CollectedNext(before, seen, loaded, dependencies, tools, f, loaded');
    seen' := seen + {text.value};
    dependencies' := dependencies + Adds(f, loaded').0;
    tools' := tools + Adds(f, loaded').1;
  }

  method ResolveDependencies(refs: seq<FieldRef>, serve: Registry) returns (r: Result<Resolved, ResolveError>)
    requires Faithful(serve)
    ensures r.Ok? ==> IsResolved(r.value, refs) && Served(r.value.loaded, serve)
    ensures r.Err? ==> !AllPrint(refs) || Unavailable(Needed(refs), serve)
    ensures r.Err? ==> exists i :: DependencyFault(refs, serve, i, r.error)
  {
    var seen: set<string> := {};
    var loaded: Cache := map[];
    var dependencies: seq<Dependency> := [];
    var tools: seq<string> := [];
    NothingCollected();
    var i := 0;
    while i < |refs|
      invariant i <= |refs|
      invariant IsCollected(refs[..i], seen, loaded, dependencies, tools)
      invariant Keyed(loaded) && Served(loaded, serve)
    {
      var e;
      e, seen, loaded, dependencies, tools :=
        AddReference(refs[i], serve, i, refs[..i], seen, loaded, dependencies, tools);
      if e.Some? {
        FaultAt(refs, serve, i, e.value);
        return Err(e.value);
      }
      assert refs[..i + 1] == refs[..i] + [refs[i]];
      i := i + 1;
    }
    assert refs[..i] == refs;
    SortedIsResolved(refs, seen, loaded, dependencies, tools);
    return Ok(Resolved(SortedUniqueBy(dependencies, DependencyText), SortedUnique(tools), loaded));
  }
}
