/** The interpreter's side of compensation: placing resolved values into one JSON object. */
module CompensationInput {
  import opened Prelude
  import opened Text
  import opened PlanModel
  import opened JsonPointer
  import opened Compensation

  /** A JSON object holds one value per key: a later `Put` replaces, and new keys go last. */
  function Put(fields: seq<Field>, key: string, value: Json): seq<Field> {
    if fields == [] then [Field(key, value)]
    else if fields[0].key == key then [Field(key, value)] + fields[1..]
    else [fields[0]] + Put(fields[1..], key, value)
  }

  lemma {:induction false} GetPut(fields: seq<Field>, key: string, value: Json, other: string)
    ensures Get(Put(fields, key, value), other) == if other == key then Some(value) else Get(fields, other)
  {
    if fields != [] && fields[0].key != key {
      GetPut(fields[1..], key, value, other);
    }
  }

  const EMPTY := Object([])

  function Child(fields: seq<Field>, key: string): Json {
    match Get(fields, key)
    case None => EMPTY
    case Some(v) => v
  }

  /** The object with `value` at `path`, creating parents; refused if a parent is no object or the field is taken. */
  function Insert(v: Json, path: Path, value: Json): Option<Json>
    decreases path
  {
    if path == [] || !v.Object? then None
    else if |path| == 1 then
      if Get(v.fields, path[0]).Some? then None else Some(Object(Put(v.fields, path[0], value)))
    else
      match Insert(Child(v.fields, path[0]), path[1..], value)
      case None => None
      case Some(child) => Some(Object(Put(v.fields, path[0], child)))
  }

  function Lookup(v: Json, path: Path): Option<Json> {
    if path == [] then Some(v)
    else if !v.Object? || Get(v.fields, path[0]).None? then None
    else Lookup(Get(v.fields, path[0]).value, path[1..])
  }

  /** There is room at `path`. */
  predicate Free(v: Json, path: Path) {
    path != [] && v.Object?
    && (Get(v.fields, path[0]).Some? ==> |path| > 1 && Free(Get(v.fields, path[0]).value, path[1..]))
  }

  lemma {:induction false} InsertSucceeds(v: Json, path: Path, value: Json)
    ensures Insert(v, path, value).Some? <==> Free(v, path)
    ensures Free(v, path) ==> Lookup(Insert(v, path, value).value, path) == Some(value)
    decreases path
  {
    if path != [] && v.Object? {
      if |path| == 1 {
        GetPut(v.fields, path[0], value, path[0]);
        assert path[1..] == [];
      } else {
        var child := Child(v.fields, path[0]);
        InsertSucceeds(child, path[1..], value);
        var placed := Insert(child, path[1..], value);
        if placed.Some? {
          GetPut(v.fields, path[0], placed.value, path[0]);
        }
      }
    }
  }

  /** Placing a value leaves every unrelated path as it was. */
  lemma {:induction false} InsertLeavesOthers(v: Json, path: Path, value: Json, other: Path)
    requires Free(v, path) && !Comparable(path, other)
    ensures Insert(v, path, value).Some?
    ensures Lookup(Insert(v, path, value).value, other) == Lookup(v, other)
    ensures Free(Insert(v, path, value).value, other) <==> Free(v, other)
    decreases path
  {
    InsertSucceeds(v, path, value);
    var placed := Insert(v, path, value).value;
    var key := other[0];
    if |path| == 1 {
      GetPut(v.fields, path[0], value, key);
      assert path[0] == key ==> path <= other;
    } else {
      var child := Child(v.fields, path[0]);
      InsertSucceeds(child, path[1..], value);
      GetPut(v.fields, path[0], Insert(child, path[1..], value).value, key);
      if key == path[0] {
        assert !Comparable(path[1..], other[1..]) by {
          assert path == [key] + path[1..] && other == [key] + other[1..];
        }
        InsertLeavesOthers(child, path[1..], value, other[1..]);
      }
    }
  }

  datatype InputError = BadTargetPointer | TargetCollision | MissingSource | TargetTaken | SchemaMismatch

  /** The interpreter's own decoding of a target: unlike the validator's it refuses `/`, the field named "". */
  function RuntimePath(pointer: string): Option<Path> {
    if |pointer| < 2 || pointer[0] != '/' then None else DecodeAll(Split(pointer[1..], '/'))
  }

  ghost predicate Placeable(bindings: seq<Binding>) {
    && (forall b | b in bindings :: RuntimePath(b.target).Some?)
    && (forall i, j | 0 <= i < j < |bindings| ::
          !Comparable(RuntimePath(bindings[i].target).value, RuntimePath(bindings[j].target).value))
  }

  ghost predicate Resolvable(bindings: seq<Binding>, resolve: Source -> Option<Json>) {
    forall b | b in bindings :: resolve(b.source).Some?
  }

  ghost predicate AreTargets(paths: seq<Path>, bindings: seq<Binding>) {
    |paths| == |bindings| && forall i | 0 <= i < |paths| :: RuntimePath(bindings[i].target) == Some(paths[i])
  }

  lemma {:induction false} DecodeAllLength(parts: seq<string>)
    requires DecodeAll(parts).Some?
    ensures |DecodeAll(parts).value| == |parts|
  {
    if parts != [] {
      DecodeAllLength(parts[1..]);
    }
  }

  ghost predicate Unrelated(path: Path, paths: seq<Path>) {
    forall p | p in paths :: !Comparable(p, path)
  }

  lemma Collides(path: Path, paths: seq<Path>)
    ensures path in paths || (exists p :: p in paths && Nested(p, path)) <==> !Unrelated(path, paths)
  {
    forall p | p in paths ensures Comparable(p, path) <==> p == path || Nested(p, path) {
      if p <= path && |p| == |path| {
        assert p == path;
      }
      if path <= p && |p| == |path| {
        assert p == path;
      }
    }
  }

  lemma TargetsNext(paths: seq<Path>, path: Path, bindings: seq<Binding>, i: nat)
    requires i < |bindings| && AreTargets(paths, bindings[..i]) && Antichain(paths)
    requires RuntimePath(bindings[i].target) == Some(path)
    ensures Unrelated(path, paths) ==> AreTargets(paths + [path], bindings[..i + 1]) && Antichain(paths + [path])
    ensures !Unrelated(path, paths) ==> !Placeable(bindings)
  {
    assert bindings[..i + 1] == bindings[..i] + [bindings[i]];
    if !Unrelated(path, paths) {
      var k :| 0 <= k < i && Comparable(paths[k], path);
      assert bindings[..i][k] == bindings[k];
    }
  }

  /** Binding `i` is the first that cannot be placed, and this is why. */
  ghost predicate TargetFault(bindings: seq<Binding>, i: nat, e: InputError) {
    && i < |bindings| && Placeable(bindings[..i])
    && if RuntimePath(bindings[i].target).None? then e == BadTargetPointer
       else
         && e == TargetCollision
         && exists k :: 0 <= k < i
                        && Comparable(RuntimePath(bindings[k].target).value, RuntimePath(bindings[i].target).value)
  }

  lemma TargetsArePlaceable(paths: seq<Path>, bindings: seq<Binding>)
    requires AreTargets(paths, bindings) && Antichain(paths)
    ensures Placeable(bindings)
  {
  }

  lemma CollisionAt(paths: seq<Path>, path: Path, bindings: seq<Binding>, i: nat)
    requires i < |bindings| && AreTargets(paths, bindings[..i]) && Antichain(paths)
    requires RuntimePath(bindings[i].target) == Some(path) && !Unrelated(path, paths)
    ensures TargetFault(bindings, i, TargetCollision)
  {
    TargetsArePlaceable(paths, bindings[..i]);
    var k :| 0 <= k < i && Comparable(paths[k], path);
    assert bindings[..i][k] == bindings[k];
  }

  method DecodeTargets(bindings: seq<Binding>) returns (r: Result<seq<Path>, InputError>)
    ensures r.Ok? <==> Placeable(bindings)
    ensures r.Ok? ==> AreTargets(r.value, bindings) && Antichain(r.value)
    ensures r.Err? ==> exists i :: TargetFault(bindings, i, r.error)
  {
    var paths: seq<Path> := [];
    var i := 0;
    while i < |bindings|
      invariant i <= |bindings|
      invariant AreTargets(paths, bindings[..i]) && Antichain(paths)
    {
      var path := RuntimePath(bindings[i].target);
      if path.None? {
        TargetsArePlaceable(paths, bindings[..i]);
        assert TargetFault(bindings, i, BadTargetPointer);
        return Err(BadTargetPointer);
      }
      Collides(path.value, paths);
      TargetsNext(paths, path.value, bindings, i);
      if path.value in paths || exists p :: p in paths && Nested(p, path.value) {
        CollisionAt(paths, path.value, bindings, i);
        return Err(TargetCollision);
      }
      paths := paths + [path.value];
      i := i + 1;
    }
    assert bindings[..i] == bindings;
    return Ok(paths);
  }

  /** `v` holds the first `n` values at their paths, has room for the rest and holds nothing else. */
  ghost predicate Holds(v: Json, paths: seq<Path>, values: seq<Json>, n: nat)
    requires n <= |values| <= |paths|
  {
    && v.Object?
    && (forall k | 0 <= k < n :: Lookup(v, paths[k]) == Some(values[k]))
    && (forall k | n <= k < |paths| :: Free(v, paths[k]))
    && (forall q: Path | q != [] && Unrelated(q, paths) :: Lookup(v, q).None?)
  }

  lemma HoldsNext(v: Json, paths: seq<Path>, values: seq<Json>, n: nat)
    requires n < |values| <= |paths| && Antichain(paths) && Holds(v, paths, values, n)
    ensures Insert(v, paths[n], values[n]).Some?
    ensures Holds(Insert(v, paths[n], values[n]).value, paths, values, n + 1)
  {
    InsertSucceeds(v, paths[n], values[n]);
    var placed := Insert(v, paths[n], values[n]).value;
    forall k | 0 <= k < |paths| && k != n
      ensures Lookup(placed, paths[k]) == Lookup(v, paths[k]) && (Free(placed, paths[k]) <==> Free(v, paths[k]))
    {
      InsertLeavesOthers(v, paths[n], values[n], paths[k]);
    }
    forall q: Path | q != [] && Unrelated(q, paths) ensures Lookup(placed, q).None? {
      assert paths[n] in paths;
      InsertLeavesOthers(v, paths[n], values[n], q);
    }
  }

  /** What the compensator is called with: every resolved value at its target and nothing beside them. */
  ghost predicate IsInput(v: Json, bindings: seq<Binding>, resolve: Source -> Option<Json>)
    requires Placeable(bindings)
  {
    && v.Object?
    && (forall b | b in bindings :: Lookup(v, RuntimePath(b.target).value) == resolve(b.source))
    && (forall q: Path | q != [] && (forall b | b in bindings :: !Comparable(RuntimePath(b.target).value, q)) ::
          Lookup(v, q).None?)
  }

  lemma PathsAreNonEmpty(paths: seq<Path>, bindings: seq<Binding>)
    requires AreTargets(paths, bindings)
    ensures forall p | p in paths :: p != []
  {
    forall k | 0 <= k < |paths| ensures paths[k] != [] {
      DecodeAllLength(Split(bindings[k].target[1..], '/'));
    }
  }

  lemma HeldIsInput(
      v: Json, bindings: seq<Binding>, resolve: Source -> Option<Json>, paths: seq<Path>, values: seq<Json>)
    requires Placeable(bindings) && AreTargets(paths, bindings) && |values| == |paths|
    requires forall k | 0 <= k < |bindings| :: resolve(bindings[k].source) == Some(values[k])
    requires Holds(v, paths, values, |values|)
    ensures IsInput(v, bindings, resolve)
  {
    forall b | b in bindings ensures Lookup(v, RuntimePath(b.target).value) == resolve(b.source) {
      var k :| 0 <= k < |bindings| && bindings[k] == b;
    }
    forall q: Path | q != [] && forall b | b in bindings :: !Comparable(RuntimePath(b.target).value, q)
      ensures Lookup(v, q).None?
    {
      forall p | p in paths ensures !Comparable(p, q) {
        var k :| 0 <= k < |paths| && paths[k] == p;
        assert bindings[k] in bindings;
      }
      assert Unrelated(q, paths);
    }
  }

  /** Places every resolved value; with unrelated targets only a missing source can stop it. */
  method PlaceValues(bindings: seq<Binding>, paths: seq<Path>, resolve: Source -> Option<Json>)
    returns (r: Result<Json, InputError>)
    requires Placeable(bindings) && AreTargets(paths, bindings) && Antichain(paths)
    ensures r.Ok? <==> Resolvable(bindings, resolve)
    ensures r.Ok? ==> IsInput(r.value, bindings, resolve)
    ensures r.Err? ==> r.error == MissingSource
  {
    var mapped := EMPTY;
    ghost var values: seq<Json> := [];
    PathsAreNonEmpty(paths, bindings);
    for i := 0 to |bindings|
      invariant |values| == i
      invariant forall k | 0 <= k < i :: resolve(bindings[k].source) == Some(values[k])
      invariant Holds(mapped, paths, values, i)
    {
      var value := resolve(bindings[i].source);
      if value.None? {
        assert bindings[i] in bindings;
        return Err(MissingSource);
      }
      values := values + [value.value];
      HoldsNext(mapped, paths, values, i);
      var placed := Insert(mapped, paths[i], value.value);
      if placed.None? {
        return Err(TargetTaken);
      }
      mapped := placed.value;
    }
    HeldIsInput(mapped, bindings, resolve, paths, values);
    return Ok(mapped);
  }

  method ResolveInput(bindings: seq<Binding>, resolve: Source -> Option<Json>, accepts: Json -> bool)
    returns (r: Result<Json, InputError>)
    ensures r.Ok? ==>
      Placeable(bindings) && Resolvable(bindings, resolve) && IsInput(r.value, bindings, resolve) && accepts(r.value)
    ensures !Placeable(bindings) ==> r.Err? && exists i :: TargetFault(bindings, i, r.error)
    ensures r == Err(MissingSource) <==> Placeable(bindings) && !Resolvable(bindings, resolve)
    ensures Placeable(bindings) && Resolvable(bindings, resolve) ==> r.Ok? || r.error == SchemaMismatch
    ensures r == Err(SchemaMismatch) ==>
      Placeable(bindings) && exists v :: IsInput(v, bindings, resolve) && !accepts(v)
  {
    var decoded := DecodeTargets(bindings);
    if decoded.Err? {
      return Err(decoded.error);
    }
    var mapped := PlaceValues(bindings, decoded.value, resolve);
    if mapped.Err? {
      return mapped;
    }
    if !accepts(mapped.value) {
      return Err(SchemaMismatch);
    }
    return mapped;
  }

  /******* What validation is worth at run time *******/

  /** An accepted mapping can be placed exactly when no target is the field with the empty name. */
  lemma ValidatedMappingIsPlaceable(bindings: seq<Binding>)
    requires MappingIssues(bindings) == []
    ensures Placeable(bindings) <==> forall b | b in bindings :: b.target != "/"
  {
    MappingIssuesExact(bindings);
    forall b | b in bindings
      ensures b.target != "/" ==> RuntimePath(b.target) == Decode(b.target)
      ensures b.target == "/" ==> RuntimePath(b.target).None?
    {
    }
  }

  /** The validator accepts a mapping onto `/` alone, which the interpreter then refuses. */
  lemma EmptyFieldNameIsRefused()
    ensures var bindings := [Binding("/", OriginalInput(""))];
      MappingIssues(bindings) == [] && !Placeable(bindings)
  {
    var bindings := [Binding("/", OriginalInput(""))];
    assert Split("", '/') == [""];
    assert "/"[1..] == "";
    PointersDecode("/");
    MappingIssuesExact(bindings);
    assert bindings[0] in bindings;
  }

  /******* Order *******/

  lemma {:induction false} LookupConcat(v: Json, p: Path, q: Path)
    ensures Lookup(v, p).None? ==> Lookup(v, p + q).None?
    ensures Lookup(v, p).Some? ==> Lookup(v, p + q) == Lookup(Lookup(v, p).value, q)
    decreases p
  {
    if p == [] {
      assert p + q == q;
    } else if v.Object? && Get(v.fields, p[0]).Some? {
      LookupConcat(Get(v.fields, p[0]).value, p[1..], q);
      assert (p + q)[1..] == p[1..] + q;
    }
  }

  /** What lies above a value is an object. */
  lemma ParentIsObject(v: Json, p: Path, q: Path)
    requires p < q && Lookup(v, q).Some?
    ensures Lookup(v, p).Some? && Lookup(v, p).value.Object?
  {
    assert q == p + q[|p|..];
    LookupConcat(v, p, q[|p|..]);
  }

  ghost predicate AboveTarget(q: Path, bindings: seq<Binding>)
    requires Placeable(bindings)
  {
    exists b :: b in bindings && q < RuntimePath(b.target).value
  }

  /** Both are objects above the targets, and the very same everywhere else: they differ in key order at most. */
  ghost predicate SameInput(v: Json, w: Json, bindings: seq<Binding>)
    requires Placeable(bindings)
  {
    forall q: Path ::
      if AboveTarget(q, bindings)
      then Lookup(v, q).Some? && Lookup(w, q).Some? && Lookup(v, q).value.Object? && Lookup(w, q).value.Object?
      else Lookup(v, q) == Lookup(w, q)
  }

  lemma EmptyInput(v: Json, resolve: Source -> Option<Json>)
    requires IsInput(v, [], resolve)
    ensures v == EMPTY
  {
    assert v.fields != [] ==> Lookup(v, [v.fields[0].key]).Some?;
  }

  lemma SameBesideTargets(bindings: seq<Binding>, resolve: Source -> Option<Json>, v: Json, w: Json, q: Path)
    requires Placeable(bindings) && IsInput(v, bindings, resolve) && IsInput(w, bindings, resolve)
    requires !AboveTarget(q, bindings)
    ensures Lookup(v, q) == Lookup(w, q)
  {
    if b :| b in bindings && RuntimePath(b.target).value <= q {
      var p := RuntimePath(b.target).value;
      assert q == p + q[|p|..];
      LookupConcat(v, p, q[|p|..]);
      LookupConcat(w, p, q[|p|..]);
    } else if q == [] {
      EmptyInput(v, resolve);
      EmptyInput(w, resolve);
    }
  }

  lemma InputIsDetermined(bindings: seq<Binding>, resolve: Source -> Option<Json>, v: Json, w: Json)
    requires Placeable(bindings) && Resolvable(bindings, resolve)
    requires IsInput(v, bindings, resolve) && IsInput(w, bindings, resolve)
    ensures SameInput(v, w, bindings)
  {
    forall q: Path | AboveTarget(q, bindings)
      ensures Lookup(v, q).Some? && Lookup(w, q).Some? && Lookup(v, q).value.Object? && Lookup(w, q).value.Object?
    {
      var b :| b in bindings && q < RuntimePath(b.target).value;
      ParentIsObject(v, q, RuntimePath(b.target).value);
      ParentIsObject(w, q, RuntimePath(b.target).value);
    }
    forall q: Path | !AboveTarget(q, bindings) ensures Lookup(v, q) == Lookup(w, q) {
      SameBesideTargets(bindings, resolve, v, w, q);
    }
  }

  lemma RepeatsCount<T>(s: seq<T>, i: nat, j: nat)
    requires i < j < |s| && s[i] == s[j]
    ensures multiset(s)[s[i]] >= 2
  {
    assert s == s[..j] + [s[j]] + s[j + 1..];
    assert s[..j][i] in multiset(s[..j]);
  }

  lemma CountsOnce<T>(front: seq<T>, x: T, back: seq<T>)
    requires x !in front && x !in back
    ensures multiset(front + [x] + back)[x] == 1
  {
    assert x !in multiset(front) && x !in multiset(back);
  }

  lemma NoRepeats(bindings: seq<Binding>, b: Binding)
    requires Placeable(bindings)
    ensures multiset(bindings)[b] <= 1
  {
    if b in bindings {
      var p :| 0 <= p < |bindings| && bindings[p] == b;
      assert bindings == bindings[..p] + [b] + bindings[p + 1..];
      CountsOnce(bindings[..p], b, bindings[p + 1..]);
    }
  }

  lemma ReorderedIsPlaceable(bindings: seq<Binding>, other: seq<Binding>)
    requires Placeable(bindings) && multiset(other) == multiset(bindings)
    ensures Placeable(other)
  {
    assert forall b | b in other :: b in multiset(other);
    assert forall b | b in multiset(bindings) :: b in bindings;
    forall i, j | 0 <= i < j < |other|
      ensures !Comparable(RuntimePath(other[i].target).value, RuntimePath(other[j].target).value)
    {
      assert other[i] in other && other[j] in other;
      if other[i] == other[j] {
        RepeatsCount(other, i, j);
        NoRepeats(bindings, other[i]);
        assert false;
      }
      var p :| 0 <= p < |bindings| && bindings[p] == other[i];
      var q :| 0 <= q < |bindings| && bindings[q] == other[j];
      assert p != q;
    }
  }

  /** A placeable mapping stays so in every order, and every order builds the same input. */
  lemma OrderIsIrrelevant(
      bindings: seq<Binding>, other: seq<Binding>, resolve: Source -> Option<Json>, v: Json, w: Json)
    requires Placeable(bindings) && multiset(other) == multiset(bindings)
    ensures Placeable(other)
    ensures Resolvable(bindings, resolve) && IsInput(v, bindings, resolve) && IsInput(w, other, resolve) ==>
      SameInput(v, w, bindings)
  {
    ReorderedIsPlaceable(bindings, other);
    assert forall b :: b in other <==> b in bindings by {
      assert forall b :: b in other <==> b in multiset(other);
      assert forall b :: b in bindings <==> b in multiset(bindings);
    }
    if Resolvable(bindings, resolve) && IsInput(v, bindings, resolve) && IsInput(w, other, resolve) {
      InputIsDetermined(bindings, resolve, v, w);
    }
  }

  /** Two runs of the interpreter over one mapping, in two orders. */
  method ResolveInTwoOrders(bindings: seq<Binding>, other: seq<Binding>, resolve: Source -> Option<Json>)
    returns (v: Result<Json, InputError>, w: Result<Json, InputError>)
    requires multiset(other) == multiset(bindings)
    ensures v.Ok? <==> w.Ok?
    ensures v.Ok? ==> Placeable(bindings) && SameInput(v.value, w.value, bindings)
  {
    v := ResolveInput(bindings, resolve, _ => true);
    w := ResolveInput(other, resolve, _ => true);
    ghost var placed, moved := if v.Ok? then v.value else EMPTY, if w.Ok? then w.value else EMPTY;
    assert forall b :: b in other <==> b in bindings by {
      assert forall b :: b in other <==> b in multiset(other);
      assert forall b :: b in bindings <==> b in multiset(bindings);
    }
    if Placeable(bindings) {
      OrderIsIrrelevant(bindings, other, resolve, placed, moved);
    }
    if Placeable(other) {
      OrderIsIrrelevant(other, bindings, resolve, moved, placed);
    }
  }
}
