/** Compensation input mappings, and which of them the plan validator accepts. */
module Compensation {
  import opened Prelude
  import opened Sequences
  import opened TextOrder
  import opened JsonPointer

  datatype Source = OriginalInput(pointer: string) | OriginalOutput(pointer: string)

  datatype Binding = Binding(target: string, source: Source)

  type Path = seq<string>

  predicate Comparable(a: Path, b: Path) {
    a <= b || b <= a
  }

  ghost predicate Antichain(paths: seq<Path>) {
    forall i, j | 0 <= i < j < |paths| :: !Comparable(paths[i], paths[j])
  }

  /******* Validation *******/

  const MAX_BINDINGS := 64

  datatype MappingIssue =
    | NoBindings
    | TooManyBindings
    | RootTarget
    | BadTarget
    | OverlappingTargets
    | DuplicateTarget
    | UnsortedTargets
    | BadSource

  /** The path a binding writes to, where its target pointer has one. */
  function TargetPath(b: Binding): Option<Path> {
    if b.target == "" then None else Decode(b.target)
  }

  predicate Nested(a: Path, b: Path) {
    a < b || b < a
  }

  predicate Overlaps(path: Path, earlier: seq<Binding>) {
    exists b :: b in earlier && TargetPath(b).Some? && Nested(TargetPath(b).value, path)
  }

  function TargetIssues(b: Binding, earlier: seq<Binding>): seq<MappingIssue> {
    if b.target == "" then [RootTarget]
    else
      (if IsPointer(b.target) then [] else [BadTarget])
      + if TargetPath(b).Some? && Overlaps(TargetPath(b).value, earlier) then [OverlappingTargets] else []
  }

  function BindingIssues(b: Binding, earlier: seq<Binding>): seq<MappingIssue> {
    TargetIssues(b, earlier)
    + (if exists e :: e in earlier && e.target == b.target then [DuplicateTarget] else [])
    + (if earlier != [] && Less(b.target, earlier[|earlier| - 1].target) then [UnsortedTargets] else [])
    + (if IsPointer(b.source.pointer) then [] else [BadSource])
  }

  /** The issues of each binding, which depend on the bindings before it. */
  function IssueLists(bindings: seq<Binding>): (lists: seq<seq<MappingIssue>>)
    ensures |lists| == |bindings|
    ensures forall i {:trigger lists[i]} | 0 <= i < |lists| :: lists[i] == BindingIssues(bindings[i], bindings[..i])
  {
    seq(|bindings|, i requires 0 <= i < |bindings| => BindingIssues(bindings[i], bindings[..i]))
  }

  function MappingIssues(bindings: seq<Binding>): seq<MappingIssue> {
    (if bindings == [] then [NoBindings] else [])
    + (if |bindings| > MAX_BINDINGS then [TooManyBindings] else [])
    + Flatten(IssueLists(bindings))
  }

  function TargetsOf(bindings: seq<Binding>): set<string> {
    set b | b in bindings :: b.target
  }

  function PathsOf(bindings: seq<Binding>): set<Path> {
    set b | b in bindings && TargetPath(b).Some? :: TargetPath(b).value
  }

  /** What the validator remembers of the bindings it has seen. */
  ghost predicate Remembers(targets: set<string>, paths: seq<Path>, earlier: seq<Binding>) {
    targets == TargetsOf(earlier) && (set p | p in paths) == PathsOf(earlier)
  }

  lemma RemembersNext(targets: set<string>, paths: seq<Path>, earlier: seq<Binding>, b: Binding)
    requires Remembers(targets, paths, earlier)
    ensures Remembers(
      targets + {b.target}, if TargetPath(b).Some? then paths + [TargetPath(b).value] else paths, earlier + [b])
  {
    assert forall e :: e in earlier + [b] <==> e in earlier || e == b;
    assert TargetsOf(earlier + [b]) == TargetsOf(earlier) + {b.target};
    if TargetPath(b).Some? {
      var paths' := paths + [TargetPath(b).value];
      assert (set p | p in paths') == (set p | p in paths) + {TargetPath(b).value};
      assert PathsOf(earlier + [b]) == PathsOf(earlier) + {TargetPath(b).value};
    } else {
      assert PathsOf(earlier + [b]) == PathsOf(earlier);
    }
  }

  lemma NestedInPaths(targets: set<string>, paths: seq<Path>, earlier: seq<Binding>, path: Path)
    requires Remembers(targets, paths, earlier)
    ensures (exists p :: p in paths && Nested(p, path)) <==> Overlaps(path, earlier)
  {
    var known := set p | p in paths;
    if p :| p in paths && Nested(p, path) {
      assert p in known;
      var e :| e in earlier && TargetPath(e) == Some(p);
    }
    if e :| e in earlier && TargetPath(e).Some? && Nested(TargetPath(e).value, path) {
      assert TargetPath(e).value in PathsOf(earlier);
    }
  }

  method CheckTarget(b: Binding, targets: set<string>, paths: seq<Path>, ghost earlier: seq<Binding>)
    returns (found: seq<MappingIssue>)
    requires Remembers(targets, paths, earlier)
    ensures found == TargetIssues(b, earlier)
  {
    if b.target == "" {
      return [RootTarget];
    }
    var pointer := ScanPointer(b.target);
    PointersDecode(b.target);
    found := if pointer then [] else [BadTarget];
    var decoded := Decode(b.target);
    if decoded.Some? {
      NestedInPaths(targets, paths, earlier, decoded.value);
      if exists p :: p in paths && Nested(p, decoded.value) {
        found := found + [OverlappingTargets];
      }
    }
  }

  method CheckBinding(
      b: Binding, targets: set<string>, paths: seq<Path>, previous: Option<string>, ghost earlier: seq<Binding>)
    returns (found: seq<MappingIssue>)
    requires Remembers(targets, paths, earlier)
    requires previous == if earlier == [] then None else Some(earlier[|earlier| - 1].target)
    ensures found == BindingIssues(b, earlier)
  {
    found := CheckTarget(b, targets, paths, earlier);
    if b.target in targets {
      found := found + [DuplicateTarget];
    }
    if previous.Some? && Less(b.target, previous.value) {
      found := found + [UnsortedTargets];
    }
    var source := ScanPointer(b.source.pointer);
    PointersDecode(b.source.pointer);
    if !source {
      found := found + [BadSource];
    }
  }

  lemma IssuesNext(header: seq<MappingIssue>, lists: seq<seq<MappingIssue>>, i: nat)
    requires i < |lists|
    ensures header + Flatten(lists[..i + 1]) == header + Flatten(lists[..i]) + lists[i]
  {
    FlattenNext(lists[..i], lists[i]);
    assert lists[..i + 1] == lists[..i] + [lists[i]];
    assert header + (Flatten(lists[..i]) + lists[i]) == header + Flatten(lists[..i]) + lists[i];
  }

  /** What the validator carries from one binding to the next. */
  datatype Seen = Seen(targets: set<string>, paths: seq<Path>, previous: Option<string>)

  function SeenNext(seen: Seen, b: Binding): Seen {
    Seen(
      seen.targets + {b.target},
      if TargetPath(b).Some? then seen.paths + [TargetPath(b).value] else seen.paths,
      Some(b.target))
  }

  ghost predicate HasSeen(seen: Seen, bindings: seq<Binding>, i: nat) {
    && i <= |bindings|
    && Remembers(seen.targets, seen.paths, bindings[..i])
    && seen.previous == if i == 0 then None else Some(bindings[i - 1].target)
  }

  lemma HasSeenNext(seen: Seen, bindings: seq<Binding>, i: nat)
    requires HasSeen(seen, bindings, i) && i < |bindings|
    ensures HasSeen(SeenNext(seen, bindings[i]), bindings, i + 1)
  {
    RemembersNext(seen.targets, seen.paths, bindings[..i], bindings[i]);
    assert bindings[..i + 1] == bindings[..i] + [bindings[i]];
  }

  method CheckNext(seen: Seen, bindings: seq<Binding>, i: nat, ghost lists: seq<seq<MappingIssue>>)
    returns (found: seq<MappingIssue>)
    requires HasSeen(seen, bindings, i) && i < |bindings| && lists == IssueLists(bindings)
    ensures found == lists[i]
  {
    found := CheckBinding(bindings[i], seen.targets, seen.paths, seen.previous, bindings[..i]);
  }

  method ValidateMapping(bindings: seq<Binding>) returns (issues: seq<MappingIssue>)
    ensures issues == MappingIssues(bindings)
  {
    issues := if bindings == [] then [NoBindings] else [];
    if |bindings| > MAX_BINDINGS {
      issues := issues + [TooManyBindings];
    }
    ghost var header, lists := issues, IssueLists(bindings);
    var seen := Seen({}, [], None);
    for i := 0 to |bindings|
      invariant HasSeen(seen, bindings, i)
      invariant issues == header + Flatten(lists[..i])
    {
      var found := CheckNext(seen, bindings, i, lists);
      HasSeenNext(seen, bindings, i);
      IssuesNext(header, lists, i);
      seen := SeenNext(seen, bindings[i]);
      issues := issues + found;
    }
    Whole(lists);
  }

  ghost predicate MappingOk(bindings: seq<Binding>) {
    && 1 <= |bindings| <= MAX_BINDINGS
    && (forall b | b in bindings :: b.target != "" && Decode(b.target).Some? && Decode(b.source.pointer).Some?)
    && (forall i, j | 0 <= i < j < |bindings| :: Less(bindings[i].target, bindings[j].target))
    && (forall i, j | 0 <= i < j < |bindings| ::
          !Comparable(Decode(bindings[i].target).value, Decode(bindings[j].target).value))
  }

  /** One step of the sorted, non-overlapping order the validator asks for. */
  ghost predicate Follows(b: Binding, earlier: seq<Binding>) {
    && b.target != "" && Decode(b.target).Some? && Decode(b.source.pointer).Some?
    && !Overlaps(Decode(b.target).value, earlier)
    && (forall e | e in earlier :: e.target != b.target)
    && (earlier != [] ==> !Less(b.target, earlier[|earlier| - 1].target))
  }

  lemma NoBindingIssue(b: Binding, earlier: seq<Binding>)
    ensures BindingIssues(b, earlier) == [] <==> Follows(b, earlier)
  {
    PointersDecode(b.target);
    PointersDecode(b.source.pointer);
  }

  lemma FollowersAscend(bindings: seq<Binding>, i: nat, j: nat)
    requires forall k | 0 <= k < |bindings| :: Follows(bindings[k], bindings[..k])
    requires i < j < |bindings|
    ensures Less(bindings[i].target, bindings[j].target)
  {
    var targets := seq(|bindings|, k requires 0 <= k < |bindings| => bindings[k].target);
    forall k | 0 <= k < |targets| - 1 ensures Less(targets[k], targets[k + 1]) {
      var b, earlier := bindings[k + 1], bindings[..k + 1];
      assert Follows(b, earlier) && earlier[|earlier| - 1] == bindings[k] && bindings[k] in earlier;
      LessTotal(targets[k], targets[k + 1]);
    }
    StepsAscend(targets, i, j);
  }

  lemma FollowersDiverge(bindings: seq<Binding>, i: nat, j: nat)
    requires i < j < |bindings| && Follows(bindings[i], bindings[..i]) && Follows(bindings[j], bindings[..j])
    ensures !Comparable(Decode(bindings[i].target).value, Decode(bindings[j].target).value)
  {
    var a, b := Decode(bindings[i].target).value, Decode(bindings[j].target).value;
    assert bindings[..j][i] == bindings[i];
    assert bindings[i] in bindings[..j];
    PointerDecodesOnce(bindings[i].target);
    PointerDecodesOnce(bindings[j].target);
    assert a != b && !Nested(a, b);
  }

  lemma FollowersAreOk(bindings: seq<Binding>)
    requires 1 <= |bindings| <= MAX_BINDINGS
    requires forall k | 0 <= k < |bindings| :: Follows(bindings[k], bindings[..k])
    ensures MappingOk(bindings)
  {
    forall i, j | 0 <= i < j < |bindings|
      ensures Less(bindings[i].target, bindings[j].target)
      ensures !Comparable(Decode(bindings[i].target).value, Decode(bindings[j].target).value)
    {
      FollowersAscend(bindings, i, j);
      FollowersDiverge(bindings, i, j);
    }
    forall b | b in bindings ensures b.target != "" && Decode(b.target).Some? && Decode(b.source.pointer).Some? {
      var k :| 0 <= k < |bindings| && bindings[k] == b;
      assert Follows(bindings[k], bindings[..k]);
    }
  }

  lemma OrderedFollows(bindings: seq<Binding>, j: nat)
    requires MappingOk(bindings) && j < |bindings|
    ensures Follows(bindings[j], bindings[..j])
  {
    var b, earlier := bindings[j], bindings[..j];
    forall e | e in earlier
      ensures Less(e.target, b.target) && TargetPath(e).Some? && !Comparable(TargetPath(e).value, Decode(b.target).value)
    {
      var i :| 0 <= i < j && bindings[i] == e;
    }
    LessIrreflexive(b.target);
    if j > 0 && Less(b.target, bindings[j - 1].target) {
      LessTransitive(bindings[j - 1].target, b.target, bindings[j - 1].target);
      LessIrreflexive(bindings[j - 1].target);
    }
  }

  /** The validator reports nothing exactly for a sorted mapping onto pairwise unrelated object fields. */
  lemma MappingIssuesExact(bindings: seq<Binding>)
    ensures MappingIssues(bindings) == [] <==> MappingOk(bindings)
  {
    var lists := IssueLists(bindings);
    FlattenExact(lists);
    forall k | 0 <= k < |bindings| ensures lists[k] == [] <==> Follows(bindings[k], bindings[..k]) {
      NoBindingIssue(bindings[k], bindings[..k]);
    }
    if MappingIssues(bindings) == [] {
      assert forall k | 0 <= k < |bindings| :: lists[k] in lists;
      FollowersAreOk(bindings);
    }
    if MappingOk(bindings) {
      forall k | 0 <= k < |bindings| ensures Follows(bindings[k], bindings[..k]) {
        OrderedFollows(bindings, k);
      }
    }
  }
}
