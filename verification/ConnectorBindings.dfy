/** Connector bindings, resolved from freshly loaded revisions or rebuilt from a lock. */
module ConnectorBindings {
  import opened Prelude
  import opened SortedLists
  import opened ArtifactReference
  import opened AgentModel

  type Binder = ConnectorBinding -> Result<AgentBinding, ResolveError>

  predicate IsConnector(r: Reference) {
    r.ArtifactRef? && r.kind == ConnectorKind
  }

  /** How a fresh resolution binds one connector. */
  function Fresh(b: ConnectorBinding, connectors: map<string, Revision>): Result<AgentBinding, ResolveError> {
    if !IsConnector(b.connector) then Err(NotAConnectorBinding)
    else if Print(b.connector).Err? then Err(Unprintable)
    else if b.connector.name !in connectors then Err(UnresolvedConnector)
    else
      var revision := connectors[b.connector.name];
      Ok(AgentBinding(Print(b.connector).value, b.connection, revision.artifactUid, revision.revisionUid))
  }

  function FindDependency(artifacts: seq<Dependency>, text: string): (r: Option<Dependency>)
    ensures r.Some? ==> r.value in artifacts && r.value.reference == text
    ensures r.None? ==> forall d | d in artifacts :: d.reference != text
  {
    if artifacts == [] then None
    else if artifacts[0].reference == text then Some(artifacts[0])
    else FindDependency(artifacts[1..], text)
  }

  /** How the binding is rebuilt from the dependencies a lock holds. */
  function FromLock(b: ConnectorBinding, artifacts: seq<Dependency>): Result<AgentBinding, ResolveError> {
    if Print(b.connector).Err? then Err(Unprintable)
    else if !IsConnector(b.connector) then Err(NotAConnectorBinding)
    else
      match FindDependency(artifacts, Print(b.connector).value)
      case None => Err(MissingLockDependency)
      case Some(d) =>
        if d.kind != ConnectorKind then Err(LockedKindMismatch)
        else Ok(AgentBinding(Print(b.connector).value, b.connection, d.artifactUid, d.revisionUid))
  }

  ghost predicate Distinct(bound: seq<AgentBinding>) {
    && (forall i, j | 0 <= i < j < |bound| :: bound[i].connector != bound[j].connector)
    && (forall i, j | 0 <= i < j < |bound| :: bound[i].connection != bound[j].connection)
  }

  ghost predicate SharesConnector(bound: seq<AgentBinding>, i: nat)
    requires i < |bound|
  {
    exists k :: 0 <= k < i && bound[k].connector == bound[i].connector
  }

  ghost predicate SharesConnection(bound: seq<AgentBinding>, i: nat)
    requires i < |bound|
  {
    exists k :: 0 <= k < i && bound[k].connection == bound[i].connection
  }

  /** Binding `i` is the first to clash with an earlier one. */
  ghost predicate ClashesAt(bound: seq<AgentBinding>, i: nat, e: ResolveError) {
    && i < |bound| && Distinct(bound[..i])
    && ((e == ConnectorBoundTwice && SharesConnector(bound, i))
        || (e == ConnectionBoundTwice && !SharesConnector(bound, i) && SharesConnection(bound, i)))
  }

  method CheckUniqueness(bound: seq<AgentBinding>) returns (r: Option<ResolveError>)
    ensures r.None? <==> Distinct(bound)
    ensures r.Some? ==> exists i :: ClashesAt(bound, i, r.value)
  {
    var connectors: set<string> := {};
    var connections: set<Uid> := {};
    var i := 0;
    while i < |bound|
      invariant i <= |bound|
      invariant connectors == set j | 0 <= j < i :: bound[j].connector
      invariant connections == set j | 0 <= j < i :: bound[j].connection
      invariant Distinct(bound[..i])
    {
      if bound[i].connector in connectors {
        assert ClashesAt(bound, i, ConnectorBoundTwice);
        return Some(ConnectorBoundTwice);
      }
      if bound[i].connection in connections {
        assert ClashesAt(bound, i, ConnectionBoundTwice);
        return Some(ConnectionBoundTwice);
      }
      connectors := connectors + {bound[i].connector};
      connections := connections + {bound[i].connection};
      i := i + 1;
    }
    assert bound[..i] == bound;
    return None;
  }

  /** `bound` is what `bind` makes of each binding. */
  ghost predicate AllBound(bound: seq<AgentBinding>, bindings: seq<ConnectorBinding>, bind: Binder) {
    |bound| == |bindings| && forall i | 0 <= i < |bound| :: bind(bindings[i]) == Ok(bound[i])
  }

  ghost predicate Bindable(bindings: seq<ConnectorBinding>, bind: Binder) {
    exists bound :: AllBound(bound, bindings, bind) && Distinct(bound)
  }

  /** Binding `i` is the first that does not bind. */
  ghost predicate FailsAt(bindings: seq<ConnectorBinding>, bind: Binder, i: nat, e: ResolveError) {
    i < |bindings| && (forall k | 0 <= k < i :: bind(bindings[k]).Ok?) && bind(bindings[i]) == Err(e)
  }

  /** Some binding does not bind, or else two clash. */
  ghost predicate BindingFault(bindings: seq<ConnectorBinding>, bind: Binder, e: ResolveError) {
    if exists b :: b in bindings && bind(b).Err? then exists i :: FailsAt(bindings, bind, i, e)
    else exists bound, i :: AllBound(bound, bindings, bind) && ClashesAt(bound, i, e)
  }

  /** The sorted list of what `bind` makes of the bindings. */
  ghost predicate AreBindings(r: seq<AgentBinding>, bindings: seq<ConnectorBinding>, bind: Binder) {
    && AscendingBy(r, BindingText)
    && forall x :: x in r <==> exists b :: b in bindings && bind(b) == Ok(x)
  }

  lemma SortedBindings(bound: seq<AgentBinding>, bindings: seq<ConnectorBinding>, bind: Binder)
    requires AllBound(bound, bindings, bind) && Distinct(bound)
    ensures AreBindings(SortedUniqueBy(bound, BindingText), bindings, bind)
  {
    forall x, y | x in bound && y in bound && x.connector == y.connector ensures x == y {
      var i :| 0 <= i < |bound| && bound[i] == x;
      var j :| 0 <= j < |bound| && bound[j] == y;
    }
    SortedUniqueAscends(bound, BindingText);
    SortedUniqueKeeps(bound, BindingText);
    forall x ensures x in bound <==> exists b :: b in bindings && bind(b) == Ok(x) {
      if x in bound {
        var i :| 0 <= i < |bound| && bound[i] == x;
        assert bindings[i] in bindings;
      }
    }
  }

  method BindAll(bindings: seq<ConnectorBinding>, bind: Binder) returns (r: Result<seq<AgentBinding>, ResolveError>)
    ensures r.Ok? <==> Bindable(bindings, bind)
    ensures r.Ok? ==> AreBindings(r.value, bindings, bind)
    ensures r.Err? ==> BindingFault(bindings, bind, r.error)
  {
    var bound: seq<AgentBinding> := [];
    var i := 0;
    while i < |bindings|
      invariant i <= |bindings|
      invariant AllBound(bound, bindings[..i], bind)
    {
      var one := bind(bindings[i]);
      if one.Err? {
        assert bindings[i] in bindings;
        assert FailsAt(bindings, bind, i, one.error);
        return Err(one.error);
      }
      bound := bound + [one.value];
      i := i + 1;
    }
    assert bindings[..i] == bindings;
    forall other | AllBound(other, bindings, bind) ensures other == bound {
    }
    var clash := CheckUniqueness(bound);
    if clash.Some? {
      return Err(clash.value);
    }
    SortedBindings(bound, bindings, bind);
    return Ok(SortedUniqueBy(bound, BindingText));
  }

  /** Two ways of binding that agree on each binding agree on the list. */
  lemma SameBindings(
      bindings: seq<ConnectorBinding>, bind: Binder, bind': Binder, r: seq<AgentBinding>, r': seq<AgentBinding>)
    requires forall b | b in bindings && bind(b).Ok? :: bind'(b) == bind(b)
    requires Bindable(bindings, bind)
    ensures Bindable(bindings, bind')
    ensures AreBindings(r, bindings, bind) && AreBindings(r', bindings, bind') ==> r == r'
  {
    var bound :| AllBound(bound, bindings, bind) && Distinct(bound);
    assert forall i | 0 <= i < |bindings| :: bindings[i] in bindings;
    assert AllBound(bound, bindings, bind');
    if AreBindings(r, bindings, bind) && AreBindings(r', bindings, bind') {
      forall b | b in bindings ensures bind(b).Ok? {
        var i :| 0 <= i < |bindings| && bindings[i] == b;
      }
      AscendingUnique(r, r', BindingText);
    }
  }
}
