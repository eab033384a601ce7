/** The compiled statement: its selected outputs, tenant constraint, predicates and ordering. */
module QueryStatement {
  import opened Prelude
  import opened Text
  import opened QueryModel
  import opened QueryValidation
  import opened QueryCompiler

  /******* Selected outputs and ordering *******/

  datatype Output = Output(response: string, source: string)

  function DimensionOutput(d: Dimension): Output {
    Output(if d.alias.Some? then d.alias.value else d.field, d.field)
  }

  function MeasureOutput(m: Measure): Output {
    var response := if m.alias.Some? then m.alias.value else DefaultName(m);
    Output(response, if m.field.Some? then m.field.value else response)
  }

  function Outputs(r: Request): (outputs: seq<Output>)
    ensures |outputs| == |r.dimensions| + |r.measures|
  {
    seq(|r.dimensions|, i requires 0 <= i < |r.dimensions| => DimensionOutput(r.dimensions[i]))
    + seq(|r.measures|, i requires 0 <= i < |r.measures| => MeasureOutput(r.measures[i]))
  }

  /** The outputs are the dimensions and then the measures, each under its alias or its default name. */
  lemma OutputsExactly(r: Request, i: nat)
    requires i < |r.dimensions| + |r.measures|
    ensures var o := Outputs(r)[i];
      if i < |r.dimensions| then
        var d := r.dimensions[i];
        o.source == d.field && Some(o.response) == if d.alias.Some? then d.alias else Some(d.field)
      else
        var m := r.measures[i - |r.dimensions|];
        && Some(o.response) == (if m.alias.Some? then m.alias else Some(DefaultName(m)))
        && Some(o.source) == if m.field.Some? then m.field else Some(o.response)
  {
  }

  predicate Provides(o: Output, field: string) {
    o.response == field || o.source == field
  }

  /** The first output that an order field names. */
  function ResolveOrder(outputs: seq<Output>, field: string): (r: Option<nat>)
    ensures r.Some? ==> r.value < |outputs| && Provides(outputs[r.value], field)
                        && forall i | 0 <= i < r.value :: !Provides(outputs[i], field)
    ensures r.None? ==> forall i | 0 <= i < |outputs| :: !Provides(outputs[i], field)
  {
    if outputs == [] then None
    else if Provides(outputs[0], field) then Some(0)
    else
      match ResolveOrder(outputs[1..], field)
      case None => None
      case Some(i) => Some(i + 1)
  }

  predicate Resolves(r: Request, field: string) {
    ResolveOrder(Outputs(r), field).Some?
  }

  ghost predicate Provided(r: Request, field: string) {
    || (exists d :: d in r.dimensions && Provides(DimensionOutput(d), field))
    || (exists m :: m in r.measures && Provides(MeasureOutput(m), field))
  }

  lemma ResolvedIsProvided(r: Request, field: string)
    requires Resolves(r, field)
    ensures Provided(r, field)
  {
    var i := ResolveOrder(Outputs(r), field).value;
    if i < |r.dimensions| {
      assert r.dimensions[i] in r.dimensions;
    } else {
      assert r.measures[i - |r.dimensions|] in r.measures;
    }
  }

  lemma ResolvesMeans(r: Request, field: string)
    ensures Resolves(r, field) <==> Provided(r, field)
  {
    var outputs := Outputs(r);
    if Resolves(r, field) {
      ResolvedIsProvided(r, field);
    }
    if d :| d in r.dimensions && Provides(DimensionOutput(d), field) {
      var i :| 0 <= i < |r.dimensions| && r.dimensions[i] == d;
      assert Provides(outputs[i], field);
    }
    if m :| m in r.measures && Provides(MeasureOutput(m), field) {
      var i :| 0 <= i < |r.measures| && r.measures[i] == m;
      assert Provides(outputs[|r.dimensions| + i], field);
    }
  }

  ghost predicate MeasuresAreCounted(r: Request) {
    forall m | m in r.measures && m.field.None? :: m.aggregation == Count
  }

  /** No dimension or measure is called `field`, and every measure with that default name has an alias. */
  ghost predicate Unnamed(r: Request, field: string) {
    && (forall d | d in r.dimensions :: d.field != field && d.alias != Some(field))
    && (forall m | m in r.measures ::
          m.field != Some(field) && m.alias != Some(field) && (DefaultName(m) == field ==> m.alias.Some?))
  }

  /** The compiler finds an output for an order field exactly when the request names it. */
  lemma ResolvesExactly(r: Request, field: string)
    ensures Resolves(r, field) <==> !Unnamed(r, field)
  {
    ResolvesMeans(r, field);
    assert forall d | d in r.dimensions :: Provides(DimensionOutput(d), field) <==> d.field == field || d.alias == Some(field);
    assert forall m | m in r.measures :: Provides(MeasureOutput(m), field) <==>
      m.field == Some(field) || m.alias == Some(field) || (DefaultName(m) == field && m.alias.None?);
  }

  /** A measure has `field` as its default name but goes by an alias, and nothing else is called `field`. */
  ghost predicate LostDefault(r: Request, field: string) {
    Unnamed(r, field) && exists m :: m in r.measures && m.alias.Some? && DefaultName(m) == field
  }

  /** The order fields that validation accepts and the compiler cannot resolve. */
  lemma SelectedIsLostExactly(r: Request, field: string)
    requires MeasuresAreCounted(r)
    ensures Selected(r, field) && !Resolves(r, field) <==> LostDefault(r, field)
    ensures Selected(r, field) <==> Resolves(r, field) || LostDefault(r, field)
  {
    ResolvesExactly(r, field);
    if LostDefault(r, field) {
      var m :| m in r.measures && m.alias.Some? && DefaultName(m) == field;
      assert SelectedByMeasure(m, field);
    }
    if Selected(r, field) && Unnamed(r, field) {
      var m :| m in r.measures && SelectedByMeasure(m, field);
      assert m.alias.Some? && DefaultName(m) == field;
    }
  }

  /** The compiler resolves the order fields of an accepted request exactly when none is a lost default name. */
  lemma AcceptedOrdersResolve(dataset: Dataset, r: Request, now: int, parse: Parser)
    requires Acceptable(dataset, r, now, parse)
    ensures (forall o | o in r.orders :: Resolves(r, o.field)) <==> forall o | o in r.orders :: !LostDefault(r, o.field)
  {
    forall m | m in r.measures && m.field.None? ensures m.aggregation == Count {
      assert MeasureOk(m, dataset.fields);
    }
    forall o | o in r.orders ensures Resolves(r, o.field) <==> !LostDefault(r, o.field) {
      SelectedIsLostExactly(r, o.field);
    }
  }

  /** Without aliases on measures every accepted order field resolves. */
  lemma UnaliasedOrdersResolve(r: Request, field: string)
    requires MeasuresAreCounted(r) && Selected(r, field)
    requires forall m | m in r.measures :: m.alias.None?
    ensures Resolves(r, field)
  {
    SelectedIsLostExactly(r, field);
  }

  /** An aliased count may be ordered by "count" as far as validation goes, but not as far as compilation does. */
  lemma AliasedCountIsUnresolved()
    ensures var r := Request(Some("t"), [], [Measure(None, Count, Some("n"))], [], [Order("count", true)], None);
      Selected(r, "count") && !Resolves(r, "count")
  {
    var r := Request(Some("t"), [], [Measure(None, Count, Some("n"))], [], [Order("count", true)], None);
    assert r.measures[0] in r.measures && SelectedByMeasure(r.measures[0], "count");
    assert Outputs(r) == [Output("n", "n")];
  }

  /******* Source and tenant *******/

  const MARKER := "$TENANT$"
  const TENANT_HOLE := Placeholder(1, UuidKind)

  /** The source text with every tenant marker replaced. */
  function Source(raw: string): Sql
    decreases |raw|
  {
    match SplitOnce(raw, MARKER)
    case None => [Fixed(raw)]
    case Some((before, after)) => [Fixed(before), Hole(TENANT_HOLE)] + Source(after)
  }

  function Markers(raw: string): nat
    decreases |raw|
  {
    match SplitOnce(raw, MARKER)
    case None => 0
    case Some((_, after)) => 1 + Markers(after)
  }

  function Repeat(h: Placeholder, n: nat): (r: seq<Placeholder>)
    ensures |r| == n && forall i | 0 <= i < n :: r[i] == h
  {
    if n == 0 then [] else [h] + Repeat(h, n - 1)
  }

  lemma {:induction false} SourceHoles(raw: string)
    ensures Holes(Source(raw)) == Repeat(TENANT_HOLE, Markers(raw))
    decreases |raw|
  {
    match SplitOnce(raw, MARKER)
    case None =>
      OneFixed(raw);
    case Some((before, after)) =>
      SourceHoles(after);
      HolesConcat([Fixed(before), Hole(TENANT_HOLE)], Source(after));
      HolesConcat([Fixed(before)], [Hole(TENANT_HOLE)]);
      OneFixed(before);
      OneHole(TENANT_HOLE);
      assert [Fixed(before), Hole(TENANT_HOLE)] == [Fixed(before)] + [Hole(TENANT_HOLE)];
  }

  /** The source with its markers put back. */
  function WithMarkers(sql: Sql): string {
    if sql == [] then ""
    else (if sql[0].Fixed? then sql[0].s else MARKER) + WithMarkers(sql[1..])
  }

  lemma NoMarkerBefore(raw: string)
    requires SplitOnce(raw, MARKER).Some?
    ensures Find(SplitOnce(raw, MARKER).value.0, MARKER).None?
  {
    var before := SplitOnce(raw, MARKER).value.0;
    forall j: nat ensures !OccursAt(before, MARKER, j) {
      if OccursAt(before, MARKER, j) {
        assert raw[j..j + |MARKER|] == before[j..j + |MARKER|];
        assert OccursAt(raw, MARKER, j);
      }
    }
  }

  /** Replacing the markers changes nothing else, and leaves none. */
  lemma {:induction false} SourceRestores(raw: string)
    ensures WithMarkers(Source(raw)) == raw
    ensures forall p | p in Source(raw) && p.Fixed? :: Find(p.s, MARKER).None?
    decreases |raw|
  {
    match SplitOnce(raw, MARKER)
    case None =>
      assert [Fixed(raw)][1..] == [];
    case Some((before, after)) =>
      NoMarkerBefore(raw);
      SourceRestores(after);
      var sql := [Fixed(before), Hole(TENANT_HOLE)] + Source(after);
      assert sql[1..] == [Hole(TENANT_HOLE)] + Source(after) && sql[1..][1..] == Source(after);
      assert before + (MARKER + after) == raw;
  }

  /** The text a backend reads from, where the dataset has one. */
  function RawSource(backend: Backend, dataset: Dataset): Option<string> {
    match backend
    case Postgres => Some(dataset.relation + " AS d")
    case ClickHouse => dataset.clickhouseSource
  }

  /** Only ClickHouse sources are searched for markers. */
  function SourceMarkers(backend: Backend, raw: string): nat {
    if backend == Postgres then 0 else Markers(raw)
  }

  function From(backend: Backend, raw: string): Sql {
    if backend == Postgres then [Fixed(raw)] else Source(raw)
  }

  lemma FromHoles(backend: Backend, raw: string)
    ensures Holes(From(backend, raw)) == Repeat(TENANT_HOLE, SourceMarkers(backend, raw))
  {
    if backend == Postgres {
      OneFixed(raw);
    } else {
      SourceHoles(raw);
    }
  }

  /******* Predicates *******/

  predicate Available(backend: Backend, fields: seq<Field>, id: string) {
    FieldNamed(fields, id).Some? && FieldExpression(backend, FieldNamed(fields, id).value).Some?
  }

  predicate FilterAvailable(backend: Backend, fields: seq<Field>, f: Filter) {
    f.field == "tenant_id" || Available(backend, fields, f.field)
  }

  predicate AllAvailable(backend: Backend, fields: seq<Field>, filters: seq<Filter>) {
    forall f | f in filters :: FilterAvailable(backend, fields, f)
  }

  lemma AvailableNext(backend: Backend, fields: seq<Field>, filters: seq<Filter>, i: nat)
    requires i < |filters|
    ensures AllAvailable(backend, fields, filters[..i + 1]) <==>
      AllAvailable(backend, fields, filters[..i]) && FilterAvailable(backend, fields, filters[i])
    ensures AllAvailable(backend, fields, filters) ==> FilterAvailable(backend, fields, filters[i])
  {
    assert filters[..i + 1] == filters[..i] + [filters[i]];
  }

  /** The values one filter asks to bind; the tenant filter is enforced already and asks for none. */
  function FilterDemand(fields: seq<Field>, f: Filter): Result<seq<Bind>, QueryError> {
    if f.field == "tenant_id" then Ok([])
    else
      match FieldNamed(fields, f.field)
      case None => Err(UnknownField)
      case Some(field) => Demand(field, f.operator, f.value)
  }

  /** What each filter asks for. */
  function DemandList(fields: seq<Field>, filters: seq<Filter>): (demands: seq<Result<seq<Bind>, QueryError>>)
    ensures |demands| == |filters|
    ensures forall i {:trigger demands[i]} | 0 <= i < |demands| :: demands[i] == FilterDemand(fields, filters[i])
  {
    seq(|filters|, i requires 0 <= i < |filters| => FilterDemand(fields, filters[i]))
  }

  /** All the values in order, or the first error. */
  function Collect(demands: seq<Result<seq<Bind>, QueryError>>): Result<seq<Bind>, QueryError> {
    if demands == [] then Ok([])
    else
      var n := |demands| - 1;
      match (Collect(demands[..n]), demands[n])
      case (Ok(front), Ok(last)) => Ok(front + last)
      case (Err(e), _) => Err(e)
      case (_, Err(e)) => Err(e)
  }

  function Demands(fields: seq<Field>, filters: seq<Filter>): Result<seq<Bind>, QueryError> {
    Collect(DemandList(fields, filters))
  }

  lemma {:induction false} CollectFails(demands: seq<Result<seq<Bind>, QueryError>>, i: nat)
    requires i < |demands| && demands[i].Err?
    ensures Collect(demands).Err?
  {
    if i < |demands| - 1 {
      CollectFails(demands[..|demands| - 1], i);
    }
  }

  /** The tenant's own predicate, which a source with a marker makes unnecessary. */
  function TenantPredicates(inSource: bool): seq<Sql> {
    if inSource then [] else [[Fixed("d.tenant_id = "), Hole(TENANT_HOLE)]]
  }

  lemma TenantPredicateHoles(inSource: bool, tenant: string)
    ensures Holes(Joined(TenantPredicates(inSource), " AND ")) == if inSource then [] else [TENANT_HOLE]
    ensures Aligned(
      Holes(Joined(TenantPredicates(inSource), " AND ")), [TextBind(tenant)], if inSource then 1 else 0)
  {
    if !inSource {
      var p := [Fixed("d.tenant_id = "), Hole(TENANT_HOLE)];
      HolesConcat([Fixed("d.tenant_id = ")], [Hole(TENANT_HOLE)]);
      assert p == [Fixed("d.tenant_id = ")] + [Hole(TENANT_HOLE)];
      OneFixed("d.tenant_id = ");
      OneHole(TENANT_HOLE);
    }
  }

  /** The predicate of one filter that binds `n` values behind the first `from`. */
  function FilterClause(backend: Backend, fields: seq<Field>, f: Filter, from: nat, n: nat): seq<Sql> {
    if f.field == "tenant_id" || !Available(backend, fields, f.field) then []
    else
      var field := FieldNamed(fields, f.field).value;
      [Predicate(backend, f.operator, FieldExpression(backend, field).value, Numbered(from, n, HoleKind(field, f.operator)))]
  }

  /** The predicates of the first `i` filters, each binding behind the tenant and the filters before it. */
  function Where(
      backend: Backend, fields: seq<Field>, filters: seq<Filter>, demands: seq<Result<seq<Bind>, QueryError>>, i: nat): seq<Sql>
    requires i <= |filters| == |demands| && Collect(demands[..i]).Ok?
  {
    if i == 0 then []
    else
      CollectedBefore(demands, i);
      Where(backend, fields, filters, demands, i - 1)
      + FilterClause(backend, fields, filters[i - 1], 1 + |Collect(demands[..i - 1]).value|, |demands[i - 1].value|)
  }

  lemma CollectedBefore(demands: seq<Result<seq<Bind>, QueryError>>, i: nat)
    requires 0 < i <= |demands| && Collect(demands[..i]).Ok?
    ensures Collect(demands[..i - 1]).Ok? && demands[i - 1].Ok?
    ensures Collect(demands[..i]).value == Collect(demands[..i - 1]).value + demands[i - 1].value
  {
    assert demands[..i][..i - 1] == demands[..i - 1];
  }

  function FilterClauses(backend: Backend, fields: seq<Field>, filters: seq<Filter>): seq<Sql>
    requires Demands(fields, filters).Ok?
  {
    var demands := DemandList(fields, filters);
    assert demands[..|filters|] == demands;
    Where(backend, fields, filters, demands, |filters|)
  }

  /** What a filter fails to compile with: its field, the backend, or the value it carries. */
  ghost predicate FilterFails(backend: Backend, fields: seq<Field>, f: Filter, e: QueryError) {
    && f.field != "tenant_id"
    && match FieldNamed(fields, f.field)
       case None => e == UnknownField
       case Some(field) =>
         if FieldExpression(backend, field).None? then e == BackendFieldUnavailable
         else
           && Demand(field, f.operator, f.value).Err?
           && e == if f.value.None? && !IsListOperator(f.operator) then MissingFilterValue else InvalidFilterValue
  }

  /** Filter `i` is the first that does not compile. */
  ghost predicate FailsAt(backend: Backend, fields: seq<Field>, filters: seq<Filter>, i: nat, e: QueryError) {
    && i < |filters| && AllAvailable(backend, fields, filters[..i]) && Demands(fields, filters[..i]).Ok?
    && FilterFails(backend, fields, filters[i], e)
  }

  lemma FilterFailsAt(
      backend: Backend, fields: seq<Field>, filters: seq<Filter>, demands: seq<Result<seq<Bind>, QueryError>>, i: nat,
      e: QueryError)
    requires i < |filters| && demands == DemandList(fields, filters) && Collect(demands[..i]).Ok?
    requires AllAvailable(backend, fields, filters[..i]) && FilterFails(backend, fields, filters[i], e)
    ensures exists j :: FailsAt(backend, fields, filters, j, e)
  {
    assert DemandList(fields, filters[..i]) == demands[..i];
    assert FailsAt(backend, fields, filters, i, e);
  }

  method AddFilter(
      backend: Backend, fields: seq<Field>, f: Filter, clauses: seq<Sql>, binds: seq<Bind>,
      ghost from: nat, ghost demand: Result<seq<Bind>, QueryError>)
    returns (r: Result<seq<Sql>, QueryError>, binds': seq<Bind>)
    requires Aligned(Holes(Joined(clauses, " AND ")), binds, from) && demand == FilterDemand(fields, f)
    ensures r.Ok? <==> demand.Ok? && FilterAvailable(backend, fields, f)
    ensures r.Err? ==> FilterFails(backend, fields, f, r.error)
    ensures r.Ok? ==>
      && binds' == binds + demand.value
      && Aligned(Holes(Joined(r.value, " AND ")), binds', from)
      && r.value == clauses + FilterClause(backend, fields, f, |binds|, |demand.value|)
  {
    if f.field == "tenant_id" {
      return Ok(clauses), binds;
    }
    var field := FieldNamed(fields, f.field);
    if field.None? {
      return Err(UnknownField), binds;
    }
    var clause;
    clause, binds' := FilterPredicate(backend, field.value, f.operator, f.value, binds);
    if clause.Err? {
      return Err(clause.error), binds;
    }
    JoinedHoles(clauses, clause.value, " AND ");
    AlignedConcat(
      Holes(Joined(clauses, " AND ")), Holes(clause.value), binds, demand.value, from);
    return Ok(clauses + [clause.value]), binds';
  }

  /** What the first `i` filters ask for is bound behind the tenant. */
  ghost predicate Binds(demands: seq<Result<seq<Bind>, QueryError>>, i: nat, tenant: string, binds: seq<Bind>) {
    && i <= |demands|
    && Collect(demands[..i]).Ok?
    && binds == [TextBind(tenant)] + Collect(demands[..i]).value
  }

  lemma BindsNext(
      demands: seq<Result<seq<Bind>, QueryError>>, i: nat, tenant: string, binds: seq<Bind>, more: seq<Bind>)
    requires Binds(demands, i, tenant, binds) && i < |demands| && demands[i] == Ok(more)
    ensures Binds(demands, i + 1, tenant, binds + more)
  {
    var collected := Collect(demands[..i]).value;
    assert demands[..i + 1][..i] == demands[..i];
    assert [TextBind(tenant)] + collected + more == [TextBind(tenant)] + (collected + more);
  }

  lemma WhereNext(
      backend: Backend, fields: seq<Field>, filters: seq<Filter>, demands: seq<Result<seq<Bind>, QueryError>>, i: nat, first: seq<Sql>)
    requires i < |filters| == |demands| && Collect(demands[..i + 1]).Ok? && Collect(demands[..i]).Ok? && demands[i].Ok?
    ensures first + Where(backend, fields, filters, demands, i + 1)
      == first + Where(backend, fields, filters, demands, i)
         + FilterClause(backend, fields, filters[i], 1 + |Collect(demands[..i]).value|, |demands[i].value|)
  {
  }

  /** The first `i` filters are all available, bound behind the tenant, and turned into clauses. */
  ghost predicate Filtered(
      backend: Backend, fields: seq<Field>, filters: seq<Filter>, demands: seq<Result<seq<Bind>, QueryError>>, i: nat,
      tenant: string, first: seq<Sql>, clauses: seq<Sql>, binds: seq<Bind>)
  {
    && i <= |filters| == |demands| && Binds(demands, i, tenant, binds)
    && clauses == first + Where(backend, fields, filters, demands, i)
    && AllAvailable(backend, fields, filters[..i])
  }

  lemma FilteredNext(
      backend: Backend, fields: seq<Field>, filters: seq<Filter>, demands: seq<Result<seq<Bind>, QueryError>>, i: nat,
      tenant: string, first: seq<Sql>, clauses: seq<Sql>, binds: seq<Bind>)
    requires Filtered(backend, fields, filters, demands, i, tenant, first, clauses, binds)
    requires i < |filters| && demands[i].Ok? && FilterAvailable(backend, fields, filters[i])
    ensures Filtered(
      backend, fields, filters, demands, i + 1, tenant, first,
      clauses + FilterClause(backend, fields, filters[i], |binds|, |demands[i].value|), binds + demands[i].value)
  {
    BindsNext(demands, i, tenant, binds, demands[i].value);
    WhereNext(backend, fields, filters, demands, i, first);
    AvailableNext(backend, fields, filters, i);
  }

  method Predicates(backend: Backend, fields: seq<Field>, filters: seq<Filter>, tenant: string, inSource: bool)
    returns (r: Result<seq<Sql>, QueryError>, binds: seq<Bind>)
    ensures r.Ok? <==> Demands(fields, filters).Ok? && AllAvailable(backend, fields, filters)
    ensures r.Err? ==> exists i :: FailsAt(backend, fields, filters, i, r.error)
    ensures r.Ok? ==> binds == [TextBind(tenant)] + Demands(fields, filters).value
    ensures r.Ok? ==> Aligned(Holes(Joined(r.value, " AND ")), binds, if inSource then 1 else 0)
    ensures r.Ok? ==>
      r.value == TenantPredicates(inSource) + FilterClauses(backend, fields, filters)
  {
    TenantPredicateHoles(inSource, tenant);
    ghost var demands := DemandList(fields, filters);
    assert demands[..|filters|] == demands && demands[..0] == [] && filters[..0] == [];
    r, binds := AddFilters(
      backend, fields, filters, tenant, TenantPredicates(inSource), if inSource then 1 else 0, demands);
  }

  method AddFilters(
      backend: Backend, fields: seq<Field>, filters: seq<Filter>, tenant: string, first: seq<Sql>, ghost from: nat,
      ghost demands: seq<Result<seq<Bind>, QueryError>>)
    returns (r: Result<seq<Sql>, QueryError>, binds: seq<Bind>)
    requires demands == DemandList(fields, filters)
    requires Aligned(Holes(Joined(first, " AND ")), [TextBind(tenant)], from)
    ensures r.Ok? <==> Collect(demands[..|filters|]).Ok? && AllAvailable(backend, fields, filters)
    ensures r.Err? ==> exists i :: FailsAt(backend, fields, filters, i, r.error)
    ensures r.Ok? ==> Filtered(backend, fields, filters, demands, |filters|, tenant, first, r.value, binds)
    ensures r.Ok? ==> Aligned(Holes(Joined(r.value, " AND ")), binds, from)
  {
    binds := [TextBind(tenant)];
    var clauses := first;
    assert demands[..|filters|] == demands && demands[..0] == [] && filters[..0] == [];
    for i := 0 to |filters|
      invariant Filtered(backend, fields, filters, demands, i, tenant, first, clauses, binds)
      invariant Aligned(Holes(Joined(clauses, " AND ")), binds, from)
    {
      var added, binds' := AddFilter(backend, fields, filters[i], clauses, binds, from, demands[i]);
      if added.Err? {
        if demands[i].Err? {
          CollectFails(demands, i);
        }
        AvailableNext(backend, fields, filters, i);
        FilterFailsAt(backend, fields, filters, demands, i, added.error);
        return Err(added.error), binds;
      }
      FilteredNext(backend, fields, filters, demands, i, tenant, first, clauses, binds);
      clauses, binds := added.value, binds';
    }
    assert filters[..|filters|] == filters;
    return Ok(clauses), binds;
  }

  /******* The statement *******/

  /** The text of a select list, grouping, ordering and limit, which holds no placeholder. */
  datatype Frame = Frame(select: string, group: string, limit: string)

  datatype Ordering = Ordering(output: nat, ascending: bool)

  datatype Compiled = Compiled(sql: Sql, binds: seq<Bind>, outputs: seq<Output>, orderings: seq<Ordering>, limit: nat)

  function Decimal(n: nat): string {
    (if n < 10 then "" else Decimal(n / 10)) + [(n % 10 + '0' as int) as char]
  }

  function OrderText(orderings: seq<Ordering>): string {
    if orderings == [] then ""
    else
      var n := |orderings| - 1;
      OrderText(orderings[..n]) + OrderStart(n) + OrderItem(orderings[n])
  }

  function OrderStart(n: nat): string {
    if n == 0 then " ORDER BY " else ", "
  }

  function OrderItem(o: Ordering): string {
    "c" + Decimal(o.output) + if o.ascending then " ASC" else " DESC"
  }

  function Statement(frame: Frame, from: Sql, clauses: seq<Sql>, order: string): Sql {
    [Fixed("SELECT " + frame.select + " FROM ")]
    + from
    + [Fixed(if clauses == [] then "" else " WHERE ")]
    + Joined(clauses, " AND ")
    + [Fixed(frame.group + order + frame.limit)]
  }

  lemma StatementHoles(frame: Frame, from: Sql, clauses: seq<Sql>, order: string)
    ensures Holes(Statement(frame, from, clauses, order)) == Holes(from) + Holes(Joined(clauses, " AND "))
  {
    var a, b := [Fixed("SELECT " + frame.select + " FROM ")], [Fixed(if clauses == [] then "" else " WHERE ")];
    var joined, end := Joined(clauses, " AND "), [Fixed(frame.group + order + frame.limit)];
    OneFixed(a[0].s);
    OneFixed(b[0].s);
    OneFixed(end[0].s);
    HolesConcat(a, from);
    HolesConcat(a + from, b);
    HolesConcat(a + from + b, joined);
    HolesConcat(a + from + b + joined, end);
  }

  /** The tenant's placeholders. */
  function TenantHoles(holes: seq<Placeholder>): nat {
    if holes == [] then 0
    else TenantHoles(holes[..|holes| - 1]) + if holes[|holes| - 1] == TENANT_HOLE then 1 else 0
  }

  lemma {:induction false} TenantHolesConcat(a: seq<Placeholder>, b: seq<Placeholder>)
    ensures TenantHoles(a + b) == TenantHoles(a) + TenantHoles(b)
  {
    if b == [] {
      assert a + b == a;
    } else {
      var n := |b| - 1;
      TenantHolesConcat(a, b[..n]);
      assert (a + b)[..|a| + n] == a + b[..n];
    }
  }

  lemma {:induction false} RepeatedTenantHoles(n: nat)
    ensures TenantHoles(Repeat(TENANT_HOLE, n)) == n
  {
    if n > 0 {
      RepeatedTenantHoles(n - 1);
      TenantHolesConcat([TENANT_HOLE], Repeat(TENANT_HOLE, n - 1));
      assert [TENANT_HOLE][..0] == [];
    }
  }

  lemma {:induction false} LaterHolesAreNotTenants(holes: seq<Placeholder>)
    requires forall h | h in holes :: h.position != 1
    ensures TenantHoles(holes) == 0
  {
    if holes != [] {
      var front := holes[..|holes| - 1];
      assert holes[|holes| - 1] in holes;
      forall h | h in front ensures h.position != 1 {
        assert h in holes;
      }
      LaterHolesAreNotTenants(front);
    }
  }

  lemma {:induction false} TenantOnceInWhere(holes: seq<Placeholder>, binds: seq<Bind>)
    requires Aligned(holes, binds, 0) && holes != [] && holes[0] == TENANT_HOLE
    ensures TenantHoles(holes) == 1
  {
    var rest := holes[1..];
    assert holes == [TENANT_HOLE] + rest;
    TenantHolesConcat([TENANT_HOLE], rest);
    assert [TENANT_HOLE][..0] == [];
    forall h | h in rest ensures h.position != 1 {
      var k :| 0 <= k < |rest| && rest[k] == h;
      assert rest[k] == holes[k + 1];
    }
    LaterHolesAreNotTenants(rest);
  }

  lemma WhereHoles(clauses: seq<Sql>)
    requires TenantPredicates(false) <= clauses
    ensures var holes := Holes(Joined(clauses, " AND ")); holes != [] && holes[0] == TENANT_HOLE
    decreases |clauses|
  {
    if |clauses| == 1 {
      TenantPredicateHoles(false, "");
      assert clauses == TenantPredicates(false);
    } else {
      var front := clauses[..|clauses| - 1];
      WhereHoles(front);
      JoinedHoles(front, clauses[|clauses| - 1], " AND ");
      assert clauses == front + [clauses[|clauses| - 1]];
    }
  }

  /** The tenant's placeholders in the whole statement: those in the source, or else the one in front of the filters. */
  ghost predicate Scoped(sql: Sql, binds: seq<Bind>, tenant: string, markers: nat) {
    && binds != [] && binds[0] == TextBind(tenant)
    && TenantHoles(Holes(sql)) == (if markers == 0 then 1 else markers)
    && (Aligned(Holes(sql), binds, 0) <==> markers <= 1)
  }

  lemma SourceScoped(from: Sql, sql: Sql, holes: seq<Placeholder>, binds: seq<Bind>, tenant: string, markers: nat)
    requires markers >= 1 && Holes(from) == Repeat(TENANT_HOLE, markers) && Holes(sql) == Holes(from) + holes
    requires binds != [] && binds[0] == TextBind(tenant) && Aligned(holes, binds, 1)
    ensures Scoped(sql, binds, tenant, markers)
  {
    RepeatedTenantHoles(markers);
    TenantHolesConcat(Holes(from), holes);
    forall h | h in holes ensures h.position != 1 {
      var k :| 0 <= k < |holes| && holes[k] == h;
    }
    LaterHolesAreNotTenants(holes);
  }

  lemma WhereScoped(from: Sql, sql: Sql, holes: seq<Placeholder>, binds: seq<Bind>, tenant: string)
    requires Holes(from) == [] && Holes(sql) == Holes(from) + holes
    requires holes != [] && holes[0] == TENANT_HOLE
    requires binds != [] && binds[0] == TextBind(tenant) && Aligned(holes, binds, 0)
    ensures Scoped(sql, binds, tenant, 0)
  {
    assert Holes(sql) == holes;
    TenantOnceInWhere(holes, binds);
  }

  method ResolveOrders(r: Request, outputs: seq<Output>) returns (o: Result<seq<Ordering>, QueryError>)
    requires outputs == Outputs(r)
    ensures o.Ok? <==> forall x | x in r.orders :: Resolves(r, x.field)
    ensures o.Ok? ==> |o.value| == |r.orders|
    ensures o.Ok? ==> forall k | 0 <= k < |r.orders| ::
      && ResolveOrder(outputs, r.orders[k].field) == Some(o.value[k].output)
      && o.value[k].ascending == r.orders[k].ascending
    ensures o.Err? ==> o.error == UnknownOrderField
  {
    var orderings: seq<Ordering> := [];
    for i := 0 to |r.orders|
      invariant |orderings| == i
      invariant forall k | 0 <= k < i ::
        && ResolveOrder(outputs, r.orders[k].field) == Some(orderings[k].output)
        && orderings[k].ascending == r.orders[k].ascending
    {
      var at := ResolveOrder(outputs, r.orders[i].field);
      if at.None? {
        assert r.orders[i] in r.orders;
        return Err(UnknownOrderField);
      }
      orderings := orderings + [Ordering(at.value, r.orders[i].ascending)];
    }
    return Ok(orderings);
  }

  /** Every selected field has an expression on the backend. */
  predicate SelectionAvailable(backend: Backend, fields: seq<Field>, r: Request) {
    && (forall d | d in r.dimensions :: Available(backend, fields, d.field))
    && (forall m | m in r.measures && m.field.Some? :: Available(backend, fields, m.field.value))
  }

  ghost predicate Compilable(backend: Backend, dataset: Dataset, r: Request, now: int, parse: Parser) {
    && Acceptable(dataset, r, now, parse)
    && SelectionAvailable(backend, dataset.fields, r)
    && RawSource(backend, dataset).Some?
    && AllAvailable(backend, dataset.fields, r.filters)
    && Demands(dataset.fields, r.filters).Ok?
    && (forall o | o in r.orders :: Resolves(r, o.field))
  }

  /** What a request fails to compile with: the first step that refuses it. */
  ghost predicate CompileFault(
      backend: Backend, dataset: Dataset, r: Request, now: int, parse: Parser, e: QueryError)
  {
    if !Acceptable(dataset, r, now, parse) then RequestFault(dataset, r, now, parse, e)
    else if !SelectionAvailable(backend, dataset.fields, r) || RawSource(backend, dataset).None? then
      e == BackendFieldUnavailable
    else if !AllAvailable(backend, dataset.fields, r.filters) || Demands(dataset.fields, r.filters).Err? then
      exists i :: FailsAt(backend, dataset.fields, r.filters, i, e)
    else e == UnknownOrderField
  }

  /** The whole statement: the tenant's predicate unless the source holds it, then the filters' in order. */
  ghost function CompiledSql(backend: Backend, dataset: Dataset, r: Request, frame: Frame, orderings: seq<Ordering>): Sql
    requires RawSource(backend, dataset).Some? && Demands(dataset.fields, r.filters).Ok?
  {
    var raw := RawSource(backend, dataset).value;
    var clauses := TenantPredicates(SourceMarkers(backend, raw) > 0) + FilterClauses(backend, dataset.fields, r.filters);
    Statement(frame, From(backend, raw), clauses, OrderText(orderings))
  }

  method Compile(backend: Backend, dataset: Dataset, r: Request, now: int, parse: Parser, frame: Frame)
    returns (c: Result<Compiled, QueryError>)
    ensures c.Ok? <==> Compilable(backend, dataset, r, now, parse)
    ensures c.Err? ==> CompileFault(backend, dataset, r, now, parse, c.error)
    ensures c.Ok? ==>
      && c.value.binds == [TextBind(r.tenant.value)] + Demands(dataset.fields, r.filters).value
      && Scoped(
           c.value.sql, c.value.binds, r.tenant.value, SourceMarkers(backend, RawSource(backend, dataset).value))
    ensures c.Ok? ==> c.value.sql == CompiledSql(backend, dataset, r, frame, c.value.orderings)
    ensures c.Ok? ==> c.value.outputs == Outputs(r) && c.value.limit == Limit(r) && |c.value.orderings| == |r.orders|
    ensures c.Ok? ==> forall k | 0 <= k < |r.orders| ::
      && ResolveOrder(Outputs(r), r.orders[k].field) == Some(c.value.orderings[k].output)
      && c.value.orderings[k].ascending == r.orders[k].ascending
  {
    var validated := ValidateQuery(dataset, r, now, parse);
    if validated.Err? {
      return Err(validated.error);
    }
    if !SelectionAvailable(backend, dataset.fields, r) {
      return Err(BackendFieldUnavailable);
    }
    var raw := RawSource(backend, dataset);
    if raw.None? {
      return Err(BackendFieldUnavailable);
    }
    var tenant := validated.value.tenant;
    var markers := SourceMarkers(backend, raw.value);
    var from := From(backend, raw.value);
    var clauses, binds := Predicates(backend, dataset.fields, r.filters, tenant, markers > 0);
    if clauses.Err? {
      return Err(clauses.error);
    }
    var orderings := ResolveOrders(r, Outputs(r));
    if orderings.Err? {
      return Err(orderings.error);
    }
    var sql := Statement(frame, from, clauses.value, OrderText(orderings.value));
    FromHoles(backend, raw.value);
    StatementHoles(frame, from, clauses.value, OrderText(orderings.value));
    if markers > 0 {
      SourceScoped(from, sql, Holes(Joined(clauses.value, " AND ")), binds, tenant, markers);
    } else {
      WhereHoles(clauses.value);
      WhereScoped(from, sql, Holes(Joined(clauses.value, " AND ")), binds, tenant);
    }
    return Ok(Compiled(sql, binds, Outputs(r), orderings.value, validated.value.limit));
  }
}
