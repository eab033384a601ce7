/** Which requests the validator accepts, and the time window an accepted one is confined to. */
module QueryValidation {
  import opened Prelude
  import opened QueryModel

  const DEFAULT_LIMIT := 100
  const MAX_LIMIT := 1000
  const MAX_DIMENSIONS := 6
  const MAX_MEASURES := 12
  const MAX_FILTERS := 20
  const MAX_DAYS := 366

  /** Instants are counted in nanoseconds. */
  const DAY := 86_400_000_000_000

  type Parser = string -> Option<int>

  datatype Validated = Validated(request: Request, limit: nat, tenant: string)

  /** `Duration::num_days`: whole days, rounded toward zero. */
  function WholeDays(d: int): int {
    if d >= 0 then d / DAY else -((-d) / DAY)
  }

  function Abs(n: int): nat { if n < 0 then -n else n }

  /******* What is accepted *******/

  predicate DimensionOk(d: Dimension, fields: seq<Field>) {
    var field := FieldNamed(fields, d.field);
    field.Some? && field.value.role == DimensionRole
  }

  predicate MeasureOk(m: Measure, fields: seq<Field>) {
    match m.field
    case None => m.aggregation == Count
    case Some(id) =>
      var field := FieldNamed(fields, id);
      field.Some? && field.value.role == MeasureRole && m.aggregation in field.value.aggregations
  }

  predicate NeedsValue(op: Operator) {
    op != IsNull && op != IsNotNull
  }

  predicate TenantFilterOk(f: Filter, tenant: string) {
    f.field == "tenant_id" ==> f.operator == Eq && f.value == Some(TextCell(tenant))
  }

  /** The two instants of a timestamp range. */
  function RangeOf(value: Option<Cell>, parse: Parser): Option<(int, int)> {
    match value
    case Some(JsonCell(JsonArray(items))) =>
      if |items| == 2 && items[0].JsonText? && items[1].JsonText? && parse(items[0].s).Some? && parse(items[1].s).Some?
      then Some((parse(items[0].s).value, parse(items[1].s).value))
      else None
    case _ => None
  }

  function InstantOf(value: Option<Cell>, parse: Parser): Option<int> {
    match value
    case Some(TextCell(s)) => parse(s)
    case _ => None
  }

  predicate RangeOk(field: Field, f: Filter, parse: Parser) {
    field.kind == TimestampKind && f.operator == Between ==>
      var range := RangeOf(f.value, parse);
      range.Some? && Abs(WholeDays(range.value.1 - range.value.0)) <= MAX_DAYS
  }

  predicate FilterOk(f: Filter, fields: seq<Field>, tenant: string, parse: Parser) {
    var field := FieldNamed(fields, f.field);
    && field.Some?
    && f.operator in field.value.operators
    && (NeedsValue(f.operator) ==> f.value.Some?)
    && TenantFilterOk(f, tenant)
    && RangeOk(field.value, f, parse)
  }

  predicate LowerBoundOk(f: Filter, now: int, parse: Parser) {
    f.operator == Gte || f.operator == Gt ==>
      var start := InstantOf(f.value, parse);
      start.Some? && WholeDays(now - start.value) <= MAX_DAYS
  }

  predicate ClosesWindow(f: Filter) {
    f.operator == Between || f.operator == Eq || f.operator == Gte || f.operator == Gt
  }

  predicate WindowOk(timeField: Option<string>, filters: seq<Filter>, now: int, parse: Parser) {
    timeField.Some? ==>
      && (forall f | f in filters && f.field == timeField.value :: LowerBoundOk(f, now, parse))
      && (exists f :: f in filters && f.field == timeField.value && ClosesWindow(f))
  }

  predicate SelectedByDimension(d: Dimension, field: string) {
    d.field == field || d.alias == Some(field)
  }

  predicate SelectedByMeasure(m: Measure, field: string) {
    || m.field == Some(field)
    || m.alias == Some(field)
    || (m.field.Some? && DefaultName(m) == field)
    || (m.field.None? && m.aggregation == Count && field == "count")
  }

  predicate Selected(r: Request, field: string) {
    || (exists d :: d in r.dimensions && SelectedByDimension(d, field))
    || (exists m :: m in r.measures && SelectedByMeasure(m, field))
  }

  function Limit(r: Request): nat {
    if r.limit.Some? then r.limit.value else DEFAULT_LIMIT
  }

  ghost predicate Acceptable(dataset: Dataset, r: Request, now: int, parse: Parser) {
    && r.tenant.Some?
    && (r.dimensions != [] || r.measures != [])
    && |r.dimensions| <= MAX_DIMENSIONS
    && |r.measures| <= MAX_MEASURES
    && |r.filters| <= MAX_FILTERS
    && Limit(r) <= MAX_LIMIT
    && (forall d | d in r.dimensions :: DimensionOk(d, dataset.fields))
    && (forall m | m in r.measures :: MeasureOk(m, dataset.fields))
    && (forall f | f in r.filters :: FilterOk(f, dataset.fields, r.tenant.value, parse))
    && WindowOk(dataset.timeField, r.filters, now, parse)
    && (forall o | o in r.orders :: Selected(r, o.field))
  }

  /******* What is wrong with the rest *******/

  ghost predicate DimensionFault(d: Dimension, fields: seq<Field>, e: QueryError) {
    var field := FieldNamed(fields, d.field);
    || (e == UnknownField && field.None?)
    || (e == UnsupportedRole && field.Some? && field.value.role != DimensionRole)
  }

  ghost predicate MeasureFault(m: Measure, fields: seq<Field>, e: QueryError) {
    match m.field
    case None => e == MissingMeasureField && m.aggregation != Count
    case Some(id) =>
      var field := FieldNamed(fields, id);
      || (e == UnknownField && field.None?)
      || (e == UnsupportedRole && field.Some? && field.value.role != MeasureRole)
      || (e == UnsupportedAggregation && field.Some? && field.value.role == MeasureRole
          && m.aggregation !in field.value.aggregations)
  }

  ghost predicate RangeFault(field: Field, f: Filter, parse: Parser, e: QueryError) {
    && field.kind == TimestampKind && f.operator == Between
    && var range := RangeOf(f.value, parse);
       || (e == InvalidFilterValue && range.None?)
       || (e == TimeWindowTooLarge && range.Some? && Abs(WholeDays(range.value.1 - range.value.0)) > MAX_DAYS)
  }

  /** The filter fails, and this is the first thing wrong with it. */
  ghost predicate FilterFault(f: Filter, fields: seq<Field>, tenant: string, parse: Parser, e: QueryError) {
    var field := FieldNamed(fields, f.field);
    if field.None? then e == UnknownField
    else if f.operator !in field.value.operators then e == UnsupportedOperator
    else if NeedsValue(f.operator) && f.value.None? then e == MissingFilterValue
    else if !TenantFilterOk(f, tenant) then e == ConflictingTenantFilter
    else RangeFault(field.value, f, parse, e)
  }

  ghost predicate LowerBoundFault(f: Filter, now: int, parse: Parser, e: QueryError) {
    && (f.operator == Gte || f.operator == Gt)
    && var start := InstantOf(f.value, parse);
       || (e == InvalidFilterValue && start.None?)
       || (e == TimeWindowTooLarge && start.Some? && WholeDays(now - start.value) > MAX_DAYS)
  }

  ghost predicate FirstDimension(ds: seq<Dimension>, fields: seq<Field>, i: nat, e: QueryError) {
    i < |ds| && (forall k | 0 <= k < i :: DimensionOk(ds[k], fields)) && DimensionFault(ds[i], fields, e)
  }

  ghost predicate FirstMeasure(ms: seq<Measure>, fields: seq<Field>, i: nat, e: QueryError) {
    i < |ms| && (forall k | 0 <= k < i :: MeasureOk(ms[k], fields)) && MeasureFault(ms[i], fields, e)
  }

  ghost predicate FirstFilter(
      filters: seq<Filter>, fields: seq<Field>, tenant: string, parse: Parser, i: nat, e: QueryError)
  {
    && i < |filters| && (forall k | 0 <= k < i :: FilterOk(filters[k], fields, tenant, parse))
    && FilterFault(filters[i], fields, tenant, parse, e)
  }

  ghost predicate FirstBound(filters: seq<Filter>, timeField: string, now: int, parse: Parser, i: nat, e: QueryError) {
    && i < |filters| && filters[i].field == timeField
    && (forall k | 0 <= k < i && filters[k].field == timeField :: LowerBoundOk(filters[k], now, parse))
    && LowerBoundFault(filters[i], now, parse, e)
  }

  /** The first dimension at fault or else the first measure. */
  ghost predicate SelectionFault(fields: seq<Field>, r: Request, e: QueryError) {
    if forall d | d in r.dimensions :: DimensionOk(d, fields) then exists i :: FirstMeasure(r.measures, fields, i, e)
    else exists i :: FirstDimension(r.dimensions, fields, i, e)
  }

  ghost predicate FiltersFault(fields: seq<Field>, filters: seq<Filter>, tenant: string, parse: Parser, e: QueryError) {
    exists i :: FirstFilter(filters, fields, tenant, parse, i, e)
  }

  /** The first lower bound at fault, or no filter that closes the window. */
  ghost predicate WindowFault(timeField: string, filters: seq<Filter>, now: int, parse: Parser, e: QueryError) {
    if forall f | f in filters && f.field == timeField :: LowerBoundOk(f, now, parse) then e == MissingTimeWindow
    else exists i :: FirstBound(filters, timeField, now, parse, i, e)
  }

  /** What a refused request is refused with: the first check it fails. */
  ghost predicate RequestFault(dataset: Dataset, r: Request, now: int, parse: Parser, e: QueryError) {
    if r.tenant.None? then e == MissingTenantScope
    else if r.dimensions == [] && r.measures == [] then e == EmptySelection
    else if |r.dimensions| > MAX_DIMENSIONS then e == TooManyDimensions
    else if |r.measures| > MAX_MEASURES then e == TooManyMeasures
    else if |r.filters| > MAX_FILTERS then e == TooManyFilters
    else if Limit(r) > MAX_LIMIT then e == LimitTooLarge
    else if !((forall d | d in r.dimensions :: DimensionOk(d, dataset.fields))
              && (forall m | m in r.measures :: MeasureOk(m, dataset.fields))) then
      SelectionFault(dataset.fields, r, e)
    else if !(forall f | f in r.filters :: FilterOk(f, dataset.fields, r.tenant.value, parse)) then
      FiltersFault(dataset.fields, r.filters, r.tenant.value, parse, e)
    else if !WindowOk(dataset.timeField, r.filters, now, parse) then
      dataset.timeField.Some? && WindowFault(dataset.timeField.value, r.filters, now, parse, e)
    else e == UnknownOrderField
  }

  lemma FirstDimensionOnce(ds: seq<Dimension>, fields: seq<Field>, i: nat, a: QueryError, j: nat, b: QueryError)
    requires FirstDimension(ds, fields, i, a) && FirstDimension(ds, fields, j, b)
    ensures a == b
  {
    assert !DimensionOk(ds[i], fields) && !DimensionOk(ds[j], fields);
  }

  lemma FirstMeasureOnce(ms: seq<Measure>, fields: seq<Field>, i: nat, a: QueryError, j: nat, b: QueryError)
    requires FirstMeasure(ms, fields, i, a) && FirstMeasure(ms, fields, j, b)
    ensures a == b
  {
    assert !MeasureOk(ms[i], fields) && !MeasureOk(ms[j], fields);
  }

  lemma FilterFaultOnce(f: Filter, fields: seq<Field>, tenant: string, parse: Parser, a: QueryError, b: QueryError)
    requires FilterFault(f, fields, tenant, parse, a)
    ensures !FilterOk(f, fields, tenant, parse) && (FilterFault(f, fields, tenant, parse, b) ==> a == b)
  {
  }

  lemma FirstFilterOnce(
      filters: seq<Filter>, fields: seq<Field>, tenant: string, parse: Parser, i: nat, a: QueryError, j: nat, b: QueryError)
    requires FirstFilter(filters, fields, tenant, parse, i, a) && FirstFilter(filters, fields, tenant, parse, j, b)
    ensures a == b
  {
    FilterFaultOnce(filters[i], fields, tenant, parse, a, b);
    FilterFaultOnce(filters[j], fields, tenant, parse, b, a);
    assert i == j;
  }

  lemma FirstBoundOnce(
      filters: seq<Filter>, timeField: string, now: int, parse: Parser, i: nat, a: QueryError, j: nat, b: QueryError)
    requires FirstBound(filters, timeField, now, parse, i, a) && FirstBound(filters, timeField, now, parse, j, b)
    ensures a == b
  {
    assert !LowerBoundOk(filters[i], now, parse) && !LowerBoundOk(filters[j], now, parse);
  }

  lemma SelectionFaultOnce(fields: seq<Field>, r: Request, a: QueryError, b: QueryError)
    requires SelectionFault(fields, r, a) && SelectionFault(fields, r, b)
    ensures a == b
  {
    if forall d | d in r.dimensions :: DimensionOk(d, fields) {
      var i :| FirstMeasure(r.measures, fields, i, a);
      var j :| FirstMeasure(r.measures, fields, j, b);
      FirstMeasureOnce(r.measures, fields, i, a, j, b);
    } else {
      var i :| FirstDimension(r.dimensions, fields, i, a);
      var j :| FirstDimension(r.dimensions, fields, j, b);
      FirstDimensionOnce(r.dimensions, fields, i, a, j, b);
    }
  }

  lemma FiltersFaultOnce(
      fields: seq<Field>, filters: seq<Filter>, tenant: string, parse: Parser, a: QueryError, b: QueryError)
    requires FiltersFault(fields, filters, tenant, parse, a) && FiltersFault(fields, filters, tenant, parse, b)
    ensures a == b
  {
    var i :| FirstFilter(filters, fields, tenant, parse, i, a);
    var j :| FirstFilter(filters, fields, tenant, parse, j, b);
    FirstFilterOnce(filters, fields, tenant, parse, i, a, j, b);
  }

  lemma WindowFaultOnce(timeField: string, filters: seq<Filter>, now: int, parse: Parser, a: QueryError, b: QueryError)
    requires WindowFault(timeField, filters, now, parse, a) && WindowFault(timeField, filters, now, parse, b)
    ensures a == b
  {
    if !forall f | f in filters && f.field == timeField :: LowerBoundOk(f, now, parse) {
      var i :| FirstBound(filters, timeField, now, parse, i, a);
      var j :| FirstBound(filters, timeField, now, parse, j, b);
      FirstBoundOnce(filters, timeField, now, parse, i, a, j, b);
    }
  }

  /** A refused request is refused with one error. */
  lemma FaultIsUnique(dataset: Dataset, r: Request, now: int, parse: Parser, a: QueryError, b: QueryError)
    requires RequestFault(dataset, r, now, parse, a) && RequestFault(dataset, r, now, parse, b)
    ensures a == b
  {
    if SelectionFault(dataset.fields, r, a) && SelectionFault(dataset.fields, r, b) {
      SelectionFaultOnce(dataset.fields, r, a, b);
    }
    if r.tenant.Some? {
      var tenant := r.tenant.value;
      if FiltersFault(dataset.fields, r.filters, tenant, parse, a) && FiltersFault(dataset.fields, r.filters, tenant, parse, b) {
        FiltersFaultOnce(dataset.fields, r.filters, tenant, parse, a, b);
      }
    }
    if dataset.timeField.Some? {
      var time := dataset.timeField.value;
      if WindowFault(time, r.filters, now, parse, a) && WindowFault(time, r.filters, now, parse, b) {
        WindowFaultOnce(time, r.filters, now, parse, a, b);
      }
    }
  }

  /******* The validator *******/

  method CheckDimension(fields: seq<Field>, d: Dimension) returns (e: Option<QueryError>)
    ensures e.None? <==> DimensionOk(d, fields)
    ensures e.Some? ==> DimensionFault(d, fields, e.value)
  {
    var field := FieldNamed(fields, d.field);
    if field.None? {
      return Some(UnknownField);
    }
    if field.value.role != DimensionRole {
      return Some(UnsupportedRole);
    }
    return None;
  }

  method CheckMeasure(fields: seq<Field>, m: Measure) returns (e: Option<QueryError>)
    ensures e.None? <==> MeasureOk(m, fields)
    ensures e.Some? ==> MeasureFault(m, fields, e.value)
  {
    if m.field.Some? {
      var field := FieldNamed(fields, m.field.value);
      if field.None? {
        return Some(UnknownField);
      }
      if field.value.role != MeasureRole {
        return Some(UnsupportedRole);
      }
      if m.aggregation !in field.value.aggregations {
        return Some(UnsupportedAggregation);
      }
    } else if m.aggregation != Count {
      return Some(MissingMeasureField);
    }
    return None;
  }

  method CheckSelection(dataset: Dataset, r: Request) returns (e: Option<QueryError>)
    ensures e.None? <==>
      && (forall d | d in r.dimensions :: DimensionOk(d, dataset.fields))
      && (forall m | m in r.measures :: MeasureOk(m, dataset.fields))
    ensures e.Some? ==> SelectionFault(dataset.fields, r, e.value)
  {
    for i := 0 to |r.dimensions|
      invariant forall k | 0 <= k < i :: DimensionOk(r.dimensions[k], dataset.fields)
    {
      e := CheckDimension(dataset.fields, r.dimensions[i]);
      if e.Some? {
        assert r.dimensions[i] in r.dimensions;
        assert FirstDimension(r.dimensions, dataset.fields, i, e.value);
        return;
      }
    }
    for i := 0 to |r.measures|
      invariant forall k | 0 <= k < i :: MeasureOk(r.measures[k], dataset.fields)
    {
      e := CheckMeasure(dataset.fields, r.measures[i]);
      if e.Some? {
        assert r.measures[i] in r.measures;
        assert FirstMeasure(r.measures, dataset.fields, i, e.value);
        return;
      }
    }
    return None;
  }

  method CheckRange(field: Field, f: Filter, parse: Parser) returns (e: Option<QueryError>)
    ensures e.None? <==> RangeOk(field, f, parse)
    ensures e.Some? ==> RangeFault(field, f, parse, e.value)
  {
    if field.kind != TimestampKind || f.operator != Between {
      return None;
    }
    var range := RangeOf(f.value, parse);
    if range.None? {
      return Some(InvalidFilterValue);
    }
    if Abs(WholeDays(range.value.1 - range.value.0)) > MAX_DAYS {
      return Some(TimeWindowTooLarge);
    }
    return None;
  }

  method CheckFilter(fields: seq<Field>, f: Filter, tenant: string, parse: Parser) returns (e: Option<QueryError>)
    ensures e.None? <==> FilterOk(f, fields, tenant, parse)
    ensures e.Some? ==> FilterFault(f, fields, tenant, parse, e.value)
  {
    var field := FieldNamed(fields, f.field);
    if field.None? {
      return Some(UnknownField);
    }
    if f.operator !in field.value.operators {
      return Some(UnsupportedOperator);
    }
    if f.value.None? && NeedsValue(f.operator) {
      return Some(MissingFilterValue);
    }
    if !TenantFilterOk(f, tenant) {
      return Some(ConflictingTenantFilter);
    }
    e := CheckRange(field.value, f, parse);
  }

  method CheckFilters(dataset: Dataset, filters: seq<Filter>, tenant: string, parse: Parser)
    returns (e: Option<QueryError>)
    ensures e.None? <==> forall f | f in filters :: FilterOk(f, dataset.fields, tenant, parse)
    ensures e.Some? ==> FiltersFault(dataset.fields, filters, tenant, parse, e.value)
  {
    for i := 0 to |filters|
      invariant forall k | 0 <= k < i :: FilterOk(filters[k], dataset.fields, tenant, parse)
    {
      e := CheckFilter(dataset.fields, filters[i], tenant, parse);
      if e.Some? {
        assert filters[i] in filters;
        assert FirstFilter(filters, dataset.fields, tenant, parse, i, e.value);
        return;
      }
    }
    return None;
  }

  method CheckLowerBound(f: Filter, now: int, parse: Parser) returns (e: Option<QueryError>)
    ensures e.None? <==> LowerBoundOk(f, now, parse)
    ensures e.Some? ==> LowerBoundFault(f, now, parse, e.value)
  {
    if f.operator == Gte || f.operator == Gt {
      var start := InstantOf(f.value, parse);
      if start.None? {
        return Some(InvalidFilterValue);
      }
      if WholeDays(now - start.value) > MAX_DAYS {
        return Some(TimeWindowTooLarge);
      }
    }
    return None;
  }

  method EnforceTimeWindow(timeField: Option<string>, filters: seq<Filter>, now: int, parse: Parser)
    returns (e: Option<QueryError>)
    ensures e.None? <==> WindowOk(timeField, filters, now, parse)
    ensures e.Some? ==> timeField.Some? && WindowFault(timeField.value, filters, now, parse, e.value)
  {
    if timeField.None? {
      return None;
    }
    var bounded := false;
    for i := 0 to |filters|
      invariant forall k | 0 <= k < i && filters[k].field == timeField.value :: LowerBoundOk(filters[k], now, parse)
      invariant bounded <==> exists k :: 0 <= k < i && filters[k].field == timeField.value && ClosesWindow(filters[k])
    {
      var f := filters[i];
      if f.field == timeField.value {
        e := CheckLowerBound(f, now, parse);
        if e.Some? {
          assert f in filters;
          assert FirstBound(filters, timeField.value, now, parse, i, e.value);
          return;
        }
        bounded := bounded || f.operator == Between || f.operator == Eq || f.operator == Gte || f.operator == Gt;
      }
    }
    if bounded {
      return None;
    }
    return Some(MissingTimeWindow);
  }

  method CheckOrders(r: Request) returns (e: Option<QueryError>)
    ensures e.None? <==> forall o | o in r.orders :: Selected(r, o.field)
    ensures e.Some? ==> e.value == UnknownOrderField
  {
    for i := 0 to |r.orders|
      invariant forall k | 0 <= k < i :: Selected(r, r.orders[k].field)
    {
      if !Selected(r, r.orders[i].field) {
        return Some(UnknownOrderField);
      }
    }
    return None;
  }

  method ValidateQuery(dataset: Dataset, r: Request, now: int, parse: Parser)
    returns (v: Result<Validated, QueryError>)
    ensures v.Ok? <==> Acceptable(dataset, r, now, parse)
    ensures v.Ok? ==> v.value == Validated(r, Limit(r), r.tenant.value)
    ensures v.Err? ==> RequestFault(dataset, r, now, parse, v.error)
  {
    if r.tenant.None? {
      return Err(MissingTenantScope);
    }
    if r.dimensions == [] && r.measures == [] {
      return Err(EmptySelection);
    }
    if |r.dimensions| > MAX_DIMENSIONS {
      return Err(TooManyDimensions);
    }
    if |r.measures| > MAX_MEASURES {
      return Err(TooManyMeasures);
    }
    if |r.filters| > MAX_FILTERS {
      return Err(TooManyFilters);
    }
    if Limit(r) > MAX_LIMIT {
      return Err(LimitTooLarge);
    }
    var selection := CheckSelection(dataset, r);
    if selection.Some? {
      return Err(selection.value);
    }
    var filters := CheckFilters(dataset, r.filters, r.tenant.value, parse);
    if filters.Some? {
      return Err(filters.value);
    }
    var window := EnforceTimeWindow(dataset.timeField, r.filters, now, parse);
    if window.Some? {
      return Err(window.value);
    }
    var orders := CheckOrders(r);
    if orders.Some? {
      return Err(orders.value);
    }
    return Ok(Validated(r, Limit(r), r.tenant.value));
  }

  /******* The window of an accepted query *******/

  /** A row with time `t` passes the filter. A point or range that names no instant admits no row. */
  ghost predicate Passes(t: int, f: Filter, parse: Parser) {
    match f.operator
    case Eq => InstantOf(f.value, parse) == Some(t)
    case Gt => InstantOf(f.value, parse).Some? && InstantOf(f.value, parse).value < t
    case Gte => InstantOf(f.value, parse).Some? && InstantOf(f.value, parse).value <= t
    case Between =>
      RangeOf(f.value, parse).Some? && RangeOf(f.value, parse).value.0 <= t <= RangeOf(f.value, parse).value.1
    case _ => true
  }

  ghost predicate PassesAll(t: int, timeField: string, filters: seq<Filter>, parse: Parser) {
    forall f | f in filters && f.field == timeField :: Passes(t, f, parse)
  }

  /** The day counts as spans of time: a range is at most, and a lower bound at most, just under 367 days. */
  lemma SpansExactly(field: Field, f: Filter, now: int, parse: Parser)
    ensures field.kind == TimestampKind && f.operator == Between ==>
      (RangeOk(field, f, parse) <==>
         exists low, high :: RangeOf(f.value, parse) == Some((low, high)) && Abs(high - low) < (MAX_DAYS + 1) * DAY)
    ensures f.operator == Gte || f.operator == Gt ==>
      (LowerBoundOk(f, now, parse) <==>
         exists start :: InstantOf(f.value, parse) == Some(start) && now - start < (MAX_DAYS + 1) * DAY)
  {
  }

  lemma WholeDaysBound(d: int)
    requires WholeDays(d) <= MAX_DAYS
    ensures d < (MAX_DAYS + 1) * DAY
  {
  }

  /** Where the window of a closing filter starts. */
  ghost function WindowStart(f: Filter, parse: Parser): int {
    match f.operator
    case Between => if RangeOf(f.value, parse).Some? then RangeOf(f.value, parse).value.0 else 0
    case _ => if InstantOf(f.value, parse).Some? then InstantOf(f.value, parse).value else 0
  }

  lemma ClosingFilterBounds(field: Field, f: Filter, t: int, now: int, parse: Parser)
    requires field.kind == TimestampKind && ClosesWindow(f)
    requires RangeOk(field, f, parse) && LowerBoundOk(f, now, parse)
    requires t <= now && Passes(t, f, parse)
    ensures WindowStart(f, parse) <= t < WindowStart(f, parse) + (MAX_DAYS + 1) * DAY
  {
    match f.operator
    case Between =>
      var range := RangeOf(f.value, parse).value;
      WholeDaysBound(range.1 - range.0);
    case Gte =>
      WholeDaysBound(now - InstantOf(f.value, parse).value);
    case Gt =>
      WholeDaysBound(now - InstantOf(f.value, parse).value);
    case _ =>
  }

  /** The rows dated no later than now that an accepted query reads lie in one window under 367 days. */
  lemma AcceptedWindowIsBounded(dataset: Dataset, r: Request, now: int, parse: Parser) returns (start: int)
    requires Acceptable(dataset, r, now, parse) && dataset.timeField.Some?
    requires forall f | f in dataset.fields && f.id == dataset.timeField.value :: f.kind == TimestampKind
    ensures forall t | t <= now && PassesAll(t, dataset.timeField.value, r.filters, parse) ::
      start <= t < start + (MAX_DAYS + 1) * DAY
  {
    var timeField := dataset.timeField.value;
    var f :| f in r.filters && f.field == timeField && ClosesWindow(f);
    start := WindowStart(f, parse);
    forall t | t <= now && PassesAll(t, timeField, r.filters, parse)
      ensures start <= t < start + (MAX_DAYS + 1) * DAY
    {
      assert FilterOk(f, dataset.fields, r.tenant.value, parse);
      ClosingFilterBounds(FieldNamed(dataset.fields, timeField).value, f, t, now, parse);
    }
  }
}
