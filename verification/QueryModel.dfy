/** Analytics requests, the catalog they are checked against, and the values their filters carry. */
module QueryModel {
  import opened Prelude

  datatype FieldKind = TextKind | UuidKind | TimestampKind | IntegerKind | FloatKind | BooleanKind | JsonKind

  datatype Role = DimensionRole | MeasureRole | FilterRole

  datatype Aggregation = Count | CountDistinct | Sum | Avg | MinOf | MaxOf | P50 | P95 | P99

  datatype Operator =
    | Eq | NotEq | Lt | Lte | Gt | Gte
    | Contains | BeginsWith | EndsWith
    | InList | NotInList
    | IsNull | IsNotNull
    | Between

  datatype Numeral = Whole(i: int) | Fraction(r: real)

  datatype Json = JsonNull | JsonBool(b: bool) | JsonNumber(n: Numeral) | JsonText(s: string) | JsonArray(items: seq<Json>) | JsonObject

  datatype Cell = NullCell | BoolCell(b: bool) | NumberCell(n: Numeral) | TextCell(s: string) | JsonCell(json: Json)

  /** `column` is the Postgres column, `clickhouse` the ClickHouse expression where there is one. */
  datatype Field = Field(
    id: string, kind: FieldKind, role: Role, aggregations: set<Aggregation>, operators: set<Operator>,
    column: string, clickhouse: Option<string>)

  datatype Dataset = Dataset(
    id: string, timeField: Option<string>, fields: seq<Field>, relation: string, clickhouseSource: Option<string>)

  datatype Dimension = Dimension(field: string, alias: Option<string>)
  datatype Measure = Measure(field: Option<string>, aggregation: Aggregation, alias: Option<string>)
  datatype Filter = Filter(field: string, operator: Operator, value: Option<Cell>)
  datatype Order = Order(field: string, ascending: bool)

  datatype Request = Request(
    tenant: Option<string>, dimensions: seq<Dimension>, measures: seq<Measure>, filters: seq<Filter>,
    orders: seq<Order>, limit: Option<nat>)

  datatype QueryError =
    | UnknownDataset | MissingTenantScope | EmptySelection
    | TooManyDimensions | TooManyMeasures | TooManyFilters | LimitTooLarge
    | UnknownField | UnsupportedRole | UnsupportedAggregation | MissingMeasureField
    | UnsupportedOperator | MissingFilterValue | InvalidFilterValue | ConflictingTenantFilter
    | TimeWindowTooLarge | MissingTimeWindow | UnknownOrderField | BackendFieldUnavailable

  function FieldNamed(fields: seq<Field>, id: string): (r: Option<Field>)
    ensures r.Some? ==> r.value in fields && r.value.id == id
    ensures r.None? ==> forall f | f in fields :: f.id != id
  {
    if fields == [] then None
    else if fields[0].id == id then Some(fields[0])
    else FieldNamed(fields[1..], id)
  }

  function AggregationName(a: Aggregation): string {
    match a
    case Count => "count"
    case CountDistinct => "count_distinct"
    case Sum => "sum"
    case Avg => "avg"
    case MinOf => "min"
    case MaxOf => "max"
    case P50 => "p50"
    case P95 => "p95"
    case P99 => "p99"
  }

  /** The response name of a measure without an alias. */
  function DefaultName(m: Measure): string {
    match m.field
    case None => AggregationName(m.aggregation)
    case Some(field) => AggregationName(m.aggregation) + "_" + field
  }
}
