/**
The query compiler. A statement is a sequence of fixed text and placeholders, so that a bind value's
place in the statement can be spoken of for both backends.
*/
module QueryCompiler {
  import opened Prelude
  import opened QueryModel
  import opened QueryValidation

  datatype Backend = Postgres | ClickHouse

  datatype Bind = TextBind(s: string) | IntegerBind(i: int) | FloatBind(r: real) | BoolBind(b: bool) | JsonBind(json: Json)

  /** Written `$n` with a cast by Postgres, and as a bare `?` in order of appearance by ClickHouse. */
  datatype Placeholder = Placeholder(position: nat, kind: FieldKind)

  datatype Piece = Fixed(s: string) | Hole(hole: Placeholder)

  type Sql = seq<Piece>

  function Holes(sql: Sql): seq<Placeholder> {
    if sql == [] then []
    else Holes(sql[..|sql| - 1]) + if sql[|sql| - 1].Hole? then [sql[|sql| - 1].hole] else []
  }

  lemma {:induction false} HolesConcat(a: Sql, b: Sql)
    ensures Holes(a + b) == Holes(a) + Holes(b)
  {
    if b == [] {
      assert a + b == a;
    } else {
      var n := |b| - 1;
      HolesConcat(a, b[..n]);
      assert (a + b)[..|a| + n] == a + b[..n];
    }
  }

  function Joined(parts: seq<Sql>, separator: string): Sql {
    if parts == [] then []
    else if |parts| == 1 then parts[0]
    else Joined(parts[..|parts| - 1], separator) + [Fixed(separator)] + parts[|parts| - 1]
  }

  lemma JoinedHoles(parts: seq<Sql>, last: Sql, separator: string)
    ensures Holes(Joined(parts + [last], separator)) == Holes(Joined(parts, separator)) + Holes(last)
  {
    var all := parts + [last];
    assert all[..|parts|] == parts;
    if parts != [] {
      HolesConcat(Joined(parts, separator), [Fixed(separator)]);
      HolesConcat(Joined(parts, separator) + [Fixed(separator)], last);
      OneFixed(separator);
    }
  }

  lemma OneFixed(s: string)
    ensures Holes([Fixed(s)]) == []
  {
    assert [Fixed(s)][..0] == [];
  }

  lemma OneHole(h: Placeholder)
    ensures Holes([Hole(h)]) == [h]
  {
    assert [Hole(h)][..0] == [];
  }

  /******* Bind values *******/

  /** A value of the type a placeholder of this kind is cast to. */
  predicate Fits(b: Bind, kind: FieldKind) {
    match kind
    case TextKind => b.TextBind?
    case UuidKind => b.TextBind?
    case TimestampKind => b.TextBind?
    case IntegerKind => b.IntegerBind?
    case FloatKind => b.FloatBind?
    case BooleanKind => b.BoolBind?
    case JsonKind => b.JsonBind?
  }

  /** From the given position on, one placeholder per bind value, numbered in order and of a fitting kind. */
  ghost predicate Aligned(holes: seq<Placeholder>, binds: seq<Bind>, from: nat) {
    && |binds| == from + |holes|
    && forall k | 0 <= k < |holes| :: holes[k].position == from + k + 1 && Fits(binds[from + k], holes[k].kind)
  }

  /** Placeholders of one kind for `n` values behind the first `from`. */
  function Numbered(from: nat, n: nat, kind: FieldKind): (r: seq<Placeholder>)
    ensures |r| == n && forall k | 0 <= k < n :: r[k] == Placeholder(from + k + 1, kind)
  {
    seq(n, k requires 0 <= k < n => Placeholder(from + k + 1, kind))
  }

  lemma AlignedConcat(a: seq<Placeholder>, b: seq<Placeholder>, binds: seq<Bind>, more: seq<Bind>, from: nat)
    requires Aligned(a, binds, from) && Aligned(b, binds + more, |binds|)
    ensures Aligned(a + b, binds + more, from)
  {
  }

  const MIN_I64 := -0x8000_0000_0000_0000
  const MAX_I64 := 0x7FFF_FFFF_FFFF_FFFF

  function AsInteger(n: Numeral): Option<int> {
    if n.Whole? && MIN_I64 <= n.i <= MAX_I64 then Some(n.i) else None
  }

  function AsFloat(n: Numeral): real {
    match n
    case Whole(i) => i as real
    case Fraction(r) => r
  }

  /** The bind value of a scalar filter. */
  function CellBind(kind: FieldKind, cell: Cell): (r: Result<Bind, QueryError>)
    ensures r.Ok? ==> Fits(r.value, kind)
    ensures r.Err? ==> r.error == InvalidFilterValue
  {
    match (kind, cell)
    case (_, NullCell) => Err(InvalidFilterValue)
    case (TextKind, TextCell(s)) => Ok(TextBind(s))
    case (UuidKind, TextCell(s)) => Ok(TextBind(s))
    case (TimestampKind, TextCell(s)) => Ok(TextBind(s))
    case (IntegerKind, NumberCell(n)) =>
      if AsInteger(n).Some? then Ok(IntegerBind(AsInteger(n).value)) else Err(InvalidFilterValue)
    case (FloatKind, NumberCell(n)) => Ok(FloatBind(AsFloat(n)))
    case (BooleanKind, BoolCell(b)) => Ok(BoolBind(b))
    case (JsonKind, JsonCell(json)) => Ok(JsonBind(json))
    case _ => Err(InvalidFilterValue)
  }

  /** The bind value of one element of a list filter. */
  function ItemBind(kind: FieldKind, item: Json): (r: Result<Bind, QueryError>)
    ensures r.Ok? ==> Fits(r.value, kind)
    ensures r.Err? ==> r.error == InvalidFilterValue
  {
    match (kind, item)
    case (JsonKind, _) => Ok(JsonBind(item))
    case (TextKind, JsonText(s)) => Ok(TextBind(s))
    case (UuidKind, JsonText(s)) => Ok(TextBind(s))
    case (TimestampKind, JsonText(s)) => Ok(TextBind(s))
    case (IntegerKind, JsonNumber(n)) =>
      if AsInteger(n).Some? then Ok(IntegerBind(AsInteger(n).value)) else Err(InvalidFilterValue)
    case (FloatKind, JsonNumber(n)) => Ok(FloatBind(AsFloat(n)))
    case (BooleanKind, JsonBool(b)) => Ok(BoolBind(b))
    case _ => Err(InvalidFilterValue)
  }

  function ItemBinds(kind: FieldKind, items: seq<Json>): (r: Result<seq<Bind>, QueryError>)
    ensures r.Ok? ==> |r.value| == |items| && forall k | 0 <= k < |items| :: ItemBind(kind, items[k]) == Ok(r.value[k])
    ensures r.Err? ==> r.error == InvalidFilterValue
  {
    if items == [] then Ok([])
    else
      var n := |items| - 1;
      match (ItemBinds(kind, items[..n]), ItemBind(kind, items[n]))
      case (Ok(front), Ok(last)) => Ok(front + [last])
      case (Err(e), _) => Err(e)
      case (_, Err(e)) => Err(e)
  }

  predicate IsTextOperator(op: Operator) {
    op == Contains || op == BeginsWith || op == EndsWith
  }

  predicate IsListOperator(op: Operator) {
    op == InList || op == NotInList || op == Between
  }

  /** Text operators compare text whatever the field's kind. */
  function HoleKind(field: Field, op: Operator): FieldKind {
    if IsTextOperator(op) then TextKind else field.kind
  }

  /** The values a filter asks to bind, in order. */
  function Demand(field: Field, op: Operator, value: Option<Cell>): (r: Result<seq<Bind>, QueryError>)
    ensures r.Ok? ==> forall b | b in r.value :: Fits(b, HoleKind(field, op))
    ensures r.Ok? && !NeedsValue(op) ==> r.value == []
    ensures r.Ok? && NeedsValue(op) && !IsListOperator(op) ==> |r.value| == 1
    ensures r.Ok? && op == Between ==> |r.value| == 2
    ensures r.Err? ==>
      r.error == if value.None? && !IsListOperator(op) then MissingFilterValue else InvalidFilterValue
  {
    if !NeedsValue(op) then Ok([])
    else if IsListOperator(op) then
      match value
      case Some(JsonCell(JsonArray(items))) =>
        if items == [] || (op == Between && |items| != 2) then Err(InvalidFilterValue) else ItemBinds(field.kind, items)
      case _ => Err(InvalidFilterValue)
    else if value.None? then Err(MissingFilterValue)
    else if IsTextOperator(op) then
      if value.value.TextCell? then Ok([TextBind(value.value.s)]) else Err(InvalidFilterValue)
    else
      match CellBind(field.kind, value.value)
      case Ok(b) => Ok([b])
      case Err(e) => Err(e)
  }

  /******* Predicates *******/

  function FieldExpression(backend: Backend, field: Field): Option<string> {
    match backend
    case Postgres => Some("d." + field.column)
    case ClickHouse => field.clickhouse
  }

  function HoleList(holes: seq<Placeholder>): (r: seq<Sql>)
    ensures |r| == |holes|
  {
    if holes == [] then [] else HoleList(holes[..|holes| - 1]) + [[Hole(holes[|holes| - 1])]]
  }

  lemma {:induction false} HoleListHoles(holes: seq<Placeholder>, separator: string)
    ensures Holes(Joined(HoleList(holes), separator)) == holes
  {
    if holes != [] {
      var n := |holes| - 1;
      HoleListHoles(holes[..n], separator);
      JoinedHoles(HoleList(holes[..n]), [Hole(holes[n])], separator);
      OneHole(holes[n]);
      assert holes == holes[..n] + [holes[n]];
    }
  }

  /** Text before, between and after the placeholders of a predicate. */
  function Before(backend: Backend, op: Operator, e: string): string {
    match op
    case Eq => e + " = "
    case NotEq => e + " <> "
    case Lt => e + " < "
    case Lte => e + " <= "
    case Gt => e + " > "
    case Gte => e + " >= "
    case Contains => if backend == Postgres then e + "::TEXT ILIKE '%' || " else "positionCaseInsensitive(toString(" + e + "), "
    case BeginsWith => if backend == Postgres then e + "::TEXT ILIKE " else "startsWith(lower(toString(" + e + ")), lower("
    case EndsWith => if backend == Postgres then e + "::TEXT ILIKE '%' || " else "endsWith(lower(toString(" + e + ")), lower("
    case InList => e + " IN ("
    case NotInList => e + " NOT IN ("
    case IsNull => e + " IS NULL"
    case IsNotNull => e + " IS NOT NULL"
    case Between => e + " BETWEEN "
  }

  function After(backend: Backend, op: Operator): string {
    match op
    case Contains => if backend == Postgres then " || '%'" else ") > 0"
    case BeginsWith => if backend == Postgres then " || '%'" else "))"
    case EndsWith => if backend == Postgres then "" else "))"
    case InList => ")"
    case NotInList => ")"
    case _ => ""
  }

  function Predicate(backend: Backend, op: Operator, e: string, holes: seq<Placeholder>): Sql {
    [Fixed(Before(backend, op, e))]
    + Joined(HoleList(holes), if op == Between then " AND " else ", ")
    + [Fixed(After(backend, op))]
  }

  lemma PredicateHoles(backend: Backend, op: Operator, e: string, holes: seq<Placeholder>)
    ensures Holes(Predicate(backend, op, e, holes)) == holes
  {
    var before, after := [Fixed(Before(backend, op, e))], [Fixed(After(backend, op))];
    var separator := if op == Between then " AND " else ", ";
    var list := Joined(HoleList(holes), separator);
    HoleListHoles(holes, separator);
    HolesConcat(before, list);
    HolesConcat(before + list, after);
    OneFixed(Before(backend, op, e));
    OneFixed(After(backend, op));
  }

  method PushItems(kind: FieldKind, items: seq<Json>, binds: seq<Bind>)
    returns (r: Result<seq<Placeholder>, QueryError>, binds': seq<Bind>)
    ensures r.Ok? <==> ItemBinds(kind, items).Ok?
    ensures r.Err? ==> r.error == InvalidFilterValue
    ensures r.Ok? ==>
      && binds' == binds + ItemBinds(kind, items).value && Aligned(r.value, binds', |binds|)
      && r.value == Numbered(|binds|, |items|, kind)
  {
    binds' := binds;
    var holes: seq<Placeholder> := [];
    for i := 0 to |items|
      invariant |holes| == i && ItemBinds(kind, items[..i]).Ok?
      invariant binds' == binds + ItemBinds(kind, items[..i]).value
      invariant Aligned(holes, binds', |binds|) && holes == Numbered(|binds|, i, kind)
    {
      assert items[..i + 1][..i] == items[..i];
      var bind := ItemBind(kind, items[i]);
      if bind.Err? {
        FailedItem(kind, items, i);
        return Err(bind.error), binds';
      }
      binds' := binds' + [bind.value];
      holes := holes + [Placeholder(|binds'|, kind)];
    }
    assert items[..|items|] == items;
    return Ok(holes), binds';
  }

  lemma {:induction false} FailedItem(kind: FieldKind, items: seq<Json>, i: nat)
    requires i < |items| && ItemBind(kind, items[i]).Err?
    ensures ItemBinds(kind, items).Err?
  {
    if i < |items| - 1 {
      FailedItem(kind, items[..|items| - 1], i);
    }
  }

  method PushOne(kind: FieldKind, bind: Bind, binds: seq<Bind>) returns (holes: seq<Placeholder>, binds': seq<Bind>)
    requires Fits(bind, kind)
    ensures binds' == binds + [bind] && holes == Numbered(|binds|, 1, kind) && Aligned(holes, binds', |binds|)
  {
    binds' := binds + [bind];
    holes := [Placeholder(|binds'|, kind)];
  }

  /** Pushes what a filter demands and returns a placeholder for each value. */
  method PushDemand(field: Field, op: Operator, value: Option<Cell>, binds: seq<Bind>)
    returns (r: Result<seq<Placeholder>, QueryError>, binds': seq<Bind>)
    ensures r.Ok? <==> Demand(field, op, value).Ok?
    ensures r.Err? ==> r.error == Demand(field, op, value).error
    ensures r.Ok? ==>
      && binds' == binds + Demand(field, op, value).value
      && Aligned(r.value, binds', |binds|)
      && r.value == Numbered(|binds|, |Demand(field, op, value).value|, HoleKind(field, op))
  {
    binds' := binds;
    var holes: seq<Placeholder> := [];
    if !NeedsValue(op) {
      return Ok(holes), binds';
    }
    if IsListOperator(op) {
      if value.None? || !value.value.JsonCell? || !value.value.json.JsonArray? || value.value.json.items == [] {
        return Err(InvalidFilterValue), binds';
      }
      var pushed;
      pushed, binds' := PushItems(field.kind, value.value.json.items, binds);
      if pushed.Ok? && op == Between && |pushed.value| != 2 {
        return Err(InvalidFilterValue), binds';
      }
      return pushed, binds';
    }
    if value.None? {
      return Err(MissingFilterValue), binds';
    }
    if IsTextOperator(op) {
      if !value.value.TextCell? {
        return Err(InvalidFilterValue), binds';
      }
      holes, binds' := PushOne(TextKind, TextBind(value.value.s), binds);
      return Ok(holes), binds';
    }
    var bind := CellBind(field.kind, value.value);
    if bind.Err? {
      return Err(bind.error), binds';
    }
    holes, binds' := PushOne(field.kind, bind.value, binds);
    return Ok(holes), binds';
  }

  /** The predicate of one filter, with its values pushed behind those already bound. */
  method FilterPredicate(backend: Backend, field: Field, op: Operator, value: Option<Cell>, binds: seq<Bind>)
    returns (r: Result<Sql, QueryError>, binds': seq<Bind>)
    ensures r.Ok? <==> FieldExpression(backend, field).Some? && Demand(field, op, value).Ok?
    ensures r.Err? ==>
      r.error == if FieldExpression(backend, field).None? then BackendFieldUnavailable else Demand(field, op, value).error
    ensures r.Ok? ==>
      && binds' == binds + Demand(field, op, value).value
      && Aligned(Holes(r.value), binds', |binds|)
      && r.value == Predicate(
                      backend, op, FieldExpression(backend, field).value,
                      Numbered(|binds|, |Demand(field, op, value).value|, HoleKind(field, op)))
  {
    var expression := FieldExpression(backend, field);
    if expression.None? {
      return Err(BackendFieldUnavailable), binds;
    }
    var holes;
    holes, binds' := PushDemand(field, op, value, binds);
    if holes.Err? {
      return Err(holes.error), binds';
    }
    PredicateHoles(backend, op, expression.value, holes.value);
    return Ok(Predicate(backend, op, expression.value, holes.value)), binds';
  }
}
