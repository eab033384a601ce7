/**
The statement as text, and the bind value each placeholder in it takes. Postgres reads the number
behind each `$`; ClickHouse hands its values to the `?` marks in the order they appear.
*/
module QueryRendering {
  import opened Prelude
  import opened Text
  import opened QueryModel
  import opened QueryCompiler
  import opened QueryStatement

  function Cast(kind: FieldKind): string {
    match kind
    case UuidKind => "::UUID"
    case TimestampKind => "::TIMESTAMPTZ"
    case IntegerKind => "::BIGINT"
    case FloatKind => "::DOUBLE PRECISION"
    case BooleanKind => "::BOOLEAN"
    case JsonKind => "::JSONB"
    case TextKind => ""
  }

  function PieceText(backend: Backend, p: Piece): string {
    match (p, backend)
    case (Fixed(s), _) => s
    case (Hole(h), Postgres) => "$" + Decimal(h.position) + Cast(h.kind)
    case (Hole(h), ClickHouse) => Opening(h.kind) + "?" + Closing(h.kind)
  }

  /** The function that parses a ClickHouse value to the column's type. */
  function Opening(kind: FieldKind): string {
    match kind
    case UuidKind => "toUUID("
    case TimestampKind => "parseDateTime64BestEffort("
    case _ => ""
  }

  function Closing(kind: FieldKind): string {
    match kind
    case UuidKind => ")"
    case TimestampKind => ", 6, 'UTC')"
    case _ => ""
  }

  function Render(backend: Backend, sql: Sql): string {
    if sql == [] then "" else PieceText(backend, sql[0]) + Render(backend, sql[1..])
  }

  /******* Reading the text *******/

  predicate StartsWithDigit(s: string) { s != "" && IsDigit(s[0]) }

  function LeadingDigits(s: string): string {
    if StartsWithDigit(s) then [s[0]] + LeadingDigits(s[1..]) else ""
  }

  function Value(digits: string): nat
    requires forall c | c in digits :: IsDigit(c)
  {
    if digits == "" then 0
    else
      assert digits[|digits| - 1] in digits;
      10 * Value(digits[..|digits| - 1]) + DigitValue(digits[|digits| - 1])
  }

  function DigitValue(c: char): nat
    requires IsDigit(c)
  {
    c as int - '0' as int
  }

  lemma LeadingAreDigits(s: string)
    ensures forall c | c in LeadingDigits(s) :: IsDigit(c)
  {
  }

  /** The number behind each `$`. */
  function Numbers(text: string): seq<nat> {
    if text == "" then []
    else if text[0] == '$' then
      LeadingAreDigits(text[1..]);
      [Value(LeadingDigits(text[1..]))] + Numbers(text[1..])
    else Numbers(text[1..])
  }

  function Marks(text: string): nat {
    if text == "" then 0 else Marks(text[1..]) + if text[0] == '?' then 1 else 0
  }

  /** The 1-based bind positions that the placeholders in a statement stand for, in textual order. */
  function References(backend: Backend, text: string): seq<nat> {
    match backend
    case Postgres => Numbers(text)
    case ClickHouse => seq(Marks(text), k => k + 1)
  }

  function Positions(holes: seq<Placeholder>): (r: seq<nat>)
    ensures |r| == |holes| && forall k | 0 <= k < |holes| :: r[k] == holes[k].position
  {
    seq(|holes|, k requires 0 <= k < |holes| => holes[k].position)
  }

  /******* Fixed text without placeholders *******/

  predicate PlainText(backend: Backend, s: string) {
    match backend
    case Postgres => '$' !in s && !StartsWithDigit(s)
    case ClickHouse => '?' !in s
  }

  predicate Plain(backend: Backend, sql: Sql) {
    forall p | p in sql && p.Fixed? :: PlainText(backend, p.s)
  }

  lemma {:induction false} NumbersSkip(s: string, rest: string)
    requires '$' !in s
    ensures Numbers(s + rest) == Numbers(rest)
  {
    if s == "" {
      assert s + rest == rest;
    } else {
      NumbersSkip(s[1..], rest);
      assert (s + rest)[1..] == s[1..] + rest;
    }
  }

  lemma {:induction false} MarksConcat(s: string, rest: string)
    ensures Marks(s + rest) == Marks(s) + Marks(rest)
  {
    if s == "" {
      assert s + rest == rest;
    } else {
      MarksConcat(s[1..], rest);
      assert (s + rest)[1..] == s[1..] + rest;
    }
  }

  lemma {:induction false} NoMarks(s: string)
    requires '?' !in s
    ensures Marks(s) == 0
  {
    if s != "" {
      NoMarks(s[1..]);
    }
  }

  lemma {:induction false} DecimalReadsBack(n: nat)
    ensures Decimal(n) != "" && forall c | c in Decimal(n) :: IsDigit(c)
    ensures Value(Decimal(n)) == n
  {
    var digit := [(n % 10 + '0' as int) as char];
    if n >= 10 {
      DecimalReadsBack(n / 10);
      assert Decimal(n)[..|Decimal(n)| - 1] == Decimal(n / 10);
    } else {
      assert Decimal(n) == digit && digit[..0] == "";
    }
  }

  lemma {:induction false} LeadingDigitsEnd(digits: string, rest: string)
    requires (forall c | c in digits :: IsDigit(c)) && !StartsWithDigit(rest)
    ensures LeadingDigits(digits + rest) == digits
  {
    if digits == "" {
      assert digits + rest == rest;
    } else {
      LeadingDigitsEnd(digits[1..], rest);
      assert (digits + rest)[1..] == digits[1..] + rest;
      assert digits == [digits[0]] + digits[1..];
    }
  }

  lemma PlainBeforeRest(s: string, rest: string)
    requires '$' !in s && !StartsWithDigit(s) && !StartsWithDigit(rest)
    ensures !StartsWithDigit(s + rest) && Numbers(s + rest) == Numbers(rest)
  {
    NumbersSkip(s, rest);
    assert s == "" ==> s + rest == rest;
  }

  lemma CastIsPlain(kind: FieldKind)
    ensures '$' !in Cast(kind) && !StartsWithDigit(Cast(kind))
  {
  }

  lemma DollarReads(text: string, digits: string, rest: string)
    requires text != "" && text[0] == '$' && text[1..] == digits + rest
    requires (forall c | c in digits :: IsDigit(c)) && !StartsWithDigit(rest)
    ensures Numbers(text) == [Value(digits)] + Numbers(rest)
  {
    LeadingDigitsEnd(digits, rest);
    NumbersSkip(digits, rest);
  }

  lemma CastReads(digits: string, cast: string, rest: string)
    requires (forall c | c in digits :: IsDigit(c)) && '$' !in cast && !StartsWithDigit(cast) && !StartsWithDigit(rest)
    ensures Numbers("$" + digits + cast + rest) == [Value(digits)] + Numbers(rest)
  {
    PlainBeforeRest(cast, rest);
    var text := "$" + digits + cast + rest;
    assert text == ['$'] + (digits + (cast + rest));
    DollarReads(text, digits, cast + rest);
  }

  /** A Postgres placeholder reads back as its position, whatever follows that is not a digit. */
  lemma PlaceholderReadsBack(h: Placeholder, rest: string)
    requires !StartsWithDigit(rest)
    ensures Numbers(PieceText(Postgres, Hole(h)) + rest) == [h.position] + Numbers(rest)
  {
    DecimalReadsBack(h.position);
    CastIsPlain(h.kind);
    CastReads(Decimal(h.position), Cast(h.kind), rest);
  }

  lemma PlainParts(backend: Backend, sql: Sql)
    requires sql != [] && Plain(backend, sql)
    ensures Plain(backend, sql[1..]) && (sql[0].Fixed? ==> PlainText(backend, sql[0].s))
  {
    assert sql[0] in sql;
    assert forall p | p in sql[1..] :: p in sql;
  }

  lemma {:induction false} RenderedStart(sql: Sql)
    requires Plain(Postgres, sql)
    ensures !StartsWithDigit(Render(Postgres, sql))
  {
    if sql != [] {
      PlainParts(Postgres, sql);
      RenderedStart(sql[1..]);
    }
  }

  lemma HolesFromFront(sql: Sql)
    requires sql != []
    ensures Holes(sql) == (if sql[0].Hole? then [sql[0].hole] else []) + Holes(sql[1..])
  {
    assert sql == [sql[0]] + sql[1..];
    HolesConcat([sql[0]], sql[1..]);
    assert [sql[0]][..0] == [];
  }

  lemma FrontPieceReads(p: Piece, rest: string, holes: seq<Placeholder>)
    requires !StartsWithDigit(rest) && Numbers(rest) == Positions(holes)
    requires p.Fixed? ==> PlainText(Postgres, p.s)
    ensures Numbers(PieceText(Postgres, p) + rest) == Positions((if p.Hole? then [p.hole] else []) + holes)
  {
    if p.Hole? {
      PlaceholderReadsBack(p.hole, rest);
      PositionsFrom(p.hole, holes);
    } else {
      NumbersSkip(p.s, rest);
      assert [] + holes == holes;
    }
  }

  lemma PositionsFrom(h: Placeholder, holes: seq<Placeholder>)
    ensures Positions([h] + holes) == [h.position] + Positions(holes)
  {
  }

  lemma {:induction false} RenderedNumbers(sql: Sql)
    requires Plain(Postgres, sql)
    ensures Numbers(Render(Postgres, sql)) == Positions(Holes(sql))
  {
    if sql != [] {
      var rest := sql[1..];
      PlainParts(Postgres, sql);
      RenderedNumbers(rest);
      RenderedStart(rest);
      HolesFromFront(sql);
      FrontPieceReads(sql[0], Render(Postgres, rest), Holes(rest));
    }
  }

  lemma WrapIsPlain(kind: FieldKind)
    ensures '?' !in Opening(kind) && '?' !in Closing(kind)
  {
  }

  lemma OneMark(h: Placeholder)
    ensures Marks(PieceText(ClickHouse, Hole(h))) == 1
  {
    var opening, closing := Opening(h.kind), Closing(h.kind);
    WrapIsPlain(h.kind);
    MarksConcat(opening, "?");
    MarksConcat(opening + "?", closing);
    NoMarks(opening);
    NoMarks(closing);
    assert "?"[1..] == "";
  }

  lemma {:induction false} RenderedMarks(sql: Sql)
    requires Plain(ClickHouse, sql)
    ensures Marks(Render(ClickHouse, sql)) == |Holes(sql)|
  {
    if sql != [] {
      PlainParts(ClickHouse, sql);
      RenderedMarks(sql[1..]);
      HolesFromFront(sql);
      MarksConcat(PieceText(ClickHouse, sql[0]), Render(ClickHouse, sql[1..]));
      if sql[0].Hole? {
        OneMark(sql[0].hole);
      } else {
        NoMarks(sql[0].s);
      }
    }
  }

  /** The text has one placeholder for each hole, and the `k`-th of them is read as the `k`-th hole's. */
  lemma RenderedReferences(backend: Backend, sql: Sql)
    requires Plain(backend, sql)
    ensures |References(backend, Render(backend, sql))| == |Holes(sql)|
    ensures backend == Postgres ==> References(backend, Render(backend, sql)) == Positions(Holes(sql))
    ensures backend == ClickHouse ==> forall k | 0 <= k < |Holes(sql)| :: References(backend, Render(backend, sql))[k] == k + 1
  {
    match backend
    case Postgres => RenderedNumbers(sql);
    case ClickHouse => RenderedMarks(sql);
  }

  /******* Compiled statements *******/

  /** Nothing the catalog or the frame contributes holds a placeholder of the backend. */
  predicate PlainCatalog(backend: Backend, dataset: Dataset, frame: Frame) {
    && PlainText(backend, frame.select) && PlainText(backend, frame.group) && PlainText(backend, frame.limit)
    && (RawSource(backend, dataset).Some? ==> PlainText(backend, RawSource(backend, dataset).value))
    && (forall f | f in dataset.fields && FieldExpression(backend, f).Some? :: PlainText(backend, FieldExpression(backend, f).value))
  }

  lemma PlainConcat(backend: Backend, a: Sql, b: Sql)
    requires Plain(backend, a) && Plain(backend, b)
    ensures Plain(backend, a + b)
  {
  }

  lemma {:induction false} PlainJoined(backend: Backend, parts: seq<Sql>, separator: string)
    requires (forall p | p in parts :: Plain(backend, p)) && PlainText(backend, separator)
    ensures Plain(backend, Joined(parts, separator))
  {
    if |parts| > 1 {
      var n := |parts| - 1;
      assert forall p | p in parts[..n] :: p in parts;
      assert parts[n] in parts;
      PlainJoined(backend, parts[..n], separator);
    } else if |parts| == 1 {
      assert parts[0] in parts;
    }
  }

  lemma {:induction false} PlainHoleList(backend: Backend, holes: seq<Placeholder>)
    ensures forall p | p in HoleList(holes) :: Plain(backend, p)
  {
    if holes != [] {
      PlainHoleList(backend, holes[..|holes| - 1]);
    }
  }

  lemma PlainPredicate(backend: Backend, op: Operator, e: string, holes: seq<Placeholder>)
    requires PlainText(backend, e)
    ensures Plain(backend, Predicate(backend, op, e, holes))
  {
    PlainHoleList(backend, holes);
    PlainJoined(backend, HoleList(holes), if op == Between then " AND " else ", ");
    PlainAround(backend, op, e);
  }

  lemma PlainAppend(backend: Backend, a: string, b: string)
    requires PlainText(backend, a) && PlainText(backend, b)
    ensures PlainText(backend, a + b)
  {
    assert a == "" ==> a + b == b;
  }

  lemma PlainAround(backend: Backend, op: Operator, e: string)
    requires PlainText(backend, e)
    ensures PlainText(backend, QueryCompiler.Before(backend, op, e)) && PlainText(backend, After(backend, op))
  {
    match op
    case Eq => PlainAppend(backend, e, " = ");
    case NotEq => PlainAppend(backend, e, " <> ");
    case Lt => PlainAppend(backend, e, " < ");
    case Lte => PlainAppend(backend, e, " <= ");
    case Gt => PlainAppend(backend, e, " > ");
    case Gte => PlainAppend(backend, e, " >= ");
    case InList => PlainAppend(backend, e, " IN (");
    case NotInList => PlainAppend(backend, e, " NOT IN (");
    case IsNull => PlainAppend(backend, e, " IS NULL");
    case IsNotNull => PlainAppend(backend, e, " IS NOT NULL");
    case Between => PlainAppend(backend, e, " BETWEEN ");
    case _ => PlainTextMatch(backend, op, e);
  }

  lemma PlainTextMatch(backend: Backend, op: Operator, e: string)
    requires IsTextOperator(op) && PlainText(backend, e)
    ensures PlainText(backend, QueryCompiler.Before(backend, op, e)) && PlainText(backend, After(backend, op))
  {
    match backend
    case Postgres => PlainAppend(backend, e, if op == BeginsWith then "::TEXT ILIKE " else "::TEXT ILIKE '%' || ");
    case ClickHouse => PlainCalls(op, e);
  }

  lemma PlainCalls(op: Operator, e: string)
    requires IsTextOperator(op) && PlainText(ClickHouse, e)
    ensures PlainText(ClickHouse, QueryCompiler.Before(ClickHouse, op, e)) && PlainText(ClickHouse, After(ClickHouse, op))
  {
    match op
    case Contains => PlainCall(e, "positionCaseInsensitive(toString(", "), ");
    case BeginsWith => PlainCall(e, "startsWith(lower(toString(", ")), lower(");
    case _ => PlainCall(e, "endsWith(lower(toString(", ")), lower(");
  }

  lemma PlainCall(e: string, opening: string, closing: string)
    requires PlainText(ClickHouse, e) && PlainText(ClickHouse, opening) && PlainText(ClickHouse, closing)
    ensures PlainText(ClickHouse, opening + e + closing)
  {
  }

  lemma PlainClause(backend: Backend, fields: seq<Field>, f: Filter, from: nat, n: nat)
    requires forall g | g in fields && FieldExpression(backend, g).Some? :: PlainText(backend, FieldExpression(backend, g).value)
    ensures forall p | p in FilterClause(backend, fields, f, from, n) :: Plain(backend, p)
  {
    if f.field != "tenant_id" && Available(backend, fields, f.field) {
      var field := FieldNamed(fields, f.field).value;
      PlainPredicate(
        backend, f.operator, FieldExpression(backend, field).value, Numbered(from, n, HoleKind(field, f.operator)));
    }
  }

  lemma {:induction false} PlainWhere(
      backend: Backend, fields: seq<Field>, filters: seq<Filter>, demands: seq<Result<seq<Bind>, QueryError>>, i: nat)
    requires i <= |filters| == |demands| && Collect(demands[..i]).Ok?
    requires forall g | g in fields && FieldExpression(backend, g).Some? :: PlainText(backend, FieldExpression(backend, g).value)
    ensures forall p | p in Where(backend, fields, filters, demands, i) :: Plain(backend, p)
  {
    if i > 0 {
      CollectedBefore(demands, i);
      PlainWhere(backend, fields, filters, demands, i - 1);
      PlainClause(backend, fields, filters[i - 1], 1 + |Collect(demands[..i - 1]).value|, |demands[i - 1].value|);
    }
  }

  lemma {:induction false} PlainSource(raw: string)
    requires '?' !in raw
    ensures Plain(ClickHouse, Source(raw))
    decreases |raw|
  {
    match SplitOnce(raw, MARKER)
    case None =>
    case Some((before, after)) => PlainSource(after);
  }

  /** Neither kind of placeholder, for text of the compiler's own. */
  predicate Clean(s: string) {
    '?' !in s && '$' !in s
  }

  lemma CleanOrder(o: Ordering)
    ensures Clean(OrderItem(o))
  {
    DecimalReadsBack(o.output);
  }

  lemma CleanStart(n: nat)
    ensures Clean(OrderStart(n)) && OrderStart(n) != "" && (n == 0 ==> OrderStart(n)[0] == ' ')
  {
  }

  lemma OrderGrows(front: string, start: string, last: string)
    requires Clean(front) && Clean(start) && Clean(last) && start != ""
    requires if front == "" then start[0] == ' ' else front[0] == ' '
    ensures Clean(front + start + last) && (front + start + last)[0] == ' '
  {
  }

  lemma {:induction false} PlainOrder(orderings: seq<Ordering>)
    ensures Clean(OrderText(orderings)) && (OrderText(orderings) != "" ==> OrderText(orderings)[0] == ' ')
  {
    if orderings != [] {
      var n := |orderings| - 1;
      PlainOrder(orderings[..n]);
      CleanOrder(orderings[n]);
      NonEmptyOrder(orderings[..n]);
      CleanStart(n);
      OrderGrows(OrderText(orderings[..n]), OrderStart(n), OrderItem(orderings[n]));
    }
  }

  lemma NonEmptyOrder(orderings: seq<Ordering>)
    ensures orderings != [] ==> OrderText(orderings) != ""
  {
  }

  lemma PlainFrame(backend: Backend, frame: Frame, order: string)
    requires PlainText(backend, frame.select) && PlainText(backend, frame.group) && PlainText(backend, frame.limit)
    requires PlainText(backend, order)
    ensures PlainText(backend, "SELECT " + frame.select + " FROM ") && PlainText(backend, frame.group + order + frame.limit)
  {
    PlainAppend(backend, "SELECT ", frame.select);
    PlainAppend(backend, "SELECT " + frame.select, " FROM ");
    PlainAppend(backend, frame.group, order);
    PlainAppend(backend, frame.group + order, frame.limit);
  }

  lemma PlainPieces(backend: Backend, first: string, from: Sql, middle: string, joined: Sql, last: string)
    requires PlainText(backend, first) && PlainText(backend, middle) && PlainText(backend, last)
    requires Plain(backend, from) && Plain(backend, joined)
    ensures Plain(backend, [Fixed(first)] + from + [Fixed(middle)] + joined + [Fixed(last)])
  {
  }

  lemma PlainStatement(backend: Backend, frame: Frame, from: Sql, clauses: seq<Sql>, orderings: seq<Ordering>)
    requires PlainText(backend, frame.select) && PlainText(backend, frame.group) && PlainText(backend, frame.limit)
    requires Plain(backend, from) && forall p | p in clauses :: Plain(backend, p)
    ensures Plain(backend, Statement(frame, from, clauses, OrderText(orderings)))
  {
    PlainOrder(orderings);
    PlainFrame(backend, frame, OrderText(orderings));
    PlainJoined(backend, clauses, " AND ");
    PlainPieces(
      backend, "SELECT " + frame.select + " FROM ", from, if clauses == [] then "" else " WHERE ",
      Joined(clauses, " AND "), frame.group + OrderText(orderings) + frame.limit);
  }

  lemma PlainTenant(backend: Backend, inSource: bool)
    ensures forall p | p in TenantPredicates(inSource) :: Plain(backend, p)
  {
  }

  lemma PlainFilters(backend: Backend, fields: seq<Field>, filters: seq<Filter>)
    requires Demands(fields, filters).Ok?
    requires forall g | g in fields && FieldExpression(backend, g).Some? :: PlainText(backend, FieldExpression(backend, g).value)
    ensures forall p | p in FilterClauses(backend, fields, filters) :: Plain(backend, p)
  {
    var demands := DemandList(fields, filters);
    assert demands[..|filters|] == demands;
    PlainWhere(backend, fields, filters, demands, |filters|);
  }

  lemma CompiledIsPlain(backend: Backend, dataset: Dataset, r: Request, frame: Frame, orderings: seq<Ordering>)
    requires RawSource(backend, dataset).Some? && Demands(dataset.fields, r.filters).Ok?
    requires PlainCatalog(backend, dataset, frame)
    ensures Plain(backend, CompiledSql(backend, dataset, r, frame, orderings))
  {
    var raw := RawSource(backend, dataset).value;
    PlainFilters(backend, dataset.fields, r.filters);
    PlainTenant(backend, SourceMarkers(backend, raw) > 0);
    if backend == ClickHouse {
      PlainSource(raw);
    }
    var clauses := TenantPredicates(SourceMarkers(backend, raw) > 0) + FilterClauses(backend, dataset.fields, r.filters);
    PlainStatement(backend, frame, From(backend, raw), clauses, orderings);
  }

  lemma {:induction false} InOrderMeansOneTenant(holes: seq<Placeholder>)
    requires forall k | 0 <= k < |holes| :: holes[k].position == k + 1
    ensures TenantHoles(holes) <= 1
  {
    if |holes| > 1 {
      InOrderMeansOneTenant(holes[..|holes| - 1]);
    } else if |holes| == 1 {
      assert holes[..0] == [];
    }
  }

  lemma CountedReferences(references: seq<nat>, holes: seq<Placeholder>, binds: seq<Bind>, markers: nat)
    requires |references| == |holes| && forall k | 0 <= k < |holes| :: references[k] == k + 1
    requires TenantHoles(holes) == (if markers == 0 then 1 else markers) && (Aligned(holes, binds, 0) <==> markers <= 1)
    ensures references == Positions(holes) <==> markers <= 1
  {
    if references == Positions(holes) {
      InOrderMeansOneTenant(holes);
    }
  }

  lemma ScopedReferences(backend: Backend, sql: Sql, binds: seq<Bind>, tenant: string, markers: nat)
    requires Plain(backend, sql) && Scoped(sql, binds, tenant, markers)
    ensures References(backend, Render(backend, sql)) == Positions(Holes(sql)) <==> backend == Postgres || markers <= 1
  {
    RenderedReferences(backend, sql);
    if backend == ClickHouse {
      CountedReferences(References(backend, Render(backend, sql)), Holes(sql), binds, markers);
    }
  }

  /**
  In the text of a compiled statement every placeholder is read as the value it was written for,
  always on Postgres and on ClickHouse exactly when its source names the tenant at most once.
  */
  lemma CompiledReferences(
      backend: Backend, dataset: Dataset, r: Request, frame: Frame, orderings: seq<Ordering>, binds: seq<Bind>, tenant: string)
    requires RawSource(backend, dataset).Some? && Demands(dataset.fields, r.filters).Ok?
    requires PlainCatalog(backend, dataset, frame)
    requires Scoped(
      CompiledSql(backend, dataset, r, frame, orderings), binds, tenant, SourceMarkers(backend, RawSource(backend, dataset).value))
    ensures var sql := CompiledSql(backend, dataset, r, frame, orderings);
      References(backend, Render(backend, sql)) == Positions(Holes(sql)) <==>
      backend == Postgres || Markers(RawSource(backend, dataset).value) <= 1
  {
    CompiledIsPlain(backend, dataset, r, frame, orderings);
    ScopedReferences(
      backend, CompiledSql(backend, dataset, r, frame, orderings), binds, tenant,
      SourceMarkers(backend, RawSource(backend, dataset).value));
  }
}
