/** The text of a compiled statement, the rows it selects, and the window of time they lie in. */
module QueryResults {
  import opened Prelude
  import opened Text
  import opened Sequences
  import opened QueryModel
  import opened QueryValidation
  import opened QueryCompiler
  import opened QueryStatement
  import opened QueryRendering
  import opened QueryMeaning
  import opened QueryReading
  import opened QuerySelection
  import opened QueryWhere

  /******* The filters' part *******/

  lemma EachFilterAdds(
      db: Database, backend: Backend, fields: seq<Field>, filters: seq<Filter>, clauses: seq<seq<Sql>>, tenant: string,
      row: Row, n: nat, m: nat)
    requires n < |filters| == |clauses| && Demands(fields, filters).Ok? && AllAvailable(backend, fields, filters)
    requires PlainFields(backend, fields)
    requires forall k | 0 <= k < |clauses| :: Contributes(clauses[k], backend, fields, filters, DemandList(fields, filters), k)
    requires backend == ClickHouse ==> m == 1 + Total(Counts(DemandList(fields, filters))[..n])
    ensures AddsClause(
      ReadingOf(db, backend, [TextBind(tenant)] + Demands(fields, filters).value, row), backend,
      SubjectLists(backend, fields, filters)[n], TextLists(backend, clauses)[n], m,
      Asked(db, backend, fields, filters, row)[n], Counts(DemandList(fields, filters))[n])
  {
    CountsSum(DemandList(fields, filters), n);
    ContributionAdds(db, backend, fields, filters, clauses[n], n, tenant, m, row);
  }

  /** Behind any clauses, those of the filters select exactly the rows that every filter asks for. */
  lemma FiltersSelect(
      db: Database, backend: Backend, fields: seq<Field>, filters: seq<Filter>, first: seq<string>, texts: seq<string>,
      tenant: string, before: nat, row: Row)
    requires Demands(fields, filters).Ok? && AllAvailable(backend, fields, filters) && PlainFields(backend, fields)
    requires |first| == |texts| && (backend == ClickHouse ==> before + MarksIn(texts) == 1)
    ensures var binds := [TextBind(tenant)] + Demands(fields, filters).value;
      Selects(
        db, backend, first + Subjects(backend, fields, filters),
        texts + TextsOf(backend, FilterClauses(backend, fields, filters)), binds, before, row) <==>
      Selects(db, backend, first, texts, binds, before, row)
      && forall f | f in filters :: Asks(db, backend, fields, f, row)
  {
    var demands, n := DemandList(fields, filters), |filters|;
    var binds := [TextBind(tenant)] + Demands(fields, filters).value;
    var clauses := ClausesOf(backend, fields, filters, demands, n);
    var subjects, added := SubjectLists(backend, fields, filters), TextLists(backend, clauses);
    var reading, asked, counts := ReadingOf(db, backend, binds, row), Asked(db, backend, fields, filters, row), Counts(demands);
    forall k: nat, m: nat | k < n && (backend == ClickHouse ==> m == 1 + Total(counts[..k]))
      ensures AddsClause(reading, backend, subjects[k], added[k], m, asked[k], counts[k])
    {
      EachFilterAdds(db, backend, fields, filters, clauses, tenant, row, k, m);
    }
    TallyAll(reading, backend, subjects, added, counts, asked, n, first, texts, before, AllTrue(reading, first, texts, before));
    assert subjects[..n] == subjects && added[..n] == added && demands[..n] == demands;
    TextsFlatten(backend, clauses);
    AskedExactly(db, backend, fields, filters, row);
  }

  lemma AskedExactly(db: Database, backend: Backend, fields: seq<Field>, filters: seq<Filter>, row: Row)
    ensures (forall j | 0 <= j < |filters| :: Asked(db, backend, fields, filters, row)[j]) <==>
      forall f | f in filters :: Asks(db, backend, fields, f, row)
  {
    var asked := Asked(db, backend, fields, filters, row);
    if forall j | 0 <= j < |filters| :: asked[j] {
      forall f | f in filters ensures Asks(db, backend, fields, f, row) {
        var j :| 0 <= j < |filters| && filters[j] == f;
        assert asked[j];
      }
    } else {
      var j :| 0 <= j < |filters| && !asked[j];
      assert filters[j] in filters;
    }
  }

  /******* The tenant's part *******/

  const TENANT_SUBJECT := "d.tenant_id"

  function TenantClause(): Sql {
    [Fixed("d.tenant_id = "), Hole(TENANT_HOLE)]
  }

  lemma TenantText(backend: Backend)
    ensures Render(backend, TenantClause()) == TENANT_SUBJECT + " " + "=" + " " + HoleText(backend, TENANT_HOLE)
  {
    RenderThree(backend, "d.tenant_id = ", [Hole(TENANT_HOLE)], "");
    RenderOne(backend, Hole(TENANT_HOLE));
    RenderConcat(backend, [Fixed("d.tenant_id = ")], [Hole(TENANT_HOLE)]);
    RenderOne(backend, Fixed("d.tenant_id = "));
    assert TenantClause() == [Fixed("d.tenant_id = ")] + [Hole(TENANT_HOLE)];
    assert "d.tenant_id = " == TENANT_SUBJECT + " " + "=" + " ";
  }

  lemma TenantClauseReads(backend: Backend)
    ensures Read(backend, TENANT_SUBJECT, Render(backend, TenantClause()))
      == Some(Condition(Compares(Equals), [SlotOf(backend, TENANT_HOLE)]))
  {
    var rest := HoleText(backend, TENANT_HOLE);
    TenantText(backend);
    OperatorReads(backend, TENANT_SUBJECT, "=", rest);
    ComparisonReads(backend, Eq, rest);
    OneReads(backend, Compares(Equals), TENANT_HOLE, "");
    assert rest + "" == rest && SlotsOf(backend, [TENANT_HOLE]) == [SlotOf(backend, TENANT_HOLE)];
  }

  /** The row is the tenant's. */
  ghost predicate IsTenants(db: Database, tenant: string, row: Row) {
    row(TENANT_SUBJECT).Some? && UuidOf(db, tenant) == row(TENANT_SUBJECT)
  }

  lemma {:induction false} TenantClauseMeans(db: Database, backend: Backend, tenant: string, binds: seq<Bind>, before: nat, row: Row)
    requires binds != [] && binds[0] == TextBind(tenant) && (backend == ClickHouse ==> before == 0)
    ensures ClauseHolds(
      db, backend, TENANT_SUBJECT, Render(backend, TenantClause()), binds, before, row(TENANT_SUBJECT))
      <==> IsTenants(db, tenant, row)
  {
    TenantClauseReads(backend);
    TenantTextMeans(db, backend, TENANT_SUBJECT, Render(backend, TenantClause()), tenant, binds, before, row(TENANT_SUBJECT));
  }

  lemma {:induction false} TenantTextMeans(
      db: Database, backend: Backend, e: string, text: string, tenant: string, binds: seq<Bind>, before: nat,
      v: Option<Datum>)
    requires binds != [] && binds[0] == TextBind(tenant) && (backend == ClickHouse ==> before == 0)
    requires Read(backend, e, text) == Some(Condition(Compares(Equals), [SlotOf(backend, TENANT_HOLE)]))
    ensures ClauseHolds(db, backend, e, text, binds, before, v) <==> v.Some? && UuidOf(db, tenant) == v
  {
    var c := Condition(Compares(Equals), [SlotOf(backend, TENANT_HOLE)]);
    ClauseHoldsMeans(db, backend, e, text, binds, before, v, c);
    assert SlotValues(db, c.slots, binds, before) == [UuidOf(db, tenant)];
    EqualsHolds(db, UuidOf(db, tenant), v);
  }

  lemma {:induction false} EqualsHolds(db: Database, target: Option<Datum>, v: Option<Datum>)
    ensures Holds(db, Compares(Equals), [target], v) <==> v.Some? && target == v
  {
    if target.Some? {
      assert Present([target]) == [target.value];
    }
  }

  lemma TenantMarks()
    ensures Marks(Render(ClickHouse, TenantClause())) == 1
  {
    RenderedMarks(TenantClause());
    TenantPredicateHoles(false, "");
    assert Joined([TenantClause()], " AND ") == TenantClause();
  }

  /** The clauses in front of the filters', and what they are about. */
  function FirstSubjects(inSource: bool): seq<string> {
    if inSource then [] else [TENANT_SUBJECT]
  }

  lemma TenantSelects(db: Database, backend: Backend, inSource: bool, tenant: string, binds: seq<Bind>, before: nat, row: Row)
    requires binds != [] && binds[0] == TextBind(tenant)
    requires backend == ClickHouse ==> before == if inSource then 1 else 0
    ensures var texts := TextsOf(backend, TenantPredicates(inSource));
      && |FirstSubjects(inSource)| == |texts|
      && (Selects(db, backend, FirstSubjects(inSource), texts, binds, before, row) <==>
            inSource || IsTenants(db, tenant, row))
      && (backend == ClickHouse ==> before + MarksIn(texts) == 1)
  {
    if inSource {
      assert TextsOf(backend, []) == [];
    } else {
      var text := Render(backend, TenantClause());
      assert TextsOf(backend, TenantPredicates(false)) == [text];
      OneClauseSelects(db, backend, TENANT_SUBJECT, text, binds, before, row);
      TenantClauseMeans(db, backend, tenant, binds, before, row);
      if backend == ClickHouse {
        TenantMarks();
      }
    }
  }

  lemma {:induction false} OneClauseSelects(
      db: Database, backend: Backend, subject: string, text: string, binds: seq<Bind>, before: nat, row: Row)
    ensures Selects(db, backend, [subject], [text], binds, before, row) <==>
      ClauseHolds(db, backend, subject, text, binds, before, row(subject))
    ensures MarksIn([text]) == Marks(text)
  {
    OneTrue(ReadingOf(db, backend, binds, row), subject, text, before);
  }

  lemma {:induction false} OneTrue(reading: Reading, subject: string, text: string, before: nat)
    ensures AllTrue(reading, [subject], [text], before) <==> reading(subject, text, before)
    ensures MarksIn([text]) == Marks(text)
  {
    assert [subject][..0] == [] && [text][..0] == [];
  }

  /******* The statement *******/

  function Head(backend: Backend, dataset: Dataset, frame: Frame): string
    requires RawSource(backend, dataset).Some?
  {
    "SELECT " + frame.select + " FROM " + Render(backend, From(backend, RawSource(backend, dataset).value))
  }

  function Conjunction(texts: seq<string>): string {
    if texts == [] then ""
    else if |texts| == 1 then texts[0]
    else Conjunction(texts[..|texts| - 1]) + " AND " + texts[|texts| - 1]
  }

  lemma {:induction false} ConjunctionText(backend: Backend, clauses: seq<Sql>)
    ensures Render(backend, Joined(clauses, " AND ")) == Conjunction(TextsOf(backend, clauses))
  {
    var texts := TextsOf(backend, clauses);
    if |clauses| > 1 {
      var n := |clauses| - 1;
      ConjunctionText(backend, clauses[..n]);
      assert texts[..n] == TextsOf(backend, clauses[..n]);
      RenderConcat(backend, Joined(clauses[..n], " AND ") + [Fixed(" AND ")], clauses[n]);
      RenderConcat(backend, Joined(clauses[..n], " AND "), [Fixed(" AND ")]);
      RenderOne(backend, Fixed(" AND "));
    }
  }

  lemma StatementText(backend: Backend, frame: Frame, from: Sql, clauses: seq<Sql>, order: string)
    ensures Render(backend, Statement(frame, from, clauses, order))
      == "SELECT " + frame.select + " FROM " + Render(backend, from)
         + (if clauses == [] then "" else " WHERE ") + Conjunction(TextsOf(backend, clauses))
         + (frame.group + order + frame.limit)
  {
    var first, middle, last := "SELECT " + frame.select + " FROM ", if clauses == [] then "" else " WHERE ", frame.group + order + frame.limit;
    FiveTexts(backend, first, from, middle, Joined(clauses, " AND "), last);
    ConjunctionText(backend, clauses);
  }

  lemma FiveTexts(backend: Backend, first: string, from: Sql, middle: string, joined: Sql, last: string)
    ensures Render(backend, [Fixed(first)] + from + [Fixed(middle)] + joined + [Fixed(last)])
      == first + Render(backend, from) + middle + Render(backend, joined) + last
  {
    var a := [Fixed(first)] + from;
    RenderConcat(backend, a + [Fixed(middle)] + joined, [Fixed(last)]);
    RenderConcat(backend, a + [Fixed(middle)], joined);
    RenderConcat(backend, a, [Fixed(middle)]);
    RenderConcat(backend, [Fixed(first)], from);
    RenderOne(backend, Fixed(first));
    RenderOne(backend, Fixed(middle));
    RenderOne(backend, Fixed(last));
  }

  function InSource(backend: Backend, dataset: Dataset): bool
    requires RawSource(backend, dataset).Some?
  {
    SourceMarkers(backend, RawSource(backend, dataset).value) > 0
  }

  function CompiledClauses(backend: Backend, dataset: Dataset, r: Request): seq<Sql>
    requires RawSource(backend, dataset).Some? && Demands(dataset.fields, r.filters).Ok?
  {
    TenantPredicates(InSource(backend, dataset)) + FilterClauses(backend, dataset.fields, r.filters)
  }

  /** The texts behind WHERE, and the expressions they are about. */
  function CompiledTexts(backend: Backend, dataset: Dataset, r: Request): seq<string>
    requires RawSource(backend, dataset).Some? && Demands(dataset.fields, r.filters).Ok?
  {
    TextsOf(backend, CompiledClauses(backend, dataset, r))
  }

  function CompiledSubjects(backend: Backend, dataset: Dataset, r: Request): seq<string>
    requires RawSource(backend, dataset).Some?
  {
    FirstSubjects(InSource(backend, dataset)) + Subjects(backend, dataset.fields, r.filters)
  }

  /** The text of a compiled statement: its clauses stand behind WHERE, joined by AND. */
  lemma CompiledText(backend: Backend, dataset: Dataset, r: Request, frame: Frame, orderings: seq<Ordering>)
    requires RawSource(backend, dataset).Some? && Demands(dataset.fields, r.filters).Ok?
    ensures Render(backend, CompiledSql(backend, dataset, r, frame, orderings))
      == Head(backend, dataset, frame)
         + (if CompiledTexts(backend, dataset, r) == [] then "" else " WHERE ")
         + Conjunction(CompiledTexts(backend, dataset, r))
         + (frame.group + OrderText(orderings) + frame.limit)
  {
    StatementText(
      backend, frame, From(backend, RawSource(backend, dataset).value), CompiledClauses(backend, dataset, r), OrderText(orderings));
  }

  lemma HeadMarks(dataset: Dataset, frame: Frame)
    requires RawSource(ClickHouse, dataset).Some? && PlainCatalog(ClickHouse, dataset, frame)
    ensures Marks(Head(ClickHouse, dataset, frame)) == Markers(RawSource(ClickHouse, dataset).value)
  {
    var raw := RawSource(ClickHouse, dataset).value;
    var select := "SELECT " + frame.select + " FROM ";
    PlainSource(raw);
    RenderedMarks(Source(raw));
    SourceHoles(raw);
    PlainAppend(ClickHouse, "SELECT ", frame.select);
    PlainAppend(ClickHouse, "SELECT " + frame.select, " FROM ");
    NoMarks(select);
    MarksConcat(select, Render(ClickHouse, Source(raw)));
  }

  /** The row passes all that stands behind the statement's WHERE, with the values its placeholders stand for. */
  ghost predicate StatementSelects(
      db: Database, backend: Backend, dataset: Dataset, r: Request, frame: Frame, tenant: string, row: Row)
    requires RawSource(backend, dataset).Some? && Demands(dataset.fields, r.filters).Ok?
  {
    Selects(
      db, backend, CompiledSubjects(backend, dataset, r), CompiledTexts(backend, dataset, r),
      [TextBind(tenant)] + Demands(dataset.fields, r.filters).value, Marks(Head(backend, dataset, frame)), row)
  }

  /** What compilation needs of a request and the catalog, for a statement whose text says what it means. */
  ghost predicate Readable(backend: Backend, dataset: Dataset, r: Request, frame: Frame) {
    && RawSource(backend, dataset).Some? && Demands(dataset.fields, r.filters).Ok?
    && AllAvailable(backend, dataset.fields, r.filters) && PlainCatalog(backend, dataset, frame)
    && (backend == ClickHouse ==> Markers(RawSource(backend, dataset).value) <= 1)
  }

  /** A compiled statement selects the tenant's rows, unless its source sees to that, that every filter asks for. */
  lemma CompiledSelects(
      db: Database, backend: Backend, dataset: Dataset, r: Request, frame: Frame, tenant: string, row: Row)
    requires Readable(backend, dataset, r, frame)
    ensures StatementSelects(db, backend, dataset, r, frame, tenant, row) <==>
      && (InSource(backend, dataset) || IsTenants(db, tenant, row))
      && forall f | f in r.filters :: Asks(db, backend, dataset.fields, f, row)
  {
    var inSource, before := InSource(backend, dataset), Marks(Head(backend, dataset, frame));
    var binds := [TextBind(tenant)] + Demands(dataset.fields, r.filters).value;
    if backend == ClickHouse {
      HeadMarks(dataset, frame);
    }
    TenantSelects(db, backend, inSource, tenant, binds, before, row);
    FiltersSelect(
      db, backend, dataset.fields, r.filters, FirstSubjects(inSource), TextsOf(backend, TenantPredicates(inSource)), tenant,
      before, row);
    TextsGrown(backend, TenantPredicates(inSource), FilterClauses(backend, dataset.fields, r.filters));
  }

  lemma TextsGrown(backend: Backend, a: seq<Sql>, b: seq<Sql>)
    ensures TextsOf(backend, a + b) == TextsOf(backend, a) + TextsOf(backend, b)
  {
  }

  /**
  A tenant filter adds no clause. Accepted, it asks for nothing that the tenant's own clause does
  not: it holds of every row that is the tenant's.
  */
  lemma TenantFilterHolds(db: Database, dataset: Dataset, r: Request, now: int, parse: Parser, f: Filter, row: Row)
    requires Acceptable(dataset, r, now, parse) && f in r.filters && f.field == "tenant_id"
    requires IsTenants(db, r.tenant.value, row)
    ensures FilterHolds(db, UuidKind, f.operator, f.value, row(TENANT_SUBJECT))
  {
    assert FilterOk(f, dataset.fields, r.tenant.value, parse);
  }

  /******* The order *******/

  /** An item of an ORDER BY: a column label and a direction. */
  function ReadOrdering(s: string): Option<Ordering> {
    if s == "" || s[0] != 'c' then None
    else
      var digits := LeadingDigits(s[1..]);
      LeadingIsShort(s[1..]);
      LeadingAreDigits(s[1..]);
      match ReadDirection(s[1 + |digits|..])
      case None => None
      case Some(ascending) => Some(Ordering(Value(digits), ascending))
  }

  function ReadDirection(s: string): Option<bool> {
    if s == " ASC" then Some(true) else if s == " DESC" then Some(false) else None
  }

  function Direction(ascending: bool): (r: string)
    ensures ReadDirection(r) == Some(ascending) && !StartsWithDigit(r)
  {
    if ascending then " ASC" else " DESC"
  }

  lemma NumberedReads(digits: string, direction: string, ascending: bool)
    requires (forall c | c in digits :: IsDigit(c)) && !StartsWithDigit(direction)
    requires ReadDirection(direction) == Some(ascending)
    ensures ReadOrdering("c" + digits + direction) == Some(Ordering(Value(digits), ascending))
  {
    var s := "c" + digits + direction;
    assert s[1..] == digits + direction;
    LeadingDigitsEnd(digits, direction);
    assert s[1 + |digits|..] == direction;
  }

  lemma OrderingReads(o: Ordering)
    ensures ReadOrdering(OrderItem(o)) == Some(o)
  {
    DecimalReadsBack(o.output);
    NumberedReads(Decimal(o.output), Direction(o.ascending), o.ascending);
  }

  function Commas(items: seq<string>): string {
    if items == [] then ""
    else if |items| == 1 then items[0]
    else Commas(items[..|items| - 1]) + ", " + items[|items| - 1]
  }

  lemma CommasGrow(lead: string, front: seq<string>, item: string)
    ensures front == [] ==> lead + item == lead + Commas(front + [item])
    ensures front != [] ==> lead + Commas(front) + ", " + item == lead + Commas(front + [item])
  {
    assert (front + [item])[..|front|] == front;
    Regroup(lead, Commas(front), ", ", item);
  }

  /** The items are those of the orderings, one by one. */
  ghost predicate ItemsRead(items: seq<string>, orderings: seq<Ordering>) {
    |items| == |orderings| && forall k | 0 <= k < |items| :: ReadOrdering(items[k]) == Some(orderings[k])
  }

  lemma ItemsNext(items: seq<string>, orderings: seq<Ordering>, o: Ordering)
    requires ItemsRead(items, orderings)
    ensures ItemsRead(items + [OrderItem(o)], orderings + [o])
  {
    OrderingReads(o);
  }

  /** Behind ORDER BY stand the resolved orderings, in the order of the request. */
  lemma {:induction false} OrderTextReads(orderings: seq<Ordering>) returns (items: seq<string>)
    requires orderings != []
    ensures OrderText(orderings) == OrderStart(0) + Commas(items) && ItemsRead(items, orderings)
  {
    var n := |orderings| - 1;
    var front := [];
    if n > 0 {
      front := OrderTextReads(orderings[..n]);
    }
    items := front + [OrderItem(orderings[n])];
    ItemsNext(front, orderings[..n], orderings[n]);
    LastApart(orderings);
    CommasGrow(OrderStart(0), front, OrderItem(orderings[n]));
    OrderStep(orderings);
  }

  lemma {:induction false} OrderStep(orderings: seq<Ordering>)
    requires orderings != []
    ensures var n := |orderings| - 1;
      && (n == 0 ==> OrderText(orderings) == OrderStart(0) + OrderItem(orderings[0]))
      && (n > 0 ==> OrderText(orderings) == OrderText(orderings[..n]) + ", " + OrderItem(orderings[n]))
  {
    if |orderings| == 1 {
      assert OrderText(orderings[..0]) == "";
    }
  }

  /******* The window *******/

  /** A filter that asks for a row dated `t` lets `t` pass. */
  lemma AskedPasses(db: Database, backend: Backend, field: Field, f: Filter, t: int)
    requires field.kind == TimestampKind
    requires FilterMeans(db, backend, field.kind, f.operator, f.value, Some(Instant(t)))
    ensures Passes(t, f, db.instant)
  {
  }

  lemma SelectedPasses(
      db: Database, backend: Backend, dataset: Dataset, r: Request, frame: Frame, tenant: string, row: Row, time: Field, t: int)
    requires Readable(backend, dataset, r, frame) && StatementSelects(db, backend, dataset, r, frame, tenant, row)
    requires FieldNamed(dataset.fields, time.id) == Some(time) && time.kind == TimestampKind && time.id != "tenant_id"
    requires FieldExpression(backend, time).Some? && row(FieldExpression(backend, time).value) == Some(Instant(t))
    ensures PassesAll(t, time.id, r.filters, db.instant)
  {
    CompiledSelects(db, backend, dataset, r, frame, tenant, row);
    forall f | f in r.filters && f.field == time.id ensures Passes(t, f, db.instant) {
      assert Asks(db, backend, dataset.fields, f, row);
      AskedPasses(db, backend, time, f, t);
    }
  }

  /** `row` is dated `t`, no later than now, and selected. */
  ghost predicate SelectsDated(
      db: Database, backend: Backend, dataset: Dataset, r: Request, frame: Frame, tenant: string, row: Row, time: Field,
      now: int, t: int)
    requires Readable(backend, dataset, r, frame) && FieldExpression(backend, time).Some?
  {
    && StatementSelects(db, backend, dataset, r, frame, tenant, row)
    && row(FieldExpression(backend, time).value) == Some(Instant(t)) && t <= now
  }

  /** The rows dated no later than now that a compiled statement selects lie in one window under 367 days. */
  lemma CompiledWindowIsBounded(
      db: Database, backend: Backend, dataset: Dataset, r: Request, frame: Frame, now: int, time: Field)
      returns (start: int)
    requires Acceptable(dataset, r, now, db.instant) && dataset.timeField == Some(time.id)
    requires FieldNamed(dataset.fields, time.id) == Some(time) && time.id != "tenant_id"
    requires forall f | f in dataset.fields && f.id == time.id :: f.kind == TimestampKind
    requires Readable(backend, dataset, r, frame) && FieldExpression(backend, time).Some?
    ensures forall row: Row, t | SelectsDated(db, backend, dataset, r, frame, r.tenant.value, row, time, now, t) ::
      start <= t < start + (MAX_DAYS + 1) * DAY
  {
    start := AcceptedWindowIsBounded(dataset, r, now, db.instant);
    forall row: Row, t | SelectsDated(db, backend, dataset, r, frame, r.tenant.value, row, time, now, t)
      ensures start <= t < start + (MAX_DAYS + 1) * DAY
    {
      SelectedPasses(db, backend, dataset, r, frame, r.tenant.value, row, time, t);
    }
  }
}
