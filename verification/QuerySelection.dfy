/** Which rows a compiled statement selects: those its request's filters ask for. */
module QuerySelection {
  import opened Prelude
  import opened Text
  import opened TextMatching
  import opened QueryModel
  import opened QueryValidation
  import opened QueryCompiler
  import opened QueryStatement
  import opened QueryRendering
  import opened QueryMeaning
  import opened QueryReading

  /******* Bound values *******/

  /** A value a field of this kind can be compared with. */
  predicate IsOfKind(kind: FieldKind, cell: Cell) {
    match kind
    case IntegerKind => cell.NumberCell? && cell.n.Whole? && MIN_I64 <= cell.n.i <= MAX_I64
    case FloatKind => cell.NumberCell?
    case BooleanKind => cell.BoolCell?
    case JsonKind => cell.JsonCell?
    case _ => cell.TextCell?
  }

  predicate IsItemOfKind(kind: FieldKind, item: Json) {
    match kind
    case IntegerKind => item.JsonNumber? && item.n.Whole? && MIN_I64 <= item.n.i <= MAX_I64
    case FloatKind => item.JsonNumber?
    case BooleanKind => item.JsonBool?
    case JsonKind => true
    case _ => item.JsonText?
  }

  /** The bind of a filter's value is made exactly for values of the kind, and stands for that value. */
  lemma CellBindExactly(db: Database, backend: Backend, kind: FieldKind, cell: Cell)
    ensures CellBind(kind, cell).Ok? <==> IsOfKind(kind, cell)
    ensures CellBind(kind, cell).Ok? ==>
      Convert(db, ConversionOf(backend, kind), CellBind(kind, cell).value) == Target(db, kind, cell)
  {
  }

  lemma ItemBindExactly(db: Database, backend: Backend, kind: FieldKind, item: Json)
    ensures ItemBind(kind, item).Ok? <==> IsItemOfKind(kind, item)
    ensures ItemBind(kind, item).Ok? ==>
      Convert(db, ConversionOf(backend, kind), ItemBind(kind, item).value) == ItemTarget(db, kind, item)
  {
  }

  lemma {:induction false} ItemBindsExactly(kind: FieldKind, items: seq<Json>)
    ensures ItemBinds(kind, items).Ok? <==> forall i | 0 <= i < |items| :: IsItemOfKind(kind, items[i])
  {
    if items != [] {
      var n := |items| - 1;
      ItemBindsExactly(kind, items[..n]);
      assert ItemBind(kind, items[n]).Ok? <==> IsItemOfKind(kind, items[n]);
      assert forall i | 0 <= i < n :: items[..n][i] == items[i];
    }
  }

  /** The filter carries what its operator needs. */
  predicate Askable(kind: FieldKind, op: Operator, value: Option<Cell>) {
    match op
    case IsNull => true
    case IsNotNull => true
    case InList => HoldsItems(kind, value) && value.value.json.items != []
    case NotInList => HoldsItems(kind, value) && value.value.json.items != []
    case Between => HoldsItems(kind, value) && |value.value.json.items| == 2
    case Contains => value.Some? && value.value.TextCell?
    case BeginsWith => value.Some? && value.value.TextCell?
    case EndsWith => value.Some? && value.value.TextCell?
    case _ => value.Some? && IsOfKind(kind, value.value)
  }

  predicate HoldsItems(kind: FieldKind, value: Option<Cell>) {
    && value.Some? && value.value.JsonCell? && value.value.json.JsonArray?
    && forall i | 0 <= i < |value.value.json.items| :: IsItemOfKind(kind, value.value.json.items[i])
  }

  lemma ListDemandExactly(field: Field, op: Operator, value: Option<Cell>)
    requires IsListOperator(op)
    ensures Demand(field, op, value).Ok? <==> Askable(field.kind, op, value)
  {
    if value.Some? && value.value.JsonCell? && value.value.json.JsonArray? {
      ItemBindsExactly(field.kind, value.value.json.items);
    }
  }

  lemma DemandExactly(field: Field, op: Operator, value: Option<Cell>)
    ensures Demand(field, op, value).Ok? <==> Askable(field.kind, op, value)
  {
    if IsListOperator(op) {
      ListDemandExactly(field, op, value);
    } else if NeedsValue(op) && value.Some? {
      assert CellBind(field.kind, value.value).Ok? <==> IsOfKind(field.kind, value.value);
    }
  }

  lemma {:induction false} CollectExactly(demands: seq<Result<seq<Bind>, QueryError>>)
    ensures Collect(demands).Ok? <==> forall i | 0 <= i < |demands| :: demands[i].Ok?
  {
    if demands != [] {
      CollectExactly(demands[..|demands| - 1]);
    }
  }

  /** The filter can be bound: it is the tenant's, or it carries what its field's kind and its operator need. */
  predicate Bindable(fields: seq<Field>, f: Filter) {
    || f.field == "tenant_id"
    || (var field := FieldNamed(fields, f.field); field.Some? && Askable(field.value.kind, f.operator, f.value))
  }

  lemma DemandsExactly(fields: seq<Field>, filters: seq<Filter>)
    ensures Demands(fields, filters).Ok? <==> forall i | 0 <= i < |filters| :: Bindable(fields, filters[i])
  {
    var demands := DemandList(fields, filters);
    CollectExactly(demands);
    forall i | 0 <= i < |filters|
      ensures demands[i].Ok? <==> Bindable(fields, filters[i])
    {
      var f := filters[i];
      if f.field != "tenant_id" && FieldNamed(fields, f.field).Some? {
        DemandExactly(FieldNamed(fields, f.field).value, f.operator, f.value);
      }
    }
  }

  /** Beyond what the validator accepts, a request compiles exactly if the backend has what it names and can bind it. */
  lemma CompilesExactly(backend: Backend, dataset: Dataset, r: Request, now: int, parse: Parser)
    requires Acceptable(dataset, r, now, parse)
    ensures Compilable(backend, dataset, r, now, parse) <==>
      && RawSource(backend, dataset).Some?
      && SelectionAvailable(backend, dataset.fields, r) && AllAvailable(backend, dataset.fields, r.filters)
      && (forall i | 0 <= i < |r.filters| :: Bindable(dataset.fields, r.filters[i]))
      && (forall o | o in r.orders :: Resolves(r, o.field))
  {
    DemandsExactly(dataset.fields, r.filters);
  }

  /******* One clause *******/

  /** On Postgres a text search is a pattern match, in which wildcards of the filter's value count as such. */
  ghost predicate PatternHolds(db: Database, op: Operator, value: Option<Cell>, v: Option<Datum>) {
    && v.Some? && value.Some? && value.value.TextCell?
    && Like(Fold(db.fold, Pattern(op != BeginsWith, value.value.s, op != QueryModel.EndsWith)), Folded(db, v.value))
  }

  /** What a clause on this backend selects for a filter. */
  ghost predicate FilterMeans(
      db: Database, backend: Backend, kind: FieldKind, op: Operator, value: Option<Cell>, v: Option<Datum>)
  {
    if backend == Postgres && IsTextOperator(op) then PatternHolds(db, op, value, v)
    else FilterHolds(db, kind, op, value, v)
  }

  /** The bind values a clause was given. */
  ghost predicate BoundAt(binds: seq<Bind>, from: nat, demand: seq<Bind>) {
    from + |demand| <= |binds| && forall k | 0 <= k < |demand| :: binds[from + k] == demand[k]
  }

  lemma ValuesOfNumbered(
      db: Database, backend: Backend, kind: FieldKind, binds: seq<Bind>, from: nat, before: nat, demand: seq<Bind>)
    requires BoundAt(binds, from, demand) && (backend == Postgres || before == from)
    ensures var values := SlotValues(db, SlotsOf(backend, Numbered(from, |demand|, kind)), binds, before);
      |values| == |demand| && forall k | 0 <= k < |demand| :: values[k] == Convert(db, ConversionOf(backend, kind), demand[k])
  {
  }

  lemma ScalarMeans(db: Database, kind: FieldKind, op: Operator, cell: Cell, v: Option<Datum>, values: seq<Option<Datum>>)
    requires IsComparison(op) && values == [Target(db, kind, cell)]
    ensures forall backend :: Holds(db, ShapeOf(backend, op), values, v) <==> FilterHolds(db, kind, op, Some(cell), v)
  {
    if v.Some? && values[0].Some? {
      assert Present(values) == [values[0].value];
    }
  }

  lemma ListMeans(db: Database, kind: FieldKind, op: Operator, items: seq<Json>, v: Option<Datum>, values: seq<Option<Datum>>)
    requires op == InList || op == NotInList
    requires |values| == |items| && forall k | 0 <= k < |items| :: values[k] == ItemTarget(db, kind, items[k])
    ensures forall backend ::
      Holds(db, ShapeOf(backend, op), values, v) <==> FilterHolds(db, kind, op, Some(JsonCell(JsonArray(items))), v)
  {
    if v.Some? && forall k | 0 <= k < |values| :: values[k].Some? {
      var given := Present(values);
      if i :| 0 <= i < |items| && ItemTarget(db, kind, items[i]) == v {
        assert given[i] == v.value;
      }
      if v.value in given {
        var i :| 0 <= i < |given| && given[i] == v.value;
        assert ItemTarget(db, kind, items[i]) == v;
      }
    }
  }

  lemma RangeMeans(db: Database, kind: FieldKind, items: seq<Json>, v: Option<Datum>, values: seq<Option<Datum>>)
    requires |values| == |items| == 2 && forall k | 0 <= k < |items| :: values[k] == ItemTarget(db, kind, items[k])
    ensures Holds(db, Within, values, v) <==> FilterHolds(db, kind, Between, Some(JsonCell(JsonArray(items))), v)
  {
    if v.Some? && values[0].Some? && values[1].Some? {
      assert Present(values) == [values[0].value, values[1].value];
    }
  }

  lemma SearchMeans(
      db: Database, backend: Backend, kind: FieldKind, op: Operator, s: string, v: Option<Datum>, values: seq<Option<Datum>>)
    requires IsTextOperator(op) && values == [Some(TextDatum(s))]
    ensures Holds(db, ShapeOf(backend, op), values, v) <==> FilterMeans(db, backend, kind, op, Some(TextCell(s)), v)
  {
    assert Present(values) == [TextDatum(s)];
  }

  /** The condition a clause is read as, over the values bound for it, is what the filter means. */
  lemma ConditionMeans(
      db: Database, backend: Backend, field: Field, op: Operator, value: Option<Cell>, v: Option<Datum>,
      values: seq<Option<Datum>>)
    requires Demand(field, op, value).Ok? && |values| == |Demand(field, op, value).value|
    requires forall k | 0 <= k < |values| ::
      values[k] == Convert(db, ConversionOf(backend, HoleKind(field, op)), Demand(field, op, value).value[k])
    ensures Holds(db, ShapeOf(backend, op), values, v) <==> FilterMeans(db, backend, field.kind, op, value, v)
  {
    if IsListOperator(op) {
      var items := value.value.json.items;
      forall k | 0 <= k < |items| ensures values[k] == ItemTarget(db, field.kind, items[k]) {
        ItemBindExactly(db, backend, field.kind, items[k]);
      }
      if op == Between {
        RangeMeans(db, field.kind, items, v, values);
      } else {
        ListMeans(db, field.kind, op, items, v, values);
      }
    } else if IsTextOperator(op) {
      assert values == [Some(TextDatum(value.value.s))];
      SearchMeans(db, backend, field.kind, op, value.value.s, v, values);
    } else if NeedsValue(op) {
      CellBindExactly(db, backend, field.kind, value.value);
      assert values == [Target(db, field.kind, value.value)];
      ScalarMeans(db, field.kind, op, value.value, v, values);
    }
  }

  lemma DemandIsFitting(field: Field, op: Operator, value: Option<Cell>, from: nat)
    requires Demand(field, op, value).Ok?
    ensures Fitting(op, Numbered(from, |Demand(field, op, value).value|, HoleKind(field, op)))
  {
  }

  /**
  The clause of a filter, read from its text and evaluated over the bound values, is true of a row
  exactly when the filter asks for the row.
  */
  lemma ClauseMeans(
      db: Database, backend: Backend, field: Field, op: Operator, value: Option<Cell>, binds: seq<Bind>, from: nat,
      before: nat, v: Option<Datum>)
    requires FieldExpression(backend, field).Some? && Demand(field, op, value).Ok?
    requires BoundAt(binds, from, Demand(field, op, value).value) && (backend == Postgres || before == from)
    ensures var e, n := FieldExpression(backend, field).value, |Demand(field, op, value).value|;
      var text := Render(backend, Predicate(backend, op, e, Numbered(from, n, HoleKind(field, op))));
      ClauseHolds(db, backend, e, text, binds, before, v) <==> FilterMeans(db, backend, field.kind, op, value, v)
  {
    var e, demand := FieldExpression(backend, field).value, Demand(field, op, value).value;
    var holes := Numbered(from, |demand|, HoleKind(field, op));
    DemandIsFitting(field, op, value, from);
    PredicateReads(backend, op, e, holes);
    ClauseHoldsMeans(
      db, backend, e, Render(backend, Predicate(backend, op, e, holes)), binds, before, v,
      Condition(ShapeOf(backend, op), SlotsOf(backend, holes)));
    ValuesOfNumbered(db, backend, HoleKind(field, op), binds, from, before, demand);
    ConditionMeans(db, backend, field, op, value, v, SlotValues(db, SlotsOf(backend, holes), binds, before));
  }

  /******* Text searches on Postgres *******/

  lemma FoldedPattern(db: Database, leading: bool, s: string, trailing: bool)
    requires KeepsWildcards(db.fold)
    ensures Fold(db.fold, Pattern(leading, s, trailing)) == Pattern(leading, Fold(db.fold, s), trailing)
  {
    FoldConcat(db.fold, if leading then "%" else "", s + if trailing then "%" else "");
    FoldConcat(db.fold, s, if trailing then "%" else "");
    assert IsWildcard('%');
    assert Fold(db.fold, "%") == "%" && Fold(db.fold, "") == "";
  }

  /** The pattern an operator matches with. */
  function PatternOf(op: Operator, n: string): string {
    Pattern(op != BeginsWith, n, op != QueryModel.EndsWith)
  }

  /** Text `n` stands in `t` where the operator looks for it. */
  ghost predicate Found(op: Operator, n: string, t: string) {
    match op
    case Contains => Occurs(t, n)
    case BeginsWith => StartsWith(t, n)
    case EndsWith => TextMatching.EndsWith(t, n)
    case _ => false
  }

  lemma PatternTexts(n: string)
    ensures PatternOf(Contains, n) == "%" + (n + "%")
    ensures PatternOf(BeginsWith, n) == n + "%"
    ensures PatternOf(QueryModel.EndsWith, n) == "%" + n
  {
    assert n + "" == n && "" + (n + "%") == n + "%";
  }

  lemma SearchesFolded(db: Database, kind: FieldKind, op: Operator, s: string, v: Datum)
    requires IsTextOperator(op) && KeepsWildcards(db.fold)
    ensures PatternHolds(db, op, Some(TextCell(s)), Some(v)) <==> Like(PatternOf(op, Fold(db.fold, s)), Folded(db, v))
    ensures FilterHolds(db, kind, op, Some(TextCell(s)), Some(v)) <==> Found(op, Fold(db.fold, s), Folded(db, v))
  {
    FoldedPattern(db, op != BeginsWith, s, op != QueryModel.EndsWith);
  }

  lemma LiteralIsFound(op: Operator, n: string, t: string)
    requires IsTextOperator(op) && IsLiteral(n)
    ensures Like(PatternOf(op, n), t) <==> Found(op, n, t)
  {
    PatternTexts(n);
    match op
    case Contains => LiteralOccurs(n, t);
    case BeginsWith => LiteralStarts(n, t);
    case EndsWith => LiteralEnds(n, t);
  }

  lemma LiteralSearch(db: Database, kind: FieldKind, op: Operator, s: string, v: Option<Datum>)
    requires IsTextOperator(op) && KeepsWildcards(db.fold) && IsLiteral(s)
    ensures PatternHolds(db, op, Some(TextCell(s)), v) <==> FilterHolds(db, kind, op, Some(TextCell(s)), v)
  {
    if v.Some? {
      SearchesFolded(db, kind, op, s, v.value);
      FoldLiteral(db.fold, s);
      LiteralIsFound(op, Fold(db.fold, s), Folded(db, v.value));
    }
  }

  lemma DanglingIsFound(n: string)
    requires Dangling(n)
    ensures Found(QueryModel.EndsWith, n, n) && !Like(PatternOf(QueryModel.EndsWith, n), n)
  {
    PatternTexts(n);
    assert n[|n| - |n|..] == n;
    DanglingAtEnd(n, n);
  }

  lemma WildcardIsNotFound(op: Operator, n: string, x: char)
    requires IsTextOperator(op) && !IsLiteral(n) && x != '_' && (op == QueryModel.EndsWith ==> !Dangling(n))
    ensures var t := Instance(n, x) + if Dangling(n) then "%" else "";
      Like(PatternOf(op, n), t) && !Found(op, n, t)
  {
    PatternTexts(n);
    var t := WildcardsDiffer(n, x);
  }

  /** A value on which the pattern and the search for the very text disagree. */
  lemma WildcardSearch(db: Database, kind: FieldKind, op: Operator, s: string) returns (v: Option<Datum>)
    requires IsTextOperator(op) && KeepsWildcards(db.fold) && !IsLiteral(s)
    ensures PatternHolds(db, op, Some(TextCell(s)), v) != FilterHolds(db, kind, op, Some(TextCell(s)), v)
  {
    var n := Fold(db.fold, s);
    FoldLiteral(db.fold, s);
    FoldInstance(db.fold, s, 'x');
    if op == QueryModel.EndsWith && Dangling(s) {
      v := Some(TextDatum(s));
      DanglingIsFound(n);
    } else {
      var end := if Dangling(s) then "%" else "";
      v := Some(TextDatum(Instance(s, 'x') + end));
      assert !IsWildcard('x') && IsWildcard('%');
      WildcardIsNotFound(op, n, db.fold('x'));
      FoldConcat(db.fold, Instance(s, 'x'), end);
      assert Fold(db.fold, end) == end;
    }
    SearchesFolded(db, kind, op, s, v.value);
  }

  lemma DanglingAtEnd(n: string, t: string)
    requires Dangling(n)
    ensures !Like("%" + n, t)
  {
    PercentSkips(n, t);
    forall i: nat | i <= |t| ensures !Like(n, t[i..]) {
      DanglingNeverMatches(n, t[i..]);
    }
  }

  /** A text search on Postgres finds what it is asked for exactly when the text holds no wildcard. */
  lemma SearchIsLiteralExactly(db: Database, kind: FieldKind, op: Operator, s: string)
    requires IsTextOperator(op) && KeepsWildcards(db.fold)
    ensures (forall v :: PatternHolds(db, op, Some(TextCell(s)), v) <==> FilterHolds(db, kind, op, Some(TextCell(s)), v))
       <==> IsLiteral(s)
  {
    if IsLiteral(s) {
      forall v ensures PatternHolds(db, op, Some(TextCell(s)), v) <==> FilterHolds(db, kind, op, Some(TextCell(s)), v) {
        LiteralSearch(db, kind, op, s, v);
      }
    } else {
      var v := WildcardSearch(db, kind, op, s);
    }
  }
}
