/**
The rows a whole statement selects. Its text is cut into the clauses behind WHERE; each is read and
evaluated with the binds its placeholders stand for, counted from the start of the statement.
*/
module QueryWhere {
  import opened Prelude
  import opened Sequences
  import opened QueryModel
  import opened QueryCompiler
  import opened QueryStatement
  import opened QueryRendering
  import opened QueryMeaning
  import opened QuerySelection

  type Row = string -> Option<Datum>

  function TextsOf(backend: Backend, clauses: seq<Sql>): (r: seq<string>)
    ensures |r| == |clauses| && forall k | 0 <= k < |r| :: r[k] == Render(backend, clauses[k])
  {
    seq(|clauses|, k requires 0 <= k < |clauses| => Render(backend, clauses[k]))
  }

  function MarksIn(texts: seq<string>): nat {
    if texts == [] then 0 else MarksIn(texts[..|texts| - 1]) + Marks(texts[|texts| - 1])
  }

  /** Whether a clause on a subject, with that many marks before it, is true of a row. */
  type Reading = (string, string, nat) -> bool

  ghost function ReadingOf(db: Database, backend: Backend, binds: seq<Bind>, row: Row): Reading {
    (subject: string, text: string, before: nat) => ClauseHolds(db, backend, subject, text, binds, before, row(subject))
  }

  /** Every clause, on its subject, is true; `before` marks come before all of them. */
  ghost predicate AllTrue(reading: Reading, subjects: seq<string>, texts: seq<string>, before: nat)
    decreases |texts|
  {
    if texts == [] then subjects == []
    else
      && |subjects| == |texts|
      && var n := |texts| - 1;
         && AllTrue(reading, subjects[..n], texts[..n], before)
         && reading(subjects[n], texts[n], before + MarksIn(texts[..n]))
  }

  lemma AllTrueNext(
      reading: Reading, subjects: seq<string>, texts: seq<string>, before: nat, subject: string, text: string)
    requires |subjects| == |texts|
    ensures AllTrue(reading, subjects + [subject], texts + [text], before) <==>
      AllTrue(reading, subjects, texts, before) && reading(subject, text, before + MarksIn(texts))
  {
    var n := |texts|;
    assert (subjects + [subject])[..n] == subjects && (texts + [text])[..n] == texts;
  }

  /** The row passes every clause of the statement. */
  ghost predicate Selects(
      db: Database, backend: Backend, subjects: seq<string>, texts: seq<string>, binds: seq<Bind>, before: nat, row: Row)
  {
    AllTrue(ReadingOf(db, backend, binds, row), subjects, texts, before)
  }

  lemma MarksInNext(texts: seq<string>, text: string)
    ensures MarksIn(texts + [text]) == MarksIn(texts) + Marks(text)
  {
    assert (texts + [text])[..|texts|] == texts;
  }

  /******* The filters' clauses *******/

  /** The expression a filter's clause is about. */
  function Subject(backend: Backend, fields: seq<Field>, f: Filter): seq<string> {
    if f.field == "tenant_id" || !Available(backend, fields, f.field) then []
    else [FieldExpression(backend, FieldNamed(fields, f.field).value).value]
  }

  /** The filter asks for the row; the tenant's own filter is no condition on it. */
  ghost predicate Asks(db: Database, backend: Backend, fields: seq<Field>, f: Filter, row: Row) {
    f.field != "tenant_id" ==>
      && Available(backend, fields, f.field)
      && var field := FieldNamed(fields, f.field).value;
         FilterMeans(db, backend, field.kind, f.operator, f.value, row(FieldExpression(backend, field).value))
  }

  lemma {:induction false} CollectedIsPrefix(demands: seq<Result<seq<Bind>, QueryError>>, i: nat)
    requires i <= |demands| && Collect(demands).Ok?
    ensures Collect(demands[..i]).Ok? && Collect(demands[..i]).value <= Collect(demands).value
    decreases |demands|
  {
    if i == |demands| {
      assert demands[..i] == demands;
    } else {
      var n := |demands| - 1;
      assert demands[..|demands|] == demands;
      CollectedBefore(demands, |demands|);
      CollectedIsPrefix(demands[..n], i);
      assert demands[..n][..i] == demands[..i];
    }
  }

  lemma BoundBehind(front: seq<Bind>, mine: seq<Bind>, all: seq<Bind>, first: Bind)
    requires front + mine <= all
    ensures BoundAt([first] + all, 1 + |front|, mine)
  {
    forall k | 0 <= k < |mine| ensures ([first] + all)[1 + |front| + k] == mine[k] {
      assert all[|front| + k] == (front + mine)[|front| + k];
    }
  }

  lemma DemandIsBound(demands: seq<Result<seq<Bind>, QueryError>>, i: nat, tenant: string)
    requires i < |demands| && Collect(demands).Ok?
    ensures Collect(demands[..i]).Ok? && demands[i].Ok?
    ensures BoundAt([TextBind(tenant)] + Collect(demands).value, 1 + |Collect(demands[..i]).value|, demands[i].value)
  {
    CollectedIsPrefix(demands, i + 1);
    CollectedBefore(demands, i + 1);
    BoundBehind(Collect(demands[..i]).value, demands[i].value, Collect(demands).value, TextBind(tenant));
  }

  ghost predicate PlainFields(backend: Backend, fields: seq<Field>) {
    forall g | g in fields && FieldExpression(backend, g).Some? :: PlainText(backend, FieldExpression(backend, g).value)
  }

  lemma ClauseMarks(op: Operator, e: string, holes: seq<Placeholder>)
    requires PlainText(ClickHouse, e)
    ensures Marks(Render(ClickHouse, Predicate(ClickHouse, op, e, holes))) == |holes|
  {
    PlainPredicate(ClickHouse, op, e, holes);
    RenderedMarks(Predicate(ClickHouse, op, e, holes));
    PredicateHoles(ClickHouse, op, e, holes);
  }

  /** What a filter adds to a statement: nothing, or a clause that reads as true exactly if `asked` and holds `n` marks. */
  ghost predicate AddsClause(
      reading: Reading, backend: Backend, subject: seq<string>, added: seq<string>, before: nat, asked: bool, n: nat)
  {
    if added == [] then subject == [] && asked && n == 0
    else
      && |subject| == |added| == 1 && reading(subject[0], added[0], before) == asked
      && (backend == ClickHouse ==> Marks(added[0]) == n)
  }

  lemma FilterAddsClause(
      db: Database, backend: Backend, fields: seq<Field>, f: Filter, demand: seq<Bind>, binds: seq<Bind>, from: nat,
      before: nat, row: Row)
    requires FilterAvailable(backend, fields, f) && FilterDemand(fields, f) == Ok(demand) && PlainFields(backend, fields)
    requires BoundAt(binds, from, demand) && (backend == Postgres || before == from)
    ensures AddsClause(
      ReadingOf(db, backend, binds, row), backend, Subject(backend, fields, f),
      TextsOf(backend, FilterClause(backend, fields, f, from, |demand|)), before, Asks(db, backend, fields, f, row), |demand|)
  {
    if f.field != "tenant_id" {
      var field := FieldNamed(fields, f.field).value;
      var e := FieldExpression(backend, field).value;
      ClauseMeans(db, backend, field, f.operator, f.value, binds, from, before, row(e));
      if backend == ClickHouse {
        ClauseMarks(f.operator, e, Numbered(from, |demand|, HoleKind(field, f.operator)));
      }
    }
  }

  /** The clauses are true exactly when those in front are and the first `i` filters ask for the row. */
  ghost predicate Tally(
      reading: Reading, backend: Backend, subjects: seq<string>, texts: seq<string>, before: nat, inFront: bool,
      asked: seq<bool>, i: nat, count: nat)
  {
    && i <= |asked| && |subjects| == |texts|
    && (AllTrue(reading, subjects, texts, before) <==> inFront && forall j | 0 <= j < i :: asked[j])
    && (backend == ClickHouse ==> before + MarksIn(texts) == 1 + count)
  }

  lemma TallyNext(
      reading: Reading, backend: Backend, subjects: seq<string>, texts: seq<string>, before: nat, inFront: bool,
      asked: seq<bool>, i: nat, count: nat, subject: seq<string>, added: seq<string>, n: nat)
    requires i < |asked| && Tally(reading, backend, subjects, texts, before, inFront, asked, i, count)
    requires AddsClause(reading, backend, subject, added, before + MarksIn(texts), asked[i], n)
    ensures Tally(reading, backend, subjects + subject, texts + added, before, inFront, asked, i + 1, count + n)
  {
    if added == [] {
      assert subjects + subject == subjects && texts + added == texts;
    } else {
      assert subject == [subject[0]] && added == [added[0]];
      AllTrueNext(reading, subjects, texts, before, subject[0], added[0]);
      MarksInNext(texts, added[0]);
    }
  }

  function Total(counts: seq<nat>): nat {
    if counts == [] then 0 else Total(counts[..|counts| - 1]) + counts[|counts| - 1]
  }

  /** Whatever each filter adds, all of them together add exactly what they ask, in order. */
  lemma {:induction false} TallyAll(
      reading: Reading, backend: Backend, subjects: seq<seq<string>>, added: seq<seq<string>>, counts: seq<nat>,
      asked: seq<bool>, i: nat, first: seq<string>, texts: seq<string>, before: nat, inFront: bool)
    requires i <= |subjects| == |added| == |counts| == |asked| && |first| == |texts|
    requires inFront <==> AllTrue(reading, first, texts, before)
    requires backend == ClickHouse ==> before + MarksIn(texts) == 1
    requires forall n: nat, m: nat | n < |asked| && (backend == ClickHouse ==> m == 1 + Total(counts[..n])) ::
      AddsClause(reading, backend, subjects[n], added[n], m, asked[n], counts[n])
    ensures Tally(
      reading, backend, first + Flatten(subjects[..i]), texts + Flatten(added[..i]), before, inFront, asked, i, Total(counts[..i]))
  {
    if i == 0 {
      assert first + [] == first && texts + [] == texts;
    } else {
      var n := i - 1;
      TallyAll(reading, backend, subjects, added, counts, asked, n, first, texts, before, inFront);
      var s, t := first + Flatten(subjects[..n]), texts + Flatten(added[..n]);
      TallyNext(
        reading, backend, s, t, before, inFront, asked, n, Total(counts[..n]), subjects[n], added[n], counts[n]);
      FlattenedNext(first, subjects, n);
      FlattenedNext(texts, added, n);
      assert counts[..i][..n] == counts[..n];
    }
  }

  lemma FlattenedNext<T>(first: seq<T>, parts: seq<seq<T>>, n: nat)
    requires n < |parts|
    ensures first + Flatten(parts[..n + 1]) == first + Flatten(parts[..n]) + parts[n]
  {
    assert parts[..n + 1] == parts[..n] + [parts[n]];
    FlattenNext(parts[..n], parts[n]);
  }

  /******* The filters of a request *******/

  predicate SameFilter(f: Filter, g: Filter) {
    f == g
  }

  /** `clause` is what filter `f` adds; behind a quantifier, so that lists of clauses are handled without their text. */
  ghost predicate IsClause(clause: seq<Sql>, backend: Backend, fields: seq<Field>, f: Filter, from: nat, n: nat) {
    forall g :: SameFilter(g, f) ==> clause == FilterClause(backend, fields, g, from, n)
  }

  lemma ClauseIs(clause: seq<Sql>, backend: Backend, fields: seq<Field>, f: Filter, from: nat, n: nat)
    ensures IsClause(clause, backend, fields, f, from, n) <==> clause == FilterClause(backend, fields, f, from, n)
  {
    assert SameFilter(f, f);
  }

  /** Filter `n` contributes `clause`, with its placeholders numbered behind those of the filters before it. */
  ghost predicate Contributes(
      clause: seq<Sql>, backend: Backend, fields: seq<Field>, filters: seq<Filter>,
      demands: seq<Result<seq<Bind>, QueryError>>, n: nat)
  {
    && n < |filters| == |demands| && Collect(demands[..n]).Ok? && demands[n].Ok?
    && IsClause(clause, backend, fields, filters[n], 1 + |Collect(demands[..n]).value|, |demands[n].value|)
  }

  lemma WhereGrows(
      backend: Backend, fields: seq<Field>, filters: seq<Filter>, demands: seq<Result<seq<Bind>, QueryError>>, n: nat)
      returns (clause: seq<Sql>)
    requires n < |filters| == |demands| && Collect(demands[..n + 1]).Ok?
    ensures Contributes(clause, backend, fields, filters, demands, n)
    ensures Where(backend, fields, filters, demands, n + 1) == Where(backend, fields, filters, demands, n) + clause
  {
    CollectedBefore(demands, n + 1);
    clause := FilterClause(backend, fields, filters[n], 1 + |Collect(demands[..n]).value|, |demands[n].value|);
    ClauseIs(clause, backend, fields, filters[n], 1 + |Collect(demands[..n]).value|, |demands[n].value|);
  }

  ghost predicate AllContribute(
      clauses: seq<seq<Sql>>, backend: Backend, fields: seq<Field>, filters: seq<Filter>,
      demands: seq<Result<seq<Bind>, QueryError>>)
  {
    forall n | 0 <= n < |clauses| :: Contributes(clauses[n], backend, fields, filters, demands, n)
  }

  lemma ContributesNext(
      clauses: seq<seq<Sql>>, clause: seq<Sql>, backend: Backend, fields: seq<Field>, filters: seq<Filter>,
      demands: seq<Result<seq<Bind>, QueryError>>)
    requires AllContribute(clauses, backend, fields, filters, demands)
    requires Contributes(clause, backend, fields, filters, demands, |clauses|)
    ensures AllContribute(clauses + [clause], backend, fields, filters, demands)
  {
  }

  lemma {:induction false} ClausesOf(
      backend: Backend, fields: seq<Field>, filters: seq<Filter>, demands: seq<Result<seq<Bind>, QueryError>>, i: nat)
      returns (clauses: seq<seq<Sql>>)
    requires i <= |filters| == |demands| && Collect(demands).Ok?
    ensures Collect(demands[..i]).Ok?
    ensures |clauses| == i && Flatten(clauses) == Where(backend, fields, filters, demands, i)
    ensures AllContribute(clauses, backend, fields, filters, demands)
  {
    CollectedIsPrefix(demands, i);
    if i == 0 {
      clauses := [];
    } else {
      var front := ClausesOf(backend, fields, filters, demands, i - 1);
      var clause := WhereGrows(backend, fields, filters, demands, i - 1);
      FlattenNext(front, clause);
      ContributesNext(front, clause, backend, fields, filters, demands);
      clauses := front + [clause];
    }
  }

  function TextLists(backend: Backend, clauses: seq<seq<Sql>>): (r: seq<seq<string>>)
    ensures |r| == |clauses| && forall n | 0 <= n < |r| :: r[n] == TextsOf(backend, clauses[n])
  {
    seq(|clauses|, n requires 0 <= n < |clauses| => TextsOf(backend, clauses[n]))
  }

  lemma {:induction false} TextsFlatten(backend: Backend, clauses: seq<seq<Sql>>)
    ensures Flatten(TextLists(backend, clauses)) == TextsOf(backend, Flatten(clauses))
  {
    if clauses != [] {
      TextsFlatten(backend, clauses[1..]);
      assert TextLists(backend, clauses)[1..] == TextLists(backend, clauses[1..]);
      assert TextsOf(backend, clauses[0] + Flatten(clauses[1..]))
        == TextsOf(backend, clauses[0]) + TextsOf(backend, Flatten(clauses[1..]));
    }
  }

  function SubjectLists(backend: Backend, fields: seq<Field>, filters: seq<Filter>): (r: seq<seq<string>>)
    ensures |r| == |filters| && forall n {:trigger r[n]} | 0 <= n < |r| :: r[n] == Subject(backend, fields, filters[n])
  {
    seq(|filters|, n requires 0 <= n < |filters| => Subject(backend, fields, filters[n]))
  }

  /** The expressions the clauses of all filters are about. */
  function Subjects(backend: Backend, fields: seq<Field>, filters: seq<Filter>): seq<string> {
    Flatten(SubjectLists(backend, fields, filters))
  }

  lemma CollectedAll(demands: seq<Result<seq<Bind>, QueryError>>)
    requires Collect(demands).Ok?
    ensures forall n {:trigger demands[n]} | 0 <= n < |demands| :: Collect(demands[..n]).Ok? && demands[n].Ok?
  {
    forall n | 0 <= n < |demands| ensures Collect(demands[..n]).Ok? && demands[n].Ok? {
      CollectedIsPrefix(demands, n + 1);
      CollectedBefore(demands, n + 1);
    }
  }

  function Counts(demands: seq<Result<seq<Bind>, QueryError>>): (r: seq<nat>)
    requires Collect(demands).Ok?
    ensures |r| == |demands|
    ensures forall n {:trigger r[n]} | 0 <= n < |r| :: demands[n].Ok? && r[n] == |demands[n].value|
  {
    CollectedAll(demands);
    seq(|demands|, n requires 0 <= n < |demands| && demands[n].Ok? => |demands[n].value|)
  }

  lemma {:induction false} CountsSum(demands: seq<Result<seq<Bind>, QueryError>>, i: nat)
    requires i <= |demands| && Collect(demands).Ok?
    ensures Collect(demands[..i]).Ok? && Total(Counts(demands)[..i]) == |Collect(demands[..i]).value|
  {
    CollectedIsPrefix(demands, i);
    if i > 0 {
      CountsSum(demands, i - 1);
      CollectedBefore(demands, i);
      assert Counts(demands)[..i][..i - 1] == Counts(demands)[..i - 1];
    } else {
      assert demands[..0] == [];
    }
  }

  /** What the filters ask, one truth value each. */
  ghost function Asked(db: Database, backend: Backend, fields: seq<Field>, filters: seq<Filter>, row: Row): (r: seq<bool>)
    ensures |r| == |filters|
    ensures forall j {:trigger r[j]} | 0 <= j < |r| :: r[j] <==> Asks(db, backend, fields, filters[j], row)
  {
    seq(|filters|, j requires 0 <= j < |filters| => Asks(db, backend, fields, filters[j], row))
  }

  lemma FilterIsDemanded(backend: Backend, fields: seq<Field>, filters: seq<Filter>, n: nat)
    requires n < |filters| && AllAvailable(backend, fields, filters)
    ensures DemandList(fields, filters)[n] == FilterDemand(fields, filters[n])
    ensures FilterAvailable(backend, fields, filters[n])
  {
    assert filters[n] in filters;
  }

  lemma ContributionAdds(
      db: Database, backend: Backend, fields: seq<Field>, filters: seq<Filter>, clause: seq<Sql>, n: nat, tenant: string,
      before: nat, row: Row)
    requires n < |filters| && Demands(fields, filters).Ok? && AllAvailable(backend, fields, filters)
    requires PlainFields(backend, fields) && Contributes(clause, backend, fields, filters, DemandList(fields, filters), n)
    requires backend == ClickHouse ==> before == 1 + |Collect(DemandList(fields, filters)[..n]).value|
    ensures AddsClause(
      ReadingOf(db, backend, [TextBind(tenant)] + Demands(fields, filters).value, row), backend,
      Subject(backend, fields, filters[n]), TextsOf(backend, clause), before, Asks(db, backend, fields, filters[n], row),
      |DemandList(fields, filters)[n].value|)
  {
    var demands := DemandList(fields, filters);
    var from := 1 + |Collect(demands[..n]).value|;
    DemandIsBound(demands, n, tenant);
    FilterIsDemanded(backend, fields, filters, n);
    ClauseIs(clause, backend, fields, filters[n], from, |demands[n].value|);
    FilterAddsClause(
      db, backend, fields, filters[n], demands[n].value, [TextBind(tenant)] + Collect(demands).value, from, before, row);
  }
}
