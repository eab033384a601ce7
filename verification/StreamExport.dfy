/**
The timestamp-cursored export of an append-only table. The table grows while it is read, a pass
re-reads an overlap window, and a crash can fall between any two durable steps; readers drop the
duplicates that result.
*/
module StreamExport {
  import opened Prelude

  datatype Row = Row(id: nat, tenant: nat, session: nat, number: nat, ts: int)

  predicate Before(a: Row, b: Row) {
    a.ts < b.ts || (a.ts == b.ts && a.id < b.id)
  }

  ghost predicate Ascending(rows: seq<Row>) {
    forall i, j | 0 <= i < j < |rows| :: Before(rows[i], rows[j])
  }

  /** The source table in (timestamp, id) order; ids and (session, number) pairs are unique. */
  ghost predicate IsTable(table: seq<Row>) {
    forall i, j | 0 <= i < j < |table| :: InOrder(table, i, j)
  }

  ghost predicate InOrder(table: seq<Row>, i: nat, j: nat)
    requires i < j < |table|
  {
    Before(table[i], table[j]) && table[i].id != table[j].id && !SameKey(table[i], table[j])
  }

  predicate SameKey(a: Row, b: Row) {
    a.session == b.session && a.number == b.number
  }

  lemma TableIsSorted(table: seq<Row>)
    requires IsTable(table)
    ensures Ascending(table)
  {
    forall i, j | 0 <= i < j < |table| ensures Before(table[i], table[j]) {
      assert InOrder(table, i, j);
    }
  }

  /** The table at each query: rows come, anywhere in the order, and stay. */
  type Tables = nat -> seq<Row>

  ghost predicate Growing(tables: Tables) {
    && (forall k: nat :: IsTable(tables(k)))
    && forall j: nat, k: nat, r | j <= k && r in tables(j) :: r in tables(k)
  }

  /** Rows come in order: each after all that are there. */
  ghost predicate Appending(tables: Tables) {
    Growing(tables) && forall j: nat, k: nat | j <= k :: tables(j) <= tables(k)
  }

  /******* Paging *******/

  /** The lower bound of a query: a timestamp, and an id once the first page has been read. */
  datatype Bound = Bound(ts: int, id: Option<nat>)

  predicate Past(r: Row, b: Bound) {
    r.ts > b.ts || (r.ts == b.ts && (b.id.None? || r.id > b.id.value))
  }

  /** The rows past a bound, in table order. */
  function Rest(table: seq<Row>, b: Bound): seq<Row> {
    if table == [] then []
    else (if Past(table[0], b) then [table[0]] else []) + Rest(table[1..], b)
  }

  function Page(table: seq<Row>, b: Bound, limit: nat): (page: seq<Row>)
    ensures |page| <= limit
  {
    var rest := Rest(table, b);
    if |rest| <= limit then rest else rest[..limit]
  }

  function LastOf(page: seq<Row>): Row
    requires page != []
  {
    page[|page| - 1]
  }

  /** Where the next query starts: behind the last row read. */
  function BoundAfter(page: seq<Row>): Bound
    requires page != []
  {
    Bound(LastOf(page).ts, Some(LastOf(page).id))
  }

  lemma {:induction false} AllPast(table: seq<Row>, b: Bound)
    requires forall i | 0 <= i < |table| :: Past(table[i], b)
    ensures Rest(table, b) == table
  {
    if table != [] {
      AllPast(table[1..], b);
      assert table == [table[0]] + table[1..];
    }
  }

  /** In a sorted table the rows past a bound are its end. */
  lemma {:induction false} RestIsEnd(table: seq<Row>, b: Bound, k: nat)
    requires k <= |table|
    requires forall i | 0 <= i < k :: !Past(table[i], b)
    requires forall i | k <= i < |table| :: Past(table[i], b)
    ensures Rest(table, b) == table[k..]
  {
    if k == 0 {
      AllPast(table, b);
    } else {
      RestIsEnd(table[1..], b, k - 1);
      assert table[1..][k - 1..] == table[k..];
    }
  }

  /** Where the rows past a bound start. */
  lemma {:induction false} FirstPast(table: seq<Row>, b: Bound) returns (k: nat)
    requires Ascending(table)
    ensures k <= |table|
    ensures forall i | 0 <= i < k :: !Past(table[i], b)
    ensures forall i | k <= i < |table| :: Past(table[i], b)
    ensures Rest(table, b) == table[k..]
  {
    k := 0;
    while k < |table| && !Past(table[k], b)
      invariant k <= |table| && forall i | 0 <= i < k :: !Past(table[i], b)
    {
      k := k + 1;
    }
    RestIsEnd(table, b, k);
  }

  /** The rows past a bound are exactly those, each once and still in order. */
  lemma RestExact(table: seq<Row>, b: Bound)
    requires IsTable(table)
    ensures forall r :: r in Rest(table, b) <==> r in table && Past(r, b)
    ensures IsTable(Rest(table, b))
  {
    TableIsSorted(table);
    var k := FirstPast(table, b);
    var rest := Rest(table, b);
    assert forall i | 0 <= i < |rest| :: rest[i] == table[k + i];
    forall i, j | 0 <= i < j < |rest| ensures InOrder(rest, i, j) {
      assert InOrder(table, k + i, k + j);
    }
    forall r | r in table && Past(r, b) ensures r in rest {
      var i :| 0 <= i < |table| && table[i] == r;
      assert rest[i - k] == r;
    }
  }

  /** A page holds the first rows past its bound: none up to its last is left out, and a short one leaves none at all. */
  lemma PageReads(table: seq<Row>, b: Bound, batch: nat)
    requires IsTable(table)
    ensures var page := Page(table, b, batch);
      && Ascending(page)
      && (forall r | r in page :: r in table && Past(r, b))
      && (|page| < batch ==> forall r | r in table && Past(r, b) :: r in page)
      && (page != [] ==> forall r | r in table && Past(r, b) && !Past(r, BoundAfter(page)) :: r in page)
  {
    RestExact(table, b);
    var rest, page := Rest(table, b), Page(table, b, batch);
    TableIsSorted(rest);
    assert forall i | 0 <= i < |page| :: page[i] == rest[i];
    if page != [] {
      forall r | r in table && Past(r, b) && !Past(r, BoundAfter(page)) ensures r in page {
        var i :| 0 <= i < |rest| && rest[i] == r;
        assert i >= |page| ==> Before(LastOf(page), r);
      }
    }
  }

  /******* A pass *******/

  const EPOCH := 0

  function EffectiveBound(cursor: Option<int>, overlap: nat): int {
    match cursor
    case None => EPOCH
    case Some(ts) => ts - overlap
  }

  /** What lasts, and how many queries have been made. */
  datatype Stream = Stream(copies: seq<Row>, cursor: Option<int>, queries: nat)

  const START := Stream([], None, 0)

  /**
  The pages from `next` on. Each takes two durable steps, the copy and the cursor, of which `steps`
  are granted in all; the second result says whether the pass came to its end.
  */
  function Run(tables: Tables, batch: nat, next: Bound, s: Stream, steps: nat): (Stream, bool)
    decreases steps
  {
    var page := Page(tables(s.queries), next, batch);
    var read := s.(queries := s.queries + 1);
    if page == [] then (read, true)
    else if steps == 0 then (read, false)
    else if steps == 1 then (read.(copies := s.copies + page), false)
    else
      var s' := read.(copies := s.copies + page, cursor := Some(LastOf(page).ts));
      if |page| < batch then (s', true) else Run(tables, batch, BoundAfter(page), s', steps - 2)
  }

  function PassOf(tables: Tables, batch: nat, overlap: nat, s: Stream, steps: nat): (Stream, bool) {
    Run(tables, batch, Bound(EffectiveBound(s.cursor, overlap), None), s, steps)
  }

  /** One pass after the other, each cut short after its own number of steps. */
  function Passes(tables: Tables, batch: nat, overlap: nat, s: Stream, steps: seq<nat>): Stream {
    if steps == [] then s
    else
      PassOf(tables, batch, overlap, Passes(tables, batch, overlap, s, steps[..|steps| - 1]), steps[|steps| - 1]).0
  }

  class StreamExporter {
    const tables: Tables
    const batch: nat
    const overlap: nat
    var cursor: Option<int>
    var copies: seq<Row>
    var queries: nat

    function State(): Stream
      reads this
    {
      Stream(copies, cursor, queries)
    }

    constructor (tables: Tables, batch: nat, overlap: nat)
      ensures State() == START
      ensures this.tables == tables && this.batch == batch && this.overlap == overlap
    {
      this.tables, this.batch, this.overlap := tables, batch, overlap;
      cursor, copies, queries := None, [], 0;
    }

    /** One pass, cut short after `steps` durable steps. */
    method Pass(steps: nat) returns (completed: bool)
      modifies this`cursor, this`copies, this`queries
      ensures (State(), completed) == PassOf(tables, batch, overlap, old(State()), steps)
    {
      var next, left := Bound(EffectiveBound(cursor, overlap), None), steps;
      ghost var outcome := PassOf(tables, batch, overlap, State(), steps);
      while true
        invariant Run(tables, batch, next, State(), left) == outcome
        decreases left
      {
        var page := Page(tables(queries), next, batch);
        queries := queries + 1;
        if page == [] {
          return true;
        }
        if left == 0 {
          return false;
        }
        copies := copies + page;
        if left == 1 {
          return false;
        }
        cursor := Some(LastOf(page).ts);
        if |page| < batch {
          return true;
        }
        next, left := BoundAfter(page), left - 2;
      }
    }
  }

  /** `added` was copied from `next` on: in order, past the bound, and from the table as it then was. */
  ghost predicate Adds(tables: Tables, next: Bound, s: Stream, s': Stream, added: seq<Row>) {
    && s'.copies == s.copies + added && s.queries < s'.queries
    && Ascending(added)
    && forall r | r in added :: Past(r, next) && r in tables(s'.queries)
  }

  lemma PageAdds(tables: Tables, batch: nat, next: Bound, s: Stream, s': Stream)
    requires Growing(tables) && s'.queries == s.queries + 1
    requires s'.copies == s.copies + Page(tables(s.queries), next, batch)
    ensures Adds(tables, next, s, s', Page(tables(s.queries), next, batch))
  {
    PageReads(tables(s.queries), next, batch);
  }

  lemma AddsMore(
      tables: Tables, next: Bound, s: Stream, s': Stream, s'': Stream, page: seq<Row>, added: seq<Row>)
    requires Growing(tables) && page != []
    requires Adds(tables, next, s, s', page) && Adds(tables, BoundAfter(page), s', s'', added)
    ensures Adds(tables, next, s, s'', page + added)
  {
    var all := page + added;
    assert s''.copies == s.copies + all;
    forall r | r in added ensures Past(r, next) && Before(LastOf(page), r) {
      assert LastOf(page) in page;
    }
    forall i, j | 0 <= i < j < |all| ensures Before(all[i], all[j]) {
      if i < |page| <= j {
        assert all[j] in added && (i < |page| - 1 ==> Before(page[i], LastOf(page)));
      }
    }
  }

  /** Whatever the table does meanwhile and wherever the pass is cut, it copies rows past its bound, each once, in order. */
  lemma {:induction false} RunAdds(tables: Tables, batch: nat, next: Bound, s: Stream, steps: nat) returns (added: seq<Row>)
    requires Growing(tables)
    ensures Adds(tables, next, s, Run(tables, batch, next, s, steps).0, added)
    decreases steps
  {
    var page := Page(tables(s.queries), next, batch);
    var read := s.(queries := s.queries + 1);
    if page == [] || steps == 0 {
      added := [];
    } else {
      PageAdds(tables, batch, next, s, read.(copies := s.copies + page));
      added := page;
      if steps >= 2 && |page| >= batch {
        var s' := read.(copies := s.copies + page, cursor := Some(LastOf(page).ts));
        var more := RunAdds(tables, batch, BoundAfter(page), s', steps - 2);
        AddsMore(tables, next, s, s', Run(tables, batch, BoundAfter(page), s', steps - 2).0, page, more);
        added := page + more;
      }
    }
  }

  /** A pass that comes to its end has copied every row past its bound that was there when it began. */
  lemma {:induction false} RunReads(tables: Tables, batch: nat, next: Bound, s: Stream, steps: nat, r: Row)
    requires Growing(tables) && batch >= 1 && Run(tables, batch, next, s, steps).1
    requires r in tables(s.queries) && Past(r, next)
    ensures r in Run(tables, batch, next, s, steps).0.copies
    decreases steps
  {
    var page := Page(tables(s.queries), next, batch);
    PageReads(tables(s.queries), next, batch);
    if page != [] && |page| >= batch {
      var s' := Stream(s.copies + page, Some(LastOf(page).ts), s.queries + 1);
      if Past(r, BoundAfter(page)) {
        RunReads(tables, batch, BoundAfter(page), s', steps - 2, r);
      } else {
        var added := RunAdds(tables, batch, BoundAfter(page), s', steps - 2);
      }
    }
  }

  /** The row is dated no earlier than the cursor less the overlap, or than the epoch before the first page. */
  predicate IsReread(s: Stream, overlap: nat, r: Row) {
    match s.cursor
    case None => EPOCH <= r.ts
    case Some(cursor) => cursor <= r.ts + overlap
  }

  /**
  A row that is there when a pass begins is copied by the end of it exactly if it was copied before
  or is dated no earlier than the rewound cursor.
  */
  lemma CompletedPassExactly(tables: Tables, batch: nat, overlap: nat, s: Stream, steps: nat, r: Row)
    requires Growing(tables) && batch >= 1 && PassOf(tables, batch, overlap, s, steps).1 && r in tables(s.queries)
    ensures r in PassOf(tables, batch, overlap, s, steps).0.copies <==> r in s.copies || IsReread(s, overlap, r)
  {
    var next := Bound(EffectiveBound(s.cursor, overlap), None);
    var added := RunAdds(tables, batch, next, s, steps);
    if Past(r, next) {
      RunReads(tables, batch, next, s, steps, r);
    }
  }

  /******* Rows that come in order *******/

  /** Every row since the epoch that the cursor has left behind was copied. */
  ghost predicate Covers(tables: Tables, s: Stream) {
    s.cursor.Some? ==>
      forall k: nat, r | s.queries <= k && r in tables(k) && EPOCH <= r.ts < s.cursor.value :: r in s.copies
  }

  /** The same of every row that the next query passes over. */
  ghost predicate Skips(tables: Tables, s: Stream, next: Bound) {
    forall k: nat, r | s.queries <= k && r in tables(k) && EPOCH <= r.ts && !Past(r, next) :: r in s.copies
  }

  lemma OldRow(tables: Tables, j: nat, k: nat, q: Row, r: Row)
    requires Appending(tables) && j <= k && q in tables(j) && r in tables(k) && !Before(q, r)
    ensures r in tables(j)
  {
    var i :| 0 <= i < |tables(j)| && tables(j)[i] == q;
    var m :| 0 <= m < |tables(k)| && tables(k)[m] == r;
    assert tables(j) <= tables(k);
    assert tables(k)[i] == q;
    TableIsSorted(tables(k));
    assert m < |tables(j)|;
    assert tables(j)[m] == r;
  }

  lemma PageSkips(tables: Tables, batch: nat, next: Bound, s: Stream, s': Stream)
    requires Appending(tables) && Skips(tables, s, next) && s'.queries == s.queries + 1
    requires var page := Page(tables(s.queries), next, batch); page != [] && s'.copies == s.copies + page
    ensures Skips(tables, s', BoundAfter(Page(tables(s.queries), next, batch)))
  {
    var page := Page(tables(s.queries), next, batch);
    PageReads(tables(s.queries), next, batch);
    forall k: nat, r | s'.queries <= k && r in tables(k) && EPOCH <= r.ts && !Past(r, BoundAfter(page))
      ensures r in s'.copies
    {
      assert LastOf(page) in page;
      OldRow(tables, s.queries, k, LastOf(page), r);
    }
  }

  lemma SkippedIsCovered(tables: Tables, s: Stream, next: Bound)
    requires Skips(tables, s, next) && s.cursor == Some(next.ts) && next.id.Some?
    ensures Covers(tables, s)
  {
  }

  lemma {:induction false} RunCovers(tables: Tables, batch: nat, next: Bound, s: Stream, steps: nat)
    requires Appending(tables) && Covers(tables, s) && Skips(tables, s, next)
    ensures Covers(tables, Run(tables, batch, next, s, steps).0)
    decreases steps
  {
    var page := Page(tables(s.queries), next, batch);
    if page != [] && steps >= 2 {
      var s' := Stream(s.copies + page, Some(LastOf(page).ts), s.queries + 1);
      PageSkips(tables, batch, next, s, s');
      SkippedIsCovered(tables, s', BoundAfter(page));
      if |page| >= batch {
        RunCovers(tables, batch, BoundAfter(page), s', steps - 2);
      }
    }
  }

  lemma {:induction false} PassesCover(tables: Tables, batch: nat, overlap: nat, steps: seq<nat>)
    requires Appending(tables)
    ensures Covers(tables, Passes(tables, batch, overlap, START, steps))
  {
    if steps != [] {
      var n := |steps| - 1;
      PassesCover(tables, batch, overlap, steps[..n]);
      var s := Passes(tables, batch, overlap, START, steps[..n]);
      RunCovers(tables, batch, Bound(EffectiveBound(s.cursor, overlap), None), s, steps[n]);
    }
  }

  /**
  If rows come in order, a completed pass leaves none behind since the epoch, after any number of
  passes that crashed anywhere.
  */
  lemma NothingIsLost(tables: Tables, batch: nat, overlap: nat, steps: seq<nat>, last: nat, r: Row)
    requires Appending(tables) && batch >= 1
    requires PassOf(tables, batch, overlap, Passes(tables, batch, overlap, START, steps), last).1
    requires r in tables(Passes(tables, batch, overlap, START, steps).queries) && EPOCH <= r.ts
    ensures r in PassOf(tables, batch, overlap, Passes(tables, batch, overlap, START, steps), last).0.copies
  {
    var s := Passes(tables, batch, overlap, START, steps);
    PassesCover(tables, batch, overlap, steps);
    CompletedPassExactly(tables, batch, overlap, s, last, r);
  }

  /******* Rows that come late *******/

  const FIRST := Row(1, 7, 0, 0, 100)
  const LATE := Row(2, 7, 0, 1, 99)
  const NEWEST := Row(3, 7, 0, 2, 120)

  /** Two rows come while the first pass reads, one of them dated just behind the row already read. */
  function LateTables(k: nat): seq<Row> {
    if k == 0 then [FIRST] else [LATE, FIRST, NEWEST]
  }

  lemma LateTablesGrow()
    ensures Growing(LateTables) && LATE !in LateTables(0) && FIRST.ts - 10 < LATE.ts
  {
    forall k: nat ensures IsTable(LateTables(k)) {
      var table := LateTables(k);
      forall i, j | 0 <= i < j < |table| ensures InOrder(table, i, j) {
      }
    }
  }

  const ALL := [LATE, FIRST, NEWEST]

  lemma RestOfAll()
    ensures Rest([FIRST], Bound(EPOCH, None)) == [FIRST]
    ensures Rest(ALL, Bound(100, Some(1))) == Rest(ALL, Bound(110, None)) == [NEWEST]
    ensures Rest(ALL, Bound(120, Some(3))) == []
  {
    AllPast([FIRST], Bound(EPOCH, None));
    RestIsEnd(ALL, Bound(100, Some(1)), 2);
    RestIsEnd(ALL, Bound(110, None), 2);
    RestIsEnd(ALL, Bound(120, Some(3)), 3);
  }

  lemma EndOfAll(s: Stream, steps: nat)
    requires s.queries >= 1
    ensures Run(LateTables, 1, Bound(120, Some(3)), s, steps) == (s.(queries := s.queries + 1), true)
  {
    RestOfAll();
  }

  /** From a bound that only the newest row is past, one page copies it and the next ends the pass. */
  lemma NewestOfAll(s: Stream, next: Bound, steps: nat)
    requires s.queries >= 1 && next in {Bound(100, Some(1)), Bound(110, None)}
    ensures var s' := Run(LateTables, 1, next, s, steps).0;
      && s'.queries > s.queries && s'.copies == s.copies + (if steps == 0 then [] else [NEWEST])
      && s'.cursor == (if steps < 2 then s.cursor else Some(120))
    ensures steps >= 2 ==> Run(LateTables, 1, next, s, steps).1
  {
    RestOfAll();
    if steps >= 2 {
      EndOfAll(Stream(s.copies + [NEWEST], Some(120), s.queries + 1), steps - 2);
    }
  }

  /** The first pass, one row a page, does not see the late row. */
  lemma FirstPassMissesLate()
    ensures var (s, completed) := PassOf(LateTables, 1, 10, START, 4);
      completed && s.queries >= 1 && s.copies == [FIRST, NEWEST] && s.cursor == Some(120)
  {
    RestOfAll();
    NewestOfAll(Stream([FIRST], Some(100), 1), Bound(100, Some(1)), 2);
  }

  /**
  A row that comes while a pass is reading, dated less than the overlap behind the newest one, is
  not copied by that pass and, once the pass has moved on by more than the overlap, by no later one.
  */
  lemma {:induction false} LateRowIsNeverCopied(steps: seq<nat>)
    ensures Growing(LateTables) && LATE !in LateTables(0) && FIRST.ts - 10 < LATE.ts
    ensures var s := Passes(LateTables, 1, 10, PassOf(LateTables, 1, 10, START, 4).0, steps);
      s.queries >= 1 && s.cursor == Some(120) && LATE !in s.copies && LATE in LateTables(s.queries)
  {
    LateTablesGrow();
    if steps == [] {
      FirstPassMissesLate();
    } else {
      var n := |steps| - 1;
      LateRowIsNeverCopied(steps[..n]);
      NewestOfAll(Passes(LateTables, 1, 10, PassOf(LateTables, 1, 10, START, 4).0, steps[..n]), Bound(110, None), steps[n]);
    }
  }

  /******* Counting what was exported *******/

  function Of(rows: seq<Row>, tenant: nat): (r: seq<Row>)
    ensures forall x :: x in r <==> x in rows && x.tenant == tenant
  {
    if rows == [] then []
    else
      assert forall x :: x in rows <==> x == rows[0] || x in rows[1..];
      (if rows[0].tenant == tenant then [rows[0]] else []) + Of(rows[1..], tenant)
  }

  /** `LIMIT 1 BY (session_id, sequence_num)`: one row of each key, whichever the database picks. */
  ghost predicate OneByKey(picked: seq<Row>, rows: seq<Row>) {
    && (forall r | r in picked :: r in rows)
    && (forall i, j | 0 <= i < j < |picked| :: !SameKey(picked[i], picked[j]))
    && (forall r {:trigger Represented(r, picked)} | r in rows :: Represented(r, picked))
  }

  ghost predicate Represented(r: Row, picked: seq<Row>) {
    exists p :: p in picked && SameKey(p, r)
  }

  /** `uniqExact(event_id)`. */
  function DistinctIds(rows: seq<Row>): set<nat> {
    set r | r in rows :: r.id
  }

  lemma {:induction false} DistinctIdsCount(rows: seq<Row>)
    requires forall i, j | 0 <= i < j < |rows| :: rows[i].id != rows[j].id
    ensures |DistinctIds(rows)| == |rows|
  {
    if rows != [] {
      var head, rest := rows[0], rows[1..];
      DistinctIdsCount(rest);
      assert forall r :: r in rows <==> r == head || r in rest;
      assert DistinctIds(rows) == {head.id} + DistinctIds(rest);
      assert head.id !in DistinctIds(rest);
    }
  }

  lemma {:induction false} OfKeepsIdsApart(rows: seq<Row>, tenant: nat)
    requires forall i, j | 0 <= i < j < |rows| :: rows[i].id != rows[j].id
    ensures forall i, j | 0 <= i < j < |Of(rows, tenant)| :: Of(rows, tenant)[i].id != Of(rows, tenant)[j].id
  {
    if rows != [] {
      OfKeepsIdsApart(rows[1..], tenant);
      var rest := Of(rows[1..], tenant);
      forall j | 0 <= j < |rest| ensures rest[j].id != rows[0].id {
        assert rest[j] in rows[1..];
        var k :| 0 < k < |rows| && rows[k] == rest[j];
      }
    }
  }

  lemma KeyIdentifiesRow(table: seq<Row>, a: Row, b: Row)
    requires IsTable(table) && a in table && b in table && SameKey(a, b)
    ensures a == b
  {
    var i :| 0 <= i < |table| && table[i] == a;
    var j :| 0 <= j < |table| && table[j] == b;
    assert i < j ==> InOrder(table, i, j);
    assert j < i ==> InOrder(table, j, i);
  }

  lemma {:induction false} SubsetSize(a: set<nat>, b: set<nat>)
    requires a <= b
    ensures |a| <= |b|
    decreases b
  {
    if x :| x in b {
      SubsetSize(a - {x}, b - {x});
    }
  }

  /** The reader sees a tenant's copied rows, each once. */
  lemma PickedAreCopied(table: seq<Row>, copies: seq<Row>, tenant: nat, picked: seq<Row>)
    requires IsTable(table) && forall r | r in copies :: r in table
    requires OneByKey(picked, Of(copies, tenant))
    ensures forall r :: r in picked <==> r in Of(table, tenant) && r in copies
  {
    forall r ensures r in picked <==> r in Of(table, tenant) && r in copies {
      if r in Of(copies, tenant) {
        assert Represented(r, picked);
        var p :| p in picked && SameKey(p, r);
        KeyIdentifiesRow(table, p, r);
      }
    }
  }

  lemma MissingRowIsMissed(rows: seq<Row>, picked: seq<Row>, r: Row)
    requires forall i, j | 0 <= i < j < |rows| :: rows[i].id != rows[j].id
    requires (forall p | p in picked :: p in rows) && r in rows && r !in picked
    ensures |DistinctIds(picked)| < |rows|
  {
    DistinctIdsCount(rows);
    forall p | p in picked ensures p.id != r.id {
      var i :| 0 <= i < |rows| && rows[i] == p;
      var j :| 0 <= j < |rows| && rows[j] == r;
    }
    SubsetSize(DistinctIds(picked), DistinctIds(rows) - {r.id});
  }

  /**
  Whatever duplicates repeated and crashed passes left behind, and whichever of them the reader
  keeps, a tenant's deduplicated count is its number of rows exactly when all of them were copied.
  */
  lemma CountIsExact(table: seq<Row>, copies: seq<Row>, tenant: nat, picked: seq<Row>)
    requires IsTable(table) && forall r | r in copies :: r in table
    requires OneByKey(picked, Of(copies, tenant))
    ensures |DistinctIds(picked)| <= |Of(table, tenant)|
    ensures |DistinctIds(picked)| == |Of(table, tenant)| <==> forall r | r in table && r.tenant == tenant :: r in copies
  {
    var rows := Of(table, tenant);
    PickedAreCopied(table, copies, tenant, picked);
    assert forall i, j | 0 <= i < j < |table| :: InOrder(table, i, j) ==> table[i].id != table[j].id;
    OfKeepsIdsApart(table, tenant);
    if r :| r in rows && r !in copies {
      MissingRowIsMissed(rows, picked, r);
    } else {
      assert DistinctIds(picked) == DistinctIds(rows);
      DistinctIdsCount(rows);
    }
  }


  lemma CopiesAreRows(tables: Tables, batch: nat, overlap: nat, s: Stream, steps: nat)
    requires Growing(tables) && forall r | r in s.copies :: r in tables(s.queries)
    ensures var s' := PassOf(tables, batch, overlap, s, steps).0;
      s.queries < s'.queries && forall r | r in s'.copies :: r in tables(s'.queries)
  {
    var added := RunAdds(tables, batch, Bound(EffectiveBound(s.cursor, overlap), None), s, steps);
  }

  /**
  After a completed pass during which none came, a tenant's count is exact if and only if each of
  its rows from before the rewound cursor had been copied already.
  */
  lemma CompletedPassCountsExactly(
      tables: Tables, batch: nat, overlap: nat, s: Stream, steps: nat, tenant: nat, picked: seq<Row>)
    requires Growing(tables) && batch >= 1 && PassOf(tables, batch, overlap, s, steps).1
    requires forall r | r in s.copies :: r in tables(s.queries)
    requires tables(PassOf(tables, batch, overlap, s, steps).0.queries) == tables(s.queries)
    requires OneByKey(picked, Of(PassOf(tables, batch, overlap, s, steps).0.copies, tenant))
    ensures |DistinctIds(picked)| == |Of(tables(s.queries), tenant)| <==>
      forall r | r in tables(s.queries) && r.tenant == tenant && !IsReread(s, overlap, r) :: r in s.copies
  {
    var table, s' := tables(s.queries), PassOf(tables, batch, overlap, s, steps).0;
    CopiesAreRows(tables, batch, overlap, s, steps);
    CountIsExact(table, s'.copies, tenant, picked);
    forall r | r in table
      ensures r in s'.copies <==> r in s.copies || IsReread(s, overlap, r)
    {
      CompletedPassExactly(tables, batch, overlap, s, steps, r);
    }
  }

  /** A row from before the epoch, which the first pass does not read. */
  const ANCIENT := Row(1, 7, 0, 0, EPOCH - 1)

  function AncientTables(k: nat): seq<Row> { [ANCIENT] }

  lemma RowBeforeTheEpochIsMissed(batch: nat, overlap: nat, steps: nat)
    ensures Growing(AncientTables) && OneByKey([], Of([], 7))
    ensures PassOf(AncientTables, batch, overlap, START, steps) == (Stream([], None, 1), true)
    ensures |DistinctIds([])| == 0 && |Of(AncientTables(1), 7)| == 1
  {
    RestIsEnd([ANCIENT], Bound(EPOCH, None), 1);
    assert [ANCIENT][1..] == [];
    assert DistinctIds([]) == {};
  }
}
