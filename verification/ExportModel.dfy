/**
The fenced export of `execution_run` and `execution_task` rows from Postgres to ClickHouse, as
a state machine over its durable steps.

Writers, operators and crashes interleave with the exporter between any two durable steps.
Three facts about the environment are part of the model and are not proved here:

- only one exporter runs at a time (the session advisory lock behind the lease);
- a ClickHouse batch insert is atomic, and a re-created object gets a UUID never used before;
- a source row is written under its row lock, so at most one open transaction holds a pending
  version of a given row.

That every committed write is newer than every fence is NOT assumed: it follows from the shared
and exclusive modes of the analytics advisory lock, which the model spells out.
*/
module ExportModel {
  import opened Prelude

  /******* Positions *******/

  datatype Table = Runs | Tasks

  /** UUIDs are modelled by their 128-bit value. */
  const NIL := 0

  /** A row identity. */
  datatype Key = Key(table: Table, id: nat)

  type Content = string

  datatype Position = Position(change: int, id: nat)

  const ZERO := Position(0, 0)

  predicate Before(p: Position, q: Position) {
    p.change < q.change || (p.change == q.change && p.id < q.id)
  }

  predicate AtMost(p: Position, q: Position) {
    p == q || Before(p, q)
  }

  /** `ExecutionPosition::max`: the sequence decides, the UUID only breaks ties. */
  function Later(p: Position, q: Position): (r: Position)
    ensures AtMost(p, r) && AtMost(q, r) && (r == p || r == q)
  {
    if Before(p, q) then q else p
  }

  /******* Durable state *******/

  datatype SourceRow = SourceRow(change: int, content: Content)

  /** A version of a row written by an open transaction, not yet visible to readers. */
  datatype Draft = Draft(txn: nat, change: int, content: Content)

  /** One row read for export. */
  datatype Row = Row(key: Key, change: int, content: Content)

  /** One ClickHouse row. `change` is the source sequence it was read at; ClickHouse does not store it. */
  datatype Copy = Copy(key: Key, version: int, change: int, content: Content)

  datatype Stage = Pending | SchemaUpgraded | CursorsReset | RunsExported | TasksExported | Complete

  function Rank(stage: Stage): nat {
    match stage
    case Pending => 0
    case SchemaUpgraded => 1
    case CursorsReset => 2
    case RunsExported => 3
    case TasksExported => 4
    case Complete => 5
  }

  datatype Identities = Identities(database: nat, runTable: nat, taskTable: nat)

  function TableId(ids: Identities, t: Table): nat {
    match t
    case Runs => ids.runTable
    case Tasks => ids.taskTable
  }

  datatype PerTable<T> = PerTable(runs: T, tasks: T) {
    function At(t: Table): T {
      match t
      case Runs => runs
      case Tasks => tasks
    }

    function With(t: Table, value: T): PerTable<T> {
      match t
      case Runs => this.(runs := value)
      case Tasks => this.(tasks := value)
    }
  }

  /** One row of `clickhouse_schema_upgrade_state`; the last three are its time columns. */
  datatype Generation = Generation(
    ids: Identities,
    stage: Stage,
    upgradeVersion: int,
    floor: int,
    highWater: PerTable<Position>,
    page: PerTable<Position>,
    created: int,
    updated: int,
    completed: Option<int>)

  datatype CursorRow = CursorRow(cursor: Position, fence: Option<Position>)

  /**
  Everything that survives a crash. `log` and `retired` are history: the copies this protocol
  ever inserted into any table, and the keys ClickHouse may know that the source no longer has
  (deleted rows, and rows exported before this protocol existed).
  */
  datatype World = World(
    source: map<Key, SourceRow>,
    inFlight: map<Key, Draft>,
    nextSeq: int,
    gens: seq<Generation>,
    cursors: Option<PerTable<CursorRow>>,
    ids: Identities,
    usedIds: set<nat>,
    copies: set<Copy>,
    log: set<Copy>,
    retired: set<Key>)
  {
    function Head(): Generation
      requires gens != []
    {
      gens[|gens| - 1]
    }

    function WithHead(g: Generation): World
      requires gens != []
    {
      this.(gens := gens[..|gens| - 1] + [g])
    }

    function Cursor(t: Table): Position
      requires cursors.Some?
    {
      cursors.value.At(t).cursor
    }

    function Fence(t: Table): Option<Position>
      requires cursors.Some?
    {
      cursors.value.At(t).fence
    }

    function WithCursor(t: Table, row: CursorRow): World
      requires cursors.Some?
    {
      this.(cursors := Some(cursors.value.With(t, row)))
    }
  }

  /** Every committed row carries a sequence drawn from the counter, which starts at 1. */
  predicate Sequenced(w: World) {
    forall k | k in w.source :: 1 <= w.source[k].change
  }

  function PositionOf(k: Key, row: SourceRow): Position {
    Position(row.change, k.id)
  }

  /******* Source reads *******/

  /** The keys of table `t` whose row lies in the half-open window (after, upto]. */
  function Window(source: map<Key, SourceRow>, t: Table, after: Position, upto: Position): set<Key> {
    set k | k in source && k.table == t
            && Before(after, PositionOf(k, source[k])) && AtMost(PositionOf(k, source[k]), upto)
  }

  predicate IsLeast(source: map<Key, SourceRow>, keys: set<Key>, k: Key)
    requires keys <= source.Keys
  {
    k in keys && forall j | j in keys :: AtMost(PositionOf(k, source[k]), PositionOf(j, source[j]))
  }

  lemma LeastExists(source: map<Key, SourceRow>, keys: set<Key>)
    requires keys <= source.Keys && keys != {}
    ensures exists k :: IsLeast(source, keys, k)
  {
    var k :| k in keys;
    if keys == {k} {
      assert IsLeast(source, keys, k);
    } else {
      LeastExists(source, keys - {k});
      var l :| IsLeast(source, keys - {k}, l);
      assert IsLeast(source, keys, if AtMost(PositionOf(k, source[k]), PositionOf(l, source[l])) then k else l);
    }
  }

  function Least(source: map<Key, SourceRow>, t: Table, keys: set<Key>): (k: Key)
    requires keys <= source.Keys && keys != {}
    requires forall j | j in keys :: j.table == t
    ensures IsLeast(source, keys, k)
  {
    LeastExists(source, keys);
    var k :| k in keys && IsLeast(source, keys, k);
    k
  }

  /** `ORDER BY (analytics_change_seq, id) LIMIT limit` over the window (after, upto]. */
  function Page(source: map<Key, SourceRow>, t: Table, after: Position, upto: Position, limit: nat): seq<Row>
    decreases limit
  {
    var keys := Window(source, t, after, upto);
    if limit == 0 || keys == {} then []
    else
      var k := Least(source, t, keys);
      [Row(k, source[k].change, source[k].content)] + Page(source, t, PositionOf(k, source[k]), upto, limit - 1)
  }

  predicate IsGreatest(source: map<Key, SourceRow>, t: Table, p: Position) {
    && (forall k | k in source && k.table == t :: AtMost(PositionOf(k, source[k]), p))
    && (p == ZERO || exists k :: k in source && k.table == t && PositionOf(k, source[k]) == p)
  }

  lemma GreatestWith(source: map<Key, SourceRow>, t: Table, k: Key, p: Position)
    requires k in source && k.table == t && 1 <= source[k].change && IsGreatest(source - {k}, t, p)
    ensures IsGreatest(source, t, Later(PositionOf(k, source[k]), p))
  {
    var greatest := Later(PositionOf(k, source[k]), p);
    forall j | j in source && j.table == t
      ensures AtMost(PositionOf(j, source[j]), greatest)
    {
      if j != k {
        assert j in source - {k};
      }
    }
  }

  /** `greatest_execution_position`: the highest committed position, or zero for an empty table. */
  function Greatest(source: map<Key, SourceRow>, t: Table): (p: Position)
    requires forall k | k in source :: 1 <= source[k].change
    ensures IsGreatest(source, t, p)
    decreases source.Keys
  {
    if forall k | k in source :: k.table != t then ZERO
    else
      var k: Key :| k in source && k.table == t;
      assert source.Keys > (source - {k}).Keys;
      var rest := Greatest(source - {k}, t);
      GreatestWith(source, t, k, rest);
      Later(PositionOf(k, source[k]), rest)
  }

  /******* Versions *******/

  /** The last representable microsecond of the exporter's timestamp type. */
  const MAX_VERSION: int := 8_210_266_876_799_999_999

  const MAX_GENERATION: int := 0x7FFF_FFFF_FFFF_FFFF

  datatype ExportError =
    | VersionExhausted
    | GenerationExhausted
    | UnsafeDatabaseReset
    | UnsafePartialReset
    | WrongTables        // the newest generation is not bound to the tables startup validated
    | ClockBehind        // the upgrade table's trigger refused a write
    | LockHeld           // a writer still holds the lock a fence has to wait for

  /** `monotonic_export_version`. */
  function MonotonicVersion(now: int, floor: Option<int>): (r: Result<int, ExportError>)
    ensures r.Ok? ==> r.value >= now && (floor.Some? ==> r.value > floor.value)
    ensures r.Ok? ==> r.value == now || (floor.Some? && r.value == floor.value + 1)
    ensures r.Err? <==> floor.Some? && floor.value >= MAX_VERSION
  {
    match floor
    case None => Ok(now)
    case Some(f) =>
      if f >= MAX_VERSION then Err(VersionExhausted)
      else Ok(if now > f + 1 then now else f + 1)
  }

  predicate IsMaxVersion(copies: set<Copy>, v: int) {
    (exists c :: c in copies && c.version == v) && forall c | c in copies :: c.version <= v
  }

  lemma MaxVersionExists(copies: set<Copy>)
    requires copies != {}
    ensures exists v :: IsMaxVersion(copies, v)
  {
    var c :| c in copies;
    if copies == {c} {
      assert IsMaxVersion(copies, c.version);
    } else {
      MaxVersionExists(copies - {c});
      var v :| IsMaxVersion(copies - {c}, v);
      var d :| d in copies - {c} && d.version == v;
      assert IsMaxVersion(copies, if c.version > v then c.version else v);
    }
  }

  /** `max_existing_execution_export_version`, over both live tables. */
  function MaxVersion(copies: set<Copy>): (r: Option<int>)
    ensures r.None? <==> copies == {}
    ensures r.Some? ==> IsMaxVersion(copies, r.value)
  {
    if copies == {} then None
    else
      MaxVersionExists(copies);
      var v :| v in (set c | c in copies :: c.version) && IsMaxVersion(copies, v);
      Some(v)
  }

  function MaxOption(a: Option<int>, b: Option<int>): Option<int> {
    if a.None? then b
    else if b.None? then a
    else if a.value > b.value then a
    else b
  }

  /**
  The upgrade table's trigger raises on an update whose `updated_at` lies before the stored one, and
  every update writes the database clock there.
  */
  predicate Late(g: Generation, now: int) {
    now < g.updated
  }

  /** `execution_reset_starts_new_generation`. */
  function ResetStartsNewGeneration(previous: Identities, current: Identities): (r: Result<bool, ExportError>)
    ensures r == Ok(true) <==>
      previous.database == current.database
      && previous.runTable != current.runTable && previous.taskTable != current.taskTable
    ensures r == Ok(false) <==> previous == current
  {
    if current.database != previous.database then Err(UnsafeDatabaseReset)
    else
      var runChanged := current.runTable != previous.runTable;
      var taskChanged := current.taskTable != previous.taskTable;
      if !runChanged && !taskChanged then Ok(false)
      else if runChanged && taskChanged then Ok(true)
      else Err(UnsafePartialReset)
  }

  /******* Environment steps *******/

  datatype EnvStep =
    | Assign(txn: nat, key: Key, content: Content) // a writer's row trigger takes the shared lock and a new sequence
    | Commit(txn: nat)
    | Abort(txn: nat)
    | Delete(key: Key)
    | ResetTable(table: Table, uuid: nat)
    | ResetDatabase(ids: Identities)

  predicate EnvEnabled(w: World, e: EnvStep) {
    match e
    case Assign(txn, k, _) => k in w.inFlight ==> w.inFlight[k].txn == txn
    case Commit(_) => true
    case Abort(_) => true
    case Delete(k) => k in w.source && k !in w.inFlight
    case ResetTable(_, uuid) => uuid !in w.usedIds + {NIL}
    case ResetDatabase(ids) => {ids.database, ids.runTable, ids.taskTable} !! w.usedIds + {NIL}
  }

  function Without(inFlight: map<Key, Draft>, txn: nat): map<Key, Draft> {
    map k | k in inFlight && inFlight[k].txn != txn :: inFlight[k]
  }

  function Committed(w: World, txn: nat): map<Key, SourceRow> {
    map k | k in w.source.Keys + w.inFlight.Keys
            && (k in w.source || w.inFlight[k].txn == txn) ::
      if k in w.inFlight && w.inFlight[k].txn == txn
      then SourceRow(w.inFlight[k].change, w.inFlight[k].content)
      else w.source[k]
  }

  function WithTable(ids: Identities, t: Table, uuid: nat): Identities {
    match t
    case Runs => ids.(runTable := uuid)
    case Tasks => ids.(taskTable := uuid)
  }

  function EnvApply(w: World, e: EnvStep): World
    requires EnvEnabled(w, e)
  {
    match e
    case Assign(txn, k, content) =>
      w.(inFlight := w.inFlight[k := Draft(txn, w.nextSeq, content)], nextSeq := w.nextSeq + 1)
    case Commit(txn) =>
      w.(source := Committed(w, txn), inFlight := Without(w.inFlight, txn))
    case Abort(txn) =>
      w.(inFlight := Without(w.inFlight, txn))
    case Delete(k) =>
      w.(source := w.source - {k}, retired := w.retired + {k})
    case ResetTable(t, uuid) =>
      w.(ids := WithTable(w.ids, t, uuid),
         usedIds := w.usedIds + {uuid},
         copies := set c | c in w.copies && c.key.table != t)
    case ResetDatabase(ids) =>
      w.(ids := ids,
         usedIds := w.usedIds + {ids.database, ids.runTable, ids.taskTable},
         copies := {})
  }

  /******* Exporter steps *******/

  /**
  What the exporter holds in memory between two durable steps. A crash forgets all of it.
  The bootstrap pages and the pass cursor are re-read from durable state, which only the
  exporter writes, so they are not duplicated here.
  */
  datatype Local =
    | Idle
    | Validated(ids: Identities)
    | Measuring(ids: Identities)
    | Measured(ids: Identities, maxExisting: Option<int>)
    | Upgrading(ids: Identities)
    | BootLoop(ids: Identities, table: Table)
    | BootRead(ids: Identities, table: Table, rows: seq<Row>)
    | BootInserted(ids: Identities, table: Table, last: Position)
    | BootEmpty(ids: Identities, table: Table)
    | BootDrained(ids: Identities, table: Table)
    | Leading
    | PassLoop(table: Table)
    | PassRead(table: Table, fence: Position, rows: seq<Row>)
    | PassClaimed(table: Table, fence: Position, rows: seq<Row>, version: int)
    | PassInserted(table: Table, fence: Position, last: Position)
    | PassDone(table: Table, fence: Position)

  datatype StartStep =
    | StartUp            // lease taken, schema validated, live identities read
    | CheckState         // ensure_execution_dimension_upgrade: is the head bound to them?
    | Measure            // max_existing_execution_export_version
    | Initialize(now: int)
    | UpgradeTick(now: int) // one iteration of the stage loop

  datatype BootStep =
    | ReadBootPage(limit: nat)
    | InsertBootPage
    | WriteBootPage(now: int)
    | FinishBootPages(now: int) // write_upgrade_page to the high water after an empty page
    | AdvanceBootStage(now: int)

  datatype PassStep =
    | PreparePasses
    | ReadPassPage(limit: nat)
    | Claim(now: int)
    | InsertPassPage
    | AdvanceCursor
    | CompletePass
    | PassError          // an error inside a pass: the leader waits for the next tick

  datatype ExporterStep = Start(start: StartStep) | Boot(boot: BootStep) | Pass(pass: PassStep)

  datatype Step = Env(env: EnvStep) | Exporter(step: ExporterStep) | Crash

  datatype State = State(w: World, pc: Local)

  /** The stage in which table `t` is bootstrapped, and the stage that follows it. */
  function BootStage(t: Table): Stage {
    match t
    case Runs => CursorsReset
    case Tasks => RunsExported
  }

  function NextBootStage(t: Table): Stage {
    match t
    case Runs => RunsExported
    case Tasks => TasksExported
  }

  predicate InPass(pc: Local) {
    pc.PassLoop? || pc.PassRead? || pc.PassClaimed? || pc.PassInserted? || pc.PassDone?
  }

  predicate StartEnabled(s: State, x: StartStep) {
    match x
    case StartUp => s.pc.Idle?
    case CheckState => s.pc.Validated?
    case Measure => s.pc.Measuring?
    case Initialize(_) => s.pc.Measured? && s.w.inFlight == map[]
    case UpgradeTick(_) => s.pc.Upgrading? && s.w.gens != []
  }

  predicate BootEnabled(s: State, x: BootStep) {
    && s.w.gens != []
    && match x
       case ReadBootPage(limit) => s.pc.BootLoop? && limit >= 1
       case InsertBootPage => s.pc.BootRead? && s.pc.rows != []
       case WriteBootPage(_) => s.pc.BootInserted?
       case FinishBootPages(_) => s.pc.BootEmpty?
       case AdvanceBootStage(_) => s.pc.BootDrained?
  }

  predicate PassEnabled(s: State, x: PassStep) {
    && s.w.gens != [] && s.w.cursors.Some?
    && match x
       case PreparePasses => s.pc.Leading? && s.w.inFlight == map[]
       case ReadPassPage(limit) => s.pc.PassLoop? && limit >= 1
       case Claim(_) => s.pc.PassRead?
       case InsertPassPage => s.pc.PassClaimed? && s.pc.rows != []
       case AdvanceCursor => s.pc.PassInserted?
       case CompletePass => s.pc.PassDone?
       case PassError => InPass(s.pc)
  }

  predicate ExporterEnabled(s: State, x: ExporterStep) {
    match x
    case Start(y) => StartEnabled(s, y)
    case Boot(y) => BootEnabled(s, y)
    case Pass(y) => PassEnabled(s, y)
  }

  function CopiesAt(rows: seq<Row>, version: int): set<Copy> {
    set r | r in rows :: Copy(r.key, version, r.change, r.content)
  }

  /** One atomic ClickHouse batch insert. */
  function Insert(w: World, rows: seq<Row>, version: int): World {
    w.(copies := w.copies + CopiesAt(rows, version), log := w.log + CopiesAt(rows, version))
  }

  function LastOf(rows: seq<Row>): Position
    requires rows != []
  {
    var r := rows[|rows| - 1];
    Position(r.change, r.key.id)
  }

  /** A version has been used that leaves none above it, by the newest generation or a live copy. */
  predicate VersionsUsedUp(gens: seq<Generation>, maxExisting: Option<int>) {
    || (gens != [] && gens[|gens| - 1].floor >= MAX_VERSION)
    || (maxExisting.Some? && maxExisting.value >= MAX_VERSION)
  }

  /** The least version that is not behind the clock and above every one used before. */
  predicate IsNextVersion(v: int, now: int, gens: seq<Generation>, maxExisting: Option<int>) {
    && now <= v
    && (gens != [] ==> gens[|gens| - 1].floor < v)
    && (maxExisting.Some? ==> maxExisting.value < v)
    && (v == now
        || (gens != [] && v == gens[|gens| - 1].floor + 1)
        || (maxExisting.Some? && v == maxExisting.value + 1))
  }

  /** `initialize_execution_upgrade`, under the exclusive analytics lock. */
  function InitializeUpgrade(w: World, ids: Identities, maxExisting: Option<int>, now: int): Result<World, ExportError>
    requires Sequenced(w)
  {
    var starts := if w.gens == [] then Ok(true) else ResetStartsNewGeneration(w.Head().ids, ids);
    match starts
    case Err(e) => Err(e)
    case Ok(false) => Ok(w)
    case Ok(true) =>
      var prior := if w.gens == [] then None else Some(w.Head().floor);
      match MonotonicVersion(now, MaxOption(maxExisting, prior))
      case Err(e) => Err(e)
      case Ok(v) =>
        if |w.gens| >= MAX_GENERATION then Err(GenerationExhausted)
        else
          var high := PerTable(Greatest(w.source, Runs), Greatest(w.source, Tasks));
          Ok(w.(gens := w.gens + [Generation(ids, Pending, v, v, high, PerTable(ZERO, ZERO), now, now, None)]))
  }

  /** One iteration of the loop in `ensure_execution_dimension_upgrade`; a refused write ends it. */
  function UpgradeStage(w: World, ids: Identities, now: int): State
    requires w.gens != []
  {
    var g := w.Head();
    if g.ids != ids then State(w, Idle)
    else
      match g.stage
      case Pending =>
        if Late(g, now) then State(w, Idle)
        else State(w.WithHead(g.(stage := SchemaUpgraded, updated := now)), Upgrading(ids))
      case SchemaUpgraded =>
        if Late(g, now) then State(w, Idle)
        else
          State(w.WithHead(g.(stage := CursorsReset, page := PerTable(ZERO, ZERO), updated := now))
                 .(cursors := Some(PerTable(CursorRow(ZERO, None), CursorRow(ZERO, None)))),
                Upgrading(ids))
      case CursorsReset => State(w, BootLoop(ids, Runs))
      case RunsExported => State(w, BootLoop(ids, Tasks))
      case TasksExported =>
        if Late(g, now) then State(w, Idle)
        else
          // The UPDATE of the cursor rows affects nothing when the rows are absent.
          var done := w.WithHead(g.(stage := Complete, completed := Some(now), updated := now));
          State(if w.cursors.None? then done
                else done.(cursors := Some(PerTable(CursorRow(g.highWater.runs, None), CursorRow(g.highWater.tasks, None)))),
                Upgrading(ids))
      case Complete => State(w, Leading)
  }

  /** `prepare_execution_pass`: an active fence is kept, otherwise a new one is taken. */
  function Prepared(w: World, t: Table): CursorRow
    requires w.cursors.Some?
    requires Sequenced(w)
  {
    var row := w.cursors.value.At(t);
    if row.fence.Some? then row
    else row.(fence := Some(Later(row.cursor, Greatest(w.source, t))))
  }

  function StartApply(s: State, x: StartStep): State
    requires StartEnabled(s, x) && Sequenced(s.w)
  {
    var w := s.w;
    match x
    case StartUp => s.(pc := Validated(w.ids))
    case CheckState =>
      s.(pc := if w.gens != [] && w.Head().ids == s.pc.ids then Upgrading(s.pc.ids) else Measuring(s.pc.ids))
    case Measure => s.(pc := Measured(s.pc.ids, MaxVersion(w.copies)))
    case Initialize(now) =>
      (match InitializeUpgrade(w, s.pc.ids, s.pc.maxExisting, now)
       case Err(_) => s.(pc := Idle)
       case Ok(w') => State(w', Upgrading(s.pc.ids)))
    case UpgradeTick(now) => UpgradeStage(w, s.pc.ids, now)
  }

  function BootApply(s: State, x: BootStep): State
    requires BootEnabled(s, x)
  {
    var w, t, g := s.w, s.pc.table, s.w.Head();
    match x
    case ReadBootPage(limit) =>
      var rows := Page(w.source, t, g.page.At(t), g.highWater.At(t), limit);
      s.(pc := if rows == [] then BootEmpty(s.pc.ids, t) else BootRead(s.pc.ids, t, rows))
    case InsertBootPage =>
      State(Insert(w, s.pc.rows, g.upgradeVersion), BootInserted(s.pc.ids, t, LastOf(s.pc.rows)))
    case WriteBootPage(now) =>
      if Late(g, now) then s.(pc := Idle)
      else State(w.WithHead(g.(page := g.page.With(t, s.pc.last), updated := now)), BootLoop(s.pc.ids, t))
    case FinishBootPages(now) =>
      if g.page.At(t) == g.highWater.At(t) then s.(pc := BootDrained(s.pc.ids, t))
      else if Late(g, now) then s.(pc := Idle)
      else State(w.WithHead(g.(page := g.page.With(t, g.highWater.At(t)), updated := now)), BootDrained(s.pc.ids, t))
    case AdvanceBootStage(now) =>
      if g.stage != BootStage(t) || Late(g, now) then s.(pc := Idle)
      else State(w.WithHead(g.(stage := NextBootStage(t), updated := now)), Upgrading(s.pc.ids))
  }

  function PassApply(s: State, x: PassStep): State
    requires PassEnabled(s, x) && Sequenced(s.w)
  {
    var w := s.w;
    match x
    case PreparePasses =>
      if !w.Head().stage.Complete? then s
      else State(w.(cursors := Some(PerTable(Prepared(w, Runs), Prepared(w, Tasks)))), PassLoop(Runs))
    case ReadPassPage(limit) =>
      var t := s.pc.table;
      (match w.Fence(t)
       case None => s.(pc := Leading)
       case Some(fence) =>
         var rows := Page(w.source, t, w.Cursor(t), fence, limit);
         s.(pc := if rows == [] then PassDone(t, fence) else PassRead(t, fence, rows)))
    case Claim(now) =>
      (match MonotonicVersion(now, Some(w.Head().floor))
       case Err(_) => s.(pc := Leading)
       case Ok(v) =>
         if Late(w.Head(), now) then s.(pc := Leading)
         else State(w.WithHead(w.Head().(floor := v, updated := now)), PassClaimed(s.pc.table, s.pc.fence, s.pc.rows, v)))
    case InsertPassPage =>
      State(Insert(w, s.pc.rows, s.pc.version), PassInserted(s.pc.table, s.pc.fence, LastOf(s.pc.rows)))
    case AdvanceCursor =>
      var t := s.pc.table;
      var row := w.cursors.value.At(t);
      State(if Before(row.cursor, s.pc.last) then w.WithCursor(t, row.(cursor := s.pc.last)) else w,
            if s.pc.last == s.pc.fence then PassDone(t, s.pc.fence) else PassLoop(t))
    case CompletePass =>
      var t := s.pc.table;
      if w.Fence(t) != Some(s.pc.fence) then s.(pc := Leading)
      else State(w.WithCursor(t, CursorRow(s.pc.fence, None)), if t == Runs then PassLoop(Tasks) else Leading)
    case PassError => s.(pc := Leading)
  }

  function ExporterApply(s: State, x: ExporterStep): State
    requires ExporterEnabled(s, x) && Sequenced(s.w)
  {
    match x
    case Start(y) => StartApply(s, y)
    case Boot(y) => BootApply(s, y)
    case Pass(y) => PassApply(s, y)
  }

  predicate Enabled(s: State, step: Step) {
    match step
    case Env(e) => EnvEnabled(s.w, e)
    case Exporter(x) => ExporterEnabled(s, x)
    case Crash => true
  }

  function Apply(s: State, step: Step): State
    requires Enabled(s, step) && Sequenced(s.w)
  {
    match step
    case Env(e) => s.(w := EnvApply(s.w, e))
    case Exporter(x) => ExporterApply(s, x)
    case Crash => s.(pc := Idle)
  }
}
