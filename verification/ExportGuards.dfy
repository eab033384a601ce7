/**
The constraints and the trigger on the exporter's bookkeeping tables: which writes they let through,
and that the steps of the model take exactly those.
*/
module ExportGuards {
  import opened Prelude
  import opened ExportModel
  import opened ExportInvariant
  import opened ExportSteps

  /******* The schema *******/

  /** The CHECK constraints on a row of `clickhouse_schema_upgrade_state`. */
  ghost predicate RowChecks(g: Generation) {
    && g.ids.database != NIL && g.ids.runTable != NIL && g.ids.taskTable != NIL
    && g.upgradeVersion <= g.floor
    && 0 <= g.highWater.runs.change && 0 <= g.page.runs.change && AtMost(g.page.runs, g.highWater.runs)
    && 0 <= g.highWater.tasks.change && 0 <= g.page.tasks.change && AtMost(g.page.tasks, g.highWater.tasks)
    && (g.stage.Complete? <==> g.completed.Some?)
    && g.created <= g.updated && (g.completed.Some? ==> g.created <= g.completed.value)
  }

  /** Those constraints and the trigger, on an update. */
  ghost predicate UpdateAllowed(before: Generation, after: Generation) {
    && RowChecks(after)
    && after.ids == before.ids && after.upgradeVersion == before.upgradeVersion
    && after.highWater == before.highWater && after.created == before.created
    && Rank(before.stage) <= Rank(after.stage) <= Rank(before.stage) + 1
    && before.floor <= after.floor
    && AtMost(before.page.runs, after.page.runs) && AtMost(before.page.tasks, after.page.tasks)
    && before.updated <= after.updated
    && (before.completed.Some? ==> after.completed == before.completed)
  }

  /** The same on an insert, with the uniqueness of a pair of table identities. */
  ghost predicate InsertAllowed(gens: seq<Generation>, g: Generation) {
    && RowChecks(g)
    && (forall h | h in gens :: h.ids.runTable != g.ids.runTable || h.ids.taskTable != g.ids.taskTable)
    && (gens != [] ==>
          var last := gens[|gens| - 1];
          && g.ids.database == last.ids.database
          && g.ids.runTable != last.ids.runTable && g.ids.taskTable != last.ids.taskTable
          && last.floor < g.upgradeVersion && last.floor <= g.floor)
  }

  /** The CHECK constraints on the cursor rows of `clickhouse_export_state`. */
  ghost predicate CursorChecks(row: CursorRow) {
    && 0 <= row.cursor.change
    && (row.fence.Some? ==> 0 <= row.fence.value.change && AtMost(row.cursor, row.fence.value))
  }

  /** Every write that leads from `w` to `w'` is one the schema lets through. */
  ghost predicate GuardsHold(w: World, w': World) {
    && |w.gens| <= |w'.gens| <= |w.gens| + 1
    && (forall n | 0 <= n < |w.gens| :: w'.gens[n] == w.gens[n] || UpdateAllowed(w.gens[n], w'.gens[n]))
    && (|w.gens| < |w'.gens| ==> InsertAllowed(w.gens, w'.Head()))
    && (w'.cursors.Some? ==> CursorChecks(w'.cursors.value.runs) && CursorChecks(w'.cursors.value.tasks))
  }

  /** The newest row satisfies its constraints. */
  ghost predicate Checked(w: World) {
    w.gens != [] ==> RowChecks(w.Head())
  }

  /******* What a step tries to write *******/

  /** The row a step of the stage loop tries to write, if any. */
  ghost function StageAttempt(g: Generation, now: int): Option<Generation> {
    match g.stage
    case Pending => Some(g.(stage := SchemaUpgraded, updated := now))
    case SchemaUpgraded => Some(g.(stage := CursorsReset, page := PerTable(ZERO, ZERO), updated := now))
    case TasksExported => Some(g.(stage := Complete, completed := Some(now), updated := now))
    case _ => None
  }

  /** The update of the newest row that an exporter step tries, if any. */
  ghost function Attempt(s: State, x: ExporterStep): Option<Generation>
    requires ExporterEnabled(s, x)
  {
    match x
    case Start(UpgradeTick(now)) =>
      if s.w.Head().ids != s.pc.ids then None else StageAttempt(s.w.Head(), now)
    case Boot(WriteBootPage(now)) =>
      Some(s.w.Head().(page := s.w.Head().page.With(s.pc.table, s.pc.last), updated := now))
    case Boot(FinishBootPages(now)) =>
      var g, t := s.w.Head(), s.pc.table;
      if g.page.At(t) == g.highWater.At(t) then None
      else Some(g.(page := g.page.With(t, g.highWater.At(t)), updated := now))
    case Boot(AdvanceBootStage(now)) =>
      if s.w.Head().stage != BootStage(s.pc.table) then None
      else Some(s.w.Head().(stage := NextBootStage(s.pc.table), updated := now))
    case Pass(Claim(now)) =>
      (match MonotonicVersion(now, Some(s.w.Head().floor))
       case Err(_) => None
       case Ok(v) => Some(s.w.Head().(floor := v, updated := now)))
    case _ => None
  }

  /** What becomes of an attempt: the row is written, or nothing changes and the exporter gives up. */
  ghost predicate Written(s: State, g: Generation, s': State)
    requires s.w.gens != []
  {
    s'.w.gens == s.w.WithHead(g).gens
  }

  ghost predicate Refused(s: State, s': State) {
    s'.w == s.w && (s'.pc == Idle || s'.pc == Leading)
  }

  lemma AttemptOutcome(s: State, x: ExporterStep)
    requires Sequenced(s.w) && ExporterEnabled(s, x) && Attempt(s, x).Some?
    ensures s.w.gens != []
    ensures var g, s' := Attempt(s, x).value, ExporterApply(s, x);
      if g.updated < s.w.Head().updated then Refused(s, s') else Written(s, g, s')
  {
  }

  lemma NoAttempt(s: State, x: ExporterStep)
    requires Sequenced(s.w) && ExporterEnabled(s, x) && Attempt(s, x).None?
    requires !(x.Start? && x.start.Initialize?)
    ensures ExporterApply(s, x).w.gens == s.w.gens
  {
  }

  /******* Which attempts the schema lets through *******/

  lemma StageAttemptAllowed(w: World, now: int)
    requires WorldInv(w) && w.gens != [] && Checked(w) && StageAttempt(w.Head(), now).Some?
    ensures UpdateAllowed(w.Head(), StageAttempt(w.Head(), now).value) <==> !Late(w.Head(), now)
  {
    assert FenceOk(w, Runs) && FenceOk(w, Tasks);
  }

  lemma PageAttemptAllowed(w: World, t: Table, p: Position, now: int)
    requires w.gens != [] && Checked(w) && 0 <= p.change
    requires AtMost(w.Head().page.At(t), p) && AtMost(p, w.Head().highWater.At(t))
    ensures UpdateAllowed(w.Head(), w.Head().(page := w.Head().page.With(t, p), updated := now))
       <==> !Late(w.Head(), now)
  {
  }

  lemma BootAttemptAllowed(s: State, x: BootStep)
    requires Inv(s) && Checked(s.w) && BootEnabled(s, x) && Attempt(s, Boot(x)).Some?
    ensures UpdateAllowed(s.w.Head(), Attempt(s, Boot(x)).value) <==> !Late(s.w.Head(), Attempt(s, Boot(x)).value.updated)
  {
    assert FenceOk(s.w, s.pc.table);
    match x
    case WriteBootPage(now) => PageAttemptAllowed(s.w, s.pc.table, s.pc.last, now);
    case FinishBootPages(now) => PageAttemptAllowed(s.w, s.pc.table, s.w.Head().highWater.At(s.pc.table), now);
    case _ =>
  }

  /** A write is let through exactly when the clock is not behind the stored time. */
  lemma AllowedExactly(s: State, x: ExporterStep)
    requires Inv(s) && Checked(s.w) && ExporterEnabled(s, x) && Attempt(s, x).Some?
    ensures s.w.gens != []
    ensures UpdateAllowed(s.w.Head(), Attempt(s, x).value) <==> !Late(s.w.Head(), Attempt(s, x).value.updated)
  {
    match x
    case Start(UpgradeTick(now)) => StageAttemptAllowed(s.w, now);
    case Boot(y) => BootAttemptAllowed(s, y);
    case _ =>
  }

  /** A new generation is always let through. */
  lemma InitializeAllowed(w: World, ids: Identities, maxExisting: Option<int>, now: int)
    requires WorldInv(w) && LocalInv(State(w, Measured(ids, maxExisting))) && w.inFlight == map[]
    requires InitializeUpgrade(w, ids, maxExisting, now).Ok?
    ensures var w' := InitializeUpgrade(w, ids, maxExisting, now).value;
      w' == w || (w'.gens == w.gens + [w'.Head()] && InsertAllowed(w.gens, w'.Head()))
  {
    var w' := InitializeUpgrade(w, ids, maxExisting, now).value;
    if w' != w {
      assert w'.gens == w.gens + [w'.Head()];
      GreatestIsSealed(w, Runs);
      GreatestIsSealed(w, Tasks);
      forall h | h in w.gens
        ensures h.ids.runTable != ids.runTable || h.ids.taskTable != ids.taskTable
      {
        var n :| 0 <= n < |w.gens| && w.gens[n] == h;
        assert n < |w.gens| - 1 ==> Outlived(h, ids);
      }
    }
  }

  lemma CursorsChecked(w: World)
    requires FencesOk(w) && w.cursors.Some?
    ensures CursorChecks(w.cursors.value.runs) && CursorChecks(w.cursors.value.tasks)
  {
    assert FenceOk(w, Runs) && FenceOk(w, Tasks);
  }

  lemma HeadUpdateObeysGuards(w: World, w': World, g: Generation)
    requires w.gens != [] && UpdateAllowed(w.Head(), g) && w'.gens == w.WithHead(g).gens && FencesOk(w')
    ensures GuardsHold(w, w') && Checked(w')
  {
    if w'.cursors.Some? {
      CursorsChecked(w');
    }
  }

  lemma SameGenerationsObeyGuards(w: World, w': World)
    requires w'.gens == w.gens && FencesOk(w') && Checked(w)
    ensures GuardsHold(w, w') && Checked(w')
  {
    if w'.cursors.Some? {
      CursorsChecked(w');
    }
  }

  lemma InitializeObeysGuards(w: World, ids: Identities, maxExisting: Option<int>, now: int)
    requires WorldInv(w) && Checked(w) && LocalInv(State(w, Measured(ids, maxExisting))) && w.inFlight == map[]
    requires InitializeUpgrade(w, ids, maxExisting, now).Ok?
    ensures var w' := InitializeUpgrade(w, ids, maxExisting, now).value; GuardsHold(w, w') && Checked(w')
  {
    var w' := InitializeUpgrade(w, ids, maxExisting, now).value;
    InitializeAllowed(w, ids, maxExisting, now);
    if w'.cursors.Some? {
      CursorsChecked(w);
    }
  }

  lemma ExporterObeysGuards(s: State, x: ExporterStep)
    requires Inv(s) && Checked(s.w) && ExporterEnabled(s, x)
    ensures GuardsHold(s.w, ExporterApply(s, x).w) && Checked(ExporterApply(s, x).w)
  {
    var s' := ExporterApply(s, x);
    ExporterKeepsInv(s, x);
    if Attempt(s, x).Some? {
      AttemptOutcome(s, x);
      AllowedExactly(s, x);
      if s'.w.gens != s.w.gens {
        HeadUpdateObeysGuards(s.w, s'.w, Attempt(s, x).value);
      } else {
        SameGenerationsObeyGuards(s.w, s'.w);
      }
    } else if x.Start? && x.start.Initialize? {
      if InitializeUpgrade(s.w, s.pc.ids, s.pc.maxExisting, x.start.now).Ok? {
        InitializeObeysGuards(s.w, s.pc.ids, s.pc.maxExisting, x.start.now);
      } else {
        SameGenerationsObeyGuards(s.w, s'.w);
      }
    } else {
      NoAttempt(s, x);
      SameGenerationsObeyGuards(s.w, s'.w);
    }
  }
}
