/**
What the fenced export guarantees over whole runs: any interleaving of exporter steps, row
writes, deletes, table resets and crashes, from any legacy content of the ClickHouse tables.
*/
module ExportTheorems {
  import opened Prelude
  import opened ExportModel
  import opened ExportInvariant
  import opened ExportEnvironment
  import opened ExportSteps
  import opened ExportGuards

  /** The exporter has never run. The tables may hold rows of an older exporter, at any version. */
  ghost predicate Init(s: State) {
    && s.pc == Idle && s.w.gens == [] && s.w.cursors == None && s.w.log == {}
    && SourceOk(s.w)
    && Known(s.w, s.w.ids) && NIL !in s.w.usedIds
    && forall c | c in s.w.copies :: c.key in s.w.retired
  }

  ghost predicate Next(s: State, step: Step, s': State) {
    && Enabled(s, step)
    && Sequenced(s.w)
    && s' == Apply(s, step)
  }

  ghost predicate IsRun(states: seq<State>, steps: seq<Step>) {
    && |states| == |steps| + 1
    && Init(states[0])
    && forall i | 0 <= i < |steps| :: Next(states[i], steps[i], states[i + 1])
  }

  lemma NextSequence(source: map<Key, SourceRow>) returns (next: int)
    requires forall k | k in source :: 1 <= source[k].change
    ensures 1 <= next && forall k | k in source :: source[k].change < next
  {
    var runs, tasks := Greatest(source, Runs), Greatest(source, Tasks);
    next := Later(Later(runs, tasks), ZERO).change + 1;
    forall k | k in source ensures source[k].change < next {
      assert AtMost(PositionOf(k, source[k]), if k.table == Runs then runs else tasks);
    }
  }

  /** Runs start from any committed rows and any copies left in the ClickHouse tables. */
  lemma RunStartsAnywhere(source: map<Key, SourceRow>, copies: set<Copy>, ids: Identities) returns (s: State)
    requires forall k | k in source :: 1 <= source[k].change
    requires NIL !in {ids.database, ids.runTable, ids.taskTable}
    ensures s.w.source == source && s.w.copies == copies && s.w.ids == ids && IsRun([s], [])
  {
    var nextSeq := NextSequence(source);
    var known := {ids.database, ids.runTable, ids.taskTable};
    var unknown := set c | c in copies :: c.key;
    s := State(World(source, map[], nextSeq, [], None, ids, known, copies, {}, unknown), Idle);
  }

  lemma StepKeepsInv(s: State, step: Step)
    requires Inv(s) && Enabled(s, step)
    ensures Inv(Apply(s, step))
  {
    match step
    case Env(e) => EnvKeepsInv(s, e);
    case Exporter(x) => ExporterKeepsInv(s, x);
    case Crash =>
  }

  lemma {:induction false} RunKeepsInv(states: seq<State>, steps: seq<Step>, i: nat)
    requires IsRun(states, steps) && i < |states|
    ensures Inv(states[i])
  {
    if i > 0 {
      RunKeepsInv(states, steps, i - 1);
      assert Next(states[i - 1], steps[i - 1], states[i]);
      StepKeepsInv(states[i - 1], steps[i - 1]);
    }
  }

  /******* The mirror *******/

  /** ClickHouse as a reader sees it: for each key, the content of a highest-version copy. */
  ghost predicate IsTop(copies: set<Copy>, c: Copy) {
    c in copies && forall d | d in copies && d.key == c.key :: d.version <= c.version
  }

  lemma TopExists(copies: set<Copy>, k: Key)
    requires exists c :: c in copies && c.key == k
    ensures exists c :: IsTop(copies, c) && c.key == k
  {
    var mine := set c | c in copies && c.key == k;
    var c :| c in copies && c.key == k;
    assert c in mine;
    MaxVersionExists(mine);
    var v :| IsMaxVersion(mine, v);
    var d :| d in mine && d.version == v;
    assert IsTop(copies, d);
  }

  ghost function Top(copies: set<Copy>, k: Key): (c: Copy)
    requires exists c :: c in copies && c.key == k
    ensures IsTop(copies, c) && c.key == k
  {
    TopExists(copies, k);
    var c :| IsTop(copies, c) && c.key == k;
    c
  }

  ghost function Collapse(copies: set<Copy>, t: Table): map<Key, Content> {
    map k | k in (set c | c in copies && c.key.table == t :: c.key) ::
      (assert exists c :: c in copies && c.key == k; Top(copies, k).content)
  }

  lemma MirroredCollapses(w: World, k: Key)
    requires k in w.source && Mirrored(w, k)
    ensures k in Collapse(w.copies, k.table) && Collapse(w.copies, k.table)[k] == w.source[k].content
  {
    var c :| Wins(w.copies, k, c) && c.change == w.source[k].change && c.content == w.source[k].content;
    assert c.key in Collapse(w.copies, k.table);
    assert Top(w.copies, k) == c;
  }

  /**
  While the newest generation is complete and still bound to the live tables, every source row
  at or below a table's cursor is what ClickHouse shows for it.
  */
  lemma CursorIsMirrored(states: seq<State>, steps: seq<Step>, i: nat, k: Key)
    requires IsRun(states, steps) && i < |states|
    requires Bound(states[i].w) && states[i].w.Head().stage.Complete?
    ensures states[i].w.cursors.Some?
    ensures k in states[i].w.source
            && AtMost(PositionOf(k, states[i].w.source[k]), states[i].w.Cursor(k.table)) ==>
              k in Collapse(states[i].w.copies, k.table)
              && Collapse(states[i].w.copies, k.table)[k] == states[i].w.source[k].content
  {
    var w := states[i].w;
    RunKeepsInv(states, steps, i);
    assert TableMirrorOk(w, k.table);
    if k in w.source && AtMost(PositionOf(k, w.source[k]), w.Cursor(k.table)) {
      MirroredCollapses(w, k);
    }
  }

  /******* Versions *******/

  lemma LogGrowsStep(s: State, step: Step)
    requires Sequenced(s.w) && Enabled(s, step)
    ensures s.w.log <= Apply(s, step).w.log
  {
  }

  lemma LogGrowsAt(states: seq<State>, steps: seq<Step>, j: nat)
    requires IsRun(states, steps) && j < |steps|
    ensures states[j].w.log <= states[j + 1].w.log
  {
    assert Next(states[j], steps[j], states[j + 1]);
    LogGrowsStep(states[j], steps[j]);
  }

  lemma {:induction false} LogGrows(states: seq<State>, steps: seq<Step>, i: nat, j: nat)
    requires IsRun(states, steps) && i <= j < |states|
    ensures states[i].w.log <= states[j].w.log
    decreases j - i
  {
    if i < j {
      LogGrows(states, steps, i, j - 1);
      LogGrowsAt(states, steps, j - 1);
    }
  }

  /**
  Take any two copies of one row ever inserted, by whichever attempt, pass or generation: the
  higher version never carries the older row, and equal versions are the same row.
  */
  lemma VersionsFollowTheSource(states: seq<State>, steps: seq<Step>, i: nat, j: nat, c: Copy, d: Copy)
    requires IsRun(states, steps) && i < |states| && j < |states|
    requires c in states[i].w.log && d in states[j].w.log && c.key == d.key
    ensures c.version < d.version ==> c.change <= d.change
    ensures c.version == d.version ==> c == d
  {
    var m := if i < j then j else i;
    LogGrows(states, steps, i, m);
    LogGrows(states, steps, j, m);
    RunKeepsInv(states, steps, m);
    assert Ordered(c, d);
  }

  /******* Writes to the upgrade table *******/

  lemma StepObeysGuards(s: State, step: Step)
    requires Inv(s) && Checked(s.w) && Enabled(s, step)
    ensures GuardsHold(s.w, Apply(s, step).w) && Checked(Apply(s, step).w)
  {
    match step
    case Env(e) =>
      EnvKeepsInv(s, e);
      assert EnvApply(s.w, e).gens == s.w.gens;
      SameGenerationsObeyGuards(s.w, EnvApply(s.w, e));
    case Exporter(x) => ExporterObeysGuards(s, x);
    case Crash => SameGenerationsObeyGuards(s.w, s.w);
  }

  lemma {:induction false} RunIsChecked(states: seq<State>, steps: seq<Step>, i: nat)
    requires IsRun(states, steps) && i < |states|
    ensures Checked(states[i].w)
  {
    if i > 0 {
      RunIsChecked(states, steps, i - 1);
      RunKeepsInv(states, steps, i - 1);
      assert Next(states[i - 1], steps[i - 1], states[i]);
      StepObeysGuards(states[i - 1], steps[i - 1]);
    }
  }

  /** No row the schema would refuse is ever stored: one stage at a time, nothing moves back. */
  lemma StagesAdvanceInOrder(states: seq<State>, steps: seq<Step>, i: nat)
    requires IsRun(states, steps) && i < |steps|
    ensures GuardsHold(states[i].w, states[i + 1].w)
  {
    RunKeepsInv(states, steps, i);
    RunIsChecked(states, steps, i);
    assert Next(states[i], steps[i], states[i + 1]);
    StepObeysGuards(states[i], steps[i]);
  }

  /**
  A write to the upgrade table goes through exactly when the clock it carries is not behind the
  stored one. A refused write changes nothing and sends the exporter back to its next attempt.
  */
  lemma WritesAreRefusedExactly(states: seq<State>, steps: seq<Step>, i: nat)
    requires IsRun(states, steps) && i < |steps| && steps[i].Exporter?
    requires ExporterEnabled(states[i], steps[i].step) && Attempt(states[i], steps[i].step).Some?
    ensures states[i].w.gens != []
    ensures var stored, g := states[i].w.Head(), Attempt(states[i], steps[i].step).value;
      && (UpdateAllowed(stored, g) <==> stored.updated <= g.updated)
      && (if UpdateAllowed(stored, g) then Written(states[i], g, states[i + 1]) else Refused(states[i], states[i + 1]))
  {
    RunKeepsInv(states, steps, i);
    RunIsChecked(states, steps, i);
    assert Next(states[i], steps[i], states[i + 1]);
    AllowedExactly(states[i], steps[i].step);
    AttemptOutcome(states[i], steps[i].step);
  }

  /** One run waits to be exported, and the newest generation was last written at time 10. */
  lemma ClaimAtTen() returns (s: State)
    ensures Inv(s) && s.pc.PassRead? && s.w.Head().updated == 10 && s.w.Head().floor == 5
  {
    var k, row := Key(Runs, 7), SourceRow(1, "new");
    var fence, ids := Position(1, 7), Identities(1, 2, 3);
    var g := Generation(ids, Complete, 5, 5, PerTable(ZERO, ZERO), PerTable(ZERO, ZERO), 4, 10, Some(6));
    var cursors := PerTable(CursorRow(ZERO, Some(fence)), CursorRow(ZERO, Some(ZERO)));
    var w := World(map[k := row], map[], 2, [g], Some(cursors), ids, {1, 2, 3}, {}, {}, {});
    var r := Row(k, 1, "new");
    s := State(w, PassRead(Runs, fence, [r]));
    assert RowOk(w, Runs, ZERO, fence, r);
    assert FenceOk(w, Runs) && FenceOk(w, Tasks);
    assert TableMirrorOk(w, Runs) && TableMirrorOk(w, Tasks);
  }

  /** There a claim at time 9 is refused although the version rule grants it; one at time 10 is not. */
  lemma LateClaimIsRefused() returns (s: State)
    ensures Inv(s) && PassEnabled(s, Claim(9)) && Sequenced(s.w)
    ensures MonotonicVersion(9, Some(s.w.Head().floor)) == Ok(9)
    ensures PassApply(s, Claim(9)) == s.(pc := Leading)
    ensures PassApply(s, Claim(10)).pc.PassClaimed? && PassApply(s, Claim(10)).pc.version == 10
  {
    s := ClaimAtTen();
  }

  /** The smallest run with a refused write: a clock that goes back from 10 to 9 ends start-up. */
  lemma ClockGoingBackEndsStartUp() returns (states: seq<State>, steps: seq<Step>)
    ensures IsRun(states, steps) && |steps| == 5
    ensures steps[3] == Exporter(Start(Initialize(10))) && steps[4] == Exporter(Start(UpgradeTick(9)))
    ensures states[4].pc.Upgrading? && states[4].w.gens != [] && states[4].w.Head().stage.Pending?
    ensures states[5] == states[4].(pc := Idle)
  {
    var ids := Identities(1, 2, 3);
    var w := World(map[], map[], 1, [], None, ids, {1, 2, 3}, {}, {}, {});
    var g := Generation(ids, Pending, 10, 10, PerTable(ZERO, ZERO), PerTable(ZERO, ZERO), 10, 10, None);
    var w' := w.(gens := [g]);
    steps := [Exporter(Start(StartUp)), Exporter(Start(CheckState)), Exporter(Start(Measure)),
              Exporter(Start(Initialize(10))), Exporter(Start(UpgradeTick(9)))];
    states := [State(w, Idle), State(w, Validated(ids)), State(w, Measuring(ids)), State(w, Measured(ids, None)),
               State(w', Upgrading(ids)), State(w', Idle)];
    assert Greatest(w.source, Runs) == ZERO && Greatest(w.source, Tasks) == ZERO;
    assert w.gens + [g] == [g];
  }

  /******* Generations and stages *******/

  lemma OnlyTheLastStageCompletes(s: State, x: ExporterStep)
    requires Sequenced(s.w) && ExporterEnabled(s, x) && s.w.gens != [] && !s.w.Head().stage.Complete?
    requires |ExporterApply(s, x).w.gens| == |s.w.gens| && ExporterApply(s, x).w.Head().stage.Complete?
    ensures x.Start? && x.start.UpgradeTick? && s.w.Head().stage.TasksExported? && s.w.Head().ids == s.pc.ids
  {
    match x
    case Start(y) =>
    case Boot(_) => assert false;
    case Pass(_) => assert false;
  }

  /** When a bootstrap completes, both tables are mirrored up to the fences it started from. */
  lemma CompletionIsMirrored(states: seq<State>, steps: seq<Step>, i: nat, t: Table)
    requires IsRun(states, steps) && i < |steps|
    requires Bound(states[i + 1].w) && states[i + 1].w.Head().stage.Complete?
    requires |states[i].w.gens| == |states[i + 1].w.gens| && !states[i].w.Head().stage.Complete?
    ensures MirroredUpTo(states[i + 1].w, t, states[i + 1].w.Head().highWater.At(t))
    ensures states[i + 1].w.cursors.Some? && states[i + 1].w.Cursor(t) == states[i + 1].w.Head().highWater.At(t)
    ensures states[i].w.Head().stage.TasksExported?
  {
    RunKeepsInv(states, steps, i);
    assert Next(states[i], steps[i], states[i + 1]);
    assert steps[i].Exporter?;
    OnlyTheLastStageCompletes(states[i], steps[i].step);
    UpgradeTickKeepsInv(states[i].w, states[i].pc.ids, steps[i].step.start.now);
    assert TableMirrorOk(states[i + 1].w, t);
  }

  /** An exporter step touches no source row, and copies, cursors and generations only where it should. */
  lemma ExporterTouchesOnly(s: State, x: ExporterStep)
    requires Sequenced(s.w) && ExporterEnabled(s, x)
    ensures var w, w' := s.w, ExporterApply(s, x).w;
      && w' == w.(copies := w'.copies, log := w'.log, cursors := w'.cursors, gens := w'.gens)
      && (w'.copies != w.copies || w'.log != w.log ==> x == Boot(InsertBootPage) || x == Pass(InsertPassPage))
      && (w'.cursors != w.cursors ==>
            || x in {Pass(PreparePasses), Pass(AdvanceCursor), Pass(CompletePass)}
            || (x.Start? && x.start.UpgradeTick? && w.Head().stage in {SchemaUpgraded, TasksExported}))
      && (w'.gens != w.gens ==>
            || (x.Start? && (x.start.Initialize? || x.start.UpgradeTick?))
            || (x.Boot? && x.boot != InsertBootPage && !x.boot.ReadBootPage?)
            || (x.Pass? && x.pass.Claim?))
  {
    match x
    case Start(y) =>
    case Boot(y) =>
    case Pass(y) =>
  }

  /** What moving to the next stage does to the cursors: none is left over from before, nor a fence. */
  ghost predicate StageSetsCursor(w: World, w': World, t: Table)
    requires w.gens != [] && w'.gens != []
  {
    match w'.Head().stage
    case CursorsReset => w'.cursors.Some? && w'.Cursor(t) == ZERO && w'.Fence(t).None? && w'.Head().page.At(t) == ZERO
    case Complete => w'.cursors.Some? && w'.Cursor(t) == w.Head().highWater.At(t) && w'.Fence(t).None?
    case _ => w'.cursors == w.cursors
  }

  lemma TickSetsCursors(s: State, now: int, t: Table)
    requires WorldInv(s.w) && s.pc.Upgrading? && s.w.gens != []
    ensures var w' := UpgradeStage(s.w, s.pc.ids, now).w;
      |w'.gens| == |s.w.gens| && (w'.Head().stage != s.w.Head().stage ==> StageSetsCursor(s.w, w', t))
  {
  }

  lemma StepSetsCursors(s: State, x: ExporterStep, t: Table)
    requires WorldInv(s.w) && ExporterEnabled(s, x) && s.w.gens != []
    requires var w' := ExporterApply(s, x).w; |w'.gens| == |s.w.gens| && w'.Head().stage != s.w.Head().stage
    ensures StageSetsCursor(s.w, ExporterApply(s, x).w, t)
  {
    match x
    case Start(y) =>
      if y.UpgradeTick? {
        TickSetsCursors(s, y.now, t);
      }
    case Boot(y) =>
    case Pass(y) =>
  }

  lemma StagesSetCursors(states: seq<State>, steps: seq<Step>, i: nat, t: Table)
    requires IsRun(states, steps) && i < |steps| && states[i].w.gens != []
    requires |states[i].w.gens| == |states[i + 1].w.gens| && states[i].w.Head().stage != states[i + 1].w.Head().stage
    ensures StageSetsCursor(states[i].w, states[i + 1].w, t)
  {
    RunKeepsInv(states, steps, i);
    assert Next(states[i], steps[i], states[i + 1]);
    match steps[i]
    case Env(e) => EnvDisturbs(states[i].w, e);
    case Exporter(x) => StepSetsCursors(states[i], x, t);
    case Crash =>
  }

  /** Only preparing a pass sets a fence. */
  lemma OnlyPreparingFences(states: seq<State>, steps: seq<Step>, i: nat, t: Table)
    requires IsRun(states, steps) && i < |steps| && steps[i] != Exporter(Pass(PreparePasses))
    requires states[i + 1].w.cursors.Some? && states[i + 1].w.Fence(t).Some?
    ensures states[i].w.cursors.Some? && states[i].w.Fence(t) == states[i + 1].w.Fence(t)
  {
    RunKeepsInv(states, steps, i);
    assert Next(states[i], steps[i], states[i + 1]);
    match steps[i]
    case Env(e) => EnvDisturbs(states[i].w, e);
    case Exporter(x) => ExporterTouchesOnly(states[i], x);
    case Crash =>
  }

  /** No pass runs, and nothing but a bootstrap page is inserted, before the bootstrap is complete. */
  lemma PassesWaitForBootstrap(states: seq<State>, steps: seq<Step>, i: nat)
    requires IsRun(states, steps) && i < |states| && InPass(states[i].pc)
    ensures states[i].w.gens != [] && states[i].w.Head().stage.Complete?
  {
    RunKeepsInv(states, steps, i);
  }

  /**
  Starting up against identities `ids` opens a generation exactly when there is none yet or both
  tables were replaced inside the same database, unless no version or generation number is left.
  Its version is the least one at or above the clock and above every copy ever inserted.
  */
  lemma PairedResetOpensOneGeneration(states: seq<State>, steps: seq<Step>, i: nat)
    requires IsRun(states, steps) && i < |steps|
    requires steps[i].Exporter? && steps[i].step.Start? && steps[i].step.start.Initialize?
    ensures var w, w', ids := states[i].w, states[i + 1].w, states[i].pc.ids;
      var maxExisting, now := states[i].pc.maxExisting, steps[i].step.start.now;
      var paired := w.gens == [] || (w.Head().ids.database == ids.database && Outlived(w.Head(), ids));
      && (w'.gens != w.gens ==>
            && paired && |w'.gens| == |w.gens| + 1 && w'.Head().ids == ids
            && (forall c | c in w.log :: c.version < w'.Head().upgradeVersion)
            && (forall c | c in w.copies :: c.version < w'.Head().upgradeVersion)
            && IsNextVersion(w'.Head().upgradeVersion, now, w.gens, maxExisting)
            && IsGreatest(w.source, Runs, w'.Head().highWater.runs)
            && IsGreatest(w.source, Tasks, w'.Head().highWater.tasks))
      && (paired ==> (w'.gens != w.gens <==> !VersionsUsedUp(w.gens, maxExisting) && |w.gens| < MAX_GENERATION))
      && (paired ==> (states[i + 1].pc == Idle <==> w'.gens == w.gens))
      && (!paired ==> (states[i + 1].pc == Idle <==> w.Head().ids != ids))
  {
    RunKeepsInv(states, steps, i);
    assert Next(states[i], steps[i], states[i + 1]);
  }

  /** Two generations never share a table, so one reset never opens two. */
  lemma GenerationsAreDistinct(states: seq<State>, steps: seq<Step>, i: nat, m: nat, n: nat)
    requires IsRun(states, steps) && i < |states| && m < n < |states[i].w.gens|
    ensures states[i].w.gens[m].ids.runTable != states[i].w.gens[n].ids.runTable
    ensures states[i].w.gens[m].ids.taskTable != states[i].w.gens[n].ids.taskTable
    ensures states[i].w.gens[m].floor < states[i].w.gens[n].upgradeVersion
  {
    RunKeepsInv(states, steps, i);
    assert Supersedes(states[i].w.gens[n], states[i].w.gens[m]);
  }

  /******* Cursors and fenced passes *******/

  lemma ExporterMovesCursorForward(s: State, x: ExporterStep, t: Table)
    requires Inv(s) && ExporterEnabled(s, x)
    requires s.w.gens != [] && Rank(s.w.Head().stage) >= Rank(CursorsReset)
    requires |ExporterApply(s, x).w.gens| == |s.w.gens|
    ensures s.w.cursors.Some? && ExporterApply(s, x).w.cursors.Some?
    ensures AtMost(s.w.Cursor(t), ExporterApply(s, x).w.Cursor(t))
  {
    assert FenceOk(s.w, t);
    match x
    case Start(_) =>
    case Boot(y) => assert BootApply(s, y).w.cursors == s.w.cursors;
    case Pass(y) => PassMovesCursorForward(s, y, t);
  }

  lemma PassMovesCursorForward(s: State, x: PassStep, t: Table)
    requires SourceOk(s.w) && FenceOk(s.w, t) && PassEnabled(s, x)
    ensures PassApply(s, x).w.cursors.Some?
    ensures AtMost(s.w.Cursor(t), PassApply(s, x).w.Cursor(t))
  {
  }

  /** Once a generation has reset its cursors, no step moves one back until the next generation. */
  lemma CursorNeverMovesBack(states: seq<State>, steps: seq<Step>, i: nat, t: Table)
    requires IsRun(states, steps) && i < |steps|
    requires states[i].w.gens != [] && Rank(states[i].w.Head().stage) >= Rank(CursorsReset)
    requires |states[i + 1].w.gens| == |states[i].w.gens|
    ensures states[i].w.cursors.Some? && states[i + 1].w.cursors.Some?
    ensures AtMost(states[i].w.Cursor(t), states[i + 1].w.Cursor(t))
  {
    RunKeepsInv(states, steps, i);
    assert Next(states[i], steps[i], states[i + 1]);
    match steps[i]
    case Env(e) => EnvDisturbs(states[i].w, e);
    case Exporter(x) => ExporterMovesCursorForward(states[i], x, t);
    case Crash =>
  }

  lemma PassKeepsFence(s: State, x: PassStep, t: Table)
    requires SourceOk(s.w) && PassEnabled(s, x)
    requires s.pc.PassDone? ==> Passing(s.w, s.pc.table, s.pc.fence)
    ensures PassApply(s, x).w.cursors.Some? && FenceKept(s.w, PassApply(s, x).w, t)
  {
  }

  lemma ExporterKeepsFence(s: State, x: ExporterStep, t: Table)
    requires Inv(s) && ExporterEnabled(s, x) && s.w.gens != [] && Rank(s.w.Head().stage) >= Rank(CursorsReset)
    requires |ExporterApply(s, x).w.gens| == |s.w.gens|
    ensures s.w.cursors.Some? && ExporterApply(s, x).w.cursors.Some? && FenceKept(s.w, ExporterApply(s, x).w, t)
  {
    match x
    case Start(_) =>
    case Boot(y) => assert BootApply(s, y).w.cursors == s.w.cursors;
    case Pass(y) => PassKeepsFence(s, y, t);
  }

  /** Once its cursors are reset, a generation's active fence stays until the cursor reaches it. */
  lemma FencesAreKept(states: seq<State>, steps: seq<Step>, i: nat, t: Table)
    requires IsRun(states, steps) && i < |steps|
    requires states[i].w.gens != [] && Rank(states[i].w.Head().stage) >= Rank(CursorsReset)
    requires |states[i + 1].w.gens| == |states[i].w.gens|
    ensures states[i].w.cursors.Some? && states[i + 1].w.cursors.Some? && FenceKept(states[i].w, states[i + 1].w, t)
  {
    RunKeepsInv(states, steps, i);
    assert Next(states[i], steps[i], states[i + 1]);
    match steps[i]
    case Env(e) => EnvDisturbs(states[i].w, e);
    case Exporter(x) => ExporterKeepsFence(states[i], x, t);
    case Crash =>
  }

  /** Preparing takes both fences at one moment: an active one is kept, an absent one covers every row. */
  lemma PreparingFencesBoth(states: seq<State>, steps: seq<Step>, i: nat, t: Table)
    requires IsRun(states, steps) && i < |steps| && steps[i] == Exporter(Pass(PreparePasses))
    requires states[i + 1].pc.PassLoop?
    ensures var w, w' := states[i].w, states[i + 1].w;
      && w.cursors.Some? && w'.cursors.Some? && w.inFlight == map[]
      && w'.Cursor(t) == w.Cursor(t) && w'.Fence(t).Some? && IsFence(w, t, w'.Fence(t).value)
  {
    RunKeepsInv(states, steps, i);
    assert Next(states[i], steps[i], states[i + 1]) && FenceOk(states[i].w, t);
    PreparedIsFence(states[i].w, t);
  }

  /** No row of `t` lies beyond the active fence, or beyond the cursor when no pass is active. */
  ghost predicate AllFenced(w: World, t: Table) {
    && w.cursors.Some?
    && forall k | k in w.source && k.table == t ::
         AtMost(PositionOf(k, w.source[k]), if w.Fence(t).Some? then w.Fence(t).value else w.Cursor(t))
  }

  lemma QuietEnvStaysFenced(w: World, e: EnvStep, t: Table)
    requires EnvEnabled(w, e) && AllFenced(w, t) && !e.Commit?
    ensures AllFenced(EnvApply(w, e), t)
  {
    assert forall k | k in EnvApply(w, e).source :: k in w.source && EnvApply(w, e).source[k] == w.source[k];
  }

  lemma PassStaysFenced(s: State, x: PassStep, t: Table)
    requires SourceOk(s.w) && PassEnabled(s, x) && AllFenced(s.w, t)
    requires s.pc.PassInserted? ==> Passing(s.w, s.pc.table, s.pc.fence)
    ensures AllFenced(PassApply(s, x).w, t)
  {
    if x.PreparePasses? {
      assert IsGreatest(s.w.source, t, Greatest(s.w.source, t));
    }
  }

  lemma ExporterStaysFenced(s: State, x: ExporterStep, t: Table)
    requires SourceOk(s.w) && ExporterEnabled(s, x) && AllFenced(s.w, t)
    requires s.pc.PassInserted? ==> Passing(s.w, s.pc.table, s.pc.fence)
    requires s.w.gens != [] && s.w.Head().stage.Complete?
    ensures AllFenced(ExporterApply(s, x).w, t)
  {
    match x
    case Start(y) => assert StartApply(s, y).w.cursors == s.w.cursors && StartApply(s, y).w.source == s.w.source;
    case Boot(y) => assert BootApply(s, y).w.cursors == s.w.cursors && BootApply(s, y).w.source == s.w.source;
    case Pass(y) => PassStaysFenced(s, y, t);
  }

  lemma CompleteStaysComplete(w: World, w': World)
    requires GuardsHold(w, w') && w.gens != [] && |w'.gens| == |w.gens| && w.Head().stage.Complete?
    ensures w'.Head().stage.Complete?
  {
    assert w'.Head() == w.Head() || UpdateAllowed(w.Head(), w'.Head());
  }

  lemma QuietStepStaysFenced(s: State, step: Step, t: Table)
    requires Inv(s) && Enabled(s, step) && AllFenced(s.w, t) && !(step.Env? && step.env.Commit?)
    requires s.w.gens != [] && s.w.Head().stage.Complete?
    ensures AllFenced(Apply(s, step).w, t)
  {
    match step
    case Env(e) => QuietEnvStaysFenced(s.w, e, t);
    case Exporter(x) => ExporterStaysFenced(s, x, t);
    case Crash =>
  }

  /** A fence taken with no open transaction covers every row there is. */
  lemma FreshFenceCoversAll(s: State, t: Table)
    requires PassEnabled(s, PreparePasses) && s.w.Head().stage.Complete? && s.w.Fence(t).None? && Sequenced(s.w)
    ensures AllFenced(PassApply(s, PreparePasses).w, t)
  {
    assert IsGreatest(s.w.source, t, Greatest(s.w.source, t));
  }

  /** A stretch of a run within one generation and without commits, after `t` was fenced at `i`. */
  ghost predicate QuietSince(states: seq<State>, steps: seq<Step>, i: nat, j: nat, t: Table) {
    && IsRun(states, steps) && i < j < |states|
    && steps[i] == Exporter(Pass(PreparePasses)) && states[i + 1].pc.PassLoop?
    && states[i].w.cursors.Some? && states[i].w.Fence(t).None?
    && (forall m | i < m < j :: !(steps[m].Env? && steps[m].env.Commit?))
    && (forall m | i <= m <= j :: |states[m].w.gens| == |states[i].w.gens|)
  }

  ghost predicate FencedAndComplete(w: World, t: Table) {
    AllFenced(w, t) && w.gens != [] && w.Head().stage.Complete?
  }

  lemma QuietRunStarts(states: seq<State>, steps: seq<Step>, i: nat, t: Table)
    requires QuietSince(states, steps, i, i + 1, t)
    ensures FencedAndComplete(states[i + 1].w, t)
  {
    assert Next(states[i], steps[i], states[i + 1]);
    FreshFenceCoversAll(states[i], t);
  }

  /** With any interleaving except further commits, every row stays at or below the fence. */
  lemma {:induction false} QuietRunStaysFenced(states: seq<State>, steps: seq<Step>, i: nat, j: nat, t: Table)
    requires QuietSince(states, steps, i, j, t)
    ensures FencedAndComplete(states[j].w, t)
    decreases j
  {
    if j == i + 1 {
      QuietRunStarts(states, steps, i, t);
    } else {
      QuietRunStaysFenced(states, steps, i, j - 1, t);
      QuietRunContinues(states, steps, i, j - 1, t);
    }
  }

  lemma QuietRunContinues(states: seq<State>, steps: seq<Step>, i: nat, j: nat, t: Table)
    requires i < j && QuietSince(states, steps, i, j + 1, t) && FencedAndComplete(states[j].w, t)
    ensures FencedAndComplete(states[j + 1].w, t)
  {
    RunKeepsInv(states, steps, j);
    assert Next(states[j], steps[j], states[j + 1]);
    StagesAdvanceInOrder(states, steps, j);
    CompleteStaysComplete(states[j].w, states[j + 1].w);
    QuietStepStaysFenced(states[j], steps[j], t);
  }

  /**
  With no commit after the fence, once the pass of `t` is over the collapsed ClickHouse table is
  the source table, up to rows that were deleted or that predate the protocol.
  */
  lemma QuietPassMirrorsSource(states: seq<State>, steps: seq<Step>, i: nat, j: nat, t: Table)
    requires QuietSince(states, steps, i, j, t)
    requires Bound(states[j].w) && states[j].w.cursors.Some? && states[j].w.Fence(t).None?
    ensures var w, view := states[j].w, Collapse(states[j].w.copies, t);
      && (forall k | k in w.source && k.table == t :: k in view && view[k] == w.source[k].content)
      && (forall k | k in view && k !in w.source :: k in w.retired)
  {
    QuietRunStaysFenced(states, steps, i, j, t);
    IdleTableIsMirrored(states, steps, j, t);
  }

  lemma IdleTableIsMirrored(states: seq<State>, steps: seq<Step>, j: nat, t: Table)
    requires IsRun(states, steps) && j < |states|
    requires AllFenced(states[j].w, t) && Bound(states[j].w) && states[j].w.Head().stage.Complete?
    requires states[j].w.Fence(t).None?
    ensures var w, view := states[j].w, Collapse(states[j].w.copies, t);
      && (forall k | k in w.source && k.table == t :: k in view && view[k] == w.source[k].content)
      && (forall k | k in view && k !in w.source :: k in w.retired)
  {
    var w := states[j].w;
    forall k | k in w.source && k.table == t
      ensures k in Collapse(w.copies, t) && Collapse(w.copies, t)[k] == w.source[k].content
    {
      CursorIsMirrored(states, steps, j, k);
    }
    RunKeepsInv(states, steps, j);
    forall k | k in Collapse(w.copies, t) && k !in w.source
      ensures k in w.retired
    {
      var c :| c in w.copies && c.key == k;
      assert c in w.log ==> CopyOk(w, c);
    }
  }
}
