/**
The exporter's own loops, run against writers that act between any two durable steps. `env(n)`
is what the environment does before step `n`, and `clock(k)` the database clock that the `k`-th
write to the upgrade table carries. Both are arbitrary, so every interleaving and every clock is
covered. The loops terminate however busy writers are.
*/
module ExportDriver {
  import opened Prelude
  import opened ExportModel
  import opened ExportInvariant
  import opened ExportSteps
  import opened ExportLoops

  /** How one turn of a page loop ended. */
  datatype Turn = More | Drained | Failed(error: ExportError)

  class Exporter {
    var w: World
    var pc: Local
    var steps: nat   // steps taken, each after what `env` does before it
    var writes: nat  // writes tried on the upgrade table, each with its own reading of `clock`
    const env: nat -> seq<EnvStep>
    const clock: nat -> int
    const batchRows: nat

    constructor (world: World, env: nat -> seq<EnvStep>, clock: nat -> int, batch: nat)
      requires WorldInv(world)
      ensures w == world && pc == Idle && batchRows >= 1 && this.env == env && this.clock == clock && Valid()
    {
      Closed(State(world, Idle));
      w := world;
      pc := Idle;
      steps, writes := 0, 0;
      this.env, this.clock := env, clock;
      batchRows := if batch < 1 then 1 else batch;
    }

    ghost predicate Valid()
      reads this
    {
      batchRows >= 1 && Sound(State(w, pc)) && Shape(State(w, pc))
    }

    /** Writers, deletes and resets between two durable steps; refused steps are skipped. */
    method Interfere(ghost t: Table, ghost after: Position, ghost upto: Position)
      requires Valid() && Sealed(w, upto)
      modifies this`w, this`steps
      ensures Valid() && w.gens == old(w.gens) && w.cursors == old(w.cursors)
      ensures Shrinks(old(w), w, t, after, upto)
    {
      var turns := env(steps);
      steps := steps + 1;
      for i := 0 to |turns|
        invariant Valid() && w.gens == old(w.gens) && w.cursors == old(w.cursors)
        invariant Shrinks(old(w), w, t, after, upto)
      {
        if EnvEnabled(w, turns[i]) {
          EnvKeepsSound(State(w, pc), turns[i]);
          ShrinksFurther(old(w), w, EnvApply(w, turns[i]), t, after, upto);
          w := EnvApply(w, turns[i]);
        }
      }
    }

    /******* Fenced passes *******/

    /** `read_execution_cursor` and the page read. */
    method ReadPage(t: Table, fence: Position) returns (ghost rows: seq<Row>)
      requires Valid() && pc == PassLoop(t) && w.Fence(t) == Some(fence)
      modifies this`w, this`pc, this`steps
      ensures Valid() && SameCursors(old(w), w) && w.gens == old(w.gens)
      ensures Shrinks(old(w), w, t, w.Cursor(t), fence)
      ensures pc == if rows == [] then PassDone(t, fence) else PassRead(t, fence, rows)
      ensures IsPrefix(w.source, t, w.Cursor(t), fence, rows)
    {
      FencesAreSealed(State(w, pc), t);
      Interfere(t, w.Cursor(t), fence);
      rows := Page(w.source, t, w.Cursor(t), fence, batchRows);
      PageIsPrefix(w.source, t, w.Cursor(t), fence, batchRows);
      ExporterKeepsSound(State(w, pc), Pass(ReadPassPage(batchRows)));
      pc := PassApply(State(w, pc), ReadPassPage(batchRows)).pc;
    }

    /** `claim_execution_export_version`: the version rule first, then the write. */
    method ClaimVersion(t: Table, fence: Position, ghost after: Position) returns (r: Result<int, ExportError>)
      requires Valid() && pc.PassRead? && pc.table == t && pc.fence == fence && w.Cursor(t) == after
      modifies this
      ensures Valid() && SameCursors(old(w), w) && Shrinks(old(w), w, t, after, fence)
      ensures r.Ok? ==>
        && MonotonicVersion(clock(old(writes)), Some(old(w.Head().floor))) == r
        && w.Head() == old(w.Head()).(floor := r.value, updated := clock(old(writes)))
        && pc == PassClaimed(t, fence, old(pc.rows), r.value)
      ensures r.Err? ==> pc == Leading && w.gens == old(w.gens)
      ensures r == Err(VersionExhausted) <==> old(w.Head().floor) >= MAX_VERSION
      ensures r.Err? ==> r.error.VersionExhausted? || r.error.ClockBehind?
      ensures Clocked(old(w.Head()), w.Head(), clock, old(writes), writes, r != Err(ClockBehind))
    {
      FencesAreSealed(State(w, pc), t);
      Interfere(t, after, fence);
      var now := clock(writes);
      ExporterKeepsSound(State(w, pc), Pass(Claim(now)));
      var s := PassApply(State(w, pc), Claim(now));
      if w.Head().floor >= MAX_VERSION {
        NoWrite(w.Head(), w.Head(), clock, writes);
        r := Err(VersionExhausted);
      } else {
        OneWrite(w.Head(), s.w.Head(), clock, writes, s.pc.PassClaimed?);
        writes := writes + 1;
        r := if s.pc.PassClaimed? then Ok(s.pc.version) else Err(ClockBehind);
      }
      w, pc := s.w, s.pc;
    }

    /** `insert_rows`. */
    method InsertRows(t: Table, fence: Position, ghost after: Position)
      requires Valid() && pc.PassClaimed? && pc.table == t && pc.fence == fence && w.Cursor(t) == after
      modifies this`w, this`pc, this`steps
      ensures Valid() && SameCursors(old(w), w) && w.gens == old(w.gens) && Shrinks(old(w), w, t, after, fence)
      ensures pc == PassInserted(t, fence, LastOf(old(pc.rows)))
    {
      FencesAreSealed(State(w, pc), t);
      Interfere(t, after, fence);
      ExporterKeepsSound(State(w, pc), Pass(InsertPassPage));
      var s := PassApply(State(w, pc), InsertPassPage);
      w, pc := s.w, s.pc;
    }

    /** `advance_execution_cursor`. */
    method Advance(t: Table, fence: Position, ghost after: Position)
      requires Valid() && pc.PassInserted? && pc.table == t && pc.fence == fence && w.Cursor(t) == after
      modifies this`w, this`pc, this`steps
      ensures Valid() && Shrinks(old(w), w, t, after, fence)
      ensures w.gens == old(w.gens) && w.cursors == Some(old(w.cursors).value.With(t, CursorRow(old(pc.last), Some(fence))))
      ensures pc == if old(pc.last) == fence then PassDone(t, fence) else PassLoop(t)
    {
      FencesAreSealed(State(w, pc), t);
      Interfere(t, after, fence);
      ExporterKeepsSound(State(w, pc), Pass(AdvanceCursor));
      var s := PassApply(State(w, pc), AdvanceCursor);
      w, pc := s.w, s.pc;
    }

    /** `complete_execution_pass`. */
    method Complete(t: Table, fence: Position)
      requires Valid() && pc == PassDone(t, fence)
      modifies this`w, this`pc, this`steps
      ensures Valid() && w.gens == old(w.gens) && w.cursors == Some(old(w.cursors).value.With(t, CursorRow(fence, None)))
      ensures Bound(w) ==> MirroredUpTo(w, t, fence)
      ensures pc == if t == Runs then PassLoop(Tasks) else Leading
    {
      FencesAreSealed(State(w, pc), t);
      Interfere(t, w.Cursor(t), fence);
      ExporterKeepsSound(State(w, pc), Pass(CompletePass));
      var s := PassApply(State(w, pc), CompletePass);
      w, pc := s.w, s.pc;
      if Bound(w) {
        VouchedFor(State(w, pc), t);
      }
    }

    /** A claimed page: insert it and advance the cursor past it. */
    method LandPage(t: Table, fence: Position, ghost after: Position)
      requires Valid() && pc.PassClaimed? && pc.table == t && pc.fence == fence && w.Cursor(t) == after
      modifies this`w, this`pc, this`steps
      ensures Valid() && w.gens == old(w.gens) && Shrinks(old(w), w, t, after, fence)
      ensures w.cursors == Some(old(w.cursors).value.With(t, CursorRow(LastOf(old(pc.rows)), Some(fence))))
      ensures pc == if w.Cursor(t) == fence then PassDone(t, fence) else PassLoop(t)
    {
      InsertRows(t, fence, after);
      ghost var landed := w;
      Advance(t, fence, after);
      ShrinksTransitive(old(w), landed, w, t, after, fence);
    }

    /** One turn of the page loop: read, claim a version, insert, advance the cursor. */
    method ExportPage(t: Table, fence: Position) returns (r: Turn)
      requires Valid() && pc == PassLoop(t) && w.Fence(t) == Some(fence)
      modifies this
      ensures Valid() && w.gens != [] && |w.gens| == |old(w.gens)|
      ensures w.cursors.Some? && SameElsewhere(old(w.cursors).value, w.cursors.value, t)
      ensures r.More? ==>
        && pc == PassLoop(t) && w.Fence(t) == Some(fence)
        && Window(w.source, t, w.Cursor(t), fence) < old(Window(w.source, t, w.Cursor(t), fence))
      ensures r.Drained? ==> pc == PassDone(t, fence)
      ensures r.Failed? ==> pc == Leading && w.cursors == old(w.cursors) && (r.error.VersionExhausted? || r.error.ClockBehind?)
      ensures r == Failed(VersionExhausted) ==> w.Head().floor >= MAX_VERSION
      ensures Clocked(old(w.Head()), w.Head(), clock, old(writes), writes, r != Failed(ClockBehind))
    {
      ghost var after := w.Cursor(t);
      ghost var rows := ReadPage(t, fence);
      if pc.PassDone? {
        NoWrite(w.Head(), w.Head(), clock, writes);
        return Drained;
      }
      ghost var read := w;
      var v := ClaimVersion(t, fence, after);
      if v.Err? {
        return Failed(v.error);
      }
      ghost var claimed := w;
      LandPage(t, fence, after);
      ShrinksTransitive(read, claimed, w, t, after, fence);
      AdvanceShrinks(read, w, t, after, fence, rows);
      return if pc.PassDone? then Drained else More;
    }

    /** The page loop of a pass. It ends with the table drained up to the fence, or on a claim. */
    method DrainPass(t: Table, fence: Position) returns (turn: Turn)
      requires Valid() && pc == PassLoop(t) && w.Fence(t) == Some(fence)
      modifies this
      ensures Valid() && w.cursors.Some? && |w.gens| == |old(w.gens)| && w.gens != [] && !turn.More?
      ensures SameElsewhere(old(w.cursors).value, w.cursors.value, t) && w.Fence(t) == Some(fence)
      ensures turn.Drained? ==> pc == PassDone(t, fence)
      ensures turn.Failed? ==> pc == Leading && (turn.error.VersionExhausted? || turn.error.ClockBehind?)
      ensures turn == Failed(VersionExhausted) ==> w.Head().floor >= MAX_VERSION
      ensures Clocked(old(w.Head()), w.Head(), clock, old(writes), writes, turn != Failed(ClockBehind))
    {
      turn := More;
      ghost var first, from := w.Head(), writes;
      NoWrite(first, first, clock, from);
      while turn.More?
        invariant Valid() && w.cursors.Some? && |w.gens| == |old(w.gens)| && w.gens != []
        invariant SameElsewhere(old(w.cursors).value, w.cursors.value, t)
        invariant turn.More? ==> pc == PassLoop(t)
        invariant turn.Drained? ==> pc == PassDone(t, fence)
        invariant turn.Failed? ==> pc == Leading && (turn.error.VersionExhausted? || turn.error.ClockBehind?)
        invariant w.Fence(t) == Some(fence)
        invariant turn == Failed(VersionExhausted) ==> w.Head().floor >= MAX_VERSION
        invariant Clocked(first, w.Head(), clock, from, writes, turn != Failed(ClockBehind))
        decreases turn.More?, Window(w.source, t, w.Cursor(t), fence)
      {
        ghost var g, k := w.Head(), writes;
        turn := ExportPage(t, fence);
        ClockedThen(first, g, w.Head(), clock, from, k, writes, turn != Failed(ClockBehind));
      }
    }

    /**
    `export_execution_run_pass` and `export_execution_task_pass`. The pass ends, its fence becomes
    the cursor, everything at or below the fence is mirrored, and the other table is untouched.
    It fails on a claim that was behind the clock, or on a version floor that cannot advance.
    */
    method ExportPass(t: Table) returns (r: Result<(), ExportError>)
      requires Valid() && pc == PassLoop(t)
      modifies this
      ensures Valid() && w.cursors.Some? && |w.gens| == |old(w.gens)| && w.gens != []
      ensures r.Ok? ==>
        && w.Cursor(t) == old(w.Fence(t).value) && w.Fence(t).None?
        && (Bound(w) ==> MirroredUpTo(w, t, old(w.Fence(t).value)))
        && pc == (if t == Runs then PassLoop(Tasks) else Leading)
      ensures SameElsewhere(old(w.cursors).value, w.cursors.value, t)
      ensures r.Err? ==> pc == Leading && w.Fence(t) == old(w.Fence(t)) && (r.error.VersionExhausted? || r.error.ClockBehind?)
      ensures r == Err(VersionExhausted) ==> w.Head().floor >= MAX_VERSION
      ensures Clocked(old(w.Head()), w.Head(), clock, old(writes), writes, r != Err(ClockBehind))
    {
      var fence := w.Fence(t).value;
      var turn := DrainPass(t, fence);
      if turn.Failed? {
        return Err(turn.error);
      }
      Complete(t, fence);
      return Ok(());
    }

    /** Both tables are fenced at once, under the lock that waits for every open transaction. */
    method Prepare() returns (ok: bool, ghost fenced: World)
      requires Valid() && pc == Leading
      modifies this`w, this`pc, this`steps
      ensures Valid() && w.gens == old(w.gens) && w.gens != []
      ensures fenced.cursors == old(w.cursors) && fenced.cursors.Some? && Sequenced(fenced)
      ensures ok <==> fenced.inFlight == map[]
      ensures ok ==>
        && pc == PassLoop(Runs) && w == fenced.(cursors := w.cursors) && w.cursors.Some?
        && forall t: Table :: w.Cursor(t) == fenced.Cursor(t) && w.Fence(t).Some? && IsFence(fenced, t, w.Fence(t).value)
      ensures !ok ==> pc == Leading && w == fenced
    {
      FencesAreSealed(State(w, pc), Runs);
      Interfere(Runs, ZERO, w.Cursor(Runs));
      FencesAreSealed(State(w, pc), Runs);
      FencesAreSealed(State(w, pc), Tasks);
      fenced := w;
      ok := w.inFlight == map[];
      if ok {
        ExporterKeepsSound(State(w, pc), Pass(PreparePasses));
        var s := PassApply(State(w, pc), PreparePasses);
        PreparedIsFence(w, Runs);
        PreparedIsFence(w, Tasks);
        w, pc := s.w, s.pc;
      }
    }

    /** Both passes, one after the other. */
    method ExportBoth() returns (r: Result<(), ExportError>)
      requires Valid() && pc == PassLoop(Runs)
      modifies this
      ensures Valid() && pc == Leading && w.gens != [] && w.cursors.Some?
      ensures r.Ok? ==> forall t: Table :: w.Fence(t).None? && w.Cursor(t) == old(w.Fence(t).value)
      ensures forall t: Table :: FenceKept(old(w), w, t)
      ensures r.Err? ==> r.error.VersionExhausted? || r.error.ClockBehind?
      ensures r == Err(VersionExhausted) ==> w.Head().floor >= MAX_VERSION
      ensures Clocked(old(w.Head()), w.Head(), clock, old(writes), writes, r != Err(ClockBehind))
    {
      ghost var first, from := w.Head(), writes;
      r := ExportPass(Runs);
      if r.Err? {
        return;
      }
      ghost var g, k := w.Head(), writes;
      r := ExportPass(Tasks);
      ClockedThen(first, g, w.Head(), clock, from, k, writes, r != Err(ClockBehind));
    }

    /**
    A leader's tick: fence both tables, then pass over both. `fenced` is the moment the fences were
    taken; an interrupted pass keeps the fence it had. Everything at or below them is mirrored.
    */
    method ExportTick() returns (r: Result<(), ExportError>, ghost fenced: World)
      requires Valid() && pc == Leading
      modifies this
      ensures Valid() && pc == Leading && w.gens != [] && w.cursors.Some?
      ensures fenced.cursors == old(w.cursors) && fenced.cursors.Some? && Sequenced(fenced)
      ensures r == Err(LockHeld) <==> fenced.inFlight != map[]
      ensures r.Ok? ==> forall t: Table ::
        && w.Fence(t).None? && IsFence(fenced, t, w.Cursor(t))
        && (Bound(w) ==> MirroredUpTo(w, t, w.Cursor(t)))
      ensures r.Err? && !r.error.LockHeld? ==> forall t: Table ::
        IsFence(fenced, t, if w.Fence(t).Some? then w.Fence(t).value else w.Cursor(t))
      ensures r.Err? ==> r.error.LockHeld? || r.error.VersionExhausted? || r.error.ClockBehind?
      ensures r == Err(VersionExhausted) ==> w.Head().floor >= MAX_VERSION
      ensures Clocked(old(w.Head()), w.Head(), clock, old(writes), writes, r != Err(ClockBehind))
    {
      var ok;
      ok, fenced := Prepare();
      NoWrite(w.Head(), w.Head(), clock, writes);
      if !ok {
        return Err(LockHeld), fenced;
      }
      ghost var prepared := w;
      r := ExportBoth();
      assert forall t: Table :: IsFence(fenced, t, prepared.Fence(t).value) && FenceKept(prepared, w, t);
      if r.Ok? && Bound(w) {
        VouchedFor(State(w, pc), Runs);
        VouchedFor(State(w, pc), Tasks);
      }
    }

    /******* Bootstrap *******/

    /** The page read of `export_execution_upgrade_runs` and `export_execution_upgrade_tasks`. */
    method ReadBoot(ids: Identities, t: Table, ghost after: Position, ghost high: Position)
      returns (ghost rows: seq<Row>)
      requires Valid() && pc == BootLoop(ids, t) && after == w.Head().page.At(t) && high == w.Head().highWater.At(t)
      modifies this`w, this`pc, this`steps
      ensures Valid() && w.gens == old(w.gens)
      ensures Shrinks(old(w), w, t, after, high) && IsPrefix(w.source, t, after, high, rows)
      ensures pc == if rows == [] then BootEmpty(ids, t) else BootRead(ids, t, rows)
    {
      FencesAreSealed(State(w, pc), t);
      Interfere(t, after, high);
      rows := Page(w.source, t, after, high, batchRows);
      BootPageRead(w, ids, t, batchRows);
      ExporterKeepsSound(State(w, pc), Boot(ReadBootPage(batchRows)));
      pc := BootApply(State(w, pc), ReadBootPage(batchRows)).pc;
    }

    /** `insert_rows` at the generation's upgrade version. */
    method InsertBoot(ids: Identities, t: Table, ghost after: Position, ghost high: Position)
      requires Valid() && pc.BootRead? && pc.ids == ids && pc.table == t
      requires after == w.Head().page.At(t) && high == w.Head().highWater.At(t)
      modifies this`w, this`pc, this`steps
      ensures Valid() && w.gens == old(w.gens) && Shrinks(old(w), w, t, after, high)
      ensures pc == BootInserted(ids, t, LastOf(old(pc.rows)))
    {
      FencesAreSealed(State(w, pc), t);
      Interfere(t, after, high);
      ExporterKeepsSound(State(w, pc), Boot(InsertBootPage));
      var s := BootApply(State(w, pc), InsertBootPage);
      assert s == State(Insert(w, pc.rows, w.Head().upgradeVersion), BootInserted(ids, t, LastOf(pc.rows)));
      w, pc := s.w, s.pc;
    }

    /** `write_upgrade_page` with the last inserted row. */
    method RecordPage(ids: Identities, t: Table) returns (ok: bool)
      requires Valid() && pc.BootInserted? && pc.ids == ids && pc.table == t
      modifies this
      ensures Valid() && SameGeneration(old(w), w) && writes == old(writes) + 1
      ensures ok <==> old(w.Head().updated) <= clock(old(writes))
      ensures ok ==>
        && pc == BootLoop(ids, t)
        && w.Head() == old(w.Head()).(page := old(w.Head()).page.With(t, old(pc.last)), updated := clock(old(writes)))
      ensures !ok ==> pc == Idle && w.gens == old(w.gens)
      ensures Shrinks(old(w), w, t, old(w.Head().page.At(t)), w.Head().highWater.At(t))
    {
      FencesAreSealed(State(w, pc), t);
      Interfere(t, w.Head().page.At(t), w.Head().highWater.At(t));
      var now := clock(writes);
      writes := writes + 1;
      ExporterKeepsSound(State(w, pc), Boot(WriteBootPage(now)));
      var s := BootApply(State(w, pc), WriteBootPage(now));
      ok := s.pc.BootLoop?;
      w, pc := s.w, s.pc;
    }

    /** `write_upgrade_page` with the high water after an empty page, skipped when it is there already. */
    method RecordHighWater(ids: Identities, t: Table) returns (ok: bool)
      requires Valid() && pc == BootEmpty(ids, t)
      modifies this
      ensures Valid() && SameGeneration(old(w), w)
      ensures w.Head().stage == old(w.Head().stage)
      ensures ok ==> pc == BootDrained(ids, t) && w.Head().page == old(w.Head()).page.With(t, w.Head().highWater.At(t))
      ensures !ok ==> pc == Idle && w.gens == old(w.gens)
      ensures writes == old(writes) + if old(w.Head().page.At(t)) == w.Head().highWater.At(t) then 0 else 1
      ensures Clocked(old(w.Head()), w.Head(), clock, old(writes), writes, ok)
    {
      FencesAreSealed(State(w, pc), t);
      Interfere(t, ZERO, w.Head().highWater.At(t));
      var now := clock(writes);
      ExporterKeepsSound(State(w, pc), Boot(FinishBootPages(now)));
      var s := BootApply(State(w, pc), FinishBootPages(now));
      ok := s.pc.BootDrained?;
      if w.Head().page.At(t) == w.Head().highWater.At(t) {
        NoWrite(w.Head(), s.w.Head(), clock, writes);
      } else {
        OneWrite(w.Head(), s.w.Head(), clock, writes, ok);
        writes := writes + 1;
      }
      w, pc := s.w, s.pc;
    }

    /** `advance_upgrade_stage` at the end of a table. */
    method AdvanceStage(ids: Identities, t: Table) returns (ok: bool)
      requires Valid() && pc == BootDrained(ids, t)
      modifies this
      ensures Valid() && SameGeneration(old(w), w) && writes == old(writes) + 1
      ensures ok <==> old(w.Head().updated) <= clock(old(writes))
      ensures ok ==>
        && pc == Upgrading(ids)
        && w.Head() == old(w.Head()).(stage := NextBootStage(t), updated := clock(old(writes)))
      ensures !ok ==> pc == Idle && w.gens == old(w.gens)
    {
      FencesAreSealed(State(w, pc), t);
      Interfere(t, ZERO, w.Head().highWater.At(t));
      var now := clock(writes);
      writes := writes + 1;
      ExporterKeepsSound(State(w, pc), Boot(AdvanceBootStage(now)));
      var s := BootApply(State(w, pc), AdvanceBootStage(now));
      ok := s.pc.Upgrading?;
      w, pc := s.w, s.pc;
    }

    /** One turn of a bootstrap page loop. */
    method BootPage(ids: Identities, t: Table) returns (r: Turn)
      requires Valid() && pc == BootLoop(ids, t)
      modifies this
      ensures Valid() && SameGeneration(old(w), w)
      ensures w.Head().stage == old(w.Head().stage)
      ensures r.Drained? ==> pc == BootEmpty(ids, t)
      ensures r.Failed? ==> r == Failed(ClockBehind) && pc == Idle
      ensures r.More? ==>
        && pc == BootLoop(ids, t)
        && Window(w.source, t, w.Head().page.At(t), w.Head().highWater.At(t))
           < old(Window(w.source, t, w.Head().page.At(t), w.Head().highWater.At(t)))
      ensures Clocked(old(w.Head()), w.Head(), clock, old(writes), writes, !r.Failed?)
    {
      ghost var after := w.Head().page.At(t);
      ghost var high := w.Head().highWater.At(t);
      ghost var rows := ReadBoot(ids, t, after, high);
      if pc.BootEmpty? {
        NoWrite(w.Head(), w.Head(), clock, writes);
        return Drained;
      }
      ghost var read := w;
      InsertBoot(ids, t, after, high);
      ghost var landed := w;
      var ok := RecordPage(ids, t);
      OneWrite(landed.Head(), w.Head(), clock, old(writes), ok);
      if !ok {
        return Failed(ClockBehind);
      }
      ShrinksTransitive(read, landed, w, t, after, high);
      AdvanceShrinks(read, w, t, after, high, rows);
      return More;
    }

    /** The writes that close a table: its high water, then the next stage. */
    method CloseTable(ids: Identities, t: Table) returns (ok: bool)
      requires Valid() && pc == BootEmpty(ids, t)
      modifies this
      ensures Valid() && SameGeneration(old(w), w)
      ensures ok ==> pc == Upgrading(ids) && w.Head().stage == NextBootStage(t)
      ensures !ok ==> pc == Idle && w.Head().stage == old(w.Head().stage)
      ensures Clocked(old(w.Head()), w.Head(), clock, old(writes), writes, ok)
    {
      ok := RecordHighWater(ids, t);
      if ok {
        ghost var g, k := w.Head(), writes;
        ok := AdvanceStage(ids, t);
        OneWrite(g, w.Head(), clock, k, ok);
        ClockedThen(old(w.Head()), g, w.Head(), clock, old(writes), k, writes, ok);
      }
    }

    /** `export_execution_upgrade_runs` and `export_execution_upgrade_tasks`. */
    method BootTable(ids: Identities, t: Table) returns (ok: bool)
      requires Valid() && pc == BootLoop(ids, t)
      modifies this
      ensures Valid() && SameGeneration(old(w), w)
      ensures ok ==> pc == Upgrading(ids) && w.Head().stage == NextBootStage(t)
      ensures !ok ==> pc == Idle && w.Head().stage == old(w.Head().stage)
      ensures Clocked(old(w.Head()), w.Head(), clock, old(writes), writes, ok)
    {
      var turn := More;
      ghost var first, from := w.Head(), writes;
      NoWrite(first, first, clock, from);
      while turn.More?
        invariant Valid() && SameGeneration(old(w), w) && w.Head().stage == first.stage
        invariant turn.More? ==> pc == BootLoop(ids, t)
        invariant turn.Drained? ==> pc == BootEmpty(ids, t)
        invariant turn.Failed? ==> pc == Idle
        invariant Clocked(first, w.Head(), clock, from, writes, !turn.Failed?)
        decreases turn.More?, Window(w.source, t, w.Head().page.At(t), w.Head().highWater.At(t))
      {
        ghost var g, k := w.Head(), writes;
        turn := BootPage(ids, t);
        ClockedThen(first, g, w.Head(), clock, from, k, writes, !turn.Failed?);
      }
      if turn.Failed? {
        return false;
      }
      ghost var g, k := w.Head(), writes;
      ok := CloseTable(ids, t);
      ClockedThen(first, g, w.Head(), clock, from, k, writes, ok);
    }

    /** One iteration of the stage loop, without the tables it may go on to bootstrap. */
    method Tick(ids: Identities)
      requires Valid() && pc == Upgrading(ids) && w.gens != [] && w.Head().ids == ids
      modifies this
      ensures Valid() && SameGeneration(old(w), w)
      ensures State(w, pc) == UpgradeStage(w.(gens := old(w.gens), cursors := old(w.cursors)), ids, clock(old(writes)))
      ensures writes == old(writes) + if Writes(old(w.Head().stage)) then 1 else 0
    {
      FencesAreSealed(State(w, pc), Runs);
      Interfere(Runs, ZERO, w.Head().highWater.runs);
      var now := clock(writes);
      writes := writes + if Writes(w.Head().stage) then 1 else 0;
      ExporterKeepsSound(State(w, pc), Start(UpgradeTick(now)));
      var s := UpgradeStage(w, ids, now);
      w, pc := s.w, s.pc;
    }

    /** One iteration of the stage loop, up to and including the table it bootstraps. */
    method UpgradeOnce(ids: Identities) returns (ok: bool)
      requires Valid() && pc == Upgrading(ids) && w.gens != [] && w.Head().ids == ids && !w.Head().stage.Complete?
      modifies this
      ensures Valid() && SameGeneration(old(w), w)
      ensures ok ==> pc == Upgrading(ids) && Rank(w.Head().stage) == Rank(old(w.Head().stage)) + 1
      ensures ok && w.Head().stage.Complete? ==> CursorsAtHighWater(w)
      ensures !ok ==> pc == Idle && w.Head().stage == old(w.Head().stage)
      ensures Clocked(old(w.Head()), w.Head(), clock, old(writes), writes, ok)
    {
      ghost var g := w.Head();
      Tick(ids);
      StageOutcome(w.(gens := old(w.gens), cursors := old(w.cursors)), ids, clock(old(writes)));
      if pc.BootLoop? {
        ok := BootTable(ids, pc.table);
      } else {
        ok := pc.Upgrading?;
        OneWrite(g, w.Head(), clock, old(writes), ok);
      }
    }

    /** What a finished stage loop leaves: the same generation, complete, and still mirrored. */
    ghost predicate Finished(before: World)
      reads this
    {
      && SameGeneration(before, w) && w.Head().stage.Complete? && w.cursors.Some?
      && (!before.Head().stage.Complete? ==> CursorsAtHighWater(w))
      && (Bound(w) ==> forall t: Table :: MirroredUpTo(w, t, w.Cursor(t)))
    }

    /** The stage loop itself, up to the stage `complete`. */
    method UpgradeToComplete(ids: Identities) returns (ok: bool)
      requires Valid() && pc == Upgrading(ids) && w.gens != [] && w.Head().ids == ids
      modifies this
      ensures Valid() && SameGeneration(old(w), w)
      ensures Rank(old(w.Head().stage)) <= Rank(w.Head().stage)
      ensures ok ==> pc == Upgrading(ids) && w.Head().stage.Complete?
      ensures ok && !old(w.Head().stage.Complete?) ==> CursorsAtHighWater(w)
      ensures !ok ==> pc == Idle
      ensures Clocked(old(w.Head()), w.Head(), clock, old(writes), writes, ok)
    {
      ghost var first, from := w.Head(), writes;
      NoWrite(first, first, clock, from);
      while !w.Head().stage.Complete?
        invariant Valid() && pc == Upgrading(ids) && SameGeneration(old(w), w)
        invariant Rank(first.stage) <= Rank(w.Head().stage)
        invariant w.Head().stage.Complete? && !first.stage.Complete? ==> CursorsAtHighWater(w)
        invariant Clocked(first, w.Head(), clock, from, writes, true)
        decreases 5 - Rank(w.Head().stage)
      {
        ghost var g, k := w.Head(), writes;
        ok := UpgradeOnce(ids);
        ClockedThen(first, g, w.Head(), clock, from, k, writes, ok);
        if !ok {
          return;
        }
      }
      ok := true;
    }

    /** The stage loop finds the generation complete. */
    method Lead(ids: Identities)
      requires Valid() && pc == Upgrading(ids) && w.gens != [] && w.Head().ids == ids && w.Head().stage.Complete?
      modifies this`w, this`pc, this`steps
      ensures Valid() && pc == Leading && w.gens == old(w.gens) && w.cursors == old(w.cursors)
      ensures Bound(w) ==> forall t: Table :: MirroredUpTo(w, t, w.Cursor(t))
    {
      FencesAreSealed(State(w, pc), Runs);
      Interfere(Runs, ZERO, ZERO);
      ExporterKeepsSound(State(w, pc), Start(UpgradeTick(0)));
      pc := Leading;
      if Bound(w) {
        VouchedFor(State(w, pc), Runs);
        VouchedFor(State(w, pc), Tasks);
      }
    }

    /**
    `ensure_execution_dimension_upgrade`, resumed from whatever stage and page a crash or a refused
    write left behind. It reaches `complete` unless a write comes behind the clock, and both tables
    are then mirrored up to the fences the generation started from.
    */
    method EnsureUpgrade(ids: Identities) returns (r: Result<(), ExportError>)
      requires Valid() && pc == Upgrading(ids) && w.gens != []
      modifies this
      ensures Valid() && w.gens != []
      ensures r == Err(WrongTables) <==> old(w.Head().ids) != ids
      ensures r == Err(WrongTables) ==> w == old(w)
      ensures r.Ok? ==> Finished(old(w)) && pc == Leading
      ensures r.Err? ==> pc == Idle && (r.error.WrongTables? || r.error.ClockBehind?)
      ensures SameGeneration(old(w), w) && Rank(old(w.Head().stage)) <= Rank(w.Head().stage)
      ensures Clocked(old(w.Head()), w.Head(), clock, old(writes), writes, r != Err(ClockBehind))
    {
      if w.Head().ids != ids {
        NoWrite(w.Head(), w.Head(), clock, writes);
        ExporterKeepsSound(State(w, pc), Start(UpgradeTick(clock(writes))));
        pc := Idle;
        return Err(WrongTables);
      }
      var ok := UpgradeToComplete(ids);
      if !ok {
        return Err(ClockBehind);
      }
      Lead(ids);
      return Ok(());
    }

    /******* Start-up *******/

    /** Schema validation reads the live identities; is the newest generation bound to them? */
    method Validate() returns (ids: Identities)
      requires Valid() && pc == Idle
      modifies this`pc
      ensures Valid() && ids == w.ids
      ensures pc == if w.gens != [] && w.Head().ids == ids then Upgrading(ids) else Measuring(ids)
    {
      ids := w.ids;
      ExporterKeepsSound(State(w, pc), Start(StartUp));
      pc := Validated(ids);
      ExporterKeepsSound(State(w, pc), Start(CheckState));
      pc := StartApply(State(w, pc), CheckState).pc;
    }

    /** `max_existing_execution_export_version`, then `initialize_execution_upgrade` under its lock. */
    method InitializeGeneration(ids: Identities) returns (r: Result<(), ExportError>)
      requires Valid() && pc == Measuring(ids)
      modifies this
      ensures Valid() && w.cursors == old(w.cursors)
      ensures r == Err(LockHeld) <==> w.inFlight != map[]
      ensures w.inFlight == map[] ==>
        forall e :: r == Err(e) <==> InitializeError(old(w.gens), ids, MaxVersion(old(w.copies)), e)
      ensures r.Err? ==> pc == Idle && w.gens == old(w.gens) && writes == old(writes)
      ensures r.Ok? ==> pc == Upgrading(ids) && w.gens != [] && w.Head().ids == ids
      ensures r.Ok? && FirstOrPaired(old(w.gens), ids) ==>
        && w.gens == old(w.gens) + [w.Head()] && writes == old(writes) + 1
        && IsOpened(w.Head(), w.(gens := old(w.gens)), ids, MaxVersion(old(w.copies)), clock(old(writes)))
      ensures r.Ok? && !FirstOrPaired(old(w.gens), ids) ==> w.gens == old(w.gens) && writes == old(writes)
    {
      ExporterKeepsSound(State(w, pc), Start(Measure));
      pc := StartApply(State(w, pc), Measure).pc;
      FencesAreSealed(State(w, pc), Runs);
      Interfere(Runs, ZERO, ZERO);
      if w.inFlight != map[] {
        CrashKeepsSound(State(w, pc));
        pc := Idle;
        return Err(LockHeld);
      }
      var now := clock(writes);
      ExporterKeepsSound(State(w, pc), Start(Initialize(now)));
      var made := InitializeUpgrade(w, ids, pc.maxExisting, now);
      InitializeOutcome(w, ids, pc.maxExisting, now);
      var s := StartApply(State(w, pc), Initialize(now));
      writes := writes + if |s.w.gens| > |w.gens| then 1 else 0;
      w, pc := s.w, s.pc;
      r := if made.Ok? then Ok(()) else Err(made.error);
    }

    /**
    A new leader's start-up. It opens one generation when there is none or both tables were
    replaced, resumes the newest one otherwise, and refuses any other change of identities.
    */
    method Launch() returns (r: Result<(), ExportError>)
      requires Valid() && pc == Idle
      modifies this
      ensures Valid()
      ensures r.Ok? ==>
        && pc == Leading && w.gens != [] && w.Head().ids == old(w.ids) && w.Head().stage.Complete? && w.cursors.Some?
        && (Bound(w) ==> forall t: Table :: MirroredUpTo(w, t, w.Cursor(t)))
        && |w.gens| == |old(w.gens)| + (if FirstOrPaired(old(w.gens), old(w.ids)) then 1 else 0)
        && (if FirstOrPaired(old(w.gens), old(w.ids))
            then IsNextVersion(w.Head().upgradeVersion, clock(old(writes)), old(w.gens), MaxVersion(old(w.copies)))
            else SameGeneration(old(w), w))
      ensures r.Err? ==> pc == Idle
      ensures forall e | InitializeError(old(w.gens), old(w.ids), MaxVersion(old(w.copies)), e) ::
        r == Err(e) || r == Err(LockHeld)
      ensures r.Err? && !r.error.ClockBehind? && !r.error.LockHeld? ==>
        InitializeError(old(w.gens), old(w.ids), MaxVersion(old(w.copies)), r.error)
      ensures r == Err(LockHeld) ==> w.inFlight != map[] && (old(w.gens) == [] || old(w.Head().ids) != old(w.ids))
      ensures r == Err(ClockBehind) <==>
        !Timely(FirstStored(old(w.gens), old(w.ids), clock(old(writes))), clock, old(writes), writes)
    {
      var ids := Validate();
      if pc.Measuring? {
        r := InitializeGeneration(ids);
        if r.Err? {
          return;
        }
      }
      r := EnsureUpgrade(ids);
    }
  }
}
