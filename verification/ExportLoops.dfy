/**
What the exporter's loops argue with: windows that only shrink, the invariant carried as a whole,
and the clocks that the writes to the upgrade table carry.
*/
module ExportLoops {
  import opened Prelude
  import opened ExportModel
  import opened ExportInvariant
  import opened ExportEnvironment
  import opened ExportSteps

  /** The rows of `w'` left in the window are rows of `w` that were in it, unchanged. */
  ghost predicate Shrinks(w: World, w': World, t: Table, after: Position, upto: Position) {
    && Sealed(w', upto)
    && Window(w'.source, t, after, upto) <= Window(w.source, t, after, upto)
    && forall k | k in Window(w'.source, t, after, upto) :: w'.source[k] == w.source[k]
  }

  lemma ShrinksFurther(w: World, w': World, w'': World, t: Table, after: Position, upto: Position)
    requires Shrinks(w, w', t, after, upto) && Disturbed(w', w'')
    ensures Shrinks(w, w'', t, after, upto)
  {
    WindowShrinks(w', w'', t, after, upto);
    StaysSealed(w', w'', upto);
  }

  /** Moving past the last row of a page strictly shrinks what is left of the window. */
  lemma AdvanceShrinks(w: World, w': World, t: Table, after: Position, upto: Position, rows: seq<Row>)
    requires rows != [] && IsPrefix(w.source, t, after, upto, rows) && Shrinks(w, w', t, after, upto)
    ensures Window(w'.source, t, LastOf(rows), upto) < Window(w.source, t, after, upto)
  {
    var r := rows[|rows| - 1];
    assert r in rows;
    forall k | k in Window(w'.source, t, LastOf(rows), upto)
      ensures k in Window(w.source, t, after, upto) && k != r.key
    {
      assert Before(after, LastOf(rows));
      assert k in Window(w'.source, t, after, upto);
    }
    assert r.key in Window(w.source, t, after, upto);
  }

  lemma ShrinksTransitive(w: World, w': World, w'': World, t: Table, after: Position, upto: Position)
    requires Shrinks(w, w', t, after, upto) && Shrinks(w', w'', t, after, upto)
    ensures Shrinks(w, w'', t, after, upto)
  {
  }

  ghost predicate SameCursors(w: World, w': World) {
    w'.cursors == w.cursors && w'.cursors.Some? && w'.gens != [] && |w'.gens| == |w.gens|
  }

  /** The newest generation is still the same one, possibly further along. */
  ghost predicate SameGeneration(w: World, w': World) {
    && w.gens != [] && |w'.gens| == |w.gens|
    && w'.Head().ids == w.Head().ids && w'.Head().highWater == w.Head().highWater
    && w'.Head().upgradeVersion == w.Head().upgradeVersion
  }

  ghost predicate SameElsewhere(c: PerTable<CursorRow>, c': PerTable<CursorRow>, t: Table) {
    c' == c.With(t, c'.At(t))
  }

  /** What reading a bootstrap page makes of the exporter's position. */
  lemma BootPageRead(w: World, ids: Identities, t: Table, batch: nat)
    requires Booting(w, ids, t) && batch >= 1
    ensures var after, high := w.Head().page.At(t), w.Head().highWater.At(t);
      var rows := Page(w.source, t, after, high, batch);
      && IsPrefix(w.source, t, after, high, rows)
      && BootEnabled(State(w, BootLoop(ids, t)), ReadBootPage(batch))
      && BootApply(State(w, BootLoop(ids, t)), ReadBootPage(batch))
         == State(w, if rows == [] then BootEmpty(ids, t) else BootRead(ids, t, rows))
  {
    PageIsPrefix(w.source, t, w.Head().page.At(t), w.Head().highWater.At(t), batch);
  }

  /******* The invariant, kept folded *******/

  predicate Is(u: State, s: State) {
    u == s
  }

  /** `Inv(s)`, behind a quantifier so that loops can carry it without its parts. */
  ghost predicate Sound(s: State) {
    forall u: State :: Is(u, s) ==> Inv(u)
  }

  /** The parts of the invariant that the loops themselves rely on. */
  ghost predicate Shape(s: State) {
    var w := s.w;
    match s.pc
    case Upgrading(_) => w.gens != [] && (Rank(w.Head().stage) >= Rank(CursorsReset) ==> w.cursors.Some?)
    case BootLoop(ids, t) => Booting(w, ids, t)
    case BootRead(ids, t, rows) => Booting(w, ids, t) && rows != []
    case BootInserted(ids, t, _) => Booting(w, ids, t)
    case BootEmpty(ids, t) => Booting(w, ids, t)
    case BootDrained(ids, t) => Booting(w, ids, t)
    case Leading => w.gens != [] && w.Head().stage.Complete? && w.cursors.Some?
    case PassLoop(t) =>
      && w.gens != [] && w.Head().stage.Complete? && w.cursors.Some?
      && w.Fence(t).Some? && (t == Runs ==> w.Fence(Tasks).Some?)
    case PassRead(t, fence, rows) => Passing(w, t, fence) && rows != []
    case PassClaimed(t, fence, rows, _) => Passing(w, t, fence) && rows != []
    case PassInserted(t, fence, last) => Passing(w, t, fence) && Before(w.Cursor(t), last)
    case PassDone(t, fence) => Passing(w, t, fence)
    case _ => true
  }

  lemma Opened(s: State)
    requires Sound(s)
    ensures Inv(s)
  {
    assert Is(s, s);
  }

  lemma Closed(s: State)
    requires Inv(s)
    ensures Sound(s) && Shape(s) && Sequenced(s.w)
  {
    assert StageOk(s.w);
  }

  lemma ExporterKeepsSound(s: State, x: ExporterStep)
    requires Sound(s) && ExporterEnabled(s, x)
    ensures Sequenced(s.w) && Sound(ExporterApply(s, x)) && Shape(ExporterApply(s, x))
  {
    Opened(s);
    ExporterKeepsInv(s, x);
    Closed(ExporterApply(s, x));
  }

  lemma CrashKeepsSound(s: State)
    requires Sound(s)
    ensures Sound(s.(pc := Idle))
  {
    Opened(s);
    Closed(s.(pc := Idle));
  }

  lemma EnvKeepsSound(s: State, e: EnvStep)
    requires Sound(s) && EnvEnabled(s.w, e)
    ensures Sound(s.(w := EnvApply(s.w, e))) && Shape(s.(w := EnvApply(s.w, e))) && Disturbed(s.w, EnvApply(s.w, e))
  {
    Opened(s);
    EnvKeepsInv(s, e);
    EnvDisturbs(s.w, e);
    Closed(s.(w := EnvApply(s.w, e)));
  }

  /** The positions a loop may still be reading up to. */
  lemma FencesAreSealed(s: State, t: Table)
    requires Sound(s)
    ensures Sequenced(s.w) && Sealed(s.w, ZERO)
    ensures s.w.gens != [] ==> Sealed(s.w, s.w.Head().highWater.At(t))
    ensures s.w.cursors.Some? ==> Sealed(s.w, s.w.Cursor(t)) && (s.w.Fence(t).Some? ==> Sealed(s.w, s.w.Fence(t).value))
  {
    Opened(s);
    assert FenceOk(s.w, t);
  }

  lemma VouchedFor(s: State, t: Table)
    requires Sound(s) && Bound(s.w)
    ensures s.w.Head().stage.Complete? ==> s.w.cursors.Some? && MirroredUpTo(s.w, t, s.w.Cursor(t))
  {
    Opened(s);
    assert TableMirrorOk(s.w, t);
  }

  /******* Clocks *******/

  /** Each of the writes `from` to `to` carries a clock that is not behind the one stored before it. */
  ghost predicate Timely(stored: int, clock: nat -> int, from: nat, to: nat)
    decreases to - from
  {
    from < to ==> stored <= clock(from) && Timely(clock(from), clock, from + 1, to)
  }

  /** The time stored once the writes from `from` up to `to` were all taken. */
  ghost function StoredAfter(stored: int, clock: nat -> int, from: nat, to: nat): int {
    if from < to then clock(to - 1) else stored
  }

  /** The writes between `from` and `to` took `g` to `g'`, or stopped because one of them was late. */
  ghost predicate Clocked(g: Generation, g': Generation, clock: nat -> int, from: nat, to: nat, ok: bool) {
    && from <= to
    && (ok <==> Timely(g.updated, clock, from, to))
    && (ok ==> g'.updated == StoredAfter(g.updated, clock, from, to))
  }

  lemma {:induction false} TimelyThen(stored: int, clock: nat -> int, from: nat, mid: nat, to: nat)
    requires from <= mid <= to
    ensures Timely(stored, clock, from, to) <==>
      Timely(stored, clock, from, mid) && Timely(StoredAfter(stored, clock, from, mid), clock, mid, to)
    decreases mid - from
  {
    if from < mid {
      TimelyThen(clock(from), clock, from + 1, mid, to);
    }
  }

  lemma ClockedThen(g: Generation, g': Generation, g'': Generation, clock: nat -> int, from: nat, mid: nat, to: nat, ok: bool)
    requires Clocked(g, g', clock, from, mid, true) && Clocked(g', g'', clock, mid, to, ok)
    ensures Clocked(g, g'', clock, from, to, ok)
  {
    TimelyThen(g.updated, clock, from, mid, to);
  }

  lemma OneWrite(g: Generation, g': Generation, clock: nat -> int, k: nat, ok: bool)
    requires ok <==> !Late(g, clock(k))
    requires ok ==> g'.updated == clock(k)
    ensures Clocked(g, g', clock, k, k + 1, ok)
  {
  }

  lemma NoWrite(g: Generation, g': Generation, clock: nat -> int, k: nat)
    requires g'.updated == g.updated
    ensures Clocked(g, g', clock, k, k, true)
  {
  }

  /******* Stages *******/

  /** The stages the stage loop leaves by a write of its own; the others bootstrap a table. */
  predicate Writes(stage: Stage) {
    stage.Pending? || stage.SchemaUpgraded? || stage.TasksExported?
  }

  /** Both cursors stand where the bootstrap fenced them. */
  ghost predicate CursorsAtHighWater(w: World) {
    && w.gens != [] && w.cursors.Some?
    && w.Cursor(Runs) == w.Head().highWater.runs && w.Cursor(Tasks) == w.Head().highWater.tasks
  }

  /** A tick before completion starts a table's bootstrap, moves the stage by one, or is refused. */
  lemma StageOutcome(w: World, ids: Identities, now: int)
    requires w.gens != [] && w.Head().ids == ids && !w.Head().stage.Complete?
    requires Rank(w.Head().stage) >= Rank(CursorsReset) ==> w.cursors.Some?
    ensures var s := UpgradeStage(w, ids, now);
      if !Writes(w.Head().stage) then s.pc.BootLoop? && s == State(w, BootLoop(ids, s.pc.table)) && w.Head().stage == BootStage(s.pc.table)
      else if Late(w.Head(), now) then s == State(w, Idle)
      else
        && s.pc == Upgrading(ids) && s.w.gens != [] && Rank(s.w.Head().stage) == Rank(w.Head().stage) + 1
        && s.w.Head().updated == now
        && (s.w.Head().stage.Complete? ==> CursorsAtHighWater(s.w))
  {
  }

  /** What start-up makes of the identities it finds. */
  function Starting(gens: seq<Generation>, ids: Identities): Result<bool, ExportError> {
    if gens == [] then Ok(true) else ResetStartsNewGeneration(gens[|gens| - 1].ids, ids)
  }

  /** Exactly when no generation can be opened for `ids`, and why; `maxExisting` is what the live copies carry. */
  ghost predicate InitializeError(gens: seq<Generation>, ids: Identities, maxExisting: Option<int>, e: ExportError) {
    match e
    case UnsafeDatabaseReset => gens != [] && gens[|gens| - 1].ids.database != ids.database
    case UnsafePartialReset =>
      && gens != [] && gens[|gens| - 1].ids.database == ids.database
      && (gens[|gens| - 1].ids.runTable == ids.runTable) != (gens[|gens| - 1].ids.taskTable == ids.taskTable)
    case VersionExhausted => FirstOrPaired(gens, ids) && VersionsUsedUp(gens, maxExisting)
    case GenerationExhausted =>
      FirstOrPaired(gens, ids) && !VersionsUsedUp(gens, maxExisting) && |gens| >= MAX_GENERATION
    case _ => false
  }

  /** The first start ever, or one that finds both tables replaced inside the same database. */
  ghost predicate FirstOrPaired(gens: seq<Generation>, ids: Identities) {
    gens == [] || (gens[|gens| - 1].ids.database == ids.database && Outlived(gens[|gens| - 1], ids))
  }

  /** The generation a first start or a paired reset opens at time `now`. */
  ghost predicate IsOpened(g: Generation, w: World, ids: Identities, maxExisting: Option<int>, now: int) {
    && g.ids == ids && g.stage.Pending? && g.completed.None? && g.created == g.updated == now
    && g.floor == g.upgradeVersion && IsNextVersion(g.upgradeVersion, now, w.gens, maxExisting)
    && IsGreatest(w.source, Runs, g.highWater.runs) && IsGreatest(w.source, Tasks, g.highWater.tasks)
    && g.page == PerTable(ZERO, ZERO)
  }

  lemma InitializeOutcome(w: World, ids: Identities, maxExisting: Option<int>, now: int)
    requires Sequenced(w)
    ensures var r, starts := InitializeUpgrade(w, ids, maxExisting, now), Starting(w.gens, ids);
      && (forall e :: r == Err(e) <==> InitializeError(w.gens, ids, maxExisting, e))
      && (starts == Ok(true) <==> FirstOrPaired(w.gens, ids))
      && (r.Ok? ==>
            && starts.Ok? && r.value == w.(gens := r.value.gens) && r.value.gens != [] && r.value.Head().ids == ids
            && (if starts.value
                then r.value.gens == w.gens + [r.value.Head()] && IsOpened(r.value.Head(), w, ids, maxExisting, now)
                else r.value == w))
  {
  }

  /** The time stored before start-up's first write; a new generation stores the clock it was created at. */
  ghost function FirstStored(gens: seq<Generation>, ids: Identities, now: int): int {
    if gens == [] || Starting(gens, ids) == Ok(true) then now else gens[|gens| - 1].updated
  }
}
