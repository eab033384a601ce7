/** The inductive invariant of the fenced export. */
module ExportInvariant {
  import opened Prelude
  import opened ExportModel

  /******* Source and fences *******/

  /** Committed and pending sequences come from one counter, and a pending row is the newer one. */
  ghost predicate SourceOk(w: World) {
    && 1 <= w.nextSeq
    && (forall k | k in w.source :: 1 <= w.source[k].change < w.nextSeq)
    && (forall k | k in w.inFlight :: 1 <= w.inFlight[k].change < w.nextSeq)
    && (forall k | k in w.inFlight && k in w.source :: w.source[k].change < w.inFlight[k].change)
  }

  /** No transaction that may still commit holds a sequence at or below `p`. */
  ghost predicate Sealed(w: World, p: Position) {
    && 0 <= p.change < w.nextSeq
    && (p.change == 0 ==> p == ZERO)
    && forall k | k in w.inFlight :: p.change < w.inFlight[k].change
  }

  ghost predicate FenceOk(w: World, t: Table) {
    && (w.gens != [] ==>
          && Sealed(w, w.Head().highWater.At(t)) && Sealed(w, w.Head().page.At(t))
          && AtMost(w.Head().page.At(t), w.Head().highWater.At(t)))
    && (w.cursors.Some? ==>
          && Sealed(w, w.Cursor(t))
          && (w.Fence(t).Some? ==> Sealed(w, w.Fence(t).value) && AtMost(w.Cursor(t), w.Fence(t).value)))
  }

  ghost predicate FencesOk(w: World) {
    forall t: Table :: FenceOk(w, t)
  }

  /** `p` is where a pass over `t` prepared now must end: at the active fence, or else beyond no row but before none. */
  ghost predicate IsFence(w: World, t: Table, p: Position)
    requires w.cursors.Some?
  {
    match w.Fence(t)
    case Some(f) => p == f
    case None =>
      && AtMost(w.Cursor(t), p)
      && (forall k | k in w.source && k.table == t :: AtMost(PositionOf(k, w.source[k]), p))
      && (p == w.Cursor(t) || exists k :: k in w.source && k.table == t && PositionOf(k, w.source[k]) == p)
  }

  /** An active fence stays until the cursor reaches it. */
  ghost predicate FenceKept(w: World, w': World, t: Table)
    requires w.cursors.Some? && w'.cursors.Some?
  {
    w.Fence(t).Some? ==>
      w'.Fence(t) == w.Fence(t) || (w'.Fence(t).None? && w'.Cursor(t) == w.Fence(t).value)
  }

  /******* Copies *******/

  /** Nothing exported for `k` is newer than what the source holds, will hold, or can still assign. */
  ghost predicate NotNewer(w: World, k: Key, change: int, content: Content) {
    && 1 <= change < w.nextSeq
    && (k in w.source ==> change <= w.source[k].change && (change == w.source[k].change ==> content == w.source[k].content))
    && (k in w.inFlight ==> change < w.inFlight[k].change)
    && (k in w.source || k in w.retired)
  }

  ghost predicate CopyOk(w: World, c: Copy) {
    NotNewer(w, c.key, c.change, c.content)
  }

  /** A bootstrap copy is current until its row is rewritten beyond the bootstrap fence. */
  ghost predicate BootCopyOk(w: World, c: Copy)
    requires w.gens != []
  {
    var high := w.Head().highWater.At(c.key.table);
    && c.change <= high.change
    && (c.key in w.source ==> w.source[c.key].change == c.change || high.change < w.source[c.key].change)
  }

  ghost predicate VersionsOk(w: World) {
    && (w.gens == [] ==> w.log == {})
    && (w.gens != [] ==>
          && w.Head().upgradeVersion <= w.Head().floor
          && (!w.Head().stage.Complete? ==> w.Head().floor == w.Head().upgradeVersion)
          && (forall c | c in w.log :: c.version <= w.Head().floor)
          && (forall c | c in w.copies :: c.version <= w.Head().floor)
          && (forall c | c in w.copies && c !in w.log :: c.version < w.Head().upgradeVersion)
          && (forall c | c in w.log && c.version == w.Head().upgradeVersion :: BootCopyOk(w, c)))
  }

  /** A later version never carries an older row, and equal versions carry the same row. */
  ghost predicate Ordered(c: Copy, d: Copy) {
    c.key == d.key ==>
      && (c.version < d.version ==> c.change <= d.change)
      && (c.version == d.version ==> c == d)
  }

  ghost predicate VersionOrdered(log: set<Copy>) {
    forall c, d | c in log && d in log :: Ordered(c, d)
  }

  ghost predicate CopiesOk(w: World) {
    && (forall c | c in w.log :: CopyOk(w, c))
    && (forall c | c in w.copies :: c in w.log || c.key in w.retired)
    && VersionOrdered(w.log)
    && VersionsOk(w)
  }

  /******* The mirror *******/

  /** `c` is what ClickHouse shows for `k` after collapsing to the highest version. */
  ghost predicate Wins(copies: set<Copy>, k: Key, c: Copy) {
    && c in copies && c.key == k
    && forall d | d in copies && d.key == k :: d.version < c.version || d == c
  }

  ghost predicate Mirrored(w: World, k: Key)
    requires k in w.source
  {
    exists c :: Wins(w.copies, k, c) && c.change == w.source[k].change && c.content == w.source[k].content
  }

  ghost predicate MirroredUpTo(w: World, t: Table, p: Position) {
    forall k | k in w.source && k.table == t && AtMost(PositionOf(k, w.source[k]), p) :: Mirrored(w, k)
  }

  /** The newest generation was created for the tables that are live now. */
  ghost predicate Bound(w: World) {
    w.gens != [] && w.Head().ids == w.ids
  }

  /** The position up to which the newest generation vouches for its copies. */
  ghost predicate TableMirrorOk(w: World, t: Table)
    requires w.gens != []
  {
    if w.Head().stage.Complete? then w.cursors.Some? && MirroredUpTo(w, t, w.Cursor(t))
    else MirroredUpTo(w, t, w.Head().page.At(t))
  }

  ghost predicate MirrorOk(w: World) {
    Bound(w) ==> forall t: Table :: TableMirrorOk(w, t)
  }

  /******* Generations *******/

  ghost predicate StageOk(w: World) {
    w.gens != [] ==>
      var g := w.Head();
      && (Rank(g.stage) < Rank(CursorsReset) ==> g.page.runs == ZERO)
      && (Rank(g.stage) < Rank(RunsExported) ==> g.page.tasks == ZERO)
      && (Rank(g.stage) >= Rank(RunsExported) ==> g.page.runs == g.highWater.runs)
      && (Rank(g.stage) >= Rank(TasksExported) ==> g.page.tasks == g.highWater.tasks)
      && (Rank(g.stage) >= Rank(CursorsReset) ==> w.cursors.Some?)
      && (Rank(CursorsReset) <= Rank(g.stage) < Rank(Complete) ==>
            w.cursors.value == PerTable(CursorRow(ZERO, None), CursorRow(ZERO, None)))
  }

  /** `h` is a later generation than `g`: same database, both tables replaced, newer versions. */
  ghost predicate Supersedes(h: Generation, g: Generation) {
    && g.ids.database == h.ids.database
    && g.ids.runTable != h.ids.runTable && g.ids.taskTable != h.ids.taskTable
    && g.floor < h.upgradeVersion && g.upgradeVersion <= g.floor
  }

  ghost predicate Known(w: World, ids: Identities) {
    {ids.database, ids.runTable, ids.taskTable} <= w.usedIds
  }

  /** Neither table of `g` carries the identities `ids`. */
  ghost predicate Outlived(g: Generation, ids: Identities) {
    g.ids.runTable != ids.runTable && g.ids.taskTable != ids.taskTable
  }

  ghost predicate GenerationsOk(w: World) {
    && Known(w, w.ids) && NIL !in w.usedIds
    && (forall g | g in w.gens :: Known(w, g.ids))
    && (forall i, j | 0 <= i < j < |w.gens| :: Supersedes(w.gens[j], w.gens[i]))
    && (forall i | 0 <= i < |w.gens| - 1 :: Outlived(w.gens[i], w.ids))
  }

  /** Identities read at startup are at least as new as the newest generation. */
  ghost predicate FreshIds(w: World, ids: Identities) {
    && Known(w, ids)
    && (forall i | 0 <= i < |w.gens| - 1 :: Outlived(w.gens[i], ids))
    && (w.gens != [] ==> forall t: Table ::
          TableId(ids, t) != TableId(w.Head().ids, t) ==> TableId(w.ids, t) != TableId(w.Head().ids, t))
  }

  ghost predicate WorldInv(w: World) {
    SourceOk(w) && FencesOk(w) && CopiesOk(w) && MirrorOk(w) && StageOk(w) && GenerationsOk(w)
  }

  /******* What the exporter holds in memory *******/

  ghost predicate RowOk(w: World, t: Table, after: Position, upto: Position, r: Row) {
    && r.key.table == t
    && Before(after, Position(r.change, r.key.id)) && AtMost(Position(r.change, r.key.id), upto)
    && NotNewer(w, r.key, r.change, r.content)
    && (r.key in w.source ==> w.source[r.key].change == r.change || upto.change < w.source[r.key].change)
    && (forall c | c in w.log && c.key == r.key ::
          c.change <= r.change && (c.change == r.change ==> c.content == r.content))
  }

  /** A page read earlier is still a complete, current prefix of what the window now holds. */
  ghost predicate PageOk(w: World, t: Table, after: Position, upto: Position, rows: seq<Row>) {
    && rows != []
    && Sealed(w, upto)
    && (forall r | r in rows :: RowOk(w, t, after, upto, r) && AtMost(Position(r.change, r.key.id), LastOf(rows)))
    && (forall q, r | q in rows && r in rows && q.key == r.key :: q == r)
    && (forall k | k in Window(w.source, t, after, LastOf(rows)) ::
          Row(k, w.source[k].change, w.source[k].content) in rows)
  }

  /** A bootstrap page re-reads exactly what an interrupted attempt already inserted. */
  ghost predicate Rereads(w: World, rows: seq<Row>)
    requires w.gens != []
  {
    forall c, r | c in w.log && r in rows && c.key == r.key && c.version == w.Head().upgradeVersion :: c.change == r.change
  }

  ghost predicate Booting(w: World, ids: Identities, t: Table) {
    w.gens != [] && w.Head().ids == ids && w.Head().stage == BootStage(t)
  }

  ghost predicate Passing(w: World, t: Table, fence: Position) {
    && w.gens != [] && w.Head().stage.Complete? && w.cursors.Some?
    && w.Fence(t) == Some(fence)
  }

  /** Rows of the page that ended at `last` were inserted; the cursor has not moved yet. */
  ghost predicate Landed(w: World, t: Table, after: Position, upto: Position, last: Position) {
    && Before(after, last) && AtMost(last, upto) && Sealed(w, last)
    && (Bound(w) ==> MirroredUpTo(w, t, last))
  }

  ghost predicate LocalInv(s: State) {
    var w := s.w;
    match s.pc
    case Validated(ids) => FreshIds(w, ids)
    case Measuring(ids) => FreshIds(w, ids)
    case Measured(ids, m) =>
      // Later inserts can only come from this exporter; resets only remove copies.
      FreshIds(w, ids) && forall c | c in w.copies :: m.Some? && c.version <= m.value
    case BootLoop(ids, t) => Booting(w, ids, t)
    case BootRead(ids, t, rows) =>
      && Booting(w, ids, t) && PageOk(w, t, w.Head().page.At(t), w.Head().highWater.At(t), rows)
      && Rereads(w, rows)
    case BootInserted(ids, t, last) =>
      Booting(w, ids, t) && Landed(w, t, w.Head().page.At(t), w.Head().highWater.At(t), last)
    case BootEmpty(ids, t) =>
      Booting(w, ids, t) && Window(w.source, t, w.Head().page.At(t), w.Head().highWater.At(t)) == {}
    case BootDrained(ids, t) =>
      Booting(w, ids, t) && w.Head().page.At(t) == w.Head().highWater.At(t)
    case Upgrading(_) => w.gens != []
    case Leading => w.gens != [] && w.Head().stage.Complete?
    case PassLoop(t) =>
      && w.gens != [] && w.Head().stage.Complete? && w.cursors.Some?
      && w.Fence(t).Some? && (t == Runs ==> w.Fence(Tasks).Some?)
    case PassRead(t, fence, rows) =>
      Passing(w, t, fence) && (t == Runs ==> w.Fence(Tasks).Some?) && PageOk(w, t, w.Cursor(t), fence, rows)
    case PassClaimed(t, fence, rows, version) =>
      && Passing(w, t, fence) && (t == Runs ==> w.Fence(Tasks).Some?) && PageOk(w, t, w.Cursor(t), fence, rows)
      && version == w.Head().floor && w.Head().upgradeVersion < version
      && (forall c | c in w.copies :: c.version < version)
      && (forall c | c in w.log :: c.version < version)
    case PassInserted(t, fence, last) =>
      Passing(w, t, fence) && (t == Runs ==> w.Fence(Tasks).Some?) && Landed(w, t, w.Cursor(t), fence, last)
    case PassDone(t, fence) =>
      Passing(w, t, fence) && (t == Runs ==> w.Fence(Tasks).Some?) && Window(w.source, t, w.Cursor(t), fence) == {}
    case _ => true
  }

  ghost predicate Inv(s: State) {
    WorldInv(s.w) && LocalInv(s)
  }
}
