/**
Every exporter step keeps the invariant.
*/
module ExportSteps {
  import opened Prelude
  import opened ExportModel
  import opened ExportInvariant

  /******* Reading a page *******/

  /** `rows` are the least rows of the window: nothing at or below their last one is missing. */
  ghost predicate IsPrefix(source: map<Key, SourceRow>, t: Table, after: Position, upto: Position, rows: seq<Row>) {
    && (forall r | r in rows ::
          && r.key in Window(source, t, after, upto)
          && r == Row(r.key, source[r.key].change, source[r.key].content)
          && AtMost(Position(r.change, r.key.id), LastOf(rows)))
    && (rows != [] ==> Covers(source, t, after, rows))
  }

  ghost predicate Covers(source: map<Key, SourceRow>, t: Table, after: Position, rows: seq<Row>)
    requires rows != []
  {
    forall k | k in Window(source, t, after, LastOf(rows)) :: Row(k, source[k].change, source[k].content) in rows
  }

  lemma PrependCovers(source: map<Key, SourceRow>, t: Table, after: Position, upto: Position, k: Key, rest: seq<Row>)
    requires IsLeast(source, Window(source, t, after, upto), k)
    requires IsPrefix(source, t, PositionOf(k, source[k]), upto, rest)
    ensures IsPrefix(source, t, after, upto, [Row(k, source[k].change, source[k].content)] + rest)
  {
    var p := PositionOf(k, source[k]);
    var rows := [Row(k, source[k].change, source[k].content)] + rest;
    if rest != [] {
      assert rest[|rest| - 1] in rest;
      assert LastOf(rows) == LastOf(rest);
    }
    forall j | j in Window(source, t, after, LastOf(rows))
      ensures Row(j, source[j].change, source[j].content) in rows
    {
      assert j in Window(source, t, after, upto);
      if j != k {
        assert rest != [] && j in Window(source, t, p, LastOf(rest));
        assert Row(j, source[j].change, source[j].content) in rest;
      }
    }
  }

  lemma {:induction false} PageIsPrefix(source: map<Key, SourceRow>, t: Table, after: Position, upto: Position, limit: nat)
    ensures IsPrefix(source, t, after, upto, Page(source, t, after, upto, limit))
    ensures Page(source, t, after, upto, limit) == [] <==> limit == 0 || Window(source, t, after, upto) == {}
    ensures |Page(source, t, after, upto, limit)| <= limit
    decreases limit
  {
    var keys := Window(source, t, after, upto);
    if limit != 0 && keys != {} {
      var k := Least(source, t, keys);
      PageIsPrefix(source, t, PositionOf(k, source[k]), upto, limit - 1);
      PrependCovers(source, t, after, upto, k, Page(source, t, PositionOf(k, source[k]), upto, limit - 1));
    }
  }

  /** A page is in strictly ascending order. */
  lemma {:induction false} PageIsSorted(source: map<Key, SourceRow>, t: Table, after: Position, upto: Position, limit: nat)
    ensures var rows := Page(source, t, after, upto, limit);
      forall i, j | 0 <= i < j < |rows| ::
        Before(Position(rows[i].change, rows[i].key.id), Position(rows[j].change, rows[j].key.id))
    decreases limit
  {
    var keys := Window(source, t, after, upto);
    if limit != 0 && keys != {} {
      var k := Least(source, t, keys);
      var p := PositionOf(k, source[k]);
      var rest := Page(source, t, p, upto, limit - 1);
      PageIsSorted(source, t, p, upto, limit - 1);
      PageIsPrefix(source, t, p, upto, limit - 1);
      assert forall j | 0 <= j < |rest| :: rest[j] in rest;
    }
  }

  /** A page shorter than its limit leaves nothing of the window behind. */
  lemma {:induction false} ShortPageIsFull(
      source: map<Key, SourceRow>, t: Table, after: Position, upto: Position, limit: nat, j: Key)
    requires j in Window(source, t, after, upto) && |Page(source, t, after, upto, limit)| < limit
    ensures Row(j, source[j].change, source[j].content) in Page(source, t, after, upto, limit)
    decreases limit
  {
    var keys := Window(source, t, after, upto);
    var k := Least(source, t, keys);
    if j != k {
      assert AtMost(PositionOf(k, source[k]), PositionOf(j, source[j]));
      ShortPageIsFull(source, t, PositionOf(k, source[k]), upto, limit - 1, j);
    }
  }

  lemma ReadPageOk(w: World, t: Table, after: Position, upto: Position, limit: nat)
    requires WorldInv(w) && Sealed(w, upto) && Page(w.source, t, after, upto, limit) != []
    ensures PageOk(w, t, after, upto, Page(w.source, t, after, upto, limit))
  {
    PageIsPrefix(w.source, t, after, upto, limit);
    var rows := Page(w.source, t, after, upto, limit);
    forall r | r in rows
      ensures RowOk(w, t, after, upto, r)
    {
      assert forall c | c in w.log :: CopyOk(w, c);
    }
  }

  lemma ReadBootPageRereads(w: World, t: Table, limit: nat)
    requires WorldInv(w) && w.gens != []
    ensures Rereads(w, Page(w.source, t, w.Head().page.At(t), w.Head().highWater.At(t), limit))
  {
    var high := w.Head().highWater.At(t);
    var rows := Page(w.source, t, w.Head().page.At(t), high, limit);
    PageIsPrefix(w.source, t, w.Head().page.At(t), high, limit);
    forall c, r | c in w.log && r in rows && c.key == r.key && c.version == w.Head().upgradeVersion
      ensures c.change == r.change
    {
      assert BootCopyOk(w, c);
    }
  }

  /******* Inserting a page *******/

  ghost predicate Insertable(w: World, rows: seq<Row>, version: int) {
    && w.gens != [] && version == w.Head().floor
    && (forall c, r | c in w.log && r in rows && c.key == r.key && c.version == version :: c.change == r.change)
    && (forall c | c in w.copies && c.version == version :: c in w.log)
    && (version == w.Head().upgradeVersion ==>
          forall r | r in rows :: BootCopyOk(w, Copy(r.key, version, r.change, r.content)))
  }

  lemma InsertKeepsOrder(w: World, t: Table, after: Position, upto: Position, rows: seq<Row>, version: int)
    requires WorldInv(w) && PageOk(w, t, after, upto, rows) && Insertable(w, rows, version)
    ensures VersionOrdered(Insert(w, rows, version).log)
  {
    forall c, d | c in Insert(w, rows, version).log && d in Insert(w, rows, version).log
      ensures Ordered(c, d)
    {
      if c in w.log && d in w.log {
      } else if c in w.log && c.key == d.key {
        var r :| r in rows && d == Copy(r.key, version, r.change, r.content);
        assert RowOk(w, t, after, upto, r);
      } else if d in w.log && c.key == d.key {
        var r :| r in rows && c == Copy(r.key, version, r.change, r.content);
        assert RowOk(w, t, after, upto, r);
      }
    }
  }

  lemma InsertKeepsCopies(w: World, t: Table, after: Position, upto: Position, rows: seq<Row>, version: int)
    requires WorldInv(w) && PageOk(w, t, after, upto, rows) && Insertable(w, rows, version)
    ensures CopiesOk(Insert(w, rows, version))
  {
    var w' := Insert(w, rows, version);
    InsertKeepsOrder(w, t, after, upto, rows, version);
    forall c | c in w'.log
      ensures CopyOk(w', c)
    {
      if c in w.log {
        assert CopyOk(w, c);
      } else {
        var r :| r in rows && c == Copy(r.key, version, r.change, r.content);
        assert RowOk(w, t, after, upto, r);
      }
    }
    forall c | c in w'.log && c.version == w'.Head().upgradeVersion
      ensures BootCopyOk(w', c)
    {
      if c in w.log {
        assert BootCopyOk(w, c);
      } else {
        var r :| r in rows && c == Copy(r.key, version, r.change, r.content);
        assert BootCopyOk(w, c);
      }
    }
  }

  /** The inserted copy is the one ClickHouse shows from now on. */
  lemma InsertedWins(w: World, t: Table, after: Position, upto: Position, rows: seq<Row>, version: int, r: Row)
    requires WorldInv(w) && PageOk(w, t, after, upto, rows) && Insertable(w, rows, version) && r in rows
    ensures Wins(Insert(w, rows, version).copies, r.key, Copy(r.key, version, r.change, r.content))
  {
    var w' := Insert(w, rows, version);
    var c := Copy(r.key, version, r.change, r.content);
    InsertKeepsOrder(w, t, after, upto, rows, version);
    assert c in CopiesAt(rows, version);
    forall d | d in w'.copies && d.key == r.key
      ensures d.version < c.version || d == c
    {
      if d.version == version {
        assert d in w'.log && c in w'.log;
        assert Ordered(c, d);
      }
    }
  }

  /** Rows at or below the old cursor are not in the page, so their winning copy is untouched. */
  lemma InsertKeepsMirror(w: World, t: Table, after: Position, upto: Position, rows: seq<Row>, version: int, u: Table, p: Position)
    requires WorldInv(w) && PageOk(w, t, after, upto, rows)
    requires MirroredUpTo(w, u, p) && (u == t ==> AtMost(p, after))
    ensures MirroredUpTo(Insert(w, rows, version), u, p)
  {
    var w' := Insert(w, rows, version);
    forall k | k in w'.source && k.table == u && AtMost(PositionOf(k, w'.source[k]), p)
      ensures Mirrored(w', k)
    {
      assert Mirrored(w, k);
      var c :| Wins(w.copies, k, c) && c.change == w.source[k].change && c.content == w.source[k].content;
      forall r | r in rows
        ensures r.key != k
      {
        assert RowOk(w, t, after, upto, r);
      }
      assert Wins(w'.copies, k, c);
    }
  }

  lemma InsertExtendsMirror(w: World, t: Table, after: Position, upto: Position, rows: seq<Row>, version: int)
    requires WorldInv(w) && PageOk(w, t, after, upto, rows) && Insertable(w, rows, version)
    requires MirroredUpTo(w, t, after)
    ensures MirroredUpTo(Insert(w, rows, version), t, LastOf(rows))
  {
    var w' := Insert(w, rows, version);
    InsertKeepsMirror(w, t, after, upto, rows, version, t, after);
    forall k | k in w'.source && k.table == t && AtMost(PositionOf(k, w'.source[k]), LastOf(rows))
      ensures Mirrored(w', k)
    {
      if !AtMost(PositionOf(k, w'.source[k]), after) {
        var r := Row(k, w.source[k].change, w.source[k].content);
        assert k in Window(w.source, t, after, LastOf(rows));
        InsertedWins(w, t, after, upto, rows, version, r);
        assert Wins(w'.copies, k, Copy(k, version, r.change, r.content));
      }
    }
  }

  lemma LastRowOk(w: World, t: Table, after: Position, upto: Position, rows: seq<Row>)
    requires PageOk(w, t, after, upto, rows)
    ensures Before(after, LastOf(rows)) && AtMost(LastOf(rows), upto) && Sealed(w, LastOf(rows))
  {
    assert rows[|rows| - 1] in rows;
    assert RowOk(w, t, after, upto, rows[|rows| - 1]);
  }

  lemma InsertKeepsFences(w: World, rows: seq<Row>, version: int)
    requires FencesOk(w)
    ensures FencesOk(Insert(w, rows, version))
  {
    forall t: Table
      ensures FenceOk(Insert(w, rows, version), t)
    {
      assert FenceOk(w, t);
    }
  }

  lemma InsertKeepsMirrors(w: World, t: Table, after: Position, upto: Position, rows: seq<Row>, version: int)
    requires WorldInv(w) && PageOk(w, t, after, upto, rows) && Insertable(w, rows, version)
    requires after == (if w.Head().stage.Complete? then (if w.cursors.Some? then w.Cursor(t) else ZERO) else w.Head().page.At(t))
    ensures MirrorOk(Insert(w, rows, version))
  {
    var w' := Insert(w, rows, version);
    if Bound(w') {
      forall u: Table
        ensures TableMirrorOk(w', u)
      {
        assert TableMirrorOk(w, u);
        InsertKeepsMirror(w, t, after, upto, rows, version, u,
                          if w.Head().stage.Complete? then w.Cursor(u) else w.Head().page.At(u));
      }
    }
  }

  lemma InsertKeepsInv(w: World, t: Table, after: Position, upto: Position, rows: seq<Row>, version: int)
    requires WorldInv(w) && PageOk(w, t, after, upto, rows) && Insertable(w, rows, version)
    requires after == (if w.Head().stage.Complete? then (if w.cursors.Some? then w.Cursor(t) else ZERO) else w.Head().page.At(t))
    ensures WorldInv(Insert(w, rows, version))
    ensures Landed(Insert(w, rows, version), t, after, upto, LastOf(rows))
  {
    InsertKeepsCopies(w, t, after, upto, rows, version);
    InsertKeepsFences(w, rows, version);
    InsertKeepsMirrors(w, t, after, upto, rows, version);
    InsertLands(w, t, after, upto, rows, version);
  }

  lemma InsertLands(w: World, t: Table, after: Position, upto: Position, rows: seq<Row>, version: int)
    requires WorldInv(w) && PageOk(w, t, after, upto, rows) && Insertable(w, rows, version)
    requires after == (if w.Head().stage.Complete? then (if w.cursors.Some? then w.Cursor(t) else ZERO) else w.Head().page.At(t))
    ensures Landed(Insert(w, rows, version), t, after, upto, LastOf(rows))
  {
    var w' := Insert(w, rows, version);
    LastRowOk(w, t, after, upto, rows);
    if Bound(w') {
      assert TableMirrorOk(w, t);
      InsertExtendsMirror(w, t, after, upto, rows, version);
    }
  }

  /******* Steps that only move stages, pages, cursors, fences and the version floor *******/

  /** Nothing outside the two bookkeeping tables changed. */
  ghost predicate Bookkeeping(w: World, w': World) {
    w' == w.(gens := w'.gens, cursors := w'.cursors)
  }

  lemma BookkeepingKeepsMirror(w: World, w': World, t: Table, p: Position)
    requires Bookkeeping(w, w') && MirroredUpTo(w, t, p)
    ensures MirroredUpTo(w', t, p)
  {
    forall k | k in w'.source && k.table == t && AtMost(PositionOf(k, w'.source[k]), p)
      ensures Mirrored(w', k)
    {
      assert Mirrored(w, k);
    }
  }

  /** Only the head generation may change, and never its identities, versions' origin or fences. */
  ghost predicate HeadMoves(w: World, w': World) {
    && Bookkeeping(w, w')
    && w.gens != [] && |w'.gens| == |w.gens| && w'.gens[..|w.gens| - 1] == w.gens[..|w.gens| - 1]
    && w'.Head().ids == w.Head().ids
    && w'.Head().upgradeVersion == w.Head().upgradeVersion
    && w'.Head().highWater == w.Head().highWater
    && w.Head().floor <= w'.Head().floor
    && (w'.Head().floor == w.Head().floor || w'.Head().stage.Complete?)
    && (w.Head().stage.Complete? ==> w'.Head().stage.Complete?)
  }

  lemma HeadMovesKeepsGenerations(w: World, w': World)
    requires GenerationsOk(w) && HeadMoves(w, w')
    ensures GenerationsOk(w')
  {
    var n := |w.gens| - 1;
    assert forall i | 0 <= i < n :: w'.gens[i] == w.gens[..n][i] == w.gens[i];
    forall g | g in w'.gens
      ensures Known(w', g.ids)
    {
      var i :| 0 <= i < |w'.gens| && w'.gens[i] == g;
      assert w.gens[i] in w.gens;
    }
  }

  lemma HeadMovesKeepsCopies(w: World, w': World)
    requires CopiesOk(w) && HeadMoves(w, w')
    ensures CopiesOk(w')
  {
    forall c | c in w'.log && c.version == w'.Head().upgradeVersion
      ensures BootCopyOk(w', c)
    {
      assert BootCopyOk(w, c);
    }
    assert forall c | c in w'.log :: CopyOk(w, c) ==> CopyOk(w', c);
  }

  lemma HeadMovesKeepsInv(w: World, w': World)
    requires WorldInv(w) && HeadMoves(w, w') && StageOk(w') && FencesOk(w') && MirrorOk(w')
    ensures WorldInv(w')
  {
    HeadMovesKeepsGenerations(w, w');
    HeadMovesKeepsCopies(w, w');
  }

  /** A per-table argument for a bookkeeping step that moves the vouched-for position of `t` to `p`. */
  lemma PositionMoves(w: World, w': World, t: Table, p: Position)
    requires WorldInv(w) && HeadMoves(w, w')
    requires w'.Head().stage.Complete? == w.Head().stage.Complete?
    requires forall u: Table | u != t :: w'.Head().page.At(u) == w.Head().page.At(u)
    requires w'.cursors.Some? == w.cursors.Some?
    requires w.cursors.Some? ==> forall u: Table | u != t :: w'.cursors.value.At(u) == w.cursors.value.At(u)
    requires FenceOk(w', t)
    requires Bound(w) ==> MirroredUpTo(w, t, p)
    requires if w.Head().stage.Complete? then w'.cursors.Some? && w'.Cursor(t) == p else w'.Head().page.At(t) == p
    ensures FencesOk(w') && MirrorOk(w')
  {
    forall u: Table
      ensures FenceOk(w', u)
    {
      assert FenceOk(w, u);
      assert forall q: Position :: Sealed(w, q) == Sealed(w', q);
    }
    if Bound(w') {
      BookkeepingKeepsMirror(w, w', t, p);
      forall u: Table
        ensures TableMirrorOk(w', u)
      {
        assert TableMirrorOk(w, u);
        if u != t {
          BookkeepingKeepsMirror(w, w', u, if w.Head().stage.Complete? then w.Cursor(u) else w.Head().page.At(u));
        }
      }
    }
  }

  /** An empty window adds nothing to mirror. */
  lemma EmptyWindowMirrored(w: World, t: Table, after: Position, upto: Position)
    requires MirroredUpTo(w, t, after) && Window(w.source, t, after, upto) == {}
    ensures MirroredUpTo(w, t, upto)
  {
    forall k | k in w.source && k.table == t && AtMost(PositionOf(k, w.source[k]), upto)
      ensures Mirrored(w, k)
    {
      assert k !in Window(w.source, t, after, upto);
    }
  }

  lemma NothingBelowZero(w: World, t: Table)
    requires SourceOk(w)
    ensures MirroredUpTo(w, t, ZERO)
  {
  }

  lemma GreatestIsSealed(w: World, t: Table)
    requires SourceOk(w) && w.inFlight == map[]
    ensures Sealed(w, Greatest(w.source, t))
  {
    assert IsGreatest(w.source, t, Greatest(w.source, t));
  }

  /** A new head whose version beats every existing copy starts with nothing exported under it. */
  lemma NewHeadKeepsCopies(w: World, g: Generation)
    requires WorldInv(w) && g.stage == Pending && g.floor == g.upgradeVersion
    requires w.gens != [] ==> w.Head().floor < g.floor
    requires forall c | c in w.copies :: c.version < g.floor
    ensures CopiesOk(w.(gens := w.gens + [g]))
  {
    var w' := w.(gens := w.gens + [g]);
    forall c | c in w'.log
      ensures CopyOk(w', c)
    {
      assert CopyOk(w, c);
    }
  }

  lemma NewHeadKeepsFences(w: World, g: Generation)
    requires WorldInv(w) && g.stage == Pending && g.page == PerTable(ZERO, ZERO)
    requires Sealed(w, g.highWater.runs) && Sealed(w, g.highWater.tasks)
    ensures FencesOk(w.(gens := w.gens + [g])) && MirrorOk(w.(gens := w.gens + [g]))
  {
    var w' := w.(gens := w.gens + [g]);
    forall t: Table
      ensures FenceOk(w', t) && TableMirrorOk(w', t)
    {
      assert FenceOk(w, t);
      NothingBelowZero(w', t);
    }
  }

  /** A new generation for freshly read tables, fenced at sealed positions. */
  lemma NewHeadKeepsInv(w: World, ids: Identities, g: Generation)
    requires WorldInv(w) && FreshIds(w, ids)
    requires g.ids == ids && g.stage == Pending && g.floor == g.upgradeVersion && g.page == PerTable(ZERO, ZERO)
    requires Sealed(w, g.highWater.runs) && Sealed(w, g.highWater.tasks)
    requires w.gens != [] ==> ResetStartsNewGeneration(w.Head().ids, ids) == Ok(true) && w.Head().floor < g.floor
    requires forall c | c in w.copies :: c.version < g.floor
    ensures WorldInv(w.(gens := w.gens + [g]))
  {
    NewHeadKeepsCopies(w, g);
    NewHeadKeepsFences(w, g);
    InitializeKeepsGenerations(w, ids, g);
  }

  lemma InitializeKeepsInv(w: World, ids: Identities, maxExisting: Option<int>, now: int)
    requires WorldInv(w) && LocalInv(State(w, Measured(ids, maxExisting))) && w.inFlight == map[]
    requires InitializeUpgrade(w, ids, maxExisting, now).Ok?
    ensures var w' := InitializeUpgrade(w, ids, maxExisting, now).value; WorldInv(w') && w'.gens != []
  {
    var w' := InitializeUpgrade(w, ids, maxExisting, now).value;
    if w' != w {
      var g := w'.Head();
      assert w' == w.(gens := w.gens + [g]);
      GreatestIsSealed(w, Runs);
      GreatestIsSealed(w, Tasks);
      NewHeadKeepsInv(w, ids, g);
    }
  }

  lemma InitializeKeepsGenerations(w: World, ids: Identities, g: Generation)
    requires WorldInv(w) && FreshIds(w, ids) && g.ids == ids
    requires w.gens != [] ==> ResetStartsNewGeneration(w.Head().ids, ids) == Ok(true) && w.Head().floor < g.upgradeVersion
    ensures GenerationsOk(w.(gens := w.gens + [g]))
  {
    var gens := w.gens + [g];
    forall i, j | 0 <= i < j < |gens|
      ensures Supersedes(gens[j], gens[i])
    {
      if j == |w.gens| && i < |w.gens| - 1 {
        assert Supersedes(w.Head(), w.gens[i]) && Outlived(w.gens[i], ids);
      }
    }
    forall i | 0 <= i < |gens| - 1
      ensures Outlived(gens[i], w.ids)
    {
      if i == |w.gens| - 1 {
        assert TableId(ids, Runs) != TableId(w.Head().ids, Runs);
        assert TableId(ids, Tasks) != TableId(w.Head().ids, Tasks);
      }
    }
  }

  lemma ResetCursorsKeepsInv(w: World, w': World, now: int)
    requires WorldInv(w) && w.gens != [] && w.Head().stage.SchemaUpgraded? && !Late(w.Head(), now)
    requires w' == UpgradeStage(w, w.Head().ids, now).w
    ensures WorldInv(w')
  {
    forall t: Table
      ensures FenceOk(w', t) && TableMirrorOk(w', t)
    {
      assert FenceOk(w, t);
      NothingBelowZero(w', t);
    }
    HeadMovesKeepsInv(w, w');
  }

  lemma CompleteUpgradeKeepsInv(w: World, w': World, now: int)
    requires WorldInv(w) && w.gens != [] && w.Head().stage.TasksExported? && !Late(w.Head(), now)
    requires w' == UpgradeStage(w, w.Head().ids, now).w
    ensures WorldInv(w')
  {
    forall t: Table
      ensures FenceOk(w', t)
    {
      assert FenceOk(w, t);
    }
    if Bound(w') {
      forall t: Table
        ensures TableMirrorOk(w', t)
      {
        assert TableMirrorOk(w, t);
        BookkeepingKeepsMirror(w, w', t, w.Head().page.At(t));
      }
    }
    HeadMovesKeepsInv(w, w');
  }

  /** A step that changes only the head's stage, or its floor, and stays on its side of completion. */
  lemma StageMovesKeepsInv(w: World, w': World)
    requires WorldInv(w) && HeadMoves(w, w') && StageOk(w')
    requires w'.cursors == w.cursors && w'.Head().page == w.Head().page
    requires w'.Head().stage.Complete? == w.Head().stage.Complete?
    ensures WorldInv(w')
  {
    assert FenceOk(w, Runs);
    assert FenceOk(w', Runs);
    assert Bound(w) ==> TableMirrorOk(w, Runs);
    PositionMoves(w, w', Runs, if w.Head().stage.Complete? then w.Cursor(Runs) else w.Head().page.runs);
    HeadMovesKeepsInv(w, w');
  }

  lemma UpgradeTickKeepsInv(w: World, ids: Identities, now: int)
    requires WorldInv(w) && w.gens != []
    ensures Inv(UpgradeStage(w, ids, now))
  {
    var s' := UpgradeStage(w, ids, now);
    if w.Head().ids == ids && !Late(w.Head(), now) {
      match w.Head().stage
      case Pending => StageMovesKeepsInv(w, s'.w);
      case SchemaUpgraded => ResetCursorsKeepsInv(w, s'.w, now);
      case TasksExported => CompleteUpgradeKeepsInv(w, s'.w, now);
      case _ =>
    }
  }

  lemma MoveBootPage(w: World, t: Table, p: Position, now: int)
    requires WorldInv(w) && w.gens != [] && w.Head().stage == BootStage(t)
    requires AtMost(p, w.Head().highWater.At(t)) && Sealed(w, p)
    requires Bound(w) ==> MirroredUpTo(w, t, p)
    ensures WorldInv(w.WithHead(w.Head().(page := w.Head().page.With(t, p), updated := now)))
  {
    var w' := w.WithHead(w.Head().(page := w.Head().page.With(t, p), updated := now));
    assert FenceOk(w, t);
    assert FenceOk(w', t);
    PositionMoves(w, w', t, p);
    HeadMovesKeepsInv(w, w');
  }

  lemma MoveCursor(w: World, t: Table, row: CursorRow)
    requires WorldInv(w) && w.gens != [] && w.Head().stage.Complete? && w.cursors.Some?
    requires Sealed(w, row.cursor)
    requires row.fence.Some? ==> Sealed(w, row.fence.value) && AtMost(row.cursor, row.fence.value)
    requires Bound(w) ==> MirroredUpTo(w, t, row.cursor)
    ensures WorldInv(w.WithCursor(t, row))
  {
    var w' := w.WithCursor(t, row);
    assert FenceOk(w, t);
    assert FenceOk(w', t);
    PositionMoves(w, w', t, row.cursor);
    HeadMovesKeepsInv(w, w');
  }

  lemma PreparedIsFence(w: World, t: Table)
    requires w.cursors.Some? && Sequenced(w) && Sealed(w, w.Cursor(t))
    ensures Prepared(w, t).cursor == w.Cursor(t)
    ensures Prepared(w, t).fence.Some? && IsFence(w, t, Prepared(w, t).fence.value)
  {
    assert IsGreatest(w.source, t, Greatest(w.source, t));
  }

  lemma PrepareKeepsInv(w: World)
    requires WorldInv(w) && w.gens != [] && w.Head().stage.Complete? && w.inFlight == map[]
    ensures w.cursors.Some?
    ensures WorldInv(w.(cursors := Some(PerTable(Prepared(w, Runs), Prepared(w, Tasks)))))
  {
    var w' := w.(cursors := Some(PerTable(Prepared(w, Runs), Prepared(w, Tasks))));
    forall t: Table
      ensures FenceOk(w', t)
    {
      assert FenceOk(w, t);
      GreatestIsSealed(w, t);
    }
    if Bound(w') {
      forall t: Table
        ensures TableMirrorOk(w', t)
      {
        assert TableMirrorOk(w, t);
        BookkeepingKeepsMirror(w, w', t, w.Cursor(t));
      }
    }
    HeadMovesKeepsInv(w, w');
  }

  lemma BookkeepingKeepsPage(w: World, w': World, t: Table, after: Position, upto: Position, rows: seq<Row>)
    requires Bookkeeping(w, w') && PageOk(w, t, after, upto, rows)
    ensures PageOk(w', t, after, upto, rows)
  {
    forall r | r in rows
      ensures RowOk(w', t, after, upto, r)
    {
      assert RowOk(w, t, after, upto, r);
    }
  }

  /******* One lemma per exporter step *******/

  lemma ReadBootPageKeepsInv(s: State, limit: nat)
    requires Inv(s) && BootEnabled(s, ReadBootPage(limit))
    ensures Inv(BootApply(s, ReadBootPage(limit)))
  {
    var w, t := s.w, s.pc.table;
    assert FenceOk(w, t);
    PageIsPrefix(w.source, t, w.Head().page.At(t), w.Head().highWater.At(t), limit);
    if Page(w.source, t, w.Head().page.At(t), w.Head().highWater.At(t), limit) != [] {
      ReadPageOk(w, t, w.Head().page.At(t), w.Head().highWater.At(t), limit);
      ReadBootPageRereads(w, t, limit);
    }
  }

  lemma BootRowsInsertable(w: World, ids: Identities, t: Table, rows: seq<Row>)
    requires WorldInv(w) && Booting(w, ids, t) && Rereads(w, rows)
    requires PageOk(w, t, w.Head().page.At(t), w.Head().highWater.At(t), rows)
    ensures Insertable(w, rows, w.Head().upgradeVersion)
  {
    forall r | r in rows
      ensures BootCopyOk(w, Copy(r.key, w.Head().upgradeVersion, r.change, r.content))
    {
      assert RowOk(w, t, w.Head().page.At(t), w.Head().highWater.At(t), r);
    }
  }

  lemma BootInsertKeepsInv(w: World, ids: Identities, t: Table, rows: seq<Row>)
    requires WorldInv(w) && Booting(w, ids, t) && Rereads(w, rows)
    requires PageOk(w, t, w.Head().page.At(t), w.Head().highWater.At(t), rows)
    ensures Inv(State(Insert(w, rows, w.Head().upgradeVersion), BootInserted(ids, t, LastOf(rows))))
  {
    BootRowsInsertable(w, ids, t, rows);
    InsertKeepsInv(w, t, w.Head().page.At(t), w.Head().highWater.At(t), rows, w.Head().upgradeVersion);
  }

  lemma InsertBootPageKeepsInv(s: State)
    requires Inv(s) && BootEnabled(s, InsertBootPage)
    ensures Inv(BootApply(s, InsertBootPage))
  {
    BootInsertKeepsInv(s.w, s.pc.ids, s.pc.table, s.pc.rows);
    assert BootApply(s, InsertBootPage)
        == State(Insert(s.w, s.pc.rows, s.w.Head().upgradeVersion), BootInserted(s.pc.ids, s.pc.table, LastOf(s.pc.rows)));
  }

  lemma WriteBootPageKeepsInv(s: State, now: int)
    requires Inv(s) && BootEnabled(s, WriteBootPage(now))
    ensures Inv(BootApply(s, WriteBootPage(now)))
  {
    MoveBootPage(s.w, s.pc.table, s.pc.last, now);
  }

  lemma BootDrains(w: World, t: Table, now: int)
    requires WorldInv(w) && w.gens != [] && w.Head().stage == BootStage(t)
    requires Window(w.source, t, w.Head().page.At(t), w.Head().highWater.At(t)) == {}
    ensures WorldInv(w.WithHead(w.Head().(page := w.Head().page.With(t, w.Head().highWater.At(t)), updated := now)))
  {
    assert FenceOk(w, t);
    if Bound(w) {
      assert TableMirrorOk(w, t);
      EmptyWindowMirrored(w, t, w.Head().page.At(t), w.Head().highWater.At(t));
    }
    MoveBootPage(w, t, w.Head().highWater.At(t), now);
  }

  lemma FinishBootPagesKeepsInv(s: State, now: int)
    requires Inv(s) && BootEnabled(s, FinishBootPages(now))
    ensures Inv(BootApply(s, FinishBootPages(now)))
  {
    BootDrains(s.w, s.pc.table, now);
  }

  lemma AdvanceBootStageKeepsInv(s: State, now: int)
    requires Inv(s) && BootEnabled(s, AdvanceBootStage(now))
    ensures Inv(BootApply(s, AdvanceBootStage(now)))
  {
    var s' := BootApply(s, AdvanceBootStage(now));
    if s'.pc.Upgrading? {
      StageMovesKeepsInv(s.w, s'.w);
    }
  }

  lemma ReadPassPageKeepsInv(s: State, limit: nat)
    requires Inv(s) && PassEnabled(s, ReadPassPage(limit))
    ensures Inv(PassApply(s, ReadPassPage(limit)))
  {
    var w, t := s.w, s.pc.table;
    assert FenceOk(w, t);
    var fence := w.Fence(t).value;
    PageIsPrefix(w.source, t, w.Cursor(t), fence, limit);
    if Page(w.source, t, w.Cursor(t), fence, limit) != [] {
      ReadPageOk(w, t, w.Cursor(t), fence, limit);
    }
  }

  lemma ClaimKeepsInv(s: State, now: int)
    requires Inv(s) && PassEnabled(s, Claim(now))
    ensures Inv(PassApply(s, Claim(now)))
  {
    var w, t, s' := s.w, s.pc.table, PassApply(s, Claim(now));
    if s'.pc.PassClaimed? {
      StageMovesKeepsInv(w, s'.w);
      BookkeepingKeepsPage(w, s'.w, t, w.Cursor(t), s.pc.fence, s.pc.rows);
    }
  }

  lemma PassInsertKeepsInv(w: World, t: Table, fence: Position, rows: seq<Row>, version: int)
    requires WorldInv(w) && LocalInv(State(w, PassClaimed(t, fence, rows, version)))
    ensures Inv(State(Insert(w, rows, version), PassInserted(t, fence, LastOf(rows))))
  {
    assert Insertable(w, rows, version);
    InsertKeepsInv(w, t, w.Cursor(t), fence, rows, version);
  }

  lemma InsertPassPageKeepsInv(s: State)
    requires Inv(s) && PassEnabled(s, InsertPassPage)
    ensures Inv(PassApply(s, InsertPassPage))
  {
    PassInsertKeepsInv(s.w, s.pc.table, s.pc.fence, s.pc.rows, s.pc.version);
    assert PassApply(s, InsertPassPage)
        == State(Insert(s.w, s.pc.rows, s.pc.version), PassInserted(s.pc.table, s.pc.fence, LastOf(s.pc.rows)));
  }

  lemma CursorAdvanced(w: World, t: Table, fence: Position, last: Position)
    requires WorldInv(w) && Passing(w, t, fence) && Landed(w, t, w.Cursor(t), fence, last)
    ensures WorldInv(w.WithCursor(t, w.cursors.value.At(t).(cursor := last)))
  {
    assert FenceOk(w, t);
    MoveCursor(w, t, w.cursors.value.At(t).(cursor := last));
  }

  lemma AdvanceCursorKeepsInv(s: State)
    requires Inv(s) && PassEnabled(s, AdvanceCursor)
    ensures Inv(PassApply(s, AdvanceCursor))
  {
    var w, t := s.w, s.pc.table;
    CursorAdvanced(w, t, s.pc.fence, s.pc.last);
    assert PassApply(s, AdvanceCursor).w == w.WithCursor(t, w.cursors.value.At(t).(cursor := s.pc.last));
  }

  lemma PassCompleted(w: World, t: Table, fence: Position)
    requires WorldInv(w) && Passing(w, t, fence) && Window(w.source, t, w.Cursor(t), fence) == {}
    ensures WorldInv(w.WithCursor(t, CursorRow(fence, None)))
  {
    assert FenceOk(w, t);
    if Bound(w) {
      assert TableMirrorOk(w, t);
      EmptyWindowMirrored(w, t, w.Cursor(t), fence);
    }
    MoveCursor(w, t, CursorRow(fence, None));
  }

  lemma CompletePassKeepsInv(s: State)
    requires Inv(s) && PassEnabled(s, CompletePass)
    ensures Inv(PassApply(s, CompletePass))
  {
    var w, t := s.w, s.pc.table;
    PassCompleted(w, t, s.pc.fence);
    assert PassApply(s, CompletePass).w == w.WithCursor(t, CursorRow(s.pc.fence, None));
  }

  lemma StartKeepsInv(s: State, x: StartStep)
    requires Inv(s) && StartEnabled(s, x)
    ensures Inv(StartApply(s, x))
  {
    match x
    case Initialize(now) =>
      if InitializeUpgrade(s.w, s.pc.ids, s.pc.maxExisting, now).Ok? {
        InitializeKeepsInv(s.w, s.pc.ids, s.pc.maxExisting, now);
      }
    case UpgradeTick(now) => UpgradeTickKeepsInv(s.w, s.pc.ids, now);
    case _ =>
  }

  lemma BootKeepsInv(s: State, x: BootStep)
    requires Inv(s) && BootEnabled(s, x)
    ensures Inv(BootApply(s, x))
  {
    match x
    case ReadBootPage(limit) => ReadBootPageKeepsInv(s, limit);
    case InsertBootPage => InsertBootPageKeepsInv(s);
    case WriteBootPage(now) => WriteBootPageKeepsInv(s, now);
    case FinishBootPages(now) => FinishBootPagesKeepsInv(s, now);
    case AdvanceBootStage(now) => AdvanceBootStageKeepsInv(s, now);
  }

  lemma PreparePassesKeepsInv(s: State)
    requires Inv(s) && PassEnabled(s, PreparePasses)
    ensures Inv(PassApply(s, PreparePasses))
  {
    PrepareKeepsInv(s.w);
  }

  lemma PassErrorKeepsInv(s: State)
    requires Inv(s) && PassEnabled(s, PassError)
    ensures Inv(PassApply(s, PassError))
  {
  }

  lemma PassKeepsInv(s: State, x: PassStep)
    requires Inv(s) && PassEnabled(s, x)
    ensures Inv(PassApply(s, x))
  {
    match x
    case PreparePasses => PreparePassesKeepsInv(s);
    case ReadPassPage(limit) => ReadPassPageKeepsInv(s, limit);
    case Claim(now) => ClaimKeepsInv(s, now);
    case InsertPassPage => InsertPassPageKeepsInv(s);
    case AdvanceCursor => AdvanceCursorKeepsInv(s);
    case CompletePass => CompletePassKeepsInv(s);
    case PassError => PassErrorKeepsInv(s);
  }

  lemma ExporterKeepsInv(s: State, x: ExporterStep)
    requires Inv(s) && ExporterEnabled(s, x)
    ensures Inv(ExporterApply(s, x))
  {
    match x
    case Start(y) => StartKeepsInv(s, y);
    case Boot(y) => BootKeepsInv(s, y);
    case Pass(y) => PassKeepsInv(s, y);
  }
}
