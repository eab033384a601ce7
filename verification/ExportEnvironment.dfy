/**
Writers and operators keep the invariant: whatever they do between two exporter steps, a row
can only leave a fenced window, never enter it.
*/
module ExportEnvironment {
  import opened ExportModel
  import opened ExportInvariant

  /** What any environment step leaves true, whichever step it was. */
  ghost predicate Disturbed(w: World, w': World) {
    && w'.gens == w.gens && w'.cursors == w.cursors && w'.log == w.log
    && w.nextSeq <= w'.nextSeq && w.retired <= w'.retired && w.usedIds <= w'.usedIds
    && w'.copies <= w.copies
    && (w'.ids == w.ids ==> w'.copies == w.copies)
    && (forall t: Table :: TableId(w'.ids, t) == TableId(w.ids, t) || TableId(w'.ids, t) !in w.usedIds)
    && (w'.ids == w.ids || w'.ids.database !in w.usedIds || w'.ids.runTable !in w.usedIds || w'.ids.taskTable !in w.usedIds)
    && (forall k | k in w'.source ::
          (k in w.source && w'.source[k] == w.source[k]) || (k in w.inFlight && w'.source[k].change == w.inFlight[k].change))
    && (forall k | k in w'.inFlight ::
          (k in w.inFlight && w'.inFlight[k] == w.inFlight[k]) || w.nextSeq <= w'.inFlight[k].change)
    && (forall k | k in w.source :: k in w'.source || k in w'.retired)
  }

  lemma EnvKeepsGenerations(w: World, e: EnvStep)
    requires EnvEnabled(w, e) && GenerationsOk(w)
    ensures GenerationsOk(EnvApply(w, e))
  {
    forall i | (e.ResetTable? || e.ResetDatabase?) && 0 <= i < |w.gens| - 1
      ensures Outlived(w.gens[i], EnvApply(w, e).ids)
    {
      assert Known(w, w.gens[i].ids) && Outlived(w.gens[i], w.ids);
    }
  }

  lemma EnvDisturbs(w: World, e: EnvStep)
    requires EnvEnabled(w, e) && SourceOk(w) && Known(w, w.ids)
    ensures Disturbed(w, EnvApply(w, e)) && SourceOk(EnvApply(w, e))
  {
  }

  /** A commit publishes all of a transaction's drafts and nothing else; an abort drops them unseen. */
  lemma TransactionsAreAtomic(w: World, txn: nat, k: Key)
    ensures var w' := EnvApply(w, Commit(txn));
      var mine := k in w.inFlight && w.inFlight[k].txn == txn;
      && (k in w'.source <==> k in w.source || mine)
      && (mine ==> k !in w'.inFlight && w'.source[k] == SourceRow(w.inFlight[k].change, w.inFlight[k].content))
      && (!mine && k in w.source ==> w'.source[k] == w.source[k])
      && (!mine ==> (k in w'.inFlight <==> k in w.inFlight) && (k in w.inFlight ==> w'.inFlight[k] == w.inFlight[k]))
    ensures var w' := EnvApply(w, Abort(txn));
      && w'.source == w.source
      && (k in w'.inFlight <==> k in w.inFlight && w.inFlight[k].txn != txn)
      && (k in w'.inFlight ==> w'.inFlight[k] == w.inFlight[k])
  {
  }

  /** Replacing a table loses its copies and no others, under an identity that was never used. */
  lemma ResetEmptiesOneTable(w: World, t: Table, uuid: nat, c: Copy)
    requires EnvEnabled(w, ResetTable(t, uuid))
    ensures var w' := EnvApply(w, ResetTable(t, uuid));
      && (c in w'.copies <==> c in w.copies && c.key.table != t)
      && TableId(w'.ids, t) == uuid && uuid !in w.usedIds && uuid in w'.usedIds
      && (forall u: Table | u != t :: TableId(w'.ids, u) == TableId(w.ids, u)) && w'.ids.database == w.ids.database
      && w'.source == w.source && w'.inFlight == w.inFlight
  {
  }

  lemma StaysSealed(w: World, w': World, p: Position)
    requires Disturbed(w, w') && Sealed(w, p)
    ensures Sealed(w', p)
  {
  }

  lemma StaysNotNewer(w: World, w': World, k: Key, change: int, content: Content)
    requires Disturbed(w, w') && NotNewer(w, k, change, content)
    ensures NotNewer(w', k, change, content)
  {
  }

  /** The heart of the fence: a sealed window never gains a row. */
  lemma WindowShrinks(w: World, w': World, t: Table, after: Position, upto: Position)
    requires Disturbed(w, w') && Sealed(w, upto)
    ensures Window(w'.source, t, after, upto) <= Window(w.source, t, after, upto)
    ensures forall k | k in Window(w'.source, t, after, upto) :: w'.source[k] == w.source[k]
  {
  }

  lemma StaysMirrored(w: World, w': World, t: Table, p: Position)
    requires Disturbed(w, w') && w'.copies == w.copies && Sealed(w, p) && MirroredUpTo(w, t, p)
    ensures MirroredUpTo(w', t, p)
  {
    forall k | k in w'.source && k.table == t && AtMost(PositionOf(k, w'.source[k]), p)
      ensures Mirrored(w', k)
    {
      assert k in w.source && w'.source[k] == w.source[k];
      assert Mirrored(w, k);
    }
  }

  lemma DisturbedKeepsCopies(w: World, w': World)
    requires WorldInv(w) && Disturbed(w, w')
    ensures CopiesOk(w')
  {
    forall c | c in w'.log
      ensures CopyOk(w', c)
    {
      StaysNotNewer(w, w', c.key, c.change, c.content);
    }
    if w.gens != [] {
      forall c | c in w'.log && c.version == w'.Head().upgradeVersion
        ensures BootCopyOk(w', c)
      {
        assert BootCopyOk(w, c);
        assert FenceOk(w, c.key.table);
      }
    }
  }

  lemma DisturbedKeepsFences(w: World, w': World)
    requires FencesOk(w) && Disturbed(w, w')
    ensures FencesOk(w')
  {
    forall t: Table
      ensures FenceOk(w', t)
    {
      assert FenceOk(w, t);
      assert forall p: Position :: Sealed(w, p) ==> Sealed(w', p);
    }
  }

  lemma DisturbedKeepsWorld(w: World, w': World)
    requires WorldInv(w) && Disturbed(w, w') && SourceOk(w') && GenerationsOk(w')
    ensures WorldInv(w')
  {
    DisturbedKeepsCopies(w, w');
    DisturbedKeepsFences(w, w');
    if Bound(w') {
      assert Known(w, w.Head().ids);
      forall t: Table
        ensures TableMirrorOk(w', t)
      {
        assert TableMirrorOk(w, t) && FenceOk(w, t);
        StaysMirrored(w, w', t, if w.Head().stage.Complete? then w.Cursor(t) else w.Head().page.At(t));
      }
    }
  }

  lemma PageStaysOk(w: World, w': World, t: Table, after: Position, upto: Position, rows: seq<Row>)
    requires Disturbed(w, w') && PageOk(w, t, after, upto, rows)
    ensures PageOk(w', t, after, upto, rows)
  {
    StaysSealed(w, w', upto);
    forall r | r in rows
      ensures RowOk(w', t, after, upto, r) && AtMost(Position(r.change, r.key.id), LastOf(rows))
    {
      StaysNotNewer(w, w', r.key, r.change, r.content);
      assert RowOk(w, t, after, upto, r);
    }
    assert rows[|rows| - 1] in rows;
    assert Sealed(w, LastOf(rows));
    WindowShrinks(w, w', t, after, LastOf(rows));
  }

  lemma LandedStays(w: World, w': World, t: Table, after: Position, upto: Position, last: Position)
    requires GenerationsOk(w) && Disturbed(w, w') && Landed(w, t, after, upto, last)
    ensures Landed(w', t, after, upto, last)
  {
    StaysSealed(w, w', last);
    if Bound(w') {
      assert Known(w, w.Head().ids);
      StaysMirrored(w, w', t, last);
    }
  }

  lemma StaysFresh(w: World, w': World, ids: Identities)
    requires GenerationsOk(w) && Disturbed(w, w') && FreshIds(w, ids)
    ensures FreshIds(w', ids)
  {
    if w.gens != [] {
      assert Known(w, w.Head().ids);
      forall t: Table | TableId(ids, t) != TableId(w.Head().ids, t)
        ensures TableId(w'.ids, t) != TableId(w.Head().ids, t)
      {
        assert TableId(w.ids, t) != TableId(w.Head().ids, t);
      }
    }
  }

  lemma DisturbedKeepsLocal(w: World, w': World, pc: Local)
    requires GenerationsOk(w) && FencesOk(w) && Disturbed(w, w') && LocalInv(State(w, pc))
    ensures LocalInv(State(w', pc))
  {
    match pc
    case Validated(ids) => StaysFresh(w, w', ids);
    case Measuring(ids) => StaysFresh(w, w', ids);
    case Measured(ids, _) => StaysFresh(w, w', ids);
    case BootRead(_, t, rows) => PageStaysOk(w, w', t, w.Head().page.At(t), w.Head().highWater.At(t), rows);
    case BootInserted(_, t, last) => LandedStays(w, w', t, w.Head().page.At(t), w.Head().highWater.At(t), last);
    case BootEmpty(_, t) =>
      assert FenceOk(w, t);
      WindowShrinks(w, w', t, w.Head().page.At(t), w.Head().highWater.At(t));
    case PassRead(t, fence, rows) => PageStaysOk(w, w', t, w.Cursor(t), fence, rows);
    case PassClaimed(t, fence, rows, _) => PageStaysOk(w, w', t, w.Cursor(t), fence, rows);
    case PassInserted(t, fence, last) => LandedStays(w, w', t, w.Cursor(t), fence, last);
    case PassDone(t, fence) =>
      assert FenceOk(w, t);
      WindowShrinks(w, w', t, w.Cursor(t), fence);
    case _ =>
  }

  lemma EnvKeepsInv(s: State, e: EnvStep)
    requires Inv(s) && EnvEnabled(s.w, e)
    ensures Inv(s.(w := EnvApply(s.w, e)))
  {
    EnvDisturbs(s.w, e);
    EnvKeepsGenerations(s.w, e);
    DisturbedKeepsWorld(s.w, EnvApply(s.w, e));
    DisturbedKeepsLocal(s.w, EnvApply(s.w, e), s.pc);
  }
}
