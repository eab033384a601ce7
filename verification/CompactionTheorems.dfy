/** What every run of appends and compactions keeps, and what the cheap watermark gate is worth. */
module CompactionTheorems {
  import opened Prelude
  import opened Sequences
  import opened Compaction

  lemma {:induction false} EntriesGrow(log: Log, n: nat)
    requires n <= |log|
    ensures |Entries(log[..n])| <= |Entries(log)| && Entries(log)[..|Entries(log[..n])|] == Entries(log[..n])
  {
    if n == |log| {
      assert log[..n] == log;
    } else {
      assert log[..|log| - 1][..n] == log[..n];
      EntriesGrow(log[..|log| - 1], n);
    }
  }

  lemma EntryAppended(log: Log, e: Event)
    requires e.Entry?
    ensures var log' := log + [e];
      Entries(log') == Entries(log) + [e] && Summarized(log') == Summarized(log) && Last(log') == Last(log)
  {
    assert (log + [e])[..|log|] == log;
  }

  lemma AppendKeepsLatest(log: Log, e: Event)
    requires LatestIsGreatest(log) && CheckpointsGrow(log) && e.Entry?
    ensures LatestIsGreatest(log + [e]) && CheckpointsGrow(log + [e])
  {
    var log' := log + [e];
    EntryAppended(log, e);
    if Last(log).Some? {
      assert log'[..Last(log).value] == log[..Last(log).value];
    }
  }

  lemma AppendKeeps(s: State, e: Event, s': State)
    requires Accounted(s) && Appends(s, e, s')
    ensures Accounted(s')
  {
    EntryAppended(s.log, e);
    AppendKeepsLatest(s.log, e);
  }

  /** The entries a snapshot has not summarized are those the whole log has not, up to the snapshot. */
  lemma SnapshotTail(s: State, seen: nat)
    requires Accounted(s) && seen <= |s.log| && Last(s.log) == Last(s.log[..seen])
    ensures var snapshot, m := s.log[..seen], Summarized(s.log);
      && Summarized(snapshot) == m <= |Entries(snapshot)| <= |Entries(s.log)|
      && Tail(snapshot) == Entries(s.log)[m..|Entries(snapshot)|]
      && Entries(s.log) == Entries(snapshot) + s.log[seen..]
  {
    var snapshot := s.log[..seen];
    NoCheckpointSince(s.log, seen);
    SummarizedFrom(s.log, seen);
    EntriesFrom(s.log, seen);
    if Last(s.log).Some? {
      var at := Last(s.log).value;
      assert snapshot[..at] == s.log[..at];
      EntriesGrow(snapshot, at);
    } else {
      NothingSummarized(s.log);
    }
  }

  lemma {:induction false} NothingSummarized(log: Log)
    requires Last(log).None?
    ensures Summarized(log) == 0 && Entries(log) == log
  {
    if log != [] {
      NothingSummarized(log[..|log| - 1]);
      assert log == log[..|log| - 1] + [log[|log| - 1]];
    }
  }

  lemma CheckpointAppended(log: Log, count: nat)
    ensures var log' := log + [Checkpoint(count)];
      Entries(log') == Entries(log) && Summarized(log') == count && Last(log') == Some(|log|)
  {
    assert (log + [Checkpoint(count)])[..|log|] == log;
  }

  lemma Slices(all: seq<Event>, m: nat, n: nat, k: nat)
    requires m <= n <= |all| && k <= n - m
    ensures all[..m] + all[m..n][..k] == all[..m + k]
    ensures all[m..n][k..] + all[n..] == all[m + k..]
  {
  }

  lemma CheckpointKeepsLatest(log: Log, count: nat)
    requires CheckpointsGrow(log) && LatestIsGreatest(log) && Summarized(log) < count <= |Entries(log)|
    ensures CheckpointsGrow(log + [Checkpoint(count)]) && LatestIsGreatest(log + [Checkpoint(count)])
  {
    CheckpointAppended(log, count);
    assert (log + [Checkpoint(count)])[..|log|] == log;
  }

  lemma FoldSlices(all: seq<Event>, m: nat, n: nat, k: nat, folds: seq<seq<Event>>)
    requires m <= n <= |all| && k <= n - m && Flatten(folds) == all[..m]
    ensures Flatten(folds + [all[m..n][..k]]) == all[..m + k]
  {
    FlattenNext(folds, all[m..n][..k]);
    Slices(all, m, n, k);
  }

  lemma FoldKeepsMatch(s: State, count: nat, slice: seq<Event>)
    requires count <= |Entries(s.log)| && Flatten(s.folds + [slice]) == Entries(s.log)[..count]
    ensures FoldsMatch(State(s.log + [Checkpoint(count)], s.folds + [slice]))
  {
    CheckpointAppended(s.log, count);
  }

  lemma FoldExtends(s: State, seen: nat, k: nat, s': State)
    requires Accounted(s) && Folds(s, seen, k, s')
    ensures var m := Summarized(s.log);
      && Summarized(s.log[..seen]) == m && m + k <= |Entries(s.log)|
      && Flatten(s.folds + [Tail(s.log[..seen])[..k]]) == Entries(s.log)[..m + k]
  {
    SnapshotTail(s, seen);
    FoldSlices(Entries(s.log), Summarized(s.log), |Entries(s.log[..seen])|, k, s.folds);
  }

  lemma FoldKeeps(s: State, seen: nat, k: nat, s': State)
    requires Accounted(s) && Folds(s, seen, k, s')
    ensures Accounted(s')
  {
    var m := Summarized(s.log);
    FoldExtends(s, seen, k, s');
    FoldKeepsMatch(s, m + k, Tail(s.log[..seen])[..k]);
    CheckpointKeepsLatest(s.log, m + k);
  }

  lemma NextKeeps(s: State, s': State)
    requires Accounted(s) && Next(s, s')
    ensures Accounted(s')
  {
    if e :| Appends(s, e, s') {
      AppendKeeps(s, e, s');
    } else {
      var config, budget, seen, k :| Compacts(s, config, budget, seen, k, s');
      FoldKeeps(s, seen, k, s');
    }
  }

  ghost predicate IsRun(states: seq<State>) {
    && |states| >= 1
    && states[0] == State([], [])
    && forall i | 0 <= i < |states| - 1 :: Next(states[i], states[i + 1])
  }

  lemma {:induction false} RunKeeps(states: seq<State>, i: nat)
    requires IsRun(states) && i < |states|
    ensures Accounted(states[i])
  {
    if i > 0 {
      RunKeeps(states, i - 1);
      NextKeeps(states[i - 1], states[i]);
    }
  }

  /** In every run the folded slices and the current tail together are the entries, in order. */
  lemma FoldsAndTailAreTheEntries(states: seq<State>, i: nat)
    requires IsRun(states) && i < |states|
    ensures Flatten(states[i].folds) + Tail(states[i].log) == Entries(states[i].log)
    ensures CheckpointsGrow(states[i].log)
  {
    RunKeeps(states, i);
  }

  /** Right after a checkpoint the tail is what the snapshot kept verbatim and what arrived since. */
  lemma TailAfter(s: State, seen: nat, k: nat, s': State)
    requires Accounted(s) && Folds(s, seen, k, s')
    ensures Tail(s'.log) == Tail(s.log[..seen])[k..] + s.log[seen..]
    ensures Summarized(s'.log) > Summarized(s.log)
  {
    SnapshotTail(s, seen);
    var m, n := Summarized(s.log), |Entries(s.log[..seen])|;
    CheckpointAppended(s.log, m + k);
    Slices(Entries(s.log), m, n, k);
    assert Entries(s.log)[n..] == s.log[seen..];
  }

  /** What is kept verbatim starts at a user's entry and holds exactly the configured number of them. */
  lemma KeptTurns(tail: seq<Event>, since: seq<Event>, turns: nat, k: nat)
    requires IsBoundary(tail, turns, k) && 0 < k <= |tail|
    ensures turns > 0 ==>
      && tail[k..] != [] && tail[k..][0].Entry? && tail[k..][0].user
      && Users(tail[k..] + since) == turns + Users(since)
    ensures turns == 0 ==> tail[k..] == []
  {
    UsersConcat(tail[k..], since);
  }

  lemma TailAfterCheckpoint(s: State, config: Config, budget: nat, seen: nat, k: nat, s': State)
    requires Accounted(s) && Compacts(s, config, budget, seen, k, s')
    ensures config.verbatimTurns > 0 ==>
      && Tail(s'.log) != [] && Tail(s'.log)[0].Entry? && Tail(s'.log)[0].user
      && Users(Tail(s'.log)) == config.verbatimTurns + Users(s.log[seen..])
    ensures config.verbatimTurns == 0 ==> Tail(s'.log) == s.log[seen..]
  {
    TailAfter(s, seen, k, s');
    KeptTurns(Tail(s.log[..seen]), s.log[seen..], config.verbatimTurns, k);
  }

  /******* The watermark gate *******/

  ghost predicate LinesAreShort(log: Log) {
    forall e | e in log && e.Entry? && e.lineTokens.Some? :: e.lineTokens.value <= MAX_LINE_TOKENS
  }

  lemma {:induction false} ShortLines(events: seq<Event>)
    requires LinesAreShort(events)
    ensures Lines(events) <= |events| && LineTokens(events) <= MAX_LINE_TOKENS * Lines(events)
  {
    if events != [] {
      var n := |events| - 1;
      assert events[n] in events;
      assert forall e | e in events[..n] :: e in events;
      ShortLines(events[..n]);
    }
  }

  /** Entries the latest checkpoint saw and left verbatim. */
  function LeftVerbatim(log: Log): int {
    match Last(log)
    case None => 0
    case Some(at) => |Entries(log[..at])| - Summarized(log)
  }

  lemma EntriesSinceCheckpoint(log: Log, at: nat)
    requires Last(log) == Some(at)
    ensures |Entries(log)| == |Entries(log[..at])| + |log| - at - 1
  {
    LastMeans(log);
    EntriesFrom(log, at + 1);
    assert log[..at + 1] == log[..at] + [Checkpoint(log[at].summarized)];
    CheckpointAppended(log[..at], log[at].summarized);
  }

  /** The tail is longer than the gate's count by what the latest checkpoint left verbatim. */
  lemma TailBeyondGate(s: State)
    requires Accounted(s)
    ensures |Tail(s.log)| == EventsSince(|s.log|, Last(s.log)) + LeftVerbatim(s.log)
  {
    match Last(s.log)
    case None =>
      NothingSummarized(s.log);
    case Some(at) =>
      EntriesSinceCheckpoint(s.log, at);
  }

  /** The events after the latest checkpoint. */
  function Since(log: Log): Log {
    if Last(log).Some? then log[Last(log).value + 1..] else log
  }

  /** The gate is open exactly when the events since the last checkpoint could reach a threshold. */
  lemma {:induction false} GateOpensExactly(config: Config, log: Log, budget: nat)
    ensures WatermarkMayCompact(config, |log|, Last(log), budget) <==>
      && config.enabled
      && (|Since(log)| >= config.eventThreshold
          || (|Since(log)| * MAX_LINE_TOKENS) as real >= budget as real * config.tokenRatio)
  {
    SinceCounts(log);
    GateOpens(config, |log|, Last(log), budget);
  }

  lemma {:induction false} SinceCounts(log: Log)
    ensures EventsSince(|log|, Last(log)) == |Since(log)|
  {
  }

  lemma GateOpens(config: Config, eventCount: nat, last: Option<nat>, budget: nat)
    ensures var since := EventsSince(eventCount, last);
      WatermarkMayCompact(config, eventCount, last, budget) <==>
        && config.enabled
        && (since >= config.eventThreshold || (since * MAX_LINE_TOKENS) as real >= budget as real * config.tokenRatio)
  {
    CeilingIsReached(budget as real * config.tokenRatio, EventsSince(eventCount, last) * MAX_LINE_TOKENS);
  }

  lemma {:induction false} TailIsEntries(log: Log, e: Event)
    requires e in Entries(log)
    ensures e in log
  {
    var n := |log| - 1;
    if e in Entries(log[..n]) {
      TailIsEntries(log[..n], e);
    }
  }

  lemma TailLinesAreShort(log: Log)
    requires LinesAreShort(log)
    ensures LinesAreShort(Tail(log))
  {
    forall e | e in Tail(log) ensures e in log {
      TailIsEntries(log, e);
    }
  }

  /** A closed gate promises for every configuration that compaction would not fire. */
  ghost predicate GateIsSafe(log: Log) {
    forall config, budget: nat | !WatermarkMayCompact(config, |log|, Last(log), budget) ::
      !ShouldCompact(config, Tail(log), budget)
  }

  lemma FewLinesAreSafe(log: Log)
    requires LinesAreShort(log) && Lines(Tail(log)) <= EventsSince(|log|, Last(log))
    ensures GateIsSafe(log)
  {
    TailLinesAreShort(log);
    ShortLines(Tail(log));
  }

  lemma WholeThreshold(config: Config, budget: nat)
    requires config.tokenRatio == 1.0
    ensures TokenThreshold(config, budget) == budget
  {
    assert budget as real * 1.0 == budget as real;
  }

  /** With more lines than counted events, thresholds between the two close the gate on a due compaction. */
  lemma MissedCompaction(tail: seq<Event>, count: nat, last: Option<nat>) returns (config: Config, budget: nat)
    requires Lines(tail) > EventsSince(count, last)
    ensures !WatermarkMayCompact(config, count, last, budget) && ShouldCompact(config, tail, budget)
  {
    budget := EventsSince(count, last) * MAX_LINE_TOKENS + 1;
    config := Config(true, Lines(tail), 1.0, 0);
    WholeThreshold(config, budget);
  }

  lemma ManyLinesAreUnsafe(log: Log)
    requires Lines(Tail(log)) > EventsSince(|log|, Last(log))
    ensures !GateIsSafe(log)
  {
    var config, budget := MissedCompaction(Tail(log), |log|, Last(log));
    assert !WatermarkMayCompact(config, |log|, Last(log), budget);
  }

  /** The gate is safe exactly while no more lines await summarizing than events it counts. */
  lemma GateSafeExactly(log: Log)
    requires LinesAreShort(log)
    ensures GateIsSafe(log) <==> Lines(Tail(log)) <= EventsSince(|log|, Last(log))
  {
    if Lines(Tail(log)) <= EventsSince(|log|, Last(log)) {
      FewLinesAreSafe(log);
    } else {
      ManyLinesAreUnsafe(log);
    }
  }

  /** In particular before the first checkpoint, and after one that left nothing verbatim. */
  lemma GateSafeWithoutVerbatim(s: State)
    requires Accounted(s) && LinesAreShort(s.log) && LeftVerbatim(s.log) == 0
    ensures GateIsSafe(s.log)
  {
    TailBeyondGate(s);
    TailLinesAreShort(s.log);
    ShortLines(Tail(s.log));
    FewLinesAreSafe(s.log);
  }

  /**
  However late a closed gate leaves the compaction, what awaits it exceeds the thresholds by less
  than the entries the latest checkpoint left verbatim.
  */
  lemma ClosedGateBoundsTail(states: seq<State>, i: nat, config: Config, budget: nat)
    requires IsRun(states) && i < |states| && LinesAreShort(states[i].log) && config.enabled
    requires !WatermarkMayCompact(config, |states[i].log|, Last(states[i].log), budget)
    ensures var log := states[i].log;
      && Lines(Tail(log)) < config.eventThreshold + LeftVerbatim(log)
      && LineTokens(Tail(log)) < TokenThreshold(config, budget) + MAX_LINE_TOKENS * LeftVerbatim(log)
  {
    RunKeeps(states, i);
    TailBeyondGate(states[i]);
    TailLinesAreShort(states[i].log);
    ShortLines(Tail(states[i].log));
  }

  lemma TwoEntries(a: Event, b: Event)
    requires a.Entry? && b.Entry? && a.lineTokens.Some? && b.lineTokens.Some? && b.user
    ensures Lines([a, b]) == 2 && StartsTurns([a, b], 1, 1)
    ensures Entries([a, b]) == [a, b] && Summarized([a, b]) == 0 && Last([a, b]).None?
  {
    var one, two := [a], [a, b];
    assert one[..0] == [] && two[..1] == one && two[1..] == [b] && [b][..0] == [];
    assert Lines(one) == 1;
    EntryAppended([], a);
    EntryAppended(one, b);
    assert [] + [a] == one && one + [b] == two;
  }

  lemma FirstCompaction(x: Event, u: Event, config: Config, budget: nat)
    requires x.Entry? && u.Entry? && u.user && x.lineTokens.Some? && u.lineTokens.Some?
    requires config.enabled && config.eventThreshold == 2 && config.verbatimTurns == 1
    ensures Compacts(State([x, u], []), config, budget, 2, 1, State([x, u, Checkpoint(1)], [[x]]))
  {
    var log := [x, u];
    TwoEntries(x, u);
    assert log[..2] == log && Tail(log) == log && log[..1] == [x];
    assert log + [Checkpoint(1)] == [x, u, Checkpoint(1)] && [] + [log[..1]] == [[x]];
  }

  lemma TailOneLater(x: Event, u: Event, v: Event)
    requires x.Entry? && u.Entry? && v.Entry? && x.lineTokens.Some? && u.lineTokens.Some? && u.user
    ensures var log := [x, u, Checkpoint(1), v]; Tail(log) == [u, v] && Last(log) == Some(2)
  {
    var log := [x, u] + [Checkpoint(1)];
    TwoEntries(x, u);
    CheckpointAppended([x, u], 1);
    EntryAppended(log, v);
    assert log + [v] == [x, u, Checkpoint(1), v] && Entries(log + [v]) == [x, u, v];
  }

  lemma GateMissesTurn(u: Event, v: Event)
    requires u.Entry? && v.Entry? && u.lineTokens.Some? && v.lineTokens.Some? && v.user
    ensures var config := Config(true, 2, 1.0, 1);
      !WatermarkMayCompact(config, 4, Some(2), 1000) && Decides(config, 1000, [u, v], 1)
  {
    TwoEntries(u, v);
    WholeThreshold(Config(true, 2, 1.0, 1), 1000);
  }

  /**
  A run under one configuration in which the gate is closed although compaction is due and has
  something to fold: a turn is kept verbatim, and one entry later the thresholds are met again.
  */
  lemma VerbatimTurnIsMissed() returns (states: seq<State>, config: Config, budget: nat)
    ensures IsRun(states) && |states| == 5 && LinesAreShort(states[4].log)
    ensures Compacts(states[2], config, budget, 2, 1, states[3])
    ensures var log := states[4].log;
      !WatermarkMayCompact(config, |log|, Last(log), budget) && Decides(config, budget, Tail(log), 1)
  {
    var x, u, v := Entry(0, false, Some(1)), Entry(1, true, Some(1)), Entry(2, true, Some(1));
    config, budget := Config(true, 2, 1.0, 1), 1000;
    states := [State([], []), State([x], []), State([x, u], []), State([x, u, Checkpoint(1)], [[x]]),
               State([x, u, Checkpoint(1), v], [[x]])];
    assert Appends(states[0], x, states[1]) && Appends(states[1], u, states[2]) && Appends(states[3], v, states[4]);
    FirstCompaction(x, u, config, budget);
    TailOneLater(x, u, v);
    GateMissesTurn(u, v);
  }

  /******* The session log *******/

  class SessionLog {
    var log: Log
    ghost var folds: seq<seq<Event>>

    ghost predicate Valid()
      reads this
    {
      Accounted(State(log, folds))
    }

    constructor ()
      ensures Valid() && log == [] && folds == []
    {
      log, folds := [], [];
    }

    method Append(e: Event)
      requires Valid() && e.Entry?
      modifies this
      ensures Valid() && Appends(old(State(log, folds)), e, State(log, folds))
    {
      ghost var before := State(log, folds);
      log := log + [e];
      AppendKeeps(before, e, State(log, folds));
    }

    /** Compacts from a snapshot of the first `seen` events. */
    method MaybeCompact(config: Config, budget: nat, seen: nat) returns (fired: bool)
      requires Valid() && seen <= |log| && Last(log) == Last(log[..seen])
      modifies this
      ensures Valid()
      ensures fired ==> exists k :: Compacts(old(State(log, folds)), config, budget, seen, k, State(log, folds))
      ensures !fired ==> log == old(log) && folds == old(folds)
      ensures !fired ==>
        !ShouldCompact(config, Tail(log[..seen]), budget) || IsBoundary(Tail(log[..seen]), config.verbatimTurns, 0)
    {
      ghost var before := State(log, folds);
      var snapshot := log[..seen];
      var tail := Tail(snapshot);
      if !ShouldCompact(config, tail, budget) {
        return false;
      }
      var k := RecentTurnBoundary(tail, config.verbatimTurns);
      if k == 0 {
        return false;
      }
      log := log + [Checkpoint(Summarized(snapshot) + k)];
      folds := folds + [tail[..k]];
      assert Compacts(before, config, budget, seen, k, State(log, folds));
      FoldKeeps(before, seen, k, State(log, folds));
      return true;
    }
  }
}
