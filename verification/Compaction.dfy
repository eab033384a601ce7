/**
Cumulative checkpointing of a session's append-only log. An entry's sequence number is its position.
*/
module Compaction {
  import opened Prelude
  import opened Sequences

  /**
  Log events: entries, whether a user authored them and the tokens of their summary line if they
  have one, and checkpoints with the number of entries they summarize.
  */
  datatype Event =
    | Entry(content: nat, user: bool, lineTokens: Option<nat>)
    | Checkpoint(summarized: nat)

  type Log = seq<Event>

  datatype Config = Config(enabled: bool, eventThreshold: nat, tokenRatio: real, verbatimTurns: nat)

  /** The position of the latest checkpoint. */
  function Last(log: Log): (r: Option<nat>)
    ensures r.Some? ==> r.value < |log|
  {
    if log == [] then None
    else if log[|log| - 1].Checkpoint? then Some(|log| - 1)
    else Last(log[..|log| - 1])
  }

  lemma {:induction false} LastMeans(log: Log)
    ensures Last(log).Some? ==>
      log[Last(log).value].Checkpoint? && forall i | Last(log).value < i < |log| :: log[i].Entry?
    ensures Last(log).None? ==> forall i | 0 <= i < |log| :: log[i].Entry?
  {
    if log != [] && log[|log| - 1].Entry? {
      LastMeans(log[..|log| - 1]);
    }
  }

  function Summarized(log: Log): nat {
    if log == [] then 0
    else if log[|log| - 1].Checkpoint? then log[|log| - 1].summarized
    else Summarized(log[..|log| - 1])
  }

  function Entries(log: Log): (r: seq<Event>)
    ensures |r| <= |log| && forall e | e in r :: e.Entry?
  {
    if log == [] then []
    else
      var n := |log| - 1;
      Entries(log[..n]) + if log[n].Entry? then [log[n]] else []
  }

  function Min(a: nat, b: nat): nat { if a < b then a else b }

  /** The entries after those the latest checkpoint summarizes. */
  function Tail(log: Log): seq<Event> {
    Entries(log)[Min(Summarized(log), |Entries(log)|)..]
  }

  function Users(events: seq<Event>): nat {
    if events == [] then 0
    else
      var n := |events| - 1;
      Users(events[..n]) + if events[n].Entry? && events[n].user then 1 else 0
  }

  /******* Where the verbatim turns begin *******/

  /** `k` is where the last `turns` user turns begin: a user's entry with exactly that many from it on. */
  ghost predicate StartsTurns(events: seq<Event>, turns: nat, k: nat) {
    k < |events| && events[k].Entry? && events[k].user && Users(events[k..]) == turns
  }

  lemma {:induction false} UsersConcat(a: seq<Event>, b: seq<Event>)
    ensures Users(a + b) == Users(a) + Users(b)
  {
    if b == [] {
      assert a + b == a;
    } else {
      var n := |b| - 1;
      UsersConcat(a, b[..n]);
      assert (a + b)[..|a| + n] == a + b[..n];
    }
  }

  lemma UsersFrom(events: seq<Event>, i: nat)
    requires i < |events|
    ensures Users(events[i..]) == Users(events[i + 1..]) + if events[i].Entry? && events[i].user then 1 else 0
  {
    assert events[i..] == [events[i]] + events[i + 1..];
    UsersConcat([events[i]], events[i + 1..]);
    assert Users([events[i]]) == if events[i].Entry? && events[i].user then 1 else 0 by {
      assert [events[i]][..0] == [];
    }
  }

  /** Everything may be summarized when no turn stays verbatim, and nothing when there are too few turns. */
  ghost predicate IsBoundary(events: seq<Event>, turns: nat, k: nat) {
    if turns == 0 || events == [] then k == |events|
    else StartsTurns(events, turns, k) || (k == 0 && Users(events) < turns)
  }

  method RecentTurnBoundary(events: seq<Event>, turns: nat) returns (k: nat)
    ensures IsBoundary(events, turns, k)
  {
    if turns == 0 || events == [] {
      return |events|;
    }
    var seen := 0;
    var i := |events|;
    while i > 0
      invariant 0 <= i <= |events| && seen == Users(events[i..]) < turns
    {
      i := i - 1;
      UsersFrom(events, i);
      if events[i].Entry? && events[i].user {
        seen := seen + 1;
        if seen == turns {
          return i;
        }
      }
    }
    assert events[0..] == events;
    return 0;
  }

  /** There is one boundary. */
  lemma BoundaryUnique(events: seq<Event>, turns: nat, j: nat, k: nat)
    requires IsBoundary(events, turns, j) && IsBoundary(events, turns, k)
    ensures j == k
  {
    if j < k && k < |events| {
      NotBothStart(events, turns, j, k);
    } else if k < j && j < |events| {
      NotBothStart(events, turns, k, j);
    }
  }

  lemma NotBothStart(events: seq<Event>, turns: nat, j: nat, k: nat)
    requires j < k < |events| && StartsTurns(events, turns, k)
    ensures !StartsTurns(events, turns, j) && Users(events) >= turns
  {
    assert events == events[..k] + events[k..];
    UsersConcat(events[..k], events[k..]);
    if events[j].Entry? && events[j].user {
      MoreFromEarlier(events, j, k);
    }
  }

  lemma MoreFromEarlier(events: seq<Event>, j: nat, k: nat)
    requires j < k <= |events| && events[j].Entry? && events[j].user
    ensures Users(events[j..]) > Users(events[k..])
  {
    UsersFrom(events, j);
    assert events[j + 1..] == events[j + 1..k] + events[k..];
    UsersConcat(events[j + 1..k], events[k..]);
  }

  /******* When to compact *******/

  const MAX_LINE_TOKENS := 80

  function Lines(events: seq<Event>): nat {
    if events == [] then 0
    else
      var n := |events| - 1;
      Lines(events[..n]) + if events[n].Entry? && events[n].lineTokens.Some? then 1 else 0
  }

  function LineTokens(events: seq<Event>): nat {
    if events == [] then 0
    else
      var n := |events| - 1;
      LineTokens(events[..n]) + if events[n].Entry? && events[n].lineTokens.Some? then events[n].lineTokens.value else 0
  }

  /** Rounding up and the saturating cast of a negative value to an unsigned one. */
  function CeilingNat(x: real): nat {
    if x <= 0.0 then 0 else -((-x).Floor)
  }

  function TokenThreshold(config: Config, budget: nat): nat {
    CeilingNat(budget as real * config.tokenRatio)
  }

  predicate ShouldCompact(config: Config, tail: seq<Event>, budget: nat) {
    && config.enabled
    && tail != []
    && (Lines(tail) >= config.eventThreshold || LineTokens(tail) >= TokenThreshold(config, budget))
  }

  predicate HasLine(e: Event) {
    e.Entry? && e.lineTokens.Some?
  }

  function WithLine(events: seq<Event>): set<nat> {
    set i | 0 <= i < |events| && HasLine(events[i])
  }

  lemma {:induction false} LinesCount(events: seq<Event>)
    ensures Lines(events) == |WithLine(events)|
  {
    if events != [] {
      var n := |events| - 1;
      LinesCount(events[..n]);
      assert WithLine(events) == WithLine(events[..n]) + if HasLine(events[n]) then {n} else {};
    }
  }

  /** The token sum of two stretches is the sum of theirs; of one event it is its own line's. */
  lemma {:induction false} TokensAdd(a: seq<Event>, b: seq<Event>)
    ensures LineTokens(a + b) == LineTokens(a) + LineTokens(b)
    ensures |b| == 1 ==> LineTokens(b) == if HasLine(b[0]) then b[0].lineTokens.value else 0
  {
    if b == [] {
      assert a + b == a;
    } else {
      var n := |b| - 1;
      TokensAdd(a, b[..n]);
      assert (a + b)[..|a| + n] == a + b[..n];
      assert |b| == 1 ==> b[..n] == [];
    }
  }

  lemma CeilingIsReached(x: real, n: nat)
    ensures n >= CeilingNat(x) <==> n as real >= x
  {
  }

  /** Compaction is due exactly when enough lines or enough of the token budget await it. */
  lemma CompactsExactly(config: Config, tail: seq<Event>, budget: nat)
    ensures ShouldCompact(config, tail, budget) <==>
      && config.enabled && tail != []
      && (|WithLine(tail)| >= config.eventThreshold
          || LineTokens(tail) as real >= budget as real * config.tokenRatio)
  {
    LinesCount(tail);
    CeilingIsReached(budget as real * config.tokenRatio, LineTokens(tail));
  }

  /** The fold over the tail that decides it. */
  method CountTail(events: seq<Event>) returns (lines: nat, tokens: nat)
    ensures lines == |WithLine(events)| && tokens == LineTokens(events)
  {
    lines, tokens := 0, 0;
    for i := 0 to |events|
      invariant lines == Lines(events[..i]) && tokens == LineTokens(events[..i])
    {
      assert events[..i + 1][..i] == events[..i];
      if HasLine(events[i]) {
        lines, tokens := lines + 1, tokens + events[i].lineTokens.value;
      }
    }
    assert events[..|events|] == events;
    LinesCount(events);
  }

  function SaturatingSub(a: nat, b: nat): nat { if a < b then 0 else a - b }

  function EventsSince(eventCount: nat, last: Option<nat>): nat {
    match last
    case Some(at) => SaturatingSub(eventCount, at + 1)
    case None => eventCount
  }

  predicate WatermarkMayCompact(config: Config, eventCount: nat, last: Option<nat>, budget: nat) {
    var since := EventsSince(eventCount, last);
    config.enabled && (since >= config.eventThreshold || since * MAX_LINE_TOKENS >= TokenThreshold(config, budget))
  }

  /******* Steps *******/

  /** `folds` are the slices of entries folded into the successive checkpoints. */
  datatype State = State(log: Log, folds: seq<seq<Event>>)

  /**
  The first `k` entries of the tail of the first `seen` events are folded into a new checkpoint;
  entries may have been appended after those events, checkpoints not.
  */
  ghost predicate Folds(s: State, seen: nat, k: nat, s': State) {
    && seen <= |s.log|
    && Last(s.log) == Last(s.log[..seen])
    && 0 < k <= |Tail(s.log[..seen])|
    && s' == State(
         s.log + [Checkpoint(Summarized(s.log[..seen]) + k)],
         s.folds + [Tail(s.log[..seen])[..k]])
  }

  /** The configuration asks for a compaction of this tail, up to `k`. */
  ghost predicate Decides(config: Config, budget: nat, tail: seq<Event>, k: nat) {
    ShouldCompact(config, tail, budget) && IsBoundary(tail, config.verbatimTurns, k)
  }

  ghost predicate Compacts(s: State, config: Config, budget: nat, seen: nat, k: nat, s': State) {
    Folds(s, seen, k, s') && Decides(config, budget, Tail(s.log[..seen]), k)
  }

  ghost predicate Appends(s: State, e: Event, s': State) {
    e.Entry? && s' == State(s.log + [e], s.folds)
  }

  ghost predicate Next(s: State, s': State) {
    || (exists e :: Appends(s, e, s'))
    || (exists config, budget, seen, k :: Compacts(s, config, budget, seen, k, s'))
  }

  /** Each checkpoint summarizes more entries than the one before it. */
  ghost predicate CheckpointsGrow(log: Log) {
    forall i, j | 0 <= i < j < |log| && log[i].Checkpoint? && log[j].Checkpoint? :: log[i].summarized < log[j].summarized
  }

  /** The folded slices are the entries the latest checkpoint summarizes. */
  ghost predicate FoldsMatch(s: State) {
    Summarized(s.log) <= |Entries(s.log)| && Flatten(s.folds) == Entries(s.log)[..Summarized(s.log)]
  }

  /** The latest checkpoint summarizes the most, and only entries that were there when it was written. */
  ghost predicate LatestIsGreatest(log: Log) {
    && (forall i | 0 <= i < |log| && log[i].Checkpoint? :: log[i].summarized <= Summarized(log))
    && (Last(log).Some? ==> Summarized(log) <= |Entries(log[..Last(log).value])|)
  }

  ghost predicate Accounted(s: State) {
    FoldsMatch(s) && CheckpointsGrow(s.log) && LatestIsGreatest(s.log)
  }

  lemma {:induction false} SummarizedFrom(log: Log, seen: nat)
    requires seen <= |log| && forall i | seen <= i < |log| :: log[i].Entry?
    ensures Summarized(log) == Summarized(log[..seen])
  {
    if seen == |log| {
      assert log[..seen] == log;
    } else {
      assert log[..|log| - 1][..seen] == log[..seen];
      SummarizedFrom(log[..|log| - 1], seen);
    }
  }

  lemma {:induction false} EntriesFrom(log: Log, seen: nat)
    requires seen <= |log| && forall i | seen <= i < |log| :: log[i].Entry?
    ensures Entries(log) == Entries(log[..seen]) + log[seen..]
  {
    if seen == |log| {
      assert log[..seen] == log;
    } else {
      var n := |log| - 1;
      var front, rest := log[..n], log[seen..n];
      assert front[..seen] == log[..seen] && front[seen..] == rest;
      EntriesFrom(front, seen);
      assert log[seen..] == rest + [log[n]];
      assert Entries(log) == Entries(front) + [log[n]];
      assert Entries(log[..seen]) + rest + [log[n]] == Entries(log[..seen]) + (rest + [log[n]]);
    }
  }

  lemma NoCheckpointSince(log: Log, seen: nat)
    requires seen <= |log| && Last(log) == Last(log[..seen])
    ensures forall i | seen <= i < |log| :: log[i].Entry?
  {
    LastMeans(log);
  }
}
