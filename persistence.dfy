/** The learning store: a table of learned patterns with one row per (app
    package, pattern key), and an append-only log of interactions. A store
    without a database is disabled, and then every operation answers
    without touching anything.

    The SQL statements become transitions of a `map` from keys to rows.
    Timestamps are abstract integers (seconds) handed in by the caller. */
module Persistence {
  import opened Base

  /** (app_package, pattern_key), the table's UNIQUE constraint. */
  type Key = (string, string)

  datatype Row = Row(
    patternType: string, data: Value, appVersion: Option<string>,
    confidence: real, successCount: nat, failureCount: nat,
    createdAt: int, updatedAt: int)

  datatype LogEntry = LogEntry(
    app: string, actionType: string, selector: Option<string>, success: bool,
    error: Option<string>, latency: Option<int>, createdAt: int)

  /** The confidence column's range under every update the store makes. */
  predicate InRange(c: real) { 0.1 <= c <= 1.0 }

  predicate AllInRange(m: map<Key, Row>) {
    forall k :: k in m ==> InRange(m[k].confidence)
  }

  function RMin(a: real, b: real): real { if a <= b then a else b }
  function RMax(a: real, b: real): real { if a >= b then a else b }

  const SecondsPerDay: int := 86400

  /** `datetime.now() - timedelta(days=days)`. */
  function Cutoff(now: int, days: int): int { now - days * SecondsPerDay }

  // ---------------------------------------------------------------- save

  /** `save_pattern`: an existing row gets the new type, data and app version
      and a fresh update time, keeping its confidence, counters and creation
      time; a new row starts at confidence 1.0 with zero counters. */
  function Upsert(m: map<Key, Row>, k: Key, ptype: string, data: Value, version: Option<string>, now: int): (r: map<Key, Row>)
    ensures r.Keys == m.Keys + {k}
    ensures forall j :: j in m && j != k ==> r[j] == m[j]
    ensures r[k].patternType == ptype && r[k].data == data && r[k].appVersion == version && r[k].updatedAt == now
    ensures k in m ==> (r[k].confidence == m[k].confidence && r[k].successCount == m[k].successCount
      && r[k].failureCount == m[k].failureCount && r[k].createdAt == m[k].createdAt)
    ensures k !in m ==> r[k].confidence == 1.0 && r[k].successCount == 0 && r[k].failureCount == 0 && r[k].createdAt == now
  {
    if k in m then
      m[k := m[k].(patternType := ptype, data := data, appVersion := version, updatedAt := now)]
    else
      m[k := Row(ptype, data, version, 1.0, 0, 0, now, now)]
  }

  // ---------------------------------------------------------------- log

  /** Python truthiness of `target_selector`. */
  predicate Given(sel: Option<string>) { sel.Some? && sel.value != "" }

  /** The counter and confidence UPDATE for one logged interaction. */
  function Bump(row: Row, success: bool): (r: Row)
    ensures r == row.(successCount := r.successCount, failureCount := r.failureCount, confidence := r.confidence)
    ensures success ==> r.successCount == row.successCount + 1 && r.failureCount == row.failureCount
    ensures !success ==> r.failureCount == row.failureCount + 1 && r.successCount == row.successCount
    ensures success && row.confidence + 0.01 <= 1.0 ==> r.confidence == row.confidence + 0.01
    ensures success && row.confidence + 0.01 > 1.0 ==> r.confidence == 1.0
    ensures !success && row.confidence - 0.05 >= 0.1 ==> r.confidence == row.confidence - 0.05
    ensures !success && row.confidence - 0.05 < 0.1 ==> r.confidence == 0.1
    ensures InRange(row.confidence) ==> InRange(r.confidence)
    ensures InRange(row.confidence) ==> if success then r.confidence >= row.confidence else r.confidence <= row.confidence
  {
    if success then
      row.(successCount := row.successCount + 1, confidence := RMin(1.0, row.confidence + 0.01))
    else
      row.(failureCount := row.failureCount + 1, confidence := RMax(0.1, row.confidence - 0.05))
  }

  /** The effect of `log_interaction` on the table: only the row of the app
      whose key is the selector changes, and only when a selector is given. */
  function Touched(m: map<Key, Row>, app: string, sel: Option<string>, success: bool): (r: map<Key, Row>)
    ensures r.Keys == m.Keys
    ensures forall k :: k in m && !(Given(sel) && k == (app, sel.value)) ==> r[k] == m[k]
    ensures Given(sel) && (app, sel.value) in m ==> r[(app, sel.value)] == Bump(m[(app, sel.value)], success)
  {
    if Given(sel) && (app, sel.value) in m then m[(app, sel.value) := Bump(m[(app, sel.value)], success)] else m
  }

  // ---------------------------------------------------------------- decay

  /** A row not updated since the cutoff loses a tenth of its confidence,
      down to 0.1; other rows are kept. */
  function DecayRow(row: Row, cutoff: int): (r: Row)
    ensures r == row.(confidence := r.confidence)
    ensures row.updatedAt >= cutoff ==> r == row
    ensures row.updatedAt < cutoff && row.confidence * 0.9 >= 0.1 ==> r.confidence == row.confidence * 0.9
    ensures row.updatedAt < cutoff && row.confidence * 0.9 < 0.1 ==> r.confidence == 0.1
    ensures InRange(row.confidence) ==> InRange(r.confidence) && r.confidence <= row.confidence
  {
    if row.updatedAt < cutoff then row.(confidence := RMax(0.1, row.confidence * 0.9)) else row
  }

  /** The table after `decay_old_patterns`. */
  function Decayed(m: map<Key, Row>, cutoff: int): map<Key, Row> {
    map k | k in m :: DecayRow(m[k], cutoff)
  }

  /** The rows the decay UPDATE matches, across all apps. */
  function Stale(m: map<Key, Row>, cutoff: int): set<Key> {
    set k | k in m && m[k].updatedAt < cutoff
  }

  /** The state of a row-by-row decay: the rows already visited are
      decayed, the others untouched, and `n` counts the stale rows visited. */
  ghost predicate DecayInv(start: map<Key, Row>, cutoff: int, cur: map<Key, Row>, todo: set<Key>, n: nat) {
    && todo <= start.Keys && cur.Keys == start.Keys
    && (forall k :: k in start && k !in todo ==> cur[k] == DecayRow(start[k], cutoff))
    && (forall k :: k in todo ==> cur[k] == start[k])
    && n == |Stale(start, cutoff) - todo|
  }

  lemma DecayStep(start: map<Key, Row>, cutoff: int, cur: map<Key, Row>, todo: set<Key>, n: nat, k: Key)
    requires DecayInv(start, cutoff, cur, todo, n) && k in todo
    ensures cur[k].updatedAt < cutoff ==>
      DecayInv(start, cutoff, cur[k := DecayRow(cur[k], cutoff)], todo - {k}, n + 1)
    ensures cur[k].updatedAt >= cutoff ==> DecayInv(start, cutoff, cur, todo - {k}, n)
  {
    var stale := Stale(start, cutoff);
    if cur[k].updatedAt < cutoff {
      assert stale - (todo - {k}) == (stale - todo) + {k};
    } else {
      assert stale - (todo - {k}) == stale - todo;
    }
  }

  lemma DecayDone(start: map<Key, Row>, cutoff: int, cur: map<Key, Row>, n: nat)
    requires DecayInv(start, cutoff, cur, {}, n)
    ensures cur == Decayed(start, cutoff) && n == |Stale(start, cutoff)|
  {
    assert Stale(start, cutoff) - {} == Stale(start, cutoff);
  }

  // ---------------------------------------------------------------- sequences of updates

  /** The table-changing operations of the store. */
  datatype Op =
    | SaveOp(key: Key, ptype: string, data: Value, version: Option<string>, now: int)
    | DeleteOp(key: Key)
    | LogOp(app: string, sel: Option<string>, success: bool)
    | DecayOp(cutoff: int)

  function Step(m: map<Key, Row>, op: Op): map<Key, Row> {
    match op
    case SaveOp(k, t, d, v, now) => Upsert(m, k, t, d, v, now)
    case DeleteOp(k) => m - {k}
    case LogOp(app, sel, success) => Touched(m, app, sel, success)
    case DecayOp(cutoff) => Decayed(m, cutoff)
  }

  function Replay(m: map<Key, Row>, ops: seq<Op>): map<Key, Row>
    decreases |ops|
  {
    if ops == [] then m else Replay(Step(m, ops[0]), ops[1..])
  }

  /** One operation keeps every confidence in [0.1, 1.0]. */
  lemma StepInRange(m: map<Key, Row>, op: Op)
    requires AllInRange(m)
    ensures AllInRange(Step(m, op))
  {
    match op
    case SaveOp(k, t, d, v, now) =>
    case DeleteOp(k) =>
    case LogOp(app, sel, success) =>
    case DecayOp(cutoff) =>
      forall k | k in Decayed(m, cutoff) ensures InRange(Decayed(m, cutoff)[k].confidence) {
        assert InRange(m[k].confidence);
      }
  }

  /** Confidence stays in [0.1, 1.0] after any sequence of saves, deletes,
      logged interactions and decays, starting from an empty table. */
  lemma {:induction false} ReplayInRange(m: map<Key, Row>, ops: seq<Op>)
    requires AllInRange(m)
    ensures AllInRange(Replay(m, ops))
    decreases |ops|
  {
    if ops != [] {
      StepInRange(m, ops[0]);
      ReplayInRange(Step(m, ops[0]), ops[1..]);
    }
  }

  /** There is at most one row per (app, key), whatever the operations:
      saving a key twice leaves one row, holding the second save's data. */
  lemma SaveTwiceOneRow(m: map<Key, Row>, k: Key, t1: string, d1: Value, v1: Option<string>, n1: int,
                        t2: string, d2: Value, v2: Option<string>, n2: int)
    ensures var r := Replay(m, [SaveOp(k, t1, d1, v1, n1), SaveOp(k, t2, d2, v2, n2)]);
      r.Keys == m.Keys + {k} && r[k].data == d2 && r[k].patternType == t2
      && (k !in m ==> r[k].confidence == 1.0 && r[k].createdAt == n1 && r[k].updatedAt == n2)
  {
    var ops := [SaveOp(k, t1, d1, v1, n1), SaveOp(k, t2, d2, v2, n2)];
    var m1 := Upsert(m, k, t1, d1, v1, n1);
    assert ops[1..] == [SaveOp(k, t2, d2, v2, n2)] && ops[1..][1..] == [];
    assert Replay(m1, ops[1..]) == Upsert(m1, k, t2, d2, v2, n2);
  }

  // ---------------------------------------------------------------- queries

  /** `get_pattern`'s dict: the key, the app and every stored column. */
  datatype Pattern = Pattern(key: string, app: string, row: Row)

  /** One entry of `list_patterns`. */
  datatype Summary = Summary(key: string, patternType: string, confidence: real,
                             successCount: nat, failureCount: nat, updatedAt: int)

  function SummaryOf(key: string, row: Row): Summary {
    Summary(key, row.patternType, row.confidence, row.successCount, row.failureCount, row.updatedAt)
  }

  /** The rows `list_patterns` selects: the app's rows, of the given type
      when a (non-empty) type is given. */
  predicate Listed(m: map<Key, Row>, app: string, ptype: Option<string>, k: Key) {
    k in m && k.0 == app && (Given(ptype) ==> m[k].patternType == ptype.value)
  }

  /** Some selected row is updated no earlier than every other one. */
  lemma {:induction false} NewestExists(m: map<Key, Row>, pool: set<Key>)
    requires pool != {} && pool <= m.Keys
    ensures exists k :: k in pool && forall j :: j in pool ==> m[j].updatedAt <= m[k].updatedAt
    decreases |pool|
  {
    var x :| x in pool;
    var rest := pool - {x};
    if rest == {} {
      assert pool == {x};
    } else {
      NewestExists(m, rest);
      var y :| y in rest && forall j :: j in rest ==> m[j].updatedAt <= m[y].updatedAt;
      var k := if m[x].updatedAt > m[y].updatedAt then x else y;
      assert forall j :: j in pool ==> j == x || j in rest;
      assert k in pool && forall j :: j in pool ==> m[j].updatedAt <= m[k].updatedAt;
    }
  }

  /** The keys `list_patterns` selects. */
  function ListedKeys(m: map<Key, Row>, app: string, ptype: Option<string>): set<Key> {
    set k | k in m && Listed(m, app, ptype, k)
  }

  /** Keys of the selected set `sel` in the order `list_patterns` returns
      them: distinct, newest update first, and no selected key left out is
      newer than one returned. */
  ghost predicate NewestFirst(m: map<Key, Row>, sel: set<Key>, ks: seq<Key>) {
    && sel <= m.Keys
    && (forall i :: 0 <= i < |ks| ==> ks[i] in sel)
    && (forall i, j :: 0 <= i < j < |ks| ==> ks[i] != ks[j] && m[ks[i]].updatedAt >= m[ks[j]].updatedAt)
    && (forall k, i :: k in sel && k !in ks && 0 <= i < |ks| ==> m[k].updatedAt <= m[ks[i]].updatedAt)
  }

  /** Appending the newest key not yet listed keeps the order. */
  lemma NewestStep(m: map<Key, Row>, sel: set<Key>, ks: seq<Key>, k: Key)
    requires NewestFirst(m, sel, ks) && k in sel && k !in ks
    requires forall j :: j in sel && j !in ks ==> m[j].updatedAt <= m[k].updatedAt
    ensures NewestFirst(m, sel, ks + [k])
  {
    var ks' := ks + [k];
    forall i, j | 0 <= i < j < |ks'| ensures ks'[i] != ks'[j] && m[ks'[i]].updatedAt >= m[ks'[j]].updatedAt {
      if j == |ks| {
        assert ks'[i] == ks[i] && ks[i] in ks;
      } else {
        assert ks'[i] == ks[i] && ks'[j] == ks[j];
      }
    }
    forall x, i | x in sel && x !in ks' && 0 <= i < |ks'| ensures m[x].updatedAt <= m[ks'[i]].updatedAt {
      if i < |ks| {
        assert ks'[i] == ks[i];
      }
    }
  }

  /** The state of the selection loop of `list_patterns`: the listed keys
      so far and the selected keys still to list. */
  ghost predicate ListInv(m: map<Key, Row>, sel: set<Key>, ks: seq<Key>, pool: set<Key>) {
    NewestFirst(m, sel, ks) && pool == sel - (set x | x in ks) && |ks| + |pool| == |sel|
  }

  lemma ListStep(m: map<Key, Row>, sel: set<Key>, ks: seq<Key>, pool: set<Key>, k: Key)
    requires ListInv(m, sel, ks, pool) && k in pool
    requires forall j :: j in pool ==> m[j].updatedAt <= m[k].updatedAt
    ensures ListInv(m, sel, ks + [k], pool - {k})
  {
    NewestStep(m, sel, ks, k);
    PoolStep(sel, ks, pool, k);
  }

  /** Moving one key from the pool to the listed keys. */
  lemma PoolStep<K>(sel: set<K>, ks: seq<K>, pool: set<K>, k: K)
    requires pool == sel - (set x | x in ks) && |ks| + |pool| == |sel| && k in pool
    ensures pool - {k} == sel - (set x | x in ks + [k]) && |ks + [k]| + |pool - {k}| == |sel|
  {
    assert (set x | x in ks + [k]) == (set x | x in ks) + {k};
  }

  /** The summaries of the given rows, in order. */
  function Summaries(m: map<Key, Row>, ks: seq<Key>): (r: seq<Summary>)
    requires forall i :: 0 <= i < |ks| ==> ks[i] in m
    ensures |r| == |ks|
    decreases |ks|
  {
    if ks == [] then [] else Summaries(m, ks[..|ks| - 1]) + [SummaryOf(ks[|ks| - 1].1, m[ks[|ks| - 1]])]
  }

  lemma SummariesAppend(m: map<Key, Row>, ks: seq<Key>, k: Key)
    requires (forall i :: 0 <= i < |ks| ==> ks[i] in m) && k in m
    ensures Summaries(m, ks + [k]) == Summaries(m, ks) + [SummaryOf(k.1, m[k])]
  {
    assert (ks + [k])[..|ks|] == ks;
  }

  /** Per-action counts of `get_reliability_stats`. */
  datatype ActionStat = ActionStat(total: nat, successes: nat)

  /** Whether a log entry enters the statistics: the app's entries newer
      than the cutoff. */
  predicate Recent(e: LogEntry, app: string, cutoff: int) { e.app == app && e.createdAt > cutoff }

  /** The grouped query, as the rows are read in log order. */
  function Tally(es: seq<LogEntry>, app: string, cutoff: int): map<string, ActionStat>
    decreases |es|
  {
    if es == [] then map[] else AddEntry(Tally(es[..|es| - 1], app, cutoff), es[|es| - 1], app, cutoff)
  }

  function AddEntry(stats: map<string, ActionStat>, e: LogEntry, app: string, cutoff: int): map<string, ActionStat> {
    if Recent(e, app, cutoff) then
      var s := if e.actionType in stats then stats[e.actionType] else ActionStat(0, 0);
      stats[e.actionType := ActionStat(s.total + 1, s.successes + if e.success then 1 else 0)]
    else stats
  }

  /** The rows of one group: recent entries of the app with that action. */
  function Group(es: seq<LogEntry>, app: string, cutoff: int, action: string): seq<LogEntry>
    decreases |es|
  {
    if es == [] then []
    else
      var g := Group(es[..|es| - 1], app, cutoff, action);
      var e := es[|es| - 1];
      if Recent(e, app, cutoff) && e.actionType == action then g + [e] else g
  }

  function Successes(es: seq<LogEntry>): nat
    decreases |es|
  {
    if es == [] then 0 else Successes(es[..|es| - 1]) + if es[|es| - 1].success then 1 else 0
  }

  lemma SuccessesAppend(es: seq<LogEntry>, e: LogEntry)
    ensures Successes(es + [e]) == Successes(es) + if e.success then 1 else 0
  {
    assert (es + [e])[..|es|] == es;
  }

  /** The statistics have one entry per action with recent entries of the
      app: COUNT(*) of the group as total and SUM(success) as successes. */
  lemma {:induction false} TallyIsGrouped(es: seq<LogEntry>, app: string, cutoff: int)
    ensures forall a :: a in Tally(es, app, cutoff) <==> Group(es, app, cutoff, a) != []
    ensures forall a :: a in Tally(es, app, cutoff) ==>
      Tally(es, app, cutoff)[a] == ActionStat(|Group(es, app, cutoff, a)|, Successes(Group(es, app, cutoff, a)))
    decreases |es|
  {
    if es != [] {
      var init := es[..|es| - 1];
      var e := es[|es| - 1];
      TallyIsGrouped(init, app, cutoff);
      forall a ensures Group(es, app, cutoff, a) == if Recent(e, app, cutoff) && e.actionType == a
        then Group(init, app, cutoff, a) + [e] else Group(init, app, cutoff, a) {
      }
      forall a | Recent(e, app, cutoff) && e.actionType == a
        ensures Successes(Group(es, app, cutoff, a)) == Successes(Group(init, app, cutoff, a)) + if e.success then 1 else 0
      {
        SuccessesAppend(Group(init, app, cutoff, a), e);
      }
    }
  }

  /** Successes never exceed the total. */
  lemma {:induction false} SuccessesAtMost(es: seq<LogEntry>)
    ensures Successes(es) <= |es|
    decreases |es|
  {
    if es != [] {
      SuccessesAtMost(es[..|es| - 1]);
    }
  }

  // ---------------------------------------------------------------- replies

  /** The dicts the updating operations return. `Disabled` is
      {"success": True, "message": "Learning disabled"}. */
  datatype Reply =
    | Disabled
    | Saved(created: bool, key: string, app: string)
    | Deleted(deleted: bool)
    | Logged

  /** `get_reliability_stats`: {"enabled": False}, or the per-action counts. */
  datatype StatsReply =
    | StatsDisabled
    | Stats(app: string, periodDays: int, actionStats: map<string, ActionStat>)

  // ---------------------------------------------------------------- the store

  class LearningStore {
    /** Whether a database connection is held. */
    var enabled: bool
    var patterns: map<Key, Row>
    var log: seq<LogEntry>

    ghost predicate Valid()
      reads this
    {
      AllInRange(patterns)
    }

    /** A store with a database path starts with the schema's empty tables;
        one without is disabled. */
    constructor(hasDb: bool)
      ensures enabled == hasDb && patterns == map[] && log == [] && Valid()
    {
      enabled := hasDb;
      patterns := map[];
      log := [];
    }

    method SavePattern(app: string, key: string, ptype: string, data: Value, version: Option<string>, now: int)
      returns (r: Reply)
      requires Valid()
      modifies this
      ensures Valid() && enabled == old(enabled) && log == old(log)
      ensures !enabled ==> r == Disabled && patterns == old(patterns)
      ensures enabled ==> (r == Saved((app, key) !in old(patterns), key, app)
        && patterns == Upsert(old(patterns), (app, key), ptype, data, version, now))
    {
      if !enabled {
        return Disabled;
      }
      var existing := (app, key) in patterns;
      patterns := Upsert(patterns, (app, key), ptype, data, version, now);
      r := Saved(!existing, key, app);
    }

    method GetPattern(app: string, key: string) returns (r: Option<Pattern>)
      ensures r.Some? <==> enabled && (app, key) in patterns
      ensures r.Some? ==> r.value == Pattern(key, app, patterns[(app, key)])
    {
      if !enabled || (app, key) !in patterns {
        return None;
      }
      r := Some(Pattern(key, app, patterns[(app, key)]));
    }

    /** `list_patterns`: the selected rows, newest update first, at most
        `limit` of them; SQLite reads a negative limit as no limit. Rows
        updated at the same time come in an order the model leaves open. */
    method ListPatterns(app: string, ptype: Option<string>, limit: int) returns (r: seq<Summary>)
      ensures !enabled ==> r == []
      ensures enabled ==> var sel := ListedKeys(patterns, app, ptype);
        exists ks :: NewestFirst(patterns, sel, ks) && r == Summaries(patterns, ks)
          && |ks| == if limit < 0 then |sel| else Min(limit, |sel|)
    {
      if !enabled {
        return [];
      }
      var pool := ListedKeys(patterns, app, ptype);
      ghost var sel := pool;
      ghost var ks: seq<Key> := [];
      r := [];
      while pool != {} && (limit < 0 || |r| < limit)
        invariant ListInv(patterns, sel, ks, pool) && r == Summaries(patterns, ks)
        invariant limit >= 0 ==> |ks| <= limit
        decreases |pool|
      {
        NewestExists(patterns, pool);
        var k :| k in pool && forall j :: j in pool ==> patterns[j].updatedAt <= patterns[k].updatedAt;
        ListStep(patterns, sel, ks, pool, k);
        SummariesAppend(patterns, ks, k);
        ks := ks + [k];
        r := r + [SummaryOf(k.1, patterns[k])];
        pool := pool - {k};
      }
      assert |ks| == if limit < 0 then |sel| else Min(limit, |sel|);
    }

    method DeletePattern(app: string, key: string) returns (r: Reply)
      requires Valid()
      modifies this
      ensures Valid() && enabled == old(enabled) && log == old(log)
      ensures !enabled ==> r == Disabled && patterns == old(patterns)
      ensures enabled ==> r == Deleted((app, key) in old(patterns)) && patterns == old(patterns) - {(app, key)}
    {
      if !enabled {
        return Disabled;
      }
      r := Deleted((app, key) in patterns);
      patterns := patterns - {(app, key)};
    }

    method LogInteraction(app: string, action: string, sel: Option<string>, success: bool,
                          error: Option<string>, latency: Option<int>, now: int) returns (r: Reply)
      requires Valid()
      modifies this
      ensures Valid() && enabled == old(enabled)
      ensures !enabled ==> r == Disabled && patterns == old(patterns) && log == old(log)
      ensures enabled ==> (r == Logged
        && log == old(log) + [LogEntry(app, action, sel, success, error, latency, now)]
        && patterns == Touched(old(patterns), app, sel, success))
    {
      if !enabled {
        return Disabled;
      }
      log := log + [LogEntry(app, action, sel, success, error, latency, now)];
      patterns := Touched(patterns, app, sel, success);
      r := Logged;
    }

    /** `get_reliability_stats` over the entries newer than `days` days
        before `now`. */
    method ReliabilityStats(app: string, days: int, now: int) returns (r: StatsReply)
      ensures !enabled ==> r == StatsDisabled
      ensures enabled ==> r == Stats(app, days, Tally(log, app, Cutoff(now, days)))
    {
      if !enabled {
        return StatsDisabled;
      }
      var cutoff := Cutoff(now, days);
      var stats: map<string, ActionStat> := map[];
      var i := 0;
      while i < |log|
        invariant 0 <= i <= |log|
        invariant stats == Tally(log[..i], app, cutoff)
      {
        assert log[..i + 1][..i] == log[..i];
        stats := AddEntry(stats, log[i], app, cutoff);
        i := i + 1;
      }
      assert log[..|log|] == log;
      r := Stats(app, days, stats);
    }

    /** `decay_old_patterns`: decays every row not updated in the last
        `days` days and returns how many rows it matched. */
    method DecayOldPatterns(days: int, now: int) returns (n: nat)
      requires Valid()
      modifies this
      ensures Valid() && enabled == old(enabled) && log == old(log)
      ensures !enabled ==> n == 0 && patterns == old(patterns)
      ensures enabled ==> (patterns == Decayed(old(patterns), Cutoff(now, days))
        && n == |Stale(old(patterns), Cutoff(now, days))|)
    {
      if !enabled {
        return 0;
      }
      var cutoff := Cutoff(now, days);
      ghost var start := patterns;
      var todo := patterns.Keys;
      n := 0;
      while todo != {}
        invariant DecayInv(start, cutoff, patterns, todo, n) && enabled == old(enabled) && log == old(log)
        decreases |todo|
      {
        var k :| k in todo;
        DecayStep(start, cutoff, patterns, todo, n, k);
        if patterns[k].updatedAt < cutoff {
          n := n + 1;
          patterns := patterns[k := DecayRow(patterns[k], cutoff)];
        }
        todo := todo - {k};
      }
      DecayDone(start, cutoff, patterns, n);
      StepInRange(start, DecayOp(cutoff));
    }

    /** `close`: the connection is dropped and the store is disabled. */
    method Close()
      modifies this
      ensures !enabled && patterns == old(patterns) && log == old(log)
    {
      enabled := false;
    }
  }

  /** A deleted pattern is gone: a later lookup finds nothing. */
  method DeleteThenGet(s: LearningStore, app: string, key: string) returns (deleted: Reply, found: Option<Pattern>)
    requires s.Valid()
    modifies s
    ensures s.enabled ==> deleted == Deleted((app, key) in old(s.patterns))
    ensures found == None
  {
    deleted := s.DeletePattern(app, key);
    found := s.GetPattern(app, key);
  }

  /** Two successful and one failed tap on a fresh store count as three
      taps with two successes. */
  method StatsExample(now: int) returns (r: StatsReply)
    ensures r == Stats("com.test.app", 30, map["tap" := ActionStat(3, 2)])
  {
    var s := new LearningStore(true);
    var _ := s.LogInteraction("com.test.app", "tap", None, true, None, None, now);
    var _ := s.LogInteraction("com.test.app", "tap", None, true, None, None, now);
    var _ := s.LogInteraction("com.test.app", "tap", None, false, None, None, now);
    r := s.ReliabilityStats("com.test.app", 30, now);
    var e1 := LogEntry("com.test.app", "tap", None, true, None, None, now);
    var e2 := LogEntry("com.test.app", "tap", None, false, None, None, now);
    var es := s.log;
    assert es == [e1, e1, e2];
    var cutoff := Cutoff(now, 30);
    assert Recent(e1, "com.test.app", cutoff) && Recent(e2, "com.test.app", cutoff);
    assert es[..2] == [e1, e1] && [e1, e1][..1] == [e1] && [e1][..0] == [];
    assert Tally([e1], "com.test.app", cutoff) == map["tap" := ActionStat(1, 1)];
    assert Tally([e1, e1], "com.test.app", cutoff) == map["tap" := ActionStat(2, 2)];
  }
}
