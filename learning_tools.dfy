/** The learning tools: `save_pattern` checks the pattern type before it
    reaches the store; the other tools hand their arguments to the store
    and its answer back unchanged. */
module LearningTools {
  import opened Base
  import opened Persistence

  /** The pattern types `save_pattern` accepts. */
  const PatternTypes: set<string> := {"element", "flow", "strategy", "failure"}

  datatype SaveReply =
    /** `{"success": False, "error": "Invalid pattern_type. Must be one of: " + str(allowed)}` */
    | InvalidType(allowed: set<string>)
    /** whatever the store answered */
    | FromStore(reply: Reply)

  /** The check of `save_pattern`: None when the type is accepted,
      otherwise the rejection. Matching is exact: case and surrounding
      blanks count. */
  function CheckPatternType(ptype: string): (r: Option<SaveReply>)
    ensures r.None? <==> ptype == "element" || ptype == "flow" || ptype == "strategy" || ptype == "failure"
    ensures r.Some? ==> r.value == InvalidType(PatternTypes) && |r.value.allowed| == 4
  {
    if ptype in PatternTypes then None else Some(InvalidType(PatternTypes))
  }

  /** `save_pattern`: a type outside the four is refused without touching
      the store; otherwise the store's `save_pattern` runs with the same
      arguments and its reply is returned. */
  method SavePattern(store: LearningStore, app: string, key: string, ptype: string, data: Value,
                     version: Option<string>, now: int)
    returns (r: SaveReply)
    requires store.Valid()
    modifies store
    ensures store.Valid() && store.enabled == old(store.enabled) && store.log == old(store.log)
    ensures ptype !in PatternTypes ==> r == InvalidType(PatternTypes) && store.patterns == old(store.patterns)
    ensures ptype in PatternTypes && !store.enabled ==> r == FromStore(Disabled) && store.patterns == old(store.patterns)
    ensures ptype in PatternTypes && store.enabled ==>
      r == FromStore(Saved((app, key) !in old(store.patterns), key, app))
      && store.patterns == Upsert(old(store.patterns), (app, key), ptype, data, version, now)
  {
    var rejected := CheckPatternType(ptype);
    if rejected.Some? {
      return rejected.value;
    }
    var reply := store.SavePattern(app, key, ptype, data, version, now);
    r := FromStore(reply);
  }

  /** `get_pattern`: the stored row, when the store is open and has it. */
  method GetPattern(store: LearningStore, app: string, key: string) returns (r: Option<Pattern>)
    ensures r.Some? <==> store.enabled && (app, key) in store.patterns
    ensures r.Some? ==> r.value == Pattern(key, app, store.patterns[(app, key)])
  {
    r := store.GetPattern(app, key);
  }

  /** `list_patterns`: the store's newest-first summaries, at most `limit`
      of them (all when `limit` is negative). */
  method ListPatterns(store: LearningStore, app: string, ptype: Option<string>, limit: int) returns (r: seq<Summary>)
    ensures !store.enabled ==> r == []
    ensures store.enabled ==> var sel := ListedKeys(store.patterns, app, ptype);
      exists ks :: NewestFirst(store.patterns, sel, ks) && r == Summaries(store.patterns, ks)
        && |ks| == if limit < 0 then |sel| else Min(limit, |sel|)
  {
    r := store.ListPatterns(app, ptype, limit);
  }

  /** `delete_pattern`: removes the row and says whether there was one. */
  method DeletePattern(store: LearningStore, app: string, key: string) returns (r: Reply)
    requires store.Valid()
    modifies store
    ensures store.Valid() && store.enabled == old(store.enabled) && store.log == old(store.log)
    ensures !store.enabled ==> r == Disabled && store.patterns == old(store.patterns)
    ensures store.enabled ==>
      r == Deleted((app, key) in old(store.patterns)) && store.patterns == old(store.patterns) - {(app, key)}
  {
    r := store.DeletePattern(app, key);
  }

  /** `log_interaction`: appends the entry and updates the counters of the
      pattern named by the selector. */
  method LogInteraction(store: LearningStore, app: string, action: string, sel: Option<string>, success: bool,
                        error: Option<string>, latency: Option<int>, now: int)
    returns (r: Reply)
    requires store.Valid()
    modifies store
    ensures store.Valid() && store.enabled == old(store.enabled)
    ensures !store.enabled ==> r == Disabled && store.patterns == old(store.patterns) && store.log == old(store.log)
    ensures store.enabled ==>
      (&& r == Logged
       && store.log == old(store.log) + [LogEntry(app, action, sel, success, error, latency, now)]
       && store.patterns == Touched(old(store.patterns), app, sel, success))
  {
    r := store.LogInteraction(app, action, sel, success, error, latency, now);
  }

  /** `get_stats`: the reliability statistics of the last `days` days. */
  method GetStats(store: LearningStore, app: string, days: int, now: int) returns (r: StatsReply)
    ensures !store.enabled ==> r == StatsDisabled
    ensures store.enabled ==> r == Stats(app, days, Tally(store.log, app, Cutoff(now, days)))
  {
    r := store.ReliabilityStats(app, days, now);
  }
}
