/** Retry with exponential backoff, its decorator form, error-message
    formatting and nested dictionary lookup.

    The retried coroutine is an oracle: `outcomes(i)` is what its i-th call
    (from 0) returns or raises. Sleeping is recorded, not performed: the
    trace lists each delay in milliseconds. */
module Utils {
  import opened Base
  import opened Strings

  // ---------------------------------------------------------------- retry

  /** Every exception class the core raises derives from Exception, so the
      default `exceptions=(Exception,)` catches all of them. */
  const AllKinds: set<ExnKind> := {AdbError, ValueErr, TypeErr, AttributeErr, IndexErr, OtherErr}

  /** Python's `int()` on a float: truncation toward zero. */
  function Trunc(x: real): (r: int)
    ensures x >= 0.0 ==> r as real <= x < r as real + 1.0
    ensures x < 0.0 ==> r as real - 1.0 < x <= r as real
  {
    if x >= 0.0 then x.Floor else -((-x).Floor)
  }

  /** The delay before retry number i + 1: `delay_ms`, then each delay is
      `int(previous * backoff)`. */
  function Delay(delayMs: int, backoff: real, i: nat): int
    decreases i
  {
    if i == 0 then delayMs else Delay(NextDelay(delayMs, backoff), backoff, i - 1)
  }

  function NextDelay(delay: int, backoff: real): int {
    Trunc(delay as real * backoff)
  }

  /** What one call of `retry_async` does: its outcome, how many times it
      called the coroutine and the delays it slept, in order. */
  datatype Trace<T> = Trace(result: Result<T>, calls: nat, sleeps: seq<int>)

  /** `raise None`, what the source does when `range(max_retries + 1)` is
      empty. */
  const RaiseNone: Exn := Exn(TypeErr, "exceptions must derive from BaseException")

  /** The attempts from `attempt` on, `delay` being the current delay. */
  function RetryFrom<T>(outcomes: nat -> Result<T>, caught: set<ExnKind>, maxRetries: nat, backoff: real,
                        attempt: nat, delay: int): Trace<T>
    requires attempt <= maxRetries
    decreases maxRetries - attempt
  {
    match outcomes(attempt)
    case Ok(v) => Trace(Ok(v), 1, [])
    case Err(e) =>
      if e.kind !in caught || attempt == maxRetries then Trace(Err(e), 1, [])
      else
        var t := RetryFrom(outcomes, caught, maxRetries, backoff, attempt + 1, NextDelay(delay, backoff));
        Trace(t.result, t.calls + 1, [delay] + t.sleeps)
  }

  /** The reference definition of `retry_async`. */
  function Retry<T>(outcomes: nat -> Result<T>, maxRetries: int, delayMs: int, backoff: real, caught: set<ExnKind>): Trace<T> {
    if maxRetries < 0 then Trace(Err(RaiseNone), 0, [])
    else RetryFrom(outcomes, caught, maxRetries, backoff, 0, delayMs)
  }

  /** A trace after `calls` calls that slept `sleeps`, followed by `t`. */
  function Then<T>(calls: nat, sleeps: seq<int>, t: Trace<T>): Trace<T> {
    Trace(t.result, calls + t.calls, sleeps + t.sleeps)
  }

  method RetryAsync<T>(outcomes: nat -> Result<T>, maxRetries: int, delayMs: int, backoff: real, caught: set<ExnKind>)
    returns (r: Result<T>, calls: nat, sleeps: seq<int>)
    ensures Trace(r, calls, sleeps) == Retry(outcomes, maxRetries, delayMs, backoff, caught)
  {
    var last: Option<Exn> := None;
    var current := delayMs;
    calls, sleeps := 0, [];
    var attempt := 0;
    while attempt < maxRetries + 1
      invariant 0 <= attempt <= Max(maxRetries + 1, 0) && calls == attempt
      invariant attempt <= maxRetries ==>
        Retry(outcomes, maxRetries, delayMs, backoff, caught) ==
        Then(calls, sleeps, RetryFrom(outcomes, caught, maxRetries, backoff, attempt, current))
      invariant last.None? <==> attempt == 0
      invariant attempt == 0 ==> sleeps == []
      invariant 0 < attempt == maxRetries + 1 ==>
        Retry(outcomes, maxRetries, delayMs, backoff, caught) == Trace(Err(last.value), calls, sleeps)
    {
      var outcome := outcomes(attempt);
      calls := calls + 1;
      if outcome.Ok? || outcome.exn.kind !in caught {
        assert sleeps + [] == sleeps;
        r := outcome;
        return;
      }
      RetryStep(outcomes, caught, maxRetries, backoff, attempt, current, calls - 1, sleeps);
      last := Some(outcome.exn);
      if attempt < maxRetries {
        sleeps := sleeps + [current];
        current := NextDelay(current, backoff);
      }
      attempt := attempt + 1;
    }
    r := if last.Some? then Err(last.value) else Err(RaiseNone);
  }

  /** One attempt of the loop that raises a caught exception. */
  lemma RetryStep<T>(outcomes: nat -> Result<T>, caught: set<ExnKind>, maxRetries: nat, backoff: real,
                     attempt: nat, delay: int, calls: nat, sleeps: seq<int>)
    requires attempt <= maxRetries && outcomes(attempt).Err? && outcomes(attempt).exn.kind in caught
    ensures attempt < maxRetries ==>
      Then(calls, sleeps, RetryFrom(outcomes, caught, maxRetries, backoff, attempt, delay)) ==
      Then(calls + 1, sleeps + [delay], RetryFrom(outcomes, caught, maxRetries, backoff, attempt + 1, NextDelay(delay, backoff)))
    ensures attempt == maxRetries ==>
      Then(calls, sleeps, RetryFrom(outcomes, caught, maxRetries, backoff, attempt, delay)) ==
      Trace(Err(outcomes(attempt).exn), calls + 1, sleeps)
  {
    if attempt < maxRetries {
      var t := RetryFrom(outcomes, caught, maxRetries, backoff, attempt + 1, NextDelay(delay, backoff));
      assert sleeps + ([delay] + t.sleeps) == (sleeps + [delay]) + t.sleeps;
    } else {
      assert sleeps + [] == sleeps;
    }
  }

  /** At most max_retries + 1 calls; a sleep between consecutive calls and
      none after the last one; with a negative max_retries no call at all. */
  lemma {:induction false} RetryCounts<T>(outcomes: nat -> Result<T>, maxRetries: int, delayMs: int, backoff: real, caught: set<ExnKind>)
    ensures var t := Retry(outcomes, maxRetries, delayMs, backoff, caught);
      if maxRetries < 0 then t == Trace(Err(RaiseNone), 0, [])
      else 1 <= t.calls <= maxRetries + 1 && |t.sleeps| == t.calls - 1
  {
    if maxRetries >= 0 {
      RetryFromCounts(outcomes, caught, maxRetries, backoff, 0, delayMs);
    }
  }

  lemma {:induction false} RetryFromCounts<T>(outcomes: nat -> Result<T>, caught: set<ExnKind>, maxRetries: nat, backoff: real,
                                              attempt: nat, delay: int)
    requires attempt <= maxRetries
    ensures var t := RetryFrom(outcomes, caught, maxRetries, backoff, attempt, delay);
      1 <= t.calls <= maxRetries + 1 - attempt && |t.sleeps| == t.calls - 1
      && forall i :: 0 <= i < |t.sleeps| ==> t.sleeps[i] == Delay(delay, backoff, i)
    decreases maxRetries - attempt
  {
    var t := RetryFrom(outcomes, caught, maxRetries, backoff, attempt, delay);
    if outcomes(attempt).Err? && outcomes(attempt).exn.kind in caught && attempt < maxRetries {
      var d' := NextDelay(delay, backoff);
      RetryFromCounts(outcomes, caught, maxRetries, backoff, attempt + 1, d');
      var t' := RetryFrom(outcomes, caught, maxRetries, backoff, attempt + 1, d');
      forall i | 0 <= i < |t.sleeps| ensures t.sleeps[i] == Delay(delay, backoff, i) {
        if i > 0 {
          assert t.sleeps[i] == t'.sleeps[i - 1];
        }
      }
    }
  }

  /** The outcome: the first attempt that returns or raises an exception
      outside `exceptions` decides; if every attempt raises a caught
      exception, the last one is re-raised. */
  lemma {:induction false} RetryFromOutcome<T>(outcomes: nat -> Result<T>, caught: set<ExnKind>, maxRetries: nat, backoff: real,
                                               attempt: nat, delay: int)
    requires attempt <= maxRetries
    ensures var t := RetryFrom(outcomes, caught, maxRetries, backoff, attempt, delay);
      var k := attempt + t.calls - 1;
      && t.result == outcomes(k)
      && (forall j :: attempt <= j < k ==> outcomes(j).Err? && outcomes(j).exn.kind in caught)
      && (k < maxRetries ==> outcomes(k).Ok? || outcomes(k).exn.kind !in caught)
    decreases maxRetries - attempt
  {
    if outcomes(attempt).Err? && outcomes(attempt).exn.kind in caught && attempt < maxRetries {
      var d' := NextDelay(delay, backoff);
      RetryFromOutcome(outcomes, caught, maxRetries, backoff, attempt + 1, d');
    }
  }

  /** The same, for the whole retry: call number k (from 0) is the deciding
      one exactly when the calls before it all raised caught exceptions and
      it did not, or it is the last allowed call. */
  lemma RetryOutcome<T>(outcomes: nat -> Result<T>, maxRetries: int, delayMs: int, backoff: real, caught: set<ExnKind>)
    requires maxRetries >= 0
    ensures var t := Retry(outcomes, maxRetries, delayMs, backoff, caught);
      && t.result == outcomes(t.calls - 1)
      && (forall j :: 0 <= j < t.calls - 1 ==> outcomes(j).Err? && outcomes(j).exn.kind in caught)
      && (t.calls - 1 < maxRetries ==> outcomes(t.calls - 1).Ok? || outcomes(t.calls - 1).exn.kind !in caught)
      && forall i :: 0 <= i < |t.sleeps| ==> t.sleeps[i] == Delay(delayMs, backoff, i)
  {
    RetryFromCounts(outcomes, caught, maxRetries, backoff, 0, delayMs);
    RetryFromOutcome(outcomes, caught, maxRetries, backoff, 0, delayMs);
  }

  /** The parameters `with_retry` captures. */
  datatype RetryPolicy = RetryPolicy(maxRetries: int, delayMs: int, backoff: real, caught: set<ExnKind>)

  /** `with_retry(max_retries=3, delay_ms=500, backoff=1.5)`, the defaults. */
  const DefaultPolicy: RetryPolicy := RetryPolicy(3, 500, 1.5, AllKinds)

  /** A coroutine decorated with `with_retry(policy)`, when called. */
  method WithRetry<T>(policy: RetryPolicy, outcomes: nat -> Result<T>) returns (r: Result<T>, calls: nat, sleeps: seq<int>)
    ensures Trace(r, calls, sleeps) == Retry(outcomes, policy.maxRetries, policy.delayMs, policy.backoff, policy.caught)
  {
    r, calls, sleeps := RetryAsync(outcomes, policy.maxRetries, policy.delayMs, policy.backoff, policy.caught);
  }

  // ---------------------------------------------------------------- messages

  /** `format_error_message`: "context: Type - msg", or "Type: msg" without
      a context. */
  function FormatErrorMessage(e: Exn, context: string): (r: string)
    ensures context != "" ==> IsPrefix(context + ": ", r) && r[|context| + 2..] == KindName(e.kind) + " - " + e.msg
    ensures context == "" ==> r == KindName(e.kind) + ": " + e.msg
    ensures IsSuffix(e.msg, r)
  {
    if context != "" then context + ": " + KindName(e.kind) + " - " + e.msg
    else KindName(e.kind) + ": " + e.msg
  }

  // ---------------------------------------------------------------- nested lookup

  /** The value at a key path through nested dicts, if every step finds a
      dict holding the key. */
  function Lookup(v: Value, keys: seq<string>): Option<Value>
    decreases |keys|
  {
    if keys == [] then Some(v)
    else if v.Dict? && keys[0] in v.fields then Lookup(v.fields[keys[0]], keys[1..])
    else None
  }

  /** Looking up a path is looking up its first part, then the rest. */
  lemma {:induction false} LookupAppend(v: Value, a: seq<string>, b: seq<string>)
    ensures Lookup(v, a + b) == match Lookup(v, a) case Some(w) => Lookup(w, b) case None => None
    decreases |a|
  {
    if a != [] {
      assert (a + b)[0] == a[0] && (a + b)[1..] == a[1..] + b;
      if v.Dict? && a[0] in v.fields {
        LookupAppend(v.fields[a[0]], a[1..], b);
      }
    } else {
      assert a + b == b;
    }
  }

  /** `safe_dict_get(d, *keys, default=default)`. */
  method SafeDictGet(d: Value, keys: seq<string>, default: Value) returns (r: Value)
    ensures r == Lookup(d, keys).GetOr(default)
  {
    var current := d;
    var i := 0;
    while i < |keys|
      invariant 0 <= i <= |keys| && Lookup(d, keys[..i]) == Some(current)
    {
      LookupAppend(d, keys[..i], [keys[i]]);
      assert keys[..i] + [keys[i]] == keys[..i + 1];
      if current.Dict? && keys[i] in current.fields {
        current := current.fields[keys[i]];
      } else {
        LookupAppend(d, keys[..i + 1], keys[i + 1..]);
        assert keys[..i + 1] + keys[i + 1..] == keys;
        return default;
      }
      i := i + 1;
    }
    assert keys[..i] == keys;
    r := current;
  }
}
