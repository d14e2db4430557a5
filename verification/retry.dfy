/**
 The bounded retry loop. The unit of work `fn` is an oracle: `fn(k)` is what
 the k-th invocation (counting from 0) returns or that it throws. A run
 records the result together with a trace of invocations and sleeps, so the
 number of calls and the waits between them can be stated exactly.
 */
module RetryEngine {
  import opened JsValue
  import opened Errors

  const DefaultMaxRetries: int := 5
  const DefaultInterval: int := 1000

  /** What one invocation of `fn` did. `Threw` is a rejection with an
      `Error` object, whose `message` the catch block can log. */
  datatype Attempt = Returned(value: Json) | Threw

  /** An attempt that ends the loop: it returned a truthy value. A falsy value
      and a throw are both misses. */
  predicate Hit(a: Attempt) {
    a.Returned? && Truthy(a.value)
  }

  /** Observable steps of a run: the k-th call of `fn`, or a wait of `ms`. */
  datatype Event = Invoke(attempt: nat) | Sleep(ms: int)

  datatype Run = Run(result: Result<Json>, trace: seq<Event>)

  /** The loop from `attempt` on; `Retry` starts it at 0. */
  function RetryFrom(fn: nat -> Attempt, maxRetries: int, interval: int, attempt: nat): (r: Run)
    ensures r.result.Err? ==> r.result.error == RetriesExhausted(maxRetries)
    ensures attempt < maxRetries ==> 0 < |r.trace| < 2 * (maxRetries - attempt)
    ensures maxRetries <= attempt ==> r.trace == []
    decreases maxRetries - attempt
  {
    if attempt >= maxRetries then
      Run(Err(RetriesExhausted(maxRetries)), [])
    else
      var outcome := fn(attempt);
      if Hit(outcome) then
        Run(Ok(outcome.value), [Invoke(attempt)])
      else
        var rest := RetryFrom(fn, maxRetries, interval, attempt + 1);
        var pause := if attempt + 1 < maxRetries then [Sleep(interval)] else [];
        Run(rest.result, [Invoke(attempt)] + pause + rest.trace)
  }

  /** `retry({ fn, maxRetries, interval })`: the loop started with
      `attempt = 0`. With no attempts allowed it throws without calling `fn`;
      otherwise its first step is the call numbered 0. */
  function Retry(fn: nat -> Attempt, maxRetries: int, interval: int): (r: Run)
    ensures maxRetries <= 0 ==> r == Run(Err(RetriesExhausted(maxRetries)), [])
    ensures maxRetries > 0 ==> |r.trace| > 0 && r.trace[0] == Invoke(0)
  {
    RetryFrom(fn, maxRetries, interval, 0)
  }

  /** `k` is the first attempt within the budget that hits. */
  ghost predicate FirstHit(fn: nat -> Attempt, maxRetries: int, k: nat) {
    && k < maxRetries
    && Hit(fn(k))
    && forall j: nat :: j < k ==> !Hit(fn(j))
  }

  /** No attempt within the budget hits. */
  ghost predicate NoHit(fn: nat -> Attempt, maxRetries: int) {
    forall j: nat :: j < maxRetries ==> !Hit(fn(j))
  }

  /** `trace` is `count` invocations numbered from `first`, with exactly one
      sleep of `interval` between consecutive invocations and none after the
      last. */
  ghost predicate Spaced(trace: seq<Event>, first: nat, count: nat, interval: int) {
    && |trace| == (if count == 0 then 0 else 2 * count - 1)
    && forall i :: 0 <= i < |trace| ==>
         trace[i] == (if i % 2 == 0 then Invoke(first + i / 2) else Sleep(interval))
  }

  function Invocations(trace: seq<Event>): nat {
    if |trace| == 0 then 0
    else (if trace[0].Invoke? then 1 else 0) + Invocations(trace[1..])
  }

  function Sleeps(trace: seq<Event>): nat {
    if |trace| == 0 then 0
    else (if trace[0].Sleep? then 1 else 0) + Sleeps(trace[1..])
  }

  /** Sum of all waits, in milliseconds. */
  function TotalDelay(trace: seq<Event>): int {
    if |trace| == 0 then 0
    else (if trace[0].Sleep? then trace[0].ms else 0) + TotalDelay(trace[1..])
  }

  lemma SpacedPrepend(rest: seq<Event>, first: nat, count: nat, interval: int)
    requires count >= 1
    requires Spaced(rest, first + 1, count, interval)
    ensures Spaced([Invoke(first), Sleep(interval)] + rest, first, count + 1, interval)
  {
    var t := [Invoke(first), Sleep(interval)] + rest;
    forall i | 2 <= i < |t|
      ensures t[i] == (if i % 2 == 0 then Invoke(first + i / 2) else Sleep(interval))
    {
      assert t[i] == rest[i - 2];
      assert (i - 2) % 2 == i % 2;
      assert first + 1 + (i - 2) / 2 == first + i / 2;
    }
  }

  /** The counts a spaced trace implies: `count` calls, `count - 1` waits. */
  lemma {:induction false} SpacedCounts(trace: seq<Event>, first: nat, count: nat, interval: int)
    requires Spaced(trace, first, count, interval)
    ensures Invocations(trace) == count
    ensures Sleeps(trace) == (if count == 0 then 0 else count - 1)
    ensures TotalDelay(trace) == interval * Sleeps(trace)
    decreases count
  {
    if count <= 1 {
      if count == 1 {
        assert trace[0] == Invoke(first);
        assert trace[1..] == [];
      }
    } else {
      var tail := trace[2..];
      assert trace[1] == Sleep(interval);
      assert trace[1..][1..] == tail;
      forall i | 0 <= i < |tail|
        ensures tail[i] == (if i % 2 == 0 then Invoke(first + 1 + i / 2) else Sleep(interval))
      {
        assert tail[i] == trace[i + 2];
        assert (i + 2) % 2 == i % 2;
        assert first + (i + 2) / 2 == first + 1 + i / 2;
      }
      SpacedCounts(tail, first + 1, count - 1, interval);
    }
  }

  /** From `attempt` on, the loop stops at the first hit `k`, having called
      `fn` for attempts `attempt..k` with one wait between consecutive calls. */
  lemma {:induction false} RetryFromStopsAtHit(fn: nat -> Attempt, maxRetries: int, interval: int, attempt: nat, k: nat)
    requires attempt <= k < maxRetries
    requires Hit(fn(k))
    requires forall j: nat :: attempt <= j < k ==> !Hit(fn(j))
    ensures RetryFrom(fn, maxRetries, interval, attempt).result == Ok(fn(k).value)
    ensures Spaced(RetryFrom(fn, maxRetries, interval, attempt).trace, attempt, k - attempt + 1, interval)
    decreases k - attempt
  {
    if attempt < k {
      assert !Hit(fn(attempt));
      RetryFromStopsAtHit(fn, maxRetries, interval, attempt + 1, k);
      var rest := RetryFrom(fn, maxRetries, interval, attempt + 1);
      assert RetryFrom(fn, maxRetries, interval, attempt).trace
          == [Invoke(attempt), Sleep(interval)] + rest.trace;
      SpacedPrepend(rest.trace, attempt, k - attempt, interval);
    }
  }

  /** From `attempt` on, with no hit before the budget ends, the loop makes
      every remaining call and throws. */
  lemma {:induction false} RetryFromExhausts(fn: nat -> Attempt, maxRetries: int, interval: int, attempt: nat)
    requires forall j: nat :: attempt <= j < maxRetries ==> !Hit(fn(j))
    ensures RetryFrom(fn, maxRetries, interval, attempt).result == Err(RetriesExhausted(maxRetries))
    ensures Spaced(RetryFrom(fn, maxRetries, interval, attempt).trace, attempt,
                   if attempt < maxRetries then maxRetries - attempt else 0, interval)
    decreases maxRetries - attempt
  {
    if attempt < maxRetries {
      assert !Hit(fn(attempt));
      RetryFromExhausts(fn, maxRetries, interval, attempt + 1);
      var rest := RetryFrom(fn, maxRetries, interval, attempt + 1);
      if attempt + 1 < maxRetries {
        assert RetryFrom(fn, maxRetries, interval, attempt).trace
            == [Invoke(attempt), Sleep(interval)] + rest.trace;
        SpacedPrepend(rest.trace, attempt, maxRetries - attempt - 1, interval);
      } else {
        assert RetryFrom(fn, maxRetries, interval, attempt).trace == [Invoke(attempt)];
      }
    }
  }

  /** A successful run from `attempt` returns the value of a hit, and every
      earlier attempt in the run missed. */
  lemma {:induction false} RetryFromOkIsHit(fn: nat -> Attempt, maxRetries: int, interval: int, attempt: nat)
    requires RetryFrom(fn, maxRetries, interval, attempt).result.Ok?
    ensures exists k: nat ::
      && attempt <= k < maxRetries
      && Hit(fn(k))
      && (forall j: nat :: attempt <= j < k ==> !Hit(fn(j)))
      && RetryFrom(fn, maxRetries, interval, attempt).result.value == fn(k).value
    decreases maxRetries - attempt
  {
    if !Hit(fn(attempt)) {
      RetryFromOkIsHit(fn, maxRetries, interval, attempt + 1);
      var k: nat :| && attempt + 1 <= k < maxRetries
                    && Hit(fn(k))
                    && (forall j: nat :: attempt + 1 <= j < k ==> !Hit(fn(j)))
                    && RetryFrom(fn, maxRetries, interval, attempt + 1).result.value == fn(k).value;
      assert forall j: nat :: attempt <= j < k ==> !Hit(fn(j));
    }
  }

  /** Any hit within the budget means there is a first one. */
  lemma {:induction false} FirstHitExists(fn: nat -> Attempt, maxRetries: int, k: nat)
    requires k < maxRetries && Hit(fn(k))
    ensures exists f: nat :: FirstHit(fn, maxRetries, f)
    decreases k
  {
    if exists j: nat :: j < k && Hit(fn(j)) {
      var j: nat :| j < k && Hit(fn(j));
      FirstHitExists(fn, maxRetries, j);
    } else {
      assert FirstHit(fn, maxRetries, k);
    }
  }

  /** If attempt `k` is the first to return a truthy value, `retry` returns
      exactly that value after `k + 1` calls and `k` waits of `interval`. */
  lemma RetryReturnsFirstHit(fn: nat -> Attempt, maxRetries: int, interval: int, k: nat)
    requires FirstHit(fn, maxRetries, k)
    ensures Retry(fn, maxRetries, interval).result == Ok(fn(k).value)
    ensures Spaced(Retry(fn, maxRetries, interval).trace, 0, k + 1, interval)
    ensures Invocations(Retry(fn, maxRetries, interval).trace) == k + 1
    ensures Sleeps(Retry(fn, maxRetries, interval).trace) == k
    ensures TotalDelay(Retry(fn, maxRetries, interval).trace) == interval * k
  {
    RetryFromStopsAtHit(fn, maxRetries, interval, 0, k);
    SpacedCounts(Retry(fn, maxRetries, interval).trace, 0, k + 1, interval);
  }

  /** If no attempt returns a truthy value, whether it returned a falsy one or
      threw, `retry` calls `fn` exactly `maxRetries` times (never when
      `maxRetries <= 0`), waits only between calls, and throws. */
  lemma RetryExhausts(fn: nat -> Attempt, maxRetries: int, interval: int)
    requires NoHit(fn, maxRetries)
    ensures Retry(fn, maxRetries, interval).result == Err(RetriesExhausted(maxRetries))
    ensures var calls := if maxRetries > 0 then maxRetries else 0;
      && Spaced(Retry(fn, maxRetries, interval).trace, 0, calls, interval)
      && Invocations(Retry(fn, maxRetries, interval).trace) == calls
      && Sleeps(Retry(fn, maxRetries, interval).trace) == (if calls == 0 then 0 else calls - 1)
      && TotalDelay(Retry(fn, maxRetries, interval).trace) == interval * (if calls == 0 then 0 else calls - 1)
  {
    RetryFromExhausts(fn, maxRetries, interval, 0);
    var calls := if maxRetries > 0 then maxRetries else 0;
    SpacedCounts(Retry(fn, maxRetries, interval).trace, 0, calls, interval);
  }

  /** `retry` succeeds exactly when some attempt within the budget hits, and
      then returns the value of the first hit. */
  lemma RetrySucceedsIffSomeHit(fn: nat -> Attempt, maxRetries: int, interval: int)
    ensures Retry(fn, maxRetries, interval).result.Ok?
        <==> exists k: nat :: k < maxRetries && Hit(fn(k))
    ensures Retry(fn, maxRetries, interval).result.Ok? ==>
      exists k: nat :: FirstHit(fn, maxRetries, k)
                    && Retry(fn, maxRetries, interval).result.value == fn(k).value
  {
    if Retry(fn, maxRetries, interval).result.Ok? {
      RetryFromOkIsHit(fn, maxRetries, interval, 0);
    } else if exists k: nat :: k < maxRetries && Hit(fn(k)) {
      var k: nat :| k < maxRetries && Hit(fn(k));
      FirstHitExists(fn, maxRetries, k);
      var f: nat :| FirstHit(fn, maxRetries, f);
      RetryReturnsFirstHit(fn, maxRetries, interval, f);
    }
  }

  /** Bounds that hold for every run: at most `maxRetries` calls, one wait
      fewer than calls, and a total delay of at most
      `interval * (maxRetries - 1)` when the interval is not negative. */
  lemma RetryBounds(fn: nat -> Attempt, maxRetries: int, interval: int)
    ensures var t := Retry(fn, maxRetries, interval).trace;
      && Invocations(t) <= (if maxRetries > 0 then maxRetries else 0)
      && (maxRetries > 0 ==> Invocations(t) >= 1)
      && Sleeps(t) == (if Invocations(t) == 0 then 0 else Invocations(t) - 1)
      && TotalDelay(t) == interval * Sleeps(t)
      && (interval >= 0 && maxRetries > 0 ==> TotalDelay(t) <= interval * (maxRetries - 1))
  {
    var r := Retry(fn, maxRetries, interval);
    RetrySucceedsIffSomeHit(fn, maxRetries, interval);
    if r.result.Ok? {
      var k: nat :| FirstHit(fn, maxRetries, k) && r.result.value == fn(k).value;
      RetryReturnsFirstHit(fn, maxRetries, interval, k);
      if interval >= 0 {
        ScaleMonotone(interval, k, maxRetries - 1);
      }
    } else {
      RetryExhausts(fn, maxRetries, interval);
    }
  }

  lemma ScaleMonotone(factor: int, a: int, b: int)
    requires factor >= 0 && a <= b
    ensures factor * a <= factor * b
  {
    assert factor * b - factor * a == factor * (b - a);
  }

  /** With the defaults (5 attempts, 1000 ms) a run makes at most 5 calls and
      waits at most 4000 ms in all. */
  lemma RetryDefaultBounds(fn: nat -> Attempt)
    ensures Invocations(Retry(fn, DefaultMaxRetries, DefaultInterval).trace) <= 5
    ensures TotalDelay(Retry(fn, DefaultMaxRetries, DefaultInterval).trace) <= 4000
  {
    RetryBounds(fn, DefaultMaxRetries, DefaultInterval);
  }

  /** The loop as written: an attempt counter, a `while`, an early return on
      a truthy result, and a wait only when another attempt follows. It
      computes exactly the run `Retry` describes. */
  method RetryLoop(fn: nat -> Attempt, maxRetries: int, interval: int)
    returns (result: Result<Json>, trace: seq<Event>)
    ensures Run(result, trace) == Retry(fn, maxRetries, interval)
  {
    var attempt: nat := 0;
    trace := [];
    while attempt < maxRetries
      invariant Retry(fn, maxRetries, interval).trace
             == trace + RetryFrom(fn, maxRetries, interval, attempt).trace
      invariant Retry(fn, maxRetries, interval).result
             == RetryFrom(fn, maxRetries, interval, attempt).result
      decreases maxRetries - attempt
    {
      var outcome := fn(attempt);
      trace := trace + [Invoke(attempt)];
      if outcome.Returned? && Truthy(outcome.value) {
        return Ok(outcome.value), trace;
      }
      ghost var rest := RetryFrom(fn, maxRetries, interval, attempt + 1);
      assert RetryFrom(fn, maxRetries, interval, attempt) == Run(rest.result,
        [Invoke(attempt)] + (if attempt + 1 < maxRetries then [Sleep(interval)] else []) + rest.trace);
      attempt := attempt + 1;
      if attempt < maxRetries {
        trace := trace + [Sleep(interval)];
      }
    }
    result := Err(RetriesExhausted(maxRetries));
  }
}
