/** The integer counters of `PERFORMANCE_METRICS` (config.py and the
    historical app.py) and of `REQUEST_STATS` (appV1.py, which keeps only the
    three request counters), and the `log_requests` middleware that updates
    them around every request. */
module Metrics {

  datatype Counters = Counters(
    totalRequests: nat,
    successfulRequests: nat,
    failedRequests: nat,
    cacheHits: nat,
    cacheMisses: nat,
    streamRequests: nat,
    parallelRequests: nat,
    totalAudioSize: nat)

  const Zero := Counters(0, 0, 0, 0, 0, 0, 0, 0)

  /** How the route handler behind the middleware ended: with a response
      (an `HTTPException` is turned into one before the middleware sees it)
      or with an exception that escapes. */
  datatype HandlerOutcome = Responded(status: int) | Escaped

  /** The counters after one request through app.py's middleware, which
      counts an escaping exception as a failure. */
  function Logged(c: Counters, outcome: HandlerOutcome): (r: Counters)
  {
    var c := c.(totalRequests := c.totalRequests + 1);
    match outcome
    case Responded(status) =>
      if status < 400 then c.(successfulRequests := c.successfulRequests + 1)
      else c.(failedRequests := c.failedRequests + 1)
    case Escaped => c.(failedRequests := c.failedRequests + 1)
  }

  /** The counters after one request through the middleware of the
      historical app.py and of appV1.py, which has no `try`: an escaping
      exception leaves only `total_requests` counted. */
  function LoggedNoTry(c: Counters, outcome: HandlerOutcome): (r: Counters)
  {
    var c := c.(totalRequests := c.totalRequests + 1);
    match outcome
    case Responded(status) =>
      if status < 400 then c.(successfulRequests := c.successfulRequests + 1)
      else c.(failedRequests := c.failedRequests + 1)
    case Escaped => c
  }

  /** Every counted request was counted once as a success or a failure. */
  predicate Balanced(c: Counters)
  {
    c.totalRequests == c.successfulRequests + c.failedRequests
  }

  /** app.py's middleware keeps the request counters balanced whatever the
      handler does; a success is exactly a status below 400. */
  lemma LoggedKeepsBalance(c: Counters, outcome: HandlerOutcome)
    requires Balanced(c)
    ensures Balanced(Logged(c, outcome))
    ensures Logged(c, outcome).successfulRequests == c.successfulRequests + 1
      <==> outcome.Responded? && outcome.status < 400
    ensures Logged(c, outcome).(totalRequests := c.totalRequests,
                                successfulRequests := c.successfulRequests,
                                failedRequests := c.failedRequests) == c
  {
  }

  /** Without the `try`, a response is still counted exactly once, but an
      escaping exception opens a gap between `total_requests` and the sum of
      the other two. */
  lemma LoggedNoTryCounts(c: Counters, outcome: HandlerOutcome)
    ensures LoggedNoTry(c, outcome).totalRequests == c.totalRequests + 1
    ensures outcome.Responded? ==> LoggedNoTry(c, outcome) == Logged(c, outcome)
    ensures outcome.Escaped? && Balanced(c) ==> !Balanced(LoggedNoTry(c, outcome))
    ensures LoggedNoTry(c, outcome).successfulRequests + LoggedNoTry(c, outcome).failedRequests
      == c.successfulRequests + c.failedRequests + (if outcome.Responded? then 1 else 0)
  {
  }

  /** The counters, updated in place. */
  class PerformanceMetrics {
    var counts: Counters

    constructor ()
      ensures counts == Zero
    {
      counts := Zero;
    }

    /** app.py's `log_requests`: `total_requests` first, then a success for a
        status below 400 and a failure otherwise, or a failure when the
        handler raises (the exception is re-raised unchanged). */
    method LogRequest(outcome: HandlerOutcome) returns (passed: HandlerOutcome)
      modifies this
      ensures passed == outcome
      ensures counts == Logged(old(counts), outcome)
    {
      counts := counts.(totalRequests := counts.totalRequests + 1);
      match outcome {
        case Responded(status) =>
          if status < 400 {
            counts := counts.(successfulRequests := counts.successfulRequests + 1);
          } else {
            counts := counts.(failedRequests := counts.failedRequests + 1);
          }
        case Escaped =>
          counts := counts.(failedRequests := counts.failedRequests + 1);
      }
      passed := outcome;
    }

    /** `log_requests` of the historical app.py and of appV1.py: when the
        handler raises, the exception leaves before the status is looked at. */
    method LogRequestNoTry(outcome: HandlerOutcome) returns (passed: HandlerOutcome)
      modifies this
      ensures passed == outcome
      ensures counts == LoggedNoTry(old(counts), outcome)
    {
      counts := counts.(totalRequests := counts.totalRequests + 1);
      if outcome.Responded? {
        if outcome.status < 400 {
          counts := counts.(successfulRequests := counts.successfulRequests + 1);
        } else {
          counts := counts.(failedRequests := counts.failedRequests + 1);
        }
      }
      passed := outcome;
    }

    /** `cache_hits += 1`, in the body of the memoised function. */
    method CountCacheHit()
      modifies this
      ensures counts == old(counts).(cacheHits := old(counts).cacheHits + 1)
    {
      counts := counts.(cacheHits := counts.cacheHits + 1);
    }

    /** `cache_misses += 1`, in `get_segment_audio`. */
    method CountCacheMiss()
      modifies this
      ensures counts == old(counts).(cacheMisses := old(counts).cacheMisses + 1)
    {
      counts := counts.(cacheMisses := counts.cacheMisses + 1);
    }

    /** `create_speech`'s updates: a streamed request, a multi-segment
        request, and the size of a buffered body. */
    method CountRequestShape(stream: bool, segments: nat)
      modifies this
      ensures counts == old(counts).(
        streamRequests := old(counts).streamRequests + (if stream then 1 else 0),
        parallelRequests := old(counts).parallelRequests + (if segments > 1 then 1 else 0))
    {
      if stream {
        counts := counts.(streamRequests := counts.streamRequests + 1);
      }
      if segments > 1 {
        counts := counts.(parallelRequests := counts.parallelRequests + 1);
      }
    }

    method CountAudio(size: nat)
      modifies this
      ensures counts == old(counts).(totalAudioSize := old(counts).totalAudioSize + size)
    {
      counts := counts.(totalAudioSize := counts.totalAudioSize + size);
    }
  }
}
