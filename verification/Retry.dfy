/** Fetching with retries: which replies are retried, and how many attempts a fetch can make.

    The driver is taken as documented: it stops on success, on an error marked permanent, on cancellation,
    and when the time already spent plus the next wait exceeds the limit. */
module Retry {
  import opened Wrappers

  const MILLISECOND := 1_000_000
  const INITIAL_INTERVAL := 500 * MILLISECOND
  const MAX_INTERVAL := 8000 * MILLISECOND
  const MAX_ELAPSED := 30000 * MILLISECOND

  /******* Replies and errors *******/

  /** What one call to the API brings: no response at all, or a response with its status, if it carries
      one, and whether a 200 body was decoded. */
  datatype Reply = NoResponse(timeout: bool) | Response(status: Option<int>, decoded: bool)

  datatype FetchError = APIError(statusCode: int, message: string, retriable: bool) | OtherError(text: string)

  predicate IsRetriable(e: FetchError)
  {
    e.APIError? && e.retriable
  }

  predicate IsHTTPStatusRetriable(status: int)
  {
    if status >= 500 && status < 600 then true
    else if status == 429 then true
    else if status == 408 then true
    else false
  }

  function Classify(reply: Reply): Option<FetchError>
  {
    match reply
    case NoResponse(timeout) => Some(APIError(0, if timeout then "request timeout" else "network error", true))
    case Response(status, decoded) =>
      if status.Some? && status.value >= 400 then
        Some(APIError(status.value, "API request failed", IsHTTPStatusRetriable(status.value)))
      else if !decoded then Some(APIError(0, "received nil response from API", false))
      else None
  }

  /** The status of a failed request; 0 if the reply carries no such status. */
  function FailedStatus(reply: Reply): int
  {
    if reply.Response? && reply.status.Some? && reply.status.value >= 400 then reply.status.value else 0
  }

  /** A decoded body, and no status of a failed request. */
  predicate Delivers(reply: Reply)
  {
    reply.Response? && reply.decoded && FailedStatus(reply) == 0
  }

  /** No response, a 5xx, a 429 or a 408. */
  predicate WorthRetrying(reply: Reply)
  {
    reply.NoResponse? || FailedStatus(reply) in {408, 429} || 500 <= FailedStatus(reply) <= 599
  }

  /** A reply is a success exactly when it delivers; every other reply is an API error that carries the status
      of the failed request. A request that timed out is told apart from one that failed otherwise. */
  lemma ReplyMeans(reply: Reply)
    ensures Classify(reply).None? <==> Delivers(reply)
    ensures Classify(reply).Some? ==>
              var e := Classify(reply).value;
              && e.APIError? && e.statusCode == FailedStatus(reply)
              && (e.retriable <==> WorthRetrying(reply))
              && (e.message == "request timeout" <==> reply == NoResponse(true))
  {
    assert |"request timeout"| == 15 && |"network error"| == 13 && |"API request failed"| == 18;
    assert |"received nil response from API"| == 30;
  }

  /** A fetch is tried again exactly after no response, a 5xx, a 429 or a 408. */
  lemma RetriedReplies(reply: Reply)
    ensures Classify(reply).Some? && IsRetriable(Classify(reply).value) <==>
            || reply.NoResponse?
            || (reply.status.Some? && (500 <= reply.status.value <= 599 || reply.status.value in {408, 429}))
  {
  }

  /******* The schedule *******/

  /** What attempt `k` of a fetch meets: how long the call takes, its reply, whether the context is
      cancelled before the next attempt, and the wait the backoff draws. */
  datatype Attempt = Attempt(took: nat, reply: Reply, cancelled: bool, wait: nat)

  type Script = nat -> Attempt

  /** How a fetch ends. After cancellation the driver reports that, not the last error. */
  datatype FetchResult = Succeeded | Failed(error: FetchError) | Cancelled

  function Ending(a: Attempt): FetchResult
  {
    match Classify(a.reply)
    case None => Succeeded
    case Some(e) => if IsRetriable(e) && a.cancelled then Cancelled else Failed(e)
  }

  function Interval(k: nat): nat
  {
    if k == 0 then INITIAL_INTERVAL
    else if 2 * Interval(k - 1) > MAX_INTERVAL then MAX_INTERVAL
    else 2 * Interval(k - 1)
  }

  /** The wait after attempt `k` is within 10% of its interval. */
  predicate WaitInBounds(script: Script, k: nat)
  {
    9 * Interval(k) <= 10 * script(k).wait <= 11 * Interval(k)
  }

  ghost predicate Jittered(script: Script)
  {
    forall k: nat :: WaitInBounds(script, k)
  }

  /** Time since the start when attempt `k` begins, had all attempts before it been followed by another. */
  function Elapsed(script: Script, k: nat): nat
  {
    if k == 0 then 0 else Elapsed(script, k - 1) + script(k - 1).took + script(k - 1).wait
  }

  /** Attempt `k` fails in a way that calls for another, and there is time for it. */
  predicate Continues(script: Script, k: nat)
  {
    && Classify(script(k).reply).Some? && IsRetriable(Classify(script(k).reply).value)
    && !script(k).cancelled
    && Elapsed(script, k + 1) <= MAX_ELAPSED
  }

  /** An attempt is followed by another exactly if its reply is worth retrying, the fetch is not cancelled, and
      the time spent, the next wait included, is within the limit. */
  lemma ContinuesIff(script: Script, k: nat)
    ensures Continues(script, k) <==>
            && WorthRetrying(script(k).reply) && !script(k).cancelled
            && Elapsed(script, k) + script(k).took + script(k).wait <= 30 * 1000 * MILLISECOND
  {
    ReplyMeans(script(k).reply);
    assert Elapsed(script, k + 1) == Elapsed(script, k) + script(k).took + script(k).wait;
  }

  /** How a fetch ends, in terms of the reply to its last attempt. */
  lemma EndingMeans(a: Attempt)
    ensures Ending(a) == Succeeded <==> Delivers(a.reply)
    ensures Ending(a) == Cancelled <==> WorthRetrying(a.reply) && a.cancelled
    ensures Ending(a).Failed? ==>
              var e := Ending(a).error;
              && e.APIError? && e.statusCode == FailedStatus(a.reply)
              && (e.retriable <==> WorthRetrying(a.reply))
  {
    ReplyMeans(a.reply);
  }

  lemma Intervals()
    ensures Interval(0) == 500 * MILLISECOND && Interval(1) == 1000 * MILLISECOND && Interval(2) == 2000 * MILLISECOND
    ensures Interval(3) == 4000 * MILLISECOND && Interval(4) == 8000 * MILLISECOND && Interval(5) == 8000 * MILLISECOND
    ensures Interval(6) == 8000 * MILLISECOND && Interval(7) == 8000 * MILLISECOND
  {
    assert Interval(2) == 2000 * MILLISECOND;
    assert Interval(4) == 8000 * MILLISECOND;
    assert Interval(6) == 8000 * MILLISECOND;
  }

  lemma ElapsedAfterEight(script: Script)
    requires Jittered(script)
    ensures Elapsed(script, 8) > MAX_ELAPSED
  {
    Intervals();
    assert WaitInBounds(script, 0) && WaitInBounds(script, 1);
    assert 10 * Elapsed(script, 2) >= 9 * (Interval(0) + Interval(1));
    assert WaitInBounds(script, 2) && WaitInBounds(script, 3);
    assert 10 * Elapsed(script, 4) >= 9 * (Interval(0) + Interval(1) + Interval(2) + Interval(3));
    assert WaitInBounds(script, 4) && WaitInBounds(script, 5);
    assert 10 * Elapsed(script, 6) >= 9 * 23500 * MILLISECOND;
    assert WaitInBounds(script, 6) && WaitInBounds(script, 7);
    assert 10 * Elapsed(script, 8) >= 9 * 39500 * MILLISECOND;
  }

  /** Whatever the jitter and however long the calls take, the eighth attempt is never followed by another. */
  lemma EighthIsLast(script: Script)
    requires Jittered(script)
    ensures !Continues(script, 7)
  {
    ElapsedAfterEight(script);
  }

  /** The shortest waits against a server that always answers 503 at once. */
  function Fastest(): Script
  {
    (k: nat) => Attempt(0, Response(Some(503), false), false, 9 * (Interval(k) / 10))
  }

  lemma FastestElapsed()
    ensures forall k: nat :: k <= 7 ==> Elapsed(Fastest(), k) <= Elapsed(Fastest(), 7)
    ensures Elapsed(Fastest(), 7) == 28350 * MILLISECOND
  {
    var f := Fastest();
    Intervals();
    assert Elapsed(f, 1) == 450 * MILLISECOND && Elapsed(f, 2) == 1350 * MILLISECOND;
    assert Elapsed(f, 3) == 3150 * MILLISECOND && Elapsed(f, 4) == 6750 * MILLISECOND;
    assert Elapsed(f, 5) == 13950 * MILLISECOND && Elapsed(f, 6) == 21150 * MILLISECOND;
  }

  lemma FastestIsJittered()
    ensures Jittered(Fastest())
  {
    forall j: nat
      ensures WaitInBounds(Fastest(), j)
    {
      IntervalIsRound(j);
    }
  }

  /** Eight attempts do happen: the bound cannot be lowered. */
  lemma EightIsReached(k: nat)
    requires k < 7
    ensures Jittered(Fastest()) && Continues(Fastest(), k)
  {
    FastestIsJittered();
    FastestElapsed();
    assert Elapsed(Fastest(), k + 1) <= MAX_ELAPSED;
  }

  lemma {:induction false} IntervalIsRound(k: nat)
    ensures exists n: nat :: Interval(k) == 10 * n
  {
    if k == 0 {
      assert Interval(k) == 10 * (50 * MILLISECOND);
    } else {
      IntervalIsRound(k - 1);
      var n: nat :| Interval(k - 1) == 10 * n;
      assert 2 * Interval(k - 1) == 10 * (2 * n);
      assert MAX_INTERVAL == 10 * (800 * MILLISECOND);
    }
  }

  /** A fetch: attempts follow each other for as long as they call for another, at most eight of them, and
      the reply to the last one decides how it ends. */
  method FetchWithRetry(script: Script) returns (result: FetchResult, tries: nat)
    requires Jittered(script)
    ensures 1 <= tries <= 8
    ensures forall k: nat :: k < tries - 1 ==> Continues(script, k)
    ensures !Continues(script, tries - 1)
    ensures var last := script(tries - 1);
            && (result.Succeeded? <==> Delivers(last.reply))
            && (result.Cancelled? <==> WorthRetrying(last.reply) && last.cancelled)
            && (result.Failed? ==>
                  && result.error.APIError? && result.error.statusCode == FailedStatus(last.reply)
                  && (result.error.retriable <==> WorthRetrying(last.reply)))
            && result == Ending(last)
  {
    var elapsed := 0;
    tries := 0;
    while true
      invariant elapsed == Elapsed(script, tries)
      invariant forall k: nat :: k < tries ==> Continues(script, k)
      invariant tries <= 7
      decreases 7 - tries
    {
      var a := script(tries);
      var error := Classify(a.reply);
      EndingMeans(a);
      tries := tries + 1;
      elapsed := elapsed + a.took;
      if error.None? {
        return Succeeded, tries;
      }
      if !IsRetriable(error.value) {
        return Failed(error.value), tries;
      }
      if a.cancelled {
        return Cancelled, tries;
      }
      if elapsed + a.wait > MAX_ELAPSED {
        return Failed(error.value), tries;
      }
      elapsed := elapsed + a.wait;
      assert Continues(script, tries - 1);
      EighthIsLast(script);
    }
  }
}
