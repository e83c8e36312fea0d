/** The health endpoints: what they answer in any state, and over whole runs of the serving program. */
module Health {
  import opened Wrappers
  import opened Cel
  import opened Sentinel
  import Runs

  const OK := 200
  const UNAVAILABLE := 503
  const INTERNAL_ERROR := 500

  /** A check that is asked on each request; an answer is the error text, if the check fails. */
  class ReadinessChecker<Check(==)> {
    var checks: map<string, Check>
    var ready: bool

    constructor ()
      ensures checks == map[] && !ready
    {
      checks, ready := map[], false;
    }

    method AddCheck(name: string, check: Check)
      modifies this
      ensures checks == old(checks)[name := check] && ready == old(ready)
    {
      checks := checks[name := check];
    }

    method SetReady(value: bool)
      modifies this
      ensures ready == value && checks == old(checks)
    {
      ready := value;
    }

    method RunChecks(answer: Check -> Option<string>) returns (results: map<string, string>)
      ensures results.Keys == checks.Keys
      ensures forall name :: name in checks ==> results[name] == ResultText(answer(checks[name]))
    {
      results := map[];
      var remaining := checks.Keys;
      while remaining != {}
        invariant remaining <= checks.Keys && results.Keys == checks.Keys - remaining
        invariant forall name :: name in results ==> results[name] == ResultText(answer(checks[name]))
        decreases |remaining|
      {
        var name :| name in remaining;
        match answer(checks[name]) {
          case Some(text) => results := results[name := text];
          case None => results := results[name := "ok"];
        }
        remaining := remaining - {name};
      }
    }

    /** A failing check whose error text is `ok` passes for one that succeeds. */
    method Readyz(answer: Check -> Option<string>) returns (status: int, results: map<string, string>)
      ensures status == OK || status == UNAVAILABLE
      ensures status == OK <==> Ready(ready, checks, answer)
      ensures results.Keys == checks.Keys
      ensures forall name :: name in checks ==>
                results[name] == if ready then ResultText(answer(checks[name])) else "unavailable"
    {
      if !ready {
        results := map name | name in checks :: "unavailable";
        return UNAVAILABLE, results;
      }
      results := RunChecks(answer);
      var allOK := true;
      var remaining := results.Keys;
      while remaining != {}
        invariant remaining <= results.Keys
        invariant allOK ==> forall name :: name in results && name !in remaining ==> results[name] == "ok"
        decreases |remaining|
      {
        var name :| name in remaining;
        if results[name] != "ok" {
          allOK := false;
          assert ResultText(answer(checks[name])) != "ok";
          break;
        }
        remaining := remaining - {name};
      }
      return if allOK then OK else UNAVAILABLE, results;
    }
  }

  function ResultText(answer: Option<string>): string
  {
    match answer
    case Some(text) => text
    case None => "ok"
  }

  ghost predicate Ready<Check>(ready: bool, checks: map<string, Check>, answer: Check -> Option<string>)
  {
    ready && forall name :: name in checks ==> ResultText(answer(checks[name])) == "ok"
  }

  /******* Liveness *******/

  /** `time.Time.Sub` does not overflow: it stops at the ends of the duration range. */
  function Since(now: int, t: int): int
  {
    if now - t > MAX_INT64 then MAX_INT64 else if now - t < MIN_INT64 then MIN_INT64 else now - t
  }

  function Wrap64(x: int): int
  {
    (x - MIN_INT64) % 0x1_0000_0000_0000_0000 + MIN_INT64
  }

  /** `lastPoll` is what the poll-time function returns, if there is such a function. */
  function Healthz(lastPoll: Option<int>, threshold: int, now: int): int
  {
    if lastPoll.None? || threshold <= 0 then INTERNAL_ERROR
    else if lastPoll.value == ZERO_TIME then OK
    else if Since(now, lastPoll.value) > threshold then UNAVAILABLE
    else OK
  }

  /******* The serving program *******/

  /** The two checks that are wired in before the servers start. */
  datatype Wired = BrokerHealth | FirstPoll

  function WiredChecks(): map<string, Wired>
  {
    map["broker" := BrokerHealth, "sentinel_poll" := FirstPoll]
  }

  function WiredAnswer(broker: Option<string>, lastPoll: int): Wired -> Option<string>
  {
    (c: Wired) =>
      match c
      case BrokerHealth => broker
      case FirstPoll => if lastPoll == ZERO_TIME then Some("no successful poll completed yet") else None
  }

  datatype SystemEvent = Poll(cycle: Cycle) | Shutdown

  /** The program from the moment it serves: polls finish, and shutdown clears the ready flag for good. */
  datatype System = System(state: State, ready: bool)

  function Serve(s: Setup, events: seq<SystemEvent>): System
  {
    if events == [] then System(INITIAL, true)
    else
      var sys := Serve(s, events[..|events| - 1]);
      match events[|events| - 1]
      case Poll(cycle) => sys.(state := AfterCycle(s, sys.state, cycle))
      case Shutdown => sys.(ready := false)
  }

  function Cycles(events: seq<SystemEvent>): seq<Cycle>
  {
    if events == [] then []
    else Cycles(events[..|events| - 1]) + match events[|events| - 1] case Poll(c) => [c] case Shutdown => []
  }

  lemma {:induction false} ServeIsRun(s: Setup, events: seq<SystemEvent>)
    ensures Serve(s, events).state == Run(s, INITIAL, Cycles(events))
  {
    if events != [] {
      var n := |events| - 1;
      ServeIsRun(s, events[..n]);
      if events[n].Poll? {
        RunSnoc(s, INITIAL, Cycles(events[..n]), events[n].cycle);
      } else {
        assert Cycles(events) == Cycles(events[..n]);
      }
    }
  }

  lemma {:induction false} ReadyUntilShutdown(s: Setup, events: seq<SystemEvent>)
    ensures Serve(s, events).ready <==> Shutdown !in events
  {
    if events != [] {
      var n := |events| - 1;
      ReadyUntilShutdown(s, events[..n]);
      assert Shutdown in events <==> Shutdown in events[..n] || events[n] == Shutdown by {
        assert events == events[..n] + [events[n]];
      }
    }
  }

  /** The wiring of the serve command. */
  method Wire() returns (r: ReadinessChecker<Wired>)
    ensures fresh(r) && r.ready && r.checks == WiredChecks()
  {
    r := new ReadinessChecker<Wired>();
    r.AddCheck("broker", BrokerHealth);
    r.SetReady(true);
    r.AddCheck("sentinel_poll", FirstPoll);
  }

  /** In every reachable state /readyz is 200 exactly when some poll has succeeded, shutdown has not begun
      and the broker check passes (or fails with the text `ok`). */
  lemma ReadyOverRuns(s: Setup, events: seq<SystemEvent>, broker: Option<string>)
    requires forall c :: c in Cycles(events) && c.Fetched? ==> c.finished > ZERO_TIME
    ensures var sys := Serve(s, events);
            Ready(sys.ready, WiredChecks(), WiredAnswer(broker, sys.state.lastPoll)) <==>
            && Shutdown !in events
            && Runs.Succeeded(Cycles(events))
            && broker in {None, Some("ok")}
  {
    ServeIsRun(s, events);
    ReadyUntilShutdown(s, events);
    Runs.PolledIffSucceeded(s, Cycles(events));
    var sys := Serve(s, events);
    var answer := WiredAnswer(broker, sys.state.lastPoll);
    var checks := WiredChecks();
    assert |"broker"| == 6 && |"sentinel_poll"| == 13;
    assert checks.Keys == {"broker", "sentinel_poll"};
    assert checks["broker"] == BrokerHealth && checks["sentinel_poll"] == FirstPoll;
    assert |"no successful poll completed yet"| == 32;
    assert Ready(sys.ready, checks, answer) <==>
           sys.ready && ResultText(answer(BrokerHealth)) == "ok" && ResultText(answer(FirstPoll)) == "ok";
  }

  lemma HealthzSince(lastPoll: int, interval: int, now: int)
    requires 0 < interval && 3 * interval < MAX_INT64 && lastPoll != ZERO_TIME
    ensures var status := Healthz(Some(lastPoll), Wrap64(3 * interval), now);
            && (status == UNAVAILABLE <==> now - lastPoll > 3 * interval)
            && (status == OK <==> now - lastPoll <= 3 * interval)
  {
    assert Wrap64(3 * interval) == 3 * interval;
  }

  /** With a poll interval that triples without overflow, /healthz is 503 exactly when a poll has succeeded
      and the latest success is older than three intervals; it is never 500. */
  lemma HealthOverRuns(s: Setup, cycles: seq<Cycle>, i: nat, interval: int, now: int)
    requires 0 < interval && 3 * interval < MAX_INT64 && s.resourceType != ""
    requires i < |cycles| && cycles[i].Fetched? && cycles[i].finished > ZERO_TIME
    requires forall j :: i < j < |cycles| ==> cycles[j].FetchFailed?
    ensures var status := Healthz(Some(Run(s, INITIAL, cycles).lastPoll), Wrap64(3 * interval), now);
            && (status == UNAVAILABLE <==> now - cycles[i].finished > 3 * interval)
            && (status == OK <==> now - cycles[i].finished <= 3 * interval)
  {
    Runs.LatestSuccessShows(s, INITIAL, cycles, i);
    HealthzSince(cycles[i].finished, interval, now);
  }

  /** Before any poll has succeeded /healthz is 200. */
  lemma HealthyBeforeFirstPoll(s: Setup, cycles: seq<Cycle>, interval: int, now: int)
    requires 0 < interval && 3 * interval < MAX_INT64
    requires forall c :: c in cycles ==> c.FetchFailed?
    ensures Healthz(Some(Run(s, INITIAL, cycles).lastPoll), Wrap64(3 * interval), now) == OK
  {
    Runs.PolledIffSucceeded(s, cycles);
    assert Wrap64(3 * interval) == 3 * interval;
  }

  /** An interval whose triple wraps to a negative duration makes /healthz answer 500 for ever. */
  lemma WrappedThresholdIsInvalid(lastPoll: Option<int>, interval: int, now: int)
    requires 0 < interval <= MAX_INT64
    ensures Healthz(lastPoll, Wrap64(3 * interval), now) == INTERNAL_ERROR <==>
            lastPoll.None? || (MAX_INT64 < 3 * interval <= 0x1_0000_0000_0000_0000)
  {
  }
}
