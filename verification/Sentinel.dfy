/** The poll cycle: fetch, decide and publish per resource, count, and remember the last success.

    What the outside world answers is part of the input: a cycle is a failed fetch or a list of items,
    each a resource together with the answers that ID generation, encoding and the broker will give
    for it. */
module Sentinel {
  import opened Wrappers
  import opened Cel
  import opened Resources
  import opened Engine
  import Payload
  import Metrics
  import Selectors

  /******* What a cycle sees *******/

  datatype Oracle = Oracle(uuid: Option<string>, encodes: bool, accepts: bool)

  datatype Item = Item(resource: Resource, oracle: Oracle)

  datatype Cycle =
    | FetchFailed
    | Fetched(items: seq<Item>, now: int, finished: int, stamped: int)

  /** `payload` is the compiled payload definition, if the config has one. */
  datatype Setup = Setup(
    lib: Library,
    prog: Program,
    run: Payload.Runner<Value>,
    resourceType: string,
    selectors: seq<Selectors.LabelSelector>,
    topic: string,
    payload: Option<map<string, Payload.Node>>)

  datatype Event = Event(
    id: string,
    specVersion: string,
    kind: string,
    source: string,
    data: map<string, Payload.Tree<Value>>)

  datatype Message = Message(topic: string, event: Event)

  /** What the API, and then the outside world, answer to a search string in one cycle. */
  type Api = string -> Cycle

  /** The search string that every cycle sends: that of the configured selectors, with no other filter. */
  ghost function SearchOf(s: Setup): string
  {
    Selectors.SearchFor(Selectors.SelectorMap(s.selectors))
  }

  /******* One resource *******/

  datatype Outcome =
    | EmptyId
    | Skipped(reason: string)
    | IdFailed
    | EncodingFailed
    | PublishFailed
    | Published(message: Message, reason: string)

  function ToLower(s: string): string
  {
    if s == "" then ""
    else (if 'A' <= s[0] <= 'Z' then [s[0] - 'A' + 'a'] else [s[0]]) + ToLower(s[1..])
  }

  function EventData(s: Setup, r: Resource, reason: string): map<string, Payload.Tree<Value>>
  {
    match s.payload
    case None => map[]
    case Some(nodes) => Payload.Kept(s.run, r, reason, nodes)
  }

  function EventType(r: Resource): string
  {
    "com.redhat.hyperfleet." + ToLower(r.kind) + ".reconcile"
  }

  function EventFor(s: Setup, r: Resource, reason: string, id: string): Event
  {
    Event(id, "1.0", EventType(r), "hyperfleet-sentinel", EventData(s, r, reason))
  }

  /** What becomes of a resource with an ID, given the decision on it. */
  function OutcomeFrom(s: Setup, item: Item, d: Decision): Outcome
  {
    var o := item.oracle;
    if !d.shouldPublish then Skipped(d.reason)
    else if o.uuid.None? then IdFailed
    else if !o.encodes then EncodingFailed
    else if !o.accepts then PublishFailed
    else Published(Message(s.topic, EventFor(s, item.resource, d.reason, o.uuid.value)), d.reason)
  }

  function OutcomeOf(s: Setup, item: Item, now: int): Outcome
  {
    if item.resource.id == "" then EmptyId
    else OutcomeFrom(s, item, Decide(s.lib, s.prog, Some(item.resource), now))
  }

  function Outcomes(s: Setup, items: seq<Item>, now: int): (os: seq<Outcome>)
    ensures |os| == |items|
  {
    if items == [] then []
    else Outcomes(s, items[..|items| - 1], now) + [OutcomeOf(s, items[|items| - 1], now)]
  }

  /******* The state *******/

  datatype State = State(accepted: seq<Message>, metrics: Metrics.Snapshot, lastPoll: int)

  /** Nothing sent, nothing counted, no poll yet. */
  const INITIAL := State([], Metrics.ZERO, ZERO_TIME)

  function LabelOf(s: Setup): string { Metrics.SelectorLabel(s.selectors) }

  function KeyOf(s: Setup, detail: string): Metrics.Key { Metrics.Key(s.resourceType, LabelOf(s), detail) }

  function AfterOutcome(s: Setup, st: State, o: Outcome): State
  {
    var m := st.metrics;
    match o
    case Skipped(reason) => st.(metrics := m.(skipped := Metrics.Inc(m.skipped, KeyOf(s, reason))))
    case PublishFailed => st.(metrics := m.(brokerErrors := Metrics.Inc(m.brokerErrors, KeyOf(s, "publish_error"))))
    case Published(message, reason) =>
      st.(accepted := st.accepted + [message],
          metrics := m.(published := Metrics.Inc(m.published, KeyOf(s, reason))))
    case _ => st
  }

  function AfterOutcomes(s: Setup, st: State, os: seq<Outcome>): State
  {
    if os == [] then st
    else AfterOutcome(s, AfterOutcomes(s, st, os[..|os| - 1]), os[|os| - 1])
  }

  /** The state after the loop over the fetched items. */
  function AfterItems(s: Setup, st: State, items: seq<Item>, now: int): State
  {
    AfterOutcomes(s, st, Outcomes(s, items, now))
  }

  /** How many resources went which way; `refused` are the failures at the broker. */
  datatype Tally = Tally(empty: nat, skipped: nat, published: nat, failed: nat, refused: nat)

  const NOTHING := Tally(0, 0, 0, 0, 0)

  function AddOutcome(t: Tally, o: Outcome): Tally
  {
    match o
    case EmptyId => t.(empty := t.empty + 1)
    case Skipped(_) => t.(skipped := t.skipped + 1)
    case Published(_, _) => t.(published := t.published + 1)
    case PublishFailed => t.(failed := t.failed + 1, refused := t.refused + 1)
    case _ => t.(failed := t.failed + 1)
  }

  function TallyOf(os: seq<Outcome>): Tally
  {
    if os == [] then NOTHING else AddOutcome(TallyOf(os[..|os| - 1]), os[|os| - 1])
  }

  /** The resources for which an event was due, sent or not. */
  function Pending(t: Tally): nat { t.published + t.failed }

  function AfterCycle(s: Setup, st: State, c: Cycle): State
  {
    match c
    case FetchFailed =>
      st.(metrics := st.metrics.(apiErrors := Metrics.Inc(st.metrics.apiErrors, KeyOf(s, "fetch_error"))))
    case Fetched(items, now, finished, stamped) =>
      var after := AfterItems(s, st, items, now);
      var pending := Pending(ItemsTally(s, items, now));
      after.(metrics := after.metrics.(
               pending := Metrics.SetPending(after.metrics.pending, s.resourceType, LabelOf(s), pending),
               lastPoll := stamped),
             lastPoll := finished)
  }

  function Run(s: Setup, st: State, cycles: seq<Cycle>): State
  {
    if cycles == [] then st
    else
      var n := |cycles| - 1;
      AfterCycle(s, Run(s, st, cycles[..n]), cycles[n])
  }

  lemma RunSnoc(s: Setup, st: State, cycles: seq<Cycle>, c: Cycle)
    ensures Run(s, st, cycles + [c]) == AfterCycle(s, Run(s, st, cycles), c)
  {
    assert (cycles + [c])[..|cycles + [c]| - 1] == cycles;
  }

  lemma AfterSnoc(s: Setup, st: State, os: seq<Outcome>, o: Outcome)
    ensures AfterOutcomes(s, st, os + [o]) == AfterOutcome(s, AfterOutcomes(s, st, os), o)
    ensures TallyOf(os + [o]) == AddOutcome(TallyOf(os), o)
  {
    assert (os + [o])[..|os + [o]| - 1] == os;
  }

  function ItemsTally(s: Setup, items: seq<Item>, now: int): Tally
  {
    TallyOf(Outcomes(s, items, now))
  }

  /** One round of the loop, on the specification. */
  lemma NextItem(s: Setup, st: State, items: seq<Item>, i: nat, now: int)
    requires i < |items|
    ensures var o := OutcomeOf(s, items[i], now);
            && AfterItems(s, st, items[..i + 1], now) == AfterOutcome(s, AfterItems(s, st, items[..i], now), o)
            && ItemsTally(s, items[..i + 1], now) == AddOutcome(ItemsTally(s, items[..i], now), o)
  {
    var os, o := Outcomes(s, items[..i], now), OutcomeOf(s, items[i], now);
    assert items[..i + 1][..i] == items[..i];
    assert Outcomes(s, items[..i + 1], now) == os + [o];
    AfterSnoc(s, st, os, o);
  }

  /** What remains of the loop from index `i` on, from a state and the totals so far. */
  function Rest(s: Setup, st: State, t: Tally, items: seq<Item>, i: nat, now: int): (State, Tally)
    requires i <= |items|
    decreases |items| - i
  {
    if i == |items| then (st, t)
    else
      var o := OutcomeOf(s, items[i], now);
      Rest(s, AfterOutcome(s, st, o), AddOutcome(t, o), items, i + 1, now)
  }

  lemma {:induction false} RestFinishes(s: Setup, st: State, items: seq<Item>, i: nat, now: int)
    requires i <= |items|
    ensures Rest(s, AfterItems(s, st, items[..i], now), ItemsTally(s, items[..i], now), items, i, now) ==
            (AfterItems(s, st, items, now), ItemsTally(s, items, now))
    decreases |items| - i
  {
    if i == |items| {
      assert items[..i] == items;
    } else {
      NextItem(s, st, items, i, now);
      RestFinishes(s, st, items, i + 1, now);
    }
  }

  lemma WholeLoop(s: Setup, st: State, items: seq<Item>, now: int)
    ensures Rest(s, st, NOTHING, items, 0, now) == (AfterItems(s, st, items, now), ItemsTally(s, items, now))
  {
    assert items[..0] == [];
    RestFinishes(s, st, items, 0, now);
  }

  /******* The running program *******/

  class Broker {
    var accepted: seq<Message>

    constructor ()
      ensures accepted == []
    {
      accepted := [];
    }

    /** `accepts` is the broker's answer. */
    method Publish(message: Message, accepts: bool) returns (ok: bool)
      modifies this
      ensures ok == accepts
      ensures accepted == old(accepted) + if accepts then [message] else []
    {
      if accepts {
        accepted := accepted + [message];
      }
      return accepts;
    }
  }

  /** The totals a cycle logs when it completes. */
  datatype Report = Report(total: nat, published: nat, skipped: nat, pending: nat)

  datatype LoopEvent = Tick(api: Api) | Done

  /** The cycles that run before cancellation is seen. */
  function Ticks(search: string, events: seq<LoopEvent>): seq<Cycle>
    decreases |events|
  {
    if |events| == 0 || events[0].Done? then [] else [events[0].api(search)] + Ticks(search, events[1..])
  }

  /** The index of the first cancellation; the number of events if there is none. */
  function Cancellation(events: seq<LoopEvent>): (n: nat)
    ensures n <= |events| && (n < |events| ==> events[n].Done?)
    ensures forall k :: 0 <= k < n ==> events[k].Tick?
  {
    if |events| == 0 || events[0].Done? then 0 else 1 + Cancellation(events[1..])
  }

  /** There is one cycle per tick before the first cancellation, each of them what the API answers then. */
  lemma {:induction false} TicksByIndex(search: string, events: seq<LoopEvent>)
    ensures |Ticks(search, events)| == Cancellation(events)
    ensures forall k :: 0 <= k < Cancellation(events) ==> Ticks(search, events)[k] == events[k].api(search)
  {
    if |events| > 0 && events[0].Tick? { TicksByIndex(search, events[1..]); }
  }

  /** What happens after cancellation runs no cycle. */
  lemma {:induction false} NothingAfterDone(search: string, before: seq<LoopEvent>, after: seq<LoopEvent>)
    ensures Ticks(search, before + [Done] + after) == Ticks(search, before)
  {
    var events := before + [Done] + after;
    if before == [] {
      assert events[0] == Done;
    } else {
      assert events[0] == before[0] && events[1..] == before[1..] + [Done] + after;
      NothingAfterDone(search, before[1..], after);
    }
  }

  /** So a run is decided by the events before the first cancellation. */
  lemma UpToCancellation(search: string, events: seq<LoopEvent>)
    ensures Ticks(search, events) == Ticks(search, events[..Cancellation(events)])
  {
    var n := Cancellation(events);
    if n == |events| {
      assert events[..n] == events;
    } else {
      assert events == events[..n] + [Done] + events[n + 1..];
      NothingAfterDone(search, events[..n], events[n + 1..]);
    }
  }

  /** What remains of the event loop from index `i` on, from a state. */
  function Remaining(s: Setup, st: State, search: string, events: seq<LoopEvent>, i: nat): State
    requires i <= |events|
    decreases |events| - i
  {
    if i == |events| || events[i].Done? then st
    else Remaining(s, AfterCycle(s, st, events[i].api(search)), search, events, i + 1)
  }

  lemma {:induction false} RunCons(s: Setup, st: State, c: Cycle, cycles: seq<Cycle>)
    ensures Run(s, st, [c] + cycles) == Run(s, AfterCycle(s, st, c), cycles)
  {
    if cycles == [] {
      assert [c] + cycles == [] + [c];
      RunSnoc(s, st, [], c);
    } else {
      var init, last := cycles[..|cycles| - 1], cycles[|cycles| - 1];
      assert [c] + cycles == ([c] + init) + [last];
      RunCons(s, st, c, init);
      RunSnoc(s, st, [c] + init, last);
    }
  }

  lemma {:induction false} RemainingIsRun(s: Setup, st: State, search: string, events: seq<LoopEvent>, i: nat)
    requires i <= |events|
    ensures Remaining(s, st, search, events, i) == Run(s, st, Ticks(search, events[i..]))
    decreases |events| - i
  {
    if i < |events| && events[i].Tick? {
      var c := events[i].api(search);
      assert events[i..][1..] == events[i + 1..];
      RemainingIsRun(s, AfterCycle(s, st, c), search, events, i + 1);
      RunCons(s, st, c, Ticks(search, events[i + 1..]));
    }
  }

  /** The whole event loop: one cycle at once, then one per tick. */
  lemma WholeRun(s: Setup, st: State, search: string, first: Cycle, events: seq<LoopEvent>)
    ensures Remaining(s, AfterCycle(s, st, first), search, events, 0) == Run(s, st, [first] + Ticks(search, events))
    ensures Ticks(search, events) == Ticks(search, events[..Cancellation(events)])
  {
    UpToCancellation(search, events);
    assert events[0..] == events;
    RemainingIsRun(s, AfterCycle(s, st, first), search, events, 0);
    RunCons(s, st, first, Ticks(search, events));
  }

  class Poller {
    const setup: Setup
    const engine: DecisionEngine
    const metrics: Metrics.Registry
    const broker: Broker
    var lastSuccessfulPoll: int

    constructor (setup: Setup, engine: DecisionEngine, metrics: Metrics.Registry, broker: Broker)
      ensures this.setup == setup && this.engine == engine && this.metrics == metrics && this.broker == broker
      ensures lastSuccessfulPoll == ZERO_TIME
    {
      this.setup := setup;
      this.engine := engine;
      this.metrics := metrics;
      this.broker := broker;
      lastSuccessfulPoll := ZERO_TIME;
    }

    ghost predicate Valid()
    {
      setup.lib == engine.lib && setup.prog == engine.Prog()
    }

    ghost function Now(): State
      reads this, metrics, broker
    {
      State(broker.accepted, metrics.Now(), lastSuccessfulPoll)
    }

    method BuildEventData(r: Resource, reason: string) returns (data: map<string, Payload.Tree<Value>>)
      ensures data == EventData(setup, r, reason)
      ensures setup.payload.None? ==> data == map[]
      ensures setup.payload.Some? ==> Payload.Evaluates(setup.run, r, reason, setup.payload.value, data)
    {
      if setup.payload.None? {
        return map[];
      }
      data := Payload.EvalCompiledMap(setup.run, r, reason, setup.payload.value);
    }

    /** What the loop does with a decision. */
    method Dispatch(item: Item, decision: Decision, selector: string) returns (o: Outcome)
      requires selector == LabelOf(setup)
      modifies metrics, broker
      ensures o == OutcomeFrom(setup, item, decision)
      ensures Now() == AfterOutcome(setup, old(Now()), o)
    {
      if decision.shouldPublish {
        var r := item.resource;
        var data := BuildEventData(r, decision.reason);
        if item.oracle.uuid.None? {
          return IdFailed;
        }
        var event := Event(item.oracle.uuid.value, "1.0", EventType(r), "hyperfleet-sentinel", data);
        if !item.oracle.encodes {
          return EncodingFailed;
        }
        var message := Message(setup.topic, event);
        var ok := broker.Publish(message, item.oracle.accepts);
        if !ok {
          metrics.UpdateBrokerErrors(setup.resourceType, selector, "publish_error");
          return PublishFailed;
        }
        metrics.UpdateEventsPublished(setup.resourceType, selector, decision.reason);
        return Published(message, decision.reason);
      } else {
        metrics.UpdateResourcesSkipped(setup.resourceType, selector, decision.reason);
        return Skipped(decision.reason);
      }
    }

    /** The body of the loop for one item; the result is what became of it. */
    method Handle(item: Item, now: int, selector: string) returns (o: Outcome)
      requires Valid() && selector == LabelOf(setup)
      modifies engine`conditionsLookup, metrics, broker
      ensures o == OutcomeOf(setup, item, now)
      ensures Now() == AfterOutcome(setup, old(Now()), o)
    {
      if item.resource.id == "" {
        return EmptyId;
      }
      var decision := engine.Evaluate(Some(item.resource), now);
      o := Dispatch(item, decision, selector);
    }

    /** The loop over the fetched resources, with the totals it counts. */
    method HandleAll(items: seq<Item>, now: int, selector: string) returns (published: nat, skipped: nat, pending: nat)
      requires Valid() && selector == LabelOf(setup)
      modifies engine`conditionsLookup, metrics, broker
      ensures Now() == AfterItems(setup, old(Now()), items, now)
      ensures var t := ItemsTally(setup, items, now);
              published == t.published && skipped == t.skipped && pending == Pending(t)
    {
      published, skipped, pending := 0, 0, 0;
      ghost var t := NOTHING;
      for i := 0 to |items|
        invariant Rest(setup, Now(), t, items, i, now) == Rest(setup, old(Now()), NOTHING, items, 0, now)
        invariant published == t.published && skipped == t.skipped && pending == t.published + t.failed
      {
        var o := Handle(items[i], now, selector);
        ghost var next := AddOutcome(t, o);
        if o.Published? {
          pending, published := pending + 1, published + 1;
        } else if o.Skipped? {
          skipped := skipped + 1;
        } else if !o.EmptyId? {
          pending := pending + 1;
        }
        t := next;
      }
      WholeLoop(setup, old(Now()), items, now);
    }

    /** The search string of one cycle. */
    method BuildSearch() returns (search: string)
      ensures search == SearchOf(setup)
    {
      var labelSelector := Selectors.ToMap(setup.selectors);
      search := Selectors.BuildSearchString(labelSelector, []);
      Selectors.OneSearchString(labelSelector, search);
    }

    method Trigger(api: Api) returns (ok: bool, report: Report)
      requires Valid()
      modifies this`lastSuccessfulPoll, engine`conditionsLookup, metrics, broker
      ensures Now() == AfterCycle(setup, old(Now()), api(SearchOf(setup)))
      ensures ok <==> api(SearchOf(setup)).Fetched?
      ensures ok ==>
                var cycle := api(SearchOf(setup));
                var t := ItemsTally(setup, cycle.items, cycle.now);
                report == Report(|cycle.items|, t.published, t.skipped, Pending(t))
    {
      var selector := Metrics.GetResourceSelectorLabel(setup.selectors);
      var search := BuildSearch();
      match api(search) {
        case FetchFailed =>
          metrics.UpdateAPIErrors(setup.resourceType, selector, "fetch_error");
          return false, Report(0, 0, 0, 0);
        case Fetched(items, now, finished, stamped) =>
          var published, skipped, pending := HandleAll(items, now, selector);
          metrics.UpdatePendingResources(setup.resourceType, selector, pending);
          report := Report(|items|, published, skipped, pending);
          lastSuccessfulPoll := finished;
          metrics.UpdateLastSuccessfulPollTimestamp(stamped);
          return true, report;
      }
    }

    /** One cycle at once, then one per tick until cancellation; a failed cycle does not stop the loop. */
    method Start(first: Api, events: seq<LoopEvent>)
      requires Valid()
      modifies this`lastSuccessfulPoll, engine`conditionsLookup, metrics, broker
      ensures Now() == Run(setup, old(Now()), [first(SearchOf(setup))] + Ticks(SearchOf(setup), events))
      ensures Now() == Run(setup, old(Now()), [first(SearchOf(setup))] +
                           Ticks(SearchOf(setup), events[..Cancellation(events)]))
    {
      ghost var search := SearchOf(setup);
      ghost var end := Remaining(setup, AfterCycle(setup, Now(), first(search)), search, events, 0);
      WholeRun(setup, Now(), search, first(search), events);
      var ok, report := Trigger(first);
      for i := 0 to |events|
        invariant Remaining(setup, Now(), search, events, i) == end
      {
        match events[i] {
          case Done => return;
          case Tick(api) => ok, report := Trigger(api);
        }
      }
    }
  }
}
