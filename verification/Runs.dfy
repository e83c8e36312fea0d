/** What every poll cycle and every run of cycles keeps: conservation between broker and counters,
    isolation of resources from each other, and bounded delay. */
module Runs {
  import opened Wrappers
  import opened Cel
  import opened Resources
  import opened Engine
  import opened Sentinel
  import Metrics
  import DefaultDecision
  import Due
  import SearchReader
  import Selectors

  /******* The loop *******/

  /** The messages of the outcomes, in order. */
  function Messages(os: seq<Outcome>): seq<Message>
  {
    if os == [] then []
    else
      var o := os[|os| - 1];
      Messages(os[..|os| - 1]) + if o.Published? then [o.message] else []
  }

  lemma {:induction false} OutcomesPartition(os: seq<Outcome>)
    ensures var t := TallyOf(os);
            && |os| == t.empty + t.skipped + t.published + t.failed
            && t.refused <= t.failed
            && |Messages(os)| == t.published
  {
    if os != [] { OutcomesPartition(os[..|os| - 1]); }
  }

  /** The reasons an outcome is counted under. */
  predicate Reasoned(o: Outcome)
  {
    (o.Published? ==> o.reason == MATCHED) && (o.Skipped? ==> o.reason != "")
  }

  lemma OutcomeReasoned(s: Setup, item: Item, now: int)
    ensures Reasoned(OutcomeOf(s, item, now))
  {
    ReasonTells(s.lib, s.prog, Some(item.resource), now);
  }

  lemma {:induction false} OutcomesReasoned(s: Setup, items: seq<Item>, now: int)
    ensures forall o :: o in Outcomes(s, items, now) ==> Reasoned(o)
  {
    if items != [] {
      OutcomesReasoned(s, items[..|items| - 1], now);
      OutcomeReasoned(s, items[|items| - 1], now);
    }
  }

  function SkipReason(o: Outcome): string { if o.Skipped? then o.reason else "" }

  /** The metrics change by `o` alone: one counter by one, under its key, or none. */
  ghost predicate CountedUnder(
    matched: Metrics.Key, refused: Metrics.Key, skipped: Metrics.Key,
    m: Metrics.Snapshot, o: Outcome, m': Metrics.Snapshot)
  {
    && m'.published == (if o.Published? then m.published + multiset{matched} else m.published)
    && m'.skipped == (if o.Skipped? then m.skipped + multiset{skipped} else m.skipped)
    && m'.brokerErrors == (if o.PublishFailed? then m.brokerErrors + multiset{refused} else m.brokerErrors)
    && m'.apiErrors == m.apiErrors && m'.pending == m.pending && m'.lastPoll == m.lastPoll
  }

  ghost predicate CountedOnce(s: Setup, m: Metrics.Snapshot, o: Outcome, m': Metrics.Snapshot)
  {
    CountedUnder(KeyOf(s, MATCHED), KeyOf(s, "publish_error"), KeyOf(s, SkipReason(o)), m, o, m')
  }

  lemma ReasonedIsCounted(s: Setup, st: State, o: Outcome)
    requires s.resourceType != "" && Reasoned(o)
    ensures CountedOnce(s, st.metrics, o, AfterOutcome(s, st, o).metrics)
  {
    Metrics.SelectorLabelTells(s.selectors);
  }

  /** Each outcome that reports a metric adds exactly one to exactly one counter; the others add nothing.
      No update is lost to an empty label. */
  lemma OneCounterPerOutcome(s: Setup, st: State, item: Item, now: int)
    requires s.resourceType != ""
    ensures var o := OutcomeOf(s, item, now);
            CountedOnce(s, st.metrics, o, AfterOutcome(s, st, o).metrics)
  {
    OutcomeReasoned(s, item, now);
    ReasonedIsCounted(s, st, OutcomeOf(s, item, now));
  }

  /** `bag` with `n` more of `k`. */
  function Grown<K>(bag: multiset<K>, k: K, n: nat): multiset<K>
  {
    bag[k := bag[k] + n]
  }

  lemma GrowOne<K>(bag: multiset<K>, k: K, n: nat)
    ensures Grown(bag, k, n) + multiset{k} == Grown(bag, k, n + 1)
  {
  }

  lemma {:induction false} GrownSize<K>(bag: multiset<K>, k: K, n: nat)
    ensures |Grown(bag, k, n)| == |bag| + n
  {
    if n == 0 {
      assert Grown(bag, k, 0) == bag;
    } else {
      GrownSize(bag, k, n - 1);
      GrowOne(bag, k, n - 1);
    }
  }

  /** The state after the loop, in closed form: messages appended in order, and one counter value per kind
      of outcome changed by the number of such outcomes. */
  ghost predicate LoopEffect(s: Setup, st: State, os: seq<Outcome>, end: State)
  {
    && end.accepted == st.accepted + Messages(os)
    && MetricsEffect(KeyOf(s, MATCHED), KeyOf(s, "publish_error"), st.metrics, TallyOf(os), end.metrics)
    && end.lastPoll == st.lastPoll
  }

  ghost predicate MetricsEffect(
    matched: Metrics.Key, refused: Metrics.Key, m: Metrics.Snapshot, t: Tally, m': Metrics.Snapshot)
  {
    && m'.published == Grown(m.published, matched, t.published)
    && m'.brokerErrors == Grown(m.brokerErrors, refused, t.refused)
    && |m'.skipped| == |m.skipped| + t.skipped
    && m'.apiErrors == m.apiErrors && m'.pending == m.pending && m'.lastPoll == m.lastPoll
  }

  lemma CounterStep<K>(bag: multiset<K>, k: K, n: nat, mid: multiset<K>, hit: bool, end: multiset<K>)
    requires mid == Grown(bag, k, n) && end == if hit then mid + multiset{k} else mid
    ensures end == Grown(bag, k, if hit then n + 1 else n)
  {
    GrowOne(bag, k, n);
  }

  lemma SizeStep<K>(bag: multiset<K>, k: K)
    ensures |bag + multiset{k}| == |bag| + 1
  {
  }

  lemma TallyStep(t: Tally, o: Outcome)
    ensures AddOutcome(t, o).published == if o.Published? then t.published + 1 else t.published
    ensures AddOutcome(t, o).refused == if o.PublishFailed? then t.refused + 1 else t.refused
    ensures AddOutcome(t, o).skipped == if o.Skipped? then t.skipped + 1 else t.skipped
  {
  }

  lemma MetricsStep(
    matched: Metrics.Key, refused: Metrics.Key, skipped: Metrics.Key,
    m: Metrics.Snapshot, t: Tally, mid: Metrics.Snapshot, o: Outcome, end: Metrics.Snapshot)
    requires MetricsEffect(matched, refused, m, t, mid) && CountedUnder(matched, refused, skipped, mid, o, end)
    ensures MetricsEffect(matched, refused, m, AddOutcome(t, o), end)
  {
    TallyStep(t, o);
    var next := AddOutcome(t, o);
    assert end.published == Grown(m.published, matched, next.published) by {
      CounterStep(m.published, matched, t.published, mid.published, o.Published?, end.published);
    }
    assert end.brokerErrors == Grown(m.brokerErrors, refused, next.refused) by {
      CounterStep(m.brokerErrors, refused, t.refused, mid.brokerErrors, o.PublishFailed?, end.brokerErrors);
    }
    assert |end.skipped| == |m.skipped| + next.skipped by { SizeStep(mid.skipped, skipped); }
  }

  lemma EffectStep(s: Setup, st: State, os: seq<Outcome>, mid: State, o: Outcome)
    requires s.resourceType != "" && Reasoned(o) && LoopEffect(s, st, os, mid)
    ensures LoopEffect(s, st, os + [o], AfterOutcome(s, mid, o))
  {
    ReasonedIsCounted(s, mid, o);
    MetricsStep(KeyOf(s, MATCHED), KeyOf(s, "publish_error"), KeyOf(s, SkipReason(o)),
                st.metrics, TallyOf(os), mid.metrics, o, AfterOutcome(s, mid, o).metrics);
    AfterSnoc(s, st, os, o);
    MessagesSnoc(os, o);
  }

  lemma MessagesSnoc(os: seq<Outcome>, o: Outcome)
    ensures Messages(os + [o]) == Messages(os) + if o.Published? then [o.message] else []
  {
    assert (os + [o])[..|os + [o]| - 1] == os;
  }

  lemma {:induction false} OutcomesHaveEffect(s: Setup, st: State, os: seq<Outcome>)
    requires s.resourceType != "" && forall o :: o in os ==> Reasoned(o)
    ensures LoopEffect(s, st, os, AfterOutcomes(s, st, os))
  {
    if os == [] {
      assert st.accepted + [] == st.accepted;
      assert Grown(st.metrics.published, KeyOf(s, MATCHED), 0) == st.metrics.published;
      assert Grown(st.metrics.brokerErrors, KeyOf(s, "publish_error"), 0) == st.metrics.brokerErrors;
    } else {
      var init, o := os[..|os| - 1], os[|os| - 1];
      OutcomesHaveEffect(s, st, init);
      assert os == init + [o];
      EffectStep(s, st, init, AfterOutcomes(s, st, init), o);
    }
  }

  lemma LoopHasEffect(s: Setup, st: State, items: seq<Item>, now: int)
    requires s.resourceType != ""
    ensures LoopEffect(s, st, Outcomes(s, items, now), AfterItems(s, st, items, now))
  {
    OutcomesReasoned(s, items, now);
    OutcomesHaveEffect(s, st, Outcomes(s, items, now));
  }

  function CountReason(os: seq<Outcome>, reason: string): nat
  {
    if os == [] then 0
    else CountReason(os[..|os| - 1], reason) + if os[|os| - 1] == Skipped(reason) then 1 else 0
  }

  lemma {:induction false} SkipsCounted(s: Setup, st: State, os: seq<Outcome>, reason: string)
    requires s.resourceType != "" && forall o :: o in os ==> Reasoned(o)
    ensures AfterOutcomes(s, st, os).metrics.skipped[KeyOf(s, reason)] ==
            st.metrics.skipped[KeyOf(s, reason)] + CountReason(os, reason)
  {
    if os != [] {
      var init := os[..|os| - 1];
      SkipsCounted(s, st, init, reason);
      ReasonedIsCounted(s, AfterOutcomes(s, st, init), os[|os| - 1]);
    }
  }

  /** Skips are counted under their reasons. */
  lemma SkipsByReason(s: Setup, st: State, items: seq<Item>, now: int, reason: string)
    requires s.resourceType != ""
    ensures AfterItems(s, st, items, now).metrics.skipped[KeyOf(s, reason)] ==
            st.metrics.skipped[KeyOf(s, reason)] + CountReason(Outcomes(s, items, now), reason)
  {
    OutcomesReasoned(s, items, now);
    SkipsCounted(s, st, Outcomes(s, items, now), reason);
  }

  /******* Isolation *******/

  lemma {:induction false} AfterConcat(s: Setup, st: State, a: seq<Outcome>, b: seq<Outcome>)
    ensures AfterOutcomes(s, st, a + b) == AfterOutcomes(s, AfterOutcomes(s, st, a), b)
  {
    if b == [] {
      assert a + b == a;
    } else {
      assert (a + b)[..|a + b| - 1] == a + b[..|b| - 1];
      AfterConcat(s, st, a, b[..|b| - 1]);
    }
  }

  lemma {:induction false} OutcomesConcat(s: Setup, a: seq<Item>, b: seq<Item>, now: int)
    ensures Outcomes(s, a + b, now) == Outcomes(s, a, now) + Outcomes(s, b, now)
  {
    if b == [] {
      assert a + b == a;
    } else {
      assert (a + b)[..|a + b| - 1] == a + b[..|b| - 1];
      OutcomesConcat(s, a, b[..|b| - 1], now);
    }
  }

  /** The loop over a list is the loop over its first part followed by the loop over the rest. */
  lemma LoopOverConcat(s: Setup, st: State, a: seq<Item>, b: seq<Item>, now: int)
    ensures AfterItems(s, st, a + b, now) == AfterItems(s, AfterItems(s, st, a, now), b, now)
  {
    OutcomesConcat(s, a, b, now);
    AfterConcat(s, st, Outcomes(s, a, now), Outcomes(s, b, now));
  }

  /** What must hold of an item for its event to reach the broker. */
  predicate WillPublish(s: Setup, item: Item, now: int)
  {
    && item.resource.id != ""
    && Decide(s.lib, s.prog, Some(item.resource), now).shouldPublish
    && item.oracle.uuid.Some? && item.oracle.encodes && item.oracle.accepts
  }

  function MessageFor(s: Setup, item: Item): Message
    requires item.oracle.uuid.Some?
  {
    Message(s.topic, EventFor(s, item.resource, MATCHED, item.oracle.uuid.value))
  }

  lemma PublishedIff(s: Setup, item: Item, now: int)
    ensures OutcomeOf(s, item, now).Published? <==> WillPublish(s, item, now)
    ensures WillPublish(s, item, now) ==> OutcomeOf(s, item, now) == Published(MessageFor(s, item), MATCHED)
  {
    ReasonTells(s.lib, s.prog, Some(item.resource), now);
  }

  function ExpectedOf(s: Setup, item: Item, now: int): seq<Message>
  {
    if WillPublish(s, item, now) then [MessageFor(s, item)] else []
  }

  /** The events of the items that will publish, in order. */
  function Expected(s: Setup, items: seq<Item>, now: int): seq<Message>
  {
    if items == [] then []
    else Expected(s, items[..|items| - 1], now) + ExpectedOf(s, items[|items| - 1], now)
  }

  lemma ExpectedSnoc(s: Setup, items: seq<Item>, item: Item, now: int)
    ensures Expected(s, items + [item], now) == Expected(s, items, now) + ExpectedOf(s, item, now)
  {
    assert (items + [item])[..|items + [item]| - 1] == items;
  }

  lemma Associate<T>(x: seq<T>, y: seq<T>, z: seq<T>)
    ensures (x + y) + z == x + (y + z)
  {
  }

  lemma {:induction false} ExpectedConcat(s: Setup, a: seq<Item>, b: seq<Item>, now: int)
    ensures Expected(s, a + b, now) == Expected(s, a, now) + Expected(s, b, now)
  {
    if b == [] {
      assert a + b == a;
      assert Expected(s, a, now) + [] == Expected(s, a, now);
    } else {
      var init, last := b[..|b| - 1], b[|b| - 1];
      assert a + b == (a + init) + [last];
      ExpectedConcat(s, a, init, now);
      ExpectedSnoc(s, a + init, last, now);
      Associate(Expected(s, a, now), Expected(s, init, now), ExpectedOf(s, last, now));
    }
  }

  lemma {:induction false} MessagesAreExpected(s: Setup, items: seq<Item>, now: int)
    ensures Messages(Outcomes(s, items, now)) == Expected(s, items, now)
  {
    if items != [] {
      var n := |items| - 1;
      MessagesAreExpected(s, items[..n], now);
      MessagesSnoc(Outcomes(s, items[..n], now), OutcomeOf(s, items[n], now));
      PublishedIff(s, items[n], now);
    }
  }

  lemma {:induction false} AcceptedAre(s: Setup, st: State, os: seq<Outcome>)
    ensures AfterOutcomes(s, st, os).accepted == st.accepted + Messages(os)
  {
    if os == [] {
      assert st.accepted + [] == st.accepted;
    } else {
      AcceptedAre(s, st, os[..|os| - 1]);
    }
  }

  /** The broker receives exactly the expected events, in the order of the resources. */
  lemma BrokerReceivesExpected(s: Setup, st: State, items: seq<Item>, now: int)
    ensures AfterItems(s, st, items, now).accepted == st.accepted + Expected(s, items, now)
  {
    AcceptedAre(s, st, Outcomes(s, items, now));
    MessagesAreExpected(s, items, now);
  }

  /** Whatever one resource is, and however it fails, the events of the others stay as they are: only
      what is sent between the events before it and the events after it depends on it. */
  lemma Isolation(s: Setup, st: State, before: seq<Item>, item: Item, after: seq<Item>, now: int)
    ensures AfterItems(s, st, before + [item] + after, now).accepted ==
            st.accepted + Expected(s, before, now)
            + ExpectedOf(s, item, now)
            + Expected(s, after, now)
  {
    BrokerReceivesExpected(s, st, before + [item] + after, now);
    ExpectedMiddle(s, before, item, after, now);
    Regroup(st.accepted, Expected(s, before, now), ExpectedOf(s, item, now), Expected(s, after, now));
  }

  lemma Regroup<T>(a: seq<T>, x: seq<T>, y: seq<T>, z: seq<T>)
    ensures a + ((x + y) + z) == a + x + y + z
  {
  }

  lemma ExpectedMiddle(s: Setup, before: seq<Item>, item: Item, after: seq<Item>, now: int)
    ensures Expected(s, before + [item] + after, now) ==
            (Expected(s, before, now) + ExpectedOf(s, item, now)) + Expected(s, after, now)
  {
    ExpectedConcat(s, before + [item], after, now);
    ExpectedSnoc(s, before, item, now);
  }

  /******* Cycles *******/

  /** A successful cycle accounts for every fetched resource, and the gauge shows those that were due. */
  lemma CycleConserves(s: Setup, st: State, c: Cycle)
    requires s.resourceType != "" && c.Fetched?
    ensures var t, end := TallyOf(Outcomes(s, c.items, c.now)), AfterCycle(s, st, c);
            && |c.items| == t.empty + t.published + t.skipped + t.failed
            && |end.accepted| == |st.accepted| + t.published
            && |end.metrics.published| == |st.metrics.published| + t.published
            && |end.metrics.skipped| == |st.metrics.skipped| + t.skipped
            && |end.metrics.brokerErrors| == |st.metrics.brokerErrors| + t.refused
            && end.metrics.apiErrors == st.metrics.apiErrors
            && (s.resourceType, LabelOf(s)) in end.metrics.pending
            && end.metrics.pending[(s.resourceType, LabelOf(s))] == t.published + t.failed
            && end.lastPoll == c.finished
  {
    var os := Outcomes(s, c.items, c.now);
    OutcomesPartition(os);
    LoopHasEffect(s, st, c.items, c.now);
    Metrics.SelectorLabelTells(s.selectors);
    GrownSize(st.metrics.published, KeyOf(s, MATCHED), TallyOf(os).published);
    GrownSize(st.metrics.brokerErrors, KeyOf(s, "publish_error"), TallyOf(os).refused);
  }

  /** A failed fetch sends nothing and changes one counter by one, and nothing else. */
  lemma FailedFetchKeeps(s: Setup, st: State)
    requires s.resourceType != ""
    ensures var end := AfterCycle(s, st, FetchFailed);
            && end.accepted == st.accepted && end.lastPoll == st.lastPoll
            && end.metrics == st.metrics.(apiErrors := st.metrics.apiErrors + multiset{KeyOf(s, "fetch_error")})
  {
    Metrics.SelectorLabelTells(s.selectors);
  }

  /******* Runs *******/

  function Plus(a: Tally, b: Tally): Tally
  {
    Tally(a.empty + b.empty, a.skipped + b.skipped, a.published + b.published,
          a.failed + b.failed, a.refused + b.refused)
  }

  function TotalsAfter(s: Setup, before: Tally, c: Cycle): Tally
  {
    if c.Fetched? then Plus(before, ItemsTally(s, c.items, c.now)) else before
  }

  /** The totals of all successful cycles. */
  function Totals(s: Setup, cycles: seq<Cycle>): Tally
  {
    if cycles == [] then NOTHING
    else
      var n := |cycles| - 1;
      TotalsAfter(s, Totals(s, cycles[..n]), cycles[n])
  }

  function Failures(cycles: seq<Cycle>): nat
  {
    if cycles == [] then 0
    else Failures(cycles[..|cycles| - 1]) + if cycles[|cycles| - 1].FetchFailed? then 1 else 0
  }

  /** The broker holds as many events as the published counter shows summed over its reasons, all under
      the one reason there is; skips, refusals and failed fetches are each counted once. */
  ghost predicate Conserved(s: Setup, st: State, t: Tally, failures: nat)
  {
    && |st.accepted| == |st.metrics.published| == st.metrics.published[KeyOf(s, MATCHED)] == t.published
    && |st.metrics.skipped| == t.skipped
    && |st.metrics.brokerErrors| == t.refused
    && |st.metrics.apiErrors| == failures
  }

  lemma ItemsKeepConserved(s: Setup, st: State, items: seq<Item>, now: int, t: Tally, failures: nat)
    requires s.resourceType != "" && Conserved(s, st, t, failures)
    ensures Conserved(s, AfterItems(s, st, items, now), Plus(t, ItemsTally(s, items, now)), failures)
  {
    var tally := ItemsTally(s, items, now);
    LoopHasEffect(s, st, items, now);
    OutcomesPartition(Outcomes(s, items, now));
    GrownSize(st.metrics.published, KeyOf(s, MATCHED), tally.published);
    GrownSize(st.metrics.brokerErrors, KeyOf(s, "publish_error"), tally.refused);
  }

  lemma CycleKeepsConserved(s: Setup, st: State, c: Cycle, t: Tally, failures: nat)
    requires s.resourceType != "" && Conserved(s, st, t, failures)
    ensures Conserved(s, AfterCycle(s, st, c), TotalsAfter(s, t, c), failures + if c.FetchFailed? then 1 else 0)
  {
    if c.Fetched? {
      ItemsKeepConserved(s, st, c.items, c.now, t, failures);
    } else {
      FailedFetchKeeps(s, st);
    }
  }

  /** Whole-run conservation: it holds after every cycle. */
  lemma {:induction false} RunConserves(s: Setup, cycles: seq<Cycle>)
    requires s.resourceType != ""
    ensures Conserved(s, Run(s, INITIAL, cycles), Totals(s, cycles), Failures(cycles))
  {
    if cycles != [] {
      var n := |cycles| - 1;
      RunConserves(s, cycles[..n]);
      CycleKeepsConserved(s, Run(s, INITIAL, cycles[..n]), cycles[n], Totals(s, cycles[..n]), Failures(cycles[..n]));
    }
  }

  /** And after every resource of the cycle under way, where the metrics may be read as well. */
  lemma MidCycleConserves(s: Setup, cycles: seq<Cycle>, items: seq<Item>, k: nat, now: int)
    requires s.resourceType != "" && k <= |items|
    ensures Conserved(s, AfterItems(s, Run(s, INITIAL, cycles), items[..k], now),
                      Plus(Totals(s, cycles), ItemsTally(s, items[..k], now)), Failures(cycles))
  {
    RunConserves(s, cycles);
    ItemsKeepConserved(s, Run(s, INITIAL, cycles), items[..k], now, Totals(s, cycles), Failures(cycles));
  }

  /** The last-poll time and the pending gauge are those of the latest successful cycle, whatever failed
      after it. */
  lemma {:induction false} LatestSuccessShows(s: Setup, st: State, cycles: seq<Cycle>, i: nat)
    requires s.resourceType != "" && i < |cycles| && cycles[i].Fetched?
    requires forall j :: i < j < |cycles| ==> cycles[j].FetchFailed?
    ensures var end, t := Run(s, st, cycles), TallyOf(Outcomes(s, cycles[i].items, cycles[i].now));
            && end.lastPoll == cycles[i].finished && end.metrics.lastPoll == cycles[i].stamped
            && (s.resourceType, LabelOf(s)) in end.metrics.pending
            && end.metrics.pending[(s.resourceType, LabelOf(s))] == t.published + t.failed
  {
    var n := |cycles| - 1;
    if i == n {
      CycleConserves(s, Run(s, st, cycles[..n]), cycles[n]);
    } else {
      LatestSuccessShows(s, st, cycles[..n], i);
      FailedFetchKeeps(s, Run(s, st, cycles[..n]));
    }
  }

  predicate Succeeded(cycles: seq<Cycle>)
  {
    exists c :: c in cycles && c.Fetched?
  }

  lemma SucceededSnoc(cycles: seq<Cycle>, c: Cycle)
    ensures Succeeded(cycles + [c]) <==> Succeeded(cycles) || c.Fetched?
  {
    if Succeeded(cycles) {
      var d :| d in cycles && d.Fetched?;
      assert d in cycles + [c];
    }
    assert c in cycles + [c];
  }

  lemma PollTimeAfter(s: Setup, st: State, c: Cycle)
    ensures AfterCycle(s, st, c).lastPoll == if c.Fetched? then c.finished else st.lastPoll
  {
    if c.Fetched? { KeepsPollTime(s, st, Outcomes(s, c.items, c.now)); }
  }

  lemma {:induction false} KeepsPollTime(s: Setup, st: State, os: seq<Outcome>)
    ensures AfterOutcomes(s, st, os).lastPoll == st.lastPoll
  {
    if os != [] { KeepsPollTime(s, st, os[..|os| - 1]); }
  }

  /** Before the first success there is no last-poll time; from the first success on there is one. */
  lemma {:induction false} PolledIffSucceeded(s: Setup, cycles: seq<Cycle>)
    requires forall c :: c in cycles && c.Fetched? ==> c.finished > ZERO_TIME
    ensures Run(s, INITIAL, cycles).lastPoll != ZERO_TIME <==> Succeeded(cycles)
  {
    if cycles != [] {
      var n := |cycles| - 1;
      PolledIffSucceeded(s, cycles[..n]);
      assert cycles == cycles[..n] + [cycles[n]];
      SucceededSnoc(cycles[..n], cycles[n]);
      PollTimeAfter(s, Run(s, INITIAL, cycles[..n]), cycles[n]);
    }
  }

  /******* Delay *******/

  predicate WasDue(o: Outcome)
  {
    !o.EmptyId? && !o.Skipped?
  }

  /** A successful cycle that fetched the resource. */
  ghost predicate Sees(c: Cycle, r: Resource)
  {
    c.Fetched? && exists i :: 0 <= i < |c.items| && c.items[i].resource == r
  }

  /** An item of the cycle for which an event was due, whether or not it got through. */
  ghost predicate Attempts(s: Setup, c: Cycle, r: Resource)
  {
    c.Fetched? && exists i :: 0 <= i < |c.items| && c.items[i].resource == r && WasDue(OutcomeOf(s, c.items[i], c.now))
  }

  lemma AttemptsIfDue(s: Setup, c: Cycle, r: Resource)
    requires Faithful(s.lib) && s.prog == DefaultDecision.DefaultProgram() && r.id != ""
    requires Sees(c, r) && c.now != ZERO_TIME
    ensures Attempts(s, c, r) <==> DefaultDecision.Due(r, c.now)
  {
    DefaultDecision.DefaultPublishesIffDue(s.lib, r, c.now);
    var i :| 0 <= i < |c.items| && c.items[i].resource == r;
    assert WasDue(OutcomeOf(s, c.items[i], c.now)) <==> DefaultDecision.Due(r, c.now);
  }

  /** Successful polls that see the resource, start no later than the threshold of its condition, end after
      it, and are at most `gap` apart. */
  ghost predicate PollsAcross(polls: seq<Cycle>, r: Resource, limit: int, gap: int)
  {
    && polls != []
    && (forall k :: 0 <= k < |polls| ==> polls[k].Fetched? && polls[k].now > ZERO_TIME && Sees(polls[k], r))
    && polls[0].now <= limit < polls[|polls| - 1].now
    && (forall k :: 0 <= k < |polls| - 1 ==> polls[k + 1].now - polls[k].now <= gap)
  }

  /** The instant at which the age of a condition reaches its threshold. */
  function Limit(c: Condition): int
  {
    c.lastUpdatedTime + DefaultDecision.Threshold(c.status)
  }

  function Instants(polls: seq<Cycle>): (instants: seq<int>)
    requires forall k :: 0 <= k < |polls| ==> polls[k].Fetched?
    ensures |instants| == |polls| && forall k :: 0 <= k < |polls| ==> instants[k] == polls[k].now
  {
    seq(|polls|, k requires 0 <= k < |polls| => polls[k].now)
  }

  /** Bounded delay under the default program: if successful polls that see the unchanged resource are at
      most `gap` apart, one of them attempts an event within `gap` of the moment the threshold passes. */
  lemma AttemptWithinGap(s: Setup, polls: seq<Cycle>, r: Resource, c: Condition, gap: int) returns (i: nat)
    requires Faithful(s.lib) && s.prog == DefaultDecision.DefaultProgram() && r.id != ""
    requires LastCondition(r.conditions, "Reconciled") == Some(c)
    requires InRange(c.lastUpdatedTime) && FitsInt64(DefaultDecision.Threshold(c.status) + gap)
    requires PollsAcross(polls, r, Limit(c), gap)
    ensures i < |polls| && Attempts(s, polls[i], r) && Limit(c) < polls[i].now <= Limit(c) + gap
  {
    var instants := Instants(polls);
    forall k | 0 <= k < |instants| - 1
      ensures instants[k + 1] - instants[k] <= gap
    {
      assert polls[k + 1].now - polls[k].now <= gap;
    }
    i := Due.SomeInstantIsDue(r, c, instants, gap);
    AttemptsIfDue(s, polls[i], r);
  }

  /** The cycles whose fetch succeeded, in order. */
  function Successes(cycles: seq<Cycle>): seq<Cycle>
  {
    if cycles == [] then []
    else Successes(cycles[..|cycles| - 1]) + if cycles[|cycles| - 1].Fetched? then [cycles[|cycles| - 1]] else []
  }

  lemma {:induction false} SuccessesOccur(cycles: seq<Cycle>)
    ensures forall c :: c in Successes(cycles) ==> c in cycles && c.Fetched?
  {
    if cycles != [] { SuccessesOccur(cycles[..|cycles| - 1]); }
  }

  /** The same of a whole run, failed fetches included: only the gaps between successful polls count. */
  lemma AttemptInRun(s: Setup, cycles: seq<Cycle>, r: Resource, c: Condition, gap: int) returns (poll: Cycle)
    requires Faithful(s.lib) && s.prog == DefaultDecision.DefaultProgram() && r.id != ""
    requires LastCondition(r.conditions, "Reconciled") == Some(c)
    requires InRange(c.lastUpdatedTime) && FitsInt64(DefaultDecision.Threshold(c.status) + gap)
    requires PollsAcross(Successes(cycles), r, Limit(c), gap)
    ensures poll in cycles && Attempts(s, poll, r) && Limit(c) < poll.now <= Limit(c) + gap
  {
    SuccessesOccur(cycles);
    var i := AttemptWithinGap(s, Successes(cycles), r, c, gap);
    poll := Successes(cycles)[i];
  }

  lemma MiddleMember<T>(x: T, a: seq<T>, b: seq<T>, c: seq<T>)
    requires x in b
    ensures x in (a + b) + c
  {
  }

  lemma ExpectedSplit(s: Setup, items: seq<Item>, i: nat, now: int)
    requires i < |items|
    ensures Expected(s, items, now) ==
            (Expected(s, items[..i], now) + ExpectedOf(s, items[i], now)) + Expected(s, items[i + 1..], now)
  {
    assert items == items[..i] + [items[i]] + items[i + 1..];
    ExpectedMiddle(s, items[..i], items[i], items[i + 1..], now);
  }

  lemma ExpectedContains(s: Setup, items: seq<Item>, i: nat, now: int, m: Message)
    requires i < |items| && m in ExpectedOf(s, items[i], now)
    ensures m in Expected(s, items, now)
  {
    ExpectedSplit(s, items, i, now);
    MiddleMember(m, Expected(s, items[..i], now), ExpectedOf(s, items[i], now), Expected(s, items[i + 1..], now));
  }

  lemma AcceptedAfterCycle(s: Setup, st: State, c: Cycle)
    ensures AfterCycle(s, st, c).accepted == st.accepted + if c.Fetched? then Expected(s, c.items, c.now) else []
  {
    if c.Fetched? {
      BrokerReceivesExpected(s, st, c.items, c.now);
    } else {
      assert st.accepted + [] == st.accepted;
    }
  }

  lemma AcceptedStays(s: Setup, st: State, c: Cycle, m: Message)
    requires m in st.accepted
    ensures m in AfterCycle(s, st, c).accepted
  {
    AcceptedAfterCycle(s, st, c);
  }

  lemma SentIsAccepted(s: Setup, st: State, c: Cycle, m: Message)
    requires c.Fetched? && m in Expected(s, c.items, c.now)
    ensures m in AfterCycle(s, st, c).accepted
  {
    AcceptedAfterCycle(s, st, c);
  }

  lemma {:induction false} RunKeepsAccepted(s: Setup, st: State, cycles: seq<Cycle>, k: nat, m: Message)
    requires k <= |cycles| && m in Run(s, st, cycles[..k]).accepted
    ensures m in Run(s, st, cycles).accepted
  {
    if k == |cycles| {
      assert cycles[..k] == cycles;
    } else {
      var n := |cycles| - 1;
      assert cycles[..n][..k] == cycles[..k];
      RunKeepsAccepted(s, st, cycles[..n], k, m);
      AcceptedStays(s, Run(s, st, cycles[..n]), cycles[n], m);
    }
  }

  lemma RunUpTo(s: Setup, st: State, cycles: seq<Cycle>, k: nat)
    requires k < |cycles|
    ensures Run(s, st, cycles[..k + 1]) == AfterCycle(s, Run(s, st, cycles[..k]), cycles[k])
  {
    assert cycles[..k + 1][..k] == cycles[..k];
  }

  /** What will publish in some cycle of a run is at the broker when the run ends. */
  lemma RunDelivers(s: Setup, st: State, cycles: seq<Cycle>, k: nat, i: nat)
    requires k < |cycles| && cycles[k].Fetched? && i < |cycles[k].items|
    ensures WillPublish(s, cycles[k].items[i], cycles[k].now) ==>
              MessageFor(s, cycles[k].items[i]) in Run(s, st, cycles).accepted
  {
    if !WillPublish(s, cycles[k].items[i], cycles[k].now) { return; }
    var m := MessageFor(s, cycles[k].items[i]);
    assert ExpectedOf(s, cycles[k].items[i], cycles[k].now) == [m];
    ExpectedContains(s, cycles[k].items, i, cycles[k].now, m);
    SentIsAccepted(s, Run(s, st, cycles[..k]), cycles[k], m);
    RunUpTo(s, st, cycles, k);
    RunKeepsAccepted(s, st, cycles, k + 1, m);
  }

  lemma DueIsDelivered(s: Setup, item: Item, now: int)
    requires WasDue(OutcomeOf(s, item, now))
    ensures WillPublish(s, item, now) <==> item.oracle.uuid.Some? && item.oracle.encodes && item.oracle.accepts
  {
    PublishedIff(s, item, now);
  }

  /** Bounded delay, end to end: within the gap some poll finds the resource due, and unless ID generation,
      encoding or the broker fails for it then, its event is at the broker when the run ends. */
  lemma DeliveredInRun(s: Setup, cycles: seq<Cycle>, r: Resource, c: Condition, gap: int) returns (k: nat, i: nat)
    requires Faithful(s.lib) && s.prog == DefaultDecision.DefaultProgram() && r.id != ""
    requires LastCondition(r.conditions, "Reconciled") == Some(c)
    requires InRange(c.lastUpdatedTime) && FitsInt64(DefaultDecision.Threshold(c.status) + gap)
    requires PollsAcross(Successes(cycles), r, Limit(c), gap)
    ensures k < |cycles| && cycles[k].Fetched? && Limit(c) < cycles[k].now <= Limit(c) + gap
    ensures i < |cycles[k].items| && cycles[k].items[i].resource == r
    ensures var o := cycles[k].items[i].oracle;
            o.uuid.Some? && o.encodes && o.accepts ==>
              MessageFor(s, cycles[k].items[i]) in Run(s, INITIAL, cycles).accepted
  {
    var poll := AttemptInRun(s, cycles, r, c, gap);
    k :| 0 <= k < |cycles| && cycles[k] == poll;
    i :| 0 <= i < |poll.items| && poll.items[i].resource == r && WasDue(OutcomeOf(s, poll.items[i], poll.now));
    DueIsDelivered(s, poll.items[i], poll.now);
    var o := poll.items[i].oracle;
    if o.uuid.Some? && o.encodes && o.accepts { RunDelivers(s, INITIAL, cycles, k, i); }
  }

  /******* Shards *******/

  /** Every resource that the run fetches was selected by the search string: the server applied it. */
  ghost predicate Honours(cycles: seq<Cycle>, search: string)
  {
    forall c :: c in cycles && c.Fetched? ==>
      forall i :: 0 <= i < |c.items| ==> SearchReader.ServerSelects(search, c.items[i].resource.labels)
  }

  /** Whenever the run sees a resource, its labels are those that belong to its ID. */
  ghost predicate LabelsStay(cycles: seq<Cycle>, labelsOf: string -> map<string, string>)
  {
    forall c :: c in cycles && c.Fetched? ==>
      forall i :: 0 <= i < |c.items| ==> c.items[i].resource.labels == labelsOf(c.items[i].resource.id)
  }

  /** The run fetches a resource with this ID, at any time and in any version. */
  ghost predicate Handles(cycles: seq<Cycle>, id: string)
  {
    exists c, i :: c in cycles && c.Fetched? && 0 <= i < |c.items| && c.items[i].resource.id == id
  }

  /** The run delivers an event of a resource with this ID. */
  ghost predicate Delivers(s: Setup, cycles: seq<Cycle>, id: string)
  {
    exists c, i :: c in cycles && c.Fetched? && 0 <= i < |c.items| && c.items[i].resource.id == id &&
                   WillPublish(s, c.items[i], c.now)
  }

  lemma HandledIsSelected(cycles: seq<Cycle>, search: string, labelsOf: string -> map<string, string>, id: string)
    requires Honours(cycles, search) && LabelsStay(cycles, labelsOf) && Handles(cycles, id)
    ensures SearchReader.ServerSelects(search, labelsOf(id))
  {
    var c, i :| c in cycles && c.Fetched? && 0 <= i < |c.items| && c.items[i].resource.id == id;
    assert c.items[i].resource.labels == labelsOf(id);
  }

  /** The value of the sharding label that an instance selects. */
  function ShardValue(shard: SearchReader.Instance, key: string): string
    requires key in Selectors.SelectorMap(shard.selectors)
  {
    Selectors.SelectorMap(shard.selectors)[key]
  }

  /** Any number of instances on pairwise distinct values of one label: a resource ID that one of them
      fetches, in any cycle of its run and any version of the resource, is fetched by no other. */
  lemma ShardsHandleApart(
    shards: seq<SearchReader.Instance>, runs: seq<seq<Cycle>>, key: string,
    labelsOf: string -> map<string, string>, i: nat, j: nat, id: string)
    requires |runs| == |shards| && i < |shards| && j < |shards| && i != j
    requires forall k :: 0 <= k < |shards| ==>
               SearchReader.Configured(shards[k]) && key in Selectors.SelectorMap(shards[k].selectors)
    requires forall k, l :: 0 <= k < l < |shards| ==> ShardValue(shards[k], key) != ShardValue(shards[l], key)
    requires forall k :: 0 <= k < |runs| ==> Honours(runs[k], shards[k].search) && LabelsStay(runs[k], labelsOf)
    ensures !(Handles(runs[i], id) && Handles(runs[j], id))
  {
    if Handles(runs[i], id) && Handles(runs[j], id) {
      HandledIsSelected(runs[i], shards[i].search, labelsOf, id);
      HandledIsSelected(runs[j], shards[j].search, labelsOf, id);
      var k, l := if i < j then i else j, if i < j then j else i;
      assert ShardValue(shards[k], key) != ShardValue(shards[l], key);
      SearchReader.ShardsAreDisjoint(shards[k], shards[l], key, labelsOf(id));
    }
  }

  /** So no two running sentinels on different shards ever deliver an event of the same resource ID. */
  lemma ShardsPublishApart(
    setups: seq<Setup>, runs: seq<seq<Cycle>>, key: string,
    labelsOf: string -> map<string, string>, i: nat, j: nat, id: string)
    requires |runs| == |setups| && i < |setups| && j < |setups| && i != j
    requires forall k :: 0 <= k < |setups| ==>
               SearchReader.PlainKeys(Selectors.SelectorMap(setups[k].selectors)) &&
               key in Selectors.SelectorMap(setups[k].selectors)
    requires forall k, l :: 0 <= k < l < |setups| ==>
               Selectors.SelectorMap(setups[k].selectors)[key] != Selectors.SelectorMap(setups[l].selectors)[key]
    requires forall k :: 0 <= k < |runs| ==> Honours(runs[k], SearchOf(setups[k])) && LabelsStay(runs[k], labelsOf)
    ensures !(Delivers(setups[i], runs[i], id) && Delivers(setups[j], runs[j], id))
  {
    if Delivers(setups[i], runs[i], id) && Delivers(setups[j], runs[j], id) {
      DeliveredIsHandled(setups[i], runs[i], id);
      DeliveredIsHandled(setups[j], runs[j], id);
      var shards := Instances(setups);
      forall k | 0 <= k < |shards|
        ensures SearchReader.Configured(shards[k])
      {
        assert SearchReader.PlainKeys(Selectors.SelectorMap(setups[k].selectors));
      }
      ShardsHandleApart(shards, runs, key, labelsOf, i, j, id);
    }
  }

  lemma DeliveredIsHandled(s: Setup, cycles: seq<Cycle>, id: string)
    requires Delivers(s, cycles, id)
    ensures Handles(cycles, id)
  {
    var c, i :| c in cycles && c.Fetched? && 0 <= i < |c.items| && c.items[i].resource.id == id &&
                WillPublish(s, c.items[i], c.now);
  }

  /** Each setup as an instance: its selectors and the search string that its cycles send. */
  ghost function Instances(setups: seq<Setup>): (shards: seq<SearchReader.Instance>)
    ensures |shards| == |setups|
    ensures forall k :: 0 <= k < |setups| ==>
              shards[k] == SearchReader.Instance(setups[k].selectors, SearchOf(setups[k]))
  {
    seq(|setups|, k requires 0 <= k < |setups| => SearchReader.Instance(setups[k].selectors, SearchOf(setups[k])))
  }
}
