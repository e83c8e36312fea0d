/** The outcomes, the totals and the counters, told from the resources alone: what becomes of each item is
    decided by its ID, the decision and the answers for it, and every counter is the number of such items. */
module Counting {
  import opened Wrappers
  import opened Cel
  import opened Resources
  import opened Engine
  import opened Sentinel
  import opened Runs
  import Metrics

  /******* One item *******/

  /** A resource with an ID whose decision is true: an event is due. */
  predicate EventDue(s: Setup, item: Item, now: int)
  {
    item.resource.id != "" && Decide(s.lib, s.prog, Some(item.resource), now).shouldPublish
  }

  predicate HeldBackFor(s: Setup, item: Item, now: int, reason: string)
  {
    item.resource.id != "" && Decide(s.lib, s.prog, Some(item.resource), now) == Decision(reason, false)
  }

  /** The event is made and encoded, and the broker refuses it. */
  predicate WillBeRefused(s: Setup, item: Item, now: int)
  {
    EventDue(s, item, now) && item.oracle.uuid.Some? && item.oracle.encodes && !item.oracle.accepts
  }

  /** When each of the six outcomes occurs. */
  lemma OutcomeIff(s: Setup, item: Item, now: int)
    ensures var o, due, uuid := OutcomeOf(s, item, now), EventDue(s, item, now), item.oracle.uuid;
            && (o == EmptyId <==> item.resource.id == "")
            && (forall reason :: o == Skipped(reason) <==> HeldBackFor(s, item, now, reason))
            && (o == IdFailed <==> due && uuid.None?)
            && (o == EncodingFailed <==> due && uuid.Some? && !item.oracle.encodes)
            && (o == PublishFailed <==> WillBeRefused(s, item, now))
            && (o.Published? <==> due && uuid.Some? && item.oracle.encodes && item.oracle.accepts)
  {
  }

  /******* Counting items *******/

  type Test = (Item, int) -> bool

  function Count(items: seq<Item>, now: int, test: Test): nat
  {
    if items == [] then 0
    else Count(items[..|items| - 1], now, test) + if test(items[|items| - 1], now) then 1 else 0
  }

  function Nameless(): Test { (item: Item, now: int) => item.resource.id == "" }

  function HeldFor(s: Setup, reason: string): Test { (item: Item, now: int) => HeldBackFor(s, item, now, reason) }

  function HeldBack(s: Setup): Test { (item: Item, now: int) => item.resource.id != "" && !EventDue(s, item, now) }

  function Due(s: Setup): Test { (item: Item, now: int) => EventDue(s, item, now) }

  function Refused(s: Setup): Test { (item: Item, now: int) => WillBeRefused(s, item, now) }

  function Delivered(s: Setup): Test { (item: Item, now: int) => WillPublish(s, item, now) }

  function One(b: bool): nat { if b then 1 else 0 }

  lemma TallyGrows(s: Setup, t: Tally, item: Item, now: int)
    ensures var next := AddOutcome(t, OutcomeOf(s, item, now));
            && next.empty == t.empty + One(Nameless()(item, now))
            && next.skipped == t.skipped + One(HeldBack(s)(item, now))
            && next.published == t.published + One(Delivered(s)(item, now))
            && next.refused == t.refused + One(Refused(s)(item, now))
            && Pending(next) == Pending(t) + One(Due(s)(item, now))
  {
    OutcomeIff(s, item, now);
  }

  /** The totals of a cycle are counts of resources: those without an ID, those held back, those delivered,
      those refused at the broker, and as pending all for which an event was due. */
  lemma {:induction false} TallyCountsItems(s: Setup, items: seq<Item>, now: int)
    ensures var t := ItemsTally(s, items, now);
            && t.empty == Count(items, now, Nameless())
            && t.skipped == Count(items, now, HeldBack(s))
            && t.published == Count(items, now, Delivered(s))
            && t.refused == Count(items, now, Refused(s))
            && Pending(t) == Count(items, now, Due(s))
  {
    if items != [] {
      var n := |items| - 1;
      TallyCountsItems(s, items[..n], now);
      TallyGrows(s, ItemsTally(s, items[..n], now), items[n], now);
      assert items[..n + 1] == items;
      NextItem(s, INITIAL, items, n, now);
    }
  }

  lemma {:induction false} ReasonCountsItems(s: Setup, items: seq<Item>, now: int, reason: string)
    ensures CountReason(Outcomes(s, items, now), reason) == Count(items, now, HeldFor(s, reason))
  {
    if items != [] {
      var n := |items| - 1;
      ReasonCountsItems(s, items[..n], now, reason);
      OutcomeIff(s, items[n], now);
      var os := Outcomes(s, items, now);
      assert os[..n] == Outcomes(s, items[..n], now) && os[n] == OutcomeOf(s, items[n], now);
    }
  }

  /******* Counters *******/

  /** How often each counter moves, under the labels of the setup. */
  datatype Moves = Moves(delivered: nat, refused: nat, heldBack: nat, heldFor: nat, failures: nat)

  /** From `m` to `m'` the counters move by exactly this much: published only under the one reason there is
      and broker and API errors only under their error types; `heldFor` counts the skips for `reason` among
      all that are held back. */
  ghost predicate Moved(s: Setup, reason: string, m: Metrics.Snapshot, moves: Moves, m': Metrics.Snapshot)
  {
    var selector := Metrics.SelectorLabel(s.selectors);
    && m'.published == Grown(m.published, Metrics.Key(s.resourceType, selector, MATCHED), moves.delivered)
    && m'.brokerErrors ==
       Grown(m.brokerErrors, Metrics.Key(s.resourceType, selector, "publish_error"), moves.refused)
    && m'.apiErrors == Grown(m.apiErrors, Metrics.Key(s.resourceType, selector, "fetch_error"), moves.failures)
    && |m'.skipped| == |m.skipped| + moves.heldBack
    && m'.skipped[Metrics.Key(s.resourceType, selector, reason)] ==
       m.skipped[Metrics.Key(s.resourceType, selector, reason)] + moves.heldFor
  }

  function ItemMoves(s: Setup, reason: string, items: seq<Item>, now: int): Moves
  {
    Moves(Count(items, now, Delivered(s)), Count(items, now, Refused(s)), Count(items, now, HeldBack(s)),
          Count(items, now, HeldFor(s, reason)), 0)
  }

  /** In one cycle every counter moves by the number of resources it stands for. */
  lemma LoopCountsItems(s: Setup, st: State, items: seq<Item>, now: int, reason: string)
    requires s.resourceType != ""
    ensures Moved(s, reason, st.metrics, ItemMoves(s, reason, items, now), AfterItems(s, st, items, now).metrics)
  {
    LoopHasEffect(s, st, items, now);
    SkipsByReason(s, st, items, now, reason);
    TallyCountsItems(s, items, now);
    ReasonCountsItems(s, items, now, reason);
    GrowNone(st.metrics.apiErrors, KeyOf(s, "fetch_error"));
  }

  /** The gauge and the poll time play no part in the counters. */
  lemma MovedAlike(
    s: Setup, reason: string, m: Metrics.Snapshot, moves: Moves, end: Metrics.Snapshot, end': Metrics.Snapshot)
    requires Moved(s, reason, m, moves, end) && end' == end.(pending := end'.pending, lastPoll := end'.lastPoll)
    ensures Moved(s, reason, m, moves, end')
  {
  }

  lemma CycleMovesItems(s: Setup, st: State, c: Cycle, reason: string)
    requires s.resourceType != "" && c.Fetched?
    ensures Moved(s, reason, st.metrics, ItemMoves(s, reason, c.items, c.now), AfterCycle(s, st, c).metrics)
  {
    LoopCountsItems(s, st, c.items, c.now, reason);
    MovedAlike(s, reason, st.metrics, ItemMoves(s, reason, c.items, c.now),
               AfterItems(s, st, c.items, c.now).metrics, AfterCycle(s, st, c).metrics);
  }

  lemma LabelledIsSet(pending: map<(string, string), nat>, resourceType: string, selector: string, count: nat)
    requires resourceType != "" && selector != ""
    ensures Metrics.SetPending(pending, resourceType, selector, count) == pending[(resourceType, selector) := count]
  {
  }

  lemma GaugeIsSet(s: Setup, st: State, c: Cycle)
    requires s.resourceType != "" && c.Fetched?
    ensures var before := AfterItems(s, st, c.items, c.now).metrics.pending;
            AfterCycle(s, st, c).metrics.pending ==
            before[(s.resourceType, Metrics.SelectorLabel(s.selectors)) := Pending(ItemsTally(s, c.items, c.now))]
  {
    Metrics.SelectorLabelTells(s.selectors);
    LabelledIsSet(AfterItems(s, st, c.items, c.now).metrics.pending, s.resourceType,
                  Metrics.SelectorLabel(s.selectors), Pending(ItemsTally(s, c.items, c.now)));
  }

  /** After a successful cycle the gauge shows the number of resources for which an event was due. */
  lemma GaugeCountsItems(s: Setup, st: State, c: Cycle)
    requires s.resourceType != "" && c.Fetched?
    ensures var pending := AfterCycle(s, st, c).metrics.pending;
            var own := (s.resourceType, Metrics.SelectorLabel(s.selectors));
            own in pending && pending[own] == Count(c.items, c.now, Due(s))
  {
    GaugeIsSet(s, st, c);
    TallyCountsItems(s, c.items, c.now);
  }

  lemma GrowNone<K>(bag: multiset<K>, k: K)
    ensures Grown(bag, k, 0) == bag
  {
  }

  lemma GrowTwice<K>(bag: multiset<K>, k: K, a: nat, b: nat)
    ensures Grown(Grown(bag, k, a), k, b) == Grown(bag, k, a + b)
  {
  }

  function Both(a: Moves, b: Moves): Moves
  {
    Moves(a.delivered + b.delivered, a.refused + b.refused, a.heldBack + b.heldBack, a.heldFor + b.heldFor,
          a.failures + b.failures)
  }

  lemma MovedTwice(
    s: Setup, reason: string, m: Metrics.Snapshot, a: Moves, mid: Metrics.Snapshot, b: Moves, end: Metrics.Snapshot)
    requires Moved(s, reason, m, a, mid) && Moved(s, reason, mid, b, end)
    ensures Moved(s, reason, m, Both(a, b), end)
  {
    var selector := Metrics.SelectorLabel(s.selectors);
    GrowTwice(m.published, Metrics.Key(s.resourceType, selector, MATCHED), a.delivered, b.delivered);
    GrowTwice(m.brokerErrors, Metrics.Key(s.resourceType, selector, "publish_error"), a.refused, b.refused);
    GrowTwice(m.apiErrors, Metrics.Key(s.resourceType, selector, "fetch_error"), a.failures, b.failures);
  }

  /** The items of all successful cycles that pass the test, each at the instant of its cycle. */
  function CountInRun(cycles: seq<Cycle>, test: Test): nat
  {
    if cycles == [] then 0
    else
      var c := cycles[|cycles| - 1];
      CountInRun(cycles[..|cycles| - 1], test) + if c.Fetched? then Count(c.items, c.now, test) else 0
  }

  function RunMoves(s: Setup, reason: string, cycles: seq<Cycle>): Moves
  {
    Moves(CountInRun(cycles, Delivered(s)), CountInRun(cycles, Refused(s)), CountInRun(cycles, HeldBack(s)),
          CountInRun(cycles, HeldFor(s, reason)), Failures(cycles))
  }

  function CycleMoves(s: Setup, reason: string, c: Cycle): Moves
  {
    if c.Fetched? then ItemMoves(s, reason, c.items, c.now) else Moves(0, 0, 0, 0, 1)
  }

  lemma NothingMoves(s: Setup, reason: string, m: Metrics.Snapshot)
    ensures Moved(s, reason, m, Moves(0, 0, 0, 0, 0), m)
  {
    GrowNone(m.published, KeyOf(s, MATCHED));
    GrowNone(m.brokerErrors, KeyOf(s, "publish_error"));
    GrowNone(m.apiErrors, KeyOf(s, "fetch_error"));
  }

  lemma FailureMoves(s: Setup, reason: string, m: Metrics.Snapshot)
    ensures Moved(s, reason, m, Moves(0, 0, 0, 0, 1),
                  m.(apiErrors := m.apiErrors + multiset{KeyOf(s, "fetch_error")}))
  {
    NothingMoves(s, reason, m);
    GrowOne(m.apiErrors, KeyOf(s, "fetch_error"), 0);
  }

  lemma CycleCountsItems(s: Setup, st: State, c: Cycle, reason: string)
    requires s.resourceType != ""
    ensures Moved(s, reason, st.metrics, CycleMoves(s, reason, c), AfterCycle(s, st, c).metrics)
  {
    if c.Fetched? {
      CycleMovesItems(s, st, c, reason);
    } else {
      FailedFetchKeeps(s, st);
      FailureMoves(s, reason, st.metrics);
    }
  }

  lemma RunMovesStep(s: Setup, reason: string, cycles: seq<Cycle>)
    requires cycles != []
    ensures var n := |cycles| - 1;
            RunMoves(s, reason, cycles) == Both(RunMoves(s, reason, cycles[..n]), CycleMoves(s, reason, cycles[n]))
  {
  }

  lemma CountsStep(s: Setup, st: State, c: Cycle, reason: string, moves: Moves)
    requires s.resourceType != "" && Moved(s, reason, Metrics.ZERO, moves, st.metrics)
    ensures Moved(s, reason, Metrics.ZERO, Both(moves, CycleMoves(s, reason, c)), AfterCycle(s, st, c).metrics)
  {
    CycleCountsItems(s, st, c, reason);
    MovedTwice(s, reason, Metrics.ZERO, moves, st.metrics, CycleMoves(s, reason, c), AfterCycle(s, st, c).metrics);
  }

  /** Over any run the counters are counts of resources and of failed fetches: published events are the items
      that were due and got through, broker errors those the broker refused, skips for a reason those whose
      decision gave that reason. */
  lemma {:induction false} RunCountsItems(s: Setup, cycles: seq<Cycle>, reason: string)
    requires s.resourceType != ""
    ensures Moved(s, reason, Metrics.ZERO, RunMoves(s, reason, cycles), Run(s, INITIAL, cycles).metrics)
  {
    if cycles == [] {
      NothingMoves(s, reason, Metrics.ZERO);
    } else {
      var n := |cycles| - 1;
      RunCountsItems(s, cycles[..n], reason);
      CountsStep(s, Run(s, INITIAL, cycles[..n]), cycles[n], reason, RunMoves(s, reason, cycles[..n]));
      RunMovesStep(s, reason, cycles);
    }
  }
}
