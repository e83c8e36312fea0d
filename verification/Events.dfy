/** What reaches the broker: where every message comes from and what it says. */
module Events {
  import opened Wrappers
  import opened Cel
  import opened Resources
  import opened Engine
  import opened Sentinel
  import opened Runs
  import Payload

  /******* One event *******/

  /** Letters of the ASCII alphabet become small, everything else stays. */
  lemma {:induction false} ToLowerAt(s: string, i: nat)
    requires i < |s|
    ensures |ToLower(s)| == |s|
    ensures ToLower(s)[i] == if 'A' <= s[i] <= 'Z' then s[i] - 'A' + 'a' else s[i]
  {
    if i > 0 {
      ToLowerAt(s[1..], i - 1);
    } else if |s| > 1 {
      ToLowerAt(s[1..], 0);
    }
  }

  /** The event says what it was published for, and the data is what the payload definition makes of that
      resource. Without a definition it is empty. */
  ghost predicate SaysSo(s: Setup, r: Resource, id: string, m: Message)
  {
    && m.topic == s.topic && m.event.id == id
    && m.event.specVersion == "1.0" && m.event.source == "hyperfleet-sentinel"
    && m.event.kind == "com.redhat.hyperfleet." + ToLower(r.kind) + ".reconcile"
    && (s.payload.None? ==> m.event.data == map[])
    && (s.payload.Some? ==> Payload.Evaluates(s.run, r, MATCHED, s.payload.value, m.event.data))
  }

  lemma MessageSaysSo(s: Setup, r: Resource, id: string)
    ensures SaysSo(s, r, id, Message(s.topic, EventFor(s, r, MATCHED, id)))
  {
  }

  /** What an item that will publish makes of itself: an outcome whose message says so. */
  lemma PublishedSaysSo(s: Setup, item: Item, now: int)
    requires WillPublish(s, item, now)
    ensures OutcomeOf(s, item, now).Published?
    ensures SaysSo(s, item.resource, item.oracle.uuid.value, OutcomeOf(s, item, now).message)
    ensures OutcomeOf(s, item, now).message == MessageFor(s, item)
  {
    PublishedIff(s, item, now);
    MessageSaysSo(s, item.resource, item.oracle.uuid.value);
  }

  lemma EvaluatedIsKept<V>(
    run: Payload.Runner<V>, r: Resource, reason: string, nodes: map<string, Payload.Node>,
    data: map<string, Payload.Tree<V>>)
    requires Payload.Evaluates(run, r, reason, nodes, data)
    ensures data == Payload.Kept(run, r, reason, nodes)
  {
    var kept := Payload.Kept(run, r, reason, nodes);
    assert data.Keys == kept.Keys;
    assert forall k :: k in data ==> data[k] == kept[k];
  }

  /** The data of such a message shows, at every path, what the payload definition of the config describes. */
  lemma DataShowsDefinition(
    s: Setup, r: Resource, id: string, m: Message, compiles: string -> bool, def: map<string, Payload.Raw>,
    path: Payload.Path)
    requires SaysSo(s, r, id, m) && path != []
    requires s.payload.Some?
    requires Payload.Compile(compiles, Payload.Object(def)) == Some(Payload.Children(s.payload.value))
    ensures Payload.ShowsAt(s.run, r, MATCHED, Payload.Object(def), path,
                            Payload.TreeAt(Some(Payload.Branch(m.event.data)), path))
  {
    EvaluatedIsKept(s.run, r, MATCHED, s.payload.value, m.event.data);
    Payload.PayloadMeaning(compiles, s.run, r, MATCHED, def, s.payload.value, path);
  }

  /******* A whole run *******/

  /** The message is that of an item of the cycle, and the item will publish. */
  ghost predicate SentBy(s: Setup, c: Cycle, i: nat, m: Message)
  {
    c.Fetched? && i < |c.items| && WillPublish(s, c.items[i], c.now) && m == MessageFor(s, c.items[i])
  }

  lemma ExpectedUpTo(s: Setup, items: seq<Item>, k: nat, now: int)
    requires k < |items|
    ensures Expected(s, items[..k + 1], now) == Expected(s, items[..k], now) + ExpectedOf(s, items[k], now)
  {
    assert items[..k + 1] == items[..k] + [items[k]];
    ExpectedSnoc(s, items[..k], items[k], now);
  }

  lemma ExpectedOfIsSent(s: Setup, c: Cycle, i: nat, m: Message)
    requires c.Fetched? && i < |c.items| && m in ExpectedOf(s, c.items[i], c.now)
    ensures SentBy(s, c, i, m)
  {
  }

  lemma {:induction false} ExpectedIsSent(s: Setup, c: Cycle, n: nat, m: Message) returns (i: nat)
    requires c.Fetched? && n <= |c.items| && m in Expected(s, c.items[..n], c.now)
    ensures SentBy(s, c, i, m)
  {
    if n == 0 {
      assert false;
    } else {
      ExpectedUpTo(s, c.items, n - 1, c.now);
      if m in ExpectedOf(s, c.items[n - 1], c.now) {
        i := n - 1;
        ExpectedOfIsSent(s, c, i, m);
      } else {
        i := ExpectedIsSent(s, c, n - 1, m);
      }
    }
  }

  lemma {:induction false} AcceptedIsSent(s: Setup, cycles: seq<Cycle>, m: Message) returns (k: nat, i: nat)
    requires m in Run(s, INITIAL, cycles).accepted
    ensures k < |cycles| && SentBy(s, cycles[k], i, m)
  {
    var n := |cycles| - 1;
    var before := Run(s, INITIAL, cycles[..n]);
    AcceptedAfterCycle(s, before, cycles[n]);
    if m in before.accepted {
      k, i := AcceptedIsSent(s, cycles[..n], m);
    } else {
      assert cycles[n].items[..|cycles[n].items|] == cycles[n].items;
      k := n;
      i := ExpectedIsSent(s, cycles[n], |cycles[n].items|, m);
    }
  }

  /** After any run the broker holds exactly the messages of the items that will publish: none is lost and
      none comes from anywhere else. */
  lemma BrokerHoldsExactly(s: Setup, cycles: seq<Cycle>, m: Message)
    ensures m in Run(s, INITIAL, cycles).accepted <==>
            exists k: nat, i: nat :: k < |cycles| && SentBy(s, cycles[k], i, m)
  {
    if m in Run(s, INITIAL, cycles).accepted {
      var k, i := AcceptedIsSent(s, cycles, m);
    }
    if k: nat, i: nat :| k < |cycles| && SentBy(s, cycles[k], i, m) {
      RunDelivers(s, INITIAL, cycles, k, i);
    }
  }

  /** So every message at the broker after any run was published for a resource that some cycle fetched with
      an ID, that the engine decided to publish, and of which the message tells. */
  lemma EveryMessageSaysSo(s: Setup, cycles: seq<Cycle>, m: Message) returns (k: nat, i: nat)
    requires m in Run(s, INITIAL, cycles).accepted
    ensures k < |cycles| && cycles[k].Fetched? && i < |cycles[k].items|
    ensures var item := cycles[k].items[i];
            && item.resource.id != ""
            && Decide(s.lib, s.prog, Some(item.resource), cycles[k].now) == Decision(MATCHED, true)
            && item.oracle.uuid.Some? && SaysSo(s, item.resource, item.oracle.uuid.value, m)
  {
    k, i := AcceptedIsSent(s, cycles, m);
    PublishedSaysSo(s, cycles[k].items[i], cycles[k].now);
    ReasonTells(s.lib, s.prog, Some(cycles[k].items[i].resource), cycles[k].now);
  }
}
