/** The counters and gauges. A counter vector that is only ever incremented is the bag of the label
    tuples it was incremented with: its value at a tuple is the multiplicity, its sum the size. */
module Metrics {
  import opened Selectors
  import Strings

  datatype Key = Key(resourceType: string, selector: string, detail: string)

  datatype Snapshot = Snapshot(
    published: multiset<Key>,
    skipped: multiset<Key>,
    apiErrors: multiset<Key>,
    brokerErrors: multiset<Key>,
    pending: map<(string, string), nat>,
    lastPoll: int)

  const ZERO := Snapshot(multiset{}, multiset{}, multiset{}, multiset{}, map[], 0)

  /** An update with an empty label is dropped. */
  function Inc(counter: multiset<Key>, k: Key): multiset<Key>
  {
    if k.resourceType == "" || k.selector == "" || k.detail == "" then counter else counter + multiset{k}
  }

  function SetPending(
    pending: map<(string, string), nat>, resourceType: string, selector: string, count: int)
    : map<(string, string), nat>
  {
    if resourceType == "" || selector == "" then pending
    else pending[(resourceType, selector) := if count < 0 then 0 else count]
  }

  /** A counter moves by one under the tuple it is updated with and nowhere else, and not at all if a label
      of the tuple is empty. */
  lemma IncMeans(counter: multiset<Key>, k: Key, other: Key)
    ensures Inc(counter, k)[other] ==
            counter[other] + if other == k && "" !in [k.resourceType, k.selector, k.detail] then 1 else 0
  {
    var labels := [k.resourceType, k.selector, k.detail];
    assert labels[0] == k.resourceType && labels[1] == k.selector && labels[2] == k.detail;
  }

  /** The gauge shows the count, never less than 0, under its labels and is as before under all others. */
  lemma SetPendingMeans(
    pending: map<(string, string), nat>, resourceType: string, selector: string, count: int, other: (string, string))
    ensures var next, own := SetPending(pending, resourceType, selector, count), (resourceType, selector);
            && (other == own && "" !in [own.0, own.1] ==>
                  other in next && next[other] >= count && (next[other] == count || next[other] == 0))
            && (other != own || "" in [own.0, own.1] ==>
                  (other in next <==> other in pending) && (other in next ==> next[other] == pending[other]))
  {
    var labels := [resourceType, selector];
    assert labels[0] == resourceType && labels[1] == selector;
  }

  class Registry {
    var published: multiset<Key>
    var skipped: multiset<Key>
    var apiErrors: multiset<Key>
    var brokerErrors: multiset<Key>
    var pending: map<(string, string), nat>
    var lastPoll: int

    ghost function Now(): Snapshot
      reads this
    {
      Snapshot(published, skipped, apiErrors, brokerErrors, pending, lastPoll)
    }

    constructor ()
      ensures Now() == ZERO
    {
      published, skipped, apiErrors, brokerErrors := multiset{}, multiset{}, multiset{}, multiset{};
      pending, lastPoll := map[], 0;
    }

    method UpdatePendingResources(resourceType: string, selector: string, count: int)
      modifies this
      ensures Now() == old(Now()).(pending := SetPending(old(pending), resourceType, selector, count))
    {
      if resourceType == "" || selector == "" {
        return;
      }
      pending := pending[(resourceType, selector) := if count < 0 then 0 else count];
    }

    method UpdateEventsPublished(resourceType: string, selector: string, reason: string)
      modifies this
      ensures Now() == old(Now()).(published := Inc(old(published), Key(resourceType, selector, reason)))
    {
      if resourceType == "" || selector == "" || reason == "" {
        return;
      }
      published := published + multiset{Key(resourceType, selector, reason)};
    }

    method UpdateResourcesSkipped(resourceType: string, selector: string, reason: string)
      modifies this
      ensures Now() == old(Now()).(skipped := Inc(old(skipped), Key(resourceType, selector, reason)))
    {
      if resourceType == "" || selector == "" || reason == "" {
        return;
      }
      skipped := skipped + multiset{Key(resourceType, selector, reason)};
    }

    method UpdateAPIErrors(resourceType: string, selector: string, errorType: string)
      modifies this
      ensures Now() == old(Now()).(apiErrors := Inc(old(apiErrors), Key(resourceType, selector, errorType)))
    {
      if resourceType == "" || selector == "" || errorType == "" {
        return;
      }
      apiErrors := apiErrors + multiset{Key(resourceType, selector, errorType)};
    }

    method UpdateBrokerErrors(resourceType: string, selector: string, errorType: string)
      modifies this
      ensures Now() == old(Now()).(brokerErrors := Inc(old(brokerErrors), Key(resourceType, selector, errorType)))
    {
      if resourceType == "" || selector == "" || errorType == "" {
        return;
      }
      brokerErrors := brokerErrors + multiset{Key(resourceType, selector, errorType)};
    }

    method UpdateLastSuccessfulPollTimestamp(now: int)
      modifies this
      ensures Now() == old(Now()).(lastPoll := now)
    {
      lastPoll := now;
    }
  }

  /******* The selector label *******/

  function Tags(ls: seq<LabelSelector>): seq<string>
  {
    if ls == [] then [] else [ls[0].key + ":" + ls[0].value] + Tags(ls[1..])
  }

  /** `all`, or the comma-separated `label:value` pairs. */
  function SelectorLabel(ls: seq<LabelSelector>): string
  {
    if ls == [] then "all" else Strings.Join(Tags(ls), ",")
  }

  lemma {:induction false} TagsSnoc(ls: seq<LabelSelector>, s: LabelSelector)
    ensures Tags(ls + [s]) == Tags(ls) + [s.key + ":" + s.value]
    ensures |Tags(ls)| == |ls|
  {
    if ls == [] {
      assert (ls + [s])[1..] == [];
    } else {
      assert (ls + [s])[1..] == ls[1..] + [s];
      TagsSnoc(ls[1..], s);
    }
  }

  lemma {:induction false} JoinSnoc(parts: seq<string>, part: string, sep: string)
    ensures Strings.Join(parts + [part], sep) ==
            if parts == [] then part else Strings.Join(parts, sep) + sep + part
  {
    if |parts| > 1 {
      assert (parts + [part])[1..] == parts[1..] + [part];
      JoinSnoc(parts[1..], part, sep);
      var inner := Strings.Join(parts[1..], sep);
      assert parts[0] + sep + (inner + sep + part) == (parts[0] + sep + inner) + sep + part;
    } else if |parts| == 1 {
      assert (parts + [part])[1..] == [part];
    }
  }

  method GetResourceSelectorLabel(ls: seq<LabelSelector>) returns (s: string)
    ensures s == SelectorLabel(ls)
  {
    if |ls| == 0 {
      return "all";
    }
    var builder := "";
    for i := 0 to |ls|
      invariant builder == Strings.Join(Tags(ls[..i]), ",")
    {
      TagsSnoc(ls[..i], ls[i]);
      assert ls[..i + 1] == ls[..i] + [ls[i]];
      JoinSnoc(Tags(ls[..i]), ls[i].key + ":" + ls[i].value, ",");
      assert Tags(ls[..i]) == [] <==> i == 0;
      if i > 0 {
        builder := builder + ",";
      }
      ghost var before := builder;
      builder := builder + ls[i].key;
      builder := builder + ":";
      builder := builder + ls[i].value;
      assert builder == before + (ls[i].key + ":" + ls[i].value);
    }
    assert ls[..|ls|] == ls;
    return builder;
  }

  /** The label grows by one `label:value` pair per selector, after a comma from the second one on. */
  lemma SelectorLabelGrows(ls: seq<LabelSelector>, s: LabelSelector)
    ensures SelectorLabel(ls + [s]) == (if ls == [] then "" else SelectorLabel(ls) + ",") + s.key + ":" + s.value
    ensures SelectorLabel([]) == "all"
  {
    TagsSnoc(ls, s);
    JoinSnoc(Tags(ls), s.key + ":" + s.value, ",");
    if ls == [] {
      assert "" + s.key == s.key;
    } else {
      var head := SelectorLabel(ls) + ",";
      assert head + (s.key + ":" + s.value) == head + s.key + ":" + s.value;
    }
  }

  /** Every selector list has a label, and `all` is the label of the empty list only. */
  lemma SelectorLabelTells(ls: seq<LabelSelector>)
    ensures SelectorLabel(ls) != "" && (SelectorLabel(ls) == "all" <==> ls == [])
  {
    if ls != [] {
      var tag := ls[0].key + ":" + ls[0].value;
      var text := SelectorLabel(ls);
      assert tag <= text;
      assert text[|ls[0].key|] == tag[|ls[0].key|] == ':';
      assert ':' !in "all";
    }
  }
}
