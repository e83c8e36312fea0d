/** Label selectors, the map they are read as, and the TSL search string that map is printed as. */
module Selectors {
  import opened Strings

  /** A label with a value: an item of a configured selector list, and an entry of the selector map. */
  datatype LabelSelector = LabelSelector(key: string, value: string)

  /** The selector map: entries without a label are dropped and a later entry for a label wins. */
  function SelectorMap(ls: seq<LabelSelector>): map<string, string>
  {
    if ls == [] then map[]
    else
      var n := |ls| - 1;
      var m := SelectorMap(ls[..n]);
      if ls[n].key != "" then m[ls[n].key := ls[n].value] else m
  }

  /** A nil map and an empty map are the same selector. */
  method ToMap(ls: seq<LabelSelector>) returns (result: map<string, string>)
    ensures result == SelectorMap(ls)
  {
    if |ls| == 0 {
      return map[];
    }
    result := map[];
    for i := 0 to |ls|
      invariant result == SelectorMap(ls[..i])
    {
      assert ls[..i + 1][..i] == ls[..i];
      if ls[i].key != "" {
        result := result[ls[i].key := ls[i].value];
      }
    }
    assert ls[..|ls|] == ls;
  }

  /** The value of a label is that of its last entry. */
  lemma {:induction false} LastEntryWins(ls: seq<LabelSelector>, i: nat)
    requires i < |ls| && ls[i].key != ""
    requires forall j :: i < j < |ls| ==> ls[j].key != ls[i].key
    ensures ls[i].key in SelectorMap(ls) && SelectorMap(ls)[ls[i].key] == ls[i].value
  {
    if i < |ls| - 1 { LastEntryWins(ls[..|ls| - 1], i); }
  }

  lemma {:induction false} OnlyListedLabels(ls: seq<LabelSelector>, key: string)
    requires key in SelectorMap(ls)
    ensures key != "" && exists i :: 0 <= i < |ls| && ls[i].key == key
  {
    var n := |ls| - 1;
    if key in SelectorMap(ls[..n]) {
      OnlyListedLabels(ls[..n], key);
      var i :| 0 <= i < n && ls[..n][i].key == key;
      assert ls[i].key == key;
    } else {
      assert ls[n].key == key;
    }
  }

  /******* Printing *******/

  /** Every `'` doubled. */
  function Escape(s: string): string
  {
    if s == "" then ""
    else (if s[0] == '\'' then "''" else [s[0]]) + Escape(s[1..])
  }

  function Clause(p: LabelSelector): string
  {
    "labels." + p.key + "='" + Escape(p.value) + "'"
  }

  function Clauses(ps: seq<LabelSelector>): seq<string>
  {
    if ps == [] then [] else [Clause(ps[0])] + Clauses(ps[1..])
  }

  const AND := " and "

  /** An enumeration of the entries of a map: every entry once, in some order. */
  ghost predicate Enumerates(ps: seq<LabelSelector>, m: map<string, string>)
  {
    && (forall p :: p in ps ==> p.key in m && m[p.key] == p.value)
    && (forall k :: k in m ==> LabelSelector(k, m[k]) in ps)
    && (forall i, j :: 0 <= i < j < |ps| ==> ps[i].key != ps[j].key)
  }

  function Print(ps: seq<LabelSelector>): string
  {
    Join(Sort(Clauses(ps)), AND)
  }

  /** `search` is what the printer makes of the map, whatever order it met the entries in. */
  ghost predicate Prints(m: map<string, string>, search: string)
  {
    forall ps: seq<LabelSelector> :: Enumerates(ps, m) ==> search == Print(ps)
  }

  lemma {:induction false} ClausesAppend(a: seq<LabelSelector>, b: seq<LabelSelector>)
    ensures Clauses(a + b) == Clauses(a) + Clauses(b)
  {
    if a == [] {
      assert a + b == b;
    } else {
      assert (a + b)[1..] == a[1..] + b;
      ClausesAppend(a[1..], b);
    }
  }

  lemma {:induction false} ClausesAt(ps: seq<LabelSelector>, i: nat)
    requires i < |ps|
    ensures |Clauses(ps)| == |ps| && Clauses(ps)[i] == Clause(ps[i])
  {
    if i > 0 {
      ClausesAt(ps[1..], i - 1);
    } else if |ps| > 1 {
      ClausesAt(ps[1..], 0);
    }
  }

  lemma {:induction false} ClausesLength(ps: seq<LabelSelector>)
    ensures |Clauses(ps)| == |ps|
  {
    if ps != [] { ClausesLength(ps[1..]); }
  }

  lemma BagOfMiddle<T>(l: seq<T>, x: T, r: seq<T>)
    ensures multiset(l + r) == multiset(l + ([x] + r)) - multiset{x}
    ensures multiset(l + ([x] + r)) == multiset{x} + multiset(l + r)
  {
    assert multiset(l + r) == multiset(l) + multiset(r);
    assert multiset(l + ([x] + r)) == multiset(l) + (multiset{x} + multiset(r));
  }

  lemma ClausesOfMiddle(l: seq<LabelSelector>, x: LabelSelector, r: seq<LabelSelector>)
    ensures Clauses(l + ([x] + r)) == Clauses(l) + ([Clause(x)] + Clauses(r))
    ensures Clauses(l + r) == Clauses(l) + Clauses(r)
  {
    ClausesAppend(l, [x] + r);
    ClausesAppend(l, r);
    assert ([x] + r)[1..] == r;
  }

  lemma MiddleBag(l: seq<LabelSelector>, x: LabelSelector, r: seq<LabelSelector>)
    ensures multiset(Clauses(l + ([x] + r))) == multiset{Clause(x)} + multiset(Clauses(l + r))
  {
    ClausesOfMiddle(l, x, r);
    BagOfMiddle(Clauses(l), Clause(x), Clauses(r));
  }

  lemma FindInBag(x: LabelSelector, tail: seq<LabelSelector>, b: seq<LabelSelector>)
    returns (l: seq<LabelSelector>, r: seq<LabelSelector>)
    requires multiset([x] + tail) == multiset(b)
    ensures b == l + ([x] + r) && multiset(tail) == multiset(l + r)
  {
    assert x in multiset([x] + tail);
    var i :| 0 <= i < |b| && b[i] == x;
    l, r := b[..i], b[i + 1..];
    assert b == l + ([x] + r) && [] + tail == tail && [] + ([x] + tail) == [x] + tail;
    BagOfMiddle([], x, tail);
    BagOfMiddle(l, x, r);
  }

  lemma SameStep(x: LabelSelector, tail: seq<LabelSelector>, l: seq<LabelSelector>, r: seq<LabelSelector>)
    requires multiset(Clauses(tail)) == multiset(Clauses(l + r))
    ensures multiset(Clauses([x] + tail)) == multiset(Clauses(l + ([x] + r)))
  {
    assert [] + tail == tail && [] + ([x] + tail) == [x] + tail;
    MiddleBag([], x, tail);
    MiddleBag(l, x, r);
  }

  /** Lists with the same entries give the same clauses, as bags. */
  lemma {:induction false} SameEntriesSameClauses(a: seq<LabelSelector>, b: seq<LabelSelector>)
    requires multiset(a) == multiset(b)
    ensures multiset(Clauses(a)) == multiset(Clauses(b))
    decreases |a|
  {
    if a == [] {
      assert |b| == |multiset(b)|;
    } else {
      assert a == [a[0]] + a[1..];
      var l, r := FindInBag(a[0], a[1..], b);
      SameEntriesSameClauses(a[1..], l + r);
      SameStep(a[0], a[1..], l, r);
    }
  }

  /** An enumeration is determined up to order. */
  lemma {:induction false} EnumerationsAgree(a: seq<LabelSelector>, b: seq<LabelSelector>, m: map<string, string>)
    requires Enumerates(a, m) && Enumerates(b, m)
    ensures multiset(a) == multiset(b)
  {
    forall p
      ensures multiset(a)[p] == multiset(b)[p]
    {
      EntryOnce(a, p);
      EntryOnce(b, p);
      assert p in a <==> p in b;
    }
  }

  lemma {:induction false} EntryOnce(ps: seq<LabelSelector>, p: LabelSelector)
    requires forall i, j :: 0 <= i < j < |ps| ==> ps[i].key != ps[j].key
    ensures multiset(ps)[p] == if p in ps then 1 else 0
  {
    if ps != [] {
      EntryOnce(ps[1..], p);
      assert ps == [ps[0]] + ps[1..];
    }
  }

  /** The search string depends on the map only: two enumerations of it print the same. */
  lemma PrintIgnoresOrder(a: seq<LabelSelector>, b: seq<LabelSelector>, m: map<string, string>)
    requires Enumerates(a, m) && Enumerates(b, m)
    ensures Print(a) == Print(b)
  {
    EnumerationsAgree(a, b, m);
    SameEntriesSameClauses(a, b);
    SortSorted(Clauses(a));
    SortSorted(Clauses(b));
    SortedIsUnique(Sort(Clauses(a)), Sort(Clauses(b)));
  }

  /** `ps` enumerates the entries of `m` whose keys are not in `remaining`. */
  ghost predicate EnumeratesOthers(ps: seq<LabelSelector>, m: map<string, string>, remaining: set<string>)
  {
    remaining <= m.Keys && Enumerates(ps, m - remaining)
  }

  lemma EnumerationGrows(ps: seq<LabelSelector>, m: map<string, string>, remaining: set<string>, k: string)
    requires EnumeratesOthers(ps, m, remaining) && k in remaining
    ensures EnumeratesOthers(ps + [LabelSelector(k, m[k])], m, remaining - {k})
    ensures Clauses(ps + [LabelSelector(k, m[k])]) == Clauses(ps) + [Clause(LabelSelector(k, m[k]))]
  {
    ClausesAppend(ps, [LabelSelector(k, m[k])]);
    assert [LabelSelector(k, m[k])][1..] == [];
    var before, after := m - remaining, m - (remaining - {k});
    assert after.Keys == before.Keys + {k};
    var qs := ps + [LabelSelector(k, m[k])];
    forall x | x in after
      ensures LabelSelector(x, after[x]) in qs
    {
      if x != k { assert LabelSelector(x, before[x]) in ps; }
    }
  }

  lemma PrintsIfEnumerated(ps: seq<LabelSelector>, m: map<string, string>)
    requires Enumerates(ps, m)
    ensures Prints(m, Print(ps))
  {
    forall es: seq<LabelSelector> | Enumerates(es, m)
      ensures Print(ps) == Print(es)
    {
      PrintIgnoresOrder(es, ps, m);
    }
  }

  /** The loop over the map takes the keys in any order: each round picks some key not yet seen. */
  method LabelSelectorToSearchString(selector: map<string, string>) returns (search: string)
    ensures Prints(selector, search)
    ensures search == "" <==> selector == map[]
  {
    if |selector| == 0 {
      EmptyPrints(selector);
      return "";
    }
    ghost var ps: seq<LabelSelector> := [];
    var parts: seq<string> := [];
    var remaining := selector.Keys;
    assert selector - remaining == map[];
    while remaining != {}
      invariant EnumeratesOthers(ps, selector, remaining)
      invariant parts == Clauses(ps)
      decreases |remaining|
    {
      var k :| k in remaining;
      var v := selector[k];
      parts := parts + [Clause(LabelSelector(k, v))];
      EnumerationGrows(ps, selector, remaining, k);
      ps := ps + [LabelSelector(k, v)];
      remaining := remaining - {k};
    }
    assert selector - {} == selector;
    parts := Sort(parts);
    search := Join(parts, AND);
    PrintsIfEnumerated(ps, selector);
    PrintNotEmpty(ps, selector);
  }

  lemma HeadEntry(ps: seq<LabelSelector>, m: map<string, string>)
    requires Enumerates(ps, m) && ps != []
    ensures m != map[]
  {
    assert ps[0].key in m;
  }

  lemma EmptyPrints(m: map<string, string>)
    requires |m| == 0
    ensures m == map[] && Prints(m, "")
  {
    assert m.Keys == {};
    forall ps: seq<LabelSelector> | Enumerates(ps, m)
      ensures Print(ps) == ""
    {
      if ps != [] { HeadEntry(ps, m); }
    }
  }

  lemma PrintNotEmpty(ps: seq<LabelSelector>, m: map<string, string>)
    requires Enumerates(ps, m) && m != map[]
    ensures Sort(Clauses(ps)) != [] && Print(ps) != ""
  {
    var k :| k in m;
    assert LabelSelector(k, m[k]) in ps;
    var cs := Clauses(ps);
    ClausesLength(ps);
    assert |Sort(cs)| == |multiset(Sort(cs))| == |cs|;
    assert Sort(cs)[0] in multiset(Sort(cs));
    var i :| 0 <= i < |cs| && cs[i] == Sort(cs)[0];
    ClausesAt(ps, i);
    JoinNonEmpty(Sort(cs), AND);
  }

  lemma EnumerationExtends(qs: seq<LabelSelector>, m: map<string, string>, k: string)
    requires k in m && Enumerates(qs, m - {k})
    ensures Enumerates([LabelSelector(k, m[k])] + qs, m)
  {
    var ps := [LabelSelector(k, m[k])] + qs;
    forall x | x in m
      ensures LabelSelector(x, m[x]) in ps
    {
      if x != k { assert LabelSelector(x, (m - {k})[x]) in qs; }
    }
    forall i, j | 0 <= i < j < |ps|
      ensures ps[i].key != ps[j].key
    {
      assert ps[j] == qs[j - 1];
      if i == 0 { assert qs[j - 1].key in m - {k}; }
    }
  }

  /** Every map has an enumeration. */
  lemma {:induction false} EnumerationExists(m: map<string, string>) returns (ps: seq<LabelSelector>)
    ensures Enumerates(ps, m)
    decreases |m|
  {
    if m == map[] {
      ps := [];
    } else {
      var k :| k in m;
      assert (m - {k}).Keys == m.Keys - {k};
      var qs := EnumerationExists(m - {k});
      EnumerationExtends(qs, m, k);
      ps := [LabelSelector(k, m[k])] + qs;
    }
  }

  lemma SomeEnumeration(m: map<string, string>)
    ensures exists ps :: Enumerates(ps, m)
  {
    var ps := EnumerationExists(m);
  }

  /** The search string of a selector map. */
  ghost function SearchFor(m: map<string, string>): (search: string)
    ensures Prints(m, search)
  {
    SomeEnumeration(m);
    var ps :| Enumerates(ps, m);
    PrintsIfEnumerated(ps, m);
    Print(ps)
  }

  /** There is no other. */
  lemma OneSearchString(m: map<string, string>, search: string)
    requires Prints(m, search)
    ensures search == SearchFor(m)
  {
    var ps := EnumerationExists(m);
    assert search == Print(ps) == SearchFor(m);
  }

  /******* Combining with filters *******/

  function NonEmpty(filters: seq<string>): seq<string>
  {
    if filters == [] then []
    else
      var n := |filters| - 1;
      NonEmpty(filters[..n]) + (if filters[n] != "" then [filters[n]] else [])
  }

  /** The combined string is one flat join: the sorted label clauses, then the non-empty filters in order.
      It is empty only if there is nothing to join. */
  method BuildSearchString(selector: map<string, string>, filters: seq<string>) returns (search: string)
    ensures forall ps: seq<LabelSelector> :: Enumerates(ps, selector) ==>
              search == Join(Sort(Clauses(ps)) + NonEmpty(filters), AND)
    ensures search == "" <==> selector == map[] && NonEmpty(filters) == []
    ensures filters == [] ==> Prints(selector, search)
  {
    var parts: seq<string> := [];
    var labelSearch := LabelSelectorToSearchString(selector);
    if labelSearch != "" {
      parts := parts + [labelSearch];
    }
    ghost var head := parts;
    for i := 0 to |filters|
      invariant parts == head + NonEmpty(filters[..i])
    {
      assert filters[..i + 1][..i] == filters[..i];
      if filters[i] != "" {
        parts := parts + [filters[i]];
      }
    }
    assert filters[..|filters|] == filters;
    search := Join(parts, AND);
    forall ps: seq<LabelSelector> | Enumerates(ps, selector)
      ensures search == Join(Sort(Clauses(ps)) + NonEmpty(filters), AND)
    {
      if selector == map[] {
        if ps != [] { HeadEntry(ps, selector); }
      } else {
        PrintNotEmpty(ps, selector);
        JoinFlat(Sort(Clauses(ps)), NonEmpty(filters), AND);
      }
    }
    PartsAreNonEmpty(filters);
    if parts != [] {
      if labelSearch == "" { assert parts[0] in NonEmpty(filters); }
      JoinNonEmpty(parts, AND);
    }
    if filters == [] {
      forall ps: seq<LabelSelector> | Enumerates(ps, selector)
        ensures search == Print(ps)
      {
        assert Sort(Clauses(ps)) + NonEmpty(filters) == Sort(Clauses(ps));
      }
    }
  }

  lemma {:induction false} NonEmptyConcat(a: seq<string>, b: seq<string>)
    ensures NonEmpty(a + b) == NonEmpty(a) + NonEmpty(b)
  {
    if b == [] {
      assert a + b == a;
    } else {
      assert (a + b)[..|a + b| - 1] == a + b[..|b| - 1];
      NonEmptyConcat(a, b[..|b| - 1]);
    }
  }

  /** A filter is kept in its place unless it is empty. */
  lemma FilterKept(before: seq<string>, filter: string, after: seq<string>)
    ensures NonEmpty(before + [filter] + after) ==
            NonEmpty(before) + (if filter == "" then [] else [filter]) + NonEmpty(after)
    ensures NonEmpty([]) == []
  {
    NonEmptyConcat(before + [filter], after);
    NonEmptyConcat(before, [filter]);
    assert [filter][..0] == [];
  }

  lemma {:induction false} PartsAreNonEmpty(filters: seq<string>)
    ensures forall f :: f in NonEmpty(filters) ==> f != ""
  {
    if filters != [] { PartsAreNonEmpty(filters[..|filters| - 1]); }
  }
}
