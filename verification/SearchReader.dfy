/** A reader for search strings, written from the TSL syntax (`labels.K='V'` clauses, `''` for a quote
    inside a value, ` and ` between clauses), and the proof that it undoes the printer. */
module SearchReader {
  import opened Wrappers
  import opened Strings
  import opened Selectors

  /** The position of the first `='`. */
  function FindOpening(s: string): (r: Option<nat>)
    ensures r.Some? ==> r.value + 2 <= |s|
  {
    if |s| < 2 then None
    else if s[0] == '=' && s[1] == '\'' then Some(0)
    else match FindOpening(s[1..])
      case Some(i) => Some(i + 1)
      case None => None
  }

  /** The value up to the closing quote, unescaped, and what comes after it. */
  function ReadValue(s: string): (r: Option<(string, string)>)
    ensures r.Some? ==> |r.value.1| < |s|
  {
    if s == "" then None
    else if s[0] != '\'' then
      match ReadValue(s[1..])
      case Some((v, rest)) => Some(([s[0]] + v, rest))
      case None => None
    else if |s| >= 2 && s[1] == '\'' then
      match ReadValue(s[2..])
      case Some((v, rest)) => Some((['\''] + v, rest))
      case None => None
    else Some(("", s[1..]))
  }

  const LABELS := "labels."

  function ReadClause(s: string): (r: Option<(LabelSelector, string)>)
    ensures r.Some? ==> |r.value.1| < |s|
  {
    if !(LABELS <= s) then None
    else
      var t := s[|LABELS|..];
      match FindOpening(t)
      case None => None
      case Some(i) =>
        match ReadValue(t[i + 2..])
        case None => None
        case Some((v, rest)) => Some((LabelSelector(t[..i], v), rest))
  }

  function ReadClauses(s: string): Option<seq<LabelSelector>>
    decreases |s|
  {
    match ReadClause(s)
    case None => None
    case Some((p, rest)) =>
      if rest == "" then Some([p])
      else if AND <= rest then
        match ReadClauses(rest[|AND|..])
        case None => None
        case Some(ps) => Some([p] + ps)
      else None
  }

  /** The conditions that a search string asks for; none for the empty string. */
  function Read(s: string): Option<seq<LabelSelector>>
  {
    if s == "" then Some([]) else ReadClauses(s)
  }

  function MapOf(ps: seq<LabelSelector>): map<string, string>
  {
    if ps == [] then map[] else MapOf(ps[1..])[ps[0].key := ps[0].value]
  }

  /******* Reading what was printed *******/

  /** A key that does not contain the text `='`. */
  ghost predicate PlainKey(k: string)
  {
    forall i :: 0 <= i < |k| - 1 ==> !(k[i] == '=' && k[i + 1] == '\'')
  }

  ghost predicate PlainKeys(m: map<string, string>)
  {
    forall k :: k in m ==> PlainKey(k)
  }

  lemma PlainTail(k: string)
    requires PlainKey(k) && k != ""
    ensures PlainKey(k[1..])
  {
    var t := k[1..];
    forall i | 0 <= i < |t| - 1
      ensures !(t[i] == '=' && t[i + 1] == '\'')
    {
      assert t[i] == k[i + 1] && t[i + 1] == k[(i + 1) + 1];
    }
  }

  lemma {:induction false} OpeningAfterKey(k: string, rest: string)
    requires PlainKey(k)
    ensures FindOpening(k + "='" + rest) == Some(|k|)
  {
    var s := k + "='" + rest;
    if k != "" {
      assert s[1..] == k[1..] + "='" + rest;
      PlainTail(k);
      OpeningAfterKey(k[1..], rest);
      assert s[0] == k[0] && (|k| > 1 ==> s[1] == k[1]) && (|k| == 1 ==> s[1] == '=');
      if |k| > 1 { assert !(k[0] == '=' && k[0 + 1] == '\''); }
    }
  }

  lemma {:induction false} ValueReads(v: string, rest: string)
    requires rest == "" || rest[0] != '\''
    ensures ReadValue(Escape(v) + "'" + rest) == Some((v, rest))
  {
    var s := Escape(v) + "'" + rest;
    if v == "" {
      assert s == "'" + rest && s[1..] == rest;
    } else {
      var t := Escape(v[1..]) + "'" + rest;
      ValueReads(v[1..], rest);
      assert v == [v[0]] + v[1..];
      if v[0] == '\'' {
        assert s == "''" + t && s[2..] == t;
      } else {
        assert s == [v[0]] + t && s[1..] == t;
      }
    }
  }

  lemma ClauseSplits(p: LabelSelector, rest: string)
    ensures Clause(p) + rest == LABELS + (p.key + "='" + (Escape(p.value) + "'" + rest))
  {
  }

  lemma ClauseReads(p: LabelSelector, rest: string)
    requires PlainKey(p.key) && (rest == "" || rest[0] != '\'')
    ensures ReadClause(Clause(p) + rest) == Some((p, rest))
  {
    var tail := Escape(p.value) + "'" + rest;
    var t := p.key + "='" + tail;
    ClauseSplits(p, rest);
    assert (LABELS + t)[|LABELS|..] == t;
    OpeningAfterKey(p.key, tail);
    assert t[..|p.key|] == p.key && t[|p.key| + 2..] == tail;
    ValueReads(p.value, rest);
  }

  lemma JoinCons(p: LabelSelector, ps: seq<LabelSelector>)
    requires ps != []
    ensures Join(Clauses([p] + ps), AND) == Clause(p) + (AND + Join(Clauses(ps), AND))
  {
    ClausesLength(ps);
    assert ([p] + ps)[1..] == ps;
    var cs := Clauses([p] + ps);
    assert cs == [Clause(p)] + Clauses(ps) && cs[1..] == Clauses(ps);
    var c, inner := Clause(p), Join(Clauses(ps), AND);
    assert (c + AND) + inner == c + (AND + inner);
  }

  lemma ReadCons(p: LabelSelector, inner: string, ps: seq<LabelSelector>)
    requires PlainKey(p.key) && ReadClauses(inner) == Some(ps)
    ensures ReadClauses(Clause(p) + (AND + inner)) == Some([p] + ps)
  {
    var rest := AND + inner;
    assert rest[0] == ' ' && rest[|AND|..] == inner;
    ClauseReads(p, rest);
  }

  lemma OneReads(p: LabelSelector)
    requires PlainKey(p.key)
    ensures ReadClauses(Join(Clauses([p]), AND)) == Some([p])
  {
    ClauseReads(p, "");
    assert [p][1..] == [];
    assert Clauses([p]) == [Clause(p)];
    assert Clause(p) + "" == Clause(p);
  }

  lemma ConsReads(p: LabelSelector, ps: seq<LabelSelector>)
    requires PlainKey(p.key) && ps != [] && ReadClauses(Join(Clauses(ps), AND)) == Some(ps)
    ensures ReadClauses(Join(Clauses([p] + ps), AND)) == Some([p] + ps)
  {
    JoinCons(p, ps);
    ReadCons(p, Join(Clauses(ps), AND), ps);
  }

  lemma {:induction false} JoinReads(ps: seq<LabelSelector>)
    requires ps != [] && forall p :: p in ps ==> PlainKey(p.key)
    ensures ReadClauses(Join(Clauses(ps), AND)) == Some(ps)
  {
    if |ps| == 1 {
      OneReads(ps[0]);
      assert ps == [ps[0]];
    } else {
      JoinReads(ps[1..]);
      ConsReads(ps[0], ps[1..]);
      assert ps == [ps[0]] + ps[1..];
    }
  }

  /** Sorting the clauses of an enumeration is taking the same entries in another order. */
  lemma {:induction false} SortedEntries(ps: seq<LabelSelector>) returns (qs: seq<LabelSelector>)
    ensures Clauses(qs) == Sort(Clauses(ps))
    ensures forall p :: p in qs <==> p in ps
  {
    if ps == [] {
      qs := [];
    } else {
      var rest := SortedEntries(ps[1..]);
      qs := InsertedEntry(ps[0], rest);
    }
  }

  lemma {:induction false} InsertedEntry(p: LabelSelector, ps: seq<LabelSelector>) returns (qs: seq<LabelSelector>)
    ensures Clauses(qs) == Insert(Clause(p), Clauses(ps))
    ensures forall q :: q in qs <==> q == p || q in ps
  {
    if ps == [] || Leq(Clause(p), Clause(ps[0])) {
      qs := [p] + ps;
    } else {
      var rest := InsertedEntry(p, ps[1..]);
      qs := [ps[0]] + rest;
      assert Clauses(ps)[1..] == Clauses(ps[1..]);
    }
  }

  lemma {:induction false} MapOfEntries(ps: seq<LabelSelector>, m: map<string, string>)
    requires forall p :: p in ps ==> p.key in m && m[p.key] == p.value
    ensures forall k :: k in MapOf(ps) <==> k in m && LabelSelector(k, m[k]) in ps
    ensures forall k :: k in MapOf(ps) ==> MapOf(ps)[k] == m[k]
  {
    if ps != [] { MapOfEntries(ps[1..], m); }
  }

  /** What is read back from the search string of a selector: exactly its entries. */
  lemma SearchReads(m: map<string, string>, search: string) returns (ps: seq<LabelSelector>)
    requires Prints(m, search) && PlainKeys(m)
    ensures Read(search) == Some(ps)
    ensures forall p :: p in ps ==> p.key in m && m[p.key] == p.value
    ensures forall k :: k in m ==> LabelSelector(k, m[k]) in ps
  {
    var es := EnumerationExists(m);
    ps := SortedEntries(es);
    if ps == [] {
      assert search == Join(Clauses(ps), AND) == "";
    } else {
      JoinReads(ps);
      assert es != [] by { assert ps[0] in es; }
      HeadEntry(es, m);
      PrintNotEmpty(es, m);
    }
  }

  /** Round trip: the reader recovers the selector from its search string, whatever its values contain. */
  lemma RoundTrip(m: map<string, string>, search: string)
    requires Prints(m, search) && PlainKeys(m)
    ensures Read(search).Some? && MapOf(Read(search).value) == m
  {
    var ps := SearchReads(m, search);
    MapOfEntries(ps, m);
  }

  lemma {:induction false} BeforeFirstOpening(s: string)
    requires FindOpening(s).Some?
    ensures PlainKey(s[..FindOpening(s).value])
  {
    var k := FindOpening(s).value;
    if k > 0 {
      BeforeFirstOpening(s[1..]);
      var t, rest := s[..k], s[1..][..k - 1];
      forall i | 0 <= i < |t| - 1
        ensures !(t[i] == '=' && t[i + 1] == '\'')
      {
        if i > 0 { assert rest[i - 1] == t[i] && rest[(i - 1) + 1] == t[i + 1]; }
      }
    }
  }

  /** Whatever the reader is given, the keys it reads do not contain `='`. */
  lemma {:induction false} ReadKeysArePlain(s: string)
    requires ReadClauses(s).Some?
    ensures forall p :: p in ReadClauses(s).value ==> PlainKey(p.key)
    decreases |s|
  {
    BeforeFirstOpening(s[|LABELS|..]);
    var rest := ReadClause(s).value.1;
    if rest != "" { ReadKeysArePlain(rest[|AND|..]); }
  }

  lemma {:induction false} MapOfKeys(ps: seq<LabelSelector>, k: string)
    requires k in MapOf(ps)
    ensures exists p :: p in ps && p.key == k
  {
    if ps[0].key != k {
      MapOfKeys(ps[1..], k);
      var p :| p in ps[1..] && p.key == k;
      assert p in ps;
    } else {
      assert ps[0] in ps;
    }
  }

  /** Exactly the selectors without `='` in a key are recovered from their search strings. */
  lemma RoundTripIff(m: map<string, string>, search: string)
    requires Prints(m, search)
    ensures Read(search).Some? && MapOf(Read(search).value) == m <==> PlainKeys(m)
  {
    if PlainKeys(m) {
      RoundTrip(m, search);
    } else if Read(search).Some? && MapOf(Read(search).value) == m {
      var k :| k in m && !PlainKey(k);
      MapOfKeys(Read(search).value, k);
      if search != "" { ReadKeysArePlain(search); }
    }
  }

  /** So different selectors never print the same. */
  lemma PrinterInjective(m: map<string, string>, n: map<string, string>, search: string)
    requires Prints(m, search) && Prints(n, search) && PlainKeys(m) && PlainKeys(n)
    ensures m == n
  {
    RoundTrip(m, search);
    RoundTrip(n, search);
  }

  /** Outside them printing is not injective: some selector on one such key prints as a selector on two labels. */
  lemma KeysWithOpeningCollide()
    ensures exists m, n: map<string, string> :: m != n && Prints(m, COLLISION) && Prints(n, COLLISION)
  {
    var two := MapOf([LabelSelector("a", "x"), LabelSelector("b", "y")]);
    var one := MapOf([LabelSelector("a='x' and labels.b", "y")]);
    assert "a"[0] == 'a' && "b"[0] == 'b' && |"a='x' and labels.b"| == 18;
    TwoClauses();
    OneClause();
    TwoEntries();
    PrintsIfEnumerated([LabelSelector("a", "x"), LabelSelector("b", "y")], two);
    OneEntry(LabelSelector("a='x' and labels.b", "y"));
    PrintsIfEnumerated([LabelSelector("a='x' and labels.b", "y")], one);
    assert "a" in two && "a" !in one;
  }

  lemma OneEntry(p: LabelSelector)
    ensures MapOf([p]) == map[p.key := p.value] && Enumerates([p], MapOf([p]))
  {
    assert [p][1..] == [];
  }

  lemma TwoEntries()
    ensures var ps := [LabelSelector("a", "x"), LabelSelector("b", "y")];
            MapOf(ps) == map["b" := "y"]["a" := "x"] && Enumerates(ps, MapOf(ps))
  {
    var p, q := LabelSelector("a", "x"), LabelSelector("b", "y");
    assert "a"[0] == 'a' && "b"[0] == 'b';
    OneEntry(q);
    assert [p, q][1..] == [q];
  }

  const COLLISION := "labels.a='x' and labels.b='y'"

  lemma EscapeOne(c: char)
    requires c != '\''
    ensures Escape([c]) == [c]
  {
    assert [c][1..] == "";
  }

  lemma ClauseText()
    ensures Clause(LabelSelector("a='x' and labels.b", "y")) == COLLISION
  {
    EscapeOne('y');
    assert "labels." + "a='x' and labels.b" == "labels.a='x' and labels.b";
    assert "labels.a='x' and labels.b" + "='" == "labels.a='x' and labels.b='";
    assert "labels.a='x' and labels.b='" + "y" == "labels.a='x' and labels.b='y";
  }

  lemma PrintOne(p: LabelSelector)
    ensures Print([p]) == Clause(p)
  {
    assert [p][1..] == [] && [Clause(p)][1..] == [];
    assert Clauses([p]) == [Clause(p)];
    assert Sort([Clause(p)]) == [Clause(p)];
  }

  lemma OneClause()
    ensures Print([LabelSelector("a='x' and labels.b", "y")]) == COLLISION
  {
    PrintOne(LabelSelector("a='x' and labels.b", "y"));
    ClauseText();
  }

  lemma ClausePair()
    ensures Clauses([LabelSelector("a", "x"), LabelSelector("b", "y")]) == ["labels.a='x'", "labels.b='y'"]
  {
    var p, q := LabelSelector("a", "x"), LabelSelector("b", "y");
    EscapeOne('x');
    EscapeOne('y');
    assert Clause(p) == "labels.a='x'" && Clause(q) == "labels.b='y'";
    assert [p, q][1..] == [q] && [q][1..] == [];
    assert Clauses([q]) == [Clause(q)];
  }

  lemma SortPair(a: string, b: string)
    requires Leq(a, b)
    ensures Join(Sort([a, b]), AND) == a + AND + b
  {
    assert [a, b][1..] == [b] && [b][1..] == [];
    assert Sort([b]) == [b];
    assert Sort([a, b]) == [a, b];
    assert Join([b], AND) == b;
  }

  lemma TwoClauses()
    ensures Print([LabelSelector("a", "x"), LabelSelector("b", "y")]) == COLLISION
  {
    ClausePair();
    LabelsOrder();
    SortPair("labels.a='x'", "labels.b='y'");
    CollisionText();
  }

  lemma CollisionText()
    ensures "labels.a='x'" + AND + "labels.b='y'" == COLLISION
  {
  }

  lemma LabelsOrder()
    ensures Leq("labels.a='x'", "labels.b='y'")
  {
    var a, b := "labels.a='x'", "labels.b='y'";
    assert Leq(a[7..], b[7..]);
    assert a[6..][1..] == a[7..] && b[6..][1..] == b[7..];
    assert Leq(a[6..], b[6..]);
    assert a[5..][1..] == a[6..] && b[5..][1..] == b[6..];
    assert Leq(a[5..], b[5..]);
    assert a[4..][1..] == a[5..] && b[4..][1..] == b[5..];
    assert Leq(a[4..], b[4..]);
    assert a[3..][1..] == a[4..] && b[3..][1..] == b[4..];
    assert Leq(a[3..], b[3..]);
    assert a[2..][1..] == a[3..] && b[2..][1..] == b[3..];
    assert Leq(a[2..], b[2..]);
    assert a[1..][1..] == a[2..] && b[1..][1..] == b[2..];
    assert Leq(a[1..], b[1..]);
  }

  /******* The server and the shards *******/

  /** What the API server is assumed to do with a search string: apply the conjunction of its conditions. */
  ghost predicate ServerSelects(search: string, labels: map<string, string>)
  {
    Read(search).Some? && forall p :: p in Read(search).value ==> p.key in labels && labels[p.key] == p.value
  }

  /** A resource is selected exactly when it has every label of the selector with the selected value. */
  lemma SelectsIffMatches(m: map<string, string>, search: string, labels: map<string, string>)
    requires Prints(m, search) && PlainKeys(m)
    ensures ServerSelects(search, labels) <==> forall k :: k in m ==> k in labels && labels[k] == m[k]
  {
    var ps := SearchReads(m, search);
    if ServerSelects(search, labels) {
      forall k | k in m
        ensures k in labels && labels[k] == m[k]
      {
        assert LabelSelector(k, m[k]) in ps;
      }
    }
  }

  /** An instance: its selector list and the search string its polls send. */
  datatype Instance = Instance(selectors: seq<LabelSelector>, search: string)

  ghost predicate Configured(i: Instance)
  {
    PlainKeys(SelectorMap(i.selectors)) && Prints(SelectorMap(i.selectors), i.search)
  }

  /** Instances that select different values of one label never see the same resource. */
  lemma ShardsAreDisjoint(a: Instance, b: Instance, key: string, labels: map<string, string>)
    requires Configured(a) && Configured(b)
    requires key in SelectorMap(a.selectors) && key in SelectorMap(b.selectors)
    requires SelectorMap(a.selectors)[key] != SelectorMap(b.selectors)[key]
    ensures !(ServerSelects(a.search, labels) && ServerSelects(b.search, labels))
  {
    SelectsIffMatches(SelectorMap(a.selectors), a.search, labels);
    SelectsIffMatches(SelectorMap(b.selectors), b.search, labels);
  }

  /** Shards on one label watch a resource exactly when the value of its label is one of theirs. */
  lemma ShardsCover(shards: seq<Instance>, key: string, values: seq<string>, labels: map<string, string>)
    requires |shards| == |values| && key != "" && PlainKey(key)
    requires forall i :: 0 <= i < |shards| ==>
               shards[i].selectors == [LabelSelector(key, values[i])] && Configured(shards[i])
    ensures (exists i :: 0 <= i < |shards| && ServerSelects(shards[i].search, labels)) <==>
            key in labels && labels[key] in values
  {
    forall i | 0 <= i < |shards|
      ensures ServerSelects(shards[i].search, labels) <==> key in labels && labels[key] == values[i]
    {
      var ls := shards[i].selectors;
      assert ls[..0] == [];
      assert SelectorMap(ls) == map[key := values[i]];
      SelectsIffMatches(SelectorMap(ls), shards[i].search, labels);
    }
  }

  lemma {:induction false} NoLabelsNoMap(ls: seq<LabelSelector>)
    requires forall s :: s in ls ==> s.key == ""
    ensures SelectorMap(ls) == map[]
  {
    if ls != [] {
      assert ls[|ls| - 1] in ls;
      NoLabelsNoMap(ls[..|ls| - 1]);
    }
  }

  /** A selector list without any label watches everything. */
  lemma NoLabelsWatchesAll(i: Instance, labels: map<string, string>)
    requires Configured(i) && forall s :: s in i.selectors ==> s.key == ""
    ensures ServerSelects(i.search, labels)
  {
    NoLabelsNoMap(i.selectors);
    SelectsIffMatches(SelectorMap(i.selectors), i.search, labels);
  }
}
