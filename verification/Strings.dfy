/** Byte-order sorting and joining of strings, as `sort.Strings` and `strings.Join` do them.

    The facts needed elsewhere are that sorting has a single possible result, so the order in which
    the strings were collected cannot be seen afterwards, and that joining a join is flat. */
module Strings {

  /** Lexicographic order on the characters. */
  predicate Leq(a: string, b: string)
  {
    a == [] || (b != [] && (a[0] < b[0] || (a[0] == b[0] && Leq(a[1..], b[1..]))))
  }

  lemma {:induction false} LeqReflexive(a: string)
    ensures Leq(a, a)
  {
    if a != [] { LeqReflexive(a[1..]); }
  }

  lemma {:induction false} LeqTotal(a: string, b: string)
    ensures Leq(a, b) || Leq(b, a)
  {
    if a != [] && b != [] && a[0] == b[0] { LeqTotal(a[1..], b[1..]); }
  }

  lemma {:induction false} LeqAntisymmetric(a: string, b: string)
    requires Leq(a, b) && Leq(b, a)
    ensures a == b
  {
    if a != [] && b != [] {
      LeqAntisymmetric(a[1..], b[1..]);
      assert a == [a[0]] + a[1..] && b == [b[0]] + b[1..];
    }
  }

  lemma {:induction false} LeqTransitive(a: string, b: string, c: string)
    requires Leq(a, b) && Leq(b, c)
    ensures Leq(a, c)
  {
    if a != [] && a[0] == b[0] && b[0] == c[0] { LeqTransitive(a[1..], b[1..], c[1..]); }
  }

  ghost predicate Sorted(ss: seq<string>)
  {
    forall i, j :: 0 <= i < j < |ss| ==> Leq(ss[i], ss[j])
  }

  function Insert(s: string, ss: seq<string>): (r: seq<string>)
    ensures multiset(r) == multiset{s} + multiset(ss)
  {
    if ss == [] then [s]
    else if Leq(s, ss[0]) then [s] + ss
    else
      assert ss == [ss[0]] + ss[1..];
      [ss[0]] + Insert(s, ss[1..])
  }

  /** What `sort.Strings` leaves behind. */
  function Sort(ss: seq<string>): (r: seq<string>)
    ensures multiset(r) == multiset(ss)
  {
    if ss == [] then []
    else
      assert ss == [ss[0]] + ss[1..];
      Insert(ss[0], Sort(ss[1..]))
  }

  lemma {:induction false} InsertSorted(s: string, ss: seq<string>)
    requires Sorted(ss)
    ensures Sorted(Insert(s, ss))
  {
    if ss != [] && !Leq(s, ss[0]) {
      InsertSorted(s, ss[1..]);
      LeqTotal(s, ss[0]);
      var r := Insert(s, ss[1..]);
      forall x | x in r
        ensures Leq(ss[0], x)
      {
        assert x in multiset(r);
        if x != s { assert x in ss[1..]; }
      }
    } else if ss != [] {
      forall x | x in ss
        ensures Leq(s, x)
      {
        var i :| 0 <= i < |ss| && ss[i] == x;
        if i > 0 { LeqTransitive(s, ss[0], x); }
      }
    }
  }

  lemma {:induction false} SortSorted(ss: seq<string>)
    ensures Sorted(Sort(ss))
  {
    if ss != [] {
      SortSorted(ss[1..]);
      InsertSorted(ss[0], Sort(ss[1..]));
    }
  }

  lemma HeadIsLeast(ss: seq<string>, x: string)
    requires Sorted(ss) && x in multiset(ss)
    ensures ss != [] && Leq(ss[0], x)
  {
    var i :| 0 <= i < |ss| && ss[i] == x;
    LeqReflexive(x);
  }

  lemma TailBag(ss: seq<string>)
    requires ss != []
    ensures multiset(ss[1..]) == multiset(ss) - multiset{ss[0]} && ss[0] in multiset(ss)
  {
    assert ss == [ss[0]] + ss[1..];
  }

  /** Sorting has one possible result: whatever algorithm the library uses, it is `Sort`. */
  lemma {:induction false} SortedIsUnique(a: seq<string>, b: seq<string>)
    requires Sorted(a) && Sorted(b) && multiset(a) == multiset(b)
    ensures a == b
  {
    if a == [] || b == [] {
      if a != [] { TailBag(a); }
      if b != [] { TailBag(b); }
    } else {
      TailBag(a);
      TailBag(b);
      HeadIsLeast(a, b[0]);
      HeadIsLeast(b, a[0]);
      LeqAntisymmetric(a[0], b[0]);
      SortedIsUnique(a[1..], b[1..]);
      assert a == [a[0]] + a[1..] && b == [b[0]] + b[1..];
    }
  }

  /** `strings.Join`. */
  function Join(parts: seq<string>, sep: string): string
  {
    if parts == [] then ""
    else if |parts| == 1 then parts[0]
    else parts[0] + sep + Join(parts[1..], sep)
  }

  /** A join used as the first part of a join adds no structure. */
  lemma {:induction false} JoinFlat(a: seq<string>, b: seq<string>, sep: string)
    requires a != []
    ensures Join([Join(a, sep)] + b, sep) == Join(a + b, sep)
  {
    if |a| == 1 {
      assert a == [a[0]];
    } else {
      JoinFlat(a[1..], b, sep);
      var inner := Join(a[1..], sep);
      assert (a + b)[1..] == a[1..] + b;
      assert ([Join(a, sep)] + b)[1..] == b && ([inner] + b)[1..] == b;
      if b == [] {
        assert Join([inner] + b, sep) == inner;
      } else {
        calc {
          Join([Join(a, sep)] + b, sep);
          (a[0] + sep + inner) + sep + Join(b, sep);
          { assert (a[0] + sep + inner) + sep + Join(b, sep) == a[0] + sep + (inner + sep + Join(b, sep)); }
          a[0] + sep + Join([inner] + b, sep);
          Join(a + b, sep);
        }
      }
    }
  }

  /** A non-empty list of non-empty parts never joins to the empty string. */
  lemma JoinNonEmpty(parts: seq<string>, sep: string)
    requires parts != [] && parts[0] != ""
    ensures Join(parts, sep) != ""
  {
    assert |Join(parts, sep)| >= |parts[0]|;
  }
}
