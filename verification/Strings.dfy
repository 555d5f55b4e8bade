/** Lexicographic order on strings, and sorting of keyed records by it. */
module Strings {
  /** The order of Rust's `str`: element by element, a proper prefix comes first. */
  predicate Less(a: string, b: string) {
    b != "" && (a == "" || a[0] < b[0] || (a[0] == b[0] && Less(a[1..], b[1..])))
  }

  lemma {:induction false} LessIrreflexive(a: string)
    ensures !Less(a, a)
  {
    if a != "" { LessIrreflexive(a[1..]); }
  }

  lemma {:induction false} LessTransitive(a: string, b: string, c: string)
    requires Less(a, b) && Less(b, c)
    ensures Less(a, c)
  {
    if a != "" && a[0] == b[0] == c[0] { LessTransitive(a[1..], b[1..], c[1..]); }
  }

  lemma {:induction false} LessTotal(a: string, b: string)
    ensures a == b || Less(a, b) || Less(b, a)
  {
    if a != "" && b != "" && a[0] == b[0] {
      LessTotal(a[1..], b[1..]);
      assert a == [a[0]] + a[1..] && b == [b[0]] + b[1..];
    }
  }

  /** A difference inside a prefix decides the order. */
  lemma {:induction false} LessExtend(a: string, b: string, u: string, v: string)
    requires |a| == |b| && Less(a, b)
    ensures Less(a + u, b + v)
  {
    assert (a + u)[1..] == a[1..] + u && (b + v)[1..] == b[1..] + v;
    if a[0] == b[0] { LessExtend(a[1..], b[1..], u, v); }
  }

  /** A common prefix leaves the order to the rest. */
  lemma {:induction false} LessAfterPrefix(p: string, a: string, b: string)
    requires Less(a, b)
    ensures Less(p + a, p + b)
  {
    if p == "" {
      assert p + a == a && p + b == b;
    } else {
      assert (p + a)[1..] == p[1..] + a && (p + b)[1..] == p[1..] + b;
      LessAfterPrefix(p[1..], a, b);
    }
  }

  // ---------------------------------------------------------------------
  // Records keyed by a string
  // ---------------------------------------------------------------------

  predicate Sorted<V>(s: seq<(string, V)>) {
    forall i, j :: 0 <= i < j < |s| ==> !Less(s[j].0, s[i].0)
  }

  ghost predicate DistinctKeys<V>(s: seq<(string, V)>) {
    forall i, j :: 0 <= i < j < |s| ==> s[i].0 != s[j].0
  }

  function Keys<V>(s: seq<(string, V)>): set<string> {
    set i | 0 <= i < |s| :: s[i].0
  }

  function Insert<V>(x: (string, V), s: seq<(string, V)>): seq<(string, V)> {
    if s == [] || !Less(s[0].0, x.0) then [x] + s else [s[0]] + Insert(x, s[1..])
  }

  /** A stable sort by key. */
  function Sort<V>(s: seq<(string, V)>): seq<(string, V)> {
    if s == [] then [] else Insert(s[0], Sort(s[1..]))
  }

  lemma {:induction false} InsertElements<V>(x: (string, V), s: seq<(string, V)>)
    ensures multiset(Insert(x, s)) == multiset{x} + multiset(s)
  {
    if s != [] && Less(s[0].0, x.0) {
      InsertElements(x, s[1..]);
      assert s == [s[0]] + s[1..];
    }
  }

  lemma {:induction false} InsertSorted<V>(x: (string, V), s: seq<(string, V)>)
    requires Sorted(s)
    ensures Sorted(Insert(x, s))
  {
    if s == [] {
    } else if Less(s[0].0, x.0) {
      InsertSorted(x, s[1..]);
      InsertElements(x, s[1..]);
      var t := Insert(x, s[1..]);
      LessAsymmetric(s[0].0, x.0);
      forall j | 0 <= j < |t| ensures !Less(t[j].0, s[0].0) {
        assert t[j] in multiset(t);
        assert t[j] == x || t[j] in s[1..];
      }
    } else {
      forall j | 0 <= j < |s| ensures !Less(s[j].0, x.0) {
        if Less(s[j].0, x.0) {
          LessTotal(s[0].0, s[j].0);
          if Less(s[0].0, s[j].0) { LessTransitive(s[0].0, s[j].0, x.0); }
        }
      }
    }
  }

  lemma LessAsymmetric(a: string, b: string)
    requires Less(a, b)
    ensures !Less(b, a)
  {
    LessIrreflexive(a);
    if Less(b, a) { LessTransitive(a, b, a); }
  }

  /** `Sort` returns its input, in order. */
  lemma {:induction false} SortIsSorted<V>(s: seq<(string, V)>)
    ensures Sorted(Sort(s)) && multiset(Sort(s)) == multiset(s)
  {
    if s != [] {
      SortIsSorted(s[1..]);
      InsertSorted(s[0], Sort(s[1..]));
      InsertElements(s[0], Sort(s[1..]));
      assert s == [s[0]] + s[1..];
    }
  }

  lemma OccursOnce<V>(a: seq<(string, V)>, x: (string, V))
    requires DistinctKeys(a) && x in a
    ensures multiset(a)[x] == 1
  {
    var k :| 0 <= k < |a| && a[k] == x;
    assert a == a[..k] + [a[k]] + a[k + 1..];
    assert x !in a[..k] && x !in a[k + 1..];
  }

  lemma OccursTwice<V>(b: seq<(string, V)>, i: int, j: int)
    requires 0 <= i < j < |b| && b[i] == b[j]
    ensures multiset(b)[b[i]] >= 2
  {
    assert b == b[..j] + [b[j]] + b[j + 1..];
    assert b[i] in b[..j];
  }

  lemma SameKeySameRecord<V>(a: seq<(string, V)>, x: (string, V), y: (string, V))
    requires DistinctKeys(a) && x in a && y in a && x.0 == y.0
    ensures x == y
  {
  }

  lemma DistinctByMultiset<V>(a: seq<(string, V)>, b: seq<(string, V)>)
    requires multiset(a) == multiset(b) && DistinctKeys(a)
    ensures DistinctKeys(b)
  {
    forall i, j | 0 <= i < j < |b| && b[i].0 == b[j].0 ensures false {
      assert b[i] in multiset(a) && b[j] in multiset(a);
      SameKeySameRecord(a, b[i], b[j]);
      OccursTwice(b, i, j);
      OccursOnce(a, b[i]);
    }
  }

  lemma SortedSameFirst<V>(a: seq<(string, V)>, b: seq<(string, V)>)
    requires Sorted(a) && Sorted(b) && multiset(a) == multiset(b) && DistinctKeys(a)
    requires a != [] && b != []
    ensures a[0] == b[0]
  {
    assert a[0] in multiset(b) && b[0] in multiset(a);
    assert a[0] in b && b[0] in a;
    LessTotal(a[0].0, b[0].0);
    assert a[0].0 == b[0].0;
    SameKeySameRecord(a, a[0], b[0]);
  }

  lemma TailElements<V>(a: seq<(string, V)>)
    requires a != []
    ensures multiset(a[1..]) == multiset(a) - multiset{a[0]}
  {
    assert a == [a[0]] + a[1..];
  }

  /** Records with distinct keys have only one sorted order. */
  lemma {:induction false} SortedUnique<V>(a: seq<(string, V)>, b: seq<(string, V)>)
    requires Sorted(a) && Sorted(b) && multiset(a) == multiset(b) && DistinctKeys(a)
    ensures a == b
  {
    assert |multiset(a)| == |a| && |multiset(b)| == |b|;
    if a != [] {
      SortedSameFirst(a, b);
      TailElements(a);
      TailElements(b);
      SortedUnique(a[1..], b[1..]);
      assert a == [a[0]] + a[1..] && b == [b[0]] + b[1..];
    }
  }

  /** The sorted order does not depend on the order of arrival. */
  lemma SortIgnoresArrival<V>(a: seq<(string, V)>, b: seq<(string, V)>)
    requires multiset(a) == multiset(b) && DistinctKeys(a)
    ensures Sort(a) == Sort(b)
  {
    SortIsSorted(a);
    SortIsSorted(b);
    DistinctByMultiset(a, Sort(a));
    SortedUnique(Sort(a), Sort(b));
  }
}
