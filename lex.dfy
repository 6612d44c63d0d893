/** Go's sort.Strings on the keys of a map: byte-wise lexicographic order.
    On valid UTF-8, byte order and code-point order agree, so the order is
    stated here on Dafny's characters. */
module Lex {

  /** Strict lexicographic order on strings. */
  predicate Below(a: string, b: string)
    decreases |a|
  {
    if |a| == 0 then |b| != 0
    else |b| != 0 && (a[0] < b[0] || (a[0] == b[0] && Below(a[1..], b[1..])))
  }

  predicate AtMost(a: string, b: string)
  {
    a == b || Below(a, b)
  }

  lemma {:induction false} BelowIrreflexive(a: string)
    ensures !Below(a, a)
    decreases |a|
  {
    if |a| != 0 {
      BelowIrreflexive(a[1..]);
    }
  }

  lemma {:induction false} BelowTransitive(a: string, b: string, c: string)
    requires Below(a, b) && Below(b, c)
    ensures Below(a, c)
    decreases |a|
  {
    if |a| != 0 && a[0] == b[0] && b[0] == c[0] {
      BelowTransitive(a[1..], b[1..], c[1..]);
    }
  }

  lemma {:induction false} BelowTotal(a: string, b: string)
    ensures a == b || Below(a, b) || Below(b, a)
    decreases |a|
  {
    if |a| != 0 && |b| != 0 && a[0] == b[0] {
      BelowTotal(a[1..], b[1..]);
      if a[1..] == b[1..] {
        assert a == [a[0]] + a[1..] && b == [b[0]] + b[1..];
      }
    }
  }

  lemma AtMostAntisymmetric(a: string, b: string)
    requires AtMost(a, b) && AtMost(b, a)
    ensures a == b
  {
    if a != b {
      BelowTransitive(a, b, a);
      BelowIrreflexive(a);
    }
  }

  /** Ascending, duplicates allowed. */
  predicate Sorted(s: seq<string>)
  {
    forall i, j | 0 <= i < j < |s| :: AtMost(s[i], s[j])
  }

  /** Insertion of one string before the first element it does not exceed. */
  function Insert(s: seq<string>, x: string): (r: seq<string>)
    ensures multiset(r) == multiset(s) + multiset{x}
  {
    if s == [] then [x]
    else if AtMost(x, s[0]) then [x] + s
    else
      assert s == [s[0]] + s[1..];
      [s[0]] + Insert(s[1..], x)
  }

  lemma {:induction false} InsertSorted(s: seq<string>, x: string)
    requires Sorted(s)
    ensures Sorted(Insert(s, x))
  {
    if s == [] {
    } else if AtMost(x, s[0]) {
      forall j | 0 < j < |s| ensures AtMost(x, s[j]) {
        if x != s[0] && s[0] != s[j] { BelowTransitive(x, s[0], s[j]); }
      }
    } else {
      var t := Insert(s[1..], x);
      InsertSorted(s[1..], x);
      assert s == [s[0]] + s[1..];
      BelowTotal(x, s[0]);
      forall j | 0 <= j < |t| ensures AtMost(s[0], t[j]) {
        assert t[j] in multiset(t);
        assert t[j] in multiset(s[1..]) || t[j] == x;
      }
    }
  }

  /** The sort that sort.Strings performs: a permutation of its input ... */
  function Sort(xs: seq<string>): (r: seq<string>)
    ensures multiset(r) == multiset(xs)
  {
    if xs == [] then []
    else
      assert xs == [xs[0]] + xs[1..];
      Insert(Sort(xs[1..]), xs[0])
  }

  /** ... and an ascending one. */
  lemma {:induction false} SortSorted(xs: seq<string>)
    ensures Sorted(Sort(xs))
  {
    if xs != [] {
      SortSorted(xs[1..]);
      InsertSorted(Sort(xs[1..]), xs[0]);
    }
  }

  lemma SortedHeadIsLeast(a: seq<string>)
    requires Sorted(a) && |a| != 0
    ensures forall x | x in a :: AtMost(a[0], x)
  {
    forall x | x in a ensures AtMost(a[0], x) {
      var i :| 0 <= i < |a| && a[i] == x;
      if i == 0 {
        assert AtMost(x, x);
      }
    }
  }

  lemma SortedTail(a: seq<string>)
    requires Sorted(a) && |a| != 0
    ensures Sorted(a[1..])
  {
    var t := a[1..];
    assert forall i | 0 <= i < |t| :: t[i] == a[i + 1];
  }

  lemma MultisetTail(a: seq<string>)
    requires |a| != 0
    ensures multiset(a[1..]) == multiset(a) - multiset{a[0]}
  {
    assert a == [a[0]] + a[1..];
  }

  /** Over a total order, a multiset has exactly one sorted arrangement: the
      result of sorting does not depend on the order the keys were met in. */
  lemma {:induction false} SortedUnique(a: seq<string>, b: seq<string>)
    requires Sorted(a) && Sorted(b)
    requires multiset(a) == multiset(b)
    ensures a == b
    decreases |a|
  {
    assert |a| == |multiset(a)| == |multiset(b)| == |b|;
    if |a| != 0 {
      var x, y := a[0], b[0];
      assert x in multiset(b) && y in multiset(a);
      SortedHeadIsLeast(a);
      SortedHeadIsLeast(b);
      AtMostAntisymmetric(x, y);
      SortedTail(a);
      SortedTail(b);
      MultisetTail(a);
      MultisetTail(b);
      SortedUnique(a[1..], b[1..]);
      assert a == [x] + a[1..] && b == [x] + b[1..];
    }
  }

  /** Some enumeration of a finite set of strings. */
  ghost function Listing(s: set<string>): (r: seq<string>)
    ensures multiset(r) == multiset(s)
  {
    if s == {} then []
    else
      var x :| x in s;
      assert multiset(s) == multiset(s - {x}) + multiset{x};
      Listing(s - {x}) + [x]
  }

  /** The keys of a map in the order sort.Strings puts them. */
  ghost function SortedListing(s: set<string>): (r: seq<string>)
    ensures multiset(r) == multiset(s)
    ensures forall i | 0 <= i < |r| :: r[i] in s
    ensures forall x | x in s :: x in r
  {
    var r := Sort(Listing(s));
    assert forall i | 0 <= i < |r| :: r[i] in multiset(r);
    assert forall x | x in s :: x in multiset(r);
    r
  }

  lemma SortedListingSorted(s: set<string>)
    ensures Sorted(SortedListing(s))
  {
    SortSorted(Listing(s));
  }

  /** Sorting any enumeration of a set gives its sorted listing. */
  lemma SortIsSortedListing(xs: seq<string>, s: set<string>)
    requires multiset(xs) == multiset(s)
    ensures Sort(xs) == SortedListing(s)
  {
    SortSorted(xs);
    SortedListingSorted(s);
    SortedUnique(Sort(xs), SortedListing(s));
  }

  lemma ListingOfSetHasNoDuplicates(r: seq<string>, s: set<string>, i: int, j: int)
    requires multiset(r) == multiset(s)
    requires 0 <= i < j < |r|
    ensures r[i] != r[j]
  {
    assert r == r[..j] + r[j..];
    assert r[i] in multiset(r[..j]) && r[j] in multiset(r[j..]);
    assert multiset(r)[r[j]] == multiset(r[..j])[r[j]] + multiset(r[j..])[r[j]];
    assert multiset(s)[r[j]] <= 1;
  }

  /** The sorted listing of a set is strictly ascending. */
  lemma SortedListingStrict(s: set<string>)
    ensures forall i, j | 0 <= i < j < |SortedListing(s)| :: Below(SortedListing(s)[i], SortedListing(s)[j])
  {
    var r := SortedListing(s);
    SortedListingSorted(s);
    forall i, j | 0 <= i < j < |r| ensures Below(r[i], r[j]) {
      ListingOfSetHasNoDuplicates(r, s, i, j);
    }
  }

  /** Go's `for k := range m { keys = append(keys, k) }`: the keys in some
      order, each once. */
  method Enumerate(s: set<string>) returns (xs: seq<string>)
    ensures multiset(xs) == multiset(s)
  {
    xs := [];
    var rest := s;
    while rest != {}
      invariant rest <= s
      invariant multiset(xs) + multiset(rest) == multiset(s)
      decreases rest
    {
      var k :| k in rest;
      assert multiset(rest) == multiset(rest - {k}) + multiset{k};
      xs := xs + [k];
      rest := rest - {k};
    }
  }

  /** Collect the keys of a map in whatever order, then sort them. */
  method SortedKeys(s: set<string>) returns (keys: seq<string>)
    ensures keys == SortedListing(s)
  {
    var found := Enumerate(s);
    keys := Sort(found);
    SortIsSortedListing(found, s);
  }
}
