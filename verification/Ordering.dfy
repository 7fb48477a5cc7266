/** Sorting and the enumeration of sets: what Go's sort package and `range` over a map promise. */
module Ordering {

  lemma SomeMember<T>(s: set<T>) returns (x: T)
    requires s != {}
    ensures x in s
  {
    x :| x in s;
  }

  lemma SameSet<T>(a: set<T>, b: set<T>)
    requires forall x :: x in a <==> x in b
    ensures a == b
  {
  }

  lemma SplitSize<T>(all: set<T>, a: set<T>, b: set<T>)
    requires forall x :: x in all <==> x in a || x in b
    requires forall x :: x in a ==> x !in b
    ensures |a| + |b| == |all|
  {
    SameSet(all, a + b);
    assert a !! b;
  }

  ghost predicate TotalOrder<T(!new)>(leq: (T, T) -> bool) {
    && (forall x :: leq(x, x))
    && (forall x, y :: leq(x, y) || leq(y, x))
    && (forall x, y :: leq(x, y) && leq(y, x) ==> x == y)
    && (forall x, y, z :: leq(x, y) && leq(y, z) ==> leq(x, z))
  }

  ghost predicate Sorted<T(!new)>(leq: (T, T) -> bool, s: seq<T>) {
    forall i, j :: 0 <= i < j < |s| ==> leq(s[i], s[j])
  }

  function Insert<T>(leq: (T, T) -> bool, x: T, s: seq<T>): seq<T> {
    if s == [] then [x]
    else if leq(x, s[0]) then [x] + s
    else [s[0]] + Insert(leq, x, s[1..])
  }

  /** The ascending rearrangement of `s`. */
  function Sort<T>(leq: (T, T) -> bool, s: seq<T>): seq<T> {
    if s == [] then [] else Insert(leq, s[0], Sort(leq, s[1..]))
  }

  lemma {:induction false} InsertMultiset<T>(leq: (T, T) -> bool, x: T, s: seq<T>)
    ensures multiset(Insert(leq, x, s)) == multiset{x} + multiset(s)
  {
    if s != [] {
      assert s == [s[0]] + s[1..];
      InsertMultiset(leq, x, s[1..]);
    }
  }

  lemma ConsSorted<T(!new)>(leq: (T, T) -> bool, x: T, s: seq<T>)
    requires Sorted(leq, s)
    requires forall y :: y in s ==> leq(x, y)
    ensures Sorted(leq, [x] + s)
  {
  }

  lemma {:induction false} InsertSorted<T(!new)>(leq: (T, T) -> bool, x: T, s: seq<T>)
    requires TotalOrder(leq) && Sorted(leq, s)
    ensures Sorted(leq, Insert(leq, x, s))
  {
    if s == [] {
    } else if leq(x, s[0]) {
      forall y | y in s ensures leq(x, y) {
        var k :| 0 <= k < |s| && s[k] == y;
        assert leq(s[0], s[k]);
      }
      ConsSorted(leq, x, s);
    } else {
      InsertSorted(leq, x, s[1..]);
      InsertMultiset(leq, x, s[1..]);
      var tail := Insert(leq, x, s[1..]);
      forall y | y in tail ensures leq(s[0], y) {
        assert y in multiset(tail);
      }
      ConsSorted(leq, s[0], tail);
    }
  }

  lemma {:induction false} SortCorrect<T(!new)>(leq: (T, T) -> bool, s: seq<T>)
    requires TotalOrder(leq)
    ensures Sorted(leq, Sort(leq, s))
    ensures multiset(Sort(leq, s)) == multiset(s)
    ensures |Sort(leq, s)| == |s|
  {
    if s != [] {
      SortCorrect(leq, s[1..]);
      InsertSorted(leq, s[0], Sort(leq, s[1..]));
      InsertMultiset(leq, s[0], Sort(leq, s[1..]));
      assert s == [s[0]] + s[1..];
    }
    assert |multiset(Sort(leq, s))| == |multiset(s)|;
  }

  /** A multiset has only one ascending arrangement, so sorting forgets the order it was given. */
  lemma {:induction false} SortedUnique<T(!new)>(leq: (T, T) -> bool, a: seq<T>, b: seq<T>)
    requires TotalOrder(leq) && Sorted(leq, a) && Sorted(leq, b)
    requires multiset(a) == multiset(b)
    ensures a == b
  {
    assert |multiset(a)| == |a| && |multiset(b)| == |b|;
    if a != [] {
      assert a[0] in multiset(b) && b[0] in multiset(a);
      assert a[0] == b[0];
      assert a == [a[0]] + a[1..] && b == [b[0]] + b[1..];
      assert multiset(a[1..]) == multiset(a) - multiset{a[0]};
      assert multiset(b[1..]) == multiset(b) - multiset{b[0]};
      SortedUnique(leq, a[1..], b[1..]);
    }
  }

  /** `order` lists every element of `s` exactly once. */
  ghost predicate IsOrderOf<T>(order: seq<T>, s: set<T>) {
    multiset(order) == multiset(s)
  }

  lemma RepeatCounts<T>(s: seq<T>, i: nat, j: nat)
    requires i < j < |s| && s[i] == s[j]
    ensures multiset(s)[s[j]] >= 2
  {
    assert s == s[..j] + [s[j]] + s[j + 1..];
    assert s[i] in s[..j];
  }

  lemma OrderMembers<T>(order: seq<T>, s: set<T>)
    requires IsOrderOf(order, s)
    ensures forall x :: x in order <==> x in s
    ensures forall i :: 0 <= i < |order| ==> order[i] in s
    ensures |order| == |s|
  {
    assert forall x :: x in order <==> x in multiset(order);
    assert |multiset(order)| == |order| && |multiset(s)| == |s|;
  }

  lemma OrderDistinct<T>(order: seq<T>, s: set<T>)
    requires IsOrderOf(order, s)
    ensures forall i, j :: 0 <= i < j < |order| ==> order[i] != order[j]
  {
    forall i, j | 0 <= i < j < |order| && order[i] == order[j]
      ensures multiset(order)[order[j]] >= 2
    {
      RepeatCounts(order, i, j);
    }
  }

  lemma SplitAt<T>(s: seq<T>, x: T) returns (before: seq<T>, after: seq<T>)
    requires x in s
    ensures s == before + [x] + after
    ensures multiset(s) == multiset(before + after) + multiset{x}
  {
    var k :| 0 <= k < |s| && s[k] == x;
    before, after := s[..k], s[k + 1..];
    assert s == before + [x] + after;
  }

  /** Go's `range` over a map: the keys come in an order of the runtime's choosing. */
  method Enumerate<T(==)>(s: set<T>) returns (order: seq<T>)
    ensures IsOrderOf(order, s)
  {
    var rest := s;
    order := [];
    while rest != {}
      invariant rest <= s
      invariant multiset(order) + multiset(rest) == multiset(s)
      decreases rest
    {
      var x :| x in rest;
      order, rest := order + [x], rest - {x};
    }
  }

  /** The elements that satisfy `f`, in the order given: what an append loop with a test collects. */
  function Filter<T>(f: T -> bool, s: seq<T>): seq<T> {
    if s == [] then []
    else
      var kept := Filter(f, s[..|s| - 1]);
      if f(s[|s| - 1]) then kept + [s[|s| - 1]] else kept
  }

  lemma FilterNext<T>(f: T -> bool, s: seq<T>, k: nat)
    requires k < |s|
    ensures Filter(f, s[..k + 1]) == if f(s[k]) then Filter(f, s[..k]) + [s[k]] else Filter(f, s[..k])
  {
    assert s[..k + 1][..k] == s[..k];
  }

  /** Filtering an enumeration of a set enumerates the subset. */
  lemma {:induction false} FilterOrder<T>(f: T -> bool, order: seq<T>, s: set<T>, kept: set<T>)
    requires IsOrderOf(order, s)
    requires forall x :: x in kept <==> x in s && f(x)
    ensures IsOrderOf(Filter(f, order), kept)
    ensures |Filter(f, order)| == |kept|
  {
    OrderMembers(order, s);
    if order == [] {
      assert kept == {};
    } else {
      var init, x := order[..|order| - 1], order[|order| - 1];
      assert order == init + [x];
      assert multiset(s) == multiset(s - {x}) + multiset{x};
      assert multiset(init) == multiset(order) - multiset{x};
      assert multiset(s - {x}) == multiset(s) - multiset{x};
      FilterOrder(f, init, s - {x}, kept - {x});
      if f(x) {
        assert multiset(kept) == multiset(kept - {x}) + multiset{x};
      } else {
        assert kept == kept - {x};
      }
    }
  }

  lemma {:induction false} OrderExists<T>(s: set<T>) returns (order: seq<T>)
    ensures IsOrderOf(order, s)
    decreases s
  {
    if s == {} {
      order := [];
    } else {
      var x :| x in s;
      var shorter := OrderExists(s - {x});
      order := shorter + [x];
      assert multiset(s) == multiset(s - {x}) + multiset{x};
    }
  }

  /** The elements of a set in ascending order. */
  ghost function Ascending<T(!new)>(leq: (T, T) -> bool, s: set<T>): (a: seq<T>)
    requires TotalOrder(leq)
    ensures Sorted(leq, a) && IsOrderOf(a, s)
  {
    AscendingExists(leq, s);
    var a :| Sorted(leq, a) && IsOrderOf(a, s);
    a
  }

  lemma AscendingExists<T(!new)>(leq: (T, T) -> bool, s: set<T>)
    requires TotalOrder(leq)
    ensures exists a :: Sorted(leq, a) && IsOrderOf(a, s)
  {
    var order := OrderExists(s);
    SortCorrect(leq, order);
    assert IsOrderOf(Sort(leq, order), s);
  }

  lemma SortOfOrder<T(!new)>(leq: (T, T) -> bool, order: seq<T>, s: set<T>)
    requires TotalOrder(leq) && IsOrderOf(order, s)
    ensures Sort(leq, order) == Ascending(leq, s)
  {
    SortCorrect(leq, order);
    SortedUnique(leq, Sort(leq, order), Ascending(leq, s));
  }

  predicate IntLe(x: int, y: int) { x <= y }

  lemma IntLeTotal()
    ensures TotalOrder(IntLe)
  {
  }

  /** Go's string order: byte by byte, a proper prefix first. */
  predicate StringLe(a: string, b: string) {
    if a == [] then true
    else if b == [] then false
    else if a[0] != b[0] then a[0] < b[0]
    else StringLe(a[1..], b[1..])
  }

  lemma {:induction false} StringLeTrichotomy(a: string, b: string)
    ensures StringLe(a, a)
    ensures StringLe(a, b) || StringLe(b, a)
    ensures StringLe(a, b) && StringLe(b, a) ==> a == b
    decreases |a| + |b|
  {
    if a != [] {
      StringLeTrichotomy(a[1..], if b == [] then [] else b[1..]);
      if b != [] {
        assert a == [a[0]] + a[1..] && b == [b[0]] + b[1..];
      }
    }
  }

  /** The order of strings, said without recursion: up to the first difference. */
  lemma {:induction false} StringLeMeaning(a: string, b: string)
    ensures StringLe(a, b) <==>
            a <= b || exists k :: 0 <= k < |a| && k < |b| && a[..k] == b[..k] && a[k] < b[k]
  {
    if a != [] && b != [] {
      if a[0] == b[0] {
        StringLeMeaning(a[1..], b[1..]);
        if k :| 0 <= k < |a[1..]| && k < |b[1..]| && a[1..][..k] == b[1..][..k] && a[1..][k] < b[1..][k] {
          assert a[..k + 1] == [a[0]] + a[1..][..k] && b[..k + 1] == [b[0]] + b[1..][..k];
          assert a[k + 1] < b[k + 1];
        }
        if k :| 0 <= k < |a| && k < |b| && a[..k] == b[..k] && a[k] < b[k] {
          assert a[1..][..k - 1] == a[..k][1..] && b[1..][..k - 1] == b[..k][1..];
          assert a[1..][k - 1] < b[1..][k - 1];
        }
        assert a[1..] <= b[1..] <==> a <= b;
      } else {
        assert a[..0] == b[..0];
        SameStarts(a, b);
      }
    }
  }

  lemma SameStarts(a: string, b: string)
    ensures forall k :: 0 < k <= |a| && k <= |b| && a[..k] == b[..k] ==> a[0] == b[0]
  {
    forall k | 0 < k <= |a| && k <= |b| && a[..k] == b[..k] ensures a[0] == b[0] {
      assert a[..k][0] == b[..k][0];
    }
  }

  lemma {:induction false} StringLeTransitive(a: string, b: string, c: string)
    requires StringLe(a, b) && StringLe(b, c)
    ensures StringLe(a, c)
  {
    if a != [] && a[0] == b[0] && b[0] == c[0] {
      StringLeTransitive(a[1..], b[1..], c[1..]);
    }
  }

  lemma StringLeTotal()
    ensures TotalOrder(StringLe)
  {
    forall a, b
      ensures StringLe(a, a) && (StringLe(a, b) || StringLe(b, a))
      ensures StringLe(a, b) && StringLe(b, a) ==> a == b
    {
      StringLeTrichotomy(a, b);
    }
    forall a, b, c | StringLe(a, b) && StringLe(b, c) ensures StringLe(a, c) {
      StringLeTransitive(a, b, c);
    }
  }
}
