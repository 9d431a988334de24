/** Sums, filters and sorting over sequences, with the permutation and ordering
    laws the scoring proofs use. */
module Folds {

  function Sum(s: seq<real>): real {
    if s == [] then 0.0 else s[0] + Sum(s[1..])
  }

  function Filter<T>(p: T -> bool, s: seq<T>): seq<T> {
    if s == [] then [] else if p(s[0]) then [s[0]] + Filter(p, s[1..]) else Filter(p, s[1..])
  }

  function Map<T, U>(f: T -> U, s: seq<T>): (r: seq<U>)
    ensures |r| == |s| && forall i :: 0 <= i < |s| ==> r[i] == f(s[i])
  {
    seq(|s|, i requires 0 <= i < |s| => f(s[i]))
  }

  /** The results of `f` on each element, one after the other. */
  function FlatMap<T, U>(f: T -> seq<U>, s: seq<T>): seq<U> {
    if s == [] then [] else f(s[0]) + FlatMap(f, s[1..])
  }

  predicate Any<T>(p: T -> bool, s: seq<T>) {
    exists i :: 0 <= i < |s| && p(s[i])
  }

  lemma AnyOfLast<T>(p: T -> bool, s: seq<T>)
    requires s != []
    ensures Any(p, s) <==> Any(p, s[..|s| - 1]) || p(s[|s| - 1])
  {
    var init := s[..|s| - 1];
    assert forall i :: 0 <= i < |init| ==> s[i] == init[i];
  }

  ghost predicate Ascending(s: seq<real>) {
    forall i, j :: 0 <= i < j < |s| ==> s[i] <= s[j]
  }

  /** `a` is nowhere above `b`. */
  ghost predicate Below(a: seq<real>, b: seq<real>) {
    |a| == |b| && forall i :: 0 <= i < |a| ==> a[i] <= b[i]
  }

  function Insert(x: real, s: seq<real>): seq<real> {
    if s == [] || x <= s[0] then [x] + s else [s[0]] + Insert(x, s[1..])
  }

  function Sorted(s: seq<real>): seq<real> {
    if s == [] then [] else Insert(s[0], Sorted(s[1..]))
  }

  // ---- permutation laws ----

  /** Takes the head of `a` out of a permutation `b` of it. */
  lemma FindHead<T>(a: seq<T>, b: seq<T>) returns (l: seq<T>, r: seq<T>)
    requires a != [] && multiset(a) == multiset(b)
    ensures b == l + [a[0]] + r
    ensures multiset(a[1..]) == multiset(l + r)
  {
    assert a[0] in multiset(a);
    var i :| 0 <= i < |b| && b[i] == a[0];
    l, r := b[..i], b[i + 1..];
    assert b == l + [a[0]] + r;
    assert a == [a[0]] + a[1..];
    assert multiset(a[1..]) == multiset(a) - multiset{a[0]};
    assert multiset(l + r) == multiset(b) - multiset{a[0]};
  }

  lemma {:induction false} SumAppend(a: seq<real>, b: seq<real>)
    ensures Sum(a + b) == Sum(a) + Sum(b)
  {
    if a == [] {
      assert a + b == b;
    } else {
      assert (a + b)[1..] == a[1..] + b;
      SumAppend(a[1..], b);
    }
  }

  lemma SplitAt<T>(s: seq<T>, i: nat)
    requires i < |s|
    ensures s == s[..i] + ([s[i]] + s[i + 1..])
  {
  }

  lemma SumPrepend(x: real, s: seq<real>)
    ensures Sum([x] + s) == x + Sum(s)
  {
    assert ([x] + s)[1..] == s;
  }

  lemma SumWithMiddle(l: seq<real>, x: real, r: seq<real>)
    ensures Sum(l + ([x] + r)) == x + Sum(l + r)
  {
    SumAppend(l, [x] + r);
    SumAppend(l, r);
    SumPrepend(x, r);
  }

  lemma SumWithout(s: seq<real>, i: nat)
    requires i < |s|
    ensures Sum(s) == s[i] + Sum(s[..i] + s[i + 1..])
  {
    SplitAt(s, i);
    SumWithMiddle(s[..i], s[i], s[i + 1..]);
  }

  lemma {:induction false} SumPermuted(a: seq<real>, b: seq<real>)
    requires multiset(a) == multiset(b)
    ensures Sum(a) == Sum(b)
  {
    if a == [] {
      assert |multiset(b)| == 0;
    } else {
      var l, r := FindHead(a, b);
      SumPermuted(a[1..], l + r);
      SumWithout(b, |l|);
      assert b[..|l|] + b[|l| + 1..] == l + r;
    }
  }

  lemma {:induction false} FilterAppend<T>(p: T -> bool, a: seq<T>, b: seq<T>)
    ensures Filter(p, a + b) == Filter(p, a) + Filter(p, b)
  {
    if a == [] {
      assert a + b == b;
    } else {
      assert (a + b)[1..] == a[1..] + b;
      FilterAppend(p, a[1..], b);
    }
  }

  lemma {:induction false} FilterPermuted<T>(p: T -> bool, a: seq<T>, b: seq<T>)
    requires multiset(a) == multiset(b)
    ensures multiset(Filter(p, a)) == multiset(Filter(p, b))
  {
    if a == [] {
      assert |multiset(b)| == 0;
    } else {
      var l, r := FindHead(a, b);
      FilterPermuted(p, a[1..], l + r);
      FilterAppend(p, l, r);
      FilterAppend(p, l, [a[0]] + r);
      assert b == l + ([a[0]] + r);
    }
  }

  lemma {:induction false} MapPermuted<T, U>(f: T -> U, a: seq<T>, b: seq<T>)
    requires multiset(a) == multiset(b)
    ensures multiset(Map(f, a)) == multiset(Map(f, b))
  {
    if a == [] {
      assert |multiset(b)| == 0;
    } else {
      var l, r := FindHead(a, b);
      MapPermuted(f, a[1..], l + r);
      assert Map(f, a) == [f(a[0])] + Map(f, a[1..]);
      assert Map(f, l + r) == Map(f, l) + Map(f, r);
      assert Map(f, b) == Map(f, l) + [f(a[0])] + Map(f, r);
    }
  }

  // ---- sorting ----

  lemma {:induction false} InsertPermutes(x: real, s: seq<real>)
    ensures multiset(Insert(x, s)) == multiset(s) + multiset{x} && |Insert(x, s)| == |s| + 1
  {
    if s != [] && x > s[0] {
      InsertPermutes(x, s[1..]);
      assert s == [s[0]] + s[1..];
    }
  }

  lemma {:induction false} InsertIsBounded(x: real, s: seq<real>, low: real)
    requires low <= x && forall i :: 0 <= i < |s| ==> low <= s[i]
    ensures forall i :: 0 <= i < |Insert(x, s)| ==> low <= Insert(x, s)[i]
  {
    if s != [] && x > s[0] {
      InsertIsBounded(x, s[1..], low);
    }
  }

  lemma {:induction false} InsertKeeps(x: real, s: seq<real>)
    requires Ascending(s)
    ensures Ascending(Insert(x, s))
  {
    if s != [] && x > s[0] {
      InsertKeeps(x, s[1..]);
      InsertIsBounded(x, s[1..], s[0]);
    }
  }

  lemma {:induction false} SortedIsAscending(s: seq<real>)
    ensures Ascending(Sorted(s))
  {
    if s != [] {
      SortedIsAscending(s[1..]);
      InsertKeeps(s[0], Sorted(s[1..]));
    }
  }

  lemma {:induction false} SortedPermutes(s: seq<real>)
    ensures multiset(Sorted(s)) == multiset(s) && |Sorted(s)| == |s|
  {
    if s != [] {
      SortedPermutes(s[1..]);
      InsertPermutes(s[0], Sorted(s[1..]));
      assert s == [s[0]] + s[1..];
    }
  }

  /** `Sorted` is what Python's `sorted` promises: ascending, and the same elements. */
  lemma SortedIsAscendingPermutation(s: seq<real>)
    ensures Ascending(Sorted(s)) && multiset(Sorted(s)) == multiset(s) && |Sorted(s)| == |s|
  {
    SortedIsAscending(s);
    SortedPermutes(s);
  }

  lemma HeadIsLeast(a: seq<real>, b: seq<real>)
    requires a != [] && b != [] && Ascending(b) && multiset(a) == multiset(b)
    ensures b[0] <= a[0]
  {
    assert a[0] in multiset(a);
    assert a[0] in b;
  }

  lemma {:induction false} AscendingIsUnique(a: seq<real>, b: seq<real>)
    requires Ascending(a) && Ascending(b) && multiset(a) == multiset(b)
    ensures a == b
  {
    if a == [] || b == [] {
      assert |multiset(a)| == |a| && |multiset(b)| == |b|;
    } else {
      HeadIsLeast(a, b);
      HeadIsLeast(b, a);
      assert a == [a[0]] + a[1..] && b == [b[0]] + b[1..];
      assert multiset(a[1..]) == multiset(a) - multiset{a[0]};
      assert multiset(b[1..]) == multiset(b) - multiset{b[0]};
      AscendingIsUnique(a[1..], b[1..]);
    }
  }

  lemma SortedPermuted(a: seq<real>, b: seq<real>)
    requires multiset(a) == multiset(b)
    ensures Sorted(a) == Sorted(b)
  {
    SortedIsAscendingPermutation(a);
    SortedIsAscendingPermutation(b);
    AscendingIsUnique(Sorted(a), Sorted(b));
  }

  lemma {:induction false} InsertDominance(x: real, y: real, s: seq<real>, t: seq<real>)
    requires x <= y && Below(s, t) && Ascending(s) && Ascending(t)
    ensures Below(Insert(x, s), Insert(y, t))
    decreases |s|
  {
    if s != [] {
      InsertDominance(x, y, s[1..], t[1..]);
      if x <= s[0] && t[0] < y {
        // s[0] moves up one place against t[0]: compare with inserting s[0] into its own tail
        InsertDominance(s[0], y, s[1..], t[1..]);
        assert Insert(s[0], s[1..]) == s;
      }
    }
  }

  /** Pointwise dominance survives sorting. */
  lemma {:induction false} SortDominance(a: seq<real>, b: seq<real>)
    requires Below(a, b)
    ensures Below(Sorted(a), Sorted(b))
  {
    if a != [] {
      SortDominance(a[1..], b[1..]);
      SortedIsAscendingPermutation(a[1..]);
      SortedIsAscendingPermutation(b[1..]);
      InsertDominance(a[0], b[0], Sorted(a[1..]), Sorted(b[1..]));
    }
  }

  // ---- flat maps ----

  lemma {:induction false} FlatMapAppend<T, U>(f: T -> seq<U>, a: seq<T>, b: seq<T>)
    ensures FlatMap(f, a + b) == FlatMap(f, a) + FlatMap(f, b)
  {
    if a == [] {
      assert a + b == b;
    } else {
      assert (a + b)[1..] == a[1..] + b;
      FlatMapAppend(f, a[1..], b);
    }
  }

  lemma FlatMapNext<T, U>(f: T -> seq<U>, s: seq<T>, i: nat)
    requires i < |s|
    ensures FlatMap(f, s[..i + 1]) == FlatMap(f, s[..i]) + f(s[i])
  {
    assert s[..i + 1] == s[..i] + [s[i]];
    FlatMapAppend(f, s[..i], [s[i]]);
    assert FlatMap(f, [s[i]]) == f(s[i]);
  }

  lemma {:induction false} FlatMapTwice<T, U, V>(f: T -> seq<U>, g: U -> seq<V>, h: T -> seq<V>, s: seq<T>)
    requires forall i :: 0 <= i < |s| ==> h(s[i]) == FlatMap(g, f(s[i]))
    ensures FlatMap(g, FlatMap(f, s)) == FlatMap(h, s)
  {
    if s != [] {
      FlatMapTwice(f, g, h, s[1..]);
      FlatMapAppend(g, f(s[0]), FlatMap(f, s[1..]));
    }
  }

  /** Treating the elements that satisfy `p` by `f` and the others by `g` yields, up to order, what
      treating each element in place by its own case yields. */
  lemma {:induction false} FlatMapPartition<T, U>(
      p: T -> bool, q: T -> bool, f: T -> seq<U>, g: T -> seq<U>, h: T -> seq<U>, s: seq<T>)
    requires forall i :: 0 <= i < |s| ==> q(s[i]) == !p(s[i]) && h(s[i]) == if p(s[i]) then f(s[i]) else g(s[i])
    ensures multiset(FlatMap(f, Filter(p, s))) + multiset(FlatMap(g, Filter(q, s))) == multiset(FlatMap(h, s))
  {
    if s != [] {
      FlatMapPartition(p, q, f, g, h, s[1..]);
      var a, b := FlatMap(f, Filter(p, s[1..])), FlatMap(g, Filter(q, s[1..]));
      if p(s[0]) {
        assert multiset(FlatMap(f, Filter(p, s))) == multiset(f(s[0])) + multiset(a);
      } else {
        assert multiset(FlatMap(g, Filter(q, s))) == multiset(g(s[0])) + multiset(b);
      }
    }
  }

  lemma {:induction false} FlatMapFiltered<T, U>(f: T -> seq<U>, p: T -> bool, s: seq<T>)
    requires forall i :: 0 <= i < |s| && !p(s[i]) ==> f(s[i]) == []
    ensures FlatMap(f, Filter(p, s)) == FlatMap(f, s)
  {
    if s != [] {
      FlatMapFiltered(f, p, s[1..]);
      assert !p(s[0]) ==> FlatMap(f, s) == [] + FlatMap(f, s[1..]) == FlatMap(f, s[1..]);
    }
  }

  lemma {:induction false} FilterCongruent<T>(p: T -> bool, q: T -> bool, s: seq<T>)
    requires forall i :: 0 <= i < |s| ==> p(s[i]) == q(s[i])
    ensures Filter(p, s) == Filter(q, s)
  {
    if s != [] {
      FilterCongruent(p, q, s[1..]);
    }
  }

  lemma {:induction false} FilterTwice<T>(p: T -> bool, q: T -> bool, r: T -> bool, s: seq<T>)
    requires forall i :: 0 <= i < |s| ==> r(s[i]) == (p(s[i]) && q(s[i]))
    ensures Filter(q, Filter(p, s)) == Filter(r, s)
  {
    if s != [] {
      FilterTwice(p, q, r, s[1..]);
    }
  }

  lemma {:induction false} FilterMember<T>(p: T -> bool, s: seq<T>, x: T)
    ensures x in Filter(p, s) <==> x in s && p(x)
  {
    if s != [] {
      FilterMember(p, s[1..], x);
    }
  }
}
