/** Sums of a real-valued measure over a sequence. */
module Summation {
  import opened Basics

  function SumOf<T>(items: seq<T>, value: T -> real): real {
    if items == [] then 0.0
    else SumOf(items[..|items| - 1], value) + value(items[|items| - 1])
  }

  lemma {:induction false} SumsCompare<T>(items: seq<T>, f: T -> real, g: T -> real)
    requires forall c :: c in items ==> f(c) <= g(c)
    ensures SumOf(items, f) <= SumOf(items, g)
  {
    if items != [] { SumsCompare(items[..|items| - 1], f, g); }
  }

  lemma {:induction false} SumsAdd<T>(items: seq<T>, f: T -> real, g: T -> real, h: T -> real)
    requires forall c :: c in items ==> f(c) + g(c) == h(c)
    ensures SumOf(items, f) + SumOf(items, g) == SumOf(items, h)
  {
    if items != [] { SumsAdd(items[..|items| - 1], f, g, h); }
  }

  lemma {:induction false} SumOfParts<T>(first: seq<T>, second: seq<T>, f: T -> real)
    ensures SumOf(first + second, f) == SumOf(first, f) + SumOf(second, f)
    decreases |second|
  {
    if second == [] {
      assert first + second == first;
    } else {
      SumOfParts(first, second[..|second| - 1], f);
      assert (first + second)[..|first + second| - 1] == first + second[..|second| - 1];
    }
  }

  lemma MultisetWithout<T>(b: seq<T>, i: nat)
    requires i < |b|
    ensures multiset(b) == multiset(b[..i] + b[i + 1..]) + multiset{b[i]}
  {
    SplitAround(b, i);
    var before, after := b[..i], b[i + 1..];
    assert multiset((before + [b[i]]) + after) == multiset(before + [b[i]]) + multiset(after);
    assert multiset(before + after) == multiset(before) + multiset(after);
  }

  /** Where the last element of `a` sits in a reordering `b`, and that the rest is still a reordering. */
  lemma FindLast<T>(a: seq<T>, b: seq<T>) returns (i: nat)
    requires a != [] && multiset(a) == multiset(b)
    ensures i < |b| && b[i] == a[|a| - 1]
    ensures multiset(a[..|a| - 1]) == multiset(b[..i] + b[i + 1..])
  {
    var n := |a| - 1;
    MultisetWithout(a, n);
    assert a[..n] + a[n + 1..] == a[..n];
    assert a[n] in multiset(b);
    i :| 0 <= i < |b| && b[i] == a[n];
    MultisetWithout(b, i);
    SameRest(multiset(a[..n]), multiset(b[..i] + b[i + 1..]), a[n]);
  }

  lemma SameRest<T>(a: multiset<T>, b: multiset<T>, x: T)
    requires a + multiset{x} == b + multiset{x}
    ensures a == b
  {
    assert a == (a + multiset{x}) - multiset{x};
    assert b == (b + multiset{x}) - multiset{x};
  }

  lemma SumOfOneMore<T>(items: seq<T>, x: T, f: T -> real)
    ensures SumOf(items + [x], f) == SumOf(items, f) + f(x)
  {
    assert (items + [x])[..|items|] == items;
  }

  lemma SumAround<T>(before: seq<T>, x: T, after: seq<T>, f: T -> real)
    ensures SumOf((before + [x]) + after, f) == SumOf(before + after, f) + f(x)
  {
    SumOfParts(before, after, f);
    SumOfOneMore(before, x, f);
    SumOfParts(before + [x], after, f);
  }

  lemma SumWithout<T>(b: seq<T>, i: nat, f: T -> real)
    requires i < |b|
    ensures SumOf(b, f) == SumOf(b[..i] + b[i + 1..], f) + f(b[i])
  {
    SplitAround(b, i);
    SumAround(b[..i], b[i], b[i + 1..], f);
  }

  lemma {:induction false} SumIgnoresOrder<T>(a: seq<T>, b: seq<T>, f: T -> real)
    requires multiset(a) == multiset(b)
    ensures SumOf(a, f) == SumOf(b, f)
    decreases |a|
  {
    if a == [] {
      assert |multiset(b)| == 0;
    } else {
      var i := FindLast(a, b);
      SumIgnoresOrder(a[..|a| - 1], b[..i] + b[i + 1..], f);
      SumWithout(b, i, f);
    }
  }

  // ----- Counting -----

  function Count<T>(items: seq<T>, p: T -> bool): nat {
    if items == [] then 0
    else Count(items[..|items| - 1], p) + if p(items[|items| - 1]) then 1 else 0
  }

  function Indicator<T>(p: T -> bool): T -> real {
    (x: T) => if p(x) then 1.0 else 0.0
  }

  lemma {:induction false} CountIsSum<T>(items: seq<T>, p: T -> bool)
    ensures Count(items, p) as real == SumOf(items, Indicator(p))
    ensures Count(items, p) <= |items|
  {
    if items != [] { CountIsSum(items[..|items| - 1], p); }
  }

  lemma CountIgnoresOrder<T>(a: seq<T>, b: seq<T>, p: T -> bool)
    requires multiset(a) == multiset(b)
    ensures Count(a, p) == Count(b, p)
  {
    CountIsSum(a, p);
    CountIsSum(b, p);
    SumIgnoresOrder(a, b, Indicator(p));
  }

  lemma CountOneMore<T>(items: seq<T>, x: T, p: T -> bool)
    ensures Count(items + [x], p) == Count(items, p) + if p(x) then 1 else 0
  {
    assert (items + [x])[..|items|] == items;
  }

  /** The positions of the elements with a property. */
  ghost function Positions<T>(items: seq<T>, p: T -> bool): set<nat> {
    set i: nat | i < |items| && p(items[i])
  }

  /** Counting counts positions. */
  lemma {:induction false} CountIsPositions<T>(items: seq<T>, p: T -> bool)
    ensures Count(items, p) == |Positions(items, p)|
  {
    if items == [] {
      assert Positions(items, p) == {};
    } else {
      var n := |items| - 1;
      var init := items[..n];
      CountIsPositions(init, p);
      assert n !in Positions(init, p);
      if p(items[n]) {
        assert Positions(items, p) == Positions(init, p) + {n};
      } else {
        assert Positions(items, p) == Positions(init, p);
      }
    }
  }
}
