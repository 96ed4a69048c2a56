// Sequences read as bags: filtering, flattening, and sums of bags over a sequence.
module Bags {

  function Filter<T>(s: seq<T>, p: T -> bool): seq<T> {
    if s == [] then [] else (if p(s[0]) then [s[0]] else []) + Filter(s[1..], p)
  }

  function Concat<T>(ss: seq<seq<T>>): seq<T> {
    if ss == [] then [] else ss[0] + Concat(ss[1..])
  }

  function Map<T, U>(s: seq<T>, f: T -> U): (r: seq<U>)
    ensures |r| == |s| && forall i :: 0 <= i < |s| ==> r[i] == f(s[i])
  {
    if s == [] then [] else [f(s[0])] + Map(s[1..], f)
  }

  lemma SubSlice<T>(s: seq<T>, a: nat, b: nat, x: nat, y: nat)
    requires a <= b <= |s| && x <= y <= b - a
    ensures s[a..b][x..y] == s[a + x..a + y]
  {
    var mid, l, r := s[a..b], s[a..b][x..y], s[a + x..a + y];
    assert |l| == |r|;
    forall i | 0 <= i < |l| ensures l[i] == r[i] {
      assert l[i] == mid[x + i] == s[a + x + i];
    }
  }

  lemma MapNext<T, U>(s: seq<T>, f: T -> U, i: nat)
    requires i < |s|
    ensures Map(s[..i + 1], f) == Map(s[..i], f) + [f(s[i])]
  {
    hide Map;
    var l, r := Map(s[..i + 1], f), Map(s[..i], f) + [f(s[i])];
    forall k | 0 <= k < i + 1 ensures l[k] == r[k] {
    }
  }

  lemma ConcatSnoc<T>(ss: seq<seq<T>>, s: seq<T>)
    ensures Concat(ss + [s]) == Concat(ss) + s
  {
    hide Concat;
    ConcatAppend(ss, [s]);
    ConcatUnfold([s]);
    ConcatUnfold([s][1..]);
  }

  ghost function Sum<T, U>(s: seq<T>, f: T -> multiset<U>): multiset<U> {
    if s == [] then multiset{} else f(s[0]) + Sum(s[1..], f)
  }

  lemma SumUnfold<T, U>(s: seq<T>, f: T -> multiset<U>)
    ensures Sum(s, f) == if s == [] then multiset{} else f(s[0]) + Sum(s[1..], f)
  {
  }

  lemma Regroup<U>(a: multiset<U>, b: multiset<U>, c: multiset<U>)
    ensures a + (b + c) == a + b + c
    ensures a + b + c == a + c + b
  {
  }

  lemma {:induction false} SumConcat<T, U>(a: seq<T>, b: seq<T>, f: T -> multiset<U>)
    ensures Sum(a + b, f) == Sum(a, f) + Sum(b, f)
  {
    hide Sum;
    SumUnfold(a, f);
    if a == [] {
      assert a + b == b;
    } else {
      SumUnfold(a + b, f);
      SumConcat(a[1..], b, f);
      assert (a + b)[1..] == a[1..] + b;
      Regroup(f(a[0]), Sum(a[1..], f), Sum(b, f));
    }
  }

  lemma SumSplit<T, U>(s: seq<T>, f: T -> multiset<U>, i: nat)
    requires i < |s|
    ensures Sum(s, f) == Sum(s[..i], f) + f(s[i]) + Sum(s[i + 1..], f)
    ensures Sum(s, f) == Sum(s[..i] + s[i + 1..], f) + f(s[i])
    ensures Sum(s[..i + 1], f) == Sum(s[..i], f) + f(s[i])
  {
    hide Sum;
    assert s[..i + 1] == s[..i] + [s[i]];
    SumOne(s[i], f);
    SumConcat(s[..i], [s[i]], f);
    assert s == s[..i + 1] + s[i + 1..];
    SumConcat(s[..i + 1], s[i + 1..], f);
    SumConcat(s[..i], s[i + 1..], f);
    Regroup(Sum(s[..i], f), f(s[i]), Sum(s[i + 1..], f));
  }

  lemma SumOne<T, U>(x: T, f: T -> multiset<U>)
    ensures Sum([x], f) == f(x)
  {
    assert Sum([x], f) == f(x) + Sum([], f);
  }

  lemma SumUpdate<T, U>(s: seq<T>, f: T -> multiset<U>, i: nat, x: T)
    requires i < |s|
    ensures Sum(s[i := x], f) + f(s[i]) == Sum(s, f) + f(x)
  {
    hide Sum;
    SumSplit(s, f, i);
    SumSplit(s[i := x], f, i);
    assert s[i := x][..i] == s[..i] && s[i := x][i + 1..] == s[i + 1..];
    Regroup(Sum(s[..i] + s[i + 1..], f), f(x), f(s[i]));
  }

  lemma Remove<T>(s: seq<T>, i: nat)
    requires i < |s|
    ensures multiset(s) == multiset(s[..i] + s[i + 1..]) + multiset{s[i]}
  {
    assert s == s[..i] + ([s[i]] + s[i + 1..]);
  }

  lemma Cancel<U>(a: multiset<U>, b: multiset<U>, c: multiset<U>)
    requires a + c == b + c
    ensures a == b
  {
    assert a == a + c - c;
    assert b == b + c - c;
  }

  lemma RemoveFirst<T>(a: seq<T>, b: seq<T>, i: nat)
    requires multiset(a) == multiset(b) && a != [] && i < |b| && b[i] == a[0]
    ensures multiset(a[1..]) == multiset(b[..i] + b[i + 1..])
  {
    Remove(a, 0);
    Remove(b, i);
    assert a[..0] + a[0 + 1..] == a[1..];
    Cancel(multiset(a[1..]), multiset(b[..i] + b[i + 1..]), multiset{a[0]});
  }

  // A sum over a bag does not depend on the order of its elements.
  lemma {:induction false} SumPermute<T, U>(a: seq<T>, b: seq<T>, f: T -> multiset<U>)
    requires multiset(a) == multiset(b)
    ensures Sum(a, f) == Sum(b, f)
    decreases |a|
  {
    if a == [] {
      assert |multiset(b)| == |b|;
    } else {
      hide Sum;
      assert a[0] in multiset(b);
      var i :| 0 <= i < |b| && b[i] == a[0];
      RemoveFirst(a, b, i);
      SumPermute(a[1..], b[..i] + b[i + 1..], f);
      SumSplit(b, f, i);
      SumUnfold(a, f);
    }
  }

  lemma {:induction false} SumSame<T, U>(s: seq<T>, f: T -> multiset<U>, g: T -> multiset<U>)
    requires forall i :: 0 <= i < |s| ==> f(s[i]) == g(s[i])
    ensures Sum(s, f) == Sum(s, g)
  {
    if s != [] {
      SumSame(s[1..], f, g);
    }
  }

  lemma {:induction false} SumEmpty<T, U>(s: seq<T>, f: T -> multiset<U>)
    requires forall i :: 0 <= i < |s| ==> f(s[i]) == multiset{}
    ensures Sum(s, f) == multiset{}
  {
    if s != [] {
      SumEmpty(s[1..], f);
    }
  }

  lemma {:induction false} SumAdd<T, U>(s: seq<T>, f: T -> multiset<U>, g: T -> multiset<U>, h: T -> multiset<U>)
    requires forall i :: 0 <= i < |s| ==> h(s[i]) == f(s[i]) + g(s[i])
    ensures Sum(s, h) == Sum(s, f) + Sum(s, g)
  {
    hide Sum;
    SumUnfold(s, f);
    SumUnfold(s, g);
    SumUnfold(s, h);
    if s != [] {
      SumAdd(s[1..], f, g, h);
      Regroup(f(s[0]) + g(s[0]), Sum(s[1..], f), Sum(s[1..], g));
      Regroup(f(s[0]), g(s[0]), Sum(s[1..], f));
      Regroup(f(s[0]) + Sum(s[1..], f), g(s[0]), Sum(s[1..], g));
    }
  }

  ghost function Across<A, B, U>(cell: (A, B) -> multiset<U>, a: A): B -> multiset<U> {
    b => cell(a, b)
  }

  ghost function Down<A, B, U>(cell: (A, B) -> multiset<U>, b: B): A -> multiset<U> {
    a => cell(a, b)
  }

  ghost function RowSum<A, B, U>(t: seq<B>, cell: (A, B) -> multiset<U>): A -> multiset<U> {
    a => Sum(t, Across(cell, a))
  }

  ghost function ColSum<A, B, U>(s: seq<A>, cell: (A, B) -> multiset<U>): B -> multiset<U> {
    b => Sum(s, Down(cell, b))
  }

  // Summing row by row is summing column by column.
  lemma {:induction false} SumExchange<A, B, U>(s: seq<A>, t: seq<B>, cell: (A, B) -> multiset<U>)
    ensures Sum(s, RowSum(t, cell)) == Sum(t, ColSum(s, cell))
  {
    if s == [] {
      SumEmpty(t, ColSum(s, cell));
    } else {
      SumExchange(s[1..], t, cell);
      forall i | 0 <= i < |t|
        ensures ColSum(s, cell)(t[i]) == Across(cell, s[0])(t[i]) + ColSum(s[1..], cell)(t[i])
      {
        SumUnfold(s, Down(cell, t[i]));
      }
      SumAdd(t, Across(cell, s[0]), ColSum(s[1..], cell), ColSum(s, cell));
    }
  }

  // Filters keep every copy of what they keep, and nothing else.
  lemma {:induction false} FilterBag<T>(s: seq<T>, p: T -> bool, x: T)
    ensures multiset(Filter(s, p))[x] == if p(x) then multiset(s)[x] else 0
  {
    if s != [] {
      FilterBag(s[1..], p, x);
      assert s == [s[0]] + s[1..];
    }
  }

  ghost function Kept<T>(p: T -> bool): T -> multiset<T> {
    x => if p(x) then multiset{x} else multiset{}
  }

  lemma {:induction false} FilterSum<T>(s: seq<T>, p: T -> bool)
    ensures multiset(Filter(s, p)) == Sum(s, Kept(p))
  {
    if s != [] {
      FilterSum(s[1..], p);
    }
  }

  lemma FilterPermute<T>(a: seq<T>, b: seq<T>, p: T -> bool)
    requires multiset(a) == multiset(b)
    ensures multiset(Filter(a, p)) == multiset(Filter(b, p)) && |Filter(a, p)| == |Filter(b, p)|
  {
    hide Filter;
    FilterSum(a, p);
    FilterSum(b, p);
    SumPermute(a, b, Kept(p));
    assert |multiset(Filter(a, p))| == |Filter(a, p)| && |multiset(Filter(b, p))| == |Filter(b, p)|;
  }

  lemma FilterUnfold<T>(s: seq<T>, p: T -> bool)
    ensures Filter(s, p) == if s == [] then [] else (if p(s[0]) then [s[0]] else []) + Filter(s[1..], p)
  {
  }

  lemma {:induction false} FilterConcat<T>(a: seq<T>, b: seq<T>, p: T -> bool)
    ensures Filter(a + b, p) == Filter(a, p) + Filter(b, p)
  {
    hide Filter;
    FilterUnfold(a, p);
    if a == [] {
      assert a + b == b;
    } else {
      FilterUnfold(a + b, p);
      FilterConcat(a[1..], b, p);
      assert (a + b)[1..] == a[1..] + b;
    }
  }

  lemma FilterNext<T>(s: seq<T>, p: T -> bool, i: nat)
    requires i < |s|
    ensures Filter(s[..i + 1], p) == if p(s[i]) then Filter(s[..i], p) + [s[i]] else Filter(s[..i], p)
  {
    assert s[..i + 1] == s[..i] + [s[i]];
    FilterConcat(s[..i], [s[i]], p);
    assert Filter([s[i]], p) == if p(s[i]) then [s[i]] else [];
  }

  lemma FilterAppend<T>(s: seq<T>, x: T, p: T -> bool)
    ensures Filter(s + [x], p) == Filter(s, p) + if p(x) then [x] else []
  {
    hide Filter;
    FilterConcat(s, [x], p);
    FilterUnfold([x], p);
    FilterUnfold([x][1..], p);
  }

  lemma {:induction false} FilterAll<T>(s: seq<T>, p: T -> bool)
    requires forall i :: 0 <= i < |s| ==> p(s[i])
    ensures Filter(s, p) == s
  {
    if s != [] {
      FilterAll(s[1..], p);
    }
  }

  lemma {:induction false} FilterNone<T>(s: seq<T>, p: T -> bool)
    requires forall i :: 0 <= i < |s| ==> !p(s[i])
    ensures Filter(s, p) == []
  {
    if s != [] {
      FilterNone(s[1..], p);
    }
  }

  lemma {:induction false} FilterHolds<T>(s: seq<T>, p: T -> bool)
    ensures forall i :: 0 <= i < |Filter(s, p)| ==> p(Filter(s, p)[i]) && Filter(s, p)[i] in s
    ensures |Filter(s, p)| <= |s|
  {
    if s != [] {
      FilterHolds(s[1..], p);
    }
  }

  lemma ConcatUnfold<T>(ss: seq<seq<T>>)
    ensures Concat(ss) == if ss == [] then [] else ss[0] + Concat(ss[1..])
  {
  }

  lemma {:induction false} ConcatAppend<T>(a: seq<seq<T>>, b: seq<seq<T>>)
    ensures Concat(a + b) == Concat(a) + Concat(b)
  {
    hide Concat;
    ConcatUnfold(a);
    if a == [] {
      assert a + b == b;
    } else {
      ConcatUnfold(a + b);
      ConcatAppend(a[1..], b);
      assert (a + b)[1..] == a[1..] + b;
    }
  }

  lemma {:induction false} ConcatBag<T>(ss: seq<seq<T>>)
    ensures multiset(Concat(ss)) == Sum(ss, Bag)
  {
    if ss != [] {
      ConcatBag(ss[1..]);
    }
  }

  ghost function Bag<T>(s: seq<T>): multiset<T> { multiset(s) }

  function Filtered<T>(p: T -> bool): seq<T> -> seq<T> {
    s => Filter(s, p)
  }

  lemma {:induction false} FilterOfConcat<T>(ss: seq<seq<T>>, p: T -> bool)
    ensures Filter(Concat(ss), p) == Concat(Map(ss, Filtered(p)))
  {
    if ss != [] {
      FilterConcat(ss[0], Concat(ss[1..]), p);
      FilterOfConcat(ss[1..], p);
    }
  }

  ghost function Single<T, U>(f: T -> U): T -> multiset<U> {
    x => multiset{f(x)}
  }

  ghost function Gate<T, U>(p: T -> bool, f: T -> multiset<U>): T -> multiset<U> {
    x => if p(x) then f(x) else multiset{}
  }

  ghost function Inner<T, U>(f: T -> multiset<U>): seq<T> -> multiset<U> {
    s => Sum(s, f)
  }

  ghost function After<S, T, U>(f: T -> multiset<U>, g: S -> T): S -> multiset<U> {
    x => f(g(x))
  }

  lemma {:induction false} MapBag<T, U>(s: seq<T>, f: T -> U)
    ensures multiset(Map(s, f)) == Sum(s, Single(f))
  {
    if s != [] {
      MapBag(s[1..], f);
    }
  }

  lemma {:induction false} SumFilter<T, U>(s: seq<T>, p: T -> bool, f: T -> multiset<U>)
    ensures Sum(Filter(s, p), f) == Sum(s, Gate(p, f))
  {
    if s != [] {
      SumFilter(s[1..], p, f);
      SumConcat(if p(s[0]) then [s[0]] else [], Filter(s[1..], p), f);
      if p(s[0]) {
        SumOne(s[0], f);
      }
    }
  }

  lemma {:induction false} SumOfConcat<T, U>(ss: seq<seq<T>>, f: T -> multiset<U>)
    ensures Sum(Concat(ss), f) == Sum(ss, Inner(f))
  {
    if ss != [] {
      SumOfConcat(ss[1..], f);
      SumConcat(ss[0], Concat(ss[1..]), f);
    }
  }

  lemma {:induction false} SumMap<S, T, U>(s: seq<S>, g: S -> T, f: T -> multiset<U>)
    ensures Sum(Map(s, g), f) == Sum(s, After(f, g))
  {
    if s != [] {
      SumMap(s[1..], g, f);
      assert Map(s, g)[1..] == Map(s[1..], g);
    }
  }

  lemma {:induction false} FilterImplies<T>(s: seq<T>, p: T -> bool, q: T -> bool)
    requires forall i :: 0 <= i < |s| && p(s[i]) ==> q(s[i])
    ensures |Filter(s, p)| <= |Filter(s, q)|
  {
    if s != [] {
      FilterImplies(s[1..], p, q);
    }
  }

  // A filter keeps fewer of fewer.
  lemma {:induction false} FilterFewer<T>(a: seq<T>, b: seq<T>, p: T -> bool)
    requires multiset(a) <= multiset(b)
    ensures |Filter(a, p)| <= |Filter(b, p)|
  {
    if a != [] {
      hide Filter;
      assert a[0] in multiset(a);
      var i :| 0 <= i < |b| && b[i] == a[0];
      var others := b[..i] + b[i + 1..];
      FewerAfterRemove(a, b, i);
      FilterFewer(a[1..], others, p);
      FilterPermute(b, [a[0]] + others, p);
      FilterUnfold(a, p);
      FilterUnfold([a[0]] + others, p);
      assert ([a[0]] + others)[1..] == others;
    }
  }

  lemma FewerAfterRemove<T>(a: seq<T>, b: seq<T>, i: nat)
    requires multiset(a) <= multiset(b) && a != [] && i < |b| && b[i] == a[0]
    ensures multiset(a[1..]) <= multiset(b[..i] + b[i + 1..])
    ensures multiset(b) == multiset([a[0]] + (b[..i] + b[i + 1..]))
  {
    Remove(a, 0);
    Remove(b, i);
    assert a[..0] + a[0 + 1..] == a[1..];
    RemoveFromBoth(multiset(a[1..]), multiset(b[..i] + b[i + 1..]), a[0]);
  }

  lemma RemoveFromBoth<U>(a: multiset<U>, b: multiset<U>, u: U)
    requires a + multiset{u} <= b + multiset{u}
    ensures a <= b
  {
    forall w ensures a[w] <= b[w] {
      assert (a + multiset{u})[w] <= (b + multiset{u})[w];
    }
  }

  lemma FewerAreShorter<T>(a: seq<T>, b: seq<T>)
    requires multiset(a) <= multiset(b)
    ensures |a| <= |b|
  {
    assert multiset(b) == multiset(a) + (multiset(b) - multiset(a));
    assert |multiset(a)| == |a| && |multiset(b)| == |b|;
  }
}
