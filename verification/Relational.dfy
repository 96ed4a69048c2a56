// Rows and columns, and the equi-join of rows of any kind of cell.
module Relational {
  import opened Bags
  import WorkQueue

  function RowOf<T>(blank: T, cols: seq<seq<T>>): nat -> seq<T> {
    (i: nat) => seq(|cols|, c requires 0 <= c < |cols| => if i < |cols[c]| then cols[c][i] else blank)
  }

  function RowCount<T>(cols: seq<seq<T>>): nat {
    if cols == [] then 0 else |cols[0]|
  }

  function RowsOf<T>(blank: T, cols: seq<seq<T>>): seq<seq<T>> {
    Map(WorkQueue.Range(0, RowCount(cols)), RowOf(blank, cols))
  }

  // What a row may hold: a blank where it is too short, and the values that join.
  datatype Kind<!T> = Kind(blank: T, isKey: T -> bool)

  function Project<T>(blank: T, attrs: seq<nat>, both: seq<T>): seq<T> {
    seq(|attrs|, c requires 0 <= c < |attrs| => if attrs[c] < |both| then both[attrs[c]] else blank)
  }

  // The rows of the equi-join of one pair of rows.
  function Match<T(==)>(k: Kind<T>, la: nat, ra: nat, attrs: seq<nat>): (seq<T>, seq<T>) -> seq<seq<T>> {
    (l: seq<T>, r: seq<T>) =>
      if la < |l| && ra < |r| && k.isKey(l[la]) && l[la] == r[ra] then [Project(k.blank, attrs, l + r)] else []
  }

  function MatchRow<T(==)>(k: Kind<T>, la: nat, ra: nat, attrs: seq<nat>, rs: seq<seq<T>>): seq<T> -> seq<seq<T>> {
    (l: seq<T>) => Concat(Map(rs, MatchOne(k, la, ra, attrs, l)))
  }

  function MatchOne<T(==)>(k: Kind<T>, la: nat, ra: nat, attrs: seq<nat>, l: seq<T>): seq<T> -> seq<seq<T>> {
    (r: seq<T>) => Match(k, la, ra, attrs)(l, r)
  }

  // Nested loops over the rows of both sides.
  function EquiJoin<T(==)>(k: Kind<T>, ls: seq<seq<T>>, rs: seq<seq<T>>, la: nat, ra: nat, attrs: seq<nat>): seq<seq<T>> {
    Concat(Map(ls, MatchRow(k, la, ra, attrs, rs)))
  }

  ghost function CellOf<T>(k: Kind<T>, la: nat, ra: nat, attrs: seq<nat>): (seq<T>, seq<T>) -> multiset<seq<T>> {
    (l: seq<T>, r: seq<T>) => multiset(Match(k, la, ra, attrs)(l, r))
  }

  lemma EquiJoinBag<T>(k: Kind<T>, ls: seq<seq<T>>, rs: seq<seq<T>>, la: nat, ra: nat, attrs: seq<nat>)
    ensures multiset(EquiJoin(k, ls, rs, la, ra, attrs)) == Sum(ls, RowSum(rs, CellOf(k, la, ra, attrs)))
  {
    hide Sum, Concat, Map, Match;
    var f := MatchRow(k, la, ra, attrs, rs);
    ConcatBag(Map(ls, f));
    SumMap(ls, f, Bag);
    forall i | 0 <= i < |ls| ensures After(Bag, f)(ls[i]) == RowSum(rs, CellOf(k, la, ra, attrs))(ls[i]) {
      var g := MatchOne(k, la, ra, attrs, ls[i]);
      ConcatBag(Map(rs, g));
      SumMap(rs, g, Bag);
      SumSame(rs, After(Bag, g), Across(CellOf(k, la, ra, attrs), ls[i]));
    }
    SumSame(ls, After(Bag, f), RowSum(rs, CellOf(k, la, ra, attrs)));
  }

  // The bag of an equi-join depends only on the bags of its sides.
  lemma EquiJoinPermutes<T>(k: Kind<T>, ls: seq<seq<T>>, rs: seq<seq<T>>, ls': seq<seq<T>>, rs': seq<seq<T>>, la: nat,
                            ra: nat, attrs: seq<nat>)
    requires multiset(ls) == multiset(ls') && multiset(rs) == multiset(rs')
    ensures multiset(EquiJoin(k, ls, rs, la, ra, attrs)) == multiset(EquiJoin(k, ls', rs', la, ra, attrs))
  {
    hide Sum, EquiJoin, Match;
    var cell := CellOf(k, la, ra, attrs);
    EquiJoinBag(k, ls, rs, la, ra, attrs);
    EquiJoinBag(k, ls', rs', la, ra, attrs);
    SumPermute(ls, ls', RowSum(rs, cell));
    forall i | 0 <= i < |ls'| ensures RowSum(rs, cell)(ls'[i]) == RowSum(rs', cell)(ls'[i]) {
      SumPermute(rs, rs', Across(cell, ls'[i]));
    }
    SumSame(ls', RowSum(rs, cell), RowSum(rs', cell));
  }

  function Mapped<T, U>(f: T -> U): seq<T> -> seq<U> {
    (s: seq<T>) => Map(s, f)
  }

  lemma {:induction false} MapConcat<T, U>(ss: seq<seq<T>>, f: T -> U)
    ensures Map(Concat(ss), f) == Concat(Map(ss, Mapped(f)))
  {
    if ss != [] {
      MapConcat(ss[1..], f);
      assert Map(ss[0] + Concat(ss[1..]), f) == Map(ss[0], f) + Map(Concat(ss[1..]), f);
      assert Map(ss, Mapped(f))[1..] == Map(ss[1..], Mapped(f));
    }
  }

  // f keeps blanks, and keeps which of two cells join.
  ghost predicate KeepsBlank<T, U>(f: T -> U, k: Kind<T>, k': Kind<U>) {
    f(k.blank) == k'.blank
  }

  ghost predicate KeepsKeys<T, U>(f: T -> U, k: Kind<T>, k': Kind<U>, l: seq<T>, r: seq<T>, la: nat, ra: nat) {
    la < |l| && ra < |r| ==> ((k.isKey(l[la]) && l[la] == r[ra]) <==> (k'.isKey(f(l[la])) && f(l[la]) == f(r[ra])))
  }

  lemma MatchMaps<T, U>(f: T -> U, k: Kind<T>, k': Kind<U>, l: seq<T>, r: seq<T>, la: nat, ra: nat, attrs: seq<nat>)
    requires KeepsBlank(f, k, k') && KeepsKeys(f, k, k', l, r, la, ra)
    ensures Map(Match(k, la, ra, attrs)(l, r), Mapped(f)) == Match(k', la, ra, attrs)(Map(l, f), Map(r, f))
  {
    hide Map;
    var l', r' := Map(l, f), Map(r, f);
    var here := Match(k, la, ra, attrs)(l, r);
    var there := Match(k', la, ra, attrs)(l', r');
    if la < |l| && ra < |r| && k.isKey(l[la]) && l[la] == r[ra] {
      var row, row' := Project(k.blank, attrs, l + r), Project(k'.blank, attrs, l' + r');
      forall c | 0 <= c < |attrs| ensures f(row[c]) == row'[c] {
      }
      assert Map(row, f) == row';
      assert here == [row] && there == [row'];
    }
  }

  // The join of mapped rows is the mapped join.
  lemma EquiJoinMaps<T, U>(f: T -> U, k: Kind<T>, k': Kind<U>, ls: seq<seq<T>>, rs: seq<seq<T>>, la: nat, ra: nat,
                           attrs: seq<nat>)
    requires KeepsBlank(f, k, k')
    requires forall i, j :: 0 <= i < |ls| && 0 <= j < |rs| ==> KeepsKeys(f, k, k', ls[i], rs[j], la, ra)
    ensures Map(EquiJoin(k, ls, rs, la, ra, attrs), Mapped(f)) ==
            EquiJoin(k', Map(ls, Mapped(f)), Map(rs, Mapped(f)), la, ra, attrs)
  {
    hide Map, Concat, Match, KeepsKeys;
    var g := Mapped(f);
    var ls', rs' := Map(ls, g), Map(rs, g);
    var rows, rows' := Map(ls, MatchRow(k, la, ra, attrs, rs)), Map(ls', MatchRow(k', la, ra, attrs, rs'));
    MapConcat(rows, g);
    forall i | 0 <= i < |ls| ensures Mapped(g)(rows[i]) == rows'[i] {
      var one, one' := Map(rs, MatchOne(k, la, ra, attrs, ls[i])), Map(rs', MatchOne(k', la, ra, attrs, ls'[i]));
      MapConcat(one, g);
      forall j | 0 <= j < |rs| ensures Mapped(g)(one[j]) == one'[j] {
        MatchMaps(f, k, k', ls[i], rs[j], la, ra, attrs);
      }
      assert Map(one, Mapped(g)) == one';
    }
    assert Map(rows, Mapped(g)) == rows';
  }

  // ---- how often a row comes out of a join ----

  // x is the row of the pair (l, r): cell c is the cell of l of that index, or of r behind them.
  ghost predicate IsPairOf<T>(k: Kind<T>, la: nat, ra: nat, attrs: seq<nat>, l: seq<T>, r: seq<T>, x: seq<T>) {
    && la < |l| && ra < |r| && k.isKey(l[la]) && l[la] == r[ra] && |x| == |attrs|
    && forall c :: 0 <= c < |x| ==>
         x[c] == if attrs[c] < |l| then l[attrs[c]] else if attrs[c] - |l| < |r| then r[attrs[c] - |l|] else k.blank
  }

  lemma MatchCount<T>(k: Kind<T>, la: nat, ra: nat, attrs: seq<nat>, l: seq<T>, r: seq<T>, x: seq<T>)
    ensures multiset(Match(k, la, ra, attrs)(l, r))[x] == if IsPairOf(k, la, ra, attrs, l, r, x) then 1 else 0
  {
    if la < |l| && ra < |r| && k.isKey(l[la]) && l[la] == r[ra] {
      var row := Project(k.blank, attrs, l + r);
      assert Match(k, la, ra, attrs)(l, r) == [row];
      assert IsPairOf(k, la, ra, attrs, l, r, row);
      if IsPairOf(k, la, ra, attrs, l, r, x) {
        assert x == row;
      }
    }
  }

  // The pairs of row i of ls with the first m rows of rs that give x.
  ghost function PairsOfRow<T(!new)>(k: Kind<T>, ls: seq<seq<T>>, rs: seq<seq<T>>, la: nat, ra: nat, attrs: seq<nat>,
                                     x: seq<T>, i: nat, m: nat): set<(int, int)>
    requires i < |ls| && m <= |rs|
  {
    set j | 0 <= j < m && IsPairOf(k, la, ra, attrs, ls[i], rs[j], x) :: (i as int, j)
  }

  ghost function PairsTo<T(!new)>(k: Kind<T>, ls: seq<seq<T>>, rs: seq<seq<T>>, la: nat, ra: nat, attrs: seq<nat>,
                                  x: seq<T>, n: nat): set<(int, int)>
    requires n <= |ls|
  {
    set i, j | 0 <= i < n && 0 <= j < |rs| && IsPairOf(k, la, ra, attrs, ls[i], rs[j], x) :: (i, j)
  }

  lemma OnePairMore<T(!new)>(k: Kind<T>, ls: seq<seq<T>>, rs: seq<seq<T>>, la: nat, ra: nat, attrs: seq<nat>, x: seq<T>,
                             i: nat, m: nat)
    requires i < |ls| && m < |rs|
    ensures |PairsOfRow(k, ls, rs, la, ra, attrs, x, i, 0)| == 0
    ensures |PairsOfRow(k, ls, rs, la, ra, attrs, x, i, m + 1)| ==
            |PairsOfRow(k, ls, rs, la, ra, attrs, x, i, m)| + if IsPairOf(k, la, ra, attrs, ls[i], rs[m], x) then 1 else 0
  {
    hide IsPairOf;
    assert PairsOfRow(k, ls, rs, la, ra, attrs, x, i, 0) == {};
    var before := PairsOfRow(k, ls, rs, la, ra, attrs, x, i, m);
    var one := if IsPairOf(k, la, ra, attrs, ls[i], rs[m], x) then {(i as int, m as int)} else {};
    assert PairsOfRow(k, ls, rs, la, ra, attrs, x, i, m + 1) == before + one;
  }

  lemma OneRowMore<T(!new)>(k: Kind<T>, ls: seq<seq<T>>, rs: seq<seq<T>>, la: nat, ra: nat, attrs: seq<nat>, x: seq<T>,
                            n: nat)
    requires n < |ls|
    ensures |PairsTo(k, ls, rs, la, ra, attrs, x, n + 1)| ==
            |PairsTo(k, ls, rs, la, ra, attrs, x, n)| + |PairsOfRow(k, ls, rs, la, ra, attrs, x, n, |rs|)|
  {
    hide IsPairOf;
    var before, row := PairsTo(k, ls, rs, la, ra, attrs, x, n), PairsOfRow(k, ls, rs, la, ra, attrs, x, n, |rs|);
    assert PairsTo(k, ls, rs, la, ra, attrs, x, n + 1) == before + row && before !! row;
  }

  lemma NextInConcat<S, T>(s: seq<S>, f: S -> seq<T>, m: nat, x: T)
    requires m < |s|
    ensures multiset(Concat(Map(s[..m + 1], f)))[x] == multiset(Concat(Map(s[..m], f)))[x] + multiset(f(s[m]))[x]
  {
    hide Map, Concat;
    MapNext(s, f, m);
    ConcatSnoc(Map(s[..m], f), f(s[m]));
  }

  lemma {:induction false} RowCountIs<T(!new)>(k: Kind<T>, ls: seq<seq<T>>, rs: seq<seq<T>>, la: nat, ra: nat,
                                               attrs: seq<nat>, x: seq<T>, i: nat, m: nat)
    requires i < |ls| && m <= |rs|
    ensures multiset(Concat(Map(rs[..m], MatchOne(k, la, ra, attrs, ls[i]))))[x] ==
            |PairsOfRow(k, ls, rs, la, ra, attrs, x, i, m)|
  {
    hide Map, Concat, Match, IsPairOf;
    var g := MatchOne(k, la, ra, attrs, ls[i]);
    if m == 0 {
      ConcatUnfold(Map(rs[..0], g));
      assert PairsOfRow(k, ls, rs, la, ra, attrs, x, i, m) == {};
    } else {
      hide PairsOfRow;
      RowCountIs(k, ls, rs, la, ra, attrs, x, i, m - 1);
      NextInConcat(rs, g, m - 1, x);
      MatchCount(k, la, ra, attrs, ls[i], rs[m - 1], x);
      OnePairMore(k, ls, rs, la, ra, attrs, x, i, m - 1);
    }
  }

  // How often x comes out of the join with the first n rows of ls.
  ghost function CountTo<T(!new)>(k: Kind<T>, ls: seq<seq<T>>, rs: seq<seq<T>>, la: nat, ra: nat, attrs: seq<nat>,
                                  x: seq<T>, n: nat): nat
    requires n <= |ls|
  {
    multiset(EquiJoin(k, ls[..n], rs, la, ra, attrs))[x]
  }

  lemma CountOfOneMore<T(!new)>(k: Kind<T>, ls: seq<seq<T>>, rs: seq<seq<T>>, la: nat, ra: nat, attrs: seq<nat>,
                                x: seq<T>, n: nat)
    requires n < |ls|
    ensures CountTo(k, ls, rs, la, ra, attrs, x, n + 1) ==
            CountTo(k, ls, rs, la, ra, attrs, x, n) + |PairsOfRow(k, ls, rs, la, ra, attrs, x, n, |rs|)|
  {
    hide Map, Concat, MatchOne, IsPairOf, PairsOfRow;
    NextInConcat(ls, MatchRow(k, la, ra, attrs, rs), n, x);
    RowCountIs(k, ls, rs, la, ra, attrs, x, n, |rs|);
    assert rs[..|rs|] == rs;
  }

  lemma NoPairs<T(!new)>(k: Kind<T>, ls: seq<seq<T>>, rs: seq<seq<T>>, la: nat, ra: nat, attrs: seq<nat>, x: seq<T>)
    ensures CountTo(k, ls, rs, la, ra, attrs, x, 0) == 0 && |PairsTo(k, ls, rs, la, ra, attrs, x, 0)| == 0
  {
    hide Map, MatchRow, IsPairOf;
    ConcatUnfold(Map(ls[..0], MatchRow(k, la, ra, attrs, rs)));
    assert PairsTo(k, ls, rs, la, ra, attrs, x, 0) == {};
  }

  lemma {:induction false} PairCountIs<T(!new)>(k: Kind<T>, ls: seq<seq<T>>, rs: seq<seq<T>>, la: nat, ra: nat,
                                                attrs: seq<nat>, x: seq<T>, n: nat)
    requires n <= |ls|
    ensures CountTo(k, ls, rs, la, ra, attrs, x, n) == |PairsTo(k, ls, rs, la, ra, attrs, x, n)|
  {
    hide CountTo, PairsTo, PairsOfRow;
    if n == 0 {
      NoPairs(k, ls, rs, la, ra, attrs, x);
    } else {
      PairCountIs(k, ls, rs, la, ra, attrs, x, n - 1);
      CountOfOneMore(k, ls, rs, la, ra, attrs, x, n - 1);
      OneRowMore(k, ls, rs, la, ra, attrs, x, n - 1);
    }
  }

  // A row comes out as often as there are pairs of rows of both sides that give it.
  lemma EquiJoinCounts<T(!new)>(k: Kind<T>, ls: seq<seq<T>>, rs: seq<seq<T>>, la: nat, ra: nat, attrs: seq<nat>, x: seq<T>)
    ensures multiset(EquiJoin(k, ls, rs, la, ra, attrs))[x] ==
            |set i, j | 0 <= i < |ls| && 0 <= j < |rs| && IsPairOf(k, la, ra, attrs, ls[i], rs[j], x) :: (i, j)|
  {
    hide EquiJoin, IsPairOf;
    PairCountIs(k, ls, rs, la, ra, attrs, x, |ls|);
    assert ls[..|ls|] == ls;
  }
}
