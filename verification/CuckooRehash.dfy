// Why the first pass of rehash (src/hashmap_cuckoo.hpp) succeeds: pairs that have found slots
// find slots at twice the capacity.
module CuckooRehash {
  import opened Arith
  import opened Bags
  import opened OpenAddressing
  import opened Options
  import opened Cuckoo
  import opened CuckooAttempts
  import opened CuckooWalk

  // The pairs with both slots in c.
  ghost function InsideOf<K, V>(h1: K -> nat, h2: K -> nat, cap: nat, c: set<nat>): ((K, V)) -> bool
    requires cap > 0
  {
    (pair: (K, V)) => h1(pair.0) % cap in c && cap + h2(pair.0) % cap in c
  }

  lemma AtMostInside<K(!new), V(!new)>(t: Tables<K, V>, h1: K -> nat, h2: K -> nat, c: set<nat>)
    requires TablesOk(t, h1, h2)
    ensures |Filter(Listed(Flat(t), Pair), InsideOf(h1, h2, |t.first|, c))| <= |c|
  {
    hide Filter, Listed;
    FlatIsProper(t, h1, h2);
    var p := InsideOf<K, V>(h1, h2, |t.first|, c);
    CountSlots(Flat(t), Pair<K, V>, p);
    SubsetIsSmaller(SlotsWith(Flat(t), Pair<K, V>, p), c);
  }

  lemma AtLeastInside<K(!new), V(!new)>(t: Tables<K, V>, h1: K -> nat, h2: K -> nat, c: set<nat>)
    requires TablesOk(t, h1, h2) && Closed(Flat(t), Ends<K, V>(h1, h2, |t.first|), c)
    ensures |c| <= |Filter(Listed(Flat(t), Pair), InsideOf(h1, h2, |t.first|, c))|
  {
    hide Filter, Listed;
    var p := InsideOf<K, V>(h1, h2, |t.first|, c);
    CountSlots(Flat(t), Pair<K, V>, p);
    SubsetIsSmaller(c, SlotsWith(Flat(t), Pair<K, V>, p));
  }

  // A slot at twice the capacity, at the capacity.
  function Folded(cap: nat, s: nat): nat
    requires cap > 0
  {
    if s < 2 * cap then s % cap else cap + (s - 2 * cap) % cap
  }

  // The slots that a set of slots folds onto.
  ghost function FoldedSet(cap: nat, c: set<nat>): set<nat>
    requires cap > 0
  {
    Image(c, (s: nat) => Folded(cap, s))
  }

  lemma FoldedHalves(cap: nat, x: nat)
    requires cap > 0
    ensures Folded(cap, x % (2 * cap)) == x % cap
    ensures Folded(cap, 2 * cap + x % (2 * cap)) == cap + x % cap
  {
    ModTwice(x, cap);
  }

  lemma InsideFolds<K, V>(h1: K -> nat, h2: K -> nat, cap: nat, c: set<nat>, pair: (K, V))
    requires cap > 0 && InsideOf<K, V>(h1, h2, 2 * cap, c)(pair)
    ensures InsideOf<K, V>(h1, h2, cap, FoldedSet(cap, c))(pair)
  {
    hide Folded;
    FoldedHalves(cap, h1(pair.0));
    FoldedHalves(cap, h2(pair.0));
    var f := (s: nat) => Folded(cap, s);
    assert f(h1(pair.0) % (2 * cap)) in Image(c, f) && f(2 * cap + h2(pair.0) % (2 * cap)) in Image(c, f);
  }

  // No pair of a table is jammed by others of them at twice the capacity.
  lemma DoublingUnjams<K(!new), V(!new)>(t: Tables<K, V>, t': Tables<K, V>, h1: K -> nat, h2: K -> nat, n: Node<K, V>)
    requires TablesOk(t, h1, h2) && TablesOk(t', h1, h2) && |t'.first| == 2 * |t.first|
    requires Contents(t') + multiset{Pair(n)} <= Contents(t)
    ensures !Jammed(Flat(t'), Ends(h1, h2, |t'.first|), n)
  {
    hide Filter, Listed, Contents, Closed, Placed;
    var cap := |t.first|;
    if c :| Closed(Flat(t'), Ends<K, V>(h1, h2, |t'.first|), c) && Ends<K, V>(h1, h2, |t'.first|)(n).0 in c
            && Ends<K, V>(h1, h2, |t'.first|)(n).1 in c {
      var p, q := InsideOf<K, V>(h1, h2, cap, FoldedSet(cap, c)), InsideOf<K, V>(h1, h2, 2 * cap, c);
      var here, all := Listed(Flat(t'), Pair<K, V>), Listed(Flat(t), Pair<K, V>);
      AtLeastInside(t', h1, h2, c);
      AtMostInside(t, h1, h2, FoldedSet(cap, c));
      ImageIsSmaller(c, (s: nat) => Folded(cap, s));
      forall i | 0 <= i < |here| && q(here[i]) ensures p(here[i]) {
        InsideFolds(h1, h2, cap, c, here[i]);
      }
      FilterImplies(here, q, p);
      InsideFolds(h1, h2, cap, c, Pair(n));
      FilterAppend(here, Pair(n), p);
      ListedContents(t);
      ListedContents(t');
      FilterFewer(here + [Pair(n)], all, p);
    }
  }

  lemma ListedContents<K, V>(t: Tables<K, V>)
    ensures multiset(Listed(Flat(t), Pair)) == Contents(t)
  {
    ListedAreItems(Flat(t), Pair<K, V>);
    FlatContents(t);
  }

  // Re-inserting the pairs of t into cur, at twice the capacity.
  lemma {:induction false} AllArePutBack<K(!new), V(!new)>(t: Tables<K, V>, cur: Tables<K, V>, h1: K -> nat, h2: K -> nat,
                                                           slots: seq<Option<Node<K, V>>>)
    requires TablesOk(t, h1, h2) && TablesOk(cur, h1, h2) && |cur.first| == 2 * |t.first|
    requires Contents(cur) + Items(slots, Pair) == Contents(t) && |Contents(t)| <= 256
    ensures PutAll(cur, h1, h2, slots).Some?
    decreases |slots|
  {
    hide Contents, FirstTry, Placed, Sum;
    if slots != [] {
      SumUnfold(slots, SlotBag(Pair<K, V>));
      var rest := Items(slots[1..], Pair<K, V>);
      if slots[0].Some? {
        OneOfAll(Contents(cur), Pair(slots[0].value), rest, Contents(t));
        DoublingUnjams(t, cur, h1, h2, slots[0].value);
        SmallTableStoresWhen(cur, h1, h2, slots[0].value);
      }
      PutBackConserves(cur, h1, h2, slots[0]);
      Regroup(Contents(cur), One(slots[0], Pair), rest);
      AllArePutBack(t, PutBack(cur, h1, h2, slots[0]).tables, h1, h2, slots[1..]);
    }
  }

  lemma OneOfAll<U>(cur: multiset<U>, u: U, rest: multiset<U>, all: multiset<U>)
    requires cur + (multiset{u} + rest) == all
    ensures cur + multiset{u} <= all && |cur| < |all|
  {
    assert all == (cur + multiset{u}) + rest;
    assert |all| == |cur + multiset{u}| + |rest|;
  }

  // The first pass of a rehash of up to 256 pairs drops nothing.
  lemma PassNeverFails<K(!new), V(!new)>(t: Tables<K, V>, h1: K -> nat, h2: K -> nat)
    requires TablesOk(t, h1, h2) && |Contents(t)| <= 256
    ensures Pass(t, h1, h2).Some? && Contents(Pass(t, h1, h2).value) == Contents(t)
  {
    hide PutAll, Items;
    var start := Empty<K, V>(2 * |t.first|);
    ItemsOfEmptySlots(start.first, Pair<K, V>);
    ItemsOfEmptySlots(start.second, Pair<K, V>);
    InterleaveKeepsItems(t.first, t.second, Pair<K, V>);
    assert Contents(start) == multiset{};
    AllArePutBack(t, start, h1, h2, Interleave(t.first, t.second));
    PassConserves(t, h1, h2);
  }
}
