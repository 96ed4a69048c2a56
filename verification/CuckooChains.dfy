// Maps of HashMapCuckoo (src/hashmap_cuckoo.hpp) whose rehash fails on its first pass, although
// every insert before it has succeeded: a chain of pairs that is too long for the 512 kicks.
// Depending on where two of the pairs are, the passes never end, or end with pairs lost.
module CuckooChains {
  import opened Arith
  import opened OpenAddressing
  import opened Options
  import opened Cuckoo
  import opened CuckooLimits

  // At this capacity each p[k] has the slot k in both tables, each q[k] the slots k and k - 1,
  // and the pairs of r are apart from them.
  ghost predicate IsChain<K, V>(h1: K -> nat, h2: K -> nat, p: seq<Node<K, V>>, q: seq<Node<K, V>>, r: seq<Node<K, V>>,
                                cap: nat) {
    && |p| == |q| == 257 && 258 + |r| <= cap
    && (forall k :: 0 <= k < 257 ==> h1(p[k].key) % cap == h2(p[k].key) % cap == k)
    && (forall k :: 0 <= k < 257 ==> h1(q[k].key) % cap == k && h2(q[k].key) % cap == if k == 0 then 257 else k - 1)
    && (forall k :: 0 <= k < |r| ==> h1(r[k].key) % cap == 258 + k)
  }

  lemma ChainSize<K, V>(h1: K -> nat, h2: K -> nat, p: seq<Node<K, V>>, q: seq<Node<K, V>>, r: seq<Node<K, V>>, cap: nat)
    requires IsChain(h1, h2, p, q, r, cap)
    ensures |p| == |q| == 257 && 258 + |r| <= cap
  {
  }

  // A chain at twice a capacity is one at that capacity.
  lemma ChainFolds<K, V>(h1: K -> nat, h2: K -> nat, p: seq<Node<K, V>>, q: seq<Node<K, V>>, r: seq<Node<K, V>>, cap: nat)
    requires IsChain(h1, h2, p, q, r, 2 * cap) && 258 + |r| <= cap
    ensures IsChain(h1, h2, p, q, r, cap)
  {
    forall x: nat ensures x % (2 * cap) < cap ==> x % cap == x % (2 * cap) {
      ModTwice(x, cap);
      WrapOnce(x % (2 * cap), cap);
    }
  }

  // The tables with the first k of each. Below s it is the p[k] that are in the first table.
  ghost function Held<K, V>(p: seq<Node<K, V>>, q: seq<Node<K, V>>, s: nat, cap: nat, k: nat): (t: Tables<K, V>)
    requires k <= |p| == |q| == 257 < cap
    ensures |t.first| == |t.second| == cap
  {
    Tables(seq(cap, j => if 0 <= j < k then Some(if j < s then p[j] else q[j]) else None),
           seq(cap, j => if 0 <= j && j + 1 < k && j + 1 < s then Some(q[j + 1])
                         else if s <= j < k then Some(p[j])
                         else if j == 257 && k > 0 then Some(q[0]) else None))
  }

  // Tables with n pairs of r besides.
  ghost function Padded<K, V>(t: Tables<K, V>, r: seq<Node<K, V>>, n: nat): (u: Tables<K, V>)
    requires n <= |r| && |t.first| >= 258 + |r|
    ensures |u.first| == |t.first|
  {
    t.(first := t.first[..258] + seq(n, j requires 0 <= j < n => Some(r[j])) + t.first[258 + n..])
  }

  // A first pass over the chain, before slot i.
  ghost function Spread<K, V>(p: seq<Node<K, V>>, q: seq<Node<K, V>>, s: nat, cap: nat, i: nat): Tables<K, V>
    requires i <= |p| == |q| == 257 < cap
  {
    Tables(seq(cap, j => if 0 <= j < i then Some(p[j]) else if 0 < j == i < s && i < 257 then Some(q[j]) else None),
           seq(cap, j => if 0 <= j && j + 1 < i then Some(q[j + 1]) else None))
  }

  // What it has made of the first table's slots.
  ghost function Overwritten<K, V>(p: seq<Node<K, V>>, q: seq<Node<K, V>>, old1: seq<Option<Node<K, V>>>, s: nat, i: nat)
    : (r: seq<Option<Node<K, V>>>)
    requires i <= |p| == |q| == 257 < |old1| && s <= 257
    ensures |r| == |old1|
  {
    seq(i, j requires 0 <= j < i => if j + 1 < s then Some(q[j + 1]) else if s <= j then Some(q[j]) else None) + old1[i..]
  }

  // The walk that q[0] then starts, carrying q[k].
  ghost function Walked<K, V>(p: seq<Node<K, V>>, q: seq<Node<K, V>>, cap: nat, k: nat): Tables<K, V>
    requires k < |p| == |q| == 257 < cap
  {
    Tables(seq(cap, j => if 0 <= j < k then Some(q[j]) else if 0 <= j < 257 then Some(p[j]) else None),
           seq(cap, j => if 0 <= j < k then Some(p[j]) else if 0 <= j < 256 then Some(q[j + 1]) else None))
  }

  // A later pass, before slot i, at a multiple of the chain's capacity d: the first table's slots
  // hold copies of pairs of the second's. Which multiple of d lies between does not matter.
  ghost function Doubled<K, V>(h1: K -> nat, h2: K -> nat, p: seq<Node<K, V>>, q: seq<Node<K, V>>, s: nat, d: nat, cap: nat,
                               i: nat): (t: Tables<K, V>)
    requires i <= |p| == |q| == 257 < d <= cap && s <= 257
    ensures |t.first| == |t.second| == cap
  {
    Tables(seq(cap, x => FirstTwin(h1, p, q, s, d, cap, i, x)), seq(cap, x => SecondTwin(h2, q, s, d, cap, i, x)))
  }

  ghost function FirstTwin<K, V>(h1: K -> nat, p: seq<Node<K, V>>, q: seq<Node<K, V>>, s: nat, d: nat, cap: nat, i: nat,
                                 x: int): Option<Node<K, V>>
    requires i <= |p| == |q| == 257 < d <= cap && s <= 257
  {
    var j := x % d;
    if 0 < j <= i && j < s && h1(q[j].key) % cap == x then Some(q[j])
    else if s <= j < i && h1(p[j].key) % cap == x then Some(p[j]) else None
  }

  ghost function SecondTwin<K, V>(h2: K -> nat, q: seq<Node<K, V>>, s: nat, d: nat, cap: nat, i: nat, x: int)
    : Option<Node<K, V>>
    requires i <= |q| == 257 < d <= cap && s <= 257
  {
    var j := x % d;
    if (j + 1 < i || (j < i && j + 1 < s)) && h2(q[j + 1].key) % cap == x then Some(q[j + 1]) else None
  }

  lemma ModOfMultiple(x: nat, d: nat, m: nat)
    requires d > 0 && m > 0
    ensures d * m > 0 && (x % (d * m)) % d == x % d
  {
    var a, b := x / (d * m), x % (d * m);
    var e, f := b / d, b % d;
    assert x == (m * a + e) * d + f by {
      assert (m * a) * d == (d * m) * a;
    }
    DivModUnique(x, d, m * a + e, f);
  }

  lemma WideSlots<K, V>(h1: K -> nat, h2: K -> nat, p: seq<Node<K, V>>, q: seq<Node<K, V>>, r: seq<Node<K, V>>, s: nat,
                        d: nat, m: nat, i: nat)
    requires IsChain(h1, h2, p, q, r, d) && m > 0 && i <= 257 && s <= 257
    ensures d <= d * m && TablesOk(Doubled(h1, h2, p, q, s, d, d * m, i), h1, h2)
    ensures forall k :: 0 <= k < 257 ==> (h1(p[k].key) % (d * m)) % d == (h2(p[k].key) % (d * m)) % d == k
    ensures forall k :: 0 < k < 257 ==> (h1(q[k].key) % (d * m)) % d == k && (h2(q[k].key) % (d * m)) % d == k - 1
  {
    assert d * m >= d;
    forall x: nat ensures (x % (d * m)) % d == x % d {
      ModOfMultiple(x, d, m);
    }
  }

  lemma ChainTables<K, V>(h1: K -> nat, h2: K -> nat, p: seq<Node<K, V>>, q: seq<Node<K, V>>, r: seq<Node<K, V>>, s: nat,
                          cap: nat, i: nat)
    requires IsChain(h1, h2, p, q, r, cap) && i <= 257 && s <= 257
    ensures TablesOk(Held(p, q, s, cap, i), h1, h2) && TablesOk(Spread(p, q, s, cap, i), h1, h2)
    ensures i < 257 ==> TablesOk(Walked(p, q, cap, i), h1, h2)
  {
  }

  // A node that finds its slot free.
  lemma GoesFirst<K, V>(t: Tables<K, V>, h1: K -> nat, h2: K -> nat, n: Node<K, V>)
    requires TablesOk(t, h1, h2) && Occupant(t, h1, h2, n, true).None?
    ensures PutBack(t, h1, h2, Some(n)) == Stored(Put(t, h1, h2, n, true), Some(n))
  {
  }

  // A node that takes the slot of one that finds its other slot free.
  lemma PushesOne<K, V>(t: Tables<K, V>, h1: K -> nat, h2: K -> nat, n: Node<K, V>, m: Node<K, V>)
    requires TablesOk(t, h1, h2) && Occupant(t, h1, h2, n, true) == Some(m)
    requires Occupant(Put(t, h1, h2, n, true), h1, h2, m, false).None?
    ensures PutBack(t, h1, h2, Some(n)) == Stored(Put(Put(t, h1, h2, n, true), h1, h2, m, false), Some(m))
  {
    hide Kick, Put, Occupant, Placed;
    KickUnfold(t, h1, h2, n, true, MAX_KICKS);
    KickUnfold(Put(t, h1, h2, n, true), h1, h2, m, false, MAX_KICKS - 1);
  }

  lemma NothingGoes<K, V>(t: Tables<K, V>, h1: K -> nat, h2: K -> nat)
    requires TablesOk(t, h1, h2)
    ensures PutBack(t, h1, h2, None) == Stored(t, None)
  {
  }

  lemma AsKick<K, V>(t: Tables<K, V>, h1: K -> nat, h2: K -> nat, n: Node<K, V>)
    requires TablesOk(t, h1, h2)
    ensures PutBack(t, h1, h2, Some(n)) == Kick(t, h1, h2, n, true, 512)
  {
  }

  // Two kicks of the walk.
  lemma TwoFurther<K, V>(h1: K -> nat, h2: K -> nat, p: seq<Node<K, V>>, q: seq<Node<K, V>>, r: seq<Node<K, V>>, cap: nat,
                         k: nat, left: nat)
    requires IsChain(h1, h2, p, q, r, cap) && k < 256 && left >= 2
    ensures TablesOk(Walked(p, q, cap, k), h1, h2) && TablesOk(Walked(p, q, cap, k + 1), h1, h2)
    ensures Kick(Walked(p, q, cap, k), h1, h2, q[k], true, left) ==
            Kick(Walked(p, q, cap, k + 1), h1, h2, q[k + 1], true, left - 2)
  {
    hide Kick;
    var t, t' := Walked(p, q, cap, k), Walked(p, q, cap, k + 1);
    KickUnfold(t, h1, h2, q[k], true, left);
    var once := Put(t, h1, h2, q[k], true);
    KickUnfold(once, h1, h2, p[k], false, left - 1);
    assert Put(once, h1, h2, p[k], false) == t';
  }

  // After 512 kicks the walk has not come to its end, and q[256] is carried.
  lemma {:induction false} WalkIsTooLong<K, V>(h1: K -> nat, h2: K -> nat, p: seq<Node<K, V>>, q: seq<Node<K, V>>,
                                               r: seq<Node<K, V>>, cap: nat, k: nat)
    requires IsChain(h1, h2, p, q, r, cap) && k <= 256
    ensures TablesOk(Walked(p, q, cap, k), h1, h2)
    ensures Kick(Walked(p, q, cap, k), h1, h2, q[k], true, 512 - 2 * k) == Outcome.Dropped(Walked(p, q, cap, 256), q[256])
    decreases 256 - k
  {
    hide Walked, Placed, Kick;
    ChainTables(h1, h2, p, q, r, 0, cap, k);
    if k == 256 {
      KickUnfold(Walked(p, q, cap, k), h1, h2, q[k], true, 0);
    } else {
      TwoFurther(h1, h2, p, q, r, cap, k, 512 - 2 * k);
      WalkIsTooLong(h1, h2, p, q, r, cap, k + 1);
    }
  }

  // Slot i below s in a first pass: p[i] goes to its slot, q[i] makes way, and the next q comes.
  lemma SpreadsBelow<K, V>(h1: K -> nat, h2: K -> nat, p: seq<Node<K, V>>, q: seq<Node<K, V>>, r: seq<Node<K, V>>, s: nat,
                           cap: nat, i: nat)
    returns (once: Tables<K, V>, last: Node<K, V>)
    requires IsChain(h1, h2, p, q, r, cap) && i < s <= 257
    ensures TablesOk(Spread(p, q, s, cap, i), h1, h2) && TablesOk(once, h1, h2)
    ensures PutBack(Spread(p, q, s, cap, i), h1, h2, Some(p[i])) == Stored(once, Some(last))
    ensures var next := if i + 1 < s then Some(q[i + 1]) else None;
            PutBack(once, h1, h2, next) == Stored(Spread(p, q, s, cap, i + 1), next)
  {
    hide Kick, PutBack;
    var t := Spread(p, q, s, cap, i);
    once, last := Put(t, h1, h2, p[i], true), p[i];
    if i == 0 {
      GoesFirst(t, h1, h2, p[i]);
    } else {
      PushesOne(t, h1, h2, p[i], q[i]);
      once, last := Put(once, h1, h2, q[i], false), q[i];
    }
    if i + 1 < s {
      GoesFirst(once, h1, h2, q[i + 1]);
      assert Put(once, h1, h2, q[i + 1], true) == Spread(p, q, s, cap, i + 1);
    } else {
      NothingGoes(once, h1, h2);
      assert once == Spread(p, q, s, cap, i + 1);
    }
  }

  // Slot i from s on: q[i] comes first and makes way.
  lemma SpreadsAbove<K, V>(h1: K -> nat, h2: K -> nat, p: seq<Node<K, V>>, q: seq<Node<K, V>>, r: seq<Node<K, V>>, s: nat,
                           cap: nat, i: nat)
    returns (once: Tables<K, V>)
    requires IsChain(h1, h2, p, q, r, cap) && 0 < s <= i < 257
    ensures TablesOk(Spread(p, q, s, cap, i), h1, h2) && TablesOk(once, h1, h2)
    ensures PutBack(Spread(p, q, s, cap, i), h1, h2, Some(q[i])) == Stored(once, Some(q[i]))
    ensures PutBack(once, h1, h2, Some(p[i])) == Stored(Spread(p, q, s, cap, i + 1), Some(q[i]))
  {
    hide Kick, PutBack;
    var t := Spread(p, q, s, cap, i);
    once := Put(t, h1, h2, q[i], true);
    GoesFirst(t, h1, h2, q[i]);
    PushesOne(once, h1, h2, p[i], q[i]);
    assert Put(Put(once, h1, h2, p[i], true), h1, h2, q[i], false) == Spread(p, q, s, cap, i + 1);
  }

  // Moved-from keys and values that stay as they are, as integers do.
  ghost predicate Stays<K, V>(moved: Node<K, V> -> Node<K, V>, nodes: seq<Node<K, V>>) {
    forall k :: 0 <= k < |nodes| ==> moved(nodes[k]) == nodes[k]
  }

  // The slots of a map that holds the chain and all of r.
  ghost function Full<K, V>(p: seq<Node<K, V>>, q: seq<Node<K, V>>, r: seq<Node<K, V>>, s: nat, cap: nat): (t: Tables<K, V>)
    requires |p| == |q| == 257 && 258 + |r| <= cap
    ensures |t.first| == |t.second| == cap
  {
    Padded(Held(p, q, s, cap, 257), r, |r|)
  }

  // What a pass leaves of the first table's slots when it breaks at the last slot of the chain.
  ghost function Remains<K, V>(p: seq<Node<K, V>>, q: seq<Node<K, V>>, r: seq<Node<K, V>>, s: nat, cap: nat)
    : (left: seq<Option<Node<K, V>>>)
    requires |p| == |q| == 257 && 258 + |r| <= cap && s <= 257
    ensures |left| == cap
  {
    Overwritten(p, q, Full(p, q, r, s, cap).first, s, 257)[257 := Some(q[256])]
  }

  // What slot i holds before a first pass, and what becomes of it.
  lemma SlotOfFirstPass<K, V>(p: seq<Node<K, V>>, q: seq<Node<K, V>>, r: seq<Node<K, V>>, s: nat, cap: nat, i: nat)
    requires |p| == |q| == 257 && 258 + |r| <= cap && i <= 257 && 0 < s <= 257
    ensures var full := Full(p, q, r, s, cap);
            var old1 := Overwritten(p, q, full.first, s, i);
            && |old1| == |full.second| == cap
            && old1[i] == (if i == 257 then None else Some(if i < s then p[i] else q[i]))
            && full.second[i] == (if i == 257 then Some(q[0]) else if i >= s then Some(p[i])
                                  else if i + 1 < s then Some(q[i + 1]) else None)
            && (i < 257 ==> Overwritten(p, q, full.first, s, i + 1) ==
                            old1[i := if i >= s then Some(q[i]) else if i + 1 < s then Some(q[i + 1]) else None])
            && (i == 257 ==> Remains(p, q, r, s, cap) == old1[i := Some(q[256])])
  {
  }

  lemma {:induction false} FirstPassBreaks<K, V>(h1: K -> nat, h2: K -> nat, moved: Node<K, V> -> Node<K, V>,
                                                 p: seq<Node<K, V>>, q: seq<Node<K, V>>, r: seq<Node<K, V>>, s: nat, cap: nat,
                                                 i: nat)
    requires IsChain(h1, h2, p, q, r, 2 * cap) && Stays(moved, q) && i <= 257 && 258 + |r| <= cap && 0 < s <= 257
    ensures TablesOk(Spread(p, q, s, 2 * cap, i), h1, h2)
    ensures var full := Full(p, q, r, s, cap);
            PassFrom(Spread(p, q, s, 2 * cap, i), h1, h2, moved, Overwritten(p, q, full.first, s, i), full.second, i) ==
            Broken(Remains(p, q, r, s, cap))
    decreases 257 - i
  {
    hide Kick, PutBack, Spread, PassFrom, Placed, Put, IsChain, Full, Overwritten, Remains;
    ChainSize(h1, h2, p, q, r, 2 * cap);
    ChainTables(h1, h2, p, q, r, s, 2 * cap, i);
    var t, full := Spread(p, q, s, 2 * cap, i), Full(p, q, r, s, cap);
    var old1 := Overwritten(p, q, full.first, s, i);
    SlotOfFirstPass(p, q, r, s, cap, i);
    PassUnfold(t, h1, h2, moved, old1, full.second, i);
    if i < s {
      var once, last := SpreadsBelow(h1, h2, p, q, r, s, 2 * cap, i);
      var next := if i + 1 < s then Some(q[i + 1]) else None;
      FirstPassBreaks(h1, h2, moved, p, q, r, s, cap, i + 1);
    } else if i < 257 {
      var once := SpreadsAbove(h1, h2, p, q, r, s, 2 * cap, i);
      FirstPassBreaks(h1, h2, moved, p, q, r, s, cap, i + 1);
    } else {
      NothingGoes(t, h1, h2);
      SpreadIsWalk(p, q, s, 2 * cap);
      WalkIsTooLong(h1, h2, p, q, r, 2 * cap, 0);
      AsKick(t, h1, h2, q[0]);
    }
  }

  lemma SpreadIsWalk<K, V>(p: seq<Node<K, V>>, q: seq<Node<K, V>>, s: nat, cap: nat)
    requires |p| == |q| == 257 < cap
    ensures Spread(p, q, s, cap, 257) == Walked(p, q, cap, 0)
  {
  }

  // Slot i of a later pass when the first table's slot has a copy of the second's.
  lemma DoublesBelow<K, V>(h1: K -> nat, h2: K -> nat, p: seq<Node<K, V>>, q: seq<Node<K, V>>, r: seq<Node<K, V>>, s: nat,
                           d: nat, m: nat, i: nat)
    returns (once: Tables<K, V>)
    requires IsChain(h1, h2, p, q, r, d) && m > 0 && i + 1 < s <= 257
    ensures d <= d * m
    ensures TablesOk(Doubled(h1, h2, p, q, s, d, d * m, i), h1, h2) && TablesOk(once, h1, h2)
    ensures PutBack(Doubled(h1, h2, p, q, s, d, d * m, i), h1, h2, Some(q[i + 1])) == Stored(once, Some(q[i + 1]))
    ensures PutBack(once, h1, h2, Some(q[i + 1])) == Stored(Doubled(h1, h2, p, q, s, d, d * m, i + 1), Some(q[i + 1]))
  {
    hide Kick, PutBack;
    WideSlots(h1, h2, p, q, r, s, d, m, i);
    var t, n := Doubled(h1, h2, p, q, s, d, d * m, i), q[i + 1];
    once := Put(t, h1, h2, n, true);
    GoesFirst(t, h1, h2, n);
    PushesOne(once, h1, h2, n, n);
    assert Put(Put(once, h1, h2, n, true), h1, h2, n, false) == Doubled(h1, h2, p, q, s, d, d * m, i + 1);
  }

  lemma DoublesAbove<K, V>(h1: K -> nat, h2: K -> nat, p: seq<Node<K, V>>, q: seq<Node<K, V>>, r: seq<Node<K, V>>, s: nat,
                           d: nat, i: nat)
    returns (once: Tables<K, V>)
    requires IsChain(h1, h2, p, q, r, d) && 0 < s <= i < 257
    ensures TablesOk(Doubled(h1, h2, p, q, s, d, d, i), h1, h2) && TablesOk(once, h1, h2)
    ensures PutBack(Doubled(h1, h2, p, q, s, d, d, i), h1, h2, Some(q[i])) == Stored(once, Some(q[i]))
    ensures PutBack(once, h1, h2, Some(p[i])) == Stored(Doubled(h1, h2, p, q, s, d, d, i + 1), Some(q[i]))
  {
    hide Kick, PutBack;
    WideSlots(h1, h2, p, q, r, s, d, 1, i);
    SmallMod(d);
    var t := Doubled(h1, h2, p, q, s, d, d, i);
    once := Put(t, h1, h2, q[i], true);
    GoesFirst(t, h1, h2, q[i]);
    PushesOne(once, h1, h2, p[i], q[i]);
    assert Put(Put(once, h1, h2, p[i], true), h1, h2, q[i], false) == Doubled(h1, h2, p, q, s, d, d, i + 1);
  }

  lemma SmallMod(d: nat)
    ensures forall x :: 0 <= x < d ==> x % d == x
  {
    forall x | 0 <= x < d ensures x % d == x {
      WrapOnce(x, d);
    }
  }

  lemma NothingDoubles<K, V>(h1: K -> nat, h2: K -> nat, p: seq<Node<K, V>>, q: seq<Node<K, V>>, s: nat, d: nat, cap: nat,
                             i: nat)
    requires |p| == |q| == 257 < d <= cap && i + 1 == s <= 257
    ensures Doubled(h1, h2, p, q, s, d, cap, i) == Doubled(h1, h2, p, q, s, d, cap, i + 1)
  {
  }

  // A later pass gets to the last slot of the chain, and leaves the slots before as they are.
  lemma {:induction false} LaterPassToLast<K, V>(h1: K -> nat, h2: K -> nat, moved: Node<K, V> -> Node<K, V>,
                                                 p: seq<Node<K, V>>, q: seq<Node<K, V>>, r: seq<Node<K, V>>, s: nat, cap: nat,
                                                 d: nat, m: nat, i: nat)
    requires IsChain(h1, h2, p, q, r, d) && Stays(moved, q) && i <= 257 && 258 + |r| <= cap && 0 < s <= 257
    requires m == 1 || (m > 0 && s == 257)
    ensures d <= d * m && TablesOk(Doubled(h1, h2, p, q, s, d, d * m, i), h1, h2)
    ensures TablesOk(Doubled(h1, h2, p, q, s, d, d * m, 257), h1, h2)
    ensures var old1, old2 := Remains(p, q, r, s, cap), Full(p, q, r, s, cap).second;
            PassFrom(Doubled(h1, h2, p, q, s, d, d * m, i), h1, h2, moved, old1, old2, i) ==
            PassFrom(Doubled(h1, h2, p, q, s, d, d * m, 257), h1, h2, moved, old1, old2, 257)
    decreases 257 - i
  {
    hide Kick, PutBack, Doubled, PassFrom, Placed, Put, IsChain;
    ChainSize(h1, h2, p, q, r, d);
    WideSlots(h1, h2, p, q, r, s, d, m, i);
    var t, old1, old2 := Doubled(h1, h2, p, q, s, d, d * m, i), Remains(p, q, r, s, cap), Full(p, q, r, s, cap).second;
    if i < 257 {
      PassUnfold(t, h1, h2, moved, old1, old2, i);
      if i + 1 < s {
        var once := DoublesBelow(h1, h2, p, q, r, s, d, m, i);
        assert old1[i] == old2[i] == Some(q[i + 1]) && old1[i := Some(q[i + 1])] == old1;
      } else if i < s {
        NothingGoes(t, h1, h2);
        NothingDoubles(h1, h2, p, q, s, d, d * m, i);
        assert old1[i] == old2[i] == None && old1[i := None] == old1;
      } else {
        var once := DoublesAbove(h1, h2, p, q, r, s, d, i);
        assert old1[i] == Some(q[i]) && old2[i] == Some(p[i]) && old1[i := Some(q[i])] == old1;
      }
      LaterPassToLast(h1, h2, moved, p, q, r, s, cap, d, m, i + 1);
    }
  }

  // With s at the end of the chain the third copy of q[256] drops one of the three.
  lemma ThirdCopyIsDropped<K, V>(h1: K -> nat, h2: K -> nat, p: seq<Node<K, V>>, q: seq<Node<K, V>>, r: seq<Node<K, V>>,
                                 d: nat, m: nat)
    requires IsChain(h1, h2, p, q, r, d) && m > 0
    ensures d <= d * m
    ensures var t := Doubled(h1, h2, p, q, 257, d, d * m, 257);
            && TablesOk(t, h1, h2) && PutBack(t, h1, h2, Some(q[256])).Dropped?
            && PutBack(t, h1, h2, Some(q[256])).node == q[256]
  {
    hide Kick;
    WideSlots(h1, h2, p, q, r, 257, d, m, 257);
    CollidingInsertDropsStoredNode(Doubled(h1, h2, p, q, 257, d, d * m, 257), h1, h2, q[256], q[256], q[256]);
  }

  // So every later pass breaks there, whatever the slots at its capacity.
  lemma LaterPassBreaks<K, V>(h1: K -> nat, h2: K -> nat, moved: Node<K, V> -> Node<K, V>, p: seq<Node<K, V>>,
                              q: seq<Node<K, V>>, r: seq<Node<K, V>>, cap: nat, m: nat)
    requires IsChain(h1, h2, p, q, r, 4 * cap) && Stays(moved, q) && 258 + |r| <= cap && m > 0
    ensures PassOver(2 * cap * m, h1, h2, moved, Remains(p, q, r, 257, cap), Full(p, q, r, 257, cap).second) ==
            Broken(Remains(p, q, r, 257, cap))
  {
    hide Kick, PassFrom, Placed, PutBack, Doubled;
    var d := 4 * cap;
    assert 2 * (2 * cap * m) == d * m;
    LaterPassToLast(h1, h2, moved, p, q, r, 257, cap, d, m, 0);
    StartsDoubling(h1, h2, p, q, 257, d, d * m);
    ThirdCopyIsDropped(h1, h2, p, q, r, d, m);
    var old1, old2 := Remains(p, q, r, 257, cap), Full(p, q, r, 257, cap).second;
    PassUnfold(Doubled(h1, h2, p, q, 257, d, d * m, 257), h1, h2, moved, old1, old2, 257);
    assert old1[257 := Some(q[256])] == old1;
  }

  lemma {:induction false} LaterPassesBreak<K, V>(h1: K -> nat, h2: K -> nat, moved: Node<K, V> -> Node<K, V>,
                                                  p: seq<Node<K, V>>, q: seq<Node<K, V>>, r: seq<Node<K, V>>, cap: nat,
                                                  m: nat, passes: nat)
    requires IsChain(h1, h2, p, q, r, 4 * cap) && Stays(moved, q) && 258 + |r| <= cap && m > 0
    ensures 2 * cap * m > 0
    ensures Rehashed(2 * cap * m, h1, h2, moved, Remains(p, q, r, 257, cap), Full(p, q, r, 257, cap).second, passes) == None
    decreases passes
  {
    hide PassOver, IsChain, Remains;
    assert |p| == |q| == 257 by {
      ChainSize(h1, h2, p, q, r, 4 * cap);
    }
    LaterPassBreaks(h1, h2, moved, p, q, r, cap, m);
    if passes > 0 {
      assert 2 * (2 * cap * m) == 2 * cap * (2 * m);
      LaterPassesBreak(h1, h2, moved, p, q, r, cap, 2 * m, passes - 1);
    }
  }

  lemma StartsDoubling<K, V>(h1: K -> nat, h2: K -> nat, p: seq<Node<K, V>>, q: seq<Node<K, V>>, s: nat, d: nat, cap: nat)
    requires |p| == |q| == 257 < d <= cap && 0 < s <= 257
    ensures Doubled(h1, h2, p, q, s, d, cap, 0) == Spread(p, q, s, cap, 0) == Empty(cap)
  {
  }

  // Then the rehash never ends, whatever the bound on passes.
  lemma ChainNeverRehashes<K, V>(h1: K -> nat, h2: K -> nat, moved: Node<K, V> -> Node<K, V>, p: seq<Node<K, V>>,
                                 q: seq<Node<K, V>>, r: seq<Node<K, V>>, cap: nat, passes: nat)
    requires IsChain(h1, h2, p, q, r, 4 * cap) && Stays(moved, q) && 258 + |r| <= cap
    ensures var t := Full(p, q, r, 257, cap); Rehashed(cap, h1, h2, moved, t.first, t.second, passes) == None
  {
    hide Kick, PassFrom, Placed;
    ChainFolds(h1, h2, p, q, r, 2 * cap);
    hide IsChain;
    ChainSize(h1, h2, p, q, r, 2 * cap);
    FirstPassBreaks(h1, h2, moved, p, q, r, 257, cap, 0);
    StartsDoubling(h1, h2, p, q, 257, 2 * cap, 2 * cap);
    var t := Full(p, q, r, 257, cap);
    assert Overwritten(p, q, t.first, 257, 0) == t.first;
    if passes > 0 {
      LaterPassesBreak(h1, h2, moved, p, q, r, cap, 1, passes - 1);
    }
  }
}
