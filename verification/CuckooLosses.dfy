// What the first insert after a long chain (CuckooChains) does to a HashMapCuckoo
// (src/hashmap_cuckoo.hpp): it never returns, or it returns with stored pairs lost.
module CuckooLosses {
  import opened OpenAddressing
  import opened Options
  import opened Cuckoo
  import opened CuckooChains
  import opened CuckooHashers
  import opened CuckooKeys
  import opened CuckooLimits

  // What a later pass makes of the chain when p[256] is in the second table.
  ghost function Ended<K, V>(h1: K -> nat, h2: K -> nat, p: seq<Node<K, V>>, q: seq<Node<K, V>>, s: nat, cap: nat)
    : (e: Tables<K, V>)
    requires |p| == |q| == 257 < cap && s <= 256
    ensures |e.first| == |e.second| == cap
  {
    var t := Doubled(h1, h2, p, q, s, cap, cap, 257);
    Tables(t.first[0 := Some(q[0])][256 := Some(q[256])], t.second[256 := Some(p[256])])
  }

  lemma LastSlotEnds<K, V>(h1: K -> nat, h2: K -> nat, p: seq<Node<K, V>>, q: seq<Node<K, V>>, r: seq<Node<K, V>>, s: nat,
                           cap: nat)
    returns (once: Tables<K, V>)
    requires IsChain(h1, h2, p, q, r, cap) && 0 < s <= 256
    ensures TablesOk(Doubled(h1, h2, p, q, s, cap, cap, 257), h1, h2) && TablesOk(once, h1, h2)
    ensures TablesOk(Ended(h1, h2, p, q, s, cap), h1, h2)
    ensures PutBack(Doubled(h1, h2, p, q, s, cap, cap, 257), h1, h2, Some(q[256])) == Stored(once, Some(p[256]))
    ensures PutBack(once, h1, h2, Some(q[0])) == Stored(Ended(h1, h2, p, q, s, cap), Some(q[0]))
  {
    hide Kick, PutBack, Doubled;
    WideSlots(h1, h2, p, q, r, s, cap, 1, 257);
    LastSlotHolds(h1, h2, p, q, r, s, cap);
    var t := Doubled(h1, h2, p, q, s, cap, cap, 257);
    PushesOne(t, h1, h2, q[256], p[256]);
    once := Put(Put(t, h1, h2, q[256], true), h1, h2, p[256], false);
    GoesFirst(once, h1, h2, q[0]);
    assert Put(once, h1, h2, q[0], true) == Ended(h1, h2, p, q, s, cap);
  }

  lemma LastSlotHolds<K, V>(h1: K -> nat, h2: K -> nat, p: seq<Node<K, V>>, q: seq<Node<K, V>>, r: seq<Node<K, V>>, s: nat,
                            cap: nat)
    requires IsChain(h1, h2, p, q, r, cap) && 0 < s <= 256
    ensures var t := Doubled(h1, h2, p, q, s, cap, cap, 257);
            t.first[256] == Some(p[256]) && t.second[256] == None && t.first[0] == None
  {
    SmallMod(cap);
  }

  // r finds the slots behind the chain free.
  ghost predicate HasRoom<K, V>(t: Tables<K, V>, h1: K -> nat, h2: K -> nat, r: seq<Node<K, V>>) {
    && TablesOk(t, h1, h2) && 258 + |r| <= |t.first|
    && (forall j :: 0 <= j < |r| ==> h1(r[j].key) % |t.first| == 258 + j)
    && (forall j :: 258 <= j < |t.first| ==> t.first[j].None?)
  }

  lemma OnePadMore<K, V>(t: Tables<K, V>, h1: K -> nat, h2: K -> nat, r: seq<Node<K, V>>, n: nat)
    requires HasRoom(t, h1, h2, r) && n <= |r|
    ensures TablesOk(Padded(t, r, n), h1, h2) && Padded(t, r, 0) == t
    ensures n < |r| ==> Occupant(Padded(t, r, n), h1, h2, r[n], true).None?
    ensures n < |r| ==> Put(Padded(t, r, n), h1, h2, r[n], true) == Padded(t, r, n + 1)
  {
  }

  // The rest of a pass, behind the chain.
  lemma {:induction false} PadsAreStored<K, V>(t: Tables<K, V>, h1: K -> nat, h2: K -> nat, moved: Node<K, V> -> Node<K, V>,
                                               r: seq<Node<K, V>>, old1: seq<Option<Node<K, V>>>,
                                               old2: seq<Option<Node<K, V>>>, n: nat)
    requires HasRoom(t, h1, h2, r) && n <= |old1| - 258 && 258 + |r| <= |old1| == |old2|
    requires forall j :: 258 + n <= j < |old1| ==> old1[j] == if j - 258 < |r| then Some(r[j - 258]) else None
    requires forall j :: 258 <= j < |old2| ==> old2[j].None?
    ensures var k := if n < |r| then n else |r|;
            && TablesOk(Padded(t, r, k), h1, h2)
            && PassFrom(Padded(t, r, k), h1, h2, moved, old1, old2, 258 + n) == Completed(Padded(t, r, |r|))
    decreases |old1| - n
  {
    hide Kick, PutBack, PassFrom, Padded, Put, Occupant, Placed;
    var k := if n < |r| then n else |r|;
    OnePadMore(t, h1, h2, r, k);
    var t' := Padded(t, r, k);
    if 258 + n == |old1| {
      PassEnds(t', h1, h2, moved, old1, old2);
    } else {
      PassUnfold(t', h1, h2, moved, old1, old2, 258 + n);
      assert old1[258 + n] == if n < |r| then Some(r[n]) else None;
      if n < |r| {
        GoesFirst(t', h1, h2, r[n]);
        NothingGoes(Put(t', h1, h2, r[n], true), h1, h2);
      } else {
        NothingGoes(t', h1, h2);
      }
      PadsAreStored(t, h1, h2, moved, r, old1[258 + n := None], old2, n + 1);
    }
  }

  lemma SecondPassCompletes<K, V>(h1: K -> nat, h2: K -> nat, moved: Node<K, V> -> Node<K, V>, p: seq<Node<K, V>>,
                                  q: seq<Node<K, V>>, r: seq<Node<K, V>>, s: nat, cap: nat)
    requires IsChain(h1, h2, p, q, r, 4 * cap) && Stays(moved, q) && 258 + |r| <= cap && 0 < s <= 256
    ensures PassOver(2 * cap, h1, h2, moved, Remains(p, q, r, s, cap), Full(p, q, r, s, cap).second) ==
            Completed(Padded(Ended(h1, h2, p, q, s, 4 * cap), r, |r|))
  {
    hide Kick, PassFrom, Placed, PutBack, Doubled, Remains;
    LaterPassToLast(h1, h2, moved, p, q, r, s, cap, 4 * cap, 1, 0);
    StartsDoubling(h1, h2, p, q, s, 4 * cap, 4 * cap);
    var once := LastSlotEnds(h1, h2, p, q, r, s, 4 * cap);
    var left, old2, end := Remains(p, q, r, s, cap), Full(p, q, r, s, cap).second, Ended(h1, h2, p, q, s, 4 * cap);
    LeftBehind(p, q, r, s, cap);
    PassUnfold(Doubled(h1, h2, p, q, s, 4 * cap, 4 * cap, 257), h1, h2, moved, left, old2, 257);
    EndedHasRoom(h1, h2, p, q, r, s, 4 * cap);
    PadsAreStored(end, h1, h2, moved, r, left[257 := Some(q[0])], old2, 0);
    OnePadMore(end, h1, h2, r, 0);
  }

  lemma LeftBehind<K, V>(p: seq<Node<K, V>>, q: seq<Node<K, V>>, r: seq<Node<K, V>>, s: nat, cap: nat)
    requires |p| == |q| == 257 && 258 + |r| <= cap && s <= 256
    ensures var left, old2 := Remains(p, q, r, s, cap), Full(p, q, r, s, cap).second;
            && |left| == |old2| == cap && left[257] == Some(q[256]) && old2[257] == Some(q[0])
            && (forall j :: 258 <= j < cap ==> left[j] == if j - 258 < |r| then Some(r[j - 258]) else None)
            && (forall j :: 258 <= j < cap ==> old2[j].None?)
  {
  }

  lemma EndedHasRoom<K, V>(h1: K -> nat, h2: K -> nat, p: seq<Node<K, V>>, q: seq<Node<K, V>>, r: seq<Node<K, V>>, s: nat,
                           cap: nat)
    requires IsChain(h1, h2, p, q, r, cap) && 0 < s <= 256
    ensures HasRoom(Ended(h1, h2, p, q, s, cap), h1, h2, r)
  {
    var once := LastSlotEnds(h1, h2, p, q, r, s, cap);
  }

  // Then the rehash ends with its second pass.
  lemma ChainRehashes<K, V>(h1: K -> nat, h2: K -> nat, moved: Node<K, V> -> Node<K, V>, p: seq<Node<K, V>>,
                            q: seq<Node<K, V>>, r: seq<Node<K, V>>, s: nat, cap: nat, passes: nat)
    requires IsChain(h1, h2, p, q, r, 4 * cap) && Stays(moved, q) && 258 + |r| <= cap && 0 < s <= 256 && passes > 0
    ensures var t := Full(p, q, r, s, cap);
            Rehashed(cap, h1, h2, moved, t.first, t.second, passes) == Some(Padded(Ended(h1, h2, p, q, s, 4 * cap), r, |r|))
  {
    hide Kick, PassFrom, Placed, Ended;
    ChainFolds(h1, h2, p, q, r, 2 * cap);
    ChainFolds(h1, h2, p, q, r, cap);
    FirstPassBreaks(h1, h2, moved, p, q, r, s, cap, 0);
    StartsDoubling(h1, h2, p, q, s, 2 * cap, 2 * cap);
    var t := Full(p, q, r, s, cap);
    assert Overwritten(p, q, t.first, s, 0) == t.first;
    SecondPassCompletes(h1, h2, moved, p, q, r, s, cap);
  }

  // Storing n pairs keeps the tables below their load factor, and one more does not.
  ghost predicate Fills(n: nat, cap: nat) {
    10 * n < 9 * cap <= 10 * (n + 1)
  }

  // The order in which p[k] and q[k] are inserted.
  function Earlier<K, V>(p: seq<Node<K, V>>, q: seq<Node<K, V>>, s: nat, k: nat): Node<K, V>
    requires k < |p| == |q|
  {
    if k < s then q[k] else p[k]
  }

  function Later<K, V>(p: seq<Node<K, V>>, q: seq<Node<K, V>>, s: nat, k: nat): Node<K, V>
    requires k < |p| == |q|
  {
    if k < s then p[k] else q[k]
  }

  // Both are stored at once, the second by moving the first.
  lemma TwoMoreHeld<K, V>(h1: K -> nat, h2: K -> nat, p: seq<Node<K, V>>, q: seq<Node<K, V>>, r: seq<Node<K, V>>, s: nat,
                          cap: nat, k: nat, retries: nat)
    returns (once: Tables<K, V>)
    requires IsChain(h1, h2, p, q, r, cap) && k < 257 && 0 < s <= 257 && Fills(514 + |r|, cap)
    requires |Contents(Held(p, q, s, cap, k))| == 2 * k
    ensures TablesOk(Held(p, q, s, cap, k), h1, h2) && TablesOk(once, h1, h2)
    ensures Emplaced(Held(p, q, s, cap, k), h1, h2, Earlier(p, q, s, k), retries) == Done(once)
    ensures Emplaced(once, h1, h2, Later(p, q, s, k), retries) == Done(Held(p, q, s, cap, k + 1))
    ensures |Contents(Held(p, q, s, cap, k + 1))| == 2 * (k + 1)
  {
    hide Kick, Contents, Emplaced;
    ChainTables(h1, h2, p, q, r, s, cap, k);
    var t, a, b := Held(p, q, s, cap, k), Earlier(p, q, s, k), Later(p, q, s, k);
    once := Put(t, h1, h2, a, true);
    StoredInTwo(t, h1, h2, a, retries);
    StoredInTwo(once, h1, h2, b, retries);
    assert Put(Put(once, h1, h2, b, true), h1, h2, a, false) == Held(p, q, s, cap, k + 1);
  }

  lemma OneMoreHeld<K, V>(h1: K -> nat, h2: K -> nat, p: seq<Node<K, V>>, q: seq<Node<K, V>>, r: seq<Node<K, V>>, s: nat,
                          cap: nat, n: nat, retries: nat)
    requires IsChain(h1, h2, p, q, r, cap) && n <= |r| && 0 < s <= 257 && Fills(514 + |r|, cap)
    requires |Contents(Padded(Held(p, q, s, cap, 257), r, n))| == 514 + n
    ensures TablesOk(Padded(Held(p, q, s, cap, 257), r, n), h1, h2)
    ensures n < |r| ==>
              && Emplaced(Padded(Held(p, q, s, cap, 257), r, n), h1, h2, r[n], retries) ==
                 Done(Padded(Held(p, q, s, cap, 257), r, n + 1))
              && |Contents(Padded(Held(p, q, s, cap, 257), r, n + 1))| == 514 + n + 1
  {
    hide Kick, Contents, Emplaced, Padded, Occupant, Put;
    ChainTables(h1, h2, p, q, r, s, cap, 257);
    var t := Held(p, q, s, cap, 257);
    OnePadMore(t, h1, h2, r, n);
    if n < |r| {
      StoredInTwo(Padded(t, r, n), h1, h2, r[n], retries);
    }
  }

  // With p[256] in the first table no further insert returns.
  lemma ChainNeverReturns<K, V>(h1: K -> nat, h2: K -> nat, moved: Node<K, V> -> Node<K, V>, p: seq<Node<K, V>>,
                                q: seq<Node<K, V>>, r: seq<Node<K, V>>, cap: nat, n: Node<K, V>, retries: nat, passes: nat)
    requires IsChain(h1, h2, p, q, r, 4 * cap) && Stays(moved, q) && 258 + |r| <= cap && Fills(514 + |r|, cap)
    requires |Contents(Full(p, q, r, 257, cap))| == 514 + |r|
    ensures TablesOk(Full(p, q, r, 257, cap), h1, h2)
    ensures EmplacedOn(Full(p, q, r, 257, cap), h1, h2, moved, n, retries, passes) == CutOff
  {
    hide Contents, Rehashed, InsertOn, Placed;
    ChainFolds(h1, h2, p, q, r, 2 * cap);
    ChainFolds(h1, h2, p, q, r, cap);
    OneMoreHeld(h1, h2, p, q, r, 257, cap, |r|, retries);
    ChainNeverRehashes(h1, h2, moved, p, q, r, cap, passes);
  }

  // With p[256] in the second one the insert of a pair behind the chain returns, and the pairs
  // of p that were in the first table are lost.
  lemma ChainLosesPairs<K, V>(h1: K -> nat, h2: K -> nat, moved: Node<K, V> -> Node<K, V>, p: seq<Node<K, V>>,
                              q: seq<Node<K, V>>, r: seq<Node<K, V>>, s: nat, cap: nat, n: Node<K, V>, retries: nat,
                              passes: nat)
    requires IsChain(h1, h2, p, q, r, 4 * cap) && Stays(moved, q) && 258 + |r| <= cap && Fills(514 + |r|, cap)
    requires 0 < s <= 256 && passes > 0 && h1(n.key) % (4 * cap) >= 258 + |r|
    requires |Contents(Full(p, q, r, s, cap))| == 514 + |r|
    ensures TablesOk(Full(p, q, r, s, cap), h1, h2)
    ensures var e := EmplacedOn(Full(p, q, r, s, cap), h1, h2, moved, n, retries, passes);
            e.Returned? && forall k :: 0 <= k < s ==> !HoldsKey(Contents(e.tables), p[k].key)
  {
    hide Contents, Rehashed, Placed, Kick, Put, Ended, Padded, Occupant, HasRoom;
    ChainFolds(h1, h2, p, q, r, 2 * cap);
    ChainFolds(h1, h2, p, q, r, cap);
    OneMoreHeld(h1, h2, p, q, r, s, cap, |r|, retries);
    ChainRehashes(h1, h2, moved, p, q, r, s, cap, passes);
    BehindIsFree(h1, h2, p, q, r, s, 4 * cap, n);
    var t := Padded(Ended(h1, h2, p, q, s, 4 * cap), r, |r|);
    KickUnfold(t, h1, h2, n, true, MAX_KICKS);
    forall k | 0 <= k < s ensures !HoldsKey(Contents(Put(t, h1, h2, n, true)), p[k].key) {
      KeyIsGone(h1, h2, p, q, r, s, 4 * cap, n, k);
    }
  }

  lemma BehindIsFree<K, V>(h1: K -> nat, h2: K -> nat, p: seq<Node<K, V>>, q: seq<Node<K, V>>, r: seq<Node<K, V>>, s: nat,
                           cap: nat, n: Node<K, V>)
    requires IsChain(h1, h2, p, q, r, cap) && 0 < s <= 256 && h1(n.key) % cap >= 258 + |r|
    ensures TablesOk(Padded(Ended(h1, h2, p, q, s, cap), r, |r|), h1, h2)
    ensures Occupant(Padded(Ended(h1, h2, p, q, s, cap), r, |r|), h1, h2, n, true).None?
  {
    EndedHasRoom(h1, h2, p, q, r, s, cap);
    hide Ended;
    OnePadMore(Ended(h1, h2, p, q, s, cap), h1, h2, r, |r|);
  }

  lemma KeyIsGone<K, V>(h1: K -> nat, h2: K -> nat, p: seq<Node<K, V>>, q: seq<Node<K, V>>, r: seq<Node<K, V>>, s: nat,
                        cap: nat, n: Node<K, V>, k: nat)
    requires IsChain(h1, h2, p, q, r, cap) && k < s <= 256 && h1(n.key) % cap >= 258 + |r|
    requires TablesOk(Padded(Ended(h1, h2, p, q, s, cap), r, |r|), h1, h2)
    ensures !HoldsKey(Contents(Put(Padded(Ended(h1, h2, p, q, s, cap), r, |r|), h1, h2, n, true)), p[k].key)
  {
    hide Items;
    var t := Put(Padded(Ended(h1, h2, p, q, s, cap), r, |r|), h1, h2, n, true);
    ContentsHaveKey(t.first, Pair, p[k].key);
    ContentsHaveKey(t.second, Pair, p[k].key);
    assert forall i :: 0 <= i < cap ==> !HasKey(t.first, Pair, p[k].key, i) && !HasKey(t.second, Pair, p[k].key, i);
  }

  // A chain of 64-bit keys for the code's own hash functions.
  const BEHIND: nat := 407

  function Owns<V>(value: V): seq<Node<bv64, V>> {
    seq(257, k requires 0 <= k < 257 => Node(OwnKey(k), value))
  }

  function Edges<V>(value: V): seq<Node<bv64, V>> {
    seq(257, k requires 0 <= k < 257 => Node(EdgeKey(k), value))
  }

  // The keys 258, 259 and so on.
  function OtherKey(k: nat): bv64 {
    if k == 0 then 258 else OtherKey(k - 1) + 1
  }

  function Others<V>(value: V): (r: seq<Node<bv64, V>>)
    ensures |r| == BEHIND
  {
    seq(BEHIND, k requires 0 <= k < BEHIND => Node(OtherKey(k), value))
  }

  lemma {:induction false} OtherKeyIs(k: nat)
    requires k < BEHIND
    ensures FirstHash(OtherKey(k)) == 258 + k
  {
    FirstOther();
    hide FirstHash;
    if k > 0 {
      OtherKeyIs(k - 1);
      NextHash(OtherKey(k - 1));
    }
  }

  lemma FirstOther()
    ensures FirstHash(258) == 258
  {
  }

  lemma NextHash(key: bv64)
    requires FirstHash(key) < 1000
    ensures FirstHash(key + 1) == FirstHash(key) + 1
  {
    assert key < 1000;
    OneMoreAsNat(key);
  }

  lemma OneMoreAsNat(key: bv64)
    requires key < 1000
    ensures (key + 1) as nat == key as nat + 1
  {
  }

  lemma KeysAreChain<V>(value: V)
    ensures IsChain(FirstHash, SecondHash, Owns(value), Edges(value), Others(value), 4096)
  {
    hide OwnKey, EdgeKey, OtherKey, FirstHash, SecondHash;
    forall k | 0 <= k < 257 ensures Has(OwnKey(k), k, k) && Has(EdgeKey(k), k, if k == 0 then 257 else k - 1) {
      OwnKeyHas(k);
      EdgeKeyHas(k);
    }
    forall k | 0 <= k < BEHIND ensures FirstHash(OtherKey(k)) % 4096 == 258 + k {
      OtherKeyIs(k);
    }
  }

  lemma ChainAtStart<V>(value: V)
    ensures IsChain(FirstHash, SecondHash, Owns(value), Edges(value), Others(value), 1024)
  {
    hide IsChain, Owns, Edges, Others;
    KeysAreChain(value);
    ChainSize(FirstHash, SecondHash, Owns(value), Edges(value), Others(value), 4096);
    ChainFolds(FirstHash, SecondHash, Owns(value), Edges(value), Others(value), 2048);
    ChainFolds(FirstHash, SecondHash, Owns(value), Edges(value), Others(value), 1024);
  }

  lemma SlotsOf1024(cap: nat)
    requires IsPowerOfTwo(cap) && 1024 <= cap < 2048
    ensures cap == 1024
  {
    assert IsPowerOfTwo(1024);
    if cap > 1024 {
      PowersApart(1024, cap);
    }
  }

  lemma NothingHeld<K, V>(p: seq<Node<K, V>>, q: seq<Node<K, V>>, s: nat, cap: nat)
    requires |p| == |q| == 257 < cap
    ensures Held(p, q, s, cap, 0) == Empty(cap) && Contents(Held(p, q, s, cap, 0)) == multiset{}
  {
    EmptyContents<K, V>(cap);
  }

  ghost predicate IsFilled<V>(m: HashMapCuckoo<bv64, V>, s: nat, value: V)
    reads m
  {
    && m.Valid() && m.h1 == FirstHash && m.h2 == SecondHash && Stays(m.moved, Edges(value))
    && m.AsTables() == Full(Owns(value), Edges(value), Others(value), s, 1024)
    && |Contents(m.AsTables())| == 921
  }

  // 514 inserts into a map of the capacity 1024, which all succeed.
  method FillChain<V>(s: nat, value: V, retries: nat, passes: nat) returns (m: HashMapCuckoo<bv64, V>, filled: bool)
    requires 0 < s <= 257
    ensures fresh(m) && m.Valid() && m.h1 == FirstHash && m.h2 == SecondHash && Stays(m.moved, Edges(value)) && filled
    ensures m.AsTables() == Held(Owns(value), Edges(value), s, 1024, 257) && |Contents(m.AsTables())| == 514
  {
    hide IsChain, Contents, Emplaced, EmplacedOn, Held, AreCopies, Drops, Cuckoo.Start, HashMapCuckoo.Valid, FirstHash,
         SecondHash, OwnKey, EdgeKey, OtherKey;
    ChainAtStart(value);
    ghost var p, q, r := Owns(value), Edges(value), Others(value);
    m := new HashMapCuckoo<bv64, V>(FirstHash, SecondHash, (n: Node<bv64, V>) => n, 1024);
    CapacityIs1024(m);
    NothingHeld(p, q, s, 1024);
    filled := true;
    for k := 0 to 257
      invariant fresh(m) && m.Valid() && m.AsTables() == Held(p, q, s, 1024, k) && |Contents(m.AsTables())| == 2 * k && filled
    {
      ghost var once := TwoMoreHeld(FirstHash, SecondHash, p, q, r, s, 1024, k, retries);
      var ok := m.Emplace(if k < s then EdgeKey(k) else OwnKey(k), value, retries, passes);
      filled := filled && ok;
      ok := m.Emplace(if k < s then OwnKey(k) else EdgeKey(k), value, retries, passes);
      filled := filled && ok;
    }
  }

  // And 407 more.
  method FillWithChain<V>(s: nat, value: V, retries: nat, passes: nat) returns (m: HashMapCuckoo<bv64, V>, filled: bool)
    requires 0 < s <= 257
    ensures fresh(m) && IsFilled(m, s, value) && filled
  {
    hide IsChain, Contents, Emplaced, EmplacedOn, Held, Padded, AreCopies, Drops, Cuckoo.Start, HashMapCuckoo.Valid, FirstHash,
         SecondHash, OwnKey, EdgeKey, OtherKey;
    ChainAtStart(value);
    ghost var r, t := Others(value), Held(Owns(value), Edges(value), s, 1024, 257);
    m, filled := FillChain(s, value, retries, passes);
    PaddedWithNone(t, r);
    for n := 0 to BEHIND
      invariant fresh(m) && m.Valid() && m.AsTables() == Padded(t, r, n) && |Contents(m.AsTables())| == 514 + n && filled
    {
      OneMoreHeld(FirstHash, SecondHash, Owns(value), Edges(value), r, s, 1024, n, retries);
      var ok := m.Emplace(OtherKey(n), value, retries, passes);
      filled := filled && ok;
    }
  }

  lemma CapacityIs1024<V>(m: HashMapCuckoo<bv64, V>)
    requires m.Valid() && 1024 <= m.capacity < 2048
    ensures m.capacity == 1024
  {
    SlotsOf1024(m.capacity);
  }

  lemma PaddedWithNone<K, V>(t: Tables<K, V>, r: seq<Node<K, V>>)
    requires |t.first| >= 258 + |r|
    ensures Padded(t, r, 0) == t
  {
  }

  // With p[256] in the first table the next insert does not return, whatever its key.
  method FilledMapNeverReturns<V>(key: bv64, value: V, retries: nat, passes: nat) returns (filled: bool, stored: bool)
    ensures filled && !stored
  {
    hide IsChain, Contents, Emplaced, EmplacedOn, Full, AreCopies, Drops, Cuckoo.Start, FirstHash, SecondHash,
         HashMapCuckoo.Valid, OwnKey, EdgeKey, OtherKey;
    var m;
    m, filled := FillWithChain(257, value, retries, passes);
    KeysAreChain(value);
    ChainNeverReturns(FirstHash, SecondHash, m.moved, Owns(value), Edges(value), Others(value), 1024, Node(key, value), retries,
                      passes);
    stored := m.Emplace(key, value, retries, passes);
  }

  // With p[256] in the second one the next insert returns without the s first keys of p.
  method FilledMapLosesKeys<V>(s: nat, k: nat, value: V, retries: nat, passes: nat)
    returns (filled: bool, found: bool, stored: bool, stillFound: bool)
    requires k < s <= 256 && passes > 0
    ensures filled && found && stored && !stillFound
  {
    hide IsChain, Contents, Emplaced, EmplacedOn, Full, AreCopies, Drops, Cuckoo.Start, FirstHash, SecondHash,
         HashMapCuckoo.Valid, OwnKey, EdgeKey, OtherKey;
    var m, at;
    m, filled := FillWithChain(s, value, retries, passes);
    KeysAreChain(value);
    KeyIsHeld(Owns(value), Edges(value), Others(value), s, 1024, k);
    var inFirst;
    inFirst, at := m.Find(OwnKey(k));
    found := at.Some?;
    HashOf2000();
    ChainLosesPairs(FirstHash, SecondHash, m.moved, Owns(value), Edges(value), Others(value), s, 1024, Node(2000, value),
                    retries, passes);
    stored := m.Emplace(2000, value, retries, passes);
    inFirst, at := m.Find(OwnKey(k));
    stillFound := at.Some?;
  }

  lemma HashOf2000()
    ensures FirstHash(2000) % 4096 == 2000
  {
  }

  lemma KeyIsHeld<K, V>(p: seq<Node<K, V>>, q: seq<Node<K, V>>, r: seq<Node<K, V>>, s: nat, cap: nat, k: nat)
    requires |p| == |q| == 257 && 258 + |r| <= cap && k < s <= 257
    ensures HoldsKey(Contents(Full(p, q, r, s, cap)), p[k].key)
  {
    hide Items;
    var t := Full(p, q, r, s, cap);
    ContentsHaveKey(t.first, Pair, p[k].key);
    assert HasKey(t.first, Pair, p[k].key, k);
  }
}
