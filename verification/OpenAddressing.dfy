// What the three open-addressing tables share: a ring of slots whose length is a power
// of two, the distance walked around that ring, and the multiset of stored items.
module OpenAddressing {
  import opened Arith
  import opened Bags
  import opened Options

  // x & mask() is x % capacity for a power-of-two capacity; the tables are written with %.
  predicate IsPowerOfTwo(n: nat) {
    n == 1 || (n > 1 && n % 2 == 0 && IsPowerOfTwo(n / 2))
  }

  lemma {:induction false} PowersApart(a: nat, b: nat)
    requires IsPowerOfTwo(a) && IsPowerOfTwo(b) && a < b
    ensures 2 * a <= b
  {
    if a > 1 {
      PowersApart(a / 2, b / 2);
    }
  }

  method NextPowerOfTwo(n: nat) returns (p: nat)
    ensures IsPowerOfTwo(p) && n <= p
    ensures p == 1 || p / 2 < n
  {
    p := 1;
    while p < n
      invariant IsPowerOfTwo(p) && (p == 1 || p / 2 < n)
      decreases 2 * n - p
    {
      p := 2 * p;
    }
  }

  // Steps from slot a forward to slot b on a ring of cap slots.
  function Dist(a: nat, b: nat, cap: nat): (d: nat)
    requires a < cap && b < cap
    ensures d < cap
  {
    if a <= b then b - a else b + cap - a
  }

  // The slot reached from a in d steps.
  function Ahead(a: nat, d: nat, cap: nat): (b: nat)
    requires a < cap && d < cap
    ensures b < cap && Dist(a, b, cap) == d
    ensures b == (a + d) % cap
  {
    WrapOnce(a + d, cap);
    (a + d) % cap
  }

  // The slot d steps before b.
  function Behind(b: nat, d: nat, cap: nat): (a: nat)
    requires b < cap && d < cap
    ensures a < cap && Dist(a, b, cap) == d
    ensures a == (b + cap - d) % cap
  {
    WrapOnce(b + cap - d, cap);
    (b + cap - d) % cap
  }

  lemma WrapOnce(x: nat, cap: nat)
    requires x < 2 * cap
    ensures x % cap == if x < cap then x else x - cap
  {
    if x >= cap {
      assert x == 1 * cap + (x - cap);
      DivModUnique(x, cap, 1, x - cap);
    }
  }

  ghost function One<T, U>(slot: Option<T>, view: T -> U): multiset<U> {
    if slot.Some? then multiset{view(slot.value)} else multiset{}
  }

  ghost function SlotBag<T, U>(view: T -> U): Option<T> -> multiset<U> {
    slot => One(slot, view)
  }

  // The items a table holds, each seen through `view`.
  ghost function Items<T, U>(slots: seq<Option<T>>, view: T -> U): multiset<U> {
    Sum(slots, SlotBag(view))
  }

  lemma ItemsSplit<T, U>(slots: seq<Option<T>>, view: T -> U, i: nat)
    requires i < |slots|
    ensures Items(slots, view) == Items(slots[..i], view) + One(slots[i], view) + Items(slots[i + 1..], view)
    ensures Items(slots[..i + 1], view) == Items(slots[..i], view) + One(slots[i], view)
    ensures slots[i].Some? ==> |Items(slots[..i], view)| + 1 <= |Items(slots, view)|
  {
    hide Sum;
    SumSplit(slots, SlotBag(view), i);
  }

  lemma ItemsUpdate<T, U>(slots: seq<Option<T>>, view: T -> U, i: nat, slot: Option<T>)
    requires i < |slots|
    ensures Items(slots[i := slot], view) + One(slots[i], view) == Items(slots, view) + One(slot, view)
  {
    hide Sum;
    SumUpdate(slots, SlotBag(view), i, slot);
  }

  lemma {:induction false} ItemsMember<T, U>(slots: seq<Option<T>>, view: T -> U, u: U)
    ensures u in Items(slots, view) <==>
            exists i :: 0 <= i < |slots| && slots[i].Some? && view(slots[i].value) == u
  {
    if slots != [] {
      ItemsMember(slots[1..], view, u);
      if u in Items(slots[1..], view) {
        var i :| 0 <= i < |slots| - 1 && slots[1..][i].Some? && view(slots[1..][i].value) == u;
        assert slots[i + 1].Some?;
      }
      if i :| 0 < i < |slots| && slots[i].Some? && view(slots[i].value) == u {
        assert slots[1..][i - 1].Some?;
      }
    }
  }

  lemma ItemsOfEmptySlots<T, U>(slots: seq<Option<T>>, view: T -> U)
    requires forall i :: 0 <= i < |slots| ==> slots[i].None?
    ensures Items(slots, view) == multiset{}
  {
    SumEmpty(slots, SlotBag(view));
  }

  lemma {:induction false} SomeSlotIsFree<T, U>(slots: seq<Option<T>>, view: T -> U) returns (i: nat)
    requires |Items(slots, view)| < |slots|
    ensures i < |slots| && slots[i].None?
  {
    if slots[0].None? {
      i := 0;
    } else {
      i := SomeSlotIsFree(slots[1..], view);
      i := i + 1;
    }
  }

  // The items slot by slot.
  ghost function Listed<T, U>(slots: seq<Option<T>>, view: T -> U): seq<U> {
    if slots == [] then []
    else
      var last := slots[|slots| - 1];
      Listed(slots[..|slots| - 1], view) + if last.Some? then [view(last.value)] else []
  }

  lemma {:induction false} ListedAreItems<T, U>(slots: seq<Option<T>>, view: T -> U)
    ensures multiset(Listed(slots, view)) == Items(slots, view)
  {
    hide Items;
    if slots != [] {
      var n := |slots| - 1;
      ListedAreItems(slots[..n], view);
      assert slots[..n + 1] == slots;
      ItemsSplit(slots, view, n);
    } else {
      ItemsOfEmptySlots(slots, view);
    }
  }

  // The slots whose items are meant by p.
  ghost function SlotsWith<T, U>(slots: seq<Option<T>>, view: T -> U, p: U -> bool): set<nat> {
    set i: nat | i < |slots| && slots[i].Some? && p(view(slots[i].value))
  }

  lemma {:induction false} CountSlots<T, U>(slots: seq<Option<T>>, view: T -> U, p: U -> bool)
    ensures |Filter(Listed(slots, view), p)| == |SlotsWith(slots, view, p)|
  {
    hide Filter, SlotsWith;
    SlotsWithUnfold(slots, view, p);
    if slots == [] {
      FilterUnfold<U>([], p);
    } else {
      var n := |slots| - 1;
      var init, last := slots[..n], slots[n];
      CountSlots(init, view, p);
      if last.Some? {
        FilterAppend(Listed(init, view), view(last.value), p);
      } else {
        assert Listed(slots, view) == Listed(init, view);
      }
    }
  }

  lemma SlotsWithUnfold<T, U>(slots: seq<Option<T>>, view: T -> U, p: U -> bool)
    ensures var n := |slots| - 1;
            if n < 0 then SlotsWith(slots, view, p) == {}
            else
              && n !in SlotsWith(slots[..n], view, p)
              && SlotsWith(slots, view, p) ==
                 SlotsWith(slots[..n], view, p) + if slots[n].Some? && p(view(slots[n].value)) then {n} else {}
  {
  }

  lemma {:induction false} SubsetIsSmaller<T>(a: set<T>, b: set<T>)
    requires a <= b
    ensures |a| <= |b|
  {
    assert b == a + (b - a);
  }

  ghost function Image(c: set<nat>, f: nat -> nat): set<nat> {
    set s | s in c :: f(s)
  }

  lemma {:induction false} ImageIsSmaller(c: set<nat>, f: nat -> nat)
    ensures |Image(c, f)| <= |c|
    decreases |c|
  {
    if c != {} {
      var s :| s in c;
      ImageIsSmaller(c - {s}, f);
      assert Image(c, f) == Image(c - {s}, f) + {f(s)};
    }
  }

  ghost predicate HasKey<T, K, V>(slots: seq<Option<T>>, view: T -> (K, V), key: K, i: nat)
    requires i < |slots|
  {
    slots[i].Some? && view(slots[i].value).0 == key
  }

  ghost predicate HoldsKey<K, V>(items: multiset<(K, V)>, key: K) {
    exists item :: item in items && item.0 == key
  }

  lemma ContentsHaveKey<T, K, V>(slots: seq<Option<T>>, view: T -> (K, V), key: K)
    ensures HoldsKey(Items(slots, view), key) <==> exists i :: 0 <= i < |slots| && HasKey(slots, view, key, i)
  {
    hide Items;
    var items := Items(slots, view);
    if item :| item in items && item.0 == key {
      ItemsMember(slots, view, item);
      var i :| 0 <= i < |slots| && slots[i].Some? && view(slots[i].value) == item;
      assert HasKey(slots, view, key, i);
    }
    if i :| 0 <= i < |slots| && HasKey(slots, view, key, i) {
      ItemsMember(slots, view, view(slots[i].value));
    }
  }

  // A key is among the pairs put in.
  ghost predicate IsInserted<K, V>(pairs: seq<(K, V)>, key: K) {
    exists i :: 0 <= i < |pairs| && pairs[i].0 == key
  }

  lemma HeldIsInserted<K, V>(pairs: seq<(K, V)>, key: K)
    ensures HoldsKey(multiset(pairs), key) <==> IsInserted(pairs, key)
  {
    if item :| item in multiset(pairs) && item.0 == key {
      assert item in pairs;
    }
    if i :| 0 <= i < |pairs| && pairs[i].0 == key {
      assert pairs[i] in multiset(pairs);
    }
  }
}
