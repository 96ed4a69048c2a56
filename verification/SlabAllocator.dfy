// include/slab_allocator.hpp. The large chunks that malloc returns are laid out one after
// another in an address space of their own: block i covers [i * LARGE, (i + 1) * LARGE).
module SlabAllocator {
  import opened Arith
  import opened Bags
  import opened Directory

  const PARTITIONS: nat := 32
  const TUPLE_SIZE: nat := 24
  const SMALL: nat := 0x2_0000   // 128 KB
  const LARGE: nat := 0x800_0000 // 32 * 32 small chunks

  datatype SmallChunk = SmallChunk(start: nat, current: nat, end: nat)

  type Memory = map<nat, Tuple>

  // The tuples stored from address a up to address b.
  function Read(memory: Memory, a: nat, b: nat): seq<Tuple>
    decreases b - a
  {
    if a >= b || a !in memory then [] else [memory[a]] + Read(memory, a + TUPLE_SIZE, b)
  }

  // The chunk loop of merge_phase: chunk by chunk, from start to current.
  function Walk(memory: Memory, chunks: seq<SmallChunk>): seq<Tuple> {
    if chunks == [] then [] else Read(memory, chunks[0].start, chunks[0].current) + Walk(memory, chunks[1..])
  }

  function InPartition(p: nat, hash: int -> Hash): Tuple -> bool {
    (t: Tuple) => PartitionOf(hash(t.key)) == p
  }

  ghost predicate ChunkOk(memory: Memory, c: SmallChunk, top: nat) {
    && c.start % SMALL == 0 && c.end == c.start + SMALL && c.end <= top
    && c.start <= c.current <= c.end && (c.current - c.start) % TUPLE_SIZE == 0
    && forall a :: c.start <= a < c.current && (a - c.start) % TUPLE_SIZE == 0 ==> a in memory
  }

  lemma ReadUnfold(memory: Memory, a: nat, b: nat)
    ensures Read(memory, a, b) == if a >= b || a !in memory then [] else [memory[a]] + Read(memory, a + TUPLE_SIZE, b)
  {
  }

  lemma WalkUnfold(memory: Memory, chunks: seq<SmallChunk>)
    ensures Walk(memory, chunks) ==
            if chunks == [] then [] else Read(memory, chunks[0].start, chunks[0].current) + Walk(memory, chunks[1..])
  {
  }

  lemma {:induction false} ReadFrame(memory: Memory, a: nat, b: nat, at: nat, t: Tuple)
    requires !(a <= at < b)
    ensures Read(memory[at := t], a, b) == Read(memory, a, b)
    decreases b - a
  {
    if a < b {
      ReadFrame(memory, a + TUPLE_SIZE, b, at, t);
    }
  }

  lemma {:induction false} ReadExtend(memory: Memory, a: nat, b: nat, t: Tuple)
    requires a <= b && (b - a) % TUPLE_SIZE == 0
    requires forall x :: a <= x < b && (x - a) % TUPLE_SIZE == 0 ==> x in memory
    ensures Read(memory[b := t], a, b + TUPLE_SIZE) == Read(memory, a, b) + [t]
    decreases b - a
  {
    hide Read;
    var after := memory[b := t];
    ReadUnfold(after, a, b + TUPLE_SIZE);
    ReadUnfold(memory, a, b);
    if a == b {
      ReadUnfold(after, b + TUPLE_SIZE, b + TUPLE_SIZE);
    } else {
      forall x | a + TUPLE_SIZE <= x < b && (x - (a + TUPLE_SIZE)) % TUPLE_SIZE == 0 ensures x in memory {
        assert (x - a) % TUPLE_SIZE == 0;
      }
      assert (a - a) % TUPLE_SIZE == 0;
      ReadExtend(memory, a + TUPLE_SIZE, b, t);
    }
  }

  lemma {:induction false} WalkFrame(memory: Memory, chunks: seq<SmallChunk>, at: nat, t: Tuple)
    requires forall i :: 0 <= i < |chunks| ==> !(chunks[i].start <= at < chunks[i].current)
    ensures Walk(memory[at := t], chunks) == Walk(memory, chunks)
  {
    if chunks != [] {
      ReadFrame(memory, chunks[0].start, chunks[0].current, at, t);
      WalkFrame(memory, chunks[1..], at, t);
    }
  }

  lemma {:induction false} WalkAppend(memory: Memory, chunks: seq<SmallChunk>, c: SmallChunk)
    ensures Walk(memory, chunks + [c]) == Walk(memory, chunks) + Read(memory, c.start, c.current)
  {
    hide Walk, Read;
    WalkUnfold(memory, chunks);
    WalkUnfold(memory, chunks + [c]);
    if chunks == [] {
      WalkUnfold(memory, (chunks + [c])[1..]);
    } else {
      WalkAppend(memory, chunks[1..], c);
      TailOfSnoc(chunks, c);
      Associate(Read(memory, chunks[0].start, chunks[0].current), Walk(memory, chunks[1..]), Read(memory, c.start, c.current));
    }
  }

  lemma TailOfSnoc<T>(s: seq<T>, x: T)
    requires s != []
    ensures (s + [x])[1..] == s[1..] + [x] && (s + [x])[0] == s[0]
  {
  }

  lemma Associate<T>(a: seq<T>, b: seq<T>, c: seq<T>)
    ensures a + (b + c) == a + b + c
  {
  }

  // One more tuple at the end of the last chunk.
  lemma WalkExtend(memory: Memory, chunks: seq<SmallChunk>, t: Tuple, top: nat)
    requires chunks != [] && forall i :: 0 <= i < |chunks| ==> ChunkOk(memory, chunks[i], top)
    requires forall i, j :: 0 <= i < j < |chunks| ==> chunks[i].start != chunks[j].start
    requires var c := chunks[|chunks| - 1]; c.current + TUPLE_SIZE <= c.end
    ensures var n := |chunks| - 1;
            var c := chunks[n];
            Walk(memory[c.current := t], chunks[n := c.(current := c.current + TUPLE_SIZE)]) == Walk(memory, chunks) + [t]
  {
    hide Read, Walk;
    var n := |chunks| - 1;
    var c := chunks[n];
    var c' := c.(current := c.current + TUPLE_SIZE);
    assert chunks == chunks[..n] + [c] && chunks[n := c'] == chunks[..n] + [c'];
    WalkAppend(memory, chunks[..n], c);
    WalkAppend(memory[c.current := t], chunks[..n], c');
    forall i | 0 <= i < n ensures !(chunks[..n][i].start <= c.current < chunks[..n][i].current) {
      assert chunks[i].start != c.start;
      ChunksApart(memory, chunks[i], c, top, c.current);
    }
    WalkFrame(memory, chunks[..n], c.current, t);
    ReadExtend(memory, c.start, c.current, t);
  }

  // Two chunks with different starts share no address.
  lemma ChunksApart(memory: Memory, c: SmallChunk, d: SmallChunk, top: nat, a: nat)
    requires ChunkOk(memory, c, top) && ChunkOk(memory, d, top) && c.start != d.start
    requires d.start <= a < d.end
    ensures !(c.start <= a < c.end)
  {
  }

  // The chunks of all partitions lie below top, at different places.
  ghost predicate Layout(memory: Memory, chunks: seq<seq<SmallChunk>>, top: nat) {
    && |chunks| == PARTITIONS
    && (forall p, i :: 0 <= p < PARTITIONS && 0 <= i < |chunks[p]| ==> ChunkOk(memory, chunks[p][i], top))
    && (forall p, i, q, j :: 0 <= p < PARTITIONS && 0 <= i < |chunks[p]| && 0 <= q < PARTITIONS && 0 <= j < |chunks[q]| ==>
          (chunks[p][i].start == chunks[q][j].start ==> p == q && i == j))
  }

  ghost predicate TupleAt(c: SmallChunk, a: nat) {
    c.start <= a < c.current && (a - c.start) % TUPLE_SIZE == 0
  }

  // The 24 bytes of two stored tuples never overlap, in one partition or across partitions.
  lemma TuplesApart(memory: Memory, chunks: seq<seq<SmallChunk>>, top: nat, p: nat, i: nat, a: nat, q: nat, j: nat,
                    b: nat)
    requires Layout(memory, chunks, top) && p < PARTITIONS && q < PARTITIONS && i < |chunks[p]| && j < |chunks[q]|
    requires TupleAt(chunks[p][i], a) && TupleAt(chunks[q][j], b) && a < b
    ensures a + TUPLE_SIZE <= b
  {
    var c, d := chunks[p][i], chunks[q][j];
    assert ChunkOk(memory, c, top) && ChunkOk(memory, d, top);
    if c.start == d.start {
      assert p == q && i == j;
      assert (b - c.start) - (a - c.start) == b - a;
    } else {
      ChunksApart(memory, c, d, top, b);
      assert a + TUPLE_SIZE <= c.end;
    }
  }

  function Grown(chunks: seq<seq<SmallChunk>>, p: nat): seq<seq<SmallChunk>>
    requires p < |chunks| && chunks[p] != []
  {
    var n := |chunks[p]| - 1;
    chunks[p := chunks[p][n := chunks[p][n].(current := chunks[p][n].current + TUPLE_SIZE)]]
  }

  lemma StoreKeepsLayout(memory: Memory, chunks: seq<seq<SmallChunk>>, top: nat, p: nat, t: Tuple)
    requires Layout(memory, chunks, top) && p < PARTITIONS && chunks[p] != []
    requires var c := chunks[p][|chunks[p]| - 1]; c.current + TUPLE_SIZE <= c.end
    ensures var c := chunks[p][|chunks[p]| - 1]; Layout(memory[c.current := t], Grown(chunks, p), top)
  {
    hide ChunkOk;
    var c := chunks[p][|chunks[p]| - 1];
    var chunks': seq<seq<SmallChunk>> := Grown(chunks, p);
    StoreKeepsChunk(memory, c, c, top, t);
    forall q, i | 0 <= q < PARTITIONS && 0 <= i < |chunks'[q]|
      ensures chunks'[q][i].start == chunks[q][i].start && ChunkOk(memory[c.current := t], chunks'[q][i], top)
    {
      StoreKeepsChunk(memory, chunks[q][i], c, top, t);
    }
  }

  lemma StoreKeepsChunk(memory: Memory, d: SmallChunk, c: SmallChunk, top: nat, t: Tuple)
    requires ChunkOk(memory, d, top) && ChunkOk(memory, c, top) && c.current + TUPLE_SIZE <= c.end
    ensures ChunkOk(memory[c.current := t], d, top)
    ensures ChunkOk(memory[c.current := t], c.(current := c.current + TUPLE_SIZE), top)
  {
    var after := memory[c.current := t];
    var k := (c.current - c.start) / TUPLE_SIZE;
    DivModUnique(c.current + TUPLE_SIZE - c.start, TUPLE_SIZE, k + 1, 0);
    forall a | c.start <= a < c.current + TUPLE_SIZE && (a - c.start) % TUPLE_SIZE == 0 ensures a in after {
      if a > c.current {
        DivModUnique(a - c.current, TUPLE_SIZE, 0, a - c.current);
        DivModUnique(a - c.start, TUPLE_SIZE, k, a - c.current);
      }
    }
  }

  // A store in partition p's last chunk adds a tuple to p's walk and changes no other walk.
  lemma StoreChangesOneWalk(memory: Memory, chunks: seq<seq<SmallChunk>>, top: nat, p: nat, t: Tuple, q: nat)
    requires Layout(memory, chunks, top) && p < PARTITIONS && q < PARTITIONS && chunks[p] != []
    requires var c := chunks[p][|chunks[p]| - 1]; c.current + TUPLE_SIZE <= c.end
    ensures var c := chunks[p][|chunks[p]| - 1];
            Walk(memory[c.current := t], Grown(chunks, p)[q]) == Walk(memory, chunks[q]) + if q == p then [t] else []
  {
    hide Walk, Read;
    var c := chunks[p][|chunks[p]| - 1];
    if q == p {
      WalkExtend(memory, chunks[p], t, top);
    } else {
      forall i | 0 <= i < |chunks[q]| ensures !(chunks[q][i].start <= c.current < chunks[q][i].current) {
        ChunksApart(memory, chunks[q][i], c, top, c.current);
      }
      WalkFrame(memory, chunks[q], c.current, t);
    }
  }

  lemma OneMoreConsumed(consumed: seq<Tuple>, t: Tuple, p: nat, q: nat, hash: int -> Hash)
    requires PartitionOf(hash(t.key)) == p
    ensures Filter(consumed + [t], InPartition(q, hash)) ==
            Filter(consumed, InPartition(q, hash)) + if q == p then [t] else []
  {
    hide Filter, PartitionOf;
    var more := consumed + [t];
    FilterNext(more, InPartition(q, hash), |consumed|);
    assert more[..|consumed| + 1] == more && more[..|consumed|] == consumed;
  }

  // Level 1: the large chunks and how many are in use. Level 2: the bump pointer into the
  // last one. Level 3: the small chunks of each partition.
  class TupleCollector {
    const hash: int -> Hash
    var largeChunks: nat
    var freeChunkIdx: nat
    var current: nat
    var remaining: nat
    var chunks: seq<seq<SmallChunk>>
    var counts: seq<nat>
    var memory: Memory
    ghost var consumed: seq<Tuple> // since the last reset

    ghost predicate Valid()
      reads this
    {
      && remaining % SMALL == 0 && remaining <= LARGE
      && freeChunkIdx <= largeChunks && current + remaining == freeChunkIdx * LARGE
      && |chunks| == |counts| == PARTITIONS && Layout(memory, chunks, current)
      && (forall p :: 0 <= p < PARTITIONS ==> Holds(p))
    }

    // What walking partition p's chunks gives, and its count.
    ghost predicate Holds(p: nat)
      requires |chunks| == |counts| == PARTITIONS && p < PARTITIONS
      reads this
    {
      && Walk(memory, chunks[p]) == Filter(consumed, InPartition(p, hash))
      && counts[p] == |Filter(consumed, InPartition(p, hash))|
    }

    constructor (hash: int -> Hash)
      ensures Valid() && consumed == [] && this.hash == hash
    {
      this.hash := hash;
      largeChunks, freeChunkIdx, current, remaining := 0, 0, 0, 0;
      chunks := seq(PARTITIONS, _ => []);
      counts := seq(PARTITIONS, _ => 0);
      memory := map[];
      consumed := [];
    }

    // The large chunks are kept for reuse.
    method Reset()
      requires Valid()
      modifies this
      ensures Valid() && consumed == [] && largeChunks == old(largeChunks)
    {
      counts := seq(PARTITIONS, _ => 0);
      chunks := seq(PARTITIONS, _ => []);
      freeChunkIdx := 0;
      current, remaining := 0, 0;
      consumed := [];
    }

    method AllocateLargeChunk() returns (start: nat)
      requires freeChunkIdx <= largeChunks
      modifies this`largeChunks, this`freeChunkIdx
      ensures start == old(freeChunkIdx) * LARGE && freeChunkIdx == old(freeChunkIdx) + 1 <= largeChunks
      ensures largeChunks == if old(freeChunkIdx) == old(largeChunks) then old(largeChunks) + 1 else old(largeChunks)
    {
      if freeChunkIdx == largeChunks {
        largeChunks := largeChunks + 1;
      }
      start := freeChunkIdx * LARGE;
      freeChunkIdx := freeChunkIdx + 1;
    }

    // A large chunk is a whole number of small ones.
    static lemma SmallChunksFill(remaining: nat, current: nat, blocks: nat)
      requires remaining % SMALL == 0 && current + remaining == blocks * LARGE
      ensures current % SMALL == 0 && (remaining < SMALL ==> remaining == 0)
      ensures remaining >= SMALL ==> (remaining - SMALL) % SMALL == 0
      ensures (blocks * LARGE) % SMALL == 0 && (LARGE - SMALL) % SMALL == 0
    {
      var k := remaining / SMALL;
      assert remaining == k * SMALL;
      DivModUnique(blocks * LARGE, SMALL, blocks * 1024, 0);
      DivModUnique(current, SMALL, blocks * 1024 - k, 0);
      if k > 0 {
        DivModUnique(remaining - SMALL, SMALL, k - 1, 0);
      }
    }

    method AllocateSmallChunk() returns (start: nat)
      requires remaining % SMALL == 0 && remaining <= LARGE
      requires freeChunkIdx <= largeChunks && current + remaining == freeChunkIdx * LARGE
      modifies this`largeChunks, this`freeChunkIdx, this`current, this`remaining
      ensures remaining % SMALL == 0 && remaining <= LARGE
      ensures freeChunkIdx <= largeChunks && current + remaining == freeChunkIdx * LARGE
      ensures start == old(current) && start % SMALL == 0 && current == start + SMALL
    {
      SmallChunksFill(remaining, current, freeChunkIdx);
      if remaining < SMALL {
        current := AllocateLargeChunk();
        remaining := LARGE;
      }
      start := current;
      current := current + SMALL;
      remaining := remaining - SMALL;
    }

    predicate HasRoom(p: nat)
      requires p < |chunks|
      reads this
    {
      chunks[p] != [] && var c := chunks[p][|chunks[p]| - 1]; c.end >= c.current + TUPLE_SIZE
    }

    method AddSpace(p: nat)
      requires Valid() && p < PARTITIONS
      modifies this`largeChunks, this`freeChunkIdx, this`current, this`remaining, this`chunks
      ensures Valid() && HasRoom(p)
    {
      hide Filter, Walk, Read;
      var start := AllocateSmallChunk();
      var c := SmallChunk(start, start, start + SMALL);
      ghost var before := chunks;
      EmptyChunk(memory, before[p], c);
      assert forall q, i :: 0 <= q < PARTITIONS && 0 <= i < |before[q]| ==> ChunkOk(memory, before[q][i], start);
      chunks := chunks[p := chunks[p] + [c]];
      forall q | 0 <= q < PARTITIONS ensures Holds(q) {
        assert old(Holds(q));
      }
    }

    method Consume(t: Tuple)
      requires Valid()
      modifies this
      ensures Valid() && consumed == old(consumed) + [t]
    {
      hide Filter, Walk, Read, PartitionOf;
      PartitionBound(hash(t.key));
      var p := PartitionOf(hash(t.key));
      if !HasRoom(p) {
        AddSpace(p);
      }
      Store(p, t);
    }

    // The loop of merge_phase over a chunk, from start to current.
    method ChunkTuples(c: SmallChunk) returns (ts: seq<Tuple>)
      requires ChunkOk(memory, c, current)
      ensures ts == Read(memory, c.start, c.current)
    {
      hide Read;
      ts := [];
      var address := c.start;
      while address < c.current
        invariant c.start <= address <= c.current && (address - c.start) % TUPLE_SIZE == 0
        invariant ts + Read(memory, address, c.current) == Read(memory, c.start, c.current)
      {
        ReadUnfold(memory, address, c.current);
        ts := ts + [memory[address]];
        address := address + TUPLE_SIZE;
      }
      ReadUnfold(memory, address, c.current);
    }

    // Its loop over the chunks of partition p.
    method PartitionTuples(p: nat) returns (ts: seq<Tuple>)
      requires Valid() && p < PARTITIONS
      ensures ts == Filter(consumed, InPartition(p, hash)) && |ts| == counts[p]
    {
      hide Filter, Walk, Read, ChunkOk;
      ts := [];
      for i := 0 to |chunks[p]|
        invariant ts + Walk(memory, chunks[p][i..]) == Walk(memory, chunks[p])
      {
        WalkUnfold(memory, chunks[p][i..]);
        var more := ChunkTuples(chunks[p][i]);
        ts := ts + more;
      }
      WalkUnfold(memory, chunks[p][|chunks[p]|..]);
      assert Holds(p);
    }

    // *level3[part].allocate_tuple() = tuple
    method Store(p: nat, t: Tuple)
      requires Valid() && p < PARTITIONS && HasRoom(p) && PartitionOf(hash(t.key)) == p
      modifies this`memory, this`chunks, this`counts, this`consumed
      ensures Valid() && consumed == old(consumed) + [t]
    {
      hide Filter, Walk, Read, PartitionOf, Layout, ChunkOk;
      var n := |chunks[p]| - 1;
      var c := chunks[p][n];
      StoreKeepsLayout(memory, chunks, current, p, t);
      forall q | 0 <= q < PARTITIONS
        ensures Walk(memory[c.current := t], Grown(chunks, p)[q]) == Filter(consumed + [t], InPartition(q, hash))
        ensures |Filter(consumed + [t], InPartition(q, hash))| == counts[q] + if q == p then 1 else 0
      {
        assert Holds(q);
        StoreChangesOneWalk(memory, chunks, current, p, t, q);
        OneMoreConsumed(consumed, t, p, q, hash);
      }
      memory := memory[c.current := t];
      chunks := chunks[p := chunks[p][n := c.(current := c.current + TUPLE_SIZE)]];
      counts := counts[p := counts[p] + 1];
      consumed := consumed + [t];
    }
  }

  lemma PartitionBound(h: Hash)
    ensures PartitionOf(h) < PARTITIONS
  {
    PartitionOwnsBuckets(h, 0, 5);
  }

  lemma EmptyChunk(memory: Memory, chunks: seq<SmallChunk>, c: SmallChunk)
    requires c.start == c.current
    ensures Walk(memory, chunks + [c]) == Walk(memory, chunks)
  {
    WalkAppend(memory, chunks, c);
  }
}
