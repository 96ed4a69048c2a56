// build_phase of src/execute.cpp over the context's tuple collectors: every row with a key is
// consumed by the collector of the worker that has claimed it.
module BuildPhase {
  import opened Bags
  import opened Directory
  import opened HashJoin
  import opened SlabAllocator
  import WorkQueue

  // The context: one collector for each worker, whatever earlier joins have left in it.
  ghost predicate ContextOk(collectors: seq<TupleCollector>, hash: int -> Hash)
    reads collectors
  {
    && |collectors| == WORKERS
    && (forall v, w :: 0 <= v < w < |collectors| ==> collectors[v] != collectors[w])
    && (forall w :: 0 <= w < |collectors| ==> collectors[w].Valid() && collectors[w].hash == hash)
  }

  // What the collectors have consumed.
  ghost predicate Hold(collectors: seq<TupleCollector>, gots: seq<seq<Tuple>>)
    reads collectors
  {
    |gots| == |collectors| && forall w :: 0 <= w < |collectors| ==> collectors[w].consumed == gots[w]
  }

  // con->reset()
  method ResetAll(collectors: seq<TupleCollector>, ghost hash: int -> Hash)
    requires ContextOk(collectors, hash)
    modifies collectors
    ensures ContextOk(collectors, hash) && Hold(collectors, seq(WORKERS, _ => []))
  {
    hide TupleCollector.Valid;
    for w := 0 to WORKERS
      invariant ContextOk(collectors, hash)
      invariant forall v :: 0 <= v < w ==> collectors[v].consumed == []
    {
      collectors[w].Reset();
    }
  }

  // The build workers, each with its own collector; `queue` is the state of the claim protocol
  // (WorkQueue) that the fields stand for.
  class BuildRun {
    const keys: Column
    const hash: int -> Hash
    const collectors: seq<TupleCollector>
    var nextRow: nat
    var row: seq<nat>
    var end: seq<nat>
    var done: seq<bool>
    ghost var queue: WorkQueue.Queue<Tuple>

    ghost predicate Tied()
      reads this
    {
      && queue.next == nextRow && |row| == |end| == |done| == |queue.workers| == WORKERS
      && forall w :: 0 <= w < WORKERS ==>
           row[w] == queue.workers[w].row && end[w] == queue.workers[w].end && done[w] == queue.workers[w].done
    }

    ghost predicate Valid()
      reads this, collectors
    {
      && IsKeyColumn(keys) && Tied() && ContextOk(collectors, hash)
      && (forall w :: 0 <= w < WORKERS ==> end[w] <= |keys|)
      && (forall w :: 0 <= w < WORKERS ==> collectors[w].consumed == queue.workers[w].got)
    }

    constructor (keys: Column, hash: int -> Hash, collectors: seq<TupleCollector>)
      requires IsKeyColumn(keys) && ContextOk(collectors, hash) && Hold(collectors, seq(WORKERS, _ => []))
      ensures Valid() && this.keys == keys && this.hash == hash && this.collectors == collectors
      ensures queue == WorkQueue.Init(WORKERS)
    {
      this.keys, this.hash, this.collectors, nextRow, queue := keys, hash, collectors, 0, WorkQueue.Init(WORKERS);
      row, end, done := seq(WORKERS, _ => 0), seq(WORKERS, _ => 0), seq(WORKERS, _ => false);
    }

    method BuildNext(w: nat)
      requires Valid() && w < WORKERS && !done[w] && row[w] < end[w]
      modifies this`row, this`queue, collectors
      ensures Valid() && queue == WorkQueue.Step(old(queue), |keys|, BuildRow(keys, hash), w)
    {
      hide TupleCollector.Valid;
      var v := keys[row[w]];
      if v.Int32? {
        collectors[w].Consume(Tuple(v.i, row[w], hash(v.i)));
      }
      queue := WorkQueue.Step(queue, |keys|, BuildRow(keys, hash), w);
      row := row[w := row[w] + 1];
    }

    method Claim(w: nat)
      requires Valid() && w < WORKERS && !done[w] && row[w] >= end[w]
      modifies this`nextRow, this`row, this`end, this`done, this`queue
      ensures Valid() && queue == WorkQueue.Step(old(queue), |keys|, BuildRow(keys, hash), w)
    {
      hide TupleCollector.Valid, BuildRow;
      queue := WorkQueue.Step(queue, |keys|, BuildRow(keys, hash), w);
      var start, rows := nextRow, |keys|;
      nextRow := nextRow + WorkQueue.BLOCK;
      if start >= rows {
        done := done[w := true];
      } else {
        row := row[w := start];
        end := end[w := if start + WorkQueue.BLOCK > rows then rows else start + WorkQueue.BLOCK];
      }
    }

    // One step of worker w: consume its next row, claim a block, or stop.
    method Step(w: nat)
      requires Valid() && w < WORKERS
      modifies this, collectors
      ensures Valid() && queue == WorkQueue.Step(old(queue), |keys|, BuildRow(keys, hash), w)
    {
      hide TupleCollector.Valid, BuildRow, ContextOk;
      if !done[w] {
        if row[w] < end[w] {
          BuildNext(w);
        } else {
          Claim(w);
        }
      }
    }

    // The workers step in the order of the schedule.
    method Play(schedule: seq<nat>)
      requires Valid() && ScheduleOk(schedule)
      modifies this, collectors
      ensures Valid() && queue == WorkQueue.Run(old(queue), |keys|, BuildRow(keys, hash), schedule)
    {
      hide TupleCollector.Valid, BuildRow, ContextOk, WorkQueue.Step;
      ghost var whole := WorkQueue.Run(queue, |keys|, BuildRow(keys, hash), schedule);
      assert schedule[0..] == schedule;
      for i := 0 to |schedule|
        invariant Valid() && WorkQueue.Run(queue, |keys|, BuildRow(keys, hash), schedule[i..]) == whole
      {
        assert schedule[i..][0] == schedule[i] && schedule[i..][1..] == schedule[i + 1..];
        Step(schedule[i]);
      }
      assert schedule[|schedule|..] == [];
    }
  }

  // The build phase under any schedule: whatever the collectors held, they hold in the end what
  // the claim protocol gives their workers.
  method BuildRows(keys: Column, hash: int -> Hash, collectors: seq<TupleCollector>, schedule: seq<nat>)
    requires IsKeyColumn(keys) && ContextOk(collectors, hash) && ScheduleOk(schedule)
    modifies collectors
    ensures ContextOk(collectors, hash)
    ensures var q := WorkQueue.Run(WorkQueue.Init(WORKERS), |keys|, BuildRow(keys, hash), schedule);
            Hold(collectors, Map(q.workers, WorkQueue.Got))
  {
    hide TupleCollector.Valid, BuildRow, WorkQueue.Run, Map;
    ResetAll(collectors, hash);
    var run := new BuildRun(keys, hash, collectors);
    run.Play(schedule);
  }

  // What merge worker p reads, collector by collector, and counts[p] summed over the collectors.
  method Collected(collectors: seq<TupleCollector>, hash: int -> Hash, p: nat, ghost gots: seq<seq<Tuple>>)
    returns (list: seq<Tuple>, count: nat)
    requires ContextOk(collectors, hash) && Hold(collectors, gots) && p < PARTITIONS
    ensures list == PartitionList(gots, hash)(p) && count == |list|
  {
    hide Filter, Map, Concat, TupleCollector.Valid;
    list, count := [], 0;
    ghost var parts := Map(gots, Filtered(InPartition(p, hash)));
    assert parts[..0] == [];
    ConcatUnfold(parts[..0]);
    for w := 0 to WORKERS
      invariant list == Concat(parts[..w]) && count == |list|
    {
      var ts := collectors[w].PartitionTuples(p);
      assert parts[..w + 1] == parts[..w] + [ts];
      ConcatSnoc(parts[..w], ts);
      list, count := list + ts, count + |ts|;
    }
    assert parts[..WORKERS] == parts;
  }

  // The lists that the 32 merge workers read.
  method CollectedLists(collectors: seq<TupleCollector>, hash: int -> Hash, ghost gots: seq<seq<Tuple>>)
    returns (lists: seq<seq<Tuple>>)
    requires ContextOk(collectors, hash) && Hold(collectors, gots)
    ensures lists == PartitionLists(gots, hash)
  {
    hide PartitionList, TupleCollector.Valid, ContextOk, Hold, WorkQueue.Range, Map;
    lists := [];
    for p := 0 to PARTITIONS
      invariant |lists| == p && forall q :: 0 <= q < p ==> lists[q] == PartitionList(gots, hash)(q)
    {
      var list, _ := Collected(collectors, hash, p, gots);
      lists := lists + [list];
    }
    RangeMember(0, WORKERS);
  }
}
