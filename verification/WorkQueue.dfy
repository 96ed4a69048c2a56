// The row-claiming loop shared by build_phase and probe_phase (src/execute.cpp): workers take
// blocks of rows from one atomic counter and keep what each row yields to themselves. A run
// is the state reached under a schedule, the list of worker numbers in the order they step.
module WorkQueue {
  import opened Bags

  const BLOCK: nat := 1024 // column_t::ELEMENTS_PER_PAGE

  datatype Worker<T> = Worker(row: nat, end: nat, done: bool, got: seq<T>)

  datatype Queue<T> = Queue(next: nat, workers: seq<Worker<T>>)

  function Init<T>(workers: nat): Queue<T> {
    Queue(0, seq(workers, _ => Worker(0, 0, false, [])))
  }

  // One step of a worker: handle its next row, or claim a block, or stop.
  function Step<T>(q: Queue<T>, rows: nat, produce: nat -> seq<T>, w: nat): Queue<T>
    requires w < |q.workers|
  {
    var me := q.workers[w];
    if me.done then q
    else if me.row < me.end then
      q.(workers := q.workers[w := me.(row := me.row + 1, got := me.got + produce(me.row))])
    else if q.next < rows then
      Queue(q.next + BLOCK, q.workers[w := me.(row := q.next, end := if q.next + BLOCK > rows then rows else q.next + BLOCK)])
    else
      Queue(q.next + BLOCK, q.workers[w := me.(done := true)])
  }

  function Run<T>(q: Queue<T>, rows: nat, produce: nat -> seq<T>, schedule: seq<nat>): Queue<T>
    requires forall k :: 0 <= k < |schedule| ==> schedule[k] < |q.workers|
    decreases |schedule|
  {
    if schedule == [] then q else Run(Step(q, rows, produce, schedule[0]), rows, produce, schedule[1..])
  }

  predicate Finished<T>(q: Queue<T>) {
    forall w :: 0 <= w < |q.workers| ==> q.workers[w].done
  }

  function Got<T>(w: Worker<T>): seq<T> { w.got }

  // All that the workers hold, worker by worker.
  function Gathered<T>(q: Queue<T>): seq<T> {
    Concat(Map(q.workers, Got))
  }

  function Range(a: nat, b: nat): seq<nat>
    decreases b - a
  {
    if a >= b then [] else [a] + Range(a + 1, b)
  }

  ghost function YieldBag<T>(produce: nat -> seq<T>): nat -> multiset<T> {
    (row: nat) => multiset(produce(row))
  }

  // What a worker holds and what the rest of its block will yield.
  ghost function Share<T>(produce: nat -> seq<T>): Worker<T> -> multiset<T> {
    (w: Worker<T>) => multiset(w.got) + Sum(Range(w.row, w.end), YieldBag(produce))
  }

  // Nothing is lost or handled twice: the workers' shares and the unclaimed rows are all rows.
  ghost predicate Balanced<T>(q: Queue<T>, rows: nat, produce: nat -> seq<T>) {
    && (forall w :: 0 <= w < |q.workers| && q.workers[w].done ==> q.workers[w].row >= q.workers[w].end)
    && (forall w :: 0 <= w < |q.workers| && q.workers[w].done ==> rows <= q.next)
    && Sum(q.workers, Share(produce)) + Sum(Range(q.next, rows), YieldBag(produce)) == Sum(Range(0, rows), YieldBag(produce))
  }

  lemma {:induction false} RangeSplit(a: nat, b: nat, c: nat)
    requires a <= b <= c
    ensures Range(a, c) == Range(a, b) + Range(b, c)
    decreases b - a
  {
    if a < b {
      RangeSplit(a + 1, b, c);
    }
  }

  lemma StartsBalanced<T>(workers: nat, rows: nat, produce: nat -> seq<T>)
    ensures Balanced(Init(workers), rows, produce)
  {
    var q := Init<T>(workers);
    SumEmpty(q.workers, Share(produce));
  }

  lemma StepKeepsBalance<T>(q: Queue<T>, rows: nat, produce: nat -> seq<T>, w: nat)
    requires w < |q.workers| && Balanced(q, rows, produce)
    ensures Balanced(Step(q, rows, produce, w), rows, produce)
  {
    hide Sum, Range;
    var me := q.workers[w];
    var q' := Step(q, rows, produce, w);
    SumUpdate(q.workers, Share(produce), w, q'.workers[w]);
    if !me.done {
      if me.row < me.end {
        RowMoves(me, produce);
        Cancel(Sum(q'.workers, Share(produce)), Sum(q.workers, Share(produce)), Share(produce)(me));
      } else if q.next < rows {
        ClaimMovesBlock(q, rows, produce, w);
      } else {
        Cancel(Sum(q'.workers, Share(produce)), Sum(q.workers, Share(produce)), Share(produce)(me));
        EmptyRange(q.next, rows, YieldBag(produce));
        EmptyRange(q'.next, rows, YieldBag(produce));
      }
    }
  }

  lemma ClaimMovesBlock<T>(q: Queue<T>, rows: nat, produce: nat -> seq<T>, w: nat)
    requires w < |q.workers| && q.next < rows && !q.workers[w].done && q.workers[w].row >= q.workers[w].end
    ensures var q' := Step(q, rows, produce, w);
            var f := YieldBag(produce);
            Sum(q'.workers, Share(produce)) + Sum(Range(q'.next, rows), f) ==
            Sum(q.workers, Share(produce)) + Sum(Range(q.next, rows), f)
  {
    hide Sum, Range;
    var q' := Step(q, rows, produce, w);
    var me, me' := q.workers[w], q'.workers[w];
    var f := YieldBag(produce);
    SumUpdate(q.workers, Share(produce), w, me');
    EmptyRange(me.row, me.end, f);
    RangeSplit(q.next, me'.end, rows);
    SumConcat(Range(q.next, me'.end), Range(me'.end, rows), f);
    EmptyRange(me'.end, rows, f);
    EmptyRange(q'.next, rows, f);
    BlockMoves(Sum(q.workers, Share(produce)), Sum(q'.workers, Share(produce)), multiset(me.got),
               Sum(Range(q.next, me'.end), f), Sum(Range(me'.end, rows), f));
  }

  lemma BlockMoves<U>(shares: multiset<U>, shares': multiset<U>, got: multiset<U>, block: multiset<U>,
                      rest: multiset<U>)
    requires shares' + got == shares + (got + block)
    ensures shares' + rest == shares + (block + rest)
  {
    Regroup(shares, got, block);
    Regroup(shares, block, got);
    Cancel(shares', shares + block, got);
    Regroup(shares, block, rest);
  }

  lemma EmptyRange<U>(a: nat, b: nat, f: nat -> multiset<U>)
    ensures a >= b ==> Range(a, b) == [] && Sum(Range(a, b), f) == multiset{}
  {
  }

  lemma RowMoves<T>(me: Worker<T>, produce: nat -> seq<T>)
    requires me.row < me.end
    ensures Share(produce)(me.(row := me.row + 1, got := me.got + produce(me.row))) == Share(produce)(me)
  {
    hide Sum;
    var f := YieldBag(produce);
    assert Range(me.row, me.end)[1..] == Range(me.row + 1, me.end);
    SumUnfold(Range(me.row, me.end), f);
    Regroup(multiset(me.got), f(me.row), Sum(Range(me.row + 1, me.end), f));
  }

  lemma {:induction false} RunKeepsBalance<T>(q: Queue<T>, rows: nat, produce: nat -> seq<T>, schedule: seq<nat>)
    requires forall k :: 0 <= k < |schedule| ==> schedule[k] < |q.workers|
    requires Balanced(q, rows, produce)
    ensures Balanced(Run(q, rows, produce, schedule), rows, produce)
    decreases |schedule|
  {
    if schedule != [] {
      StepKeepsBalance(q, rows, produce, schedule[0]);
      RunKeepsBalance(Step(q, rows, produce, schedule[0]), rows, produce, schedule[1..]);
    }
  }

  // Whatever the interleaving, workers that have all stopped hold together exactly what the
  // rows yield, each row once.
  lemma FinishedRunHandlesEachRowOnce<T>(workers: nat, rows: nat, produce: nat -> seq<T>, schedule: seq<nat>)
    requires forall k :: 0 <= k < |schedule| ==> schedule[k] < workers
    requires workers > 0 && Finished(Run(Init(workers), rows, produce, schedule))
    ensures multiset(Gathered(Run(Init(workers), rows, produce, schedule))) == Sum(Range(0, rows), YieldBag(produce))
  {
    hide Sum, Range, Run;
    var q := Run(Init(workers), rows, produce, schedule);
    StartsBalanced(workers, rows, produce);
    RunKeepsBalance(Init(workers), rows, produce, schedule);
    RunKeepsWorkers(Init(workers), rows, produce, schedule);
    assert q.workers[0].done;
    EmptyRange(q.next, rows, YieldBag(produce));
    SharesAreGot(q.workers, produce);
  }

  lemma {:induction false} RunKeepsWorkers<T>(q: Queue<T>, rows: nat, produce: nat -> seq<T>, schedule: seq<nat>)
    requires forall k :: 0 <= k < |schedule| ==> schedule[k] < |q.workers|
    ensures |Run(q, rows, produce, schedule).workers| == |q.workers|
    decreases |schedule|
  {
    if schedule != [] {
      RunKeepsWorkers(Step(q, rows, produce, schedule[0]), rows, produce, schedule[1..]);
    }
  }

  lemma {:induction false} SharesAreGot<T>(workers: seq<Worker<T>>, produce: nat -> seq<T>)
    requires forall w :: 0 <= w < |workers| ==> workers[w].row >= workers[w].end
    ensures Sum(workers, Share(produce)) == multiset(Concat(Map(workers, Got)))
  {
    if workers != [] {
      SharesAreGot(workers[1..], produce);
    }
  }

  // Every step of a worker that has not stopped uses up some of this budget, so a schedule
  // that keeps stepping such workers finishes.
  function Budget<T>(q: Queue<T>, rows: nat): nat {
    2 * (if q.next < rows then rows - q.next else 0) + Pending(q.workers)
  }

  function Pending<T>(workers: seq<Worker<T>>): nat {
    if workers == [] then 0
    else (if workers[0].done then 0 else 1) +
         (if workers[0].row < workers[0].end then workers[0].end - workers[0].row else 0) + Pending(workers[1..])
  }

  lemma {:induction false} PendingUpdate<T>(workers: seq<Worker<T>>, w: nat, me: Worker<T>)
    requires w < |workers|
    ensures Pending(workers[w := me]) + Pending([workers[w]]) == Pending(workers) + Pending([me])
  {
    if w > 0 {
      PendingUpdate(workers[1..], w - 1, me);
      assert workers[w := me][1..] == workers[1..][w - 1 := me];
    } else {
      assert workers[w := me][1..] == workers[1..];
    }
  }

  lemma StepMakesProgress<T>(q: Queue<T>, rows: nat, produce: nat -> seq<T>, w: nat)
    requires w < |q.workers| && !q.workers[w].done
    ensures Budget(Step(q, rows, produce, w), rows) < Budget(q, rows)
  {
    PendingUpdate(q.workers, w, Step(q, rows, produce, w).workers[w]);
  }

  // From every state some schedule lets all workers stop.
  lemma {:induction false} CanFinish<T>(q: Queue<T>, rows: nat, produce: nat -> seq<T>) returns (schedule: seq<nat>)
    ensures forall k :: 0 <= k < |schedule| ==> schedule[k] < |q.workers|
    ensures Finished(Run(q, rows, produce, schedule))
    decreases Budget(q, rows)
  {
    schedule := [];
    if !Finished(q) {
      var w :| 0 <= w < |q.workers| && !q.workers[w].done;
      StepMakesProgress(q, rows, produce, w);
      var rest := CanFinish(Step(q, rows, produce, w), rows, produce);
      schedule := [w] + rest;
      assert schedule[1..] == rest;
    }
  }
}
