// A comparison of an InnerColumn run by FilterThreadPool (include/inner_column.h): the kernels
// of the workers, one byte read or written at a time, between the steps of the pool.
module ParallelKernel {
  import opened Bags
  import opened Options
  import opened PageFormat
  import opened Bitmaps
  import opened ThreadPool
  import WorkQueue

  // The rows that are compared, the bitmap of those that are not null, and the comparison.
  datatype Job = Job(rows: nat, bitmap: seq<Byte>, test: nat -> bool)

  // The row that a worker's kernel is at, and the output byte it has read for it.
  datatype Progress = Progress(row: nat, loaded: Option<Byte>)

  datatype State = State(pool: Pool, job: Job, output: seq<Byte>, progress: seq<Progress>)

  datatype Event = Compare(job: Job) | Other(event: ThreadPool.Event)

  predicate JobOk(job: Job) { |job.bitmap| == BitmapBytes(job.rows) }

  predicate Matches(job: Job, row: nat)
    requires JobOk(job) && row < job.rows
  {
    BitAt(job.bitmap, row) && job.test(row)
  }

  function Begin(s: State, w: nat): nat
    requires s.progress != []
  {
    BeginIdx(|s.job.bitmap|, |s.progress|, w) * 8
  }

  // The end of a worker's rows: its last byte may be cut short by the end of the column.
  function End(s: State, w: nat): nat
    requires s.progress != []
  {
    if Begin(s, w + 1) < s.job.rows then Begin(s, w + 1) else s.job.rows
  }

  predicate InKernel(s: State, w: nat) {
    w < |s.pool.slots| && w < |s.progress| && s.pool.slots[w].pc == Running && s.progress[w].row < End(s, w)
  }

  function Fresh(threads: nat): State {
    State(ThreadPool.Fresh(threads), Job(0, [], (_: nat) => false), [], seq(threads, _ => Progress(0, None)))
  }

  // A comparison begins: the output is all zeros.
  function Start(s: State, job: Job): State {
    var n := |s.progress|;
    State(BeginRun(s.pool, |job.bitmap|), job, seq(|job.bitmap|, _ => 0),
          seq(n, w requires 0 <= w < n => Progress(BeginIdx(|job.bitmap|, n, w) * 8, None)))
  }

  // The kernel of worker w reads the byte of its row, or writes it with the row's bit or-ed in.
  function StepKernel(s: State, w: nat): State
    requires JobOk(s.job) && |s.output| == |s.job.bitmap| && InKernel(s, w)
  {
    var p := s.progress[w];
    if p.loaded.None? then s.(progress := s.progress[w := p.(loaded := Some(s.output[p.row / 8]))])
    else
      var byte := if Matches(s.job, p.row) then ByteWithBit(p.loaded.value, p.row % 8, true) else p.loaded.value;
      s.(output := s.output[p.row / 8 := byte], progress := s.progress[w := Progress(p.row + 1, None)])
  }

  function Step(s: State, e: Event): State
    requires JobOk(s.job) && |s.output| == |s.job.bitmap|
  {
    match e
    case Compare(job) => if JobOk(job) && s.pool.caller.Idle? then Start(s, job) else s
    case Other(CallRun(_)) => s
    case Other(event) =>
      if event.WorkerStep? && InKernel(s, event.w) then StepKernel(s, event.w)
      else s.(pool := ThreadPool.Step(s.pool, event))
  }

  function Play(s: State, events: seq<Event>): State
    requires JobOk(s.job) && |s.output| == |s.job.bitmap|
    decreases |events|
  {
    if events == [] then s else Play(Step(s, events[0]), events[1..])
  }

  // The rows of w are done as far as it has come, and nothing else has been written; a byte it
  // has read is still what it was; and when the pool has called it, all its rows are done.
  ghost predicate WorkerOk(s: State, w: nat)
    requires JobOk(s.job) && |s.output| == |s.job.bitmap| && w < |s.progress| == |s.pool.slots|
  {
    var p := s.progress[w];
    && Begin(s, w) <= p.row && (p.row <= End(s, w) || p.row == Begin(s, w))
    && (p.loaded.Some? ==> p.row < End(s, w) && p.loaded.value == s.output[p.row / 8] && s.pool.slots[w].pc == Running)
    && (s.pool.slots[w].handed != [] ==> End(s, w) <= p.row)
    && forall i :: Begin(s, w) <= i < End(s, w) ==> Bit(s.output, i) == (i < p.row && Matches(s.job, i))
  }

  ghost predicate Inv(s: State) {
    && JobOk(s.job) && |s.output| == |s.job.bitmap| && s.pool.tasks == |s.job.bitmap|
    && |s.progress| == |s.pool.slots| > 0 && ThreadPool.Inv(s.pool)
    && forall w :: 0 <= w < |s.progress| ==> WorkerOk(s, w)
  }

  lemma {:induction false} BeginIdxOrder(tasks: nat, threads: nat, v: nat, w: nat)
    requires threads > 0 && v <= w
    ensures BeginIdx(tasks, threads, v) <= BeginIdx(tasks, threads, w)
    decreases w - v
  {
    hide BeginIdx;
    if v < w {
      BeginIdxGrows(tasks, threads, w - 1);
      BeginIdxOrder(tasks, threads, v, w - 1);
    }
  }

  // Two workers never read or write the same byte of the output.
  lemma BytesApart(s: State, v: nat, w: nat, i: nat, k: nat)
    requires s.progress != [] && v != w
    requires Begin(s, v) <= i < End(s, v) && Begin(s, w) <= k < End(s, w)
    ensures i / 8 != k / 8
  {
    hide BeginIdx;
    BeginIdxOrder(|s.job.bitmap|, |s.progress|, if v < w then v + 1 else w + 1, if v < w then w else v);
  }

  lemma {:induction false} RowHasWorker(s: State, row: nat, n: nat) returns (w: nat)
    requires s.progress != [] && row < s.job.rows && row < Begin(s, n)
    ensures w < n && Begin(s, w) <= row < End(s, w)
    decreases n
  {
    hide BeginIdx;
    BeginIdxGrows(|s.job.bitmap|, |s.progress|, 0);
    if Begin(s, n - 1) <= row {
      w := n - 1;
    } else {
      w := RowHasWorker(s, row, n - 1);
    }
  }

  lemma FreshIsOk(threads: nat)
    requires threads > 0
    ensures Inv(Fresh(threads))
  {
    var s := Fresh(threads);
    FreshKeepsInv(threads);
    forall w | 0 <= w < threads ensures WorkerOk(s, w) {
      BeginIdxOrder(0, threads, 0, w);
    }
  }

  lemma StartIsOk(s: State, job: Job)
    requires Inv(s) && JobOk(job) && s.pool.caller.Idle?
    ensures Inv(Start(s, job))
  {
    hide BeginIdx, SlotOk, Matches;
    ThreadPool.StepKeepsInv(s.pool, CallRun(|job.bitmap|));
    var t := Start(s, job);
    forall w | 0 <= w < |t.progress| ensures WorkerOk(t, w) {
      forall i | Begin(t, w) <= i < End(t, w) ensures !Bit(t.output, i) {
        NoBits(i % 8);
      }
    }
  }

  lemma PoolStepIsOk(s: State, e: ThreadPool.Event)
    requires Inv(s) && !e.CallRun? && !(e.WorkerStep? && InKernel(s, e.w))
    ensures Inv(s.(pool := ThreadPool.Step(s.pool, e)))
  {
    hide BeginIdx, SlotOk, Matches, Bit;
    ThreadPool.StepKeepsInv(s.pool, e);
    var t := s.(pool := ThreadPool.Step(s.pool, e));
    forall w | 0 <= w < |t.progress| ensures WorkerOk(t, w) {
      assert WorkerOk(s, w);
    }
  }

  lemma ReadIsOk(s: State, v: nat)
    requires Inv(s) && InKernel(s, v) && s.progress[v].loaded.None?
    ensures Inv(StepKernel(s, v))
  {
    hide BeginIdx, Matches, Bit, ThreadPool.Inv;
    var t := StepKernel(s, v);
    forall w | 0 <= w < |t.progress| ensures WorkerOk(t, w) {
      assert WorkerOk(s, w);
    }
  }

  // What a write does to the bits of the output.
  lemma WriteBits(s: State, v: nat, i: nat)
    requires Inv(s) && InKernel(s, v) && s.progress[v].loaded.Some? && i < s.job.rows
    ensures var row := s.progress[v].row;
            Bit(StepKernel(s, v).output, i) == if i == row then Bit(s.output, i) || Matches(s.job, i) else Bit(s.output, i)
  {
    hide BeginIdx, Matches, BitOf, PutBit, ThreadPool.Inv;
    assert WorkerOk(s, v);
    var row := s.progress[v].row;
    BitsAfterUpdate(s.output[row / 8], row % 8, true, i % 8);
  }

  lemma WriteIsOk(s: State, v: nat, w: nat)
    requires Inv(s) && InKernel(s, v) && s.progress[v].loaded.Some? && w < |s.progress|
    ensures WorkerOk(StepKernel(s, v), w)
  {
    hide BeginIdx, Matches, Bit, BitOf, PutBit, ThreadPool.Inv;
    var t, row := StepKernel(s, v), s.progress[v].row;
    assert WorkerOk(s, v) && WorkerOk(s, w);
    if w != v && s.progress[w].loaded.Some? {
      BytesApart(s, v, w, row, s.progress[w].row);
    }
    forall i | Begin(t, w) <= i < End(t, w) ensures Bit(t.output, i) == (i < t.progress[w].row && Matches(t.job, i)) {
      WriteBits(s, v, i);
      if w != v && i == row {
        BytesApart(s, v, w, row, i);
      }
    }
  }

  lemma KernelStepIsOk(s: State, v: nat)
    requires Inv(s) && InKernel(s, v)
    ensures Inv(StepKernel(s, v))
  {
    hide WorkerOk, ThreadPool.Inv, Matches;
    if s.progress[v].loaded.None? {
      ReadIsOk(s, v);
    } else {
      forall w | 0 <= w < |s.progress| ensures WorkerOk(StepKernel(s, v), w) {
        WriteIsOk(s, v, w);
      }
    }
  }

  // Every step of the pool or of a kernel keeps the invariant.
  lemma StepIsOk(s: State, e: Event)
    requires Inv(s)
    ensures Inv(Step(s, e)) && |Step(s, e).progress| == |s.progress|
  {
    hide Inv;
    InvFacts(s);
    match e
    case Compare(job) =>
      if JobOk(job) && s.pool.caller.Idle? {
        StartIsOk(s, job);
      }
    case Other(event) =>
      if event.WorkerStep? && InKernel(s, event.w) {
        KernelStepIsOk(s, event.w);
      } else if !event.CallRun? {
        PoolStepIsOk(s, event);
      }
  }

  lemma InvFacts(s: State)
    requires Inv(s)
    ensures JobOk(s.job) && |s.output| == |s.job.bitmap|
  {
  }

  lemma {:induction false} PlayIsOk(s: State, events: seq<Event>)
    requires Inv(s)
    ensures JobOk(s.job) && |s.output| == |s.job.bitmap|
    ensures Inv(Play(s, events)) && |Play(s, events).progress| == |s.progress|
    decreases |events|
  {
    hide Inv, Step;
    InvFacts(s);
    if events != [] {
      StepIsOk(s, events[0]);
      PlayIsOk(Step(s, events[0]), events[1..]);
    }
  }

  // When run has returned, the output has exactly the bits of the matching rows that are not
  // null, however the kernels and the pool were interleaved, in this comparison and in those
  // before it.
  lemma EveryScheduleSetsTheBits(threads: nat, events: seq<Event>)
    requires threads > 0
    ensures var s := Play(Fresh(threads), events);
            && JobOk(s.job) && |s.output| == |s.job.bitmap|
            && (s.pool.caller.Idle? ==> forall i :: 0 <= i < s.job.rows ==> Bit(s.output, i) == Matches(s.job, i))
  {
    hide BeginIdx, Play, Matches, Bit;
    FreshIsOk(threads);
    PlayIsOk(Fresh(threads), events);
    var s := Play(Fresh(threads), events);
    if s.pool.caller.Idle? {
      forall i | 0 <= i < s.job.rows ensures Bit(s.output, i) == Matches(s.job, i) {
        BeginIdxGrows(|s.job.bitmap|, threads, 0);
        var w := RowHasWorker(s, i, threads);
        assert WorkerOk(s, w) && SlotOk(s.pool, w);
      }
    }
  }

  // ---- tasks on whole bytes ----

  // The bytes when a task has handled some indexes in some order: each handled byte is replaced.
  function Handled(bytes: seq<Byte>, op: (nat, Byte) -> Byte, order: seq<nat>): seq<Byte>
    decreases |order|
  {
    if order == [] then bytes
    else
      var i := order[0];
      Handled(if i < |bytes| then bytes[i := op(i, bytes[i])] else bytes, op, order[1..])
  }

  lemma {:induction false} HandledAt(bytes: seq<Byte>, op: (nat, Byte) -> Byte, order: seq<nat>, i: nat)
    requires i < |bytes| && multiset(order)[i] <= 1
    ensures |Handled(bytes, op, order)| == |bytes|
    ensures Handled(bytes, op, order)[i] == if i in order then op(i, bytes[i]) else bytes[i]
    decreases |order|
  {
    if order != [] {
      assert order == [order[0]] + order[1..];
      var k := order[0];
      HandledAt(if k < |bytes| then bytes[k := op(k, bytes[k])] else bytes, op, order[1..], i);
      assert i in order[1..] ==> multiset(order[1..])[i] > 0;
    }
  }

  lemma {:induction false} HandledLength(bytes: seq<Byte>, op: (nat, Byte) -> Byte, order: seq<nat>)
    ensures |Handled(bytes, op, order)| == |bytes|
    decreases |order|
  {
    if order != [] {
      var k := order[0];
      HandledLength(if k < |bytes| then bytes[k := op(k, bytes[k])] else bytes, op, order[1..]);
    }
  }

  lemma CountOneMore(a: nat, rest: seq<nat>, i: nat)
    ensures multiset([a] + rest)[i] == multiset(rest)[i] + if i == a then 1 else 0
  {
  }

  lemma {:induction false} OnceInRange(a: nat, b: nat, i: nat)
    ensures multiset(WorkQueue.Range(a, b))[i] == if a <= i < b then 1 else 0
    decreases b - a
  {
    if a < b {
      OnceInRange(a + 1, b, i);
      CountOneMore(a, WorkQueue.Range(a + 1, b), i);
    }
  }

  // The indexes that the pool hands to its workers, in whatever order the workers' steps come:
  // each byte is replaced once. So run bitmap_not, bitmap_and and bitmap_or.
  lemma BytesInAnyOrder(threads: nat, events: seq<ThreadPool.Event>, bytes: seq<Byte>, op: (nat, Byte) -> Byte,
                        order: seq<nat>)
    requires threads > 0
    requires var p := ThreadPool.Play(ThreadPool.Fresh(threads), events);
             && p.caller.Idle? && p.tasks == |bytes|
             && multiset(order) == multiset(Concat(Map(p.slots, HandedTo)))
    ensures Handled(bytes, op, order) == seq(|bytes|, i requires 0 <= i < |bytes| => op(i, bytes[i]))
  {
    hide ThreadPool.Play, Handled, Concat, Map;
    RunHandsOutEachTaskOnce(threads, events);
    HandledLength(bytes, op, order);
    forall i | 0 <= i < |bytes| ensures Handled(bytes, op, order)[i] == op(i, bytes[i]) {
      OnceInRange(0, |bytes|, i);
      assert i in multiset(order);
      HandledAt(bytes, op, order, i);
    }
  }
}
