// FilterThreadPool (include/inner_column.h): one caller of run and its workers, each with its
// own mutex, condition variable and flags, as steps of a shared state. A mutex is held from
// step to step only by a worker inside `function`; every other critical section is one step.
module ThreadPool {
  import opened Arith
  import opened Bags
  import opened WorkQueue

  datatype WorkerPc = TryLock | Waiting | Running | Called | Notifying

  // A worker, its flags, and the ranges it was handed during the current run.
  datatype Slot = Slot(hasFunction: bool, finished: bool, pc: WorkerPc, handed: seq<(nat, nat)>)

  datatype CallerPc = Idle | Setting(i: nat) | Notify(i: nat) | Checking(i: nat) | Sleeping(i: nat)

  datatype Pool = Pool(slots: seq<Slot>, caller: CallerPc, tasks: nat)

  // What may happen next. The last two are spurious wakeups.
  datatype Event = CallRun(tasks: nat) | CallerStep | WorkerStep(w: nat) | CallerWakes | WorkerWakes(w: nat)

  function Fresh(threads: nat): Pool {
    Pool(seq(threads, _ => Slot(false, false, TryLock, [])), Idle, 0)
  }

  function BeginIdx(tasks: nat, threads: nat, t: nat): nat
    requires threads > 0
  {
    var base := tasks / threads;
    var rem := tasks % threads;
    t * base + if t < rem then t else rem
  }

  predicate Armed(s: Slot) { s.hasFunction && !s.finished }

  predicate Locked(s: Slot) { s.pc == Running || s.pc == Called }

  function Forget(s: Slot): Slot { s.(handed := []) }

  // run begins: the function and the number of tasks are stored.
  function BeginRun(p: Pool, tasks: nat): Pool {
    if p.caller.Idle? then Pool(Map(p.slots, Forget), if p.slots == [] then Idle else Setting(0), tasks) else p
  }

  function StepCaller(p: Pool): Pool {
    var n := |p.slots|;
    match p.caller
    case Idle => p
    case Setting(i) =>
      if i >= n || Locked(p.slots[i]) then p
      else p.(slots := p.slots[i := p.slots[i].(hasFunction := true, finished := false)],
              caller := if i + 1 < n then Setting(i + 1) else Notify(0))
    case Notify(i) =>
      if i >= n then p
      else p.(slots := p.slots[i := p.slots[i].(pc := if p.slots[i].pc.Waiting? then TryLock else p.slots[i].pc)],
              caller := if i + 1 < n then Notify(i + 1) else Checking(0))
    case Checking(i) =>
      if i >= n || Locked(p.slots[i]) then p
      else if p.slots[i].finished then p.(caller := if i + 1 < n then Checking(i + 1) else Idle)
      else p.(caller := Sleeping(i))
    case Sleeping(_) => p
  }

  // The call of `function` for worker w, if its range is not empty.
  function RangeOf(tasks: nat, threads: nat, w: nat): seq<(nat, nat)>
    requires threads > 0
  {
    var begin, end := BeginIdx(tasks, threads, w), BeginIdx(tasks, threads, w + 1);
    if begin < end then [(begin, end)] else []
  }

  function StepWorker(p: Pool, w: nat): Pool
    requires w < |p.slots|
  {
    var s := p.slots[w];
    match s.pc
    case TryLock => p.(slots := p.slots[w := s.(pc := if Armed(s) then Running else Waiting)])
    case Waiting => p
    case Running => p.(slots := p.slots[w := s.(pc := Called, handed := s.handed + RangeOf(p.tasks, |p.slots|, w))])
    case Called => p.(slots := p.slots[w := s.(finished := true, pc := Notifying)])
    case Notifying =>
      p.(slots := p.slots[w := s.(pc := TryLock)], caller := if p.caller == Sleeping(w) then Checking(w) else p.caller)
  }

  function Step(p: Pool, e: Event): Pool {
    match e
    case CallRun(tasks) => BeginRun(p, tasks)
    case CallerStep => StepCaller(p)
    case WorkerStep(w) => if w < |p.slots| then StepWorker(p, w) else p
    case CallerWakes => if p.caller.Sleeping? then p.(caller := Checking(p.caller.i)) else p
    case WorkerWakes(w) =>
      if w < |p.slots| && p.slots[w].pc.Waiting? then p.(slots := p.slots[w := p.slots[w].(pc := TryLock)]) else p
  }

  function Play(p: Pool, events: seq<Event>): Pool
    decreases |events|
  {
    if events == [] then p else Play(Step(p, events[0]), events[1..])
  }

  // ---- the invariant ----

  predicate Set(c: CallerPc, w: nat) { c.Setting? ==> w < c.i }

  predicate Notified(c: CallerPc, w: nat) {
    match c
    case Idle => true
    case Setting(_) => false
    case Notify(i) => w < i
    case Checking(_) => true
    case Sleeping(_) => true
  }

  predicate Awaited(c: CallerPc, w: nat) {
    match c
    case Idle => true
    case Checking(i) => w < i
    case Sleeping(i) => w < i
    case _ => false
  }

  // What holds of worker w: it runs only when armed, is asleep while armed only before it is
  // notified, has called `function` once when it says so, and will wake a caller asleep on it.
  ghost predicate SlotOk(p: Pool, w: nat)
    requires w < |p.slots|
  {
    var s := p.slots[w];
    && (Locked(s) ==> Armed(s))
    && (Armed(s) ==> Set(p.caller, w))
    && (Awaited(p.caller, w) ==> !Armed(s))
    && (Set(p.caller, w) && !p.caller.Idle? ==> s.hasFunction)
    && (Armed(s) && Notified(p.caller, w) ==> s.pc != Waiting)
    && (p.caller == Sleeping(w) && s.finished ==> s.pc == Notifying)
    && s.handed == (if Set(p.caller, w) && (!Armed(s) || s.pc == Called) then RangeOf(p.tasks, |p.slots|, w) else [])
  }

  ghost predicate Inv(p: Pool) {
    && (p.caller.Idle? || p.caller.i < |p.slots|)
    && forall w :: 0 <= w < |p.slots| ==> SlotOk(p, w)
  }

  lemma FreshKeepsInv(threads: nat)
    ensures Inv(Fresh(threads))
  {
    var p := Fresh(threads);
    forall w | 0 <= w < threads ensures SlotOk(p, w) {
      DivModUnique(0, threads, 0, 0);
    }
  }

  lemma CallerKeepsInv(p: Pool)
    requires Inv(p)
    ensures Inv(StepCaller(p)) && |StepCaller(p).slots| == |p.slots|
  {
    hide RangeOf;
    var q := StepCaller(p);
    forall w | 0 <= w < |q.slots| ensures SlotOk(q, w) {
      assert SlotOk(p, w);
    }
  }

  lemma WorkerKeepsInv(p: Pool, v: nat)
    requires Inv(p) && v < |p.slots|
    ensures Inv(StepWorker(p, v)) && |StepWorker(p, v).slots| == |p.slots|
  {
    hide RangeOf;
    var q := StepWorker(p, v);
    forall w | 0 <= w < |q.slots| ensures SlotOk(q, w) {
      assert SlotOk(p, w);
    }
  }

  lemma StepKeepsInv(p: Pool, e: Event)
    requires Inv(p)
    ensures Inv(Step(p, e)) && |Step(p, e).slots| == |p.slots|
  {
    hide RangeOf, StepCaller, StepWorker;
    match e
    case CallerStep => CallerKeepsInv(p);
    case WorkerStep(w) =>
      if w < |p.slots| {
        WorkerKeepsInv(p, w);
      }
    case _ =>
      var q := Step(p, e);
      forall w | 0 <= w < |q.slots| ensures SlotOk(q, w) {
        assert SlotOk(p, w);
      }
  }

  lemma {:induction false} PlayKeepsInv(p: Pool, events: seq<Event>)
    requires Inv(p)
    ensures Inv(Play(p, events)) && |Play(p, events).slots| == |p.slots|
    decreases |events|
  {
    hide Inv, Step;
    if events != [] {
      StepKeepsInv(p, events[0]);
      PlayKeepsInv(Step(p, events[0]), events[1..]);
    }
  }

  // ---- every task is handed out once ----

  // The task indexes of the calls of `function`, worker by worker.
  function Indexes(calls: seq<(nat, nat)>): seq<nat> {
    if calls == [] then [] else Range(calls[0].0, calls[0].1) + Indexes(calls[1..])
  }

  function HandedTo(s: Slot): seq<nat> { Indexes(s.handed) }

  lemma BeginIdxGrows(tasks: nat, threads: nat, t: nat)
    requires threads > 0
    ensures BeginIdx(tasks, threads, t) <= BeginIdx(tasks, threads, t + 1)
    ensures BeginIdx(tasks, threads, 0) == 0 && BeginIdx(tasks, threads, threads) == tasks
  {
    var base := tasks / threads;
    assert (t + 1) * base == t * base + base;
  }

  lemma RangeOfIndexes(tasks: nat, threads: nat, w: nat)
    requires threads > 0
    ensures Indexes(RangeOf(tasks, threads, w)) == Range(BeginIdx(tasks, threads, w), BeginIdx(tasks, threads, w + 1))
  {
    var begin, end := BeginIdx(tasks, threads, w), BeginIdx(tasks, threads, w + 1);
    if begin < end {
      assert [(begin, end)][1..] == [];
      assert Indexes([(begin, end)]) == Range(begin, end) + [];
    }
  }

  // The ranges of begin_idx split the tasks.
  lemma {:induction false} RangesTileTasks(slots: seq<Slot>, tasks: nat, threads: nat, k: nat)
    requires threads > 0 && k <= |slots| && forall w :: 0 <= w < k ==> slots[w].handed == RangeOf(tasks, threads, w)
    ensures Concat(Map(slots[..k], HandedTo)) == Range(0, BeginIdx(tasks, threads, k))
    decreases k
  {
    hide Concat, Map, Range, RangeOf, BeginIdx;
    BeginIdxGrows(tasks, threads, 0);
    if k == 0 {
      ConcatUnfold(Map(slots[..0], HandedTo));
      EmptyRange(0, 0, Single((x: nat) => x));
    } else {
      RangesTileTasks(slots, tasks, threads, k - 1);
      RangeOfIndexes(tasks, threads, k - 1);
      BeginIdxGrows(tasks, threads, k - 1);
      RangeSplit(0, BeginIdx(tasks, threads, k - 1), BeginIdx(tasks, threads, k));
      MapNext(slots, HandedTo, k - 1);
      ConcatSnoc(Map(slots[..k - 1], HandedTo), HandedTo(slots[k - 1]));
    }
  }

  // Once run has returned, the calls of `function` covered each task index exactly once,
  // whatever the schedule and the wakeups were, in this run and in those before it.
  lemma RunHandsOutEachTaskOnce(threads: nat, events: seq<Event>)
    requires threads > 0
    ensures var p := Play(Fresh(threads), events);
            p.caller.Idle? ==> Concat(Map(p.slots, HandedTo)) == Range(0, p.tasks)
  {
    hide Play, RangeOf, BeginIdx;
    var p := Play(Fresh(threads), events);
    FreshKeepsInv(threads);
    PlayKeepsInv(Fresh(threads), events);
    if p.caller.Idle? {
      forall w | 0 <= w < threads ensures p.slots[w].handed == RangeOf(p.tasks, threads, w) {
        assert SlotOk(p, w);
      }
      RangesTileTasks(p.slots, p.tasks, threads, threads);
      BeginIdxGrows(p.tasks, threads, 0);
      assert p.slots[..threads] == p.slots;
    }
  }

  // A pool without workers hands out nothing.
  lemma {:induction false} NoWorkersNoCalls(p: Pool, events: seq<Event>)
    requires p.slots == [] && p.caller.Idle?
    ensures Play(p, events).slots == [] && Play(p, events).caller.Idle?
    decreases |events|
  {
    if events != [] {
      NoWorkersNoCalls(Step(p, events[0]), events[1..]);
    }
  }

  // ---- run returns ----

  function Weight(s: Slot): nat {
    match s.pc
    case Waiting => 0
    case TryLock => if Armed(s) then 6 else 1
    case Running => 5
    case Called => 4
    case Notifying => if Armed(s) then 8 else 3
  }

  function Weights(slots: seq<Slot>): nat {
    if slots == [] then 0 else Weight(slots[0]) + Weights(slots[1..])
  }

  lemma {:induction false} WeightsUpdate(slots: seq<Slot>, w: nat, s: Slot)
    requires w < |slots|
    ensures Weights(slots[w := s]) + Weight(slots[w]) == Weights(slots) + Weight(s)
  {
    if w > 0 {
      WeightsUpdate(slots[1..], w - 1, s);
      assert slots[w := s][1..] == slots[1..][w - 1 := s];
    } else {
      assert slots[w := s][1..] == slots[1..];
    }
  }

  // What is left of the run: the caller's phase first, then what the workers have to do.
  function Phase(p: Pool): nat {
    var n := |p.slots|;
    match p.caller
    case Idle => 0
    case Setting(i) => if i < 2 * n then 3 * n - i else 0
    case Notify(i) => if i < n then 2 * n - i else 0
    case Checking(i) => if i < n then n - i else 0
    case Sleeping(i) => if i < n then n - i else 0
  }

  function Left(p: Pool): nat {
    Weights(p.slots) + if p.caller.Checking? then 1 else 0
  }

  ghost predicate Less(q: Pool, p: Pool) {
    Phase(q) < Phase(p) || (Phase(q) == Phase(p) && Left(q) < Left(p))
  }

  // Every step that does anything brings the end of the run nearer.
  lemma WorkerStepsAdvance(p: Pool, w: nat)
    requires Inv(p) && w < |p.slots| && StepWorker(p, w) != p
    ensures Less(StepWorker(p, w), p)
  {
    assert SlotOk(p, w);
    WeightsUpdate(p.slots, w, StepWorker(p, w).slots[w]);
  }

  lemma CallerStepsAdvance(p: Pool)
    requires Inv(p) && StepCaller(p) != p
    ensures Less(StepCaller(p), p)
  {
    if p.caller.Checking? {
      assert SlotOk(p, p.caller.i);
    }
  }

  // Inside run somebody can always go on: caller and workers are never all blocked.
  lemma NeverStuck(p: Pool)
    requires Inv(p) && !p.caller.Idle?
    ensures StepCaller(p) != p || StepWorker(p, p.caller.i) != p
  {
    var i := p.caller.i;
    var s := p.slots[i];
    assert SlotOk(p, i);
    assert StepWorker(p, i).slots[i] == s <==> s.pc == Waiting;
  }

  // From every reachable state of a run some schedule, without any wakeup out of the blue, lets
  // run return.
  lemma {:induction false} RunCanReturn(p: Pool) returns (events: seq<Event>)
    requires Inv(p)
    ensures Play(p, events).caller.Idle? && forall e :: e in events ==> e == CallerStep || e.WorkerStep?
    decreases Phase(p), Left(p)
  {
    hide Inv, SlotOk, StepCaller, StepWorker, Phase, Left;
    events := [];
    if !p.caller.Idle? {
      InsideRun(p);
      NeverStuck(p);
      var e: Event;
      if StepCaller(p) != p {
        e := CallerStep;
        CallerStepsAdvance(p);
      } else {
        e := WorkerStep(p.caller.i);
        WorkerStepsAdvance(p, p.caller.i);
      }
      StepKeepsInv(p, e);
      var rest := RunCanReturn(Step(p, e));
      events := [e] + rest;
      assert events[1..] == rest;
    }
  }

  lemma InsideRun(p: Pool)
    requires Inv(p) && !p.caller.Idle?
    ensures p.caller.i < |p.slots|
  {
  }
}
