/**
 * CounterBenchmark of thread_utils.h as a transition system: the scheduler thread, any number of
 * workers, one mutex, one condition variable and the flags pause and ready.
 */
module Scheduler {
  import opened Cycles
  import opened Arithmetic

  // ---- the state machine

  datatype EventKind = AddEvents | Benchmark | ResetCounter | EndCounter

  /** A step of a worker's critical section that touches its counter. */
  datatype Event = Event(worker: nat, kind: EventKind)

  /** n benchmark calls of one worker. */
  function Runs(worker: nat, n: nat): (b: seq<Event>)
    ensures |b| == n && forall i | 0 <= i < n :: b[i] == Event(worker, Benchmark)
  {
    seq(n, _ => Event(worker, Benchmark))
  }

  /** counter_thread_fn from wake-up to the setting of ready. */
  function Block(worker: nat, warmup: nat): (b: seq<Event>)
    ensures |b| == warmup + 4
  {
    [Event(worker, AddEvents)]
    + Runs(worker, warmup)
    + [Event(worker, ResetCounter), Event(worker, Benchmark), Event(worker, EndCounter)]
  }

  /** Events are added, the warm-up calls made, the counter reset, one call measured, the counter ended. */
  lemma BlockShape(worker: nat, warmup: nat, k: nat)
    requires k < warmup + 4
    ensures Block(worker, warmup)[k] == Event(worker,
      if k == 0 then AddEvents else if k == warmup + 1 then ResetCounter
      else if k == warmup + 3 then EndCounter else Benchmark)
  {
  }

  datatype Thread = Scheduler | Worker(id: nat)

  datatype Mutex = Free | Held(owner: Thread)

  /** Where a worker stands in counter_thread_fn; Running(k) has done k events of its block. */
  datatype WorkerPc =
    | Unborn | Locking | Checking | Waiting | Relocking | Running(done: nat) | Unlocking | Notifying | Finished

  /** Where the scheduler thread stands in counters_with_schedule or counters_with_priority_schedule. */
  datatype MainPc =
    | Spawning | LockPause | ClearPause | UnlockPause | Notify
    | LockReady | CheckReady | WaitReady | RelockReady | UnlockReady
    | Joining | Resetting | Done

  datatype Config = Config(n: nat, warmup: nat, priority: bool)

  /** i is the loop index of the scheduler thread; entered records the order of the workers' entries. */
  datatype State = State(
    pc: MainPc, i: nat, workers: seq<WorkerPc>, mutex: Mutex, pause: bool, ready: bool,
    trace: seq<Event>, entered: seq<nat>)

  /** One step of a thread, with the waiter chosen by notify_one if it notifies; or a spurious wake-up. */
  datatype Action =
    | Step(thread: Thread, wake: Wakeup)
    | Spurious(thread: Thread)

  datatype Wakeup = NoWaiter | Wake(thread: Thread)

  predicate Start(c: Config, s: State) {
    s.pc == Spawning && s.i == 0 && s.mutex == Free && s.trace == [] && s.entered == []
    && s.workers == seq(c.n, _ => Unborn)
  }

  predicate Waits(s: State, t: Thread) {
    match t
    case Scheduler => s.pc == WaitReady
    case Worker(j) => j < |s.workers| && s.workers[j] == Waiting
  }

  /** notify_one wakes some waiter, if there is one. */
  ghost predicate MayWake(s: State, w: Wakeup) {
    match w
    case NoWaiter => forall t :: !Waits(s, t)
    case Wake(t) => Waits(s, t)
  }

  function Awaken(s: State, w: Wakeup): State
    requires w.Wake? ==> Waits(s, w.thread)
  {
    match w
    case NoWaiter => s
    case Wake(Scheduler) => s.(pc := RelockReady)
    case Wake(Worker(j)) => s.(workers := s.workers[j := Relocking])
  }

  function AwakenAll(s: State): State {
    s.(workers := seq(|s.workers|, j requires 0 <= j < |s.workers| =>
         if s.workers[j] == Waiting then Relocking else s.workers[j]))
  }

  ghost predicate Enabled(c: Config, s: State, a: Action) {
    match a
    case Spurious(t) => Waits(s, t)
    case Step(Scheduler, w) =>
      (match s.pc
       case LockPause => s.mutex == Free
       case LockReady => s.mutex == Free
       case RelockReady => s.mutex == Free
       case Notify => c.priority ==> MayWake(s, w)
       case Joining => s.i < |s.workers| ==> s.workers[s.i] == Finished
       case WaitReady => false
       case Done => false
       case _ => true)
    case Step(Worker(j), w) =>
      j < |s.workers| &&
      (match s.workers[j]
       case Locking => s.mutex == Free
       case Relocking => s.mutex == Free
       case Notifying => MayWake(s, w)
       case Unborn => false
       case Waiting => false
       case Finished => false
       case _ => true)
  }

  function MainStep(c: Config, s: State, w: Wakeup): State
    requires w.Wake? ==> Waits(s, w.thread)
  {
    match s.pc
    case Spawning =>
      if s.i < |s.workers| then
        s.(workers := s.workers[s.i := Locking],
           pc := if c.priority then LockPause else Spawning,
           i := if c.priority then s.i else s.i + 1)
      else s.(pc := if c.priority then Resetting else LockPause)
    case LockPause => s.(mutex := Held(Scheduler), pc := ClearPause)
    case ClearPause => s.(pause := false, pc := UnlockPause)
    case UnlockPause => s.(mutex := Free, pc := Notify)
    case Notify =>
      if c.priority then Awaken(s, w).(pc := LockReady) else AwakenAll(s).(pc := Joining, i := 0)
    case LockReady => s.(mutex := Held(Scheduler), pc := CheckReady)
    case CheckReady => if s.ready then s.(pc := UnlockReady) else s.(mutex := Free, pc := WaitReady)
    case RelockReady => s.(mutex := Held(Scheduler), pc := CheckReady)
    case UnlockReady => s.(mutex := Free, pc := Joining)
    case Joining =>
      if c.priority then s.(pc := Spawning, i := s.i + 1)
      else if s.i < |s.workers| then s.(i := s.i + 1)
      else s.(pc := Resetting)
    case Resetting => s.(ready := false, pause := false, pc := Done)
    case _ => s
  }

  function WorkerStep(c: Config, s: State, j: nat, w: Wakeup): State
    requires j < |s.workers| && (w.Wake? ==> Waits(s, w.thread))
  {
    match s.workers[j]
    case Locking => s.(mutex := Held(Worker(j)), workers := s.workers[j := Checking])
    case Relocking => s.(mutex := Held(Worker(j)), workers := s.workers[j := Checking])
    case Checking =>
      if s.pause then s.(mutex := Free, workers := s.workers[j := Waiting])
      else s.(workers := s.workers[j := Running(0)], entered := s.entered + [j])
    case Running(k) =>
      if k < c.warmup + 4 then
        s.(workers := s.workers[j := Running(k + 1)], trace := s.trace + [Block(j, c.warmup)[k]])
      else s.(ready := true, workers := s.workers[j := Unlocking])
    case Unlocking => s.(mutex := Free, workers := s.workers[j := Notifying])
    case Notifying => Awaken(s.(workers := s.workers[j := Finished]), w)
    case _ => s
  }

  ghost function Next(c: Config, s: State, a: Action): State
    requires Enabled(c, s, a)
  {
    match a
    case Spurious(t) => Awaken(s, Wake(t))
    case Step(Scheduler, w) => MainStep(c, s, if s.pc == Notify && c.priority then w else NoWaiter)
    case Step(Worker(j), w) => WorkerStep(c, s, j, if s.workers[j] == Notifying then w else NoWaiter)
  }

  // ---- the invariant

  predicate MainHolds(pc: MainPc) {
    pc == ClearPause || pc == UnlockPause || pc == CheckReady || pc == UnlockReady
  }

  predicate WorkerHolds(w: WorkerPc) {
    w == Checking || w.Running? || w == Unlocking
  }

  /** The mutex is held by exactly the thread that is inside a critical section. */
  ghost predicate Exclusion(s: State) {
    && (s.mutex == Held(Scheduler) <==> MainHolds(s.pc))
    && (s.mutex.Held? && s.mutex.owner.Worker? ==> s.mutex.owner.id < |s.workers|)
    && forall j | 0 <= j < |s.workers| :: s.mutex == Held(Worker(j)) <==> WorkerHolds(s.workers[j])
  }

  /** Past the point where the scheduler thread has cleared pause for the first time. */
  predicate PauseCleared(c: Config, s: State) {
    s.pc !in {Spawning, LockPause, ClearPause, Resetting} || (if c.priority then s.i > 0 else s.pc == Resetting)
  }

  /** Past the first notification. */
  predicate Notified(c: Config, s: State) {
    s.pc !in {Spawning, LockPause, ClearPause, UnlockPause, Notify, Resetting}
    || (if c.priority then s.i > 0 else s.pc == Resetting)
  }

  /** Has passed the wait on pause. */
  predicate Entered(w: WorkerPc) {
    w.Running? || w == Unlocking || w == Notifying || w == Finished
  }

  /** Which workers exist and which have been joined, by the scheduler thread's place. */
  ghost predicate Population(c: Config, s: State) {
    && |s.workers| == c.n && s.i <= c.n
    && (c.priority ==>
        && (s.pc !in {Spawning, Resetting, Done} ==> s.i < c.n)
        && (s.pc in {Resetting, Done} ==> s.i == c.n)
        && (forall j | 0 <= j < c.n :: j < s.i ==> s.workers[j] == Finished)
        && (forall j | 0 <= j < c.n :: j > s.i || (j == s.i && s.pc == Spawning) ==> s.workers[j] == Unborn)
        && (s.i < c.n && s.pc != Spawning ==> s.workers[s.i] != Unborn))
    && (!c.priority ==>
        && s.pc !in {LockReady, CheckReady, WaitReady, RelockReady, UnlockReady}
        && (s.pc == Spawning ==> forall j | 0 <= j < c.n :: s.workers[j] == Unborn <==> j >= s.i)
        && (s.pc != Spawning ==> forall j | 0 <= j < c.n :: s.workers[j] != Unborn)
        && (s.pc == Joining ==> forall j | 0 <= j < c.n :: j < s.i ==> s.workers[j] == Finished)
        && (s.pc in {Resetting, Done} ==> forall j | 0 <= j < c.n :: s.workers[j] == Finished))
  }

  /** What the flags and the waits say: no wake-up is lost. */
  ghost predicate Wakeups(c: Config, s: State) {
    && (PauseCleared(c, s) ==> !s.pause)
    && (Notified(c, s) ==> forall j | 0 <= j < |s.workers| :: s.workers[j] != Waiting)
    && (forall j | 0 <= j < |s.workers| :: Entered(s.workers[j]) ==> !s.pause)
    && (s.pc != Done ==> forall j | 0 <= j < |s.workers| ::
          s.workers[j] == Unlocking || s.workers[j] == Notifying || s.workers[j] == Finished ==> s.ready)
    && (s.pc == WaitReady && s.i < |s.workers| ==> s.workers[s.i] != Finished)
    && (s.pc == UnlockReady ==> s.ready)
    && (s.pc == Done ==> !s.ready && !s.pause)
  }

  /** The blocks of the given workers, one after the other. */
  function Blocks(order: seq<nat>, warmup: nat): seq<Event> {
    if order == [] then []
    else Blocks(order[..|order| - 1], warmup) + Block(order[|order| - 1], warmup)
  }

  /** The worker inside its block. */
  predicate IsRunning(s: State, j: int) {
    0 <= j < |s.workers| && s.workers[j].Running?
  }

  /** entered lists the workers that have got past the wait, each once. */
  ghost predicate Order(c: Config, s: State) {
    && Distinct(s.entered)
    && (forall j :: j in s.entered <==> 0 <= j < |s.workers| && Entered(s.workers[j]))
    && (c.priority ==> forall x | 0 <= x < |s.entered| :: s.entered[x] == x)
  }

  /** The trace is made of whole blocks, in the order of entry, but for the one under way. */
  ghost predicate Traced(c: Config, s: State) {
    && (forall j | IsRunning(s, j) ::
         && |s.entered| > 0 && s.entered[|s.entered| - 1] == j
         && s.workers[j].done <= c.warmup + 4
         && s.trace == Blocks(s.entered[..|s.entered| - 1], c.warmup) + Block(j, c.warmup)[..s.workers[j].done])
    && ((forall j :: !IsRunning(s, j)) ==> s.trace == Blocks(s.entered, c.warmup))
  }

  ghost predicate History(c: Config, s: State) {
    Order(c, s) && Traced(c, s)
  }

  ghost predicate Inv(c: Config, s: State) {
    Exclusion(s) && Population(c, s) && Wakeups(c, s) && History(c, s)
  }

  lemma StartInv(c: Config, s: State)
    requires Start(c, s)
    ensures Inv(c, s)
  {
  }

  // ---- every step keeps the invariant, thread by thread and part by part

  lemma WaitersOf(s: State)
    ensures Waits(s, Scheduler) <==> s.pc == WaitReady
    ensures forall j | 0 <= j < |s.workers| :: Waits(s, Worker(j)) <==> s.workers[j] == Waiting
  {
  }

  lemma MainKeepsExclusion(c: Config, s: State, w: Wakeup)
    requires Exclusion(s) && Population(c, s) && Enabled(c, s, Step(Scheduler, w))
    ensures Exclusion(Next(c, s, Step(Scheduler, w)))
  {
    MainMovesWorkers(c, s, w);
  }

  /** A step of the scheduler thread starts or wakes workers; whether one holds the mutex stays the same. */
  lemma MainMovesWorkers(c: Config, s: State, w: Wakeup)
    requires Population(c, s) && Enabled(c, s, Step(Scheduler, w))
    ensures var r := Next(c, s, Step(Scheduler, w));
      && |r.workers| == |s.workers|
      && forall j | 0 <= j < |s.workers| :: WorkerHolds(r.workers[j]) <==> WorkerHolds(s.workers[j])
  {
  }

  lemma LockKeepsExclusion(c: Config, s: State, j: nat, w: Wakeup)
    requires Exclusion(s) && Enabled(c, s, Step(Worker(j), w))
    requires s.workers[j] == Locking || s.workers[j] == Relocking
    ensures Exclusion(Next(c, s, Step(Worker(j), w)))
  {
  }

  lemma UnlockKeepsExclusion(c: Config, s: State, j: nat, w: Wakeup)
    requires Exclusion(s) && Enabled(c, s, Step(Worker(j), w))
    requires (s.workers[j] == Checking && s.pause) || s.workers[j] == Unlocking
    ensures Exclusion(Next(c, s, Step(Worker(j), w)))
  {
    assert s.mutex == Held(Worker(j));
  }

  /** Steps that leave the mutex alone change neither who is inside a critical section. */
  lemma OtherStepKeepsExclusion(c: Config, s: State, j: nat, w: Wakeup)
    requires Exclusion(s) && Enabled(c, s, Step(Worker(j), w))
    requires s.workers[j] == Notifying || s.workers[j].Running? || (s.workers[j] == Checking && !s.pause)
    ensures Exclusion(Next(c, s, Step(Worker(j), w)))
  {
    var r := Next(c, s, Step(Worker(j), w));
    assert r.mutex == s.mutex && |r.workers| == |s.workers|;
    assert MainHolds(r.pc) <==> MainHolds(s.pc);
  }

  lemma WorkerKeepsExclusion(c: Config, s: State, j: nat, w: Wakeup)
    requires Exclusion(s) && Enabled(c, s, Step(Worker(j), w))
    ensures Exclusion(Next(c, s, Step(Worker(j), w)))
  {
    if s.workers[j] == Locking || s.workers[j] == Relocking {
      LockKeepsExclusion(c, s, j, w);
    } else if (s.workers[j] == Checking && s.pause) || s.workers[j] == Unlocking {
      UnlockKeepsExclusion(c, s, j, w);
    } else {
      OtherStepKeepsExclusion(c, s, j, w);
    }
  }

  /** Starting a worker, and going on to the next entry after its join. */
  lemma EntryKeepsPopulation(c: Config, s: State, w: Wakeup)
    requires c.priority && Population(c, s) && Enabled(c, s, Step(Scheduler, w))
    requires s.pc == Spawning || s.pc == Joining
    ensures Population(c, Next(c, s, Step(Scheduler, w)))
  {
  }

  lemma PriorityKeepsPopulation(c: Config, s: State, w: Wakeup)
    requires c.priority && Population(c, s) && Enabled(c, s, Step(Scheduler, w))
    ensures Population(c, Next(c, s, Step(Scheduler, w)))
  {
    if s.pc == Spawning || s.pc == Joining { EntryKeepsPopulation(c, s, w); }
  }

  lemma ParallelKeepsPopulation(c: Config, s: State, w: Wakeup)
    requires !c.priority && Population(c, s) && Enabled(c, s, Step(Scheduler, w))
    ensures Population(c, Next(c, s, Step(Scheduler, w)))
  {
  }

  lemma MainKeepsPopulation(c: Config, s: State, w: Wakeup)
    requires Population(c, s) && Enabled(c, s, Step(Scheduler, w))
    ensures Population(c, Next(c, s, Step(Scheduler, w)))
  {
    if c.priority { PriorityKeepsPopulation(c, s, w); } else { ParallelKeepsPopulation(c, s, w); }
  }

  lemma WorkerKeepsPopulation(c: Config, s: State, j: nat, w: Wakeup)
    requires Population(c, s) && Enabled(c, s, Step(Worker(j), w))
    ensures Population(c, Next(c, s, Step(Worker(j), w)))
  {
    StepMovesWorkers(c, s, j, w);
  }

  /** A worker's step changes its own place and at most wakes one waiter. */
  lemma StepMovesWorkers(c: Config, s: State, j: nat, w: Wakeup)
    requires Enabled(c, s, Step(Worker(j), w))
    ensures var r := Next(c, s, Step(Worker(j), w));
      && |r.workers| == |s.workers| && r.i == s.i
      && r.workers[j] != Unborn && s.workers[j] != Finished && s.workers[j] != Unborn
      && (forall k | 0 <= k < |s.workers| && k != j ::
            r.workers[k] == s.workers[k] || (s.workers[k] == Waiting && r.workers[k] == Relocking))
      && (r.pc == s.pc || (s.pc == WaitReady && r.pc == RelockReady))
  {
  }

  lemma MainKeepsWakeups(c: Config, s: State, w: Wakeup)
    requires Population(c, s) && Wakeups(c, s) && Enabled(c, s, Step(Scheduler, w))
    ensures Wakeups(c, Next(c, s, Step(Scheduler, w)))
  {
    if s.pc == Notify {
      NotifyKeepsWakeups(c, s, w);
    }
  }

  /** The scheduler thread's notification reaches every worker that waits. */
  lemma NotifyKeepsWakeups(c: Config, s: State, w: Wakeup)
    requires Population(c, s) && Wakeups(c, s) && s.pc == Notify && Enabled(c, s, Step(Scheduler, w))
    ensures Wakeups(c, Next(c, s, Step(Scheduler, w)))
  {
    WaitersOf(s);
    var r := Next(c, s, Step(Scheduler, w));
    forall j | 0 <= j < |r.workers| ensures r.workers[j] != Waiting {
      assert c.priority && j != s.i ==> s.workers[j] != Waiting;
      assert Waits(s, Worker(j)) <==> s.workers[j] == Waiting;
    }
  }

  /** A worker that has set ready notifies, before it finishes. */
  lemma NotifyingKeepsWakeups(c: Config, s: State, j: nat, w: Wakeup)
    requires Population(c, s) && Wakeups(c, s) && Enabled(c, s, Step(Worker(j), w)) && s.workers[j] == Notifying
    ensures Wakeups(c, Next(c, s, Step(Worker(j), w)))
  {
    WaitersOf(s);
  }

  /** The scheduler thread's notify_one moves the worker it wakes, if any, and nobody else. */
  lemma NotifyWakesOne(c: Config, s: State, w: Wakeup)
    requires c.priority && s.pc == Notify && Enabled(c, s, Step(Scheduler, w))
    ensures var r := Next(c, s, Step(Scheduler, w));
      && |r.workers| == |s.workers|
      && forall j | 0 <= j < |s.workers| ::
           r.workers[j] == if w == Wake(Worker(j)) then Relocking else s.workers[j]
  {
  }

  lemma WorkerKeepsWakeups(c: Config, s: State, j: nat, w: Wakeup)
    requires Population(c, s) && Wakeups(c, s) && Enabled(c, s, Step(Worker(j), w))
    ensures Wakeups(c, Next(c, s, Step(Worker(j), w)))
  {
    if s.workers[j] == Notifying { NotifyingKeepsWakeups(c, s, j, w); }
  }

  /** A change of a worker's place that its block does not show. */
  predicate Quiet(before: WorkerPc, after: WorkerPc) {
    (Entered(before) <==> Entered(after)) && (before.Running? || after.Running? ==> before == after)
  }

  lemma QuietKeepsHistory(c: Config, s: State, r: State)
    requires History(c, s) && r.entered == s.entered && r.trace == s.trace && |r.workers| == |s.workers|
    requires forall j | 0 <= j < |s.workers| :: Quiet(s.workers[j], r.workers[j])
    ensures History(c, r)
  {
    assert forall j :: IsRunning(r, j) <==> IsRunning(s, j);
  }

  lemma MainKeepsHistory(c: Config, s: State, w: Wakeup)
    requires Population(c, s) && History(c, s) && Enabled(c, s, Step(Scheduler, w))
    ensures History(c, Next(c, s, Step(Scheduler, w)))
  {
    MainStepsAreQuiet(c, s, w);
    QuietKeepsHistory(c, s, Next(c, s, Step(Scheduler, w)));
  }

  lemma MainStepsAreQuiet(c: Config, s: State, w: Wakeup)
    requires Population(c, s) && Enabled(c, s, Step(Scheduler, w))
    ensures var r := Next(c, s, Step(Scheduler, w));
      && r.entered == s.entered && r.trace == s.trace && |r.workers| == |s.workers|
      && forall j | 0 <= j < |s.workers| :: Quiet(s.workers[j], r.workers[j])
  {
  }

  /** A worker's entry starts its block; nobody else is inside one. */
  lemma EntryKeepsTraced(c: Config, s: State, j: nat)
    requires Exclusion(s) && Traced(c, s) && j < |s.workers| && s.workers[j] == Checking && !s.pause
    ensures Traced(c, WorkerStep(c, s, j, NoWaiter))
  {
    var r := WorkerStep(c, s, j, NoWaiter);
    NobodyRuns(s, j);
    assert IsRunning(r, j) && forall k | IsRunning(r, k) :: k == j;
    assert r.entered[..|r.entered| - 1] == s.entered && Block(j, c.warmup)[..0] == [];
  }

  lemma EntryKeepsOrder(c: Config, s: State, j: nat)
    requires Population(c, s) && Order(c, s) && j < |s.workers| && s.workers[j] == Checking && !s.pause
    ensures Order(c, WorkerStep(c, s, j, NoWaiter))
  {
    assert j !in s.entered;
    if c.priority { EntryInOrder(c, s, j); }
  }

  lemma NobodyRuns(s: State, j: nat)
    requires Exclusion(s) && j < |s.workers| && s.workers[j] == Checking
    ensures forall k :: !IsRunning(s, k)
  {
    assert s.mutex == Held(Worker(j));
  }

  /** Under the priority schedule a worker enters after all workers before it. */
  lemma EntryInOrder(c: Config, s: State, j: nat)
    requires Population(c, s) && Order(c, s) && j < |s.workers| && s.workers[j] == Checking && c.priority
    ensures |s.entered| == j
  {
    assert j == s.i;
    if |s.entered| > 0 { assert s.entered[|s.entered| - 1] in s.entered; }
    if j > 0 { assert j - 1 in s.entered; }
  }

  /** The next event of the worker inside its block. */
  lemma EventKeepsHistory(c: Config, s: State, j: nat)
    requires Inv(c, s) && IsRunning(s, j) && s.workers[j].done < c.warmup + 4
    ensures History(c, WorkerStep(c, s, j, NoWaiter))
  {
    var r, k := WorkerStep(c, s, j, NoWaiter), s.workers[j].done;
    assert forall i | IsRunning(s, i) :: i == j;
    assert IsRunning(r, j);
    assert Block(j, c.warmup)[..k + 1] == Block(j, c.warmup)[..k] + [Block(j, c.warmup)[k]];
  }

  /** The end of a block. */
  lemma EndKeepsHistory(c: Config, s: State, j: nat)
    requires Inv(c, s) && IsRunning(s, j) && s.workers[j].done >= c.warmup + 4
    ensures History(c, WorkerStep(c, s, j, NoWaiter))
  {
    var front, k := Blocks(s.entered[..|s.entered| - 1], c.warmup), s.workers[j].done;
    assert forall i | IsRunning(s, i) :: i == j;
    assert Block(j, c.warmup)[..k] == Block(j, c.warmup);
    assert Blocks(s.entered, c.warmup) == front + Block(j, c.warmup);
  }

  lemma OtherStepsAreQuiet(c: Config, s: State, j: nat, w: Wakeup)
    requires Enabled(c, s, Step(Worker(j), w))
    requires !s.workers[j].Running? && (s.workers[j] == Checking ==> s.pause)
    ensures var r := Next(c, s, Step(Worker(j), w));
      && r.entered == s.entered && r.trace == s.trace && |r.workers| == |s.workers|
      && forall k | 0 <= k < |s.workers| :: Quiet(s.workers[k], r.workers[k])
  {
  }

  lemma WorkerKeepsHistory(c: Config, s: State, j: nat, w: Wakeup)
    requires Inv(c, s) && Enabled(c, s, Step(Worker(j), w))
    ensures History(c, Next(c, s, Step(Worker(j), w)))
  {
    if s.workers[j] == Checking && !s.pause {
      EntryKeepsOrder(c, s, j);
      EntryKeepsTraced(c, s, j);
    } else if s.workers[j].Running? {
      assert IsRunning(s, j);
      if s.workers[j].done < c.warmup + 4 { EventKeepsHistory(c, s, j); } else { EndKeepsHistory(c, s, j); }
    } else {
      OtherStepsAreQuiet(c, s, j, w);
      QuietKeepsHistory(c, s, Next(c, s, Step(Worker(j), w)));
    }
  }

  lemma SpuriousKeepsHistory(c: Config, s: State, t: Thread)
    requires History(c, s) && Enabled(c, s, Spurious(t))
    ensures History(c, Next(c, s, Spurious(t)))
  {
    QuietKeepsHistory(c, s, Next(c, s, Spurious(t)));
  }

  lemma SpuriousKeepsExclusion(c: Config, s: State, t: Thread)
    requires Exclusion(s) && Enabled(c, s, Spurious(t))
    ensures Exclusion(Next(c, s, Spurious(t)))
  {
  }

  lemma SpuriousKeepsPopulation(c: Config, s: State, t: Thread)
    requires Population(c, s) && Enabled(c, s, Spurious(t))
    ensures Population(c, Next(c, s, Spurious(t)))
  {
  }

  lemma SpuriousKeepsWakeups(c: Config, s: State, t: Thread)
    requires Wakeups(c, s) && Enabled(c, s, Spurious(t))
    ensures Wakeups(c, Next(c, s, Spurious(t)))
  {
  }

  lemma SpuriousKeepsInv(c: Config, s: State, t: Thread)
    requires Inv(c, s) && Enabled(c, s, Spurious(t))
    ensures Inv(c, Next(c, s, Spurious(t)))
  {
    SpuriousKeepsExclusion(c, s, t);
    SpuriousKeepsPopulation(c, s, t);
    SpuriousKeepsWakeups(c, s, t);
    SpuriousKeepsHistory(c, s, t);
  }

  lemma StepKeepsInv(c: Config, s: State, a: Action)
    requires Inv(c, s) && Enabled(c, s, a)
    ensures Inv(c, Next(c, s, a))
  {
    match a {
      case Spurious(t) => SpuriousKeepsInv(c, s, t);
      case Step(Scheduler, w) =>
        MainKeepsExclusion(c, s, w);
        MainKeepsPopulation(c, s, w);
        MainKeepsWakeups(c, s, w);
        MainKeepsHistory(c, s, w);
      case Step(Worker(j), w) =>
        WorkerKeepsExclusion(c, s, j, w);
        WorkerKeepsPopulation(c, s, j, w);
        WorkerKeepsWakeups(c, s, j, w);
        WorkerKeepsHistory(c, s, j, w);
    }
  }

  // ---- runs

  ghost predicate StepAt(c: Config, states: seq<State>, acts: seq<Action>, k: int) {
    && 0 <= k < |acts| && k + 1 < |states|
    && Enabled(c, states[k], acts[k]) && states[k + 1] == Next(c, states[k], acts[k])
  }

  /** A run from a start with any values of pause and ready. */
  ghost predicate Execution(c: Config, states: seq<State>, acts: seq<Action>) {
    |states| == |acts| + 1 && Start(c, states[0]) && forall k | 0 <= k < |acts| :: StepAt(c, states, acts, k)
  }

  lemma ExecutionStartInv(c: Config, states: seq<State>, acts: seq<Action>)
    requires Execution(c, states, acts)
    ensures Inv(c, states[0])
  {
    StartInv(c, states[0]);
  }

  lemma ExecutionStepInv(c: Config, states: seq<State>, acts: seq<Action>, k: nat)
    requires Execution(c, states, acts) && 0 < k < |states| && Inv(c, states[k - 1])
    ensures Inv(c, states[k])
  {
    assert StepAt(c, states, acts, k - 1);
    StepKeepsInv(c, states[k - 1], acts[k - 1]);
  }

  /** Every state of every run, spurious wake-ups included, satisfies the invariant. */
  lemma {:induction false} ExecutionInv(c: Config, states: seq<State>, acts: seq<Action>, k: nat)
    requires Execution(c, states, acts) && k < |states|
    ensures Inv(c, states[k])
  {
    if k == 0 {
      ExecutionStartInv(c, states, acts);
    } else {
      ExecutionInv(c, states, acts, k - 1);
      ExecutionStepInv(c, states, acts, k);
    }
  }

  // ---- no deadlock

  lemma SomeWakeup(s: State) returns (w: Wakeup)
    ensures MayWake(s, w)
  {
    if t :| Waits(s, t) { w := Wake(t); } else { w := NoWaiter; }
  }

  /** In every reachable state but the last some thread can take a step of its own. */
  lemma NoDeadlock(c: Config, states: seq<State>, acts: seq<Action>, k: nat) returns (a: Action)
    requires Execution(c, states, acts) && k < |states| && states[k].pc != Done
    ensures a.Step? && Enabled(c, states[k], a)
  {
    ExecutionInv(c, states, acts, k);
    a := SomeStep(c, states[k]);
  }

  lemma SomeStep(c: Config, s: State) returns (a: Action)
    requires Inv(c, s) && s.pc != Done
    ensures a.Step? && Enabled(c, s, a)
  {
    var w := SomeWakeup(s);
    if s.mutex == Free {
      if s.pc == WaitReady || (s.pc == Joining && s.i < c.n && s.workers[s.i] != Finished) {
        a := Step(Worker(s.i), w);
      } else {
        a := Step(Scheduler, w);
      }
    } else {
      a := Step(s.mutex.owner, w);
    }
  }

  // ---- termination

  /** The events of a block and the steps around it. */
  function WorkerRank(c: Config, pause: bool, w: WorkerPc): (r: nat) {
    var l := c.warmup + 4;
    match w
    case Unborn => l + 12
    case Locking => l + 11
    case Waiting => l + 8
    case Relocking => if pause then l + 10 else l + 7
    case Checking => if pause then l + 9 else l + 6
    case Running(k) => if k <= l then l + 3 - k else 3
    case Unlocking => 2
    case Notifying => 1
    case Finished => 0
  }

  function LocalRank(pc: MainPc, ready: bool): nat {
    match pc
    case Spawning => 16
    case LockPause => 15
    case ClearPause => 14
    case UnlockPause => 13
    case Notify => 12
    case LockReady => 11
    case RelockReady => if ready then 7 else 10
    case CheckReady => if ready then 6 else 9
    case WaitReady => 8
    case UnlockReady => 5
    case Joining => 4
    case Resetting => 2
    case Done => 0
  }

  function MainRank(c: Config, s: State): nat {
    var left := if s.i <= c.n then c.n - s.i else 0;
    if c.priority then 20 * left + LocalRank(s.pc, s.ready)
    else if s.pc == Spawning then 20 + c.n + left
    else if s.pc == Joining then 4 + left
    else LocalRank(s.pc, s.ready) + if s.pc == Resetting || s.pc == Done then 0 else c.n
  }

  function Ranks(c: Config, s: State): (r: seq<nat>) {
    seq(|s.workers|, j requires 0 <= j < |s.workers| => WorkerRank(c, s.pause, s.workers[j]))
  }

  function Measure(c: Config, s: State): nat {
    MainRank(c, s) + Sum(Ranks(c, s))
  }

  lemma MainStepRank(c: Config, s: State, w: Wakeup)
    requires Population(c, s) && Wakeups(c, s) && Enabled(c, s, Step(Scheduler, w))
    ensures MainRank(c, Next(c, s, Step(Scheduler, w))) < MainRank(c, s)
  {
  }

  lemma MainStepWorkerRanks(c: Config, s: State, w: Wakeup, j: nat)
    requires Population(c, s) && Wakeups(c, s) && Enabled(c, s, Step(Scheduler, w)) && j < |s.workers|
    ensures var r := Next(c, s, Step(Scheduler, w));
      && |r.workers| == |s.workers|
      && WorkerRank(c, r.pause, r.workers[j]) <= WorkerRank(c, s.pause, s.workers[j])
  {
  }

  lemma WorkerStepMainRank(c: Config, s: State, j: nat, w: Wakeup)
    requires Population(c, s) && Wakeups(c, s) && Enabled(c, s, Step(Worker(j), w))
    ensures MainRank(c, Next(c, s, Step(Worker(j), w))) <= MainRank(c, s)
  {
  }

  lemma WorkerStepRanks(c: Config, s: State, j: nat, w: Wakeup, k: nat)
    requires Wakeups(c, s) && Enabled(c, s, Step(Worker(j), w)) && k < |s.workers|
    requires s.workers[j].Running? ==> s.workers[j].done <= c.warmup + 4
    ensures var r := Next(c, s, Step(Worker(j), w));
      && |r.workers| == |s.workers|
      && WorkerRank(c, r.pause, r.workers[k]) <= WorkerRank(c, s.pause, s.workers[k])
      && (k == j ==> WorkerRank(c, r.pause, r.workers[k]) < WorkerRank(c, s.pause, s.workers[k]))
  {
  }

  /** Every step that is not a spurious wake-up makes progress. */
  lemma StepDecreases(c: Config, s: State, a: Action)
    requires Inv(c, s) && Enabled(c, s, a) && a.Step?
    ensures Measure(c, Next(c, s, a)) < Measure(c, s)
  {
    var r := Next(c, s, a);
    match a.thread {
      case Scheduler =>
        MainStepRank(c, s, a.wake);
        forall k | 0 <= k < |s.workers| ensures |r.workers| == |s.workers| && Ranks(c, r)[k] <= Ranks(c, s)[k] {
          MainStepWorkerRanks(c, s, a.wake, k);
        }
        MainKeepsPopulation(c, s, a.wake);
      case Worker(j) =>
        WorkerStepMainRank(c, s, j, a.wake);
        assert s.workers[j].Running? ==> IsRunning(s, j);
        forall k | 0 <= k < |s.workers| ensures |r.workers| == |s.workers| && Ranks(c, r)[k] <= Ranks(c, s)[k] {
          WorkerStepRanks(c, s, j, a.wake, k);
        }
        WorkerStepRanks(c, s, j, a.wake, j);
        assert Ranks(c, r)[j] < Ranks(c, s)[j];
    }
    SumMonotone(Ranks(c, r), Ranks(c, s));
  }

  lemma ExecutionStepDecreases(c: Config, states: seq<State>, acts: seq<Action>, k: nat)
    requires Execution(c, states, acts) && 0 < k < |states| && acts[k - 1].Step?
    ensures Measure(c, states[k]) < Measure(c, states[k - 1])
  {
    ExecutionInv(c, states, acts, k - 1);
    assert StepAt(c, states, acts, k - 1);
    StepDecreases(c, states[k - 1], acts[k - 1]);
  }

  /** A run without spurious wake-ups has at most as many steps as its start's measure. */
  lemma {:induction false} RunsTerminate(c: Config, states: seq<State>, acts: seq<Action>, k: nat)
    requires Execution(c, states, acts) && k < |states|
    requires forall i | 0 <= i < |acts| :: acts[i].Step?
    ensures k + Measure(c, states[k]) <= Measure(c, states[0])
  {
    if k > 0 {
      RunsTerminate(c, states, acts, k - 1);
      ExecutionStepDecreases(c, states, acts, k);
    }
  }

  // ---- what complete runs have done

  function UpTo(n: nat): (r: seq<nat>) {
    seq(n, i => i)
  }

  lemma AllEntered(c: Config, s: State)
    requires Inv(c, s) && s.pc == Done
    ensures InRange(s.entered) && |s.entered| == c.n && s.trace == Blocks(s.entered, c.warmup)
    ensures !s.ready && !s.pause
  {
    ExactlyBelow(s.entered, c.n);
    assert forall j :: !IsRunning(s, j);
  }

  /**
   * A complete run of either schedule performs the block of each worker once, uninterrupted, in
   * the order in which the workers got past the wait, and leaves both flags false.
   */
  lemma CompleteTrace(c: Config, states: seq<State>, acts: seq<Action>, k: nat)
    requires Execution(c, states, acts) && k < |states| && states[k].pc == Done
    ensures var order := states[k].entered;
      && InRange(order) && Distinct(order) && |order| == c.n
      && states[k].trace == Blocks(order, c.warmup)
    ensures !states[k].ready && !states[k].pause
  {
    ExecutionInv(c, states, acts, k);
    AllEntered(c, states[k]);
  }

  /** A complete priority run performs the blocks of all workers in schedule order. */
  lemma PriorityTrace(c: Config, states: seq<State>, acts: seq<Action>, k: nat)
    requires Execution(c, states, acts) && k < |states| && states[k].pc == Done && c.priority
    ensures states[k].trace == Blocks(UpTo(c.n), c.warmup)
    ensures !states[k].ready && !states[k].pause
  {
    ExecutionInv(c, states, acts, k);
    AllEntered(c, states[k]);
    assert states[k].entered == UpTo(c.n);
  }

  predicate Live(w: WorkerPc) {
    w != Unborn && w != Finished
  }

  /**
   * At any time of a priority run at most one worker is started and not finished, although after
   * the first entry pause is false for good and ready stays true up to the final reset.
   */
  lemma OneLiveWorker(c: Config, states: seq<State>, acts: seq<Action>, k: nat, i: nat, j: nat)
    requires Execution(c, states, acts) && k < |states| && c.priority
    ensures |states[k].workers| == c.n
    ensures i < c.n && j < c.n && Live(states[k].workers[i]) && Live(states[k].workers[j]) ==> i == j
    ensures states[k].i > 0 ==> !states[k].pause && (states[k].pc != Done ==> states[k].ready)
  {
    ExecutionInv(c, states, acts, k);
    assert states[k].i > 0 ==> states[k].workers[0] == Finished;
  }
}
