/** threadpool/threadpool.cpp as a transition system with explicit program
    counters: one producer (the main thread, in appendEvent) and any number of
    workers (in run), around a mutex, a counting semaphore and a queue. The
    pthread and semaphore calls are taken to succeed.
 */
module ThreadPool {
  import opened Bytes

  /** Where appendEvent stands. */
  datatype ProducerPc<T> = Idle | WantLock(event: T) | HasLock(event: T) | Pushed | Released

  /** Where run stands. */
  datatype WorkerPc<T> = Waiting | Woken | Holding | FoundEmpty | Popped(event: T) | Handling(event: T)

  datatype Owner = Free | ByProducer | ByWorker(w: nat)

  /** `appended`, `dequeued` and `handled` record what has happened, in order. */
  datatype Pool<T> = Pool(
    queue: seq<T>,
    sem: nat,
    owner: Owner,
    producer: ProducerPc<T>,
    workers: seq<WorkerPc<T>>,
    appended: seq<T>,
    dequeued: seq<T>,
    handled: seq<T>)

  function FreshPool<T>(n: nat): Pool<T> {
    Pool([], 0, Free, Idle, seq(n, _ => Waiting), [], [], [])
  }

  /** The main thread calls appendEvent. */
  function BeginAppend<T>(p: Pool<T>, e: T): Option<Pool<T>> {
    if p.producer.Idle? then Some(p.(producer := WantLock(e))) else None
  }

  /** One step of appendEvent; None while it has to wait. */
  function ProducerStep<T>(p: Pool<T>): Option<Pool<T>> {
    match p.producer
    case Idle => None
    case WantLock(e) => if p.owner.Free? then Some(p.(owner := ByProducer, producer := HasLock(e))) else None
    case HasLock(e) => Some(p.(queue := p.queue + [e], appended := p.appended + [e], producer := Pushed))
    case Pushed => Some(p.(owner := Free, producer := Released))
    case Released => Some(p.(sem := p.sem + 1, producer := Idle))
  }

  function At<T>(p: Pool<T>, w: nat, pc: WorkerPc<T>): Pool<T>
    requires w < |p.workers|
  {
    p.(workers := p.workers[w := pc])
  }

  /** One step of worker `w` in run; None while it has to wait. */
  function WorkerStep<T>(p: Pool<T>, w: nat): Option<Pool<T>>
    requires w < |p.workers|
  {
    match p.workers[w]
    case Waiting => if p.sem > 0 then Some(At(p, w, Woken).(sem := p.sem - 1)) else None
    case Woken => if p.owner.Free? then Some(At(p, w, Holding).(owner := ByWorker(w))) else None
    case Holding =>
      if p.queue == [] then Some(At(p, w, FoundEmpty))
      else Some(At(p, w, Popped(p.queue[0])).(queue := p.queue[1..], dequeued := p.dequeued + [p.queue[0]]))
    case FoundEmpty => Some(At(p, w, Waiting).(owner := Free))
    case Popped(e) => Some(At(p, w, Handling(e)).(owner := Free))
    case Handling(e) => Some(At(p, w, Waiting).(handled := p.handled + [e]))
  }

  // ---------------------------------------------------------------- counting

  function Owed<T>(pc: WorkerPc<T>): nat {
    if pc.Woken? || pc.Holding? then 1 else 0
  }

  /** Workers between sem_wait and the pop. */
  function Owing<T>(ws: seq<WorkerPc<T>>): nat {
    if ws == [] then 0 else Owed(ws[0]) + Owing(ws[1..])
  }

  function Hand<T(==)>(pc: WorkerPc<T>): multiset<T> {
    if pc.Popped? || pc.Handling? then multiset{pc.event} else multiset{}
  }

  /** Events the workers have taken and not finished. */
  function InHand<T(==)>(ws: seq<WorkerPc<T>>): multiset<T> {
    if ws == [] then multiset{} else Hand(ws[0]) + InHand(ws[1..])
  }

  lemma {:induction false} OwingUpdate<T>(ws: seq<WorkerPc<T>>, w: nat, pc: WorkerPc<T>)
    requires w < |ws|
    ensures Owing(ws[w := pc]) + Owed(ws[w]) == Owing(ws) + Owed(pc)
  {
    if w > 0 {
      assert ws[w := pc][1..] == ws[1..][w - 1 := pc];
      OwingUpdate(ws[1..], w - 1, pc);
    } else {
      assert ws[w := pc][1..] == ws[1..];
    }
  }

  lemma Shifted<T>(a: multiset<T>, x: multiset<T>, h: multiset<T>, y: multiset<T>, q: multiset<T>)
    requires x + h == y + q
    ensures a + x + h == a + y + q
  {
    assert a + x + h == a + (x + h);
    assert a + y + q == a + (y + q);
  }

  lemma {:induction false} InHandUpdate<T>(ws: seq<WorkerPc<T>>, w: nat, pc: WorkerPc<T>)
    requires w < |ws|
    ensures InHand(ws[w := pc]) + Hand(ws[w]) == InHand(ws) + Hand(pc)
  {
    hide Hand;
    if w > 0 {
      assert ws[w := pc][1..] == ws[1..][w - 1 := pc];
      InHandUpdate(ws[1..], w - 1, pc);
      Shifted(Hand(ws[0]), InHand(ws[1..][w - 1 := pc]), Hand(ws[w]), InHand(ws[1..]), Hand(pc));
    } else {
      assert ws[w := pc][1..] == ws[1..];
    }
  }

  lemma {:induction false} OwingPositive<T>(ws: seq<WorkerPc<T>>, w: nat)
    requires w < |ws|
    ensures Owing(ws) >= Owed(ws[w])
  {
    if w > 0 {
      OwingPositive(ws[1..], w - 1);
    }
  }

  // ---------------------------------------------------------------- invariant

  /** A push that has not been posted yet. */
  function Unposted<T>(pc: ProducerPc<T>): nat {
    if pc.Pushed? || pc.Released? then 1 else 0
  }

  predicate Locking<T>(pc: WorkerPc<T>) {
    pc.Holding? || pc.FoundEmpty? || pc.Popped?
  }

  /** The mutex is held by exactly the thread whose program counter says so. */
  predicate MutexInv<T>(p: Pool<T>) {
    && (p.owner.ByProducer? <==> p.producer.HasLock? || p.producer.Pushed?)
    && (p.owner.ByWorker? ==> p.owner.w < |p.workers|)
    && (forall w | 0 <= w < |p.workers| :: p.owner == ByWorker(w) <==> Locking(p.workers[w]))
  }

  /** Queue length = semaphore value + workers between sem_wait and pop +
      producer between push and sem_post. */
  predicate CountInv<T>(p: Pool<T>) {
    |p.queue| == p.sem + Owing(p.workers) + Unposted(p.producer)
  }

  /** First in, first out: what was taken, followed by what is queued, is what was appended. */
  predicate FifoInv<T(==)>(p: Pool<T>) {
    p.appended == p.dequeued + p.queue
  }

  /** What was taken is either finished or in exactly one worker's hands. */
  predicate OnceInv<T(==)>(p: Pool<T>) {
    multiset(p.dequeued) == multiset(p.handled) + InHand(p.workers)
  }

  predicate NeverEmpty<T>(p: Pool<T>) {
    forall w | 0 <= w < |p.workers| :: !p.workers[w].FoundEmpty?
  }

  predicate Inv<T(==)>(p: Pool<T>) {
    MutexInv(p) && CountInv(p) && FifoInv(p) && OnceInv(p) && NeverEmpty(p)
  }

  lemma {:induction false} RestingWorkers<T>(ws: seq<WorkerPc<T>>)
    requires forall w | 0 <= w < |ws| :: ws[w].Waiting?
    ensures Owing(ws) == 0 && InHand(ws) == multiset{}
  {
    if ws != [] {
      assert ws[0].Waiting?;
      RestingWorkers(ws[1..]);
    }
  }

  lemma FreshPoolInv<T>(n: nat)
    ensures Inv(FreshPool<T>(n))
  {
    RestingWorkers(FreshPool<T>(n).workers);
  }

  lemma BeginAppendInv<T>(p: Pool<T>, e: T)
    requires Inv(p) && BeginAppend(p, e).Some?
    ensures Inv(BeginAppend(p, e).value)
  {
  }

  lemma ProducerStepInv<T>(p: Pool<T>)
    requires Inv(p) && ProducerStep(p).Some?
    ensures Inv(ProducerStep(p).value)
  {
  }

  /** A worker that holds the mutex before its pop finds the queue non-empty. */
  lemma HoldingSeesEvent<T>(p: Pool<T>, w: nat)
    requires Inv(p) && w < |p.workers| && p.workers[w].Holding?
    ensures p.queue != []
  {
    OwingPositive(p.workers, w);
  }

  lemma WorkerStepMutex<T>(p: Pool<T>, w: nat)
    requires Inv(p) && w < |p.workers| && WorkerStep(p, w).Some?
    ensures MutexInv(WorkerStep(p, w).value) && NeverEmpty(WorkerStep(p, w).value)
  {
    hide CountInv, FifoInv, OnceInv;
    if p.workers[w].Holding? {
      HoldingSeesEvent(p, w);
    }
  }

  lemma WorkerStepCounts<T>(p: Pool<T>, w: nat)
    requires Inv(p) && w < |p.workers| && WorkerStep(p, w).Some?
    ensures CountInv(WorkerStep(p, w).value) && FifoInv(WorkerStep(p, w).value)
  {
    hide MutexInv, OnceInv;
    var p1 := WorkerStep(p, w).value;
    if p.workers[w].Holding? {
      HoldingSeesEvent(p, w);
      assert p.queue == [p.queue[0]] + p.queue[1..];
    }
    OwingUpdate(p.workers, w, p1.workers[w]);
  }

  lemma Moved<T>(d: multiset<T>, h: multiset<T>, i: multiset<T>, i1: multiset<T>,
                   taken: multiset<T>, finished: multiset<T>)
    requires d == h + i && i1 + finished == i + taken
    ensures d + taken == h + finished + i1
  {
    assert h + finished + i1 == h + (i1 + finished);
    assert d + taken == h + (i + taken);
  }

  lemma Cancelled<T>(a: multiset<T>, b: multiset<T>, h: multiset<T>)
    requires a + h == b + h
    ensures a == b
  {
    forall x ensures a[x] == b[x] {
      assert (a + h)[x] == (b + h)[x];
    }
  }

  lemma WorkerStepOnce<T>(p: Pool<T>, w: nat)
    requires Inv(p) && w < |p.workers| && WorkerStep(p, w).Some?
    ensures OnceInv(WorkerStep(p, w).value)
  {
    hide MutexInv, CountInv, FifoInv, InHand;
    var p1 := WorkerStep(p, w).value;
    var before, after := p.workers[w], p1.workers[w];
    InHandUpdate(p.workers, w, after);
    if before.Popped? || before.Waiting? || before.Woken? || before.FoundEmpty?
       || (before.Holding? && after.FoundEmpty?) {
      Cancelled(InHand(p1.workers), InHand(p.workers), Hand(before));
    } else {
      Moved(multiset(p.dequeued), multiset(p.handled), InHand(p.workers), InHand(p1.workers),
            Hand(after), Hand(before));
    }
  }

  lemma WorkerStepInv<T>(p: Pool<T>, w: nat)
    requires Inv(p) && w < |p.workers| && WorkerStep(p, w).Some?
    ensures Inv(WorkerStep(p, w).value)
  {
    WorkerStepMutex(p, w);
    WorkerStepCounts(p, w);
    WorkerStepOnce(p, w);
    hide MutexInv, CountInv, FifoInv, OnceInv, NeverEmpty, WorkerStep;
  }

  // ---------------------------------------------------------------- all runs

  datatype Choice<T> = Append(event: T) | Produce | Work(w: nat)

  /** A scheduler's choice; one that cannot move leaves the pool as it is. */
  function Chosen<T>(p: Pool<T>, c: Choice<T>): Pool<T> {
    var next := match c
      case Append(e) => BeginAppend(p, e)
      case Produce => ProducerStep(p)
      case Work(w) => if w < |p.workers| then WorkerStep(p, w) else None;
    if next.Some? then next.value else p
  }

  function RunAll<T>(p: Pool<T>, choices: seq<Choice<T>>): Pool<T>
    decreases |choices|
  {
    if choices == [] then p else RunAll(Chosen(p, choices[0]), choices[1..])
  }

  lemma ChosenInv<T>(p: Pool<T>, c: Choice<T>)
    requires Inv(p)
    ensures Inv(Chosen(p, c)) && |Chosen(p, c).workers| == |p.workers|
  {
    hide Inv;
    match c
    case Append(e) =>
      if BeginAppend(p, e).Some? { BeginAppendInv(p, e); }
    case Produce =>
      if ProducerStep(p).Some? { ProducerStepInv(p); }
    case Work(w) =>
      if w < |p.workers| && WorkerStep(p, w).Some? { WorkerStepInv(p, w); }
  }

  /** The invariant holds in every reachable state, for any number of workers
      and any schedule. */
  lemma {:induction false} RunAllInv<T>(p: Pool<T>, choices: seq<Choice<T>>)
    requires Inv(p)
    ensures Inv(RunAll(p, choices)) && |RunAll(p, choices).workers| == |p.workers|
    decreases |choices|
  {
    hide Inv, Chosen;
    if choices != [] {
      ChosenInv(p, choices[0]);
      RunAllInv(Chosen(p, choices[0]), choices[1..]);
    }
  }

  /** Work still to be done before the pool is at rest. */
  function WorkerWeight<T>(pc: WorkerPc<T>): nat {
    match pc
    case Waiting => 0
    case Woken => 4
    case Holding => 3
    case FoundEmpty => 2
    case Popped(_) => 2
    case Handling(_) => 1
  }

  function WorkersWeight<T>(ws: seq<WorkerPc<T>>): nat {
    if ws == [] then 0 else WorkerWeight(ws[0]) + WorkersWeight(ws[1..])
  }

  function ProducerWeight<T>(pc: ProducerPc<T>): nat {
    match pc
    case Idle => 0
    case WantLock(_) => 9
    case HasLock(_) => 8
    case Pushed => 7
    case Released => 6
  }

  function Weight<T>(p: Pool<T>): nat {
    5 * p.sem + WorkersWeight(p.workers) + ProducerWeight(p.producer)
  }

  lemma {:induction false} WorkersWeightUpdate<T>(ws: seq<WorkerPc<T>>, w: nat, pc: WorkerPc<T>)
    requires w < |ws|
    ensures WorkersWeight(ws[w := pc]) + WorkerWeight(ws[w]) == WorkersWeight(ws) + WorkerWeight(pc)
  {
    if w > 0 {
      assert ws[w := pc][1..] == ws[1..][w - 1 := pc];
      WorkersWeightUpdate(ws[1..], w - 1, pc);
    } else {
      assert ws[w := pc][1..] == ws[1..];
    }
  }

  /** Every step that is not a new append uses up weight, so no schedule runs
      for ever without one. */
  lemma StepsEnd<T>(p: Pool<T>, w: nat)
    ensures ProducerStep(p).Some? ==> Weight(ProducerStep(p).value) < Weight(p)
    ensures w < |p.workers| && WorkerStep(p, w).Some? ==> Weight(WorkerStep(p, w).value) < Weight(p)
  {
    if w < |p.workers| && WorkerStep(p, w).Some? {
      WorkersWeightUpdate(p.workers, w, WorkerStep(p, w).value.workers[w]);
    }
  }

  /** No step is possible. */
  predicate AtRest<T>(p: Pool<T>) {
    && ProducerStep(p).None?
    && forall w | 0 <= w < |p.workers| :: WorkerStep(p, w).None?
  }

  /** Whoever holds the mutex can move. */
  lemma LockHolderMoves<T>(p: Pool<T>)
    requires Inv(p) && !p.owner.Free?
    ensures !AtRest(p)
  {
    if p.owner.ByWorker? {
      var w := p.owner.w;
      assert p.owner == ByWorker(w);
      assert WorkerStep(p, w).Some?;
    }
  }

  lemma RestingIsWaiting<T>(p: Pool<T>)
    requires Inv(p) && AtRest(p)
    ensures p.owner.Free? && p.producer.Idle?
    ensures forall w | 0 <= w < |p.workers| :: p.workers[w].Waiting?
  {
    if !p.owner.Free? {
      LockHolderMoves(p);
    }
    forall w | 0 <= w < |p.workers| ensures p.workers[w].Waiting? {
      assert WorkerStep(p, w).None?;
    }
  }

  /** The protocol never wedges: when no thread can move, every event that was
      appended has been handled, exactly once, and nothing is queued. */
  lemma RestMeansDone<T>(p: Pool<T>)
    requires Inv(p) && |p.workers| > 0 && AtRest(p)
    ensures p.queue == [] && p.producer.Idle? && multiset(p.handled) == multiset(p.appended)
  {
    RestingIsWaiting(p);
    RestingWorkers(p.workers);
    assert WorkerStep(p, 0).None?;
    assert p.dequeued + [] == p.dequeued;
  }

  // ---------------------------------------------------------------- the class

  /** The pool itself: the threads' program counters beside the members of the
      original class. Each method executes one step in place. */
  class ThreadPool<T(==)> {
    var workQueue: seq<T>
    var queueEventNum: nat
    var queueLocker: Owner
    var producer: ProducerPc<T>
    var workers: seq<WorkerPc<T>>
    ghost var appended: seq<T>
    ghost var dequeued: seq<T>
    ghost var handled: seq<T>

    ghost function Value(): Pool<T>
      reads this
    {
      Pool(workQueue, queueEventNum, queueLocker, producer, workers, appended, dequeued, handled)
    }

    constructor (threadNum: nat)
      ensures Value() == FreshPool(threadNum) && Inv(Value())
    {
      workQueue, queueEventNum, queueLocker := [], 0, Free;
      producer, workers := Idle, seq(threadNum, _ => Waiting);
      appended, dequeued, handled := [], [], [];
      new;
      FreshPoolInv<T>(threadNum);
    }

    /** One step of appendEvent. */
    method StepProducer() returns (moved: bool)
      requires Inv(Value())
      modifies this
      ensures Inv(Value())
      ensures moved <==> ProducerStep(old(Value())).Some?
      ensures Value() == if moved then ProducerStep(old(Value())).value else old(Value())
    {
      hide Inv;
      ghost var before := Value();
      match producer {
      case Idle =>
        return false;
      case WantLock(e) =>
        if !queueLocker.Free? {
          return false;
        }
        queueLocker, producer := ByProducer, HasLock(e);
      case HasLock(e) =>
        workQueue := workQueue + [e];
        appended := appended + [e];
        producer := Pushed;
      case Pushed =>
        queueLocker, producer := Free, Released;
      case Released =>
        queueEventNum, producer := queueEventNum + 1, Idle;
      }
      ProducerStepInv(before);
      return true;
    }

    /** One step of a worker in run. */
    method StepWorker(w: nat) returns (moved: bool)
      requires Inv(Value()) && w < |workers|
      modifies this
      ensures Inv(Value()) && |workers| == |old(workers)|
      ensures moved <==> WorkerStep(old(Value()), w).Some?
      ensures Value() == if moved then WorkerStep(old(Value()), w).value else old(Value())
    {
      hide Inv;
      ghost var before := Value();
      match workers[w] {
      case Waiting =>
        if queueEventNum == 0 {
          return false;
        }
        queueEventNum := queueEventNum - 1;
        workers := workers[w := Woken];
      case Woken =>
        if !queueLocker.Free? {
          return false;
        }
        queueLocker := ByWorker(w);
        workers := workers[w := Holding];
      case Holding =>
        if workQueue == [] {
          workers := workers[w := FoundEmpty];
        } else {
          var curEvent := workQueue[0];
          dequeued := dequeued + [curEvent];
          workQueue := workQueue[1..];
          workers := workers[w := Popped(curEvent)];
        }
      case FoundEmpty =>
        queueLocker := Free;
        workers := workers[w := Waiting];
      case Popped(e) =>
        queueLocker := Free;
        workers := workers[w := Handling(e)];
      case Handling(e) =>
        handled := handled + [e];
        workers := workers[w := Waiting];
      }
      WorkerStepInv(before, w);
      return true;
    }

    /** The threads under an arbitrary schedule. */
    method Run(choices: seq<Choice<T>>)
      requires Inv(Value())
      modifies this
      ensures Inv(Value()) && Value() == RunAll(old(Value()), choices)
    {
      ghost var goal := RunAll(Value(), choices);
      for i := 0 to |choices|
        invariant Inv(Value())
        invariant RunAll(Value(), choices[i..]) == goal
      {
        assert choices[i..][1..] == choices[i + 1..];
        match choices[i]
        case Append(e) =>
          if producer.Idle? {
            producer := WantLock(e);
          }
        case Produce =>
          var moved := StepProducer();
        case Work(w) =>
          if w < |workers| {
            var moved := StepWorker(w);
          }
      }
    }
  }
}
