/**
 * The thread pool behind the dispatcher: as many threads as workers and a queue of as many places. An
 * operation is released by its own task, before its thread is free for another, so for a moment more
 * tasks can be in the pool than operations are admitted; the queue has room for them all the same.
 */
module WorkerExecutor {
  import opened Domain
  import opened AdmissionControl

  datatype Thread = Idle | Busy(key: OrderKey, released: bool)

  datatype Pool = Pool(threads: seq<Thread>, queue: seq<OrderKey>, stopping: bool)

  const NEW_POOL := Pool([], [], false)

  /**
   * A pool below its size starts a thread for the task; a full one queues it; a full queue or a stopped
   * pool refuses it.
   */
  function Executed(pool: Pool, workers: int, key: OrderKey): (Pool, bool) {
    if pool.stopping then (pool, false)
    else if |pool.threads| < workers then (pool.(threads := pool.threads + [Busy(key, false)]), true)
    else if |pool.queue| < workers then (pool.(queue := pool.queue + [key]), true)
    else (pool, false)
  }

  // ---- who has an operation in hand

  function InQueue(queue: seq<OrderKey>, key: OrderKey): nat {
    if queue == [] then 0
    else InQueue(queue[..|queue| - 1], key) + (if queue[|queue| - 1] == key then 1 else 0)
  }

  /** Threads whose task runs the operation and has not released it yet. */
  function InThreads(threads: seq<Thread>, key: OrderKey): nat {
    if threads == [] then 0
    else InThreads(threads[..|threads| - 1], key) + (if threads[|threads| - 1] == Busy(key, false) then 1 else 0)
  }

  function InPool(pool: Pool, key: OrderKey): nat {
    InQueue(pool.queue, key) + InThreads(pool.threads, key)
  }

  function One(b: bool): nat {
    if b then 1 else 0
  }

  /** Nothing is in the pool that is not admitted, and nothing twice. */
  ghost predicate OnlyRunning(pool: Pool, running: set<OrderKey>) {
    forall key :: InPool(pool, key) <= One(key in running)
  }

  lemma QueueAppend(queue: seq<OrderKey>, key: OrderKey, k: OrderKey)
    ensures InQueue(queue + [key], k) == InQueue(queue, k) + One(k == key)
  {
    assert (queue + [key])[..|queue|] == queue;
  }

  lemma ThreadsAppend(threads: seq<Thread>, thread: Thread, k: OrderKey)
    ensures InThreads(threads + [thread], k) == InThreads(threads, k) + One(thread == Busy(k, false))
  {
    assert (threads + [thread])[..|threads|] == threads;
  }

  lemma {:induction false} QueueTail(queue: seq<OrderKey>, k: OrderKey)
    requires queue != []
    ensures InQueue(queue[1..], k) == InQueue(queue, k) - One(queue[0] == k)
  {
    var n := |queue| - 1;
    if n > 0 {
      QueueTail(queue[..n], k);
      assert queue[1..][..n - 1] == queue[..n][1..];
    }
  }

  lemma {:induction false} ThreadsUpdate(threads: seq<Thread>, i: nat, thread: Thread, k: OrderKey)
    requires i < |threads|
    ensures InThreads(threads[i := thread], k)
         == InThreads(threads, k) - One(threads[i] == Busy(k, false)) + One(thread == Busy(k, false))
    ensures threads[i] == Busy(k, false) ==> InThreads(threads, k) > 0
  {
    var n := |threads| - 1;
    assert threads[i := thread][..n] == if i < n then threads[..n][i := thread] else threads[..n];
    if i < n {
      ThreadsUpdate(threads[..n], i, thread, k);
    }
  }

  /** A queue that holds admitted operations only, each once, is no longer than there are operations. */
  lemma {:induction false} QueueIsShort(queue: seq<OrderKey>, running: set<OrderKey>)
    requires forall key :: InQueue(queue, key) <= One(key in running)
    ensures |queue| <= |running|
  {
    if queue != [] {
      var n := |queue| - 1;
      var last := queue[n];
      assert InQueue(queue, last) <= One(last in running);
      forall key
        ensures InQueue(queue[..n], key) <= One(key in running - {last})
      {
        assert InQueue(queue, key) <= One(key in running);
      }
      QueueIsShort(queue[..n], running - {last});
    }
  }

  /**
   * An operation that has been admitted and is not in the pool yet is taken, unless the pool is
   * stopping: there is a thread to start or a place in the queue.
   */
  lemma AdmittedIsTaken(pool: Pool, running: set<OrderKey>, workers: int, key: OrderKey)
    requires OnlyRunning(pool, running) && |running| <= workers && key in running && InPool(pool, key) == 0
    ensures Executed(pool, workers, key).1 <==> !pool.stopping
    ensures OnlyRunning(Executed(pool, workers, key).0, running)
  {
    forall k
      ensures InQueue(pool.queue, k) <= One(k in running - {key})
    {
      assert InPool(pool, k) <= One(k in running);
    }
    QueueIsShort(pool.queue, running - {key});
    forall k
      ensures InPool(Executed(pool, workers, key).0, k) <= One(k in running)
    {
      assert InPool(pool, k) <= One(k in running);
      QueueAppend(pool.queue, key, k);
      ThreadsAppend(pool.threads, Busy(key, false), k);
    }
  }

  /** More operations may be admitted while the pool stays as it is. */
  lemma MoreRunning(pool: Pool, running: set<OrderKey>, more: set<OrderKey>)
    requires OnlyRunning(pool, running) && running <= more
    ensures OnlyRunning(pool, more)
  {
    forall key
      ensures InPool(pool, key) <= One(key in more)
    {
      assert InPool(pool, key) <= One(key in running);
    }
  }

  class TaskExecutor {
    const workers: int
    var threads: seq<Thread>
    var queue: seq<OrderKey>
    var stopping: bool

    ghost function Content(): Pool
      reads this
    {
      Pool(threads, queue, stopping)
    }

    constructor (workers: int)
      ensures Content() == NEW_POOL && this.workers == workers
    {
      this.workers, threads, queue, stopping := workers, [], [], false;
    }

    /** Takes no more tasks; what it has taken runs to its end. */
    method Shutdown()
      modifies this
      ensures Content() == old(Content()).(stopping := true)
    {
      stopping := true;
    }

    method Execute(key: OrderKey) returns (accepted: bool)
      modifies this
      ensures (Content(), accepted) == Executed(old(Content()), workers, key)
    {
      if stopping { return false; }
      if |threads| < workers {
        threads := threads + [Busy(key, false)];
        return true;
      }
      accepted := |queue| < workers;
      if accepted {
        queue := queue + [key];
      }
    }
  }

  // ---- the dispatcher, the pool and its tasks, in any interleaving

  /**
   * Held operations are admitted, and neither handed over nor released; stuck ones stay that way, because
   * the pass that held them has ended. One lock keeps passes and the stop apart; the start does not ask for it.
   */
  datatype State = State(
    trace: Trace, held: set<OrderKey>, stuck: set<OrderKey>, pool: Pool, running: bool, passing: bool)

  const START := State([], {}, {}, NEW_POOL, true, false)

  datatype Step =
    | Enter                             // a dispatch pass begins
    | Take(op: Op)                      // the policy admits an operation
    | Submit(key: OrderKey)
    | GiveUp(key: OrderKey, at: int)    // no permission, no claim, or refused by the pool
    | Abort(key: OrderKey)              // refused by the pool, and giving the row back fails as well
    | Leave
    | Begin(thread: nat)                // an idle thread takes the head of the queue
    | Finish(thread: nat, at: int)      // the task releases its operation
    | Free(thread: nat)                 // and only then its thread is done
    | Stop
    | Start

  predicate CanStep(s: State, workers: int, sellerConcurrency: int, step: Step) {
    match step
    case Enter => s.running && !s.passing
    case Take(op) => s.passing && s.held == {} && op.Admit? && Lawful(s.trace + [op], workers, sellerConcurrency)
    case Submit(key) => s.passing && key in s.held
    case GiveUp(key, at) => s.passing && key in s.held && LastTime(s.trace) <= at
    case Abort(key) => s.passing && key in s.held && !Executed(s.pool, workers, key).1
    case Leave => s.passing && s.held == {}
    case Begin(i) => i < |s.pool.threads| && s.pool.threads[i] == Idle && s.pool.queue != []
    case Finish(i, at) =>
      i < |s.pool.threads| && s.pool.threads[i].Busy? && !s.pool.threads[i].released && LastTime(s.trace) <= at
    case Free(i) => i < |s.pool.threads| && s.pool.threads[i].Busy? && s.pool.threads[i].released
    case Stop => !s.passing
    case Start => true
  }

  function After(s: State, workers: int, sellerConcurrency: int, step: Step): State
    requires CanStep(s, workers, sellerConcurrency, step)
  {
    match step
    case Enter => s.(passing := true)
    case Take(op) => s.(trace := s.trace + [op], held := s.held + {op.key})
    case Submit(key) =>
      var (pool, accepted) := Executed(s.pool, workers, key);
      s.(held := if accepted then s.held - {key} else s.held, pool := pool)
    case GiveUp(key, at) => s.(trace := s.trace + [Op.Release(key, at)], held := s.held - {key})
    case Abort(key) => s.(held := {}, stuck := s.stuck + s.held, passing := false)
    case Leave => s.(passing := false)
    case Begin(i) =>
      s.(pool := s.pool.(threads := s.pool.threads[i := Busy(s.pool.queue[0], false)], queue := s.pool.queue[1..]))
    case Finish(i, at) =>
      var key := s.pool.threads[i].key;
      s.(trace := s.trace + [Op.Release(key, at)], pool := s.pool.(threads := s.pool.threads[i := Busy(key, true)]))
    case Free(i) => s.(pool := s.pool.(threads := s.pool.threads[i := Idle]))
    case Stop => s.(pool := s.pool.(stopping := true), running := false)
    case Start => s.(running := true)
  }

  predicate IsRun(s: State, workers: int, sellerConcurrency: int, run: seq<Step>)
    decreases |run|
  {
    run == [] || (CanStep(s, workers, sellerConcurrency, run[0])
                  && IsRun(After(s, workers, sellerConcurrency, run[0]), workers, sellerConcurrency, run[1..]))
  }

  function End(s: State, workers: int, sellerConcurrency: int, run: seq<Step>): State
    requires IsRun(s, workers, sellerConcurrency, run)
    decreases |run|
  {
    if run == [] then s else End(After(s, workers, sellerConcurrency, run[0]), workers, sellerConcurrency, run[1..])
  }

  /**
   * Every admitted operation is in exactly one hand: the pass's, the queue's or a thread's, or in none any more.
   * A pass goes on only while the dispatcher runs.
   */
  ghost predicate Inv(s: State, workers: int, sellerConcurrency: int) {
    && Lawful(s.trace, workers, sellerConcurrency)
    && (s.held != {} ==> s.passing) && (s.passing ==> s.running)
    && forall key :: InPool(s.pool, key) + One(key in s.held) + One(key in s.stuck) == One(key in Running(s.trace))
  }

  lemma InvIsOnlyRunning(s: State, workers: int, sellerConcurrency: int)
    requires Inv(s, workers, sellerConcurrency)
    ensures OnlyRunning(s.pool, Running(s.trace))
    ensures forall key :: key in s.held ==> key in Running(s.trace) && InPool(s.pool, key) == 0
  {
    forall key
      ensures InPool(s.pool, key) <= One(key in Running(s.trace))
      ensures key in s.held ==> key in Running(s.trace) && InPool(s.pool, key) == 0
    {
      assert InPool(s.pool, key) + One(key in s.held) + One(key in s.stuck) == One(key in Running(s.trace));
    }
  }

  lemma TakeKeepsInv(s: State, workers: int, sellerConcurrency: int, op: Op)
    requires Inv(s, workers, sellerConcurrency) && s.passing
    requires op.Admit? && Lawful(s.trace + [op], workers, sellerConcurrency)
    ensures Inv(s.(trace := s.trace + [op], held := s.held + {op.key}), workers, sellerConcurrency)
  {
    assert (s.trace + [op])[..|s.trace|] == s.trace;
    hide Lawful, InPool;
    OneMoreOp(s.trace, op);
    forall key
      ensures InPool(s.pool, key) + One(key in s.held + {op.key}) + One(key in s.stuck)
            == One(key in Running(s.trace + [op]))
    {
      assert InPool(s.pool, key) + One(key in s.held) + One(key in s.stuck) == One(key in Running(s.trace));
      assert InPool(s.pool, op.key) + One(op.key in s.held) + One(op.key in s.stuck) == One(op.key in Running(s.trace));
    }
  }

  /** Whoever has an operation in hand may release it. */
  lemma ReleaseIsLawful(trace: Trace, workers: int, sellerConcurrency: int, key: OrderKey, at: int)
    requires Lawful(trace, workers, sellerConcurrency) && key in Running(trace) && LastTime(trace) <= at
    ensures Lawful(trace + [Op.Release(key, at)], workers, sellerConcurrency)
    ensures Running(trace + [Op.Release(key, at)]) == Running(trace) - {key}
  {
    assert (trace + [Op.Release(key, at)])[..|trace|] == trace;
  }

  lemma SubmitKeepsInv(s: State, workers: int, sellerConcurrency: int, key: OrderKey)
    requires Inv(s, workers, sellerConcurrency) && key in s.held
    ensures var (pool, accepted) := Executed(s.pool, workers, key);
            Inv(s.(held := if accepted then s.held - {key} else s.held, pool := pool), workers, sellerConcurrency)
  {
    hide Lawful, Running;
    var pool, accepted := Executed(s.pool, workers, key).0, Executed(s.pool, workers, key).1;
    forall k
      ensures InPool(pool, k) + One(k in if accepted then s.held - {key} else s.held) + One(k in s.stuck)
            == One(k in Running(s.trace))
    {
      assert InPool(s.pool, k) + One(k in s.held) + One(k in s.stuck) == One(k in Running(s.trace));
      QueueAppend(s.pool.queue, key, k);
      ThreadsAppend(s.pool.threads, Busy(key, false), k);
    }
  }

  lemma GiveUpKeepsInv(s: State, workers: int, sellerConcurrency: int, key: OrderKey, at: int)
    requires Inv(s, workers, sellerConcurrency) && key in s.held && LastTime(s.trace) <= at
    ensures Inv(s.(trace := s.trace + [Op.Release(key, at)], held := s.held - {key}), workers, sellerConcurrency)
  {
    InvIsOnlyRunning(s, workers, sellerConcurrency);
    ReleaseIsLawful(s.trace, workers, sellerConcurrency, key, at);
    hide Lawful, Running, InPool, LastTime;
    forall k
      ensures InPool(s.pool, k) + One(k in s.held - {key}) + One(k in s.stuck) == One(k in Running(s.trace) - {key})
    {
      assert InPool(s.pool, k) + One(k in s.held) + One(k in s.stuck) == One(k in Running(s.trace));
    }
  }

  lemma BeginKeepsInv(s: State, workers: int, sellerConcurrency: int, i: nat)
    requires Inv(s, workers, sellerConcurrency)
    requires i < |s.pool.threads| && s.pool.threads[i] == Idle && s.pool.queue != []
    ensures var threads := s.pool.threads[i := Busy(s.pool.queue[0], false)];
            Inv(s.(pool := s.pool.(threads := threads, queue := s.pool.queue[1..])), workers, sellerConcurrency)
  {
    hide Lawful, Running;
    var pool := s.pool.(threads := s.pool.threads[i := Busy(s.pool.queue[0], false)], queue := s.pool.queue[1..]);
    forall k
      ensures InPool(pool, k) == InPool(s.pool, k)
    {
      QueueTail(s.pool.queue, k);
      ThreadsUpdate(s.pool.threads, i, Busy(s.pool.queue[0], false), k);
    }
    hide InPool;
    forall k
      ensures InPool(pool, k) + One(k in s.held) + One(k in s.stuck) == One(k in Running(s.trace))
    {
      assert InPool(s.pool, k) + One(k in s.held) + One(k in s.stuck) == One(k in Running(s.trace));
    }
  }

  lemma FinishKeepsInv(s: State, workers: int, sellerConcurrency: int, i: nat, at: int)
    requires Inv(s, workers, sellerConcurrency) && LastTime(s.trace) <= at
    requires i < |s.pool.threads| && s.pool.threads[i].Busy? && !s.pool.threads[i].released
    ensures var key := s.pool.threads[i].key;
            var pool := s.pool.(threads := s.pool.threads[i := Busy(key, true)]);
            Inv(s.(trace := s.trace + [Op.Release(key, at)], pool := pool), workers, sellerConcurrency)
  {
    var key := s.pool.threads[i].key;
    var pool := s.pool.(threads := s.pool.threads[i := Busy(key, true)]);
    ThreadsUpdate(s.pool.threads, i, Busy(key, true), key);
    assert InPool(s.pool, key) + One(key in s.held) + One(key in s.stuck) == One(key in Running(s.trace));
    ReleaseIsLawful(s.trace, workers, sellerConcurrency, key, at);
    hide Lawful, Running, LastTime;
    forall k
      ensures InPool(pool, k) + One(k in s.held) + One(k in s.stuck) == One(k in Running(s.trace) - {key})
    {
      assert InPool(s.pool, k) + One(k in s.held) + One(k in s.stuck) == One(k in Running(s.trace));
      ThreadsUpdate(s.pool.threads, i, Busy(key, true), k);
    }
  }

  lemma FreeKeepsInv(s: State, workers: int, sellerConcurrency: int, i: nat)
    requires Inv(s, workers, sellerConcurrency)
    requires i < |s.pool.threads| && s.pool.threads[i].Busy? && s.pool.threads[i].released
    ensures Inv(s.(pool := s.pool.(threads := s.pool.threads[i := Idle])), workers, sellerConcurrency)
  {
    hide Lawful, Running;
    forall k
      ensures InPool(s.pool.(threads := s.pool.threads[i := Idle]), k) + One(k in s.held) + One(k in s.stuck)
            == One(k in Running(s.trace))
    {
      assert InPool(s.pool, k) + One(k in s.held) + One(k in s.stuck) == One(k in Running(s.trace));
      ThreadsUpdate(s.pool.threads, i, Idle, k);
    }
  }

  lemma StopKeepsInv(s: State, workers: int, sellerConcurrency: int)
    requires Inv(s, workers, sellerConcurrency) && !s.passing
    ensures Inv(s.(pool := s.pool.(stopping := true), running := false), workers, sellerConcurrency)
  {
    hide Lawful, Running;
    forall k
      ensures InPool(s.pool.(stopping := true), k) + One(k in s.held) + One(k in s.stuck) == One(k in Running(s.trace))
    {
      assert InPool(s.pool, k) + One(k in s.held) + One(k in s.stuck) == One(k in Running(s.trace));
    }
  }

  lemma AbortKeepsInv(s: State, workers: int, sellerConcurrency: int)
    requires Inv(s, workers, sellerConcurrency)
    ensures Inv(s.(held := {}, stuck := s.stuck + s.held, passing := false), workers, sellerConcurrency)
  {
    hide Lawful, Running, InPool;
    forall k
      ensures InPool(s.pool, k) + One(k in s.stuck + s.held) == One(k in Running(s.trace))
    {
      assert InPool(s.pool, k) + One(k in s.held) + One(k in s.stuck) == One(k in Running(s.trace));
    }
  }

  lemma PhaseKeepsInv(s: State, workers: int, sellerConcurrency: int, running: bool, passing: bool)
    requires Inv(s, workers, sellerConcurrency) && (passing ==> running) && (s.held != {} ==> passing)
    ensures Inv(s.(running := running, passing := passing), workers, sellerConcurrency)
  {
    hide Lawful, Running, InPool;
    forall k
      ensures InPool(s.pool, k) + One(k in s.held) + One(k in s.stuck) == One(k in Running(s.trace))
    {
    }
  }

  lemma PassIsRunning(s: State, workers: int, sellerConcurrency: int)
    requires Inv(s, workers, sellerConcurrency)
    ensures (s.held != {} ==> s.passing) && (s.passing ==> s.running)
  {
    hide Lawful, Running, InPool;
  }

  lemma StepKeepsInv(s: State, workers: int, sellerConcurrency: int, step: Step)
    requires Inv(s, workers, sellerConcurrency) && CanStep(s, workers, sellerConcurrency, step)
    ensures Inv(After(s, workers, sellerConcurrency, step), workers, sellerConcurrency)
  {
    hide Inv, Lawful, Running, Executed, LastTime;
    PassIsRunning(s, workers, sellerConcurrency);
    match step
    case Enter => PhaseKeepsInv(s, workers, sellerConcurrency, true, true);
    case Take(op) => TakeKeepsInv(s, workers, sellerConcurrency, op);
    case Submit(key) => SubmitKeepsInv(s, workers, sellerConcurrency, key);
    case GiveUp(key, at) => GiveUpKeepsInv(s, workers, sellerConcurrency, key, at);
    case Abort(_) => AbortKeepsInv(s, workers, sellerConcurrency);
    case Leave => PhaseKeepsInv(s, workers, sellerConcurrency, s.running, false);
    case Begin(i) => BeginKeepsInv(s, workers, sellerConcurrency, i);
    case Finish(i, at) => FinishKeepsInv(s, workers, sellerConcurrency, i, at);
    case Free(i) => FreeKeepsInv(s, workers, sellerConcurrency, i);
    case Stop => StopKeepsInv(s, workers, sellerConcurrency);
    case Start => PhaseKeepsInv(s, workers, sellerConcurrency, true, s.passing);
  }

  lemma {:induction false} RunKeepsInv(s: State, workers: int, sellerConcurrency: int, run: seq<Step>)
    requires Inv(s, workers, sellerConcurrency) && IsRun(s, workers, sellerConcurrency, run)
    ensures Inv(End(s, workers, sellerConcurrency, run), workers, sellerConcurrency)
    decreases |run|
  {
    hide Inv, CanStep, After;
    if run != [] {
      StepKeepsInv(s, workers, sellerConcurrency, run[0]);
      RunKeepsInv(After(s, workers, sellerConcurrency, run[0]), workers, sellerConcurrency, run[1..]);
    }
  }

  lemma {:induction false} RunningFitsWorkers(trace: Trace, workers: int, sellerConcurrency: int)
    requires Lawful(trace, workers, sellerConcurrency)
    ensures Running(trace) == {} || |Running(trace)| <= workers
  {
    if trace != [] {
      var before, op := trace[..|trace| - 1], trace[|trace| - 1];
      RunningFitsWorkers(before, workers, sellerConcurrency);
      if op.Release? {
        SubsetIsSmaller(Running(trace), Running(before));
      }
    }
  }

  lemma StartInv(workers: int, sellerConcurrency: int)
    ensures Inv(START, workers, sellerConcurrency)
  {
  }

  // ---- stopping and starting again

  predicate HasStop(run: seq<Step>) {
    exists i :: 0 <= i < |run| && run[i].Stop?
  }

  predicate HasStart(run: seq<Step>) {
    exists i :: 0 <= i < |run| && run[i].Start?
  }

  /** A start follows a stop. */
  predicate Restarts(run: seq<Step>) {
    exists i, j :: 0 <= i < j < |run| && run[i].Stop? && run[j].Start?
  }

  lemma HeadOfRun(run: seq<Step>)
    requires run != []
    ensures HasStop(run) <==> run[0].Stop? || HasStop(run[1..])
    ensures HasStart(run) <==> run[0].Start? || HasStart(run[1..])
    ensures Restarts(run) <==> (run[0].Stop? && HasStart(run[1..])) || Restarts(run[1..])
  {
    var rest := run[1..];
    assert forall i :: 0 < i < |run| ==> run[i] == rest[i - 1];
    if HasStop(rest) {
      var i :| 0 <= i < |rest| && rest[i].Stop?;
      assert run[i + 1].Stop?;
    }
    if HasStart(rest) {
      var i :| 0 <= i < |rest| && rest[i].Start?;
      assert run[i + 1].Start?;
    }
    if Restarts(rest) {
      var i, j :| 0 <= i < j < |rest| && rest[i].Stop? && rest[j].Start?;
      assert run[i + 1].Stop? && run[j + 1].Start?;
    }
    if Restarts(run) {
      var i, j :| 0 <= i < j < |run| && run[i].Stop? && run[j].Start?;
      assert rest[j - 1].Start? && (i > 0 ==> rest[i - 1].Stop?);
    }
  }

  /** Something was stopped and something has been started since, counting what was so before the run. */
  predicate Revived(s: State, run: seq<Step>) {
    (s.pool.stopping && (s.running || HasStart(run))) || Restarts(run)
  }

  lemma StepStops(s: State, workers: int, sellerConcurrency: int, step: Step)
    requires CanStep(s, workers, sellerConcurrency, step) && (s.passing ==> s.running)
    ensures var t := After(s, workers, sellerConcurrency, step);
            && (t.passing ==> t.running)
            && (t.pool.stopping <==> s.pool.stopping || step.Stop?)
            && (t.running <==> (s.running && !step.Stop?) || step.Start?)
  {
    hide Lawful, LastTime;
  }

  lemma {:induction false} RunStops(s: State, workers: int, sellerConcurrency: int, run: seq<Step>)
    requires IsRun(s, workers, sellerConcurrency, run) && (s.passing ==> s.running)
    ensures var t := End(s, workers, sellerConcurrency, run);
            && (t.pool.stopping <==> s.pool.stopping || HasStop(run))
            && (t.pool.stopping && t.running ==> Revived(s, run))
    decreases |run|
  {
    hide CanStep, After;
    if run != [] {
      hide HasStop, HasStart, Restarts;
      HeadOfRun(run);
      StepStops(s, workers, sellerConcurrency, run[0]);
      RunStops(After(s, workers, sellerConcurrency, run[0]), workers, sellerConcurrency, run[1..]);
    }
  }

  lemma RestartHasStop(run: seq<Step>)
    ensures Restarts(run) ==> HasStop(run)
  {
  }

  /**
   * Over every interleaving of passes, hand-overs, threads, releases, stops and starts: an operation that a pass
   * has admitted is accepted by the pool if and only if the pool is not stopping, and that is if and only if
   * the dispatcher was never started again after a stop.
   */
  lemma SubmitIsAccepted(workers: int, sellerConcurrency: int, run: seq<Step>, key: OrderKey)
    requires IsRun(START, workers, sellerConcurrency, run) && key in End(START, workers, sellerConcurrency, run).held
    ensures var s := End(START, workers, sellerConcurrency, run);
            && (Executed(s.pool, workers, key).1 <==> !s.pool.stopping)
            && (Executed(s.pool, workers, key).1 <==> !Restarts(run))
  {
    StartInv(workers, sellerConcurrency);
    RunKeepsInv(START, workers, sellerConcurrency, run);
    RunStops(START, workers, sellerConcurrency, run);
    RestartHasStop(run);
    var s := End(START, workers, sellerConcurrency, run);
    hide IsRun, End, Executed, Restarts, HasStop, HasStart;
    InvIsOnlyRunning(s, workers, sellerConcurrency);
    RunningFitsWorkers(s.trace, workers, sellerConcurrency);
    AdmittedIsTaken(s.pool, Running(s.trace), workers, key);
  }

  lemma RefusedIsStopping(s: State, workers: int, sellerConcurrency: int, step: Step)
    requires Inv(s, workers, sellerConcurrency) && CanStep(s, workers, sellerConcurrency, step) && step.Abort?
    ensures s.pool.stopping && s.running
  {
    hide Lawful, Executed;
    InvIsOnlyRunning(s, workers, sellerConcurrency);
    RunningFitsWorkers(s.trace, workers, sellerConcurrency);
    AdmittedIsTaken(s.pool, Running(s.trace), workers, step.key);
  }

  lemma OthersLeaveStuck(s: State, workers: int, sellerConcurrency: int, step: Step)
    requires CanStep(s, workers, sellerConcurrency, step) && !step.Abort?
    ensures After(s, workers, sellerConcurrency, step).stuck == s.stuck
  {
    hide CanStep, Executed;
  }

  lemma {:induction false} StuckRestarts(s: State, workers: int, sellerConcurrency: int, run: seq<Step>)
    requires Inv(s, workers, sellerConcurrency) && IsRun(s, workers, sellerConcurrency, run)
    ensures End(s, workers, sellerConcurrency, run).stuck != {} ==> s.stuck != {} || Revived(s, run)
    decreases |run|
  {
    hide Inv, CanStep, After, HasStart, Restarts, HasStop;
    if run != [] {
      HeadOfRun(run);
      PassIsRunning(s, workers, sellerConcurrency);
      StepStops(s, workers, sellerConcurrency, run[0]);
      StepKeepsInv(s, workers, sellerConcurrency, run[0]);
      if run[0].Abort? {
        RefusedIsStopping(s, workers, sellerConcurrency, run[0]);
      } else {
        OthersLeaveStuck(s, workers, sellerConcurrency, run[0]);
        StuckRestarts(After(s, workers, sellerConcurrency, run[0]), workers, sellerConcurrency, run[1..]);
      }
    }
  }

  /** What has been admitted is in the pool, in the hands of a pass or released, unless there was such a restart. */
  lemma NothingIsStuck(workers: int, sellerConcurrency: int, run: seq<Step>)
    requires IsRun(START, workers, sellerConcurrency, run)
    ensures var s := End(START, workers, sellerConcurrency, run);
            && (s.stuck != {} ==> Restarts(run))
            && (s.stuck == {} ==> forall key :: key in Running(s.trace) ==> key in s.held || InPool(s.pool, key) == 1)
  {
    StartInv(workers, sellerConcurrency);
    RunKeepsInv(START, workers, sellerConcurrency, run);
    StuckRestarts(START, workers, sellerConcurrency, run);
    var s := End(START, workers, sellerConcurrency, run);
    hide IsRun, End, Restarts, HasStart, Lawful, Running, InPool;
    forall key | s.stuck == {} && key in Running(s.trace)
      ensures key in s.held || InPool(s.pool, key) == 1
    {
      assert InPool(s.pool, key) + One(key in s.held) + One(key in s.stuck) == One(key in Running(s.trace));
    }
  }

  lemma OneMoreStep(s: State, workers: int, sellerConcurrency: int, step: Step, rest: seq<Step>)
    requires CanStep(s, workers, sellerConcurrency, step)
    requires IsRun(After(s, workers, sellerConcurrency, step), workers, sellerConcurrency, rest)
    ensures IsRun(s, workers, sellerConcurrency, [step] + rest)
    ensures End(s, workers, sellerConcurrency, [step] + rest)
         == End(After(s, workers, sellerConcurrency, step), workers, sellerConcurrency, rest)
  {
    hide CanStep, After;
    assert ([step] + rest)[1..] == rest;
  }

  /** After a restart the next pass can strand an operation: nothing will release it or run it. */
  lemma RestartCanStrand(workers: int, sellerConcurrency: int, key: OrderKey) returns (run: seq<Step>)
    requires workers >= 1
    ensures IsRun(START, workers, sellerConcurrency, run)
    ensures var s := End(START, workers, sellerConcurrency, run);
            s.stuck == {key} == Running(s.trace) && InPool(s.pool, key) == 0
  {
    var op := Admit(key, 0, false, false);
    assert Lawful([op], workers, sellerConcurrency) && Running([op]) == {key} by {
      assert [op][..0] == [];
    }
    var stopped := START.(pool := NEW_POOL.(stopping := true), running := false);
    var entered := stopped.(running := true, passing := true);
    var taken := entered.(trace := [op], held := {key});
    assert entered.trace + [op] == [op] && entered.held + {key} == {key};
    var stranded := taken.(held := {}, stuck := {key}, passing := false);
    assert taken.stuck + taken.held == {key};
    hide Lawful, Running;
    OneMoreStep(taken, workers, sellerConcurrency, Abort(key), []);
    OneMoreStep(entered, workers, sellerConcurrency, Take(op), [Abort(key)] + []);
    run := [Take(op)] + ([Abort(key)] + []);
    OneMoreStep(stopped.(running := true), workers, sellerConcurrency, Enter, run);
    OneMoreStep(stopped, workers, sellerConcurrency, Start, [Enter] + run);
    OneMoreStep(START, workers, sellerConcurrency, Stop, [Start] + ([Enter] + run));
    run := [Stop] + ([Start] + ([Enter] + run));
  }

  /** What waits in the queue and what is being worked on are admitted operations, in every state. */
  lemma PoolHoldsAdmittedOnly(workers: int, sellerConcurrency: int, run: seq<Step>)
    requires IsRun(START, workers, sellerConcurrency, run)
    ensures var s := End(START, workers, sellerConcurrency, run);
            OnlyRunning(s.pool, Running(s.trace)) && (s.pool.queue == [] || |s.pool.queue| <= workers)
  {
    StartInv(workers, sellerConcurrency);
    RunKeepsInv(START, workers, sellerConcurrency, run);
    var s := End(START, workers, sellerConcurrency, run);
    hide IsRun, End;
    InvIsOnlyRunning(s, workers, sellerConcurrency);
    RunningFitsWorkers(s.trace, workers, sellerConcurrency);
    forall key
      ensures InQueue(s.pool.queue, key) <= One(key in Running(s.trace))
    {
      assert InPool(s.pool, key) <= One(key in Running(s.trace));
    }
    QueueIsShort(s.pool.queue, Running(s.trace));
  }

  // ---- what is queued is run

  /** Threads and queue keep to their sizes, and nothing is queued while a thread may still be started. */
  predicate PoolOk(pool: Pool, workers: int) {
    && |pool.threads| <= Max(workers, 0) && |pool.queue| <= Max(workers, 0)
    && (pool.queue != [] ==> |pool.threads| == workers)
  }

  lemma ExecuteKeepsPool(pool: Pool, workers: int, key: OrderKey)
    requires PoolOk(pool, workers)
    ensures PoolOk(Executed(pool, workers, key).0, workers)
  {
  }

  lemma StepKeepsPool(s: State, workers: int, sellerConcurrency: int, step: Step)
    requires CanStep(s, workers, sellerConcurrency, step) && PoolOk(s.pool, workers)
    ensures PoolOk(After(s, workers, sellerConcurrency, step).pool, workers)
  {
    hide Lawful, LastTime, Executed;
    if step.Submit? {
      ExecuteKeepsPool(s.pool, workers, step.key);
    }
  }

  lemma {:induction false} RunKeepsPool(s: State, workers: int, sellerConcurrency: int, run: seq<Step>)
    requires IsRun(s, workers, sellerConcurrency, run) && PoolOk(s.pool, workers)
    ensures PoolOk(End(s, workers, sellerConcurrency, run).pool, workers)
    decreases |run|
  {
    hide CanStep, After, PoolOk;
    if run != [] {
      StepKeepsPool(s, workers, sellerConcurrency, run[0]);
      RunKeepsPool(After(s, workers, sellerConcurrency, run[0]), workers, sellerConcurrency, run[1..]);
    }
  }

  lemma IdleBegins(s: State, workers: int, sellerConcurrency: int, i: nat) returns (run: seq<Step>)
    requires i < |s.pool.threads| && s.pool.threads[i] == Idle && s.pool.queue != []
    ensures IsRun(s, workers, sellerConcurrency, run)
    ensures var t := End(s, workers, sellerConcurrency, run);
            && t.pool.queue == s.pool.queue[1..] && i < |t.pool.threads|
            && t.pool.threads[i] == Busy(s.pool.queue[0], false)
  {
    hide Lawful, LastTime, Executed;
    run := [Begin(i)];
    assert run[1..] == [];
  }

  lemma ThreadBegins(s: State, workers: int, sellerConcurrency: int, i: nat) returns (run: seq<Step>)
    requires i < |s.pool.threads| && s.pool.queue != []
    ensures IsRun(s, workers, sellerConcurrency, run)
    ensures var t := End(s, workers, sellerConcurrency, run);
            && t.pool.queue == s.pool.queue[1..] && i < |t.pool.threads|
            && t.pool.threads[i] == Busy(s.pool.queue[0], false)
    decreases match s.pool.threads[i] case Idle => 0 case Busy(_, released) => if released then 1 else 2
  {
    match s.pool.threads[i]
    case Idle => run := IdleBegins(s, workers, sellerConcurrency, i);
    case Busy(_, released) =>
      var step := if released then Free(i) else Finish(i, LastTime(s.trace));
      var next := After(s, workers, sellerConcurrency, step);
      hide IsRun, End, Lawful, LastTime, Executed;
      var rest := ThreadBegins(next, workers, sellerConcurrency, i);
      OneMoreStep(s, workers, sellerConcurrency, step, rest);
      run := [step] + rest;
  }

  /**
   * In every run the pool keeps to its threads and places; whenever a task is queued there are as many threads as
   * workers, and each of them can come to take it, the task it may still have in hand being done and released.
   */
  lemma QueueMovesOn(workers: int, sellerConcurrency: int, past: seq<Step>, i: nat) returns (run: seq<Step>)
    requires IsRun(START, workers, sellerConcurrency, past)
    requires End(START, workers, sellerConcurrency, past).pool.queue != [] && i < workers
    ensures var s := End(START, workers, sellerConcurrency, past);
            && |s.pool.threads| == workers && |s.pool.queue| <= workers
            && IsRun(s, workers, sellerConcurrency, run)
            && var t := End(s, workers, sellerConcurrency, run);
               t.pool.queue == s.pool.queue[1..] && i < |t.pool.threads|
               && t.pool.threads[i] == Busy(s.pool.queue[0], false)
  {
    RunKeepsPool(START, workers, sellerConcurrency, past);
    var s := End(START, workers, sellerConcurrency, past);
    run := ThreadBegins(s, workers, sellerConcurrency, i);
  }
}
