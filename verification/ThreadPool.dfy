/** The thread pool: a circular queue in an array, changed under one mutex.

    A method is one critical section of the C code, or one move of a worker
    outside it; the ghost field `s` is the protocol state it implements. */
module ThreadPool {
  import opened PoolProtocol

  type Task = nat    // address of the Operation handed to the worker function

  const MAX_THREADS := 128
  const MAX_QUEUE := 65536

  datatype AddResult = AddOk | QueueFull | ShuttingDown

  datatype DestroyResult = DestroyOk | AlreadyShutDown

  /** Index of the `k`th queued task. */
  function Place(head: nat, k: nat, size: nat): nat {
    if head + k < size then head + k else head + k - size
  }

  /** The `count` tasks from `head` on, wrapping round, are `tasks`. */
  ghost predicate Holds(ring: seq<Task>, head: nat, tail: nat, tasks: seq<Task>) {
    && head < |ring| && |tasks| <= |ring| && tail == Place(head, |tasks|, |ring|) < |ring|
    && forall k :: 0 <= k < |tasks| ==> ring[Place(head, k, |ring|)] == tasks[k]
  }

  /** After an immediate shutdown no further task is begun. */
  ghost predicate NoneBegun(was: State<Task>, now: State<Task>) {
    was.phase.Immediate? ==> now.queue == was.queue && now.dispatched == was.dispatched
  }

  lemma NextIndex(x: nat, n: nat)
    requires x < n
    ensures (x + 1) % n == if x + 1 == n then 0 else x + 1
  {
  }

  lemma TakeFirst(ring: seq<Task>, head: nat, tail: nat, tasks: seq<Task>)
    requires Holds(ring, head, tail, tasks) && tasks != []
    ensures ring[head] == tasks[0] && Holds(ring, (head + 1) % |ring|, tail, tasks[1..])
  {
    NextIndex(head, |ring|);
    assert ring[Place(head, 0, |ring|)] == tasks[0];
    forall k | 0 <= k < |tasks[1..]|
      ensures ring[Place((head + 1) % |ring|, k, |ring|)] == tasks[1..][k]
    {
      assert ring[Place(head, k + 1, |ring|)] == tasks[k + 1];
    }
  }

  class Pool {
    const queue: array<Task>
    var head: nat
    var tail: nat
    var count: nat
    var shutdown: Phase
    var started: int
    var workers: seq<Worker<Task>>    // the threads, and where each of them is
    var freed: bool
    ghost var s: State<Task>

    ghost predicate Valid()
      reads this, queue
    {
      && Inv(s)
      && workers != [] && queue.Length == s.size && Holds(queue[..], head, tail, s.queue)
      && count == |s.queue| && shutdown == s.phase && started == s.started && workers == s.workers
    }

    constructor (threadCount: nat, queueSize: nat)
      requires 0 < threadCount <= MAX_THREADS && 0 < queueSize <= MAX_QUEUE
      ensures Valid() && s == Init(queueSize, threadCount) && !freed && fresh(queue)
    {
      queue := new Task[queueSize](_ => 0);
      head, tail, count, shutdown, started, freed := 0, 0, 0, Running, threadCount, false;
      workers := seq(threadCount, _ => Top);
      s := Init(queueSize, threadCount);
      InitInv<Task>(queueSize, threadCount);
    }

    /** `threadpool_add`: a full queue is reported before a shutdown. */
    method Add(task: Task) returns (r: AddResult, ghost woken: nat)
      requires Valid() && !freed
      modifies this`tail, this`count, this`workers, this`s, queue
      ensures Valid()
      ensures r == if |old(s).queue| == old(s).size then QueueFull
                   else if !old(s).phase.Running? then ShuttingDown else AddOk
      ensures r.AddOk? ==> Enabled(old(s), PoolProtocol.Add(task, woken)) && s == Added(old(s), task, woken)
      ensures !r.AddOk? ==> s == old(s)
    {
      hide Tally, Tasks;
      woken := 0;
      NextIndex(tail, queue.Length);
      var next := (tail + 1) % queue.Length;
      if count == queue.Length {
        return QueueFull, woken;
      }
      if !shutdown.Running? {
        return ShuttingDown, woken;
      }
      ghost var ring := queue[..];
      queue[tail] := task;
      assert Holds(queue[..], head, next, s.queue + [task]);
      tail := next;
      count := count + 1;
      var i := NotifyOne();
      woken := i;
      AddKeeps(s, task, woken);
      s := Added(s, task, woken);
      r := AddOk;
    }

    /** `pthread_cond_signal`: some blocked worker, if there is one, is unblocked. */
    method NotifyOne() returns (i: nat)
      requires workers == s.workers
      modifies this`workers
      ensures workers == Signalled(old(workers), i) && (AnyBlocked(old(workers)) ==> Sleeps(old(workers), i))
    {
      i := 0;
      if w: nat :| w < |workers| && workers[w].Blocked? {
        i := w;
        workers := workers[i := Woken];
      }
    }

    /** One pass of worker `i` through its critical section. */
    method TakeLock(i: nat)
      requires Valid() && CanLock(workers, i)
      modifies this`head, this`count, this`started, this`workers, this`s
      ensures Valid() && s == Locked(old(s), i)
    {
      hide Inv, Holds;
      LockKeeps(s, i);
      HeadIsInside();
      if count == 0 && shutdown.Running? {
        workers := workers[i := Blocked];
      } else if shutdown.Immediate? || (shutdown.Graceful? && count == 0) {
        started := started - 1;
        workers := workers[i := Exited];
      } else {
        TakeFirst(queue[..], head, tail, s.queue);
        var task := queue[head];
        head := (head + 1) % queue.Length;
        count := count - 1;
        workers := workers[i := Busy(task)];
      }
      s := Locked(s, i);
    }

    lemma HeadIsInside()
      requires Valid()
      ensures head < queue.Length
    {
    }

    /** Worker `i` returns from the task function. */
    method FinishTask(i: nat)
      requires Valid() && i < |workers| && workers[i].Busy?
      modifies this`workers, this`s
      ensures Valid() && s == Finished(old(s), i)
    {
      hide Tally, Tasks;
      FinishKeeps(s, i);
      workers := workers[i := Top];
      s := Finished(s, i);
    }

    /** A wait that returns without a signal. */
    method WakeUnprompted(i: nat)
      requires Valid() && Sleeps(workers, i)
      modifies this`workers, this`s
      ensures Valid() && s == old(s).(workers := old(s).workers[i := Woken])
    {
      hide Tally, Tasks;
      SpuriousKeeps(s, i);
      workers := workers[i := Woken];
      s := s.(workers := s.workers[i := Woken]);
    }

    /** The critical section of `threadpool_destroy`: set the flag and wake everybody. */
    method ShutDown(graceful: bool)
      requires Valid() && shutdown.Running?
      modifies this`shutdown, this`workers, this`s
      ensures Valid() && s == Destroyed(old(s), graceful)
    {
      hide Inv, Holds;
      shutdown := if graceful then Graceful else Immediate;
      workers := Broadcast(workers);
      DestroyKeeps(s, graceful);
      s := Destroyed(s, graceful);
    }

    /** `threadpool_destroy`: shut down, wake everybody, join every thread, free. */
    method Destroy(graceful: bool) returns (r: DestroyResult)
      requires Valid() && !freed
      modifies this
      ensures Valid()
      ensures r.AlreadyShutDown? <==> !old(s).phase.Running?
      ensures r.AlreadyShutDown? ==> s == old(s) && !freed
      ensures r.DestroyOk? ==>
        && freed && Stopped(s) && s.started == 0 && s.accepted == old(s).accepted
        && multiset(s.finished) == multiset(s.dispatched)
        && s.phase == (if graceful then Graceful else Immediate)
        && (graceful ==> s.queue == [] && count == 0 && multiset(s.finished) == multiset(old(s).accepted))
        && (!graceful ==> s.queue == old(s).queue && multiset(s.finished) == multiset(old(s).dispatched))
    {
      hide Inv, Tally, Tasks, Holds;
      if !shutdown.Running? {
        return AlreadyShutDown;
      }
      ShutDown(graceful);
      JoinAll();
      StoppedMeansDone(s);
      Free();
      r := DestroyOk;
    }

    /** The join loop; while it waits, the workers go on in any order. */
    method JoinAll()
      requires Valid() && !s.phase.Running?
      modifies this`head, this`count, this`started, this`workers, this`s
      ensures Valid() && Stopped(s) && s.accepted == old(s).accepted && s.phase == old(s).phase
      ensures |s.workers| == |old(s).workers| && NoneBegun(old(s), s)
    {
      hide Inv, Holds, Remaining;
      var i := 0;
      while i < |workers|
        invariant Valid() && s.accepted == old(s).accepted && s.phase == old(s).phase
        invariant i <= |workers| == |old(s).workers| && NoneBegun(old(s), s)
        invariant forall j :: 0 <= j < i ==> workers[j].Exited?
      {
        while !workers[i].Exited?
          invariant Valid() && s.accepted == old(s).accepted && s.phase == old(s).phase
          invariant i < |workers| == |old(s).workers| && NoneBegun(old(s), s)
          invariant forall j :: 0 <= j < i ==> workers[j].Exited?
          decreases Remaining(s)
        {
          SomeWorkerMoves(i);
        }
        i := i + 1;
      }
    }

    /** Any worker that has not exited makes one move. */
    method SomeWorkerMoves(live: nat)
      requires Valid() && !s.phase.Running? && live < |workers| && !workers[live].Exited?
      modifies this`head, this`count, this`started, this`workers, this`s
      ensures Valid() && s.accepted == old(s).accepted && s.phase == old(s).phase
      ensures |workers| == |old(workers)| && Remaining(s) < Remaining(old(s)) && NoneBegun(old(s), s)
      ensures forall j :: 0 <= j < |workers| && old(workers)[j].Exited? ==> workers[j].Exited?
    {
      hide Tally, Tasks, Holds, Remaining;
      assert !AnyBlocked(s.workers);
      var i: nat :| i < |workers| && !workers[i].Exited?;
      if workers[i].Busy? {
        ShutdownProgress(s, Finish(i));
        FinishTask(i);
      } else {
        assert !Sleeps(workers, i);
        ShutdownProgress(s, Lock(i));
        TakeLock(i);
      }
    }

    /** `threadpool_free` refuses to free a pool with running threads. */
    method Free()
      requires Valid() && !freed && started == 0
      modifies this`freed
      ensures Valid() && freed
    {
      freed := true;
    }
  }
}
