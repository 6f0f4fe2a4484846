/** The thread pool as a protocol: a bounded FIFO queue, one mutex, one condition
    variable.  A step is one critical section, or one task running to its end.

    A signal moves one blocked worker to `Woken`; POSIX.1-2017 lets it unblock
    more than one and lets a wait return unprompted, which is the step `Spurious`. */
module PoolProtocol {
  import opened Bags

  datatype Worker<T> =
    | Top                   // about to take the lock at the top of its loop
    | Blocked               // inside pthread_cond_wait, not signalled
    | Woken                 // signalled, has not retaken the lock
    | Busy(task: T)
    | Exited

  datatype Phase = Running | Immediate | Graceful

  datatype State<T> = State(size: nat, queue: seq<T>, phase: Phase, started: int, workers: seq<Worker<T>>,
                            accepted: seq<T>, dispatched: seq<T>, finished: seq<T>)

  datatype Event<T> = Add(task: T, woken: nat) | Lock(i: nat) | Finish(i: nat) | Spurious(i: nat)
    | Destroy(graceful: bool)

  function Init<T>(size: nat, workers: nat): State<T> {
    State(size, [], Running, workers, seq(workers, _ => Top), [], [], [])
  }

  predicate AnyBlocked<T>(ws: seq<Worker<T>>) {
    exists i :: 0 <= i < |ws| && ws[i].Blocked?
  }

  predicate Sleeps<T>(ws: seq<Worker<T>>, i: nat) {
    i < |ws| && ws[i].Blocked?
  }

  /** The worker may take the lock. */
  predicate CanLock<T>(ws: seq<Worker<T>>, i: nat) {
    i < |ws| && (ws[i].Top? || ws[i].Woken?)
  }

  ghost predicate Enabled<T>(s: State<T>, e: Event<T>) {
    match e
    case Add(_, woken) =>
      |s.queue| < s.size && s.phase.Running? && (AnyBlocked(s.workers) ==> Sleeps(s.workers, woken))
    case Lock(i) => CanLock(s.workers, i)
    case Finish(i) => i < |s.workers| && s.workers[i].Busy?
    case Spurious(i) => Sleeps(s.workers, i)
    case Destroy(_) => s.phase.Running?
  }

  function Signalled<T>(ws: seq<Worker<T>>, woken: nat): seq<Worker<T>> {
    if Sleeps(ws, woken) then ws[woken := Woken] else ws
  }

  function Broadcast<T>(ws: seq<Worker<T>>): (r: seq<Worker<T>>)
    ensures |r| == |ws| && forall i :: 0 <= i < |ws| ==> r[i] == if ws[i].Blocked? then Woken else ws[i]
  {
    seq(|ws|, i requires 0 <= i < |ws| => if ws[i].Blocked? then Woken else ws[i])
  }

  function Added<T>(s: State<T>, task: T, woken: nat): State<T> {
    s.(queue := s.queue + [task], accepted := s.accepted + [task], workers := Signalled(s.workers, woken))
  }

  /** One pass of a worker through its critical section. */
  function Locked<T>(s: State<T>, i: nat): State<T>
    requires CanLock(s.workers, i)
  {
    if s.queue == [] && s.phase.Running? then s.(workers := s.workers[i := Blocked])
    else if s.phase.Immediate? || (s.phase.Graceful? && s.queue == []) then
      s.(workers := s.workers[i := Exited], started := s.started - 1)
    else
      s.(workers := s.workers[i := Busy(s.queue[0])], queue := s.queue[1..], dispatched := s.dispatched + [s.queue[0]])
  }

  function Finished<T>(s: State<T>, i: nat): State<T>
    requires i < |s.workers| && s.workers[i].Busy?
  {
    s.(workers := s.workers[i := Top], finished := s.finished + [s.workers[i].task])
  }

  function Destroyed<T>(s: State<T>, graceful: bool): State<T> {
    s.(phase := if graceful then Graceful else Immediate, workers := Broadcast(s.workers))
  }

  ghost function Apply<T>(s: State<T>, e: Event<T>): State<T>
    requires Enabled(s, e)
  {
    match e
    case Add(task, woken) => Added(s, task, woken)
    case Lock(i) => Locked(s, i)
    case Finish(i) => Finished(s, i)
    case Spurious(i) => s.(workers := s.workers[i := Woken])
    case Destroy(graceful) => Destroyed(s, graceful)
  }

  ghost predicate Legal<T>(s: State<T>, events: seq<Event<T>>)
    decreases |events|
  {
    events == [] || (Enabled(s, events[0]) && Legal(Apply(s, events[0]), events[1..]))
  }

  ghost function After<T>(s: State<T>, events: seq<Event<T>>): State<T>
    requires Legal(s, events)
    decreases |events|
  {
    if events == [] then s else After(Apply(s, events[0]), events[1..])
  }

  // ------------------------------------------------------------ counting workers

  function Tally<T>(ws: seq<Worker<T>>, f: Worker<T> -> nat): nat {
    if ws == [] then 0 else Tally(ws[..|ws| - 1], f) + f(ws[|ws| - 1])
  }

  function IsWoken<T>(w: Worker<T>): nat { if w.Woken? then 1 else 0 }

  function IsLive<T>(w: Worker<T>): nat { if w.Exited? then 0 else 1 }

  /** Steps a worker still has to make before it exits, apart from queued tasks. */
  function Effort<T>(w: Worker<T>): nat { if w.Exited? then 0 else if w.Busy? then 2 else 1 }

  /** The tasks being run. */
  function Tasks<T>(ws: seq<Worker<T>>): multiset<T> {
    if ws == [] then multiset{} else Tasks(ws[..|ws| - 1]) + TaskOf(ws[|ws| - 1])
  }

  function TaskOf<T>(w: Worker<T>): multiset<T> {
    if w.Busy? then multiset{w.task} else multiset{}
  }

  lemma {:induction false} TallyUpdate<T>(ws: seq<Worker<T>>, i: nat, w: Worker<T>, f: Worker<T> -> nat)
    requires i < |ws|
    ensures Tally(ws[i := w], f) + f(ws[i]) == Tally(ws, f) + f(w)
  {
    var n := |ws| - 1;
    if i == n {
      assert ws[i := w][..n] == ws[..n];
    } else {
      TallyUpdate(ws[..n], i, w, f);
      assert ws[i := w][..n] == ws[..n][i := w];
    }
  }

  lemma {:induction false} TallyBroadcast<T>(ws: seq<Worker<T>>, f: Worker<T> -> nat)
    requires f(Blocked) == f(Woken)
    ensures Tally(Broadcast(ws), f) == Tally(ws, f)
  {
    if ws != [] {
      var n := |ws| - 1;
      TallyBroadcast(ws[..n], f);
      assert Broadcast(ws)[..n] == Broadcast(ws[..n]);
    }
  }

  lemma {:induction false} TallyZero<T>(ws: seq<Worker<T>>, f: Worker<T> -> nat)
    ensures Tally(ws, f) == 0 <==> forall i :: 0 <= i < |ws| ==> f(ws[i]) == 0
  {
    if ws != [] {
      var n := |ws| - 1;
      TallyZero(ws[..n], f);
      assert forall i :: 0 <= i < n ==> ws[..n][i] == ws[i];
      if forall i :: 0 <= i < n ==> f(ws[..n][i]) == 0 {
        assert f(ws[n]) == 0 ==> forall i :: 0 <= i < |ws| ==> f(ws[i]) == 0;
      }
    }
  }

  lemma {:induction false} TasksUpdate<T>(ws: seq<Worker<T>>, i: nat, w: Worker<T>)
    requires i < |ws|
    ensures Tasks(ws[i := w]) + TaskOf(ws[i]) == Tasks(ws) + TaskOf(w)
  {
    hide Tasks, TaskOf;
    var n := |ws| - 1;
    var front, last := ws[..n], ws[n];
    assert ws == front + [last];
    TasksSnoc(front, last);
    if i == n {
      assert ws[i := w] == front + [w];
      TasksSnoc(front, w);
      SwapLast(Tasks(front), TaskOf(w), TaskOf(last));
    } else {
      TasksUpdate(front, i, w);
      assert ws[i := w] == front[i := w] + [last] && front[i] == ws[i];
      TasksSnoc(front[i := w], last);
      AddToBoth(Tasks(front[i := w]), TaskOf(ws[i]), Tasks(front), TaskOf(w), TaskOf(last));
    }
  }

  lemma TasksSnoc<T>(ws: seq<Worker<T>>, w: Worker<T>)
    ensures Tasks(ws + [w]) == Tasks(ws) + TaskOf(w)
  {
  }

  /** A worker that takes up, ends or keeps out of a task. */
  lemma TasksStep<T>(ws: seq<Worker<T>>, i: nat, w: Worker<T>)
    requires i < |ws| && (ws[i].Busy? ==> !w.Busy?)
    ensures Tasks(ws[i := w]) + TaskOf(ws[i]) == Tasks(ws) + TaskOf(w)
    ensures !ws[i].Busy? ==> Tasks(ws[i := w]) == Tasks(ws) + TaskOf(w)
    ensures ws[i].Busy? ==> Tasks(ws) == Tasks(ws[i := w]) + multiset{ws[i].task}
    ensures !ws[i].Busy? && !w.Busy? ==> Tasks(ws[i := w]) == Tasks(ws)
  {
    TasksUpdate(ws, i, w);
    hide Tasks;
    assert Tasks(ws) + multiset{} == Tasks(ws) && Tasks(ws[i := w]) + multiset{} == Tasks(ws[i := w]);
  }

  lemma {:induction false} TasksBroadcast<T>(ws: seq<Worker<T>>)
    ensures Tasks(Broadcast(ws)) == Tasks(ws)
  {
    if ws != [] {
      var n := |ws| - 1;
      TasksBroadcast(ws[..n]);
      assert Broadcast(ws)[..n] == Broadcast(ws[..n]);
    }
  }

  // ------------------------------------------------------------------ invariant

  /** A blocked worker is never needed: the signalled ones suffice for the queued tasks. */
  ghost predicate NoneOverlooked<T>(s: State<T>) {
    AnyBlocked(s.workers) ==> s.phase.Running? && |s.queue| <= Tally(s.workers, IsWoken)
  }

  ghost predicate Inv<T>(s: State<T>) {
    && |s.queue| <= s.size
    && s.dispatched + s.queue == s.accepted
    && multiset(s.dispatched) == Tasks(s.workers) + multiset(s.finished)
    && s.started == Tally(s.workers, IsLive)
    && NoneOverlooked(s)
    && forall i :: 0 <= i < |s.workers| && s.workers[i].Exited? ==>
         !s.phase.Running? && (s.phase.Graceful? ==> s.queue == [])
  }

  lemma {:induction false} InitInv<T>(size: nat, workers: nat)
    ensures Inv(Init<T>(size, workers))
  {
    InitTally<T>(workers);
  }

  lemma {:induction false} InitTally<T>(n: nat)
    ensures var ws := seq(n, _ => Worker<T>.Top);
            Tally(ws, IsLive) == n && Tasks(ws) == multiset{}
  {
    if n > 0 {
      InitTally<T>(n - 1);
      assert seq(n, _ => Worker<T>.Top)[..n - 1] == seq(n - 1, _ => Worker<T>.Top);
    }
  }

  lemma AddKeeps<T>(s: State<T>, task: T, woken: nat)
    requires Inv(s) && Enabled(s, Add(task, woken))
    ensures Inv(Added(s, task, woken))
  {
    hide Tally, Tasks;
    var t := Added(s, task, woken);
    assert t.dispatched + t.queue == (s.dispatched + s.queue) + [task];
    if Sleeps(s.workers, woken) {
      TallyUpdate(s.workers, woken, Woken, IsWoken);
      TallyUpdate(s.workers, woken, Woken, IsLive);
      TasksStep(s.workers, woken, Woken);
    }
  }

  lemma LockKeeps<T>(s: State<T>, i: nat)
    requires Inv(s) && CanLock(s.workers, i)
    ensures Inv(Locked(s, i))
  {
    hide Tally, Tasks;
    var t := Locked(s, i);
    TallyUpdate(s.workers, i, t.workers[i], IsWoken);
    TallyUpdate(s.workers, i, t.workers[i], IsLive);
    TasksStep(s.workers, i, t.workers[i]);
    if t.workers[i].Busy? {
      var x := s.queue[0];
      TakeUp(s.dispatched, s.finished, Tasks(s.workers), x);
      assert s.queue == [x] + t.queue;
      assert t.dispatched + t.queue == s.dispatched + s.queue;
    }
  }

  lemma TakeUp<T>(dispatched: seq<T>, finished: seq<T>, tasks: multiset<T>, x: T)
    requires multiset(dispatched) == tasks + multiset(finished)
    ensures multiset(dispatched + [x]) == (tasks + multiset{x}) + multiset(finished)
  {
  }

  lemma FinishKeeps<T>(s: State<T>, i: nat)
    requires Inv(s) && i < |s.workers| && s.workers[i].Busy?
    ensures Inv(Finished(s, i))
  {
    hide Tally, Tasks;
    var t, x := Finished(s, i), s.workers[i].task;
    TallyUpdate(s.workers, i, Top, IsWoken);
    TallyUpdate(s.workers, i, Top, IsLive);
    TasksStep(s.workers, i, Top);
    assert multiset(t.finished) == multiset(s.finished) + multiset{x};
    assert (Tasks(t.workers) + multiset{x}) + multiset(s.finished) == Tasks(t.workers) + multiset(t.finished);
  }

  lemma SpuriousKeeps<T>(s: State<T>, i: nat)
    requires Inv(s) && Sleeps(s.workers, i)
    ensures Inv(s.(workers := s.workers[i := Woken]))
  {
    hide Tally, Tasks;
    TallyUpdate(s.workers, i, Woken, IsWoken);
    TallyUpdate(s.workers, i, Woken, IsLive);
    TasksStep(s.workers, i, Woken);
  }

  lemma DestroyKeeps<T>(s: State<T>, graceful: bool)
    requires Inv(s) && s.phase.Running?
    ensures Inv(Destroyed(s, graceful))
  {
    hide Tally, Tasks;
    TallyBroadcast(s.workers, IsLive);
    TasksBroadcast(s.workers);
  }

  lemma StepKeeps<T>(s: State<T>, e: Event<T>)
    requires Inv(s) && Enabled(s, e)
    ensures Inv(Apply(s, e))
  {
    match e
    case Add(task, woken) => AddKeeps(s, task, woken);
    case Lock(i) => LockKeeps(s, i);
    case Finish(i) => FinishKeeps(s, i);
    case Spurious(i) => SpuriousKeeps(s, i);
    case Destroy(graceful) => DestroyKeeps(s, graceful);
  }

  lemma {:induction false} RunKeeps<T>(s: State<T>, events: seq<Event<T>>)
    requires Inv(s) && Legal(s, events)
    ensures Inv(After(s, events))
    decreases |events|
  {
    hide Inv;
    if events != [] {
      StepKeeps(s, events[0]);
      RunKeeps(Apply(s, events[0]), events[1..]);
    }
  }

  // ------------------------------------------------------------------- theorems

  /** No wakeup is lost: while tasks are queued, some worker is on its way to look at the queue. */
  lemma NoLostWakeup<T>(size: nat, workers: nat, events: seq<Event<T>>)
    requires Legal(Init<T>(size, workers), events)
    ensures var s := After(Init(size, workers), events);
      && NoneOverlooked(s)
      && (s.queue != [] && s.phase.Running? && s.workers != [] ==>
            exists i :: 0 <= i < |s.workers| && (CanLock(s.workers, i) || s.workers[i].Busy?))
  {
    hide Tally, Tasks;
    InitInv<T>(size, workers);
    RunKeeps(Init(size, workers), events);
    var s := After(Init(size, workers), events);
    TallyZero(s.workers, IsWoken);
    if s.queue != [] && s.phase.Running? && s.workers != [] {
      if AnyBlocked(s.workers) {
        var i :| 0 <= i < |s.workers| && IsWoken(s.workers[i]) != 0;
        assert CanLock(s.workers, i);
      } else {
        assert CanLock(s.workers, 0) || s.workers[0].Busy?;
      }
    }
  }

  /** Tasks are dispatched in the order they were accepted, whatever workers and wakeups do. */
  lemma Fifo<T>(size: nat, workers: nat, events: seq<Event<T>>)
    requires Legal(Init<T>(size, workers), events)
    ensures var s := After(Init(size, workers), events);
      && s.dispatched + s.queue == s.accepted && |s.queue| <= s.size
      && multiset(s.dispatched) == Tasks(s.workers) + multiset(s.finished)
  {
    InitInv<T>(size, workers);
    RunKeeps(Init(size, workers), events);
  }

  /** Steps left once the pool is shutting down. */
  function Remaining<T>(s: State<T>): nat {
    2 * |s.queue| + Tally(s.workers, Effort)
  }

  lemma ShutdownProgress<T>(s: State<T>, e: Event<T>)
    requires Inv(s) && !s.phase.Running? && Enabled(s, e)
    ensures Remaining(Apply(s, e)) < Remaining(s) && Apply(s, e).phase == s.phase
    ensures Apply(s, e).accepted == s.accepted
  {
    hide Tally, Tasks;
    match e
    case Lock(i) => TallyUpdate(s.workers, i, Locked(s, i).workers[i], Effort);
    case Finish(i) => TallyUpdate(s.workers, i, Top, Effort);
    case _ =>
  }

  /** After shutdown every run is finite: it has at most `Remaining` steps. */
  lemma {:induction false} ShutdownEnds<T>(s: State<T>, events: seq<Event<T>>)
    requires Inv(s) && !s.phase.Running? && Legal(s, events)
    ensures |events| <= Remaining(s)
    ensures After(s, events).phase == s.phase && After(s, events).accepted == s.accepted
    decreases |events|
  {
    hide Inv, Remaining;
    if events != [] {
      ShutdownProgress(s, events[0]);
      StepKeeps(s, events[0]);
      ShutdownEnds(Apply(s, events[0]), events[1..]);
    }
  }

  ghost predicate Stopped<T>(s: State<T>) {
    forall i :: 0 <= i < |s.workers| ==> s.workers[i].Exited?
  }

  /** It can only end with every worker gone, so that all joins return. */
  lemma StuckMeansStopped<T>(s: State<T>)
    requires Inv(s) && !s.phase.Running?
    ensures Stopped(s) <==> forall e :: !Enabled(s, e)
    ensures Stopped(s) <==> s.started == 0
  {
    TallyZero(s.workers, IsLive);
    if forall e :: !Enabled(s, e) {
      forall i | 0 <= i < |s.workers|
        ensures s.workers[i].Exited?
      {
        assert !Enabled(s, Lock(i)) && !Enabled(s, Finish(i));
      }
    }
    if Stopped(s) {
      forall e
        ensures !Enabled(s, e)
      {
      }
    }
  }

  /** When the last worker has gone after a graceful shutdown, every accepted task was run exactly once;
      after an immediate one, exactly those that had been dispatched. */
  lemma StoppedMeansDone<T>(s: State<T>)
    requires Inv(s) && Stopped(s)
    ensures s.started == 0 && multiset(s.finished) == multiset(s.dispatched)
    ensures s.phase.Graceful? && s.workers != [] ==> s.queue == [] && multiset(s.finished) == multiset(s.accepted)
  {
    TallyZero(s.workers, IsLive);
    NoTasks(s.workers);
    if s.phase.Graceful? && s.workers != [] {
      assert s.workers[0].Exited?;
      assert s.dispatched == s.accepted;
    }
  }

  lemma {:induction false} NoTasks<T>(ws: seq<Worker<T>>)
    requires forall i :: 0 <= i < |ws| ==> ws[i].Exited?
    ensures Tasks(ws) == multiset{}
  {
    if ws != [] {
      NoTasks(ws[..|ws| - 1]);
    }
  }

  /** A graceful shutdown from any reachable state: each run ends, and a run that cannot go on has run
      every accepted task exactly once. */
  lemma GracefulDrain<T>(size: nat, workers: nat, events: seq<Event<T>>, tail: seq<Event<T>>)
    requires workers > 0 && Legal(Init<T>(size, workers), events)
    requires var s := After(Init<T>(size, workers), events); s.phase.Graceful? && Legal(s, tail)
    ensures var s := After(Init<T>(size, workers), events);
      && |tail| <= Remaining(s)
      && var t := After(s, tail);
         (forall e :: !Enabled(t, e)) ==>
           && t.started == 0 && t.queue == []
           && t.accepted == s.accepted && multiset(t.finished) == multiset(s.accepted)
  {
    var s := After(Init<T>(size, workers), events);
    InitInv<T>(size, workers);
    RunKeeps(Init<T>(size, workers), events);
    WorkersStay(Init<T>(size, workers), events);
    RunKeeps(s, tail);
    WorkersStay(s, tail);
    ShutdownEnds(s, tail);
    StuckMeansStopped(After(s, tail));
    if Stopped(After(s, tail)) {
      StoppedMeansDone(After(s, tail));
    }
  }

  /** An immediate shutdown from any reachable state: whatever happens then, no further task is begun; each run ends,
      and a run that cannot go on has run exactly what had been begun and leaves the rest in the queue. */
  lemma ImmediateDrops<T>(size: nat, workers: nat, events: seq<Event<T>>, tail: seq<Event<T>>)
    requires workers > 0 && Legal(Init<T>(size, workers), events)
    requires var s := After(Init<T>(size, workers), events); s.phase.Immediate? && Legal(s, tail)
    ensures var s := After(Init<T>(size, workers), events);
      && |tail| <= Remaining(s)
      && var t := After(s, tail);
         && t.dispatched == s.dispatched && t.queue == s.queue && t.accepted == s.accepted
         && ((forall e :: !Enabled(t, e)) ==>
               t.started == 0 && multiset(t.finished) + multiset(s.queue) == multiset(s.accepted))
  {
    var s := After(Init<T>(size, workers), events);
    InitInv<T>(size, workers);
    RunKeeps(Init<T>(size, workers), events);
    RunKeeps(s, tail);
    ShutdownEnds(s, tail);
    NothingBegins(s, tail);
    var t := After(s, tail);
    StuckMeansStopped(t);
    if Stopped(t) {
      StoppedMeansDone(t);
      assert t.accepted == t.dispatched + t.queue;
    }
  }

  lemma {:induction false} NothingBegins<T>(s: State<T>, tail: seq<Event<T>>)
    requires s.phase.Immediate? && Legal(s, tail)
    ensures var t := After(s, tail); t.dispatched == s.dispatched && t.queue == s.queue && t.phase.Immediate?
    decreases |tail|
  {
    if tail != [] {
      NothingBegins(Apply(s, tail[0]), tail[1..]);
    }
  }

  lemma {:induction false} WorkersStay<T>(s: State<T>, events: seq<Event<T>>)
    requires Legal(s, events)
    ensures |After(s, events).workers| == |s.workers|
    decreases |events|
  {
    if events != [] {
      WorkersStay(Apply(s, events[0]), events[1..]);
    }
  }
}
