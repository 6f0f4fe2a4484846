/** Submitting to, and closing, a Context that owns a thread pool, under any
    interleaving of Python threads, pool workers and their callbacks.

    `lock` is the interpreter lock in a build that has one (`gil`), and the
    Context's own critical section in a free-threaded build. */
module CloseProtocol {
  import opened Bags
  import Pool = PoolProtocol

  datatype Actor = Python(n: nat) | WorkerOf(i: nat)

  datatype Activity = Idle | Submitting | Swapped | Detached | Joining

  datatype Holder = Free | HeldBy(actor: Actor)

  datatype State<Op> = State(
    gil: bool,
    pool: Pool.State<Op>,
    pointer: bool,                  // `self->pool` is not NULL
    lock: Holder,
    doing: map<Actor, Activity>,
    claimed: set<Op>,
    done: set<Op>,
    called: seq<Op>,                // callbacks that returned, in order
    refs: int,                      // references Operations hold on the Context
    destroys: nat,
    joined: bool)                   // the close that swapped the pointer has joined every worker

  datatype Event<Op> =
    | Acquire(a: Actor)
    | Release(a: Actor)
    | BeginSubmit(a: Actor)
    | SubmitOne(a: Actor, op: Op, woken: nat)
    | EndSubmit(a: Actor)
    | Swap(a: Actor)
    | Detach(a: Actor)
    | Destroy(a: Actor)
    | JoinDone(a: Actor)
    | WorkerLock(i: nat)
    | WorkerSpurious(i: nat)
    | Publish(i: nat)
    | Finish(i: nat)
    | ClaimElsewhere(op: Op)
    | GiveBackElsewhere(op: Op)

  function Init<Op>(gil: bool, size: nat, workers: nat, claimed: set<Op>): State<Op> {
    State(gil, Pool.Init(size, workers), true, Free, map[], claimed, {}, [], 0, 0, false)
  }

  function Doing(doing: map<Actor, Activity>, a: Actor): Activity {
    if a in doing then doing[a] else Idle
  }

  function Set<Op>(s: State<Op>, a: Actor, activity: Activity): State<Op> {
    s.(doing := s.doing[a := activity])
  }

  predicate Works<Op>(s: State<Op>, i: nat) {
    i < |s.pool.workers| && s.pool.workers[i].Busy?
  }

  /** In a build with an interpreter lock, a worker needs it for everything that touches Python objects. */
  predicate MayTouch<Op>(s: State<Op>, i: nat) {
    Works(s, i) && (s.gil ==> s.lock == HeldBy(WorkerOf(i)))
  }

  ghost predicate Enabled<Op>(s: State<Op>, e: Event<Op>) {
    match e
    case Acquire(a) => s.lock.Free? && Doing(s.doing, a).Idle? && (a.WorkerOf? ==> Works(s, a.i))
    case Release(a) => s.lock == HeldBy(a) && Doing(s.doing, a).Idle?
    case BeginSubmit(a) => s.lock == HeldBy(a) && Doing(s.doing, a).Idle?
    case SubmitOne(a, _, woken) =>
      Doing(s.doing, a).Submitting? && (Pool.AnyBlocked(s.pool.workers) ==> Pool.Sleeps(s.pool.workers, woken))
    case EndSubmit(a) => Doing(s.doing, a).Submitting?
    case Swap(a) => s.lock == HeldBy(a) && Doing(s.doing, a).Idle? && a.Python?
    case Detach(a) => Doing(s.doing, a).Swapped?
    case Destroy(a) => Doing(s.doing, a).Detached?
    case JoinDone(a) => Doing(s.doing, a).Joining? && Pool.Stopped(s.pool)
    case WorkerLock(i) => Pool.CanLock(s.pool.workers, i)
    case WorkerSpurious(i) => Pool.Sleeps(s.pool.workers, i)
    case Publish(i) => MayTouch(s, i)
    case Finish(i) => MayTouch(s, i) && s.pool.workers[i].task in s.done && Doing(s.doing, WorkerOf(i)).Idle?
    case ClaimElsewhere(op) => op !in s.claimed
    case GiveBackElsewhere(op) => op in s.claimed && op !in s.pool.accepted
  }

  /** One turn of the submit loop; a refused task is rolled back and ends the loop. */
  ghost function OneSubmitted<Op>(s: State<Op>, a: Actor, op: Op, woken: nat): State<Op> {
    if op in s.claimed then s
    else if |s.pool.queue| == s.pool.size || !s.pool.phase.Running? then Set(s, a, Idle)
    else s.(claimed := s.claimed + {op}, refs := s.refs + 1, pool := Pool.Added(s.pool, op, woken))
  }

  ghost function WorkDone<Op>(s: State<Op>, i: nat): State<Op>
    requires Works(s, i)
  {
    s.(pool := Pool.Finished(s.pool, i), called := s.called + [s.pool.workers[i].task], refs := s.refs - 1,
       lock := if s.lock == HeldBy(WorkerOf(i)) then Free else s.lock)
  }

  ghost function Apply<Op>(s: State<Op>, e: Event<Op>): State<Op>
    requires Enabled(s, e)
  {
    match e
    case Acquire(a) => s.(lock := HeldBy(a))
    case Release(a) => s.(lock := Free)
    case BeginSubmit(a) => if s.pointer then Set(s, a, Submitting) else s
    case SubmitOne(a, op, woken) => OneSubmitted(s, a, op, woken)
    case EndSubmit(a) => Set(s, a, Idle)
    case Swap(a) => if s.pointer then Set(s.(pointer := false), a, Swapped) else s
    case Detach(a) => Set(s.(lock := Free), a, Detached)
    case Destroy(a) => Set(s.(pool := Pool.Destroyed(s.pool, true), destroys := s.destroys + 1), a, Joining)
    case JoinDone(a) => Set(s.(joined := true), a, Idle)
    case WorkerLock(i) => s.(pool := Pool.Locked(s.pool, i))
    case WorkerSpurious(i) => s.(pool := s.pool.(workers := s.pool.workers[i := Pool.Woken]))
    case Publish(i) => s.(done := s.done + {s.pool.workers[i].task})
    case Finish(i) => WorkDone(s, i)
    case ClaimElsewhere(op) => s.(claimed := s.claimed + {op})
    case GiveBackElsewhere(op) => s.(claimed := s.claimed - {op})
  }

  ghost predicate Legal<Op>(s: State<Op>, events: seq<Event<Op>>)
    decreases |events|
  {
    events == [] || (Enabled(s, events[0]) && Legal(Apply(s, events[0]), events[1..]))
  }

  ghost function After<Op>(s: State<Op>, events: seq<Event<Op>>): State<Op>
    requires Legal(s, events)
    decreases |events|
  {
    if events == [] then s else After(Apply(s, events[0]), events[1..])
  }

  // ------------------------------------------------------------------ invariant

  predicate Closing(activity: Activity) {
    activity.Swapped? || activity.Detached? || activity.Joining?
  }

  /** What an activity of `a` says about the lock, the pool pointer and the pool's phase. */
  predicate Fits(a: Actor, activity: Activity, lock: Holder, pointer: bool, phase: Pool.Phase) {
    match activity
    case Idle => true
    case Submitting => lock == HeldBy(a) && pointer
    case Swapped => lock == HeldBy(a) && !pointer && a.Python? && phase.Running?
    case Detached => lock != HeldBy(a) && !pointer && a.Python? && phase.Running?
    case Joining => lock != HeldBy(a) && !pointer && a.Python? && phase.Graceful?
  }

  /** Everybody is where the lock allows, and at most one actor is closing. */
  ghost predicate Placed(doing: map<Actor, Activity>, lock: Holder, pointer: bool, phase: Pool.Phase) {
    && (forall a :: Fits(a, Doing(doing, a), lock, pointer, phase))
    && (forall a, b :: Closing(Doing(doing, a)) && Closing(Doing(doing, b)) ==> a == b)
  }

  ghost predicate Orderly<Op>(s: State<Op>) {
    && Placed(s.doing, s.lock, s.pointer, s.pool.phase)
    && (s.pointer ==> s.pool.phase.Running?)
    && s.destroys == (if s.pool.phase.Running? then 0 else 1)
    && !s.pool.phase.Immediate?
    && (s.joined ==> Pool.Stopped(s.pool) && s.pool.phase.Graceful?)
    && (s.lock.HeldBy? && s.lock.actor.WorkerOf? ==> Works(s, s.lock.actor.i))
  }

  /** What happened to the accepted Operations. */
  ghost predicate Accounted<Op>(p: Pool.State<Op>, claimed: set<Op>, done: set<Op>, called: seq<Op>, refs: int) {
    && Pool.Inv(p) && p.workers != []
    && NoDup(p.accepted)
    && (forall op :: op in p.accepted ==> op in claimed)
    && (forall op :: op in done ==> op in p.dispatched)
    && (forall op :: op in p.finished ==> op in done)
    && called == p.finished
    && refs == |p.accepted| - |p.finished|
  }

  ghost predicate Inv<Op>(s: State<Op>) {
    Orderly(s) && Accounted(s.pool, s.claimed, s.done, s.called, s.refs)
  }

  lemma InitInv<Op>(gil: bool, size: nat, workers: nat, claimed: set<Op>)
    requires workers > 0
    ensures Inv(Init(gil, size, workers, claimed))
  {
    Pool.InitInv<Op>(size, workers);
  }

  /** One actor goes over to another activity while lock, pointer and phase change. */
  lemma MoveKeeps(doing: map<Actor, Activity>, lock: Holder, pointer: bool, phase: Pool.Phase,
                  a: Actor, activity: Activity, lock': Holder, pointer': bool, phase': Pool.Phase)
    requires Placed(doing, lock, pointer, phase) && Fits(a, activity, lock', pointer', phase')
    requires forall b :: b != a ==> Fits(b, Doing(doing, b), lock', pointer', phase')
    requires Closing(activity) ==> forall b :: b != a ==> !Closing(Doing(doing, b))
    ensures Placed(doing[a := activity], lock', pointer', phase')
  {
    hide Fits;
    var after := doing[a := activity];
    forall b
      ensures Doing(after, b) == if b == a then activity else Doing(doing, b)
    {
      assert b in after <==> b == a || b in doing;
    }
  }

  lemma SubmitOneKeeps<Op>(s: State<Op>, a: Actor, op: Op, woken: nat)
    requires Inv(s) && Enabled(s, SubmitOne(a, op, woken))
    ensures Inv(OneSubmitted(s, a, op, woken))
  {
    hide Pool.Tally, Pool.Tasks, Pool.Inv;
    Bounds(s.pool);
    var t := OneSubmitted(s, a, op, woken);
    if op !in s.claimed && |s.pool.queue| < s.pool.size {
      Pool.AddKeeps(s.pool, op, woken);
      assert t.pool.accepted == s.pool.accepted + [op];
      NoDupConcat(s.pool.accepted, [op]);
    } else {
      MoveKeeps(s.doing, s.lock, s.pointer, s.pool.phase, a, Idle, s.lock, s.pointer, s.pool.phase);
    }
  }

  lemma Bounds<T>(p: Pool.State<T>)
    requires Pool.Inv(p)
    ensures |p.queue| <= p.size && p.dispatched + p.queue == p.accepted
  {
  }

  lemma WorkerLockKeeps<Op>(s: State<Op>, i: nat)
    requires Inv(s) && Pool.CanLock(s.pool.workers, i)
    ensures Inv(s.(pool := Pool.Locked(s.pool, i)))
  {
    hide Pool.Tally, Pool.Tasks, Pool.Inv;
    Pool.LockKeeps(s.pool, i);
    var t := s.(pool := Pool.Locked(s.pool, i));
    assert Orderly(t);
    assert Accounted(t.pool, t.claimed, t.done, t.called, t.refs);
  }

  lemma SpuriousKeeps<Op>(s: State<Op>, i: nat)
    requires Inv(s) && Pool.Sleeps(s.pool.workers, i)
    ensures Inv(Apply(s, WorkerSpurious(i)))
  {
    hide Pool.Tally, Pool.Tasks, Pool.Inv;
    Pool.SpuriousKeeps(s.pool, i);
  }

  lemma ClaimsKeep<Op>(s: State<Op>, claimed: set<Op>)
    requires Inv(s) && forall op :: op in s.pool.accepted ==> op in claimed
    ensures Inv(s.(claimed := claimed))
  {
  }

  lemma AcceptedAreClaimed<Op>(s: State<Op>)
    requires Inv(s)
    ensures forall op :: op in s.pool.accepted ==> op in s.claimed
  {
  }

  lemma FinishKeeps<Op>(s: State<Op>, i: nat)
    requires Inv(s) && Enabled(s, Finish(i))
    ensures Inv(WorkDone(s, i))
  {
    hide Pool.Tally, Pool.Tasks, Pool.Inv;
    Pool.FinishKeeps(s.pool, i);
    assert Orderly(WorkDone(s, i));
  }

  lemma PublishKeeps<Op>(s: State<Op>, i: nat)
    requires Inv(s) && Works(s, i)
    ensures Inv(s.(done := s.done + {s.pool.workers[i].task}))
  {
    hide Pool.Tally, Pool.Inv;
    BusyWasDispatched(s.pool, i);
  }

  lemma BusyWasDispatched<T>(p: Pool.State<T>, i: nat)
    requires Pool.Inv(p) && i < |p.workers| && p.workers[i].Busy?
    ensures p.workers[i].task in p.dispatched
  {
    hide Pool.Tally, Pool.Tasks;
    var x := p.workers[i].task;
    Pool.TasksStep(p.workers, i, Pool.Top);
    assert x in Pool.Tasks(p.workers);
    assert x in multiset(p.dispatched);
  }

  lemma DestroyKeeps<Op>(s: State<Op>, a: Actor)
    requires Inv(s) && Doing(s.doing, a).Detached?
    ensures Inv(Apply(s, Destroy(a)))
  {
    hide Pool.Tally, Pool.Tasks, Pool.Inv;
    Pool.DestroyKeeps(s.pool, true);
    MoveKeeps(s.doing, s.lock, s.pointer, s.pool.phase, a, Joining, s.lock, s.pointer, Pool.Graceful);
  }

  lemma StepKeeps<Op>(s: State<Op>, e: Event<Op>)
    requires Inv(s) && Enabled(s, e)
    ensures Inv(Apply(s, e))
  {
    hide Accounted;
    match e
    case SubmitOne(a, op, woken) => SubmitOneKeeps(s, a, op, woken);
    case WorkerLock(i) => WorkerLockKeeps(s, i);
    case WorkerSpurious(i) => SpuriousKeeps(s, i);
    case Publish(i) => PublishKeeps(s, i);
    case Finish(i) => FinishKeeps(s, i);
    case Destroy(a) => DestroyKeeps(s, a);
    case ClaimElsewhere(op) => AcceptedAreClaimed(s); ClaimsKeep(s, s.claimed + {op});
    case GiveBackElsewhere(op) => AcceptedAreClaimed(s); ClaimsKeep(s, s.claimed - {op});
    case BeginSubmit(a) =>
      if s.pointer {
        MoveKeeps(s.doing, s.lock, true, s.pool.phase, a, Submitting, s.lock, true, s.pool.phase);
      }
    case EndSubmit(a) => MoveKeeps(s.doing, s.lock, s.pointer, s.pool.phase, a, Idle, s.lock, s.pointer, s.pool.phase);
    case Swap(a) =>
      if s.pointer {
        MoveKeeps(s.doing, s.lock, true, s.pool.phase, a, Swapped, s.lock, false, s.pool.phase);
      }
    case Detach(a) => MoveKeeps(s.doing, s.lock, s.pointer, s.pool.phase, a, Detached, Free, s.pointer, s.pool.phase);
    case JoinDone(a) => MoveKeeps(s.doing, s.lock, s.pointer, s.pool.phase, a, Idle, s.lock, s.pointer, s.pool.phase);
    case _ =>
  }

  lemma {:induction false} RunKeeps<Op>(s: State<Op>, events: seq<Event<Op>>)
    requires Inv(s) && Legal(s, events)
    ensures Inv(After(s, events))
    decreases |events|
  {
    hide Inv;
    if events != [] {
      StepKeeps(s, events[0]);
      RunKeeps(Apply(s, events[0]), events[1..]);
    }
  }

  lemma SubmitterHolds<Op>(s: State<Op>, a: Actor)
    requires Inv(s) && Doing(s.doing, a).Submitting?
    ensures s.lock == HeldBy(a) && s.pointer && s.pool.phase.Running?
  {
    hide Accounted;
    assert Fits(a, Doing(s.doing, a), s.lock, s.pointer, s.pool.phase);
  }

  lemma DoneWereAccepted<Op>(s: State<Op>)
    requires Inv(s)
    ensures forall op :: op in s.done ==> op in s.pool.accepted
    ensures forall op :: op in s.pool.finished ==> op in s.done
    ensures forall op :: op in s.pool.accepted ==> op in s.claimed
  {
    hide Orderly, Pool.Tally, Pool.Tasks;
    forall op | op in s.done
      ensures op in s.pool.accepted
    {
      assert op in s.pool.dispatched + s.pool.queue;
    }
  }

  /** The task a worker is running was accepted and is not finished. */
  lemma BusyIsUnfinished<Op>(s: State<Op>, i: nat)
    requires Inv(s) && Works(s, i)
    ensures var x := s.pool.workers[i].task; x in s.pool.accepted && x !in s.pool.finished && x in s.claimed
  {
    hide Orderly, Pool.Tally, Pool.Tasks;
    var p, x := s.pool, s.pool.workers[i].task;
    Pool.TasksStep(p.workers, i, Pool.Top);
    assert x in p.dispatched + p.queue by {
      BusyWasDispatched(p, i);
    }
    NoDupSplit(p.dispatched, p.queue);
    NoDupOnce(p.dispatched, x);
    assert multiset(p.dispatched)[x] == Pool.Tasks(p.workers)[x] + multiset(p.finished)[x];
    assert Pool.Tasks(p.workers)[x] > 0;
    assert multiset(p.finished)[x] == 0;
  }

  // ------------------------------------------------------------------- theorems

  /** No task reaches a pool that is shutting down, each pool is destroyed at most once, and whoever joins
      the workers holds no lock they could need. */
  lemma SubmitAndCloseNeverMeet<Op>(gil: bool, size: nat, workers: nat, claimed: set<Op>, events: seq<Event<Op>>)
    requires workers > 0 && Legal(Init(gil, size, workers, claimed), events)
    ensures var s := After(Init(gil, size, workers, claimed), events);
      && s.destroys <= 1
      && (forall a :: Doing(s.doing, a).Submitting? ==> s.pointer && s.pool.phase.Running? && s.destroys == 0)
      && (forall a :: Doing(s.doing, a).Detached? ==> s.destroys == 0)
      && (forall a :: Doing(s.doing, a).Joining? ==> s.lock != HeldBy(a))
      && (forall a, b :: Closing(Doing(s.doing, a)) && Closing(Doing(s.doing, b)) ==> a == b)
  {
    hide Accounted;
    InitInv(gil, size, workers, claimed);
    RunKeeps(Init(gil, size, workers, claimed), events);
  }

  /** Once the pointer was swapped out nothing is ever added again. */
  lemma {:induction false} NothingAddedAfterSwap<Op>(s: State<Op>, events: seq<Event<Op>>)
    requires Inv(s) && !s.pointer && Legal(s, events)
    ensures var t := After(s, events);
            t.pool.accepted == s.pool.accepted && !t.pointer && t.destroys <= 1
    decreases |events|
  {
    hide Accounted, Orderly, Apply, Enabled;
    DestroyedOnce(s);
    if events != [] {
      StepKeeps(s, events[0]);
      StepAddsNothing(s, events[0]);
      NothingAddedAfterSwap(Apply(s, events[0]), events[1..]);
    }
  }

  lemma StepAddsNothing<Op>(s: State<Op>, e: Event<Op>)
    requires Inv(s) && !s.pointer && Enabled(s, e)
    ensures Apply(s, e).pool.accepted == s.pool.accepted && !Apply(s, e).pointer
  {
    NobodySubmits(s);
    hide Inv, Pool.Inv;
  }

  lemma DestroyedOnce<Op>(s: State<Op>)
    requires Inv(s)
    ensures s.destroys <= 1
  {
  }

  lemma NobodySubmits<Op>(s: State<Op>)
    requires Inv(s) && !s.pointer
    ensures forall a :: !Doing(s.doing, a).Submitting?
  {
  }

  /** Once the close that swapped the pointer has returned, and ever after, every Operation ever accepted is done
      and its callback was called once, and no Operation holds the Context any more. */
  lemma CloseReturnsDone<Op>(gil: bool, size: nat, workers: nat, claimed: set<Op>, events: seq<Event<Op>>)
    requires workers > 0 && Legal(Init(gil, size, workers, claimed), events)
    requires After(Init(gil, size, workers, claimed), events).joined
    ensures var s := After(Init(gil, size, workers, claimed), events);
      && s.pool.queue == []
      && (forall op :: op in s.pool.accepted ==> op in s.done)
      && multiset(s.called) == multiset(s.pool.accepted) && NoDup(s.called)
      && s.refs == 0
  {
    InitInv(gil, size, workers, claimed);
    RunKeeps(Init(gil, size, workers, claimed), events);
    JoinedMeansDone(After(Init(gil, size, workers, claimed), events));
  }

  lemma JoinedMeansDone<Op>(s: State<Op>)
    requires Inv(s) && s.joined
    ensures s.pool.queue == []
    ensures forall op :: op in s.pool.accepted ==> op in s.done
    ensures multiset(s.called) == multiset(s.pool.accepted) && NoDup(s.called) && s.refs == 0
  {
    hide Pool.Tally, Pool.Tasks;
    Pool.StoppedMeansDone(s.pool);
    AllRun(s);
  }

  lemma AllRun<Op>(s: State<Op>)
    requires Inv(s) && multiset(s.pool.finished) == multiset(s.pool.accepted)
    ensures forall op :: op in s.pool.accepted ==> op in s.done
    ensures multiset(s.called) == multiset(s.pool.accepted) && NoDup(s.called) && s.refs == 0
  {
    SubbagMembers(s.pool.accepted, s.pool.finished);
    NoDupSubbag(s.called, s.pool.accepted);
    assert |multiset(s.pool.finished)| == |s.pool.finished| && |multiset(s.pool.accepted)| == |s.pool.accepted|;
  }

  /** A step that takes the pool nearer to its end and does not depend on the joiner: a worker's own, or the
      release of the lock by whoever else holds it. */
  ghost predicate Helps<Op>(s: State<Op>, e: Event<Op>, joiner: Actor) {
    && Enabled(s, e)
    && match e
       case WorkerLock(_) => true
       case Publish(i) => s.pool.workers[i].task !in s.done
       case Finish(_) => true
       case Acquire(b) => b.WorkerOf?
       case Release(b) => b.Python? && b != joiner
       case _ => false
  }

  /** Joining never deadlocks: while some worker has not exited such a step is possible. */
  lemma JoinCannotDeadlock<Op>(s: State<Op>, joiner: Actor)
    requires Inv(s) && Doing(s.doing, joiner).Joining? && !Pool.Stopped(s.pool)
    ensures exists e :: Helps(s, e, joiner)
  {
    hide Pool.Tally, Pool.Tasks, Accounted;
    var i: nat :| i < |s.pool.workers| && !s.pool.workers[i].Exited?;
    assert Fits(joiner, Doing(s.doing, joiner), s.lock, s.pointer, s.pool.phase);
    NoneSleeps(s, i);
    if Pool.CanLock(s.pool.workers, i) {
      assert Helps(s, WorkerLock(i), joiner);
    } else if s.lock.HeldBy? {
      var b := s.lock.actor;
      OthersIdle(s, joiner, b);
      if b.Python? {
        assert Helps(s, Release(b), joiner);
      } else if s.pool.workers[b.i].task in s.done {
        assert Helps(s, Finish(b.i), joiner);
      } else {
        assert Helps(s, Publish(b.i), joiner);
      }
    } else {
      OthersIdle(s, joiner, WorkerOf(i));
      assert Helps(s, Acquire(WorkerOf(i)), joiner);
    }
  }

  /** Accepted Operations that are not done. */
  ghost function Unpublished<Op>(s: State<Op>): set<Op> {
    ToSet(s.pool.accepted) - s.done
  }

  /** How far the lock is from the workers. */
  function LockDistance(lock: Holder): nat {
    match lock
    case Free => 1
    case HeldBy(a) => if a.WorkerOf? then 0 else 2
  }

  /** What is left to do before the join: in the pool, in publishing, in handing the lock over. */
  ghost function JoinMeasure<Op>(s: State<Op>): nat {
    3 * Pool.Remaining(s.pool) + 2 * |Unpublished(s)| + LockDistance(s.lock)
  }

  lemma HelpsDecreases<Op>(s: State<Op>, e: Event<Op>, joiner: Actor)
    requires Inv(s) && Doing(s.doing, joiner).Joining? && Helps(s, e, joiner)
    ensures JoinMeasure(Apply(s, e)) < JoinMeasure(s)
    ensures Doing(Apply(s, e).doing, joiner).Joining?
  {
    match e
    case WorkerLock(i) => PoolStepDecreases(s, joiner, Pool.Lock(i));
    case Finish(i) => PoolStepDecreases(s, joiner, Pool.Finish(i));
    case Publish(i) => PublishDecreases(s, i);
    case _ =>
  }

  lemma PoolStepDecreases<Op>(s: State<Op>, joiner: Actor, e: Pool.Event<Op>)
    requires Inv(s) && Doing(s.doing, joiner).Joining? && Pool.Enabled(s.pool, e)
    ensures Pool.Remaining(Pool.Apply(s.pool, e)) < Pool.Remaining(s.pool)
    ensures Pool.Apply(s.pool, e).accepted == s.pool.accepted
  {
    assert Fits(joiner, Doing(s.doing, joiner), s.lock, s.pointer, s.pool.phase);
    PoolParts(s);
    Pool.ShutdownProgress(s.pool, e);
  }

  lemma PublishDecreases<Op>(s: State<Op>, i: nat)
    requires Inv(s) && Works(s, i) && s.pool.workers[i].task !in s.done
    ensures |Unpublished(s.(done := s.done + {s.pool.workers[i].task}))| < |Unpublished(s)|
  {
    PoolParts(s);
    BusyWasDispatched(s.pool, i);
    hide Inv, Pool.Inv;
    var x := s.pool.workers[i].task;
    assert x in s.pool.dispatched + s.pool.queue;
    assert Unpublished(s.(done := s.done + {x})) == Unpublished(s) - {x} && x in Unpublished(s);
  }

  lemma PoolParts<Op>(s: State<Op>)
    requires Inv(s)
    ensures Pool.Inv(s.pool) && s.pool.dispatched + s.pool.queue == s.pool.accepted
  {
  }

  /** Steps that help, one after the other. */
  ghost predicate HelpingRun<Op>(s: State<Op>, events: seq<Event<Op>>, joiner: Actor)
    decreases |events|
  {
    events == [] || (Helps(s, events[0], joiner) && HelpingRun(Apply(s, events[0]), events[1..], joiner))
  }

  lemma {:induction false} HelpingIsLegal<Op>(s: State<Op>, events: seq<Event<Op>>, joiner: Actor)
    requires HelpingRun(s, events, joiner)
    ensures Legal(s, events)
    decreases |events|
  {
    if events != [] {
      HelpingIsLegal(Apply(s, events[0]), events[1..], joiner);
    }
  }

  /** So the join finishes: helping steps cannot go on longer than the measure, and when none is left every worker
      has exited. */
  lemma {:induction false} JoinFinishes<Op>(s: State<Op>, events: seq<Event<Op>>, joiner: Actor)
    requires Inv(s) && Doing(s.doing, joiner).Joining? && HelpingRun(s, events, joiner)
    ensures Legal(s, events) && |events| <= JoinMeasure(s)
    ensures var t := After(s, events);
      (forall e :: !Helps(t, e, joiner)) ==> Enabled(t, JoinDone(joiner))
    decreases |events|
  {
    hide Inv, JoinMeasure, Helps;
    HelpingIsLegal(s, events, joiner);
    if events == [] {
      if !Pool.Stopped(s.pool) {
        JoinCannotDeadlock(s, joiner);
      }
    } else {
      var e := events[0];
      assert Helps(s, e, joiner);
      HelpsDecreases(s, e, joiner);
      HelpsEnabled(s, e, joiner);
      StepKeeps(s, e);
      JoinFinishes(Apply(s, e), events[1..], joiner);
    }
  }

  lemma HelpsEnabled<Op>(s: State<Op>, e: Event<Op>, joiner: Actor)
    requires Helps(s, e, joiner)
    ensures Enabled(s, e)
  {
  }

  lemma OthersIdle<Op>(s: State<Op>, joiner: Actor, b: Actor)
    requires Inv(s) && Doing(s.doing, joiner).Joining? && b != joiner
    ensures Doing(s.doing, b).Idle?
  {
  }

  lemma NoneSleeps<Op>(s: State<Op>, i: nat)
    requires Inv(s) && !s.pool.phase.Running? && i < |s.pool.workers|
    ensures !s.pool.workers[i].Blocked?
  {
  }

  /** A close that finds the pointer already gone returns at once.  Whether everything accepted is done by then
      is decided by the queue and the busy workers alone. */
  lemma LosingCloseExact<Op>(s: State<Op>)
    requires Inv(s)
    ensures (forall op :: op in s.pool.accepted ==> op in s.done)
        <==> s.pool.queue == [] && forall i: nat :: Works(s, i) ==> s.pool.workers[i].task in s.done
  {
    hide Pool.Tally, Pool.Tasks, Orderly;
    var p := s.pool;
    if forall op :: op in p.accepted ==> op in s.done {
      QueuedIsNotDone(s);
      forall i: nat | Works(s, i)
        ensures p.workers[i].task in s.done
      {
        BusyWasDispatched(p, i);
      }
    }
    if p.queue == [] && forall i: nat :: Works(s, i) ==> p.workers[i].task in s.done {
      forall op | op in p.accepted
        ensures op in s.done
      {
        assert op in multiset(p.dispatched);
        if op !in p.finished {
          assert op in Pool.Tasks(p.workers);
          BusyWith(p.workers, op);
        }
      }
    }
  }

  lemma QueuedIsNotDone<Op>(s: State<Op>)
    requires Inv(s)
    ensures s.pool.queue != [] ==> s.pool.queue[0] in s.pool.accepted && s.pool.queue[0] !in s.done
  {
    hide Pool.Tally, Pool.Tasks, Orderly;
    NoDupSplit(s.pool.dispatched, s.pool.queue);
    if s.pool.queue != [] {
      assert s.pool.queue[0] in s.pool.queue;
    }
  }

  lemma {:induction false} BusyWith<T>(ws: seq<Pool.Worker<T>>, x: T)
    requires x in Pool.Tasks(ws)
    ensures exists i :: 0 <= i < |ws| && ws[i] == Pool.Busy(x)
  {
    var n := |ws| - 1;
    if x in Pool.Tasks(ws[..n]) {
      BusyWith(ws[..n], x);
      var i :| 0 <= i < |ws[..n]| && ws[..n][i] == Pool.Busy(x);
      assert ws[i] == Pool.Busy(x);
    } else {
      assert ws[n] == Pool.Busy(x);
    }
  }

  /** Whatever is pending when `a` closes, a concurrent close by `b` returns before any of it is done. */
  lemma LosingCloseReturnsAtOnce<Op>(s: State<Op>, a: Actor, b: Actor)
    requires s.pointer && s.lock == HeldBy(a) && a.Python? && b.Python? && a != b
    requires Doing(s.doing, a).Idle? && Doing(s.doing, b).Idle?
    ensures var run := [Swap(a), Detach(a), Acquire(b)];
      && Legal(s, run)
      && var t := After(s, run);
         && Enabled(t, Swap(b)) && Apply(t, Swap(b)) == t      // this is all that b's close does
         && t.pool == s.pool && t.done == s.done
  {
    var run: seq<Event<Op>> := [Swap(a), Detach(a), Acquire(b)];
    var s1 := Apply(s, Swap(a));
    var s2 := Apply(s1, Detach(a));
    var s3 := Apply(s2, Acquire(b));
    RunFrom(run, s2, s3, 2);
    RunFrom(run, s1, s2, 1);
    RunFrom(run, s, s1, 0);
  }

  /** For instance the one Operation submitted to a fresh Context. */
  function SubmitRun<Op>(a: Actor, op: Op): seq<Event<Op>> {
    [Acquire(a), BeginSubmit(a), SubmitOne(a, op, 0), EndSubmit(a)]
  }

  lemma LosingCloseFails<Op>(a: Actor, b: Actor, op: Op)
    requires a.Python? && b.Python? && a != b
    ensures var init, run := Init<Op>(true, 1, 1, {}), SubmitRun(a, op);
      && Legal(init, run)
      && var s := After(init, run);
         && s.pointer && s.lock == HeldBy(a) && Doing(s.doing, a).Idle? && Doing(s.doing, b).Idle?
         && op in s.pool.accepted && op !in s.done
  {
    hide Pool.Tally, Pool.Tasks;
    var run := SubmitRun(a, op);
    var s0 := Init<Op>(true, 1, 1, {});
    var s1 := Apply(s0, Acquire(a));
    var s2 := Apply(s1, BeginSubmit(a));
    var s3 := Apply(s2, SubmitOne(a, op, 0));
    var s4 := Apply(s3, EndSubmit(a));
    assert s3.pool.accepted == [op];
    RunFrom(run, s3, s4, 3);
    RunFrom(run, s2, s3, 2);
    RunFrom(run, s1, s2, 1);
    RunFrom(run, s0, s1, 0);
  }

  /** Prepending to a run, written as suffixes of one list. */
  lemma RunFrom<Op>(run: seq<Event<Op>>, s: State<Op>, t: State<Op>, i: nat)
    requires i < |run| && Enabled(s, run[i]) && t == Apply(s, run[i]) && Legal(t, run[i + 1..])
    ensures Legal(s, run[i..]) && After(s, run[i..]) == After(t, run[i + 1..])
  {
  }
}
