/** The Operations of the thread-pool engine against CloseProtocol: how their fields
    agree with a state of the protocol, and what each step does to both. */
module ThreadSteps {
  import opened Bags
  import opened Claims
  import opened Outcomes
  import Closing = CloseProtocol
  import Pools = PoolProtocol
  import ThreadPool

  type Address = ThreadPool.Task

  type Protocol = Closing.State<Address>

  type Ops = map<Address, Operation>

  datatype SubmitResult = Accepted(count: nat) | TypeError(at: nat) | NoPool | Refused(why: ThreadPool.AddResult)

  ghost function Claimed(ops: Ops): set<Address> {
    set a | a in ops && ops[a].inProgress
  }

  function Taken(op: Operation): Operation {
    op.(inProgress := true, refs := op.refs + 1)
  }

  // --------------------------------------------- Operations against the protocol

  /** The fields of the Operations agree with their place in the protocol. */
  ghost predicate Agree(c: Protocol, ops: Ops) {
    && (forall a :: a in c.pool.accepted ==> a in ops)
    && forall a :: a in ops ==>
         && (ops[a].inProgress <==> a in c.claimed)
         && (a in c.pool.accepted ==>
               (ops[a].done <==> a in c.done) && ops[a].refs == if a in c.pool.finished then 0 else 1)
         && (!ops[a].inProgress ==> !ops[a].done && ops[a].refs == 0)
  }

  lemma AgreeSame(c: Protocol, d: Protocol, ops: Ops)
    requires Agree(c, ops) && d.claimed == c.claimed && d.done == c.done
    requires d.pool.accepted == c.pool.accepted && d.pool.finished == c.pool.finished
    ensures Agree(d, ops)
  {
  }

  /** The pool took a free Operation. */
  lemma AgreeTaken(c: Protocol, actor: Closing.Actor, ops: Ops, a: Address, woken: nat)
    requires Closing.Inv(c) && Agree(c, ops) && a in ops && !ops[a].inProgress
    requires |c.pool.queue| < c.pool.size && c.pool.phase.Running?
    ensures Agree(Closing.OneSubmitted(c, actor, a, woken), ops[a := Taken(ops[a])])
  {
    Closing.DoneWereAccepted(c);
    hide Closing.Inv;
    var d := Closing.OneSubmitted(c, actor, a, woken);
    assert d.pool.accepted == c.pool.accepted + [a] && a !in c.pool.accepted;
  }

  /** What the worker writes, and publishes. */
  lemma AgreePublished(c: Protocol, ops: Ops, a: Address, op: Operation)
    requires Agree(c, ops) && a in ops && a in c.pool.accepted && a !in c.pool.finished && ops[a].inProgress
    requires op.inProgress && op.done && op.refs == ops[a].refs
    ensures Agree(c.(done := c.done + {a}), ops[a := op])
  {
  }

  /** The references go when the worker is through. */
  lemma AgreeDropped(c: Protocol, ops: Ops, i: nat)
    requires Closing.Inv(c) && Agree(c, ops) && Closing.Works(c, i) && c.pool.workers[i].task in c.done
    ensures var a := c.pool.workers[i].task;
      && a in ops && a in c.pool.accepted && a !in c.pool.finished && ops[a].inProgress && ops[a].refs == 1
      && Agree(Closing.WorkDone(c, i), ops[a := ops[a].(refs := 0)])
  {
    Closing.BusyIsUnfinished(c, i);
    var a, d := c.pool.workers[i].task, Closing.WorkDone(c, i);
    hide Closing.Inv, Pools.Inv;
    assert forall x :: x in d.pool.finished <==> x in c.pool.finished || x == a;
  }

  lemma Known(c: Protocol, ops: Ops, i: nat)
    requires Closing.Inv(c) && Agree(c, ops) && Closing.Works(c, i)
    ensures var a := c.pool.workers[i].task;
      a in ops && a in c.pool.accepted && a !in c.pool.finished && ops[a].inProgress && ops[a].refs == 1
  {
    Closing.BusyIsUnfinished(c, i);
  }

  /** What other threads and callbacks leave alone: claims stay, claimed Operations are not touched, nothing is
      finished or published, and a pool that is shutting down only comes nearer to its end. */
  ghost predicate Onward(c: Protocol, ops: Ops, d: Protocol, now: Ops) {
    && c.pool.accepted <= d.pool.accepted
    && d.pool.finished == c.pool.finished && d.called == c.called && d.done == c.done && d.joined == c.joined
    && d.pointer == c.pointer
    && now.Keys == ops.Keys && (forall a :: a in ops && ops[a].inProgress ==> now[a] == ops[a])
    && |d.pool.workers| == |c.pool.workers|
    && (forall i :: 0 <= i < |c.pool.workers| && (c.pool.workers[i].Busy? || c.pool.workers[i].Exited?) ==>
          d.pool.workers[i] == c.pool.workers[i])
    && d.pool.phase == c.pool.phase
    && (!c.pool.phase.Running? ==>
          d.pool.accepted == c.pool.accepted && Pools.Remaining(d.pool) <= Pools.Remaining(c.pool))
  }

  lemma OnwardRefl(c: Protocol, ops: Ops)
    ensures Onward(c, ops, c, ops)
  {
  }

  lemma OnwardTrans(c: Protocol, a: Ops, d: Protocol, b: Ops, e: Protocol, z: Ops)
    requires Onward(c, a, d, b) && Onward(d, b, e, z)
    ensures Onward(c, a, e, z)
  {
    hide Pools.Remaining;
  }

  /** A worker wakes up, or takes the lock. */
  lemma WakeStep(c: Protocol, ops: Ops, i: nat)
    requires Closing.Inv(c) && Agree(c, ops) && Pools.Sleeps(c.pool.workers, i)
    ensures var d := c.(pool := c.pool.(workers := c.pool.workers[i := Pools.Woken]));
      Closing.Inv(d) && Agree(d, ops) && Onward(c, ops, d, ops) && c.pool.phase.Running?
  {
    assert Pools.NoneOverlooked(c.pool);
    Closing.StepKeeps(c, Closing.WorkerSpurious(i));
    hide Closing.Inv, Pools.Inv, Agree, Pools.Remaining;
    AgreeSame(c, c.(pool := c.pool.(workers := c.pool.workers[i := Pools.Woken])), ops);
  }

  lemma TakeStep(c: Protocol, ops: Ops, i: nat)
    requires Closing.Inv(c) && Agree(c, ops) && Pools.CanLock(c.pool.workers, i)
    ensures var d := c.(pool := Pools.Locked(c.pool, i));
      && Closing.Inv(d) && Agree(d, ops) && Onward(c, ops, d, ops) && d.pool.accepted == c.pool.accepted
      && (!c.pool.phase.Running? ==> Pools.Remaining(d.pool) < Pools.Remaining(c.pool))
  {
    hide Closing.Inv, Pools.Inv, Agree, Pools.Remaining, Pools.Locked, Onward;
    Closing.StepKeeps(c, Closing.WorkerLock(i));
    TakeShortens(c, i);
    TakeIsOnward(c, ops, i);
    AgreeSame(c, c.(pool := Pools.Locked(c.pool, i)), ops);
  }

  lemma TakeIsOnward(c: Protocol, ops: Ops, i: nat)
    requires Pools.CanLock(c.pool.workers, i)
    requires !c.pool.phase.Running? ==> Pools.Remaining(Pools.Locked(c.pool, i)) < Pools.Remaining(c.pool)
    ensures var d := c.(pool := Pools.Locked(c.pool, i));
      Onward(c, ops, d, ops) && d.pool.accepted == c.pool.accepted && d.pool.finished == c.pool.finished
  {
    hide Pools.Remaining;
  }

  lemma TakeShortens(c: Protocol, i: nat)
    requires Closing.Inv(c) && Pools.CanLock(c.pool.workers, i)
    ensures !c.pool.phase.Running? ==> Pools.Remaining(Pools.Locked(c.pool, i)) < Pools.Remaining(c.pool)
  {
    Closing.PoolParts(c);
    hide Closing.Inv, Pools.Inv, Pools.Remaining;
    if !c.pool.phase.Running? {
      Pools.ShutdownProgress(c.pool, Pools.Lock(i));
    }
  }

  /** In the submit loop, the claim flag says what the walk says. */
  lemma ClaimedMeans(args: seq<Address>, i: nat, was: Ops, now: Ops, taken: seq<Address>)
    requires Walked(args, i, was, Claimed(was), Taken, now, taken) && i < |args|
    ensures args[i] in now && (now[args[i]].inProgress <==> args[i] in Claimed(was) || args[i] in taken)
  {
    assert args[i] in ToSet(args);
  }

  ghost predicate SameDoing(before: map<Closing.Actor, Closing.Activity>, after: map<Closing.Actor, Closing.Activity>) {
    forall b :: Closing.Doing(after, b) == Closing.Doing(before, b)
  }

  lemma BackToIdle(doing: map<Closing.Actor, Closing.Activity>, a: Closing.Actor, activity: Closing.Activity)
    requires Closing.Doing(doing, a).Idle?
    ensures SameDoing(doing, doing[a := activity][a := Closing.Idle])
  {
    forall b
      ensures Closing.Doing(doing[a := activity][a := Closing.Idle], b) == Closing.Doing(doing, b)
    {
      assert b in doing[a := activity][a := Closing.Idle] <==> b == a || b in doing;
    }
  }

  /** What workers, with their callbacks, do when they can: as `Onward`, but tasks are also finished. */
  ghost predicate Later(c: Protocol, ops: Ops, d: Protocol, now: Ops) {
    && c.pool.accepted <= d.pool.accepted && c.called <= d.called
    && d.joined == c.joined && d.pointer == c.pointer && SameDoing(c.doing, d.doing)
    && now.Keys == ops.Keys && (forall a :: a in ops && ops[a].inProgress ==> now[a].inProgress)
    && |d.pool.workers| == |c.pool.workers| && d.pool.phase == c.pool.phase
    && (forall i :: 0 <= i < |c.pool.workers| && c.pool.workers[i].Exited? ==> d.pool.workers[i].Exited?)
    && (!c.pool.phase.Running? ==> d.pool.accepted == c.pool.accepted)
  }

  lemma LaterRefl(c: Protocol, ops: Ops)
    ensures Later(c, ops, c, ops)
  {
  }

  lemma LaterTrans(c: Protocol, a: Ops, d: Protocol, b: Ops, e: Protocol, z: Ops)
    requires Later(c, a, d, b) && Later(d, b, e, z)
    ensures Later(c, a, e, z)
  {
  }

  lemma LaterMeans(c: Protocol, ops: Ops, d: Protocol, now: Ops, actor: Closing.Actor)
    requires Later(c, ops, d, now)
    ensures Closing.Doing(d.doing, actor) == Closing.Doing(c.doing, actor)
    ensures |d.pool.workers| == |c.pool.workers| && d.pool.phase == c.pool.phase
    ensures forall i :: 0 <= i < |c.pool.workers| && c.pool.workers[i].Exited? ==> d.pool.workers[i].Exited?
    ensures !c.pool.phase.Running? ==> d.pool.accepted == c.pool.accepted
  {
  }

  lemma OnwardIsLater(c: Protocol, ops: Ops, d: Protocol, now: Ops)
    requires Onward(c, ops, d, now) && SameDoing(c.doing, d.doing)
    ensures Later(c, ops, d, now)
  {
  }

  /** No claimed Operation but `a` was touched. */
  ghost predicate Undisturbed(ops: Ops, now: Ops, a: Address) {
    forall b :: b in ops && ops[b].inProgress && b != a ==> b in now && now[b] == ops[b]
  }

  /** What the callbacks were told: one entry for each call, with the result that its Operation has. */
  ghost predicate ToldRight(told: seq<(Address, int)>, called: seq<Address>, ops: Ops) {
    && |told| == |called|
    && forall k :: 0 <= k < |told| ==> told[k].0 == called[k] && called[k] in ops && ops[called[k]].result == told[k].1
  }

  lemma CalledAreClaimed(c: Protocol, ops: Ops)
    requires Closing.Inv(c) && Agree(c, ops)
    ensures forall a :: a in c.called ==> a in ops && ops[a].inProgress && a in c.pool.finished
  {
    Closing.DoneWereAccepted(c);
    hide Closing.Orderly, Pools.Inv;
  }

  lemma ToldStays(c: Protocol, ops: Ops, d: Protocol, now: Ops, told: seq<(Address, int)>)
    requires Closing.Inv(c) && Agree(c, ops) && Onward(c, ops, d, now) && ToldRight(told, c.called, ops)
    ensures ToldRight(told, d.called, now)
  {
    CalledAreClaimed(c, ops);
    hide Closing.Inv, Agree;
  }

  /** The next callback is told the result of its own Operation. */
  lemma ToldOne(c: Protocol, ops: Ops, now: Ops, a: Address, told: seq<(Address, int)>)
    requires Closing.Inv(c) && Agree(c, ops) && ToldRight(told, c.called, ops) && a in now
    requires Undisturbed(ops, now, a) && a !in c.called
    ensures ToldRight(told + [(a, now[a].result)], c.called + [a], now)
  {
    CalledAreClaimed(c, ops);
    hide Closing.Inv, Agree;
  }

  // ------------------------------------------------- the steps of task and close

  /** The worker gets the interpreter lock. */
  lemma LockStep(c: Protocol, ops: Ops, i: nat)
    requires Closing.Inv(c) && Agree(c, ops) && c.lock.Free? && Closing.Works(c, i)
    ensures var d := c.(lock := Closing.HeldBy(Closing.WorkerOf(i)));
      Closing.Inv(d) && Agree(d, ops) && Closing.Doing(c.doing, Closing.WorkerOf(i)).Idle?
  {
    var b := Closing.WorkerOf(i);
    assert Closing.Fits(b, Closing.Doing(c.doing, b), c.lock, c.pointer, c.pool.phase);
    Closing.StepKeeps(c, Closing.Acquire(b));
    hide Closing.Inv;
    AgreeSame(c, c.(lock := Closing.HeldBy(b)), ops);
  }

  lemma PublishStep(c: Protocol, ops: Ops, i: nat, op: Operation)
    requires Closing.Inv(c) && Agree(c, ops) && Closing.MayTouch(c, i)
    requires var a := c.pool.workers[i].task;
      a in ops && op.inProgress == ops[a].inProgress && op.done && op.refs == ops[a].refs
    ensures var a := c.pool.workers[i].task;
      var d := c.(done := c.done + {a});
      Closing.Inv(d) && Agree(d, ops[a := op])
  {
    Known(c, ops, i);
    Closing.StepKeeps(c, Closing.Publish(i));
    hide Closing.Inv;
    AgreePublished(c, ops, c.pool.workers[i].task, op);
  }

  /** The worker is through: the references go, and the interpreter lock. */
  lemma DropStep(c: Protocol, ops: Ops, i: nat)
    requires Closing.Inv(c) && Agree(c, ops) && Closing.MayTouch(c, i) && c.gil
    requires c.pool.workers[i].task in c.done && Closing.Doing(c.doing, Closing.WorkerOf(i)).Idle?
    ensures var a, d := c.pool.workers[i].task, Closing.WorkDone(c, i);
      && a in ops && ops[a].refs == 1 && ops[a].inProgress
      && Closing.Inv(d) && Agree(d, ops[a := ops[a].(refs := 0)]) && d.lock.Free?
      && (!c.pool.phase.Running? ==> Pools.Remaining(d.pool) < Pools.Remaining(c.pool))
  {
    if !c.pool.phase.Running? {
      Pools.ShutdownProgress(c.pool, Pools.Finish(i));
    }
    AgreeDropped(c, ops, i);
    Closing.StepKeeps(c, Closing.Finish(i));
  }

  /** All that a task does, seen from before it. */
  lemma TaskLater(c0: Protocol, ops0: Ops, i: nat, c1: Protocol, ops1: Ops, c2: Protocol, ops2: Ops)
    requires Closing.Works(c0, i) && c1.lock == c2.lock
    requires var a := c0.pool.workers[i].task;
      && a in ops0 && a in ops1 && ops0[a].inProgress && ops1[a].inProgress && ops1[a].done
      && c1 == c0.(lock := Closing.HeldBy(Closing.WorkerOf(i)), done := c0.done + {a}) && ops1 == ops0[a := ops1[a]]
      && Onward(c1, ops1, c2, ops2) && SameDoing(c1.doing, c2.doing)
    ensures Closing.MayTouch(c2, i) && c2.pool.phase == c0.pool.phase
    ensures Closing.Doing(c1.doing, Closing.WorkerOf(i)).Idle? ==> Closing.Doing(c2.doing, Closing.WorkerOf(i)).Idle?
    ensures var a := c0.pool.workers[i].task;
      && c2.pool.workers[i].task == a && a in ops2 && a in c2.done
      && var d, op := Closing.WorkDone(c2, i), ops2[a].(refs := 0);
         && Later(c0, ops0, d, ops2[a := op])
         && op == ops1[a].(refs := 0)
         && d.called == c0.called + [a] && d.pool.finished == c0.pool.finished + [a] && d.done == c0.done + {a}
         && (!c0.pool.phase.Running? ==> Pools.Remaining(c2.pool) <= Pools.Remaining(c0.pool))
         && Undisturbed(ops0, ops2[a := op], a)
  {
    hide Pools.Remaining;
  }

  lemma ReleaseStep(c: Protocol, ops: Ops, actor: Closing.Actor)
    requires Closing.Inv(c) && Agree(c, ops) && c.lock == Closing.HeldBy(actor) && Closing.Doing(c.doing, actor).Idle?
    ensures var d := c.(lock := Closing.Free); Closing.Inv(d) && Agree(d, ops) && Later(c, ops, d, ops)
  {
    Closing.StepKeeps(c, Closing.Release(actor));
    hide Closing.Inv;
    AgreeSame(c, c.(lock := Closing.Free), ops);
  }

  lemma AcquireStep(c: Protocol, ops: Ops, actor: Closing.Actor)
    requires Closing.Inv(c) && Agree(c, ops) && c.lock.Free? && Closing.Doing(c.doing, actor).Idle? && actor.Python?
    ensures var d := c.(lock := Closing.HeldBy(actor)); Closing.Inv(d) && Agree(d, ops) && Later(c, ops, d, ops)
  {
    Closing.StepKeeps(c, Closing.Acquire(actor));
    hide Closing.Inv;
    AgreeSame(c, c.(lock := Closing.HeldBy(actor)), ops);
  }

  /** The pointer is swapped out and the interpreter lock given up. */
  lemma SwapSteps(c: Protocol, ops: Ops, actor: Closing.Actor)
    requires Closing.Inv(c) && Agree(c, ops) && c.pointer && actor.Python?
    requires c.lock == Closing.HeldBy(actor) && Closing.Doing(c.doing, actor).Idle?
    ensures var d := Closing.Set(c.(pointer := false, lock := Closing.Free), actor, Closing.Detached);
      && Closing.Inv(d) && Agree(d, ops) && c.pool.phase.Running?
      && Closing.Doing(d.doing, actor).Detached?
  {
    var s := Closing.Set(c.(pointer := false), actor, Closing.Swapped);
    Closing.StepKeeps(c, Closing.Swap(actor));
    Closing.StepKeeps(s, Closing.Detach(actor));
    hide Closing.Inv;
    assert c.doing[actor := Closing.Swapped][actor := Closing.Detached] == c.doing[actor := Closing.Detached];
    AgreeSame(c, Closing.Set(c.(pointer := false, lock := Closing.Free), actor, Closing.Detached), ops);
  }

  lemma DestroyStep(c: Protocol, ops: Ops, actor: Closing.Actor)
    requires Closing.Inv(c) && Agree(c, ops) && Closing.Doing(c.doing, actor).Detached?
    ensures var d := Closing.Set(c.(pool := Pools.Destroyed(c.pool, true), destroys := c.destroys + 1), actor,
                                 Closing.Joining);
      Closing.Inv(d) && Agree(d, ops) && Closing.Doing(d.doing, actor).Joining?
  {
    Closing.StepKeeps(c, Closing.Destroy(actor));
    hide Closing.Inv;
    AgreeSame(c, Closing.Apply(c, Closing.Destroy(actor)), ops);
  }

  /** The joins have returned, and the interpreter lock is taken again. */
  lemma JoinStep(c: Protocol, ops: Ops, actor: Closing.Actor)
    requires Closing.Inv(c) && Agree(c, ops) && Closing.Doing(c.doing, actor).Joining? && Pools.Stopped(c.pool)
      && c.lock.Free?
    requires actor.Python?
    ensures var d := Closing.Set(c.(joined := true, lock := Closing.HeldBy(actor)), actor, Closing.Idle);
      Closing.Inv(d) && Agree(d, ops) && Closing.Doing(d.doing, actor).Idle? && c.pool.started == 0
  {
    Pools.StoppedMeansDone(c.pool);
    var j := Closing.Set(c.(joined := true), actor, Closing.Idle);
    Closing.StepKeeps(c, Closing.JoinDone(actor));
    Closing.StepKeeps(j, Closing.Acquire(actor));
    hide Closing.Inv;
    AgreeSame(c, Closing.Set(c.(joined := true, lock := Closing.HeldBy(actor)), actor, Closing.Idle), ops);
  }

  lemma JoinerShuts(c: Protocol, actor: Closing.Actor)
    requires Closing.Inv(c) && Closing.Doing(c.doing, actor).Joining?
    ensures !c.pool.phase.Running?
  {
    assert Closing.Fits(actor, Closing.Doing(c.doing, actor), c.lock, c.pointer, c.pool.phase);
  }

  lemma EverythingDone(c: Protocol, ops: Ops)
    requires Closing.Inv(c) && Agree(c, ops) && c.joined
    ensures c.refs == 0 && multiset(c.called) == multiset(c.pool.accepted) && NoDup(c.called)
    ensures forall a :: a in c.pool.accepted ==> a in ops && ops[a].done && ops[a].refs == 0
  {
    Closing.JoinedMeansDone(c);
    SubbagMembers(c.pool.accepted, c.called);
    hide Pools.Inv;
    assert c.called == c.pool.finished;
  }

  lemma AllIn(args: seq<Address>, ops: Ops)
    requires forall k :: 0 <= k < |args| ==> args[k] in ops
    ensures ToSet(args) <= ops.Keys
  {
  }
}
