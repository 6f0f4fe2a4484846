/** The Context on top of the thread pool: claiming and handing over a batch, the
    worker function with its callback, and closing.

    The ghost field `c` is the state of CloseProtocol; every method performs steps
    of it.  The methods are those of a build with an interpreter lock: an `actor`
    is whoever holds it.  Interleavings without that lock are CloseProtocol's. */
module ThreadAio {
  import opened Bags
  import opened Claims
  import opened Outcomes
  import Closing = CloseProtocol
  import Pools = PoolProtocol
  import opened ThreadPool
  import opened ThreadSteps
  import opened Wrappers

  class Context {
    var pool: Pool?
    var ops: Ops
    var ctxRefs: int        // references Operations hold on this Context
    var told: seq<(Address, int)>    // the callbacks, and what they were told
    ghost var c: Protocol

    constructor (actor: Closing.Actor, poolSize: nat, maxRequests: nat, ops: Ops)
      requires 0 < poolSize <= MAX_THREADS && 0 < maxRequests < MAX_QUEUE - 1 && actor.Python?
      requires forall a :: a in ops && !ops[a].inProgress ==> !ops[a].done && ops[a].refs == 0
      ensures Valid() && Mine(actor) && fresh(pool) && fresh(pool.queue) && this.ops == ops && c.pool.accepted == []
      ensures told == []
    {
      pool := new Pool(poolSize, maxRequests);
      this.ops, ctxRefs, told := ops, 0, [];
      c := Closing.Init(true, maxRequests, poolSize, Claimed(ops)).(lock := Closing.HeldBy(actor));
      Closing.InitInv(true, maxRequests, poolSize, Claimed(ops));
      Closing.StepKeeps(Closing.Init(true, maxRequests, poolSize, Claimed(ops)), Closing.Acquire(actor));
    }

    /** The state is that of the protocol, with `p` as its pool. */
    ghost predicate Runs(p: Pool)
      reads this, p, p.queue
    {
      && p.Valid() && p.s == c.pool && Closing.Inv(c) && c.gil && Agree(c, ops) && ctxRefs == c.refs
      && (pool == null || pool == p) && (pool != null ==> !p.freed) && (pool != null <==> c.pointer)
    }

    ghost predicate Valid()
      reads this, pool, if pool != null then {pool.queue} else {}
    {
      && ToldRight(told, c.called, ops)
      && if pool != null then Runs(pool)
         else !c.pointer && Closing.Inv(c) && c.gil && Agree(c, ops) && ctxRefs == c.refs
    }

    /** `actor` holds the interpreter lock and is not in the middle of a call. */
    ghost predicate Mine(actor: Closing.Actor)
      reads this
    {
      c.lock == Closing.HeldBy(actor) && Closing.Doing(c.doing, actor).Idle?
    }

    lemma Unpack(p: Pool)
      requires Runs(p)
      ensures p.Valid() && p.s == c.pool && Closing.Inv(c) && c.gil && Agree(c, ops) && ctxRefs == c.refs
      ensures p.workers == c.pool.workers && p.workers != [] && (pool == null || pool == p)
      ensures (pool != null ==> !p.freed) && (pool != null <==> c.pointer)
      ensures c.pointer ==> c.pool.phase.Running?
    {
    }

    lemma Pack(p: Pool)
      requires p.Valid() && p.s == c.pool && Closing.Inv(c) && c.gil && Agree(c, ops) && ctxRefs == c.refs
      requires (pool == null || pool == p) && (pool != null ==> !p.freed) && (pool != null <==> c.pointer)
      ensures Runs(p)
    {
    }

    // ------------------------------------------------------------------ submit

    /** `Context.submit(*args)`: every argument is checked first; then the claims of the batch are handed to the
        pool in order, until it refuses one, whose claim is given back. */
    method Submit(actor: Closing.Actor, args: seq<Address>) returns (r: SubmitResult, ghost k: nat)
      requires Valid() && Mine(actor)
      modifies this`ops, this`ctxRefs, this`c, pool, if pool != null then {pool.queue} else {}
      ensures Valid() && Mine(actor) && Onward(old(c), old(ops), c, ops) && SameDoing(old(c).doing, c.doing)
      ensures r.TypeError? <==> exists i :: 0 <= i < |args| && args[i] !in old(ops)
      ensures r.NoPool? <==> pool == null && !r.TypeError?
      ensures r.TypeError? || r.NoPool? ==> ops == old(ops) && c == old(c)
      ensures r.Accepted? || r.Refused? ==>
        var claims := FirstClaims(args, Claimed(old(ops)));
        && k <= |claims| && c.pool.accepted == old(c).pool.accepted + claims[..k] && ctxRefs == old(ctxRefs) + k
        && ops.Keys == old(ops).Keys
        && (forall a :: a in ops ==>
              ops[a] == if a in claims[..k] then old(ops)[a].(inProgress := true, refs := old(ops)[a].refs + 1)
                        else old(ops)[a])
        && match r
           case Accepted(count) => count == k == |claims|
           case Refused(why) => k < |claims| && why == QueueFull && |c.pool.queue| == c.pool.size
           case _ => false
    {
      hide Runs, Onward, Closing.Inv, Agree, ToldRight;
      k := 0;
      OnwardRefl(c, ops);
      for i := 0 to |args|
        invariant ToSet(args[..i]) <= ops.Keys
      {
        if args[i] !in ops {
          return TypeError(i), k;
        }
        assert args[..i + 1] == args[..i] + [args[i]];
      }
      assert args[..|args|] == args;
      if pool == null {
        return NoPool, k;
      }
      Unpack(pool);
      r, k := HandOver(pool, actor, args);
      ToldStays(old(c), old(ops), c, ops, told);
    }

    /** The critical section of submit. */
    method HandOver(p: Pool, actor: Closing.Actor, args: seq<Address>) returns (r: SubmitResult, ghost k: nat)
      requires Runs(p) && pool == p && Mine(actor) && ToSet(args) <= ops.Keys
      modifies this`ops, this`ctxRefs, this`c, p, p.queue
      ensures Runs(p) && Mine(actor) && Onward(old(c), old(ops), c, ops) && (r.Accepted? || r.Refused?)
      ensures SameDoing(old(c).doing, c.doing) && p.freed == old(p.freed)
      ensures
        var claims := FirstClaims(args, Claimed(old(ops)));
        && k <= |claims| && c.pool.accepted == old(c).pool.accepted + claims[..k]
        && ops == Marked(old(ops), claims[..k], Taken) && ctxRefs == old(ctxRefs) + k
        && match r
           case Accepted(count) => count == k == |claims|
           case Refused(why) => k < |claims| && why == QueueFull && |c.pool.queue| == c.pool.size
           case _ => false
    {
      hide Runs, Walked, FirstClaims, Closing.Inv, Agree, Onward, Claimed, Taken;
      ghost var was, busy, before := ops, Claimed(ops), c.pool.accepted;
      ghost var taken: seq<Address> := [];
      WalkStarts(args, was, busy, Taken);
      BackToIdle(c.doing, actor, Closing.Submitting);
      Begin(p, actor);
      var i, j := 0, 0;
      while i < |args|
        invariant i <= |args| && Runs(p) && pool == p && Closing.Doing(c.doing, actor).Submitting?
        invariant Walked(args, i, was, busy, Taken, ops, taken) && j == |taken|
        invariant c.pool.accepted == before + taken && ctxRefs == old(ctxRefs) + j
        invariant Onward(old(c), was, c, ops) && c.doing == old(c).doing[actor := Closing.Submitting]
        invariant p.freed == old(p.freed)
      {
        ghost var d, now := c, ops;
        WorkersMeanwhile(p);
        OnwardTrans(old(c), was, d, now, c, ops);
        d := c;
        ClaimedMeans(args, i, was, ops, taken);
        WalkNext(args, i, was, busy, Taken, ops, taken);
        var answer := HandOne(p, actor, args[i]);
        OnwardTrans(old(c), was, d, now, c, ops);
        if answer.Some? && !answer.value.AddOk? {
          k := j;
          WalkStops(args, i, was, busy, Taken, ops, taken);
          WalkedMarks(args, i, was, busy, Taken, ops, taken);
          return Refused(answer.value), k;
        }
        if answer.Some? {
          taken := taken + [args[i]];
          j := j + 1;
        }
        i := i + 1;
      }
      k := j;
      WalkStops(args, i, was, busy, Taken, ops, taken);
      WalkedMarks(args, i, was, busy, Taken, ops, taken);
      ghost var d := c;
      End(p, actor);
      OnwardTrans(old(c), was, d, ops, c, ops);
      r := Accepted(j);
    }

    ghost method Begin(p: Pool, actor: Closing.Actor)
      requires Runs(p) && pool == p && Mine(actor)
      modifies this`c
      ensures Runs(p) && c == Closing.Set(old(c), actor, Closing.Submitting) && Onward(old(c), ops, c, ops)
      ensures Closing.Doing(c.doing, actor).Submitting?
    {
      hide Closing.Inv;
      Closing.StepKeeps(c, Closing.BeginSubmit(actor));
      AgreeSame(c, Closing.Set(c, actor, Closing.Submitting), ops);
      c := Closing.Set(c, actor, Closing.Submitting);
    }

    ghost method End(p: Pool, actor: Closing.Actor)
      requires Runs(p) && Closing.Doing(c.doing, actor).Submitting?
      modifies this`c
      ensures Runs(p) && c == Closing.Set(old(c), actor, Closing.Idle) && Onward(old(c), ops, c, ops) && Mine(actor)
    {
      Closing.SubmitterHolds(c, actor);
      hide Closing.Inv;
      Closing.StepKeeps(c, Closing.EndSubmit(actor));
      AgreeSame(c, Closing.Set(c, actor, Closing.Idle), ops);
      c := Closing.Set(c, actor, Closing.Idle);
    }

    /** Claim one Operation and hand it to the pool; a refused one is exactly as before, and ends the call. */
    method HandOne(p: Pool, actor: Closing.Actor, a: Address) returns (answer: Option<AddResult>)
      requires Runs(p) && pool == p && Closing.Doing(c.doing, actor).Submitting? && a in ops
      modifies this`ops, this`ctxRefs, this`c, p`tail, p`count, p`workers, p`s, p.queue
      ensures Runs(p) && Onward(old(c), old(ops), c, ops)
      ensures answer.None? <==> old(ops[a].inProgress)
      ensures answer == Some(AddOk) ==>
        && ops == old(ops)[a := Taken(old(ops[a]))] && ctxRefs == old(ctxRefs) + 1
        && c.pool.accepted == old(c).pool.accepted + [a]
      ensures answer != Some(AddOk) ==> ops == old(ops) && ctxRefs == old(ctxRefs) && c.pool == old(c).pool
      ensures answer.Some? && answer != Some(AddOk) ==>
        answer.value == QueueFull && |c.pool.queue| == c.pool.size && Mine(actor)
          && c.doing == old(c).doing[actor := Closing.Idle]
      ensures answer.None? || answer == Some(AddOk) ==> c.doing == old(c).doing && c.lock == old(c).lock
    {
      Unpack(p);
      Closing.SubmitterHolds(c, actor);
      hide Runs, Pool.Valid, Closing.Inv, Agree, Onward, Pools.Inv, Taken;
      ghost var was := ops;
      OnwardRefl(c, ops);
      var taken := TakeClaim(a);
      if !taken {
        return None;
      }
      var added := Offer(p, actor, a, was);
      answer := Some(added);
    }

    /** The claim is taken: the pool gets the task, or the claim is given back. */
    method Offer(p: Pool, actor: Closing.Actor, a: Address, ghost was: Ops) returns (added: AddResult)
      requires p.Valid() && p.s == c.pool && Closing.Inv(c) && c.gil && Agree(c, was) && ctxRefs == c.refs + 1
      requires pool == p && !p.freed && c.pointer && c.pool.phase.Running? && Closing.Doing(c.doing, actor).Submitting?
      requires a in was && !was[a].inProgress && ops == was[a := Taken(was[a])]
      modifies this`ops, this`ctxRefs, this`c, p`tail, p`count, p`workers, p`s, p.queue
      ensures Runs(p) && Onward(old(c), was, c, ops)
      ensures added.AddOk? ==>
        && ops == old(ops) && ctxRefs == old(ctxRefs) && c.pool.accepted == old(c).pool.accepted + [a]
        && c.doing == old(c).doing && c.lock == old(c).lock
      ensures !added.AddOk? ==>
        && added == QueueFull && |c.pool.queue| == c.pool.size && Mine(actor)
        && ops == was && ctxRefs == old(ctxRefs) - 1 && c.pool == old(c).pool
        && c.doing == old(c).doing[actor := Closing.Idle]
    {
      hide Runs, Pool.Valid, Closing.Inv, Agree, Onward, Pools.Inv, Taken;
      ghost var before, woken := c, 0;
      added, woken := p.Add(a);
      if added.AddOk? {
        SubmitStep(before, was, actor, a, woken);
        c := Closing.OneSubmitted(c, actor, a, woken);
        Pack(p);
      } else {
        GiveBack(a, was);
        Pack(p);
        End(p, actor);
      }
    }

    /** The atomic exchange, and the references of a claim. */
    method TakeClaim(a: Address) returns (taken: bool)
      requires a in ops
      modifies this`ops, this`ctxRefs
      ensures taken <==> !old(ops[a]).inProgress
      ensures ops == if taken then old(ops)[a := Taken(old(ops[a]))] else old(ops)
      ensures ctxRefs == old(ctxRefs) + if taken then 1 else 0
    {
      ghost var was := ops;
      var op := ops[a];
      ops := ops[a := op.(inProgress := true)];    // atomic exchange
      taken := !op.inProgress;
      if taken {
        ops := ops[a := ops[a].(refs := ops[a].refs + 1)];
        ctxRefs := ctxRefs + 1;
        assert ops == was[a := Taken(op)];
      } else {
        assert ops == was;
      }
    }

    method GiveBack(a: Address, ghost was: Ops)
      requires a in was && !was[a].inProgress && ops == was[a := Taken(was[a])]
      modifies this`ops, this`ctxRefs
      ensures ops == was && ctxRefs == old(ctxRefs) - 1
    {
      ops := ops[a := ops[a].(inProgress := false)];
      ops := ops[a := ops[a].(refs := ops[a].refs - 1)];
      ctxRefs := ctxRefs - 1;
    }

    lemma SubmitStep(before: Protocol, was: Ops, actor: Closing.Actor, a: Address, woken: nat)
      requires Closing.Inv(before) && Agree(before, was) && a in was && !was[a].inProgress
      requires Closing.Doing(before.doing, actor).Submitting?
      requires Pools.Enabled(before.pool, Pools.Add(a, woken))
      ensures var d := Closing.OneSubmitted(before, actor, a, woken);
        && Closing.Inv(d) && Agree(d, was[a := Taken(was[a])])
        && d == before.(claimed := before.claimed + {a}, refs := before.refs + 1,
                        pool := Pools.Added(before.pool, a, woken))
        && Onward(before, was, d, was[a := Taken(was[a])])
    {
      Closing.StepKeeps(before, Closing.SubmitOne(actor, a, woken));
      AgreeTaken(before, actor, was, a, woken);
      hide Closing.Inv;
    }

    /** What the workers may do while somebody else holds the interpreter lock: take tasks, or wake up. */
    method WorkersMeanwhile(p: Pool)
      requires Runs(p)
      modifies this`c, p`head, p`count, p`started, p`workers, p`s
      ensures Runs(p) && Onward(old(c), ops, c, ops)
      ensures c.pool.accepted == old(c).pool.accepted && c.lock == old(c).lock && c.doing == old(c).doing
    {
      hide Runs, Onward, Closing.Inv;
      var steps: nat := *;
      OnwardRefl(c, ops);
      while steps > 0
        invariant Runs(p) && Onward(old(c), ops, c, ops)
        invariant c.pool.accepted == old(c).pool.accepted && c.lock == old(c).lock && c.doing == old(c).doing
      {
        ghost var d := c;
        if i: nat :| i < |p.workers| && (p.workers[i].Blocked? || p.workers[i].Top? || p.workers[i].Woken?) {
          WorkerMoves(p, i);
          OnwardTrans(old(c), ops, d, ops, c, ops);
        }
        steps := steps - 1;
      }
    }

    /** A worker that is not running a task makes a move. */
    method WorkerMoves(p: Pool, i: nat)
      requires Runs(p) && i < |p.workers| && !p.workers[i].Busy? && !p.workers[i].Exited?
      modifies this`c, p`head, p`count, p`started, p`workers, p`s
      ensures Runs(p) && Onward(old(c), ops, c, ops)
      ensures c.pool.accepted == old(c).pool.accepted && c.lock == old(c).lock && c.doing == old(c).doing
      ensures !old(c).pool.phase.Running? ==> Pools.Remaining(c.pool) < Pools.Remaining(old(c).pool)
    {
      Unpack(p);
      hide Runs, Pool.Valid, Closing.Inv, Agree, Onward, Pools.Remaining, Pools.Locked;
      if p.workers[i].Blocked? {
        WakeStep(c, ops, i);
        p.WakeUnprompted(i);
        c := c.(pool := c.pool.(workers := c.pool.workers[i := Pools.Woken]));
        Pack(p);
      } else {
        WorkerTakes(p, i);
      }
    }

    /** A worker's critical section: it waits, exits or takes a task. */
    method WorkerTakes(p: Pool, i: nat)
      requires Runs(p) && Pools.CanLock(p.workers, i)
      modifies this`c, p`head, p`count, p`started, p`workers, p`s
      ensures Runs(p) && Onward(old(c), ops, c, ops)
      ensures c.pool.accepted == old(c).pool.accepted && c.lock == old(c).lock && c.doing == old(c).doing
      ensures !old(c).pool.phase.Running? ==> Pools.Remaining(c.pool) < Pools.Remaining(old(c).pool)
    {
      Unpack(p);
      hide Runs, Pool.Valid, Closing.Inv, Agree, Onward, Pools.Remaining, Pools.Locked;
      TakeStep(c, ops, i);
      p.TakeLock(i);
      c := c.(pool := Pools.Locked(c.pool, i));
      Pack(p);
    }

    // ------------------------------------------------------------- the workers

    /** `worker`: worker `i` runs its task - the system call gives `result` and `errno` - and, with the interpreter
        lock, publishes the outcome, calls back and drops the references. */
    method RunTask(p: Pool, i: nat, result: int, errno: nat) returns (call: Call)
      requires Runs(p) && c.lock.Free? && i < |p.workers| && p.workers[i].Busy? && (result < 0 ==> errno > 0)
      modifies this`ops, this`ctxRefs, this`told, this`c, p, p.queue
      ensures Runs(p) && c.lock.Free? && p.freed == old(p.freed)
      ensures var a := old(c).pool.workers[i].task;
        && a in old(ops) && CallsFor(call, old(ops)[a])
        && a in ops && Left(old(ops)[a], ops[a], result, errno) && ops[a].refs == 0
        && Tells(GetValue(ops[a], ops[a], ops[a], ops[a]), old(ops)[a].opcode, result, errno)
        && c.called == old(c).called + [a] && c.pool.finished == old(c).pool.finished + [a]
        && c.done == old(c).done + {a} && told == old(told) + [(a, result)]
        && Undisturbed(old(ops), ops, a)
      ensures Later(old(c), old(ops), c, ops)
      ensures !old(c).pool.phase.Running? ==> Pools.Remaining(c.pool) < Pools.Remaining(old(c).pool)
    {
      Unpack(p);
      var a := p.workers[i].task;
      Known(c, ops, i);
      hide *;
      ghost var c0, ops0 := c, ops;
      call := PublishOutcome(p, i, result, errno);
      TellAndDrop(p, i, a, result, c0, ops0);
    }

    /** What follows the publication, seen from before it. */
    method TellAndDrop(p: Pool, i: nat, a: Address, result: int, ghost c0: Protocol, ghost ops0: Ops)
      requires Runs(p) && Closing.Works(c0, i) && c0.pool.workers[i].task == a
      requires a in ops0 && a in ops && ops0[a].inProgress && ops[a].inProgress && ops[a].done
        && ops == ops0[a := ops[a]]
      requires c == c0.(lock := Closing.HeldBy(Closing.WorkerOf(i)), done := c0.done + {a})
      requires Closing.Doing(c.doing, Closing.WorkerOf(i)).Idle? && i < |c.pool.workers|
      modifies this`ops, this`ctxRefs, this`told, this`c, p, p.queue
      ensures Runs(p) && c.lock.Free? && p.freed == old(p.freed) && told == old(told) + [(a, result)]
      ensures a in ops && ops[a] == old(ops)[a].(refs := 0)
      ensures c.called == c0.called + [a] && c.pool.finished == c0.pool.finished + [a] && c.done == c0.done + {a}
      ensures Undisturbed(ops0, ops, a) && Later(c0, ops0, c, ops)
      ensures !c0.pool.phase.Running? ==> Pools.Remaining(c.pool) < Pools.Remaining(c0.pool)
    {
      hide *;
      ghost var c1, ops1 := c, ops;
      Callback(p, i, a, result);
      TaskLater(c0, ops0, i, c1, ops1, c, ops);
      DropClaim(p, i);
    }

    /** Worker `i` stores what the call returned, gets the interpreter lock, and publishes with the done flag. */
    method PublishOutcome(p: Pool, i: nat, result: int, errno: nat) returns (call: Call)
      requires Runs(p) && c.lock.Free? && i < |p.workers| && p.workers[i].Busy? && (result < 0 ==> errno > 0)
      modifies this`ops, this`c
      ensures Runs(p) && p.workers == c.pool.workers && Closing.Works(old(c), i)
      ensures var a := old(c).pool.workers[i].task;
        && a in old(ops) && a in ops && ops == old(ops)[a := ops[a]] && ops[a].inProgress == old(ops)[a].inProgress
        && CallsFor(call, old(ops)[a]) && Left(old(ops)[a], ops[a], result, errno)
        && Tells(GetValue(ops[a], ops[a], ops[a], ops[a]), old(ops)[a].opcode, result, errno)
        && c == old(c).(lock := Closing.HeldBy(Closing.WorkerOf(i)), done := old(c).done + {a})
      ensures Closing.Doing(c.doing, Closing.WorkerOf(i)).Idle?
    {
      Unpack(p);
      var a := p.workers[i].task;
      hide Runs, Closing.Inv, Agree, Pools.Remaining, Pool.Valid;
      Known(c, ops, i);
      ghost var was, returned, published := ops, [], [];
      call, returned := StoreResult(a, result, errno);
      LockStep(c, was, i);
      c := c.(lock := Closing.HeldBy(Closing.WorkerOf(i)));
      published := StoreDone(a);
      WritesFinal(was[a], result, errno);
      assert ops == was[a := ops[a]];
      PublishStep(c, was, i, ops[a]);
      c := c.(done := c.done + {a});
      Pack(p);
    }

    /** Worker `i` is through: the references of its task go, and then the interpreter lock. */
    method DropClaim(p: Pool, i: nat)
      requires Runs(p) && Closing.MayTouch(c, i)
      requires c.pool.workers[i].task in c.done && Closing.Doing(c.doing, Closing.WorkerOf(i)).Idle?
      modifies this`ops, this`ctxRefs, this`c, p`workers, p`s
      ensures Runs(p) && c.lock.Free?
      ensures c == Closing.WorkDone(old(c), i)
      ensures var a := old(c).pool.workers[i].task;
        a in old(ops) && ops == old(ops)[a := old(ops)[a].(refs := 0)]
      ensures !old(c).pool.phase.Running? ==> Pools.Remaining(c.pool) < Pools.Remaining(old(c).pool)
    {
      Unpack(p);
      var a := p.workers[i].task;
      hide Runs, Closing.Inv, Agree, Pools.Remaining, Pool.Valid;
      DropStep(c, ops, i);
      p.FinishTask(i);
      ops := ops[a := ops[a].(refs := ops[a].refs - 1)];
      ctxRefs := ctxRefs - 1;
      c := Closing.WorkDone(c, i);
      Pack(p);
    }

    /** The call that the worker makes for an Operation, with its descriptor and size as C `int`s. */
    static method SystemCall(op: Operation) returns (call: Call)
      ensures CallsFor(call, op)
    {
      var fd, size := AsInt(op.fileno), AsInt(op.bufSize);
      AsIntIs(op.fileno);
      AsIntIs(op.bufSize);
      match op.opcode {
        case Write => call := Pwrite(fd, size, op.offset);
        case Fsync => call := SyncAll(fd);
        case Fdsync => call := SyncData(fd);
        case Read => call := Pread(fd, size, op.offset);
      }
    }

    /** The stores of the worker function that need no lock, one by one, and the system call between them. */
    method StoreResult(a: Address, result: int, errno: nat) returns (call: Call, ghost trace: seq<Operation>)
      requires a in ops
      modifies this`ops
      ensures CallsFor(call, old(ops[a]))
      ensures trace == Writes(old(ops[a]), result, errno)[..5] && ops == old(ops)[a := trace[4]]
    {
      var op := ops[a];
      trace := [op];
      op := op.(error := 0);
      trace := trace + [op];
      call := SystemCall(op);
      op := op.(result := result);
      trace := trace + [op];
      if result < 0 {
        op := op.(error := errno);
      }
      trace := trace + [op];
      if op.opcode.Read? {
        op := op.(bufSize := result);
      }
      trace := trace + [op];
      ops := ops[a := op];
    }

    /** The stores made with the lock: the Python buffer of a write goes, then the Operation is done. */
    method StoreDone(a: Address) returns (ghost trace: seq<Operation>)
      requires a in ops
      modifies this`ops
      ensures forall op, result, errno :: Writes(op, result, errno)[4] == old(ops[a]) ==>
        trace == Writes(op, result, errno)[5..]
      ensures |trace| == 2 && ops == old(ops)[a := trace[1]]
    {
      var op := ops[a];
      trace := [];
      if op.opcode.Write? {
        op := op.(payload := false);
      }
      trace := trace + [op];
      op := op.(done := true);
      trace := trace + [op];
      ops := ops[a := op];
    }

    /** The user's callback on worker `i`, which holds the interpreter lock, is told the result: it may submit again,
        and the other workers go on as far as they can. */
    method Callback(p: Pool, i: nat, a: Address, result: int)
      requires Runs(p) && c.lock == Closing.HeldBy(Closing.WorkerOf(i)) && i < |c.pool.workers|
      requires Closing.Doing(c.doing, Closing.WorkerOf(i)).Idle?
      modifies this`ops, this`ctxRefs, this`told, this`c, p, p.queue
      ensures told == old(told) + [(a, result)]
      ensures Runs(p) && Onward(old(c), old(ops), c, ops) && p.freed == old(p.freed)
      ensures c.lock == old(c).lock && SameDoing(old(c).doing, c.doing)
    {
      hide Runs, Onward, Closing.Inv, Agree;
      OnwardRefl(c, ops);
      Unpack(p);
      told := told + [(a, result)];
      Pack(p);
      var steps: nat := *;
      while steps > 0
        invariant Runs(p) && Onward(old(c), old(ops), c, ops) && Mine(Closing.WorkerOf(i)) && p.freed == old(p.freed)
        invariant SameDoing(old(c).doing, c.doing) && told == old(told) + [(a, result)]
      {
        ghost var d, now := c, ops;
        var again: bool := *;
        if again && pool != null {
          var args: seq<Address> := *;
          if forall k :: 0 <= k < |args| ==> args[k] in ops {
            Unpack(p);
            AllIn(args, ops);
            ghost var k;
            var r;
            r, k := HandOver(p, Closing.WorkerOf(i), args);
          } else {
            OnwardRefl(c, ops);
          }
        } else {
          WorkersMeanwhile(p);
        }
        OnwardTrans(old(c), old(ops), d, now, c, ops);
        steps := steps - 1;
      }
    }

    /** Some worker that has not exited makes a move; the interpreter lock is free for it to take. */
    method SomeWorkerMoves(p: Pool, i: nat)
      requires Runs(p) && c.lock.Free? && i < |p.workers| && !p.workers[i].Exited? && ToldRight(told, c.called, ops)
      modifies this`ops, this`ctxRefs, this`told, this`c, p, p.queue
      ensures ToldRight(told, c.called, ops)
      ensures Runs(p) && c.lock.Free? && p.freed == old(p.freed)
      ensures Later(old(c), old(ops), c, ops)
      ensures !old(c).pool.phase.Running? ==> Pools.Remaining(c.pool) < Pools.Remaining(old(c).pool)
    {
      Unpack(p);
      hide Runs, Closing.Inv, Agree, Onward, Later, Pools.Remaining, Pool.Valid, ToldRight, Undisturbed, GetValue,
        Tells;
      ghost var d, was, telling := c, ops, told;
      if p.workers[i].Busy? {
        var result: int, errno: nat := *, *;
        Known(c, ops, i);
        CalledAreClaimed(c, ops);
        var _ := RunTask(p, i, result, errno + 1);
        ToldOne(d, was, ops, d.pool.workers[i].task, telling);
      } else {
        WorkerMoves(p, i);
        OnwardIsLater(d, ops, c, ops);
        ToldStays(d, ops, c, ops, told);
      }
    }

    /** The interpreter runs other threads between two calls of `actor`. */
    method Switch(actor: Closing.Actor)
      requires Valid() && Mine(actor) && actor.Python? && pool != null
      modifies this`ops, this`ctxRefs, this`told, this`c, pool, pool.queue
      ensures Valid() && Mine(actor) && Later(old(c), old(ops), c, ops)
    {
      Unpack(pool);
      hide Runs, Closing.Inv, Agree, Later, Pool.Valid, Pools.Remaining, ToldRight;
      ghost var before, was := c, ops;
      ReleaseStep(c, ops, actor);
      c := c.(lock := Closing.Free);
      Pack(pool);
      var steps: nat := *;
      while steps > 0
        invariant Runs(pool) && pool == old(pool) && c.lock.Free? && Later(before, was, c, ops)
        invariant ToldRight(told, c.called, ops)
      {
        ghost var d, now := c, ops;
        if i: nat :| i < |pool.workers| && !pool.workers[i].Exited? {
          SomeWorkerMoves(pool, i);
          LaterTrans(before, was, d, now, c, ops);
        }
        steps := steps - 1;
      }
      Unpack(pool);
      LaterMeans(before, was, c, ops, actor);
      AcquireStep(c, ops, actor);
      LaterTrans(before, was, c, ops, c.(lock := Closing.HeldBy(actor)), ops);
      c := c.(lock := Closing.HeldBy(actor));
      Pack(pool);
    }

    // ------------------------------------------------------------------- close

    /** `Context.close()`: the pointer is swapped out, then the pool is shut down gracefully and joined, with the
        interpreter lock given up; the one that finds no pointer returns at once. */
    method Close(actor: Closing.Actor)
      requires Valid() && Mine(actor) && actor.Python?
      modifies this, pool, if pool != null then {pool.queue} else {}
      ensures Valid() && Mine(actor) && pool == null && c.pool.accepted == old(c).pool.accepted
      ensures old(pool) == null ==> c == old(c) && ops == old(ops) && ctxRefs == old(ctxRefs)
      ensures old(pool) != null ==>
        && old(pool).freed && c.joined && ctxRefs == 0
        && (forall a :: a in c.pool.accepted ==> a in ops && ops[a].done && ops[a].refs == 0)
        && multiset(c.called) == multiset(c.pool.accepted) && NoDup(c.called) && ToldRight(told, c.called, ops)
    {
      hide Runs, Closing.Inv, Agree, Later, Pool.Valid, Pools.Remaining, ToldRight;
      if pool == null {
        return;
      }
      var p := pool;
      Unpack(p);
      SwapSteps(c, ops, actor);
      pool := null;
      c := Closing.Set(c.(pointer := false, lock := Closing.Free), actor, Closing.Detached);
      DestroyStep(c, ops, actor);
      p.ShutDown(true);
      c := Closing.Set(c.(pool := Pools.Destroyed(c.pool, true), destroys := c.destroys + 1), actor, Closing.Joining);
      Pack(p);
      Join(p, actor);
      Unpack(p);
      JoinStep(c, ops, actor);
      p.Free();
      c := Closing.Set(c.(joined := true, lock := Closing.HeldBy(actor)), actor, Closing.Idle);
      EverythingDone(c, ops);
    }

    /** The join loop of `threadpool_destroy`: while it waits, the workers go on in any order. */
    method Join(p: Pool, actor: Closing.Actor)
      requires Runs(p) && pool == null && c.lock.Free? && Closing.Doing(c.doing, actor).Joining? && !p.freed
      requires ToldRight(told, c.called, ops)
      modifies this`ops, this`ctxRefs, this`told, this`c, p, p.queue
      ensures ToldRight(told, c.called, ops)
      ensures Runs(p) && c.lock.Free? && !p.freed && Closing.Doing(c.doing, actor).Joining?
      ensures Pools.Stopped(c.pool) && c.pool.accepted == old(c).pool.accepted
    {
      hide Runs, Closing.Inv, Agree, Later, Pools.Remaining, ToldRight;
      Unpack(p);
      LaterRefl(c, ops);
      JoinerShuts(c, actor);
      var i, n := 0, |p.workers|;
      while i < n
        invariant Runs(p) && c.lock.Free? && !p.freed && Closing.Doing(c.doing, actor).Joining?
        invariant Later(old(c), old(ops), c, ops) && i <= |p.workers| == n && p.workers == c.pool.workers
        invariant !c.pool.phase.Running? && ToldRight(told, c.called, ops)
        invariant forall j :: 0 <= j < i ==> c.pool.workers[j].Exited?
      {
        while !p.workers[i].Exited?
          invariant Runs(p) && c.lock.Free? && !p.freed && Closing.Doing(c.doing, actor).Joining?
          invariant Later(old(c), old(ops), c, ops) && i < |p.workers| == n && p.workers == c.pool.workers
          invariant !c.pool.phase.Running? && ToldRight(told, c.called, ops)
          invariant forall j :: 0 <= j < i ==> c.pool.workers[j].Exited?
          decreases Pools.Remaining(c.pool)
        {
          ghost var d, now := c, ops;
          var j: nat :| j < |p.workers| && !p.workers[j].Exited?;
          SomeWorkerMoves(p, j);
          Unpack(p);
          LaterMeans(d, now, c, ops, actor);
          LaterTrans(old(c), old(ops), d, now, c, ops);
        }
        i := i + 1;
      }
      LaterMeans(old(c), old(ops), c, ops, actor);
    }
  }
}
