/** The pure-Python Contexts of a process: claim and slot, scheduling with rollback,
    completion, close.

    A method is a `with` block of the original, or a sequence of them; `threads`
    tells where each Python thread is, and the ghost field `l` is the state of
    LockProtocol that is being run.  Between the blocks of a call the other
    threads do whatever they can, unless the caller says that it is `alone`. */
module PythonAio {
  import opened Bags
  import opened Claims
  import Locks = LockProtocol
  import opened PythonSteps
  import opened Wrappers

  class Process {
    var ctxs: map<Id, Locks.Ctx>      // the Contexts: `_in_progress`, `max_requests`, `_state`
    var ops: Ops                      // the Operations
    var jobs: map<Address, Id>        // handed to the ThreadPool of a Context, result not taken
    var threads: seq<Locks.Pc>
    ghost var l: Locks.State

    constructor (threads: nat, limits: map<Id, nat>, ops: Ops)
      requires forall a :: a in ops ==> !ops[a].inProgress && ops[a].exception.None?
      ensures Valid() && this.ops == ops && jobs == map[] && Locks.AllIdle(this.threads)
      ensures ctxs.Keys == limits.Keys && forall c :: c in limits ==> ctxs[c] == Locks.Ctx(0, limits[c], Locks.Open)
    {
      ctxs := map c | c in limits :: Locks.Ctx(0, limits[c], Locks.Open);
      this.ops, jobs := ops, map[];
      this.threads := seq(threads, _ => Locks.Idle);
      l := Locks.Init(threads, map c | c in limits :: Locks.Ctx(0, limits[c], Locks.Open));
      Locks.InitInv(threads, map c | c in limits :: Locks.Ctx(0, limits[c], Locks.Open));
    }

    ghost predicate Valid()
      reads this
    {
      Locks.Inv(l) && l.threads == threads && l.ctxs == ctxs && Agree(l, ops, jobs)
    }

    // ------------------------------------------------ one step of one thread each

    /** The thread comes to a call, or to the lock of an Operation or a Context. */
    method Go(u: nat, pc: Locks.Pc, ghost e: Locks.Event)
      requires Valid() && u < |threads| && Locks.Enabled(l, e) && Mentions(pc, ops.Keys, ctxs.Keys)
      requires Locks.Apply(l, e) == Locks.AtPc(l, u, pc)
      modifies this`threads, this`l
      ensures Valid() && l == Locks.Apply(old(l), e) && Grown(old(l), l)
    {
      hide Locks.Inv, Locks.Apply, Locks.Enabled, Agree, Grown, Mentions;
      StepGrows(l, e);
      Locks.StepKeeps(l, e);
      Moved(l, ops, jobs, u, pc);
      threads := threads[u := pc];
      l := Locks.Apply(l, e);
    }

    /** The thread gets the lock it wants. */
    method Enter(u: nat)
      requires Valid() && u < |threads| && Locks.CanLock(threads, u)
      modifies this`threads, this`l
      ensures Valid() && l == Locks.AtPc(old(l), u, Locks.Locked(old(l).threads[u])) && Grown(old(l), l)
    {
      hide Locks.Inv, Flags, Queued, Grown, Locks.CanLock;
      Go(u, Locks.Locked(threads[u]), Locks.Lock(u));
    }

    /** The claim under both locks. */
    method ClaimSection(u: nat) returns (r: Scheduling)
      requires Valid() && u < |threads| && threads[u].Inside? && threads[u].why.Claim?
      modifies this`ops, this`ctxs, this`threads, this`l
      ensures Valid() && l == Locks.Left(old(l), u) && Grown(old(l), l)
      ensures var a, c := old(threads)[u].op, old(threads)[u].c;
        && a in old(ops) && c in old(ctxs)
        && r == (if old(ops)[a].inProgress then Skipped
                 else if old(ctxs)[c].mode.Closed? then ContextClosed
                 else if old(ctxs)[c].inProgress >= old(ctxs)[c].max then LimitReached
                 else Scheduled)
        && ops == (if r.Scheduled? then old(ops)[a := Taken(old(ops)[a])] else old(ops))
        && ctxs == (if r.Scheduled? then old(ctxs)[c := old(ctxs)[c].(inProgress := old(ctxs)[c].inProgress + 1)]
                    else old(ctxs))
        && threads == old(threads)[u := if r.Scheduled? then Locks.Scheduling(a, c) else Locks.Idle]
        && (r.Scheduled? <==> Locks.Claims(old(l), a, c))
    {
      hide Locks.Inv, Locks.CanLock, Grown, Agree;
      ClaimStep(l, ops, jobs, u);
      var a, c := threads[u].op, threads[u].c;
      l := Locks.Left(l, u);
      if ops[a].inProgress {
        threads := threads[u := Locks.Idle];
        return Skipped;
      }
      if ctxs[c].mode.Closed? {
        threads := threads[u := Locks.Idle];
        return ContextClosed;
      }
      if ctxs[c].inProgress >= ctxs[c].max {
        threads := threads[u := Locks.Idle];
        return LimitReached;
      }
      ops := ops[a := ops[a].(inProgress := true)];
      ctxs := ctxs[c := ctxs[c].(inProgress := ctxs[c].inProgress + 1)];
      threads := threads[u := Locks.Scheduling(a, c)];
      r := Scheduled;
    }

    /** `_rollback_claim`, under both locks. */
    method RollbackSection(u: nat)
      requires Valid() && u < |threads| && threads[u].Inside? && threads[u].why.Rollback?
      modifies this`ops, this`ctxs, this`threads, this`l
      ensures Valid() && l == Locks.Left(old(l), u) && Grown(old(l), l)
      ensures var a, c := old(threads)[u].op, old(threads)[u].c;
        && a in old(ops) && ops == old(ops)[a := old(ops)[a].(inProgress := false)]
        && threads == old(threads)[u := Locks.Idle]
        && c in old(ctxs) && ctxs == old(ctxs)[c := old(ctxs)[c].(inProgress := old(ctxs)[c].inProgress - 1)]
    {
      hide Locks.Inv, Locks.CanLock, Grown, Agree;
      RollbackStep(l, ops, jobs, u);
      var a, c := threads[u].op, threads[u].c;
      l := Locks.Left(l, u);
      ops := ops[a := ops[a].(inProgress := false)];
      ctxs := ctxs[c := ctxs[c].(inProgress := ctxs[c].inProgress - 1)];
      threads := threads[u := Locks.Idle];
    }

    /** `ThreadPool.apply_async`: a pool that was closed refuses everything, a running one may refuse too. */
    method ApplyAsync(u: nat, refused: set<Address>) returns (ok: bool)
      requires Valid() && u < |threads| && threads[u].Scheduling?
      modifies this`jobs, this`threads, this`l
      ensures var a, c := old(threads)[u].op, old(threads)[u].c;
        && c in ctxs && (ok <==> ctxs[c].mode.Open? && a !in refused)
        && Locks.Enabled(old(l), Locks.Schedule(u, ok)) && l == Locks.Apply(old(l), Locks.Schedule(u, ok))
        && jobs == if ok then old(jobs)[a := c] else old(jobs)
      ensures Valid() && Grown(old(l), l)
    {
      hide Locks.Inv, Locks.CanLock, Grown, Agree;
      Inside(l, ops, jobs, u);
      var a, c := threads[u].op, threads[u].c;
      ok := ctxs[c].mode.Open? && a !in refused;
      ScheduleStep(l, ops, jobs, u, ok);
      l := Locks.Apply(l, Locks.Schedule(u, ok));
      if ok {
        jobs := jobs[a := c];
        threads := threads[u := Locks.Idle];
      } else {
        threads := threads[u := Locks.WantOp(Locks.Rollback, a, c)];
      }
    }

    /** The handler, in a worker thread of the pool: a read puts what it got into the buffer. */
    method HandlerStores(a: Address, data: seq<nat>)
      requires Valid() && a in jobs && a in ops && ops[a].opcode.Read?
      modifies this`ops
      ensures Valid() && ops == old(ops)[a := old(ops)[a].(buffer := data)]
    {
      hide Locks.Inv;
      ops := ops[a := ops[a].(buffer := data)];
    }

    /** The result-handler thread takes a finished job. */
    method TakeResult(u: nat, a: Address)
      requires Valid() && u < |threads| && threads[u].Idle? && a in jobs
      modifies this`jobs, this`threads, this`l
      ensures Valid() && Locks.Enabled(old(l), Locks.TakeResult(u, a))
        && l == Locks.Apply(old(l), Locks.TakeResult(u, a))
      ensures Grown(old(l), l) && a in ops && threads[u] == Locks.WantSlot(a, old(jobs)[a]) && jobs == old(jobs) - {a}
    {
      hide Locks.Inv, Locks.CanLock, Grown, Agree;
      TakeStep(l, ops, jobs, u, a);
      l := Locks.Apply(l, Locks.TakeResult(u, a));
      threads := threads[u := Locks.WantSlot(a, jobs[a])];
      jobs := jobs - {a};
    }

    /** `_release_slot`. */
    method SlotSection(u: nat)
      requires Valid() && u < |threads| && threads[u].InsideSlot?
      modifies this`ctxs, this`threads, this`l
      ensures Valid() && l == Locks.Left(old(l), u) && Grown(old(l), l)
      ensures var a, c := old(threads)[u].op, old(threads)[u].c;
        && threads == old(threads)[u := Locks.WantCallback(a)]
        && c in old(ctxs) && ctxs == old(ctxs)[c := old(ctxs)[c].(inProgress := old(ctxs)[c].inProgress - 1)]
        && Locks.StageOf(l.stages, a) == Locks.Released(c)
    {
      hide Locks.Inv, Locks.CanLock, Grown, Agree;
      SlotStep(l, ops, jobs, u);
      var a, c := threads[u].op, threads[u].c;
      l := Locks.Left(l, u);
      ctxs := ctxs[c := ctxs[c].(inProgress := ctxs[c].inProgress - 1)];
      threads := threads[u := Locks.WantCallback(a)];
    }

    /** `on_success` and `on_error`, after the slot was given back. */
    method StoreOutcome(u: nat, outcome: Outcome) returns (argument: Option<int>)
      requires Valid() && u < |threads| && threads[u].WantCallback?
      modifies this`ops
      ensures Valid()
      ensures var a := threads[u].op;
        && a in old(ops) && a in ops && ops == old(ops)[a := ops[a]]
        && ops[a].inProgress == old(ops)[a].inProgress && ops[a].buffer == old(ops)[a].buffer
        && ops[a].opcode == old(ops)[a].opcode
        && (old(ops)[a].exception.None? ==> Reads(ops[a], outcome))
      ensures argument == if outcome.Success? then outcome.result else None
    {
      CallbackReleased(l, u);
      Inside(l, ops, jobs, u);
      hide Locks.Inv, Agree;
      ghost var was := ops;
      var a := threads[u].op;
      match outcome {
        case Success(result) =>
          ops := ops[a := ops[a].(written := result)];
          argument := result;
        case Failure(e) =>
          ops := ops[a := ops[a].(exception := Some(e))];
          ops := ops[a := ops[a].(written := Some(0))];
          argument := None;
      }
      assert ops == was[a := ops[a]];
      OutcomeAgrees(l, was, jobs, a, ops[a]);
    }

    /** The callback is read under the Operation's lock, and called. */
    method CallbackSection(u: nat)
      requires Valid() && u < |threads| && threads[u].InsideCallback?
      modifies this`threads, this`l
      ensures Valid() && l == Locks.Left(old(l), u) && Grown(old(l), l)
    {
      hide Locks.Inv, Locks.CanLock, Grown, Agree;
      CallbackStep(l, ops, jobs, u);
      l := Locks.Left(l, u);
      threads := threads[u := Locks.Idle];
    }

    /** The Context and its pool are closed under the Context's lock. */
    method CloseSection(u: nat)
      requires Valid() && u < |threads| && threads[u].InsideClose?
      modifies this`ctxs, this`threads, this`l
      ensures Valid() && l == Locks.Left(old(l), u) && Grown(old(l), l)
      ensures var c := old(threads)[u].c;
        && threads == old(threads)[u := Locks.Idle]
        && c in old(ctxs) && ctxs == old(ctxs)[c := old(ctxs)[c].(mode := Locks.Closed)]
    {
      hide Locks.Inv, Locks.CanLock, Grown, Agree;
      CloseStep(l, ops, jobs, u);
      var c := threads[u].c;
      l := Locks.Left(l, u);
      ctxs := ctxs[c := ctxs[c].(mode := Locks.Closed)];
      threads := threads[u := Locks.Idle];
    }

    // -------------------------------------------------------- the other threads

    /** Thread `u` makes a move, whatever it is up to. */
    method OneStep(u: nat, t: nat)
      requires Valid() && u < |threads| && t < |threads| && u != t
      modifies this
      ensures Valid() && Grown(old(l), l) && Kept(old(l), old(ops), l, ops, t)
    {
      hide Locks.Inv, Locks.CanLock, Locks.Left, Grown, Kept, Agree, Locks.Claims;
      StandStill(l, ops, t);
      if Locks.CanLock(threads, u) {
        StepKept(l, ops, Locks.Lock(u), ops, t);
        Enter(u);
      } else if Locks.IsInside(threads[u]) {
        LeaveSection(u, t);
      } else if threads[u].Scheduling? {
        var ok: bool := *;
        TrySchedule(u, t, ok);
      } else if threads[u].Idle? {
        Begins(u, t);
      }
    }

    /** A worker thread of some pool is through with reading. */
    method SomeHandler(t: nat)
      requires Valid() && t < |threads|
      modifies this`ops
      ensures Valid() && Grown(l, l) && Kept(l, old(ops), l, ops, t)
    {
      hide Locks.Inv, Locks.CanLock, Grown, Kept, Agree;
      StandStill(l, ops, t);
      if a :| a in jobs && a in ops && ops[a].opcode.Read? {
        var data: seq<nat> := *;
        JobsAre();
        HandlerKept(l, ops, a, ops[a].(buffer := data), t);
        HandlerStores(a, data);
      }
    }

    method TrySchedule(u: nat, t: nat, ok: bool)
      requires Valid() && u < |threads| && t < |threads| && u != t && threads[u].Scheduling?
      modifies this`jobs, this`threads, this`l
      ensures Valid() && Grown(old(l), l) && Kept(old(l), ops, l, ops, t)
    {
      hide Locks.Inv, Locks.CanLock, Grown, Kept, Agree;
      ghost var before := l;
      var done := ApplyAsync(u, if ok then {} else {threads[u].op});
      StepKept(before, ops, Locks.Schedule(u, done), ops, t);
    }

    /** An idle thread begins a call, or handles a result. */
    method Begins(u: nat, t: nat)
      requires Valid() && u < |threads| && t < |threads| && u != t && threads[u].Idle?
      modifies this`jobs, this`threads, this`l
      ensures Valid() && Grown(old(l), l) && Kept(old(l), ops, l, ops, t)
    {
      hide Locks.Inv, Locks.CanLock, Grown, Kept, Agree;
      StandStill(l, ops, t);
      var which: nat := *;
      if a :| a in jobs {
        JobsAre();
        if which == 0 {
          StepKept(l, ops, Locks.TakeResult(u, a), ops, t);
          TakeResult(u, a);
          return;
        }
      }
      if c :| c in ctxs {
        if which == 1 && ctxs[c].mode.Open? {
          StepKept(l, ops, Locks.BeginClose(u, c), ops, t);
          Go(u, Locks.WantClose(c), Locks.BeginClose(u, c));
          return;
        }
        if a :| a in ops {
          StepKept(l, ops, Locks.BeginSubmit(u, a, c), ops, t);
          Go(u, Locks.WantOp(Locks.Claim, a, c), Locks.BeginSubmit(u, a, c));
        }
      }
    }

    lemma JobsAre()
      requires Valid()
      ensures l.jobs == jobs.Keys
    {
    }

    /** The `with` block that thread `u` is in, and what follows it up to the next lock. */
    method LeaveSection(u: nat, t: nat)
      requires Valid() && u < |threads| && t < |threads| && u != t && Locks.IsInside(threads[u])
      modifies this
      ensures Valid() && Grown(old(l), l) && Kept(old(l), old(ops), l, ops, t)
      ensures threads == Locks.Left(old(l), u).threads
    {
      hide Locks.Inv, Locks.CanLock, Locks.Left, Grown, Kept, Agree, Locks.Claims;
      ghost var before, was, e := l, ops, Locks.Leave(u);
      match threads[u] {
        case Inside(Claim, _, _) =>
          ClaimChanges(l, u);
          var _ := ClaimSection(u);
          StepKept(before, was, e, ops, t);
        case Inside(Rollback, _, _) =>
          RollbackChanges(l, u);
          RollbackSection(u);
          StepKept(before, was, e, ops, t);
        case InsideSlot(_, _) =>
          SlotThenOutcome(u, t);
        case InsideCallback(_) =>
          StepKept(before, was, e, ops, t);
          CallbackSection(u);
        case InsideClose(_) =>
          StepKept(before, was, e, ops, t);
          CloseSection(u);
      }
    }

    method SlotThenOutcome(u: nat, t: nat)
      requires Valid() && u < |threads| && t < |threads| && u != t && threads[u].InsideSlot?
      modifies this`ctxs, this`ops, this`threads, this`l
      ensures Valid() && Grown(old(l), l) && Kept(old(l), old(ops), l, ops, t)
      ensures threads == Locks.Left(old(l), u).threads
    {
      hide Locks.Inv, Locks.CanLock, Grown, Kept, Agree;
      ghost var before, was := l, ops;
      RollbackChanges(l, u);
      SlotSection(u);
      var outcome: Outcome := *;
      var _ := StoreOutcome(u, outcome);
      StepKept(before, was, Locks.Leave(u), ops, t);
    }

    method SomeMove(t: nat)
      requires Valid() && t < |threads|
      modifies this
      ensures Valid() && Grown(old(l), l) && Kept(old(l), old(ops), l, ops, t)
    {
      hide Locks.Inv, Grown, Kept, Agree;
      var byHandler: bool := *;
      if byHandler {
        SomeHandler(t);
        return;
      }
      var u: nat := *;
      if u < |threads| && u != t {
        OneStep(u, t);
      } else {
        StandStill(l, ops, t);
      }
    }

    /** Between two steps of thread `t` the others make any number of moves, in any order. */
    method Others(t: nat, alone: bool)
      requires Valid() && t < |threads| && (alone ==> Alone(threads, t))
      modifies this
      ensures Valid() && Grown(old(l), l) && Kept(old(l), old(ops), l, ops, t)
      ensures alone ==> l == old(l) && ops == old(ops) && jobs == old(jobs)
    {
      hide Locks.Inv, Locks.CanLock, Grown, Kept, Agree, Alone;
      StandStill(l, ops, t);
      if alone {
        return;
      }
      var moves: nat := *;
      while moves > 0
        invariant Valid() && Grown(old(l), l) && Kept(old(l), old(ops), l, ops, t)
        invariant |threads| == |old(threads)|
      {
        ghost var m, now := l, ops;
        SomeMove(t);
        GrownTrans(old(l), m, l);
        KeptTrans(old(l), old(ops), m, now, l, ops, t);
        KeptMeans(old(l), old(ops), l, ops, t);
        moves := moves - 1;
      }
    }

    /** Thread `t` waits for the lock it wants: the others go on, and whoever holds it leaves. */
    method Await(t: nat, alone: bool)
      requires Valid() && t < |threads| && Locks.Wants(threads[t]) && (alone ==> Alone(threads, t))
      modifies this
      ensures Valid() && Grown(old(l), l) && Kept(old(l), old(ops), l, ops, t)
      ensures |threads| == |old(threads)| && Locks.CanLock(threads, t)
      ensures alone ==> l == old(l) && ops == old(ops) && jobs == old(jobs)
    {
      hide Locks.Inv, Locks.CanLock, Grown, Kept, Agree, Alone;
      Others(t, alone);
      KeptMeans(old(l), old(ops), l, ops, t);
      if alone {
        AloneCanLock(threads, t);
      }
      while !Locks.CanLock(threads, t)
        invariant Valid() && Grown(old(l), l) && Kept(old(l), old(ops), l, ops, t)
        invariant |threads| == |old(threads)| && threads[t] == old(threads)[t]
        invariant alone ==> Locks.CanLock(threads, t) && l == old(l) && ops == old(ops) && jobs == old(jobs)
        decreases Locks.Grips(threads)
      {
        Locks.WaitingForSomebody(threads, t);
        var u: nat :| Locks.LetsGo(threads, u) && u != t;
        ghost var m, now := l, ops;
        LetGo(u, t);
        GrownTrans(old(l), m, l);
        KeptTrans(old(l), old(ops), m, now, l, ops, t);
        KeptMeans(old(l), old(ops), l, ops, t);
      }
    }

    /** The holder of a lock goes on with what it is doing inside. */
    method LetGo(u: nat, t: nat)
      requires Valid() && Locks.LetsGo(threads, u) && t < |threads| && u != t
      modifies this
      ensures Valid() && Grown(old(l), l) && Kept(old(l), old(ops), l, ops, t)
      ensures Locks.Grips(threads) < Locks.Grips(old(threads))
    {
      hide Locks.Inv, Locks.CanLock, Locks.Left, Grown, Kept, Agree, Locks.Grips;
      if Locks.IsInside(threads[u]) {
        LeftGrips(l, u);
        LeaveSection(u, t);
      } else {
        Locks.GripsUpdate(threads, u, Locks.Locked(threads[u]));
        StepKept(l, ops, Locks.Lock(u), ops, t);
        Enter(u);
      }
    }

    /** `with lock:`, for one lock, and what the others do before the block is over. */
    method AcquireOne(t: nat, alone: bool)
      requires Valid() && t < |threads| && Locks.Wants(threads[t]) && (alone ==> Alone(threads, t))
      modifies this
      ensures Valid() && Grown(old(l), l) && Mine(old(l), old(ops), l, ops, t)
      ensures |threads| == |old(threads)| && threads[t] == Locks.Locked(old(threads)[t])
      ensures alone ==> l == Locks.AtPc(old(l), t, threads[t]) && ops == old(ops) && jobs == old(jobs)
    {
      hide Locks.Inv, Locks.CanLock, Grown, Kept, Mine, Agree;
      Acquire(t, alone);
      ghost var m, now := l, ops;
      Others(t, alone);
      KeptIsMine(m, now, l, ops, t);
      GrownTrans(old(l), m, l);
      MineTrans(old(l), old(ops), m, now, l, ops, t);
    }

    // ------------------------------------------------------------ claim, schedule

    /** Thread `t` waits for a lock and gets it. */
    method Acquire(t: nat, alone: bool)
      requires Valid() && t < |threads| && Locks.Wants(threads[t]) && (alone ==> Alone(threads, t))
      modifies this
      ensures Valid() && Grown(old(l), l) && Mine(old(l), old(ops), l, ops, t)
      ensures |threads| == |old(threads)| && threads[t] == Locks.Locked(old(threads)[t])
      ensures alone ==> l == Locks.AtPc(old(l), t, threads[t]) && ops == old(ops) && jobs == old(jobs)
    {
      hide Locks.Inv, Locks.CanLock, Grown, Kept, Mine, Agree, Alone;
      Await(t, alone);
      KeptIsMine(old(l), old(ops), l, ops, t);
      ghost var m := l;
      EnteringIsMine(l, ops, t);
      Enter(t);
      GrownTrans(old(l), m, l);
      MineTrans(old(l), old(ops), m, ops, l, ops, t);
    }

    /** `with operation._lock, self._lock:`, and what the others do before the block is over. */
    method AcquireBoth(t: nat, alone: bool)
      requires Valid() && t < |threads| && threads[t].WantOp? && (alone ==> Alone(threads, t))
      modifies this
      ensures Valid() && Grown(old(l), l) && Mine(old(l), old(ops), l, ops, t)
      ensures var pc := old(threads)[t];
        |threads| == |old(threads)| && threads[t] == Locks.Inside(pc.why, pc.op, pc.c)
      ensures alone ==> l == Locks.AtPc(old(l), t, threads[t]) && ops == old(ops) && jobs == old(jobs)
    {
      hide Locks.Inv, Locks.CanLock, Grown, Kept, Mine, Agree;
      Acquire(t, alone);
      ghost var m, now := l, ops;
      Acquire(t, alone);
      GrownTrans(old(l), m, l);
      MineTrans(old(l), old(ops), m, now, l, ops, t);
      m, now := l, ops;
      Others(t, alone);
      KeptIsMine(m, now, l, ops, t);
      GrownTrans(old(l), m, l);
      MineTrans(old(l), old(ops), m, now, l, ops, t);
    }

    /** What `_execute` finds out about the claim. */
    ghost predicate Finding(r: Scheduling, a: Address, c: Id)
      requires a in ops && c in ctxs
      reads this
    {
      match r
      case Skipped => ops[a].inProgress
      case ContextClosed => !ops[a].inProgress && ctxs[c].mode.Closed?
      case LimitReached => !ops[a].inProgress && ctxs[c].mode.Open? && ctxs[c].inProgress == ctxs[c].max
      case PoolFailed => !ops[a].inProgress
      case Scheduled => ops[a].inProgress
    }

    /** The claim, up to the call of `apply_async`. */
    method Claim(t: nat, a: Address, c: Id, alone: bool) returns (r: Scheduling)
      requires Valid() && t < |threads| && threads[t].Idle? && a in ops && c in ctxs && (alone ==> Alone(threads, t))
      modifies this
      ensures Valid() && Grown(old(l), l) && |threads| == |old(threads)| && ops.Keys == old(ops).Keys && !r.PoolFailed?
      ensures threads[t] == if r.Scheduled? then Locks.Scheduling(a, c) else Locks.Idle
      ensures a in ops && c in ctxs && Finding(r, a, c)
      ensures alone ==>
        && r == (if old(ops)[a].inProgress then Skipped
                 else if old(ctxs)[c].mode.Closed? then ContextClosed
                 else if old(ctxs)[c].inProgress == old(ctxs)[c].max then LimitReached
                 else Scheduled)
        && threads == old(threads)[t := threads[t]] && jobs == old(jobs) && l.schedules == old(l).schedules
        && ops == (if r.Scheduled? then old(ops)[a := Taken(old(ops)[a])] else old(ops))
        && ctxs == if r.Scheduled? then old(ctxs)[c := old(ctxs)[c].(inProgress := old(ctxs)[c].inProgress + 1)]
             else old(ctxs)
    {
      hide Locks.Inv, Locks.CanLock, Grown, Mine, Agree;
      ghost var begun := Locks.AtPc(l, t, Locks.WantOp(Locks.Claim, a, c));
      Go(t, Locks.WantOp(Locks.Claim, a, c), Locks.BeginSubmit(t, a, c));
      AcquireBoth(t, alone);
      GrownTrans(old(l), begun, l);
      MineMeans(begun, old(ops), l, ops, t);
      GrownMeans(old(l), l);
      WithinLimit(l, c);
      ghost var m := l;
      r := ClaimSection(t);
      GrownTrans(old(l), m, l);
    }

    /** `_rollback_claim`. */
    method Undo(t: nat, alone: bool)
      requires Valid() && t < |threads| && threads[t].WantOp? && threads[t].why.Rollback?
        && (alone ==> Alone(threads, t))
      modifies this
      ensures Valid() && Grown(old(l), l) && |threads| == |old(threads)| && ops.Keys == old(ops).Keys
      ensures var a, c := old(threads)[t].op, old(threads)[t].c;
        && a in old(ops) && c in old(ctxs) && threads[t].Idle? && !ops[a].inProgress
        && (alone ==>
              && threads == old(threads)[t := Locks.Idle] && jobs == old(jobs) && l.schedules == old(l).schedules
              && ops == old(ops)[a := old(ops)[a].(inProgress := false)]
              && ctxs == old(ctxs)[c := old(ctxs)[c].(inProgress := old(ctxs)[c].inProgress - 1)])
    {
      hide Locks.Inv, Locks.CanLock, Grown, Mine, Agree;
      AcquireBoth(t, alone);
      MineMeans(old(l), old(ops), l, ops, t);
      GrownMeans(old(l), l);
      ghost var m := l;
      RollbackSection(t);
      GrownTrans(old(l), m, l);
    }

    /** `_execute`: scheduled once, or nothing is left of the attempt. */
    method Execute(t: nat, a: Address, c: Id, refused: set<Address>, alone: bool) returns (r: Scheduling)
      requires Valid() && t < |threads| && threads[t].Idle? && a in ops && c in ctxs && (alone ==> Alone(threads, t))
      modifies this
      ensures Valid() && Grown(old(l), l) && |threads| == |old(threads)| && ops.Keys == old(ops).Keys
        && threads[t].Idle?
      ensures a in ops && c in ctxs && Finding(r, a, c)
      ensures r.PoolFailed? ==> ctxs[c].mode.Closed? || a in refused
      ensures r.Scheduled? ==> a !in old(l).schedules && a in l.schedules && a in jobs && jobs[a] == c
      ensures alone ==>
        && r == (if old(ops)[a].inProgress then Skipped
                 else if old(ctxs)[c].mode.Closed? then ContextClosed
                 else if old(ctxs)[c].inProgress == old(ctxs)[c].max then LimitReached
                 else if a in refused then PoolFailed
                 else Scheduled)
        && threads == old(threads)
        && l.schedules == (if r.Scheduled? then old(l).schedules + [a] else old(l).schedules)
        && ops == (if r.Scheduled? then old(ops)[a := Taken(old(ops)[a])] else old(ops))
        && jobs == (if r.Scheduled? then old(jobs)[a := c] else old(jobs))
        && ctxs == if r.Scheduled? then old(ctxs)[c := old(ctxs)[c].(inProgress := old(ctxs)[c].inProgress + 1)]
             else old(ctxs)
    {
      hide Locks.Inv, Locks.CanLock, Grown, Kept, Mine, Agree;
      r := Claim(t, a, c, alone);
      if !r.Scheduled? {
        return;
      }
      ghost var m, now := l, ops;
      Others(t, alone);
      KeptIsMine(m, now, l, ops, t);
      MineMeans(m, now, l, ops, t);
      GrownTrans(old(l), m, l);
      GrownMeans(old(l), l);
      NotYetScheduled(l, t);
      m := l;
      var ok := ApplyAsync(t, refused);
      GrownTrans(old(l), m, l);
      GrownMeans(old(l), l);
      if !ok {
        m := l;
        Undo(t, alone);
        GrownTrans(old(l), m, l);
        GrownMeans(m, l);
        r := PoolFailed;
      }
    }

    /** The loop of submit. */
    method SubmitAll(t: nat, c: Id, args: seq<Address>, refused: set<Address>, alone: bool)
      returns (r: SubmitResult, ghost taken: seq<Address>)
      requires Valid() && t < |threads| && threads[t].Idle? && c in ctxs && (alone ==> Alone(threads, t))
      requires ToSet(args) <= ops.Keys
      modifies this
      ensures Valid() && Grown(old(l), l) && |threads| == |old(threads)| && ops.Keys == old(ops).Keys
        && threads[t].Idle?
      ensures !r.NotAnOperation? && (r.Accepted? ==> r.count == |taken|)
      ensures NewlyScheduled(taken, args, old(l).schedules, l.schedules)
      ensures r.Raised? ==>
        && r.at < |args| && args[r.at] in ops && c in ctxs && Finding(r.why, args[r.at], c)
        && !r.why.Scheduled? && !r.why.Skipped?
        && (r.why.PoolFailed? ==> ctxs[c].mode.Closed? || args[r.at] in refused)
      ensures alone ==>
        var claims := FirstClaims(args, Busy(old(ops)));
        && taken <= claims && l.schedules == old(l).schedules + taken && ops == Marked(old(ops), taken, Taken)
        && ctxs == old(ctxs)[c := old(ctxs)[c].(inProgress := old(ctxs)[c].inProgress + |taken|)]
        && (r.Accepted? ==> taken == claims)
        && (r.Raised? ==> |taken| < |claims| && claims[|taken|] == args[r.at])
    {
      hide Locks.Inv, Locks.CanLock, Grown, Kept, Mine, Agree, FirstClaims, Walked, NewlyScheduled, Finding, Marked,
        Alone, Taken;
      ghost var was, busy := ops, Busy(ops);
      taken := [];
      WalkStarts(args, was, busy, Taken);
      StandStill(l, ops, t);
      NewlyNone(args, l.schedules);
      var i, count := 0, 0;
      while i < |args|
        invariant i <= |args| && Valid() && Grown(old(l), l) && |threads| == |old(threads)| && ops.Keys == was.Keys
        invariant threads[t].Idle? && c in ctxs && count == |taken|
        invariant NewlyScheduled(taken, args, old(l).schedules, l.schedules)
        invariant alone ==> threads == old(threads) && Walked(args, i, was, busy, Taken, ops, taken)
        invariant alone ==> l.schedules == old(l).schedules + taken
        invariant alone ==> ctxs == old(ctxs)[c := old(ctxs)[c].(inProgress := old(ctxs)[c].inProgress + count)]
      {
        ghost var m := l;
        if alone {
          WalkNext(args, i, was, busy, Taken, ops, taken);
          FreshArgument(args, i, was, busy, ops, taken);
        }
        ArgumentIn(args, i, ops);
        var one := Execute(t, args[i], c, refused, alone);
        GrownMeans(old(l), m);
        GrownMeans(m, l);
        GrownTrans(old(l), m, l);
        NewlyStays(taken, args, old(l).schedules, m.schedules, l.schedules);
        if one != Scheduled && one != Skipped {
          if alone {
            WalkStops(args, i, was, busy, Taken, ops, taken);
            WalkedMarks(args, i, was, busy, Taken, ops, taken);
          }
          return Raised(one, i), taken;
        }
        if one == Scheduled {
          NewlyMore(taken, args, old(l).schedules, m.schedules, l.schedules, i);
          taken := taken + [args[i]];
          count := count + 1;
        }
        i := i + 1;
      }
      if alone {
        WalkStops(args, i, was, busy, Taken, ops, taken);
        WalkedMarks(args, i, was, busy, Taken, ops, taken);
      }
      r := Accepted(count);
    }

    /** `Context.submit(*args)`: the claims of the batch are scheduled in order, until one raises.  With other threads
        about, each Operation counted was scheduled by this call and by no other; alone, the batch is exact. */
    method Submit(t: nat, c: Id, args: seq<Address>, refused: set<Address>, alone: bool)
      returns (r: SubmitResult, ghost taken: seq<Address>)
      requires Valid() && t < |threads| && threads[t].Idle? && c in ctxs && (alone ==> Alone(threads, t))
      modifies this
      ensures Valid() && Grown(old(l), l) && |threads| == |old(threads)| && ops.Keys == old(ops).Keys
        && threads[t].Idle?
      ensures r.NotAnOperation? <==> exists i :: 0 <= i < |args| && args[i] !in old(ops)
      ensures r.NotAnOperation? ==> ops == old(ops) && l == old(l)
      ensures NoDup(taken) && (r.Accepted? ==> r.count == |taken|)
      ensures forall a :: a in taken ==> a in args && a !in old(l).schedules && a in l.schedules
      ensures r.Raised? ==>
        && r.at < |args| && args[r.at] in ops && c in ctxs && Finding(r.why, args[r.at], c)
        && !r.why.Scheduled? && !r.why.Skipped?
        && (r.why.PoolFailed? ==> ctxs[c].mode.Closed? || args[r.at] in refused)
      ensures alone && !r.NotAnOperation? ==>
        var claims := FirstClaims(args, Busy(old(ops)));
        && taken <= claims && l.schedules == old(l).schedules + taken
        && (forall a :: a in ops ==>
              ops[a] == if a in taken then old(ops)[a].(inProgress := true) else old(ops)[a])
        && ctxs == old(ctxs)[c := old(ctxs)[c].(inProgress := old(ctxs)[c].inProgress + |taken|)]
        && (r.Accepted? ==> taken == claims)
        && (r.Raised? ==> |taken| < |claims| && claims[|taken|] == args[r.at])
    {
      hide Locks.Inv, Locks.CanLock, Grown, Kept, Mine, Agree, FirstClaims, Walked;
      taken := [];
      StandStill(l, ops, t);
      for i := 0 to |args|
        invariant ToSet(args[..i]) <= ops.Keys
      {
        if args[i] !in ops {
          return NotAnOperation(i), taken;
        }
        assert args[..i + 1] == args[..i] + [args[i]];
      }
      assert args[..|args|] == args;
      r, taken := SubmitAll(t, c, args, refused, alone);
    }

    // ---------------------------------------------------------------- completion

    /** The result-handler thread takes a job whose handler has returned: the slot goes back, the outcome is stored,
        the callback is called once.  The claim stays. */
    method Finish(t: nat, a: Address, outcome: Outcome, alone: bool) returns (argument: Option<int>)
      requires Valid() && t < |threads| && threads[t].Idle? && a in jobs && (alone ==> Alone(threads, t))
      modifies this
      ensures Valid() && Grown(old(l), l) && |threads| == |old(threads)| && ops.Keys == old(ops).Keys
        && threads[t].Idle?
      ensures a in old(ops) && a in ops && ops[a].inProgress
      ensures a !in old(l).calls && a in l.calls && Locks.StageOf(l.stages, a) == Locks.Released(old(jobs)[a])
      // what a reader gets from now on
      ensures ops[a].opcode == old(ops)[a].opcode && ops[a].buffer == old(ops)[a].buffer
      ensures Reads(ops[a], outcome)
      ensures argument == if outcome.Success? then outcome.result else None
      ensures alone ==>
        var c := old(jobs)[a];
        && c in old(ctxs) && ctxs == old(ctxs)[c := old(ctxs)[c].(inProgress := old(ctxs)[c].inProgress - 1)]
        && jobs == old(jobs) - {a} && ops == old(ops)[a := ops[a]] && l.calls == old(l).calls + [a]
    {
      hide Locks.Inv, Locks.CanLock, Grown, Kept, Mine, Agree;
      JobIsPending(l, ops, jobs, a);
      ReleaseSlot(t, a, alone);
      ghost var m := l;
      GrownMeans(old(l), l);
      argument := StoreOutcome(t, outcome);
      ghost var stored := ops;
      AcquireOne(t, alone);
      GrownTrans(old(l), m, l);
      MineMeans(m, stored, l, ops, t);
      ReleasedIsClaimed(l, ops, jobs, a);
      ghost var k := l;
      CallbackSection(t);
      GrownTrans(old(l), k, l);
    }

    /** Taking the result and giving the slot back. */
    method ReleaseSlot(t: nat, a: Address, alone: bool)
      requires Valid() && t < |threads| && threads[t].Idle? && a in jobs && (alone ==> Alone(threads, t))
      modifies this
      ensures Valid() && Grown(old(l), l) && |threads| == |old(threads)| && ops.Keys == old(ops).Keys
      ensures threads[t] == Locks.WantCallback(a) && Locks.StageOf(l.stages, a) == Locks.Released(old(jobs)[a])
      ensures a in old(ops) && a in ops && ops[a] == old(ops)[a]
      ensures alone ==>
        var c := old(jobs)[a];
        && c in old(ctxs) && ctxs == old(ctxs)[c := old(ctxs)[c].(inProgress := old(ctxs)[c].inProgress - 1)]
        && jobs == old(jobs) - {a} && ops == old(ops) && l.calls == old(l).calls && Alone(threads, t)
    {
      hide Locks.Inv, Locks.CanLock, Grown, Kept, Mine, Agree;
      JobIsPending(l, ops, jobs, a);
      TakeResult(t, a);
      ghost var m, now := l, ops;
      AcquireOne(t, alone);
      GrownTrans(old(l), m, l);
      MineMeans(m, now, l, ops, t);
      ghost var k := l;
      SlotSection(t);
      GrownTrans(old(l), k, l);
      ghost var had := ops;
      k := l;
      Others(t, alone);
      KeptIsMine(k, had, l, ops, t);
      MineMeans(k, had, l, ops, t);
      GrownTrans(old(l), k, l);
    }

    /** `Context.close()`. */
    method Close(t: nat, c: Id, alone: bool)
      requires Valid() && t < |threads| && threads[t].Idle? && c in ctxs && (alone ==> Alone(threads, t))
      modifies this
      ensures Valid() && Grown(old(l), l) && |threads| == |old(threads)| && ops.Keys == old(ops).Keys
        && threads[t].Idle?
      ensures c in ctxs && ctxs[c].mode.Closed?
      ensures alone ==>
        ops == old(ops) && jobs == old(jobs) && ctxs == old(ctxs)[c := old(ctxs)[c].(mode := Locks.Closed)]
    {
      hide Locks.Inv, Locks.CanLock, Grown, Kept, Mine, Agree;
      StandStill(l, ops, t);
      if ctxs[c].mode.Closed? {
        return;
      }
      ghost var begun := Locks.AtPc(l, t, Locks.WantClose(c));
      Go(t, Locks.WantClose(c), Locks.BeginClose(t, c));
      AcquireOne(t, alone);
      GrownTrans(old(l), begun, l);
      MineMeans(begun, old(ops), l, ops, t);
      ghost var k := l;
      CloseSection(t);
      GrownTrans(old(l), k, l);
    }
  }
}
