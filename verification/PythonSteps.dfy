/** The Operations of the pure-Python engine against LockProtocol: how their fields
    agree with a state of the protocol, and what each section does to both. */
module PythonSteps {
  import opened Bags
  import opened Claims
  import Locks = LockProtocol
  import opened Wrappers

  type Address = Locks.Op

  type Id = Locks.Id

  type Exception = nat

  datatype Opcode = Read | Write | Fsync | Fdsync | Noop

  datatype Operation = Operation(opcode: Opcode, buffer: seq<nat>, written: Option<int>, exception: Option<Exception>,
                                 inProgress: bool)

  type Ops = map<Address, Operation>

  datatype Scheduling = Scheduled | Skipped | ContextClosed | LimitReached | PoolFailed

  datatype SubmitResult = Accepted(count: nat) | NotAnOperation(at: nat) | Raised(why: Scheduling, at: nat)

  datatype Value = Nothing | Bytes(data: seq<nat>) | Number(n: Option<int>) | Raises(e: Exception)

  function Taken(op: Operation): Operation {
    op.(inProgress := true)
  }

  ghost function Busy(ops: Ops): set<Address> {
    set a | a in ops && ops[a].inProgress
  }

  /** What a handler returns for its operation. */
  datatype Outcome = Success(result: Option<int>) | Failure(e: Exception)

  /** `Operation.get_value`. */
  function GetValue(op: Operation): Value {
    if op.exception.Some? then Raises(op.exception.value)
    else match op.opcode
      case Write => Number(op.written)
      case Fsync => Nothing
      case Fdsync => Nothing
      case _ => Bytes(op.buffer)
  }

  /** What `get_value` says after a handler ended so: the exception it raised, what it returned for a write, the buffer
      for a read, and nothing for a sync. */
  predicate Reads(op: Operation, outcome: Outcome) {
    match outcome
    case Failure(e) => GetValue(op) == Raises(e)
    case Success(result) =>
      && (op.opcode.Write? <==> GetValue(op) == Number(result))
      && (op.opcode.Read? || op.opcode.Noop? <==> GetValue(op) == Bytes(op.buffer))
      && (op.opcode.Fsync? || op.opcode.Fdsync? <==> GetValue(op) == Nothing)
  }

  // ----------------------------------------------- the objects against the protocol

  /** `in_progress` is set in every stage but the first, and there is no exception before the last. */
  ghost predicate Flags(stages: map<Address, Locks.Stage>, ops: Ops) {
    && stages.Keys <= ops.Keys
    && (forall a :: a in ops ==> (ops[a].inProgress <==> !Locks.StageOf(stages, a).Unclaimed?))
    && forall a :: a in ops && ops[a].exception.Some? ==> Locks.StageOf(stages, a).Released?
  }

  /** A job belongs to the Context that scheduled it. */
  ghost predicate Queued(stages: map<Address, Locks.Stage>, jobs: map<Address, Id>, ctxs: set<Id>) {
    forall a :: a in jobs ==> jobs[a] in ctxs && Locks.StageOf(stages, a) == Locks.Scheduled(jobs[a])
  }

  predicate Mentions(pc: Locks.Pc, ops: set<Address>, ctxs: set<Id>) {
    match pc
    case Idle => true
    case WantCallback(op) => op in ops
    case InsideCallback(op) => op in ops
    case WantClose(c) => c in ctxs
    case InsideClose(c) => c in ctxs
    case _ => pc.op in ops && pc.c in ctxs
  }

  ghost predicate Known(threads: seq<Locks.Pc>, ops: set<Address>, ctxs: set<Id>) {
    forall u :: 0 <= u < |threads| ==> Mentions(threads[u], ops, ctxs)
  }

  ghost predicate Agree(l: Locks.State, ops: Ops, jobs: map<Address, Id>) {
    && l.jobs == jobs.Keys && Flags(l.stages, ops) && Queued(l.stages, jobs, l.ctxs.Keys)
    && Known(l.threads, ops.Keys, l.ctxs.Keys)
  }

  /** What every step leaves: nothing is unscheduled, no callback taken back, no Context reopened. */
  ghost predicate Grown(l: Locks.State, m: Locks.State) {
    && |m.threads| == |l.threads| && m.ctxs.Keys == l.ctxs.Keys
    && (forall c :: c in l.ctxs ==>
          m.ctxs[c].max == l.ctxs[c].max && (l.ctxs[c].mode.Closed? ==> m.ctxs[c].mode.Closed?))
    && l.schedules <= m.schedules && l.calls <= m.calls
  }

  /** What the steps of other threads leave to thread `t`: its place, and the Operation it is in charge of. */
  ghost predicate Kept(l: Locks.State, ops: Ops, m: Locks.State, now: Ops, t: nat) {
    && t < |l.threads| == |m.threads| && m.threads[t] == l.threads[t] && now.Keys == ops.Keys
    && forall a :: a in ops && Locks.Charge(l.threads[t]) == Some(a) ==>
         now[a] == ops[a] && Locks.StageOf(m.stages, a) == Locks.StageOf(l.stages, a)
  }

  /** What thread `t` still has, after steps of its own that only took locks. */
  ghost predicate Mine(l: Locks.State, ops: Ops, m: Locks.State, now: Ops, t: nat) {
    && t < |l.threads| == |m.threads| && now.Keys == ops.Keys
    && Locks.Charge(m.threads[t]) == Locks.Charge(l.threads[t])
    && forall a :: a in ops && Locks.Charge(l.threads[t]) == Some(a) ==>
         now[a] == ops[a] && Locks.StageOf(m.stages, a) == Locks.StageOf(l.stages, a)
  }

  lemma MineTrans(l: Locks.State, a: Ops, m: Locks.State, b: Ops, n: Locks.State, z: Ops, t: nat)
    requires Mine(l, a, m, b, t) && Mine(m, b, n, z, t)
    ensures Mine(l, a, n, z, t)
  {
  }

  lemma MineMeans(l: Locks.State, ops: Ops, m: Locks.State, now: Ops, t: nat)
    requires Mine(l, ops, m, now, t)
    ensures now.Keys == ops.Keys
    ensures forall a :: a in ops && Locks.Charge(l.threads[t]) == Some(a) ==>
      now[a] == ops[a] && Locks.StageOf(m.stages, a) == Locks.StageOf(l.stages, a)
  {
  }

  lemma GrownMeans(l: Locks.State, m: Locks.State)
    requires Grown(l, m)
    ensures m.ctxs.Keys == l.ctxs.Keys && l.schedules <= m.schedules && l.calls <= m.calls
    ensures forall c :: c in l.ctxs && l.ctxs[c].mode.Closed? ==> m.ctxs[c].mode.Closed?
  {
  }

  lemma NotYetScheduled(l: Locks.State, t: nat)
    requires Locks.Inv(l) && t < |l.threads| && l.threads[t].Scheduling?
    ensures l.threads[t].op !in l.schedules
  {
    ChargeStage(l, t);
    Locks.NotLogged(l.stages, l.jobs, l.schedules, l.calls, l.threads[t].op);
  }

  lemma ArgumentIn(args: seq<Address>, i: nat, ops: Ops)
    requires ToSet(args) <= ops.Keys && i < |args|
    ensures args[i] in ops
  {
    assert args[i] in ToSet(args);
  }

  lemma FreshArgument(args: seq<Address>, i: nat, was: Ops, busy: set<Address>, now: Ops, taken: seq<Address>)
    requires Walked(args, i, was, busy, Taken, now, taken) && i < |args| && busy == Busy(was)
    ensures args[i] in now && (now[args[i]].inProgress <==> args[i] in busy || args[i] in taken)
  {
    ArgumentIn(args, i, was);
  }

  /** Arguments, each once, that were scheduled since the schedules were `before`. */
  ghost predicate NewlyScheduled(taken: seq<Address>, args: seq<Address>, before: seq<Address>, now: seq<Address>) {
    NoDup(taken) && forall a :: a in taken ==> a in args && a !in before && a in now
  }

  lemma NewlyNone(args: seq<Address>, before: seq<Address>)
    ensures NewlyScheduled([], args, before, before)
  {
  }

  lemma NewlyStays(taken: seq<Address>, args: seq<Address>, before: seq<Address>, had: seq<Address>, now: seq<Address>)
    requires NewlyScheduled(taken, args, before, had) && had <= now
    ensures NewlyScheduled(taken, args, before, now)
  {
  }

  lemma NewlyMore(taken: seq<Address>, args: seq<Address>, before: seq<Address>, had: seq<Address>, now: seq<Address>,
                  i: nat)
    requires NewlyScheduled(taken, args, before, had) && before <= had <= now && i < |args|
    requires args[i] !in had && args[i] in now
    ensures NewlyScheduled(taken + [args[i]], args, before, now)
  {
  }

  lemma JobIsPending(l: Locks.State, ops: Ops, jobs: map<Address, Id>, a: Address)
    requires Locks.Inv(l) && Agree(l, ops, jobs) && a in jobs
    ensures a in ops && a !in l.calls && jobs[a] in l.ctxs && Locks.StageOf(l.stages, a) == Locks.Scheduled(jobs[a])
    ensures ops[a].inProgress && ops[a].exception.None?
  {
    Locks.NotLogged(l.stages, l.jobs, l.schedules, l.calls, a);
    hide Locks.Inv, Known;
  }

  lemma ReleasedIsClaimed(l: Locks.State, ops: Ops, jobs: map<Address, Id>, a: Address)
    requires Agree(l, ops, jobs) && a in ops && Locks.StageOf(l.stages, a).Released?
    ensures ops[a].inProgress
  {
  }

  lemma CallbackReleased(l: Locks.State, u: nat)
    requires Locks.Inv(l) && u < |l.threads| && l.threads[u].WantCallback?
    ensures Locks.StageOf(l.stages, l.threads[u].op).Released?
  {
    assert Locks.Fine(l.threads[u], l.stages, l.jobs, l.calls);
  }

  lemma OutcomeAgrees(l: Locks.State, ops: Ops, jobs: map<Address, Id>, a: Address, op: Operation)
    requires Agree(l, ops, jobs) && a in ops && Locks.StageOf(l.stages, a).Released?
    requires op.inProgress == ops[a].inProgress
    ensures Agree(l, ops[a := op], jobs)
  {
    assert ops[a := op].Keys == ops.Keys;
    assert Known(l.threads, ops[a := op].Keys, l.ctxs.Keys);
    hide Queued, Known;
  }

  lemma WithinLimit(l: Locks.State, c: Id)
    requires Locks.Inv(l) && c in l.ctxs
    ensures l.ctxs[c].inProgress <= l.ctxs[c].max
  {
  }

  lemma KeptIsMine(l: Locks.State, ops: Ops, m: Locks.State, now: Ops, t: nat)
    requires Kept(l, ops, m, now, t)
    ensures Mine(l, ops, m, now, t) && m.threads[t] == l.threads[t]
  {
  }

  lemma EnteringIsMine(l: Locks.State, ops: Ops, t: nat)
    requires t < |l.threads|
    ensures Mine(l, ops, Locks.AtPc(l, t, Locks.Locked(l.threads[t])), ops, t)
  {
  }

  lemma GrownTrans(l: Locks.State, m: Locks.State, n: Locks.State)
    requires Grown(l, m) && Grown(m, n)
    ensures Grown(l, n)
  {
  }

  lemma KeptTrans(l: Locks.State, a: Ops, m: Locks.State, b: Ops, n: Locks.State, z: Ops, t: nat)
    requires Kept(l, a, m, b, t) && Kept(m, b, n, z, t)
    ensures Kept(l, a, n, z, t)
  {
  }

  lemma StepGrows(l: Locks.State, e: Locks.Event)
    requires Locks.Enabled(l, e)
    ensures Grown(l, Locks.Apply(l, e))
  {
    hide Locks.CanLock;
  }

  /** The Operation whose stage a step may change. */
  function Subject(e: Locks.Event, pc: Locks.Pc): Option<Address> {
    match e
    case Schedule(_, _) => if pc.Scheduling? then Some(pc.op) else None
    case Leave(_) => if pc.Inside? || pc.InsideSlot? || pc.InsideCallback? then Some(pc.op) else None
    case TakeResult(_, op) => Some(op)
    case _ => None
  }

  /** A step of another thread is never about the Operation that `t` is in charge of, except for a claim that fails. */
  lemma OthersKeep(l: Locks.State, e: Locks.Event, t: nat)
    requires Locks.Inv(l) && Locks.Enabled(l, e) && t < |l.threads| && e.t != t
    ensures var m := Locks.Apply(l, e);
      && m.threads[t] == l.threads[t]
      && forall a :: Locks.Charge(l.threads[t]) == Some(a) ==>
           && Locks.StageOf(m.stages, a) == Locks.StageOf(l.stages, a)
           && (Subject(e, l.threads[e.t]) == Some(a) ==>
               l.threads[e.t].Inside? && l.threads[e.t].why.Claim? && m.stages == l.stages)
  {
    hide Locks.Exclusive, Locks.Counted, Locks.Minded, Locks.CanLock;
    assert Locks.Fine(l.threads[t], l.stages, l.jobs, l.calls) && Locks.Fine(l.threads[e.t], l.stages, l.jobs, l.calls);
    assert Locks.Charge(l.threads[t]).Some? ==> Locks.Charge(l.threads[e.t]) != Locks.Charge(l.threads[t]);
  }

  lemma StepKept(l: Locks.State, ops: Ops, e: Locks.Event, now: Ops, t: nat)
    requires Locks.Inv(l) && Locks.Enabled(l, e) && t < |l.threads| && e.t != t
    requires now.Keys == ops.Keys
    requires forall a :: a in ops && now[a] != ops[a] ==>
      Subject(e, l.threads[e.t]) == Some(a) && Locks.Apply(l, e).stages != l.stages
    ensures Kept(l, ops, Locks.Apply(l, e), now, t)
  {
    OthersKeep(l, e, t);
    StepGrows(l, e);
    hide Locks.Inv, Locks.Apply, Locks.Enabled, Subject;
  }

  /** The stage of the Operation a thread is in charge of. */
  lemma ChargeStage(l: Locks.State, u: nat)
    requires Locks.Inv(l) && u < |l.threads|
    ensures var pc := l.threads[u];
      && ((pc.Inside? && pc.why.Rollback?) || pc.Scheduling? ==>
            Locks.StageOf(l.stages, pc.op) == Locks.Claimed(pc.c) && pc.op !in l.jobs)
      && (pc.InsideSlot? || pc.WantSlot? ==>
          Locks.StageOf(l.stages, pc.op) == Locks.Scheduled(pc.c) && pc.op !in l.jobs)
  {
    assert Locks.Fine(l.threads[u], l.stages, l.jobs, l.calls);
  }

  lemma StandStill(l: Locks.State, ops: Ops, t: nat)
    requires t < |l.threads|
    ensures Grown(l, l) && Kept(l, ops, l, ops, t)
  {
  }

  /** The handler of a job writes to an Operation that is nobody's charge. */
  lemma HandlerKept(l: Locks.State, ops: Ops, a: Address, op: Operation, t: nat)
    requires Locks.Inv(l) && t < |l.threads| && a in l.jobs && a in ops
    ensures Kept(l, ops, l, ops[a := op], t)
  {
    assert Locks.Fine(l.threads[t], l.stages, l.jobs, l.calls);
  }

  lemma KeptMeans(l: Locks.State, ops: Ops, m: Locks.State, now: Ops, t: nat)
    requires Kept(l, ops, m, now, t)
    ensures |m.threads| == |l.threads| && t < |l.threads| && m.threads[t] == l.threads[t] && now.Keys == ops.Keys
  {
  }

  lemma ClaimChanges(l: Locks.State, u: nat)
    requires u < |l.threads| && l.threads[u].Inside? && l.threads[u].why.Claim?
    ensures Locks.Claims(l, l.threads[u].op, l.threads[u].c) <==> Locks.Left(l, u).stages != l.stages
  {
    var a, m := l.threads[u].op, Locks.Left(l, u);
    if Locks.Claims(l, a, l.threads[u].c) {
      assert Locks.StageOf(m.stages, a) != Locks.StageOf(l.stages, a);
    }
  }

  lemma RollbackChanges(l: Locks.State, u: nat)
    requires Locks.Inv(l) && u < |l.threads|
    requires (l.threads[u].Inside? && l.threads[u].why.Rollback?) || l.threads[u].InsideSlot?
    ensures Locks.Left(l, u).stages != l.stages
  {
    ChargeStage(l, u);
    assert Locks.StageOf(Locks.Left(l, u).stages, l.threads[u].op) != Locks.StageOf(l.stages, l.threads[u].op);
  }

  lemma LeftGrips(l: Locks.State, u: nat)
    requires u < |l.threads| && Locks.IsInside(l.threads[u])
    ensures Locks.Grips(Locks.Left(l, u).threads) < Locks.Grips(l.threads)
  {
    Locks.GripsUpdate(l.threads, u, Locks.Left(l, u).threads[u]);
  }

  ghost predicate Alone(threads: seq<Locks.Pc>, t: nat) {
    forall u :: 0 <= u < |threads| && u != t ==> threads[u].Idle?
  }

  lemma AloneCanLock(threads: seq<Locks.Pc>, t: nat)
    requires t < |threads| && Alone(threads, t) && Locks.Wants(threads[t])
    ensures Locks.CanLock(threads, t)
  {
  }

  // ------------------------------------------------------- the sections on values

  lemma Moved(l: Locks.State, ops: Ops, jobs: map<Address, Id>, u: nat, pc: Locks.Pc)
    requires Agree(l, ops, jobs) && u < |l.threads| && Mentions(pc, ops.Keys, l.ctxs.Keys)
    ensures Agree(Locks.AtPc(l, u, pc), ops, jobs)
  {
    hide Flags, Queued, Mentions;
  }

  /** Thread `u` moves on, and the stage of one Operation changes with its flag. */
  lemma StageMoved(l: Locks.State, ops: Ops, jobs: map<Address, Id>, u: nat, pc: Locks.Pc,
                   a: Address, stage: Locks.Stage, op: Operation, jobs': map<Address, Id>, m: Locks.State)
    requires Agree(l, ops, jobs) && u < |l.threads| && Mentions(pc, ops.Keys, l.ctxs.Keys)
    requires a in ops && a !in jobs && (op.inProgress <==> !stage.Unclaimed?)
    requires op.exception.Some? ==> stage.Released?
    requires jobs' == jobs || (stage.Scheduled? && stage.c in l.ctxs && jobs' == jobs[a := stage.c])
    requires m.threads == l.threads[u := pc] && m.stages == l.stages[a := stage]
    requires m.ctxs.Keys == l.ctxs.Keys && m.jobs == jobs'.Keys
    ensures Agree(m, ops[a := op], jobs')
  {
    hide Mentions;
    assert Flags(m.stages, ops[a := op]) by {
      hide Queued, Known;
    }
    assert Queued(m.stages, jobs', m.ctxs.Keys) by {
      hide Flags, Known;
    }
    assert ops[a := op].Keys == ops.Keys;
  }

  /** What a thread inside a section knows. */
  lemma Inside(l: Locks.State, ops: Ops, jobs: map<Address, Id>, u: nat)
    requires Locks.Inv(l) && Agree(l, ops, jobs) && u < |l.threads|
    ensures var pc := l.threads[u];
      && Mentions(pc, ops.Keys, l.ctxs.Keys)
      && ((pc.Inside? && pc.why.Rollback?) || pc.Scheduling? ==>
            Locks.StageOf(l.stages, pc.op) == Locks.Claimed(pc.c) && pc.op !in jobs)
      && (pc.InsideSlot? || pc.WantSlot? ==> Locks.StageOf(l.stages, pc.op) == Locks.Scheduled(pc.c) && pc.op !in jobs)
  {
    ChargeStage(l, u);
  }

  lemma InsideFlags(l: Locks.State, ops: Ops, jobs: map<Address, Id>, u: nat)
    requires Locks.Inv(l) && Agree(l, ops, jobs) && u < |l.threads|
    requires var pc := l.threads[u];
      (pc.Inside? && pc.why.Rollback?) || pc.Scheduling? || pc.InsideSlot?
    ensures var a := l.threads[u].op;
      a in ops && ops[a].inProgress && ops[a].exception.None?
  {
    Inside(l, ops, jobs, u);
    hide Locks.Inv, Queued, Known;
  }

  lemma ClaimStep(l: Locks.State, ops: Ops, jobs: map<Address, Id>, u: nat)
    requires Locks.Inv(l) && Agree(l, ops, jobs) && u < |l.threads| && l.threads[u].Inside? && l.threads[u].why.Claim?
    ensures var a, c, m := l.threads[u].op, l.threads[u].c, Locks.Left(l, u);
      && Locks.Inv(m) && Grown(l, m) && a in ops && c in l.ctxs
      && (ops[a].inProgress <==> !Locks.StageOf(l.stages, a).Unclaimed?)
      && if Locks.Claims(l, a, c)
         then && Agree(m, ops[a := Taken(ops[a])], jobs) && m.threads == l.threads[u := Locks.Scheduling(a, c)]
              && m.ctxs == l.ctxs[c := l.ctxs[c].(inProgress := l.ctxs[c].inProgress + 1)]
         else Agree(m, ops, jobs) && m == Locks.AtPc(l, u, Locks.Idle)
  {
    StepGrows(l, Locks.Leave(u));
    Locks.StepKeeps(l, Locks.Leave(u));
    Inside(l, ops, jobs, u);
    var a, c, m := l.threads[u].op, l.threads[u].c, Locks.Left(l, u);
    Locks.NotLogged(l.stages, l.jobs, l.schedules, l.calls, a);
    hide Locks.Inv, Grown;
    hide Queued, Known;
    assert !Locks.StageOf(l.stages, a).Released? ==> ops[a].exception.None?;
    if Locks.Claims(l, a, c) {
      StageMoved(l, ops, jobs, u, Locks.Scheduling(a, c), a, Locks.Claimed(c), Taken(ops[a]), jobs, m);
    } else {
      Moved(l, ops, jobs, u, Locks.Idle);
    }
  }

  lemma RollbackStep(l: Locks.State, ops: Ops, jobs: map<Address, Id>, u: nat)
    requires Locks.Inv(l) && Agree(l, ops, jobs) && u < |l.threads| && l.threads[u].Inside?
      && l.threads[u].why.Rollback?
    ensures var a, c, m := l.threads[u].op, l.threads[u].c, Locks.Left(l, u);
      && Locks.Inv(m) && Grown(l, m) && a in ops && c in l.ctxs
      && Agree(m, ops[a := ops[a].(inProgress := false)], jobs) && m.threads == l.threads[u := Locks.Idle]
      && m.ctxs == l.ctxs[c := l.ctxs[c].(inProgress := l.ctxs[c].inProgress - 1)]
  {
    StepGrows(l, Locks.Leave(u));
    Locks.StepKeeps(l, Locks.Leave(u));
    Inside(l, ops, jobs, u);
    InsideFlags(l, ops, jobs, u);
    hide Locks.Inv, Grown, Flags, Queued, Known;
    var a, m := l.threads[u].op, Locks.Left(l, u);
    StageMoved(l, ops, jobs, u, Locks.Idle, a, Locks.Unclaimed, ops[a].(inProgress := false), jobs, m);
  }

  lemma ScheduleStep(l: Locks.State, ops: Ops, jobs: map<Address, Id>, u: nat, ok: bool)
    requires Locks.Inv(l) && Agree(l, ops, jobs) && Locks.Enabled(l, Locks.Schedule(u, ok))
    ensures var a, c, m := l.threads[u].op, l.threads[u].c, Locks.Apply(l, Locks.Schedule(u, ok));
      && Locks.Inv(m) && Grown(l, m) && c in l.ctxs && m.ctxs == l.ctxs
      && m.threads == l.threads[u := if ok then Locks.Idle else Locks.WantOp(Locks.Rollback, a, c)]
      && Agree(m, ops, if ok then jobs[a := c] else jobs)
  {
    Inside(l, ops, jobs, u);
    StepGrows(l, Locks.Schedule(u, ok));
    Locks.StepKeeps(l, Locks.Schedule(u, ok));
    var a, c, m := l.threads[u].op, l.threads[u].c, Locks.Apply(l, Locks.Schedule(u, ok));
    InsideFlags(l, ops, jobs, u);
    hide Locks.Inv, Grown, Flags, Queued, Known;
    if ok {
      StageMoved(l, ops, jobs, u, Locks.Idle, a, Locks.Scheduled(c), ops[a], jobs[a := c], m);
      assert ops[a := ops[a]] == ops;
    } else {
      Moved(l, ops, jobs, u, Locks.WantOp(Locks.Rollback, a, c));
    }
  }

  lemma TakeStep(l: Locks.State, ops: Ops, jobs: map<Address, Id>, u: nat, a: Address)
    requires Locks.Inv(l) && Agree(l, ops, jobs) && u < |l.threads| && l.threads[u].Idle? && a in jobs
    ensures a in l.jobs
    ensures var m := Locks.Apply(l, Locks.TakeResult(u, a));
      && Locks.Inv(m) && Grown(l, m) && a in ops && m.ctxs == l.ctxs
      && m.threads == l.threads[u := Locks.WantSlot(a, jobs[a])] && Agree(m, ops, jobs - {a})
  {
    hide Locks.Inv, Grown;
    assert Queued(l.stages, jobs - {a}, l.ctxs.Keys) by {
      hide Flags, Known;
    }
    assert a in ops && jobs[a] in l.ctxs && Locks.StageOf(l.stages, a) == Locks.Scheduled(jobs[a]) by {
      hide Known;
    }
    hide Queued, Flags;
    StepGrows(l, Locks.TakeResult(u, a));
    Locks.StepKeeps(l, Locks.TakeResult(u, a));
  }

  lemma SlotStep(l: Locks.State, ops: Ops, jobs: map<Address, Id>, u: nat)
    requires Locks.Inv(l) && Agree(l, ops, jobs) && u < |l.threads| && l.threads[u].InsideSlot?
    ensures var a, c, m := l.threads[u].op, l.threads[u].c, Locks.Left(l, u);
      && Locks.Inv(m) && Grown(l, m) && c in l.ctxs && a in ops && Agree(m, ops, jobs)
      && m.threads == l.threads[u := Locks.WantCallback(a)]
      && m.ctxs == l.ctxs[c := l.ctxs[c].(inProgress := l.ctxs[c].inProgress - 1)]
  {
    hide Locks.Inv, Grown, Flags, Queued, Known;
    Inside(l, ops, jobs, u);
    InsideFlags(l, ops, jobs, u);
    StepGrows(l, Locks.Leave(u));
    Locks.StepKeeps(l, Locks.Leave(u));
    SlotAgrees(l, ops, jobs, u);
  }

  lemma SlotAgrees(l: Locks.State, ops: Ops, jobs: map<Address, Id>, u: nat)
    requires Agree(l, ops, jobs) && u < |l.threads| && l.threads[u].InsideSlot?
    requires var a := l.threads[u].op;
      a in ops && a !in jobs && ops[a].inProgress && Mentions(l.threads[u], ops.Keys, l.ctxs.Keys)
    ensures Agree(Locks.Left(l, u), ops, jobs)
  {
    hide Flags, Queued, Known;
    var a, c, m := l.threads[u].op, l.threads[u].c, Locks.Left(l, u);
    StageMoved(l, ops, jobs, u, Locks.WantCallback(a), a, Locks.Released(c), ops[a], jobs, m);
    assert ops[a := ops[a]] == ops;
  }

  lemma CallbackStep(l: Locks.State, ops: Ops, jobs: map<Address, Id>, u: nat)
    requires Locks.Inv(l) && Agree(l, ops, jobs) && u < |l.threads| && l.threads[u].InsideCallback?
    ensures var m := Locks.Left(l, u);
      Locks.Inv(m) && Grown(l, m) && Agree(m, ops, jobs) && m.threads == l.threads[u := Locks.Idle] && m.ctxs == l.ctxs
  {
    StepGrows(l, Locks.Leave(u));
    Locks.StepKeeps(l, Locks.Leave(u));
    hide Locks.Inv, Grown, Flags, Queued;
  }

  lemma CloseStep(l: Locks.State, ops: Ops, jobs: map<Address, Id>, u: nat)
    requires Locks.Inv(l) && Agree(l, ops, jobs) && u < |l.threads| && l.threads[u].InsideClose?
    ensures var c, m := l.threads[u].c, Locks.Left(l, u);
      && Locks.Inv(m) && Grown(l, m) && Agree(m, ops, jobs) && m.threads == l.threads[u := Locks.Idle]
      && c in l.ctxs && m.ctxs == l.ctxs[c := l.ctxs[c].(mode := Locks.Closed)]
  {
    StepGrows(l, Locks.Leave(u));
    Locks.StepKeeps(l, Locks.Leave(u));
    Inside(l, ops, jobs, u);
    hide Locks.Inv, Grown, Flags, Queued;
    var c := l.threads[u].c;
    assert l.ctxs[c := l.ctxs[c].(mode := Locks.Closed)].Keys == l.ctxs.Keys;
  }
}
