/** The pure-Python Context at lock granularity: any number of threads, Contexts
    and Operations, each with a lock of its own.

    A thread's `Pc` tells what it is about to do and which locks it holds; the
    body of a `with` block is one step, taken as the locks are left. */
module LockProtocol {
  import opened Bags
  import opened Wrappers

  type Op = nat
  type Id = nat      // a Context

  datatype Mode = Open | Closed

  datatype Ctx = Ctx(inProgress: int, max: int, mode: Mode)

  /** `in_progress` of an Operation is set in every stage but the first. */
  datatype Stage = Unclaimed | Claimed(c: Id) | Scheduled(c: Id) | Released(c: Id)

  datatype Why = Claim | Rollback

  datatype Pc =
    | Idle
    | WantOp(why: Why, op: Op, c: Id)
    | WantCtx(why: Why, op: Op, c: Id)       // holds the Operation's lock
    | Inside(why: Why, op: Op, c: Id)        // holds both locks
    | Scheduling(op: Op, c: Id)              // about to call apply_async
    | WantSlot(op: Op, c: Id)                // the job is over, the slot to be given back
    | InsideSlot(op: Op, c: Id)              // holds the Context's lock
    | WantCallback(op: Op)
    | InsideCallback(op: Op)                 // holds the Operation's lock
    | WantClose(c: Id)
    | InsideClose(c: Id)                     // holds the Context's lock

  datatype State = State(
    threads: seq<Pc>,
    ctxs: map<Id, Ctx>,
    stages: map<Op, Stage>,
    jobs: set<Op>,               // in the hands of a ThreadPool
    schedules: seq<Op>,          // successful apply_async calls
    calls: seq<Op>)              // callback deliveries

  datatype Event =
    | BeginSubmit(t: nat, op: Op, c: Id)
    | BeginClose(t: nat, c: Id)
    | TakeResult(t: nat, op: Op)
    | Lock(t: nat)
    | Leave(t: nat)
    | Schedule(t: nat, ok: bool)

  predicate HoldsOp(pc: Pc, op: Op) {
    (pc.WantCtx? || pc.Inside? || pc.InsideCallback?) && pc.op == op
  }

  predicate HoldsCtx(pc: Pc, c: Id) {
    (pc.Inside? || pc.InsideSlot? || pc.InsideClose?) && pc.c == c
  }

  predicate OpFree(threads: seq<Pc>, op: Op) {
    forall u :: 0 <= u < |threads| ==> !HoldsOp(threads[u], op)
  }

  predicate CtxFree(threads: seq<Pc>, c: Id) {
    forall u :: 0 <= u < |threads| ==> !HoldsCtx(threads[u], c)
  }

  function StageOf(stages: map<Op, Stage>, op: Op): Stage {
    if op in stages then stages[op] else Unclaimed
  }

  predicate CanLock(threads: seq<Pc>, t: nat)
    requires t < |threads|
  {
    match threads[t]
    case WantOp(_, op, _) => OpFree(threads, op)
    case WantCallback(op) => OpFree(threads, op)
    case WantCtx(_, _, c) => CtxFree(threads, c)
    case WantSlot(_, c) => CtxFree(threads, c)
    case WantClose(c) => CtxFree(threads, c)
    case _ => false
  }

  predicate IsInside(pc: Pc) {
    pc.Inside? || pc.InsideSlot? || pc.InsideCallback? || pc.InsideClose?
  }

  predicate Enabled(s: State, e: Event) {
    && e.t < |s.threads|
    && match e
       case BeginSubmit(t, _, c) => s.threads[t].Idle? && c in s.ctxs
       case BeginClose(t, c) => s.threads[t].Idle? && c in s.ctxs && s.ctxs[c].mode.Open?
       case TakeResult(t, op) => s.threads[t].Idle? && op in s.jobs
       case Lock(t) => CanLock(s.threads, t)
       case Leave(t) => IsInside(s.threads[t])
       case Schedule(t, ok) =>
         // a pool that was closed refuses; an open one may fail too
         && s.threads[t].Scheduling?
         && (ok ==> s.threads[t].c in s.ctxs && s.ctxs[s.threads[t].c].mode.Open?)
  }

  function AtPc(s: State, t: nat, pc: Pc): State
    requires t < |s.threads|
  {
    s.(threads := s.threads[t := pc])
  }

  function Locked(pc: Pc): Pc {
    match pc
    case WantOp(why, op, c) => WantCtx(why, op, c)
    case WantCtx(why, op, c) => Inside(why, op, c)
    case WantSlot(op, c) => InsideSlot(op, c)
    case WantCallback(op) => InsideCallback(op)
    case WantClose(c) => InsideClose(c)
    case _ => pc
  }

  /** The claim succeeds; otherwise submit skips the Operation or raises, and nothing changes. */
  predicate Claims(s: State, op: Op, c: Id) {
    && StageOf(s.stages, op).Unclaimed?
    && c in s.ctxs && s.ctxs[c].mode.Open? && s.ctxs[c].inProgress < s.ctxs[c].max
  }

  function AddSlot(ctxs: map<Id, Ctx>, c: Id, n: int): map<Id, Ctx> {
    if c in ctxs then ctxs[c := ctxs[c].(inProgress := ctxs[c].inProgress + n)] else ctxs
  }

  /** The body of the `with` block that the thread is in. */
  function Left(s: State, t: nat): State
    requires t < |s.threads|
  {
    match s.threads[t]
    case Inside(Claim, op, c) =>
      if Claims(s, op, c)
      then AtPc(s, t, Scheduling(op, c)).(stages := s.stages[op := Claimed(c)], ctxs := AddSlot(s.ctxs, c, 1))
      else AtPc(s, t, Idle)
    case Inside(Rollback, op, c) =>
      AtPc(s, t, Idle).(stages := s.stages[op := Unclaimed], ctxs := AddSlot(s.ctxs, c, -1))
    case InsideSlot(op, c) =>
      AtPc(s, t, WantCallback(op)).(stages := s.stages[op := Released(c)], ctxs := AddSlot(s.ctxs, c, -1))
    case InsideCallback(op) => AtPc(s, t, Idle).(calls := s.calls + [op])
    case InsideClose(c) =>
      AtPc(s, t, Idle).(ctxs := if c in s.ctxs then s.ctxs[c := s.ctxs[c].(mode := Closed)] else s.ctxs)
    case _ => s
  }

  function Apply(s: State, e: Event): State
    requires Enabled(s, e)
  {
    match e
    case BeginSubmit(t, op, c) => AtPc(s, t, WantOp(Claim, op, c))
    case BeginClose(t, c) => AtPc(s, t, WantClose(c))
    case TakeResult(t, op) =>
      var stage := StageOf(s.stages, op);
      if stage.Scheduled? then AtPc(s, t, WantSlot(op, stage.c)).(jobs := s.jobs - {op}) else s
    case Lock(t) => AtPc(s, t, Locked(s.threads[t]))
    case Leave(t) => Left(s, t)
    case Schedule(t, ok) =>
      var op, c := s.threads[t].op, s.threads[t].c;
      if ok
      then AtPc(s, t, Idle).(stages := s.stages[op := Scheduled(c)], jobs := s.jobs + {op},
                             schedules := s.schedules + [op])
      else AtPc(s, t, WantOp(Rollback, op, c))
  }

  function Init(threads: nat, ctxs: map<Id, Ctx>): State {
    State(seq(threads, _ => Idle), ctxs, map[], {}, [], [])
  }

  ghost predicate Legal(s: State, events: seq<Event>)
    decreases |events|
  {
    events == [] || (Enabled(s, events[0]) && Legal(Apply(s, events[0]), events[1..]))
  }

  ghost function After(s: State, events: seq<Event>): State
    requires Legal(s, events)
    decreases |events|
  {
    if events == [] then s else After(Apply(s, events[0]), events[1..])
  }

  // ------------------------------------------------------------------ invariant

  /** The Operation a thread has to see through: a claim to schedule or give back, a slot to give back, a
      callback to call. */
  function Charge(pc: Pc): Option<Op> {
    match pc
    case WantOp(Rollback, op, _) => Some(op)
    case WantCtx(Rollback, op, _) => Some(op)
    case Inside(Rollback, op, _) => Some(op)
    case Scheduling(op, _) => Some(op)
    case WantSlot(op, _) => Some(op)
    case InsideSlot(op, _) => Some(op)
    case WantCallback(op) => Some(op)
    case InsideCallback(op) => Some(op)
    case _ => None
  }

  /** The stage of the Operation agrees with what the thread is doing for it. */
  predicate Fine(pc: Pc, stages: map<Op, Stage>, jobs: set<Op>, calls: seq<Op>) {
    Charge(pc).Some? ==>
      var op := Charge(pc).value;
      && op !in jobs && op !in calls
      && match pc
         case WantSlot(_, c) => StageOf(stages, op) == Scheduled(c)
         case InsideSlot(_, c) => StageOf(stages, op) == Scheduled(c)
         case WantCallback(_) => StageOf(stages, op).Released?
         case InsideCallback(_) => StageOf(stages, op).Released?
         case _ => pc.WantOp? || pc.WantCtx? || pc.Inside? || pc.Scheduling? ==> StageOf(stages, op) == Claimed(pc.c)
  }

  /** Every charge is fine and nobody shares one. */
  ghost predicate Duties(threads: seq<Pc>, stages: map<Op, Stage>, jobs: set<Op>, calls: seq<Op>) {
    && (forall u :: 0 <= u < |threads| ==> Fine(threads[u], stages, jobs, calls))
    && (forall u, v :: 0 <= u < v < |threads| && Charge(threads[u]).Some? ==> Charge(threads[u]) != Charge(threads[v]))
  }

  /** No lock has two holders. */
  ghost predicate Exclusive(threads: seq<Pc>) {
    && (forall u, v, op :: 0 <= u < v < |threads| && HoldsOp(threads[u], op) ==> !HoldsOp(threads[v], op))
    && (forall u, v, c :: 0 <= u < v < |threads| && HoldsCtx(threads[u], c) ==> !HoldsCtx(threads[v], c))
  }

  predicate Uses(stage: Stage, c: Id) {
    stage == Claimed(c) || stage == Scheduled(c)
  }

  /** The claimed but unreleased Operations of a Context. */
  ghost function Slots(stages: map<Op, Stage>, c: Id): set<Op> {
    set op | op in stages && Uses(stages[op], c)
  }

  ghost predicate Counted(ctxs: map<Id, Ctx>, stages: map<Op, Stage>) {
    forall c :: c in ctxs ==> ctxs[c].inProgress == |Slots(stages, c)| <= ctxs[c].max
  }

  /** The logs agree with the stages. */
  ghost predicate Logged(stages: map<Op, Stage>, jobs: set<Op>, schedules: seq<Op>, calls: seq<Op>) {
    && NoDup(schedules) && NoDup(calls)
    && (forall op :: op in schedules <==> StageOf(stages, op).Scheduled? || StageOf(stages, op).Released?)
    && (forall op :: op in jobs ==> StageOf(stages, op).Scheduled?)
    && (forall op :: op in calls ==> StageOf(stages, op).Released?)
  }

  ghost predicate InCharge(threads: seq<Pc>, op: Op) {
    exists u :: 0 <= u < |threads| && Charge(threads[u]) == Some(op)
  }

  /** Nothing is left lying: until its callback was called an Operation that is not free is some thread's charge, or
      in the hands of a pool. */
  ghost predicate Minded(threads: seq<Pc>, stages: map<Op, Stage>, jobs: set<Op>, calls: seq<Op>) {
    forall op :: !StageOf(stages, op).Unclaimed? ==>
      || InCharge(threads, op)
      || (StageOf(stages, op).Scheduled? && op in jobs)
      || (StageOf(stages, op).Released? && op in calls)
  }

  ghost predicate Inv(s: State) {
    && Exclusive(s.threads)
    && Duties(s.threads, s.stages, s.jobs, s.calls)
    && Counted(s.ctxs, s.stages)
    && Logged(s.stages, s.jobs, s.schedules, s.calls)
    && Minded(s.threads, s.stages, s.jobs, s.calls)
  }

  lemma InitInv(threads: nat, ctxs: map<Id, Ctx>)
    requires forall c :: c in ctxs ==> ctxs[c].inProgress == 0 <= ctxs[c].max
    ensures Inv(Init(threads, ctxs))
  {
  }

  /** A thread that gains no lock, or only one that was free. */
  lemma ExclusiveMove(threads: seq<Pc>, t: nat, pc: Pc)
    requires Exclusive(threads) && t < |threads|
    requires forall op :: HoldsOp(pc, op) ==> HoldsOp(threads[t], op) || OpFree(threads, op)
    requires forall c :: HoldsCtx(pc, c) ==> HoldsCtx(threads[t], c) || CtxFree(threads, c)
    ensures Exclusive(threads[t := pc])
  {
  }

  /** Thread `t` moves on, and everything that changes concerns one Operation which nobody else minds. */
  lemma DutiesMove(threads: seq<Pc>, t: nat, pc: Pc, op: Op,
                   stages: map<Op, Stage>, jobs: set<Op>, calls: seq<Op>,
                   stages': map<Op, Stage>, jobs': set<Op>, calls': seq<Op>)
    requires t < |threads| && Duties(threads, stages, jobs, calls)
    requires forall x :: x != op ==>
      StageOf(stages', x) == StageOf(stages, x) && (x in jobs' <==> x in jobs) && (x in calls' <==> x in calls)
    requires forall u :: 0 <= u < |threads| && u != t ==> Charge(threads[u]) != Some(op)
    requires Fine(pc, stages', jobs', calls') && (Charge(pc).None? || Charge(pc) == Some(op))
    ensures Duties(threads[t := pc], stages', jobs', calls')
  {
  }

  /** Who minds an Operation minds it alone. */
  lemma AloneInCharge(threads: seq<Pc>, t: nat, stages: map<Op, Stage>, jobs: set<Op>, calls: seq<Op>)
    requires t < |threads| && Duties(threads, stages, jobs, calls) && Charge(threads[t]).Some?
    ensures forall u :: 0 <= u < |threads| && u != t ==> Charge(threads[u]) != Charge(threads[t])
  {
  }

  /** An unclaimed Operation, or one in the pool's hands, is nobody's charge. */
  lemma NobodyInCharge(threads: seq<Pc>, op: Op, stages: map<Op, Stage>, jobs: set<Op>, calls: seq<Op>)
    requires Duties(threads, stages, jobs, calls)
    requires op in jobs || StageOf(stages, op).Unclaimed?
    ensures forall u :: 0 <= u < |threads| ==> Charge(threads[u]) != Some(op)
  {
  }

  lemma SlotsChange(stages: map<Op, Stage>, op: Op, stage: Stage, c: Id)
    ensures Slots(stages[op := stage], c) == if Uses(stage, c) then Slots(stages, c) + {op} else Slots(stages, c) - {op}
    ensures op in Slots(stages, c) <==> Uses(StageOf(stages, op), c)
  {
  }

  /** The slot counter of `c` follows the stage of the Operation. */
  lemma CountedChange(ctxs: map<Id, Ctx>, stages: map<Op, Stage>, op: Op, c: Id, stage: Stage, n: int)
    requires Counted(ctxs, stages)
    requires forall d :: d != c ==> !Uses(StageOf(stages, op), d) && !Uses(stage, d)
    requires n == (if Uses(stage, c) then 1 else 0) - (if Uses(StageOf(stages, op), c) then 1 else 0)
    requires n > 0 && c in ctxs ==> ctxs[c].inProgress < ctxs[c].max
    ensures Counted(AddSlot(ctxs, c, n), stages[op := stage])
  {
    forall d | d in ctxs
      ensures |Slots(stages[op := stage], d)| == |Slots(stages, d)| + if d == c then n else 0
    {
      SlotsChange(stages, op, stage, d);
    }
  }

  /** A thread that goes on minding what it minded, or nothing. */
  lemma DutiesStep(threads: seq<Pc>, t: nat, pc: Pc, stages: map<Op, Stage>, jobs: set<Op>, calls: seq<Op>)
    requires t < |threads| && Duties(threads, stages, jobs, calls)
    requires Fine(pc, stages, jobs, calls) && Charge(pc) == Charge(threads[t])
    ensures Duties(threads[t := pc], stages, jobs, calls)
  {
  }

  lemma MindedStep(threads: seq<Pc>, t: nat, pc: Pc, stages: map<Op, Stage>, jobs: set<Op>, calls: seq<Op>)
    requires t < |threads| && Minded(threads, stages, jobs, calls) && Charge(pc) == Charge(threads[t])
    ensures Minded(threads[t := pc], stages, jobs, calls)
  {
    forall op: Op | !StageOf(stages, op).Unclaimed? && InCharge(threads, op)
      ensures InCharge(threads[t := pc], op)
    {
      var u :| 0 <= u < |threads| && Charge(threads[u]) == Some(op);
      assert Charge(threads[t := pc][u]) == Some(op);
    }
  }

  /** Thread `t` moves on with the one Operation that changes. */
  lemma MindedMove(threads: seq<Pc>, t: nat, pc: Pc, op: Op,
                   stages: map<Op, Stage>, jobs: set<Op>, calls: seq<Op>,
                   stages': map<Op, Stage>, jobs': set<Op>, calls': seq<Op>)
    requires t < |threads| && Minded(threads, stages, jobs, calls)
    requires forall x :: x != op ==>
      StageOf(stages', x) == StageOf(stages, x) && (x in jobs' <==> x in jobs) && (x in calls' <==> x in calls)
    requires Charge(threads[t]).None? || Charge(threads[t]) == Some(op)
    requires Charge(pc) == Some(op) || StageOf(stages', op).Unclaimed?
      || (StageOf(stages', op).Scheduled? && op in jobs')
      || (StageOf(stages', op).Released? && op in calls')
    ensures Minded(threads[t := pc], stages', jobs', calls')
  {
    assert Charge(threads[t := pc][t]) == Charge(pc);
    forall x | x != op && InCharge(threads, x)
      ensures InCharge(threads[t := pc], x)
    {
      var u :| 0 <= u < |threads| && Charge(threads[u]) == Some(x);
      assert Charge(threads[t := pc][u]) == Some(x);
    }
  }

  // ------------------------------------------------------- every step keeps it

  lemma MoveKeeps(s: State, t: nat, pc: Pc)
    requires Inv(s) && t < |s.threads|
    requires forall op :: HoldsOp(pc, op) ==> HoldsOp(s.threads[t], op) || OpFree(s.threads, op)
    requires forall c :: HoldsCtx(pc, c) ==> HoldsCtx(s.threads[t], c) || CtxFree(s.threads, c)
    requires Fine(pc, s.stages, s.jobs, s.calls) && Charge(pc) == Charge(s.threads[t])
    ensures Inv(AtPc(s, t, pc))
  {
    hide Exclusive, Duties, Counted, Logged, Minded, Fine;
    MindedStep(s.threads, t, pc, s.stages, s.jobs, s.calls);
    ExclusiveMove(s.threads, t, pc);
    DutiesStep(s.threads, t, pc, s.stages, s.jobs, s.calls);
  }

  lemma LockKeeps(s: State, t: nat)
    requires Inv(s) && t < |s.threads| && CanLock(s.threads, t)
    ensures Inv(AtPc(s, t, Locked(s.threads[t])))
  {
    assert Fine(s.threads[t], s.stages, s.jobs, s.calls);
    hide Inv;
    MoveKeeps(s, t, Locked(s.threads[t]));
  }

  lemma ClaimKeeps(s: State, t: nat)
    requires Inv(s) && t < |s.threads| && s.threads[t].Inside? && s.threads[t].why.Claim?
    ensures Inv(Left(s, t))
  {
    hide Exclusive, Duties, Minded, Counted, Logged;
    var op, c := s.threads[t].op, s.threads[t].c;
    if Claims(s, op, c) {
      ExclusiveMove(s.threads, t, Scheduling(op, c));
      NobodyInCharge(s.threads, op, s.stages, s.jobs, s.calls);
      NotLogged(s.stages, s.jobs, s.schedules, s.calls, op);
      DutiesMove(s.threads, t, Scheduling(op, c), op, s.stages, s.jobs, s.calls, s.stages[op := Claimed(c)], s.jobs,
                 s.calls);
      MindedMove(s.threads, t, Scheduling(op, c), op, s.stages, s.jobs, s.calls, s.stages[op := Claimed(c)], s.jobs,
                 s.calls);
      CountedChange(s.ctxs, s.stages, op, c, Claimed(c), 1);
      LoggedUnclaimed(s.stages, s.jobs, s.schedules, s.calls, op, Claimed(c));
    } else {
      MoveKeeps(s, t, Idle);
    }
  }

  lemma NotLogged(stages: map<Op, Stage>, jobs: set<Op>, schedules: seq<Op>, calls: seq<Op>, op: Op)
    requires Logged(stages, jobs, schedules, calls)
    ensures !StageOf(stages, op).Scheduled? ==> op !in jobs
    ensures !StageOf(stages, op).Released? ==> op !in calls
    ensures op in schedules <==> StageOf(stages, op).Scheduled? || StageOf(stages, op).Released?
  {
  }

  /** Claiming and giving back are not logged. */
  lemma LoggedUnclaimed(stages: map<Op, Stage>, jobs: set<Op>, schedules: seq<Op>, calls: seq<Op>, op: Op, stage: Stage)
    requires Logged(stages, jobs, schedules, calls)
    requires StageOf(stages, op).Unclaimed? || StageOf(stages, op).Claimed?
    requires stage.Unclaimed? || stage.Claimed?
    ensures Logged(stages[op := stage], jobs, schedules, calls)
  {
  }

  lemma RollbackKeeps(s: State, t: nat)
    requires Inv(s) && t < |s.threads| && s.threads[t].Inside? && s.threads[t].why.Rollback?
    ensures Inv(Left(s, t))
  {
    var op, c := s.threads[t].op, s.threads[t].c;
    assert Fine(s.threads[t], s.stages, s.jobs, s.calls);
    hide Exclusive, Duties, Minded, Counted, Logged;
    ExclusiveMove(s.threads, t, Idle);
    AloneInCharge(s.threads, t, s.stages, s.jobs, s.calls);
    DutiesMove(s.threads, t, Idle, op, s.stages, s.jobs, s.calls, s.stages[op := Unclaimed], s.jobs, s.calls);
    MindedMove(s.threads, t, Idle, op, s.stages, s.jobs, s.calls, s.stages[op := Unclaimed], s.jobs, s.calls);
    CountedChange(s.ctxs, s.stages, op, c, Unclaimed, -1);
    LoggedUnclaimed(s.stages, s.jobs, s.schedules, s.calls, op, Unclaimed);
  }

  lemma SlotKeeps(s: State, t: nat)
    requires Inv(s) && t < |s.threads| && s.threads[t].InsideSlot?
    ensures Inv(Left(s, t))
  {
    var op, c := s.threads[t].op, s.threads[t].c;
    assert Fine(s.threads[t], s.stages, s.jobs, s.calls);
    hide Exclusive, Duties, Minded, Counted;
    ExclusiveMove(s.threads, t, WantCallback(op));
    AloneInCharge(s.threads, t, s.stages, s.jobs, s.calls);
    DutiesMove(s.threads, t, WantCallback(op), op, s.stages, s.jobs, s.calls, s.stages[op := Released(c)], s.jobs,
               s.calls);
    MindedMove(s.threads, t, WantCallback(op), op, s.stages, s.jobs, s.calls, s.stages[op := Released(c)], s.jobs,
               s.calls);
    CountedChange(s.ctxs, s.stages, op, c, Released(c), -1);
  }

  lemma CallbackKeeps(s: State, t: nat)
    requires Inv(s) && t < |s.threads| && s.threads[t].InsideCallback?
    ensures Inv(Left(s, t))
  {
    var op := s.threads[t].op;
    assert Fine(s.threads[t], s.stages, s.jobs, s.calls);
    hide Exclusive, Duties, Minded, Counted;
    ExclusiveMove(s.threads, t, Idle);
    AloneInCharge(s.threads, t, s.stages, s.jobs, s.calls);
    DutiesMove(s.threads, t, Idle, op, s.stages, s.jobs, s.calls, s.stages, s.jobs, s.calls + [op]);
    MindedMove(s.threads, t, Idle, op, s.stages, s.jobs, s.calls, s.stages, s.jobs, s.calls + [op]);
    NoDupConcat(s.calls, [op]);
  }

  lemma CloseKeeps(s: State, t: nat)
    requires Inv(s) && t < |s.threads| && s.threads[t].InsideClose?
    ensures Inv(Left(s, t))
  {
    hide Exclusive, Duties, Minded, Logged;
    MoveKeeps(s, t, Idle);
  }

  lemma ScheduleKeeps(s: State, t: nat, ok: bool)
    requires Inv(s) && Enabled(s, Schedule(t, ok))
    ensures Inv(Apply(s, Schedule(t, ok)))
  {
    var op, c := s.threads[t].op, s.threads[t].c;
    assert Fine(s.threads[t], s.stages, s.jobs, s.calls);
    hide Exclusive, Duties, Minded, Counted;
    if ok {
      ExclusiveMove(s.threads, t, Idle);
      AloneInCharge(s.threads, t, s.stages, s.jobs, s.calls);
      DutiesMove(s.threads, t, Idle, op, s.stages, s.jobs, s.calls, s.stages[op := Scheduled(c)], s.jobs + {op},
                 s.calls);
      MindedMove(s.threads, t, Idle, op, s.stages, s.jobs, s.calls, s.stages[op := Scheduled(c)], s.jobs + {op},
                 s.calls);
      CountedChange(s.ctxs, s.stages, op, c, Scheduled(c), 0);
      SameSlots(s.ctxs, c);
      NoDupConcat(s.schedules, [op]);
    } else {
      MoveKeeps(s, t, WantOp(Rollback, op, c));
    }
  }

  lemma SameSlots(ctxs: map<Id, Ctx>, c: Id)
    ensures AddSlot(ctxs, c, 0) == ctxs
  {
  }

  lemma TakeKeeps(s: State, t: nat, op: Op)
    requires Inv(s) && t < |s.threads| && s.threads[t].Idle? && op in s.jobs
    ensures Inv(Apply(s, TakeResult(t, op)))
  {
    var stage := StageOf(s.stages, op);
    assert stage.Scheduled?;
    NotLogged(s.stages, s.jobs, s.schedules, s.calls, op);
    hide Exclusive, Duties, Minded, Counted;
    var pc := WantSlot(op, stage.c);
    ExclusiveMove(s.threads, t, pc);
    NobodyInCharge(s.threads, op, s.stages, s.jobs, s.calls);
    DutiesMove(s.threads, t, pc, op, s.stages, s.jobs, s.calls, s.stages, s.jobs - {op}, s.calls);
    MindedMove(s.threads, t, pc, op, s.stages, s.jobs, s.calls, s.stages, s.jobs - {op}, s.calls);
  }

  lemma StepKeeps(s: State, e: Event)
    requires Inv(s) && Enabled(s, e)
    ensures Inv(Apply(s, e))
  {
    hide Inv, CanLock;
    match e
    case BeginSubmit(t, op, c) => MoveKeeps(s, t, WantOp(Claim, op, c));
    case BeginClose(t, c) => MoveKeeps(s, t, WantClose(c));
    case TakeResult(t, op) => TakeKeeps(s, t, op);
    case Lock(t) => LockKeeps(s, t);
    case Schedule(t, ok) => ScheduleKeeps(s, t, ok);
    case Leave(t) =>
      match s.threads[t] {
        case Inside(Claim, _, _) => ClaimKeeps(s, t);
        case Inside(Rollback, _, _) => RollbackKeeps(s, t);
        case InsideSlot(_, _) => SlotKeeps(s, t);
        case InsideCallback(_) => CallbackKeeps(s, t);
        case InsideClose(_) => CloseKeeps(s, t);
        case _ =>
      }
  }

  lemma {:induction false} RunKeeps(s: State, events: seq<Event>)
    requires Inv(s) && Legal(s, events)
    ensures Inv(After(s, events))
    decreases |events|
  {
    hide Inv;
    if events != [] {
      StepKeeps(s, events[0]);
      RunKeeps(Apply(s, events[0]), events[1..]);
    }
  }

  // ------------------------------------------------------------------- theorems

  /** Slots are conserved, stay within the limit, and each Operation is scheduled and called back at most once,
      across all Contexts. */
  lemma SlotsConserved(threads: nat, ctxs: map<Id, Ctx>, events: seq<Event>)
    requires forall c :: c in ctxs ==> ctxs[c].inProgress == 0 <= ctxs[c].max
    requires Legal(Init(threads, ctxs), events)
    ensures var s := After(Init(threads, ctxs), events);
      && (forall c :: c in s.ctxs ==> 0 <= s.ctxs[c].inProgress == |Slots(s.stages, c)| <= s.ctxs[c].max)
      && NoDup(s.schedules) && NoDup(s.calls)
      && (forall op :: op in s.calls ==> op in s.schedules)
  {
    InitInv(threads, ctxs);
    RunKeeps(Init(threads, ctxs), events);
  }

  /** Nothing leaks: between the threads' calls the occupied slots of a Context are exactly its jobs in the pool, and
      every Operation that was ever scheduled is such a job or had its callback. */
  lemma NothingLeaks(threads: nat, ctxs: map<Id, Ctx>, events: seq<Event>)
    requires forall c :: c in ctxs ==> ctxs[c].inProgress == 0 <= ctxs[c].max
    requires Legal(Init(threads, ctxs), events)
    requires AllIdle(After(Init(threads, ctxs), events).threads)
    ensures var s := After(Init(threads, ctxs), events);
      && (forall op :: op in s.schedules <==> op in s.jobs || op in s.calls)
      && (forall op :: !StageOf(s.stages, op).Claimed?)
      && forall c: Id, op :: op in Slots(s.stages, c) <==> op in s.jobs && StageOf(s.stages, op) == Scheduled(c)
  {
    InitInv(threads, ctxs);
    RunKeeps(Init(threads, ctxs), events);
    AllMinded(After(Init(threads, ctxs), events));
  }

  predicate AllIdle(threads: seq<Pc>) {
    forall u :: 0 <= u < |threads| ==> threads[u].Idle?
  }

  lemma AllMinded(s: State)
    requires Inv(s) && AllIdle(s.threads)
    ensures forall op :: !StageOf(s.stages, op).Claimed?
    ensures forall op :: StageOf(s.stages, op).Scheduled? <==> op in s.jobs
    ensures forall op :: StageOf(s.stages, op).Released? <==> op in s.calls
    ensures forall op :: op in s.schedules <==> op in s.jobs || op in s.calls
  {
    assert forall op :: !InCharge(s.threads, op);
  }

  /** By the time a failed scheduling is undone nobody has touched the claim: the undo gives back exactly the
      claim and the slot that were taken. */
  lemma RollbackRestores(s: State, t: nat)
    requires Inv(s) && t < |s.threads| && s.threads[t].Inside? && s.threads[t].why.Rollback?
    requires s.threads[t].c in s.ctxs
    ensures var op, c, after := s.threads[t].op, s.threads[t].c, Left(s, t);
      && StageOf(s.stages, op) == Claimed(c) && op !in s.schedules && op !in s.jobs
      && StageOf(after.stages, op) == Unclaimed
      && after.ctxs[c].inProgress == s.ctxs[c].inProgress - 1 >= 0
      && Slots(after.stages, c) == Slots(s.stages, c) - {op}
  {
    assert Fine(s.threads[t], s.stages, s.jobs, s.calls);
    SlotsChange(s.stages, s.threads[t].op, Unclaimed, s.threads[t].c);
  }

  /** No claim succeeds on a closed Context, however the run goes on. */
  lemma {:induction false} NoClaimAfterClose(s: State, events: seq<Event>, c: Id)
    requires Inv(s) && Legal(s, events) && c in s.ctxs && s.ctxs[c].mode.Closed?
    ensures var t := After(s, events);
      && c in t.ctxs && t.ctxs[c].mode.Closed?
      && Slots(t.stages, c) <= Slots(s.stages, c) && t.ctxs[c].inProgress <= s.ctxs[c].inProgress
    decreases |events|
  {
    if events == [] {
    } else {
      var e := events[0];
      StepKeeps(s, e);
      StepClaimsNothing(s, e, c);
      NoClaimAfterClose(Apply(s, e), events[1..], c);
      hide Inv;
      assert After(s, events) == After(Apply(s, e), events[1..]);
    }
  }

  lemma StepClaimsNothing(s: State, e: Event, c: Id)
    requires Inv(s) && Enabled(s, e) && c in s.ctxs && s.ctxs[c].mode.Closed?
    ensures var t := Apply(s, e);
      && c in t.ctxs && t.ctxs[c].mode.Closed?
      && Slots(t.stages, c) <= Slots(s.stages, c) && t.ctxs[c].inProgress <= s.ctxs[c].inProgress
  {
    assert Fine(s.threads[e.t], s.stages, s.jobs, s.calls);
    hide Exclusive, Duties, Minded, Counted, Logged, CanLock;
  }

  predicate Progresses(e: Event) {
    e.Lock? || e.Leave? || e.Schedule?
  }

  /** Taking the Operation's lock before the Context's cannot deadlock: while any thread is on its way, some
      thread can go on. */
  lemma NoDeadlock(s: State, t: nat)
    requires t < |s.threads| && !s.threads[t].Idle?
    ensures exists e :: Enabled(s, e) && Progresses(e)
  {
    if IsInside(s.threads[t]) {
      assert Enabled(s, Leave(t));
    } else if s.threads[t].Scheduling? {
      assert Enabled(s, Schedule(t, false));
    } else if CanLock(s.threads, t) {
      assert Enabled(s, Lock(t));
    } else if s.threads[t].WantOp? || s.threads[t].WantCallback? {
      var u: nat :| u < |s.threads| && HoldsOp(s.threads[u], s.threads[t].op);
      if s.threads[u].WantCtx? {
        HolderGoesOn(s, u, s.threads[u].c);
      } else {
        assert Enabled(s, Leave(u));
      }
    } else {
      HolderGoesOn(s, t, s.threads[t].c);
    }
  }

  /** How far a thread is from letting go of the locks it holds. */
  function Grip(pc: Pc): nat {
    if pc.WantCtx? then 2 else if IsInside(pc) then 1 else 0
  }

  function Grips(threads: seq<Pc>): nat {
    if threads == [] then 0 else Grips(threads[..|threads| - 1]) + Grip(threads[|threads| - 1])
  }

  lemma {:induction false} GripsUpdate(threads: seq<Pc>, u: nat, pc: Pc)
    requires u < |threads|
    ensures Grips(threads[u := pc]) == Grips(threads) - Grip(threads[u]) + Grip(pc)
  {
    var n := |threads| - 1;
    if u == n {
      assert threads[u := pc][..n] == threads[..n];
    } else {
      assert threads[u := pc][..n] == threads[..n][u := pc];
      GripsUpdate(threads[..n], u, pc);
    }
  }

  /** Somebody who holds a lock and can go on with what is inside. */
  predicate LetsGo(threads: seq<Pc>, u: nat) {
    u < |threads| && (IsInside(threads[u]) || (threads[u].WantCtx? && CanLock(threads, u)))
  }

  /** A thread waits for a lock only while somebody else is on the way to letting go of one. */
  lemma WaitingForSomebody(threads: seq<Pc>, t: nat)
    requires t < |threads| && Wants(threads[t]) && !CanLock(threads, t)
    ensures exists u: nat :: LetsGo(threads, u) && u != t
  {
    if threads[t].WantOp? || threads[t].WantCallback? {
      var u: nat :| u < |threads| && HoldsOp(threads[u], threads[t].op);
      if threads[u].WantCtx? && !CanLock(threads, u) {
        var v: nat :| v < |threads| && HoldsCtx(threads[v], threads[u].c);
        assert LetsGo(threads, v);
      } else {
        assert LetsGo(threads, u);
      }
    } else {
      var v: nat :| v < |threads| && HoldsCtx(threads[v], threads[t].c);
      assert LetsGo(threads, v);
    }
  }

  predicate Wants(pc: Pc) {
    pc.WantOp? || pc.WantCtx? || pc.WantSlot? || pc.WantCallback? || pc.WantClose?
  }

  lemma HolderGoesOn(s: State, t: nat, c: Id)
    requires t < |s.threads|
    requires (s.threads[t].WantCtx? || s.threads[t].WantSlot? || s.threads[t].WantClose?) && s.threads[t].c == c
    ensures exists e :: Enabled(s, e) && Progresses(e)
  {
    if CtxFree(s.threads, c) {
      assert Enabled(s, Lock(t)) && Progresses(Lock(t));
    } else {
      var u: nat :| u < |s.threads| && HoldsCtx(s.threads[u], c);
      assert Enabled(s, Leave(u)) && Progresses(Leave(u));
    }
  }
}
