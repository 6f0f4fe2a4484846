/** The asyncio adapter and its pure-Python Context `own`, step by step together,
    among any other Contexts and threads.

    A step is one of the tasks around the semaphore, or one of a thread in some
    Context; the adapter hears of claims, of claims given back and of callbacks
    that concern its own Context.  A submit to it is a call that a task makes while
    it holds its permit, once for its Operation, and does not leave in the middle. */
module PythonPressure {
  import opened Backpressure
  import opened Lanes
  import Locks = LockProtocol
  import opened Wrappers

  datatype Joint = Joint(adapter: State, contexts: Locks.State)

  datatype Step = OfTask(t: Event) | OfContext(e: Locks.Event)

  function EchoOf(s: Locks.State, e: Locks.Event, own: Locks.Id): Echo
    requires Locks.Enabled(s, e)
  {
    if !e.Leave? then Silent
    else match s.threads[e.t]
      case Inside(Claim, op, c) => if c == own && Locks.Claims(s, op, c) then Heard(Submit({op})) else Silent
      case Inside(Rollback, op, c) => if c == own then Heard(Withdraw(op)) else Silent
      case InsideCallback(op) => if IsOf(Locks.StageOf(s.stages, op), own) then Heard(Callback(op)) else Silent
      case _ => Silent
  }

  /** Claimed, scheduled or released by the Context. */
  predicate IsOf(stage: Locks.Stage, own: Locks.Id) {
    !stage.Unclaimed? && stage.c == own
  }

  /** On the way to a claim for `own`. */
  predicate Claiming(pc: Locks.Pc, own: Locks.Id) {
    (pc.WantOp? || pc.WantCtx? || pc.Inside?) && pc.why.Claim? && pc.c == own
  }

  predicate Submitting(threads: seq<Locks.Pc>, op: Op, own: Locks.Id) {
    exists u :: 0 <= u < |threads| && Claiming(threads[u], own) && threads[u].op == op
  }

  predicate CanStep(j: Joint, step: Step, own: Locks.Id) {
    match step
    case OfTask(t) =>
      OfTasks(t) && Enabled(j.adapter, t) && (t.Abandon? ==> !Submitting(j.contexts.threads, t.op, own))
    case OfContext(e) =>
      && Locks.Enabled(j.contexts, e)
      && (e.BeginSubmit? && e.c == own ==>
            Enabled(j.adapter, Submit({e.op})) && !Submitting(j.contexts.threads, e.op, own))
  }

  function After1(j: Joint, step: Step, own: Locks.Id): Joint
    requires CanStep(j, step, own)
  {
    match step
    case OfTask(t) => j.(adapter := Apply(j.adapter, t))
    case OfContext(e) => Joint(Hear(j.adapter, EchoOf(j.contexts, e, own)), Locks.Apply(j.contexts, e))
  }

  function Start(threads: nat, ctxs: map<Locks.Id, Locks.Ctx>, own: Locks.Id): Joint
    requires own in ctxs && ctxs[own].max >= 0
  {
    Joint(Backpressure.Init(ctxs[own].max), Locks.Init(threads, ctxs))
  }

  ghost predicate Run(j: Joint, steps: seq<Step>, own: Locks.Id)
    decreases |steps|
  {
    steps == [] || (CanStep(j, steps[0], own) && Run(After1(j, steps[0], own), steps[1..], own))
  }

  ghost function End(j: Joint, steps: seq<Step>, own: Locks.Id): Joint
    requires Run(j, steps, own)
    decreases |steps|
  {
    if steps == [] then j else End(After1(j, steps[0], own), steps[1..], own)
  }

  predicate Loosening(step: Step) {
    step.OfTask? && Loosens(step.t)
  }

  /** The adapter knows exactly what its Context claimed, and what was called back. */
  ghost predicate Knows(a: State, stages: map<Op, Locks.Stage>, calls: seq<Op>, own: Locks.Id) {
    forall op :: (op in a.submitted <==> IsOf(Locks.StageOf(stages, op), own))
              && (op in a.called <==> op in calls && IsOf(Locks.StageOf(stages, op), own))
  }

  /** Whoever is on the way to a claim holds the permit for it, and nobody else claims the Operation. */
  ghost predicate Entitled(a: State, threads: seq<Locks.Pc>, own: Locks.Id) {
    && (forall u :: 0 <= u < |threads| && Claiming(threads[u], own) ==> Enabled(a, Submit({threads[u].op})))
    && forall u, v :: 0 <= u < v < |threads| && Claiming(threads[u], own) && Claiming(threads[v], own) ==>
         threads[u].op != threads[v].op
  }

  ghost predicate Coupled(j: Joint, own: Locks.Id) {
    && Sound(j.adapter) && Locks.Inv(j.contexts)
    && own in j.contexts.ctxs && j.contexts.ctxs[own].max == j.adapter.permits
    && Knows(j.adapter, j.contexts.stages, j.contexts.calls, own)
    && Entitled(j.adapter, j.contexts.threads, own)
  }

  /** The Operation of a thread in a claim, a rollback or a callback was not called back. */
  lemma NotCalled(s: Locks.State, e: Locks.Event, own: Locks.Id)
    requires Locks.Inv(s) && Locks.Enabled(s, e)
    ensures match EchoOf(s, e, own)
      case Heard(Submit(ops)) => forall op :: op in ops ==> op !in s.calls
      case Heard(Withdraw(op)) => op !in s.calls && IsOf(Locks.StageOf(s.stages, op), own)
      case Heard(Callback(op)) => op !in s.calls
      case _ => true
  {
    assert Locks.Fine(s.threads[e.t], s.stages, s.jobs, s.calls);
    if e.Leave? && s.threads[e.t].Inside? {
      Locks.NotLogged(s.stages, s.jobs, s.schedules, s.calls, s.threads[e.t].op);
    }
    hide Locks.Inv, Locks.CanLock;
  }

  /** Only what the adapter hears changes whose an Operation is, and what was called. */
  lemma EchoTells(s: Locks.State, e: Locks.Event, own: Locks.Id, op: Op)
    requires Locks.Inv(s) && Locks.Enabled(s, e)
    ensures var t := Locks.Apply(s, e);
      var before, after := IsOf(Locks.StageOf(s.stages, op), own), IsOf(Locks.StageOf(t.stages, op), own);
      match EchoOf(s, e, own)
      case Heard(Submit(ops)) => (after <==> before || op in ops) && t.calls == s.calls
      case Heard(Withdraw(x)) => (after <==> before && op != x) && t.calls == s.calls
      case Heard(Callback(x)) => (after <==> before) && t.calls == s.calls + [x]
        && IsOf(Locks.StageOf(s.stages, x), own)
      case Silent => (after <==> before) && (before ==> (op in t.calls <==> op in s.calls))
      case _ => false
  {
    assert Locks.Fine(s.threads[e.t], s.stages, s.jobs, s.calls) by {
      hide Locks.Exclusive, Locks.Counted, Locks.Logged, Locks.Minded;
    }
    hide Locks.Inv, Locks.CanLock;
    match e
    case Leave(_) =>
    case _ =>
  }

  lemma EchoFits(j: Joint, e: Locks.Event, own: Locks.Id)
    requires Coupled(j, own) && CanStep(j, OfContext(e), own) && EchoOf(j.contexts, e, own).Heard?
    ensures Enabled(j.adapter, EchoOf(j.contexts, e, own).e) && !Loosens(EchoOf(j.contexts, e, own).e)
  {
    NotCalled(j.contexts, e, own);
    ClaimsHeard(j.contexts, e, own);
    hide Locks.Inv, Locks.CanLock;
  }

  lemma StepKnows(j: Joint, e: Locks.Event, own: Locks.Id)
    requires Coupled(j, own) && CanStep(j, OfContext(e), own)
    ensures var k := After1(j, OfContext(e), own); Knows(k.adapter, k.contexts.stages, k.contexts.calls, own)
  {
    NotCalled(j.contexts, e, own);
    var k := After1(j, OfContext(e), own);
    hide Locks.Inv, Locks.CanLock, Locks.Apply, Locks.Enabled, EchoOf, IsOf;
    forall op: Op
      ensures (op in k.adapter.submitted <==> IsOf(Locks.StageOf(k.contexts.stages, op), own))
           && (op in k.adapter.called <==> op in k.contexts.calls && IsOf(Locks.StageOf(k.contexts.stages, op), own))
    {
      EchoTells(j.contexts, e, own, op);
    }
  }

  lemma TaskEntitled(a: State, t: Event, threads: seq<Locks.Pc>, own: Locks.Id)
    requires Sound(a) && Entitled(a, threads, own) && Enabled(a, t) && OfTasks(t)
    requires t.Abandon? ==> !Submitting(threads, t.op, own)
    ensures Entitled(Apply(a, t), threads, own)
  {
  }

  /** How a step moves its thread with respect to claims. */
  lemma ClaimMoves(s: Locks.State, e: Locks.Event, own: Locks.Id)
    requires Locks.Enabled(s, e)
    ensures var pc, t := s.threads[e.t], Locks.Apply(s, e);
      && |t.threads| == |s.threads|
      && (forall u :: 0 <= u < |s.threads| && u != e.t ==> t.threads[u] == s.threads[u])
      && (Claiming(t.threads[e.t], own) ==>
            || (e.BeginSubmit? && e.c == own && t.threads[e.t].op == e.op)
            || (Claiming(pc, own) && t.threads[e.t].op == pc.op && EchoOf(s, e, own).Silent?))
  {
    hide Locks.CanLock, Locks.Claims, Locks.AddSlot;
    var t := Locks.Apply(s, e);
    if !e.Leave? && !e.Schedule? {
      assert EchoOf(s, e, own).Silent?;
    } else {
      assert !Claiming(t.threads[e.t], own);
    }
  }

  lemma ClaimsHeard(s: Locks.State, e: Locks.Event, own: Locks.Id)
    requires Locks.Enabled(s, e)
    ensures match EchoOf(s, e, own)
      case Heard(Submit(ops)) => Claiming(s.threads[e.t], own) && ops == {s.threads[e.t].op}
      case _ => true
  {
    hide Locks.CanLock, Locks.Claims;
  }

  lemma ContextEntitled(j: Joint, e: Locks.Event, own: Locks.Id)
    requires Coupled(j, own) && CanStep(j, OfContext(e), own)
    ensures var k := After1(j, OfContext(e), own); Entitled(k.adapter, k.contexts.threads, own)
  {
    ClaimMoves(j.contexts, e, own);
    ClaimsHeard(j.contexts, e, own);
    NotCalled(j.contexts, e, own);
    hide Locks.Inv, Locks.CanLock, Locks.Enabled, Locks.Apply, EchoOf, Knows, Claiming;
  }

  lemma LimitStays(s: Locks.State, e: Locks.Event, own: Locks.Id)
    requires Locks.Enabled(s, e) && own in s.ctxs
    ensures var t := Locks.Apply(s, e); own in t.ctxs && t.ctxs[own].max == s.ctxs[own].max
  {
    hide Locks.CanLock;
  }

  lemma StepCoupled(j: Joint, step: Step, own: Locks.Id)
    requires Coupled(j, own) && CanStep(j, step, own)
    ensures Coupled(After1(j, step, own), own) && After1(j, step, own).adapter.permits == j.adapter.permits
    ensures NoneLoose(j.adapter) && !Loosening(step) ==> NoneLoose(After1(j, step, own).adapter)
  {
    hide Locks.Inv, Locks.Apply, Locks.Enabled, EchoOf, IsOf, Knows, Entitled;
    match step
    case OfTask(t) =>
      StepSound(j.adapter, t);
      TaskKnows(j.adapter, t, j.contexts.stages, j.contexts.calls, own);
      TaskEntitled(j.adapter, t, j.contexts.threads, own);
      if NoneLoose(j.adapter) && !Loosens(t) {
        StepHeld(j.adapter, t);
      }
    case OfContext(e) =>
      Locks.StepKeeps(j.contexts, e);
      LimitStays(j.contexts, e, own);
      StepKnows(j, e, own);
      ContextEntitled(j, e, own);
      if EchoOf(j.contexts, e, own).Heard? {
        EchoFits(j, e, own);
        StepSound(j.adapter, EchoOf(j.contexts, e, own).e);
        if NoneLoose(j.adapter) {
          StepHeld(j.adapter, EchoOf(j.contexts, e, own).e);
        }
      }
  }

  lemma TaskKnows(a: State, t: Event, stages: map<Op, Locks.Stage>, calls: seq<Op>, own: Locks.Id)
    requires Knows(a, stages, calls, own) && OfTasks(t)
    ensures Knows(Apply(a, t), stages, calls, own)
  {
  }

  lemma {:induction false} RunCoupled(j: Joint, steps: seq<Step>, own: Locks.Id)
    requires Coupled(j, own) && Run(j, steps, own)
    ensures Coupled(End(j, steps, own), own) && End(j, steps, own).adapter.permits == j.adapter.permits
    ensures NoneLoose(j.adapter) && (forall step :: step in steps ==> !Loosening(step)) ==>
      NoneLoose(End(j, steps, own).adapter)
    decreases |steps|
  {
    hide Coupled, NoneLoose, CanStep, After1;
    if steps != [] {
      StepCoupled(j, steps[0], own);
      RunCoupled(After1(j, steps[0], own), steps[1..], own);
      assert steps[0] in steps;
    }
  }

  lemma StartCoupled(threads: nat, ctxs: map<Locks.Id, Locks.Ctx>, own: Locks.Id)
    requires own in ctxs && forall c :: c in ctxs ==> ctxs[c].inProgress == 0 <= ctxs[c].max
    ensures Coupled(Start(threads, ctxs, own), own) && NoneLoose(Start(threads, ctxs, own).adapter)
  {
    Locks.InitInv(threads, ctxs);
  }

  /** In every run, whenever a task that holds a permit claims and each slot's Operation has its holder - whatever
      is loose behind its slot - the Context has a slot: the claim is never refused for its limit. */
  lemma NeverFull(threads: nat, ctxs: map<Locks.Id, Locks.Ctx>, own: Locks.Id, steps: seq<Step>, op: Op)
    requires own in ctxs && forall c :: c in ctxs ==> ctxs[c].inProgress == 0 <= ctxs[c].max
    requires Run(Start(threads, ctxs, own), steps, own)
    requires var j := End(Start(threads, ctxs, own), steps, own);
      && Enabled(j.adapter, Submit({op}))
      && forall x :: x in Locks.Slots(j.contexts.stages, own) ==> x in j.adapter.holders
    ensures var s := End(Start(threads, ctxs, own), steps, own).contexts;
      own in s.ctxs && s.ctxs[own].inProgress < s.ctxs[own].max
  {
    var start := Start(threads, ctxs, own);
    StartCoupled(threads, ctxs, own);
    RunCoupled(start, steps, own);
    var j := End(start, steps, own);
    SlotsAreOutstanding(j, own);
    Smaller(Locks.Slots(j.contexts.stages, own), j.adapter.holders - {op});
  }

  /** A slot is given back before the callback. */
  lemma SlotsAreOutstanding(j: Joint, own: Locks.Id)
    requires Coupled(j, own)
    ensures Locks.Slots(j.contexts.stages, own) <= AllOutstanding(j.adapter)
    ensures j.contexts.ctxs[own].inProgress == |Locks.Slots(j.contexts.stages, own)| <= j.adapter.permits
  {
    hide Locks.Exclusive, Locks.Duties, Locks.Minded;
  }

  /** No Operation is loose in a run in which no task leaves early. */
  lemma NoneLooseUnlessLoosened(threads: nat, ctxs: map<Locks.Id, Locks.Ctx>, own: Locks.Id, steps: seq<Step>)
    requires own in ctxs && forall c :: c in ctxs ==> ctxs[c].inProgress == 0 <= ctxs[c].max
    requires Run(Start(threads, ctxs, own), steps, own) && forall step :: step in steps ==> !Loosening(step)
    ensures NoneLoose(End(Start(threads, ctxs, own), steps, own).adapter)
  {
    StartCoupled(threads, ctxs, own);
    RunCoupled(Start(threads, ctxs, own), steps, own);
  }

  // ------------------------------------------------- exactly when a claim can be refused

  /** A holder's fresh Operation is about to be claimed, and the open Context is at its limit. */
  predicate Refuses(j: Joint, t: nat, op: Op, own: Locks.Id) {
    && t < |j.contexts.threads| && j.contexts.threads[t] == Locks.Inside(Locks.Claim, op, own)
    && Enabled(j.adapter, Submit({op})) && Locks.StageOf(j.contexts.stages, op).Unclaimed?
    && own in j.contexts.ctxs && j.contexts.ctxs[own].mode.Open?
    && j.contexts.ctxs[own].inProgress == j.contexts.ctxs[own].max
  }

  ghost predicate Refusing(j: Joint, steps: seq<Step>, t: nat, op: Op, own: Locks.Id) {
    Run(j, steps, own) && (forall step :: step in steps ==> !Loosening(step)) && Refuses(End(j, steps, own), t, op, own)
  }

  /** Some run in which no further task leaves early comes to that. */
  ghost predicate CanRefuse(j: Joint, own: Locks.Id) {
    exists steps: seq<Step>, t: nat, op: Op :: Refusing(j, steps, t, op, own)
  }

  /** Inside the Context's lock to give the slot of `loose` back, or to close the Context. */
  predicate Ends(pc: Locks.Pc, loose: Op, own: Locks.Id) {
    || (pc.InsideSlot? && pc.op == loose)
    || (pc.Inside? && pc.why.Rollback? && pc.op == loose)
    || (pc.InsideClose? && pc.c == own)
  }

  /** Holds the Operation's lock on its way to give the claim back. */
  predicate Undoes(pc: Locks.Pc, loose: Op) {
    pc.WantCtx? && pc.why.Rollback? && pc.op == loose
  }

  /** The thread cannot go on without the slot of `loose` being given back or the Context being closed. */
  predicate Waits(threads: seq<Locks.Pc>, t: nat, loose: Op, own: Locks.Id)
    requires t < |threads|
  {
    match threads[t]
    case WantSlot(op, _) => op == loose
    case WantOp(Rollback, op, _) => op == loose
    case WantOp(Claim, op, _) => op == loose && exists u :: 0 <= u < |threads| && Undoes(threads[u], loose)
    case WantCtx(_, _, _) => Undoes(threads[t], loose)
    case WantClose(c) => c == own
    case _ => false
  }

  /** `loose` keeps its slot in the open Context for as long as one likes, and some thread can go on without it. */
  predicate Stays(s: Locks.State, loose: Op, own: Locks.Id) {
    && own in s.ctxs && s.ctxs[own].mode.Open? && Locks.Uses(Locks.StageOf(s.stages, loose), own)
    && (forall u :: 0 <= u < |s.threads| ==> !Ends(s.threads[u], loose, own))
    && exists u :: 0 <= u < |s.threads| && !Waits(s.threads, u, loose, own)
  }

  ghost predicate LooseStays(j: Joint, own: Locks.Id) {
    exists loose :: Loose(j.adapter, loose) && Stays(j.contexts, loose, own)
  }

  /** From every state of every run: a claim can be refused for the limit if and only if some loose Operation's slot
      stays. */
  lemma LimitExact(j: Joint, own: Locks.Id)
    requires Coupled(j, own)
    ensures CanRefuse(j, own) <==> LooseStays(j, own)
  {
    if CanRefuse(j, own) {
      var steps: seq<Step>, t: nat, op: Op :| Refusing(j, steps, t, op, own);
      var loose := Kept(j, steps, t, op, own);
      assert Loose(j.adapter, loose);
    }
    if LooseStays(j, own) {
      var loose :| Loose(j.adapter, loose) && Stays(j.contexts, loose, own);
      Fill(j, loose, own);
    }
  }

  /** In particular in every run, while no thread is in a call, a job whose task is gone. */
  lemma LooseJobOverfills(threads: nat, ctxs: map<Locks.Id, Locks.Ctx>, own: Locks.Id, steps: seq<Step>, loose: Op)
    requires own in ctxs && forall c :: c in ctxs ==> ctxs[c].inProgress == 0 <= ctxs[c].max
    requires Run(Start(threads, ctxs, own), steps, own)
    requires var j := End(Start(threads, ctxs, own), steps, own);
      && j.contexts.threads != [] && Locks.AllIdle(j.contexts.threads)
      && own in j.contexts.ctxs && j.contexts.ctxs[own].mode.Open?
      && Locks.StageOf(j.contexts.stages, loose) == Locks.Scheduled(own) && loose !in j.adapter.holders
    ensures CanRefuse(End(Start(threads, ctxs, own), steps, own), own)
  {
    StartCoupled(threads, ctxs, own);
    RunCoupled(Start(threads, ctxs, own), steps, own);
    var j := End(Start(threads, ctxs, own), steps, own);
    SlotsAreOutstanding(j, own);
    assert loose in Locks.Slots(j.contexts.stages, own);
    assert Loose(j.adapter, loose) && !Waits(j.contexts.threads, 0, loose, own);
    LimitExact(j, own);
  }

  // ... only if: what is loose and stays at the end did so all along

  lemma {:induction false} Kept(j: Joint, steps: seq<Step>, t: nat, op: Op, own: Locks.Id) returns (loose: Op)
    requires Coupled(j, own) && Refusing(j, steps, t, op, own)
    ensures Loose(j.adapter, loose) && Stays(j.contexts, loose, own)
    decreases |steps|
  {
    hide Coupled, CanStep, After1, Refuses, Stays, Loose;
    if steps == [] {
      loose := RefusedFor(j, t, op, own);
    } else {
      assert steps[0] in steps;
      StepCoupled(j, steps[0], own);
      loose := Kept(After1(j, steps[0], own), steps[1..], t, op, own);
      StayedBefore(j, steps[0], loose, own);
    }
  }

  lemma RefusedFor(j: Joint, t: nat, op: Op, own: Locks.Id) returns (loose: Op)
    requires Coupled(j, own) && Refuses(j, t, op, own)
    ensures Loose(j.adapter, loose) && Stays(j.contexts, loose, own)
  {
    SlotsAreOutstanding(j, own);
    var slots := Locks.Slots(j.contexts.stages, own);
    if slots <= j.adapter.holders {
      Smaller(slots, j.adapter.holders - {op});
      assert false;
    }
    loose :| loose in slots && loose !in j.adapter.holders;
    NobodyEnds(j.contexts, t, loose, own);
    assert !Waits(j.contexts.threads, t, loose, own);
  }

  /** Whoever holds the Context's lock for a claim keeps the others out. */
  lemma NobodyEnds(s: Locks.State, t: nat, loose: Op, own: Locks.Id)
    requires Locks.Inv(s) && t < |s.threads| && s.threads[t].Inside? && s.threads[t].why.Claim? && s.threads[t].c == own
    requires Locks.Uses(Locks.StageOf(s.stages, loose), own)
    ensures forall u :: 0 <= u < |s.threads| ==> !Ends(s.threads[u], loose, own)
  {
    hide Locks.Counted, Locks.Logged, Locks.Minded;
    forall u | 0 <= u < |s.threads|
      ensures !Ends(s.threads[u], loose, own)
    {
      assert Locks.Fine(s.threads[u], s.stages, s.jobs, s.calls);
      assert Ends(s.threads[u], loose, own) ==> Locks.HoldsCtx(s.threads[u], own);
      assert Locks.HoldsCtx(s.threads[t], own);
    }
  }

  lemma StayedBefore(j: Joint, step: Step, loose: Op, own: Locks.Id)
    requires Coupled(j, own) && CanStep(j, step, own) && !Loosening(step)
    requires var k := After1(j, step, own); Loose(k.adapter, loose) && Stays(k.contexts, loose, own)
    ensures Loose(j.adapter, loose) && Stays(j.contexts, loose, own)
  {
    match step
    case OfTask(t) =>
    case OfContext(e) =>
      SlotBefore(j, e, loose, own);
      EndsBefore(j.contexts, e, loose, own);
      FreeBefore(j.contexts, e, loose, own);
      hide Coupled, Locks.Apply, Locks.Enabled, EchoOf, Waits, Ends;
  }

  lemma SlotBefore(j: Joint, e: Locks.Event, loose: Op, own: Locks.Id)
    requires Coupled(j, own) && CanStep(j, OfContext(e), own)
    requires var k := After1(j, OfContext(e), own); Loose(k.adapter, loose) && Stays(k.contexts, loose, own)
    ensures var s := j.contexts;
      && Loose(j.adapter, loose)
      && own in s.ctxs && s.ctxs[own].mode.Open? && Locks.Uses(Locks.StageOf(s.stages, loose), own)
  {
    if EchoOf(j.contexts, e, own).Heard? {
      EchoFits(j, e, own);
    }
    EchoTells(j.contexts, e, own, loose);
    StageBefore(j.contexts, e, loose, own);
    hide Locks.Inv, Locks.CanLock, Locks.Apply, Locks.Enabled, EchoOf, Entitled;
  }

  lemma StageBefore(s: Locks.State, e: Locks.Event, loose: Op, own: Locks.Id)
    requires Locks.Inv(s) && Locks.Enabled(s, e) && own in s.ctxs
    requires var t := Locks.Apply(s, e);
      own in t.ctxs && t.ctxs[own].mode.Open? && Locks.Uses(Locks.StageOf(t.stages, loose), own)
    ensures s.ctxs[own].mode.Open?
    ensures IsOf(Locks.StageOf(s.stages, loose), own) ==> Locks.Uses(Locks.StageOf(s.stages, loose), own)
  {
    assert Locks.Fine(s.threads[e.t], s.stages, s.jobs, s.calls);
    hide Locks.Inv, Locks.CanLock;
  }

  lemma EndsBefore(s: Locks.State, e: Locks.Event, loose: Op, own: Locks.Id)
    requires Locks.Enabled(s, e) && Stays(Locks.Apply(s, e), loose, own)
    ensures forall u :: 0 <= u < |s.threads| ==> !Ends(s.threads[u], loose, own)
  {
    hide Locks.CanLock, Waits;
    var t := Locks.Apply(s, e);
    forall u | 0 <= u < |s.threads|
      ensures !Ends(s.threads[u], loose, own)
    {
      assert !Ends(t.threads[u], loose, own);
    }
  }

  lemma FreeBefore(s: Locks.State, e: Locks.Event, loose: Op, own: Locks.Id)
    requires Locks.Enabled(s, e) && Stays(Locks.Apply(s, e), loose, own)
    ensures exists u :: 0 <= u < |s.threads| && !Waits(s.threads, u, loose, own)
  {
    var t := Locks.Apply(s, e);
    var u :| 0 <= u < |t.threads| && !Waits(t.threads, u, loose, own);
    assert !Ends(t.threads[e.t], loose, own);
    if Waits(s.threads, u, loose, own) {
      WaitsOn(s, e, u, loose, own);
    }
  }

  /** Who waits is still waiting after a step that ends nothing. */
  lemma WaitsOn(s: Locks.State, e: Locks.Event, u: nat, loose: Op, own: Locks.Id)
    requires Locks.Enabled(s, e) && u < |s.threads| && Waits(s.threads, u, loose, own)
    ensures var t := Locks.Apply(s, e);
      |t.threads| == |s.threads| && (Ends(t.threads[e.t], loose, own) || Waits(t.threads, u, loose, own))
  {
    hide Locks.Claims, Locks.AddSlot;
    var t := Locks.Apply(s, e);
    if v :| 0 <= v < |s.threads| && Undoes(s.threads[v], loose) {
      assert Locks.HoldsOp(s.threads[v], loose);
      assert e.t != v ==> Undoes(t.threads[v], loose);
    }
  }

  // ... if

  lemma RefusesLater(j: Joint, steps: seq<Step>, own: Locks.Id)
    requires Run(j, steps, own) && (forall step :: step in steps ==> !Loosening(step))
    requires CanRefuse(End(j, steps, own), own)
    ensures CanRefuse(j, own)
  {
    hide Refuses;
    var more: seq<Step>, t: nat, op: Op :| Refusing(End(j, steps, own), more, t, op, own);
    RunConcat(j, steps, more, own);
    assert Refusing(j, steps + more, t, op, own);
  }

  /** The steps that a thread has before it is idle. */
  function Toil(pc: Locks.Pc): nat {
    match pc
    case Idle => 0
    case WantOp(why, _, _) => if why.Claim? then 7 else 3
    case WantCtx(why, _, _) => if why.Claim? then 6 else 2
    case Inside(why, _, _) => if why.Claim? then 5 else 1
    case Scheduling(_, _) => 4
    case WantSlot(_, _) => 4
    case InsideSlot(_, _) => 3
    case WantCallback(_) => 2
    case InsideCallback(_) => 1
    case WantClose(_) => 2
    case InsideClose(_) => 1
  }

  function Toils(threads: seq<Locks.Pc>): nat {
    if threads == [] then 0 else Toils(threads[..|threads| - 1]) + Toil(threads[|threads| - 1])
  }

  lemma {:induction false} ToilsUpdate(threads: seq<Locks.Pc>, u: nat, pc: Locks.Pc)
    requires u < |threads|
    ensures Toils(threads[u := pc]) == Toils(threads) - Toil(threads[u]) + Toil(pc)
  {
    var n := |threads| - 1;
    if u == n {
      assert threads[u := pc][..n] == threads[..n];
    } else {
      assert threads[u := pc][..n] == threads[..n][u := pc];
      ToilsUpdate(threads[..n], u, pc);
    }
  }

  /** Whoever need not wait goes on to the end of its call. */
  lemma {:induction false} Fill(j: Joint, loose: Op, own: Locks.Id)
    requires Coupled(j, own) && Loose(j.adapter, loose) && Stays(j.contexts, loose, own)
    ensures CanRefuse(j, own)
    decreases Toils(j.contexts.threads)
  {
    hide CanRefuse;
    var threads := j.contexts.threads;
    if u: nat :| u < |threads| && !threads[u].Idle? && !Waits(threads, u, loose, own) {
      var e := Next(j.contexts, u, loose, own);
      hide Coupled, Loose, Stays, Waits;
      Goes(j, e, loose, own);
      Fill(After1(j, OfContext(e), own), loose, own);
      RunFrom([OfContext(e)], j, After1(j, OfContext(e), own), 0, own);
      assert [OfContext(e)][0..] == [OfContext(e)];
      RefusesLater(j, [OfContext(e)], own);
    } else {
      FillSettled(j, loose, own);
    }
  }

  /** A step of a call under way that needs nothing of `loose`. */
  predicate Moves(s: Locks.State, e: Locks.Event, loose: Op, own: Locks.Id) {
    && Locks.Enabled(s, e)
    && match e
       case Lock(t) => !Waits(s.threads, t, loose, own)
       case Leave(_) => true
       case Schedule(t, ok) => ok || s.threads[t].op != loose
       case _ => false
  }

  lemma Next(s: Locks.State, u: nat, loose: Op, own: Locks.Id) returns (e: Locks.Event)
    requires Locks.Inv(s) && Stays(s, loose, own)
    requires u < |s.threads| && !s.threads[u].Idle? && !Waits(s.threads, u, loose, own)
    ensures Moves(s, e, loose, own)
  {
    if Locks.IsInside(s.threads[u]) {
      e := Locks.Leave(u);
    } else if s.threads[u].Scheduling? {
      assert Locks.Fine(s.threads[u], s.stages, s.jobs, s.calls);
      e := Locks.Schedule(u, s.threads[u].op == loose);
    } else if Locks.CanLock(s.threads, u) {
      e := Locks.Lock(u);
    } else if s.threads[u].WantOp? || s.threads[u].WantCallback? {
      var v: nat :| v < |s.threads| && Locks.HoldsOp(s.threads[v], s.threads[u].op);
      e := HolderNext(s, u, v, loose, own);
    } else {
      e := LockerNext(s, s.threads[u].c);
    }
  }

  /** The Context's lock is taken: its holder leaves. */
  lemma LockerNext(s: Locks.State, c: Locks.Id) returns (e: Locks.Event)
    requires !Locks.CtxFree(s.threads, c)
    ensures e.Leave? && Locks.Enabled(s, e)
  {
    var v: nat :| v < |s.threads| && Locks.HoldsCtx(s.threads[v], c);
    e := Locks.Leave(v);
  }

  /** The Operation's lock is taken, and not by somebody who waits. */
  lemma HolderNext(s: Locks.State, u: nat, v: nat, loose: Op, own: Locks.Id) returns (e: Locks.Event)
    requires Locks.Inv(s) && Locks.Uses(Locks.StageOf(s.stages, loose), own)
    requires u < |s.threads| && (s.threads[u].WantOp? || s.threads[u].WantCallback?)
    requires !Waits(s.threads, u, loose, own)
    requires v < |s.threads| && Locks.HoldsOp(s.threads[v], s.threads[u].op)
    ensures Moves(s, e, loose, own)
  {
    assert Locks.Fine(s.threads[u], s.stages, s.jobs, s.calls);
    hide Locks.Inv;
    if Locks.IsInside(s.threads[v]) {
      e := Locks.Leave(v);
    } else if Locks.CtxFree(s.threads, s.threads[v].c) {
      e := Locks.Lock(v);
    } else {
      e := LockerNext(s, s.threads[v].c);
    }
  }

  lemma Goes(j: Joint, e: Locks.Event, loose: Op, own: Locks.Id)
    requires Coupled(j, own) && Loose(j.adapter, loose) && Stays(j.contexts, loose, own)
    requires Moves(j.contexts, e, loose, own)
    ensures CanStep(j, OfContext(e), own)
    ensures var k := After1(j, OfContext(e), own);
      && Coupled(k, own) && Loose(k.adapter, loose) && Stays(k.contexts, loose, own)
      && Toils(k.contexts.threads) < Toils(j.contexts.threads)
  {
    StepCoupled(j, OfContext(e), own);
    LooseGoesOn(j, e, loose, own);
    StaysOn(j.contexts, e, loose, own);
    ToilsLess(j.contexts, e, loose, own);
    hide Coupled, Loose, Stays, Toils, Locks.Apply, Locks.Enabled, EchoOf;
  }

  lemma LooseGoesOn(j: Joint, e: Locks.Event, loose: Op, own: Locks.Id)
    requires Coupled(j, own) && Loose(j.adapter, loose) && CanStep(j, OfContext(e), own)
    requires Locks.Uses(Locks.StageOf(Locks.Apply(j.contexts, e).stages, loose), own)
    requires Coupled(After1(j, OfContext(e), own), own)
    ensures Loose(After1(j, OfContext(e), own).adapter, loose)
  {
  }

  lemma ToilsLess(s: Locks.State, e: Locks.Event, loose: Op, own: Locks.Id)
    requires Moves(s, e, loose, own)
    ensures Toils(Locks.Apply(s, e).threads) < Toils(s.threads)
  {
    hide Toils, Locks.Claims, Locks.AddSlot, Locks.OpFree, Locks.CtxFree, Waits;
    var t := Locks.Apply(s, e);
    assert t.threads == s.threads[e.t := t.threads[e.t]] && Toil(t.threads[e.t]) < Toil(s.threads[e.t]);
    ToilsUpdate(s.threads, e.t, t.threads[e.t]);
  }

  lemma StaysOn(s: Locks.State, e: Locks.Event, loose: Op, own: Locks.Id)
    requires Locks.Inv(s) && Stays(s, loose, own) && Moves(s, e, loose, own)
    ensures Stays(Locks.Apply(s, e), loose, own)
  {
    var u :| 0 <= u < |s.threads| && !Waits(s.threads, u, loose, own);
    NobodyWaitsAnew(s, e, u, loose, own);
    SlotStays(s, e, loose, own);
    NobodyGoesToEnd(s, e, loose, own);
    hide Locks.Inv, Locks.Apply, Locks.Enabled, Moves, Waits, Ends;
  }

  lemma SlotStays(s: Locks.State, e: Locks.Event, loose: Op, own: Locks.Id)
    requires Locks.Inv(s) && Stays(s, loose, own) && Moves(s, e, loose, own)
    ensures var t := Locks.Apply(s, e);
      own in t.ctxs && t.ctxs[own].mode.Open? && Locks.Uses(Locks.StageOf(t.stages, loose), own)
  {
    assert Locks.Fine(s.threads[e.t], s.stages, s.jobs, s.calls);
    assert !Ends(s.threads[e.t], loose, own);
    hide Locks.Inv, Locks.CanLock, Waits;
  }

  lemma NobodyGoesToEnd(s: Locks.State, e: Locks.Event, loose: Op, own: Locks.Id)
    requires Stays(s, loose, own) && Moves(s, e, loose, own)
    ensures var t := Locks.Apply(s, e); forall u :: 0 <= u < |t.threads| ==> !Ends(t.threads[u], loose, own)
  {
    hide Locks.CanLock, Locks.Claims, Locks.AddSlot;
    var t := Locks.Apply(s, e);
    assert forall v :: 0 <= v < |s.threads| && v != e.t ==> t.threads[v] == s.threads[v];
    assert !Ends(t.threads[e.t], loose, own);
  }

  lemma NobodyWaitsAnew(s: Locks.State, e: Locks.Event, u: nat, loose: Op, own: Locks.Id)
    requires Moves(s, e, loose, own) && u < |s.threads| && !Waits(s.threads, u, loose, own)
    ensures var t := Locks.Apply(s, e); u < |t.threads| && !Waits(t.threads, u, loose, own)
  {
    hide Locks.CanLock, Locks.Claims, Locks.AddSlot;
    var t := Locks.Apply(s, e);
    assert |t.threads| == |s.threads| && forall v :: 0 <= v < |s.threads| && v != e.t ==> t.threads[v] == s.threads[v];
    assert Undoes(t.threads[e.t], loose) ==> Undoes(s.threads[e.t], loose);
    hide Locks.Apply, Locks.Enabled;
  }
  // ... and then newcomers take the other slots, one call after the other

  /** Whoever is not idle waits. */
  predicate Settled(threads: seq<Locks.Pc>, loose: Op, own: Locks.Id) {
    forall u :: 0 <= u < |threads| ==> threads[u].Idle? || Waits(threads, u, loose, own)
  }

  lemma FillSettled(j: Joint, loose: Op, own: Locks.Id)
    requires Coupled(j, own) && Loose(j.adapter, loose) && Stays(j.contexts, loose, own)
    requires Settled(j.contexts.threads, loose, own)
    ensures CanRefuse(j, own)
  {
    hide CanRefuse;
    var s := j.contexts;
    CoveredHaveSlots(j, loose, own);
    var u :| 0 <= u < |s.threads| && !Waits(s.threads, u, loose, own);
    var bound := Above(s.stages.Keys);
    SlotsAreOutstanding(j, own);
    hide Coupled, Fills;
    var events, y := FillLane(j.adapter, s.ctxs[own].inProgress, bound);
    Realizes(j, u, loose, bound, events, y, own);
  }

  lemma CoveredHaveSlots(j: Joint, loose: Op, own: Locks.Id)
    requires Coupled(j, own) && Loose(j.adapter, loose) && Stays(j.contexts, loose, own)
    requires Settled(j.contexts.threads, loose, own)
    ensures |Covered(j.adapter)| < j.contexts.ctxs[own].inProgress <= j.adapter.permits
  {
    SlotsAreOutstanding(j, own);
    var slots := Locks.Slots(j.contexts.stages, own);
    forall op | op in Covered(j.adapter)
      ensures op in slots - {loose}
    {
      OutstandingHasSlot(j, op, loose, own);
    }
    assert loose in slots;
    Smaller(Covered(j.adapter), slots - {loose});
  }

  lemma OutstandingHasSlot(j: Joint, op: Op, loose: Op, own: Locks.Id)
    requires Coupled(j, own) && Outstanding(j.adapter, op) && Settled(j.contexts.threads, loose, own)
    ensures Locks.Uses(Locks.StageOf(j.contexts.stages, op), own)
  {
    if Locks.StageOf(j.contexts.stages, op).Released? {
      NobodyCalls(j.contexts, op, loose, own);
    }
    hide Locks.Exclusive, Locks.Duties, Locks.Counted, Locks.Logged;
  }

  lemma NobodyCalls(s: Locks.State, op: Op, loose: Op, own: Locks.Id)
    requires Locks.Inv(s) && Settled(s.threads, loose, own) && Locks.StageOf(s.stages, op).Released?
    ensures !Locks.InCharge(s.threads, op)
  {
    hide Locks.Exclusive, Locks.Counted, Locks.Logged, Locks.Minded;
    forall u | 0 <= u < |s.threads|
      ensures Locks.Charge(s.threads[u]) != Some(op)
    {
      assert Locks.Fine(s.threads[u], s.stages, s.jobs, s.calls);
      assert s.threads[u].Idle? || Waits(s.threads, u, loose, own);
    }
  }

  /** Thread `u` is idle, nobody holds the Context's lock, and the newcomers' Operations are nobody else's. */
  ghost predicate Ready(j: Joint, u: nat, loose: Op, bound: Op, own: Locks.Id) {
    && Coupled(j, own) && j.contexts.ctxs[own].mode.Open?
    && u < |j.contexts.threads| && j.contexts.threads[u].Idle? && Settled(j.contexts.threads, loose, own)
    && loose in j.adapter.submitted
    && NoneFrom(j.contexts.stages.Keys, j.adapter.submitted, bound)
  }

  lemma {:induction false} Realizes(j: Joint, u: nat, loose: Op, bound: Op, events: seq<Event>, y: Op, own: Locks.Id)
    requires Ready(j, u, loose, bound, own)
    requires Fills(j.adapter, j.contexts.ctxs[own].inProgress, bound, events, y)
    ensures CanRefuse(j, own)
    decreases |events|
  {
    var n := j.contexts.ctxs[own].inProgress;
    AtMostFull(j, u, loose, bound, own);
    hide CanRefuse, CanStep, After1, Ready, Apply;
    if events == [] {
      RefusedNow(j, u, loose, bound, y, own);
    } else {
      var e := events[0];
      FillsRest(j.adapter, n, bound, events, y);
      hide Fills;
      if e.Submit? {
        var op :| op in e.ops && op >= bound && e.ops == {op};
        assert e == Submit({op});
        if n == j.adapter.permits {
          RefusedNow(j, u, loose, bound, op, own);
        } else {
          Scheduled(j, u, loose, bound, op, own);
          var k := End(j, Schedules(u, op, own), own);
          Realizes(k, u, loose, bound, events[1..], y, own);
          RefusesLater(j, Schedules(u, op, own), own);
        }
      } else {
        TaskGoes(j, u, loose, bound, e, own);
        Realizes(After1(j, OfTask(e), own), u, loose, bound, events[1..], y, own);
        RunFrom([OfTask(e)], j, After1(j, OfTask(e), own), 0, own);
        assert [OfTask(e)][0..] == [OfTask(e)];
        RefusesLater(j, [OfTask(e)], own);
      }
    }
  }

  lemma AtMostFull(j: Joint, u: nat, loose: Op, bound: Op, own: Locks.Id)
    requires Ready(j, u, loose, bound, own)
    ensures j.contexts.ctxs[own].inProgress <= j.adapter.permits == j.contexts.ctxs[own].max
  {
    SlotsAreOutstanding(j, own);
  }

  lemma TaskGoes(j: Joint, u: nat, loose: Op, bound: Op, e: Event, own: Locks.Id)
    requires Ready(j, u, loose, bound, own) && Enabled(j.adapter, e) && Filling(e, bound) && !e.Submit?
    ensures CanStep(j, OfTask(e), own) && !Loosening(OfTask(e))
    ensures var k := After1(j, OfTask(e), own);
      Ready(k, u, loose, bound, own) && k == j.(adapter := Apply(j.adapter, e))
  {
    NobodySubmits(j, loose, own);
    StepCoupled(j, OfTask(e), own);
    hide Coupled, Settled;
  }

  /** Whoever waits waits for `loose`, which was submitted. */
  lemma NobodySubmits(j: Joint, loose: Op, own: Locks.Id)
    requires Settled(j.contexts.threads, loose, own)
    ensures forall op :: op != loose ==> !Submitting(j.contexts.threads, op, own)
    ensures forall op :: op != loose ==> Locks.OpFree(j.contexts.threads, op)
    ensures Locks.CtxFree(j.contexts.threads, own)
  {
    var threads := j.contexts.threads;
    forall u | 0 <= u < |threads|
      ensures !Locks.IsInside(threads[u])
      ensures threads[u].WantOp? || threads[u].WantCtx? ==> threads[u].op == loose
    {
      assert threads[u].Idle? || Waits(threads, u, loose, own);
    }
  }

  lemma RefusedNow(j: Joint, u: nat, loose: Op, bound: Op, op: Op, own: Locks.Id)
    requires Ready(j, u, loose, bound, own) && Enabled(j.adapter, Submit({op})) && op >= bound
    requires j.contexts.ctxs[own].inProgress == j.contexts.ctxs[own].max
    ensures CanRefuse(j, own)
  {
    NobodySubmits(j, loose, own);
    EnterSteps(j, u, op, own);
    hide Coupled, Settled;
    assert Refuses(End(j, Enters(u, op, own), own), u, op, own);
    assert Refusing(j, Enters(u, op, own), u, op, own);
  }

  /** A whole submit: the claim, and the job. */
  function Schedules(t: nat, op: Op, own: Locks.Id): seq<Step> {
    Enters(t, op, own) + ClaimsAndSchedules(t)
  }

  lemma Scheduled(j: Joint, u: nat, loose: Op, bound: Op, op: Op, own: Locks.Id)
    requires Ready(j, u, loose, bound, own) && Enabled(j.adapter, Submit({op})) && op >= bound
    requires j.contexts.ctxs[own].inProgress < j.contexts.ctxs[own].max
    ensures Run(j, Schedules(u, op, own), own) && forall step :: step in Schedules(u, op, own) ==> !Loosening(step)
    ensures var k := End(j, Schedules(u, op, own), own);
      && Ready(k, u, loose, bound, own) && k.adapter == Apply(j.adapter, Submit({op}))
      && k.contexts.ctxs[own].inProgress == j.contexts.ctxs[own].inProgress + 1
  {
    ScheduleSteps(j, u, loose, bound, op, own);
    RunCoupled(j, Schedules(u, op, own), own);
    hide Coupled, Run, End, Schedules, Settled;
  }

  lemma ScheduleSteps(j: Joint, u: nat, loose: Op, bound: Op, op: Op, own: Locks.Id)
    requires Ready(j, u, loose, bound, own) && Enabled(j.adapter, Submit({op})) && op >= bound
    requires j.contexts.ctxs[own].inProgress < j.contexts.ctxs[own].max
    ensures Run(j, Schedules(u, op, own), own) && forall step :: step in Schedules(u, op, own) ==> !Loosening(step)
    ensures var k, s := End(j, Schedules(u, op, own), own), j.contexts;
      k == Joint(Apply(j.adapter, Submit({op})),
                 s.(stages := s.stages[op := Locks.Scheduled(own)], ctxs := Locks.AddSlot(s.ctxs, own, 1),
                    jobs := s.jobs + {op}, schedules := s.schedules + [op]))
  {
    NobodySubmits(j, loose, own);
    EnterSteps(j, u, op, own);
    hide Coupled, Settled;
    var j3 := End(j, Enters(u, op, own), own);
    ClaimSteps(j3, u, op, own);
    assert j3.contexts.threads[u := Locks.Idle] == j.contexts.threads;
    RunConcat(j, Enters(u, op, own), ClaimsAndSchedules(u), own);
  }

  function ClaimsAndSchedules(t: nat): seq<Step> {
    [OfContext(Locks.Leave(t)), OfContext(Locks.Schedule(t, true))]
  }

  lemma ClaimSteps(j: Joint, u: nat, op: Op, own: Locks.Id)
    requires u < |j.contexts.threads| && j.contexts.threads[u] == Locks.Inside(Locks.Claim, op, own)
    requires Locks.Claims(j.contexts, op, own)
    ensures Run(j, ClaimsAndSchedules(u), own)
    ensures var k, s := End(j, ClaimsAndSchedules(u), own), j.contexts;
      k == Joint(Apply(j.adapter, Submit({op})),
                 s.(threads := s.threads[u := Locks.Idle], stages := s.stages[op := Locks.Scheduled(own)],
                    ctxs := Locks.AddSlot(s.ctxs, own, 1), jobs := s.jobs + {op}, schedules := s.schedules + [op]))
  {
    var run := ClaimsAndSchedules(u);
    var j1 := After1(j, run[0], own);
    var j2 := After1(j1, run[1], own);
    assert j2.contexts.stages == j.contexts.stages[op := Locks.Scheduled(own)];
    assert j2.contexts.threads == j.contexts.threads[u := Locks.Idle];
    RunFrom(run, j1, j2, 1, own);
    RunFrom(run, j, j1, 0, own);
    assert run[0..] == run;
  }

  /** A thread takes both locks for a claim. */
  function Enters(t: nat, op: Op, own: Locks.Id): seq<Step> {
    [OfContext(Locks.BeginSubmit(t, op, own)), OfContext(Locks.Lock(t)), OfContext(Locks.Lock(t))]
  }

  lemma EnterSteps(j: Joint, t: nat, op: Op, own: Locks.Id)
    requires t < |j.contexts.threads| && j.contexts.threads[t].Idle? && own in j.contexts.ctxs
    requires Enabled(j.adapter, Submit({op})) && !Submitting(j.contexts.threads, op, own)
    requires Locks.OpFree(j.contexts.threads, op) && Locks.CtxFree(j.contexts.threads, own)
    ensures Run(j, Enters(t, op, own), own)
    ensures End(j, Enters(t, op, own), own)
         == j.(contexts := Locks.AtPc(j.contexts, t, Locks.Inside(Locks.Claim, op, own)))
  {
    var run, s := Enters(t, op, own), j.contexts;
    var j1 := j.(contexts := Locks.AtPc(s, t, Locks.WantOp(Locks.Claim, op, own)));
    var j2 := j.(contexts := Locks.AtPc(s, t, Locks.WantCtx(Locks.Claim, op, own)));
    var j3 := j.(contexts := Locks.AtPc(s, t, Locks.Inside(Locks.Claim, op, own)));
    RunFrom(run, j2, j3, 2, own);
    RunFrom(run, j1, j2, 1, own);
    RunFrom(run, j, j1, 0, own);
    assert run[0..] == run;
  }

  function OneSlot(): map<Locks.Id, Locks.Ctx> {
    map[0 := Locks.Ctx(0, 1, Locks.Open)]
  }

  /** A task gets its permit, and its thread both locks. */
  function Arrives(op: Op): seq<Step> {
    [OfTask(Acquire(op))] + Enters(0, op, 0)
  }

  lemma ArriveSteps(a: State, s: Locks.State, op: Op)
    requires Enabled(a, Acquire(op)) && s.threads == [Locks.Idle] && 0 in s.ctxs
    ensures Run(Joint(a, s), Arrives(op), 0)
    ensures End(Joint(a, s), Arrives(op), 0)
         == Joint(a.(holders := a.holders + {op}), s.(threads := [Locks.Inside(Locks.Claim, op, 0)]))
  {
    var j, k := Joint(a, s), Joint(a.(holders := a.holders + {op}), s);
    var run := [OfTask(Acquire(op))];
    RunFrom(run, j, k, 0, 0);
    assert run[0..] == run;
    EnterSteps(k, 0, op, 0);
    RunConcat(j, run, Enters(0, op, 0), 0);
  }

  /** The claim succeeds, the task is cancelled, the job is scheduled all the same. */
  function GoesAway(op: Op): seq<Step> {
    [OfContext(Locks.Leave(0)), OfTask(CancelTask(op)), OfContext(Locks.Schedule(0, true))]
  }

  lemma GoesAwaySteps(a: State, op: Op)
    requires a == State(1, {op}, {}, {})
    ensures var s := Locks.State([Locks.Inside(Locks.Claim, op, 0)], OneSlot(), map[], {}, [], []);
      && Run(Joint(a, s), GoesAway(op), 0)
      && End(Joint(a, s), GoesAway(op), 0)
           == Joint(State(1, {}, {op}, {}), Locks.State([Locks.Idle], map[0 := Locks.Ctx(1, 1, Locks.Open)],
                                                        map[op := Locks.Scheduled(0)], {op}, [op], []))
  {
    var run := GoesAway(op);
    var full := map[0 := Locks.Ctx(1, 1, Locks.Open)];
    var s := Locks.State([Locks.Inside(Locks.Claim, op, 0)], OneSlot(), map[], {}, [], []);
    var s1 := Locks.State([Locks.Scheduling(op, 0)], full, map[op := Locks.Claimed(0)], {}, [], []);
    var s2 := Locks.State([Locks.Idle], full, map[op := Locks.Scheduled(0)], {op}, [op], []);
    var b1, b2 := State(1, {op}, {op}, {}), State(1, {}, {op}, {});
    assert {op} - {op} == {};
    RunFrom(run, Joint(b2, s1), Joint(b2, s2), 2, 0);
    RunFrom(run, Joint(b1, s1), Joint(b2, s1), 1, 0);
    RunFrom(run, Joint(a, s), Joint(b1, s1), 0, 0);
    assert run[0..] == run;
  }

  /** But when the only permit's task is cancelled while its job goes on, the next task is let in, holds both locks
      and is refused: the Context is open, the Operation fresh, and the limit reached. */
  lemma CancelledTaskOverfills(a: Op, b: Op)
    requires a != b
    ensures var run := Arrives(a) + GoesAway(a) + Arrives(b);
      && Run(Start(1, OneSlot(), 0), run, 0)
      && var j := End(Start(1, OneSlot(), 0), run, 0);
         && Enabled(j.adapter, Submit({b}))
         && var s := j.contexts;
            && s.threads == [Locks.Inside(Locks.Claim, b, 0)] && Locks.StageOf(s.stages, b).Unclaimed?
            && 0 in s.ctxs && s.ctxs[0].mode.Open? && s.ctxs[0].inProgress == s.ctxs[0].max && !Locks.Claims(s, b, 0)
  {
    hide Run, End, Arrives, GoesAway;
    var start := Start(1, OneSlot(), 0);
    assert start == Joint(State(1, {}, {}, {}), Locks.State([Locks.Idle], OneSlot(), map[], {}, [], []));
    ArriveSteps(start.adapter, start.contexts, a);
    assert start.adapter.holders + {a} == {a};
    GoesAwaySteps(State(1, {a}, {}, {}), a);
    RunConcat(start, Arrives(a), GoesAway(a), 0);
    var j := End(start, Arrives(a) + GoesAway(a), 0);
    ArriveSteps(j.adapter, j.contexts, b);
    RunConcat(start, Arrives(a) + GoesAway(a), Arrives(b), 0);
  }

  lemma {:induction false} RunConcat(j: Joint, xs: seq<Step>, ys: seq<Step>, own: Locks.Id)
    requires Run(j, xs, own) && Run(End(j, xs, own), ys, own)
    ensures Run(j, xs + ys, own) && End(j, xs + ys, own) == End(End(j, xs, own), ys, own)
    decreases |xs|
  {
    hide CanStep, After1;
    if xs == [] {
      assert xs + ys == ys;
    } else {
      assert (xs + ys)[1..] == xs[1..] + ys && (xs + ys)[0] == xs[0];
      RunConcat(After1(j, xs[0], own), xs[1..], ys, own);
    }
  }

  lemma RunFrom(run: seq<Step>, j: Joint, k: Joint, i: nat, own: Locks.Id)
    requires i < |run| && CanStep(j, run[i], own) && k == After1(j, run[i], own) && Run(k, run[i + 1..], own)
    ensures Run(j, run[i..], own) && End(j, run[i..], own) == End(k, run[i + 1..], own)
  {
  }
}
