/** The asyncio adapter and its thread-pool Context, step by step together.

    A step is one of the tasks around the semaphore, or one of the Context, its
    pool or its workers; the adapter hears of submissions and callbacks, and only
    tasks that hold a permit submit. */
module PoolPressure {
  import opened Backpressure
  import opened Bags
  import Closing = CloseProtocol
  import opened Lanes
  import Pools = PoolProtocol
  import opened Wrappers

  datatype Joint = Joint(adapter: State, context: Closing.State<Op>)

  datatype Step = OfTask(t: Event) | OfContext(e: Closing.Event<Op>)

  /** The pool takes the Operation. */
  predicate Accepts(s: Closing.State<Op>, op: Op) {
    op !in s.claimed && |s.pool.queue| != s.pool.size && s.pool.phase.Running?
  }

  ghost function EchoOf(s: Closing.State<Op>, e: Closing.Event<Op>): Echo
    requires Closing.Enabled(s, e)
  {
    match e
    case SubmitOne(_, op, _) => if Accepts(s, op) then Heard(Submit({op})) else Silent
    case Finish(i) => Heard(Callback(s.pool.workers[i].task))
    case _ => Silent
  }

  ghost predicate CanStep(j: Joint, step: Step) {
    match step
    case OfTask(t) => OfTasks(t) && Enabled(j.adapter, t)
    case OfContext(e) => Closing.Enabled(j.context, e) && (e.SubmitOne? ==> Enabled(j.adapter, Submit({e.op})))
  }

  ghost function After1(j: Joint, step: Step): Joint
    requires CanStep(j, step)
  {
    match step
    case OfTask(t) => j.(adapter := Apply(j.adapter, t))
    case OfContext(e) => Joint(Hear(j.adapter, EchoOf(j.context, e)), Closing.Apply(j.context, e))
  }

  /** The pool's queue has as many places as the semaphore has permits. */
  function Start(gil: bool, permits: nat, workers: nat, claimed: set<Op>): Joint {
    Joint(Backpressure.Init(permits), Closing.Init(gil, permits, workers, claimed))
  }

  ghost predicate Run(j: Joint, steps: seq<Step>)
    decreases |steps|
  {
    steps == [] || (CanStep(j, steps[0]) && Run(After1(j, steps[0]), steps[1..]))
  }

  ghost function End(j: Joint, steps: seq<Step>): Joint
    requires Run(j, steps)
    decreases |steps|
  {
    if steps == [] then j else End(After1(j, steps[0]), steps[1..])
  }

  predicate Loosening(step: Step) {
    step.OfTask? && Loosens(step.t)
  }

  /** The adapter knows exactly what the Context accepted, and what it called back. */
  ghost predicate Coupled(j: Joint) {
    && Sound(j.adapter) && Closing.Inv(j.context) && j.context.pool.size == j.adapter.permits
    && (forall op :: op in j.adapter.submitted <==> op in j.context.pool.accepted)
    && (forall op :: op in j.adapter.called <==> op in j.context.called)
  }

  lemma EchoFits(j: Joint, e: Closing.Event<Op>)
    requires Coupled(j) && CanStep(j, OfContext(e)) && EchoOf(j.context, e).Heard?
    ensures Enabled(j.adapter, EchoOf(j.context, e).e) && !Loosens(EchoOf(j.context, e).e)
  {
    if e.Finish? {
      Closing.BusyIsUnfinished(j.context, e.i);
      CalledAreFinished(j.context);
    }
    hide Closing.Inv;
  }

  lemma CalledAreFinished(s: Closing.State<Op>)
    requires Closing.Inv(s)
    ensures s.called == s.pool.finished
  {
    hide Closing.Orderly, Pools.Inv;
  }

  /** Only what the adapter hears changes what is accepted and called. */
  lemma EchoTells(s: Closing.State<Op>, e: Closing.Event<Op>)
    requires Closing.Enabled(s, e)
    ensures var t := Closing.Apply(s, e);
      && t.pool.size == s.pool.size
      && match EchoOf(s, e)
         case Heard(Submit(ops)) => (forall op :: op in t.pool.accepted <==> op in s.pool.accepted || op in ops)
           && t.called == s.called
         case Heard(Callback(op)) => t.pool.accepted == s.pool.accepted && t.called == s.called + [op]
         case Silent => t.pool.accepted == s.pool.accepted && t.called == s.called
         case _ => false
  {
    hide Pools.AnyBlocked, Pools.Sleeps, Pools.CanLock;
    if e.SubmitOne? && Accepts(s, e.op) {
      hide Pools.Signalled;
      assert Closing.Apply(s, e).pool.accepted == s.pool.accepted + [e.op];
    }
  }

  lemma StepCoupled(j: Joint, step: Step)
    requires Coupled(j) && CanStep(j, step)
    ensures Coupled(After1(j, step)) && After1(j, step).adapter.permits == j.adapter.permits
    ensures NoneLoose(j.adapter) && !Loosening(step) ==> NoneLoose(After1(j, step).adapter)
  {
    hide Closing.Inv, Closing.Enabled, Closing.Apply, EchoOf;
    match step
    case OfTask(t) =>
      StepSound(j.adapter, t);
      if NoneLoose(j.adapter) && !Loosens(t) {
        StepHeld(j.adapter, t);
      }
    case OfContext(e) =>
      Closing.StepKeeps(j.context, e);
      EchoTells(j.context, e);
      if EchoOf(j.context, e).Heard? {
        EchoFits(j, e);
        StepSound(j.adapter, EchoOf(j.context, e).e);
        if NoneLoose(j.adapter) {
          StepHeld(j.adapter, EchoOf(j.context, e).e);
        }
      }
  }

  lemma {:induction false} RunCoupled(j: Joint, steps: seq<Step>)
    requires Coupled(j) && Run(j, steps)
    ensures Coupled(End(j, steps)) && End(j, steps).adapter.permits == j.adapter.permits
    ensures NoneLoose(j.adapter) && (forall step :: step in steps ==> !Loosening(step)) ==>
      NoneLoose(End(j, steps).adapter)
    decreases |steps|
  {
    hide Coupled, NoneLoose, CanStep, After1;
    if steps != [] {
      StepCoupled(j, steps[0]);
      RunCoupled(After1(j, steps[0]), steps[1..]);
      assert steps[0] in steps;
    }
  }

  lemma StartCoupled(gil: bool, permits: nat, workers: nat, claimed: set<Op>)
    requires workers > 0
    ensures Coupled(Start(gil, permits, workers, claimed)) && NoneLoose(Start(gil, permits, workers, claimed).adapter)
  {
    Closing.InitInv(gil, permits, workers, claimed);
    InitSound(permits);
  }

  /** In every run, whenever a task that holds a permit submits and each queued Operation has its holder - whatever is
      loose with the workers - the queue is not full. */
  lemma NeverFull(gil: bool, permits: nat, workers: nat, claimed: set<Op>, steps: seq<Step>, op: Op)
    requires workers > 0 && Run(Start(gil, permits, workers, claimed), steps)
    requires var j := End(Start(gil, permits, workers, claimed), steps);
      Enabled(j.adapter, Submit({op})) && forall x :: x in j.context.pool.queue ==> x in j.adapter.holders
    ensures var s := End(Start(gil, permits, workers, claimed), steps).context; |s.pool.queue| < s.pool.size == permits
  {
    var start := Start(gil, permits, workers, claimed);
    StartCoupled(gil, permits, workers, claimed);
    RunCoupled(start, steps);
    var j := End(start, steps);
    QueuedIsOutstanding(j);
    NoDupFits(j.context.pool.queue, j.adapter.holders - {op});
  }

  /** An Operation leaves the queue when a worker takes it, long before its callback. */
  lemma QueuedIsOutstanding(j: Joint)
    requires Coupled(j)
    ensures NoDup(j.context.pool.queue) && forall x :: x in j.context.pool.queue ==> Outstanding(j.adapter, x)
  {
    hide Pools.Tally, Pools.Tasks, Closing.Orderly;
    var p := j.context.pool;
    NoDupSplit(p.dispatched, p.queue);
    forall x | x in p.queue
      ensures Outstanding(j.adapter, x)
    {
      assert x in p.dispatched + p.queue;
      assert x !in p.finished;
    }
  }

  /** No Operation is loose in a run in which no task leaves early. */
  lemma NoneLooseUnlessLoosened(gil: bool, permits: nat, workers: nat, claimed: set<Op>, steps: seq<Step>)
    requires workers > 0 && Run(Start(gil, permits, workers, claimed), steps)
    requires forall step :: step in steps ==> !Loosening(step)
    ensures NoneLoose(End(Start(gil, permits, workers, claimed), steps).adapter)
  {
    StartCoupled(gil, permits, workers, claimed);
    RunCoupled(Start(gil, permits, workers, claimed), steps);
  }

  // ------------------------------------------------- exactly when a submit can be refused

  /** The queue, from its front. */
  function Line(queue: seq<Op>): Lane {
    seq(|queue|, i requires 0 <= i < |queue| => Some(queue[i]))
  }

  /** A holder's fresh Operation is next in a submit that is under way, and the pool is full. */
  ghost predicate Refuses(j: Joint, a: Closing.Actor, op: Op) {
    && Enabled(j.adapter, Submit({op})) && op !in j.context.claimed
    && Closing.Doing(j.context.doing, a).Submitting? && |j.context.pool.queue| == j.context.pool.size
  }

  ghost predicate Refusing(j: Joint, steps: seq<Step>, a: Closing.Actor, op: Op) {
    Run(j, steps) && (forall step :: step in steps ==> !Loosening(step)) && Refuses(End(j, steps), a, op)
  }

  /** Some run in which no further task leaves early comes to that. */
  ghost predicate CanRefuse(j: Joint) {
    exists steps: seq<Step>, a: Closing.Actor, op: Op :: Refusing(j, steps, a, op)
  }

  /** The Context is not being closed, and an Operation whose task is gone is queued. */
  ghost predicate LooseQueued(j: Joint) {
    j.context.pointer && exists op :: op in j.context.pool.queue && op !in j.adapter.holders
  }

  /** From every state of every run: a submit can be refused for want of room if and only if a loose Operation is
      queued. */
  lemma RefusalExact(j: Joint)
    requires Coupled(j)
    ensures CanRefuse(j) <==> LooseQueued(j)
  {
    if CanRefuse(j) {
      var steps: seq<Step>, a: Closing.Actor, op: Op :| Refusing(j, steps, a, op);
      ClearRun(j, steps, a, op);
      LooseIsQueued(j);
    }
    if LooseQueued(j) {
      var queue := j.context.pool.queue;
      var op :| op in queue && op !in j.adapter.holders;
      var i :| 0 <= i < |queue| && queue[i] == op;
      QueueFits(j.context);
      StrayBlocks(j.adapter, Line(queue), i);
      Fill(j, i);
    }
  }

  /** In particular in every run, before the Context is closed. */
  lemma LooseGetsRefused(gil: bool, permits: nat, workers: nat, claimed: set<Op>, steps: seq<Step>, loose: Op)
    requires workers > 0 && Run(Start(gil, permits, workers, claimed), steps)
    requires var j := End(Start(gil, permits, workers, claimed), steps);
      j.context.pointer && loose in j.context.pool.queue && Loose(j.adapter, loose)
    ensures CanRefuse(End(Start(gil, permits, workers, claimed), steps))
  {
    StartCoupled(gil, permits, workers, claimed);
    RunCoupled(Start(gil, permits, workers, claimed), steps);
    RefusalExact(End(Start(gil, permits, workers, claimed), steps));
  }

  /** A loose Operation is queued and the permits are not all held for Operations queued behind it. */
  ghost predicate LooseStays(j: Joint) {
    j.context.pointer && Jammed(j.adapter, Line(j.context.pool.queue))
  }

  // ... only if

  lemma LineFits(j: Joint)
    requires Coupled(j)
    ensures LaneFits(j.adapter, Line(j.context.pool.queue))
  {
    QueuedIsOutstanding(j);
    hide Coupled;
  }

  lemma {:induction false} ClearRun(j: Joint, steps: seq<Step>, a: Closing.Actor, op: Op)
    requires Coupled(j) && Refusing(j, steps, a, op)
    ensures LooseStays(j)
    decreases |steps|
  {
    hide Coupled, LooseStays, CanStep, After1, Refuses;
    if !LooseStays(j) {
      if steps == [] {
        ClearMeansRoom(j, a, op);
      } else {
        assert steps[0] in steps;
        StepCoupled(j, steps[0]);
        ClearStays(j, steps[0]);
        ClearRun(After1(j, steps[0]), steps[1..], a, op);
      }
    }
  }

  lemma LooseIsQueued(j: Joint)
    ensures LooseStays(j) ==> LooseQueued(j)
  {
    if LooseStays(j) {
      var i: nat :| Blocks(j.adapter, Line(j.context.pool.queue), i);
      assert j.context.pool.queue[i] in j.context.pool.queue;
    }
  }

  lemma ClearMeansRoom(j: Joint, a: Closing.Actor, op: Op)
    requires Coupled(j) && !LooseStays(j)
    ensures !Refuses(j, a, op)
  {
    if Refuses(j, a, op) {
      LineFits(j);
      Closing.SubmitterHolds(j.context, a);
      NotJammedMeansRoom(j.adapter, Line(j.context.pool.queue), {op});
    }
  }

  lemma ClearStays(j: Joint, step: Step)
    requires Coupled(j) && !LooseStays(j) && CanStep(j, step) && !Loosening(step)
    ensures !LooseStays(After1(j, step))
  {
    LineFits(j);
    hide Jammed, LaneFits, Coupled;
    match step
    case OfTask(t) => TaskKeepsLane(j.adapter, t, Line(j.context.pool.queue));
    case OfContext(e) => ClearGoesOn(j, e);
  }

  /** How a step of the Context changes the queue. */
  lemma QueueMoves(j: Joint, e: Closing.Event<Op>)
    requires CanStep(j, OfContext(e))
    ensures var k, line := After1(j, OfContext(e)), Line(j.context.pool.queue);
      && k.adapter.holders == j.adapter.holders && k.adapter.permits == j.adapter.permits
      && (k.context.pointer ==> j.context.pointer)
      && var after := Line(k.context.pool.queue);
         after == line || (line != [] && after == line[1..]) || (e.SubmitOne? && after == line + [Some(e.op)])
  {
    hide Pools.AnyBlocked, Pools.Sleeps, Pools.CanLock;
  }

  lemma ClearGoesOn(j: Joint, e: Closing.Event<Op>)
    requires !LooseStays(j) && CanStep(j, OfContext(e))
    ensures !LooseStays(After1(j, OfContext(e)))
  {
    var k, line := After1(j, OfContext(e)), Line(j.context.pool.queue);
    QueueMoves(j, e);
    SameLane(j.adapter, k.adapter, line);
    if line != [] {
      Popped(k.adapter, line, 1);
    }
    if e.SubmitOne? {
      Joined(k.adapter, line, [Some(e.op)]);
    }
    hide Jammed, After1, Line;
  }

  // ... if

  lemma RefusesLater(j: Joint, step: Step)
    requires CanStep(j, step) && !Loosening(step) && CanRefuse(After1(j, step))
    ensures CanRefuse(j)
  {
    hide Refuses, CanStep, After1;
    var steps: seq<Step>, a: Closing.Actor, op: Op :| Refusing(After1(j, step), steps, a, op);
    assert ([step] + steps)[1..] == steps;
    assert Refusing(j, [step] + steps, a, op);
  }

  /** Nobody holds the lock and no worker is busy. */
  ghost predicate Rests(s: Closing.State<Op>) {
    s.lock.Free? && forall w: nat :: !Closing.Works(s, w)
  }

  ghost function Unfinished(s: Closing.State<Op>): set<Op> {
    ToSet(s.pool.accepted) - ToSet(s.pool.finished)
  }

  /** What is to be run and published. */
  ghost function Pending(s: Closing.State<Op>): nat {
    |Unfinished(s)| + |Closing.Unpublished(s)|
  }

  /** How far the lock is from the workers. */
  function Distance(s: Closing.State<Op>): nat {
    match s.lock
    case Free => 1
    case HeldBy(a) => if Closing.Doing(s.doing, a).Submitting? then 3 else if a.WorkerOf? then 0 else 2
  }

  /** How far the first worker is from the queue, and the lock from the workers. */
  function Aside(s: Closing.State<Op>): nat {
    Distance(s) + if Pools.Sleeps(s.pool.workers, 0) then 4 else 0
  }

  /** Whoever submits ends it, busy workers finish, and what is queued in front of the loose Operation is taken up. */
  lemma {:induction false} Fill(j: Joint, i: nat)
    requires Coupled(j) && j.context.pointer
    requires Blocks(j.adapter, Line(j.context.pool.queue), i)
    ensures CanRefuse(j)
    decreases i, Pending(j.context), Aside(j.context)
  {
    hide CanRefuse;
    if i == 0 && Rests(j.context) {
      FillRested(j);
    } else {
      var e := Next(j.context);
      hide Coupled, Rests, Pending, Aside;
      Goes(j, e, i);
      Fill(After1(j, OfContext(e)), if e.WorkerLock? then i - 1 else i);
      RefusesLater(j, OfContext(e));
    }
  }

  ghost predicate Settles(s: Closing.State<Op>, e: Closing.Event<Op>) {
    && Closing.Enabled(s, e)
    && match e
       case EndSubmit(_) => true
       case Release(a) => a.Python?
       case Acquire(a) => a.WorkerOf?
       case Publish(w) => s.pool.workers[w].task !in s.done
       case Finish(_) => true
       case WorkerLock(_) => s.lock.Free? && s.pool.queue != [] && s.pool.phase.Running?
       case WorkerSpurious(w) => s.lock.Free? && w == 0
       case _ => false
  }

  lemma Next(s: Closing.State<Op>) returns (e: Closing.Event<Op>)
    requires Closing.Inv(s) && s.pointer && (Rests(s) ==> s.pool.queue != [])
    ensures Settles(s, e) && (e.WorkerLock? ==> Rests(s))
  {
    hide Pools.Tally, Pools.Tasks;
    if s.lock.HeldBy? {
      e := NextOfHolder(s, s.lock.actor);
    } else if w: nat :| Closing.Works(s, w) {
      Submitter(s, Closing.WorkerOf(w));
      e := Closing.Acquire(Closing.WorkerOf(w));
    } else if Pools.CanLock(s.pool.workers, 0) {
      e := Closing.WorkerLock(0);
    } else {
      assert !Closing.Works(s, 0);
      e := Closing.WorkerSpurious(0);
    }
  }

  /** While the Context is not being closed, whoever does anything is submitting, and holds the lock. */
  lemma Submitter(s: Closing.State<Op>, a: Closing.Actor)
    requires Closing.Inv(s) && s.pointer
    ensures Closing.Doing(s.doing, a).Idle? || (Closing.Doing(s.doing, a).Submitting? && s.lock == Closing.HeldBy(a))
  {
    hide Closing.Accounted;
    assert Closing.Fits(a, Closing.Doing(s.doing, a), s.lock, s.pointer, s.pool.phase);
  }

  lemma NextOfHolder(s: Closing.State<Op>, a: Closing.Actor) returns (e: Closing.Event<Op>)
    requires Closing.Inv(s) && s.pointer && s.lock == Closing.HeldBy(a)
    ensures Settles(s, e) && !e.WorkerLock?
  {
    Submitter(s, a);
    hide Closing.Accounted, Closing.Placed;
    if Closing.Doing(s.doing, a).Submitting? {
      e := Closing.EndSubmit(a);
    } else if a.Python? {
      e := Closing.Release(a);
    } else if s.pool.workers[a.i].task in s.done {
      e := Closing.Finish(a.i);
    } else {
      e := Closing.Publish(a.i);
    }
  }

  lemma Goes(j: Joint, e: Closing.Event<Op>, i: nat)
    requires Coupled(j) && j.context.pointer && Settles(j.context, e) && (e.WorkerLock? ==> i > 0)
    requires Blocks(j.adapter, Line(j.context.pool.queue), i)
    ensures var k := After1(j, OfContext(e));
      && CanStep(j, OfContext(e)) && Coupled(k) && k.context.pointer && k.adapter.permits == j.adapter.permits
      && Blocks(k.adapter, Line(k.context.pool.queue), if e.WorkerLock? then i - 1 else i)
      && (e.WorkerLock? || Pending(k.context) < Pending(j.context)
          || (Pending(k.context) == Pending(j.context) && Aside(k.context) < Aside(j.context)))
  {
    StepCoupled(j, OfContext(e));
    LineGoes(j, e, i);
    if !e.WorkerLock? {
      GoesNearer(j.context, e);
    }
    hide Coupled, Settles, Pending, Aside, After1, Blocks;
  }

  lemma LineGoes(j: Joint, e: Closing.Event<Op>, i: nat)
    requires j.context.pointer && Settles(j.context, e) && (e.WorkerLock? ==> i > 0)
    requires Blocks(j.adapter, Line(j.context.pool.queue), i)
    ensures CanStep(j, OfContext(e))
    ensures var k := After1(j, OfContext(e));
      k.context.pointer && Blocks(k.adapter, Line(k.context.pool.queue), if e.WorkerLock? then i - 1 else i)
  {
    hide Pools.AnyBlocked, Pools.Sleeps, Pools.CanLock;
    if e.WorkerLock? {
      var line, k := Line(j.context.pool.queue), After1(j, OfContext(e));
      assert Line(k.context.pool.queue) == line[1..];
      hide Line, Settles, After1;
      assert line[1..][i - 1 + 1..] == line[i + 1..];
    } else {
      hide Blocks;
      var k := After1(j, OfContext(e));
      assert k.context.pool.queue == j.context.pool.queue && k.adapter.holders == j.adapter.holders
        && k.adapter.permits == j.adapter.permits;
      SameBlocks(j.adapter, k.adapter, Line(j.context.pool.queue), i);
    }
  }

  lemma SameBlocks(s: State, t: State, lane: Lane, i: nat)
    requires Blocks(s, lane, i) && t.holders == s.holders && t.permits == s.permits
    ensures Blocks(t, lane, i)
  {
  }

  lemma GoesNearer(s: Closing.State<Op>, e: Closing.Event<Op>)
    requires Closing.Inv(s) && s.pointer && Settles(s, e) && !e.WorkerLock?
    ensures var t := Closing.Apply(s, e);
      Pending(t) < Pending(s) || (Pending(t) == Pending(s) && Aside(t) < Aside(s))
  {
    hide Closing.Inv, Pending, Aside;
    match e
    case Publish(w) => PublishDecreases(s, w);
    case Finish(w) => FinishDecreases(s, w);
    case _ => HandsOver(s, e);
  }

  lemma PublishDecreases(s: Closing.State<Op>, w: nat)
    requires Closing.Inv(s) && Settles(s, Closing.Publish(w))
    ensures Pending(Closing.Apply(s, Closing.Publish(w))) < Pending(s)
  {
    Closing.PublishDecreases(s, w);
    hide Closing.Inv;
    assert Unfinished(Closing.Apply(s, Closing.Publish(w))) == Unfinished(s);
  }

  lemma HandsOver(s: Closing.State<Op>, e: Closing.Event<Op>)
    requires Closing.Inv(s) && s.pointer && Settles(s, e) && !e.WorkerLock? && !e.Publish? && !e.Finish?
    ensures Pending(Closing.Apply(s, e)) == Pending(s) && Aside(Closing.Apply(s, e)) < Aside(s)
  {
    if e.EndSubmit? {
      Submitter(s, e.a);
    }
    hide Closing.Inv;
  }

  lemma FinishDecreases(s: Closing.State<Op>, w: nat)
    requires Closing.Inv(s) && Settles(s, Closing.Finish(w))
    ensures Pending(Closing.Apply(s, Closing.Finish(w))) < Pending(s)
  {
    Closing.BusyIsUnfinished(s, w);
    hide Closing.Inv, Closing.Doing, ToSet;
    FewerLeft(s.pool.accepted, s.pool.finished, s.pool.workers[w].task);
  }

  lemma FewerLeft(accepted: seq<Op>, finished: seq<Op>, x: Op)
    requires x in accepted && x !in finished
    ensures |ToSet(accepted) - ToSet(finished + [x])| < |ToSet(accepted) - ToSet(finished)|
  {
    assert ToSet(accepted) - ToSet(finished + [x]) == ToSet(accepted) - ToSet(finished) - {x};
    assert x in ToSet(accepted) - ToSet(finished);
  }

  // ... and then, with the lock free and the workers at rest, newcomers fill it up

  lemma FillRested(j: Joint)
    requires Coupled(j) && j.context.pointer && Rests(j.context)
    requires Blocks(j.adapter, Line(j.context.pool.queue), 0)
    ensures CanRefuse(j)
  {
    hide CanRefuse;
    CoveredAreBehind(j);
    var bound := Above(j.context.claimed);
    var events, y := FillLane(j.adapter, |j.context.pool.queue|, bound);
    hide Coupled, Fills;
    Realizes(j, bound, events, y);
  }

  lemma CoveredAreBehind(j: Joint)
    requires Coupled(j) && Rests(j.context) && Blocks(j.adapter, Line(j.context.pool.queue), 0)
    ensures |Covered(j.adapter)| < |j.context.pool.queue| && |Covered(j.adapter)| < j.adapter.permits
  {
    var queue := j.context.pool.queue;
    var line := Line(queue);
    var behind := j.adapter.holders * OpsOf(line[1..]);
    QueuedIsOutstanding(j);
    forall op | op in Covered(j.adapter)
      ensures op in behind && op in queue[1..]
    {
      OutstandingIsQueued(j, op);
      var i :| 0 <= i < |queue| && queue[i] == op;
      assert line[i] == Some(op);
      assert line[1..][i - 1] == Some(op) && queue[1..][i - 1] == op;
    }
    Smaller(Covered(j.adapter), behind);
    Smaller(Covered(j.adapter), ToSet(queue[1..]));
    SetAtMost(queue[1..]);
  }

  lemma OutstandingIsQueued(j: Joint, op: Op)
    requires Coupled(j) && Rests(j.context) && Outstanding(j.adapter, op)
    ensures op in j.context.pool.queue
  {
    var p := j.context.pool;
    NoTasks(j.context);
    CalledAreFinished(j.context);
    hide Pools.Tally, Pools.Tasks, Closing.Orderly;
    assert op in p.dispatched + p.queue;
    SubbagMembers(p.dispatched, p.finished);
  }

  lemma NoTasks(s: Closing.State<Op>)
    requires Rests(s)
    ensures Pools.Tasks(s.pool.workers) == multiset{}
  {
    var ws := s.pool.workers;
    assert forall w: nat :: w < |ws| && ws[w].Busy? ==> Closing.Works(s, w);
    if x :| x in Pools.Tasks(ws) {
      Closing.BusyWith(ws, x);
    }
  }

  lemma OneSize(j: Joint, bound: Op)
    requires Open(j, bound)
    ensures j.context.pool.size == j.adapter.permits
  {
  }

  ghost predicate Open(j: Joint, bound: Op) {
    Coupled(j) && j.context.pointer && j.context.lock.Free? && NoneFrom(j.context.claimed, j.adapter.submitted, bound)
  }

  lemma {:induction false} Realizes(j: Joint, bound: Op, events: seq<Event>, y: Op)
    requires Open(j, bound) && Fills(j.adapter, |j.context.pool.queue|, bound, events, y)
    ensures CanRefuse(j)
    decreases |events|
  {
    hide CanRefuse, CanStep, After1, Open, Apply, NoneFrom;
    OneSize(j, bound);
    if events == [] {
      RefusedNow(j, bound, y);
    } else {
      var e := events[0];
      FillsRest(j.adapter, |j.context.pool.queue|, bound, events, y);
      hide Fills;
      if e.Submit? {
        var op :| op in e.ops && op >= bound && e.ops == {op};
        assert e == Submit({op});
        if |j.context.pool.queue| >= j.context.pool.size {
          RefusedNow(j, bound, op);
        } else {
          var k := Submitted(j, bound, op);
          Realizes(k, bound, events[1..], y);
        }
      } else {
        TaskGoes(j, bound, e);
        Realizes(After1(j, OfTask(e)), bound, events[1..], y);
        RefusesLater(j, OfTask(e));
      }
    }
  }

  lemma TaskGoes(j: Joint, bound: Op, e: Event)
    requires Open(j, bound) && Enabled(j.adapter, e) && Filling(e, bound) && !e.Submit?
    ensures CanStep(j, OfTask(e)) && !Loosening(OfTask(e))
    ensures var k := After1(j, OfTask(e)); Open(k, bound) && k.context == j.context && k.adapter == Apply(j.adapter, e)
  {
    StepCoupled(j, OfTask(e));
    hide Coupled;
  }

  const MAIN := Closing.Python(0)

  ghost predicate SameBut(s: Closing.State<Op>, t: Closing.State<Op>) {
    t.pointer == s.pointer && t.claimed == s.claimed && t.pool == s.pool
  }

  /** A thread takes the lock and enters submit. */
  lemma Enters(j: Joint, bound: Op) returns (k: Joint)
    requires Open(j, bound)
    ensures CanRefuse(k) ==> CanRefuse(j)
    ensures Coupled(k) && k.adapter == j.adapter && SameBut(j.context, k.context)
    ensures Closing.Doing(k.context.doing, MAIN).Submitting?
  {
    hide CanRefuse;
    Submitter(j.context, MAIN);
    var first, second := OfContext(Closing.Acquire(MAIN)), OfContext(Closing.BeginSubmit(MAIN));
    StepCoupled(j, first);
    var i := After1(j, first);
    StepCoupled(i, second);
    k := After1(i, second);
    hide Coupled;
    if CanRefuse(k) {
      RefusesLater(i, second);
      RefusesLater(j, first);
    }
  }

  lemma RefusedNow(j: Joint, bound: Op, op: Op)
    requires Open(j, bound) && Enabled(j.adapter, Submit({op})) && op >= bound
    requires |j.context.pool.queue| >= j.context.pool.size
    ensures CanRefuse(j)
  {
    var k := Enters(j, bound);
    QueueFits(k.context);
    assert Refusing(k, [], MAIN, op);
  }

  lemma QueueFits(s: Closing.State<Op>)
    requires Closing.Inv(s)
    ensures |s.pool.queue| <= s.pool.size
  {
  }

  lemma Submitted(j: Joint, bound: Op, op: Op) returns (k: Joint)
    requires Open(j, bound) && Enabled(j.adapter, Submit({op})) && op >= bound
    requires |j.context.pool.queue| < j.context.pool.size
    ensures CanRefuse(k) ==> CanRefuse(j)
    ensures Open(k, bound) && k.adapter == Apply(j.adapter, Submit({op}))
    ensures |k.context.pool.queue| == |j.context.pool.queue| + 1
  {
    hide CanRefuse;
    var i := Enters(j, bound);
    Closing.SubmitterHolds(i.context, MAIN);
    var woken := Sleeper(i.context.pool.workers);
    var add := OfContext(Closing.SubmitOne(MAIN, op, woken));
    StepCoupled(i, add);
    var h := After1(i, add);
    k := Departs(h);
    hide Coupled, Pools.AnyBlocked, Pools.Sleeps;
    if CanRefuse(k) {
      RefusesLater(i, add);
    }
  }

  /** The thread leaves submit and gives up the lock. */
  lemma Departs(j: Joint) returns (k: Joint)
    requires Coupled(j) && Closing.Doing(j.context.doing, MAIN).Submitting?
    ensures CanRefuse(k) ==> CanRefuse(j)
    ensures Coupled(k) && k.adapter == j.adapter && SameBut(j.context, k.context) && k.context.lock.Free?
  {
    hide CanRefuse;
    Closing.SubmitterHolds(j.context, MAIN);
    var first, second := OfContext(Closing.EndSubmit(MAIN)), OfContext(Closing.Release(MAIN));
    StepCoupled(j, first);
    var i := After1(j, first);
    StepCoupled(i, second);
    k := After1(i, second);
    hide Coupled;
    if CanRefuse(k) {
      RefusesLater(i, second);
      RefusesLater(j, first);
    }
  }

  lemma Sleeper(ws: seq<Pools.Worker<Op>>) returns (w: nat)
    ensures Pools.AnyBlocked(ws) ==> Pools.Sleeps(ws, w)
  {
    w := 0;
    if Pools.AnyBlocked(ws) {
      w :| 0 <= w < |ws| && ws[w].Blocked?;
    }
  }

  /** A task gets its permit, and its thread the interpreter lock; the pool takes the Operation. */
  function Submits(op: Op): seq<Step> {
    [OfTask(Acquire(op)), OfContext(Closing.Acquire(Closing.Python(0))),
     OfContext(Closing.BeginSubmit(Closing.Python(0))),
     OfContext(Closing.SubmitOne(Closing.Python(0), op, 0))]
  }

  ghost predicate Queued(j: Joint, op: Op) {
    && j.adapter == State(1, {op}, {op}, {}) && j.context.claimed == {op}
    && j.context.pool.queue == [op] && j.context.pool.size == 1 && !Pools.AnyBlocked(j.context.pool.workers)
    && Closing.Doing(j.context.doing, Closing.Python(0)).Submitting?
  }

  lemma SubmitSteps(op: Op)
    ensures Run(Start(true, 1, 1, {}), Submits(op)) && Queued(End(Start(true, 1, 1, {}), Submits(op)), op)
  {
    var run := Submits(op);
    var j0 := Start(true, 1, 1, {});
    var j1 := After1(j0, run[0]);
    var j2 := After1(j1, run[1]);
    var j3 := After1(j2, run[2]);
    var j4 := After1(j3, run[3]);
    assert Queued(j4, op);
    hide CanStep, After1, Queued;
    RunFrom(run, j3, j4, 3);
    RunFrom(run, j2, j3, 2);
    RunFrom(run, j1, j2, 1);
    RunFrom(run, j0, j1, 0);
    assert run[0..] == run;
  }

  /** But when the only permit's task is cancelled before a worker takes its Operation, the next task is let in and
      finds the queue full. */
  lemma CancelledTaskOverfills(a: Op, b: Op)
    requires a != b
    ensures var run := Submits(a) + [OfTask(CancelTask(a)), OfTask(Acquire(b))];
      && Run(Start(true, 1, 1, {}), run)
      && var j := End(Start(true, 1, 1, {}), run);
         && Enabled(j.adapter, Submit({b})) && Closing.Enabled(j.context, Closing.SubmitOne(Closing.Python(0), b, 0))
         && |j.context.pool.queue| == j.context.pool.size == j.adapter.permits && !Accepts(j.context, b)
  {
    SubmitSteps(a);
    hide Submits;
    var run := [OfTask(CancelTask(a)), OfTask(Acquire(b))];
    var j := End(Start(true, 1, 1, {}), Submits(a));
    var k1 := After1(j, run[0]);
    var k2 := After1(k1, run[1]);
    assert {a} - {a} == {};
    RunFrom(run, k1, k2, 1);
    RunFrom(run, j, k1, 0);
    assert run[0..] == run;
    RunConcat(Start(true, 1, 1, {}), Submits(a), run);
  }

  lemma {:induction false} RunConcat(j: Joint, xs: seq<Step>, ys: seq<Step>)
    requires Run(j, xs) && Run(End(j, xs), ys)
    ensures Run(j, xs + ys) && End(j, xs + ys) == End(End(j, xs), ys)
    decreases |xs|
  {
    hide CanStep, After1;
    if xs == [] {
      assert xs + ys == ys;
    } else {
      assert (xs + ys)[1..] == xs[1..] + ys && (xs + ys)[0] == xs[0];
      RunConcat(After1(j, xs[0]), xs[1..], ys);
    }
  }

  lemma RunFrom(run: seq<Step>, j: Joint, k: Joint, i: nat)
    requires i < |run| && CanStep(j, run[i]) && k == After1(j, run[i]) && Run(k, run[i + 1..])
    ensures Run(j, run[i..]) && End(j, run[i..]) == End(k, run[i + 1..])
  {
  }
}
