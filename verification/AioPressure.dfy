/** The asyncio adapter and its Linux AIO Context, step by step together.

    A step is one of the tasks around the semaphore, or one of the Context or its
    kernel; the adapter hears of submissions and callbacks, and a batch is only
    asked for by tasks that hold a permit. */
module AioPressure {
  import Aio = AioProtocol
  import opened Backpressure
  import opened Bags
  import Frames
  import opened Lanes
  import opened Wrappers

  datatype Joint = Joint(adapter: State, context: Aio.State<Op>)

  datatype Step = OfTask(t: Event) | OfContext(e: Aio.Event<Op>)

  /** What the adapter hears of a step of the Context. */
  ghost function EchoOf(s: Aio.State<Op>, e: Aio.Event<Op>): Echo
    requires Aio.Enabled(s, e)
  {
    match e
    case Submit(claims, k) => Heard(Submit(ToSet(claims[..k])))
    case Release(f) => Heard(Callback(s.frames[f].batch[s.frames[f].called]))
    case Cancel(i) => Heard(Callback(s.kernel[i]))
    case _ => Silent
  }

  ghost predicate CanStep(j: Joint, step: Step) {
    match step
    case OfTask(e) => OfTasks(e) && Enabled(j.adapter, e)
    case OfContext(e) =>
      Aio.Enabled(j.context, e) && (e.Submit? ==> Enabled(j.adapter, Submit(ToSet(e.claims))))
  }

  ghost function After1(j: Joint, step: Step): Joint
    requires CanStep(j, step)
  {
    match step
    case OfTask(e) => j.(adapter := Apply(j.adapter, e))
    case OfContext(e) => Joint(Hear(j.adapter, EchoOf(j.context, e)), Aio.Apply(j.context, e))
  }

  function Start(permits: nat, claimed: set<Op>): Joint {
    Joint(Backpressure.Init(permits), Aio.Init(claimed))
  }

  ghost predicate Run(j: Joint, steps: seq<Step>)
    decreases |steps|
  {
    steps == [] || (CanStep(j, steps[0]) && Run(After1(j, steps[0]), steps[1..]))
  }

  ghost function End(j: Joint, steps: seq<Step>): Joint
    requires Run(j, steps)
    decreases |steps|
  {
    if steps == [] then j else End(After1(j, steps[0]), steps[1..])
  }

  predicate Loosening(step: Step) {
    step.OfTask? && Loosens(step.t)
  }

  /** The adapter knows exactly what the Context accepted, and what it called back. */
  ghost predicate Coupled(j: Joint) {
    && Sound(j.adapter) && Aio.Inv(j.context)
    && (forall op :: op in j.adapter.submitted <==> op in j.context.accepted)
    && (forall op :: op in j.adapter.called <==> op in j.context.released)
  }

  /** What the adapter hears it can always take in. */
  lemma EchoFits(j: Joint, e: Aio.Event<Op>)
    requires Coupled(j) && CanStep(j, OfContext(e)) && EchoOf(j.context, e).Heard?
    ensures Enabled(j.adapter, EchoOf(j.context, e).e) && !Loosens(EchoOf(j.context, e).e)
  {
    hide Aio.Inv;
    match e
    case Submit(claims, k) => assert ToSet(claims[..k]) <= ToSet(claims);
    case Release(f) => Aio.NextRelease(j.context, f);
    case Cancel(i) => Aio.InvMembers(j.context);
    case _ =>
  }

  lemma StepCoupled(j: Joint, step: Step)
    requires Coupled(j) && CanStep(j, step)
    ensures Coupled(After1(j, step)) && After1(j, step).adapter.permits == j.adapter.permits
    ensures NoneLoose(j.adapter) && !Loosening(step) ==> NoneLoose(After1(j, step).adapter)
  {
    hide Aio.Inv;
    match step
    case OfTask(e) =>
      StepSound(j.adapter, e);
      if NoneLoose(j.adapter) && !Loosens(e) {
        StepHeld(j.adapter, e);
      }
    case OfContext(e) =>
      Aio.StepKeeps(j.context, e);
      if EchoOf(j.context, e).Heard? {
        EchoFits(j, e);
        StepSound(j.adapter, EchoOf(j.context, e).e);
        if NoneLoose(j.adapter) {
          StepHeld(j.adapter, EchoOf(j.context, e).e);
        }
      }
  }

  lemma {:induction false} RunCoupled(j: Joint, steps: seq<Step>)
    requires Coupled(j) && Run(j, steps)
    ensures Coupled(End(j, steps)) && End(j, steps).adapter.permits == j.adapter.permits
    ensures NoneLoose(j.adapter) && (forall step :: step in steps ==> !Loosening(step)) ==>
      NoneLoose(End(j, steps).adapter)
    decreases |steps|
  {
    hide Coupled, NoneLoose, CanStep, After1;
    if steps != [] {
      StepCoupled(j, steps[0]);
      RunCoupled(After1(j, steps[0]), steps[1..]);
      assert steps[0] in steps;
    }
  }

  /** In every run, whenever tasks holding permits ask for a batch - one Operation, or all that were put off - and
      each request with the kernel and each uncollected event has its holder, these and the batch fit into the
      permits. */
  lemma NeverTooMuch(permits: nat, claimed: set<Op>, steps: seq<Step>, batch: seq<Op>)
    requires Run(Start(permits, claimed), steps) && NoDup(batch)
    requires var j := End(Start(permits, claimed), steps);
      && Enabled(j.adapter, Submit(ToSet(batch)))
      && forall op :: op in j.context.kernel || op in j.context.ready ==> op in j.adapter.holders
    ensures var s := End(Start(permits, claimed), steps).context; |s.kernel| + |s.ready| + |batch| <= permits
  {
    var start := Start(permits, claimed);
    InitSound(permits);
    RunCoupled(start, steps);
    HeldFit(End(start, steps), batch);
  }

  lemma HeldFit(j: Joint, batch: seq<Op>)
    requires Coupled(j) && NoDup(batch) && Enabled(j.adapter, Submit(ToSet(batch)))
    requires forall op :: op in j.context.kernel || op in j.context.ready ==> op in j.adapter.holders
    ensures |j.context.kernel| + |j.context.ready| + |batch| <= j.adapter.permits
  {
    var s := j.context;
    Occupied(s);
    NoDupFits(s.kernel + s.ready, j.adapter.holders - ToSet(batch));
    SetSize(batch);
    assert |j.adapter.holders - ToSet(batch)| == |j.adapter.holders| - |ToSet(batch)|;
  }

  /** With the kernel or finished there, each once, accepted and not released. */
  lemma Occupied(s: Aio.State<Op>)
    requires Aio.Inv(s)
    ensures NoDup(s.kernel + s.ready)
    ensures forall op :: op in s.kernel || op in s.ready ==> op in s.accepted && op !in s.released
  {
    hide Frames.Waiting;
    Aio.InvMembers(s);
    assert multiset(s.kernel + s.ready) == multiset(s.kernel) + multiset(s.ready);
    NoDupSubbag(s.kernel + s.ready, s.accepted);
  }

  /** That is so, whatever is asked for, in every run in which no task leaves early. */
  lemma NoneLooseUnlessLoosened(permits: nat, claimed: set<Op>, steps: seq<Step>)
    requires Run(Start(permits, claimed), steps) && forall step :: step in steps ==> !Loosening(step)
    ensures NoneLoose(End(Start(permits, claimed), steps).adapter)
  {
    InitSound(permits);
    RunCoupled(Start(permits, claimed), steps);
  }

  /** But when the only permit's task is cancelled and its request stays with the kernel, the next task is let in and
      asks for a second one. */
  lemma CancelledTaskOverfills(a: Op, b: Op)
    requires a != b
    ensures var start := Start(1, {});
      var run := [OfTask(Acquire(a)), OfContext(Aio.Submit([a], 1)), OfTask(CancelTask(a)), OfTask(Acquire(b))];
      && Run(start, run)
      && var j := End(start, run);
         && Enabled(j.adapter, Submit({b})) && Aio.Enabled(j.context, Aio.Submit([b], 1))
         && j.context.kernel == [a] && |j.context.kernel| == j.adapter.permits
  {
    var run := [OfTask(Acquire(a)), OfContext(Aio.Submit([a], 1)), OfTask(CancelTask(a)), OfTask(Acquire(b))];
    var j0 := Start(1, {});
    var j1 := After1(j0, run[0]);
    assert [a][..1] == [a] && ToSet([a]) == {a};
    var j2 := After1(j1, run[1]);
    var j3 := After1(j2, run[2]);
    var j4 := After1(j3, run[3]);
    RunFrom(run, j3, j4, 3);
    RunFrom(run, j2, j3, 2);
    RunFrom(run, j1, j2, 1);
    RunFrom(run, j0, j1, 0);
    assert run[0..] == run;
  }

  /** Everything outstanding is with the kernel, and nothing else is claimed. */
  ghost predicate InKernel(j: Joint) {
    && Coupled(j) && j.context.ready == [] && j.context.frames == []
    && forall op :: op in j.context.claimed ==> op in j.context.accepted
  }

  lemma StartInKernel(permits: nat)
    ensures InKernel(Start(permits, {}))
  {
  }

  /** The step of the Context that makes a step of the adapter happen: the kernel takes the whole batch, and gives a
      request back at once when it is called back. */
  lemma Realize(j: Joint, e: Event) returns (step: Step)
    requires InKernel(j) && Enabled(j.adapter, e) && !e.Withdraw?
    ensures CanStep(j, step) && After1(j, step).adapter == Apply(j.adapter, e) && InKernel(After1(j, step))
    ensures Loosening(step) <==> Loosens(e)
  {
    hide InKernel;
    match e
    case Submit(ops) => step := RealizeSubmit(j, ops);
    case Callback(op) => step := RealizeCallback(j, op);
    case _ =>
      step := OfTask(e);
      RealizeTask(j, e);
  }

  lemma RealizeTask(j: Joint, e: Event)
    requires InKernel(j) && Enabled(j.adapter, e) && OfTasks(e)
    ensures InKernel(After1(j, OfTask(e)))
  {
    StepCoupled(j, OfTask(e));
  }

  lemma RealizeSubmit(j: Joint, ops: set<Op>) returns (step: Step)
    requires InKernel(j) && Enabled(j.adapter, Submit(ops))
    ensures step.OfContext? && CanStep(j, step) && After1(j, step).adapter == Apply(j.adapter, Submit(ops))
    ensures InKernel(After1(j, step))
  {
    var claims := ListOf(ops);
    assert claims[..|claims|] == claims;
    assert ToSet(claims) == ops;
    step := OfContext(Aio.Submit(claims, |claims|));
    StepCoupled(j, step);
    hide Coupled, Aio.Inv;
  }

  lemma RealizeCallback(j: Joint, op: Op) returns (step: Step)
    requires InKernel(j) && Enabled(j.adapter, Callback(op))
    ensures step.OfContext? && CanStep(j, step) && After1(j, step).adapter == Apply(j.adapter, Callback(op))
    ensures InKernel(After1(j, step))
  {
    var i := WithKernel(j, op);
    step := OfContext(Aio.Cancel(i));
    StepCoupled(j, step);
    hide Coupled, Aio.Inv;
  }

  lemma {:induction false} ListOf(ops: set<Op>) returns (xs: seq<Op>)
    ensures NoDup(xs) && forall op :: op in xs <==> op in ops
  {
    xs := [];
    if op :| op in ops {
      var rest := ListOf(ops - {op});
      xs := rest + [op];
      NoDupConcat(rest, [op]);
    }
  }

  lemma WithKernel(j: Joint, op: Op) returns (i: nat)
    requires InKernel(j) && Outstanding(j.adapter, op)
    ensures i < |j.context.kernel| && j.context.kernel[i] == op
  {
    var s := j.context;
    assert op in multiset(s.accepted);
    assert multiset(s.accepted) == multiset(s.kernel) + multiset(s.released);
    assert op in s.kernel;
    i :| 0 <= i < |s.kernel| && s.kernel[i] == op;
  }

  /** Whatever the adapter can go through it can go through with this backend. */
  lemma {:induction false} EveryRunHappens(j: Joint, events: seq<Event>) returns (steps: seq<Step>)
    requires InKernel(j) && Legal(j.adapter, events) && forall e :: e in events ==> !e.Withdraw?
    ensures Run(j, steps) && InKernel(End(j, steps)) && End(j, steps).adapter == Backpressure.After(j.adapter, events)
    ensures (forall e :: e in events ==> !Loosens(e)) ==> forall step :: step in steps ==> !Loosening(step)
    decreases |events|
  {
    hide InKernel, CanStep, After1, Loosening, Enabled, Apply;
    if events == [] {
      steps := [];
    } else {
      var step := Realize(j, events[0]);
      var rest := EveryRunHappens(After1(j, step), events[1..]);
      steps := [step] + rest;
      assert steps[1..] == rest && events[0] in events;
    }
  }

  lemma EveryAdapterRunHappens(permits: nat, events: seq<Event>) returns (steps: seq<Step>)
    requires Legal(Backpressure.Init(permits), events) && forall e :: e in events ==> !e.Withdraw?
    ensures Run(Start(permits, {}), steps)
    ensures End(Start(permits, {}), steps).adapter == Backpressure.After(Backpressure.Init(permits), events)
  {
    StartInKernel(permits);
    steps := EveryRunHappens(Start(permits, {}), events);
  }

  // -------------------------------------- exactly when the kernel can be asked for too much

  /** The finished requests, in the order in which they will be collected. */
  function Finished(s: Aio.State<Op>): Lane {
    seq(|s.ready|, i requires 0 <= i < |s.ready| => Some(s.ready[i]))
  }

  /** Holders ask for `batch`, which the Context can claim, and with it the kernel has more than the permits. */
  ghost predicate AsksTooMuch(j: Joint, batch: seq<Op>) {
    && batch != [] && NoDup(batch) && Enabled(j.adapter, Submit(ToSet(batch)))
    && Aio.Enabled(j.context, Aio.Submit(batch, 0))
    && |j.context.kernel| + |j.context.ready| + |batch| > j.adapter.permits
  }

  ghost predicate Overfilling(j: Joint, steps: seq<Step>, batch: seq<Op>) {
    Run(j, steps) && (forall step :: step in steps ==> !Loosening(step)) && AsksTooMuch(End(j, steps), batch)
  }

  /** Some run in which no further task leaves early comes to that. */
  ghost predicate CanAskTooMuch(j: Joint) {
    exists steps: seq<Step>, batch: seq<Op> :: Overfilling(j, steps, batch)
  }

  /** A loose request is with the kernel; or it is finished, and the permits are not all held for requests that finished
      after it, so that somebody can ask before it is collected. */
  ghost predicate LooseStays(j: Joint) {
    || (exists op :: op in j.context.kernel && op !in j.adapter.holders)
    || Jammed(j.adapter, Finished(j.context))
  }

  /** From every state of every run: the kernel can be asked for too much if and only if a loose request stays. */
  lemma AskTooMuchExact(j: Joint)
    requires Coupled(j) && j.adapter.permits > 0
    ensures CanAskTooMuch(j) <==> LooseStays(j)
  {
    if CanAskTooMuch(j) {
      var steps: seq<Step>, batch: seq<Op> :| Overfilling(j, steps, batch);
      ClearRun(j, steps, batch);
    }
    if LooseStays(j) {
      Fill(j);
    }
  }

  // ... only if

  lemma FinishedFits(j: Joint)
    requires Coupled(j)
    ensures LaneFits(j.adapter, Finished(j.context))
  {
    var s, lane := j.context, Finished(j.context);
    Occupied(s);
    forall i, k | 0 <= i < k < |lane|
      ensures lane[i] != lane[k]
    {
      assert (s.kernel + s.ready)[|s.kernel| + i] == s.ready[i] && (s.kernel + s.ready)[|s.kernel| + k] == s.ready[k];
    }
  }

  lemma {:induction false} ClearRun(j: Joint, steps: seq<Step>, batch: seq<Op>)
    requires Coupled(j) && Overfilling(j, steps, batch)
    ensures LooseStays(j)
    decreases |steps|
  {
    hide Coupled, LooseStays, CanStep, After1, AsksTooMuch;
    if !LooseStays(j) {
      if steps == [] {
        ClearMeansRoom(j, batch);
      } else {
        assert steps[0] in steps;
        StepCoupled(j, steps[0]);
        ClearStays(j, steps[0]);
        ClearRun(After1(j, steps[0]), steps[1..], batch);
      }
    }
  }

  lemma ClearMeansRoom(j: Joint, batch: seq<Op>)
    requires Coupled(j) && !LooseStays(j)
    ensures !AsksTooMuch(j, batch)
  {
    if AsksTooMuch(j, batch) {
      var lane := Finished(j.context);
      FinishedFits(j);
      assert batch[0] in ToSet(batch);
      forall op | op in j.context.ready
        ensures op in j.adapter.holders
      {
        var i :| 0 <= i < |j.context.ready| && j.context.ready[i] == op;
        if Stray(j.adapter, lane[i]) {
          BehindIsOutstanding(j.adapter, lane, i, batch[0]);
          assert Blocks(j.adapter, lane, i);
        }
      }
      HeldFit(j, batch);
    }
  }

  lemma ClearStays(j: Joint, step: Step)
    requires Coupled(j) && !LooseStays(j) && CanStep(j, step) && !Loosening(step)
    ensures !LooseStays(After1(j, step))
  {
    FinishedFits(j);
    Occupied(j.context);
    hide Jammed, LaneFits, Coupled;
    match step
    case OfTask(t) => TaskKeepsLane(j.adapter, t, Finished(j.context));
    case OfContext(e) => ClearGoesOn(j, e);
  }

  lemma ClearGoesOn(j: Joint, e: Aio.Event<Op>)
    requires !LooseStays(j) && CanStep(j, OfContext(e))
    ensures !LooseStays(After1(j, OfContext(e)))
  {
    var s, k := j.context, After1(j, OfContext(e));
    SameLane(j.adapter, k.adapter, Finished(s));
    hide Jammed;
    match e
    case Complete(i) =>
      assert Finished(k.context) == Finished(s) + [Some(s.kernel[i])];
      Joined(k.adapter, Finished(s), [Some(s.kernel[i])]);
    case Collect(_, n) =>
      assert Finished(k.context) == Finished(s)[n..];
      Popped(k.adapter, Finished(s), n);
    case Submit(claims, n) => assert ToSet(claims[..n]) <= ToSet(claims);
    case _ =>
  }

  // ... if

  lemma AsksLater(j: Joint, step: Step)
    requires CanStep(j, step) && !Loosening(step) && CanAskTooMuch(After1(j, step))
    ensures CanAskTooMuch(j)
  {
    hide AsksTooMuch, CanStep, After1;
    var steps: seq<Step>, batch: seq<Op> :| Overfilling(After1(j, step), steps, batch);
    assert ([step] + steps)[1..] == steps;
    assert Overfilling(j, [step] + steps, batch);
  }

  /** First the callbacks of what was collected, then cancels of the held requests; then what is finished is collected
      up to the loose request that stays. */
  lemma {:induction false} Fill(j: Joint)
    requires Coupled(j) && j.adapter.permits > 0 && LooseStays(j)
    ensures CanAskTooMuch(j)
    decreases Unsettled(j.context)
  {
    hide CanAskTooMuch;
    var s := j.context;
    if f: nat :| Frames.Runs(s.frames, f) {
      Goes(j, Aio.Release(f));
      Fill(After1(j, OfContext(Aio.Release(f))));
      AsksLater(j, OfContext(Aio.Release(f)));
    } else if i: nat :| i < |s.kernel| && s.kernel[i] in j.adapter.holders {
      Goes(j, Aio.Cancel(i));
      Fill(After1(j, OfContext(Aio.Cancel(i))));
      AsksLater(j, OfContext(Aio.Cancel(i)));
    } else {
      var n := Collectable(j);
      if n > 0 {
        Goes(j, Aio.Collect(0, n));
        Fill(After1(j, OfContext(Aio.Collect(0, n))));
        AsksLater(j, OfContext(Aio.Collect(0, n)));
      } else {
        FillSettled(j);
      }
    }
  }

  /** How much can be collected with the loose request staying. */
  lemma Collectable(j: Joint) returns (n: nat)
    requires LooseStays(j)
    ensures n <= |j.context.ready|
    ensures || (n == |j.context.ready| && exists op :: op in j.context.kernel && op !in j.adapter.holders)
            || Blocks(j.adapter, Finished(j.context), n)
  {
    if op :| op in j.context.kernel && op !in j.adapter.holders {
      n := |j.context.ready|;
    } else {
      n :| Blocks(j.adapter, Finished(j.context), n);
    }
  }

  /** The steps that do not change what stays. */
  predicate Clearing(j: Joint, e: Aio.Event<Op>) {
    match e
    case Release(f) => Frames.Runs(j.context.frames, f)
    case Cancel(i) => i < |j.context.kernel| && j.context.kernel[i] in j.adapter.holders
    case _ => false
  }

  ghost predicate Collects(j: Joint, e: Aio.Event<Op>) {
    && e.Collect? && 0 < e.n <= |j.context.ready|
    && ((e.n == |j.context.ready| && exists op :: op in j.context.kernel && op !in j.adapter.holders)
        || Blocks(j.adapter, Finished(j.context), e.n))
  }

  /** What is left to do before it is settled. */
  function Unsettled(s: Aio.State<Op>): int {
    |s.kernel| + |s.ready| + |s.accepted| - |s.released|
  }

  lemma Goes(j: Joint, e: Aio.Event<Op>)
    requires Coupled(j) && LooseStays(j) && (Clearing(j, e) || Collects(j, e))
    ensures var k := After1(j, OfContext(e));
      && CanStep(j, OfContext(e)) && Coupled(k) && LooseStays(k) && k.adapter.permits == j.adapter.permits
      && 0 <= Unsettled(k.context) < Unsettled(j.context)
  {
    GoesOn(j, e);
    StepCoupled(j, OfContext(e));
    ReleasedFewer(After1(j, OfContext(e)).context);
    hide Coupled, LooseStays, After1, Clearing, Collects;
  }

  lemma GoesOn(j: Joint, e: Aio.Event<Op>)
    requires LooseStays(j) && (Clearing(j, e) || Collects(j, e))
    ensures CanStep(j, OfContext(e)) && LooseStays(After1(j, OfContext(e)))
    ensures Unsettled(After1(j, OfContext(e)).context) < Unsettled(j.context)
  {
    hide LooseStays;
    match e
    case Collect(_, n) => CollectLeaves(j, e);
    case Release(f) => ReleaseLeaves(j, f);
    case Cancel(i) => CancelLeaves(j, i);
    case _ =>
  }

  lemma ReleaseLeaves(j: Joint, f: nat)
    requires LooseStays(j) && Clearing(j, Aio.Release(f))
    ensures LooseStays(After1(j, OfContext(Aio.Release(f))))
  {
    SameLane(j.adapter, After1(j, OfContext(Aio.Release(f))).adapter, Finished(j.context));
    hide Jammed;
  }

  lemma CancelLeaves(j: Joint, i: nat)
    requires LooseStays(j) && Clearing(j, Aio.Cancel(i))
    ensures LooseStays(After1(j, OfContext(Aio.Cancel(i))))
  {
    SameLane(j.adapter, After1(j, OfContext(Aio.Cancel(i))).adapter, Finished(j.context));
    StaysInKernel(j.context.kernel, i, j.adapter.holders);
    hide Jammed;
  }

  lemma ReleasedFewer(s: Aio.State<Op>)
    requires Aio.Inv(s)
    ensures |s.released| <= |s.accepted|
  {
    Aio.InvMembers(s);
    NoDupFits(s.released, ToSet(s.accepted));
    SetSize(s.accepted);
  }

  lemma StaysInKernel(kernel: seq<Op>, i: nat, holders: set<Op>)
    requires i < |kernel| && kernel[i] in holders
    ensures forall op :: op in kernel && op !in holders ==> op in Without(kernel, i)
    ensures forall op :: op in Without(kernel, i) ==> op in kernel
  {
    assert kernel == kernel[..i] + [kernel[i]] + kernel[i + 1..];
  }

  lemma CollectLeaves(j: Joint, e: Aio.Event<Op>)
    requires LooseStays(j) && Collects(j, e)
    ensures LooseStays(After1(j, OfContext(e)))
  {
    var lane, k := Finished(j.context), After1(j, OfContext(e));
    if Blocks(j.adapter, lane, e.n) {
      assert Finished(k.context) == lane[e.n..] && lane[e.n..][1..] == lane[e.n + 1..];
      assert Blocks(k.adapter, Finished(k.context), 0);
    }
  }

  /** Nothing is collected and not called back, no held request is with the kernel, and what stays is in front. */
  lemma FillSettled(j: Joint)
    requires Coupled(j) && j.adapter.permits > 0 && (forall f: nat :: !Frames.Runs(j.context.frames, f))
    requires forall i: nat :: i < |j.context.kernel| ==> j.context.kernel[i] !in j.adapter.holders
    requires || (j.context.ready == [] && exists op :: op in j.context.kernel && op !in j.adapter.holders)
             || Blocks(j.adapter, Finished(j.context), 0)
    ensures CanAskTooMuch(j)
  {
    hide CanAskTooMuch;
    var s := j.context;
    CoveredAreBehind(j);
    var bound := Above(s.claimed);
    var events, y := FillLane(j.adapter, |s.kernel| + |s.ready|, bound);
    Realizes(j, bound, events, y);
  }

  lemma CoveredAreBehind(j: Joint)
    requires Coupled(j) && j.adapter.permits > 0 && (forall f: nat :: !Frames.Runs(j.context.frames, f))
    requires forall i: nat :: i < |j.context.kernel| ==> j.context.kernel[i] !in j.adapter.holders
    requires || (j.context.ready == [] && exists op :: op in j.context.kernel && op !in j.adapter.holders)
             || Blocks(j.adapter, Finished(j.context), 0)
    ensures |Covered(j.adapter)| < |j.context.kernel| + |j.context.ready| && |Covered(j.adapter)| < j.adapter.permits
  {
    var s := j.context;
    Frames.RestUnlessRuns(s.frames);
    Occupied(s);
    forall op | op in Covered(j.adapter)
      ensures op in s.ready
    {
      OutstandingWhere(j, op);
    }
    if s.ready == [] {
      assert Covered(j.adapter) == {};
    } else {
      var lane := Finished(s);
      var behind := j.adapter.holders * OpsOf(lane[1..]);
      forall op | op in Covered(j.adapter)
        ensures op in behind && op in ToSet(s.ready[1..])
      {
        var i :| 0 <= i < |s.ready| && s.ready[i] == op;
        assert lane[i] == Some(op);
        assert lane[1..][i - 1] == Some(op) && s.ready[1..][i - 1] == op;
      }
      Smaller(Covered(j.adapter), behind);
      Smaller(Covered(j.adapter), ToSet(s.ready[1..]));
      SetAtMost(s.ready[1..]);
    }
  }

  lemma OutstandingWhere(j: Joint, op: Op)
    requires Coupled(j) && Frames.Rest(j.context.frames) && Outstanding(j.adapter, op)
    ensures op in j.context.kernel || op in j.context.ready
  {
    var s := j.context;
    Frames.NothingWaits(s.frames);
    hide Frames.Waiting;
    assert op in multiset(s.accepted);
    assert multiset(s.accepted) == multiset(s.kernel) + multiset(s.ready) + multiset{} + multiset(s.released);
  }

  lemma {:induction false} Realizes(j: Joint, bound: Op, events: seq<Event>, y: Op)
    requires Coupled(j) && NoneFrom(j.context.claimed, j.adapter.submitted, bound)
    requires Fills(j.adapter, |j.context.kernel| + |j.context.ready|, bound, events, y)
    ensures CanAskTooMuch(j)
    decreases |events|
  {
    if events == [] {
      assert ToSet([y]) == {y};
      assert Overfilling(j, [], [y]);
    } else {
      var e := events[0];
      assert e in events;
      var step := RealizeFill(j, bound, e);
      hide CanAskTooMuch, CanStep, After1, Coupled, NoneFrom, Apply, Enabled;
      Realizes(After1(j, step), bound, events[1..], y);
      AsksLater(j, step);
    }
  }

  lemma RealizeFill(j: Joint, bound: Op, e: Event) returns (step: Step)
    requires Coupled(j) && NoneFrom(j.context.claimed, j.adapter.submitted, bound)
    requires Enabled(j.adapter, e) && Filling(e, bound)
    ensures CanStep(j, step) && !Loosening(step)
    ensures var k := After1(j, step);
      && Coupled(k) && k.adapter == Apply(j.adapter, e) && NoneFrom(k.context.claimed, k.adapter.submitted, bound)
      && |k.context.kernel| + |k.context.ready| == |j.context.kernel| + |j.context.ready| + if e.Submit? then 1 else 0
  {
    if e.Submit? {
      var op :| op in e.ops && op >= bound && e.ops == {op};
      step := FillSubmits(j, bound, op);
    } else {
      step := OfTask(e);
      StepCoupled(j, step);
      hide Coupled;
    }
  }

  lemma FillSubmits(j: Joint, bound: Op, op: Op) returns (step: Step)
    requires Coupled(j) && NoneFrom(j.context.claimed, j.adapter.submitted, bound)
    requires Enabled(j.adapter, Submit({op})) && op >= bound
    ensures CanStep(j, step) && !Loosening(step)
    ensures var k := After1(j, step);
      && Coupled(k) && k.adapter == Apply(j.adapter, Submit({op}))
      && NoneFrom(k.context.claimed, k.adapter.submitted, bound)
      && |k.context.kernel| + |k.context.ready| == |j.context.kernel| + |j.context.ready| + 1
  {
    assert [op][..1] == [op] && ToSet([op]) == {op};
    step := OfContext(Aio.Submit([op], 1));
    StepCoupled(j, step);
    hide Coupled, Aio.Inv;
  }

  /** In particular, wherever a loose request is with the kernel. */
  lemma LooseOverfillsTheKernel(permits: nat, claimed: set<Op>, steps: seq<Step>, loose: Op)
    requires permits > 0 && Run(Start(permits, claimed), steps)
    requires var j := End(Start(permits, claimed), steps); loose in j.context.kernel && Loose(j.adapter, loose)
    ensures CanAskTooMuch(End(Start(permits, claimed), steps))
  {
    InitSound(permits);
    RunCoupled(Start(permits, claimed), steps);
    AskTooMuchExact(End(Start(permits, claimed), steps));
  }

  lemma RunFrom(run: seq<Step>, j: Joint, k: Joint, i: nat)
    requires i < |run| && CanStep(j, run[i]) && k == After1(j, run[i]) && Run(k, run[i + 1..])
    ensures Run(j, run[i..]) && End(j, run[i..]) == End(k, run[i + 1..])
  {
  }
}
