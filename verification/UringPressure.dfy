/** The asyncio adapter and its io_uring Context, step by step together.

    A step is one of the tasks around the semaphore, or one of the Context, its
    rings or its kernel; the adapter hears of staged entries and of callbacks, and
    only tasks that hold a permit submit. */
module UringPressure {
  import opened Backpressure
  import opened Bags
  import Frames
  import opened Lanes
  import Uring = UringProtocol
  import opened Wrappers

  /** `entries` is the size of the submission ring. */
  datatype Joint = Joint(entries: nat, adapter: State, context: Uring.State<Op>)

  /** A cancelled task asks for a cancel of its Operation, and leaves. */
  datatype Step = OfTask(t: Event) | OfContext(e: Uring.Event<Op>) | CancelAndLeave(op: Op, entry: Uring.Sqe<Op>)

  predicate HasRoom(j: Joint, n: nat) {
    |j.context.sqLog| - j.context.sqHead + n <= j.entries
  }

  ghost function EchoOf(s: Uring.State<Op>, e: Uring.Event<Op>): Echo
    requires Uring.Enabled(s, e)
  {
    match e
    case Submit(entries) => Heard(Submit(ToSet(Uring.SqOps(entries))))
    case Call(f) => Heard(Callback(s.frames[f].batch[s.frames[f].called]))
    case _ => Silent
  }

  ghost predicate CanStep(j: Joint, step: Step) {
    match step
    case OfTask(t) => OfTasks(t) && !t.CancelTask? && Enabled(j.adapter, t)
    case OfContext(e) =>
      && Uring.Enabled(j.context, e) && !e.RequestCancel?
      && (e.Submit? ==> HasRoom(j, |e.entries|) && Enabled(j.adapter, Submit(ToSet(Uring.SqOps(e.entries)))))
    case CancelAndLeave(op, entry) =>
      op in j.adapter.holders && op in j.adapter.submitted && entry.tag.CancelTag? && Uring.Bounded(j.context)
  }

  /** It may have had its callback already. */
  function Departure(s: State, op: Op): Event {
    if op in s.called then Leave(op) else CancelTask(op)
  }

  ghost function After1(j: Joint, step: Step): Joint
    requires CanStep(j, step)
  {
    match step
    case OfTask(t) => j.(adapter := Apply(j.adapter, t))
    case OfContext(e) => j.(adapter := Hear(j.adapter, EchoOf(j.context, e)), context := Uring.Apply(j.context, e))
    case CancelAndLeave(op, entry) =>
      // a full ring refuses the cancel
      j.(adapter := Apply(j.adapter, Departure(j.adapter, op)),
         context := if HasRoom(j, 1) then Uring.CancelRequested(j.context, entry) else j.context)
  }

  function Start(permits: nat, entries: nat, claimed: set<Op>): Joint {
    Joint(entries, Backpressure.Init(permits), Uring.Init(claimed))
  }

  ghost predicate Run(j: Joint, steps: seq<Step>)
    decreases |steps|
  {
    steps == [] || (CanStep(j, steps[0]) && Run(After1(j, steps[0]), steps[1..]))
  }

  ghost function End(j: Joint, steps: seq<Step>): Joint
    requires Run(j, steps)
    decreases |steps|
  {
    if steps == [] then j else End(After1(j, steps[0]), steps[1..])
  }

  predicate Loosening(step: Step) {
    (step.OfTask? && Loosens(step.t)) || step.CancelAndLeave?
  }

  /** The adapter knows exactly what was staged for it, and what was called back. */
  ghost predicate Coupled(j: Joint) {
    && Sound(j.adapter) && Uring.Inv(j.context) && j.adapter.permits <= j.entries && HasRoom(j, 0)
    && (forall op :: op in j.adapter.submitted <==> op in Uring.SqOps(j.context.sqLog))
    && (forall op :: op in j.adapter.called <==> op in j.context.calls)
  }

  /** The next callback is for an Operation that was staged and not called. */
  lemma NextCall(s: Uring.State<Op>, f: nat)
    requires Uring.Inv(s) && Frames.Runs(s.frames, f)
    ensures var op := s.frames[f].batch[s.frames[f].called]; op in Uring.SqOps(s.sqLog) && op !in s.calls
  {
    hide Uring.SqOps, Uring.CqOps, Frames.Waiting;
    Uring.CallKeeps(s, f);
    var t := Uring.Called(s, f);
    Uring.InvMembers(t);
    Uring.CallsNoDup(t);
    var op := s.frames[f].batch[s.frames[f].called];
    assert t.calls == s.calls + [op];
    NoDupSplit(s.calls, [op]);
    assert op in t.calls && op in [op];
  }

  lemma EchoFits(j: Joint, e: Uring.Event<Op>)
    requires Coupled(j) && CanStep(j, OfContext(e)) && EchoOf(j.context, e).Heard?
    ensures Enabled(j.adapter, EchoOf(j.context, e).e) && !Loosens(EchoOf(j.context, e).e)
  {
    hide Uring.Inv, Uring.SqOps;
    if e.Call? {
      NextCall(j.context, e.frame);
    }
  }

  /** Only what the adapter hears changes what is staged for it and called. */
  lemma EchoTells(s: Uring.State<Op>, e: Uring.Event<Op>)
    requires Uring.Enabled(s, e)
    ensures var t, was := Uring.Apply(s, e), Uring.SqOps(s.sqLog);
      match EchoOf(s, e)
      case Heard(Submit(ops)) => (forall op :: op in Uring.SqOps(t.sqLog) <==> op in was || op in ops)
        && t.calls == s.calls
      case Heard(Callback(op)) => Uring.SqOps(t.sqLog) == was && t.calls == s.calls + [op]
      case Silent => Uring.SqOps(t.sqLog) == was && t.calls == s.calls
      case _ => false
  {
    hide Uring.SqOps;
    match e
    case Submit(entries) => Uring.SqOpsConcat(s.sqLog, entries);
    case RequestCancel(entry) =>
      Uring.SqOpsConcat(s.sqLog, [entry]);
      Uring.SqOpsOne(entry);
    case _ =>
  }

  lemma StepCoupled(j: Joint, step: Step)
    requires Coupled(j) && CanStep(j, step)
    ensures var k := After1(j, step); Coupled(k) && k.adapter.permits == j.adapter.permits && k.entries == j.entries
    ensures NoneLoose(j.adapter) && !Loosening(step) ==> NoneLoose(After1(j, step).adapter)
  {
    hide Uring.Inv, Uring.Enabled, Uring.Apply, Uring.SqOps, EchoOf;
    match step
    case OfTask(t) =>
      StepSound(j.adapter, t);
      if NoneLoose(j.adapter) && !Loosens(t) {
        StepHeld(j.adapter, t);
      }
    case OfContext(e) =>
      Uring.StepKeeps(j.context, e);
      EchoTells(j.context, e);
      if EchoOf(j.context, e).Heard? {
        EchoFits(j, e);
        StepSound(j.adapter, EchoOf(j.context, e).e);
        if NoneLoose(j.adapter) {
          StepHeld(j.adapter, EchoOf(j.context, e).e);
        }
      }
      RingFits(j, e);
    case CancelAndLeave(op, entry) => CancelCoupled(j, op, entry);
  }

  lemma RingFits(j: Joint, e: Uring.Event<Op>)
    requires CanStep(j, OfContext(e)) && HasRoom(j, 0)
    ensures HasRoom(After1(j, OfContext(e)), 0)
  {
    hide Uring.SqOps;
  }

  lemma CancelCoupled(j: Joint, op: Op, entry: Uring.Sqe<Op>)
    requires Coupled(j) && CanStep(j, CancelAndLeave(op, entry))
    ensures Coupled(After1(j, CancelAndLeave(op, entry)))
  {
    hide Uring.SqOps;
    StepSound(j.adapter, Departure(j.adapter, op));
    Uring.CancelKeeps(j.context, entry);
    Uring.SqOpsConcat(j.context.sqLog, [entry]);
    Uring.SqOpsOne(entry);
    hide Uring.Inv;
  }

  lemma {:induction false} RunCoupled(j: Joint, steps: seq<Step>)
    requires Coupled(j) && Run(j, steps)
    ensures var k := End(j, steps); Coupled(k) && k.adapter.permits == j.adapter.permits && k.entries == j.entries
    ensures NoneLoose(j.adapter) && (forall step :: step in steps ==> !Loosening(step)) ==>
      NoneLoose(End(j, steps).adapter)
    decreases |steps|
  {
    hide Coupled, NoneLoose, CanStep, After1;
    if steps != [] {
      StepCoupled(j, steps[0]);
      RunCoupled(After1(j, steps[0]), steps[1..]);
      assert steps[0] in steps;
    }
  }

  lemma StartCoupled(permits: nat, entries: nat, claimed: set<Op>)
    requires permits <= entries
    ensures Coupled(Start(permits, entries, claimed)) && NoneLoose(Start(permits, entries, claimed).adapter)
  {
    InitSound(permits);
  }

  /** What is staged, from its front: cancel entries are nobody's. */
  function Ring(s: Uring.State<Op>): Lane
    requires s.sqHead <= |s.sqLog|
  {
    LaneOf(s.sqLog[s.sqHead..])
  }

  function LaneOf(entries: seq<Uring.Sqe<Op>>): Lane {
    seq(|entries|, i requires 0 <= i < |entries| => if entries[i].tag.OpTag? then Some(entries[i].tag.op) else None)
  }

  /** In every run, whenever tasks that hold permits submit, what they stage fits into a ring with an entry for each
      permit, next to what is stray in it: cancel entries, and entries whose task is gone. */
  lemma NeverFull(permits: nat, entries: nat, claimed: set<Op>, steps: seq<Step>, ops: set<Op>)
    requires permits <= entries && Run(Start(permits, entries, claimed), steps)
    requires Enabled(End(Start(permits, entries, claimed), steps).adapter, Submit(ops))
    ensures var j := End(Start(permits, entries, claimed), steps);
      && j.context.sqHead <= |j.context.sqLog|
      && |j.context.sqLog| - j.context.sqHead + |ops| <= permits + Strays(j.adapter, Ring(j.context))
  {
    StartCoupled(permits, entries, claimed);
    RunCoupled(Start(permits, entries, claimed), steps);
    StraysLeaveRoom(End(Start(permits, entries, claimed), steps), ops);
  }

  lemma StraysLeaveRoom(j: Joint, ops: set<Op>)
    requires Coupled(j) && Enabled(j.adapter, Submit(ops))
    ensures |j.context.sqLog| - j.context.sqHead + |ops| <= j.adapter.permits + Strays(j.adapter, Ring(j.context))
  {
    var held := j.adapter.holders - ops;
    StagedIsOutstanding(j);
    StraysAndHeld(j.adapter, Ring(j.context), held);
    assert |held| == |j.adapter.holders| - |ops|;
  }

  /** So in every run in which no task leaves early it fits: there nothing stray is staged, and no Operation is
      loose. */
  lemma NeverFullUnlessLoosened(permits: nat, entries: nat, claimed: set<Op>, steps: seq<Step>, ops: set<Op>)
    requires permits <= entries && Run(Start(permits, entries, claimed), steps)
    requires forall step :: step in steps ==> !Loosening(step)
    ensures var j := End(Start(permits, entries, claimed), steps);
      && j.context.sqHead <= |j.context.sqLog| && NoneLoose(j.adapter)
      && (Enabled(j.adapter, Submit(ops)) ==> |j.context.sqLog| - j.context.sqHead + |ops| <= permits)
  {
    var start := Start(permits, entries, claimed);
    StartCoupled(permits, entries, claimed);
    RunCoupled(start, steps);
    StraysStay(start, steps);
    if Enabled(End(start, steps).adapter, Submit(ops)) {
      NeverFull(permits, entries, claimed, steps, ops);
    }
  }

  /** An entry leaves the ring when the kernel takes it, long before its callback. */
  lemma StagedIsOutstanding(j: Joint)
    requires Coupled(j)
    ensures LaneFits(j.adapter, Ring(j.context))
  {
    hide Uring.SqOps, Uring.CqOps, Frames.Waiting;
    var s := j.context;
    var head, rest := s.sqLog[..s.sqHead], s.sqLog[s.sqHead..];
    assert s.sqLog == head + rest;
    Uring.SqOpsConcat(head, rest);
    NoDupSplit(Uring.SqOps(head), Uring.SqOps(rest));
    LaneNames(rest);
    forall x | x in Uring.SqOps(rest)
      ensures Outstanding(j.adapter, x)
    {
      assert x in Uring.SqOps(s.sqLog);
      CalledWasConsumed(s, x);
    }
  }

  /** The lane names the Operations of the entries. */
  lemma {:induction false} LaneNames(entries: seq<Uring.Sqe<Op>>)
    ensures OpsOf(LaneOf(entries)) == ToSet(Uring.SqOps(entries))
    ensures forall i :: 0 <= i < |entries| && LaneOf(entries)[i].Some? ==>
      LaneOf(entries)[i].value in Uring.SqOps(entries)
    ensures NoDup(Uring.SqOps(entries)) ==>
      forall i, k :: 0 <= i < k < |entries| && LaneOf(entries)[i].Some? ==> LaneOf(entries)[i] != LaneOf(entries)[k]
  {
    if entries != [] {
      var n := |entries| - 1;
      var lane, front := LaneOf(entries), LaneOf(entries[..n]);
      LaneNames(entries[..n]);
      NoDupFront(Uring.SqOps(entries[..n]), Uring.TagOps(entries[n].tag));
      assert lane == front + [lane[n]];
      assert OpsOf(lane) == OpsOf(front) + if lane[n].Some? then {lane[n].value} else {};
      forall i | 0 <= i < n && lane[i].Some?
        ensures lane[i].value in Uring.SqOps(entries[..n])
      {
        assert front[i] == lane[i];
      }
    }
  }

  lemma NoDupFront(xs: seq<Op>, ys: seq<Op>)
    ensures NoDup(xs + ys) ==> NoDup(xs) && forall y :: y in ys ==> y !in xs
  {
    if NoDup(xs + ys) {
      NoDupSplit(xs, ys);
    }
  }

  lemma CalledWasConsumed(s: Uring.State<Op>, x: Op)
    requires Uring.Inv(s)
    ensures x in s.calls ==> x in Uring.SqOps(s.sqLog[..s.sqHead])
  {
    hide Uring.SqOps, Uring.CqOps, Frames.Waiting;
    Uring.CqSplit(s.cqLog, s.cqHead);
    if x in s.calls {
      assert x in multiset(Uring.CqOps(s.cqLog[..s.cqHead]));
      assert x in multiset(Uring.CqOps(s.cqLog));
      assert x in multiset(Uring.SqOps(s.sqLog[..s.sqHead]));
    }
  }

  // ----------------------------------------------- exactly when the ring can be full

  /** A holder's fresh Operation finds the ring full. */
  ghost predicate Overflows(j: Joint, op: Op) {
    Enabled(j.adapter, Submit({op})) && op !in j.context.claimed && !HasRoom(j, 1)
  }

  ghost predicate Overflowing(j: Joint, steps: seq<Step>, op: Op) {
    Run(j, steps) && (forall step :: step in steps ==> !Loosening(step)) && Overflows(End(j, steps), op)
  }

  /** Some run in which no further task leaves early comes to that. */
  ghost predicate CanOverflow(j: Joint) {
    exists steps: seq<Step>, op: Op :: Overflowing(j, steps, op)
  }

  /** The entries that the ring has beyond the permits. */
  function Spare(j: Joint): int {
    j.entries - j.adapter.permits
  }

  /** From every state of every run: a submit can find the ring full if and only if more stray entries are staged than
      the ring has entries beyond the permits. */
  lemma OverflowExact(j: Joint)
    requires Coupled(j)
    ensures CanOverflow(j) <==> Strays(j.adapter, Ring(j.context)) > Spare(j)
  {
    if CanOverflow(j) {
      var steps: seq<Step>, op: Op :| Overflowing(j, steps, op);
      StraysStay(j, steps);
      RunCoupled(j, steps);
      StraysLeaveRoom(End(j, steps), {op});
    }
    if Strays(j.adapter, Ring(j.context)) > Spare(j) {
      Fill(j);
    }
  }

  // ... only if

  /** Without early leavers nothing stray is added. */
  lemma {:induction false} StraysStay(j: Joint, steps: seq<Step>)
    requires Coupled(j) && Run(j, steps) && forall step :: step in steps ==> !Loosening(step)
    ensures var k := End(j, steps);
      && j.context.sqHead <= |j.context.sqLog| && k.context.sqHead <= |k.context.sqLog|
      && Strays(k.adapter, Ring(k.context)) <= Strays(j.adapter, Ring(j.context))
    decreases |steps|
  {
    assert j.context.sqHead <= |j.context.sqLog|;
    hide Coupled, CanStep, After1, Loosening;
    if steps != [] {
      assert steps[0] in steps;
      StepCoupled(j, steps[0]);
      StepStrays(j, steps[0]);
      StraysStay(After1(j, steps[0]), steps[1..]);
    }
  }

  lemma StepStrays(j: Joint, step: Step)
    requires Coupled(j) && CanStep(j, step) && !Loosening(step)
    ensures var k := After1(j, step);
      && j.context.sqHead <= |j.context.sqLog| && k.context.sqHead <= |k.context.sqLog|
      && Strays(k.adapter, Ring(k.context)) <= Strays(j.adapter, Ring(j.context))
  {
    StagedIsOutstanding(j);
    hide Strays;
    match step
    case OfTask(t) => TaskStrays(j.adapter, t, Ring(j.context));
    case OfContext(e) => ContextStrays(j, e);
    case _ =>
  }

  lemma TaskStrays(s: State, t: Event, lane: Lane)
    requires LaneFits(s, lane) && Enabled(s, t) && OfTasks(t) && !Loosens(t)
    ensures Strays(Apply(s, t), lane) == Strays(s, lane)
  {
    forall op | op in OpsOf(lane)
      ensures Outstanding(s, op)
    {
      var i :| 0 <= i < |lane| && lane[i] == Some(op);
    }
    StraysSame(s, Apply(s, t), lane);
  }

  lemma ContextStrays(j: Joint, e: Uring.Event<Op>)
    requires Uring.Bounded(j.context) && CanStep(j, OfContext(e))
    ensures var k := After1(j, OfContext(e));
      Uring.Bounded(k.context) && Strays(k.adapter, Ring(k.context)) <= Strays(j.adapter, Ring(j.context))
  {
    var k, lane := After1(j, OfContext(e)), Ring(j.context);
    hide Strays, Uring.SqOps;
    StraysSame(j.adapter, k.adapter, lane);
    match e
    case Consume =>
      assert Ring(k.context) == lane[1..] && lane == [lane[0]] + lane[1..];
      StraysConcat(k.adapter, [lane[0]], lane[1..]);
    case Submit(entries) => SubmitStrays(j, entries);
    case _ =>
  }

  lemma SubmitStrays(j: Joint, entries: seq<Uring.Sqe<Op>>)
    requires Uring.Bounded(j.context) && CanStep(j, OfContext(Uring.Submit(entries)))
    ensures var k := After1(j, OfContext(Uring.Submit(entries)));
      Uring.Bounded(k.context) && Strays(k.adapter, Ring(k.context)) == Strays(j.adapter, Ring(j.context))
  {
    hide Strays, Uring.SqOps;
    var k := After1(j, OfContext(Uring.Submit(entries)));
    assert Ring(k.context) == Ring(j.context) + LaneOf(entries);
    LaneNames(entries);
    NoStrays(k.adapter, LaneOf(entries));
    hide Ring, LaneOf, After1;
    StraysSame(j.adapter, k.adapter, Ring(j.context));
    StraysConcat(k.adapter, Ring(j.context), LaneOf(entries));
  }

  // ... if

  lemma OverflowsLater(j: Joint, step: Step)
    requires CanStep(j, step) && !Loosening(step) && CanOverflow(After1(j, step))
    ensures CanOverflow(j)
  {
    hide Overflows, CanStep, After1;
    var steps: seq<Step>, op: Op :| Overflowing(After1(j, step), steps, op);
    assert ([step] + steps)[1..] == steps;
    assert Overflowing(j, [step] + steps, op);
  }

  /** Accepted and not called. */
  ghost function Uncalled(s: Uring.State<Op>): set<Op> {
    ToSet(Uring.SqOps(s.sqLog)) - ToSet(s.calls)
  }

  /** What is posted and not collected. */
  function Unread(s: Uring.State<Op>): int {
    |s.cqLog| - s.cqHead
  }

  /** Everything the kernel has completes, is collected and called back, while the ring stays as it is. */
  lemma {:induction false} Fill(j: Joint)
    requires Coupled(j) && Strays(j.adapter, Ring(j.context)) > Spare(j)
    ensures CanOverflow(j)
    decreases |j.context.kernel|, Unread(j.context), |Uncalled(j.context)|
  {
    hide CanOverflow;
    var s := j.context;
    if s.kernel == [] && s.cqHead == |s.cqLog| && forall f: nat :: !Frames.Runs(s.frames, f) {
      FillSettled(j);
    } else {
      var e := Next(s);
      hide Coupled, Strays, Uncalled;
      Goes(j, e);
      Fill(After1(j, OfContext(e)));
      OverflowsLater(j, OfContext(e));
    }
  }

  ghost predicate Settles(s: Uring.State<Op>, e: Uring.Event<Op>) {
    && Uring.Enabled(s, e)
    && match e
       case Post(_, _) => true
       case Collect(_, n) => n > 0
       case Call(_) => true
       case _ => false
  }

  lemma Next(s: Uring.State<Op>) returns (e: Uring.Event<Op>)
    requires Uring.Bounded(s)
    requires !(s.kernel == [] && s.cqHead == |s.cqLog| && forall f: nat :: !Frames.Runs(s.frames, f))
    ensures Settles(s, e)
  {
    if s.kernel != [] {
      e := Uring.Post(0, 0);
    } else if s.cqHead < |s.cqLog| {
      e := Uring.Collect(0, |s.cqLog| - s.cqHead);
    } else {
      var f: nat :| Frames.Runs(s.frames, f);
      e := Uring.Call(f);
    }
  }

  lemma Goes(j: Joint, e: Uring.Event<Op>)
    requires Coupled(j) && Settles(j.context, e)
    ensures CanStep(j, OfContext(e))
    ensures var k := After1(j, OfContext(e));
      && Coupled(k) && k.adapter.permits == j.adapter.permits && Spare(k) == Spare(j)
      && Strays(k.adapter, Ring(k.context)) == Strays(j.adapter, Ring(j.context))
      && Nearer(j.context, k.context)
  {
    RingStays(j, e);
    StepCoupled(j, OfContext(e));
    GoesNearer(j.context, e);
    hide Coupled, Strays, Nearer, Settles, Ring, EchoOf;
  }

  lemma RingStays(j: Joint, e: Uring.Event<Op>)
    requires Uring.Bounded(j.context) && Settles(j.context, e)
    ensures CanStep(j, OfContext(e))
    ensures var k := After1(j, OfContext(e));
      Uring.Bounded(k.context) && Strays(k.adapter, Ring(k.context)) == Strays(j.adapter, Ring(j.context))
  {
    hide Strays, Uring.SqOps;
    var k := After1(j, OfContext(e));
    assert Ring(k.context) == Ring(j.context) && k.adapter.holders == j.adapter.holders;
    hide Settles, Ring, After1, CanStep;
    StraysSame(j.adapter, k.adapter, Ring(j.context));
  }

  ghost predicate Nearer(s: Uring.State<Op>, t: Uring.State<Op>) {
    || |t.kernel| < |s.kernel|
    || (t.kernel == s.kernel && 0 <= Unread(t) < Unread(s))
    || (t.kernel == s.kernel && 0 <= Unread(t) == Unread(s) && |Uncalled(t)| < |Uncalled(s)|)
  }

  lemma GoesNearer(s: Uring.State<Op>, e: Uring.Event<Op>)
    requires Uring.Inv(s) && Settles(s, e)
    ensures Nearer(s, Uring.Apply(s, e))
  {
    hide Uring.SqOps, Uring.Inv;
    if e.Call? {
      CallNearer(s, e.frame);
    }
  }

  lemma CallNearer(s: Uring.State<Op>, f: nat)
    requires Uring.Inv(s) && Settles(s, Uring.Call(f))
    ensures Nearer(s, Uring.Apply(s, Uring.Call(f)))
  {
    hide Uring.SqOps;
    NextCall(s, f);
    hide Uring.Inv;
    var op, t := s.frames[f].batch[s.frames[f].called], Uring.Called(s, f);
    assert Uncalled(t) == Uncalled(s) - {op} && op in Uncalled(s);
  }

  /** Nothing is with the kernel, completed or about to be called back: newcomers fill the ring up. */
  lemma FillSettled(j: Joint)
    requires Coupled(j) && Strays(j.adapter, Ring(j.context)) > Spare(j)
    requires j.context.kernel == [] && j.context.cqHead == |j.context.cqLog|
    requires forall f: nat :: !Frames.Runs(j.context.frames, f)
    ensures CanOverflow(j)
  {
    hide CanOverflow;
    forall op | op in Covered(j.adapter)
      ensures op in OpsOf(Ring(j.context))
    {
      OutstandingIsStaged(j, op);
    }
    HeldAndStrays(j.adapter, Ring(j.context), Covered(j.adapter));
    var bound := Above(j.context.claimed);
    hide Strays;
    var events, y := FillLane(j.adapter, |j.context.sqLog| - j.context.sqHead - Spare(j), bound);
    hide Coupled, Fills;
    Realizes(j, bound, events, y);
  }

  lemma OutstandingIsStaged(j: Joint, op: Op)
    requires Coupled(j) && j.context.kernel == [] && j.context.cqHead == |j.context.cqLog|
    requires (forall f: nat :: !Frames.Runs(j.context.frames, f)) && Outstanding(j.adapter, op)
    ensures op in OpsOf(Ring(j.context))
  {
    var s := j.context;
    Frames.RestUnlessRuns(s.frames);
    Frames.NothingWaits(s.frames);
    Uring.InvPartitions(s);
    LaneNames(s.sqLog[s.sqHead..]);
    hide Frames.Waiting;
    assert op in multiset(Uring.SqOps(s.sqLog));
    assert Uring.SqOps(s.kernel) == [] && Uring.CqOps(s.cqLog[s.cqHead..]) == [];
    hide Uring.SqOps, Uring.CqOps;
    assert op in multiset(Uring.SqOps(s.sqLog[s.sqHead..]));
  }

  ghost predicate Ready(j: Joint, bound: Op) {
    Coupled(j) && NoneFrom(j.context.claimed, j.adapter.submitted, bound)
  }

  lemma {:induction false} Realizes(j: Joint, bound: Op, events: seq<Event>, y: Op)
    requires Ready(j, bound) && |j.context.sqLog| - j.context.sqHead >= Spare(j)
    requires Fills(j.adapter, |j.context.sqLog| - j.context.sqHead - Spare(j), bound, events, y)
    ensures CanOverflow(j)
    decreases |events|
  {
    hide CanStep, After1, Ready, Apply;
    if events == [] {
      OverflowsNow(j, bound, y);
    } else {
      var e := events[0];
      FillsRest(j.adapter, |j.context.sqLog| - j.context.sqHead - Spare(j), bound, events, y);
      hide CanOverflow, Fills;
      if e.Submit? {
        var op :| op in e.ops && op >= bound && e.ops == {op};
        assert e == Submit({op});
        if HasRoom(j, 1) {
          var step := NewcomerStages(j, bound, op);
          Realizes(After1(j, step), bound, events[1..], y);
          OverflowsLater(j, step);
        } else {
          OverflowsNow(j, bound, op);
        }
      } else {
        TaskGoes(j, bound, e);
        Realizes(After1(j, OfTask(e)), bound, events[1..], y);
        OverflowsLater(j, OfTask(e));
      }
    }
  }

  lemma OverflowsNow(j: Joint, bound: Op, op: Op)
    requires Ready(j, bound) && Enabled(j.adapter, Submit({op})) && op >= bound && !HasRoom(j, 1)
    ensures CanOverflow(j)
  {
    assert Overflowing(j, [], op);
  }

  lemma TaskGoes(j: Joint, bound: Op, e: Event)
    requires Ready(j, bound) && Enabled(j.adapter, e) && Filling(e, bound) && !e.Submit?
    ensures CanStep(j, OfTask(e)) && !Loosening(OfTask(e))
    ensures var k := After1(j, OfTask(e));
      Ready(k, bound) && k == j.(adapter := Apply(j.adapter, e)) && Spare(k) == Spare(j)
  {
    StepCoupled(j, OfTask(e));
    hide Coupled;
  }

  lemma NewcomerStages(j: Joint, bound: Op, op: Op) returns (step: Step)
    requires Ready(j, bound) && Enabled(j.adapter, Submit({op})) && op >= bound && HasRoom(j, 1)
    ensures CanStep(j, step) && !Loosening(step)
    ensures var k := After1(j, step);
      && Ready(k, bound) && k.adapter == Apply(j.adapter, Submit({op})) && Spare(k) == Spare(j)
      && |k.context.sqLog| - k.context.sqHead == |j.context.sqLog| - j.context.sqHead + 1
  {
    var entry := Uring.Sqe(Uring.Nop, 0, 0, Uring.NoTarget, 0, false, Uring.OpTag(op));
    Uring.SqOpsOne(entry);
    assert ToSet([op]) == {op};
    hide Uring.SqOps, Coupled;
    step := OfContext(Uring.Submit([entry]));
    StageOne(j, bound, op, entry);
    StepCoupled(j, step);
    hide Uring.Enabled, ToSet, NoneFrom;
  }

  lemma StageOne(j: Joint, bound: Op, op: Op, entry: Uring.Sqe<Op>)
    requires Ready(j, bound) && Enabled(j.adapter, Submit({op})) && op >= bound && HasRoom(j, 1)
    requires entry.tag == Uring.OpTag(op) && Uring.SqOps([entry]) == [op] && ToSet([op]) == {op}
    ensures Uring.Bounded(j.context) && CanStep(j, OfContext(Uring.Submit([entry])))
    ensures NoneFrom(j.context.claimed + {op}, j.adapter.submitted + {op}, bound)
  {
    hide Uring.SqOps;
  }

  // ----------------------------------------------------------------- two such runs

  function EntryFor(op: Op): Uring.Sqe<Op> {
    Uring.Sqe(Uring.Nop, 0, 0, Uring.NoTarget, 0, false, Uring.OpTag(op))
  }

  function CancelFor(op: Op): Uring.Sqe<Op> {
    Uring.Sqe(Uring.AsyncCancel, 0, 0, Uring.CancelOf(op), 0, false, Uring.CancelTag)
  }

  /** A task submits, and its submit raises although the entry is staged: the flush has failed. */
  function Raises(op: Op): seq<Step> {
    [OfTask(Acquire(op)), OfContext(Uring.Submit([EntryFor(op)])), OfTask(RaiseAfterSubmit(op))]
  }

  lemma RaiseSteps(j: Joint, op: Op)
    requires j.adapter.holders == {} && j.adapter.permits == 1 && op !in j.adapter.submitted && op !in j.adapter.called
    requires op !in j.context.claimed && Uring.Bounded(j.context) && HasRoom(j, 1)
    ensures Run(j, Raises(op))
    ensures var k, s := End(j, Raises(op)), j.context;
      k == Joint(j.entries, j.adapter.(submitted := j.adapter.submitted + {op}),
                 s.(claimed := s.claimed + {op}, sqLog := s.sqLog + [EntryFor(op)], refs := s.refs + 1))
  {
    var run := Raises(op);
    assert {} + {op} - {op} == {};
    var j1 := After1(j, run[0]);
    var j2 := StageOwn(j1, op);
    var j3 := After1(j2, run[2]);
    hide CanStep, After1;
    RunFrom(run, j2, j3, 2);
    RunFrom(run, j1, j2, 1);
    RunFrom(run, j, j1, 0);
    assert run[0..] == run;
  }

  /** One permit, and so a ring of two entries: after two submits that raised with their entries staged, the next task
      is let in and finds the ring full. */
  lemma RaisedSubmitOverfills(a: Op, b: Op, c: Op)
    requires a != b && b != c && a != c
    ensures var run := Raises(a) + Raises(b) + [OfTask(Acquire(c))];
      && Run(Start(1, 2, {}), run)
      && var j := End(Start(1, 2, {}), run); Overflows(j, c) && |j.context.sqLog| - j.context.sqHead == j.entries
  {
    hide Raises, EntryFor;
    var start := Start(1, 2, {});
    RaiseBoth(a, b);
    var j := End(start, Raises(a) + Raises(b));
    RunFrom([OfTask(Acquire(c))], j, After1(j, OfTask(Acquire(c))), 0);
    assert [OfTask(Acquire(c))][0..] == [OfTask(Acquire(c))];
    RunConcat(start, Raises(a) + Raises(b), [OfTask(Acquire(c))]);
  }

  lemma RaiseBoth(a: Op, b: Op)
    requires a != b
    ensures Run(Start(1, 2, {}), Raises(a) + Raises(b))
    ensures var k := End(Start(1, 2, {}), Raises(a) + Raises(b));
      && k.entries == 2 && k.adapter == State(1, {}, {a, b}, {}) && k.context.claimed == {a, b}
      && k.context.sqLog == [EntryFor(a), EntryFor(b)] && k.context.sqHead == 0
  {
    hide Raises, EntryFor, Run, End, CanStep, After1;
    RaiseSteps(Start(1, 2, {}), a);
    RaiseSteps(End(Start(1, 2, {}), Raises(a)), b);
    RunConcat(Start(1, 2, {}), Raises(a), Raises(b));
    assert {} + {a} + {b} == {a, b};
  }

  /** A task submits and the kernel takes its request; the request completes and is called back. */
  function Starts(op: Op): seq<Step> {
    [OfTask(Acquire(op)), OfContext(Uring.Submit([EntryFor(op)])), OfContext(Uring.Consume)]
  }

  function Completes(frame: nat): seq<Step> {
    [OfContext(Uring.Post(0, 0)), OfContext(Uring.Collect(0, 1)), OfContext(Uring.Call(frame))]
  }

  function Cancels(a: Op, b: Op): seq<Step> {
    [CancelAndLeave(a, CancelFor(a)), CancelAndLeave(b, CancelFor(b))]
  }

  /** Everything so far is over. */
  predicate Over(s: Uring.State<Op>) {
    s.sqHead == |s.sqLog| && s.kernel == [] && s.cqHead == |s.cqLog|
  }

  lemma StageOwn(j: Joint, op: Op) returns (k: Joint)
    requires op in j.adapter.holders && op !in j.adapter.submitted && op !in j.context.claimed
    requires Uring.Bounded(j.context) && HasRoom(j, 1)
    ensures var step := OfContext(Uring.Submit([EntryFor(op)])); CanStep(j, step) && k == After1(j, step)
    ensures var s := j.context;
      k == Joint(j.entries, j.adapter.(submitted := j.adapter.submitted + {op}),
                 s.(claimed := s.claimed + {op}, sqLog := s.sqLog + [EntryFor(op)], refs := s.refs + 1))
  {
    Uring.SqOpsOne(EntryFor(op));
    assert ToSet([op]) == {op};
    hide Uring.SqOps;
    k := After1(j, OfContext(Uring.Submit([EntryFor(op)])));
  }

  lemma StartSteps(j: Joint, op: Op)
    requires Enabled(j.adapter, Acquire(op)) && op !in j.context.claimed && Over(j.context) && HasRoom(j, 1)
    ensures Run(j, Starts(op))
    ensures var k, s := End(j, Starts(op)), j.context;
      && k.entries == j.entries
      && k.adapter == j.adapter.(holders := j.adapter.holders + {op}, submitted := j.adapter.submitted + {op})
      && k.context == s.(claimed := s.claimed + {op}, sqLog := s.sqLog + [EntryFor(op)], sqHead := s.sqHead + 1,
                         refs := s.refs + 1, kernel := [EntryFor(op)])
  {
    var run := Starts(op);
    var j1 := After1(j, run[0]);
    var j2 := StageOwn(j1, op);
    var j3 := After1(j2, run[2]);
    hide CanStep, After1;
    RunFrom(run, j2, j3, 2);
    RunFrom(run, j1, j2, 1);
    RunFrom(run, j, j1, 0);
    assert run[0..] == run;
  }

  lemma CompleteSteps(j: Joint, op: Op)
    requires j.context.kernel == [EntryFor(op)] && Uring.Bounded(j.context) && j.context.cqHead == |j.context.cqLog|
    requires op in j.adapter.submitted && op !in j.adapter.called
    ensures Run(j, Completes(|j.context.frames|))
    ensures var k := End(j, Completes(|j.context.frames|));
      && k.entries == j.entries && k.adapter == j.adapter.(called := j.adapter.called + {op})
      && k.context.sqLog == j.context.sqLog && k.context.sqHead == j.context.sqHead
      && k.context.claimed == j.context.claimed
      && k.context.kernel == [] && k.context.cqHead == |k.context.cqLog|
  {
    hide Uring.CqOps, Uring.SqOps;
    var run, n := Completes(|j.context.frames|), |j.context.frames|;
    var j1 := After1(j, run[0]);
    assert j1.context.cqLog[j1.context.cqHead..j1.context.cqHead + 1] == [Uring.Cqe(Uring.OpTag(op), 0)];
    var j2 := CollectOne(j1, op);
    var j3 := After1(j2, OfContext(Uring.Call(n)));
    hide CanStep, After1, Uring.Bounded;
    RunFrom(run, j2, j3, 2);
    RunFrom(run, j1, j2, 1);
    RunFrom(run, j, j1, 0);
    assert run[0..] == run;
  }

  lemma CollectOne(j: Joint, op: Op) returns (k: Joint)
    requires j.context.cqHead + 1 == |j.context.cqLog| && Uring.Bounded(j.context)
    requires j.context.cqLog[j.context.cqHead..j.context.cqHead + 1] == [Uring.Cqe(Uring.OpTag(op), 0)]
    ensures CanStep(j, OfContext(Uring.Collect(0, 1))) && k == After1(j, OfContext(Uring.Collect(0, 1)))
    ensures k.adapter == j.adapter && k.entries == j.entries && Uring.Bounded(k.context)
    ensures k.context.sqLog == j.context.sqLog && k.context.sqHead == j.context.sqHead
    ensures k.context.claimed == j.context.claimed && k.context.kernel == j.context.kernel
    ensures k.context.cqLog == j.context.cqLog && k.context.cqHead == |k.context.cqLog|
    ensures k.context.frames == j.context.frames + [Frames.Frame(0, [op], 0)]
  {
    Uring.CqOpsOne(Uring.Cqe(Uring.OpTag(op), 0));
    hide Uring.CqOps;
    k := After1(j, OfContext(Uring.Collect(0, 1)));
  }

  function Serves(op: Op, frame: nat): seq<Step> {
    Starts(op) + Completes(frame)
  }

  lemma ServeSteps(j: Joint, op: Op)
    requires Enabled(j.adapter, Acquire(op)) && op !in j.context.claimed && Over(j.context) && HasRoom(j, 1)
    requires op !in j.adapter.called
    ensures Run(j, Serves(op, |j.context.frames|))
    ensures var k := End(j, Serves(op, |j.context.frames|));
      && k.entries == j.entries && Over(k.context) && k.context.claimed == j.context.claimed + {op}
      && k.context.sqLog == j.context.sqLog + [EntryFor(op)]
      && k.adapter == State(j.adapter.permits, j.adapter.holders + {op}, j.adapter.submitted + {op},
                            j.adapter.called + {op})
  {
    StartSteps(j, op);
    var i := End(j, Starts(op));
    CompleteSteps(i, op);
    hide Starts, Completes;
    RunConcat(j, Starts(op), Completes(|j.context.frames|));
  }

  lemma CancelSteps(j: Joint, a: Op, b: Op)
    requires a != b && j.adapter == State(3, {a, b}, {a, b}, {a, b}) && j.entries == 4
    requires j.context.sqLog == [EntryFor(a), EntryFor(b)] && Over(j.context)
    ensures Run(j, Cancels(a, b))
    ensures var k := End(j, Cancels(a, b));
      && k.adapter == State(3, {}, {a, b}, {a, b}) && k.entries == 4
      && k.context.sqLog == [EntryFor(a), EntryFor(b), CancelFor(a), CancelFor(b)] && k.context.sqHead == 2
      && k.context.kernel == []
  {
    var run := Cancels(a, b);
    var j1 := After1(j, run[0]);
    var j2 := After1(j1, run[1]);
    assert {a, b} - {a} - {b} == {};
    RunFrom(run, j1, j2, 1);
    RunFrom(run, j, j1, 0);
    assert run[0..] == run;
  }

  /** Three permits, and so a ring of four entries.  Two tasks are served up to their callbacks, and then cancelled
      before they have gone on: with no Operation ever loose, their two cancel entries are enough for a later task to
      find the ring full. */
  lemma CancelEntriesOverfill(a: Op, b: Op) returns (run: seq<Step>)
    requires a != b
    ensures Run(Start(3, 4, {}), run)
    ensures var j := End(Start(3, 4, {}), run);
      AllOutstanding(j.adapter) == {} && j.context.kernel == [] && CanOverflow(j)
  {
    hide Serves, Cancels, CanOverflow, EntryFor, CancelFor, Run, End, CanStep, After1;
    var start := Start(3, 4, {});
    var served := ServeBoth(a, b);
    CancelSteps(End(start, served), a, b);
    run := served + Cancels(a, b);
    RunConcat(start, served, Cancels(a, b));
    ThenOverflows(run, a, b);
  }

  lemma ServeBoth(a: Op, b: Op) returns (run: seq<Step>)
    requires a != b
    ensures Run(Start(3, 4, {}), run)
    ensures var k := End(Start(3, 4, {}), run);
      && k.adapter == State(3, {a, b}, {a, b}, {a, b}) && k.entries == 4
      && k.context.sqLog == [EntryFor(a), EntryFor(b)] && Over(k.context)
  {
    hide Serves, EntryFor, Run, End, CanStep, After1;
    var start := Start(3, 4, {});
    ServeSteps(start, a);
    var i := End(start, Serves(a, 0));
    ServeSteps(i, b);
    run := Serves(a, 0) + Serves(b, |i.context.frames|);
    RunConcat(start, Serves(a, 0), Serves(b, |i.context.frames|));
    assert {} + {a} + {b} == {a, b};
  }

  lemma ThenOverflows(run: seq<Step>, a: Op, b: Op)
    requires Run(Start(3, 4, {}), run)
    requires var k := End(Start(3, 4, {}), run);
      && k.adapter == State(3, {}, {a, b}, {a, b}) && k.entries == 4
      && k.context.sqLog == [EntryFor(a), EntryFor(b), CancelFor(a), CancelFor(b)] && k.context.sqHead == 2
    ensures CanOverflow(End(Start(3, 4, {}), run))
  {
    StartCoupled(3, 4, {});
    RunCoupled(Start(3, 4, {}), run);
    var j := End(Start(3, 4, {}), run);
    TwoStrays(j.adapter, a, b);
    assert j.context.sqLog[2..] == [CancelFor(a), CancelFor(b)];
    OverflowExact(j);
  }

  lemma TwoStrays(s: State, a: Op, b: Op)
    ensures Strays(s, LaneOf([CancelFor(a), CancelFor(b)])) == 2
  {
    var lane := LaneOf([CancelFor(a), CancelFor(b)]);
    assert lane == [None, None] && lane[..1] == [None];
    assert Strays(s, [None]) == 1;
  }

  lemma {:induction false} RunConcat(j: Joint, xs: seq<Step>, ys: seq<Step>)
    requires Run(j, xs) && Run(End(j, xs), ys)
    ensures Run(j, xs + ys) && End(j, xs + ys) == End(End(j, xs), ys)
    decreases |xs|
  {
    hide CanStep, After1;
    if xs == [] {
      assert xs + ys == ys;
    } else {
      assert (xs + ys)[1..] == xs[1..] + ys && (xs + ys)[0] == xs[0];
      RunConcat(After1(j, xs[0]), xs[1..], ys);
    }
  }

  lemma RunFrom(run: seq<Step>, j: Joint, k: Joint, i: nat)
    requires i < |run| && CanStep(j, run[i]) && k == After1(j, run[i]) && Run(k, run[i + 1..])
    ensures Run(j, run[i..]) && End(j, run[i..]) == End(k, run[i + 1..])
  {
  }
}
