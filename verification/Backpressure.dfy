/** The semaphore of the asyncio adapters, for any backend.

    A task holds the semaphore from before its submit until its future is
    resolved, which the Operation's callback does - unless the task leaves
    earlier: because it is cancelled, or because its submit raises although the
    backend already has the Operation.  Such an Operation is loose: nobody's
    permit covers it any more. */
module Backpressure {
  type Op = nat

  /** The adapter: Operations are submitted once each. */
  datatype State = State(
    permits: nat,
    holders: set<Op>,       // tasks inside `async with self.semaphore`
    submitted: set<Op>,     // the backend has, or had, the Operation
    called: set<Op>)        // its callback came, so that the future is resolved

  datatype Event =
    | Acquire(op: Op)
    | Submit(ops: set<Op>)             // one Operation, or the deferred batch
    | Withdraw(op: Op)                 // the backend gives a claim back
    | Callback(op: Op)
    | Leave(op: Op)
    | Abandon(op: Op)                  // left before the backend had the Operation
    | CancelTask(op: Op)
    | RaiseAfterSubmit(op: Op)

  function Init(permits: nat): State {
    State(permits, {}, {}, {})
  }

  predicate Enabled(s: State, e: Event) {
    match e
    case Acquire(op) => |s.holders| < s.permits && op !in s.holders && op !in s.submitted
    case Submit(ops) => ops <= s.holders && ops !! s.submitted
    case Withdraw(op) => op in s.submitted && op !in s.called
    case Callback(op) => op in s.submitted && op !in s.called
    case Leave(op) => op in s.holders && op in s.called
    case Abandon(op) => op in s.holders && op !in s.submitted
    case CancelTask(op) => op in s.holders && Outstanding(s, op)
    case RaiseAfterSubmit(op) => op in s.holders && Outstanding(s, op)
  }

  function Apply(s: State, e: Event): State {
    match e
    case Acquire(op) => s.(holders := s.holders + {op})
    case Submit(ops) => s.(submitted := s.submitted + ops)
    case Withdraw(op) => s.(submitted := s.submitted - {op})
    case Callback(op) => s.(called := s.called + {op})
    case Leave(op) => s.(holders := s.holders - {op})
    case Abandon(op) => s.(holders := s.holders - {op})
    case CancelTask(op) => s.(holders := s.holders - {op})
    case RaiseAfterSubmit(op) => s.(holders := s.holders - {op})
  }

  predicate Loosens(e: Event) {
    e.CancelTask? || e.RaiseAfterSubmit?
  }

  /** What the tasks do by themselves; the other steps are the backend's. */
  predicate OfTasks(e: Event) {
    e.Acquire? || e.Leave? || e.Abandon? || Loosens(e)
  }

  datatype Echo = Silent | Heard(e: Event)

  /** The adapter after a step of the backend. */
  function Hear(s: State, echo: Echo): State {
    if echo.Heard? then Apply(s, echo.e) else s
  }

  ghost predicate Legal(s: State, events: seq<Event>)
    decreases |events|
  {
    events == [] || (Enabled(s, events[0]) && Legal(Apply(s, events[0]), events[1..]))
  }

  function After(s: State, events: seq<Event>): State
    decreases |events|
  {
    if events == [] then s else After(Apply(s, events[0]), events[1..])
  }

  /** With the backend, and not called back. */
  predicate Outstanding(s: State, op: Op) {
    op in s.submitted && op !in s.called
  }

  function AllOutstanding(s: State): set<Op> {
    s.submitted - s.called
  }

  predicate Loose(s: State, op: Op) {
    Outstanding(s, op) && op !in s.holders
  }

  ghost predicate NoneLoose(s: State) {
    forall op :: Outstanding(s, op) ==> op in s.holders
  }

  /** The backend is asked for `ops` with more in its hands than there are permits. */
  predicate Overfull(s: State, ops: set<Op>) {
    Enabled(s, Submit(ops)) && ops != {} && |AllOutstanding(s)| + |ops| > s.permits
  }

  /** What is called was submitted, and there are no more holders than permits. */
  predicate Sound(s: State) {
    s.called <= s.submitted && |s.holders| <= s.permits
  }

  lemma StepSound(s: State, e: Event)
    requires Sound(s) && Enabled(s, e)
    ensures Sound(Apply(s, e)) && Apply(s, e).permits == s.permits
  {
  }

  lemma InitSound(permits: nat)
    ensures Sound(Init(permits)) && NoneLoose(Init(permits))
  {
  }

  lemma StepHeld(s: State, e: Event)
    requires NoneLoose(s) && Enabled(s, e) && !Loosens(e)
    ensures NoneLoose(Apply(s, e))
  {
  }

  lemma {:induction false} Smaller<T>(a: set<T>, b: set<T>)
    requires a <= b
    ensures |a| <= |b|
  {
    if a != {} {
      var x :| x in a;
      Smaller(a - {x}, b - {x});
    }
  }

  /** While every outstanding Operation has its holder, the backend is never asked for too much. */
  lemma HeldMeansRoom(s: State, ops: set<Op>)
    requires Sound(s) && NoneLoose(s) && Enabled(s, Submit(ops))
    ensures |AllOutstanding(s)| + |ops| <= s.permits
  {
    assert AllOutstanding(s) !! ops;
    assert |AllOutstanding(s) + ops| == |AllOutstanding(s)| + |ops|;
    Smaller(AllOutstanding(s) + ops, s.holders);
  }

  /** Some run from `s` in which no further task leaves early overfills the backend; a plain one, without the backend
      giving a claim back. */
  ghost predicate CanOverfill(s: State, plain: bool) {
    exists events: seq<Event>, ops: set<Op> :: Overfills(s, events, ops, plain)
  }

  ghost predicate Overfills(s: State, events: seq<Event>, ops: set<Op>, plain: bool) {
    && Legal(s, events) && Overfull(After(s, events), ops)
    && forall e :: e in events ==> !Loosens(e) && !(plain && e.Withdraw?)
  }

  /** Overfilling is possible exactly when some Operation is loose. */
  lemma OverfillExact(s: State, plain: bool)
    requires Sound(s) && s.permits > 0
    ensures CanOverfill(s, plain) <==> exists op :: Loose(s, op)
  {
    if op :| Loose(s, op) {
      FillUp(s, op, plain);
    } else if CanOverfill(s, plain) {
      var events: seq<Event>, ops: set<Op> :| Overfills(s, events, ops, plain);
      assert forall op :: Outstanding(s, op) ==> !Loose(s, op);
      HeldNeverOverfills(s, events, ops);
    }
  }

  lemma {:induction false} HeldNeverOverfills(s: State, events: seq<Event>, ops: set<Op>)
    requires Sound(s) && NoneLoose(s) && Legal(s, events) && forall e :: e in events ==> !Loosens(e)
    ensures !Overfull(After(s, events), ops)
    decreases |events|
  {
    if events == [] {
      if Enabled(s, Submit(ops)) {
        HeldMeansRoom(s, ops);
      }
    } else {
      assert events[0] in events;
      StepSound(s, events[0]);
      StepHeld(s, events[0]);
      HeldNeverOverfills(Apply(s, events[0]), events[1..], ops);
    }
  }

  lemma OverfillLater(s: State, e: Event, plain: bool)
    requires Enabled(s, e) && !Loosens(e) && !e.Withdraw? && CanOverfill(Apply(s, e), plain)
    ensures CanOverfill(s, plain)
  {
    var events: seq<Event>, ops: set<Op> :| Overfills(Apply(s, e), events, ops, plain);
    assert ([e] + events)[1..] == events;
    assert Overfills(s, [e] + events, ops, plain);
  }

  lemma OverfillNow(s: State, op: Op, plain: bool)
    requires op in s.holders && op !in s.submitted && |AllOutstanding(s)| >= s.permits
    ensures CanOverfill(s, plain)
  {
    assert Overfills(s, [], {op}, plain);
  }

  lemma {:induction false} Above(ops: set<Op>) returns (y: Op)
    ensures forall op :: op in ops ==> op < y
  {
    y := 0;
    if op :| op in ops {
      var z := Above(ops - {op});
      y := if op < z then z else op + 1;
      assert forall x :: x in ops ==> x == op || x in ops - {op};
    }
  }

  /** Outstanding Operations that a permit covers. */
  function Covered(s: State): set<Op> {
    s.holders * AllOutstanding(s)
  }

  lemma SubmitCovers(s: State, h: Op)
    requires Sound(s) && h in s.holders && h !in s.submitted
    ensures |Covered(Apply(s, Submit({h})))| == |Covered(s)| + 1 <= s.permits
  {
    var t := Apply(s, Submit({h}));
    assert Covered(t) == Covered(s) + {h};
    Smaller(Covered(t), s.holders);
  }

  lemma AcquireCovers(s: State, y: Op)
    requires y !in s.submitted
    ensures Covered(Apply(s, Acquire(y))) == Covered(s)
  {
  }

  lemma LeaveShrinks(s: State, h: Op)
    requires Sound(s) && h in s.holders && h in s.called
    ensures var t := Apply(s, Leave(h));
      Covered(t) == Covered(s) && |t.holders * t.called| < |s.holders * s.called| && |Covered(s)| <= s.permits
  {
    var t := Apply(s, Leave(h));
    assert Covered(t) == Covered(s);
    assert t.holders * t.called == s.holders * s.called - {h} && h in s.holders * s.called;
    Smaller(Covered(s), s.holders);
  }

  /** Whoever was called back leaves, whoever has not submitted does, and new tasks take the free permits: then the
      loose Operation is one too many. */
  lemma {:induction false} FillUp(s: State, loose: Op, plain: bool)
    requires Sound(s) && s.permits > 0 && Loose(s, loose)
    ensures CanOverfill(s, plain)
    decreases s.permits - |Covered(s)|, |s.holders * s.called|
  {
    hide CanOverfill, Covered;
    if h :| h in s.holders && h in s.called {
      LeaveShrinks(s, h);
      FillUp(Apply(s, Leave(h)), loose, plain);
      OverfillLater(s, Leave(h), plain);
    } else if h :| h in s.holders && h !in s.submitted {
      if |AllOutstanding(s)| >= s.permits {
        OverfillNow(s, h, plain);
      } else {
        SubmitCovers(s, h);
        FillUp(Apply(s, Submit({h})), loose, plain);
        OverfillLater(s, Submit({h}), plain);
      }
    } else {
      var y := Above(s.holders + s.submitted);
      assert y !in s.holders + s.submitted;
      if |s.holders| == s.permits {
        LastPermit(s, y, loose, plain);
      } else {
        var t := Apply(s, Acquire(y));
        if |AllOutstanding(t)| >= t.permits {
          OverfillNow(t, y, plain);
        } else {
          AcquireCovers(s, y);
          SubmitCovers(t, y);
          FillUp(Apply(t, Submit({y})), loose, plain);
          OverfillLater(t, Submit({y}), plain);
        }
        OverfillLater(s, Acquire(y), plain);
      }
    }
  }

  /** Every permit covers an outstanding Operation: one of them is called back, and its permit changes hands. */
  lemma LastPermit(s: State, y: Op, loose: Op, plain: bool)
    requires Sound(s) && s.permits > 0 && Loose(s, loose) && |s.holders| == s.permits
    requires forall h :: h in s.holders ==> Outstanding(s, h)
    requires y !in s.holders && y !in s.submitted
    ensures CanOverfill(s, plain)
  {
    hide CanOverfill;
    var h :| h in s.holders;
    var s1 := Apply(s, Callback(h));
    var s2 := Apply(s1, Leave(h));
    var s3 := Apply(s2, Acquire(y));
    Smaller(s.holders - {h} + {loose}, AllOutstanding(s3));
    assert |s.holders - {h} + {loose}| == s.permits;
    OverfillNow(s3, y, plain);
    OverfillLater(s2, Acquire(y), plain);
    OverfillLater(s1, Leave(h), plain);
    OverfillLater(s, Callback(h), plain);
  }
}
