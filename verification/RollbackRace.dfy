/** Rolling back a claim while another Context is claiming the same Operation.

    A rollback clears the claim flag; then it reads the Context that the Operation
    points to, stores NULL, and drops what it read.  A claim takes the flag; then it
    drops the Context that the Operation points to, and then it stores its own.
    Under the interpreter lock both are indivisible; in a free-threaded build they
    can interleave.  Where a claim drops the old Context, reading the pointer and
    dropping what was read are one step, which falls at the reading. */
module RollbackRace {
  import opened Bags

  type Id = nat      // a Context

  datatype Holder = Nobody | Taken(c: Id) | Released(c: Id) | Claimed(c: Id) | Completed

  datatype Pointer = Null | To(c: Id)

  /** A rollback that has cleared the flag, and what it read and has stored NULL over. */
  datatype Rollback = Cleared(own: Id) | Read(own: Id, found: Pointer) | Nulled(own: Id, found: Pointer)

  /** One Operation, and the references taken and dropped through it. */
  datatype State = State(
    holder: Holder,
    context: Pointer,
    rollbacks: seq<Rollback>,
    taken: multiset<Id>,
    dropped: multiset<Id>)

  datatype Event =
    | TakeFlag(c: Id)
    | ReleaseOld
    | StoreContext
    | ClearFlag
    | ReadContext(i: nat)
    | NullContext(i: nat)
    | DropRead(i: nat)
    | Deliver

  predicate Enabled(s: State, e: Event) {
    match e
    case TakeFlag(_) => s.holder.Nobody?
    case ReleaseOld => s.holder.Taken?
    case StoreContext => s.holder.Released?
    case ClearFlag => s.holder.Claimed?
    case ReadContext(i) => i < |s.rollbacks| && s.rollbacks[i].Cleared?
    case NullContext(i) => i < |s.rollbacks| && s.rollbacks[i].Read?
    case DropRead(i) => i < |s.rollbacks| && s.rollbacks[i].Nulled?
    case Deliver => s.holder.Claimed?
  }

  function Named(p: Pointer): multiset<Id> {
    if p.To? then multiset{p.c} else multiset{}
  }

  /** `Py_CLEAR` does nothing, in particular stores nothing, when it reads NULL. */
  function Apply(s: State, e: Event): State
    requires Enabled(s, e)
  {
    match e
    case TakeFlag(c) => s.(holder := Taken(c))
    case ReleaseOld => s.(holder := Released(s.holder.c), dropped := s.dropped + Named(s.context))
    case StoreContext =>
      s.(holder := Claimed(s.holder.c), context := To(s.holder.c), taken := s.taken + multiset{s.holder.c})
    case ClearFlag => s.(holder := Nobody, rollbacks := s.rollbacks + [Cleared(s.holder.c)])
    case ReadContext(i) => s.(rollbacks := s.rollbacks[i := Read(s.rollbacks[i].own, s.context)])
    case NullContext(i) =>
      var r := s.rollbacks[i];
      s.(rollbacks := s.rollbacks[i := Nulled(r.own, r.found)], context := if r.found.To? then Null else s.context)
    case DropRead(i) =>
      s.(rollbacks := Without(s.rollbacks, i), dropped := s.dropped + Named(s.rollbacks[i].found))
    case Deliver => s.(holder := Completed, context := Null, dropped := s.dropped + Named(s.context))
  }

  /** The Contexts of rollbacks that have not dropped anything yet. */
  function Owners(rs: seq<Rollback>): multiset<Id> {
    if rs == [] then multiset{} else Owners(rs[..|rs| - 1]) + multiset{rs[|rs| - 1].own}
  }

  function Owed(s: State): multiset<Id> {
    Owners(s.rollbacks) + if s.holder.Claimed? then multiset{s.holder.c} else multiset{}
  }

  /** What was taken and not dropped is one reference for the claim that stands and one for each rollback under way. */
  predicate Conserved(s: State) {
    s.taken == s.dropped + Owed(s)
  }

  // ------------------------------------------------------------------ invariant

  /** A rollback that has not stored NULL yet. */
  predicate Midway(r: Rollback) {
    !r.Nulled?
  }

  function CountMidway(rs: seq<Rollback>): nat {
    if rs == [] then 0 else CountMidway(rs[..|rs| - 1]) + if Midway(rs[|rs| - 1]) then 1 else 0
  }

  /** What a rollback that is midway, or has read, has to do with the pointer. */
  predicate Sees(r: Rollback, context: Pointer) {
    (Midway(r) ==> context == To(r.own)) && (!r.Cleared? ==> r.found == To(r.own))
  }

  /** While a rollback is midway the pointer is its own, and there is no other. */
  ghost predicate Shape(holder: Holder, context: Pointer, rs: seq<Rollback>) {
    && (holder.Claimed? ==> context == To(holder.c))
    && CountMidway(rs) <= (if holder.Nobody? || holder.Taken? then 1 else 0)
    && (CountMidway(rs) == 0 && !holder.Claimed? ==> context == Null)
    && forall i :: 0 <= i < |rs| ==> Sees(rs[i], context)
  }

  ghost predicate Inv(s: State) {
    Conserved(s) && Shape(s.holder, s.context, s.rollbacks)
  }

  const START := State(Nobody, Null, [], multiset{}, multiset{})

  lemma Snoc(rs: seq<Rollback>, r: Rollback)
    ensures Owners(rs + [r]) == Owners(rs) + multiset{r.own}
    ensures CountMidway(rs + [r]) == CountMidway(rs) + if Midway(r) then 1 else 0
  {
  }

  lemma {:induction false} Updated(rs: seq<Rollback>, i: nat, r: Rollback)
    requires i < |rs| && r.own == rs[i].own
    ensures Owners(rs[i := r]) == Owners(rs)
    ensures CountMidway(rs[i := r]) + (if Midway(rs[i]) then 1 else 0) == CountMidway(rs) + if Midway(r) then 1 else 0
  {
    var n := |rs| - 1;
    if i < n {
      Updated(rs[..n], i, r);
      assert rs[i := r][..n] == rs[..n][i := r];
    } else {
      assert rs[i := r][..n] == rs[..n];
    }
  }

  lemma {:induction false} Removed(rs: seq<Rollback>, i: nat)
    requires i < |rs|
    ensures Owners(rs) == Owners(Without(rs, i)) + multiset{rs[i].own}
    ensures CountMidway(rs) == CountMidway(Without(rs, i)) + if Midway(rs[i]) then 1 else 0
  {
    var n := |rs| - 1;
    assert rs == rs[..n] + [rs[n]];
    Snoc(rs[..n], rs[n]);
    if i < n {
      Removed(rs[..n], i);
      assert Without(rs, i) == Without(rs[..n], i) + [rs[n]];
      Snoc(Without(rs[..n], i), rs[n]);
    } else {
      assert Without(rs, i) == rs[..n];
    }
  }

  lemma {:induction false} NoneMidway(rs: seq<Rollback>, i: nat)
    requires CountMidway(rs) == 0 && i < |rs|
    ensures !Midway(rs[i])
  {
    if i < |rs| - 1 {
      NoneMidway(rs[..|rs| - 1], i);
    }
  }

  // ------------------------------------------------------------------- theorems

  /** A claim drops the old Context while a rollback is about to. */
  predicate Overtakes(s: State, e: Event) {
    e.ReleaseOld? && CountMidway(s.rollbacks) > 0
  }

  /** References are conserved by a step exactly when it does not drop the old Context in the middle of a rollback. */
  lemma StepExact(s: State, e: Event)
    requires Inv(s) && Enabled(s, e)
    ensures Conserved(Apply(s, e)) <==> !Overtakes(s, e)
    ensures !Overtakes(s, e) ==> Inv(Apply(s, e))
  {
    if Overtakes(s, e) {
      OvertakingLoses(s);
    } else {
      OthersKeep(s, e);
    }
  }

  /** The overtaking claim drops the reference that the rollback was about to drop. */
  lemma OvertakingLoses(s: State)
    requires Inv(s) && Overtakes(s, ReleaseOld) && Enabled(s, ReleaseOld)
    ensures !Conserved(Apply(s, ReleaseOld))
  {
    var i := SomeMidway(s.rollbacks);
    assert Sees(s.rollbacks[i], s.context);
    assert |s.taken| == |s.dropped| + |Owed(s)|;
    assert |Apply(s, ReleaseOld).dropped| == |s.dropped| + 1;
  }

  lemma {:induction false} SomeMidway(rs: seq<Rollback>) returns (i: nat)
    requires CountMidway(rs) > 0
    ensures i < |rs| && Midway(rs[i])
  {
    i := |rs| - 1;
    if !Midway(rs[i]) {
      i := SomeMidway(rs[..i]);
    }
  }

  lemma OthersKeep(s: State, e: Event)
    requires Inv(s) && Enabled(s, e) && !Overtakes(s, e)
    ensures Inv(Apply(s, e))
  {
    hide Owners, CountMidway;
    match e
    case ClearFlag => ClearKeeps(s);
    case ReadContext(i) => ReadKeeps(s, i);
    case NullContext(i) => NullKeeps(s, i);
    case DropRead(i) => DropKeeps(s, i);
    case StoreContext => StoreKeeps(s);
    case Deliver => NothingSees(s.rollbacks, s.context, Null);
    case _ =>
  }

  lemma ClearKeeps(s: State)
    requires Inv(s) && s.holder.Claimed?
    ensures Inv(Apply(s, ClearFlag))
  {
    hide Owners, CountMidway;
    Snoc(s.rollbacks, Cleared(s.holder.c));
    assert Owed(Apply(s, ClearFlag)) == Owed(s);
  }

  lemma ReadKeeps(s: State, i: nat)
    requires Inv(s) && Enabled(s, ReadContext(i))
    ensures Inv(Apply(s, ReadContext(i)))
  {
    hide Owners, CountMidway;
    Updated(s.rollbacks, i, Read(s.rollbacks[i].own, s.context));
    assert Sees(s.rollbacks[i], s.context);
  }

  lemma StoreKeeps(s: State)
    requires Inv(s) && s.holder.Released?
    ensures Inv(Apply(s, StoreContext))
  {
    hide Owners, CountMidway;
    NothingSees(s.rollbacks, s.context, To(s.holder.c));
    assert s.taken + multiset{s.holder.c} == s.dropped + (Owners(s.rollbacks) + multiset{s.holder.c});
  }

  /** With no rollback midway the pointer may change. */
  lemma NothingSees(rs: seq<Rollback>, context: Pointer, later: Pointer)
    requires CountMidway(rs) == 0 && forall i :: 0 <= i < |rs| ==> Sees(rs[i], context)
    ensures forall i :: 0 <= i < |rs| ==> Sees(rs[i], later)
  {
    forall i | 0 <= i < |rs|
      ensures Sees(rs[i], later)
    {
      NoneMidway(rs, i);
    }
  }

  lemma NullKeeps(s: State, i: nat)
    requires Inv(s) && Enabled(s, NullContext(i))
    ensures Inv(Apply(s, NullContext(i)))
  {
    hide Owners, CountMidway;
    var r := s.rollbacks[i];
    var rs := s.rollbacks[i := Nulled(r.own, r.found)];
    Updated(s.rollbacks, i, Nulled(r.own, r.found));
    NothingSees(rs, s.context, Null);
  }

  lemma DropKeeps(s: State, i: nat)
    requires Inv(s) && Enabled(s, DropRead(i))
    ensures Inv(Apply(s, DropRead(i)))
  {
    hide Owners, CountMidway, Without;
    Removed(s.rollbacks, i);
    SeesWithout(s.rollbacks, i, s.context);
    assert Owed(s) == Owed(Apply(s, DropRead(i))) + multiset{s.rollbacks[i].own};
  }

  lemma SeesWithout(rs: seq<Rollback>, i: nat, context: Pointer)
    requires i < |rs| && forall k :: 0 <= k < |rs| ==> Sees(rs[k], context)
    ensures Sees(rs[i], context) && forall k :: 0 <= k < |Without(rs, i)| ==> Sees(Without(rs, i)[k], context)
  {
    hide Sees;
    forall k | 0 <= k < |Without(rs, i)|
      ensures Sees(Without(rs, i)[k], context)
    {
      assert Without(rs, i)[k] == rs[if k < i then k else k + 1];
    }
  }

  ghost predicate Legal(s: State, events: seq<Event>)
    decreases |events|
  {
    events == [] || (Enabled(s, events[0]) && Legal(Apply(s, events[0]), events[1..]))
  }

  function After(s: State, events: seq<Event>): State
    requires Legal(s, events)
    decreases |events|
  {
    if events == [] then s else After(Apply(s, events[0]), events[1..])
  }

  /** References are conserved after every step of a run. */
  ghost predicate ConservedAlong(s: State, events: seq<Event>)
    requires Legal(s, events)
    decreases |events|
  {
    Conserved(s) && (events == [] || ConservedAlong(Apply(s, events[0]), events[1..]))
  }

  ghost predicate NeverOvertakes(s: State, events: seq<Event>)
    requires Legal(s, events)
    decreases |events|
  {
    events == [] || (!Overtakes(s, events[0]) && NeverOvertakes(Apply(s, events[0]), events[1..]))
  }

  lemma {:induction false} RunExactFrom(s: State, events: seq<Event>)
    requires Inv(s) && Legal(s, events)
    ensures ConservedAlong(s, events) <==> NeverOvertakes(s, events)
    decreases |events|
  {
    hide Conserved;
    if events != [] {
      StepExact(s, events[0]);
      if !Overtakes(s, events[0]) {
        RunExactFrom(Apply(s, events[0]), events[1..]);
      }
    }
  }

  /** Over whole runs, from a fresh Operation: conservation holds if and only if no claim drops the old Context
      between the clearing of the flag and the NULL of a rollback. */
  lemma RunExact(events: seq<Event>)
    requires Legal(START, events)
    ensures ConservedAlong(START, events) <==> NeverOvertakes(START, events)
  {
    RunExactFrom(START, events);
  }

  /** Claim and rollback of `a`, up to the cleared flag, and the claim of `b` up to dropping the old Context. */
  function Overtaking(a: Id, b: Id): seq<Event> {
    [TakeFlag(a), ReleaseOld, StoreContext, ClearFlag, TakeFlag(b), ReleaseOld]
  }

  lemma OvertakingSteps(a: Id, b: Id)
    ensures Legal(START, Overtaking(a, b))
    ensures After(START, Overtaking(a, b)) == State(Released(b), To(a), [Cleared(a)], multiset{a}, multiset{a})
  {
    var run := Overtaking(a, b);
    var s1 := START.(holder := Taken(a));
    var s2 := START.(holder := Released(a));
    var s3 := State(Claimed(a), To(a), [], multiset{a}, multiset{});
    var s4 := s3.(holder := Nobody, rollbacks := [Cleared(a)]);
    var s5 := s4.(holder := Taken(b));
    var s6 := s4.(holder := Released(b), dropped := multiset{a});
    RunFrom(run, s5, s6, 5);
    RunFrom(run, s4, s5, 4);
    RunFrom(run, s3, s4, 3);
    RunFrom(run, s2, s3, 2);
    RunFrom(run, s1, s2, 1);
    RunFrom(run, START, s1, 0);
    assert run[0..] == run;
  }

  /** Then the rollback may read the Context of the claim that stands, and drop that one. */
  lemma OvertakenRollbackDropsTheOther(a: Id, b: Id)
    ensures var run := Overtaking(a, b) + [StoreContext, ReadContext(0), NullContext(0), DropRead(0)];
      && Legal(START, run)
      && After(START, run) == State(Claimed(b), Null, [], multiset{a} + multiset{b}, multiset{a} + multiset{b})
  {
    OvertakingSteps(a, b);
    hide Overtaking;
    var run := [StoreContext, ReadContext(0), NullContext(0), DropRead(0)];
    var s0 := State(Released(b), To(a), [Cleared(a)], multiset{a}, multiset{a});
    var s1 := State(Claimed(b), To(b), [Cleared(a)], multiset{a} + multiset{b}, multiset{a});
    var s2 := s1.(rollbacks := [Read(a, To(b))]);
    var s3 := s1.(rollbacks := [Nulled(a, To(b))], context := Null);
    var s4 := State(Claimed(b), Null, [], multiset{a} + multiset{b}, multiset{a} + multiset{b});
    assert Without(s3.rollbacks, 0) == [];
    RunFrom(run, s3, s4, 3);
    RunFrom(run, s2, s3, 2);
    RunFrom(run, s1, s2, 1);
    RunFrom(run, s0, s1, 0);
    assert run[0..] == run;
    RunConcat(START, Overtaking(a, b), run);
  }

  /** Or it reads its own first, before the claim stores: one reference was taken on `a`, and two are dropped. */
  lemma OvertakenRollbackDropsTwice(a: Id, b: Id)
    requires a != b
    ensures var run := Overtaking(a, b) + [ReadContext(0), NullContext(0), DropRead(0), StoreContext];
      && Legal(START, run)
      && After(START, run) == State(Claimed(b), To(b), [], multiset{a} + multiset{b}, multiset{a} + multiset{a})
  {
    OvertakingSteps(a, b);
    hide Overtaking;
    var run := [ReadContext(0), NullContext(0), DropRead(0), StoreContext];
    var s0 := State(Released(b), To(a), [Cleared(a)], multiset{a}, multiset{a});
    var s1 := s0.(rollbacks := [Read(a, To(a))]);
    var s2 := s0.(rollbacks := [Nulled(a, To(a))], context := Null);
    var s3 := State(Released(b), Null, [], multiset{a}, multiset{a} + multiset{a});
    var s4 := State(Claimed(b), To(b), [], multiset{a} + multiset{b}, multiset{a} + multiset{a});
    assert Without(s2.rollbacks, 0) == [];
    RunFrom(run, s3, s4, 3);
    RunFrom(run, s2, s3, 2);
    RunFrom(run, s1, s2, 1);
    RunFrom(run, s0, s1, 0);
    assert run[0..] == run;
    RunConcat(START, Overtaking(a, b), run);
  }

  lemma RunFrom(run: seq<Event>, s: State, t: State, i: nat)
    requires i < |run| && Enabled(s, run[i]) && t == Apply(s, run[i]) && Legal(t, run[i + 1..])
    ensures Legal(s, run[i..]) && After(s, run[i..]) == After(t, run[i + 1..])
  {
  }

  lemma {:induction false} RunConcat(s: State, xs: seq<Event>, ys: seq<Event>)
    requires Legal(s, xs) && Legal(After(s, xs), ys)
    ensures Legal(s, xs + ys) && After(s, xs + ys) == After(After(s, xs), ys)
    decreases |xs|
  {
    if xs == [] {
      assert xs + ys == ys;
    } else {
      assert (xs + ys)[1..] == xs[1..] + ys && (xs + ys)[0] == xs[0];
      RunConcat(Apply(s, xs[0]), xs[1..], ys);
    }
  }
}
