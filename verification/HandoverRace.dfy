/** A thread-pool Context taking an Operation while another Context gives its own
    claim of it back, in a free-threaded build.

    A submit takes the claim flag, stores its Context in the Operation and offers
    it to its pool; a refused one clears the flag and only then stores NULL over
    the Context field.  The critical section is that of one Context, so another
    one can claim, store and queue the Operation between the two stores.  Its
    worker loads the field, and drops what it found there. */
module HandoverRace {
  import opened Bags

  type Id = nat      // a Context

  datatype Pointer = Null | To(c: Id)

  /** The claim that stands, from the flag to the worker's last drop. */
  datatype Holder =
    | Nobody
    | Taken(c: Id)
    | Stored(c: Id)
    | Queued(c: Id)
    | Refused(c: Id)
    | Running(c: Id, found: Pointer)
    | Finished(c: Id, found: Pointer)

  /** A refused claim that has cleared the flag; then it stores NULL, and drops its own Context. */
  datatype Rollback = Cleared(own: Id) | Nulled(own: Id)

  /** One Operation, and the references on Contexts taken and dropped for it. */
  datatype State = State(
    holder: Holder,
    ctx: Pointer,
    rollbacks: seq<Rollback>,
    taken: multiset<Id>,
    dropped: multiset<Id>)

  datatype Event =
    | TakeFlag(c: Id)
    | StoreCtx
    | Accept
    | Refuse
    | ClearFlag
    | LateNull(i: nat)
    | DropOwn(i: nat)
    | WorkerLoad
    | WorkerNull
    | WorkerDrop

  predicate Enabled(s: State, e: Event) {
    match e
    case TakeFlag(_) => s.holder.Nobody?
    case StoreCtx => s.holder.Taken?
    case Accept => s.holder.Stored?
    case Refuse => s.holder.Stored?
    case ClearFlag => s.holder.Refused?
    case LateNull(i) => i < |s.rollbacks| && s.rollbacks[i].Cleared?
    case DropOwn(i) => i < |s.rollbacks| && s.rollbacks[i].Nulled?
    case WorkerLoad => s.holder.Queued?
    case WorkerNull => s.holder.Running?
    case WorkerDrop => s.holder.Running?
  }

  function Named(p: Pointer): multiset<Id> {
    if p.To? then multiset{p.c} else multiset{}
  }

  function Apply(s: State, e: Event): State
    requires Enabled(s, e)
  {
    match e
    case TakeFlag(c) => s.(holder := Taken(c))
    case StoreCtx => s.(holder := Stored(s.holder.c), ctx := To(s.holder.c), taken := s.taken + multiset{s.holder.c})
    case Accept => s.(holder := Queued(s.holder.c))
    case Refuse => s.(holder := Refused(s.holder.c))
    case ClearFlag => s.(holder := Nobody, rollbacks := s.rollbacks + [Cleared(s.holder.c)])
    case LateNull(i) => s.(ctx := Null, rollbacks := s.rollbacks[i := Nulled(s.rollbacks[i].own)])
    case DropOwn(i) =>
      s.(rollbacks := Without(s.rollbacks, i), dropped := s.dropped + multiset{s.rollbacks[i].own})
    case WorkerLoad => s.(holder := Running(s.holder.c, s.ctx))
    case WorkerNull => s.(ctx := Null)
    case WorkerDrop =>
      s.(holder := Finished(s.holder.c, s.holder.found), dropped := s.dropped + Named(s.holder.found))
  }

  function Owners(rs: seq<Rollback>): multiset<Id> {
    if rs == [] then multiset{} else Owners(rs[..|rs| - 1]) + multiset{rs[|rs| - 1].own}
  }

  /** The reference of the claim that stands, until its worker is through or it is a rollback. */
  function Standing(holder: Holder): multiset<Id> {
    match holder
    case Stored(c) => multiset{c}
    case Queued(c) => multiset{c}
    case Refused(c) => multiset{c}
    case Running(c, _) => multiset{c}
    case _ => multiset{}
  }

  /** What was taken and not dropped is one reference for the claim that stands and one for each rollback. */
  predicate Conserved(s: State) {
    s.taken == s.dropped + (Owners(s.rollbacks) + Standing(s.holder))
  }

  const START := State(Nobody, Null, [], multiset{}, multiset{})

  ghost predicate Legal(s: State, events: seq<Event>)
    decreases |events|
  {
    events == [] || (Enabled(s, events[0]) && Legal(Apply(s, events[0]), events[1..]))
  }

  function After(s: State, events: seq<Event>): State
    requires Legal(s, events)
    decreases |events|
  {
    if events == [] then s else After(Apply(s, events[0]), events[1..])
  }

  // ------------------------------------------------------------------ invariant

  /** Whether the last store to the Context field was the NULL of another claim's rollback. */
  function Overwritten(events: seq<Event>, so: bool): bool
    decreases |events|
  {
    if events == [] then so
    else Overwritten(events[1..], Next(events[0], so))
  }

  function Next(e: Event, so: bool): bool {
    e.LateNull? || (so && !e.StoreCtx?)
  }

  /** Only the claim that stands is ever found in the field: itself, or NULL where it was overwritten. */
  predicate Inv(s: State, overwritten: bool) {
    && (s.holder.Stored? || s.holder.Queued? ==> s.ctx == if overwritten then Null else To(s.holder.c))
    && (s.holder.Running? || s.holder.Finished? ==> s.holder.found == Null || s.holder.found == To(s.holder.c))
    && s.taken == s.dropped + (Owners(s.rollbacks) + Unreturned(s.holder))
  }

  /** The claim's reference while it stands, and for ever if its worker found none to drop. */
  function Unreturned(holder: Holder): multiset<Id> {
    if holder.Finished? && holder.found.Null? then multiset{holder.c} else Standing(holder)
  }

  lemma OwnersSnoc(rs: seq<Rollback>, r: Rollback)
    ensures Owners(rs + [r]) == Owners(rs) + multiset{r.own}
  {
  }

  lemma {:induction false} OwnersUpdate(rs: seq<Rollback>, i: nat, r: Rollback)
    requires i < |rs| && r.own == rs[i].own
    ensures Owners(rs[i := r]) == Owners(rs)
  {
    var n := |rs| - 1;
    if i < n {
      OwnersUpdate(rs[..n], i, r);
      assert rs[i := r][..n] == rs[..n][i := r];
    } else {
      assert rs[i := r][..n] == rs[..n];
    }
  }

  lemma {:induction false} OwnersWithout(rs: seq<Rollback>, i: nat)
    requires i < |rs|
    ensures Owners(rs) == Owners(Without(rs, i)) + multiset{rs[i].own}
  {
    var n := |rs| - 1;
    assert rs == rs[..n] + [rs[n]];
    OwnersSnoc(rs[..n], rs[n]);
    if i < n {
      OwnersWithout(rs[..n], i);
      assert Without(rs, i) == Without(rs[..n], i) + [rs[n]];
      OwnersSnoc(Without(rs[..n], i), rs[n]);
    } else {
      assert Without(rs, i) == rs[..n];
    }
  }

  lemma StepKeeps(s: State, e: Event, so: bool)
    requires Inv(s, so) && Enabled(s, e)
    ensures Inv(Apply(s, e), Next(e, so))
  {
    hide Owners, Without;
    match e
    case ClearFlag => ClearKeeps(s, so);
    case LateNull(i) => OwnersUpdate(s.rollbacks, i, Nulled(s.rollbacks[i].own));
    case DropOwn(i) => DropKeeps(s, i, so);
    case StoreCtx => StoreKeeps(s, so);
    case WorkerDrop => WorkerDropKeeps(s, so);
    case _ =>
  }

  lemma ClearKeeps(s: State, so: bool)
    requires Inv(s, so) && s.holder.Refused?
    ensures Inv(Apply(s, ClearFlag), so)
  {
    hide Owners;
    OwnersSnoc(s.rollbacks, Cleared(s.holder.c));
    assert Owners(s.rollbacks) + multiset{s.holder.c} == Owners(s.rollbacks + [Cleared(s.holder.c)]) + multiset{};
  }

  lemma DropKeeps(s: State, i: nat, so: bool)
    requires Inv(s, so) && Enabled(s, DropOwn(i))
    ensures Inv(Apply(s, DropOwn(i)), so)
  {
    hide Owners, Without, Unreturned;
    OwnersWithout(s.rollbacks, i);
    var left, own := Owners(Without(s.rollbacks, i)), multiset{s.rollbacks[i].own};
    assert s.dropped + (left + own + Unreturned(s.holder)) == (s.dropped + own) + (left + Unreturned(s.holder));
  }

  lemma StoreKeeps(s: State, so: bool)
    requires Inv(s, so) && s.holder.Taken?
    ensures Inv(Apply(s, StoreCtx), false)
  {
    hide Owners;
    var own := multiset{s.holder.c};
    assert s.dropped + (Owners(s.rollbacks) + multiset{}) + own == s.dropped + (Owners(s.rollbacks) + own);
  }

  lemma WorkerDropKeeps(s: State, so: bool)
    requires Inv(s, so) && s.holder.Running?
    ensures Inv(Apply(s, WorkerDrop), so)
  {
    hide Owners;
    var own := multiset{s.holder.c};
    assert s.dropped + (Owners(s.rollbacks) + own) == (s.dropped + own) + (Owners(s.rollbacks) + multiset{});
  }

  lemma {:induction false} RunKeeps(s: State, events: seq<Event>, so: bool)
    requires Inv(s, so) && Legal(s, events)
    ensures Inv(After(s, events), Overwritten(events, so))
    decreases |events|
  {
    hide Inv, Next;
    if events != [] {
      StepKeeps(s, events[0], so);
      RunKeeps(Apply(s, events[0]), events[1..], Next(events[0], so));
    }
  }

  // ------------------------------------------------------------------- theorems

  /** In every run the worker finds its own Context if and only if no late NULL of another claim's rollback falls
      between the store of its claim and its load; otherwise it finds none. */
  lemma WorkerFindsOwnExact(events: seq<Event>)
    requires Legal(START, events) && Enabled(After(START, events), WorkerLoad)
    ensures var s := Apply(After(START, events), WorkerLoad);
      && (s.holder.found == To(s.holder.c) <==> !Overwritten(events, false))
      && (s.holder.found == Null <==> Overwritten(events, false))
  {
    RunKeeps(START, events, false);
  }

  /** So the references of all claims, accepted or rolled back, are conserved over a run up to the worker's end if and
      only if none fell there; otherwise exactly the accepted claim's reference stays for ever. */
  lemma ReferencesExact(events: seq<Event>, rest: seq<Event>)
    requires Legal(START, events) && Enabled(After(START, events), WorkerLoad)
    requires Legal(Apply(After(START, events), WorkerLoad), rest)
    ensures var s, t := After(START, events), After(Apply(After(START, events), WorkerLoad), rest);
      && (Conserved(t) <==> !(t.holder.Finished? && Overwritten(events, false)))
      && (t.holder.Finished? && Overwritten(events, false) ==>
            t.taken == t.dropped + (Owners(t.rollbacks) + multiset{s.holder.c}))
  {
    var s := Apply(After(START, events), WorkerLoad);
    WorkerFindsOwnExact(events);
    RunKeeps(START, events, false);
    StepKeeps(After(START, events), WorkerLoad, Overwritten(events, false));
    RunKeeps(s, rest, Overwritten(events, false));
    LoadStands(s, rest);
    var t := After(s, rest);
    if t.holder.Finished? && t.holder.found.Null? {
      assert |t.taken| == |t.dropped| + |Owners(t.rollbacks)| + 1;
    }
  }

  /** An accepted claim is for ever: what its worker found stays what it found. */
  lemma {:induction false} LoadStands(s: State, events: seq<Event>)
    requires (s.holder.Running? || s.holder.Finished?) && Legal(s, events)
    ensures var t := After(s, events).holder;
      (t.Running? || t.Finished?) && t.c == s.holder.c && t.found == s.holder.found
    decreases |events|
  {
    if events != [] {
      LoadStands(Apply(s, events[0]), events[1..]);
    }
  }

  /** In other words: a late NULL with no store of a Context after it. */
  lemma {:induction false} OverwrittenExact(events: seq<Event>, so: bool)
    ensures Overwritten(events, so) <==>
      || (so && forall j :: 0 <= j < |events| ==> !events[j].StoreCtx?)
      || exists i :: 0 <= i < |events| && events[i].LateNull? && forall j :: i < j < |events| ==> !events[j].StoreCtx?
    decreases |events|
  {
    if events != [] {
      var rest := events[1..];
      OverwrittenExact(rest, Next(events[0], so));
      assert forall j :: 0 <= j < |rest| ==> events[j + 1] == rest[j];
      if i :| 0 <= i < |rest| && rest[i].LateNull? && forall j :: i < j < |rest| ==> !rest[j].StoreCtx? {
        assert events[i + 1].LateNull?;
        assert forall j :: i + 1 < j < |events| ==> events[j] == rest[j - 1];
      }
      assert forall j :: 1 <= j < |events| ==> events[j] == rest[j - 1];
    }
  }

  /** A refused claim of `a` gives the flag back, and `b` claims and stores. */
  function Reclaiming(a: Id, b: Id): seq<Event> {
    [TakeFlag(a), StoreCtx, Refuse, ClearFlag, TakeFlag(b), StoreCtx]
  }

  lemma ReclaimingSteps(a: Id, b: Id)
    ensures Legal(START, Reclaiming(a, b))
    ensures After(START, Reclaiming(a, b))
      == State(Stored(b), To(b), [Cleared(a)], multiset{a} + multiset{b}, multiset{})
  {
    var run := Reclaiming(a, b);
    var s1 := START.(holder := Taken(a));
    var s2 := State(Stored(a), To(a), [], multiset{a}, multiset{});
    var s3 := s2.(holder := Refused(a));
    var s4 := s2.(holder := Nobody, rollbacks := [Cleared(a)]);
    var s5 := s4.(holder := Taken(b));
    var s6 := State(Stored(b), To(b), [Cleared(a)], multiset{a} + multiset{b}, multiset{});
    RunFrom(run, s5, s6, 5);
    RunFrom(run, s4, s5, 4);
    RunFrom(run, s3, s4, 3);
    RunFrom(run, s2, s3, 2);
    RunFrom(run, s1, s2, 1);
    RunFrom(run, START, s1, 0);
    assert run[0..] == run;
  }

  /** It happens: `b` queues the Operation, then the NULL of `a` is stored; the worker finds no Context. */
  lemma OverwrittenClaim(a: Id, b: Id)
    ensures var run := Reclaiming(a, b) + [Accept, LateNull(0), WorkerLoad];
      Legal(START, run) && After(START, run).holder == Running(b, Null)
  {
    ReclaimingSteps(a, b);
    hide Reclaiming;
    var run := [Accept, LateNull(0), WorkerLoad];
    var s0 := State(Stored(b), To(b), [Cleared(a)], multiset{a} + multiset{b}, multiset{});
    var s1 := s0.(holder := Queued(b));
    var s2 := s1.(ctx := Null, rollbacks := [Nulled(a)]);
    var s3 := s2.(holder := Running(b, Null));
    RunFrom(run, s2, s3, 2);
    RunFrom(run, s1, s2, 1);
    RunFrom(run, s0, s1, 0);
    assert run[0..] == run;
    RunConcat(START, Reclaiming(a, b), run);
  }

  lemma {:induction false} RunConcat(s: State, xs: seq<Event>, ys: seq<Event>)
    requires Legal(s, xs) && Legal(After(s, xs), ys)
    ensures Legal(s, xs + ys) && After(s, xs + ys) == After(After(s, xs), ys)
    decreases |xs|
  {
    if xs == [] {
      assert xs + ys == ys;
    } else {
      assert (xs + ys)[1..] == xs[1..] + ys && (xs + ys)[0] == xs[0];
      RunConcat(Apply(s, xs[0]), xs[1..], ys);
    }
  }

  lemma RunFrom(run: seq<Event>, s: State, t: State, i: nat)
    requires i < |run| && Enabled(s, run[i]) && t == Apply(s, run[i]) && Legal(t, run[i + 1..])
    ensures Legal(s, run[i..]) && After(s, run[i..]) == After(t, run[i + 1..])
  {
  }
}
