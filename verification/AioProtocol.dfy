/** The Linux AIO engine as a protocol: claims, partial acceptance with rollback,
    and release by cancel or by event, under any interleaving of threads,
    callbacks and kernel activity. */
module AioProtocol {
  import opened Bags
  import opened Frames

  datatype State<Op> = State(
    claimed: set<Op>,          // Operations whose one-shot flag is set
    claims: seq<Op>,           // every claim this Context made, in order
    rolledBack: seq<Op>,       // claims given back
    accepted: seq<Op>,         // claims the kernel took
    kernel: seq<Op>,           // taken, not yet completed
    ready: seq<Op>,            // completed, not yet collected
    frames: seq<Frame<Op>>,    // collected by a call whose loop has not come to them yet
    released: seq<Op>,         // by that loop or by a cancel
    refs: int)                 // references Operations hold on this Context

  datatype Event<Op> =
    | Submit(claims: seq<Op>, k: nat)
    | Complete(i: nat)
    | Collect(thread: nat, n: nat)
    | Release(frame: nat)
    | Cancel(i: nat)
    | ClaimElsewhere(op: Op)
    | GiveBackElsewhere(op: Op)

  function Init<Op>(claimed: set<Op>): State<Op> {
    State(claimed, [], [], [], [], [], [], [], 0)
  }

  ghost predicate Enabled<Op>(s: State<Op>, e: Event<Op>) {
    match e
    case Submit(claims, k) => NoDup(claims) && k <= |claims| && forall op :: op in claims ==> op !in s.claimed
    case Complete(i) => i < |s.kernel|
    case Collect(_, n) => n <= |s.ready|
    case Release(f) => Runs(s.frames, f)
    case Cancel(i) => i < |s.kernel|
    case ClaimElsewhere(op) => op !in s.claimed
    case GiveBackElsewhere(op) => op in s.claimed && op !in s.accepted
  }

  /** A batch is claimed, the kernel takes the first `k`, the rest is rolled back. */
  ghost function Submitted<Op>(s: State<Op>, claims: seq<Op>, k: nat): State<Op>
    requires k <= |claims|
  {
    s.(claimed := s.claimed + ToSet(claims[..k]), claims := s.claims + claims,
       rolledBack := s.rolledBack + claims[k..], accepted := s.accepted + claims[..k],
       kernel := s.kernel + claims[..k], refs := s.refs + k)
  }

  function Completed<Op>(s: State<Op>, i: nat): State<Op>
    requires i < |s.kernel|
  {
    s.(kernel := Without(s.kernel, i), ready := s.ready + [s.kernel[i]])
  }

  function Collected<Op>(s: State<Op>, thread: nat, n: nat): State<Op>
    requires n <= |s.ready|
  {
    s.(ready := s.ready[n..], frames := s.frames + [Frame(thread, s.ready[..n], 0)])
  }

  function Released<Op>(s: State<Op>, i: nat): State<Op>
    requires i < |s.frames| && s.frames[i].called < |s.frames[i].batch|
  {
    var f := s.frames[i];
    s.(frames := s.frames[i := f.(called := f.called + 1)], released := s.released + [f.batch[f.called]],
       refs := s.refs - 1)
  }

  function Cancelled<Op>(s: State<Op>, i: nat): State<Op>
    requires i < |s.kernel|
  {
    s.(kernel := Without(s.kernel, i), released := s.released + [s.kernel[i]], refs := s.refs - 1)
  }

  ghost function Apply<Op>(s: State<Op>, e: Event<Op>): State<Op>
    requires Enabled(s, e)
  {
    match e
    case Submit(claims, k) => Submitted(s, claims, k)
    case Complete(i) => Completed(s, i)
    case Collect(thread, n) => Collected(s, thread, n)
    case Release(f) => Released(s, f)
    case Cancel(i) => Cancelled(s, i)
    case ClaimElsewhere(op) => s.(claimed := s.claimed + {op})
    case GiveBackElsewhere(op) => s.(claimed := s.claimed - {op})
  }

  ghost predicate Legal<Op>(s: State<Op>, events: seq<Event<Op>>)
    decreases |events|
  {
    events == [] || (Enabled(s, events[0]) && Legal(Apply(s, events[0]), events[1..]))
  }

  ghost function After<Op>(s: State<Op>, events: seq<Event<Op>>): State<Op>
    requires Legal(s, events)
    decreases |events|
  {
    if events == [] then s else After(Apply(s, events[0]), events[1..])
  }

  // ------------------------------------------------------------------ invariant

  /** Everything accepted and not released, wherever it is. */
  ghost function Held<Op>(s: State<Op>): multiset<Op> {
    multiset(s.kernel) + multiset(s.ready) + Waiting(s.frames)
  }

  ghost predicate Inv<Op>(s: State<Op>) {
    && NoDup(s.accepted)
    && (forall op :: op in s.accepted ==> op in s.claimed)
    && multiset(s.accepted) == Held(s) + multiset(s.released)
    && multiset(s.claims) == multiset(s.accepted) + multiset(s.rolledBack)
    && s.refs == |s.accepted| - |s.released|
  }

  lemma SubmitKeeps<Op>(s: State<Op>, claims: seq<Op>, k: nat)
    requires Inv(s) && Enabled(s, Submit(claims, k))
    ensures Inv(Submitted(s, claims, k))
  {
    hide Waiting;
    var took, gave := claims[..k], claims[k..];
    assert claims == took + gave;
    NoDupSplit(took, gave);
    NoDupConcat(s.accepted, took);
    AddBoth(s.claims, s.accepted, s.rolledBack, took, gave);
    assert multiset(s.accepted + took) == multiset(s.accepted) + multiset(took);
    assert multiset(s.kernel + took) == multiset(s.kernel) + multiset(took);
  }

  lemma AddBoth<T>(all: seq<T>, a: seq<T>, b: seq<T>, x: seq<T>, y: seq<T>)
    requires multiset(all) == multiset(a) + multiset(b)
    ensures multiset(all + (x + y)) == multiset(a + x) + multiset(b + y)
  {
  }

  lemma CompleteKeeps<Op>(s: State<Op>, i: nat)
    requires Inv(s) && i < |s.kernel|
    ensures Inv(Completed(s, i))
  {
    hide Waiting;
    TakeOut(s.kernel, i);
    assert multiset(s.ready + [s.kernel[i]]) == multiset(s.ready) + multiset{s.kernel[i]};
  }

  lemma CollectKeeps<Op>(s: State<Op>, thread: nat, n: nat)
    requires Inv(s) && n <= |s.ready|
    ensures Inv(Collected(s, thread, n))
  {
    hide Waiting;
    assert s.ready == s.ready[..n] + s.ready[n..];
    WaitingSnoc(s.frames, Frame(thread, s.ready[..n], 0));
    assert Left(Frame(thread, s.ready[..n], 0)) == s.ready[..n];
  }

  lemma ReleaseKeeps<Op>(s: State<Op>, f: nat)
    requires Inv(s) && Runs(s.frames, f)
    ensures Inv(Released(s, f))
  {
    hide Waiting;
    CallMovesOne(Waiting(s.frames) + multiset(s.released), s.frames, f, s.released);
    var t := Released(s, f);
    assert Held(t) + multiset(t.released)
        == multiset(s.kernel) + multiset(s.ready) + (Waiting(t.frames) + multiset(t.released));
  }

  lemma CancelKeeps<Op>(s: State<Op>, i: nat)
    requires Inv(s) && i < |s.kernel|
    ensures Inv(Cancelled(s, i))
  {
    hide Waiting;
    TakeOut(s.kernel, i);
    assert multiset(s.released + [s.kernel[i]]) == multiset(s.released) + multiset{s.kernel[i]};
  }

  lemma StepKeeps<Op>(s: State<Op>, e: Event<Op>)
    requires Inv(s) && Enabled(s, e)
    ensures Inv(Apply(s, e))
  {
    match e
    case Submit(claims, k) => SubmitKeeps(s, claims, k);
    case Complete(i) => CompleteKeeps(s, i);
    case Collect(thread, n) => CollectKeeps(s, thread, n);
    case Release(f) => ReleaseKeeps(s, f);
    case Cancel(i) => CancelKeeps(s, i);
    case _ =>
  }

  lemma {:induction false} RunKeeps<Op>(s: State<Op>, events: seq<Event<Op>>)
    requires Inv(s) && Legal(s, events)
    ensures Inv(After(s, events))
    decreases |events|
  {
    hide Inv;
    if events != [] {
      StepKeeps(s, events[0]);
      RunKeeps(Apply(s, events[0]), events[1..]);
    }
  }

  lemma ClaimsChange<Op>(s: State<Op>, claimed: set<Op>)
    requires Inv(s) && forall op :: op in s.accepted ==> op in claimed
    ensures Inv(s.(claimed := claimed))
  {
  }

  /** Where an accepted Operation can be, one place at a time. */
  lemma InvMembers<Op>(s: State<Op>)
    requires Inv(s)
    ensures NoDup(s.released) && forall op :: op in s.released ==> op in s.accepted
    ensures forall op :: op in s.kernel ==> op in s.accepted && op !in s.released
    ensures forall op :: op in s.ready ==> op in s.accepted && op !in s.released
  {
    hide Waiting;
    NoDupSubbag(s.released, s.accepted);
    SubbagMembers(s.released, s.accepted);
    forall op | op in s.kernel || op in s.ready
      ensures op in s.accepted && op !in s.released
    {
      HeldOnce(s, op);
    }
  }

  lemma HeldOnce<Op>(s: State<Op>, op: Op)
    requires Inv(s) && (op in s.kernel || op in s.ready)
    ensures op in s.accepted && op !in s.released
  {
    hide Waiting;
    NoDupOnce(s.accepted, op);
    assert Held(s)[op] > 0;
    assert multiset(s.accepted)[op] == Held(s)[op] + multiset(s.released)[op];
    assert op in multiset(s.accepted) && op !in multiset(s.released);
  }

  lemma OnePlace<Op>(s: State<Op>, op: Op)
    requires Inv(s) && op in s.ready
    ensures op !in s.kernel
  {
    hide Waiting;
    NoDupOnce(s.accepted, op);
    assert multiset(s.accepted)[op]
      == multiset(s.kernel)[op] + multiset(s.ready)[op] + Waiting(s.frames)[op] + multiset(s.released)[op];
    assert op in multiset(s.ready);
  }

  /** The Operation that the next release of a frame is about. */
  lemma NextRelease<Op>(s: State<Op>, f: nat)
    requires Inv(s) && Runs(s.frames, f)
    ensures var a := s.frames[f].batch[s.frames[f].called];
      Inv(Released(s, f)) && a in s.accepted && a !in s.released
  {
    ReleaseKeeps(s, f);
    InvMembers(Released(s, f));
    var a := s.frames[f].batch[s.frames[f].called];
    assert Released(s, f).released == s.released + [a];
    NoDupSplit(s.released, [a]);
    assert a in Released(s, f).released;
  }

  // ------------------------------------------------------------------- theorems

  /** Each claim is released exactly once - by rollback, cancel or event - and until then it holds the Context. */
  lemma EachClaimReleasedOnce<Op>(claimed: set<Op>, events: seq<Event<Op>>)
    requires Legal(Init(claimed), events)
    ensures var s := After(Init(claimed), events);
      && multiset(s.claims) == multiset(s.rolledBack) + Held(s) + multiset(s.released)
      && NoDup(s.accepted) && NoDup(s.released)
      && s.refs == |Held(s)| == |s.claims| - |s.rolledBack| - |s.released|
  {
    var s := After(Init(claimed), events);
    RunKeeps(Init(claimed), events);
    InvMembers(s);
    assert |multiset(s.accepted)| == |s.accepted|;
    assert |multiset(s.claims)| == |s.claims| && |multiset(s.rolledBack)| == |s.rolledBack|;
    assert |multiset(s.released)| == |s.released|;
  }

  /** So an Operation in the hands of the kernel keeps its Context alive. */
  lemma ContextOutlivesItsOperations<Op>(claimed: set<Op>, events: seq<Event<Op>>)
    requires Legal(Init(claimed), events)
    ensures var s := After(Init(claimed), events);
      (s.refs > 0 <==> Held(s) != multiset{}) && (s.kernel != [] || s.ready != [] ==> s.refs > 0)
  {
    var s := After(Init(claimed), events);
    EachClaimReleasedOnce(claimed, events);
    assert s.kernel != [] ==> s.kernel[0] in Held(s);
    assert s.ready != [] ==> s.ready[0] in Held(s);
  }
}
