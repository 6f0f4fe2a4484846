/** The io_uring engine as a protocol: what may happen to one Context, step by
    step, under any interleaving of threads, callbacks and kernel activity.

    Both rings are kept as histories.  `sqLog` holds every submission entry ever
    published and the kernel has consumed the first `sqHead` of them; `cqLog`
    holds every completion ever posted and the first `cqHead` of them have been
    collected. */
module UringProtocol {
  import opened Bags
  import opened Frames

  /** `user_data` of an entry: the address of an Operation, or the sentinel of a cancel. */
  datatype Tag<Op> = OpTag(op: Op) | CancelTag

  datatype Opcode = Nop | Read | Write | Fsync | AsyncCancel

  /** `addr` of an entry: a buffer, or the Operation to cancel. */
  datatype Target<Op> = NoTarget | BufferOf(op: Op) | CancelOf(op: Op)

  datatype Sqe<Op> = Sqe(opcode: Opcode, fd: int, off: nat, addr: Target<Op>, len: nat,
                         datasync: bool, tag: Tag<Op>)

  datatype Cqe<Op> = Cqe(tag: Tag<Op>, res: int)

  /** The read handler: it clears the eventfd counter, drains until a drain finds the ring empty, and returns;
      a drain that raises makes it leave in the middle. */
  datatype Handler = Asleep | Awake | Drained | Failed

  datatype State<Op> = State(
    claimed: set<Op>,        // Operations whose one-shot flag is set
    sqLog: seq<Sqe<Op>>,
    sqHead: nat,
    kernel: seq<Sqe<Op>>,    // consumed, not yet completed
    cqLog: seq<Cqe<Op>>,
    cqHead: nat,
    frames: seq<Frame<Op>>,
    calls: seq<Op>,          // callback deliveries, in order
    refs: int,               // references Operations hold on this Context
    owed: nat,               // completions posted whose eventfd signal is still to come
    counter: nat,            // the eventfd counter
    handler: Handler)        // the adapter's read handler

  datatype Event<Op> =
    | Submit(entries: seq<Sqe<Op>>)
    | RequestCancel(entry: Sqe<Op>)
    | Consume
    | Post(i: nat, res: int)
    | Signal(covered: nat)
    | ReadCounter
    | HandlerReturns
    | HandlerFails
    | Collect(thread: nat, n: nat)
    | Call(frame: nat)
    | ClaimElsewhere(op: Op)
    | GiveBackElsewhere(op: Op)

  function Init<Op>(claimed: set<Op>): State<Op> {
    State(claimed, [], 0, [], [], 0, [], [], 0, 0, 0, Asleep)
  }

  function TagOps<Op>(tag: Tag<Op>): seq<Op> {
    if tag.OpTag? then [tag.op] else []
  }

  /** The Operations named by a run of submission entries. */
  function SqOps<Op>(entries: seq<Sqe<Op>>): seq<Op> {
    if entries == [] then []
    else SqOps(entries[..|entries| - 1]) + TagOps(entries[|entries| - 1].tag)
  }

  /** The Operations named by a run of completions: all but the sentinels. */
  function CqOps<Op>(entries: seq<Cqe<Op>>): seq<Op> {
    if entries == [] then []
    else CqOps(entries[..|entries| - 1]) + TagOps(entries[|entries| - 1].tag)
  }

  predicate Bounded<Op>(s: State<Op>) {
    s.sqHead <= |s.sqLog| && s.cqHead <= |s.cqLog|
  }

  ghost predicate Enabled<Op>(s: State<Op>, e: Event<Op>) {
    && Bounded(s)
    && match e
       case Submit(entries) =>
         && (forall i :: 0 <= i < |entries| ==> entries[i].tag.OpTag?)
         && NoDup(SqOps(entries))
         && (forall op :: op in SqOps(entries) ==> op !in s.claimed)
       case RequestCancel(entry) => entry.tag.CancelTag?
       case Consume => s.sqHead < |s.sqLog|
       case Post(i, res) => i < |s.kernel|
       case Signal(covered) => covered <= s.owed
       case ReadCounter => true
       case HandlerReturns => s.handler.Drained?
       case HandlerFails => s.handler.Awake?
       case Collect(thread, n) => s.cqHead + n <= |s.cqLog|
       case Call(frame) => Runs(s.frames, frame)
       case ClaimElsewhere(op) => op !in s.claimed
       case GiveBackElsewhere(op) => op in s.claimed && op !in SqOps(s.sqLog)
  }

  ghost function Submitted<Op>(s: State<Op>, entries: seq<Sqe<Op>>): State<Op> {
    s.(claimed := s.claimed + ToSet(SqOps(entries)), sqLog := s.sqLog + entries,
       refs := s.refs + |SqOps(entries)|)
  }

  function CancelRequested<Op>(s: State<Op>, entry: Sqe<Op>): State<Op> {
    s.(sqLog := s.sqLog + [entry])
  }

  /** The kernel takes the oldest `k` entries, in order. */
  function Handed<Op>(s: State<Op>, k: nat): State<Op>
    requires s.sqHead + k <= |s.sqLog|
  {
    s.(sqHead := s.sqHead + k, kernel := s.kernel + s.sqLog[s.sqHead..s.sqHead + k])
  }

  function Consumed<Op>(s: State<Op>): State<Op>
    requires s.sqHead < |s.sqLog|
  {
    s.(sqHead := s.sqHead + 1, kernel := s.kernel + [s.sqLog[s.sqHead]])
  }

  function Posted<Op>(s: State<Op>, i: nat, res: int): State<Op>
    requires i < |s.kernel|
  {
    s.(kernel := Without(s.kernel, i), cqLog := s.cqLog + [Cqe(s.kernel[i].tag, res)], owed := s.owed + 1)
  }

  /** A drain, anybody's, has found nothing more in the ring. */
  function FoundEmpty(handler: Handler): Handler {
    match handler
    case Awake => Drained
    case Failed => Asleep
    case _ => handler
  }

  function Collected<Op>(s: State<Op>, thread: nat, n: nat): State<Op>
    requires s.cqHead + n <= |s.cqLog|
  {
    var batch := CqOps(s.cqLog[s.cqHead..s.cqHead + n]);
    s.(cqHead := s.cqHead + n, frames := s.frames + [Frame(thread, batch, 0)], refs := s.refs - |batch|,
       handler := if s.cqHead + n == |s.cqLog| then FoundEmpty(s.handler) else s.handler)
  }

  function Called<Op>(s: State<Op>, i: nat): State<Op>
    requires i < |s.frames| && s.frames[i].called < |s.frames[i].batch|
  {
    var f := s.frames[i];
    s.(frames := s.frames[i := f.(called := f.called + 1)], calls := s.calls + [f.batch[f.called]])
  }

  ghost function Apply<Op>(s: State<Op>, e: Event<Op>): State<Op>
    requires Enabled(s, e)
  {
    match e
    case Submit(entries) => Submitted(s, entries)
    case RequestCancel(entry) => CancelRequested(s, entry)
    case Consume => Consumed(s)
    case Post(i, res) => Posted(s, i, res)
    case Signal(covered) => s.(owed := s.owed - covered, counter := s.counter + 1)
    case ReadCounter => s.(counter := 0, handler := Awake)
    case HandlerReturns => s.(handler := Asleep)
    case HandlerFails => s.(handler := Failed)
    case Collect(thread, n) => Collected(s, thread, n)
    case Call(i) => Called(s, i)
    case ClaimElsewhere(op) => s.(claimed := s.claimed + {op})
    case GiveBackElsewhere(op) => s.(claimed := s.claimed - {op})
  }

  ghost predicate Legal<Op>(s: State<Op>, events: seq<Event<Op>>)
    decreases |events|
  {
    events == [] || (Enabled(s, events[0]) && Legal(Apply(s, events[0]), events[1..]))
  }

  ghost function After<Op>(s: State<Op>, events: seq<Event<Op>>): State<Op>
    requires Legal(s, events)
    decreases |events|
  {
    if events == [] then s else After(Apply(s, events[0]), events[1..])
  }

  // ---------------------------------------------------------------- invariant

  /** Every entry the kernel took is either still with it or has been posted once. */
  ghost predicate KernelKeeps<Op>(s: State<Op>)
    requires Bounded(s)
  {
    && multiset(SqOps(s.sqLog[..s.sqHead])) == multiset(SqOps(s.kernel)) + multiset(CqOps(s.cqLog))
    && s.sqHead == |s.kernel| + |s.cqLog|
  }

  /** Every collected Operation is waiting in a frame or has been called once. */
  ghost predicate DrainKeeps<Op>(s: State<Op>)
    requires Bounded(s)
  {
    multiset(CqOps(s.cqLog[..s.cqHead])) == Waiting(s.frames) + multiset(s.calls)
  }

  ghost predicate Inv<Op>(s: State<Op>) {
    && Bounded(s)
    && KernelKeeps(s)
    && DrainKeeps(s)
    && NoDup(SqOps(s.sqLog))
    && (forall op :: op in SqOps(s.sqLog) ==> op in s.claimed)
    && s.refs == |SqOps(s.sqLog)| - |CqOps(s.cqLog[..s.cqHead])|
    && NothingStranded(s)
  }

  /** The eventfd is readable, or will be. */
  predicate Announced<Op>(s: State<Op>) {
    s.counter > 0 || s.owed > 0
  }

  /** A completion lies in the ring, no handler is at it, and nothing will wake one. */
  predicate Stranded<Op>(s: State<Op>) {
    s.cqHead < |s.cqLog| && !s.handler.Awake? && !Announced(s)
  }

  /** A completion in the ring always has a drain under way, a raised counter or a signal to come. */
  predicate NothingStranded<Op>(s: State<Op>) {
    s.cqHead < |s.cqLog| ==> s.handler.Awake? || s.handler.Failed? || Announced(s)
  }

  // ------------------------------------------------------------ list algebra

  lemma SqOpsSnoc<Op>(xs: seq<Sqe<Op>>, x: Sqe<Op>)
    ensures SqOps(xs + [x]) == SqOps(xs) + TagOps(x.tag)
  {
  }

  lemma {:induction false} SqOpsConcat<Op>(a: seq<Sqe<Op>>, b: seq<Sqe<Op>>)
    ensures SqOps(a + b) == SqOps(a) + SqOps(b)
    decreases |b|
  {
    if b == [] {
      assert a + b == a;
    } else {
      hide SqOps;
      var front, last := b[..|b| - 1], b[|b| - 1];
      assert b == front + [last] && a + b == (a + front) + [last];
      SqOpsConcat(a, front);
      SqOpsSnoc(a + front, last);
      SqOpsSnoc(front, last);
    }
  }

  lemma CqOpsSnoc<Op>(xs: seq<Cqe<Op>>, x: Cqe<Op>)
    ensures CqOps(xs + [x]) == CqOps(xs) + TagOps(x.tag)
  {
  }

  lemma {:induction false} CqOpsConcat<Op>(a: seq<Cqe<Op>>, b: seq<Cqe<Op>>)
    ensures CqOps(a + b) == CqOps(a) + CqOps(b)
    decreases |b|
  {
    if b == [] {
      assert a + b == a;
    } else {
      hide CqOps;
      var front, last := b[..|b| - 1], b[|b| - 1];
      assert b == front + [last] && a + b == (a + front) + [last];
      CqOpsConcat(a, front);
      CqOpsSnoc(a + front, last);
      CqOpsSnoc(front, last);
    }
  }

  lemma SqOpsOne<Op>(e: Sqe<Op>)
    ensures SqOps([e]) == TagOps(e.tag)
  {
  }

  lemma CqOpsOne<Op>(e: Cqe<Op>)
    ensures CqOps([e]) == TagOps(e.tag)
  {
  }

  lemma SqSplit<Op>(xs: seq<Sqe<Op>>, i: nat)
    requires i <= |xs|
    ensures SqOps(xs) == SqOps(xs[..i]) + SqOps(xs[i..])
  {
    hide SqOps;
    assert xs == xs[..i] + xs[i..];
    SqOpsConcat(xs[..i], xs[i..]);
  }

  lemma CqSplit<Op>(xs: seq<Cqe<Op>>, i: nat)
    requires i <= |xs|
    ensures CqOps(xs) == CqOps(xs[..i]) + CqOps(xs[i..])
  {
    hide CqOps;
    assert xs == xs[..i] + xs[i..];
    CqOpsConcat(xs[..i], xs[i..]);
  }

  lemma SqOpsWithout<Op>(xs: seq<Sqe<Op>>, i: nat)
    requires i < |xs|
    ensures multiset(SqOps(xs)) == multiset(SqOps(Without(xs, i))) + multiset(TagOps(xs[i].tag))
  {
    hide SqOps;
    assert xs == (xs[..i] + [xs[i]]) + xs[i + 1..];
    SqOpsConcat(xs[..i] + [xs[i]], xs[i + 1..]);
    SqOpsConcat(xs[..i], [xs[i]]);
    SqOpsOne(xs[i]);
    SqOpsConcat(xs[..i], xs[i + 1..]);
    AddToBoth(multiset(SqOps(xs[..i])), multiset{}, multiset(SqOps(xs[..i])), multiset{}, multiset(TagOps(xs[i].tag)));
  }

  // ------------------------------------------------------- every step keeps it

  lemma SubmitKeeps<Op>(s: State<Op>, entries: seq<Sqe<Op>>)
    requires Inv(s) && NoDup(SqOps(entries)) && (forall op :: op in SqOps(entries) ==> op !in s.claimed)
    ensures Inv(Submitted(s, entries))
  {
    hide SqOps, CqOps, Waiting;
    var t := Submitted(s, entries);
    SqOpsConcat(s.sqLog, entries);
    assert t.sqLog[..t.sqHead] == s.sqLog[..s.sqHead];
    NoDupConcat(SqOps(s.sqLog), SqOps(entries));
    forall op | op in SqOps(t.sqLog)
      ensures op in t.claimed
    {
      assert op in SqOps(s.sqLog) || op in SqOps(entries);
    }
  }

  lemma CancelKeeps<Op>(s: State<Op>, entry: Sqe<Op>)
    requires Inv(s) && entry.tag.CancelTag?
    ensures Inv(CancelRequested(s, entry))
  {
    hide SqOps, CqOps, Waiting;
    var t := CancelRequested(s, entry);
    SqOpsConcat(s.sqLog, [entry]);
    SqOpsOne(entry);
    assert SqOps(t.sqLog) == SqOps(s.sqLog);
    assert t.sqLog[..t.sqHead] == s.sqLog[..s.sqHead];
  }

  lemma ConsumeKeeps<Op>(s: State<Op>)
    requires Inv(s) && s.sqHead < |s.sqLog|
    ensures Inv(Consumed(s))
  {
    hide SqOps, CqOps, Waiting;
    var t, e := Consumed(s), s.sqLog[s.sqHead];
    assert t.sqLog[..t.sqHead] == s.sqLog[..s.sqHead] + [e];
    SqOpsConcat(s.sqLog[..s.sqHead], [e]);
    SqOpsConcat(s.kernel, [e]);
    ExtendBoth(SqOps(s.sqLog[..s.sqHead]), multiset(SqOps(s.kernel)), multiset(CqOps(s.cqLog)), SqOps([e]));
    assert KernelKeeps(t);
  }

  lemma PostKeeps<Op>(s: State<Op>, i: nat, res: int)
    requires Inv(s) && i < |s.kernel|
    ensures Inv(Posted(s, i, res))
  {
    hide SqOps, CqOps, Waiting;
    var t, c := Posted(s, i, res), Cqe(s.kernel[i].tag, res);
    SqOpsWithout(s.kernel, i);
    CqOpsConcat(s.cqLog, [c]);
    CqOpsOne(c);
    assert t.cqLog[..t.cqHead] == s.cqLog[..s.cqHead];
  }

  lemma CollectMovesBatch<Op>(before: seq<Cqe<Op>>, run: seq<Cqe<Op>>, frames: seq<Frame<Op>>, calls: seq<Op>,
                              thread: nat)
    requires multiset(CqOps(before)) == Waiting(frames) + multiset(calls)
    ensures CqOps(before + run) == CqOps(before) + CqOps(run)
    ensures multiset(CqOps(before + run)) == Waiting(frames + [Frame(thread, CqOps(run), 0)]) + multiset(calls)
  {
    var f := Frame(thread, CqOps(run), 0);
    CqOpsConcat(before, run);
    WaitingSnoc(frames, f);
    assert Left(f) == CqOps(run);
    ExtendBoth(CqOps(before), Waiting(frames), multiset(calls), CqOps(run));
  }

  lemma CollectKeeps<Op>(s: State<Op>, thread: nat, n: nat)
    requires Inv(s) && s.cqHead + n <= |s.cqLog|
    ensures Inv(Collected(s, thread, n))
  {
    hide SqOps, CqOps, Waiting;
    var t := Collected(s, thread, n);
    var run := s.cqLog[s.cqHead..s.cqHead + n];
    CollectMovesBatch(s.cqLog[..s.cqHead], run, s.frames, s.calls, thread);
    assert t.cqLog[..t.cqHead] == s.cqLog[..s.cqHead] + run;
  }

  lemma CallKeeps<Op>(s: State<Op>, i: nat)
    requires Inv(s) && Runs(s.frames, i)
    ensures Inv(Called(s, i))
  {
    hide SqOps, CqOps, Waiting;
    CallMovesOne(multiset(CqOps(s.cqLog[..s.cqHead])), s.frames, i, s.calls);
  }

  lemma StepKeeps<Op>(s: State<Op>, e: Event<Op>)
    requires Inv(s) && Enabled(s, e)
    ensures Inv(Apply(s, e))
  {
    match e
    case Submit(entries) => SubmitKeeps(s, entries);
    case RequestCancel(entry) => CancelKeeps(s, entry);
    case Consume => ConsumeKeeps(s);
    case Post(i, res) => PostKeeps(s, i, res);
    case Collect(thread, n) => CollectKeeps(s, thread, n);
    case Call(i) => CallKeeps(s, i);
    case _ =>
  }

  lemma {:induction false} RunKeeps<Op>(s: State<Op>, events: seq<Event<Op>>)
    requires Inv(s) && Legal(s, events)
    ensures Inv(After(s, events))
    decreases |events|
  {
    if events != [] {
      StepKeeps(s, events[0]);
      RunKeeps(Apply(s, events[0]), events[1..]);
    }
  }

  lemma {:induction false} HandedKeeps<Op>(s: State<Op>, k: nat)
    requires Inv(s) && s.sqHead + k <= |s.sqLog|
    ensures Inv(Handed(s, k))
  {
    hide Inv;
    if k == 0 {
      assert Handed(s, 0) == s;
    } else {
      HandedKeeps(s, k - 1);
      ConsumeKeeps(Handed(s, k - 1));
      HandedNext(s, k - 1);
    }
  }

  lemma HandedNext<Op>(s: State<Op>, k: nat)
    requires s.sqHead + k < |s.sqLog|
    ensures Handed(s, k + 1) == Consumed(Handed(s, k))
  {
  }

  lemma HandedTwice<Op>(s: State<Op>, k: nat, m: nat)
    requires s.sqHead + k + m <= |s.sqLog|
    ensures Handed(Handed(s, k), m) == Handed(s, k + m)
  {
  }

  lemma ClaimsChange<Op>(s: State<Op>, claimed: set<Op>)
    requires Inv(s) && forall op :: op in SqOps(s.sqLog) ==> op in claimed
    ensures Inv(s.(claimed := claimed))
  {
  }

  /** Completions name accepted Operations, each at most once; called ones were collected. */
  lemma InvMembers<Op>(s: State<Op>)
    requires Inv(s)
    ensures Bounded(s) && NoDup(CqOps(s.cqLog))
    ensures forall op :: op in CqOps(s.cqLog) ==> op in SqOps(s.sqLog)
    ensures forall op :: op in CqOps(s.cqLog[..s.cqHead]) ==> op in SqOps(s.sqLog)
    ensures forall op :: op in s.calls ==> op in CqOps(s.cqLog[..s.cqHead])
  {
    SqSplit(s.sqLog, s.sqHead);
    CqSplit(s.cqLog, s.cqHead);
    NoDupSubbag(CqOps(s.cqLog), SqOps(s.sqLog));
    SubbagMembers(CqOps(s.cqLog), SqOps(s.sqLog));
    SubbagMembers(s.calls, CqOps(s.cqLog[..s.cqHead]));
  }

  /** A run of entries that names the given Operations, one each. */
  lemma {:induction false} SqOpsOfBatch<Op>(entries: seq<Sqe<Op>>, batch: seq<Op>)
    requires |entries| == |batch|
    requires forall i :: 0 <= i < |batch| ==> entries[i].tag == OpTag(batch[i])
    ensures SqOps(entries) == batch
  {
    if entries != [] {
      var n := |entries| - 1;
      SqOpsOfBatch(entries[..n], batch[..n]);
      assert batch == batch[..n] + [batch[n]];
    }
  }

  /** Publishing a batch of freshly claimed Operations, while the kernel took some older entries. */
  lemma PublishKeeps<Op>(s: State<Op>, taken: nat, claimed: set<Op>, entries: seq<Sqe<Op>>, batch: seq<Op>)
    requires Inv(s) && s.sqHead + taken <= |s.sqLog|
    requires |entries| == |batch| && forall i :: 0 <= i < |batch| ==> entries[i].tag == OpTag(batch[i])
    requires NoDup(batch) && forall op :: op in batch ==> op !in claimed
    requires forall op :: op in SqOps(s.sqLog) ==> op in claimed
    ensures var t := Submitted(Handed(s, taken).(claimed := claimed), entries);
            && Inv(t)
            && SqOps(t.sqLog) == SqOps(s.sqLog) + batch
            && t.refs == s.refs + |batch|
  {
    hide SqOps, CqOps, Waiting;
    SqOpsOfBatch(entries, batch);
    SqOpsConcat(s.sqLog, entries);
    var h := Handed(s, taken);
    HandedKeeps(s, taken);
    ClaimsChange(h, claimed);
    SubmitKeeps(h.(claimed := claimed), entries);
  }

  // ---------------------------------------------------------------- theorems

  /** Every accepted Operation is in exactly one place. */
  ghost predicate Partitioned<Op>(s: State<Op>)
    requires Bounded(s)
  {
    && NoDup(SqOps(s.sqLog))
    && multiset(SqOps(s.sqLog)) ==
         multiset(SqOps(s.sqLog[s.sqHead..]))          // staged
         + multiset(SqOps(s.kernel))                   // with the kernel
         + multiset(CqOps(s.cqLog[s.cqHead..]))        // posted
         + Waiting(s.frames)                           // collected, not called
         + multiset(s.calls)                           // called
  }

  lemma InvPartitions<Op>(s: State<Op>)
    requires Inv(s)
    ensures Partitioned(s) && NoDup(s.calls)
  {
    SqSplit(s.sqLog, s.sqHead);
    CqSplit(s.cqLog, s.cqHead);
    NoDupSubbag(s.calls, SqOps(s.sqLog));
  }

  /** Exactly-once delivery, for every interleaving and any depth of re-entrancy. */
  lemma ExactlyOnce<Op>(claimed: set<Op>, events: seq<Event<Op>>)
    requires Legal(Init(claimed), events)
    ensures var s := After(Init(claimed), events);
            Bounded(s) && Partitioned(s) && NoDup(s.calls)
  {
    RunKeeps(Init(claimed), events);
    InvPartitions(After(Init(claimed), events));
  }

  lemma CallsNoDup<Op>(s: State<Op>)
    requires Inv(s)
    ensures NoDup(s.calls)
  {
    InvPartitions(s);
  }

  /** The Context is kept alive by exactly the Operations whose completion it has not collected. */
  ghost predicate HeldByUncollected<Op>(s: State<Op>)
    requires Bounded(s)
  {
    && s.refs == |SqOps(s.sqLog[s.sqHead..])| + |SqOps(s.kernel)| + |CqOps(s.cqLog[s.cqHead..])|
    && (SqOps(s.kernel) != [] ==> s.refs > 0)
  }

  lemma InvHolds<Op>(s: State<Op>)
    requires Inv(s)
    ensures HeldByUncollected(s)
  {
    SqSplit(s.sqLog, s.sqHead);
    CqSplit(s.cqLog, s.cqHead);
    assert |SqOps(s.sqLog[..s.sqHead])| == |multiset(SqOps(s.sqLog[..s.sqHead]))|
        == |SqOps(s.kernel)| + |CqOps(s.cqLog)|;
  }

  lemma ContextOutlivesItsOperations<Op>(claimed: set<Op>, events: seq<Event<Op>>)
    requires Legal(Init(claimed), events)
    ensures var s := After(Init(claimed), events); Bounded(s) && HeldByUncollected(s)
  {
    RunKeeps(Init(claimed), events);
    InvHolds(After(Init(claimed), events));
  }

  /** In every run whose handlers end only as their loop says - after a drain that found nothing - no completion
      is ever stranded: while it lies in the ring a handler is at it, or the eventfd is or will be readable. */
  lemma NoStrandedCompletion<Op>(claimed: set<Op>, events: seq<Event<Op>>)
    requires Legal(Init(claimed), events) && HandlerFails !in events
    ensures !Stranded(After(Init(claimed), events))
  {
    RunKeeps(Init(claimed), events);
    NeverFailed(Init(claimed), events);
  }

  lemma {:induction false} NeverFailed<Op>(s: State<Op>, events: seq<Event<Op>>)
    requires Legal(s, events) && HandlerFails !in events && !s.handler.Failed?
    ensures !After(s, events).handler.Failed?
    decreases |events|
  {
    if events != [] {
      assert events[0] in events;
      NeverFailed(Apply(s, events[0]), events[1..]);
    }
  }

  /** No event that makes the eventfd readable, now or later, or reads it. */
  predicate Silent<Op>(events: seq<Event<Op>>) {
    forall i :: 0 <= i < |events| ==> !events[i].Signal? && !events[i].Post? && !events[i].ReadCounter?
  }

  /** The counter is cleared at `r` with no signal owed; after that a handler fails, nothing is posted or signalled, no
      handler reads the counter again, and the ring is never emptied. */
  ghost predicate FailsAt<Op>(s: State<Op>, events: seq<Event<Op>>, r: nat)
    requires Legal(s, events)
  {
    && r < |events| && events[r].ReadCounter? && Legal(s, events[..r + 1])
    && After(s, events[..r + 1]).owed == 0 && Silent(events[r + 1..]) && HandlerFails in events[r + 1..]
    && After(s, events).cqHead < |After(s, events).cqLog|
  }

  /** Of all runs, exactly those leave a completion stranded. */
  lemma FailureStrandsExactly<Op>(claimed: set<Op>, events: seq<Event<Op>>)
    requires Legal(Init(claimed), events)
    ensures Stranded(After(Init(claimed), events)) <==> exists r :: FailsAt(Init(claimed), events, r)
    ensures var s := After(Init(claimed), events);
      && (Stranded(s) ==> s.handler.Failed?)
      && (Enabled(s, HandlerFails) ==>
            (Stranded(Apply(s, HandlerFails)) <==> s.cqHead < |s.cqLog| && !Announced(s)))
  {
    StrandedFailed(claimed, events);
    hide Inv, Apply, Enabled;
    var s0 := Init(claimed);
    if r: nat :| FailsAt(s0, events, r) {
      SplitAt(claimed, events, r);
      AfterSilence(After(s0, events[..r + 1]), events[r + 1..]);
    }
    if Stranded(After(s0, events)) {
      if forall i :: 0 <= i < |events| ==> !events[i].ReadCounter? {
        NeverRead(s0, events);
      } else {
        var r := LastRead(events);
        SplitAt(claimed, events, r);
        StaysAnnounced(After(s0, events[..r + 1]), events[r + 1..]);
        AfterSilence(After(s0, events[..r + 1]), events[r + 1..]);
        assert FailsAt(s0, events, r);
      }
    }
  }

  lemma StrandedFailed<Op>(claimed: set<Op>, events: seq<Event<Op>>)
    requires Legal(Init(claimed), events)
    ensures var s := After(Init(claimed), events);
      && (Stranded(s) ==> s.handler.Failed?)
      && (Enabled(s, HandlerFails) ==>
            (Stranded(Apply(s, HandlerFails)) <==> s.cqHead < |s.cqLog| && !Announced(s)))
  {
    RunKeeps(Init(claimed), events);
  }

  lemma {:induction false} LastRead<Op>(events: seq<Event<Op>>) returns (r: nat)
    requires exists i :: 0 <= i < |events| && events[i].ReadCounter?
    ensures r < |events| && events[r].ReadCounter? && forall i :: r < i < |events| ==> !events[i].ReadCounter?
  {
    r := |events| - 1;
    if !events[r].ReadCounter? {
      r := LastRead(events[..r]);
    }
  }

  /** The run up to and including the clearing of the counter, and the rest. */
  lemma SplitAt<Op>(claimed: set<Op>, events: seq<Event<Op>>, r: nat)
    requires Legal(Init(claimed), events) && r < |events| && events[r].ReadCounter?
    ensures Legal(Init(claimed), events[..r + 1])
    ensures var s := After(Init(claimed), events[..r + 1]);
      && s.counter == 0 && s.handler.Awake?
      && Legal(s, events[r + 1..]) && After(s, events[r + 1..]) == After(Init(claimed), events)
  {
    hide Apply, Enabled;
    assert events[..r + 1] == events[..r] + [events[r]] && events == events[..r + 1] + events[r + 1..];
    RunSplit(Init(claimed), events[..r + 1], events[r + 1..]);
    RunSplit(Init(claimed), events[..r], [events[r]]);
    ReadClears(After(Init(claimed), events[..r]), events[r]);
  }

  lemma ReadClears<Op>(s: State<Op>, e: Event<Op>)
    requires Legal(s, [e]) && e.ReadCounter?
    ensures After(s, [e]).counter == 0 && After(s, [e]).handler.Awake?
  {
  }

  lemma {:induction false} RunSplit<Op>(s: State<Op>, xs: seq<Event<Op>>, ys: seq<Event<Op>>)
    requires Legal(s, xs + ys)
    ensures Legal(s, xs) && Legal(After(s, xs), ys) && After(s, xs + ys) == After(After(s, xs), ys)
    decreases |xs|
  {
    hide Apply, Enabled;
    if xs == [] {
      assert xs + ys == ys;
    } else {
      assert (xs + ys)[1..] == xs[1..] + ys && (xs + ys)[0] == xs[0];
      RunSplit(Apply(s, xs[0]), xs[1..], ys);
    }
  }

  /** In silence nothing is announced, and a handler that fails is the last one. */
  lemma {:induction false} AfterSilence<Op>(s: State<Op>, events: seq<Event<Op>>)
    requires Legal(s, events) && s.counter == 0 && (s.handler.Awake? || s.handler.Failed?)
    ensures var t := After(s, events);
      Silent(events) && s.owed == 0 && t.cqHead < |t.cqLog| ==>
        !Announced(t) && (t.handler.Failed? <==> s.handler.Failed? || HandlerFails in events)
    decreases |events|
  {
    var t := After(s, events);
    if Silent(events) && s.owed == 0 && t.cqHead < |t.cqLog| && events != [] {
      hide Apply, Enabled;
      SilentStep(s, events[0]);
      SilentLater(Apply(s, events[0]), events[1..]);
      AfterSilence(Apply(s, events[0]), events[1..]);
    }
  }

  /** Once the ring is empty it stays so in silence. */
  lemma {:induction false} SilentLater<Op>(s: State<Op>, events: seq<Event<Op>>)
    requires Legal(s, events) && Silent(events)
    ensures var t := After(s, events); t.cqLog == s.cqLog && s.cqHead <= t.cqHead
    decreases |events|
  {
    if events != [] {
      SilentLater(Apply(s, events[0]), events[1..]);
    }
  }

  lemma SilentStep<Op>(s: State<Op>, e: Event<Op>)
    requires Enabled(s, e) && Silent([e]) && s.counter == 0 && s.owed == 0
    ensures var t := Apply(s, e);
      && t.counter == 0 && t.owed == 0
      && (t.cqHead < |t.cqLog| && (s.handler.Awake? || s.handler.Failed?) ==>
            (t.handler.Awake? || t.handler.Failed?) && (t.handler.Failed? <==> s.handler.Failed? || e.HandlerFails?))
  {
    assert [e][0] == e;
  }

  /** What is announced stays so until a handler reads the counter. */
  lemma {:induction false} StaysAnnounced<Op>(s: State<Op>, events: seq<Event<Op>>)
    requires Legal(s, events) && forall i :: 0 <= i < |events| ==> !events[i].ReadCounter?
    ensures Announced(s) || !Silent(events) ==> Announced(After(s, events))
    decreases |events|
  {
    if events != [] {
      assert !events[0].ReadCounter?;
      StaysAnnounced(Apply(s, events[0]), events[1..]);
    }
  }

  lemma {:induction false} NeverRead<Op>(s: State<Op>, events: seq<Event<Op>>)
    requires Legal(s, events) && s.handler.Asleep? && forall i :: 0 <= i < |events| ==> !events[i].ReadCounter?
    ensures After(s, events).handler.Asleep?
    decreases |events|
  {
    if events != [] {
      assert !events[0].ReadCounter?;
      NeverRead(Apply(s, events[0]), events[1..]);
    }
  }

  /** Nothing is lost: once every stage is empty, precisely the accepted Operations were called. */
  lemma QuietMeansDelivered<Op>(claimed: set<Op>, events: seq<Event<Op>>)
    requires Legal(Init(claimed), events)
    requires var s := After(Init(claimed), events);
             && s.sqHead == |s.sqLog| && s.kernel == [] && s.cqHead == |s.cqLog|
             && (forall i :: 0 <= i < |s.frames| ==> Left(s.frames[i]) == [])
    ensures var s := After(Init(claimed), events);
            multiset(s.calls) == multiset(SqOps(s.sqLog)) && s.refs == 0
  {
    var s := After(Init(claimed), events);
    ExactlyOnce(claimed, events);
    ContextOutlivesItsOperations(claimed, events);
    NothingWaits(s.frames);
  }
}
