/** The Linux AIO Context: one batch is claimed in order, handed to `io_submit`,
    and what the kernel did not take is rolled back; a claim is released by a
    successful cancel or by its completion event. */
module LinuxAio {
  import opened AioProtocol
  import opened Bags
  import opened Claims
  import opened Frames

  type Address = nat

  const NULL: Address := 0
  const EV_MAX_REQUESTS_DEFAULT := 512
  const MAX_EVENTS_REQUEST := 0x10_0000
  const EBADF := 9
  const EAGAIN := 11
  const EFAULT := 14
  const EINVAL := 22
  const ENOSYS := 38

  datatype Kind = Pread | Pwrite | Fsync | Fdsync

  /** `notify` is the eventfd the iocb asks the kernel to signal; `refs` counts the references the engine
      holds on the Operation. */
  datatype Operation = Operation(kind: Kind, nbytes: nat, error: int, notify: int, inProgress: bool, done: bool,
                                 context: Address, refs: nat)

  type Ops = map<Address, Operation>

  datatype Reading = NotYet | Raises(errno: int) | Bytes(length: nat) | Count(count: nat) | Nothing

  /** `get_value`. */
  function GetValue(op: Operation): Reading {
    if op.inProgress && !op.done then NotYet
    else if op.error != 0 then Raises(op.error)
    else match op.kind
      case Pread => Bytes(op.nbytes)
      case Pwrite => Count(op.nbytes)
      case _ => Nothing
  }

  datatype IoEvent = IoEvent(data: Address, res: int)

  /** How the kernel answers `io_submit` and `io_cancel`. */
  datatype SubmitAnswer = Fails(errno: nat) | Takes(k: nat)

  datatype CancelAnswer = Declines(errno: nat) | Yields(res: int)

  /** How it answers `io_getevents`: it fails, or has so many events to give. */
  datatype EventsAnswer = GetFails | Gives(n: nat)

  datatype Raised = OverflowError | ValueError | SystemError | RuntimeError | NotImplementedError | MemoryError

  datatype SubmitResult = Accepted(count: nat) | TypeError(at: nat) | Rejected(why: Raised)

  datatype CancelResult = CancelDone(res: int) | CallbackRaised | NotAnOperation | CancelFailed(why: Raised)

  datatype EventsResult = Processed(count: nat) | EventsRaised(why: Raised)

  /** The exception for a failing `io_submit`. */
  function SubmitError(errno: nat): Raised {
    if errno == EAGAIN then OverflowError
    else if errno == EBADF || errno == EFAULT || errno == EINVAL then ValueError
    else SystemError
  }

  /** The exception for a failing `io_cancel`. */
  function CancelError(errno: nat): Raised {
    if errno == EAGAIN then SystemError
    else if errno == EFAULT then RuntimeError
    else if errno == EINVAL then ValueError
    else if errno == ENOSYS then NotImplementedError
    else SystemError
  }

  // ------------------------------------------------------- claiming, as values

  function Smallest(a: nat, b: nat, c: nat): nat {
    if a <= b && a <= c then a else if b <= c then b else c
  }

  /** How many of the claims reach the kernel. */
  function Reaching(claims: seq<Address>, answer: SubmitAnswer): nat {
    if answer.Fails? then 0 else if answer.k <= |claims| then answer.k else |claims|
  }

  /** What submit tells its caller; an empty batch never reaches the kernel. */
  function Answered(claims: seq<Address>, answer: SubmitAnswer): SubmitResult {
    if answer.Fails? && claims != [] then Rejected(SubmitError(answer.errno)) else Accepted(Reaching(claims, answer))
  }

  ghost function Busy(ops: Ops): set<Address> {
    set a | a in ops && ops[a].inProgress
  }

  function Taken(op: Operation, self: Address, fd: int): Operation {
    op.(inProgress := true, context := self, refs := op.refs + 1, notify := fd)
  }

  function Mark(self: Address, fd: int): Operation -> Operation {
    op => Taken(op, self, fd)
  }

  /** The claims `claims[from..upto]` are rolled back, the others stand; a rolled back Operation keeps
      nothing of its claim but the eventfd in its iocb. */
  ghost function Partly(was: Ops, claims: seq<Address>, from: nat, upto: nat, self: Address, fd: int): Ops
    requires from <= upto <= |claims|
  {
    map a | a in was ::
      if a in claims[from..upto] then was[a].(notify := fd)
      else if a in claims then Taken(was[a], self, fd)
      else was[a]
  }

  /** Memory after a submit call that claimed `claims`, of which the kernel took the first `k`. */
  ghost function Outcome(was: Ops, claims: seq<Address>, k: nat, self: Address, fd: int): Ops
    requires k <= |claims|
  {
    Partly(was, claims, k, |claims|, self, fd)
  }

  /** Memory after a submit call, field by field: the first `k` claims belong to the Context and ask for its eventfd,
      the others keep nothing but that, and no other Operation has changed. */
  ghost predicate Handed(was: Ops, claims: seq<Address>, k: nat, self: Address, fd: int, now: Ops)
    requires k <= |claims|
  {
    && now.Keys == was.Keys
    && (forall i :: 0 <= i < k && claims[i] in was ==>
          var had, has := was[claims[i]], now[claims[i]];
          && has.inProgress && has.context == self && has.refs == had.refs + 1 && has.notify == fd
          && has.kind == had.kind && has.nbytes == had.nbytes && has.error == had.error && has.done == had.done)
    && (forall i :: k <= i < |claims| && claims[i] in was ==>
          var had, has := was[claims[i]], now[claims[i]];
          && has.notify == fd && has.inProgress == had.inProgress && has.context == had.context && has.refs == had.refs
          && has.kind == had.kind && has.nbytes == had.nbytes && has.error == had.error && has.done == had.done)
    && (forall a :: a in was && a !in claims ==> now[a] == was[a])
  }

  lemma OutcomeFields(was: Ops, claims: seq<Address>, k: nat, self: Address, fd: int)
    requires k <= |claims| && NoDup(claims)
    ensures Handed(was, claims, k, self, fd, Outcome(was, claims, k, self, fd))
  {
    OutcomeRest(was, claims, k, self, fd);
    forall i: nat | i < |claims| && claims[i] in was
      ensures Outcome(was, claims, k, self, fd)[claims[i]]
           == if i < k then Taken(was[claims[i]], self, fd) else was[claims[i]].(notify := fd)
    {
      OutcomeAt(was, claims, k, self, fd, i);
    }
    hide Outcome, NoDup;
  }

  lemma OutcomeAt(was: Ops, claims: seq<Address>, k: nat, self: Address, fd: int, i: nat)
    requires k <= |claims| && NoDup(claims) && i < |claims| && claims[i] in was
    ensures Outcome(was, claims, k, self, fd)[claims[i]]
         == if i < k then Taken(was[claims[i]], self, fd) else was[claims[i]].(notify := fd)
  {
    assert claims == claims[..k] + claims[k..];
    NoDupSplit(claims[..k], claims[k..]);
    assert if i < k then claims[i] == claims[..k][i] else claims[i] == claims[k..][i - k];
    hide NoDup;
  }

  lemma OutcomeRest(was: Ops, claims: seq<Address>, k: nat, self: Address, fd: int)
    requires k <= |claims|
    ensures Outcome(was, claims, k, self, fd).Keys == was.Keys
    ensures forall a :: a in was && a !in claims ==> Outcome(was, claims, k, self, fd)[a] == was[a]
  {
  }

  lemma StartRollback(was: Ops, claims: seq<Address>, k: nat, self: Address, fd: int)
    requires k <= |claims|
    ensures Marked(was, claims, Mark(self, fd)) == Partly(was, claims, k, k, self, fd)
  {
  }

  lemma RollbackOne(was: Ops, claims: seq<Address>, k: nat, i: nat, self: Address, fd: int)
    requires k <= i < |claims| && NoDup(claims) && claims[i] in was
    requires !was[claims[i]].inProgress && was[claims[i]].context == NULL
    ensures var a, now := claims[i], Partly(was, claims, k, i, self, fd);
      && a in now && now[a] == Taken(was[a], self, fd)
      && now[a := now[a].(inProgress := false, context := NULL, refs := now[a].refs - 1)]
           == Partly(was, claims, k, i + 1, self, fd)
    // as it was before the claim, but for the eventfd
    ensures var had, has := was[claims[i]], Partly(was, claims, k, i + 1, self, fd)[claims[i]];
      && has.notify == fd && !has.inProgress && has.context == NULL && has.refs == had.refs
      && has.kind == had.kind && has.nbytes == had.nbytes && has.error == had.error && has.done == had.done
  {
    var a := claims[i];
    assert a in claims;
    assert claims[k..i + 1] == claims[k..i] + [a];
    assert a !in claims[k..i];
  }

  // ------------------------------------------- Operations and protocol, as values

  /** The fields of the Operations agree with their place in the protocol; what the kernel has asks it to signal the
      eventfd `fd` of the Context. */
  ghost predicate Agree(s: State<Address>, self: Address, fd: int, ops: Ops) {
    && self != NULL
    && (forall a :: a in s.accepted ==> a in ops)
    && forall a :: a in ops ==>
         var op := ops[a];
         && (op.context == self <==> a in s.accepted && a !in s.released)
         && (a in s.accepted ==> op.inProgress && (op.done <==> a in s.released))
         && (a in s.accepted && a !in s.released ==> op.refs == 1 && op.notify == fd)
         && (!op.done ==> op.error == 0)
         && (!op.inProgress ==> op.context == NULL && !op.done && op.refs == 0)
  }

  /** The claims of a batch, all of them free before. */
  ghost predicate Fresh(claims: seq<Address>, was: Ops) {
    NoDup(claims) && forall a :: a in claims ==> a in was && !was[a].inProgress
  }

  lemma SubmitAgrees(s: State<Address>, self: Address, was: Ops, claims: seq<Address>, k: nat, fd: int)
    requires Inv(s) && Agree(s, self, fd, was) && Fresh(claims, was) && k <= |claims|
    ensures var t := Submitted(s.(claimed := Busy(was)), claims, k);
      Inv(t) && Agree(t, self, fd, Outcome(was, claims, k, self, fd))
  {
    hide Waiting;
    var h := s.(claimed := Busy(was));
    ClaimsChange(s, Busy(was));
    SubmitKeeps(h, claims, k);
    var t, now := Submitted(h, claims, k), Outcome(was, claims, k, self, fd);
    InvMembers(s);
    assert claims == claims[..k] + claims[k..];
    NoDupSplit(claims[..k], claims[k..]);
    forall a | a in was
      ensures a in t.accepted <==> a in s.accepted || a in claims[..k]
      ensures now[a] == if a in claims[..k] then Taken(was[a], self, fd)
                        else if a in claims[k..] then was[a].(notify := fd) else was[a]
    {
      assert a in claims <==> a in claims[..k] || a in claims[k..];
    }
  }

  /** Afterwards the accepted claims are taken, and no other. */
  lemma OutcomeBusy(was: Ops, claims: seq<Address>, k: nat, self: Address, fd: int)
    requires Fresh(claims, was) && k <= |claims|
    ensures Busy(Outcome(was, claims, k, self, fd)) == Busy(was) + ToSet(claims[..k])
    ensures Outcome(was, claims, k, self, fd).Keys == was.Keys
  {
    var now := Outcome(was, claims, k, self, fd);
    assert claims == claims[..k] + claims[k..];
    NoDupSplit(claims[..k], claims[k..]);
    forall a | a in was
      ensures now[a].inProgress <==> was[a].inProgress || a in claims[..k]
    {
      assert a in claims <==> a in claims[..k] || a in claims[k..];
    }
  }

  /** What a completion, or a successful cancel, writes into its Operation. */
  function Settle(op: Operation, res: int): Operation {
    op.(nbytes := if res >= 0 then res else op.nbytes, error := if res < 0 then -res else op.error,
        context := NULL, done := true)
  }

  /** The release of `a`, which `t` has just added to the released ones. */
  lemma SettleAgrees(s: State<Address>, t: State<Address>, self: Address, fd: int, ops: Ops, a: Address, res: int)
    requires Agree(s, self, fd, ops) && a in ops && a in s.accepted && a !in s.released
    requires t.accepted == s.accepted && t.released == s.released + [a]
    ensures ops[a].context == self && ops[a].refs == 1 && ops[a].error == 0
    ensures Agree(t, self, fd, ops[a := Settle(ops[a], res)])
  {
  }

  /** Dropping the engine's reference after the callback. */
  lemma DropAgrees(s: State<Address>, self: Address, fd: int, ops: Ops, a: Address, refs: nat)
    requires Agree(s, self, fd, ops) && a in ops && a in s.released && a in s.accepted
    ensures Agree(s, self, fd, ops[a := ops[a].(refs := refs)])
  {
  }

  /** What arbitrary activity during a callback leaves alone. */
  ghost predicate Evolves(s: State<Address>, ops: Ops, t: State<Address>, now: Ops) {
    && Settled(s.frames, t.frames)
    && s.released <= t.released && s.accepted <= t.accepted
    && now.Keys == ops.Keys
    && forall a :: a in s.released && a in ops ==> now[a] == ops[a]
  }

  lemma EvolvesRefl(s: State<Address>, ops: Ops)
    ensures Evolves(s, ops, s, ops)
  {
  }

  lemma EvolvesTrans(s: State<Address>, a: Ops, t: State<Address>, b: Ops, u: State<Address>, c: Ops)
    requires Evolves(s, a, t, b) && Evolves(t, b, u, c)
    ensures Evolves(s, a, u, c)
  {
  }

  lemma SubmitEvolves(s: State<Address>, self: Address, was: Ops, claims: seq<Address>, k: nat, fd: int,
                      t: State<Address>)
    requires Inv(s) && Agree(s, self, fd, was) && Fresh(claims, was) && k <= |claims|
    requires t == Submitted(s.(claimed := Busy(was)), claims, k)
    ensures Evolves(s, was, t, Outcome(was, claims, k, self, fd))
  {
    InvMembers(s);
    assert s.frames[..|s.frames|] == s.frames;
  }

  /** What a callback that calls nothing of the Context leaves to the kernel: completing its requests. */
  ghost predicate Calm(s: State<Address>, t: State<Address>) {
    && t.accepted == s.accepted && t.released == s.released && t.claimed == s.claimed && t.frames == s.frames
    && s.ready <= t.ready && |t.kernel| + |t.ready| == |s.kernel| + |s.ready|
    && forall a :: a in t.kernel ==> a in s.kernel
  }

  lemma CalmRefl(s: State<Address>)
    ensures Calm(s, s)
  {
  }

  lemma CalmTrans(s: State<Address>, t: State<Address>, u: State<Address>)
    requires Calm(s, t) && Calm(t, u)
    ensures Calm(s, u)
  {
  }

  /** With such callbacks exactly the Operations `batch` are released, `gone` requests leave the kernel, and no claim
      is made or given back. */
  ghost predicate ReleasedAll(s: State<Address>, ops: Ops, t: State<Address>, now: Ops, batch: seq<Address>,
                              gone: nat) {
    && t.accepted == s.accepted && t.released == s.released + batch
    && |t.kernel| + |t.ready| + gone == |s.kernel| + |s.ready|
    && (forall a :: a in t.kernel ==> a in s.kernel)
    && SameFlags(ops, now)
  }

  lemma NothingReleased(s: State<Address>, ops: Ops)
    ensures ReleasedAll(s, ops, s, ops, [], 0)
  {
  }

  lemma ReleasedNext(s: State<Address>, ops: Ops, t: State<Address>, now: Ops, u: State<Address>, last: Ops,
                     batch: seq<Address>, i: nat, gone: nat)
    requires i < |batch| && ReleasedAll(s, ops, t, now, batch[..i], gone) && ReleasedAll(t, now, u, last, [batch[i]], 0)
    ensures ReleasedAll(s, ops, u, last, batch[..i + 1], gone)
  {
    assert batch[..i + 1] == batch[..i] + [batch[i]];
  }

  /** The events of the batch were with the kernel before they were collected. */
  lemma CollectedReleases(s: State<Address>, ops: Ops, thread: nat, n: nat, t: State<Address>, now: Ops)
    requires n <= |s.ready| && ReleasedAll(Collected(s, thread, n), ops, t, now, s.ready[..n], 0)
    ensures ReleasedAll(s, ops, t, now, s.ready[..n], n)
  {
  }

  lemma CancelReleases(s: State<Address>, ops: Ops, i: nat, t: State<Address>, a: Address, res: int)
    requires i < |s.kernel| && s.kernel[i] == a && a in ops && Calm(Cancelled(s, i), t)
    ensures ReleasedAll(s, ops, t, ops[a := Settle(ops[a], res).(refs := 0)], [a], 1) && t.frames == s.frames
  {
  }

  lemma FrameReleases(s: State<Address>, ops: Ops, f: nat, t: State<Address>, res: int)
    requires Runs(s.frames, f) && Calm(Released(s, f), t)
    requires s.frames[f].batch[s.frames[f].called] in ops
    ensures var a := s.frames[f].batch[s.frames[f].called];
      ReleasedAll(s, ops, t, ops[a := Settle(ops[a], res).(refs := 0)], [a], 0)
  {
  }

  ghost predicate SameFlags(ops: Ops, now: Ops) {
    now.Keys == ops.Keys && forall a :: a in ops ==> now[a].inProgress == ops[a].inProgress
  }

  /** A released Operation that carries the result `res`, tells it to its readers, and has no reference of the engine's
      any more. */
  predicate Told(op: Operation, res: int) {
    && op.done && op.refs == 0
    && (if res >= 0 then op.nbytes == res && op.error == 0 else op.error == -res)
    && match GetValue(op)
       case Raises(errno) => res < 0 && errno == -res
       case Bytes(length) => op.kind.Pread? && length == res
       case Count(count) => op.kind.Pwrite? && count == res
       case Nothing => res >= 0 && !op.kind.Pread? && !op.kind.Pwrite?
       case NotYet => false
  }

  /** The event loop in its own frame: the events dealt with are released and told, the rest waits. */
  ghost predicate Delivering(s: State<Address>, ops: Ops, t: State<Address>, now: Ops, frame: Frame<Address>,
                             results: seq<int>) {
    && Opened(s.frames, t.frames, frame) && |results| == |frame.batch|
    && s.released <= t.released && s.accepted <= t.accepted
    && now.Keys == ops.Keys
    && (forall k :: 0 <= k < frame.called ==>
          frame.batch[k] in t.released && frame.batch[k] in now && Told(now[frame.batch[k]], results[k]))
    && forall a :: a in s.released && a in ops ==> now[a] == ops[a]
  }

  lemma DeliverOne(s: State<Address>, ops: Ops, t: State<Address>, now: Ops, frame: Frame<Address>, results: seq<int>,
                   settled: Ops, u: State<Address>, mid: Ops)
    requires Delivering(s, ops, t, now, frame, results) && frame.called < |frame.batch|
    requires var a := frame.batch[frame.called];
      && a !in t.released && a in now && a in mid && now[a].error == 0
      && settled == now[a := Settle(now[a], results[frame.called])]
      && Evolves(Released(t, |s.frames|), settled, u, mid)
    ensures var a := frame.batch[frame.called];
      Delivering(s, ops, u, mid[a := mid[a].(refs := 0)], frame.(called := frame.called + 1), results)
  {
    hide Settled;
    var a, r := frame.batch[frame.called], Released(t, |s.frames|);
    OpenedNext(s.frames, t.frames, frame, u.frames);
    forall k | 0 <= k <= frame.called
      ensures frame.batch[k] in u.released && frame.batch[k] in mid
      ensures mid[frame.batch[k]] == settled[frame.batch[k]] && (k < frame.called ==> frame.batch[k] != a)
    {
      assert frame.batch[k] in r.released;
    }
    forall b | b in s.released && b in ops
      ensures b != a && mid[b] == ops[b]
    {
      assert b in r.released;
    }
  }

  lemma DeliveringEnds(s: State<Address>, ops: Ops, t: State<Address>, now: Ops, frame: Frame<Address>,
                       results: seq<int>)
    requires Delivering(s, ops, t, now, frame, results) && frame.called == |frame.batch|
    ensures Evolves(s, ops, t, now)
    ensures forall k :: 0 <= k < |frame.batch| ==>
      frame.batch[k] in t.released && frame.batch[k] in now && Told(now[frame.batch[k]], results[k])
  {
  }

  /** The events taken from the front of what the kernel had ready, and those left. */
  lemma TakenEvents(events: seq<IoEvent>, left: seq<IoEvent>, ready: seq<Address>) returns (results: seq<int>)
    requires |events + left| == |ready| && forall j :: 0 <= j < |ready| ==> (events + left)[j].data == ready[j]
    ensures var n := |events|;
      && n <= |ready| && |results| == n
      && (forall j :: 0 <= j < n ==> events[j] == IoEvent(ready[..n][j], results[j]) && events[j].data in ready)
      && |left| == |ready[n..]| && (forall j :: 0 <= j < |left| ==> left[j].data == ready[n..][j])
  {
    results := seq(|events|, j requires 0 <= j < |events| => events[j].res);
    assert forall j :: 0 <= j < |events| ==> events[j] == (events + left)[j];
    assert forall j :: 0 <= j < |left| ==> left[j] == (events + left)[|events| + j];
  }

  lemma CollectDelivers(s: State<Address>, ops: Ops, thread: nat, n: nat, results: seq<int>)
    requires n <= |s.ready| && |results| == n
    ensures Delivering(s, ops, Collected(s, thread, n), ops, Frame(thread, s.ready[..n], 0), results)
  {
  }

  lemma DeliveringRuns(s: State<Address>, ops: Ops, t: State<Address>, now: Ops, frame: Frame<Address>,
                       results: seq<int>)
    requires Delivering(s, ops, t, now, frame, results) && frame.called < |frame.batch|
    ensures Runs(t.frames, |s.frames|) && t.frames[|s.frames|] == frame
  {
  }

  lemma CollectAgrees(s: State<Address>, self: Address, fd: int, ops: Ops, thread: nat, n: nat)
    requires Inv(s) && Agree(s, self, fd, ops) && n <= |s.ready|
    ensures Inv(Collected(s, thread, n)) && Agree(Collected(s, thread, n), self, fd, ops)
  {
    CollectKeeps(s, thread, n);
    hide Inv;
  }

  lemma CancelEvolves(s: State<Address>, ops: Ops, i: nat, a: Address, res: int)
    requires i < |s.kernel| && s.kernel[i] == a && a in ops && a !in s.released
    ensures Evolves(s, ops, Cancelled(s, i), ops[a := Settle(ops[a], res)]) && a in Cancelled(s, i).released
  {
  }

  lemma QuietEvolves(s: State<Address>, ops: Ops, t: State<Address>)
    requires t.frames == s.frames && t.released == s.released && t.accepted == s.accepted
    ensures Evolves(s, ops, t, ops)
  {
  }

  lemma DropEvolves(s: State<Address>, ops: Ops, t: State<Address>, now: Ops, a: Address, refs: nat)
    requires Evolves(s, ops, t, now) && a in now && a !in s.released
    ensures Evolves(s, ops, t, now[a := now[a].(refs := refs)])
  {
  }

  /** A released Operation is as its release left it. */
  lemma EvolvedOp(s: State<Address>, ops: Ops, t: State<Address>, now: Ops, a: Address)
    requires Evolves(s, ops, t, now) && a in s.released && a in ops
    ensures a in now && now[a] == ops[a] && a in t.released
  {
  }

  lemma AgreeOp(s: State<Address>, self: Address, fd: int, ops: Ops, a: Address)
    requires Inv(s) && Agree(s, self, fd, ops) && a in s.released
    ensures a in s.accepted && a in ops && ops[a].done && ops[a].context != self
  {
    InvMembers(s);
  }

  lemma AcceptedKnown(s: State<Address>, self: Address, fd: int, ops: Ops, a: Address)
    requires Agree(s, self, fd, ops) && a in s.accepted
    ensures a in ops
  {
  }

  lemma NoTypeError(args: seq<Address>, was: Ops)
    requires forall i :: 0 <= i < |args| ==> args[i] in was
    ensures Fresh(FirstClaims(args, Busy(was)), was)
  {
    ClaimsMembers(args, Busy(was));
  }

  lemma WalkEnds(args: seq<Address>, was: Ops, now: Ops, claims: seq<Address>, self: Address, fd: int)
    requires Walked(args, |args|, was, Busy(was), Mark(self, fd), now, claims)
    ensures claims == FirstClaims(args, Busy(was)) && now == Marked(was, claims, Mark(self, fd)) && Fresh(claims, was)
  {
    assert args[..|args|] == args;
    ClaimsMembers(args, Busy(was));
    assert forall a :: a in claims ==> a in ToSet(args);
  }

  lemma FreeClaims(s: State<Address>, self: Address, fd: int, was: Ops, claims: seq<Address>)
    requires Agree(s, self, fd, was) && Fresh(claims, was)
    ensures forall a :: a in claims ==> a in was && was[a].context == NULL
  {
  }

  class Memory {
    var ops: Ops

    constructor (ops: Ops)
      ensures this.ops == ops
    {
      this.ops := ops;
    }
  }

  class Context {
    const id: Address
    const fileno: int
    const memory: Memory
    const quiet: bool             // the callbacks in use never call back into this Context
    var opRefs: int               // references Operations hold on this Context
    var kernel: seq<Address>      // requests the kernel is working on
    var ready: seq<IoEvent>       // completion events not collected yet
    ghost var s: State<Address>

    constructor (id: Address, fileno: int, memory: Memory, quiet: bool)
      requires Agree(Init({}), id, fileno, memory.ops)
      ensures Valid() && s == Init({}) && this.memory == memory && this.id == id && this.fileno == fileno
      ensures this.quiet == quiet
    {
      this.id, this.fileno, this.memory, this.quiet := id, fileno, memory, quiet;
      opRefs, kernel, ready, s := 0, [], [], Init({});
    }

    ghost predicate Holds()
      reads this
    {
      && opRefs == s.refs && kernel == s.kernel && |ready| == |s.ready|
      && forall i :: 0 <= i < |ready| ==> ready[i].data == s.ready[i]
    }

    ghost predicate Valid()
      reads this, memory
    {
      Inv(s) && Agree(s, id, fileno, memory.ops) && Holds()
    }

    lemma ReadyEvents()
      requires Valid()
      ensures |ready| == |s.ready| && forall i :: 0 <= i < |ready| ==> ready[i].data == s.ready[i]
    {
    }

    /** Whatever the kernel has, or has finished, belongs to this Context and asks for its eventfd, which is how the
        event loop gets to know. */
    lemma InKernel()
      requires Valid()
      ensures forall a :: a in s.kernel ==> a in s.accepted && a !in s.released
      ensures forall a :: a in s.kernel || a in s.ready ==>
        && a in memory.ops
        && var op := memory.ops[a]; op.notify == fileno && op.context == id && op.inProgress && GetValue(op) == NotYet
    {
      InvMembers(s);
    }

    lemma NotInKernel()
      requires Valid()
      ensures forall a :: a in s.ready ==> a in s.accepted && a !in s.kernel
    {
      hide Agree;
      InvMembers(s);
      forall a | a in s.ready
        ensures a !in s.kernel
      {
        OnePlace(s, a);
      }
    }

    lemma ReleasedWereAccepted()
      requires Valid()
      ensures NoDup(s.released) && forall a :: a in s.released ==> a in s.accepted
      ensures forall a :: a in s.ready ==> a in s.accepted
    {
      hide Agree;
      InvMembers(s);
    }

    // -------------------------------------------------------------- the kernel

    /** `io_submit`: it fails, or takes the first `result` iocbs. */
    method KernelSubmit(batch: seq<Address>, answer: SubmitAnswer) returns (result: int, errno: nat)
      modifies this`kernel
      ensures if answer.Fails? then result == -1 && errno == answer.errno
              else result == if answer.k <= |batch| then answer.k else |batch|
      ensures kernel == old(kernel) + batch[..if result < 0 then 0 else result]
    {
      errno := 0;
      if answer.Fails? {
        result, errno := -1, answer.errno;
        assert batch[..0] == [];
      } else {
        result := if answer.k <= |batch| then answer.k else |batch|;
        kernel := kernel + batch[..result];
      }
    }

    /** The kernel completes any request it holds. */
    method KernelComplete(i: nat, res: int)
      requires Valid() && i < |s.kernel|
      modifies this`kernel, this`ready, this`s
      ensures Valid() && s == Completed(old(s), i)
    {
      hide Inv;
      CompleteKeeps(s, i);
      ready := ready + [IoEvent(kernel[i], res)];
      kernel := Without(kernel, i);
      s := Completed(s, i);
    }

    // ------------------------------------------------------------------ submit

    /** `Context.submit(*args)`, for any answer of the kernel: exactly the first `k` claims of the batch are in
        flight, every other one is given back, and nothing else is touched. */
    method Submit(args: seq<Address>, answer: SubmitAnswer) returns (r: SubmitResult)
      requires Valid()
      modifies memory, this`opRefs, this`kernel, this`s
      ensures Valid()
      ensures r.TypeError? <==> exists i :: 0 <= i < |args| && args[i] !in old(memory.ops)
      ensures r.TypeError? ==> s == old(s) && memory.ops == old(memory.ops)
      ensures !r.TypeError? ==>
        var claims := FirstClaims(args, Busy(old(memory.ops)));
        var k := Reaching(claims, answer);
        && r == Answered(claims, answer)
        && memory.ops == Outcome(old(memory.ops), claims, k, id, fileno)
        && s == Submitted(old(s).(claimed := Busy(old(memory.ops))), claims, k)
        && Handed(old(memory.ops), claims, k, id, fileno, memory.ops)
        && (r.Rejected? <==> answer.Fails? && claims != [])
        && (r.Accepted? ==> r.count == k)
        && (answer.Fails? ==> k == 0) && (answer.Takes? ==> k <= answer.k && (k < answer.k ==> k == |claims|))
      // which exception it is
      ensures r.Rejected? ==>
        && (r.why.OverflowError? <==> answer.errno == EAGAIN)
        && (r.why.ValueError? <==> answer.errno in {EBADF, EFAULT, EINVAL})
        && (r.why.SystemError? <==> answer.errno !in {EAGAIN, EBADF, EFAULT, EINVAL})
    {
      hide Valid, FirstClaims, Submitted, Outcome, Handed;
      ghost var was := memory.ops;
      for i := 0 to |args|
        invariant ToSet(args[..i]) <= memory.ops.Keys
      {
        if args[i] !in memory.ops {
          return TypeError(i);
        }
        assert args[..i + 1] == args[..i] + [args[i]];
      }
      assert args[..|args|] == args;
      r := SubmitBatch(args, answer);
      NoTypeError(args, was);
      OutcomeFields(was, FirstClaims(args, Busy(was)), Reaching(FirstClaims(args, Busy(was)), answer), id, fileno);
    }

    method SubmitBatch(args: seq<Address>, answer: SubmitAnswer) returns (r: SubmitResult)
      requires Valid() && ToSet(args) <= memory.ops.Keys
      modifies memory, this`opRefs, this`kernel, this`s
      ensures Valid()
      ensures
        var claims := FirstClaims(args, Busy(old(memory.ops)));
        var k := Reaching(claims, answer);
        && r == Answered(claims, answer)
        && memory.ops == Outcome(old(memory.ops), claims, k, id, fileno)
        && s == Submitted(old(s).(claimed := Busy(old(memory.ops))), claims, k)
    {
      hide Inv, Agree, FirstClaims, Walked, Partly, Marked, Fresh;
      ghost var was, before := memory.ops, s;
      var claimed, toSubmit := ClaimAll(args);
      ghost var claims := claimed[..toSubmit];
      WalkEnds(args, was, memory.ops, claims, id, fileno);
      var result, errno := 0, 0;
      if toSubmit > 0 {
        result, errno := KernelSubmit(claimed[..toSubmit], answer);
      }
      ghost var k := if result < 0 then 0 else result;
      SubmitAgrees(before, id, was, claims, k, fileno);
      FreeClaims(before, id, fileno, was, claims);
      RollBack(claimed, if result < 0 then 0 else result, toSubmit, was);
      s := Submitted(s.(claimed := Busy(was)), claims, k);
      r := if result < 0 then Rejected(SubmitError(errno)) else Accepted(result);
    }

    /** The claiming loop; `claimed` gets what it took, in order. */
    method ClaimAll(args: seq<Address>) returns (claimed: array<Address>, toSubmit: nat)
      requires ToSet(args) <= memory.ops.Keys
      modifies memory, this`opRefs
      ensures fresh(claimed) && toSubmit <= claimed.Length
      ensures Walked(args, |args|, old(memory.ops), Busy(old(memory.ops)), Mark(id, fileno), memory.ops,
                     claimed[..toSubmit])
      // what it took belongs to this Context, and will signal its eventfd
      ensures forall j :: 0 <= j < toSubmit ==>
        && claimed[j] in old(memory.ops) && claimed[j] in memory.ops
        && var had, has := old(memory.ops)[claimed[j]], memory.ops[claimed[j]];
           has.inProgress && has.context == id && has.notify == fileno && has.refs == had.refs + 1
      ensures opRefs == old(opRefs) + toSubmit
    {
      hide Walked, FirstClaims;
      ghost var was, busy, mark := memory.ops, Busy(memory.ops), Mark(id, fileno);
      claimed, toSubmit := new Address[|args|], 0;
      WalkStarts(args, was, busy, mark);
      assert claimed[..0] == [];
      for i := 0 to |args|
        invariant toSubmit <= i && fresh(claimed) && claimed.Length == |args|
        invariant Walked(args, i, was, busy, mark, memory.ops, claimed[..toSubmit])
        invariant opRefs == old(opRefs) + toSubmit
      {
        var a := args[i];
        WalkNext(args, i, was, busy, mark, memory.ops, claimed[..toSubmit]);
        ghost var now, claims := memory.ops, claimed[..toSubmit];
        var op := memory.ops[a];
        memory.ops := memory.ops[a := op.(inProgress := true)];    // atomic exchange
        if op.inProgress {
          assert memory.ops == now;
        } else {
          // op->context is NULL here, so there is nothing to release before setting it.
          memory.ops := memory.ops[a := memory.ops[a].(context := id, refs := op.refs + 1, notify := fileno)];
          assert memory.ops == now[a := Taken(op, id, fileno)];
          opRefs := opRefs + 1;
          claimed[toSubmit] := a;
          toSubmit := toSubmit + 1;
          assert claimed[..toSubmit] == claims + [a];
        }
      }
      WalkEnds(args, was, memory.ops, claimed[..toSubmit], id, fileno);
      assert forall j :: 0 <= j < toSubmit ==> claimed[..toSubmit][j] == claimed[j];
    }

    /** The rollback loop: the claims from `from` on are given back. */
    method RollBack(claimed: array<Address>, from: nat, upto: nat, ghost was: Ops)
      requires from <= upto <= claimed.Length && Fresh(claimed[..upto], was)
      requires forall a :: a in claimed[..upto] ==> a in was && was[a].context == NULL
      requires memory.ops == Marked(was, claimed[..upto], Mark(id, fileno))
      modifies memory, this`opRefs
      ensures memory.ops == Partly(was, claimed[..upto], from, upto, id, fileno)
      ensures opRefs == old(opRefs) - (upto - from)
    {
      hide Partly, Marked;
      ghost var claims := claimed[..upto];
      StartRollback(was, claims, from, id, fileno);
      for i := from to upto
        invariant memory.ops == Partly(was, claims, from, i, id, fileno)
        invariant opRefs == old(opRefs) - (i - from)
      {
        var a := claimed[i];
        assert a == claims[i];
        RollbackOne(was, claims, from, i, id, fileno);
        memory.ops := memory.ops[a := memory.ops[a].(inProgress := false)];
        memory.ops := memory.ops[a := memory.ops[a].(context := NULL)];
        opRefs := opRefs - 1;
        memory.ops := memory.ops[a := memory.ops[a].(refs := memory.ops[a].refs - 1)];
      }
    }

    // ----------------------------------------------------------------- release

    /** `io_cancel`: it fails - as it must for a request it does not hold - or takes the request back from the
        kernel together with its event. */
    method KernelCancel(a: Address, answer: CancelAnswer) returns (errno: nat, res: int, ghost i: nat)
      requires kernel == s.kernel && (answer.Declines? ==> answer.errno > 0)
      modifies this`kernel
      ensures errno == 0 <==> answer.Yields? && a in s.kernel
      ensures errno == 0 ==> i < |s.kernel| && s.kernel[i] == a && kernel == Without(s.kernel, i) && res == answer.res
      ensures errno != 0 ==> kernel == old(kernel) && errno == if answer.Declines? then answer.errno else EINVAL
    {
      errno, res, i := EINVAL, 0, 0;
      if answer.Declines? {
        errno := answer.errno;
      } else if a in kernel {
        var found: nat :| found < |kernel| && kernel[found] == a;
        i := found;
        kernel := Without(kernel, found);
        errno, res := 0, answer.res;
      }
    }

    /** `Context.cancel(operation)`: success delivers the event here and now, and nowhere else. */
    method Cancel(a: Address, answer: CancelAnswer, depth: nat) returns (r: CancelResult, ghost i: nat)
      requires Valid() && (answer.Declines? ==> answer.errno > 0)
      modifies this, memory
      ensures Valid()
      ensures r.NotAnOperation? <==> a !in old(memory.ops)
      ensures r.CancelFailed? <==> a in old(memory.ops) && (answer.Declines? || a !in old(s).kernel)
      ensures r.CancelFailed? ==>
        var errno := if answer.Declines? then answer.errno else EINVAL;
        && (r.why.RuntimeError? <==> errno == EFAULT) && (r.why.ValueError? <==> errno == EINVAL)
        && (r.why.NotImplementedError? <==> errno == ENOSYS)
        && (r.why.SystemError? <==> errno !in {EFAULT, EINVAL, ENOSYS})
      ensures r.NotAnOperation? || r.CancelFailed? ==> s == old(s) && memory.ops == old(memory.ops)
      ensures r.CancelDone? || r.CallbackRaised? ==>
        && i < |old(s).kernel| && old(s).kernel[i] == a
        && Evolves(old(s), old(memory.ops), s, memory.ops)
        && a !in old(s).released && a in s.released
        && a in memory.ops && memory.ops[a].context != id && answer.Yields?
      ensures r.CancelDone? || r.CallbackRaised? ==>
        Told(memory.ops[a], answer.res) && (r.CancelDone? ==> r.res == answer.res)
      ensures quiet && (r.CancelDone? || r.CallbackRaised?) ==>
        ReleasedAll(old(s), old(memory.ops), s, memory.ops, [a], 1) && s.frames == old(s).frames
      decreases depth, 2
    {
      hide Inv, Agree, Evolves;
      i := 0;
      if a !in memory.ops {
        return NotAnOperation, i;
      }
      var errno, res;
      errno, res, i := KernelCancel(a, answer);
      if errno != 0 {
        return CancelFailed(CancelError(errno)), i;
      }
      ghost var before, was := s, memory.ops;
      CancelKeeps(s, i);
      InvMembers(s);
      ghost var t := Cancelled(s, i);
      SettleAgrees(s, t, id, fileno, memory.ops, a, res);
      CancelEvolves(s, memory.ops, i, a, res);
      s := t;
      ghost var settled := memory.ops[a := Settle(memory.ops[a], res)];
      SettleAndCallBack(a, res, depth);
      ghost var mid := memory.ops;
      EvolvesTrans(before, was, t, settled, s, mid);
      EvolvedOp(t, settled, s, mid, a);
      InvMembers(s);
      AgreeOp(s, id, fileno, mid, a);
      DropAgrees(s, id, fileno, mid, a, 0);
      DropEvolves(before, was, s, mid, a, 0);
      memory.ops := memory.ops[a := memory.ops[a].(refs := memory.ops[a].refs - 1)];
      if quiet {
        CancelReleases(before, was, i, s, a, res);
      }
      var raised: bool := *;
      r := if raised then CallbackRaised else CancelDone(res);
    }

    /** The common part of the two deliveries: write the outcome, release the Context, call back. */
    method SettleAndCallBack(a: Address, res: int, depth: nat)
      requires Inv(s) && kernel == s.kernel && a in memory.ops && opRefs - 1 == s.refs
      requires |ready| == |s.ready| && forall i :: 0 <= i < |ready| ==> ready[i].data == s.ready[i]
      requires Agree(s, id, fileno, memory.ops[a := Settle(memory.ops[a], res)])
      modifies this, memory
      ensures Valid()
      ensures Evolves(old(s), old(memory.ops)[a := Settle(old(memory.ops)[a], res)], s, memory.ops)
      ensures quiet ==> Calm(old(s), s) && memory.ops == old(memory.ops)[a := Settle(old(memory.ops)[a], res)]
      decreases depth, 1
    {
      hide Inv, Agree, Evolves;
      ghost var settled := memory.ops[a := Settle(memory.ops[a], res)];
      var op := memory.ops[a];
      if res >= 0 {
        op := op.(nbytes := res);
      } else {
        op := op.(error := -res);
      }
      op := op.(context := NULL);
      opRefs := opRefs - 1;
      op := op.(done := true);
      memory.ops := memory.ops[a := op];
      assert memory.ops == settled;
      Callback(depth);
    }

    /** A user callback: any number of re-entrant calls, and any kernel activity meanwhile. */
    method Callback(depth: nat)
      requires Valid()
      modifies this, memory
      ensures Valid() && Evolves(old(s), old(memory.ops), s, memory.ops)
      ensures quiet ==> Calm(old(s), s) && memory.ops == old(memory.ops)
      decreases depth, 0
    {
      hide Valid, Evolves, Agree, Inv, Calm;
      EvolvesRefl(s, memory.ops);
      CalmRefl(s);
      var steps: nat := *;
      while steps > 0
        invariant Valid() && Evolves(old(s), old(memory.ops), s, memory.ops)
        invariant quiet ==> Calm(old(s), s) && memory.ops == old(memory.ops)
      {
        ghost var before, ops := s, memory.ops;
        EvolvesRefl(before, ops);
        var choice: nat := *;
        if quiet || choice == 0 {
          KernelActs();
          if quiet {
            CalmTrans(old(s), before, s);
          }
        } else if choice == 1 {
          var args: seq<Address> := *;
          SubmitQuietly(args);
        } else if depth > 0 {
          if choice == 2 {
            var a: Address := *;
            var gives: bool, res: int, errno: nat := *, *, *;
            var _, _ := Cancel(a, if gives then Yields(res) else Declines(errno + 1), depth - 1);
          } else {
            ghost var thread: nat := *;
            var max: nat, min: nat, memoryOk: bool, given: nat := *, *, *, *;
            var _ := ProcessEvents(thread, max, min, memoryOk, Gives(given), depth - 1);
          }
        }
        EvolvesTrans(old(s), old(memory.ops), before, ops, s, memory.ops);
        steps := steps - 1;
      }
    }

    method KernelActs()
      requires Valid()
      modifies this`kernel, this`ready, this`s
      ensures Valid() && Evolves(old(s), old(memory.ops), s, memory.ops) && Calm(old(s), s)
    {
      hide Inv, Agree, Evolves;
      ghost var before := s;
      EvolvesRefl(s, memory.ops);
      if kernel != [] {
        var i: nat :| i < |kernel|;
        var res: int := *;
        KernelComplete(i, res);
        QuietEvolves(before, memory.ops, s);
      }
    }

    /** The kernel goes on for a while. */
    method KernelRuns()
      requires Valid()
      modifies this`kernel, this`ready, this`s
      ensures Valid() && Calm(old(s), s)
    {
      hide Inv, Agree, Evolves, Calm;
      CalmRefl(s);
      var steps: nat := *;
      while steps > 0
        invariant Valid() && Calm(old(s), s)
      {
        ghost var before := s;
        KernelActs();
        CalmTrans(old(s), before, s);
        steps := steps - 1;
      }
    }

    method SubmitQuietly(args: seq<Address>)
      requires Valid()
      modifies this, memory
      ensures Valid() && Evolves(old(s), old(memory.ops), s, memory.ops)
    {
      hide Inv, Agree, Evolves;
      ghost var before, was := s, memory.ops;
      EvolvesRefl(s, memory.ops);
      var fails: bool, errno: nat, taken: nat := *, *, *;
      var answer := if fails then Fails(errno) else Takes(taken);
      var r := Submit(args, answer);
      if !r.TypeError? {
        ghost var claims := FirstClaims(args, Busy(was));
        ghost var k := Reaching(claims, answer);
        NoTypeError(args, was);
        SubmitEvolves(before, id, was, claims, k, fileno, s);
      }
    }

    /** `io_getevents`: it fails, or hands over up to `max` events, the oldest first. */
    method KernelGetEvents(max: nat, answer: EventsAnswer) returns (ok: bool, events: seq<IoEvent>)
      modifies this`ready
      ensures ok <==> answer.Gives?
      ensures !ok ==> ready == old(ready)
      ensures ok ==> |events| == Smallest(answer.n, max, |old(ready)|) && old(ready) == events + ready
    {
      ok, events := answer.Gives?, [];
      if ok {
        var n := Smallest(answer.n, max, |ready|);
        events, ready := ready[..n], ready[n..];
      }
    }

    /** `Context.process_events(max, min)`: every event taken from the kernel is released by this call, whatever
        the callbacks do. */
    method ProcessEvents(ghost thread: nat, max: nat, min: nat, memoryOk: bool, answer: EventsAnswer, depth: nat)
      returns (r: EventsResult)
      requires Valid()
      modifies this, memory
      ensures Valid() && Evolves(old(s), old(memory.ops), s, memory.ops)
      ensures var limit := if max == 0 then EV_MAX_REQUESTS_DEFAULT else max;
        && (r == EventsRaised(OverflowError) <==> limit > MAX_EVENTS_REQUEST)
        && (r == EventsRaised(ValueError) <==> limit <= MAX_EVENTS_REQUEST && min > limit)
        && (r == EventsRaised(MemoryError) <==> min <= limit <= MAX_EVENTS_REQUEST && !memoryOk)
        && (r == EventsRaised(SystemError) <==> min <= limit <= MAX_EVENTS_REQUEST && memoryOk && answer.GetFails?)
        && (r.Processed? <==> min <= limit <= MAX_EVENTS_REQUEST && memoryOk && answer.Gives?)
        && (r.Processed? ==> r.count == Smallest(answer.n, limit, |old(ready)|))
      ensures r.EventsRaised? ==> s == old(s) && memory.ops == old(memory.ops)
      ensures r.Processed? ==>
        forall j :: 0 <= j < r.count ==>
          var ev := old(ready)[j];
          && ev.data !in old(s).released && ev.data in s.released
          && ev.data in memory.ops && Told(memory.ops[ev.data], ev.res)
      ensures quiet && r.Processed? ==>
        && r.count <= |old(s).ready|
        && ReleasedAll(old(s), old(memory.ops), s, memory.ops, old(s).ready[..r.count], r.count)
        && (r.count == 0 ==> s.ready == old(s).ready)
      decreases depth, 4
    {
      hide Inv, Agree, Evolves, Delivering;
      EvolvesRefl(s, memory.ops);
      var limit := if max == 0 then EV_MAX_REQUESTS_DEFAULT else max;
      if limit > MAX_EVENTS_REQUEST {
        return EventsRaised(OverflowError);
      }
      if min > limit {
        return EventsRaised(ValueError);
      }
      if !memoryOk {
        return EventsRaised(MemoryError);
      }
      ghost var all := ready;
      var ok, events := KernelGetEvents(limit, answer);
      if !ok {
        return EventsRaised(SystemError);
      }
      Deliver(thread, events, all, depth);
      assert forall j :: 0 <= j < |events| ==> events[j] == all[j];
      r := Processed(|events|);
    }

    /** The event loop, over the events that were just taken from `all`. */
    method Deliver(ghost thread: nat, events: seq<IoEvent>, ghost all: seq<IoEvent>, depth: nat)
      requires Inv(s) && Agree(s, id, fileno, memory.ops)
      requires opRefs == s.refs && kernel == s.kernel && |all| == |s.ready| && all == events + ready
      requires forall i :: 0 <= i < |all| ==> all[i].data == s.ready[i]
      modifies this, memory
      ensures Valid() && Evolves(old(s), old(memory.ops), s, memory.ops)
      ensures forall j :: 0 <= j < |events| ==>
        && events[j].data !in old(s).released && events[j].data in s.released
        && events[j].data in memory.ops && Told(memory.ops[events[j].data], events[j].res)
      ensures quiet ==>
        && ReleasedAll(old(s), old(memory.ops), s, memory.ops, old(s).ready[..|events|], |events|)
        && (events == [] ==> s.ready == old(s).ready)
      decreases depth, 3, 1
    {
      hide Inv, Agree, Evolves, Delivering, ReleasedAll, Told;
      var n := |events|;
      ghost var before, was, batch := s, memory.ops, s.ready[..n];
      ghost var results := TakenEvents(events, ready, s.ready);
      InvMembers(s);
      CollectDelivers(s, memory.ops, thread, n, results);
      CollectAgrees(s, id, fileno, memory.ops, thread, n);
      s := Collected(s, thread, n);
      DeliverAll(events, before, was, thread, batch, results, depth);
      DeliveringEnds(before, was, s, memory.ops, Frame(thread, batch, n), results);
      if quiet {
        CollectedReleases(before, was, thread, n, s, memory.ops);
      }
    }

    method DeliverAll(events: seq<IoEvent>, ghost before: State<Address>, ghost was: Ops, ghost thread: nat,
                      ghost batch: seq<Address>, ghost results: seq<int>, depth: nat)
      requires Valid() && Delivering(before, was, s, memory.ops, Frame(thread, batch, 0), results)
      requires |events| == |batch| == |results| && memory.ops == was
      requires forall j :: 0 <= j < |events| ==> events[j] == IoEvent(batch[j], results[j])
      modifies this, memory
      ensures Valid() && Delivering(before, was, s, memory.ops, Frame(thread, batch, |batch|), results)
      ensures quiet ==> ReleasedAll(old(s), was, s, memory.ops, batch, 0)
      ensures events == [] ==> s == old(s)
      decreases depth, 3, 0
    {
      hide Valid, Delivering, ReleasedAll;
      NothingReleased(s, was);
      var i := 0;
      while i < |events|
        invariant i <= |events| && Valid()
        invariant quiet ==> ReleasedAll(old(s), was, s, memory.ops, batch[..i], 0)
        invariant i == 0 ==> s == old(s)
        invariant Delivering(before, was, s, memory.ops, Frame(thread, batch, i), results)
      {
        ghost var mid, now := s, memory.ops;
        DeliverEvent(events[i], before, was, Frame(thread, batch, i), results, depth);
        if quiet {
          ReleasedNext(old(s), was, mid, now, s, memory.ops, batch, i, 0);
        }
        i := i + 1;
      }
      assert batch[..|batch|] == batch;
    }

    /** The body of the event loop. */
    method DeliverEvent(ev: IoEvent, ghost before: State<Address>, ghost was: Ops, ghost frame: Frame<Address>,
                        ghost results: seq<int>, depth: nat)
      requires Valid() && Delivering(before, was, s, memory.ops, frame, results)
      requires frame.called < |frame.batch| == |results|
      requires frame.batch[frame.called] == ev.data && results[frame.called] == ev.res
      modifies this, memory
      ensures Valid() && Delivering(before, was, s, memory.ops, frame.(called := frame.called + 1), results)
      ensures quiet ==> ReleasedAll(old(s), old(memory.ops), s, memory.ops, [ev.data], 0)
      decreases depth, 2
    {
      hide Inv, Agree, Evolves, Delivering;
      var a := ev.data;
      ghost var f, t, now := |before.frames|, s, memory.ops;
      DeliveringRuns(before, was, s, memory.ops, frame, results);
      NextRelease(s, f);
      AcceptedKnown(s, id, fileno, memory.ops, a);
      ghost var u := Released(s, f);
      SettleAgrees(s, u, id, fileno, memory.ops, a, ev.res);
      s := u;
      ghost var settled := memory.ops[a := Settle(memory.ops[a], ev.res)];
      SettleAndCallBack(a, ev.res, depth);
      ghost var mid := memory.ops;
      EvolvedOp(u, settled, s, mid, a);
      InvMembers(s);
      AgreeOp(s, id, fileno, mid, a);
      DropAgrees(s, id, fileno, mid, a, 0);
      DeliverOne(before, was, t, now, frame, results, settled, s, mid);
      if quiet {
        FrameReleases(t, now, f, s, ev.res);
      }
      memory.ops := memory.ops[a := memory.ops[a].(refs := memory.ops[a].refs - 1)];
    }
  }
}
