/** The asyncio adapter of the io_uring backend: deferred flushing, and the
    read handler of the eventfd.

    Its completion callback only resolves a future, which schedules the
    awaiting task and calls nothing of the Context: the Context is `quiet`. */
module UringAdapter {
  import opened Bags
  import opened Claims
  import opened Frames
  import opened UringContext
  import opened UringMemory
  import opened UringProtocol

  datatype SubmitOutcome = Submitted | NotSubmitted | FlushRaised

  /** Entries written to the submission ring and not yet taken by the kernel. */
  function Unsubmitted(s: State<Address>): int {
    |s.sqLog| - s.sqHead
  }

  /** The rings move on, and nothing is submitted. */
  ghost predicate Onward(s: State<Address>, t: State<Address>) {
    && t.sqLog == s.sqLog && s.sqHead <= t.sqHead && s.cqLog <= t.cqLog
    && s.calls <= t.calls && s.cqHead <= t.cqHead
    && (Announced(s) || |t.cqLog| > |s.cqLog| ==> Announced(t))
  }

  lemma OnwardRefl(s: State<Address>)
    ensures Onward(s, s)
  {
  }

  lemma OnwardTrans(s: State<Address>, t: State<Address>, u: State<Address>)
    requires Onward(s, t) && Onward(t, u)
    ensures Onward(s, u)
  {
  }

  lemma OnwardMeans(s: State<Address>, t: State<Address>)
    requires Onward(s, t)
    ensures t.sqLog == s.sqLog && s.sqHead <= t.sqHead && s.cqLog <= t.cqLog
    ensures s.calls <= t.calls && s.cqHead <= t.cqHead
    ensures Announced(s) || |t.cqLog| > |s.cqLog| ==> Announced(t)
  {
  }

  /** No completion is in the ring. */
  predicate Emptied(s: State<Address>) {
    s.cqHead == |s.cqLog|
  }

  /** What a drain can see. */
  function Visible(s: State<Address>): seq<Cqe<Address>> {
    if s.cqHead <= |s.cqLog| then s.cqLog[s.cqHead..] else []
  }

  /** Drains with the default limit, the `k`th of which has memory for its batch if `memory(k)`, empty the ring. */
  ghost predicate Drains(visible: seq<Cqe<Address>>, memory: nat -> bool, k: nat)
    decreases |visible|
  {
    || visible == []
    || (memory(k) && exists n: nat | 0 < n <= |visible| && DrainPrefix(visible, LimitOf(0), n) ::
          Drains(visible[n..], memory, k + 1))
  }

  lemma OneDrain(visible: seq<Cqe<Address>>, memory: nat -> bool, k: nat, n: nat)
    requires DrainPrefix(visible, LimitOf(0), n) && (memory(k) || visible == [])
    ensures Drains(visible, memory, k) <==> Drains(visible[n..], memory, k + 1)
  {
    if visible != [] {
      assert n > 0 by {
        assert visible[..0] == [];
      }
      forall m: nat | DrainPrefix(visible, LimitOf(0), m)
        ensures m == n
      {
        DrainPrefixUnique(visible, LimitOf(0), m, n);
      }
    }
  }

  lemma EvolvesRest(s: State<Address>, ops: Ops, t: State<Address>, now: Ops)
    requires Rest(s.frames) && Evolves(s, ops, t, now)
    ensures Rest(t.frames)
  {
    RestStays(s.frames, t.frames);
  }

  /** Submitting a single Operation stages it, or nothing at all. */
  lemma SoloBatch(self: Address, a: Address, stopped: nat, was: Ops, now: Ops, room: int, entries: seq<Sqe<Address>>)
    requires a in was && StagedBatch(self, [a], stopped, was, now, room, entries)
    ensures if stopped == 1 && !was[a].inProgress && Recognised(was[a].opcode)
            then entries == [SqeFor(a, was[a])] && 1 <= room && a in now && now[a] == Taken(was[a], self)
            else entries == [] && now == was
    ensures stopped == 0 ==> room == 0 && !was[a].inProgress
  {
    assert [a][..0] == [] && (stopped == 1 ==> [a][..1] == [a]);
    ClaimsSnoc([a], 0, Blocked(was));
    assert StagedOps(was, [], self) == was;
  }

  class AsyncioContext {
    const context: Context
    const deferred: bool
    var flushScheduled: bool
    var ready: nat               // `_deferred_flush` handles in the loop's ready queue

    constructor (context: Context, deferred: bool)
      requires context.Valid() && context.quiet && Unsubmitted(context.s) == 0
      requires Rest(context.s.frames) && context.s.handler.Asleep?
      ensures Valid() && FlushComes() && Idle() && this.context == context && this.deferred == deferred
    {
      this.context, this.deferred, flushScheduled, ready := context, deferred, false, 0;
    }

    ghost predicate Valid()
      reads this, context, context.memory, context.sqes, context.sqArray, context.cqes
    {
      context.Valid() && context.quiet && ready == if flushScheduled then 1 else 0
    }

    predicate Deferring() {
      deferred && !context.sqpoll
    }

    /** Whenever control is back in the loop and the submission ring is not empty, a flush is scheduled. */
    ghost predicate FlushComes()
      reads this, context
    {
      Deferring() && Unsubmitted(context.s) > 0 ==> ready > 0
    }

    /** No handler is running, and no batch is half delivered. */
    ghost predicate Idle()
      reads context
    {
      Rest(context.s.frames) && (context.s.handler.Asleep? || context.s.handler.Failed?)
    }

    /** Unless a handler failed, every completion in the ring is announced, or will be. */
    lemma AsleepIsSafe()
      requires Valid() && context.s.handler.Asleep?
      ensures !Stranded(context.s)
    {
    }

    /** `_submit_op` and `_on_submitted` for one Operation. */
    method SubmitOp(a: Address, answers: nat -> EnterAnswer, asleep: bool, memoryOk: bool)
      returns (outcome: SubmitOutcome)
      requires Valid() && FlushComes() && Idle() && a in context.memory.ops
      modifies this, context, context.memory, context.sqes, context.sqArray, context.cqes
      ensures Valid() && FlushComes() && Idle()
      ensures old(context.s).handler.Asleep? ==> context.s.handler.Asleep?
      ensures outcome.NotSubmitted? <==>
        || old(context.memory.ops[a].inProgress)
        || old(context.Room()) == 0
        || old(context.memory.ops[a].opcode) !in {URING_READ, URING_WRITE, URING_FSYNC, URING_FDSYNC}
      ensures outcome.NotSubmitted? ==>
        context.memory.ops == old(context.memory.ops) && context.s.sqLog == old(context.s).sqLog
      ensures !outcome.NotSubmitted? ==>
        context.s.sqLog == old(context.s).sqLog + [SqeFor(a, old(context.memory.ops[a]))]
      // the entry asks the kernel for this Operation's own request
      ensures !outcome.NotSubmitted? ==>
        && |context.s.sqLog| == |old(context.s).sqLog| + 1
        && AsksFor(context.s.sqLog[|old(context.s).sqLog|], a, old(context.memory.ops[a]))
      ensures outcome.FlushRaised? ==> !Deferring()
      ensures outcome.Submitted? && !context.sqpoll ==> if deferred then flushScheduled else Unsubmitted(context.s) == 0
    {
      hide Context.Valid, Inv, StagedBatch, SqOps, CqOps, Agree, SqeFor, AsksFor, OwnRequests;
      ghost var was, room := context.memory.ops, context.Room();
      var r;
      ghost var taken, entries;
      r, taken, entries := context.Submit([a]);
      assert [a][0] == a;
      SoloBatch(context.id, a, if r.RingFull? then r.at else 1, was, context.memory.ops, room, entries);
      if r != Accepted(1) {
        return NotSubmitted;
      }
      RequestExact(a, was[a], SqeFor(a, was[a]));
      var ok := OnSubmitted(answers, asleep, memoryOk);
      outcome := if ok then Submitted else FlushRaised;
    }

    method OnSubmitted(answers: nat -> EnterAnswer, asleep: bool, memoryOk: bool) returns (ok: bool)
      requires Valid() && Idle()
      modifies this, context, context.memory, context.sqes, context.sqArray, context.cqes
      ensures Valid() && FlushComes() && Idle() && context.s.sqLog == old(context.s).sqLog
      ensures old(context.s).handler.Asleep? ==> context.s.handler.Asleep?
      ensures !ok ==> !Deferring() && (!memoryOk || exists k: nat :: !answers(k).Accepts?)
      ensures Deferring() ==> flushScheduled && context.s == old(context.s)
      ensures ok && !deferred && !context.sqpoll ==> Unsubmitted(context.s) == 0
    {
      hide Context.Valid, Inv, SqOps, CqOps, Agree, Evolves, Implements, Rest;
      if !deferred || context.sqpoll {
        ghost var before, ops := context.s, context.memory.ops;
        var r;
        ghost var handed;
        r, handed := context.Flush(answers, asleep, 0, memoryOk, 0);
        EvolvesRest(before, ops, context.s, context.memory.ops);
        context.ValidParts();
        context.StagingBounds([]);
        return r.Flushed?;
      }
      if !flushScheduled {
        flushScheduled := true;
        ready := ready + 1;
      }
      ok := true;
    }

    /** The scheduled handle runs: everything staged so far reaches the kernel.  It raises only when the kernel
        refuses one of the enter calls, or when no memory is left for the drain. */
    method DeferredFlush(answers: nat -> EnterAnswer, asleep: bool, memoryOk: bool) returns (r: FlushResult)
      requires Valid() && Idle() && ready > 0
      modifies this, context, context.memory, context.sqes, context.sqArray, context.cqes
      ensures Valid() && Idle() && ready == 0
      ensures old(context.s).handler.Asleep? ==> context.s.handler.Asleep?
      ensures r.FlushError? ==> exists k: nat :: !answers(k).Accepts?
      ensures r.FlushNoMemory? ==> !memoryOk
      ensures !r.FlushError? ==> FlushComes()
      ensures !r.FlushError? && !context.sqpoll ==> Unsubmitted(context.s) == 0
      ensures !context.sqpoll ==> Unsubmitted(context.s) <= Unsubmitted(old(context.s))
    {
      hide Context.Valid, Inv, SqOps, CqOps, Agree, Evolves, Implements, Rest;
      flushScheduled := false;
      ready := ready - 1;
      ghost var before, ops := context.s, context.memory.ops;
      ghost var handed;
      r, handed := context.Flush(answers, asleep, 0, memoryOk, 0);
      EvolvesRest(before, ops, context.s, context.memory.ops);
      context.EvolvesHeads(before, ops, context.s, context.memory.ops);
      context.ValidParts();
      context.StagingBounds([]);
    }

    /** `Context.cancel` from a cancelled task: with a successful enter the number of unsubmitted entries stays. */
    method CancelOp(a: Address, answer: EnterAnswer) returns (r: CancelResult)
      requires Valid() && FlushComes() && Idle()
      modifies context, context.sqes, context.sqArray
      ensures Valid() && Idle() && context.s.handler == old(context.s).handler
      ensures r.CancelQueued? ==>
        Unsubmitted(context.s) == Unsubmitted(old(context.s)) + if answer.Accepts? then 0 else 1
      ensures r.CancelRingFull? ==> context.s == old(context.s)
      ensures Deferring() ==> (FlushComes() <==> r.CancelRingFull? || answer.Accepts? || flushScheduled)
    {
      hide Context.Valid, Inv, SqOps, CqOps, Agree;
      context.ValidParts();
      context.StagingBounds([]);
      r := context.Cancel(a, answer);
    }

    /** `_on_read_event`: clear the counter, whatever it reads, and drain until nothing is left.  The kernel goes on
        all the while, unless it is still: completions land between the clear and the drains.  `turns` drains return
        completions; the next one, which has memory for its batch if `memory(turns)`, is the last. */
    method OnReadEvent(memory: nat -> bool) returns (ok: bool, ghost turns: nat)
      requires Valid() && FlushComes() && Idle()
      modifies context, context.memory, context.sqes, context.sqArray, context.cqes
      ensures Valid() && FlushComes() && Idle()
      ensures old(context.s).cqLog <= context.s.cqLog && |old(context.s).calls| + turns <= |context.s.calls|
      // the handler ends as it should exactly if its last drain could allocate its batch, or needed none
      ensures ok <==> memory(turns) || Emptied(context.s)
      ensures forall k :: 0 <= k < turns ==> memory(k)
      ensures ok ==> Emptied(context.s) && context.s.handler.Asleep?
      ensures !ok ==> !Emptied(context.s) && (Stranded(context.s) <==> !Announced(context.s))
      // whatever was collected, by this handler or before, was called back
      ensures forall a :: a in CqOps(context.s.cqLog[..context.s.cqHead]) ==> a in context.s.calls
      ensures ok ==> forall a :: a in CqOps(context.s.cqLog) ==> a in context.s.calls
      // a first drain that fails has only cleared the counter
      ensures !ok && turns == 0 ==>
        && context.memory.ops == old(context.memory.ops)
        && KernelOnly(old(context.s).(counter := 0, handler := Failed), context.s)
      ensures Stranded(context.s) ==>
        !memory(turns) && !Emptied(old(context.s)) && old(context.s).owed == 0
          && context.s.cqLog == old(context.s).cqLog
      // with the kernel still, all this can be told beforehand
      ensures context.still ==>
        && context.s.cqLog == old(context.s).cqLog
        && (ok <==> Drains(Visible(old(context.s)), memory, 0))
        && (Stranded(context.s) <==> !Drains(Visible(old(context.s)), memory, 0) && old(context.s).owed == 0)
    {
      hide Context.Valid, Inv, SqOps, CqOps, Agree, Evolves, Rest, Onward, Drains, DrainPrefix;
      context.CqBounds();
      var _ := context.Poll();    // BlockingIOError is ignored
      ghost var polled := context.s;
      ok, turns := DrainAll(memory);
      OnwardMeans(polled, context.s);
      CollectedCalled();
      if ok {
        AllCalled();
      }
      context.HandlerEnds();
    }

    /** The drain loop of the handler. */
    method DrainAll(memory: nat -> bool) returns (ok: bool, ghost turns: nat)
      requires Valid() && Rest(context.s.frames) && context.s.handler.Awake?
      modifies context, context.memory, context.sqes, context.sqArray, context.cqes
      ensures Valid() && Rest(context.s.frames) && Onward(old(context.s), context.s)
      ensures |old(context.s).calls| + turns <= |context.s.calls|
      ensures ok <==> Emptied(context.s)
      ensures if ok then context.s.handler.Drained? else !memory(turns)
      ensures context.s.handler.Awake? || context.s.handler.Drained?
      ensures forall k :: 0 <= k < turns ==> memory(k)
      ensures !ok && turns == 0 ==>
        context.memory.ops == old(context.memory.ops) && KernelOnly(old(context.s), context.s)
      ensures context.still ==>
        && context.s.cqLog == old(context.s).cqLog && context.s.owed == old(context.s).owed
        && context.s.counter == old(context.s).counter && (ok <==> Drains(Visible(old(context.s)), memory, 0))
    {
      hide Context.Valid, Inv, SqOps, CqOps, Agree, Evolves, Rest, Onward, Drains, DrainPrefix, KernelOnly;
      OnwardRefl(context.s);
      turns := 0;
      var turn: nat := 0;
      ok := false;
      while !ok
        invariant Valid() && Rest(context.s.frames) && Onward(old(context.s), context.s)
        invariant if ok then context.s.handler.Drained? && Emptied(context.s) else turn == turns
        invariant !ok ==> context.s.handler.Awake? || (context.s.handler.Drained? && turn > 0)
        invariant turn == 0 ==> context.s == old(context.s) && context.memory.ops == old(context.memory.ops)
        invariant |old(context.s).calls| + turns <= |context.s.calls|
        invariant forall k :: 0 <= k < turns ==> memory(k)
        invariant context.still ==> StillDraining(old(context.s), context.s, memory, turn)
        decreases !ok, |context.memory.ops.Keys| - |context.s.calls|
      {
        CallsBounded();
        ghost var before := context.s;
        var r;
        ghost var n;
        r, n := DrainOnce(memory(turn));
        OnwardTrans(old(context.s), before, context.s);
        if !r.Processed? {
          OnwardMeans(before, context.s);
          FailedDrain(memory, turn);
          return false, turns;
        }
        CallsBounded();
        if context.still {
          OneDrain(Visible(before), memory, turn, n);
        }
        ok := r.count == 0;
        turns := if ok then turns else turns + 1;
        turn := turn + 1;
      }
      NothingLeft(memory, turn);
    }

    /** With the kernel still, what remains to be drained decides whether the drains will empty the ring. */
    ghost predicate StillDraining(s: State<Address>, t: State<Address>, memory: nat -> bool, turn: nat) {
      && t.cqLog == s.cqLog && t.owed == s.owed && t.counter == s.counter
      && (Drains(Visible(s), memory, 0) <==> Drains(Visible(t), memory, turn))
    }

    lemma FailedDrain(memory: nat -> bool, turn: nat)
      requires Valid() && !Emptied(context.s) && !memory(turn)
      ensures !Drains(Visible(context.s), memory, turn)
    {
      context.CqBounds();
    }

    lemma NothingLeft(memory: nat -> bool, turn: nat)
      requires Emptied(context.s)
      ensures Drains(Visible(context.s), memory, turn)
    {
    }

    /** One turn of the drain loop, after whatever the kernel does. */
    method DrainOnce(memoryOk: bool) returns (r: EventsResult, ghost n: nat)
      requires Valid() && Rest(context.s.frames)
      modifies context, context.memory, context.sqes, context.sqArray, context.cqes
      ensures Valid() && Rest(context.s.frames) && Onward(old(context.s), context.s)
      ensures context.memory.ops.Keys == old(context.memory.ops).Keys
      ensures r.Processed? || r.EventsNoMemory?
      ensures r.EventsNoMemory? ==>
        && !memoryOk && !Emptied(context.s) && context.memory.ops == old(context.memory.ops)
        && KernelOnly(old(context.s), context.s) && (context.still ==> context.s == old(context.s))
        && context.s.handler == old(context.s).handler
      ensures r.Processed? ==>
        && (r.count == 0 ==> Emptied(context.s) && context.s.handler == FoundEmpty(old(context.s).handler))
        && (context.s.handler == old(context.s).handler || context.s.handler == FoundEmpty(old(context.s).handler))
        && (r.count > 0 ==> memoryOk)
        && |old(context.s).calls| + r.count <= |context.s.calls|
      ensures r.Processed? && context.still ==>
        && context.s.cqLog == old(context.s).cqLog && context.s.owed == old(context.s).owed
        && context.s.counter == old(context.s).counter
        && DrainPrefix(Visible(old(context.s)), LimitOf(0), n) && Visible(context.s) == Visible(old(context.s))[n..]
        && (memoryOk || Visible(old(context.s)) == [])
    {
      hide Context.Valid, Inv, SqOps, CqOps, Agree, Evolves, Rest, DrainPrefix;
      context.CqBounds();
      if !context.still {
        context.KernelRuns();
      }
      context.CqBounds();
      ghost var before, ops := context.s, context.memory.ops;
      r, n := context.ProcessEvents(0, 0, Accepts, 0, memoryOk, 0);
      context.EvolvesHeads(before, ops, context.s, context.memory.ops);
      context.EvolvesCalls(before, ops, context.s, context.memory.ops);
      if r.Processed? {
        EvolvesRest(before, ops, context.s, context.memory.ops);
        PrefixFits(Visible(before), n);
      }
    }

    lemma PrefixFits(visible: seq<Cqe<Address>>, n: nat)
      requires DrainPrefix(visible, LimitOf(0), n)
      ensures n <= |visible|
    {
    }

    /** With no batch under way, everything collected was called back. */
    lemma CollectedCalled()
      requires Valid() && Rest(context.s.frames)
      ensures context.s.cqHead <= |context.s.cqLog|
      ensures forall a :: a in CqOps(context.s.cqLog[..context.s.cqHead]) ==> a in context.s.calls
    {
      NothingWaits(context.s.frames);
      hide SqOps, CqOps, Waiting;
      SubbagMembers(CqOps(context.s.cqLog[..context.s.cqHead]), context.s.calls);
    }

    lemma AllCalled()
      requires Valid() && Rest(context.s.frames) && context.s.cqHead == |context.s.cqLog|
      ensures forall a :: a in CqOps(context.s.cqLog) ==> a in context.s.calls
    {
      CollectedCalled();
      assert context.s.cqLog[..context.s.cqHead] == context.s.cqLog;
    }

    /** Operations are called back once each, so a drain loop cannot go on for ever. */
    lemma CallsBounded()
      requires Valid()
      ensures |context.s.calls| <= |context.memory.ops.Keys|
    {
      hide SqOps, CqOps, Waiting;
      CallsNoDup(context.s);
      InvMembers(context.s);
      NoDupFits(context.s.calls, context.memory.ops.Keys);
    }

    /** While the loop waits, the kernel goes on; the idle adapter stays safe. */
    method Meanwhile()
      requires Valid() && FlushComes() && Idle()
      modifies context, context.cqes
      ensures Valid() && FlushComes() && Idle() && context.s.handler == old(context.s).handler
    {
      hide Context.Valid, Rest;
      context.KernelRuns();
    }
  }

  // -------------------------------------------------------- when it goes wrong

  /** A Context whose one read was submitted, taken, completed and signalled. */
  method OneCompletion() returns (context: Context)
    ensures fresh(context) && fresh(context.memory) && fresh(context.sqes) && fresh(context.sqArray)
      && fresh(context.cqes)
    ensures context.Valid() && context.quiet && context.still && Unsubmitted(context.s) == 0 && context.s.frames == []
    ensures context.s.handler.Asleep? && !Emptied(context.s) && context.s.owed == 0
  {
    hide Inv, Agree, SqOps, CqOps, StagedBatch, Context.Valid;
    var op := Operation(URING_READ, 0, 0, 1, 0, 0, false, false, NULL, 0);
    var memory := new Memory(map[1 := op]);
    FreshAgrees(2, memory.ops);
    context := new Context(2, 1, 1, false, false, memory, true, true);
    context.CqBounds();
    ghost var room := context.Room();
    Submits(context, op);
    var _ := context.KernelEnter(1, Accepts);
    context.CqBounds();
    context.KernelPost(0, 0);
    context.KernelSignal(1);
  }

  /** Submitting the only Operation of a fresh Context. */
  method Submits(context: Context, op: Operation)
    requires context.Valid() && context.s == Init({}) && context.Room() == 2
    requires context.memory.ops == map[1 := op] && op.opcode == URING_READ && !op.inProgress
    modifies context.memory, context`sqHead, context`sqTail, context`inKernel, context`opRefs, context`s,
             context.sqes, context.sqArray
    ensures context.Valid() && context.s == Init({}).(claimed := context.s.claimed, sqLog := [SqeFor(1, op)], refs := 1)
  {
    hide Inv, Agree, CqOps, StagedBatch, Context.Valid;
    var r;
    ghost var taken, entries;
    r, taken, entries := context.Submit([1]);
    SoloBatch(context.id, 1, if r.RingFull? then r.at else 1, map[1 := op], context.memory.ops, 2, entries);
    assert entries == [SqeFor(1, op)] && taken == 0;
    SubmittedOne(SqeFor(1, op), Busy(map[1 := op]));
  }

  lemma SubmittedOne(sqe: Sqe<Address>, claimed: set<Address>)
    requires sqe.tag.OpTag?
    ensures var t := UringProtocol.Submitted(Handed(Init({}), 0).(claimed := claimed), [sqe]);
      t == Init({}).(claimed := t.claimed, sqLog := [sqe], refs := 1)
  {
    SqOpsOne(sqe);
    hide SqOps;
    assert [] + [sqe] == [sqe] && Handed(Init<Address>({}), 0) == Init({});
    assert |SqOps([sqe])| == 1;
  }

  function NoMemory(turn: nat): bool {
    false
  }

  /** Its handler clears the counter and then finds no memory for its batch: it leaves the completion in the ring
      with nothing to announce it. */
  method AllocationFailureStrands() returns (adapter: AsyncioContext, ok: bool)
    ensures adapter.Valid() && !ok && Stranded(adapter.context.s)
  {
    hide Context.Valid;
    var context := OneCompletion();
    adapter := new AsyncioContext(context, true);
    context.CqBounds();
    assert !NoMemory(0) && !Drains(Visible(context.s), NoMemory, 0);
    ghost var turns;
    ok, turns := adapter.OnReadEvent(NoMemory);
  }

  lemma FreshAgrees(id: Address, ops: Ops)
    requires id != NULL
    requires forall a :: a in ops ==>
      !ops[a].inProgress && !ops[a].done && ops[a].context == NULL && ops[a].refs == 0 && ops[a].error == 0
    ensures Agree(Init({}), id, ops)
  {
  }
}
