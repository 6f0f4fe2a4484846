/** The asyncio adapter of the Linux AIO backend: submissions put off to the next
    turn of the loop, and the futures that wait for them.

    Each Operation is submitted through the adapter once, as its read, write and
    fsync helpers do; a future is known by its Operation.  The completion callback
    only resolves the future and calls nothing of the Context: the Context is
    `quiet`, and the callbacks of a call are run, in order, after it. */
module AioAdapter {
  import opened AioProtocol
  import opened Bags
  import opened Claims
  import opened Frames
  import opened LinuxAio

  datatype Why = NotSubmitted | SubmitRaised

  datatype Future = Waiting | HasResult | HasException(why: Why) | Cancelled

  type Futures = map<Address, Future>

  predicate Done(futures: Futures, op: Address) {
    op in futures && !futures[op].Waiting?
  }

  /** Futures only ever go from waiting to done. */
  ghost predicate Later(futures: Futures, later: Futures) {
    later.Keys == futures.Keys && forall op :: op in futures && !futures[op].Waiting? ==> later[op] == futures[op]
  }

  /** With the kernel, or finished there and not collected yet. */
  predicate InFlight(accepted: seq<Address>, released: seq<Address>, op: Address) {
    op in accepted && op !in released
  }

  /** Where the Operation of a future is. */
  predicate Placed(op: Address, f: Future, pending: seq<Address>, claimed: set<Address>, accepted: seq<Address>,
                   released: seq<Address>) {
    match f
    case Waiting => (op in pending && op !in claimed) || InFlight(accepted, released, op)
    case HasResult => op in released
    case HasException(_) => op !in claimed && op !in pending      // rolled back: claimable again
    case Cancelled => true
  }

  ghost predicate Tidy(futures: Futures, pending: seq<Address>, claimed: set<Address>, accepted: seq<Address>,
                       released: seq<Address>) {
    && (forall op :: op in futures ==> Placed(op, futures[op], pending, claimed, accepted, released))
    && NoDup(pending) && (forall op :: op in pending ==> op in futures && op !in claimed)
    && (forall op :: op in accepted ==> op in futures && op in claimed)
  }

  /** Every future that is done was resolved once, no other was. */
  ghost predicate ResolvedOnce(futures: Futures, resolved: seq<Address>) {
    NoDup(resolved) && forall op :: op in resolved <==> Done(futures, op)
  }

  /** The Operations of a list whose future still waits. */
  function Wanted(ops: seq<Address>, futures: Futures): seq<Address> {
    if ops == [] then []
    else
      var last := ops[|ops| - 1];
      Wanted(ops[..|ops| - 1], futures) + if last in futures && futures[last].Waiting? then [last] else []
  }

  /** They are exactly those, each once, in the order of the list. */
  lemma WantedExact(ops: seq<Address>, futures: Futures)
    requires NoDup(ops)
    ensures var wanted := Wanted(ops, futures);
      && NoDup(wanted)
      && (forall op :: op in wanted <==> op in ops && op in futures && futures[op].Waiting?)
      && (forall i, j :: 0 <= i < j < |wanted| ==> OccursBefore(ops, wanted[i], wanted[j]))
  {
    var gone := set op | op in ops && !(op in futures && futures[op].Waiting?);
    WantedIsClaims(ops, futures, gone);
    FirstClaimsExact(ops, gone);
  }

  lemma {:induction false} WantedIsClaims(ops: seq<Address>, futures: Futures, gone: set<Address>)
    requires NoDup(ops) && forall op :: op in ops ==> (op in gone <==> !(op in futures && futures[op].Waiting?))
    ensures Wanted(ops, futures) == FirstClaims(ops, gone)
  {
    if ops != [] {
      var n := |ops| - 1;
      WantedIsClaims(ops[..n], futures, gone);
      ClaimsMembers(ops[..n], gone);
      assert ops == ops[..n] + [ops[n]];
    }
  }

  /** That description leaves no freedom. */
  lemma WantedUnique(ops: seq<Address>, futures: Futures, list: seq<Address>)
    requires NoDup(ops) && NoDup(list)
    requires forall op :: op in list <==> op in ops && op in futures && futures[op].Waiting?
    requires forall i, j :: 0 <= i < j < |list| ==> OccursBefore(ops, list[i], list[j])
    ensures list == Wanted(ops, futures)
  {
    WantedExact(ops, futures);
    SameOrder(ops, list, Wanted(ops, futures));
  }

  /** Whoever waits ahead of one of the first `k` is one of them. */
  lemma WantedPrefix(ops: seq<Address>, futures: Futures, k: nat, i: nat, j: nat)
    requires NoDup(ops) && k <= |Wanted(ops, futures)| && i < j < |ops|
    requires ops[i] in futures && futures[ops[i]].Waiting? && ops[j] in Wanted(ops, futures)[..k]
    ensures ops[i] in Wanted(ops, futures)[..k]
  {
    WantedExact(ops, futures);
    var wanted := Wanted(ops, futures);
    var p :| 0 <= p < |wanted| && wanted[p] == ops[i];
    var q :| 0 <= q < k && wanted[q] == ops[j];
    assert ops[i] in ops[..j + 1];
    assert q < p ==> OccursBefore(ops, ops[j], ops[i]);
    assert wanted[..k][p] == ops[i];
  }

  /** Distinct Operations that nobody claimed are all claimed, in order. */
  lemma {:induction false} FreshClaims(ops: seq<Address>, taken: set<Address>)
    requires NoDup(ops) && forall op :: op in ops ==> op !in taken
    ensures FirstClaims(ops, taken) == ops
  {
    if ops != [] {
      var n := |ops| - 1;
      FreshClaims(ops[..n], taken);
      assert ops == ops[..n] + [ops[n]];
    }
  }

  lemma AcceptedMembers(s: State<Address>, ops: seq<Address>, k: nat)
    requires k <= |ops| && NoDup(ops)
    ensures var t := Submitted(s, ops, k);
      && (forall op :: op in t.accepted <==> op in s.accepted || op in ops[..k])
      && (forall op :: op in t.claimed <==> op in s.claimed || op in ops[..k])
    ensures forall op :: op in ops <==> op in ops[..k] || op in ops[k..]
    ensures forall op :: op in ops[k..] ==> op !in ops[..k]
  {
  }

  /** One Operation is handed over at once. */
  lemma DirectTidy(futures: Futures, pending: seq<Address>, s: State<Address>, op: Address, k: nat)
    requires Tidy(futures, pending, s.claimed, s.accepted, s.released) && op !in futures && op !in s.claimed && k <= 1
    requires forall x :: x in s.released ==> x in s.accepted
    ensures var t := Submitted(s, [op], k);
      if k == 1 then Tidy(futures[op := Waiting], pending, t.claimed, t.accepted, t.released)
                     && InFlight(t.accepted, t.released, op)
      else Tidy(futures, pending, t.claimed, t.accepted, t.released) && op !in t.claimed
  {
    AcceptedMembers(s, [op], k);
    var t := Submitted(s, [op], k);
    assert t.released == s.released;
    hide Submitted;
    if k == 1 {
      assert [op][..1] == [op];
    } else {
      assert [op][..0] == [];
    }
  }

  lemma PendTidy(futures: Futures, pending: seq<Address>, claimed: set<Address>, accepted: seq<Address>,
                 released: seq<Address>, op: Address)
    requires Tidy(futures, pending, claimed, accepted, released) && op !in futures && op !in claimed
    ensures Tidy(futures[op := Waiting], pending + [op], claimed, accepted, released)
  {
  }

  /** The pending list is emptied; those still wanted are in flight or have their exception. */
  lemma DeferredTidy(futures: Futures, pending: seq<Address>, s: State<Address>, wanted: seq<Address>, k: nat,
                     futures': Futures, why: Why)
    requires Tidy(futures, pending, s.claimed, s.accepted, s.released) && NoDup(wanted) && k <= |wanted|
    requires forall x :: x in s.released ==> x in s.accepted
    requires forall op :: op in wanted <==> op in pending && futures[op].Waiting?
    requires futures'.Keys == futures.Keys
    requires forall op :: op in futures ==>
      futures'[op] == if op in wanted[k..] then HasException(why) else futures[op]
    ensures var t := Submitted(s, wanted, k);
      && Tidy(futures', [], t.claimed, t.accepted, t.released)
      && (forall op :: op in wanted[..k] ==> InFlight(t.accepted, t.released, op))
      && (forall op :: op in wanted[k..] ==> op !in t.claimed)
  {
    AcceptedMembers(s, wanted, k);
    var t := Submitted(s, wanted, k);
    assert t.released == s.released;
    hide Submitted;
  }

  lemma PendingKnown(futures: Futures, pending: seq<Address>, claimed: set<Address>, accepted: seq<Address>,
                     released: seq<Address>)
    requires Tidy(futures, pending, claimed, accepted, released)
    ensures NoDup(pending) && forall op :: op in pending ==> op in futures && op !in claimed
    ensures forall op :: op in accepted ==> op in futures
  {
  }

  /** The futures of released Operations are done. */
  lemma ReleasedTidy(futures: Futures, pending: seq<Address>, claimed: set<Address>, accepted: seq<Address>,
                     released: seq<Address>, batch: seq<Address>, futures': Futures)
    requires Tidy(futures, pending, claimed, accepted, released)
    requires forall op :: op in batch ==> op in accepted
    requires futures'.Keys == futures.Keys
    requires forall op :: op in futures ==>
      futures'[op] == if op in batch && futures[op].Waiting? then HasResult else futures[op]
    ensures Tidy(futures', pending, claimed, accepted, released + batch)
    ensures Later(futures, futures') && forall op :: op in batch ==> Done(futures', op)
  {
  }

  lemma CancelledTidy(futures: Futures, pending: seq<Address>, claimed: set<Address>, accepted: seq<Address>,
                      released: seq<Address>, op: Address)
    requires Tidy(futures, pending, claimed, accepted, released) && op in futures
    ensures Tidy(futures[op := Cancelled], pending, claimed, accepted, released)
  {
  }

  lemma LaterRefl(futures: Futures)
    ensures Later(futures, futures)
  {
  }

  lemma LaterTrans(a: Futures, b: Futures, c: Futures)
    requires Later(a, b) && Later(b, c)
    ensures Later(a, c)
  {
  }

  lemma ReleasedIsDone(futures: Futures, pending: seq<Address>, claimed: set<Address>, accepted: seq<Address>,
                       released: seq<Address>, op: Address)
    requires Tidy(futures, pending, claimed, accepted, released) && op in accepted && op in released
    ensures Done(futures, op)
  {
  }

  /** Between two turns of the loop whatever is accepted and not released is still with the kernel, or waits to be
      collected. */
  lemma InFlightWhere(s: State<Address>, op: Address)
    requires Inv(s) && Rest(s.frames) && InFlight(s.accepted, s.released, op)
    ensures op in s.kernel || op in s.ready
  {
    NothingWaits(s.frames);
    hide Frames.Waiting;
    assert op in multiset(s.accepted);
  }

  class AsyncioContext {
    const context: Context
    const deferred: bool
    var pending: seq<Address>
    var submitScheduled: bool
    var handles: nat                   // `_deferred_submit` handles in the loop's ready queue
    var futures: Futures
    ghost var resolved: seq<Address>

    constructor (context: Context, deferred: bool)
      requires context.Valid() && context.quiet && context.s.accepted == [] && Rest(context.s.frames)
      ensures Valid() && futures == map[] && this.context == context && this.deferred == deferred
    {
      this.context, this.deferred, pending, submitScheduled, handles, futures := context, deferred, [], false, 0, map[];
      resolved := [];
    }

    ghost predicate Valid()
      reads this, context, context.memory
    {
      && context.Valid() && context.quiet && Rest(context.s.frames)
      && Tidy(futures, pending, Busy(context.memory.ops), context.s.accepted, context.s.released)
      && ResolvedOnce(futures, resolved) && futures.Keys <= context.memory.ops.Keys
      && handles == (if submitScheduled then 1 else 0)
      && (pending != [] ==> submitScheduled)
    }

    /** What the adapter promises to whoever awaits. */
    lemma NobodyIsForgotten()
      requires Valid()
      ensures forall op :: op in futures && futures[op].Waiting? ==>
        (op in pending && handles == 1) || op in context.s.kernel || op in context.s.ready
      ensures forall op :: op in futures && futures[op].HasException? ==>
        op in context.memory.ops && !context.memory.ops[op].inProgress
      ensures forall op :: op in futures && futures[op].HasResult? ==>
        op in context.memory.ops && context.memory.ops[op].done
      ensures NoDup(resolved)
    {
      hide Inv, Agree;
      forall op | op in futures && futures[op].Waiting? && op !in pending
        ensures op in context.s.kernel || op in context.s.ready
      {
        InFlightWhere(context.s, op);
      }
      forall op | op in futures && futures[op].HasResult?
        ensures op in context.memory.ops && context.memory.ops[op].done
      {
        AgreeOp(context.s, context.id, context.fileno, context.memory.ops, op);
      }
    }

    /** future.set_result, set_exception or cancel. */
    method Resolve(op: Address, f: Future)
      requires op in futures && futures[op].Waiting? && !f.Waiting? && ResolvedOnce(futures, resolved)
      modifies this`futures, this`resolved
      ensures futures == old(futures)[op := f] && ResolvedOnce(futures, resolved)
    {
      NoDupConcat(resolved, [op]);
      resolved := resolved + [op];
      futures := futures[op := f];
    }

    /** `Context.submit(*ops)`, for distinct Operations that nobody claimed; -1 stands for an exception. */
    method ContextSubmit(ops: seq<Address>, answer: SubmitAnswer) returns (accepted: int)
      requires context.Valid() && NoDup(ops) && ops != []
      requires forall op :: op in ops ==> op in context.memory.ops && !context.memory.ops[op].inProgress
      modifies context.memory, context`opRefs, context`kernel, context`s
      ensures context.Valid() && context.memory.ops.Keys == old(context.memory.ops).Keys
      ensures
        var k := Reaching(ops, answer);
        && context.s == Submitted(old(context.s).(claimed := Busy(old(context.memory.ops))), ops, k)
        && Busy(context.memory.ops) == context.s.claimed
        && accepted == if answer.Fails? then -1 else k
    {
      hide Context.Valid, Outcome, Busy, FirstClaims;
      ghost var was := context.memory.ops;
      Unclaimed(ops, was);
      FreshClaims(ops, Busy(was));
      OutcomeBusy(was, ops, Reaching(ops, answer), context.id, context.fileno);
      var r := context.Submit(ops, answer);
      accepted := if r.Accepted? then r.count else -1;
    }

    lemma Unclaimed(ops: seq<Address>, was: Ops)
      requires forall op :: op in ops ==> op in was && !was[op].inProgress
      ensures forall op :: op in ops ==> op !in Busy(was)
    {
    }

    /** `submit(op)` up to its await: a new future, and `_submit_op`.  Outside deferred mode a refusal is raised to
        the caller, who gets no future. */
    method Submit(op: Address, answer: SubmitAnswer) returns (ok: bool)
      requires Valid() && op !in futures && op in context.memory.ops && !context.memory.ops[op].inProgress
      modifies this, context.memory, context`opRefs, context`kernel, context`s
      ensures Valid()
      ensures ok <==> deferred || (answer.Takes? && answer.k > 0)
      ensures ok ==> futures == old(futures)[op := Waiting]
      ensures ok ==> if deferred then pending == old(pending) + [op] else op in context.s.kernel
      ensures !ok ==> futures == old(futures) && pending == old(pending)
      ensures !ok ==> op in context.memory.ops && !context.memory.ops[op].inProgress
    {
      hide Inv, Agree, Tidy, Submitted, FirstClaims, Context.Valid;
      ok := true;
      if !deferred {
        ghost var before := context.s.(claimed := Busy(context.memory.ops));
        context.ReleasedWereAccepted();
        var accepted := ContextSubmit([op], answer);
        SubmittedParts(before, [op], Reaching([op], answer));
        DirectTidy(futures, pending, before, op, if accepted < 0 then 0 else accepted);
        ok := accepted == 1;
        if ok {
          assert [op][..1] == [op];
          futures := futures[op := Waiting];
        }
        return;
      }
      PendTidy(futures, pending, Busy(context.memory.ops), context.s.accepted, context.s.released, op);
      futures := futures[op := Waiting];
      pending := pending + [op];
      if !submitScheduled {
        submitScheduled := true;
        handles := handles + 1;
      }
    }

    /** The pending Operations whose future is not done yet, in order. */
    method StillWanted(ops: seq<Address>) returns (wanted: seq<Address>)
      requires NoDup(ops) && forall op :: op in ops ==> op in futures
      ensures wanted == Wanted(ops, futures)
    {
      wanted := [];
      for i := 0 to |ops|
        invariant wanted == Wanted(ops[..i], futures)
      {
        assert ops[..i + 1][..i] == ops[..i];
        if futures[ops[i]].Waiting? {
          wanted := wanted + [ops[i]];
        }
      }
      assert ops[..|ops|] == ops;
    }

    /** `_deferred_submit`: of the futures still waiting, those of the accepted prefix have their Operation in
        flight, each of the others has the exception that tells why and a claimable Operation. */
    method DeferredSubmit(answer: SubmitAnswer)
      requires Valid() && handles > 0
      modifies this, context.memory, context`opRefs, context`kernel, context`s
      ensures Valid() && pending == [] && handles == 0
      ensures futures.Keys == old(futures).Keys
      ensures
        var wanted := Wanted(old(pending), old(futures));
        var k := Reaching(wanted, answer);
        && context.s.kernel == old(context.s).kernel + wanted[..k]
        && (forall op :: op in wanted[k..] ==> op in context.memory.ops && !context.memory.ops[op].inProgress)
        && var failure := HasException(if answer.Fails? then SubmitRaised else NotSubmitted);
           forall op :: op in futures ==> futures[op] == if op in wanted[k..] then failure else old(futures)[op]
      // the oldest come first: who still waits has nobody ahead that was turned away, and the kernel got them in order
      ensures forall i, j :: 0 <= i < j < |old(pending)| ==>
        && old(pending)[i] in old(futures) && old(pending)[i] in futures && old(pending)[j] in futures
        && (old(futures)[old(pending)[i]].Waiting? && futures[old(pending)[j]].Waiting? ==>
              futures[old(pending)[i]].Waiting?)
      ensures |old(context.s).kernel| <= |context.s.kernel|
      ensures var taken := context.s.kernel[|old(context.s).kernel|..];
        forall i, j :: 0 <= i < j < |taken| ==> OccursBefore(old(pending), taken[i], taken[j])
    {
      hide Inv, Agree, Submitted, FirstClaims, ResolvedOnce, Wanted, Context.Valid;
      submitScheduled := false;
      handles := handles - 1;
      var all := pending;
      pending := [];
      context.ReleasedWereAccepted();
      PendingKnown(futures, all, Busy(context.memory.ops), context.s.accepted, context.s.released);
      WantedExact(all, futures);
      OldestFirst(all, futures, Reaching(Wanted(all, futures), answer));
      var wanted := StillWanted(all);
      ghost var before, was, k := context.s.(claimed := Busy(context.memory.ops)), futures, Reaching(wanted, answer);
      SubmittedParts(before, wanted, k);
      if wanted == [] {
        DeferredTidy(was, all, before, [], 0, futures, NotSubmitted);
        return;
      }
      var accepted := ContextSubmit(wanted, answer);
      var from := if accepted < 0 then 0 else accepted;
      var why := if accepted < 0 then SubmitRaised else NotSubmitted;
      FailFrom(wanted, from, why);
      hide Tidy;
      DeferredTidy(was, all, before, wanted, from, futures, why);
    }

    lemma OldestFirst(all: seq<Address>, futures: Futures, k: nat)
      requires NoDup(all) && (forall op :: op in all ==> op in futures) && k <= |Wanted(all, futures)|
      ensures var wanted := Wanted(all, futures);
        forall i, j :: 0 <= i < j < |all| && futures[all[i]].Waiting? && all[j] in wanted[..k] ==> all[i] in wanted[..k]
      ensures var wanted := Wanted(all, futures);
        && (forall op :: op in wanted[..k] ==> op !in wanted[k..])
        && (forall op :: op in all && futures[op].Waiting? && op !in wanted[k..] ==> op in wanted[..k])
        && (forall i, j :: 0 <= i < j < k ==> OccursBefore(all, wanted[..k][i], wanted[..k][j]))
    {
      WantedExact(all, futures);
      var wanted := Wanted(all, futures);
      assert wanted == wanted[..k] + wanted[k..];
      NoDupSplit(wanted[..k], wanted[k..]);
      forall i, j | 0 <= i < j < |all| && futures[all[i]].Waiting? && all[j] in wanted[..k]
        ensures all[i] in wanted[..k]
      {
        WantedPrefix(all, futures, k, i, j);
      }
    }

    /** The futures from `from` on get an exception. */
    method FailFrom(ops: seq<Address>, from: nat, why: Why)
      requires NoDup(ops) && from <= |ops| && ResolvedOnce(futures, resolved)
      requires forall op :: op in ops ==> op in futures && futures[op].Waiting?
      modifies this`futures, this`resolved
      ensures ResolvedOnce(futures, resolved) && futures.Keys == old(futures).Keys
      ensures forall op :: op in futures ==>
        futures[op] == if op in ops[from..] then HasException(why) else old(futures)[op]
    {
      for i := from to |ops|
        invariant ResolvedOnce(futures, resolved) && futures.Keys == old(futures).Keys
        invariant forall op :: op in futures ==>
          futures[op] == if op in ops[from..i] then HasException(why) else old(futures)[op]
      {
        assert ops[from..i + 1] == ops[from..i] + [ops[i]];
        assert ops[i] !in ops[from..i];
        if futures[ops[i]].Waiting? {
          Resolve(ops[i], HasException(why));
        }
      }
      assert ops[from..|ops|] == ops[from..];
    }

    /** `_on_done`. */
    method OnDone(op: Address)
      requires op in futures && ResolvedOnce(futures, resolved)
      modifies this`futures, this`resolved
      ensures ResolvedOnce(futures, resolved)
      ensures futures == if old(futures)[op].Waiting? then old(futures)[op := HasResult] else old(futures)
    {
      if futures[op].Waiting? {
        Resolve(op, HasResult);
      }
    }

    /** The callbacks of one call of process_events. */
    method AllDone(batch: seq<IoEvent>)
      requires ResolvedOnce(futures, resolved) && forall i :: 0 <= i < |batch| ==> batch[i].data in futures
      modifies this`futures, this`resolved
      ensures ResolvedOnce(futures, resolved) && futures.Keys == old(futures).Keys
      ensures forall op :: op in futures ==>
        futures[op] == if op in Data(batch) && old(futures)[op].Waiting? then HasResult else old(futures)[op]
    {
      for i := 0 to |batch|
        invariant ResolvedOnce(futures, resolved) && futures.Keys == old(futures).Keys
        invariant forall op :: op in futures ==>
          futures[op] == if op in Data(batch[..i]) && old(futures)[op].Waiting? then HasResult else old(futures)[op]
      {
        assert Data(batch[..i + 1]) == Data(batch[..i]) + [batch[i].data];
        OnDone(batch[i].data);
      }
      assert batch[..|batch|] == batch;
    }

    /** One call of `Context.process_events` with its callbacks, after whatever the kernel does: the events that the
        kernel gives, up to the default limit, are released, and their futures are done. */
    method DrainOnce(memoryOk: bool, answer: EventsAnswer) returns (r: EventsResult)
      requires Valid()
      modifies this`futures, this`resolved, context, context.memory
      ensures Valid() && pending == old(pending) && Later(old(futures), futures)
      ensures context.s.accepted == old(context.s).accepted && old(context.s).released <= context.s.released
      ensures context.memory.ops.Keys == old(context.memory.ops).Keys
      ensures r.EventsRaised? <==> !memoryOk || answer.GetFails?
      ensures r.EventsRaised? ==>
        futures == old(futures) && context.memory.ops == old(context.memory.ops) && Calm(old(context.s), context.s)
      ensures r.Processed? ==>
        && |context.s.kernel| + |context.s.ready| + r.count == |old(context.s).kernel| + |old(context.s).ready|
        && (r.count == 0 ==> context.s.ready == [] || answer.n == 0)
        && |old(context.s).released| + r.count == |context.s.released|
      ensures forall op :: op in context.s.kernel ==> op in old(context.s).kernel
    {
      hide Inv, Agree, Tidy, ResolvedOnce, Context.Valid, Busy, ReleasedAll, Evolves;
      context.KernelRuns();
      ghost var before, was := context.s, context.memory.ops;
      context.ReleasedWereAccepted();
      context.ReadyEvents();
      PendingKnown(futures, pending, Busy(was), before.accepted, before.released);
      var events := context.ready;
      r := context.ProcessEvents(0, 0, 0, memoryOk, answer, 0);
      if r.EventsRaised? {
        return;
      }
      var batch := events[..r.count];
      assert Data(batch) == before.ready[..r.count];
      ProcessedMeans(before, was, context.s, context.memory.ops, r.count);
      ghost var had := futures;
      AllDone(batch);
      ReleasedTidy(had, pending, Busy(was), before.accepted, before.released, Data(batch), futures);
    }

    /** `_on_read_event`: collect until a call finds nothing.  Each call has memory for its events, or not, and an
        answer of the kernel; `turns` calls return events, and the next one is the last.  Whatever is released has its
        future done, also when that one raises. */
    method OnReadEvent(memory: nat -> bool, answers: nat -> EventsAnswer) returns (ok: bool, ghost turns: nat)
      requires Valid()
      modifies this`futures, this`resolved, context, context.memory
      ensures Valid() && pending == old(pending) && Later(old(futures), futures)
      ensures context.s.accepted == old(context.s).accepted && old(context.s).released <= context.s.released
      ensures |old(context.s).released| + turns <= |context.s.released|
      ensures ok <==> memory(turns) && answers(turns).Gives?
      ensures forall k :: 0 <= k < turns ==> memory(k) && answers(k).Gives?
      ensures forall op :: op in context.s.released ==> Done(futures, op)
      ensures forall op :: op in context.s.kernel ==> op in old(context.s).kernel
      // a kernel that gives events while it has some leaves nothing: what is in flight is with the kernel
      ensures ok ==> context.s.ready == [] || answers(turns).n == 0
      ensures ok && answers(turns).n > 0 ==>
        && (forall op :: op in context.s.accepted ==> op in context.s.kernel || Done(futures, op))
        && forall op :: op in old(context.s).ready ==> Done(futures, op)
      // a first call that raises has changed nothing
      ensures !ok && turns == 0 ==>
        futures == old(futures) && context.memory.ops == old(context.memory.ops) && Calm(old(context.s), context.s)
    {
      hide Context.Valid, Inv, Agree, Tidy, ResolvedOnce, Rest, Busy, Later, Calm;
      context.NotInKernel();
      LaterRefl(futures);
      turns := 0;
      var turn: nat := 0;
      ok := false;
      while !ok
        invariant Valid() && pending == old(pending) && Later(old(futures), futures)
        invariant context.s.accepted == old(context.s).accepted && old(context.s).released <= context.s.released
        invariant |old(context.s).released| + turns <= |context.s.released|
        invariant forall op :: op in context.s.kernel ==> op in old(context.s).kernel
        invariant forall k :: 0 <= k < turns ==> memory(k) && answers(k).Gives?
        invariant if ok then memory(turns) && answers(turns).Gives? && (context.s.ready == [] || answers(turns).n == 0)
                  else turn == turns
        invariant !ok && turn == 0 ==>
          futures == old(futures) && context.s == old(context.s) && context.memory.ops == old(context.memory.ops)
        decreases !ok, |context.s.kernel| + |context.s.ready|
      {
        ghost var before := futures;
        var r := DrainOnce(memory(turn), answers(turn));
        LaterTrans(old(futures), before, futures);
        if r.EventsRaised? {
          ReleasedAreDone();
          return false, turns;
        }
        ok := r.count == 0;
        turns := if ok then turns else turns + 1;
        turn := turn + 1;
      }
      ReleasedAreDone();
      if context.s.ready == [] {
        Collected();
      }
    }

    lemma ReleasedAreDone()
      requires Valid()
      ensures forall op :: op in context.s.released ==> Done(futures, op)
    {
      hide Inv, Agree, ResolvedOnce;
      context.ReleasedWereAccepted();
      forall op | op in context.s.released
        ensures Done(futures, op)
      {
        ReleasedIsDone(futures, pending, Busy(context.memory.ops), context.s.accepted, context.s.released, op);
      }
    }

    /** With no event left to collect, what is in flight is with the kernel. */
    lemma Collected()
      requires Valid() && context.s.ready == []
      ensures forall op :: op in context.s.accepted ==> op in context.s.kernel || Done(futures, op)
    {
      hide Inv, Agree, ResolvedOnce;
      context.ReleasedWereAccepted();
      PendingKnown(futures, pending, Busy(context.memory.ops), context.s.accepted, context.s.released);
      forall op | op in context.s.accepted && op !in context.s.kernel
        ensures Done(futures, op)
      {
        if op !in context.s.released {
          InFlightWhere(context.s, op);
        }
        ReleasedIsDone(futures, pending, Busy(context.memory.ops), context.s.accepted, context.s.released, op);
      }
    }

    /** The task awaiting `op` is cancelled: its future is done, then `Context.cancel` is tried, whose callback finds
        the future done.  The request is released if and only if the kernel still has it and yields it. */
    method CancelTask(op: Address, answer: CancelAnswer) returns (r: CancelResult)
      requires Valid() && op in futures && futures[op].Waiting? && (answer.Declines? ==> answer.errno > 0)
      modifies this`futures, this`resolved, context, context.memory
      ensures Valid() && futures == old(futures)[op := Cancelled] && pending == old(pending)
      ensures r.CancelDone? || r.CallbackRaised? <==> answer.Yields? && op in old(context.s).kernel
      ensures r.CancelDone? || r.CallbackRaised? ==>
        && context.s.released == old(context.s).released + [op] && context.s.accepted == old(context.s).accepted
        && op in context.memory.ops && Told(context.memory.ops[op], answer.res)
      ensures r.CancelFailed? ==> context.s == old(context.s) && context.memory.ops == old(context.memory.ops)
    {
      hide Inv, Agree, ResolvedOnce, Context.Valid, Tidy, Busy, ReleasedAll, Evolves;
      ghost var before, was, had := context.s, context.memory.ops, futures;
      context.ReleasedWereAccepted();
      context.InKernel();
      Resolve(op, Cancelled);
      CancelledTidy(had, pending, Busy(was), before.accepted, before.released, op);
      ghost var i;
      r, i := context.Cancel(op, answer, 0);
      if r.CancelDone? || r.CallbackRaised? {
        CancelMeans(before, was, context.s, context.memory.ops, op);
        ReleasedTidy(futures, pending, Busy(was), before.accepted, before.released, [op], futures);
        OnDone(op);
      }
    }
  }

  lemma CancelMeans(s: State<Address>, ops: Ops, t: State<Address>, now: Ops, op: Address)
    requires ReleasedAll(s, ops, t, now, [op], 1)
    ensures Busy(now) == Busy(ops) && now.Keys == ops.Keys && t.accepted == s.accepted
      && t.released == s.released + [op]
  {
  }

  /** What a quiet process_events does to what the adapter looks at. */
  lemma ProcessedMeans(s: State<Address>, ops: Ops, t: State<Address>, now: Ops, n: nat)
    requires n <= |s.ready| && ReleasedAll(s, ops, t, now, s.ready[..n], n) && Evolves(s, ops, t, now) && Rest(s.frames)
    ensures Busy(now) == Busy(ops) && now.Keys == ops.Keys && Rest(t.frames)
    ensures t.accepted == s.accepted && t.released == s.released + s.ready[..n]
    ensures |t.kernel| + |t.ready| + n == |s.kernel| + |s.ready|
    ensures forall op :: op in t.kernel ==> op in s.kernel
  {
    RestStays(s.frames, t.frames);
  }

  function Data(batch: seq<IoEvent>): (ops: seq<Address>)
    ensures |ops| == |batch| && forall i :: 0 <= i < |batch| ==> ops[i] == batch[i].data
  {
    seq(|batch|, i requires 0 <= i < |batch| => batch[i].data)
  }

  lemma SubmittedParts(s: State<Address>, ops: seq<Address>, k: nat)
    requires k <= |ops|
    ensures var t := Submitted(s, ops, k);
      && t.frames == s.frames && t.released == s.released && t.kernel == s.kernel + ops[..k]
      && t.accepted == s.accepted + ops[..k] && t.claimed == s.claimed + ToSet(ops[..k])
  {
  }
}
