/** The io_uring Context: two rings of arrays and wrapping counters, with the
    protocol state they implement kept beside them as the ghost field `s`. */
module UringContext {
  import opened Bags
  import opened Claims
  import opened Frames
  import opened UringMemory
  import opened UringProtocol
  import opened Words

  class Context {
    const id: Address
    const sqBits: nat
    const noSqarray: bool
    const sqpoll: bool
    const memory: Memory
    const quiet: bool                  // the callbacks in use never call back into this Context
    const still: bool                  // nothing completes while one of them runs
    var sqHead: uint32
    var sqTail: uint32
    const sqes: array<Sqe<Address>>
    const sqArray: array<uint32>
    const cqBits: nat
    var cqHead: uint32
    var cqTail: uint32
    const cqes: array<Cqe<Address>>
    var eventCounter: nat
    var opRefs: int                    // references Operations hold on this Context
    var inKernel: seq<Sqe<Address>>    // requests the kernel is working on
    ghost var s: State<Address>
    ghost var told: seq<(Address, int)>    // callbacks called, with the result each was given

    /** The mapped ring memory. */
    ghost function Snapshot(): Rings
      reads `sqHead, `sqTail, `cqHead, `cqTail, sqes, sqArray, cqes
    {
      Rings(sqHead, sqTail, sqes[..], sqArray[..], cqHead, cqTail, cqes[..])
    }

    constructor (id: Address, sqBits: nat, cqBits: nat, noSqarray: bool, sqpoll: bool, memory: Memory,
                 quiet: bool, still: bool)
      requires sqBits < 32 && cqBits < 32 && Agree(Init({}), id, memory.ops)
      ensures Valid() && s == Init({}) && this.memory == memory && this.id == id
      ensures this.quiet == quiet && this.still == still
      ensures this.sqpoll == sqpoll && this.noSqarray == noSqarray && this.sqBits == sqBits && this.cqBits == cqBits
      ensures fresh(this) && fresh(sqes) && fresh(sqArray) && fresh(cqes)
    {
      this.id, this.sqBits, this.cqBits, this.memory := id, sqBits, cqBits, memory;
      this.noSqarray, this.sqpoll, this.quiet, this.still := noSqarray, sqpoll, quiet, still;
      Pow2Small(sqBits);
      Pow2Small(cqBits);
      sqes := new Sqe<Address>[Pow2(sqBits)](_ => CancelSqe(0));
      sqArray := new uint32[Pow2(sqBits)](_ => 0);
      cqes := new Cqe<Address>[Pow2(cqBits)](_ => Cqe(CancelTag, 0));
      sqHead, sqTail, cqHead, cqTail := 0, 0, 0, 0;
      eventCounter, opRefs, inKernel, s, told := 0, 0, [], Init({}), [];
    }

    ghost predicate Geometry() {
      && sqBits < 32 && sqes.Length == sqArray.Length == Pow2(sqBits)
      && cqBits < 32 && cqes.Length == Pow2(cqBits)
    }

    ghost predicate Valid()
      reads this, sqes, sqArray, cqes, memory
    {
      && Geometry()
      && Implements(Snapshot(), !noSqarray, s)
      && Inv(s)
      && Agree(s, id, memory.ops)
      && eventCounter == s.counter && opRefs == s.refs && inKernel == s.kernel
      && TellsCalls(told, s)
    }

    /** What every method of the Context keeps, in terms of where an Operation can be. */
    lemma EverythingAccounted()
      requires Valid()
      ensures Bounded(s) && Partitioned(s) && NoDup(s.calls) && HeldByUncollected(s) && opRefs == s.refs
      ensures forall a :: a in s.calls ==> a in memory.ops && memory.ops[a].done && memory.ops[a].context != id
      // the callbacks were told each about its own Operation, once, and with the result of its completion
      ensures |told| == |s.calls| && forall i :: 0 <= i < |told| ==>
        told[i].0 == s.calls[i] && Cqe(OpTag(told[i].0), told[i].1) in s.cqLog
    {
      InvPartitions(s);
      InvHolds(s);
      InvMembers(s);
    }

    /** What `get_value` tells a reader: the outcome of the Operation's own completion once that was collected, and
        nothing before. */
    lemma ReadersAreTold()
      requires Valid()
      ensures Bounded(s)
      ensures forall i :: 0 <= i < s.cqHead && s.cqLog[i].tag.OpTag? ==>
        var a, res := s.cqLog[i].tag.op, s.cqLog[i].res;
        && a in memory.ops
        && var r, opcode := GetValue(memory.ops[a]), memory.ops[a].opcode;
           && (r == Raises(-res) <==> res < 0)
           && (r.Bytes? <==> res >= 0 && opcode == URING_READ) && (r.Bytes? ==> r.length == res)
           && (r == Count(res) <==> res >= 0 && opcode == URING_WRITE)
           && (r == Nothing <==> res >= 0 && opcode != URING_READ && opcode != URING_WRITE)
      ensures forall a :: Outstanding(s, a) ==> a in memory.ops && GetValue(memory.ops[a]) == NotYet
    {
      assert Bounded(s);
      hide SqOps, CqOps, Waiting, Inv, Implements;
      forall i | 0 <= i < s.cqHead && s.cqLog[i].tag.OpTag?
        ensures var a := s.cqLog[i].tag.op; a in memory.ops && memory.ops[a].done
      {
        CollectedBefore(s, i);
      }
    }

    /** Free entries of the submission ring. */
    ghost function Room(): int
      reads this`s
    {
      sqes.Length - (|s.sqLog| - s.sqHead)
    }

    // -------------------------------------------------------------- the kernel

    /** The kernel takes the oldest entry, through the index array when there is one. */
    method KernelConsume() returns (sqe: Sqe<Address>)
      requires Geometry() && Implements(Snapshot(), !noSqarray, s) && s.sqHead < |s.sqLog| && inKernel == s.kernel
      modifies this`sqHead, this`inKernel, this`s
      ensures s == Consumed(old(s)) && sqe == old(s).sqLog[old(s).sqHead] && inKernel == s.kernel
      ensures Snapshot() == old(Snapshot()).(sqHead := Word(s.sqHead))
      ensures Implements(Snapshot(), !noSqarray, s)
    {
      hide And, Pow2, Slot;
      SlotOfWord(s.sqHead, sqBits);
      NextWord(s.sqHead);
      RingTake(sqes[..], s.sqLog, s.sqHead, 1);
      var slot := And(sqHead, sqes.Length - 1);
      sqe := if noSqarray then sqes[slot] else sqes[sqArray[slot]];
      sqHead := Add32(sqHead, 1);
      inKernel := inKernel + [sqe];
      s := Consumed(s);
    }

    /** The kernel may take published entries at any moment. */
    method KernelMayConsume() returns (ghost taken: nat)
      requires Geometry() && Implements(Snapshot(), !noSqarray, s) && inKernel == s.kernel
      modifies this`sqHead, this`inKernel, this`s
      ensures old(s).sqHead + taken <= |old(s).sqLog| && s == Handed(old(s), taken) && inKernel == s.kernel
      ensures Snapshot() == old(Snapshot()).(sqHead := Word(s.sqHead))
      ensures Implements(Snapshot(), !noSqarray, s)
    {
      hide Implements;
      taken := 0;
      var wanted: nat := *;
      HeadTailDiffer();
      while wanted > 0 && sqHead != sqTail
        invariant Implements(Snapshot(), !noSqarray, s) && inKernel == s.kernel
        invariant sqHead == Word(s.sqHead) && (sqHead != sqTail ==> s.sqHead < |s.sqLog|)
        invariant old(s).sqHead + taken <= |old(s).sqLog| && s == Handed(old(s), taken)
        invariant Snapshot() == old(Snapshot()).(sqHead := Word(s.sqHead))
      {
        HandedNext(old(s), taken);
        var _ := KernelConsume();
        HeadTailDiffer();
        taken := taken + 1;
        wanted := wanted - 1;
      }
    }

    lemma HeadTailDiffer()
      requires Implements(Snapshot(), !noSqarray, s)
      ensures sqHead == Word(s.sqHead) && s.sqHead <= |s.sqLog| && (sqHead != sqTail ==> s.sqHead < |s.sqLog|)
    {
    }

    /** The kernel posts the completion of any request it holds, if the ring has room. */
    method KernelPost(i: nat, res: int)
      requires Valid() && i < |s.kernel| && |s.cqLog| - s.cqHead < cqes.Length
      modifies this`cqTail, cqes, this`inKernel, this`s
      ensures Valid()
      ensures s == Posted(old(s), i, res)
    {
      hide Inv, SqOps, CqOps, Waiting, And, Pow2, Slot, RingHolds, Indirect;
      SlotOfWord(|s.cqLog|, cqBits);
      NextWord(|s.cqLog|);
      PostKeeps(s, i, res);
      PostImplements(Snapshot(), !noSqarray, s, i, res);
      assert Posted(s, i, res).cqLog[..s.cqHead] == s.cqLog[..s.cqHead];
      cqes[And(cqTail, cqes.Length - 1)] := Cqe(inKernel[i].tag, res);
      cqTail := Add32(cqTail, 1);
      inKernel := Without(inKernel, i);
      s := Posted(s, i, res);
    }

    /** The kernel raises the eventfd, for any number of the completions it posted, or for none. */
    method KernelSignal(ghost covered: nat)
      requires Valid() && covered <= s.owed
      modifies this`eventCounter, this`s
      ensures Valid()
      ensures s == old(s).(owed := old(s).owed - covered, counter := old(s).counter + 1)
    {
      hide SqOps, CqOps, Waiting, And, Pow2, Slot, RingHolds, Indirect;
      eventCounter := eventCounter + 1;
      s := s.(owed := s.owed - covered, counter := s.counter + 1);
    }

    // ------------------------------------------------------------------ submit

    /** The protocol state with `entries` staged but not published. */
    ghost predicate Staging(entries: seq<Sqe<Address>>)
      reads `sqHead, `sqTail, `cqHead, `cqTail, sqes, sqArray, cqes, `s, `inKernel
    {
      Geometry() && Open(Snapshot(), !noSqarray, s, entries) && inKernel == s.kernel
    }

    /** Store an entry in the slot that a tail word names. */
    method WriteSlot(tail: uint32, sqe: Sqe<Address>, ghost at: nat)
      requires Geometry() && tail == Word(at)
      modifies sqes
      ensures Snapshot() == old(Snapshot()).(sqes := old(sqes[..])[Slot(at, sqes.Length) := sqe])
    {
      hide And, Pow2, Slot;
      SlotOfWord(at, sqBits);
      sqes[And(tail, sqes.Length - 1)] := sqe;
    }

    /** With an index array, the slot that a tail word names points to itself. */
    method WriteIndex(tail: uint32, ghost at: nat)
      requires Geometry() && tail == Word(at)
      modifies sqArray
      ensures var slot := Slot(at, sqes.Length);
              slot < WORD && Snapshot() == old(Snapshot()).(sqArray :=
                if noSqarray then old(sqArray[..]) else old(sqArray[..])[slot := slot])
    {
      hide And, Pow2, Slot;
      Pow2Small(sqBits);
      SlotOfWord(at, sqBits);
      if !noSqarray {
        var index := And(tail, sqes.Length - 1);
        sqArray[index] := index;
      }
    }

    /** Fill the slot at the private tail for the Operation at `a`, if its opcode is known. */
    method Push(a: Address, tail: uint32, ghost entries: seq<Sqe<Address>>) returns (known: bool)
      requires Staging(entries) && a in memory.ops
      requires tail == Word(|s.sqLog| + |entries|) && |s.sqLog| + |entries| < s.sqHead + sqes.Length
      modifies sqes, sqArray
      ensures known == Recognised(memory.ops[a].opcode)
      ensures if known then Staging(entries + [SqeFor(a, memory.ops[a])]) else Staging(entries)
    {
      hide And, Pow2, Slot, Implements, RingHolds, Indirect, Open, SqeFor;
      ghost var rings, at := Snapshot(), |s.sqLog| + |entries|;
      OpenWrite(rings, !noSqarray, s, entries, Blank(a, memory.ops[a]));
      WriteSlot(tail, Blank(a, memory.ops[a]), at);
      var sqe;
      known, sqe := Describe(a, memory.ops[a]);
      if known {
        OpenPush(rings, !noSqarray, s, entries, sqe);
        WriteSlot(tail, sqe, at);
        WriteIndex(tail, at);
        SlotTwice(rings.sqes, Slot(at, sqes.Length), Blank(a, memory.ops[a]), sqe);
      }
    }

    /** One turn of the submit loop: claim the Operation at `a` and write its entry at the private tail.
        `head` is the value read at entry; the kernel may have moved on since. */
    method StageOne(a: Address, head: uint32, tail: uint32, ghost head0: nat, ghost entries: seq<Sqe<Address>>)
      returns (stage: Stage)
      requires Staging(entries) && a in memory.ops && head0 <= s.sqHead
      requires head == Word(head0) && tail == Word(|s.sqLog| + |entries|)
      requires |s.sqLog| + |entries| <= head0 + sqes.Length
      modifies memory, this`opRefs, sqes, sqArray
      ensures stage ==
        if old(memory.ops[a].inProgress) then Skipped
        else if |s.sqLog| + |entries| == head0 + sqes.Length then Full
        else if !Recognised(old(memory.ops[a].opcode)) then Unknown
        else Staged
      ensures memory.ops ==
        if stage.Staged? then old(memory.ops)[a := Taken(old(memory.ops)[a], id)] else old(memory.ops)
      ensures if stage.Staged? then Staging(entries + [SqeFor(a, old(memory.ops[a]))]) else Staging(entries)
      // the entry in the ring asks the kernel for the Operation's own request
      ensures stage.Staged? ==> AsksFor(sqes[Slot(|s.sqLog| + |entries|, sqes.Length)], a, old(memory.ops[a]))
      ensures opRefs == old(opRefs) + if stage.Staged? then 1 else 0
    {
      hide And, Pow2, Slot, Open, SqeFor;
      ghost var was := memory.ops;
      var op := memory.ops[a];
      memory.ops := memory.ops[a := op.(inProgress := true)];   // atomic exchange
      if op.inProgress {
        stage := Skipped;
        assert memory.ops == was;
        return;
      }
      StagingBounds(entries);
      Distance(head0, |s.sqLog| + |entries|);
      if Sub32(tail, head) >= sqes.Length {
        memory.ops := memory.ops[a := op];
        stage := Full;
        assert memory.ops == was;
        return;
      }
      SameEntry(a, op);
      var known := Push(a, tail, entries);
      if known {
        LastSlot(entries, SqeFor(a, op));
        RequestExact(a, op, SqeFor(a, op));
        // op->context is NULL here, so there is nothing to release before setting it.
        memory.ops := memory.ops[a := Taken(op, id)];
        opRefs := opRefs + 1;
        stage := Staged;
      } else {
        // The claim is given back; the slot lies beyond the tail and stays unpublished.
        memory.ops := memory.ops[a := op];
        stage := Unknown;
        assert memory.ops == was;
      }
    }

    lemma LastSlot(entries: seq<Sqe<Address>>, sqe: Sqe<Address>)
      requires Staging(entries + [sqe])
      ensures sqes[Slot(|s.sqLog| + |entries|, sqes.Length)] == sqe
    {
      hide And, Pow2, Slot, Indirect;
      var log := s.sqLog + (entries + [sqe]);
      assert log[|s.sqLog| + |entries|] == sqe;
    }

    /** The claiming loop before argument `i`; `before` is the protocol state at entry. */
    ghost predicate Walking(args: seq<Address>, i: nat, head: uint32, tail: uint32, was: Ops,
                            before: State<Address>, taken: nat, entries: seq<Sqe<Address>>)
      reads `sqHead, `sqTail, `cqHead, `cqTail, sqes, sqArray, cqes, `s, `inKernel, memory
    {
      && Staging(entries)
      && before.sqHead + taken <= |before.sqLog| && s == Handed(before, taken)
      && head == Word(before.sqHead) && tail == Word(|before.sqLog| + |entries|)
      && Walk(id, args, i, was, memory.ops, sqes.Length - (|before.sqLog| - before.sqHead), entries)
    }

    method Turn(args: seq<Address>, i: nat, head: uint32, tail: uint32, ghost was: Ops,
                ghost before: State<Address>, ghost taken: nat, ghost entries: seq<Sqe<Address>>)
      returns (stage: Stage, tail': uint32, ghost taken': nat, ghost entries': seq<Sqe<Address>>)
      requires i < |args| && Walking(args, i, head, tail, was, before, taken, entries)
      modifies memory, this`sqHead, this`inKernel, this`opRefs, this`s, sqes, sqArray
      ensures Walking(args, if stage.Full? then i else i + 1, head, tail', was, before, taken', entries')
      ensures |entries'| == |entries| + if stage.Staged? then 1 else 0
      ensures opRefs == old(opRefs) + |entries'| - |entries|
      ensures stage.Full? ==>
        |entries'| == sqes.Length - (|before.sqLog| - before.sqHead) && args[i] !in Busy(memory.ops)
    {
      hide FirstClaims, Pow2, SqeFor, Walk, Open, Implements;
      ghost var a, ops, room := args[i], memory.ops, sqes.Length - (|before.sqLog| - before.sqHead);
      WalkFacts(id, args, i, was, ops, room, entries);
      ghost var more := KernelMeanwhile(entries);
      HandedTwice(before, taken, more);
      taken' := taken + more;
      stage := StageOne(args[i], head, tail, before.sqHead, entries);
      tail' := if stage.Staged? then Add32(tail, 1) else tail;
      entries' := if stage.Staged? then entries + [SqeFor(a, ops[a])] else entries;
      if stage.Staged? {
        WalkStage(id, args, i, was, ops, room, entries);
        NextWord(|before.sqLog| + |entries|);
      } else if !stage.Full? {
        WalkSkip(id, args, i, was, ops, room, entries);
      }
    }

    /** The kernel takes published entries while a submit is under way. */
    method KernelMeanwhile(ghost entries: seq<Sqe<Address>>) returns (ghost more: nat)
      requires Staging(entries)
      modifies this`sqHead, this`inKernel, this`s
      ensures Staging(entries)
      ensures old(s).sqHead + more <= |old(s).sqLog| && s == Handed(old(s), more)
    {
      hide Pow2, RingHolds, Indirect;
      ghost var rings := Snapshot();
      more := KernelMayConsume();
      OpenTake(rings, !noSqarray, old(s), entries, more);
    }

    /** The claiming loop of submit; what it stages is not published yet. */
    method StageAll(args: seq<Address>)
      returns (submitted: nat, stopped: nat, tail: uint32, ghost taken: nat, ghost entries: seq<Sqe<Address>>)
      requires Staging([]) && ToSet(args) <= memory.ops.Keys
      modifies memory, this`sqHead, this`inKernel, this`opRefs, this`s, sqes, sqArray
      ensures Staging(entries)
      ensures old(s).sqHead + taken <= |old(s).sqLog| && s == Handed(old(s), taken)
      ensures StagedBatch(id, args, stopped, old(memory.ops), memory.ops, old(Room()), entries)
      ensures submitted == |entries| && stopped <= |args|
      ensures tail == Word(|s.sqLog| + submitted) && opRefs == old(opRefs) + submitted
    {
      ghost var was, before, room := memory.ops, s, Room();
      var head, full := sqHead, false;
      tail, submitted, stopped, entries, taken := sqTail, 0, 0, [], 0;
      WalkingStarts(args);
      hide *;
      while stopped < |args| && !full
        invariant stopped <= |args| && submitted == |entries| && opRefs == old(opRefs) + submitted
        invariant Walking(args, stopped, head, tail, was, before, taken, entries)
        invariant full ==> stopped < |args| && submitted == room && args[stopped] !in Busy(memory.ops)
        decreases |args| - stopped, !full
      {
        var stage;
        stage, tail, taken, entries := Turn(args, stopped, head, tail, was, before, taken, entries);
        submitted := if stage.Staged? then submitted + 1 else submitted;
        stopped := if stage.Full? then stopped else stopped + 1;
        full := stage.Full?;
      }
      WalkingEnds(args, stopped, head, tail, was, before, taken, entries, room);
    }

    lemma WalkingStarts(args: seq<Address>)
      requires Staging([]) && ToSet(args) <= memory.ops.Keys
      ensures Walking(args, 0, sqHead, sqTail, memory.ops, s, 0, [])
      ensures Room() == sqes.Length - (|s.sqLog| - s.sqHead)
    {
    }

    lemma WalkingEnds(args: seq<Address>, i: nat, head: uint32, tail: uint32, was: Ops,
                      before: State<Address>, taken: nat, entries: seq<Sqe<Address>>, room: int)
      requires Walking(args, i, head, tail, was, before, taken, entries)
      requires room == sqes.Length - (|before.sqLog| - before.sqHead)
      requires i < |args| ==> |entries| == room && args[i] !in Busy(memory.ops)
      ensures Staging(entries)
      ensures before.sqHead + taken <= |before.sqLog| && s == Handed(before, taken)
      ensures tail == Word(|s.sqLog| + |entries|)
      ensures StagedBatch(id, args, i, was, memory.ops, room, entries)
    {
    }

    method SubmitOps(args: seq<Address>)
      returns (r: SubmitResult, ghost taken: nat, ghost entries: seq<Sqe<Address>>)
      requires Valid() && ToSet(args) <= memory.ops.Keys
      modifies memory, this`sqHead, this`sqTail, this`inKernel, this`opRefs, this`s, sqes, sqArray
      ensures Valid()
      ensures match r
        case Accepted(count) =>
          count == |entries| && StagedBatch(id, args, |args|, old(memory.ops), memory.ops, old(Room()), entries)
        case RingFull(at) =>
          at < |args| && StagedBatch(id, args, at, old(memory.ops), memory.ops, old(Room()), entries)
        case TypeError(_) => false
      ensures old(s).sqHead + taken <= |old(s).sqLog|
      ensures s == Submitted(Handed(old(s), taken).(claimed := Busy(old(memory.ops))), entries)
    {
      hide Valid, StagedBatch, Staging, SqOps, CqOps, Inv, FirstClaims, Waiting, Agree, Pow2;
      ghost var was, before := memory.ops, s;
      ValidParts();
      var submitted, stopped, tail;
      submitted, stopped, tail, taken, entries := StageAll(args);
      ghost var published := Submitted(s.(claimed := Busy(was)), entries);
      PublishBatch(before, args, stopped, was, old(Room()), taken, entries);
      sqTail := tail;
      s := published;
      MakeValid();
      r := if stopped < |args| then RingFull(stopped) else Accepted(submitted);
    }

    lemma ValidParts()
      requires Valid()
      ensures Staging([]) && Inv(s) && Agree(s, id, memory.ops) && TellsCalls(told, s)
      ensures eventCounter == s.counter && opRefs == s.refs
    {
    }

    lemma MakeValid()
      requires Geometry() && Implements(Snapshot(), !noSqarray, s) && Inv(s) && Agree(s, id, memory.ops)
      requires eventCounter == s.counter && opRefs == s.refs && inKernel == s.kernel && TellsCalls(told, s)
      ensures Valid()
    {
    }

    lemma PublishBatch(before: State<Address>, args: seq<Address>, stopped: nat, was: Ops, room: int, taken: nat,
                       entries: seq<Sqe<Address>>)
      requires Inv(before) && Agree(before, id, was) && before.sqHead + taken <= |before.sqLog|
      requires room == sqes.Length - (|before.sqLog| - before.sqHead)
      requires Staging(entries) && s == Handed(before, taken)
      requires StagedBatch(id, args, stopped, was, memory.ops, room, entries)
      ensures var t := Submitted(s.(claimed := Busy(was)), entries);
        && Geometry() && inKernel == t.kernel
        && Implements(Snapshot().(sqTail := Word(|t.sqLog|)), !noSqarray, t)
        && Inv(t) && Agree(t, id, memory.ops) && t.refs == before.refs + |entries|
    {
      hide SqOps, CqOps, Inv, FirstClaims, Waiting, Agree, RingHolds, Indirect, Implements, Pow2;
      ClaimsMembers(args[..stopped], Blocked(was));
      PublishAgrees(before, id, was, FirstClaims(args[..stopped], Blocked(was)), taken, entries);
      OpenPublish(Snapshot(), !noSqarray, s, entries, Submitted(s.(claimed := Busy(was)), entries));
    }

    /** `Context.submit(*args)`: every argument is checked before any Operation is claimed. */
    method Submit(args: seq<Address>)
      returns (r: SubmitResult, ghost taken: nat, ghost entries: seq<Sqe<Address>>)
      requires Valid()
      modifies memory, this`sqHead, this`sqTail, this`inKernel, this`opRefs, this`s, sqes, sqArray
      ensures Valid()
      ensures r.TypeError? <==> exists i :: 0 <= i < |args| && args[i] !in old(memory.ops)
      ensures match r
        case Accepted(count) =>
          count == |entries| && StagedBatch(id, args, |args|, old(memory.ops), memory.ops, old(Room()), entries)
        case RingFull(at) =>
          at < |args| && StagedBatch(id, args, at, old(memory.ops), memory.ops, old(Room()), entries)
        case TypeError(at) =>
          at < |args| && args[at] !in old(memory.ops) && ToSet(args[..at]) <= old(memory.ops).Keys
          && memory.ops == old(memory.ops) && s == old(s)
      ensures !r.TypeError? ==>
        && old(s).sqHead + taken <= |old(s).sqLog|
        && s == Submitted(Handed(old(s), taken).(claimed := Busy(old(memory.ops))), entries)
      // each published entry asks the kernel for the request of its own Operation
      ensures !r.TypeError? ==>
        var walked := if r.RingFull? then args[..r.at] else args;
        && s.sqLog == old(s).sqLog + entries
        && OwnRequests(entries, FirstClaims(walked, Blocked(old(memory.ops))), old(memory.ops))
        && ClaimedFor(old(memory.ops), FirstClaims(walked, Blocked(old(memory.ops))), id, memory.ops)
        && FreeOnes(walked, FirstClaims(walked, Blocked(old(memory.ops))), old(memory.ops))
    {
      hide StagedBatch, Valid, Busy, Blocked, FirstClaims, OwnRequests, ClaimedFor, FreeOnes, SqOps;
      ghost var was, room := memory.ops, Room();
      taken, entries := 0, [];
      for i := 0 to |args|
        invariant ToSet(args[..i]) <= memory.ops.Keys
      {
        if args[i] !in memory.ops {
          return TypeError(i), taken, entries;
        }
        assert args[..i + 1] == args[..i] + [args[i]];
      }
      assert args[..|args|] == args;
      r, taken, entries := SubmitOps(args);
      BatchRequests(id, args, if r.RingFull? then r.at else |args|, was, memory.ops, room, entries);
    }

    // ---------------------------------------------------- entering the kernel

    /** `io_uring_enter`: it fails, or takes between one and `wanted` of the pending entries, oldest first. */
    method KernelEnter(wanted: nat, answer: EnterAnswer) returns (ret: int)
      requires Valid()
      modifies this`sqHead, this`inKernel, this`s
      ensures Valid()
      ensures ret < 0 <==> !answer.Accepts?
      ensures ret < 0 ==> s == old(s)
      ensures ret >= 0 ==>
        && ret <= wanted && old(s).sqHead + ret <= |old(s).sqLog| && s == Handed(old(s), ret)
        && (wanted > 0 && old(s).sqHead < |old(s).sqLog| ==> ret > 0)
    {
      hide Valid, Staging, SqOps, CqOps, Inv, Waiting, Agree, Pow2, Implements;
      ValidParts();
      StagingBounds([]);
      if !answer.Accepts? {
        return -1;
      }
      var limit: nat := *;
      ret := 0;
      assert Handed(s, 0) == s;
      while ret < wanted && sqHead != sqTail && (ret == 0 || ret < limit)
        invariant Implements(Snapshot(), !noSqarray, s) && inKernel == s.kernel && ret <= wanted
        invariant ret > 0 || (s.sqHead < |s.sqLog| ==> sqHead != sqTail)
        invariant old(s).sqHead + ret <= |old(s).sqLog| && s == Handed(old(s), ret)
        invariant sqHead != sqTail ==> s.sqHead < |s.sqLog|
        decreases wanted - ret
      {
        HandedNext(old(s), ret);
        var _ := KernelConsume();
        HeadTailDiffer();
        ret := ret + 1;
      }
      HandedAgrees(old(s), id, memory.ops, ret);
      MakeValid();
    }

    /** `Context.cancel(operation)`: the outcome of the enter call is ignored. */
    method Cancel(a: Address, answer: EnterAnswer) returns (r: CancelResult)
      requires Valid()
      modifies this`sqHead, this`sqTail, this`inKernel, this`s, sqes, sqArray
      ensures Valid()
      ensures r.CancelRingFull? <==> old(Room()) == 0
      ensures r.CancelRingFull? ==> s == old(s)
      // one entry more, and on a successful enter the oldest one handed over: as many unsubmitted as before
      ensures r.CancelQueued? ==>
        s == Handed(CancelRequested(old(s), CancelSqe(a)), if answer.Accepts? then 1 else 0)
      // the entry asks the kernel to withdraw this Operation's request, and its completion names none
      ensures r.CancelQueued? ==>
        var n := |old(s).sqLog|;
        && |s.sqLog| == n + 1 && s.sqLog[..n] == old(s).sqLog
        && s.sqLog[n].tag.CancelTag? && RequestOf(s.sqLog[n]) == Withdraw(a)
    {
      hide Valid, SqOps, CqOps, Inv, Waiting, Agree, Pow2, Open, Implements, And, Slot, RequestOf;
      ghost var rings, before := Snapshot(), s;
      CancelAsks(a);
      ValidParts();
      StagingBounds([]);
      var tail, head := sqTail, sqHead;
      Distance(s.sqHead, |s.sqLog|);
      if Sub32(tail, head) >= sqes.Length {
        return CancelRingFull;
      }
      OpenPush(rings, !noSqarray, s, [], CancelSqe(a));
      WriteSlot(tail, Sqe(AsyncCancel, 0, 0, CancelOf(a), 0, false, CancelTag), |s.sqLog|);
      WriteIndex(tail, |s.sqLog|);
      assert [] + [CancelSqe(a)] == [CancelSqe(a)];
      CancelAgrees(s, id, memory.ops, a);
      OpenPublish(Snapshot(), !noSqarray, s, [CancelSqe(a)], CancelRequested(s, CancelSqe(a)));
      NextWord(|s.sqLog|);
      sqTail := Add32(tail, 1);
      s := CancelRequested(s, CancelSqe(a));
      assert s.sqLog == before.sqLog + [CancelSqe(a)];
      MakeValid();
      assert Handed(s, 0) == s;
      var _ := KernelEnter(1, answer);
      r := CancelQueued;
    }

    // ---------------------------------------------------------------- draining

    /** The scanning loop of the drain; nothing is committed yet. */
    method Scan(max: uint32, head0: uint32, tail: uint32, ops: array<Address>, results: array<int>)
      returns (head: uint32, count: nat, ghost n: nat)
      requires Geometry() && Implements(Snapshot(), !noSqarray, s) && Inv(s) && Agree(s, id, memory.ops)
      requires head0 == Word(s.cqHead) && tail == Word(|s.cqLog|)
      requires s.cqHead <= |s.cqLog| < s.cqHead + WORD
      requires ops.Length == results.Length == (if |s.cqLog| - s.cqHead < max then |s.cqLog| - s.cqHead else max)
      requires ops as object != sqArray && results as object != sqArray && ops as object != results
      modifies memory, this`opRefs, ops, results
      ensures count <= ops.Length && opRefs == old(opRefs) - count && s.cqHead + n <= |s.cqLog|
      ensures Draining(s.cqLog[s.cqHead..], max, n, ops[..count], results[..count], old(memory.ops), memory.ops)
      ensures head == Word(s.cqHead + n) && (head == tail || count >= max)
      ensures Snapshot() == old(Snapshot())
    {
      hide Implements, Inv, Agree, Draining, SqOps, CqOps, CqResults, CompleteAll, Completed, Waiting, Pow2, Word,
        Add32;
      ghost var was, refs, rings, visible := memory.ops, opRefs, Snapshot(), s.cqLog[s.cqHead..];
      DrainStart(visible, max, was);
      head, count, n := head0, 0, 0;
      while head != tail && count < max
        invariant Snapshot() == rings && s.cqHead + n <= |s.cqLog| && head == Word(s.cqHead + n)
        invariant count <= ops.Length && opRefs == refs - count
        invariant Draining(visible, max, n, ops[..count], results[..count], was, memory.ops)
        decreases |s.cqLog| - n
      {
        WordsDiffer(s.cqHead + n, |s.cqLog|);
        NextWord(s.cqHead + n);
        DrainStep(s, id, max, n, ops[..count], results[..count], was, memory.ops);
        var cqe := ReadCqe(head, s.cqHead + n);
        head := Add32(head, 1);
        n := n + 1;
        if cqe.tag.OpTag? {
          var a := cqe.tag.op;
          assert memory.ops[a].context == id;   // so Py_CLEAR(op->context) releases this Context
          opRefs := opRefs - 1;
          memory.ops := memory.ops[a := Completed(memory.ops[a], cqe.res)];
          ghost var batch, values := ops[..count], results[..count];
          Append(ops, count, a);
          Append(results, count, cqe.res);
          count := count + 1;
          assert ops[..count] == batch + [a] && results[..count] == values + [cqe.res];
        }
      }
    }

    /** The critical section of the drain: the whole batch is collected and the ring's head committed
        before any callback can run. */
    method Collect(ghost thread: nat, max: uint32, memoryOk: bool)
      returns (ok: bool, ops: array<Address>, results: array<int>, count: nat, ghost n: nat)
      requires Valid()
      modifies memory, this`cqHead, this`opRefs, this`s
      ensures Valid() && fresh(ops) && fresh(results)
      ensures ok <==> memoryOk || max == 0 || old(s).cqHead == |old(s).cqLog|
      ensures !ok ==> s == old(s) && memory.ops == old(memory.ops)
      ensures ok ==>
        var visible := old(s).cqLog[old(s).cqHead..];
        && old(s).cqHead + n <= |old(s).cqLog| && DrainPrefix(visible, max, n)
        && s == Collected(old(s), thread, n)
        && memory.ops == CompleteAll(old(memory.ops), visible[..n])
        && ops.Length == results.Length == (if |visible| < max then |visible| else max)
        && count <= ops.Length && ops[..count] == CqOps(visible[..n]) && results[..count] == CqResults(visible[..n])
      // each collected Operation has the outcome of its own completion, and is otherwise as it was
      ensures ok ==> forall i :: old(s).cqHead <= i < old(s).cqHead + n && s.cqLog[i].tag.OpTag? ==>
        var a, res := s.cqLog[i].tag.op, s.cqLog[i].res;
        && a in old(memory.ops) && a in memory.ops
        && GotOutcome(old(memory.ops)[a], res, memory.ops[a])
    {
      hide Valid, Staging, SqOps, CqOps, CqResults, CompleteAll, Inv, Waiting, Agree, Pow2, Implements, Word, Sub32;
      ValidParts();
      CqBounds();
      ghost var before, was := s, memory.ops;
      var head, tail := cqHead, cqTail;
      var avail := Sub32(tail, head);
      var cap := if avail < max then avail else max;
      n, count := 0, 0;
      if cap > 0 && !memoryOk {
        ops, results := new Address[0], new int[0];
        return false, ops, results, count, n;
      }
      ops, results := new Address[cap], new int[cap];
      head, count, n := Scan(max, head, tail, ops, results);
      ok := true;
      WordsDiffer(before.cqHead + n, |before.cqLog|);
      CommitCollect(thread, max, n, was, ops[..count], results[..count]);
      cqHead := head;
      s := Collected(before, thread, n);
      MakeValid();
      Outcomes(before, was, n);
    }

    lemma Outcomes(before: State<Address>, was: Ops, n: nat)
      requires Inv(before) && Agree(before, id, was) && before.cqHead + n <= |before.cqLog|
      requires memory.ops == CompleteAll(was, before.cqLog[before.cqHead..][..n])
      ensures forall i :: before.cqHead <= i < before.cqHead + n && before.cqLog[i].tag.OpTag? ==>
        var a, res := before.cqLog[i].tag.op, before.cqLog[i].res;
        a in was && a in memory.ops && GotOutcome(was[a], res, memory.ops[a])
    {
      hide SqOps, CqOps, CompleteAll, Inv, Waiting, Recorded, GotOutcome;
      var run := before.cqLog[before.cqHead..before.cqHead + n];
      assert run == before.cqLog[before.cqHead..][..n];
      RunMembers(before, n);
      forall i | before.cqHead <= i < before.cqHead + n && before.cqLog[i].tag.OpTag?
        ensures run[i - before.cqHead] == before.cqLog[i] && before.cqLog[i].tag.op in was
      {
        CqMember(run, i - before.cqHead);
      }
      forall k: nat | k < |run| && run[k].tag.OpTag? && run[k].tag.op in was
        ensures var a := run[k].tag.op; a in memory.ops && GotOutcome(was[a], run[k].res, memory.ops[a])
      {
        CompletedResult(was, run, k);
      }
    }

    lemma CommitCollect(thread: nat, max: uint32, n: nat, was: Ops, batch: seq<Address>, results: seq<int>)
      requires Implements(Snapshot(), !noSqarray, s) && Inv(s) && Agree(s, id, was) && s.cqHead + n <= |s.cqLog|
      requires Draining(s.cqLog[s.cqHead..], max, n, batch, results, was, memory.ops)
      requires s.cqHead + n == |s.cqLog| || |batch| >= max
      ensures var t, visible := Collected(s, thread, n), s.cqLog[s.cqHead..];
        && Implements(Snapshot().(cqHead := Word(s.cqHead + n)), !noSqarray, t)
        && Inv(t) && Agree(t, id, memory.ops) && t.refs == s.refs - |batch|
        && DrainPrefix(visible, max, n)
        && batch == CqOps(visible[..n]) && results == CqResults(visible[..n])
        && memory.ops == CompleteAll(was, visible[..n])
    {
      hide SqOps, CqOps, CqResults, CompleteAll, Inv, Waiting, Agree, Implements;
      var visible := s.cqLog[s.cqHead..];
      assert visible[..n] == s.cqLog[s.cqHead..s.cqHead + n];
      CollectKeeps(s, thread, n);
      CollectAgrees(s, id, was, thread, n);
      CollectImplements(Snapshot(), !noSqarray, s, thread, n);
      DrainLimit(visible, n, max);
    }

    /** Load the completion in the slot that a head word names. */
    method ReadCqe(head: uint32, ghost at: nat) returns (cqe: Cqe<Address>)
      requires Geometry() && Implements(Snapshot(), !noSqarray, s)
      requires s.cqHead <= at < |s.cqLog| && head == Word(at)
      ensures cqe == s.cqLog[at]
    {
      hide And, Pow2, Slot;
      SlotOfWord(at, cqBits);
      cqe := cqes[And(head, cqes.Length - 1)];
    }

    lemma CqBounds()
      requires Valid()
      ensures Geometry() && Implements(Snapshot(), !noSqarray, s) && inKernel == s.kernel
      ensures cqHead == Word(s.cqHead) && s.cqHead <= |s.cqLog|
      ensures cqTail == Word(|s.cqLog|) && |s.cqLog| - s.cqHead < WORD
      ensures Sub32(cqTail, cqHead) == |s.cqLog| - s.cqHead
    {
      Distance(s.cqHead, |s.cqLog|);
    }

    /** The body of the delivery loop: the callback runs, then the engine's reference is dropped. */
    method Deliver(a: Address, value: int, ghost f: nat, depth: nat) returns (ghost mid: Ops)
      requires Valid() && Runs(s.frames, f) && a == s.frames[f].batch[s.frames[f].called]
      requires Cqe(OpTag(a), value) in s.cqLog
      modifies this, memory, sqes, sqArray, cqes
      ensures Valid() && a !in old(s).calls
      ensures a in mid && memory.ops == mid[a := mid[a].(refs := 0)]
      ensures Evolves(Called(old(s), f), old(memory.ops), s, mid) && |s.calls| > |old(s).calls|
      ensures old(told) + [(a, value)] <= told
      ensures quiet ==> Calm(old(s), s, old(s).cqHead, still)
      decreases depth, 1
    {
      hide Valid, Staging, Inv, Agree, SqOps, CqOps, Waiting, Evolves, Outstanding, Implements, Pow2;
      ValidParts();
      CqBounds();
      CallAgrees(s, id, memory.ops, f);
      s := Called(s, f);
      told := told + [(a, value)];
      MakeValid();
      ghost var called, ops := s, memory.ops;
      Callback(depth);
      mid := memory.ops;
      ValidParts();
      CqBounds();
      EvolvedOp(called, ops, s, mid, a);
      CalledAreBusy(s, id, mid, a);
      ReleaseAgrees(s, id, mid, a);
      memory.ops := memory.ops[a := memory.ops[a].(refs := memory.ops[a].refs - 1)];
      MakeValid();
    }

    /** A user callback: any number of re-entrant calls, by this thread or meanwhile by others, nested drains
        up to the given depth, and any kernel activity. */
    method Callback(depth: nat)
      requires Valid()
      modifies this, memory, sqes, sqArray, cqes
      ensures Valid() && Evolves(old(s), old(memory.ops), s, memory.ops) && old(told) <= told
      ensures quiet ==> Calm(old(s), s, old(s).cqHead, still)
      decreases depth, 0
    {
      hide Valid, Inv, Agree, SqOps, CqOps, Waiting, Evolves;
      EvolvesRefl(s, memory.ops);
      var steps: nat := *;
      while steps > 0
        invariant Valid() && Evolves(old(s), old(memory.ops), s, memory.ops) && old(told) <= told
        invariant quiet ==> Calm(old(s), s, old(s).cqHead, still)
      {
        ghost var before, ops := s, memory.ops;
        EvolvesRefl(before, ops);
        ghost var who: nat := *;
        var choice: nat := *;
        if quiet || choice == 0 {
          if !still {
            KernelActs();
          }
        } else if choice == 1 {
          var args: seq<Address> := *;
          SubmitQuietly(args);
        } else if choice == 2 {
          var a: Address := *;
          var answer := AnyAnswer();
          var _ := Cancel(a, answer);
          QuietEvolves(before, ops, s);
        } else if choice == 3 {
          var _ := Poll();
          QuietEvolves(before, ops, s);
        } else if depth > 0 {
          var max: uint32 := *;
          var memoryOk: bool := *;
          var _, _, _ := DrainCq(who, max, memoryOk, depth - 1);
        }
        EvolvesTrans(old(s), old(memory.ops), before, ops, s, memory.ops);
        steps := steps - 1;
      }
    }

    /** `uring_drain_cq`: collect a batch, then deliver it; whatever the callbacks do meanwhile, every
        completion of the batch is delivered by this call and by no other. */
    method DrainCq(ghost thread: nat, max: uint32, memoryOk: bool, depth: nat)
      returns (ok: bool, count: nat, ghost n: nat)
      requires Valid()
      modifies this, memory, sqes, sqArray, cqes
      ensures Valid() && Evolves(old(s), old(memory.ops), s, memory.ops) && old(told) <= told
      ensures ok <==> memoryOk || max == 0 || old(s).cqHead == |old(s).cqLog|
      ensures !ok ==> s == old(s) && memory.ops == old(memory.ops)
      ensures ok ==>
        var visible := old(s).cqLog[old(s).cqHead..];
        && DrainPrefix(visible, max, n) && count == |CqOps(visible[..n])| == |CqResults(visible[..n])|
        && (forall a :: a in CqOps(visible[..n]) ==> a !in old(s).calls && a in s.calls)
        && |old(s).calls| + count <= |s.calls| && old(s).cqHead + n <= s.cqHead
        && Told(told, CqOps(visible[..n]), CqResults(visible[..n]), count)
        && (count == 0 ==> s == Collected(old(s), thread, n))
      ensures quiet && ok ==> Calm(old(s), s, old(s).cqHead + n, still)
      decreases depth, 3
    {
      hide Valid, Inv, Agree, SqOps, CqOps, Waiting, Evolves, Delivering, DrainPrefix, CompleteAll;
      ghost var before, was := s, memory.ops;
      var ops, results;
      EvolvesRefl(s, memory.ops);
      ValidParts();
      ok, ops, results, count, n := Collect(thread, max, memoryOk);
      if !ok {
        return;
      }
      CollectDelivers(before, id, was, thread, n);
      ResultsAreOwn(before.cqLog[before.cqHead..][..n]);
      RunInLog(before.cqLog, before.cqHead, n, ops[..count], results[..count]);
      DeliverAll(ops, results, count, thread, before, was, depth);
    }

    /** The delivery loop, over the batch that was just collected. */
    method DeliverAll(ops: array<Address>, results: array<int>, count: nat, ghost thread: nat,
                      ghost before: State<Address>, ghost was: Ops, depth: nat)
      requires Valid() && count <= ops.Length && count <= results.Length
      requires Delivering(before, was, s, memory.ops, Frame(thread, ops[..count], 0)) && |before.calls| <= |s.calls|
      requires forall a :: a in ops[..count] ==> a !in before.calls
      requires OwnResults(ops[..count], results[..count], s.cqLog)
      requires ops as object != sqArray && results as object != sqArray
      modifies this, memory, sqes, sqArray, cqes
      ensures Valid() && Evolves(before, was, s, memory.ops) && old(told) <= told
      ensures ops[..count] == old(ops[..count]) && results[..count] == old(results[..count])
      ensures (forall a :: a in ops[..count] ==> a in s.calls) && Told(told, ops[..count], results[..count], count)
      ensures |before.calls| + count <= |s.calls| && (count == 0 ==> s == old(s)) && old(s).cqHead <= s.cqHead
      ensures quiet ==> Calm(old(s), s, old(s).cqHead, still)
      decreases depth, 2
    {
      hide Valid, Inv, Agree, SqOps, CqOps, Waiting, Evolves, Delivering, Told;
      ghost var batch, values := ops[..count], results[..count];
      NothingTold(told, batch, values);
      var i := 0;
      while i < count
        invariant i <= count && Valid() && ops[..count] == batch && results[..count] == values
        invariant Delivering(before, was, s, memory.ops, Frame(thread, batch, i))
        invariant |before.calls| + i <= |s.calls| && (quiet ==> Calm(old(s), s, old(s).cqHead, still))
        invariant (i == 0 ==> s == old(s)) && old(s).cqHead <= s.cqHead
        invariant old(told) <= told && Told(told, batch, values, i) && OwnResults(batch, values, s.cqLog)
      {
        DeliveringRuns(before, was, s, memory.ops, Frame(thread, batch, i));
        ghost var t, now, toldBefore := s, memory.ops, told;
        assert ops[i] == batch[i] && results[i] == values[i] && batch[i] in batch;
        ghost var mid := Deliver(ops[i], results[i], |before.frames|, depth);
        DeliverOne(before, was, t, now, Frame(thread, batch, i), s, mid, batch[i]);
        EvolvesHeads(Called(t, |before.frames|), now, s, mid);
        OwnResultsStay(batch, values, t.cqLog, s.cqLog);
        OneMoreTold(toldBefore, told, batch, values, i);
        i := i + 1;
      }
      DeliveringEnds(before, was, s, memory.ops, Frame(thread, batch, i));
    }

    // ------------------------------------------------- flush, process_events, poll

    /** `Context.flush()`: outside SQPOLL mode everything up to the tail it read is handed to the kernel, in as many
        enter calls as the kernel asks for, before the completion ring is drained once.  `answers` are the kernel's
        to the successive enter calls. */
    method Flush(answers: nat -> EnterAnswer, asleep: bool, ghost thread: nat, memoryOk: bool, depth: nat)
      returns (r: FlushResult, ghost handed: nat)
      requires Valid()
      modifies this, memory, sqes, sqArray, cqes
      ensures Valid() && Evolves(old(s), old(memory.ops), s, memory.ops)
      ensures quiet ==> Calm(old(s), s, s.cqHead, still)
      ensures !sqpoll && !r.FlushError? ==> |old(s).sqLog| <= s.sqHead
      // it fails at the first enter call that fails; what the calls before it handed over stays handed over
      ensures r.FlushError? && sqpoll ==> asleep && !answers(0).Accepts? && s == old(s)
      ensures r.FlushError? && !sqpoll ==> old(s).sqHead + handed < |old(s).sqLog| && s == Handed(old(s), handed)
      ensures r.FlushError? && !sqpoll ==> exists k: nat :: FailsAfter(answers, k, handed)
      ensures !answers(0).Accepts? && (if sqpoll then asleep else old(s).sqHead < |old(s).sqLog|) ==> r.FlushError?
      ensures r.FlushNoMemory? ==> !memoryOk && old(s).cqHead < |old(s).cqLog|
      ensures !sqpoll && old(s).sqHead == |old(s).sqLog| ==> r == Flushed(0) && s == old(s)
      // otherwise everything that was visible in the ring is collected, and counted
      ensures r.Flushed? && (sqpoll || old(s).sqHead < |old(s).sqLog|) ==>
        |old(s).cqLog| <= s.cqHead && r.count == |CqOps(old(s).cqLog[old(s).cqHead..])|
    {
      hide Valid, Inv, Agree, SqOps, CqOps, Waiting, Evolves, DrainPrefix, Implements;
      ghost var before, was := s, memory.ops;
      EvolvesRefl(s, memory.ops);
      handed := 0;
      if sqpoll {
        if asleep && !answers(0).Accepts? {
          return FlushError, handed;
        }
      } else {
        ValidParts();
        StagingBounds([]);
        Distance(s.sqHead, |s.sqLog|);
        var tail, head := sqTail, sqHead;
        var toSubmit := Sub32(tail, head);
        if toSubmit == 0 {
          return Flushed(0), handed;
        }
        var complete;
        complete, handed := HandOver(toSubmit, answers);
        QuietEvolves(before, was, s);
        if !complete {
          return FlushError, handed;
        }
      }
      ghost var entered := s;
      CqBounds();
      var ok, count;
      ghost var n;
      ok, count, n := DrainCq(thread, UINT32_MAX, memoryOk, depth);
      EvolvesTrans(before, was, entered, was, s, memory.ops);
      EvolvesHeads(entered, was, s, memory.ops);
      if ok {
        DrainsAll(entered.cqLog[entered.cqHead..], UINT32_MAX, n);
      }
      r := if ok then Flushed(count) else FlushNoMemory;
    }

    lemma EvolvesHeads(s: State<Address>, ops: Ops, t: State<Address>, now: Ops)
      requires Evolves(s, ops, t, now)
      ensures s.sqHead <= t.sqHead && s.cqHead <= t.cqHead && s.cqLog <= t.cqLog && now.Keys == ops.Keys
    {
    }

    lemma EvolvesCalls(s: State<Address>, ops: Ops, t: State<Address>, now: Ops)
      requires Evolves(s, ops, t, now)
      ensures s.calls <= t.calls
    {
    }

    /** The submission loop of flush: enter until the snapshot of pending entries is used up, or a call fails. */
    method HandOver(toSubmit: nat, answers: nat -> EnterAnswer) returns (ok: bool, ghost handed: nat)
      requires Valid() && 0 < toSubmit <= |s.sqLog| - s.sqHead
      modifies this`sqHead, this`inKernel, this`s
      ensures Valid() && handed <= toSubmit && s == Handed(old(s), handed)
      ensures ok <==> handed == toSubmit
      ensures ok ==> answers(0).Accepts?
      ensures !ok ==> exists k: nat :: FailsAfter(answers, k, handed)
    {
      hide Valid, Handed;
      var remaining: nat := toSubmit;
      var calls: nat := 0;
      handed := 0;
      HandedBounds(s, 0);
      while remaining > 0
        invariant Valid() && remaining + handed == toSubmit && s == Handed(old(s), handed)
        invariant calls <= handed && (calls == 0 ==> handed == 0)
        invariant forall i: nat :: i < calls ==> answers(i).Accepts?
      {
        var ret := EnterAgain(remaining, answers(calls), old(s), handed);
        if ret < 0 {
          assert FailsAfter(answers, calls, handed);
          return false, handed;
        }
        calls := calls + 1;
        remaining := remaining - ret;
        handed := handed + ret;
      }
      ok := true;
    }

    method EnterAgain(remaining: nat, answer: EnterAnswer, ghost before: State<Address>, ghost handed: nat)
      returns (ret: int)
      requires Valid() && 0 < remaining && before.sqHead + handed + remaining <= |before.sqLog|
      requires s == Handed(before, handed)
      modifies this`sqHead, this`inKernel, this`s
      ensures Valid() && ret <= remaining && ret != 0 && (ret < 0 <==> !answer.Accepts?)
      ensures s == Handed(before, if ret < 0 then handed else handed + ret)
    {
      hide Valid;
      HandedBounds(before, handed);
      ret := KernelEnter(remaining, answer);
      hide Handed;
      if ret >= 0 {
        HandedTwice(before, handed, ret);
      }
    }

    lemma HandedBounds(s: State<Address>, k: nat)
      requires s.sqHead + k <= |s.sqLog|
      ensures Handed(s, 0) == s
      ensures Handed(s, k).sqHead == s.sqHead + k && Handed(s, k).sqLog == s.sqLog
    {
    }

    /** `Context.process_events(max, min)` without a timeout. */
    method ProcessEvents(max: uint32, min: uint32, answer: EnterAnswer, ghost thread: nat, memoryOk: bool, depth: nat)
      returns (r: EventsResult, ghost n: nat)
      requires Valid()
      modifies this, memory, sqes, sqArray, cqes
      ensures Valid() && Evolves(old(s), old(memory.ops), s, memory.ops)
      ensures quiet && r.Processed? ==> Calm(old(s), s, old(s).cqHead + n, still)
      ensures r.BadRange? <==> min > if max == 0 then 512 else max
      ensures r.EventsError? <==> 0 < min <= LimitOf(max) && answer.Refuses?
      ensures r.EventsNoMemory? <==>
        !r.BadRange? && !r.EventsError? && !memoryOk && old(s).cqHead != |old(s).cqLog|
      ensures !r.Processed? ==> s == old(s) && memory.ops == old(memory.ops)
      // the count is that of the completions in the part of the ring that was consumed, all of them called back
      ensures r.Processed? ==>
        var visible := old(s).cqLog[old(s).cqHead..];
        && DrainPrefix(visible, LimitOf(max), n)
        && r.count == |CqOps(visible[..n])| <= (if max == 0 then 512 else max)
        && (forall a :: a in CqOps(visible[..n]) ==> a !in old(s).calls && a in s.calls)
        && |old(s).calls| + r.count <= |s.calls| && old(s).cqHead + n <= s.cqHead
        && (r.count == 0 ==> n == |visible| && s == Collected(old(s), thread, n))
      ensures r.Processed? && old(s).cqHead == |old(s).cqLog| ==> r.count == 0
    {
      hide Valid, Inv, Agree, SqOps, Waiting, Evolves, Implements;
      EvolvesRefl(s, memory.ops);
      CqBounds();
      n := 0;
      var limit := LimitOf(max);
      if min > limit {
        return BadRange, n;
      }
      if min > 0 {
        ValidParts();
        StagingBounds([]);
        assert Handed(s, 0) == s;
        var ret := KernelEnter(0, answer);
        if ret < 0 && !answer.Interrupted? {
          return EventsError, n;
        }
      }
      var ok, count;
      ok, count, n := DrainCq(thread, limit, memoryOk, depth);
      r := if ok then Processed(count) else EventsNoMemory;
    }

    /** `Context.poll()`: a non-blocking read of the eventfd, which clears its counter. */
    method Poll() returns (r: PollResult)
      requires Valid()
      modifies this`eventCounter, this`s
      ensures Valid()
      ensures r == if old(s).counter == 0 then WouldBlock else Value(old(s).counter)
      ensures s == old(s).(counter := 0, handler := Awake)
    {
      hide SqOps, CqOps, Waiting, And, Pow2, Slot, RingHolds, Indirect;
      r := if eventCounter == 0 then WouldBlock else Value(eventCounter);
      eventCounter := 0;
      s := s.(counter := 0, handler := Awake);
    }

    /** A re-entrant submit. */
    method SubmitQuietly(args: seq<Address>)
      requires Valid()
      modifies memory, this`sqHead, this`sqTail, this`inKernel, this`opRefs, this`s, sqes, sqArray
      ensures Valid() && Evolves(old(s), old(memory.ops), s, memory.ops)
    {
      hide Valid, Inv, Agree, SqOps, CqOps, Waiting, Evolves, Busy;
      ghost var before, was := s, memory.ops;
      ValidParts();
      ghost var taken, entries;
      var r;
      r, taken, entries := Submit(args);
      if r.TypeError? {
        EvolvesRefl(s, memory.ops);
      } else {
        ghost var walked := if r.RingFull? then r.at else |args|;
        ClaimsMembers(args[..walked], Blocked(was));
        SubmitEvolves(before, id, was, s, memory.ops, FirstClaims(args[..walked], Blocked(was)));
      }
    }

    /** Anything the kernel may do at any moment. */
    method KernelActs()
      requires Valid()
      modifies this`sqHead, this`cqTail, this`inKernel, this`eventCounter, this`s, cqes
      ensures Valid() && KernelOnly(old(s), s)
      ensures Evolves(old(s), old(memory.ops), s, memory.ops) && Calm(old(s), s, old(s).cqHead, false)
    {
      hide Valid, Inv, Agree, SqOps, CqOps, Waiting, Evolves;
      ghost var before := s;
      var choice: nat := *;
      if choice == 0 {
        var wanted: nat := *;
        var _ := KernelEnter(wanted, Accepts);
      } else if choice == 1 {
        ghost var covered: nat :| covered <= s.owed;
        KernelSignal(covered);
      } else if inKernel != [] {
        CqBounds();
        if Sub32(cqTail, cqHead) < cqes.Length {
          var res: int := *;
          var i: nat :| i < |inKernel|;
          KernelPost(i, res);
        }
      }
      QuietEvolves(before, memory.ops, s);
    }

    /** The kernel does any number of such things. */
    method KernelRuns()
      requires Valid()
      modifies this`sqHead, this`cqTail, this`inKernel, this`eventCounter, this`s, cqes
      ensures Valid() && KernelOnly(old(s), s)
      ensures Evolves(old(s), old(memory.ops), s, memory.ops)
    {
      hide Valid, Evolves;
      EvolvesRefl(s, memory.ops);
      var steps: nat := *;
      while steps > 0
        invariant Valid() && KernelOnly(old(s), s)
        invariant Evolves(old(s), old(memory.ops), s, memory.ops)
      {
        ghost var before := s;
        KernelActs();
        EvolvesTrans(old(s), old(memory.ops), before, memory.ops, s, memory.ops);
        steps := steps - 1;
      }
    }

    /** The read handler ends, with the ring found empty or in the middle. */
    ghost method HandlerEnds()
      requires Valid() && (s.handler.Drained? || s.handler.Awake?)
      modifies this`s
      ensures Valid() && s == old(s).(handler := if old(s).handler.Drained? then Asleep else Failed)
    {
      hide SqOps, CqOps, Waiting, And, Pow2, Slot, RingHolds, Indirect;
      s := s.(handler := if s.handler.Drained? then Asleep else Failed);
    }

    lemma StagingBounds(entries: seq<Sqe<Address>>)
      requires Staging(entries)
      ensures Geometry() && sqHead == Word(s.sqHead) && sqTail == Word(|s.sqLog|) && inKernel == s.kernel
      ensures s.sqHead <= |s.sqLog| <= s.sqHead + sqes.Length && sqes.Length < WORD
      ensures Implements(Snapshot(), !noSqarray, s)
      ensures sqHead != sqTail <==> s.sqHead < |s.sqLog|
    {
    }
  }

  lemma SameEntry(a: Address, op: Operation)
    ensures Recognised(op.opcode) ==> SqeFor(a, op.(inProgress := true)) == SqeFor(a, op)
  {
  }

  method Append<T>(xs: array<T>, n: nat, x: T)
    requires n < xs.Length
    modifies xs
    ensures xs[..n + 1] == old(xs[..n]) + [x]
  {
    xs[n] := x;
  }

  method AnyAnswer() returns (answer: EnterAnswer)
  {
    var i: int := *;
    answer := if i == 0 then Accepts else if i == 1 then Interrupted else Refuses;
  }

  /** The log of callbacks is the log of calls, each told the result of its own completion. */
  ghost predicate TellsCalls(told: seq<(Address, int)>, s: State<Address>) {
    && |told| == |s.calls|
    && forall i :: 0 <= i < |told| ==> told[i].0 == s.calls[i] && Cqe(OpTag(told[i].0), told[i].1) in s.cqLog
  }

  ghost predicate OwnResults(batch: seq<Address>, values: seq<int>, log: seq<Cqe<Address>>) {
    |batch| == |values| && forall k :: 0 <= k < |batch| ==> Cqe(OpTag(batch[k]), values[k]) in log
  }

  lemma OwnResultsStay(batch: seq<Address>, values: seq<int>, log: seq<Cqe<Address>>, later: seq<Cqe<Address>>)
    requires OwnResults(batch, values, log) && log <= later
    ensures OwnResults(batch, values, later)
  {
    assert later == log + later[|log|..];
  }

  /** Operations and results of a run of completions belong together. */
  lemma {:induction false} ResultsAreOwn(run: seq<Cqe<Address>>)
    ensures OwnResults(CqOps(run), CqResults(run), run)
  {
    if run != [] {
      var n := |run| - 1;
      ResultsAreOwn(run[..n]);
      OwnResultsStay(CqOps(run[..n]), CqResults(run[..n]), run[..n], run);
      assert run[n] in run;
    }
  }

  lemma RunInLog(log: seq<Cqe<Address>>, from: nat, n: nat, batch: seq<Address>, values: seq<int>)
    requires from + n <= |log| && OwnResults(batch, values, log[from..][..n])
    ensures OwnResults(batch, values, log)
  {
    assert log == log[..from] + log[from..][..n] + log[from + n..];
  }

  ghost predicate Told(told: seq<(Address, int)>, batch: seq<Address>, values: seq<int>, n: nat) {
    n <= |batch| == |values| && forall k :: 0 <= k < n ==> (batch[k], values[k]) in told
  }

  lemma NothingTold(told: seq<(Address, int)>, batch: seq<Address>, values: seq<int>)
    requires |batch| == |values|
    ensures Told(told, batch, values, 0)
  {
  }

  lemma OneMoreTold(before: seq<(Address, int)>, told: seq<(Address, int)>, batch: seq<Address>, values: seq<int>,
                    n: nat)
    requires Told(before, batch, values, n) && n < |batch| && before + [(batch[n], values[n])] <= told
    ensures Told(told, batch, values, n + 1)
  {
    assert told[|before|] == (before + [(batch[n], values[n])])[|before|];
    forall k | 0 <= k < n
      ensures (batch[k], values[k]) in told
    {
      assert (batch[k], values[k]) in before;
      var j :| 0 <= j < |before| && before[j] == (batch[k], values[k]);
      assert told[j] == (before + [(batch[n], values[n])])[j];
    }
  }

  lemma SlotTwice<T>(xs: seq<T>, i: nat, x: T, y: T)
    requires i < |xs|
    ensures xs[i := x][i := y] == xs[i := y]
  {
  }
}
