/** The memory of an io_uring Context as values: the mapped rings against the
    protocol's histories, the Operation structs against an Operation's place in
    the protocol, and what claiming, collecting and delivering do to them.

    The Operation structs are kept in a map from their address, because an
    entry's `user_data` is nothing but that address. */
module UringMemory {
  import opened Bags
  import opened Claims
  import opened Frames
  import opened UringProtocol
  import opened Words

  const URING_READ := 0
  const URING_WRITE := 1
  const URING_FSYNC := 2
  const URING_FDSYNC := 3
  const EV_MAX_REQUESTS_DEFAULT: uint32 := 512
  const UINT32_MAX: uint32 := 0xFFFF_FFFF

  type Address = nat

  const NULL: Address := 0

  /** `inProgress` is one-shot: it is never reset once the Operation was really staged.
      `refs` counts the references the engine holds on the Operation. */
  datatype Operation = Operation(opcode: int, fileno: uint32, offset: nat, bufSize: nat, result: int, error: int,
                                 inProgress: bool, done: bool, context: Address, refs: nat)

  type Ops = map<Address, Operation>

  class Memory {
    var ops: Ops

    constructor (ops: Ops)
      ensures this.ops == ops
    {
      this.ops := ops;
    }
  }

  predicate Recognised(opcode: int) {
    URING_READ <= opcode <= URING_FDSYNC
  }

  /** Conversion of a 32-bit word to `int32_t`. */
  function AsInt32(x: uint32): int {
    if x < 0x8000_0000 then x else x - WORD
  }

  /** The entry that asks the kernel to carry out the Operation at `a`. */
  function SqeFor(a: Address, op: Operation): Sqe<Address>
    requires Recognised(op.opcode)
  {
    var fd := AsInt32(op.fileno);
    if op.opcode == URING_READ then Sqe(Read, fd, op.offset, BufferOf(a), op.bufSize % WORD, false, OpTag(a))
    else if op.opcode == URING_WRITE then Sqe(Write, fd, op.offset, BufferOf(a), op.bufSize % WORD, false, OpTag(a))
    else Sqe(Fsync, fd, op.offset, NoTarget, 0, op.opcode == URING_FDSYNC, OpTag(a))
  }

  /** What the kernel carries out. */
  datatype Request =
    | ReadInto(fd: int, offset: nat, buffer: Address, length: nat)
    | WriteFrom(fd: int, offset: nat, buffer: Address, length: nat)
    | Sync(fd: int, offset: nat, dataOnly: bool)
    | Withdraw(target: Address)
    | NoRequest

  /** How the kernel reads an entry: the opcode decides which fields count. */
  function RequestOf(sqe: Sqe<Address>): Request {
    match sqe.opcode
    case Nop => NoRequest
    case Read => if sqe.addr.BufferOf? then ReadInto(sqe.fd, sqe.off, sqe.addr.op, sqe.len) else NoRequest
    case Write => if sqe.addr.BufferOf? then WriteFrom(sqe.fd, sqe.off, sqe.addr.op, sqe.len) else NoRequest
    case Fsync => if sqe.len == 0 then Sync(sqe.fd, sqe.off, sqe.datasync) else NoRequest
    case AsyncCancel => if sqe.addr.CancelOf? then Withdraw(sqe.addr.op) else NoRequest
  }

  /** The descriptor that a 32-bit word stands for. */
  predicate Signed(fd: int, word: uint32) {
    -0x8000_0000 <= fd < 0x8000_0000 && (fd == word || fd == word - WORD)
  }

  /** The length that fits into 32 bits: the size itself, or what is left of it. */
  predicate LowWord(length: nat, size: nat) {
    length < 0x1_0000_0000 && (size - length) % 0x1_0000_0000 == 0 && (size < 0x1_0000_0000 ==> length == size)
  }

  /** The entry asks for what the Operation at `a` is about, and its completion will name `a`. */
  predicate AsksFor(sqe: Sqe<Address>, a: Address, op: Operation) {
    && sqe.tag == OpTag(a)
    && match RequestOf(sqe)
       case ReadInto(fd, offset, buffer, length) =>
         && op.opcode == URING_READ && Signed(fd, op.fileno) && offset == op.offset
         && buffer == a && LowWord(length, op.bufSize)
       case WriteFrom(fd, offset, buffer, length) =>
         && op.opcode == URING_WRITE && Signed(fd, op.fileno) && offset == op.offset
         && buffer == a && LowWord(length, op.bufSize)
       case Sync(fd, offset, dataOnly) =>
         && op.opcode == (if dataOnly then URING_FDSYNC else URING_FSYNC) && Signed(fd, op.fileno)
         && offset == op.offset
       case _ => false
  }

  /** The entry of an Operation asks the kernel for the Operation's own request, and that determines what the kernel
      does: any two entries that do so are the same request. */
  lemma RequestExact(a: Address, op: Operation, other: Sqe<Address>)
    requires Recognised(op.opcode)
    ensures AsksFor(SqeFor(a, op), a, op)
    ensures AsksFor(other, a, op) ==> RequestOf(other) == RequestOf(SqeFor(a, op)) && other.tag == SqeFor(a, op).tag
  {
  }

  /** The entries of a batch ask for the requests of its Operations, in order. */
  ghost predicate OwnRequests(entries: seq<Sqe<Address>>, batch: seq<Address>, ops: Ops) {
    && |entries| == |batch|
    && forall i :: 0 <= i < |batch| ==> batch[i] in ops && AsksFor(entries[i], batch[i], ops[batch[i]])
  }

  /** A zeroed entry with the fields every request has. */
  function Blank(a: Address, op: Operation): Sqe<Address> {
    Sqe(Nop, AsInt32(op.fileno), op.offset, NoTarget, 0, false, OpTag(a))
  }

  /** The per-opcode part of filling an entry. */
  method Describe(a: Address, op: Operation) returns (known: bool, sqe: Sqe<Address>)
    ensures known == Recognised(op.opcode)
    ensures known ==> sqe == SqeFor(a, op) && AsksFor(sqe, a, op)
  {
    sqe, known := Blank(a, op), true;
    if op.opcode == URING_READ {
      sqe := sqe.(opcode := Read, addr := BufferOf(a), len := op.bufSize % WORD);
    } else if op.opcode == URING_WRITE {
      sqe := sqe.(opcode := Write, addr := BufferOf(a), len := op.bufSize % WORD);
    } else if op.opcode == URING_FSYNC {
      sqe := sqe.(opcode := Fsync);
    } else if op.opcode == URING_FDSYNC {
      sqe := sqe.(opcode := Fsync, datasync := true);
    } else {
      known := false;
    }
  }

  function CancelSqe(a: Address): Sqe<Address> {
    Sqe(AsyncCancel, 0, 0, CancelOf(a), 0, false, CancelTag)
  }

  lemma CancelAsks(a: Address)
    ensures CancelSqe(a).tag.CancelTag? && RequestOf(CancelSqe(a)) == Withdraw(a)
  {
  }

  datatype Stage = Skipped | Full | Unknown | Staged

  datatype CancelResult = CancelQueued | CancelRingFull

  /** How the kernel answers `io_uring_enter`. */
  datatype EnterAnswer = Accepts | Interrupted | Refuses

  /** Call number `k` is the first that fails, when `handed` entries have been taken, at least one per call. */
  ghost predicate FailsAfter(answers: nat -> EnterAnswer, k: nat, handed: nat) {
    && !answers(k).Accepts? && (forall i: nat :: i < k ==> answers(i).Accepts?)
    && k <= handed && (k == 0 ==> handed == 0)
  }

  /** The limit of a process_events call. */
  function LimitOf(max: uint32): uint32 {
    if max == 0 then EV_MAX_REQUESTS_DEFAULT else max
  }

  datatype FlushResult = Flushed(count: nat) | FlushError | FlushNoMemory

  datatype EventsResult = Processed(count: nat) | BadRange | EventsError | EventsNoMemory

  datatype PollResult = Value(value: nat) | WouldBlock

  datatype SubmitResult = Accepted(count: nat) | RingFull(at: nat) | TypeError(at: nat)

  datatype Outcome = NotYet | Raises(errno: int) | Bytes(length: nat) | Count(count: int) | Nothing

  /** `get_value`. */
  function GetValue(op: Operation): Outcome {
    if op.inProgress && !op.done then NotYet
    else if op.error != 0 then Raises(op.error)
    else if op.opcode == URING_READ then Bytes(op.bufSize)
    else if op.opcode == URING_WRITE then Count(op.result)
    else Nothing
  }

  // ------------------------------------------------------------ rings, as values

  /** The mapped ring memory, as a value. */
  datatype Rings = Rings(sqHead: uint32, sqTail: uint32, sqes: seq<Sqe<Address>>, sqArray: seq<uint32>,
                         cqHead: uint32, cqTail: uint32, cqes: seq<Cqe<Address>>)

  /** The rings implement the two histories of `s`. */
  ghost predicate Implements(r: Rings, indirect: bool, s: State<Address>) {
    && s.sqHead <= |s.sqLog| <= s.sqHead + |r.sqes| && |r.sqes| == |r.sqArray| < WORD
    && s.cqHead <= |s.cqLog| <= s.cqHead + |r.cqes| && |r.cqes| < WORD
    && r.sqHead == Word(s.sqHead) && r.sqTail == Word(|s.sqLog|)
    && r.cqHead == Word(s.cqHead) && r.cqTail == Word(|s.cqLog|)
    && RingHolds(r.sqes, s.sqLog, s.sqHead)
    && RingHolds(r.cqes, s.cqLog, s.cqHead)
    && (indirect ==> Indirect(r.sqArray, s.sqHead, |s.sqLog|))
  }

  /** As `Implements`, with `entries` written beyond the published tail. */
  ghost predicate Open(r: Rings, indirect: bool, s: State<Address>, entries: seq<Sqe<Address>>) {
    && Implements(r, indirect, s)
    && RingHolds(r.sqes, s.sqLog + entries, s.sqHead)
    && (indirect ==> Indirect(r.sqArray, s.sqHead, |s.sqLog| + |entries|))
  }

  lemma OpenTake(r: Rings, indirect: bool, s: State<Address>, entries: seq<Sqe<Address>>, k: nat)
    requires Open(r, indirect, s, entries) && s.sqHead + k <= |s.sqLog|
    ensures Open(r.(sqHead := Word(s.sqHead + k)), indirect, Handed(s, k), entries)
  {
  }

  /** Writing the slot at the private tail disturbs nothing that is pending or staged. */
  lemma OpenWrite(r: Rings, indirect: bool, s: State<Address>, entries: seq<Sqe<Address>>, sqe: Sqe<Address>)
    requires Open(r, indirect, s, entries) && |s.sqLog| + |entries| < s.sqHead + |r.sqes|
    ensures var slot := Slot(|s.sqLog| + |entries|, |r.sqes|);
            && Open(r.(sqes := r.sqes[slot := sqe]), indirect, s, entries)
            && RingHolds(r.sqes[slot := sqe], s.sqLog + (entries + [sqe]), s.sqHead)
  {
    hide RingHolds, Slot, Indirect, Word;
    RingPutBeyond(r.sqes, s.sqLog, entries, s.sqHead, sqe);
  }

  lemma OpenPush(r: Rings, indirect: bool, s: State<Address>, entries: seq<Sqe<Address>>, sqe: Sqe<Address>)
    requires Open(r, indirect, s, entries) && |s.sqLog| + |entries| < s.sqHead + |r.sqes|
    ensures var slot := Slot(|s.sqLog| + |entries|, |r.sqes|);
            var index := if indirect then r.sqArray[slot := slot] else r.sqArray;
            Open(r.(sqes := r.sqes[slot := sqe], sqArray := index), indirect, s, entries + [sqe])
  {
    assert |r.sqes| > 0 && |r.sqes| == |r.sqArray|;
    hide Open, Implements;
    var slot, more := Slot(|s.sqLog| + |entries|, |r.sqes|), entries + [sqe];
    OpenWrite(r, indirect, s, entries, sqe);
    var put := r.(sqes := r.sqes[slot := sqe]);
    OpenIndex(put, indirect, s, entries, more);
  }

  /** The index array follows. */
  lemma OpenIndex(r: Rings, indirect: bool, s: State<Address>, entries: seq<Sqe<Address>>, more: seq<Sqe<Address>>)
    requires Open(r, indirect, s, entries) && RingHolds(r.sqes, s.sqLog + more, s.sqHead)
    requires |more| == |entries| + 1 && |s.sqLog| + |entries| < s.sqHead + |r.sqes|
    ensures var slot := Slot(|s.sqLog| + |entries|, |r.sqes|);
            Open(r.(sqArray := if indirect then r.sqArray[slot := slot] else r.sqArray), indirect, s, more)
  {
    hide RingHolds, Slot, Indirect, Word;
    if indirect {
      IndirectPut(r.sqArray, s.sqHead, |s.sqLog| + |entries|, |s.sqLog|);
    }
  }

  /** Publishing the tail turns staged entries into pending ones. */
  lemma OpenPublish(r: Rings, indirect: bool, s: State<Address>, entries: seq<Sqe<Address>>, t: State<Address>)
    requires Open(r, indirect, s, entries) && |s.sqLog| + |entries| <= s.sqHead + |r.sqes|
    requires t.sqLog == s.sqLog + entries && t.sqHead == s.sqHead && t.cqLog == s.cqLog && t.cqHead == s.cqHead
    ensures Implements(r.(sqTail := Word(|t.sqLog|)), indirect, t)
  {
  }

  lemma PostImplements(r: Rings, indirect: bool, s: State<Address>, i: nat, res: int)
    requires Implements(r, indirect, s) && i < |s.kernel| && |s.cqLog| < s.cqHead + |r.cqes|
    ensures var t := Posted(s, i, res);
            Implements(r.(cqes := r.cqes[Slot(|s.cqLog|, |r.cqes|) := t.cqLog[|s.cqLog|]], cqTail := Word(|t.cqLog|)),
                       indirect, t)
  {
    RingPut(r.cqes, s.cqLog, s.cqHead, Posted(s, i, res).cqLog[|s.cqLog|]);
  }

  lemma CollectImplements(r: Rings, indirect: bool, s: State<Address>, thread: nat, n: nat)
    requires Implements(r, indirect, s) && s.cqHead + n <= |s.cqLog|
    ensures Implements(r.(cqHead := Word(s.cqHead + n)), indirect, Collected(s, thread, n))
  {
  }

  // ------------------------------------------------------- claiming, as values

  ghost function Busy(ops: Ops): set<Address> {
    set a | a in ops && ops[a].inProgress
  }

  /** Arguments that a submit call cannot stage. */
  ghost function Blocked(ops: Ops): set<Address> {
    set a | a in ops && (ops[a].inProgress || !Recognised(ops[a].opcode))
  }

  function Taken(op: Operation, self: Address): Operation {
    op.(inProgress := true, context := self, refs := op.refs + 1)
  }

  /** Staging marks exactly the staged Operations and leaves every other field of memory alone. */
  ghost function StagedOps(was: Ops, staged: seq<Address>, self: Address): Ops {
    map a | a in was :: if a in staged then Taken(was[a], self) else was[a]
  }

  /** The entries of a staged batch are complete, one for each Operation, in order. */
  ghost predicate Describes(entries: seq<Sqe<Address>>, staged: seq<Address>, was: Ops) {
    && |entries| == |staged|
    && forall i :: 0 <= i < |staged| ==>
         staged[i] in was && Recognised(was[staged[i]].opcode) && entries[i] == SqeFor(staged[i], was[staged[i]])
  }

  lemma DescribesRequests(entries: seq<Sqe<Address>>, staged: seq<Address>, was: Ops)
    requires Describes(entries, staged, was)
    ensures OwnRequests(entries, staged, was)
  {
    hide SqeFor, AsksFor;
    forall i | 0 <= i < |staged|
      ensures AsksFor(entries[i], staged[i], was[staged[i]])
    {
      RequestExact(staged[i], was[staged[i]], entries[i]);
    }
  }

  /** Walking `walked` arguments never met a free one with the ring full. */
  ghost predicate Fits(args: seq<Address>, walked: nat, was: Ops, room: int) {
    walked <= |args| && forall i :: 0 <= i < walked && args[i] !in Busy(was) ==>
      args[i] in FirstClaims(args[..i], Blocked(was)) || |FirstClaims(args[..i], Blocked(was))| < room
  }

  /** After walking `walked` arguments: the first claims among them are staged in order, all are marked so,
      and none of the free ones had to be passed over for want of room. */
  ghost predicate Walk(self: Address, args: seq<Address>, walked: nat, was: Ops, now: Ops, room: int,
                       entries: seq<Sqe<Address>>) {
    && walked <= |args| && ToSet(args) <= was.Keys
    && var staged := FirstClaims(args[..walked], Blocked(was));
       && |staged| <= room
       && Describes(entries, staged, was)
       && now == StagedOps(was, staged, self)
       && Fits(args, walked, was, room)
  }

  /** A whole submit call: it stops early exactly at the first free argument that finds no room. */
  ghost predicate StagedBatch(self: Address, args: seq<Address>, walked: nat, was: Ops, now: Ops, room: int,
                              entries: seq<Sqe<Address>>) {
    && Walk(self, args, walked, was, now, room, entries)
    && (walked < |args| ==> |entries| == room && args[walked] !in Busy(now))
  }

  /** The `i`th argument is free when its turn comes, and the batch before it has used up the ring. */
  ghost predicate Overflows(args: seq<Address>, i: nat, was: Ops, room: int)
    requires i < |args|
  {
    var before := FirstClaims(args[..i], Blocked(was));
    args[i] !in Busy(was) && args[i] !in before && |before| >= room
  }

  /** Where a submit call stops is determined by its arguments: at the first one that overflows the ring. */
  lemma OverflowExact(self: Address, args: seq<Address>, walked: nat, was: Ops, now: Ops, room: int,
                      entries: seq<Sqe<Address>>)
    requires StagedBatch(self, args, walked, was, now, room, entries)
    ensures forall i: nat :: i < |args| && Overflows(args, i, was, room) ==> walked <= i
    ensures walked < |args| ==> Overflows(args, walked, was, room)
    ensures walked == |args| <==> forall i: nat :: i < |args| ==> !Overflows(args, i, was, room)
  {
    hide FirstClaims;
    if walked < |args| {
      var before := FirstClaims(args[..walked], Blocked(was));
      assert args[walked] in ToSet(args);
      assert now[args[walked]] == if args[walked] in before then Taken(was[args[walked]], self) else was[args[walked]];
      assert Overflows(args, walked, was, room);
    }
  }

  /** The staged Operations are claimed for a Context, which each holds a reference on; nothing else in memory has
      changed. */
  ghost predicate ClaimedFor(was: Ops, staged: seq<Address>, self: Address, now: Ops) {
    && now.Keys == was.Keys
    && forall a :: a in was ==>
         now[a] == if a in staged then was[a].(inProgress := true, context := self, refs := was[a].refs + 1) else was[a]
  }

  /** What is staged: the free arguments with one of the four requests there are, and nothing else. */
  ghost predicate FreeOnes(args: seq<Address>, staged: seq<Address>, was: Ops) {
    forall a :: a in staged <==>
      && a in args && a in was && !was[a].inProgress
      && was[a].opcode in {URING_READ, URING_WRITE, URING_FSYNC, URING_FDSYNC}
  }

  lemma BatchRequests(self: Address, args: seq<Address>, walked: nat, was: Ops, now: Ops, room: int,
                      entries: seq<Sqe<Address>>)
    requires StagedBatch(self, args, walked, was, now, room, entries)
    ensures walked <= |args| && OwnRequests(entries, FirstClaims(args[..walked], Blocked(was)), was)
    ensures ClaimedFor(was, FirstClaims(args[..walked], Blocked(was)), self, now)
    ensures FreeOnes(args[..walked], FirstClaims(args[..walked], Blocked(was)), was)
  {
    ClaimsMembers(args[..walked], Blocked(was));
    assert forall a :: a in args[..walked] ==> a in ToSet(args);
    hide FirstClaims, SqeFor, AsksFor, OwnRequests;
    DescribesRequests(entries, FirstClaims(args[..walked], Blocked(was)), was);
  }

  lemma WalkFacts(self: Address, args: seq<Address>, i: nat, was: Ops, now: Ops, room: int, entries: seq<Sqe<Address>>)
    requires Walk(self, args, i, was, now, room, entries)
    ensures i <= |args| && |entries| <= room && now.Keys == was.Keys >= ToSet(args)
  {
  }

  lemma StagedSnoc(was: Ops, staged: seq<Address>, self: Address, a: Address)
    requires a in was && a !in staged
    ensures a in StagedOps(was, staged, self) && StagedOps(was, staged, self)[a] == was[a]
    ensures StagedOps(was, staged, self)[a := Taken(was[a], self)] == StagedOps(was, staged + [a], self)
  {
  }

  lemma DescribesSnoc(entries: seq<Sqe<Address>>, staged: seq<Address>, was: Ops, a: Address)
    requires Describes(entries, staged, was) && a in was && Recognised(was[a].opcode)
    ensures Describes(entries + [SqeFor(a, was[a])], staged + [a], was)
  {
  }

  lemma WalkStage(self: Address, args: seq<Address>, i: nat, was: Ops, now: Ops, room: int, entries: seq<Sqe<Address>>)
    requires Walk(self, args, i, was, now, room, entries) && i < |args| && args[i] in now
    requires !now[args[i]].inProgress && Recognised(now[args[i]].opcode) && |entries| < room
    ensures var a := args[i];
            Walk(self, args, i + 1, was, now[a := Taken(now[a], self)], room, entries + [SqeFor(a, now[a])])
  {
    ClaimsSnoc(args, i, Blocked(was));
    hide FirstClaims, SqeFor;
    var staged, a := FirstClaims(args[..i], Blocked(was)), args[i];
    assert a !in staged;
    StagedSnoc(was, staged, self, a);
    DescribesSnoc(entries, staged, was, a);
  }

  lemma WalkSkip(self: Address, args: seq<Address>, i: nat, was: Ops, now: Ops, room: int, entries: seq<Sqe<Address>>)
    requires Walk(self, args, i, was, now, room, entries) && i < |args| && args[i] in now
    requires now[args[i]].inProgress || (!Recognised(now[args[i]].opcode) && |entries| < room)
    ensures Walk(self, args, i + 1, was, now, room, entries)
  {
    ClaimsSnoc(args, i, Blocked(was));
    hide FirstClaims;
  }

  // ------------------------------------------- Operations and protocol, as values

  /** Not collected yet: the Context is kept alive on its behalf. */
  ghost predicate Outstanding(s: State<Address>, a: Address) {
    s.cqHead <= |s.cqLog| && a in SqOps(s.sqLog) && a !in CqOps(s.cqLog[..s.cqHead])
  }

  /** The Operation holds the outcome of a completion with the result `res`. */
  predicate Holds(op: Operation, res: int) {
    && op.result == res && op.error == (if res < 0 then -res else 0)
    && (res >= 0 && op.opcode == URING_READ ==> op.bufSize == res)
  }

  /** Every collected Operation holds the outcome of its own completion, and none has an error before it is done. */
  ghost predicate Recorded(s: State<Address>, ops: Ops) {
    && s.cqHead <= |s.cqLog|
    && (forall a :: a in ops && !ops[a].done ==> ops[a].error == 0)
    && forall i :: 0 <= i < s.cqHead && s.cqLog[i].tag.OpTag? ==>
         s.cqLog[i].tag.op in ops && Holds(ops[s.cqLog[i].tag.op], s.cqLog[i].res)
  }

  /** What is recorded does not depend on claims and references. */
  lemma RecordedSame(s: State<Address>, ops: Ops, t: State<Address>, now: Ops)
    requires Recorded(s, ops) && t.cqHead == s.cqHead && s.cqLog <= t.cqLog && now.Keys == ops.Keys
    requires forall a :: a in ops ==>
      && now[a].opcode == ops[a].opcode && now[a].result == ops[a].result && now[a].error == ops[a].error
      && now[a].bufSize == ops[a].bufSize && now[a].done == ops[a].done
    ensures Recorded(t, now)
  {
  }

  /** The Operations agree with the protocol state of the Context `self`. */
  ghost predicate Agree(s: State<Address>, self: Address, ops: Ops) {
    Placed(s, self, ops) && Recorded(s, ops)
  }

  /** The flags, Contexts and references of the Operations agree with their place in the protocol. */
  ghost predicate Placed(s: State<Address>, self: Address, ops: Ops) {
    && self != NULL
    && (forall a :: a in SqOps(s.sqLog) ==> a in ops)
    && (forall a :: a in ops ==>
          var op := ops[a];
          && (op.context == self <==> Outstanding(s, a))
          && (a in SqOps(s.sqLog) ==> op.inProgress && (op.done <==> !Outstanding(s, a)))
          && (a in SqOps(s.sqLog) ==> op.refs <= 1 && (a !in s.calls ==> op.refs == 1))
          && (!op.inProgress ==> op.context == NULL && !op.done && op.refs == 0))
  }

  /** Once a staged batch is published, memory and protocol agree again. */
  lemma PublishAgrees(s: State<Address>, self: Address, was: Ops, staged: seq<Address>, taken: nat,
                      entries: seq<Sqe<Address>>)
    requires Inv(s) && Agree(s, self, was) && s.sqHead + taken <= |s.sqLog|
    requires Describes(entries, staged, was)
    requires NoDup(staged) && forall a :: a in staged ==> a in was && !was[a].inProgress
    ensures var t := Submitted(Handed(s, taken).(claimed := Busy(was)), entries);
            Inv(t) && Agree(t, self, StagedOps(was, staged, self)) && t.refs == s.refs + |staged|
  {
    hide SqOps, CqOps, Inv, Waiting, Recorded;
    PublishKeeps(s, taken, Busy(was), entries, staged);
    InvMembers(s);
    var t := Submitted(Handed(s, taken).(claimed := Busy(was)), entries);
    RecordedSame(s, was, t, StagedOps(was, staged, self));
    forall a | a in was
      ensures Outstanding(t, a) <==> Outstanding(s, a) || a in staged
    {
      assert a in SqOps(t.sqLog) <==> a in SqOps(s.sqLog) || a in staged;
      assert a in staged ==> a !in SqOps(s.sqLog);
    }
  }

  /** The results of a run of completions, sentinels left out. */
  function CqResults(run: seq<Cqe<Address>>): seq<int> {
    if run == [] then []
    else
      var last := run[|run| - 1];
      CqResults(run[..|run| - 1]) + if last.tag.OpTag? then [last.res] else []
  }

  lemma CqNext(run: seq<Cqe<Address>>, n: nat)
    requires n < |run|
    ensures CqOps(run[..n + 1]) == CqOps(run[..n]) + TagOps(run[n].tag)
    ensures CqResults(run[..n + 1]) == CqResults(run[..n]) + if run[n].tag.OpTag? then [run[n].res] else []
  {
    assert run[..n + 1][..n] == run[..n];
  }

  /** What the drain loop writes into a completed Operation. */
  function Completed(op: Operation, res: int): Operation {
    op.(result := res, error := if res < 0 then -res else op.error,
        bufSize := if res >= 0 && op.opcode == URING_READ then res else op.bufSize,
        context := NULL, done := true)
  }

  /** Memory after a run of completions was collected. */
  ghost function CompleteAll(ops: Ops, run: seq<Cqe<Address>>): Ops {
    if run == [] then ops
    else
      var before, last := CompleteAll(ops, run[..|run| - 1]), run[|run| - 1];
      if last.tag.OpTag? && last.tag.op in before
      then before[last.tag.op := Completed(before[last.tag.op], last.res)]
      else before
  }

  lemma CompleteSnoc(ops: Ops, run: seq<Cqe<Address>>, n: nat)
    requires n < |run|
    ensures var before, c := CompleteAll(ops, run[..n]), run[n];
            CompleteAll(ops, run[..n + 1]) ==
              if c.tag.OpTag? && c.tag.op in before
              then before[c.tag.op := Completed(before[c.tag.op], c.res)] else before
  {
    assert run[..n + 1][..n] == run[..n];
  }

  lemma {:induction false} CompletedOps(ops: Ops, run: seq<Cqe<Address>>)
    ensures CompleteAll(ops, run).Keys == ops.Keys
    ensures forall a :: a in ops ==>
      var now := CompleteAll(ops, run)[a];
      if a in CqOps(run)
      then now.context == NULL && now.done && now.inProgress == ops[a].inProgress && now.refs == ops[a].refs
      else now == ops[a]
  {
    if run != [] {
      var front, last := run[..|run| - 1], run[|run| - 1];
      CompletedOps(ops, front);
      assert run == front + [last];
    }
  }

  /** `now` is `op` with the result `res`: a negative one is its error, that of a read its length, and nothing else of
      it has changed but that it is done and lets go of the Context. */
  predicate GotOutcome(op: Operation, res: int, now: Operation) {
    && now.result == res && now.done && now.context == NULL
    && (if res < 0 then now.error == -res else now.error == op.error)
    && (if res >= 0 && op.opcode == URING_READ then now.bufSize == res else now.bufSize == op.bufSize)
    && now.opcode == op.opcode && now.fileno == op.fileno && now.offset == op.offset
    && now.inProgress == op.inProgress && now.refs == op.refs
  }

  /** Each collected Operation carries the result of its own completion. */
  lemma CompletedResult(ops: Ops, run: seq<Cqe<Address>>, i: nat)
    requires i < |run| && run[i].tag.OpTag? && run[i].tag.op in ops && NoDup(CqOps(run))
    ensures var a, res := run[i].tag.op, run[i].res;
      a in CompleteAll(ops, run) && GotOutcome(ops[a], res, CompleteAll(ops, run)[a])
  {
    CompletedOnce(ops, run, i);
  }

  lemma {:induction false} CompletedOnce(ops: Ops, run: seq<Cqe<Address>>, i: nat)
    requires i < |run| && run[i].tag.OpTag? && run[i].tag.op in ops && NoDup(CqOps(run))
    ensures var a, res := run[i].tag.op, run[i].res;
            a in CompleteAll(ops, run) && CompleteAll(ops, run)[a] == Completed(ops[a], res)
  {
    var front, last := run[..|run| - 1], run[|run| - 1];
    assert run == front + [last];
    CompletedOps(ops, front);
    CqOpsSnoc(front, last);
    NoDupSplit(CqOps(front), TagOps(last.tag));
    assert last.tag.OpTag? ==> last.tag.op in TagOps(last.tag);
    if i < |front| {
      CqMember(front, i);
      CompletedOnce(ops, front, i);
    }
  }

  /** The completions that a drain has just collected are recorded. */
  lemma CollectRecords(s: State<Address>, self: Address, was: Ops, thread: nat, n: nat)
    requires Inv(s) && Agree(s, self, was) && s.cqHead + n <= |s.cqLog|
    ensures Recorded(Collected(s, thread, n), CompleteAll(was, s.cqLog[s.cqHead..s.cqHead + n]))
  {
    hide SqOps, CqOps, Inv, Waiting, CompleteAll;
    var run := s.cqLog[s.cqHead..s.cqHead + n];
    var now := CompleteAll(was, run);
    RunMembers(s, n);
    CompletedOps(was, run);
    forall i | 0 <= i < s.cqHead + n && s.cqLog[i].tag.OpTag?
      ensures s.cqLog[i].tag.op in now && Holds(now[s.cqLog[i].tag.op], s.cqLog[i].res)
    {
      if i < s.cqHead {
        CollectedBefore(s, i);
      } else {
        assert run[i - s.cqHead] == s.cqLog[i];
        CqMember(run, i - s.cqHead);
        CompletedResult(was, run, i - s.cqHead);
      }
    }
  }

  lemma CollectedBefore(s: State<Address>, i: nat)
    requires Inv(s) && i < s.cqHead <= |s.cqLog| && s.cqLog[i].tag.OpTag?
    ensures !Outstanding(s, s.cqLog[i].tag.op) && s.cqLog[i].tag.op in SqOps(s.sqLog)
  {
    hide SqOps, CqOps, Inv, Waiting;
    InvMembers(s);
    assert s.cqLog[..s.cqHead][i] == s.cqLog[i];
    CqMember(s.cqLog[..s.cqHead], i);
  }

  lemma {:induction false} CqMember(run: seq<Cqe<Address>>, i: nat)
    requires i < |run| && run[i].tag.OpTag?
    ensures run[i].tag.op in CqOps(run)
  {
    var front, last := run[..|run| - 1], run[|run| - 1];
    assert run == front + [last];
    CqOpsSnoc(front, last);
    if i < |front| {
      CqMember(front, i);
    }
  }

  /** How much of the visible ring a drain with room for `max` completions consumes. */
  ghost predicate DrainPrefix(visible: seq<Cqe<Address>>, max: nat, n: nat) {
    && n <= |visible|
    && |CqOps(visible[..n])| <= max
    && (|CqOps(visible[..n])| < max ==> n == |visible|)
    && (n > 0 ==> |CqOps(visible[..n - 1])| < max)
  }

  lemma {:induction false} CqOpsMonotone(visible: seq<Cqe<Address>>, m: nat, n: nat)
    requires m <= n <= |visible|
    ensures |CqOps(visible[..m])| <= |CqOps(visible[..n])|
  {
    assert visible[..n] == visible[..m] + visible[m..n];
    CqOpsConcat(visible[..m], visible[m..n]);
  }

  /** The prefix is determined: a drain has no freedom in what it takes. */
  lemma DrainPrefixUnique(visible: seq<Cqe<Address>>, max: nat, m: nat, n: nat)
    requires DrainPrefix(visible, max, m) && DrainPrefix(visible, max, n)
    ensures m == n
  {
    if m < n {
      CqOpsMonotone(visible, m, n - 1);
    } else if n < m {
      CqOpsMonotone(visible, n, m - 1);
    }
  }

  /** A drain that returns 0 has consumed everything it could see, all of it sentinels. */
  lemma ZeroMeansDrained(visible: seq<Cqe<Address>>, max: nat, n: nat)
    requires DrainPrefix(visible, max, n) && max > 0 && CqOps(visible[..n]) == []
    ensures n == |visible| && forall i :: 0 <= i < |visible| ==> visible[i].tag.CancelTag?
  {
    assert visible[..n] == visible;
    forall i | 0 <= i < |visible|
      ensures visible[i].tag.CancelTag?
    {
      if visible[i].tag.OpTag? {
        CqMember(visible, i);
      }
    }
  }

  /** With a limit that the ring cannot exceed, everything visible is consumed. */
  lemma DrainsAll(visible: seq<Cqe<Address>>, max: nat, n: nat)
    requires DrainPrefix(visible, max, n) && |visible| <= max
    ensures n == |visible| && visible[..n] == visible
  {
    CqOpsLength(visible[..n]);
  }

  lemma {:induction false} CqOpsLength(run: seq<Cqe<Address>>)
    ensures |CqOps(run)| <= |run| && |CqResults(run)| == |CqOps(run)|
  {
    if run != [] {
      CqOpsLength(run[..|run| - 1]);
    }
  }

  /** The next completion to collect: its Operation still holds the Context and has not been touched. */
  lemma NextEntry(s: State<Address>, self: Address, was: Ops, n: nat)
    requires Inv(s) && Agree(s, self, was) && s.cqHead + n < |s.cqLog| && s.cqLog[s.cqHead + n].tag.OpTag?
    ensures var a := s.cqLog[s.cqHead + n].tag.op;
            var ops := CompleteAll(was, s.cqLog[s.cqHead..][..n]);
            a in was && was[a].context == self && a in ops && ops[a] == was[a]
  {
    hide SqOps, CqOps, Inv, Waiting, CompleteAll;
    var visible, a := s.cqLog[s.cqHead..], s.cqLog[s.cqHead + n].tag.op;
    assert visible[n] == s.cqLog[s.cqHead + n];
    assert visible[..n + 1] == s.cqLog[s.cqHead..s.cqHead + (n + 1)];
    RunMembers(s, n + 1);
    CqNext(visible, n);
    assert TagOps(visible[n].tag) == [a];
    NoDupSplit(CqOps(visible[..n]), [a]);
    assert a in CqOps(visible[..n + 1]);
    CompletedOps(was, visible[..n]);
  }

  lemma DrainLimit(visible: seq<Cqe<Address>>, n: nat, max: nat)
    requires n <= |visible| && (n > 0 ==> |CqOps(visible[..n - 1])| < max)
    ensures |CqOps(visible[..n])| <= max
  {
    if n > 0 {
      CqNext(visible, n - 1);
    }
  }

  /** The drain loop after `n` visible entries. */
  ghost predicate Draining(visible: seq<Cqe<Address>>, max: nat, n: nat, batch: seq<Address>, results: seq<int>,
                           was: Ops, now: Ops) {
    && n <= |visible|
    && batch == CqOps(visible[..n]) && results == CqResults(visible[..n])
    && now == CompleteAll(was, visible[..n])
    && (n > 0 ==> |CqOps(visible[..n - 1])| < max)
  }

  lemma DrainStart(visible: seq<Cqe<Address>>, max: nat, was: Ops)
    ensures Draining(visible, max, 0, [], [], was, was)
  {
  }

  lemma DrainNext(visible: seq<Cqe<Address>>, max: nat, n: nat, batch: seq<Address>, results: seq<int>,
                  was: Ops, now: Ops)
    requires Draining(visible, max, n, batch, results, was, now) && n < |visible| && |batch| < max
    requires visible[n].tag.OpTag? ==> visible[n].tag.op in now
    ensures match visible[n].tag
      case OpTag(a) =>
        Draining(visible, max, n + 1, batch + [a], results + [visible[n].res], was,
                 now[a := Completed(now[a], visible[n].res)])
      case CancelTag => Draining(visible, max, n + 1, batch, results, was, now)
  {
    CqNext(visible, n);
    CompleteSnoc(was, visible, n);
    hide CqOps, CqResults, CompleteAll, Completed;
  }

  lemma DrainStep(s: State<Address>, self: Address, max: nat, n: nat, batch: seq<Address>, results: seq<int>,
                  was: Ops, now: Ops)
    requires Inv(s) && Agree(s, self, was) && s.cqHead + n < |s.cqLog|
    requires Draining(s.cqLog[s.cqHead..], max, n, batch, results, was, now) && |batch| < max
    ensures var visible, c := s.cqLog[s.cqHead..], s.cqLog[s.cqHead + n];
      && |batch| == |results| <= n
      && match c.tag
         case OpTag(a) =>
           && a in now && now[a].context == self
           && Draining(visible, max, n + 1, batch + [a], results + [c.res], was, now[a := Completed(now[a], c.res)])
         case CancelTag => Draining(visible, max, n + 1, batch, results, was, now)
  {
    hide SqOps, CqOps, CqResults, CompleteAll, Inv, Waiting, Agree, Completed;
    var visible, c := s.cqLog[s.cqHead..], s.cqLog[s.cqHead + n];
    assert visible[n] == c;
    CqOpsLength(visible[..n]);
    if c.tag.OpTag? {
      NextEntry(s, self, was, n);
    }
    DrainNext(visible, max, n, batch, results, was, now);
  }

  /** Collecting keeps memory and protocol in agreement. */
  lemma CollectAgrees(s: State<Address>, self: Address, was: Ops, thread: nat, n: nat)
    requires Inv(s) && Agree(s, self, was) && s.cqHead + n <= |s.cqLog|
    ensures Agree(Collected(s, thread, n), self, CompleteAll(was, s.cqLog[s.cqHead..s.cqHead + n]))
  {
    hide SqOps, CqOps, Inv, Waiting, CompleteAll, Recorded;
    InvMembers(s);
    CollectRecords(s, self, was, thread, n);
    var t, run := Collected(s, thread, n), s.cqLog[s.cqHead..s.cqHead + n];
    CompletedOps(was, run);
    assert t.cqLog[..t.cqHead] == s.cqLog[..s.cqHead] + run;
    CqOpsConcat(s.cqLog[..s.cqHead], run);
    RunMembers(s, n);
    forall a | a in was
      ensures Outstanding(t, a) <==> Outstanding(s, a) && a !in CqOps(run)
    {
    }
  }

  /** The entries about to be collected name outstanding Operations that were not called. */
  lemma RunMembers(s: State<Address>, n: nat)
    requires Inv(s) && s.cqHead + n <= |s.cqLog|
    ensures var run := s.cqLog[s.cqHead..s.cqHead + n];
            && NoDup(CqOps(run))
            && forall a :: a in CqOps(run) ==> Outstanding(s, a) && a !in s.calls
  {
    hide SqOps, CqOps, Inv, Waiting;
    InvMembers(s);
    var head, run, rest := s.cqLog[..s.cqHead], s.cqLog[s.cqHead..s.cqHead + n], s.cqLog[s.cqHead + n..];
    assert s.cqLog == (head + run) + rest;
    CqOpsConcat(head + run, rest);
    CqOpsConcat(head, run);
    NoDupSplit(CqOps(head) + CqOps(run), CqOps(rest));
    NoDupSplit(CqOps(head), CqOps(run));
    assert forall a :: a in CqOps(run) ==> a in CqOps(s.cqLog);
  }

  /** A cancel request adds an entry but no Operation; handing entries over changes no Operation. */
  lemma CancelAgrees(s: State<Address>, self: Address, ops: Ops, a: Address)
    requires Inv(s) && Agree(s, self, ops)
    ensures var t := CancelRequested(s, CancelSqe(a)); Inv(t) && Agree(t, self, ops)
  {
    hide SqOps, CqOps, Inv, Waiting, Recorded;
    RecordedSame(s, ops, CancelRequested(s, CancelSqe(a)), ops);
    CancelKeeps(s, CancelSqe(a));
    SqOpsSnoc(s.sqLog, CancelSqe(a));
    assert SqOps(CancelRequested(s, CancelSqe(a)).sqLog) == SqOps(s.sqLog);
  }

  lemma HandedAgrees(s: State<Address>, self: Address, ops: Ops, k: nat)
    requires Inv(s) && Agree(s, self, ops) && s.sqHead + k <= |s.sqLog|
    ensures Inv(Handed(s, k)) && Agree(Handed(s, k), self, ops)
  {
    hide SqOps, CqOps, Inv, Waiting, Recorded;
    RecordedSame(s, ops, Handed(s, k), ops);
    HandedKeeps(s, k);
  }

  /** What arbitrary activity during a callback leaves alone: older frames are as they were, newer ones are
      finished, deliveries are only added, and Operations already called are not touched again. */
  ghost predicate Evolves(s: State<Address>, ops: Ops, t: State<Address>, now: Ops) {
    && Settled(s.frames, t.frames)
    && s.calls <= t.calls && s.sqLog <= t.sqLog && s.sqHead <= t.sqHead
    && s.cqLog <= t.cqLog && s.cqHead <= t.cqHead
    && now.Keys == ops.Keys
    && forall a :: a in s.calls && a in ops ==> now[a] == ops[a]
  }

  /** What callbacks that never call back leave alone besides: nothing is submitted, nothing collected beyond `head`,
      and the eventfd is not read, so that the handler's state changes only by the ring being found empty; with the
      kernel `still`, nothing is posted or signalled either. */
  predicate Calm(s: State<Address>, t: State<Address>, head: nat, still: bool) {
    && t.sqLog == s.sqLog && t.cqHead == head && (t.handler == s.handler || t.handler == FoundEmpty(s.handler))
    && (still ==> t.cqLog == s.cqLog && t.owed == s.owed && t.counter == s.counter)
    && (Announced(s) || |t.cqLog| > |s.cqLog| ==> Announced(t))
  }

  /** What the kernel alone can do to a Context: nothing is collected or called; what it posts it announces. */
  ghost predicate KernelOnly(s: State<Address>, t: State<Address>) {
    && t.frames == s.frames && t.calls == s.calls && t.cqHead == s.cqHead && t.handler == s.handler
    && t.sqLog == s.sqLog && s.sqHead <= t.sqHead && s.cqLog <= t.cqLog
    && (Announced(s) || |t.cqLog| > |s.cqLog| ==> Announced(t))
  }

  lemma EvolvesTrans(s: State<Address>, a: Ops, t: State<Address>, b: Ops, u: State<Address>, c: Ops)
    requires Evolves(s, a, t, b) && Evolves(t, b, u, c)
    ensures Evolves(s, a, u, c)
  {
  }

  lemma CalledAreBusy(s: State<Address>, self: Address, ops: Ops, a: Address)
    requires Inv(s) && Agree(s, self, ops) && a in s.calls
    ensures a in ops && ops[a].inProgress && a in SqOps(s.sqLog) && !Outstanding(s, a)
  {
    hide SqOps, CqOps, Inv, Waiting;
    InvMembers(s);
  }

  lemma SubmitEvolves(s: State<Address>, self: Address, ops: Ops, t: State<Address>, now: Ops, staged: seq<Address>)
    requires Inv(s) && Agree(s, self, ops)
    requires t.frames == s.frames && t.calls == s.calls && s.sqLog <= t.sqLog && s.sqHead <= t.sqHead
    requires s.cqLog <= t.cqLog && s.cqHead <= t.cqHead
    requires now == StagedOps(ops, staged, self) && forall a :: a in staged ==> a in ops && !ops[a].inProgress
    ensures Evolves(s, ops, t, now)
  {
    hide SqOps, CqOps, Inv, Waiting, Agree;
    assert s.frames[..|s.frames|] == s.frames;
    forall a | a in s.calls && a in ops
      ensures now[a] == ops[a]
    {
      CalledAreBusy(s, self, ops, a);
    }
  }

  /** Calling the next callback of a frame. */
  lemma CallAgrees(s: State<Address>, self: Address, ops: Ops, f: nat)
    requires Inv(s) && Agree(s, self, ops) && Runs(s.frames, f)
    ensures var t, a := Called(s, f), s.frames[f].batch[s.frames[f].called];
      && Inv(t) && Agree(t, self, ops)
      && a !in s.calls && a in t.calls && a in ops && ops[a].refs == 1 && !Outstanding(s, a) && a in SqOps(s.sqLog)
  {
    hide SqOps, CqOps, Waiting, Inv, Recorded;
    CallKeeps(s, f);
    RecordedSame(s, ops, Called(s, f), ops);
    var t, a := Called(s, f), s.frames[f].batch[s.frames[f].called];
    assert t.calls == s.calls + [a];
    InvMembers(s);
    InvMembers(t);
    CallsNoDup(t);
    NoDupSplit(s.calls, [a]);
    assert a in t.calls;
  }

  /** A drain in the middle of its deliveries: `f` is its own frame, `i` callbacks have returned. */
  ghost predicate Delivering(s: State<Address>, ops: Ops, t: State<Address>, now: Ops, frame: Frame<Address>) {
    && Opened(s.frames, t.frames, frame)
    && s.calls <= t.calls && s.sqLog <= t.sqLog && s.sqHead <= t.sqHead
    && s.cqLog <= t.cqLog && s.cqHead <= t.cqHead
    && (forall k :: 0 <= k < frame.called ==> frame.batch[k] in t.calls)
    && now.Keys == ops.Keys
    && forall a :: a in s.calls && a in ops ==> now[a] == ops[a]
  }

  /** One delivery: the callback's own activity, then the release of `a`. */
  lemma DeliverOne(s: State<Address>, ops: Ops, t: State<Address>, now: Ops, frame: Frame<Address>,
                   u: State<Address>, mid: Ops, a: Address)
    requires Delivering(s, ops, t, now, frame) && frame.called < |frame.batch| && a == frame.batch[frame.called]
    requires a !in s.calls && a in mid && Evolves(Called(t, |s.frames|), now, u, mid)
    ensures Delivering(s, ops, u, mid[a := mid[a].(refs := 0)], frame.(called := frame.called + 1))
  {
    hide Settled;
    var c := Called(t, |s.frames|);
    OpenedNext(s.frames, t.frames, frame, u.frames);
    forall k | 0 <= k <= frame.called
      ensures frame.batch[k] in u.calls
    {
      assert frame.batch[k] in c.calls;
    }
    forall b | b in s.calls && b in ops
      ensures b != a && mid[b] == ops[b]
    {
      assert b in c.calls;
    }
  }

  lemma DeliveringEnds(s: State<Address>, ops: Ops, t: State<Address>, now: Ops, frame: Frame<Address>)
    requires Delivering(s, ops, t, now, frame) && frame.called == |frame.batch|
    ensures Evolves(s, ops, t, now)
    ensures forall a :: a in frame.batch ==> a in t.calls
  {
  }

  lemma EvolvesRefl(s: State<Address>, ops: Ops)
    ensures Evolves(s, ops, s, ops)
  {
  }

  lemma EvolvedOp(s: State<Address>, ops: Ops, t: State<Address>, now: Ops, a: Address)
    requires Evolves(s, ops, t, now) && a in s.calls && a in ops
    ensures a in now && now[a] == ops[a] && a in t.calls && |s.calls| <= |t.calls|
  {
  }

  /** After the collection the drain is ready to deliver its batch. */
  lemma CollectDelivers(s: State<Address>, self: Address, ops: Ops, thread: nat, n: nat)
    requires Inv(s) && Agree(s, self, ops) && s.cqHead + n <= |s.cqLog|
    ensures var run := s.cqLog[s.cqHead..][..n];
      && Delivering(s, ops, Collected(s, thread, n), CompleteAll(ops, run), Frame(thread, CqOps(run), 0))
      && forall a :: a in CqOps(run) ==> a !in s.calls
  {
    hide SqOps, CqOps, Inv, Waiting, Agree, CompleteAll;
    var run := s.cqLog[s.cqHead..s.cqHead + n];
    assert run == s.cqLog[s.cqHead..][..n];
    RunMembers(s, n);
    CompletedOps(ops, run);
  }

  lemma DeliveringRuns(s: State<Address>, ops: Ops, t: State<Address>, now: Ops, frame: Frame<Address>)
    requires Delivering(s, ops, t, now, frame) && frame.called < |frame.batch|
    ensures Runs(t.frames, |s.frames|) && t.frames[|s.frames|] == frame
  {
  }

  /** Kernel activity and cancel requests touch neither frames nor Operations. */
  lemma QuietEvolves(s: State<Address>, ops: Ops, t: State<Address>)
    requires t.frames == s.frames && t.calls == s.calls && s.sqLog <= t.sqLog && s.sqHead <= t.sqHead
    requires s.cqLog <= t.cqLog && s.cqHead <= t.cqHead
    ensures Evolves(s, ops, t, ops)
  {
  }

  /** Dropping the engine's reference after the callback. */
  lemma ReleaseAgrees(s: State<Address>, self: Address, ops: Ops, a: Address)
    requires Agree(s, self, ops) && a in ops && a in s.calls && ops[a].refs == 1 && a in SqOps(s.sqLog)
    ensures Agree(s, self, ops[a := ops[a].(refs := 0)])
  {
    hide Recorded;
    RecordedSame(s, ops, s, ops[a := ops[a].(refs := 0)]);
  }
}
