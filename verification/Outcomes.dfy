/** What an Operation of the thread-pool engine says, and when: the worker stores
    its outcome field by field while a reader may be loading them. */
module Outcomes {
  datatype Opcode = Read | Write | Fsync | Fdsync

  /** `refs` counts the references the engine holds; `payload` tells whether `py_buffer` is set. */
  datatype Operation = Operation(opcode: Opcode, fileno: nat, offset: int, bufSize: int, result: int, error: nat,
                                 payload: bool, inProgress: bool, done: bool, refs: nat)

  datatype Outcome = InFlight | Failed(errno: nat) | Bytes(length: int) | Count(count: int) | NoValue

  /** The system calls; the buffer is always the Operation's own. */
  datatype Call = Pread(fd: int, size: int, offset: int) | Pwrite(fd: int, size: int, offset: int) | SyncAll(fd: int)
    | SyncData(fd: int)

  /** Conversion to a C `int`. */
  function AsInt(x: int): int {
    var low := x % 0x1_0000_0000;
    if low < 0x8000_0000 then low else low - 0x1_0000_0000
  }

  /** The `int` that stands for `x`: `x` itself if it is one. */
  predicate IsIntOf(value: int, x: int) {
    && -0x8000_0000 <= value < 0x8000_0000 && (x - value) % 0x1_0000_0000 == 0
    && (-0x8000_0000 <= x < 0x8000_0000 ==> value == x)
  }

  /** The call does what the Operation is about. */
  predicate CallsFor(call: Call, op: Operation) {
    && IsIntOf(call.fd, op.fileno)
    && match call
       case Pread(_, size, offset) => op.opcode.Read? && IsIntOf(size, op.bufSize) && offset == op.offset
       case Pwrite(_, size, offset) => op.opcode.Write? && IsIntOf(size, op.bufSize) && offset == op.offset
       case SyncAll(_) => op.opcode.Fsync?
       case SyncData(_) => op.opcode.Fdsync?
  }

  lemma AsIntIs(x: int)
    ensures IsIntOf(AsInt(x), x)
  {
  }

  /** What an Operation goes through while its worker runs: one state after each store. */
  function Writes(op: Operation, result: int, errno: nat): (states: seq<Operation>) {
    var cleared := op.(error := 0);
    var returned := cleared.(result := result);
    var failed := if result < 0 then returned.(error := errno) else returned;
    var sized := if op.opcode.Read? then failed.(bufSize := result) else failed;
    var freed := if op.opcode.Write? then sized.(payload := false) else sized;
    [op, cleared, returned, failed, sized, freed, freed.(done := true)]
  }

  /** From before the claim of a fresh Operation to its completion. */
  function History(op: Operation, result: int, errno: nat): (states: seq<Operation>) {
    [op] + Writes(op.(inProgress := true), result, errno)
  }

  /** `get_value`: it loads the claim flag at `claim`, the done flag at `done`, the error code at `error` and
      the value at `value`. */
  function GetValue(claim: Operation, done: Operation, error: Operation, value: Operation): Outcome {
    if claim.inProgress && !done.done then InFlight
    else if error.error != 0 then Failed(error.error)
    else match value.opcode
      case Read => Bytes(value.bufSize)
      case Write => Count(value.result)
      case _ => NoValue
  }

  /** What a reader ought to be told of a call that has returned: the error code of one that failed, otherwise the
      bytes of a read, the count of a write and nothing of a sync. */
  predicate Tells(said: Outcome, opcode: Opcode, result: int, errno: nat) {
    && (result < 0 <==> said == Failed(errno))
    && (result >= 0 && opcode.Read? <==> said == Bytes(result))
    && (result >= 0 && opcode.Write? <==> said == Count(result))
    && (result >= 0 && (opcode.Fsync? || opcode.Fdsync?) <==> said == NoValue)
  }

  /** What the worker leaves behind, field by field: the Python buffer goes with a write only. */
  predicate Left(was: Operation, now: Operation, result: int, errno: nat) {
    && now.done && now.result == result && now.error == (if result < 0 then errno else 0)
    && now.opcode == was.opcode && now.fileno == was.fileno && now.offset == was.offset
    && now.inProgress == was.inProgress
    && now.bufSize == (if was.opcode.Read? then result else was.bufSize)
    && now.payload == (was.payload && !was.opcode.Write?)
  }

  lemma WritesFinal(op: Operation, result: int, errno: nat)
    requires result < 0 ==> errno > 0
    ensures var last := Writes(op, result, errno)[6];
      && Left(op, last, result, errno) && last.refs == op.refs
      && Tells(GetValue(last, last, last, last), op.opcode, result, errno)
  {
  }

  /** The fields of an Operation that nobody has submitted, read as a value. */
  predicate ReadsFresh(said: Outcome, op: Operation) {
    && (op.opcode.Read? <==> said == Bytes(op.bufSize))
    && (op.opcode.Write? <==> said == Count(op.result))
    && (op.opcode.Fsync? || op.opcode.Fdsync? <==> said == NoValue)
  }

  /** The loads that tear the outcome of a call that fails: the claim flag is read before the claim, the error code
      before it is stored, and the value after it was - unless it was that value already. */
  predicate Tears(op: Operation, result: int, claim: nat, error: nat, value: nat) {
    && claim == 0 && error < 4 && result < 0
    && match op.opcode
       case Read => value >= 5 && op.bufSize != result
       case Write => value >= 3 && op.result != result
       case _ => false
  }

  /** For every schedule of the four loads of `get_value` against the stores of claim and worker: the reader is turned
      away, is told what the call gave, or reads the fresh Operation exactly when the loads do not tear; when they do,
      it reports a negative length or count as a success. */
  lemma GateExact(op: Operation, result: int, errno: nat, i: nat, j: nat, k: nat, l: nat)
    requires !op.inProgress && !op.done && op.error == 0 && errno > 0
    requires i <= j <= k <= l < |History(op, result, errno)|
    ensures var h := History(op, result, errno);
      var r := GetValue(h[i], h[j], h[k], h[l]);
      && (r == InFlight || Tells(r, op.opcode, result, errno) || ReadsFresh(r, op) <==> !Tears(op, result, i, k, l))
      && (l == 0 ==> ReadsFresh(r, op))
      && (Tears(op, result, i, k, l) ==> r == if op.opcode.Read? then Bytes(result) else Count(result))
      && (i > 0 ==> (r == InFlight <==> j < |h| - 1) && (Tells(r, op.opcode, result, errno) <==> j == |h| - 1))
  {
    hide Writes;
    HistoryFields(op, result, errno);
  }

  /** Which fields change at which store. */
  lemma HistoryFields(op: Operation, result: int, errno: nat)
    ensures var h := History(op, result, errno);
      && |h| == 8
      && forall i :: 0 <= i < 8 ==>
           && h[i].opcode == op.opcode
           && h[i].inProgress == (i > 0 || op.inProgress)
           && h[i].done == (i == 7 || op.done)
           && h[i].error == (if i < 2 then op.error else if i < 4 || result >= 0 then 0 else errno)
           && h[i].payload == (op.payload && (i < 6 || !op.opcode.Write?))
           && h[i].result == (if i < 3 then op.result else result)
           && h[i].bufSize == if i < 5 || !op.opcode.Read? then op.bufSize else result
  {
  }

  /** Both tears happen: a failing call on a fresh Operation, its reader overtaken by the claim and the worker. */
  lemma OvertakenReaderTears(op: Operation, result: int, errno: nat)
    requires !op.inProgress && !op.done && op.error == 0 && errno > 0 && result < 0
    requires (op.opcode.Read? && op.bufSize != result) || (op.opcode.Write? && op.result != result)
    ensures var h := History(op, result, errno);
      && GetValue(h[0], h[0], h[0], h[7]) == (if op.opcode.Read? then Bytes(result) else Count(result))
      && GetValue(h[7], h[7], h[7], h[7]) == Failed(errno)
  {
    GateExact(op, result, errno, 0, 0, 0, 7);
    GateExact(op, result, errno, 7, 7, 7, 7);
  }
}
