/** Positional reads and writes emulated with lseek, under one lock per file
    descriptor.  The registry of locks is weak: it drops an entry as soon as no
    thread refers to the lock any more. */
module FdLocks {
  type Fd = nat
  type Lock = nat
  type File = seq<nat>

  datatype Request = ReadAt(fd: Fd, offset: nat, size: nat) | WriteAt(fd: Fd, offset: nat, data: seq<nat>)

  datatype Result = Data(bytes: seq<nat>) | Count(n: nat)

  datatype Phase = Entered | Rewound | Sought | Transferred

  datatype Pc =
    | Idle
    | Referring(req: Request, lock: Lock)                // `__fd_lock` has returned, the lock is not taken yet
    | Holding(req: Request, lock: Lock, phase: Phase)

  datatype State = State(
    threads: seq<Pc>,
    registry: map<Fd, Lock>,
    created: nat,                     // locks created so far; a new one gets the next number
    offsets: map<Fd, nat>,
    files: map<Fd, File>,
    results: seq<(Request, Result)>)

  datatype Event =
    | GetLock(t: nat, req: Request)
    | Enter(t: nat)
    | Rewind(t: nat)
    | Seek(t: nat)
    | Transfer(t: nat, n: nat)        // the kernel transfers `n` bytes, perhaps fewer than asked for
    | Exit(t: nat)
    | Forget(fd: Fd)                  // the weak registry drops an entry

  /** `n` bytes of a file from a position on, as far as it goes. */
  function ReadFrom(file: File, at: nat, n: nat): File {
    if at >= |file| then [] else if at + n >= |file| then file[at..] else file[at..at + n]
  }

  /** A file after bytes were written at a position; a gap is filled with zeros. */
  function Overwrite(file: File, at: nat, data: File): File {
    if data == [] then file
    else if at > |file| then file + seq(at - |file|, _ => 0) + data
    else if at + |data| >= |file| then file[..at] + data
    else file[..at] + data + file[at + |data|..]
  }

  function FileOf(files: map<Fd, File>, fd: Fd): File {
    if fd in files then files[fd] else []
  }

  function OffsetOf(offsets: map<Fd, nat>, fd: Fd): nat {
    if fd in offsets then offsets[fd] else 0
  }

  predicate Refers(pc: Pc, lock: Lock) {
    !pc.Idle? && pc.lock == lock
  }

  predicate Taken(threads: seq<Pc>, lock: Lock) {
    exists u :: 0 <= u < |threads| && threads[u].Holding? && threads[u].lock == lock
  }

  function Limit(req: Request): nat {
    if req.ReadAt? then req.size else |req.data|
  }

  predicate Enabled(s: State, e: Event) {
    match e
    case GetLock(t, _) => t < |s.threads| && s.threads[t].Idle?
    case Enter(t) => t < |s.threads| && s.threads[t].Referring? && !Taken(s.threads, s.threads[t].lock)
    case Rewind(t) => t < |s.threads| && s.threads[t].Holding? && s.threads[t].phase.Entered?
    case Seek(t) => t < |s.threads| && s.threads[t].Holding? && s.threads[t].phase.Rewound?
    case Transfer(t, n) =>
      t < |s.threads| && s.threads[t].Holding? && s.threads[t].phase.Sought? && n <= Limit(s.threads[t].req)
    case Exit(t) => t < |s.threads| && s.threads[t].Holding? && s.threads[t].phase.Transferred?
    case Forget(fd) =>
      fd in s.registry && forall u :: 0 <= u < |s.threads| ==> !Refers(s.threads[u], s.registry[fd])
  }

  // ------------------------------------------------- the positional specification

  /** What pread and pwrite do, in one step and at an explicit offset. */
  function PositionalResult(files: map<Fd, File>, req: Request, n: nat): Result {
    match req
    case ReadAt(fd, offset, _) => Data(ReadFrom(FileOf(files, fd), offset, n))
    case WriteAt(_, _, _) => Count(n)
  }

  function PositionalFiles(files: map<Fd, File>, req: Request, n: nat): map<Fd, File>
    requires n <= Limit(req)
  {
    match req
    case ReadAt(_, _, _) => files
    case WriteAt(fd, offset, data) => files[fd := Overwrite(FileOf(files, fd), offset, data[..n])]
  }

  /** A read gets the bytes of the file from `at` on, as many as are asked for unless the file ends before. */
  ghost predicate IsRead(file: File, at: nat, n: nat, bytes: File) {
    && |bytes| == (if at + n <= |file| then n else if at <= |file| then |file| - at else 0)
    && forall i :: 0 <= i < |bytes| ==> bytes[i] == file[at + i]
  }

  /** A write puts its bytes at `at`, keeps every other byte, and fills what lies beyond the old end with zeros. */
  ghost predicate IsWritten(file: File, at: nat, data: File, now: File) {
    && |now| == (if data == [] || at + |data| <= |file| then |file| else at + |data|)
    && forall i :: 0 <= i < |now| ==>
         now[i] == if at <= i < at + |data| then data[i - at] else if i < |file| then file[i] else 0
  }

  lemma ReadExact(file: File, at: nat, n: nat)
    ensures IsRead(file, at, n, ReadFrom(file, at, n))
  {
  }

  lemma OverwriteExact(file: File, at: nat, data: File)
    ensures IsWritten(file, at, data, Overwrite(file, at, data))
  {
  }

  lemma ReadBack(file: File, at: nat, data: File)
    ensures ReadFrom(Overwrite(file, at, data), at, |data|) == data
  {
    ReadExact(Overwrite(file, at, data), at, |data|);
    OverwriteExact(file, at, data);
  }

  /** `n` bytes of a request were transferred at its own offset, and nothing else happened to any file. */
  ghost predicate AtItsOffset(files: map<Fd, File>, req: Request, n: nat, now: map<Fd, File>, result: Result)
    requires n <= Limit(req)
  {
    match req
    case ReadAt(fd, offset, _) => now == files && result.Data? && IsRead(FileOf(files, fd), offset, n, result.bytes)
    case WriteAt(fd, offset, data) =>
      && result == Count(n) && now.Keys == files.Keys + {fd}
      && IsWritten(FileOf(files, fd), offset, data[..n], now[fd])
      && forall other :: other in files && other != fd ==> now[other] == files[other]
  }

  lemma PositionalExact(files: map<Fd, File>, req: Request, n: nat)
    requires n <= Limit(req)
    ensures AtItsOffset(files, req, n, PositionalFiles(files, req, n), PositionalResult(files, req, n))
  {
    match req
    case ReadAt(fd, offset, _) => ReadExact(FileOf(files, fd), offset, n);
    case WriteAt(fd, offset, data) => OverwriteExact(FileOf(files, fd), offset, data[..n]);
  }

  // ------------------------------------------------------------------- the steps

  function GotLock(s: State, t: nat, req: Request): State
    requires t < |s.threads|
  {
    if req.fd in s.registry then s.(threads := s.threads[t := Referring(req, s.registry[req.fd])])
    else s.(threads := s.threads[t := Referring(req, s.created)], registry := s.registry[req.fd := s.created],
            created := s.created + 1)
  }

  /** read or write at wherever the file offset is, which moves on. */
  function MovedOn(s: State, t: nat, n: nat): State
    requires Enabled(s, Transfer(t, n))
  {
    var pc := s.threads[t];
    var fd := pc.req.fd;
    var at := OffsetOf(s.offsets, fd);
    var file := FileOf(s.files, fd);
    var moved := s.(threads := s.threads[t := pc.(phase := Transferred)]);
    match pc.req
    case ReadAt(_, _, _) =>
      var bytes := ReadFrom(file, at, n);
      moved.(offsets := s.offsets[fd := at + |bytes|], results := s.results + [(pc.req, Data(bytes))])
    case WriteAt(_, _, data) =>
      moved.(offsets := s.offsets[fd := at + n], files := s.files[fd := Overwrite(file, at, data[..n])],
             results := s.results + [(pc.req, Count(n))])
  }

  function Apply(s: State, e: Event): State
    requires Enabled(s, e)
  {
    match e
    case GetLock(t, req) => GotLock(s, t, req)
    case Enter(t) => s.(threads := s.threads[t := Holding(s.threads[t].req, s.threads[t].lock, Entered)])
    case Rewind(t) =>
      s.(threads := s.threads[t := s.threads[t].(phase := Rewound)], offsets := s.offsets[s.threads[t].req.fd := 0])
    case Seek(t) =>
      s.(threads := s.threads[t := s.threads[t].(phase := Sought)],
         offsets := s.offsets[s.threads[t].req.fd := s.threads[t].req.offset])
    case Transfer(t, n) => MovedOn(s, t, n)
    case Exit(t) => s.(threads := s.threads[t := Idle])
    case Forget(fd) => s.(registry := s.registry - {fd})
  }

  function Init(threads: nat, files: map<Fd, File>, offsets: map<Fd, nat>): State {
    State(seq(threads, _ => Idle), map[], 0, offsets, files, [])
  }

  ghost predicate Legal(s: State, events: seq<Event>)
    decreases |events|
  {
    events == [] || (Enabled(s, events[0]) && Legal(Apply(s, events[0]), events[1..]))
  }

  function After(s: State, events: seq<Event>): State
    requires Legal(s, events)
    decreases |events|
  {
    if events == [] then s else After(Apply(s, events[0]), events[1..])
  }

  // ------------------------------------------------------------------ invariant

  /** Everybody who refers to a lock for a descriptor refers to the one in the registry. */
  ghost predicate OneLock(threads: seq<Pc>, registry: map<Fd, Lock>) {
    forall t :: 0 <= t < |threads| && !threads[t].Idle? ==>
      threads[t].req.fd in registry && registry[threads[t].req.fd] == threads[t].lock
  }

  ghost predicate Distinct(registry: map<Fd, Lock>, created: nat) {
    && (forall fd :: fd in registry ==> registry[fd] < created)
    && (forall fd, fd' :: fd in registry && fd' in registry && registry[fd] == registry[fd'] ==> fd == fd')
  }

  ghost predicate Exclusive(threads: seq<Pc>) {
    forall t, u :: 0 <= t < u < |threads| && threads[t].Holding? && threads[u].Holding? ==>
      threads[t].lock != threads[u].lock
  }

  /** A thread that has sought finds the file offset where it put it. */
  ghost predicate InPlace(threads: seq<Pc>, offsets: map<Fd, nat>) {
    forall t :: 0 <= t < |threads| && threads[t].Holding? && threads[t].phase.Sought? ==>
      OffsetOf(offsets, threads[t].req.fd) == threads[t].req.offset
  }

  ghost predicate Inv(s: State) {
    && OneLock(s.threads, s.registry) && Distinct(s.registry, s.created)
    && Exclusive(s.threads) && InPlace(s.threads, s.offsets)
  }

  /** A holder moves on and moves the offset of its own descriptor. */
  lemma OffsetKeeps(s: State, t: nat, phase: Phase, offset: nat)
    requires Inv(s) && t < |s.threads| && s.threads[t].Holding?
    requires phase.Sought? ==> offset == s.threads[t].req.offset
    ensures InPlace(s.threads[t := s.threads[t].(phase := phase)], s.offsets[s.threads[t].req.fd := offset])
    ensures Exclusive(s.threads[t := s.threads[t].(phase := phase)])
    ensures OneLock(s.threads[t := s.threads[t].(phase := phase)], s.registry)
  {
  }

  lemma GetKeeps(s: State, t: nat, req: Request)
    requires Inv(s) && t < |s.threads| && s.threads[t].Idle?
    ensures Inv(GotLock(s, t, req))
  {
  }

  lemma EnterKeeps(s: State, t: nat)
    requires Inv(s) && Enabled(s, Enter(t))
    ensures Inv(Apply(s, Enter(t)))
  {
  }

  lemma StepKeeps(s: State, e: Event)
    requires Inv(s) && Enabled(s, e)
    ensures Inv(Apply(s, e))
  {
    match e
    case GetLock(t, req) => GetKeeps(s, t, req);
    case Enter(t) => EnterKeeps(s, t);
    case Rewind(t) => OffsetKeeps(s, t, Rewound, 0);
    case Seek(t) => OffsetKeeps(s, t, Sought, s.threads[t].req.offset);
    case Transfer(t, n) => OffsetKeeps(s, t, Transferred, OffsetOf(Apply(s, e).offsets, s.threads[t].req.fd));
    case _ =>
  }

  // ------------------------------------------------------------------- theorems

  /** The transfer of a step, if it is one. */
  function TransferOf(s: State, e: Event): seq<(Request, nat)>
    requires Enabled(s, e)
  {
    if e.Transfer? then [(s.threads[e.t].req, e.n)] else []
  }

  /** The transfers of a run, in order. */
  function Transfers(s: State, events: seq<Event>): seq<(Request, nat)>
    requires Legal(s, events)
    decreases |events|
  {
    if events == [] then [] else TransferOf(s, events[0]) + Transfers(Apply(s, events[0]), events[1..])
  }

  /** Files and results after atomic positional operations. */
  function Positional(files: map<Fd, File>, results: seq<(Request, Result)>, work: seq<(Request, nat)>):
    (map<Fd, File>, seq<(Request, Result)>)
    requires forall i :: 0 <= i < |work| ==> work[i].1 <= Limit(work[i].0)
    decreases |work|
  {
    if work == [] then (files, results)
    else
      var (req, n) := work[0];
      Positional(PositionalFiles(files, req, n), results + [(req, PositionalResult(files, req, n))], work[1..])
  }

  /** One step of the emulation is one positional operation at the offset asked for, or none. */
  lemma StepRefines(s: State, e: Event)
    requires Inv(s) && Enabled(s, e)
    ensures var m := Apply(s, e);
      if e.Transfer? then
        && |m.results| == |s.results| + 1 && m.results[..|s.results|] == s.results
        && m.results[|s.results|].0 == s.threads[e.t].req
        && AtItsOffset(s.files, s.threads[e.t].req, e.n, m.files, m.results[|s.results|].1)
      else m.files == s.files && m.results == s.results
    ensures forall i :: 0 <= i < |TransferOf(s, e)| ==> TransferOf(s, e)[i].1 <= Limit(TransferOf(s, e)[i].0)
    ensures (Apply(s, e).files, Apply(s, e).results) == Positional(s.files, s.results, TransferOf(s, e))
  {
    if e.Transfer? {
      PositionalExact(s.files, s.threads[e.t].req, e.n);
    }
    hide IsRead, IsWritten, ReadFrom, Overwrite;
  }

  /** Any interleaving of emulated reads and writes, with locks coming and going, does to the files, and
      returns to the callers, what atomic positional operations in the order of the transfers would. */
  lemma {:induction false} EmulationRefines(s: State, events: seq<Event>)
    requires Inv(s) && Legal(s, events)
    ensures forall i :: 0 <= i < |Transfers(s, events)| ==>
      Transfers(s, events)[i].1 <= Limit(Transfers(s, events)[i].0)
    ensures (After(s, events).files, After(s, events).results) == Positional(s.files, s.results, Transfers(s, events))
    decreases |events|
  {
    if events != [] {
      var e, t := events[0], Apply(s, events[0]);
      StepKeeps(s, e);
      StepRefines(s, e);
      EmulationRefines(t, events[1..]);
      PositionalAppend(s.files, s.results, TransferOf(s, e), Transfers(t, events[1..]));
    }
  }

  lemma {:induction false} PositionalAppend(files: map<Fd, File>, results: seq<(Request, Result)>,
                                            a: seq<(Request, nat)>, b: seq<(Request, nat)>)
    requires forall i :: 0 <= i < |a| ==> a[i].1 <= Limit(a[i].0)
    requires forall i :: 0 <= i < |b| ==> b[i].1 <= Limit(b[i].0)
    ensures forall i :: 0 <= i < |a + b| ==> (a + b)[i].1 <= Limit((a + b)[i].0)
    ensures var mid := Positional(files, results, a); Positional(files, results, a + b) == Positional(mid.0, mid.1, b)
    decreases |a|
  {
    if a == [] {
      assert a + b == b;
    } else {
      var (req, n) := a[0];
      assert (a + b)[0] == a[0] && (a + b)[1..] == a[1..] + b;
      PositionalAppend(PositionalFiles(files, req, n), results + [(req, PositionalResult(files, req, n))], a[1..], b);
    }
  }

  /** From the start, over every run; and at every moment the threads at work on a descriptor share its lock. */
  lemma EmulatedIsPositional(threads: nat, files: map<Fd, File>, offsets: map<Fd, nat>, events: seq<Event>)
    requires Legal(Init(threads, files, offsets), events)
    ensures var init := Init(threads, files, offsets);
      var s := After(init, events);
      && (forall i :: 0 <= i < |Transfers(init, events)| ==>
          Transfers(init, events)[i].1 <= Limit(Transfers(init, events)[i].0))
      && (s.files, s.results) == Positional(files, [], Transfers(init, events))
      && (forall t, u :: 0 <= t < |s.threads| && 0 <= u < |s.threads| && !s.threads[t].Idle? && !s.threads[u].Idle? ==>
            (s.threads[t].req.fd == s.threads[u].req.fd <==> s.threads[t].lock == s.threads[u].lock))
      && (forall t, u :: 0 <= t < u < |s.threads| && s.threads[t].Holding? && s.threads[u].Holding? ==>
            s.threads[t].req.fd != s.threads[u].req.fd)
  {
    EmulationRefines(Init(threads, files, offsets), events);
    RunKeeps(Init(threads, files, offsets), events);
  }

  lemma {:induction false} RunKeeps(s: State, events: seq<Event>)
    requires Inv(s) && Legal(s, events)
    ensures Inv(After(s, events))
    decreases |events|
  {
    hide Inv;
    if events != [] {
      StepKeeps(s, events[0]);
      RunKeeps(Apply(s, events[0]), events[1..]);
    }
  }
}
