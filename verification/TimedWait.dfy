/** The timed wait of the io_uring backend's process_events: a loop of ring
    checks, enter calls and polls against a deadline, whose remaining budget is
    computed in whole milliseconds with C's truncating division. */
module TimedWait {
  const NS_PER_S := 1_000_000_000
  const NS_PER_MS := 1_000_000
  const INT_MAX := 0x7FFF_FFFF

  datatype Timespec = Timespec(sec: int, nsec: int)

  predicate Normalised(t: Timespec) {
    0 <= t.nsec < NS_PER_S
  }

  function Nanoseconds(t: Timespec): int {
    t.sec * NS_PER_S + t.nsec
  }

  /** Division as C does it: towards zero. */
  function TruncatingDiv(a: int, b: int): (q: int)
    requires b > 0
    ensures if a >= 0 then q * b <= a < q * b + b else q * b - b < a <= q * b
  {
    if a >= 0 then a / b else -((-a) / b)
  }

  function BudgetMs(deadline: Timespec, now: Timespec): int {
    (deadline.sec - now.sec) * 1000 + TruncatingDiv(deadline.nsec - now.nsec, NS_PER_MS)
  }

  /** The budget is never positive once the deadline has passed, exceeds the true remaining time by less than a
      millisecond, and falls short of it by less than one too. */
  lemma BudgetExact(deadline: Timespec, now: Timespec)
    requires Normalised(deadline) && Normalised(now)
    ensures var left, ms := Nanoseconds(deadline) - Nanoseconds(now), BudgetMs(deadline, now);
      && (left <= 0 ==> ms <= 0)
      && -NS_PER_MS < ms * NS_PER_MS - left < NS_PER_MS
      // it is used up early exactly in the last millisecond of a remainder that borrows no second
      && (ms <= 0 <==> left <= 0 || (left < NS_PER_MS && deadline.nsec >= now.nsec))
  {
  }

  // ---------------------------------------------------------------- the wait loop

  /** What one turn of the loop gets to see. */
  datatype Observation = Observation(
    before: nat,          // completions in the ring before the enter call
    enterError: nat,      // 0, or the errno of a failed io_uring_enter
    after: nat,           // completions in the ring after it
    now: Timespec,
    pollError: nat)       // 0, or the errno of a failed poll

  const EINTR := 4

  datatype Why = Enough | Failed(errno: nat) | TimedOut

  datatype Deadline = Never | At(t: Timespec)

  /** The timeout that poll is given; -1 blocks until the eventfd is readable. */
  function PollTimeout(deadline: Deadline, now: Timespec): int {
    if deadline.Never? then -1
    else if BudgetMs(deadline.t, now) > INT_MAX then INT_MAX
    else BudgetMs(deadline.t, now)
  }

  /** How long a poll may sleep: for good exactly without a deadline; otherwise for the time that is left, give or take
      less than a millisecond, or as much of it as fits into an `int`.  There has to be some left. */
  predicate SleepsFor(deadline: Deadline, now: Timespec, timeout: int) {
    && (timeout == -1 <==> deadline.Never?)
    && (deadline.At? ==> 0 < timeout <= INT_MAX)
    && (deadline.At? && Normalised(deadline.t) && Normalised(now) ==>
          var remaining := Nanoseconds(deadline.t) - Nanoseconds(now);
          && remaining > 0 && timeout * NS_PER_MS < remaining + NS_PER_MS
          && (timeout < INT_MAX ==> remaining - NS_PER_MS < timeout * NS_PER_MS))
  }

  /** The deadline has passed, or its last millisecond has begun and no second is borrowed. */
  predicate Expired(deadline: Timespec, now: Timespec) {
    var remaining := Nanoseconds(deadline) - Nanoseconds(now);
    remaining <= 0 || (remaining < NS_PER_MS && deadline.nsec >= now.nsec)
  }

  /** Whether the deadline check lets the loop go on. */
  predicate InTime(deadline: Deadline, now: Timespec) {
    deadline.Never? || BudgetMs(deadline.t, now) > 0
  }

  /** Something other than time makes this turn leave. */
  predicate Interrupted(o: Observation, min: nat) {
    o.before >= min || (o.enterError != 0 && o.enterError != EINTR) || o.after >= min
  }

  /** The loop over the turns it gets to see.  It returns the turn it left at, or the number of turns when it
      would still be waiting, and the timeouts of the polls it went through. */
  method Wait(min: nat, deadline: Deadline, turns: seq<Observation>)
    returns (left: nat, why: Why, timeouts: seq<int>)
    ensures left <= |turns|
    // every turn before the last one slept, within the deadline
    ensures |timeouts| >= left
    ensures forall i :: 0 <= i < left ==>
      && !Interrupted(turns[i], min) && InTime(deadline, turns[i].now)
      && timeouts[i] == PollTimeout(deadline, turns[i].now)
      && SleepsFor(deadline, turns[i].now, timeouts[i])
      && turns[i].before < min && turns[i].after < min
      && turns[i].enterError in {0, EINTR} && turns[i].pollError in {0, EINTR}
    // the turn it left at had a reason
    ensures left < |turns| ==>
      var o := turns[left];
      match why
      case Enough => o.before >= min || (o.after >= min && o.enterError in {0, EINTR})
      case Failed(errno) =>
        && o.before < min && errno !in {0, EINTR}
        && (errno == o.enterError ||
            (o.after < min && o.enterError in {0, EINTR} && errno == o.pollError && InTime(deadline, o.now)))
      case TimedOut =>
        && o.before < min && o.after < min && o.enterError in {0, EINTR}
        && !InTime(deadline, o.now) && deadline.At?
        && (Normalised(deadline.t) && Normalised(o.now) ==> Expired(deadline.t, o.now))
  {
    left, why, timeouts := 0, Enough, [];
    while left < |turns|
      invariant left <= |turns| && |timeouts| == left
      invariant forall i :: 0 <= i < left ==>
        && !Interrupted(turns[i], min) && InTime(deadline, turns[i].now)
        && timeouts[i] == PollTimeout(deadline, turns[i].now)
        && SleepsFor(deadline, turns[i].now, timeouts[i])
        && turns[i].pollError in {0, EINTR}
    {
      var o := turns[left];
      if o.before >= min {
        return left, Enough, timeouts;
      }
      if o.enterError != 0 && o.enterError != EINTR {
        return left, Failed(o.enterError), timeouts;
      }
      if o.after >= min {
        return left, Enough, timeouts;
      }
      var timeout := -1;
      if deadline.At? {
        var ms := BudgetMs(deadline.t, o.now);
        BudgetFits(deadline.t, o.now);
        if ms <= 0 {
          return left, TimedOut, timeouts;
        }
        timeout := if ms > INT_MAX then INT_MAX else ms;
      }
      if o.pollError != 0 && o.pollError != EINTR {
        return left, Failed(o.pollError), timeouts + [timeout];
      }
      timeouts := timeouts + [timeout];
      left := left + 1;
    }
  }

  /** A positive budget is a timeout within the bounds. */
  lemma BudgetFits(deadline: Timespec, now: Timespec)
    ensures BudgetMs(deadline, now) > 0 ==>
      SleepsFor(At(deadline), now, if BudgetMs(deadline, now) > INT_MAX then INT_MAX else BudgetMs(deadline, now))
    ensures BudgetMs(deadline, now) <= 0 && Normalised(deadline) && Normalised(now) ==> Expired(deadline, now)
  {
    if Normalised(deadline) && Normalised(now) {
      BudgetExact(deadline, now);
      hide BudgetMs;
    }
  }

  /** So a loop that slept in every turn before `left`, as `Wait` promises, leaves no later than the first turn
      whose clock is at or past the deadline.  Each of its polls ends by itself: less than a millisecond after the
      deadline, and less than one before it unless that is more than an `int` of milliseconds away. */
  lemma LeavesByDeadline(deadline: Timespec, turns: seq<Observation>, left: nat, timeouts: seq<int>)
    requires Normalised(deadline) && forall i :: 0 <= i < |turns| ==> Normalised(turns[i].now)
    requires left <= |turns| && left <= |timeouts|
    requires forall i :: 0 <= i < left ==> SleepsFor(At(deadline), turns[i].now, timeouts[i])
    ensures forall late :: 0 <= late < |turns| && Nanoseconds(turns[late].now) >= Nanoseconds(deadline) ==> left <= late
    ensures forall i :: 0 <= i < left ==>
      var ends := Nanoseconds(turns[i].now) + timeouts[i] * NS_PER_MS;
      && timeouts[i] > 0 && ends < Nanoseconds(deadline) + NS_PER_MS
      && (Nanoseconds(deadline) - NS_PER_MS < ends || timeouts[i] == INT_MAX)
  {
    hide SleepsFor;
    forall i | 0 <= i < left
      ensures var ends := Nanoseconds(turns[i].now) + timeouts[i] * NS_PER_MS;
        && Nanoseconds(turns[i].now) < Nanoseconds(deadline)
        && timeouts[i] > 0 && ends < Nanoseconds(deadline) + NS_PER_MS
        && (Nanoseconds(deadline) - NS_PER_MS < ends || timeouts[i] == INT_MAX)
    {
      SleepEnds(deadline, turns[i].now, timeouts[i]);
    }
  }

  lemma SleepEnds(deadline: Timespec, now: Timespec, timeout: int)
    requires Normalised(deadline) && Normalised(now) && SleepsFor(At(deadline), now, timeout)
    ensures var ends := Nanoseconds(now) + timeout * NS_PER_MS;
      && Nanoseconds(now) < Nanoseconds(deadline)
      && timeout > 0 && ends < Nanoseconds(deadline) + NS_PER_MS
      && (Nanoseconds(deadline) - NS_PER_MS < ends || timeout == INT_MAX)
  {
  }
}
