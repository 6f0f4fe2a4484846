/** Batches taken from the kernel whose callbacks are being run.  A frame is one
    call of the collecting routine; a callback may re-enter the Context, so the
    frames of one thread form a stack, the newest last. */
module Frames {
  import opened Bags

  datatype Frame<Op> = Frame(thread: nat, batch: seq<Op>, called: nat)

  function Left<Op>(f: Frame<Op>): seq<Op> {
    if f.called <= |f.batch| then f.batch[f.called..] else []
  }

  /** Operations collected from the ring whose callback has not been called yet. */
  function Waiting<Op>(frames: seq<Frame<Op>>): multiset<Op> {
    if frames == [] then multiset{}
    else Waiting(frames[..|frames| - 1]) + multiset(Left(frames[|frames| - 1]))
  }

  /** Only the newest unfinished frame of a thread can run. */
  predicate Runs<Op>(frames: seq<Frame<Op>>, i: nat) {
    && i < |frames|
    && frames[i].called < |frames[i].batch|
    && forall j :: i < j < |frames| && frames[j].thread == frames[i].thread ==> Left(frames[j]) == []
  }

  lemma WaitingSnoc<Op>(frames: seq<Frame<Op>>, f: Frame<Op>)
    ensures Waiting(frames + [f]) == Waiting(frames) + multiset(Left(f))
  {
  }

  lemma {:induction false} WaitingUpdate<Op>(frames: seq<Frame<Op>>, i: nat, f: Frame<Op>)
    requires i < |frames|
    ensures Waiting(frames[i := f]) + multiset(Left(frames[i])) == Waiting(frames) + multiset(Left(f))
    decreases |frames|
  {
    hide Waiting;
    var n := |frames| - 1;
    var front, last := frames[..n], frames[n];
    assert frames == front + [last];
    WaitingSnoc(front, last);
    if i == n {
      assert frames[i := f] == front + [f];
      WaitingSnoc(front, f);
      SwapLast(Waiting(front), multiset(Left(f)), multiset(Left(last)));
    } else {
      WaitingUpdate(front, i, f);
      assert frames[i := f] == front[i := f] + [last] && front[i] == frames[i];
      WaitingSnoc(front[i := f], last);
      AddToBoth(Waiting(front[i := f]), multiset(Left(frames[i])), Waiting(front), multiset(Left(f)),
                multiset(Left(last)));
    }
  }

  lemma CallMovesOne<Op>(all: multiset<Op>, frames: seq<Frame<Op>>, i: nat, calls: seq<Op>)
    requires i < |frames| && frames[i].called < |frames[i].batch|
    requires all == Waiting(frames) + multiset(calls)
    ensures var f := frames[i];
            all == Waiting(frames[i := f.(called := f.called + 1)]) + multiset(calls + [f.batch[f.called]])
  {
    hide Waiting;
    var f := frames[i];
    var g := f.(called := f.called + 1);
    var x := f.batch[f.called];
    WaitingUpdate(frames, i, g);
    assert Left(f) == [x] + Left(g);
    assert multiset(Left(f)) == multiset{x} + multiset(Left(g));
    MoveOne(all, Waiting(frames), Waiting(frames[i := g]), multiset(Left(g)), multiset(calls), x);
    assert multiset(calls + [x]) == multiset(calls) + multiset{x};
  }

  /** Re-entrant activity leaves older frames as they were and finishes the ones it opened. */
  ghost predicate Settled<Op>(before: seq<Frame<Op>>, after: seq<Frame<Op>>) {
    && |before| <= |after| && after[..|before|] == before
    && forall j :: |before| <= j < |after| ==> Left(after[j]) == []
  }

  /** The frame opened on top of `before` is at `frame`; those above it are finished. */
  ghost predicate Opened<Op>(before: seq<Frame<Op>>, after: seq<Frame<Op>>, frame: Frame<Op>) {
    && |before| < |after| && after[..|before|] == before && after[|before|] == frame
    && frame.called <= |frame.batch|
    && forall j :: |before| < j < |after| ==> Left(after[j]) == []
  }

  /** Every batch was delivered to its end. */
  predicate Rest<Op>(frames: seq<Frame<Op>>) {
    forall j :: 0 <= j < |frames| ==> Left(frames[j]) == []
  }

  /** The newest unfinished frame can run. */
  lemma {:induction false} RestUnlessRuns<Op>(frames: seq<Frame<Op>>)
    requires forall i: nat :: !Runs(frames, i)
    ensures Rest(frames)
  {
    var k := |frames|;
    while k > 0
      invariant 0 <= k <= |frames| && forall j :: k <= j < |frames| ==> Left(frames[j]) == []
    {
      assert !Runs(frames, k - 1);
      k := k - 1;
    }
  }

  lemma {:induction false} NothingWaits<Op>(frames: seq<Frame<Op>>)
    requires Rest(frames)
    ensures Waiting(frames) == multiset{}
  {
    if frames != [] {
      NothingWaits(frames[..|frames| - 1]);
    }
  }

  lemma RestStays<Op>(before: seq<Frame<Op>>, after: seq<Frame<Op>>)
    requires Rest(before) && Settled(before, after)
    ensures Rest(after)
  {
    forall j | 0 <= j < |after|
      ensures Left(after[j]) == []
    {
      assert j < |before| ==> after[j] == after[..|before|][j];
    }
  }

  /** One delivery of the opened frame, with whatever its callback did. */
  lemma OpenedNext<Op>(before: seq<Frame<Op>>, after: seq<Frame<Op>>, frame: Frame<Op>, later: seq<Frame<Op>>)
    requires Opened(before, after, frame) && frame.called < |frame.batch|
    requires Settled(after[|before| := frame.(called := frame.called + 1)], later)
    ensures Opened(before, later, frame.(called := frame.called + 1))
  {
  }
}
