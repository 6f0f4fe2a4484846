/** The place that fills a backend from the front to the back - a queue, a ring -
    under the adapters' semaphore: when it can get full, and how. */
module Lanes {
  import opened Backpressure
  import opened Wrappers

  /** What fills a backend from the front to the back: Operations, and entries that are nobody's, like a cancel. */
  type Lane = seq<Option<Op>>

  ghost function OpsOf(lane: Lane): set<Op> {
    set e | e in lane && e.Some? :: e.value
  }

  /** No permit covers this place. */
  predicate Stray(s: State, e: Option<Op>) {
    e.None? || e.value !in s.holders
  }

  /** The entry at `i` is stray, and the permits are not all held for Operations behind it. */
  ghost predicate Blocks(s: State, lane: Lane, i: nat) {
    i < |lane| && Stray(s, lane[i]) && |s.holders * OpsOf(lane[i + 1..])| < s.permits
  }

  ghost predicate Jammed(s: State, lane: Lane) {
    exists i :: Blocks(s, lane, i)
  }

  /** No more than `permits` entries: then what is stray in it always blocks. */
  lemma StrayBlocks(s: State, lane: Lane, i: nat)
    requires i < |lane| <= s.permits && Stray(s, lane[i])
    ensures Blocks(s, lane, i)
  {
    AtMost(lane[i + 1..]);
    Smaller(s.holders * OpsOf(lane[i + 1..]), OpsOf(lane[i + 1..]));
  }

  lemma {:induction false} AtMost(lane: Lane)
    ensures |OpsOf(lane)| <= |lane|
  {
    if lane != [] {
      var n := |lane| - 1;
      AtMost(lane[..n]);
      assert OpsOf(lane) == OpsOf(lane[..n]) + if lane[n].Some? then {lane[n].value} else {};
    }
  }

  /** Each Operation has one place at most, and has not been called back. */
  ghost predicate LaneFits(s: State, lane: Lane) {
    && (forall i :: 0 <= i < |lane| && lane[i].Some? ==> Outstanding(s, lane[i].value))
    && forall i, j :: 0 <= i < j < |lane| && lane[i].Some? ==> lane[i] != lane[j]
  }

  lemma {:induction false} LaneSize(lane: Lane, ops: set<Op>)
    requires forall i :: 0 <= i < |lane| ==> lane[i].Some? && lane[i].value in ops
    requires forall i, j :: 0 <= i < j < |lane| && lane[i].Some? ==> lane[i] != lane[j]
    ensures |lane| <= |ops|
  {
    if lane != [] {
      var n := |lane| - 1;
      LaneSize(lane[..n], ops - {lane[n].value});
    }
  }

  /** If it is not jammed, whoever asks finds room. */
  lemma NotJammedMeansRoom(s: State, lane: Lane, ops: set<Op>)
    requires Sound(s) && LaneFits(s, lane) && !Jammed(s, lane) && Enabled(s, Submit(ops)) && ops != {}
    ensures |lane| + |ops| <= s.permits
  {
    var y :| y in ops;
    forall i | 0 <= i < |lane|
      ensures lane[i].Some? && lane[i].value in s.holders - ops
    {
      if Stray(s, lane[i]) {
        BehindIsOutstanding(s, lane, i, y);
        assert Blocks(s, lane, i);
      }
    }
    LaneSize(lane, s.holders - ops);
    assert |s.holders - ops| == |s.holders| - |ops|;
  }

  lemma BehindIsOutstanding(s: State, lane: Lane, i: nat, y: Op)
    requires Sound(s) && LaneFits(s, lane) && i < |lane| && y in s.holders && y !in s.submitted
    ensures |s.holders * OpsOf(lane[i + 1..])| < s.permits
  {
    Smaller(s.holders * OpsOf(lane[i + 1..]), s.holders - {y});
  }

  /** Whether it is jammed depends only on who holds permits for what is in it. */
  lemma SameLane(s: State, t: State, lane: Lane)
    requires t.permits == s.permits && forall op :: op in OpsOf(lane) ==> (op in s.holders <==> op in t.holders)
    ensures Jammed(s, lane) <==> Jammed(t, lane)
  {
    forall i: nat | i < |lane|
      ensures Blocks(s, lane, i) <==> Blocks(t, lane, i)
    {
      assert lane[i].Some? ==> lane[i].value in OpsOf(lane);
      assert OpsOf(lane[i + 1..]) <= OpsOf(lane);
      assert s.holders * OpsOf(lane[i + 1..]) == t.holders * OpsOf(lane[i + 1..]);
    }
  }

  /** What leaves at the front does not jam it. */
  lemma Popped(s: State, lane: Lane, n: nat)
    requires n <= |lane|
    ensures Jammed(s, lane[n..]) ==> Jammed(s, lane)
  {
    if i: nat :| Blocks(s, lane[n..], i) {
      assert lane[n..][i + 1..] == lane[n + i + 1..];
      assert Blocks(s, lane, n + i);
    }
  }

  /** Nor does an Operation that joins at the back under a permit. */
  lemma Joined(s: State, lane: Lane, more: Lane)
    requires forall i :: 0 <= i < |more| ==> !Stray(s, more[i])
    ensures Jammed(s, lane + more) ==> Jammed(s, lane)
  {
    if i: nat :| Blocks(s, lane + more, i) {
      assert i < |lane|;
      assert (lane + more)[i + 1..] == lane[i + 1..] + more;
      assert OpsOf(lane[i + 1..]) <= OpsOf(lane[i + 1..] + more);
      Smaller(s.holders * OpsOf(lane[i + 1..]), s.holders * OpsOf(lane[i + 1..] + more));
      assert Blocks(s, lane, i);
    }
  }

  // ----------------------------------------------------------- counting what is stray

  function Strays(s: State, lane: Lane): nat {
    if lane == [] then 0 else Strays(s, lane[..|lane| - 1]) + if Stray(s, lane[|lane| - 1]) then 1 else 0
  }

  lemma {:induction false} StraysSame(s: State, t: State, lane: Lane)
    requires forall op :: op in OpsOf(lane) ==> (op in s.holders <==> op in t.holders)
    ensures Strays(s, lane) == Strays(t, lane)
  {
    if lane != [] {
      var n := |lane| - 1;
      assert OpsOf(lane[..n]) <= OpsOf(lane);
      assert lane[n] in lane;
      StraysSame(s, t, lane[..n]);
    }
  }

  lemma {:induction false} StraysConcat(s: State, lane: Lane, more: Lane)
    ensures Strays(s, lane + more) == Strays(s, lane) + Strays(s, more)
  {
    if more == [] {
      assert lane + more == lane;
    } else {
      var n := |more| - 1;
      assert (lane + more)[..|lane| + n] == lane + more[..n];
      StraysConcat(s, lane, more[..n]);
    }
  }

  /** Room for what is stray and, next to it, for what is held. */
  lemma {:induction false} StraysAndHeld(s: State, lane: Lane, held: set<Op>)
    requires forall i :: 0 <= i < |lane| && !Stray(s, lane[i]) ==> lane[i].value in held
    requires forall i, j :: 0 <= i < j < |lane| && lane[i].Some? ==> lane[i] != lane[j]
    ensures |lane| <= Strays(s, lane) + |held|
  {
    if lane != [] {
      var n := |lane| - 1;
      StraysAndHeld(s, lane[..n], if Stray(s, lane[n]) then held else held - {lane[n].value});
    }
  }

  lemma {:induction false} HeldAndStrays(s: State, lane: Lane, held: set<Op>)
    requires held <= s.holders * OpsOf(lane)
    ensures |held| + Strays(s, lane) <= |lane|
  {
    if lane == [] {
      assert held == {};
    } else {
      var n := |lane| - 1;
      assert OpsOf(lane) == OpsOf(lane[..n]) + if lane[n].Some? then {lane[n].value} else {};
      HeldAndStrays(s, lane[..n], if Stray(s, lane[n]) then held else held - {lane[n].value});
    }
  }

  lemma {:induction false} NoStrays(s: State, lane: Lane)
    ensures Strays(s, lane) == 0 <==> forall i :: 0 <= i < |lane| ==> !Stray(s, lane[i])
  {
    if lane != [] {
      var n := |lane| - 1;
      NoStrays(s, lane[..n]);
      assert forall i :: 0 <= i < n ==> lane[..n][i] == lane[i];
    }
  }

  /** A step of the tasks that does not loosen anything. */
  lemma TaskKeepsLane(s: State, e: Event, lane: Lane)
    requires Enabled(s, e) && LaneFits(s, lane) && !Loosens(e)
    ensures Jammed(Apply(s, e), lane) <==> Jammed(s, lane)
  {
    forall op | op in OpsOf(lane)
      ensures Outstanding(s, op)
    {
      var i :| 0 <= i < |lane| && lane[i] == Some(op);
    }
    SameLane(s, Apply(s, e), lane);
  }

  // --------------------------------------------------------------- filling it up

  /** What tasks do by themselves to fill it: those that need not hold a permit go, and new ones, with Operations from
      `bound` on, come and submit. */
  predicate Filling(e: Event, bound: Op) {
    match e
    case Leave(_) => true
    case Abandon(_) => true
    case Acquire(op) => op >= bound
    case Submit(ops) => exists op :: op in ops && op >= bound && ops == {op}
    case _ => false
  }

  function Submits(events: seq<Event>): nat {
    if events == [] then 0 else (if events[0].Submit? then 1 else 0) + Submits(events[1..])
  }

  /** A run that fills a lane of `length` entries up to the permits, with somebody left to ask. */
  ghost predicate Fills(s: State, length: nat, bound: Op, events: seq<Event>, y: Op) {
    && Legal(s, events) && (forall e :: e in events ==> Filling(e, bound))
    && var t := After(s, events);
       y in t.holders && y !in t.submitted && y >= bound && length + Submits(events) >= s.permits
  }

  lemma FillsLater(s: State, e: Event, length: nat, bound: Op, events: seq<Event>, y: Op)
    requires Enabled(s, e) && Filling(e, bound)
    requires Fills(Apply(s, e), length + if e.Submit? then 1 else 0, bound, events, y)
    ensures Fills(s, length, bound, [e] + events, y)
  {
    assert ([e] + events)[1..] == events;
  }

  lemma FillsRest(s: State, length: nat, bound: Op, events: seq<Event>, y: Op)
    requires Fills(s, length, bound, events, y) && events != []
    ensures var e := events[0];
      && Enabled(s, e) && Filling(e, bound)
      && Fills(Apply(s, e), length + if e.Submit? then 1 else 0, bound, events[1..], y)
  {
    assert events[0] in events && forall e :: e in events[1..] ==> e in events;
  }

  /** The newcomers' Operations are nobody else's. */
  ghost predicate NoneFrom(claimed: set<Op>, submitted: set<Op>, bound: Op) {
    forall op :: op in claimed ==> op < bound || op in submitted
  }

  /** Holders for whom nothing is outstanding. */
  function Idlers(s: State): set<Op> {
    s.holders - AllOutstanding(s)
  }

  /** A place that holds everything outstanding and something stray besides can be filled. */
  lemma {:induction false} FillLane(s: State, length: nat, bound: Op) returns (events: seq<Event>, y: Op)
    requires Sound(s) && |Covered(s)| < length && |Covered(s)| < s.permits
    ensures Fills(s, length, bound, events, y)
    decreases |Idlers(s)|, s.permits - |s.holders|
  {
    hide Fills, Covered;
    if h :| h in Idlers(s) && (h in s.called || h !in s.submitted) {
      var e := if h in s.called then Leave(h) else Abandon(h);
      IdlerGoes(s, h, e);
      events, y := FillLane(Apply(s, e), length, bound);
      FillsLater(s, e, length, bound, events, y);
      events := [e] + events;
    } else {
      assert s.holders == Covered(s) by {
        OnlyCovered(s);
      }
      y := Fresh(s, bound);
      var t := Apply(s, Acquire(y));
      if length >= s.permits {
        events := [];
        AskNow(t, length, bound, y);
        FillsLater(s, Acquire(y), length, bound, events, y);
        events := [Acquire(y)] + events;
      } else {
        NewcomerSubmits(s, y);
        var first := y;
        events, y := FillLane(Apply(t, Submit({first})), length + 1, bound);
        FillsLater(t, Submit({first}), length, bound, events, y);
        events := [Submit({first})] + events;
        FillsLater(s, Acquire(first), length, bound, events, y);
        events := [Acquire(first)] + events;
      }
    }
  }

  lemma AskNow(s: State, length: nat, bound: Op, y: Op)
    requires y in s.holders && y !in s.submitted && y >= bound && length >= s.permits
    ensures Fills(s, length, bound, [], y)
  {
  }

  lemma OnlyCovered(s: State)
    requires forall h :: h in Idlers(s) ==> !(h in s.called || h !in s.submitted)
    ensures s.holders == Covered(s)
  {
    assert Idlers(s) == {};
  }

  lemma IdlerGoes(s: State, h: Op, e: Event)
    requires Sound(s) && h in Idlers(s) && e == if h in s.called then Leave(h) else Abandon(h)
    ensures Enabled(s, e) && Sound(Apply(s, e)) && Filling(e, 0)
    ensures Covered(Apply(s, e)) == Covered(s) && |Idlers(Apply(s, e))| < |Idlers(s)|
  {
    assert Idlers(Apply(s, e)) == Idlers(s) - {h};
    assert Covered(Apply(s, e)) == Covered(s);
  }

  lemma Fresh(s: State, bound: Op) returns (y: Op)
    ensures y >= bound && y !in s.holders && y !in s.submitted
  {
    y := Above(s.holders + s.submitted);
    y := if y < bound then bound else y;
  }

  lemma NewcomerSubmits(s: State, y: Op)
    requires Sound(s) && s.holders == Covered(s) && |s.holders| < s.permits && y !in s.holders && y !in s.submitted
    ensures var t := Apply(Apply(s, Acquire(y)), Submit({y}));
      && Sound(t) && t.holders == Covered(t) && |Covered(t)| == |Covered(s)| + 1 && t.permits == s.permits
      && Idlers(t) == Idlers(s) == {}
  {
    var t := Apply(Apply(s, Acquire(y)), Submit({y}));
    assert Covered(t) == Covered(s) + {y};
  }
}
