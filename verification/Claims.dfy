/** The batch of Operations that one submit call claims.

    Every backend walks its arguments in order, takes each Operation's one-shot
    flag with an atomic exchange, and skips the ones that were already taken -
    by an earlier call, by another Context, or by an earlier copy in the same
    argument list. */
module Claims {
  import opened Bags

  /** The claims a walk over `args` makes when the members of `taken` cannot be claimed. */
  function FirstClaims<T(==)>(args: seq<T>, taken: set<T>): (claims: seq<T>) {
    if args == [] then []
    else
      var before := FirstClaims(args[..|args| - 1], taken);
      var last := args[|args| - 1];
      if last in taken || last in before then before else before + [last]
  }

  /** `x` occurs in `xs`, and its first occurrence comes before that of `y`. */
  ghost predicate OccursBefore<T>(xs: seq<T>, x: T, y: T) {
    exists i {:trigger xs[i]} :: 0 <= i < |xs| && xs[i] == x && y !in xs[..i + 1]
  }

  lemma {:induction false} ClaimsSnoc<T>(args: seq<T>, i: nat, taken: set<T>)
    requires i < |args|
    ensures var before := FirstClaims(args[..i], taken);
            FirstClaims(args[..i + 1], taken) ==
              if args[i] in taken || args[i] in before then before else before + [args[i]]
  {
    assert args[..i + 1][..i] == args[..i];
  }

  /** What a shorter walk claims is a prefix of what the longer one claims. */
  lemma {:induction false} ClaimsPrefix<T>(args: seq<T>, i: nat, taken: set<T>)
    requires i <= |args|
    ensures FirstClaims(args[..i], taken) <= FirstClaims(args, taken)
    decreases |args|
  {
    if i == |args| {
      assert args[..i] == args;
    } else {
      var n := |args| - 1;
      ClaimsPrefix(args[..n], i, taken);
      assert args[..n][..i] == args[..i];
    }
  }

  lemma {:induction false} ClaimsMembers<T>(args: seq<T>, taken: set<T>)
    ensures NoDup(FirstClaims(args, taken))
    ensures forall x :: x in FirstClaims(args, taken) <==> x in args && x !in taken
  {
    if args != [] {
      var n := |args| - 1;
      ClaimsMembers(args[..n], taken);
      assert args == args[..n] + [args[n]];
    }
  }

  /** What a batch claims, independently of how it is walked: exactly the free
      arguments, each once, in the order of their first occurrences. */
  lemma {:induction false} FirstClaimsExact<T>(args: seq<T>, taken: set<T>)
    ensures var claims := FirstClaims(args, taken);
            && NoDup(claims)
            && (forall x :: x in claims <==> x in args && x !in taken)
            && (forall i, j :: 0 <= i < j < |claims| ==> OccursBefore(args, claims[i], claims[j]))
  {
    ClaimsMembers(args, taken);
    if args != [] {
      var n := |args| - 1;
      FirstClaimsExact(args[..n], taken);
      var before, claims := FirstClaims(args[..n], taken), FirstClaims(args, taken);
      forall i, j | 0 <= i < j < |claims|
        ensures OccursBefore(args, claims[i], claims[j])
      {
        if j < |before| {
          assert OccursBefore(args[..n], before[i], before[j]);
          var k :| 0 <= k < n && args[..n][k] == before[i] && before[j] !in args[..n][..k + 1];
          assert args[..n][..k + 1] == args[..k + 1];
          assert args[k] == claims[i];
        } else {
          NewClaimComesLast(args, taken, claims[i]);
        }
      }
    }
  }

  lemma NewClaimComesLast<T>(args: seq<T>, taken: set<T>, x: T)
    requires args != []
    requires var n := |args| - 1;
             && x in FirstClaims(args[..n], taken)
             && args[n] !in taken && args[n] !in FirstClaims(args[..n], taken)
    ensures OccursBefore(args, x, args[|args| - 1])
  {
    var n := |args| - 1;
    ClaimsMembers(args[..n], taken);
    assert x in args[..n];
    var k :| 0 <= k < n && args[..n][k] == x;
    assert args[n] !in args[..n];
    assert forall i :: 0 <= i <= k ==> args[i] == args[..n][i];
    assert args[k] == x;
  }

  /** That description leaves no freedom: it determines the claims. */
  lemma {:induction false} FirstClaimsUnique<T>(args: seq<T>, taken: set<T>, claims: seq<T>)
    requires NoDup(claims)
    requires forall x :: x in claims <==> x in args && x !in taken
    requires forall i, j :: 0 <= i < j < |claims| ==> OccursBefore(args, claims[i], claims[j])
    ensures claims == FirstClaims(args, taken)
  {
    var spec := FirstClaims(args, taken);
    FirstClaimsExact(args, taken);
    SameOrder(args, claims, spec);
  }

  lemma {:induction false} SameOrder<T>(args: seq<T>, a: seq<T>, b: seq<T>)
    requires NoDup(a) && NoDup(b)
    requires forall x :: x in a <==> x in b
    requires forall i, j :: 0 <= i < j < |a| ==> OccursBefore(args, a[i], a[j])
    requires forall i, j :: 0 <= i < j < |b| ==> OccursBefore(args, b[i], b[j])
    ensures a == b
  {
    assert a == [] || a[0] in b;
    assert b == [] || b[0] in a;
    if a != [] && b != [] {
      if a[0] != b[0] {
        assert a[0] in b && b[0] in a;
        var i :| 0 <= i < |b| && b[i] == a[0];
        var j :| 0 <= j < |a| && a[j] == b[0];
        assert OccursBefore(args, a[0], a[j]) && OccursBefore(args, b[0], b[i]);
        BeforeAsymmetric(args, a[0], b[0]);
      }
      assert forall x :: x in a[1..] <==> x in a && x != a[0];
      assert forall x :: x in b[1..] <==> x in b && x != b[0];
      SameOrder(args, a[1..], b[1..]);
      assert a == [a[0]] + a[1..] && b == [b[0]] + b[1..];
    }
  }

  lemma BeforeAsymmetric<T>(xs: seq<T>, x: T, y: T)
    requires OccursBefore(xs, x, y)
    ensures !OccursBefore(xs, y, x)
  {
  }


  // --------------------------------------- walking a batch and marking its claims

  /** Exactly the members of `taken` are marked; everything else is as it was. */
  ghost function Marked<A, O>(was: map<A, O>, taken: seq<A>, mark: O -> O): map<A, O> {
    map a | a in was :: if a in taken then mark(was[a]) else was[a]
  }

  /** A submit loop after `i` arguments, when everything it claimed was accepted. */
  ghost predicate Walked<A, O>(args: seq<A>, i: nat, was: map<A, O>, busy: set<A>, mark: O -> O,
                               now: map<A, O>, accepted: seq<A>) {
    && i <= |args| && ToSet(args) <= was.Keys
    && accepted == FirstClaims(args[..i], busy)
    && now == Marked(was, accepted, mark)
  }

  lemma WalkStarts<A, O>(args: seq<A>, was: map<A, O>, busy: set<A>, mark: O -> O)
    requires ToSet(args) <= was.Keys
    ensures Walked(args, 0, was, busy, mark, was, [])
  {
  }

  lemma WalkNext<A, O>(args: seq<A>, i: nat, was: map<A, O>, busy: set<A>, mark: O -> O, now: map<A, O>,
                       accepted: seq<A>)
    requires Walked(args, i, was, busy, mark, now, accepted) && i < |args|
    ensures var a := args[i];
      && a in now
      && if a in busy || a in accepted then Walked(args, i + 1, was, busy, mark, now, accepted)
         else now[a] == was[a] && Walked(args, i + 1, was, busy, mark, now[a := mark(now[a])], accepted + [a])
    ensures args[i] in accepted ==> now[args[i]] == mark(was[args[i]])
    ensures args[i] !in accepted ==> now[args[i]] == was[args[i]]
  {
    var a := args[i];
    assert a in ToSet(args);
    ClaimsSnoc(args, i, busy);
    hide FirstClaims;
    if a !in busy && a !in accepted {
      assert now[a := mark(now[a])] == Marked(was, accepted + [a], mark);
    }
  }

  lemma WalkedMarks<A, O>(args: seq<A>, i: nat, was: map<A, O>, busy: set<A>, mark: O -> O, now: map<A, O>,
                          accepted: seq<A>)
    requires Walked(args, i, was, busy, mark, now, accepted)
    ensures now == Marked(was, accepted, mark)
  {
  }

  /** Wherever the loop stops, what was accepted is a prefix of the batch's claims - a proper one when it stops
      in front of a free Operation. */
  lemma WalkStops<A, O>(args: seq<A>, i: nat, was: map<A, O>, busy: set<A>, mark: O -> O, now: map<A, O>,
                        accepted: seq<A>)
    requires Walked(args, i, was, busy, mark, now, accepted)
    ensures var claims := FirstClaims(args, busy);
      && accepted <= claims
      && (i == |args| ==> accepted == claims)
      && (i < |args| && args[i] !in busy && args[i] !in accepted ==>
            |accepted| < |claims| && claims[|accepted|] == args[i])
  {
    ClaimsPrefix(args, i, busy);
    assert args[..|args|] == args;
    if i < |args| && args[i] !in busy && args[i] !in accepted {
      ClaimsSnoc(args, i, busy);
      ClaimsPrefix(args, i + 1, busy);
    }
  }
}
