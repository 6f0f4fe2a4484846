/** Lists without duplicates, and the bag arithmetic by which an element moves
    from one place to another and is neither lost nor copied. */
module Bags {
  predicate NoDup<T(==)>(xs: seq<T>) {
    forall i, j :: 0 <= i < j < |xs| ==> xs[i] != xs[j]
  }

  ghost function ToSet<T>(xs: seq<T>): set<T> {
    set x | x in xs
  }

  lemma NoDupSplit<T>(a: seq<T>, b: seq<T>)
    requires NoDup(a + b)
    ensures NoDup(a) && NoDup(b) && forall x :: x in b ==> x !in a
  {
    forall i, j | 0 <= i < j < |a|
      ensures a[i] != a[j]
    {
      assert (a + b)[i] == a[i] && (a + b)[j] == a[j];
    }
    forall i, j | 0 <= i < j < |b|
      ensures b[i] != b[j]
    {
      assert (a + b)[|a| + i] == b[i] && (a + b)[|a| + j] == b[j];
    }
    forall i, j | 0 <= i < |a| && 0 <= j < |b|
      ensures a[i] != b[j]
    {
      assert (a + b)[i] == a[i] && (a + b)[|a| + j] == b[j];
    }
  }

  lemma {:induction false} NoDupFits<T>(xs: seq<T>, s: set<T>)
    requires NoDup(xs) && forall x :: x in xs ==> x in s
    ensures |xs| <= |s|
  {
    if xs != [] {
      var n := |xs| - 1;
      NoDupFits(xs[..n], s - {xs[n]});
    }
  }

  lemma {:induction false} SetSize<T>(xs: seq<T>)
    requires NoDup(xs)
    ensures |ToSet(xs)| == |xs|
  {
    if xs != [] {
      var n := |xs| - 1;
      SetSize(xs[..n]);
      assert ToSet(xs) == ToSet(xs[..n]) + {xs[n]} && xs[n] !in xs[..n];
    }
  }

  lemma {:induction false} SetAtMost<T>(xs: seq<T>)
    ensures |ToSet(xs)| <= |xs|
  {
    if xs != [] {
      var n := |xs| - 1;
      SetAtMost(xs[..n]);
      assert ToSet(xs) == ToSet(xs[..n]) + {xs[n]};
    }
  }

  lemma NoDupConcat<T>(a: seq<T>, b: seq<T>)
    requires NoDup(a) && NoDup(b)
    requires forall x :: x in b ==> x !in a
    ensures NoDup(a + b)
  {
    forall i, j | 0 <= i < j < |a + b|
      ensures (a + b)[i] != (a + b)[j]
    {
      if i < |a| <= j {
        assert a[i] in a && b[j - |a|] in b;
      }
    }
  }

  lemma {:induction false} NoDupOnce<T>(ys: seq<T>, x: T)
    requires NoDup(ys)
    ensures multiset(ys)[x] <= 1
  {
    if ys != [] {
      var n := |ys| - 1;
      assert ys == ys[..n] + [ys[n]];
      NoDupOnce(ys[..n], x);
      if x == ys[n] {
        assert x !in ys[..n];
      }
    }
  }

  lemma NoDupSubbag<T>(xs: seq<T>, ys: seq<T>)
    requires NoDup(ys) && multiset(xs) <= multiset(ys)
    ensures NoDup(xs)
  {
    forall i, j | 0 <= i < j < |xs|
      ensures xs[i] != xs[j]
    {
      if xs[i] == xs[j] {
        var x := xs[i];
        assert xs == xs[..i] + [x] + xs[i + 1..j] + [x] + xs[j + 1..];
        assert multiset(xs)[x] >= 2;
        NoDupOnce(ys, x);
      }
    }
  }

  lemma SubbagMembers<T>(xs: seq<T>, ys: seq<T>)
    requires multiset(xs) <= multiset(ys)
    ensures forall x :: x in xs ==> x in ys
  {
    forall x | x in xs
      ensures x in ys
    {
      assert x in multiset(xs);
      assert x in multiset(ys);
    }
  }

  function Without<T>(xs: seq<T>, i: nat): seq<T>
    requires i < |xs|
  {
    xs[..i] + xs[i + 1..]
  }

  lemma TakeOut<T>(xs: seq<T>, i: nat)
    requires i < |xs|
    ensures multiset(xs) == multiset(Without(xs, i)) + multiset{xs[i]}
  {
    assert xs == xs[..i] + [xs[i]] + xs[i + 1..];
  }

  lemma SwapLast<T>(a: multiset<T>, b: multiset<T>, c: multiset<T>)
    ensures (a + b) + c == (a + c) + b
  {
  }

  lemma AddToBoth<T>(a: multiset<T>, b: multiset<T>, c: multiset<T>, d: multiset<T>, e: multiset<T>)
    requires a + b == c + d
    ensures (a + e) + b == (c + e) + d
  {
    assert (a + e) + b == (a + b) + e;
    assert (c + e) + d == (c + d) + e;
  }

  lemma ExtendBoth<T>(a: seq<T>, b: multiset<T>, c: multiset<T>, x: seq<T>)
    requires multiset(a) == b + c
    ensures multiset(a + x) == (b + multiset(x)) + c
  {
  }

  lemma MoveOne<T>(all: multiset<T>, before: multiset<T>, after: multiset<T>, rest: multiset<T>, done: multiset<T>,
                   x: T)
    requires all == before + done
    requires after + (multiset{x} + rest) == before + rest
    ensures all == after + (done + multiset{x})
  {
    assert forall y :: after[y] + multiset{x}[y] == before[y] by {
      forall y
        ensures after[y] + multiset{x}[y] == before[y]
      {
        assert (after + (multiset{x} + rest))[y] == (before + rest)[y];
      }
    }
  }
}
