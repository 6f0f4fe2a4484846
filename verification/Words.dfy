/** Unsigned 32-bit counters and the power-of-two ring slots they name.

    The kernel rings count with free-running 32-bit words and pick a slot with
    `counter & mask`.  The lemmas here relate a word to the unbounded position it
    stands for, across any number of wrap-arounds. */
module Words {
  const WORD: nat := 0x1_0000_0000

  type uint32 = x: nat | x < 0x1_0000_0000

  /** The word that represents an unbounded position. */
  function Word(position: nat): uint32 {
    position % WORD
  }

  function Add32(x: uint32, y: uint32): uint32 {
    (x + y) % WORD
  }

  function Sub32(x: uint32, y: uint32): uint32 {
    (x - y) % WORD
  }

  /** Bitwise conjunction, bit by bit. */
  function And(x: nat, y: nat): nat {
    if x == 0 || y == 0 then 0
    else 2 * And(x / 2, y / 2) + (if x % 2 == 1 && y % 2 == 1 then 1 else 0)
  }

  function Pow2(k: nat): (p: nat)
    ensures p > 0
  {
    if k == 0 then 1 else 2 * Pow2(k - 1)
  }

  /** Slot of a position in a ring of `n` entries: positions count around the ring. */
  function Slot(position: nat, n: nat): (slot: nat)
    requires n > 0
    ensures slot < n
  {
    if position < n then position else Slot(position - n, n)
  }

  lemma {:induction false} SlotIsMod(position: nat, n: nat)
    requires n > 0
    ensures Slot(position, n) == position % n
  {
    if position >= n {
      SlotIsMod(position - n, n);
      var q, r := (position - n) / n, (position - n) % n;
      assert (q + 1) * n == q * n + n;
      DivModUnique(position, n, q + 1, r);
    } else {
      DivModUnique(position, n, 0, position);
    }
  }

  lemma {:induction false} Pow2Divides(k: nat, m: nat)
    requires k <= m
    ensures Pow2(m) == Pow2(k) * Pow2(m - k)
    decreases m
  {
    if k < m {
      Pow2Divides(k, m - 1);
    }
  }

  lemma WordIsPow2()
    ensures Pow2(32) == WORD
  {
    assert Pow2(8) == 0x100;
    assert Pow2(16) == 0x1_0000;
    assert Pow2(24) == 0x100_0000;
  }

  lemma MulGap(a: nat, b: nat, n: nat)
    requires a < b
    ensures b * n >= a * n + n
  {
    assert b * n == a * n + (b - a) * n;
    assert (b - a) * n == (b - a - 1) * n + n;
  }

  lemma {:induction false} Pow2Small(k: nat)
    requires k < 32
    ensures Pow2(k) < WORD
    decreases 32 - k
  {
    if k < 31 {
      Pow2Small(k + 1);
    } else {
      WordIsPow2();
      assert Pow2(32) == 2 * Pow2(31);
    }
  }

  /** Division with remainder is unique. */
  lemma {:induction false} DivModUnique(x: nat, n: nat, q: nat, r: nat)
    requires r < n && x == q * n + r
    ensures x % n == r && x / n == q
  {
    var p := x / n;
    assert x == p * n + x % n;
    if q > p {
      MulGap(p, q, n);
    } else if q < p {
      MulGap(q, p, n);
    }
  }

  lemma ModDouble(x: nat, n: nat)
    requires n > 0
    ensures x % (2 * n) == 2 * ((x / 2) % n) + x % 2
  {
    var q, r := (x / 2) / n, (x / 2) % n;
    assert x / 2 == q * n + r;
    assert q * (2 * n) == 2 * (q * n);
    DivModUnique(x, 2 * n, q, 2 * r + x % 2);
  }

  /** A mask of `k` ones keeps the remainder modulo 2^k. */
  lemma {:induction false} AndMask(x: nat, k: nat)
    ensures And(x, Pow2(k) - 1) == x % Pow2(k)
    decreases k
  {
    if k > 0 {
      ModDouble(x, Pow2(k - 1));
      AndMask(x / 2, k - 1);
      AndOnes(x, Pow2(k - 1));
    }
  }

  lemma AndOnes(x: nat, n: nat)
    requires n > 0
    ensures And(x, 2 * n - 1) == 2 * And(x / 2, n - 1) + x % 2
  {
  }

  lemma Regroup(q: nat, n: nat, m: nat, a: nat)
    ensures q * (n * m) + a * n == (q * m + a) * n
  {
  }

  /** The remainder modulo n survives a remainder modulo a multiple of n. */
  lemma ModOfMod(x: nat, n: nat, m: nat, l: nat)
    requires n > 0 && l > 0 && l == n * m
    ensures (x % l) % n == x % n
  {
    var q, w := x / l, x % l;
    assert x == q * l + w && w == w / n * n + w % n;
    Regroup(q, n, m, w / n);
    DivModUnique(x, n, q * m + w / n, w % n);
  }

  /** The wrapped difference of two words is the true distance of their positions. */
  lemma {:induction false} Distance(head: nat, tail: nat)
    requires head <= tail < head + WORD
    ensures Sub32(Word(tail), Word(head)) == tail - head
  {
  }

  /** Less than a full turn apart, words agree exactly when positions do. */
  lemma WordsDiffer(p: nat, q: nat)
    requires p <= q < p + WORD
    ensures Word(p) == Word(q) <==> p == q
  {
  }

  lemma {:induction false} NextWord(position: nat)
    ensures Add32(Word(position), 1) == Word(position + 1)
  {
  }

  /** Masking the wrapped counter names the slot of the unbounded position. */
  lemma {:induction false} SlotOfWord(position: nat, k: nat)
    requires k <= 32
    ensures And(Word(position), Pow2(k) - 1) == Slot(position, Pow2(k))
  {
    AndMask(Word(position), k);
    SlotIsMod(position, Pow2(k));
    WordIsPow2();
    Pow2Divides(k, 32);
    ModOfMod(position, Pow2(k), Pow2(32 - k), WORD);
  }

  /** Positions less than one lap apart never share a slot. */
  lemma {:induction false} SlotsDiffer(p: nat, q: nat, n: nat)
    requires p < q < p + n
    ensures Slot(p, n) != Slot(q, n)
  {
    if p >= n {
      SlotsDiffer(p - n, q - n, n);
    }
  }

  // -------------------------------------------------------------- ring buffers

  /** A ring holds the part of a log that has been written and not yet read. */
  ghost predicate RingHolds<T>(ring: seq<T>, log: seq<T>, head: nat) {
    && |ring| > 0
    && head <= |log| <= head + |ring|
    && forall p :: head <= p < |log| ==> ring[Slot(p, |ring|)] == log[p]
  }

  /** Writing at the tail slot never touches an unread entry, as long as the ring is not full. */
  lemma RingPut<T>(ring: seq<T>, log: seq<T>, head: nat, x: T)
    requires RingHolds(ring, log, head) && |log| - head < |ring|
    ensures RingHolds(ring[Slot(|log|, |ring|) := x], log + [x], head)
  {
    forall p | head <= p < |log|
      ensures Slot(p, |ring|) != Slot(|log|, |ring|)
    {
      SlotsDiffer(p, |log|, |ring|);
    }
  }

  lemma RingTake<T>(ring: seq<T>, log: seq<T>, head: nat, n: nat)
    requires RingHolds(ring, log, head) && head + n <= |log|
    ensures RingHolds(ring, log, head + n)
  {
  }

  lemma RingPrefix<T>(ring: seq<T>, log: seq<T>, more: seq<T>, head: nat)
    requires RingHolds(ring, log + more, head) && head <= |log|
    ensures RingHolds(ring, log, head)
  {
  }

  /** With `more` written beyond the published `log`, one more entry leaves all of that alone. */
  lemma RingPutBeyond<T>(ring: seq<T>, log: seq<T>, more: seq<T>, head: nat, x: T)
    requires RingHolds(ring, log + more, head) && |log| + |more| - head < |ring| && head <= |log|
    ensures var put := ring[Slot(|log| + |more|, |ring|) := x];
      RingHolds(put, log + (more + [x]), head) && RingHolds(put, log + more, head) && RingHolds(put, log, head)
  {
    hide Slot;
    var put := ring[Slot(|log + more|, |ring|) := x];
    RingPut(ring, log + more, head, x);
    hide RingHolds;
    assert log + more + [x] == log + (more + [x]);
    RingPrefix(put, log + more, [x], head);
    RingPrefix(put, log, more, head);
  }

  /** The index array of a ring sends every pending position to its own slot. */
  ghost predicate Indirect(index: seq<uint32>, head: nat, tail: nat) {
    |index| > 0 && forall p :: head <= p < tail ==> index[Slot(p, |index|)] == Slot(p, |index|)
  }

  lemma IndirectPut(index: seq<uint32>, head: nat, tail: nat, before: nat)
    requires Indirect(index, head, tail) && |index| < WORD && head <= tail < head + |index| && before <= tail
    ensures var put := index[Slot(tail, |index|) := Slot(tail, |index|)];
            Indirect(put, head, tail + 1) && Indirect(put, head, before)
  {
  }
}
