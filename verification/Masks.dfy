/** Affinity masks of the thread pool: unsigned 64-bit words used as sets of worker indices. */
module Masks {

  const SIZE_MAX: nat := 0xFFFF_FFFF_FFFF_FFFF

  function Pow2(i: nat): nat {
    if i == 0 then 1 else 2 * Pow2(i - 1)
  }

  predicate Bit(m: nat, i: nat) {
    if i == 0 then m % 2 == 1 else Bit(m / 2, i - 1)
  }

  /** Bitwise and. */
  function And(a: nat, b: nat): nat {
    if a == 0 || b == 0 then 0
    else (if a % 2 == 1 && b % 2 == 1 then 1 else 0) + 2 * And(a / 2, b / 2)
  }

  /** The affinity of the worker with index `idx`; the shift is that of a 32-bit int. */
  function Affinity(idx: nat): nat
    requires idx < 31
  {
    Pow2(idx)
  }

  predicate Matches(mask: nat, idx: nat)
    requires idx < 31
  {
    And(Affinity(idx), mask) != 0
  }

  /** The early-exit test of `push` and `clear` with n workers; n - 1 wraps around at zero. */
  predicate GuardPasses(mask: nat, n: nat) {
    And(mask, if n == 0 then SIZE_MAX else n - 1) != 0
  }

  lemma {:induction false} BitOfZero(i: nat)
    ensures !Bit(0, i)
  {
    if i > 0 {
      BitOfZero(i - 1);
    }
  }

  lemma Halve(low: nat, high: nat)
    requires low < 2
    ensures (low + 2 * high) % 2 == low && (low + 2 * high) / 2 == high
  {
  }

  lemma {:induction false} BitOfAnd(a: nat, b: nat, i: nat)
    ensures Bit(And(a, b), i) <==> Bit(a, i) && Bit(b, i)
    decreases i
  {
    if a == 0 || b == 0 {
      BitOfZero(i);
    } else {
      var low := if a % 2 == 1 && b % 2 == 1 then 1 else 0;
      var c, high := And(a, b), And(a / 2, b / 2);
      assert c == low + 2 * high;
      Halve(low, high);
      if i > 0 {
        BitOfAnd(a / 2, b / 2, i - 1);
      }
    }
  }

  lemma {:induction false} SomeBit(m: nat) returns (i: nat)
    requires m != 0
    ensures Bit(m, i)
  {
    if m % 2 == 1 {
      i := 0;
    } else {
      var j := SomeBit(m / 2);
      i := j + 1;
    }
  }

  lemma {:induction false} BitBound(m: nat, i: nat)
    requires Bit(m, i)
    ensures i < Pow2(i) <= m
  {
    if i > 0 {
      BitBound(m / 2, i - 1);
    }
  }

  lemma {:induction false} BitOfPow2(i: nat, j: nat)
    ensures Bit(Pow2(i), j) <==> i == j
  {
    if j == 0 {
    } else if i == 0 {
      BitOfZero(j - 1);
    } else {
      assert Pow2(i) / 2 == Pow2(i - 1);
      BitOfPow2(i - 1, j - 1);
    }
  }

  /** A mask matches a worker just when the worker's bit is set. */
  lemma MatchesIffBit(mask: nat, idx: nat)
    requires idx < 31
    ensures Matches(mask, idx) <==> Bit(mask, idx)
  {
    BitOfPow2(idx, idx);
    BitOfAnd(Pow2(idx), mask, idx);
    if Matches(mask, idx) {
      var i := SomeBit(And(Pow2(idx), mask));
      BitOfAnd(Pow2(idx), mask, i);
      BitOfPow2(idx, i);
    } else {
      BitOfZero(idx);
    }
  }

  /** A mask that passes the early-exit test matches a worker, for every number of workers with defined affinities. */
  lemma GuardFindsWorker(mask: nat, n: nat) returns (idx: nat)
    requires 0 < n <= 31 && GuardPasses(mask, n)
    ensures idx < n && Matches(mask, idx)
  {
    idx := SomeBit(And(mask, n - 1));
    BitOfAnd(mask, n - 1, idx);
    BitBound(n - 1, idx);
    MatchesIffBit(mask, idx);
  }

  /**
   The test is too strict for every such number of workers: the mask of the last worker alone matches that worker and
   is rejected.
   */
  lemma GuardRejectsLastWorker(n: nat)
    requires 0 < n <= 31
    ensures Matches(Affinity(n - 1), n - 1) && !GuardPasses(Affinity(n - 1), n)
  {
    BitOfPow2(n - 1, n - 1);
    MatchesIffBit(Pow2(n - 1), n - 1);
    if GuardPasses(Pow2(n - 1), n) {
      var i := SomeBit(And(Pow2(n - 1), n - 1));
      BitOfAnd(Pow2(n - 1), n - 1, i);
      BitOfPow2(n - 1, i);
      BitBound(n - 1, i);
    }
  }

  /**
   Which masks are admitted: those that match some worker whose index is a bit of n - 1. A mask that only fits other
   workers is rejected.
   */
  lemma GuardPassesIff(mask: nat, n: nat)
    requires 0 < n <= 31
    ensures GuardPasses(mask, n) <==> exists i: nat :: i < n && Matches(mask, i) && Bit(n - 1, i)
  {
    if GuardPasses(mask, n) {
      var i := SomeBit(And(mask, n - 1));
      BitOfAnd(mask, n - 1, i);
      BitBound(n - 1, i);
      MatchesIffBit(mask, i);
    } else {
      forall i: nat | i < n ensures !(Matches(mask, i) && Bit(n - 1, i)) {
        BitOfZero(i);
        BitOfAnd(mask, n - 1, i);
        MatchesIffBit(mask, i);
      }
    }
  }

  lemma {:induction false} BitOfOnes(k: nat, i: nat)
    ensures Pow2(k) > 0 && (Bit(Pow2(k) - 1, i) <==> i < k)
  {
    if k == 0 {
      BitOfZero(i);
    } else {
      BitOfOnes(k - 1, if i == 0 then 0 else i - 1);
      var ones := Pow2(k - 1) - 1;
      assert Pow2(k) - 1 == 1 + 2 * ones;
      Halve(1, ones);
    }
  }

  lemma EightMore(i: nat, v: nat)
    requires Pow2(i) == v
    ensures Pow2(i + 8) == 256 * v
  {
    assert Pow2(i + 2) == 4 * v;
    assert Pow2(i + 4) == 16 * v;
    assert Pow2(i + 6) == 64 * v;
  }

  lemma WordOfOnes()
    ensures Pow2(64) - 1 == SIZE_MAX
  {
    assert Pow2(0) == 1;
    hide Pow2;
    EightMore(0, 1);
    EightMore(8, 0x100);
    EightMore(16, 0x1_0000);
    EightMore(24, 0x100_0000);
    EightMore(32, 0x1_0000_0000);
    EightMore(40, 0x100_0000_0000);
    EightMore(48, 0x1_0000_0000_0000);
    EightMore(56, 0x100_0000_0000_0000);
  }

  /** Without workers every mask with one of its 64 bits set is admitted. */
  lemma GuardWithoutWorkers(mask: nat)
    ensures GuardPasses(mask, 0) <==> exists i: nat :: i < 64 && Bit(mask, i)
  {
    WordOfOnes();
    if GuardPasses(mask, 0) {
      var i := SomeBit(And(mask, SIZE_MAX));
      BitOfAnd(mask, SIZE_MAX, i);
      BitOfOnes(64, i);
    } else {
      forall i: nat | i < 64 ensures !Bit(mask, i) {
        BitOfZero(i);
        BitOfAnd(mask, SIZE_MAX, i);
        BitOfOnes(64, i);
      }
    }
  }

  /**
   The mask of one worker alone is admitted just when its index is a bit of n - 1; a pool of one worker admits
   nothing.
   */
  lemma GuardOnOneWorker(idx: nat, n: nat)
    requires idx < n <= 31
    ensures GuardPasses(Affinity(idx), n) <==> Bit(n - 1, idx)
    ensures n == 1 ==> forall mask :: !GuardPasses(mask, n)
  {
    GuardPassesIff(Affinity(idx), n);
    forall i: nat | i < n ensures Matches(Affinity(idx), i) <==> i == idx {
      MatchesIffBit(Affinity(idx), i);
      BitOfPow2(idx, i);
    }
    var i: nat := idx;
    assert i < n && Matches(Affinity(idx), i);
    assert forall mask :: And(mask, 0) == 0;
  }
}
