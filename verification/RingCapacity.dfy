/** The ring's capacity and slot arithmetic (lockfree_order_queue.hpp): powers of two and masks. */
module RingCapacity {
  import opened Orders

  function Pow2(k: nat): (r: nat)
    ensures r > 0
  {
    if k == 0 then 1 else 2 * Pow2(k - 1)
  }

  /** `capacity_ <<= 1` in a 64-bit word. */
  function Shift(c: nat): nat {
    2 * c % WORD
  }

  lemma {:induction false} Pow2Grows(j: nat, k: nat)
    requires j < k
    ensures 0 < Pow2(j) && 2 * Pow2(j) <= Pow2(k)
  {
    if j + 1 < k {
      Pow2Grows(j, k - 1);
    } else if j > 0 {
      Pow2Grows(j - 1, j);
    }
  }

  lemma TopBit()
    ensures Pow2(63) == 0x8000_0000_0000_0000 && Pow2(64) == WORD
  {
    assert Pow2(8) == 0x100;
    assert Pow2(16) == 0x1_0000;
    assert Pow2(24) == 0x100_0000;
    assert Pow2(32) == 0x1_0000_0000;
    assert Pow2(40) == 0x100_0000_0000;
    assert Pow2(48) == 0x1_0000_0000_0000;
    assert Pow2(56) == 0x100_0000_0000_0000;
  }

  /** The constructor's loop finds the least power of two that is large enough. */
  method RoundUp(minCapacity: nat) returns (capacity: nat, k: nat)
    requires minCapacity <= 0x8000_0000_0000_0000
    ensures k <= 63 && capacity == Pow2(k) && minCapacity <= capacity
    ensures forall j :: 0 <= j < k ==> Pow2(j) < minCapacity
  {
    capacity, k := 1, 0;
    TopBit();
    while capacity < minCapacity
      invariant k <= 63 && capacity == Pow2(k)
      invariant forall j :: 0 <= j < k ==> Pow2(j) < minCapacity
      decreases 63 - k
    {
      assert k < 63;
      NoOverflow(k + 1);
      capacity := Shift(capacity);
      k := k + 1;
    }
  }

  /** The capacity after `n` turns of the loop. */
  function Shifted(n: nat): nat {
    if n == 0 then 1 else Shift(Shifted(n - 1))
  }

  lemma {:induction false} ShiftedValue(n: nat)
    ensures Shifted(n) == if n < 64 then Pow2(n) else 0
  {
    if n > 0 {
      ShiftedValue(n - 1);
      ShiftOnce(n);
    }
  }

  lemma ShiftOnce(n: nat)
    requires n > 0
    ensures Shift(if n - 1 < 64 then Pow2(n - 1) else 0) == if n < 64 then Pow2(n) else 0
  {
    if n < 64 {
      NoOverflow(n);
    } else if n == 64 {
      assert 2 * Pow2(63) == WORD by { TopBit(); }
    }
  }

  lemma NoOverflow(n: nat)
    requires 0 < n < 64
    ensures Shift(Pow2(n - 1)) == Pow2(n)
  {
    TopBit();
    Pow2Grows(n, 64);
    assert Pow2(n) < WORD;
  }

  /** The loop's guard fails at some turn if and only if the requested capacity is at most 2^63. */
  lemma RoundUpTerminates(minCapacity: nat)
    ensures (exists n :: Shifted(n) >= minCapacity) <==> minCapacity <= 0x8000_0000_0000_0000
  {
    TopBit();
    if minCapacity <= 0x8000_0000_0000_0000 {
      ShiftedValue(63);
    } else {
      forall n: nat ensures Shifted(n) < minCapacity {
        ShiftedValue(n);
        if n < 63 {
          Pow2Grows(n, 63);
        }
      }
    }
  }

  /** Bitwise and of two words. */
  function And(a: nat, b: nat): nat {
    if a == 0 || b == 0 then 0 else a % 2 * (b % 2) + 2 * And(a / 2, b / 2)
  }

  /** `i & mask_`, where the mask is the capacity less one. */
  function Slot(i: nat, k: nat): nat {
    And(i, Pow2(k) - 1)
  }

  lemma SlotHalves(i: nat, k: nat)
    requires k > 0
    ensures Slot(i, k) == i % 2 + 2 * Slot(i / 2, k - 1)
  {
  }

  /** A slot is an index of the buffer. */
  lemma {:induction false} SlotInRange(i: nat, k: nat)
    ensures Slot(i, k) < Pow2(k)
  {
    if k > 0 {
      SlotHalves(i, k);
      SlotInRange(i / 2, k - 1);
    }
  }

  /** Indices less than a capacity apart never share a slot. */
  lemma {:induction false} SlotsDiffer(i: nat, j: nat, k: nat)
    requires i < j < i + Pow2(k)
    ensures Slot(i, k) != Slot(j, k)
  {
    SlotHalves(i, k);
    SlotHalves(j, k);
    if i % 2 == j % 2 {
      SlotsDiffer(i / 2, j / 2, k - 1);
    }
  }

  /** The mask takes off whole turns around the ring. */
  lemma {:induction false} SlotIsRemainder(i: nat, k: nat) returns (turns: nat)
    ensures i == turns * Pow2(k) + Slot(i, k)
  {
    if k == 0 {
      turns := i;
    } else {
      turns := SlotIsRemainder(i / 2, k - 1);
      SlotHalves(i, k);
      TwiceAround(turns, Pow2(k - 1));
    }
  }

  lemma TwiceAround(turns: nat, half: nat)
    ensures 2 * (turns * half) == turns * (2 * half)
  {
  }
}
