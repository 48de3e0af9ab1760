/** Bitwise exclusive or of unbounded words: what the hash of a symbol needs of it. */
module ExclusiveOr {
  import opened Orders

  /** Bitwise exclusive or. */
  function Xor(a: nat, b: nat): nat {
    if a == 0 && b == 0 then 0 else (a + b) % 2 + 2 * Xor(a / 2, b / 2)
  }

  lemma Halve(n: nat) returns (half: nat, bit: nat)
    ensures n == 2 * half + bit && bit < 2
  {
    half, bit := n / 2, n % 2;
  }

  lemma Halved(n: nat, i: nat)
    requires i < 2
    ensures (2 * n + i) / 2 == n && (2 * n + i) % 2 == i
  {
  }

  lemma Parity(m: nat, i: nat, j: nat)
    requires i < 2 && j < 2
    ensures (2 * m + i + j) % 2 == if i == j then 0 else 1
  {
  }

  /** Exclusive or bit by bit, from the lowest on. */
  lemma XorBit(a: nat, b: nat, i: nat, j: nat)
    requires i < 2 && j < 2
    ensures Xor(2 * a + i, 2 * b + j) == 2 * Xor(a, b) + if i == j then 0 else 1
  {
    Halved(a, i);
    Halved(b, j);
    Parity(a + b, i, j);
  }

  lemma {:induction false} XorZero(a: nat)
    ensures Xor(a, 0) == a
  {
    if a > 0 {
      XorZero(a / 2);
    }
  }

  lemma {:induction false} XorCommutes(a: nat, b: nat)
    ensures Xor(a, b) == Xor(b, a)
  {
    if a > 0 || b > 0 {
      XorCommutes(a / 2, b / 2);
    }
  }

  lemma XorCancelsBit(a: nat, b: nat, i: nat, j: nat)
    requires i < 2 && j < 2 && Xor(Xor(a, b), b) == a
    ensures Xor(Xor(2 * a + i, 2 * b + j), 2 * b + j) == 2 * a + i
  {
    XorBit(a, b, i, j);
    XorBit(Xor(a, b), b, if i == j then 0 else 1, j);
  }

  /** Exclusive or with the same number again brings back the other one. */
  lemma {:induction false} XorCancels(a: nat, b: nat)
    ensures Xor(Xor(a, b), b) == a
  {
    if a > 0 || b > 0 {
      var m, i := Halve(a);
      var n, j := Halve(b);
      XorCancels(m, n);
      XorCancelsBit(m, n, i, j);
    }
  }

  /** `h` followed by `k` zero bits. */
  function Shifted(h: nat, k: nat): nat {
    if k == 0 then h else 2 * Shifted(h, k - 1)
  }

  lemma XorLowBit(h: nat, low: nat, c: nat, i: nat, j: nat)
    requires i < 2 && j < 2 && Xor(h + low, c) == h + Xor(low, c)
    ensures Xor(2 * h + (2 * low + i), 2 * c + j) == 2 * h + Xor(2 * low + i, 2 * c + j)
  {
    XorBit(h + low, c, i, j);
    XorBit(low, c, i, j);
  }

  /** Exclusive or with a number of `k` bits leaves the bits above them as they are. */
  lemma {:induction false} XorLowBits(h: nat, low: nat, c: nat, k: nat)
    requires low < Shifted(1, k) && c < Shifted(1, k)
    ensures Xor(Shifted(h, k) + low, c) == Shifted(h, k) + Xor(low, c)
    decreases k
  {
    if k == 0 {
      XorZero(h);
    } else {
      var m, i := Halve(low);
      var n, j := Halve(c);
      XorLowBits(h, m, n, k - 1);
      XorLowBit(Shifted(h, k - 1), m, n, i, j);
    }
  }

  /** And what it makes of numbers of `k` bits is one. */
  lemma {:induction false} XorBelow(a: nat, b: nat, k: nat)
    requires a < Shifted(1, k) && b < Shifted(1, k)
    ensures Xor(a, b) < Shifted(1, k)
    decreases k
  {
    if k > 0 {
      var m, i := Halve(a);
      var n, j := Halve(b);
      XorBelow(m, n, k - 1);
      XorBit(m, n, i, j);
    }
  }

  lemma ShiftedByte(h: nat, k: nat)
    ensures Shifted(h, k + 8) == 256 * Shifted(h, k)
  {
    assert Shifted(h, k + 2) == 2 * Shifted(h, k + 1);
    assert Shifted(h, k + 4) == 2 * Shifted(h, k + 3);
    assert Shifted(h, k + 6) == 2 * Shifted(h, k + 5);
    assert Shifted(h, k + 8) == 2 * Shifted(h, k + 7);
  }

  lemma WordBits()
    ensures Shifted(1, 64) == WORD
  {
    for n := 0 to 8
      invariant Shifted(1, 8 * n) == [1, 0x100, 0x1_0000, 0x100_0000, 0x1_0000_0000, 0x100_0000_0000,
                                      0x1_0000_0000_0000, 0x100_0000_0000_0000, WORD][n]
    {
      ShiftedByte(1, 8 * n);
    }
  }

  lemma XorByte(high: nat, low: Byte, c: Byte)
    ensures Xor(256 * high + low, c) == 256 * high + Xor(low, c)
  {
    ShiftedByte(1, 0);
    ShiftedByte(high, 0);
    XorLowBits(high, low, c, 8);
  }

  lemma XorInWord(hash: nat, c: Byte)
    requires hash < WORD
    ensures Xor(hash, c) < WORD
  {
    WordBits();
    XorBelow(hash, c, 64);
  }
}
