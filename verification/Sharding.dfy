/** Which shard owns a symbol (sharding.hpp). */
module Sharding {
  import opened Orders
  import opened ExclusiveOr

  const FNV_OFFSET: nat := 14695981039346656037

  const FNV_PRIME: nat := 1099511628211

  /** The inverse of the prime in a 64-bit word. */
  const FNV_INVERSE: nat := 14886173955864302971

  /** Multiply by the prime and wrap in a 64-bit word. */
  function Scale(x: nat): (r: nat)
    ensures r < WORD
  {
    x * FNV_PRIME % WORD
  }

  /** One round of FNV-1a: xor in a byte, multiply and wrap. */
  function Mix(hash: nat, c: Byte): nat {
    Scale(Xor(hash, c))
  }

  function Fnv1a(s: seq<Byte>): (r: nat)
    ensures r < WORD
  {
    if s == [] then FNV_OFFSET else Mix(Fnv1a(s[..|s| - 1]), s[|s| - 1])
  }

  /** One more byte of a hash, mixed into a word that is split at its low byte. */
  lemma OneMore(s: seq<Byte>, i: nat, high: nat, low: Byte, mixed: nat)
    requires i < |s| && Fnv1a(s[..i]) == 256 * high + low && Xor(low, s[i]) == mixed
    ensures Fnv1a(s[..i + 1]) == Scale(256 * high + mixed)
  {
    assert s[..i + 1][..i] == s[..i];
    XorByte(high, low, s[i]);
  }

  lemma LowBytes()
    ensures Xor(0x25, 0x61) == 0x44
    ensures Xor(0x25, 0x66) == 0x43
    ensures Xor(0xd9, 0x6f) == 0xb6
  {
    assert Xor(0, 1) == 1;
    assert Xor(1, 3) == 2;
    assert Xor(2, 6) == 4;
    assert Xor(4, 12) == 8;
    assert Xor(9, 24) == 17;
    assert Xor(18, 48) == 34;
    assert Xor(37, 97) == 68;
    assert Xor(9, 25) == 16;
    assert Xor(18, 51) == 33;
    assert Xor(37, 102) == 67;
    assert Xor(1, 0) == 1;
    assert Xor(3, 1) == 2;
    assert Xor(6, 3) == 5;
    assert Xor(13, 6) == 11;
    assert Xor(27, 13) == 22;
    assert Xor(54, 27) == 45;
    assert Xor(108, 55) == 91;
    assert Xor(217, 111) == 182;
  }

  lemma Products()
    ensures Scale(0xcbf29ce484222344) == 0xaf63dc4c8601ec8c
    ensures Scale(0xcbf29ce484222343) == 0xaf63db4c8601ead9
    ensures Scale(0xaf63db4c8601eab6) == 0x08985907b541d342
  {
  }

  /** The published FNV-1a hashes of the strings "a" and "fo". */
  lemma KnownHash(s: seq<Byte>)
    ensures s == [0x61] ==> Fnv1a(s) == 0xaf63dc4c8601ec8c
    ensures s == [0x66, 0x6f] ==> Fnv1a(s) == 0x08985907b541d342
  {
    LowBytes();
    Products();
    assert s[..|s|] == s;
    if s == [0x61] {
      OneMore(s, 0, 0xcbf29ce4842223, 0x25, 0x44);
    } else if s == [0x66, 0x6f] {
      OneMore(s, 0, 0xcbf29ce4842223, 0x25, 0x43);
      OneMore(s, 1, 0xaf63db4c8601ea, 0xd9, 0xb6);
    }
  }

  lemma Multiples(x: nat, m: int)
    requires x < WORD
    ensures (x + m * WORD) % WORD == x
  {
  }

  /** Multiplication by the prime is undone by its inverse in the word. */
  lemma ScaleBack(x: nat)
    requires x < WORD
    ensures Scale(x) * FNV_INVERSE % WORD == x
  {
    var q := x * FNV_PRIME / WORD;
    assert Scale(x) == x * FNV_PRIME - q * WORD;
    Multiples(x, 887285111055 * x - FNV_INVERSE * q);
  }

  /** A round loses nothing: it can be told which word and which byte went in. */
  lemma MixInjective(g: nat, h: nat, c: Byte, d: Byte)
    requires g < WORD && h < WORD && Mix(g, c) == Mix(h, d)
    ensures g == h <==> c == d
  {
    XorInWord(g, c);
    XorInWord(h, d);
    ScaleBack(Xor(g, c));
    ScaleBack(Xor(h, d));
    XorCancels(g, c);
    XorCancels(h, d);
    XorCommutes(g, c);
    XorCommutes(h, d);
    XorCancels(c, g);
    XorCancels(d, h);
  }

  /** Two symbols that differ in exactly one byte never have the same hash. */
  lemma {:induction false} EveryByteCounts(s: seq<Byte>, t: seq<Byte>, i: nat)
    requires i < |s| == |t| && s[i] != t[i]
    requires forall j :: 0 <= j < |s| && j != i ==> s[j] == t[j]
    ensures Fnv1a(s) != Fnv1a(t)
  {
    var n := |s| - 1;
    if i == n {
      assert s[..n] == t[..n];
    } else {
      EveryByteCounts(s[..n], t[..n], i);
    }
    if Fnv1a(s) == Fnv1a(t) {
      MixInjective(Fnv1a(s[..n]), Fnv1a(t[..n]), s[n], t[n]);
    }
  }

  /** The loop over the bytes of the symbol. */
  method Hash(s: seq<Byte>) returns (hash: nat)
    ensures hash == Fnv1a(s)
  {
    hash := FNV_OFFSET;
    for i := 0 to |s|
      invariant hash == Fnv1a(s[..i])
    {
      assert s[..i + 1][..i] == s[..i] && s[..i + 1][i] == s[i];
      hash := Xor(hash, s[i]);
      hash := hash * FNV_PRIME % WORD;
    }
    assert s[..|s|] == s;
  }

  /** How many shards there are; the source divides by it. */
  type ShardCount = n: nat | n > 0 witness 1

  function ShardFor(symbol: seq<Byte>, shards: ShardCount): (r: nat)
    ensures r < shards
  {
    Fnv1a(symbol) % shards
  }

  lemma Quotient(n: nat, d: ShardCount) returns (q: nat)
    ensures n == q * d + n % d
  {
    q := n / d;
  }

  /** The shard is what is left of the hash once all whole multiples of the shard count are taken off. */
  lemma ShardIsRemainder(symbol: seq<Byte>, shards: ShardCount) returns (q: nat)
    ensures Fnv1a(symbol) == q * shards + ShardFor(symbol, shards)
  {
    q := Quotient(Fnv1a(symbol), shards);
  }

  /** Of three shards, the last owns the symbol "fo"; of five, again the last. */
  lemma KnownShard(symbol: seq<Byte>)
    requires symbol == [0x66, 0x6f]
    ensures ShardFor(symbol, 3) == 2 && ShardFor(symbol, 5) == 4
  {
    KnownHash(symbol);
    KnownRemainders(Fnv1a(symbol));
  }

  lemma KnownRemainders(n: nat)
    requires n == 0x08985907b541d342
    ensures n % 5 == 4 && n % 3 == 2
  {
  }
}
